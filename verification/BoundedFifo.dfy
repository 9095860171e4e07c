/** The atomic bounded queue that the ring mailbox promises to its callers: the
    specification shared by the sequential ring, its guarded concurrent version
    and the mailbox of an actor.
 */
module BoundedFifo {

  datatype Op<T> = Enqueue(item: T) | Dequeue | ShallowDequeue

  datatype Outcome<T> = Accepted | Refused | Taken(item: T) | Dropped | WasEmpty

  /** One atomic call: the queue it leaves, what the caller sees, and which items it put in and took out. */
  datatype Effect<T> = Effect(queue: seq<T>, outcome: Outcome<T>, admitted: seq<T>, removed: seq<T>)

  function Apply<T>(queue: seq<T>, op: Op<T>, capacity: nat, overwrite: bool): Effect<T>
    requires overwrite ==> 0 < capacity
    requires |queue| <= capacity
  {
    match op
    case Enqueue(item) =>
      if |queue| < capacity then Effect(queue + [item], Accepted, [item], [])
      else if overwrite then Effect(queue[1..] + [item], Accepted, [item], [queue[0]])
      else Effect(queue, Refused, [], [])
    case Dequeue =>
      if queue == [] then Effect(queue, WasEmpty, [], [])
      else Effect(queue[1..], Taken(queue[0]), [], [queue[0]])
    case ShallowDequeue =>
      if queue == [] then Effect(queue, WasEmpty, [], [])
      else Effect(queue[1..], Dropped, [], [queue[0]])
  }

  /** One call: what was held and what came in is what goes out and what is held, in this order. */
  lemma ApplyConserves<T>(queue: seq<T>, op: Op<T>, capacity: nat, overwrite: bool)
    requires overwrite ==> 0 < capacity
    requires |queue| <= capacity
    ensures var effect := Apply(queue, op, capacity, overwrite);
            queue + effect.admitted == effect.removed + effect.queue
  {}

  /** What each call does, told from the queue before it: when it succeeds, what it puts in at the end and
      what it takes off the front, and what its caller sees of that. */
  lemma ApplyMeans<T>(queue: seq<T>, op: Op<T>, capacity: nat, overwrite: bool)
    requires overwrite ==> 0 < capacity
    requires |queue| <= capacity
    ensures var effect := Apply(queue, op, capacity, overwrite);
            && effect.admitted == (if op.Enqueue? && (|queue| < capacity || overwrite) then [op.item] else [])
            && effect.removed == (if op.Enqueue? && (|queue| < capacity || !overwrite) then [] else queue[..Min(1, |queue|)])
            && effect.queue == queue[|effect.removed|..] + effect.admitted
            && effect.outcome == (if op.Enqueue? then if effect.admitted == [op.item] then Accepted else Refused
                                  else if queue == [] then WasEmpty
                                  else if op.Dequeue? then Taken(queue[0]) else Dropped)
  {}

  function Min(a: nat, b: nat): nat {
    if a < b then a else b
  }

  /** A recorded call: the operation and the outcome its caller got. */
  datatype Call<T> = Call(op: Op<T>, outcome: Outcome<T>)

  /** What a whole history of calls, made one after the other on an empty queue, leads to. */
  datatype Replay<T> = Replay(queue: seq<T>, legal: bool, admitted: seq<T>, removed: seq<T>)

  function ReplayAll<T(==)>(history: seq<Call<T>>, capacity: nat, overwrite: bool): (r: Replay<T>)
    requires overwrite ==> 0 < capacity
    ensures |r.queue| <= capacity
  {
    if history == [] then Replay([], true, [], [])
    else
      var before := ReplayAll(history[..|history| - 1], capacity, overwrite);
      var call := history[|history| - 1];
      var effect := Apply(before.queue, call.op, capacity, overwrite);
      Replay(effect.queue, before.legal && call.outcome == effect.outcome,
             before.admitted + effect.admitted, before.removed + effect.removed)
  }

  lemma Regroup<T>(admitted: seq<T>, removed: seq<T>, queue: seq<T>, entering: seq<T>, leaving: seq<T>, after: seq<T>)
    requires admitted == removed + queue && queue + entering == leaving + after
    ensures admitted + entering == (removed + leaving) + after
  {
    assert admitted + entering == removed + (queue + entering);
  }

  /** First in, first out, exactly once: over any history the admitted items are the
      removed ones followed by those still held, in the same order. */
  lemma {:induction false} ItemsLeaveInArrivalOrder<T>(history: seq<Call<T>>, capacity: nat, overwrite: bool)
    requires overwrite ==> 0 < capacity
    ensures var r := ReplayAll(history, capacity, overwrite); r.admitted == r.removed + r.queue
  {
    if history != [] {
      ItemsLeaveInArrivalOrder(history[..|history| - 1], capacity, overwrite);
      var before := ReplayAll(history[..|history| - 1], capacity, overwrite);
      ApplyConserves(before.queue, history[|history| - 1].op, capacity, overwrite);
      var effect := Apply(before.queue, history[|history| - 1].op, capacity, overwrite);
      Regroup(before.admitted, before.removed, before.queue, effect.admitted, effect.removed, effect.queue);
    }
  }

  /** The items of the enqueues that were accepted, as the calls themselves tell. */
  function AcceptedItems<T(==)>(history: seq<Call<T>>): seq<T> {
    if history == [] then []
    else
      var call := history[|history| - 1];
      AcceptedItems(history[..|history| - 1]) + if call.op.Enqueue? && call.outcome == Accepted then [call.op.item] else []
  }

  /** What a legal history says about each of its calls, given the queue that the calls before it left. */
  ghost predicate Answered<T>(call: Call<T>, queue: seq<T>, capacity: nat, overwrite: bool) {
    match call.op
    case Enqueue(_) => call.outcome == if |queue| < capacity || overwrite then Accepted else Refused
    case Dequeue => call.outcome == if queue == [] then WasEmpty else Taken(queue[0])
    case ShallowDequeue => call.outcome == if queue == [] then WasEmpty else Dropped
  }

  ghost predicate AllAnswered<T>(history: seq<Call<T>>, capacity: nat, overwrite: bool)
    requires overwrite ==> 0 < capacity
  {
    forall k | 0 <= k < |history| :: AnsweredAt(history, k, capacity, overwrite)
  }

  ghost predicate AnsweredAt<T>(history: seq<Call<T>>, k: nat, capacity: nat, overwrite: bool)
    requires (overwrite ==> 0 < capacity) && k < |history|
  {
    Answered(history[k], ReplayAll(history[..k], capacity, overwrite).queue, capacity, overwrite)
  }

  /** A history is legal exactly when every call got the answer that the queue before it calls for. */
  lemma {:induction false} LegalIffAnswered<T>(history: seq<Call<T>>, capacity: nat, overwrite: bool)
    requires overwrite ==> 0 < capacity
    ensures ReplayAll(history, capacity, overwrite).legal <==> AllAnswered(history, capacity, overwrite)
  {
    if history != [] {
      var n := |history| - 1;
      LegalIffAnswered(history[..n], capacity, overwrite);
      LastIsAnswered(history, capacity, overwrite);
      forall k | 0 <= k < n
        ensures AnsweredAt(history[..n], k, capacity, overwrite) == AnsweredAt(history, k, capacity, overwrite)
      {
        assert history[..n][..k] == history[..k];
      }
    }
  }

  lemma LastIsAnswered<T>(history: seq<Call<T>>, capacity: nat, overwrite: bool)
    requires (overwrite ==> 0 < capacity) && history != []
    ensures var n := |history| - 1;
            ReplayAll(history, capacity, overwrite).legal
            <==> ReplayAll(history[..n], capacity, overwrite).legal && AnsweredAt(history, n, capacity, overwrite)
  {
    var n := |history| - 1;
    ApplyMeans(ReplayAll(history[..n], capacity, overwrite).queue, history[n].op, capacity, overwrite);
  }

  /** The items admitted over a legal history are those of the accepted enqueues, in order. */
  lemma {:induction false} LegalAdmitsAccepted<T>(history: seq<Call<T>>, capacity: nat, overwrite: bool)
    requires overwrite ==> 0 < capacity
    requires ReplayAll(history, capacity, overwrite).legal
    ensures ReplayAll(history, capacity, overwrite).admitted == AcceptedItems(history)
  {
    if history != [] {
      var n := |history| - 1;
      LegalAdmitsAccepted(history[..n], capacity, overwrite);
      ApplyMeans(ReplayAll(history[..n], capacity, overwrite).queue, history[n].op, capacity, overwrite);
    }
  }

  /** The item that a dequeue takes is the next of the accepted ones that has not been removed before. */
  lemma TakenInTurn<T>(history: seq<Call<T>>, k: nat, capacity: nat, overwrite: bool)
    requires overwrite ==> 0 < capacity
    requires ReplayAll(history, capacity, overwrite).legal && k < |history| && history[k].outcome.Taken?
    ensures var before := ReplayAll(history[..k], capacity, overwrite);
            && history[k].op.Dequeue?
            && |before.removed| < |AcceptedItems(history[..k])|
            && history[k].outcome.item == AcceptedItems(history[..k])[|before.removed|]
  {
    var before := ReplayAll(history[..k], capacity, overwrite);
    LegalIffAnswered(history, capacity, overwrite);
    assert AnsweredAt(history, k, capacity, overwrite);
    PrefixIsLegal(history, k, capacity, overwrite);
    LegalAdmitsAccepted(history[..k], capacity, overwrite);
    ItemsLeaveInArrivalOrder(history[..k], capacity, overwrite);
  }

  lemma {:induction false} PrefixIsLegal<T>(history: seq<Call<T>>, k: nat, capacity: nat, overwrite: bool)
    requires overwrite ==> 0 < capacity
    requires ReplayAll(history, capacity, overwrite).legal && k <= |history|
    ensures ReplayAll(history[..k], capacity, overwrite).legal
  {
    if k < |history| {
      var n := |history| - 1;
      PrefixIsLegal(history[..n], k, capacity, overwrite);
      assert history[..n][..k] == history[..k];
    } else {
      assert history[..k] == history;
    }
  }
}
