/** The ring mailbox of vee/queue.h under any number of threads. One guard protects the
    indices; each slot has a guard of its own, taken while the index guard is still held
    and kept until the slot has been read or written.

    A step is one atomic action of one thread. A thread that spins on a taken guard takes
    no step. Guards record their holder, which the real flag does not, and queue and history
    record what the atomic queue would do; nothing branches on these three. */
module RingGuards {
  import opened Wrappers
  import opened ThreadSums
  import opened BoundedFifo
  import opened RingIndex

  datatype Stage<T> =
    | Entering                                         // spins on the index guard
    | Inside                                           // holds the index guard
    | Reserved(at: nat, call: nat)                     // has moved the indices, spins on the slot guard
    | HandOver(at: nat, call: nat)                     // holds both guards
    | OwnsSlot(at: nat, call: nat)                     // holds the slot guard, slot not yet touched
    | Leaving(at: nat, call: nat, outcome: Outcome<T>) // slot touched, about to free its guard
    | Releasing(call: nat, outcome: Outcome<T>)        // no slot needed, about to free the index guard

  datatype Thread<T> =
    | Outside
    | Busy(op: Op<T>, stage: Stage<T>)
    | Returned(op: Op<T>, call: nat, outcome: Outcome<T>)

  datatype State<T> = State(
    overwrite: bool,
    adopting: bool,             // slot guards are adopted without being locked
    slots: seq<T>,
    rear: nat,
    front: nat,
    size: nat,
    indexGuard: Option<nat>,
    slotGuards: seq<Option<nat>>,
    threads: seq<Thread<T>>,
    queue: seq<T>,              // the atomic queue, after the calls of the history
    history: seq<Call<T>>)      // the calls in the order of their index updates

  datatype Action<T> =
    | Invoke(t: nat, op: Op<T>)
    | LockIndex(t: nat)
    | UpdateIndices(t: nat)
    | LockSlot(t: nat)
    | UnlockIndex(t: nat)
    | Access(t: nat)
    | UnlockSlot(t: nat)

  ghost predicate Init<T>(s: State<T>) {
    && (s.overwrite ==> 0 < |s.slots|)
    && s.rear == s.front == s.size == 0
    && s.indexGuard == None
    && |s.slotGuards| == |s.slots|
    && (forall k | 0 <= k < |s.slotGuards| :: s.slotGuards[k] == None)
    && (forall t | 0 <= t < |s.threads| :: s.threads[t] == Outside)
    && s.queue == [] && s.history == []
  }

  ghost predicate Enabled<T>(s: State<T>, a: Action<T>) {
    && a.t < |s.threads|
    && match a
       case Invoke(t, _) => !s.threads[t].Busy?
       case LockIndex(t) => At(s, t, Entering) && s.indexGuard == None
       case UpdateIndices(t) => At(s, t, Inside) && Sized(s)
       case LockSlot(t) => s.threads[t].Busy? && s.threads[t].stage.Reserved?
                           && s.threads[t].stage.at < |s.slotGuards|
                           && (s.adopting || s.slotGuards[s.threads[t].stage.at] == None)
       case UnlockIndex(t) => s.threads[t].Busy? && (s.threads[t].stage.HandOver? || s.threads[t].stage.Releasing?)
       case Access(t) => s.threads[t].Busy? && s.threads[t].stage.OwnsSlot? && s.threads[t].stage.at < |s.slots|
       case UnlockSlot(t) => s.threads[t].Busy? && s.threads[t].stage.Leaving? && s.threads[t].stage.at < |s.slotGuards|
  }

  ghost predicate At<T>(s: State<T>, t: nat, stage: Stage<T>)
    requires t < |s.threads|
  {
    s.threads[t].Busy? && s.threads[t].stage == stage
  }

  /** Index arithmetic and the atomic queue are defined: what Update needs. */
  ghost predicate Sized<T>(s: State<T>) {
    && |s.queue| <= |s.slots|
    && (s.overwrite ==> 0 < |s.slots|)
    && (|s.slots| == 0 ==> s.size == 0)
  }

  ghost function Move<T>(s: State<T>, t: nat, stage: Stage<T>): State<T>
    requires t < |s.threads| && s.threads[t].Busy?
  {
    s.(threads := s.threads[t := Busy(s.threads[t].op, stage)])
  }

  /** The index update of enqueue, dequeue or shallow_dequeue, inside the index guard. */
  ghost function Update<T>(s: State<T>, t: nat): State<T>
    requires t < |s.threads| && s.threads[t].Busy? && Sized(s)
  {
    var op := s.threads[t].op;
    var n := |s.slots|;
    var call := |s.history|;
    var effect := Apply(s.queue, op, n, s.overwrite);
    var logged := s.(queue := effect.queue, history := s.history + [Call(op, effect.outcome)]);
    match op
    case Enqueue(_) =>
      if s.size == n && !s.overwrite then Move(logged, t, Releasing(call, Refused))
      else if s.size == n then
        Move(logged.(rear := (s.rear + 1) % n, front := (s.front + 1) % n), t, Reserved(s.rear, call))
      else Move(logged.(rear := (s.rear + 1) % n, size := s.size + 1), t, Reserved(s.rear, call))
    case Dequeue =>
      if s.size == 0 then Move(logged, t, Releasing(call, WasEmpty))
      else Move(logged.(size := s.size - 1, front := (s.front + 1) % n), t, Reserved(s.front, call))
    case ShallowDequeue =>
      if s.size == 0 then Move(logged, t, Releasing(call, WasEmpty))
      else Move(logged.(size := s.size - 1, front := (s.front + 1) % n), t, Releasing(call, Dropped))
  }

  ghost function Next<T>(s: State<T>, a: Action<T>): State<T>
    requires Enabled(s, a)
  {
    match a
    case Invoke(t, op) => s.(threads := s.threads[t := Busy(op, Entering)])
    case LockIndex(t) => Move(s, t, Inside).(indexGuard := Some(t))
    case UpdateIndices(t) => Update(s, t)
    case LockSlot(t) =>
      var stage := s.threads[t].stage;
      Move(s, t, HandOver(stage.at, stage.call)).(slotGuards := s.slotGuards[stage.at := Some(t)])
    case UnlockIndex(t) =>
      var th := s.threads[t];
      if th.stage.HandOver? then Move(s, t, OwnsSlot(th.stage.at, th.stage.call)).(indexGuard := None)
      else s.(indexGuard := None, threads := s.threads[t := Returned(th.op, th.stage.call, th.stage.outcome)])
    case Access(t) =>
      var th := s.threads[t];
      if th.op.Enqueue? then
        Move(s, t, Leaving(th.stage.at, th.stage.call, Accepted)).(slots := s.slots[th.stage.at := th.op.item])
      else
        Move(s, t, Leaving(th.stage.at, th.stage.call, Taken(s.slots[th.stage.at])))
    case UnlockSlot(t) =>
      var th := s.threads[t];
      s.(slotGuards := s.slotGuards[th.stage.at := None],
         threads := s.threads[t := Returned(th.op, th.stage.call, th.stage.outcome)])
  }

  /** A run: any interleaving of actions of any threads, from an empty ring. */
  ghost predicate IsRun<T(!new)>(run: seq<State<T>>) {
    && 0 < |run|
    && Init(run[0])
    && Connected(run)
  }

  ghost predicate Connected<T(!new)>(run: seq<State<T>>) {
    forall i, j {:trigger CanStep(run[i], run[j])} | 0 <= i && j == i + 1 < |run| :: CanStep(run[i], run[j])
  }

  ghost predicate CanStep<T(!new)>(s: State<T>, s': State<T>) {
    exists a :: Enabled(s, a) && s' == Next(s, a)
  }

  // ---- Invariant ----

  ghost predicate HoldsIndex<T>(th: Thread<T>) {
    th.Busy? && (th.stage.Inside? || th.stage.Reserved? || th.stage.HandOver? || th.stage.Releasing?)
  }

  ghost predicate HoldsSlot<T>(th: Thread<T>, k: nat) {
    th.Busy? && (th.stage.HandOver? || th.stage.OwnsSlot? || th.stage.Leaving?) && th.stage.at == k
  }

  /** The slot guard is held and the slot is still to be written. */
  ghost predicate WritePending<T>(th: Thread<T>) {
    th.Busy? && th.op.Enqueue? && (th.stage.HandOver? || th.stage.OwnsSlot?)
  }

  /** What slot k holds once the holder of its guard, if any, is done with it. */
  ghost function Settled<T>(s: State<T>, k: nat): T
    requires k < |s.slots| == |s.slotGuards|
  {
    match s.slotGuards[k]
    case Some(t) => if t < |s.threads| && WritePending(s.threads[t]) then s.threads[t].op.item else s.slots[k]
    case None => s.slots[k]
  }

  /** What slot k holds once the thread that has reserved it, if any, has also written it. */
  ghost function Eventual<T>(s: State<T>, k: nat): T
    requires k < |s.slots| == |s.slotGuards|
  {
    match s.indexGuard
    case Some(t) =>
      if t < |s.threads| && s.threads[t].Busy? && s.threads[t].op.Enqueue? && s.threads[t].stage.Reserved?
         && s.threads[t].stage.at == k
      then s.threads[t].op.item else Settled(s, k)
    case None => Settled(s, k)
  }

  ghost predicate Shape<T>(s: State<T>) {
    && (s.overwrite ==> 0 < |s.slots|)
    && |s.slotGuards| == |s.slots|
    && |s.queue| == s.size <= |s.slots|
    && RingIndices(s.front, s.rear, s.size, |s.slots|)
  }

  ghost predicate GuardsMatch<T>(s: State<T>)
    requires Shape(s)
  {
    && (forall t | 0 <= t < |s.threads| :: HoldsIndex(s.threads[t]) <==> s.indexGuard == Some(t))
    && (s.indexGuard.Some? ==> s.indexGuard.value < |s.threads|)
    && (forall k | 0 <= k < |s.slots| :: s.slotGuards[k].Some? ==> s.slotGuards[k].value < |s.threads|)
    && (forall t, k | 0 <= t < |s.threads| && 0 <= k < |s.slots| ::
          HoldsSlot(s.threads[t], k) <==> s.slotGuards[k] == Some(t))
  }

  /** What a thread knows about the call it is in. */
  ghost predicate ThreadOk<T>(s: State<T>, th: Thread<T>)
    requires Shape(s)
  {
    match th
    case Outside => true
    case Returned(op, call, outcome) => call < |s.history| && s.history[call] == Call(op, outcome)
    case Busy(op, stage) =>
      match stage
      case Entering => true
      case Inside => true
      case Releasing(call, outcome) =>
        call == |s.history| - 1 && s.history[call] == Call(op, outcome)
      case Leaving(at, call, outcome) =>
        at < |s.slots| && call < |s.history| && s.history[call] == Call(op, outcome)
      case Reserved(at, call) =>
        && at < |s.slots| && call == |s.history| - 1
        && s.history[call].op == op && Expects(op, s.history[call].outcome, Settled(s, at))
      case HandOver(at, call) =>
        && at < |s.slots| && call == |s.history| - 1
        && s.history[call].op == op && Expects(op, s.history[call].outcome, s.slots[at])
      case OwnsSlot(at, call) =>
        && at < |s.slots| && call < |s.history|
        && s.history[call].op == op && Expects(op, s.history[call].outcome, s.slots[at])
  }

  /** The outcome the history promises: a write is accepted, a read takes the value that is there. */
  ghost predicate Expects<T>(op: Op<T>, outcome: Outcome<T>, there: T) {
    match op
    case Enqueue(_) => outcome == Accepted
    case Dequeue => outcome == Taken(there)
    case ShallowDequeue => false
  }

  ghost predicate Inv<T>(s: State<T>) {
    && !s.adopting
    && Shape(s)
    && GuardsMatch(s)
    && (forall t | 0 <= t < |s.threads| :: ThreadOk(s, s.threads[t]))
    && Mirrors(s)
    && Replayed(s)
  }

  ghost predicate Replayed<T>(s: State<T>)
    requires s.overwrite ==> 0 < |s.slots|
  {
    var replay := ReplayAll(s.history, |s.slots|, s.overwrite);
    replay.legal && replay.queue == s.queue
  }

  lemma ReplayExtends<T>(s: State<T>, op: Op<T>)
    requires Shape(s) && Replayed(s)
    ensures var effect := Apply(s.queue, op, |s.slots|, s.overwrite);
            Replayed(s.(queue := effect.queue, history := s.history + [Call(op, effect.outcome)]))
  {
    var effect := Apply(s.queue, op, |s.slots|, s.overwrite);
    var longer := s.history + [Call(op, effect.outcome)];
    assert longer[..|longer| - 1] == s.history;
  }

  lemma InitInv<T>(s: State<T>)
    requires Init(s) && !s.adopting
    ensures Inv(s)
  {
    if 0 < |s.slots| {
      SlotUnfolds(0, 0, |s.slots|);
    }
  }

  /** A step that moves one thread and perhaps the index guard, but no slot, slot guard or pending write. */
  ghost predicate QuietStep<T>(s: State<T>, s': State<T>, t: nat)
    requires t < |s.threads|
  {
    && s' == s.(indexGuard := s'.indexGuard, threads := s'.threads)
    && |s'.threads| == |s.threads|
    && s'.threads == s.threads[t := s'.threads[t]]
    && WritePending(s'.threads[t]) == WritePending(s.threads[t])
    && (WritePending(s.threads[t]) ==> s'.threads[t].op == s.threads[t].op)
    && (forall k | 0 <= k < |s.slots| :: HoldsSlot(s'.threads[t], k) == HoldsSlot(s.threads[t], k))
  }

  lemma QuietStepKeepsSettled<T>(s: State<T>, s': State<T>, t: nat)
    requires Shape(s) && t < |s.threads| && QuietStep(s, s', t)
    ensures forall k | 0 <= k < |s.slots| :: Settled(s', k) == Settled(s, k)
  {
  }

  lemma QuietStepKeepsThreads<T>(s: State<T>, s': State<T>, t: nat)
    requires Inv(s) && t < |s.threads| && QuietStep(s, s', t)
    requires ThreadOk(s', s'.threads[t])
    ensures forall u | 0 <= u < |s.threads| :: ThreadOk(s', s'.threads[u])
  {
    QuietStepKeepsSettled(s, s', t);
    forall u | 0 <= u < |s.threads| ensures ThreadOk(s', s'.threads[u]) {
      assert ThreadOk(s, s.threads[u]);
    }
  }

  /** The index guard is free, or its holder has no reserved slot left to wait for. */
  lemma QuietStepMirrors<T>(s: State<T>, s': State<T>, t: nat)
    requires Inv(s) && t < |s.threads| && QuietStep(s, s', t)
    requires !IsReserving(s.threads[t]) && !IsReserving(s'.threads[t])
    requires s'.indexGuard == s.indexGuard || (s.indexGuard in {None, Some(t)} && s'.indexGuard in {None, Some(t)})
    ensures Mirrors(s')
  {
    QuietStepKeepsSettled(s, s', t);
    forall i | 0 <= i < s.size ensures Eventual(s', Slot(s.front, i, |s.slots|)) == s.queue[i] {
      assert Eventual(s, Slot(s.front, i, |s.slots|)) == s.queue[i];
    }
  }

  ghost predicate IsReserving<T>(th: Thread<T>) {
    th.Busy? && th.stage.Reserved?
  }

  ghost predicate Mirrors<T>(s: State<T>)
    requires Shape(s)
  {
    forall i | 0 <= i < s.size :: Eventual(s, Slot(s.front, i, |s.slots|)) == s.queue[i]
  }

  lemma InvInvoke<T>(s: State<T>, t: nat, op: Op<T>)
    requires Inv(s) && Enabled(s, Invoke(t, op))
    ensures Inv(Next(s, Invoke(t, op)))
  {
    var s' := Next(s, Invoke(t, op));
    QuietStepKeepsThreads(s, s', t);
    QuietStepMirrors(s, s', t);
    assert HoldsIndex(s'.threads[t]) == HoldsIndex(s.threads[t]);
  }

  lemma InvLockIndex<T>(s: State<T>, t: nat)
    requires Inv(s) && Enabled(s, LockIndex(t))
    ensures Inv(Next(s, LockIndex(t)))
  {
    var s' := Next(s, LockIndex(t));
    QuietStepKeepsThreads(s, s', t);
    QuietStepMirrors(s, s', t);
  }

  lemma InvUnlockIndex<T>(s: State<T>, t: nat)
    requires Inv(s) && Enabled(s, UnlockIndex(t))
    ensures Inv(Next(s, UnlockIndex(t)))
  {
    var s' := Next(s, UnlockIndex(t));
    assert ThreadOk(s, s.threads[t]) && HoldsIndex(s.threads[t]);
    QuietStepKeepsThreads(s, s', t);
    QuietStepMirrors(s, s', t);
  }

  /** Taking the slot guard turns the reservation into a pending access. */
  lemma LockSlotKeepsEventual<T>(s: State<T>, t: nat)
    requires Inv(s) && Enabled(s, LockSlot(t))
    ensures var s' := Next(s, LockSlot(t));
            && Shape(s') && GuardsMatch(s')
            && (forall k | 0 <= k < |s.slots| :: Eventual(s', k) == Eventual(s, k))
            && (forall k | 0 <= k < |s.slots| && k != s.threads[t].stage.at :: Settled(s', k) == Settled(s, k))
  {
    var s' := Next(s, LockSlot(t));
    assert HoldsIndex(s.threads[t]);
    forall u, k | 0 <= u < |s.threads| && 0 <= k < |s.slots|
      ensures HoldsSlot(s'.threads[u], k) <==> s'.slotGuards[k] == Some(u)
    {
      assert HoldsSlot(s.threads[u], k) <==> s.slotGuards[k] == Some(u);
    }
    forall k | 0 <= k < |s.slots| && k != s.threads[t].stage.at ensures Settled(s', k) == Settled(s, k) {
      assert HoldsSlot(s.threads[t], k) <==> s.slotGuards[k] == Some(t);
    }
  }

  lemma InvLockSlot<T>(s: State<T>, t: nat)
    requires Inv(s) && Enabled(s, LockSlot(t))
    ensures Inv(Next(s, LockSlot(t)))
  {
    var s' := Next(s, LockSlot(t));
    LockSlotKeepsEventual(s, t);
    assert ThreadOk(s, s.threads[t]);
    forall u | 0 <= u < |s.threads| ensures ThreadOk(s', s'.threads[u]) {
      assert ThreadOk(s, s.threads[u]);
      assert HoldsIndex(s.threads[u]) <==> s.indexGuard == Some(u);
    }
  }

  lemma AccessKeepsGuards<T>(s: State<T>, t: nat)
    requires Shape(s) && GuardsMatch(s) && Enabled(s, Access(t))
    ensures Shape(Next(s, Access(t))) && GuardsMatch(Next(s, Access(t)))
  {
    var s' := Next(s, Access(t));
    assert forall k :: HoldsSlot(s'.threads[t], k) == HoldsSlot(s.threads[t], k);
    assert HoldsIndex(s'.threads[t]) == HoldsIndex(s.threads[t]);
    assert forall u | 0 <= u < |s.threads| && u != t :: s'.threads[u] == s.threads[u];
  }

  /** Touching a slot under its guard does not change what any slot is going to hold. */
  lemma AccessKeepsSettled<T>(s: State<T>, t: nat)
    requires Shape(s) && GuardsMatch(s) && Enabled(s, Access(t))
    ensures var s' := Next(s, Access(t));
            forall k | 0 <= k < |s.slots| :: Settled(s', k) == Settled(s, k) && Eventual(s', k) == Eventual(s, k)
  {
    var s' := Next(s, Access(t));
    var at := s.threads[t].stage.at;
    assert HoldsSlot(s.threads[t], at);
    forall k | 0 <= k < |s.slots| ensures Settled(s', k) == Settled(s, k) {
      assert HoldsSlot(s.threads[t], k) <==> s.slotGuards[k] == Some(t);
    }
  }

  lemma AccessKeepsItself<T>(s: State<T>, t: nat)
    requires Inv(s) && Enabled(s, Access(t))
    ensures var s' := Next(s, Access(t)); Shape(s') && ThreadOk(s', s'.threads[t])
  {
    assert ThreadOk(s, s.threads[t]);
  }

  lemma AccessKeepsOther<T>(s: State<T>, t: nat, u: nat)
    requires Inv(s) && Enabled(s, Access(t)) && u < |s.threads| && u != t
    ensures var s' := Next(s, Access(t)); Shape(s') && ThreadOk(s', s'.threads[u])
  {
    AccessKeepsSettled(s, t);
    var at := s.threads[t].stage.at;
    assert ThreadOk(s, s.threads[t]);
    assert ThreadOk(s, s.threads[u]);
    assert HoldsSlot(s.threads[t], at);
    assert HoldsSlot(s.threads[u], at) <==> s.slotGuards[at] == Some(u);
  }

  lemma InvAccess<T>(s: State<T>, t: nat)
    requires Inv(s) && Enabled(s, Access(t))
    ensures Inv(Next(s, Access(t)))
  {
    AccessKeepsGuards(s, t);
    AccessKeepsSettled(s, t);
    forall u | 0 <= u < |s.threads| ensures ThreadOk(Next(s, Access(t)), Next(s, Access(t)).threads[u]) {
      if u == t {
        AccessKeepsItself(s, t);
      } else {
        AccessKeepsOther(s, t, u);
      }
    }
  }

  lemma UnlockSlotKeepsSettled<T>(s: State<T>, t: nat)
    requires Shape(s) && GuardsMatch(s) && Enabled(s, UnlockSlot(t))
    ensures var s' := Next(s, UnlockSlot(t));
            Shape(s') && GuardsMatch(s') && forall k | 0 <= k < |s.slots| ::
              Settled(s', k) == Settled(s, k) && Eventual(s', k) == Eventual(s, k)
  {
    var s' := Next(s, UnlockSlot(t));
    var at := s.threads[t].stage.at;
    assert HoldsSlot(s.threads[t], at);
    forall k | 0 <= k < |s.slots| ensures Settled(s', k) == Settled(s, k) {
      assert HoldsSlot(s.threads[t], k) <==> s.slotGuards[k] == Some(t);
    }
    forall u, k | 0 <= u < |s.threads| && 0 <= k < |s.slots|
      ensures HoldsSlot(s'.threads[u], k) <==> s'.slotGuards[k] == Some(u)
    {
      assert HoldsSlot(s.threads[u], k) <==> s.slotGuards[k] == Some(u);
    }
  }

  lemma InvUnlockSlot<T>(s: State<T>, t: nat)
    requires Inv(s) && Enabled(s, UnlockSlot(t))
    ensures Inv(Next(s, UnlockSlot(t)))
  {
    UnlockSlotKeepsSettled(s, t);
    var s' := Next(s, UnlockSlot(t));
    forall u | 0 <= u < |s.threads| ensures ThreadOk(s', s'.threads[u]) {
      assert ThreadOk(s, s.threads[u]) && ThreadOk(s, s.threads[t]);
    }
  }

  /** What an index update leaves alone. */
  ghost predicate OnlyIndicesMoved<T>(s: State<T>, s': State<T>, t: nat)
    requires t < |s.threads|
  {
    && s'.overwrite == s.overwrite && s'.adopting == s.adopting && s'.slots == s.slots
    && s'.slotGuards == s.slotGuards && s'.indexGuard == s.indexGuard
    && s.threads[t].Busy?
    && |s'.history| == |s.history| + 1 && s.history <= s'.history
    && |s'.threads| == |s.threads|
    && s'.threads == s.threads[t := s'.threads[t]]
    && s'.threads[t].Busy? && s'.threads[t].op == s.threads[t].op
    && (s'.threads[t].stage.Reserved? || s'.threads[t].stage.Releasing?)
  }

  lemma UpdateMovesOnlyIndices<T>(s: State<T>, t: nat)
    requires Enabled(s, UpdateIndices(t))
    ensures OnlyIndicesMoved(s, Update(s, t), t)
  {
  }

  lemma UpdateKeepsGuards<T>(s: State<T>, s': State<T>, t: nat)
    requires Shape(s) && GuardsMatch(s) && t < |s.threads| && At(s, t, Inside)
    requires Shape(s') && OnlyIndicesMoved(s, s', t)
    ensures GuardsMatch(s')
    ensures forall k | 0 <= k < |s.slots| :: Settled(s', k) == Settled(s, k) == Eventual(s, k)
  {
    assert HoldsIndex(s.threads[t]);
    forall u, k | 0 <= u < |s.threads| && 0 <= k < |s.slots|
      ensures HoldsSlot(s'.threads[u], k) <==> HoldsSlot(s.threads[u], k)
    {
    }
  }

  lemma UpdateKeepsOthers<T>(s: State<T>, s': State<T>, t: nat, u: nat)
    requires Inv(s) && t < |s.threads| && At(s, t, Inside)
    requires Shape(s') && OnlyIndicesMoved(s, s', t)
    requires u < |s.threads| && u != t
    ensures ThreadOk(s', s'.threads[u])
  {
    UpdateKeepsGuards(s, s', t);
    assert ThreadOk(s, s.threads[u]);
    assert HoldsIndex(s.threads[t]) && !HoldsIndex(s.threads[u]);
  }

  lemma UpdateShape<T>(s: State<T>, t: nat)
    requires Shape(s) && Enabled(s, UpdateIndices(t))
    ensures Shape(Update(s, t))
  {
    UpdateSizes(s, t);
    UpdateRing(s, t);
  }

  lemma UpdateSizes<T>(s: State<T>, t: nat)
    requires Shape(s) && Enabled(s, UpdateIndices(t))
    ensures var s' := Update(s, t);
            |s'.queue| == s'.size <= |s'.slots| && s'.slots == s.slots && s'.overwrite == s.overwrite
            && s'.slotGuards == s.slotGuards
  {}

  lemma UpdateRing<T>(s: State<T>, t: nat)
    requires Shape(s) && Enabled(s, UpdateIndices(t))
    ensures var s' := Update(s, t); RingIndices(s'.front, s'.rear, s'.size, |s.slots|)
  {
    var n := |s.slots|;
    match s.threads[t].op
    case Enqueue(_) =>
      if s.size < n {
        AppendMovesRear(s.front, s.rear, s.size, n);
      } else if s.overwrite {
        OverwriteMovesBoth(s.front, s.rear, n);
      }
    case _ =>
      if 0 < s.size {
        DropMovesFront(s.front, s.rear, s.size, n);
      }
  }

  lemma RefusalMirrors<T>(s: State<T>, s': State<T>, t: nat)
    requires Inv(s) && t < |s.threads| && At(s, t, Inside)
    requires Shape(s') && OnlyIndicesMoved(s, s', t) && s'.threads[t].stage.Releasing?
    requires s'.front == s.front && s'.size == s.size && s'.queue == s.queue
    ensures Mirrors(s')
  {
    UpdateKeepsGuards(s, s', t);
  }

  lemma AppendMirrors<T>(s: State<T>, s': State<T>, t: nat)
    requires Inv(s) && t < |s.threads| && At(s, t, Inside) && s.threads[t].op.Enqueue?
    requires Shape(s') && OnlyIndicesMoved(s, s', t)
    requires s'.threads[t].stage == Reserved(s.rear, |s.history|)
    requires s'.front == s.front && s'.size == s.size + 1 && s'.queue == s.queue + [s.threads[t].op.item]
    ensures Mirrors(s')
  {
    UpdateKeepsGuards(s, s', t);
    assert HoldsIndex(s.threads[t]);
    forall i | 0 <= i < s'.size ensures Eventual(s', Slot(s.front, i, |s.slots|)) == s'.queue[i] {
      if i < s.size {
        SlotsDistinct(s.front, i, s.size, |s.slots|);
      }
    }
  }

  lemma DropMirrors<T>(s: State<T>, s': State<T>, t: nat)
    requires Inv(s) && t < |s.threads| && At(s, t, Inside) && !s.threads[t].op.Enqueue?
    requires Shape(s') && OnlyIndicesMoved(s, s', t)
    requires 0 < s.size && s'.front == (s.front + 1) % |s.slots| && s'.size == s.size - 1 && s'.queue == s.queue[1..]
    ensures Mirrors(s')
  {
    UpdateKeepsGuards(s, s', t);
    forall i | 0 <= i < s'.size ensures Eventual(s', Slot(s'.front, i, |s.slots|)) == s'.queue[i] {
      SlotStep(s.front, i, |s.slots|);
    }
  }

  lemma OverwriteMirrors<T>(s: State<T>, s': State<T>, t: nat)
    requires Inv(s) && t < |s.threads| && At(s, t, Inside) && s.threads[t].op.Enqueue?
    requires Shape(s') && OnlyIndicesMoved(s, s', t)
    requires s'.threads[t].stage == Reserved(s.rear, |s.history|)
    requires 0 < s.size == |s.slots| == s'.size && s'.front == (s.front + 1) % |s.slots|
    requires s'.queue == s.queue[1..] + [s.threads[t].op.item]
    ensures Mirrors(s')
  {
    var n := |s.slots|;
    UpdateKeepsGuards(s, s', t);
    assert HoldsIndex(s.threads[t]);
    forall i | 0 <= i < n ensures Eventual(s', Slot(s'.front, i, n)) == s'.queue[i] {
      OverwriteSlots(s.front, i, n);
    }
  }

  /** Of the slots of a full ring whose front has advanced, only the last is the one written. */
  lemma OverwriteSlots(front: nat, i: nat, n: nat)
    requires front < n && i < n
    ensures Slot((front + 1) % n, i, n) == Slot(front, i + 1, n)
    ensures Slot(front, i + 1, n) == Slot(front, n, n) <==> i == n - 1
  {
    SlotStep(front, i, n);
    SlotUnfolds(front, i + 1, n);
    SlotUnfolds(front, n, n);
  }

  lemma InvUpdate<T>(s: State<T>, t: nat)
    requires Inv(s) && Enabled(s, UpdateIndices(t))
    ensures Inv(Next(s, UpdateIndices(t)))
  {
    var s' := Update(s, t);
    UpdateShape(s, t);
    UpdateMovesOnlyIndices(s, t);
    UpdateKeepsGuards(s, s', t);
    ReplayExtends(s, s.threads[t].op);
    UpdateMirrors(s, t);
    UpdateKeepsActor(s, t);
    forall u | 0 <= u < |s.threads| ensures ThreadOk(s', s'.threads[u]) {
      if u != t {
        UpdateKeepsOthers(s, s', t, u);
      }
    }
  }

  lemma UpdateMirrors<T>(s: State<T>, t: nat)
    requires Inv(s) && Enabled(s, UpdateIndices(t))
    ensures Shape(Update(s, t)) && Mirrors(Update(s, t))
  {
    var s' := Update(s, t);
    UpdateShape(s, t);
    UpdateMovesOnlyIndices(s, t);
    if s.threads[t].op.Enqueue? {
      if s.size < |s.slots| {
        AppendMirrors(s, s', t);
      } else if s.overwrite {
        OverwriteMirrors(s, s', t);
      } else {
        RefusalMirrors(s, s', t);
      }
    } else if s.size == 0 {
      RefusalMirrors(s, s', t);
    } else {
      DropMirrors(s, s', t);
    }
  }

  /** A dequeuer that has just reserved the front slot will find the head of the queue there. */
  lemma UpdateKeepsActor<T>(s: State<T>, t: nat)
    requires Inv(s) && Enabled(s, UpdateIndices(t))
    ensures Shape(Update(s, t)) && ThreadOk(Update(s, t), Update(s, t).threads[t])
  {
    var s' := Update(s, t);
    UpdateShape(s, t);
    UpdateMovesOnlyIndices(s, t);
    UpdateKeepsGuards(s, s', t);
    if 0 < |s.slots| {
      SlotUnfolds(s.front, 0, |s.slots|);
      SlotUnfolds(s.front, s.size, |s.slots|);
    }
    if 0 < s.size {
      assert Eventual(s, Slot(s.front, 0, |s.slots|)) == s.queue[0];
    }
  }

  lemma InvNext<T>(s: State<T>, a: Action<T>)
    requires Inv(s) && Enabled(s, a)
    ensures Inv(Next(s, a))
  {
    match a
    case Invoke(t, op) => InvInvoke(s, t, op);
    case LockIndex(t) => InvLockIndex(s, t);
    case UpdateIndices(t) => InvUpdate(s, t);
    case LockSlot(t) => InvLockSlot(s, t);
    case UnlockIndex(t) => InvUnlockIndex(s, t);
    case Access(t) => InvAccess(s, t);
    case UnlockSlot(t) => InvUnlockSlot(s, t);
  }

  // ---- Every call has an entry of its own ----

  ghost function CallOf<T>(th: Thread<T>): Option<nat> {
    match th
    case Outside => None
    case Returned(_, call, _) => Some(call)
    case Busy(_, stage) => if stage.Entering? || stage.Inside? then None else Some(stage.call)
  }

  ghost predicate OwnCalls<T>(s: State<T>) {
    forall t, u | 0 <= t < u < |s.threads| && CallOf(s.threads[t]).Some? ::
      CallOf(s.threads[t]) != CallOf(s.threads[u])
  }

  /** A step changes the acting thread only, and gives it a fresh call number or none. */
  lemma StepIsLocal<T>(s: State<T>, a: Action<T>)
    requires Inv(s) && Enabled(s, a)
    ensures var s' := Next(s, a);
            && |s'.threads| == |s.threads|
            && (forall u | 0 <= u < |s.threads| && u != a.t :: s'.threads[u] == s.threads[u])
            && CallOf(s'.threads[a.t]) in {None, CallOf(s.threads[a.t]), Some(|s.history|)}
            && s.history <= s'.history
            && s'.overwrite == s.overwrite && |s'.slots| == |s.slots|
  {
    if a.UpdateIndices? {
      UpdateMovesOnlyIndices(s, a.t);
    }
  }

  lemma OwnCallsNext<T>(s: State<T>, a: Action<T>)
    requires Inv(s) && OwnCalls(s) && Enabled(s, a)
    ensures OwnCalls(Next(s, a))
  {
    StepIsLocal(s, a);
    forall u | 0 <= u < |s.threads| && CallOf(s.threads[u]).Some?
      ensures CallOf(s.threads[u]).value < |s.history|
    {
      assert ThreadOk(s, s.threads[u]);
    }
  }

  // ---- Results about every run ----

  lemma {:induction false} RunKeepsInv<T(!new)>(run: seq<State<T>>, i: nat)
    requires IsRun(run) && !run[0].adopting && i < |run|
    ensures Inv(run[i]) && OwnCalls(run[i])
    ensures run[i].overwrite == run[0].overwrite && |run[i].slots| == |run[0].slots|
  {
    if i == 0 {
      InitInv(run[0]);
    } else {
      RunKeepsInv(run, i - 1);
      RunStep(run, i - 1);
    }
  }

  lemma RunStep<T(!new)>(run: seq<State<T>>, i: nat)
    requires IsRun(run) && !run[0].adopting && i < |run| - 1
    requires Inv(run[i]) && OwnCalls(run[i])
    ensures Inv(run[i + 1]) && OwnCalls(run[i + 1])
    ensures run[i].history <= run[i + 1].history
    ensures run[i + 1].overwrite == run[i].overwrite && |run[i + 1].slots| == |run[i].slots|
  {
    assert CanStep(run[i], run[i + 1]);
    var a :| Enabled(run[i], a) && run[i + 1] == Next(run[i], a);
    InvNext(run[i], a);
    OwnCallsNext(run[i], a);
    StepIsLocal(run[i], a);
  }

  lemma HistoryGrows<T(!new)>(run: seq<State<T>>, i: nat)
    requires IsRun(run) && !run[0].adopting && i < |run| - 1
    ensures run[i].history <= run[i + 1].history
  {
    RunKeepsInv(run, i);
    RunStep(run, i);
  }

  lemma PrefixOfPrefix<X>(a: seq<X>, b: seq<X>, c: seq<X>)
    requires a <= b <= c
    ensures a <= c
  {}

  lemma {:induction false} HistoryOnlyGrows<T(!new)>(run: seq<State<T>>, j: nat, i: nat)
    requires IsRun(run) && !run[0].adopting && j <= i < |run|
    ensures run[j].history <= run[i].history
  {
    if j < i {
      HistoryOnlyGrows(run, j, i - 1);
      HistoryGrows(run, i - 1);
      PrefixOfPrefix(run[j].history, run[i - 1].history, run[i].history);
    }
  }

  /** The calls in the order of their index updates are a legal history of the atomic bounded
      queue, and each finished call returned the outcome recorded for it, in an entry that no
      other thread shares. */
  ghost predicate Linearized<T>(s: State<T>) {
    && (s.overwrite ==> 0 < |s.slots|)
    && var replay := ReplayAll(s.history, |s.slots|, s.overwrite);
       && replay.legal
       && replay.admitted == replay.removed + s.queue
       && (forall t | 0 <= t < |s.threads| && s.threads[t].Returned? ::
             && s.threads[t].call < |s.history|
             && s.history[s.threads[t].call] == Call(s.threads[t].op, s.threads[t].outcome))
       && (forall t, u | 0 <= t < u < |s.threads| && s.threads[t].Returned? && s.threads[u].Returned? ::
             s.threads[t].call != s.threads[u].call)
  }

  lemma InvLinearizes<T>(s: State<T>)
    requires Inv(s) && OwnCalls(s)
    ensures Linearized(s)
  {
    ItemsLeaveInArrivalOrder(s.history, |s.slots|, s.overwrite);
    forall t | 0 <= t < |s.threads| && s.threads[t].Returned?
      ensures s.threads[t].call < |s.history|
              && s.history[s.threads[t].call] == Call(s.threads[t].op, s.threads[t].outcome)
    {
      assert ThreadOk(s, s.threads[t]);
    }
    forall t, u | 0 <= t < u < |s.threads| && s.threads[t].Returned? && s.threads[u].Returned?
      ensures s.threads[t].call != s.threads[u].call
    {
      assert CallOf(s.threads[t]).Some?;
    }
  }

  /** Linearizability of every run whose slot guards are really locked. Entries of the history are
      never withdrawn. */
  lemma RunLinearizes<T(!new)>(run: seq<State<T>>, i: nat)
    requires IsRun(run) && !run[0].adopting && i < |run|
    ensures Linearized(run[i])
    ensures forall j | 0 <= j <= i :: run[j].history <= run[i].history
  {
    RunKeepsInv(run, i);
    InvLinearizes(run[i]);
    forall j | 0 <= j <= i ensures run[j].history <= run[i].history {
      HistoryOnlyGrows(run, j, i);
    }
  }

  /** The call number that a thread has at a later time is the one it had, or a new one past the history of then. */
  ghost predicate LaterCall<T>(s: State<T>, s': State<T>, u: nat) {
    && u < |s.threads| == |s'.threads|
    && |s.history| <= |s'.history|
    && match CallOf(s'.threads[u])
       case None => true
       case Some(call) => CallOf(s.threads[u]) == Some(call) || |s.history| <= call
  }

  lemma StepGivesLaterCall<T(!new)>(run: seq<State<T>>, i: nat, u: nat)
    requires IsRun(run) && !run[0].adopting && i < |run| - 1 && u < |run[i].threads|
    ensures LaterCall(run[i], run[i + 1], u)
  {
    RunKeepsInv(run, i);
    assert CanStep(run[i], run[i + 1]);
    var a :| Enabled(run[i], a) && run[i + 1] == Next(run[i], a);
    StepIsLocal(run[i], a);
  }

  lemma {:induction false} CallsComeLater<T(!new)>(run: seq<State<T>>, j: nat, i: nat, u: nat)
    requires IsRun(run) && !run[0].adopting && j <= i < |run| && u < |run[j].threads|
    ensures LaterCall(run[j], run[i], u)
  {
    if j < i {
      CallsComeLater(run, j, i - 1, u);
      StepGivesLaterCall(run, i - 1, u);
    }
  }

  /** The order of the history respects real time: a call that begins when another has returned, be it
      another thread's or an earlier one of the same thread, comes after it. */
  lemma HistoryRespectsTime<T(!new)>(run: seq<State<T>>, j: nat, k: nat, i: nat, t: nat, u: nat)
    requires IsRun(run) && !run[0].adopting && j <= k <= i < |run|
    requires t < |run[j].threads| && run[j].threads[t].Returned?
    requires u < |run[k].threads| && run[k].threads[u].Busy? && run[k].threads[u].stage.Entering?
    ensures |run[i].threads| == |run[k].threads|
    ensures run[i].threads[u].Returned? ==> run[j].threads[t].call < run[i].threads[u].call
  {
    RunKeepsInv(run, j);
    assert ThreadOk(run[j], run[j].threads[t]);
    HistoryOnlyGrows(run, j, k);
    CallsComeLater(run, k, i, u);
  }

  // ---- Guards that are adopted without being locked ----

  /** The same ring with guards that are locked. */
  ghost function Locking<T>(s: State<T>): State<T> {
    s.(adopting := false)
  }

  /** Nobody can take a slot guard from another thread: there are no slots, or no two threads. */
  ghost predicate Harmless(slots: nat, threads: nat) {
    slots == 0 || threads <= 1
  }

  lemma LoneThreadFindsGuardFree<T>(s: State<T>, t: nat)
    requires Inv(s) && Harmless(|s.slots|, |s.threads|)
    requires t < |s.threads| && s.threads[t].Busy? && s.threads[t].stage.Reserved?
    requires s.threads[t].stage.at < |s.slotGuards|
    ensures s.slotGuards[s.threads[t].stage.at] == None
  {
    assert !HoldsSlot(s.threads[t], s.threads[t].stage.at);
  }

  lemma UpdateIgnoresMode<T>(s: State<T>, t: nat)
    requires Enabled(s, UpdateIndices(t))
    ensures Update(Locking(s), t) == Locking(Update(s, t))
  {
    match s.threads[t].op
    case Enqueue(_) =>
    case Dequeue =>
    case ShallowDequeue =>
  }

  /** A lone thread never finds a slot guard taken, so its steps are those of a ring with locked guards. */
  lemma HarmlessStep<T>(s: State<T>, a: Action<T>)
    requires Inv(Locking(s)) && Harmless(|s.slots|, |s.threads|) && Enabled(s, a)
    ensures Enabled(Locking(s), a) && Next(Locking(s), a) == Locking(Next(s, a))
  {
    match a
    case LockSlot(t) => LoneThreadFindsGuardFree(Locking(s), t);
    case UpdateIndices(t) => UpdateIgnoresMode(s, t);
    case _ =>
  }

  /** A run with locked guards, or one in which adopting them does no harm. */
  ghost predicate SafeRun<T(!new)>(run: seq<State<T>>) {
    IsRun(run) && (!run[0].adopting || Harmless(|run[0].slots|, |run[0].threads|))
  }

  lemma SafeStep<T(!new)>(s: State<T>, s': State<T>)
    requires !s.adopting || Harmless(|s.slots|, |s.threads|)
    requires Inv(Locking(s)) && OwnCalls(s) && CanStep(s, s')
    ensures Inv(Locking(s')) && OwnCalls(s')
    ensures s'.adopting == s.adopting && |s'.slots| == |s.slots| && |s'.threads| == |s.threads|
  {
    var a :| Enabled(s, a) && s' == Next(s, a);
    if s.adopting {
      HarmlessStep(s, a);
    } else {
      assert Locking(s) == s;
    }
    InvNext(Locking(s), a);
    OwnCallsNext(Locking(s), a);
    StepIsLocal(Locking(s), a);
    StepKeepsMode(s, a);
  }

  lemma StepKeepsMode<T>(s: State<T>, a: Action<T>)
    requires Enabled(s, a)
    ensures Next(s, a).adopting == s.adopting
  {
  }

  lemma {:induction false} SafeRunKeepsInv<T(!new)>(run: seq<State<T>>, i: nat)
    requires SafeRun(run) && i < |run|
    ensures Inv(Locking(run[i])) && OwnCalls(run[i])
    ensures run[i].adopting == run[0].adopting
    ensures |run[i].slots| == |run[0].slots| && |run[i].threads| == |run[0].threads|
  {
    if i == 0 {
      InitInv(Locking(run[0]));
    } else {
      SafeRunKeepsInv(run, i - 1);
      assert CanStep(run[i - 1], run[i]);
      SafeStep(run[i - 1], run[i]);
    }
  }

  lemma SafeRunLinearizes<T(!new)>(run: seq<State<T>>, i: nat)
    requires SafeRun(run) && i < |run|
    ensures Linearized(run[i])
  {
    SafeRunKeepsInv(run, i);
    InvLinearizes(Locking(run[i]));
  }

  /** An empty ring with every slot holding the same old item. */
  ghost predicate Fresh<T>(s: State<T>, slots: nat, threads: nat, adopting: bool, overwrite: bool) {
    Init(s) && |s.slots| == slots && |s.threads| == threads && s.adopting == adopting && s.overwrite == overwrite
  }

  lemma FreshExists<T>(slots: nat, threads: nat, adopting: bool, overwrite: bool, x: T) returns (s: State<T>)
    requires 0 < slots
    ensures Fresh(s, slots, threads, adopting, overwrite) && s.slots[0] == x
  {
    s := State(overwrite, adopting, Repeat(x, slots), 0, 0, 0, None, Repeat(None, slots), Repeat(Outside, threads), [], []);
  }

  /** Thread 0 has reserved slot 0 for its item and is about to write it; thread 1 is still outside. */
  ghost predicate WriterStopped<T>(s: State<T>, x: T, y: T) {
    && s.adopting && 0 < |s.slots| == |s.slotGuards| && 2 <= |s.threads|
    && s.slots[0] == x && s.front == 0 && s.size == 1 && s.indexGuard == None
    && s.threads[0] == Busy(Enqueue(y), OwnsSlot(0, 0)) && s.threads[1] == Outside
    && s.queue == [y] && s.history == [Call(Enqueue(y), Accepted)]
  }

  /** Thread 1 has dequeued and got what was in the slot before. */
  ghost predicate ReaderBetrayed<T>(s: State<T>, x: T, y: T) {
    && 0 < |s.slots| && 2 <= |s.threads|
    && s.threads[1] == Returned(Dequeue, 1, Taken(x))
    && s.history == [Call(Enqueue(y), Accepted), Call(Op<T>.Dequeue, Taken(y))]
  }

  lemma Append<T(!new)>(run: seq<State<T>>, a: Action<T>) returns (longer: seq<State<T>>)
    requires IsRun(run) && Enabled(run[|run| - 1], a)
    ensures IsRun(longer) && longer[0] == run[0] && longer[|longer| - 1] == Next(run[|run| - 1], a)
  {
    var s := run[|run| - 1];
    longer := run + [Next(s, a)];
    assert CanStep(s, Next(s, a));
    forall i, j | 0 <= i && j == i + 1 < |longer| ensures CanStep(longer[i], longer[j]) {
      assert j < |run| ==> CanStep(run[i], run[j]);
    }
  }

  lemma WriterStops<T(!new)>(s: State<T>, x: T, y: T) returns (run: seq<State<T>>)
    requires Init(s) && s.adopting && 0 < |s.slots| && 2 <= |s.threads| && s.slots[0] == x
    ensures IsRun(run) && run[0] == s && WriterStopped(run[|run| - 1], x, y)
  {
    run := [s];
    run := Append(run, Invoke(0, Enqueue(y)));
    run := Append(run, LockIndex(0));
    run := Append(run, UpdateIndices(0));
    run := Append(run, LockSlot(0));
    run := Append(run, UnlockIndex(0));
  }

  lemma ReaderReserves<T(!new)>(before: seq<State<T>>, x: T, y: T) returns (run: seq<State<T>>)
    requires IsRun(before) && WriterStopped(before[|before| - 1], x, y)
    ensures IsRun(run) && run[0] == before[0]
    ensures var s := run[|run| - 1];
            && s.adopting && 0 < |s.slots| == |s.slotGuards| && 2 <= |s.threads| && s.slots[0] == x
            && s.threads[1] == Busy(Dequeue, Reserved(0, 1))
            && s.history == [Call(Enqueue(y), Accepted), Call(Op<T>.Dequeue, Taken(y))]
  {
    run := Append(before, Invoke(1, Dequeue));
    run := Append(run, LockIndex(1));
    run := Append(run, UpdateIndices(1));
  }

  lemma ReaderTakes<T(!new)>(before: seq<State<T>>, x: T, y: T) returns (run: seq<State<T>>)
    requires IsRun(before)
    requires var s := before[|before| - 1];
             && s.adopting && 0 < |s.slots| == |s.slotGuards| && 2 <= |s.threads| && s.slots[0] == x
             && s.threads[1] == Busy(Dequeue, Reserved(0, 1))
             && s.history == [Call(Enqueue(y), Accepted), Call(Op<T>.Dequeue, Taken(y))]
    ensures IsRun(run) && run[0] == before[0] && ReaderBetrayed(run[|run| - 1], x, y)
  {
    run := Append(before, LockSlot(1));
    run := Append(run, UnlockIndex(1));
    run := Append(run, Access(1));
    run := Append(run, UnlockSlot(1));
  }

  /** Some dequeue has returned an item that no enqueue was accepted for. */
  ghost predicate TookFromNowhere<T>(s: State<T>) {
    && (s.overwrite ==> 0 < |s.slots|)
    && exists t :: 0 <= t < |s.threads| && s.threads[t].Returned? && s.threads[t].outcome.Taken?
                   && s.threads[t].outcome.item !in ReplayAll(s.history, |s.slots|, s.overwrite).admitted
  }

  lemma BetrayedTookFromNowhere<T>(s: State<T>, x: T, y: T)
    requires ReaderBetrayed(s, x, y) && x != y
    ensures TookFromNowhere(s) && !Linearized(s)
  {
    var first, second := Call(Enqueue(y), Accepted), Call(Op<T>.Dequeue, Taken(y));
    assert s.history[..1] == [first] && [first][..0] == [];
    assert ReplayAll([first], |s.slots|, s.overwrite).admitted == [y];
    assert ReplayAll(s.history, |s.slots|, s.overwrite).admitted == [y];
    assert s.threads[1].outcome.item !in [y];
    assert s.history[1] != Call(s.threads[1].op, s.threads[1].outcome);
  }

  /** With adopted guards, whenever there is a slot and a second thread, the ring can be made to hand out
      an item that was never enqueued. */
  lemma AdoptedGuardReadsTooEarly<T(!new)>(s: State<T>, y: T) returns (run: seq<State<T>>)
    requires Init(s) && s.adopting && 0 < |s.slots| && 2 <= |s.threads| && s.slots[0] != y
    ensures IsRun(run) && run[0] == s
    ensures TookFromNowhere(run[|run| - 1]) && !Linearized(run[|run| - 1])
  {
    run := WriterStops(s, s.slots[0], y);
    run := ReaderReserves(run, s.slots[0], y);
    run := ReaderTakes(run, s.slots[0], y);
    BetrayedTookFromNowhere(run[|run| - 1], s.slots[0], y);
  }

  /** A ring of so many slots for so many threads is a queue, in every run, if and only if its slot guards
      are locked, or it has no slots, or there is only one thread. */
  lemma LinearizesIff<T(!new)>(slots: nat, threads: nat, adopting: bool, overwrite: bool, x: T, y: T)
    requires x != y
    ensures (forall run: seq<State<T>>, i: nat | IsRun(run) && Fresh(run[0], slots, threads, adopting, overwrite) && i < |run| ::
               Linearized(run[i]))
       <==> !adopting || slots == 0 || threads <= 1
  {
    if adopting && 0 < slots && 1 < threads {
      var s := FreshExists(slots, threads, adopting, overwrite, x);
      var run := AdoptedGuardReadsTooEarly(s, y);
      assert !Linearized(run[|run| - 1]);
    } else {
      forall run: seq<State<T>>, i: nat | IsRun(run) && Fresh(run[0], slots, threads, adopting, overwrite) && i < |run|
        ensures Linearized(run[i])
      {
        SafeRunLinearizes(run, i);
      }
    }
  }

  /** No slot is read before its pending write or reused before its pending read: a thread about
      to touch a slot is the only one holding its guard, every other thread that has reserved the
      slot came later in the history, and a reader finds exactly the item it was promised. */
  lemma SlotAccessIsSafe<T(!new)>(run: seq<State<T>>, i: nat, t: nat, u: nat)
    requires IsRun(run) && !run[0].adopting && i < |run|
    requires t < |run[i].threads| && u < |run[i].threads| && t != u
    requires run[i].threads[t].Busy? && run[i].threads[t].stage.OwnsSlot?
    ensures var s := run[i];
            var mine := s.threads[t].stage;
            && mine.at < |s.slots| && mine.call < |s.history|
            && (s.threads[t].op.Dequeue? ==> s.history[mine.call].outcome == Taken(s.slots[mine.at]))
            && !HoldsSlot(s.threads[u], mine.at)
            && (s.threads[u].Busy? && s.threads[u].stage.Reserved? && s.threads[u].stage.at == mine.at
                ==> mine.call < s.threads[u].stage.call)
  {
    var s := run[i];
    RunKeepsInv(run, i);
    assert ThreadOk(s, s.threads[t]) && ThreadOk(s, s.threads[u]);
    var at := s.threads[t].stage.at;
    assert HoldsSlot(s.threads[t], at) <==> s.slotGuards[at] == Some(t);
    assert HoldsSlot(s.threads[u], at) <==> s.slotGuards[at] == Some(u);
    assert CallOf(s.threads[t]) == Some(s.threads[t].stage.call);
    assert t < u ==> CallOf(s.threads[t]) != CallOf(s.threads[u]);
    assert u < t && CallOf(s.threads[u]).Some? ==> CallOf(s.threads[u]) != CallOf(s.threads[t]);
  }

  ghost predicate Quiet<T>(s: State<T>) {
    forall t | 0 <= t < |s.threads| :: !s.threads[t].Busy?
  }

  /** When no call is under way the array holds the queue: the sequential ring's contents. */
  lemma QuietRingHoldsQueue<T(!new)>(run: seq<State<T>>, i: nat)
    requires IsRun(run) && !run[0].adopting && i < |run|
    requires Quiet(run[i])
    ensures run[i].size <= |run[i].slots|
    ensures Window(run[i].slots, run[i].front, run[i].size) == run[i].queue
  {
    var s := run[i];
    RunKeepsInv(run, i);
    forall j | 0 <= j < s.size
      ensures s.slots[Slot(s.front, j, |s.slots|)] == s.queue[j]
    {
      assert Eventual(s, Slot(s.front, j, |s.slots|)) == s.queue[j];
    }
  }

  // ---- The two guard levels never deadlock ----

  /** A thread inside a call can move, or waits for one that can. */
  lemma SomeoneCanMove<T>(s: State<T>, t: nat) returns (a: Action<T>)
    requires Inv(s) && t < |s.threads| && s.threads[t].Busy?
    ensures Enabled(s, a) && !a.Invoke?
  {
    assert ThreadOk(s, s.threads[t]);
    match s.threads[t].stage
    case Entering =>
      if s.indexGuard == None {
        a := LockIndex(t);
      } else {
        var holder := s.indexGuard.value;
        assert HoldsIndex(s.threads[holder]);
        a := IndexHolderCanMove(s, holder);
      }
    case OwnsSlot(_, _) => a := Access(t);
    case Leaving(_, _, _) => a := UnlockSlot(t);
    case _ => a := IndexHolderCanMove(s, t);
  }

  lemma IndexHolderCanMove<T>(s: State<T>, t: nat) returns (a: Action<T>)
    requires Inv(s) && t < |s.threads| && HoldsIndex(s.threads[t])
    ensures Enabled(s, a) && !a.Invoke?
  {
    assert ThreadOk(s, s.threads[t]);
    match s.threads[t].stage
    case Inside => a := UpdateIndices(t);
    case Reserved(at, _) =>
      if s.slotGuards[at] == None {
        a := LockSlot(t);
      } else {
        var holder := s.slotGuards[at].value;
        assert HoldsSlot(s.threads[holder], at);
        assert ThreadOk(s, s.threads[holder]);
        match s.threads[holder].stage
        case HandOver(_, _) => a := UnlockIndex(holder);
        case OwnsSlot(_, _) => a := Access(holder);
        case Leaving(_, _, _) => a := UnlockSlot(holder);
      }
    case _ => a := UnlockIndex(t);
  }

  ghost function Rank<T>(th: Thread<T>): nat {
    if !th.Busy? then 0
    else match th.stage
         case Entering => 6
         case Inside => 5
         case Reserved(_, _) => 4
         case HandOver(_, _) => 3
         case OwnsSlot(_, _) => 2
         case Leaving(_, _, _) => 1
         case Releasing(_, _) => 1
  }

  ghost function Ranks<T>(threads: seq<Thread<T>>): (r: seq<nat>)
    ensures |r| == |threads|
  {
    seq(|threads|, i requires 0 <= i < |threads| => Rank(threads[i]))
  }

  /** Work left: an upper bound on the steps before every call under way has returned. */
  ghost function WorkLeft<T>(s: State<T>): nat {
    Total(Ranks(s.threads))
  }

  lemma RankFalls<T>(s: State<T>, a: Action<T>)
    requires Enabled(s, a) && !a.Invoke?
    ensures Next(s, a).threads == s.threads[a.t := Next(s, a).threads[a.t]]
    ensures Rank(Next(s, a).threads[a.t]) < Rank(s.threads[a.t])
  {
    if a.UpdateIndices? {
      UpdateMovesOnlyIndices(s, a.t);
    }
  }

  lemma StepsUseUpWork<T>(s: State<T>, a: Action<T>)
    requires Enabled(s, a) && !a.Invoke?
    ensures WorkLeft(Next(s, a)) < WorkLeft(s)
  {
    RankFalls(s, a);
    var threads' := Next(s, a).threads;
    assert Ranks(threads') == Ranks(s.threads)[a.t := Rank(threads'[a.t])];
    TotalUpdate(Ranks(s.threads), a.t, Rank(threads'[a.t]));
  }

  /** A step of a call that is already under way. */
  ghost predicate CanContinue<T(!new)>(s: State<T>, s': State<T>) {
    exists a: Action<T> :: !a.Invoke? && Enabled(s, a) && s' == Next(s, a)
  }

  /** From any reachable state, the calls under way can all return, within a known number of steps,
      without any new call; and every step they take brings that closer. */
  lemma {:induction false} CallsCanFinish<T(!new)>(s: State<T>) returns (tail: seq<State<T>>)
    requires Inv(s)
    ensures 0 < |tail| <= WorkLeft(s) + 1 && tail[0] == s
    ensures forall i, j {:trigger CanContinue(tail[i], tail[j])} | 0 <= i && j == i + 1 < |tail| ::
              CanContinue(tail[i], tail[j])
    ensures Quiet(tail[|tail| - 1])
    decreases WorkLeft(s)
  {
    if t :| 0 <= t < |s.threads| && s.threads[t].Busy? {
      var a := SomeoneCanMove(s, t);
      InvNext(s, a);
      StepsUseUpWork(s, a);
      var rest := CallsCanFinish(Next(s, a));
      tail := [s] + rest;
    } else {
      tail := [s];
    }
  }
}
