/** The rendezvous of vee/signal_channel.h between any number of receivers and senders:
    one atomic word, and a pointer to the promise of the receiver that waits.

    A step is one atomic action of one thread. The compare-and-swap may fail for no reason;
    in recv the thread then tries again, which is no step, and in try_send it gives up. */
module SignalChannel {
  import opened Wrappers

  datatype Word = Idle | Wait | Sig

  /** A promise lives inside one call of recv. */
  datatype Promise<V> = Empty | Holding(value: V) | Gone(value: V)

  datatype Loc<V> =
    | Out
    | RecvEntered                            // about to test for a waiting receiver
    | RecvClaiming                           // swaps Idle for Wait, again and again
    | RecvPreparing                          // has the word, pointer not yet stored
    | RecvWaiting(promise: nat)              // pointer stored, blocked on the future
    | RecvClearing(promise: nat, value: V)   // about to null the pointer
    | RecvFreeing(promise: nat, value: V)    // swaps Sig for Idle
    | RecvDone(value: V)
    | RecvThrew
    | SendTrying(value: V)                   // about to swap Wait for Sig
    | SendSpinning(value: V)                 // spins until the pointer is not null
    | SendSetting(value: V)                  // about to follow the pointer and set the promise
    | SendDone(sent: bool)
    | Fault                                  // followed a null or stale pointer, or set a promise twice

  /** receiver and sender record who holds the two ends of the rendezvous, sent and received
      the values in the order of the swaps to Sig and back to Idle, senders and receivers the
      threads that made these swaps; nothing branches on them. */
  datatype State<V> = State(
    word: Word,
    pointer: Option<nat>,
    promises: seq<Promise<V>>,
    threads: seq<Loc<V>>,
    receiver: Option<nat>,
    sender: Option<nat>,
    sent: seq<V>,
    received: seq<V>,
    senders: seq<nat>,
    receivers: seq<nat>)

  datatype Action<V> =
    | BeginRecv(t: nat)
    | Test(t: nat)
    | Claim(t: nat)
    | Publish(t: nat)
    | Get(t: nat)
    | Clear(t: nat)
    | Free(t: nat)
    | BeginSend(t: nat, value: V)
    | Swap(t: nat)
    | GiveUp(t: nat)
    | SeePointer(t: nat)
    | SetPromise(t: nat)
    | Leave(t: nat)

  ghost predicate Init<V>(s: State<V>) {
    && s.word == Idle && s.pointer == None && s.promises == []
    && (forall t | 0 <= t < |s.threads| :: s.threads[t] == Out)
    && s.receiver == None && s.sender == None
    && s.sent == [] && s.received == [] && s.senders == [] && s.receivers == []
  }

  ghost predicate Enabled<V>(s: State<V>, a: Action<V>) {
    && a.t < |s.threads|
    && match a
       case BeginRecv(t) => s.threads[t].Out?
       case Test(t) => s.threads[t].RecvEntered?
       case Claim(t) => s.threads[t].RecvClaiming? && s.word == Idle
       case Publish(t) => s.threads[t].RecvPreparing?
       case Get(t) => s.threads[t].RecvWaiting? && s.threads[t].promise < |s.promises|
                      && s.promises[s.threads[t].promise].Holding?
       case Clear(t) => s.threads[t].RecvClearing?
       case Free(t) => s.threads[t].RecvFreeing? && s.word == Sig && s.threads[t].promise < |s.promises|
       case BeginSend(t, _) => s.threads[t].Out?
       case Swap(t) => s.threads[t].SendTrying? && s.word == Wait
       case GiveUp(t) => s.threads[t].SendTrying?
       case SeePointer(t) => s.threads[t].SendSpinning? && s.pointer != None
       case SetPromise(t) => s.threads[t].SendSetting?
       case Leave(t) => s.threads[t].RecvDone? || s.threads[t].RecvThrew? || s.threads[t].SendDone?
  }

  ghost function At<V>(s: State<V>, t: nat, loc: Loc<V>): State<V>
    requires t < |s.threads|
  {
    s.(threads := s.threads[t := loc])
  }

  ghost function Next<V>(s: State<V>, a: Action<V>): State<V>
    requires Enabled(s, a)
  {
    match a
    case BeginRecv(t) => At(s, t, RecvEntered)
    case Test(t) => At(s, t, if s.word == Wait then RecvThrew else RecvClaiming)
    case Claim(t) => At(s, t, RecvPreparing).(word := Wait, receiver := Some(t))
    case Publish(t) =>
      At(s, t, RecvWaiting(|s.promises|)).(promises := s.promises + [Empty], pointer := Some(|s.promises|))
    case Get(t) =>
      var p := s.threads[t].promise;
      At(s, t, RecvClearing(p, s.promises[p].value))
    case Clear(t) => At(s, t, RecvFreeing(s.threads[t].promise, s.threads[t].value)).(pointer := None)
    case Free(t) =>
      var p, v := s.threads[t].promise, s.threads[t].value;
      At(s, t, RecvDone(v)).(word := Idle, receiver := None, promises := s.promises[p := Gone(v)],
                             received := s.received + [v], receivers := s.receivers + [t])
    case BeginSend(t, v) => At(s, t, SendTrying(v))
    case Swap(t) =>
      var v := s.threads[t].value;
      At(s, t, SendSpinning(v)).(word := Sig, sender := Some(t), sent := s.sent + [v], senders := s.senders + [t])
    case GiveUp(t) => At(s, t, SendDone(false))
    case SeePointer(t) => At(s, t, SendSetting(s.threads[t].value))
    case SetPromise(t) =>
      if s.pointer.Some? && s.pointer.value < |s.promises| && s.promises[s.pointer.value].Empty? then
        At(s, t, SendDone(true)).(sender := None,
                                  promises := s.promises[s.pointer.value := Holding(s.threads[t].value)])
      else At(s, t, Fault)
    case Leave(t) => At(s, t, Out)
  }

  ghost predicate CanStep<V(!new)>(s: State<V>, s': State<V>) {
    exists a :: Enabled(s, a) && s' == Next(s, a)
  }

  ghost predicate IsRun<V(!new)>(run: seq<State<V>>) {
    && 0 < |run|
    && Init(run[0])
    && forall i, j {:trigger CanStep(run[i], run[j])} | 0 <= i && j == i + 1 < |run| :: CanStep(run[i], run[j])
  }

  // ---- Invariant ----

  /** Holds the receiving end: between the swap to Wait and the swap back to Idle. */
  ghost predicate Receiving<V>(loc: Loc<V>) {
    loc.RecvPreparing? || loc.RecvWaiting? || loc.RecvClearing? || loc.RecvFreeing?
  }

  /** Holds the sending end: between the swap to Sig and the setting of the promise. */
  ghost predicate Sending<V>(loc: Loc<V>) {
    loc.SendSpinning? || loc.SendSetting?
  }

  ghost predicate EndsMatch<V>(s: State<V>) {
    && (forall t | 0 <= t < |s.threads| :: Receiving(s.threads[t]) <==> s.receiver == Some(t))
    && (forall t | 0 <= t < |s.threads| :: Sending(s.threads[t]) <==> s.sender == Some(t))
    && (forall t | 0 <= t < |s.threads| :: !s.threads[t].Fault?)
    && (s.receiver.Some? ==> s.receiver.value < |s.threads|)
    && (s.sender.Some? ==> s.sender.value < |s.threads|)
  }

  /** The value that has been sent and not yet been received. */
  ghost function InFlight<V>(s: State<V>): Option<V> {
    if s.word == Sig && s.sent != [] then Some(s.sent[|s.sent| - 1]) else None
  }

  ghost predicate Delivered<V>(s: State<V>) {
    && s.sent == s.received + (if InFlight(s).Some? then [InFlight(s).value] else [])
    && (s.word == Sig <==> InFlight(s).Some?)
    && |s.received| <= |s.promises|
    && forall i | 0 <= i < |s.received| :: s.promises[i] == Gone(s.received[i])
  }

  /** The receiving end, the word, the pointer and the promise agree. */
  ghost predicate ReceiverOk<V>(s: State<V>) {
    match s.receiver
    case None => s.word == Idle && s.pointer == None && s.sender == None && |s.promises| == |s.received|
    case Some(r) =>
      && s.word != Idle
      && r < |s.threads|
      && match s.threads[r]
         case RecvPreparing =>
           s.pointer == None && (s.word == Sig <==> s.sender.Some?) && |s.promises| == |s.received|
         case RecvWaiting(p) =>
           && s.pointer == Some(p) && p == |s.received| && |s.promises| == p + 1
           && (s.promises[p].Empty? ==> (s.word == Sig <==> s.sender.Some?))
           && (!s.promises[p].Empty? ==> s.sender == None && InFlight(s).Some? && s.promises[p] == Holding(InFlight(s).value))
         case RecvClearing(p, v) =>
           && s.pointer == Some(p) && p == |s.received| && |s.promises| == p + 1
           && s.sender == None && InFlight(s) == Some(v)
         case RecvFreeing(p, v) =>
           && s.pointer == None && p == |s.received| && |s.promises| == p + 1
           && s.sender == None && InFlight(s) == Some(v)
         case _ => false
  }

  ghost predicate SenderOk<V>(s: State<V>) {
    match s.sender
    case None => true
    case Some(x) =>
      && x < |s.threads| && Sending(s.threads[x])
      && InFlight(s) == Some(s.threads[x].value)
      && (s.threads[x].SendSetting? ==> s.pointer.Some?)
  }

  ghost predicate Inv<V>(s: State<V>) {
    EndsMatch(s) && Delivered(s) && ReceiverOk(s) && SenderOk(s)
  }

  lemma InvInit<V>(s: State<V>)
    requires Init(s)
    ensures Inv(s)
  {
  }

  lemma InvRecvStep<V>(s: State<V>, a: Action<V>)
    requires Inv(s) && Enabled(s, a)
    requires a.Claim? || a.Publish? || a.Get? || a.Clear? || a.Free?
    ensures Inv(Next(s, a))
  {
    assert a.Claim? || Receiving(s.threads[a.t]);
  }

  lemma InvSendStep<V>(s: State<V>, a: Action<V>)
    requires Inv(s) && Enabled(s, a)
    requires a.Swap? || a.SeePointer? || a.SetPromise?
    ensures Inv(Next(s, a))
  {
    assert a.Swap? || Sending(s.threads[a.t]);
  }

  /** A move between two places that hold neither end. */
  lemma InvMove<V>(s: State<V>, t: nat, loc: Loc<V>)
    requires Inv(s) && t < |s.threads|
    requires !Receiving(s.threads[t]) && !Sending(s.threads[t])
    requires !Receiving(loc) && !Sending(loc) && !loc.Fault?
    ensures Inv(At(s, t, loc))
  {
    var s' := At(s, t, loc);
    assert forall u | 0 <= u < |s.threads| && u != t :: s'.threads[u] == s.threads[u];
    assert EndsMatch(s');
    assert InFlight(s') == InFlight(s);
  }

  lemma InvLocalStep<V>(s: State<V>, a: Action<V>)
    requires Inv(s) && Enabled(s, a)
    requires a.BeginRecv? || a.Test? || a.BeginSend? || a.GiveUp? || a.Leave?
    ensures Inv(Next(s, a))
  {
    InvMove(s, a.t, Next(s, a).threads[a.t]);
  }

  lemma InvNext<V>(s: State<V>, a: Action<V>)
    requires Inv(s) && Enabled(s, a)
    ensures Inv(Next(s, a))
  {
    if a.Claim? || a.Publish? || a.Get? || a.Clear? || a.Free? {
      InvRecvStep(s, a);
    } else if a.Swap? || a.SeePointer? || a.SetPromise? {
      InvSendStep(s, a);
    } else {
      InvLocalStep(s, a);
    }
  }

  /** The steps taken inside recv, and inside a try_send that does not give up. */
  ghost predicate Inner<V>(a: Action<V>) {
    a.Test? || a.Claim? || a.Publish? || a.Get? || a.Clear? || a.Free? || a.Swap? || a.SeePointer? || a.SetPromise?
  }

  /** Where an inner step takes its thread, given the value in flight before it. */
  ghost predicate Moves<V>(a: Action<V>, from: Loc<V>, to: Loc<V>, inFlight: Option<V>) {
    match a
    case Test(_) => from.RecvEntered? && to.RecvClaiming?
    case Claim(_) => from.RecvClaiming? && to.RecvPreparing?
    case Publish(_) => from.RecvPreparing? && to.RecvWaiting?
    case Get(_) => from.RecvWaiting? && to.RecvClearing?
    case Clear(_) => from.RecvClearing? && to.RecvFreeing?
    case Free(_) => from.RecvFreeing? && inFlight.Some? && to == RecvDone(inFlight.value)
    case Swap(_) => from.SendTrying? && to == SendSpinning(from.value)
    case SeePointer(_) => from.SendSpinning? && to == SendSetting(from.value)
    case SetPromise(_) => from.SendSetting? && to == SendDone(true)
    case _ => false
  }

  /** All that the user of a channel needs to know about an inner step. */
  ghost predicate InnerEffect<V>(s: State<V>, s': State<V>, a: Action<V>) {
    && a.t < |s.threads| == |s'.threads|
    && s'.threads == s.threads[a.t := s'.threads[a.t]]
    && Moves(a, s.threads[a.t], s'.threads[a.t], InFlight(s))
    && InFlight(s') == (if a.Swap? then Some(s.threads[a.t].value) else if a.Free? then None else InFlight(s))
    && s'.receiver == (if a.Claim? then Some(a.t) else if a.Free? then None else s.receiver)
    && (a.Free? ==> s.receiver == Some(a.t))
    && (a.Swap? ==> s.receiver.Some? && s.word == Wait)
    && (a.Claim? ==> s.receiver == None && InFlight(s) == None)
  }

  lemma InnerStep<V>(s: State<V>, a: Action<V>)
    requires Inv(s) && Enabled(s, a) && Inner(a)
    requires a.Test? ==> s.word != Wait
    ensures Inv(Next(s, a)) && InnerEffect(s, Next(s, a), a)
  {
    InvNext(s, a);
    if a.Get? || a.Clear? || a.Free? {
      assert Receiving(s.threads[a.t]);
    } else if a.SeePointer? || a.SetPromise? {
      assert Sending(s.threads[a.t]);
    }
  }

  // ---- Results about every run ----

  lemma {:induction false} RunKeepsInv<V(!new)>(run: seq<State<V>>, i: nat)
    requires IsRun(run) && i < |run|
    ensures Inv(run[i])
  {
    if i == 0 {
      InvInit(run[0]);
    } else {
      RunKeepsInv(run, i - 1);
      assert CanStep(run[i - 1], run[i]);
      var a :| Enabled(run[i - 1], a) && run[i] == Next(run[i - 1], a);
      InvNext(run[i - 1], a);
    }
  }

  /** In every run the values sent, in the order of the swaps to Sig, are the values received,
      plus one in flight exactly while the word is Sig. The i-th finished receiver's promise was set
      once, by the i-th successful sender. Nobody follows a null or stale pointer or sets a promise twice. */
  lemma RunDelivers<V(!new)>(run: seq<State<V>>, i: nat)
    requires IsRun(run) && i < |run|
    ensures var s := run[i];
            && s.received <= s.sent
            && |s.sent| == |s.received| + (if s.word == Sig then 1 else 0)
            && |s.received| <= |s.promises| <= |s.received| + 1
            && (forall k | 0 <= k < |s.received| :: s.promises[k] == Gone(s.sent[k]))
            && (forall t | 0 <= t < |s.threads| :: s.threads[t] != Fault)
  {
    RunKeepsInv(run, i);
  }

  /** At most one thread holds each end of the rendezvous. */
  lemma RunExcludes<V(!new)>(run: seq<State<V>>, i: nat, t: nat, u: nat)
    requires IsRun(run) && i < |run| && t < |run[i].threads| && u < |run[i].threads| && t != u
    ensures !(Receiving(run[i].threads[t]) && Receiving(run[i].threads[u]))
    ensures !(Sending(run[i].threads[t]) && Sending(run[i].threads[u]))
  {
    RunKeepsInv(run, i);
  }

  /** A sender about to set a promise finds the promise of the one receiver that is blocked on it. */
  lemma RunSetsLivePromise<V(!new)>(run: seq<State<V>>, i: nat, t: nat)
    requires IsRun(run) && i < |run| && t < |run[i].threads| && run[i].threads[t].SendSetting?
    ensures var s := run[i];
            && s.pointer.Some? && s.pointer.value < |s.promises| && s.promises[s.pointer.value] == Empty
            && exists r :: 0 <= r < |s.threads| && s.threads[r] == RecvWaiting(s.pointer.value)
  {
    var s := run[i];
    RunKeepsInv(run, i);
    assert Sending(s.threads[t]);
    assert s.threads[s.receiver.value] == RecvWaiting(s.pointer.value);
  }

  /** A hand-over that has begun never gets stuck: while the word is Sig one of the two ends can move. */
  lemma HandOverMoves<V>(s: State<V>) returns (a: Action<V>)
    requires Inv(s) && s.word == Sig
    ensures Enabled(s, a)
    ensures a.t < |s.threads| && (Receiving(s.threads[a.t]) || Sending(s.threads[a.t]))
  {
    var r := s.receiver.value;
    match s.threads[r]
    case RecvPreparing => a := Publish(r);
    case RecvWaiting(p) =>
      if s.promises[p].Empty? {
        a := if s.threads[s.sender.value].SendSpinning? then SeePointer(s.sender.value) else SetPromise(s.sender.value);
      } else {
        a := Get(r);
      }
    case RecvClearing(_, _) => a := Clear(r);
    case RecvFreeing(_, _) => a := Free(r);
  }

  /** A try_send that fails and is called again with the same value is back where it was. */
  lemma RetryChangesNothing<V>(s: State<V>, t: nat, value: V)
    requires t < |s.threads| && s.threads[t] == SendTrying(value)
    ensures var s1 := Next(s, GiveUp(t));
            s1.threads[t] == SendDone(false)
            && Enabled(s1, Leave(t)) && Enabled(Next(s1, Leave(t)), BeginSend(t, value))
            && Next(Next(s1, Leave(t)), BeginSend(t, value)) == s
  {
    assert s.threads[t := SendDone(false)][t := Out][t := SendTrying(value)] == s.threads;
  }

  // ---- What one call does and answers ----

  ghost predicate Logged<V>(s: State<V>) {
    |s.senders| == |s.sent| && |s.receivers| == |s.received|
  }

  /** The log is as before, or longer by one entry, which is not of thread t. */
  ghost predicate LogAside<V>(values: seq<V>, values': seq<V>, threads: seq<nat>, threads': seq<nat>, t: nat) {
    && values <= values' && threads <= threads'
    && forall l | |threads| <= l < |threads'| :: threads'[l] != t
  }

  /** A step, seen from a thread t that does not act. */
  ghost predicate Aside<V>(s: State<V>, s': State<V>, t: nat) {
    && t < |s.threads| == |s'.threads| && s'.threads[t] == s.threads[t]
    && LogAside(s.sent, s'.sent, s.senders, s'.senders, t)
    && LogAside(s.received, s'.received, s.receivers, s'.receivers, t)
  }

  lemma OthersStayAside<V>(s: State<V>, a: Action<V>, t: nat)
    requires Enabled(s, a) && t < |s.threads| && a.t != t
    ensures Aside(s, Next(s, a), t)
  {
  }

  lemma LoggedNext<V>(s: State<V>, a: Action<V>)
    requires Enabled(s, a) && Logged(s)
    ensures Logged(Next(s, a)) && |Next(s, a).threads| == |s.threads|
  {
  }

  lemma StepOfRun<V(!new)>(run: seq<State<V>>, k: nat) returns (a: Action<V>)
    requires IsRun(run) && k + 1 < |run|
    ensures Enabled(run[k], a) && run[k + 1] == Next(run[k], a)
  {
    var l := k + 1;
    assert CanStep(run[k], run[l]);
    a :| Enabled(run[k], a) && run[l] == Next(run[k], a);
  }

  lemma {:induction false} RunIsLogged<V(!new)>(run: seq<State<V>>, k: nat)
    requires IsRun(run) && k < |run|
    ensures Logged(run[k]) && |run[k].threads| == |run[0].threads|
  {
    if 0 < k {
      RunIsLogged(run, k - 1);
      var a := StepOfRun(run, k - 1);
      LoggedNext(run[k - 1], a);
    }
  }

  /** Thread t has put the given value, and nothing else, into the sequence that was n long before. */
  ghost predicate LoggedOnce<V>(values: seq<V>, threads: seq<nat>, n: nat, t: nat, value: V) {
    && |threads| == |values|
    && exists k :: n <= k < |values| && threads[k] == t && values[k] == value
                   && forall l | n <= l < |values| && l != k :: threads[l] != t
  }

  ghost predicate NotLogged(threads: seq<nat>, n: nat, t: nat) {
    forall l | n <= l < |threads| :: threads[l] != t
  }

  /** Word, pointer, promises and sent values are as before. */
  ghost predicate SharedKept<V>(s: State<V>, s': State<V>) {
    s'.word == s.word && s'.pointer == s.pointer && s'.promises == s.promises && s'.sent == s.sent
  }

  /** Thread t itself has changed nothing that is shared, from index i up to j. */
  ghost predicate ChangesNothing<V>(run: seq<State<V>>, t: nat, i: nat, j: nat) {
    && i <= j < |run|
    && (forall k | i <= k <= j :: t < |run[k].threads|)
    && forall k, l {:trigger SharedKept(run[k], run[l])} | i <= k && l == k + 1 <= j ::
         run[k].threads[t] != run[l].threads[t] ==> SharedKept(run[k], run[l])
  }

  ghost predicate InSend<V>(loc: Loc<V>) {
    loc.SendTrying? || loc.SendSpinning? || loc.SendSetting? || loc.SendDone?
  }

  ghost predicate InRecv<V>(loc: Loc<V>) {
    loc.RecvEntered? || loc.RecvClaiming? || Receiving(loc) || loc.RecvDone? || loc.RecvThrew?
  }

  /** From index i up to j thread t is in one call of try_send, which it has just begun at i. */
  ghost predicate OneSend<V>(run: seq<State<V>>, t: nat, i: nat, j: nat) {
    && i <= j < |run| && (forall k | i <= k <= j :: t < |run[k].threads| && InSend(run[k].threads[t]))
    && run[i].threads[t].SendTrying?
  }

  ghost predicate OneRecv<V>(run: seq<State<V>>, t: nat, i: nat, j: nat) {
    && i <= j < |run| && (forall k | i <= k <= j :: t < |run[k].threads| && InRecv(run[k].threads[t]))
    && run[i].threads[t].RecvEntered?
  }

  /** How far a call of try_send has got, given how many values had been sent when it began. */
  ghost predicate SendSoFar<V>(s: State<V>, t: nat, n: nat, value: V)
    requires t < |s.threads|
  {
    match s.threads[t]
    case SendTrying(v) => v == value && NotLogged(s.senders, n, t)
    case SendDone(false) => NotLogged(s.senders, n, t)
    case SendSpinning(v) => v == value && LoggedOnce(s.sent, s.senders, n, t, value)
    case SendSetting(v) => v == value && LoggedOnce(s.sent, s.senders, n, t, value)
    case SendDone(true) => LoggedOnce(s.sent, s.senders, n, t, value)
    case _ => true
  }

  lemma NotLoggedAside<V>(values: seq<V>, values': seq<V>, threads: seq<nat>, threads': seq<nat>, n: nat, t: nat)
    requires |threads| == |values| && |threads'| == |values'| && LogAside(values, values', threads, threads', t)
    ensures NotLogged(threads, n, t) ==> NotLogged(threads', n, t)
    ensures forall value :: LoggedOnce(values, threads, n, t, value) ==> LoggedOnce(values', threads', n, t, value)
  {
    forall value | LoggedOnce(values, threads, n, t, value) ensures LoggedOnce(values', threads', n, t, value) {
      var k :| n <= k < |values| && threads[k] == t && values[k] == value
               && forall l | n <= l < |values| && l != k :: threads[l] != t;
      assert threads'[k] == t && values'[k] == value;
    }
  }

  lemma LoggedNow<V>(values: seq<V>, threads: seq<nat>, n: nat, t: nat, value: V)
    requires |threads| == |values| && n <= |values| && NotLogged(threads, n, t)
    ensures LoggedOnce(values + [value], threads + [t], n, t, value)
  {
    assert (threads + [t])[|values|] == t && (values + [value])[|values|] == value;
  }

  lemma SendStep<V>(s: State<V>, a: Action<V>, t: nat, n: nat, value: V)
    requires Enabled(s, a) && Logged(s) && t < |s.threads| && n <= |s.sent|
    requires SendSoFar(s, t, n, value) && InSend(s.threads[t])
    requires !Next(s, a).threads[t].Out?
    ensures SendSoFar(Next(s, a), t, n, value) && n <= |Next(s, a).sent|
  {
    var s' := Next(s, a);
    if a.t != t {
      OthersStayAside(s, a, t);
      NotLoggedAside(s.sent, s'.sent, s.senders, s'.senders, n, t);
    } else if a.Swap? {
      LoggedNow(s.sent, s.senders, n, t, value);
    }
  }

  lemma {:induction false} SendsSoFar<V(!new)>(run: seq<State<V>>, t: nat, i: nat, j: nat)
    requires IsRun(run) && OneSend(run, t, i, j)
    ensures |run[i].sent| <= |run[j].sent| && SendSoFar(run[j], t, |run[i].sent|, run[i].threads[t].value)
  {
    RunIsLogged(run, i);
    if i < j {
      SendsSoFar(run, t, i, j - 1);
      RunIsLogged(run, j - 1);
      var a := StepOfRun(run, j - 1);
      SendStep(run[j - 1], a, t, |run[i].sent|, run[i].threads[t].value);
    }
  }

  /** A call that has sent nothing so far has changed nothing either. */
  lemma {:induction false} UnsentChangesNothing<V(!new)>(run: seq<State<V>>, t: nat, i: nat, j: nat)
    requires IsRun(run) && OneSend(run, t, i, j)
    requires run[j].threads[t].SendTrying? || run[j].threads[t] == SendDone(false)
    ensures ChangesNothing(run, t, i, j)
  {
    if i < j {
      var a := StepOfRun(run, j - 1);
      BeforeUnsent(run[j - 1], a, t);
      UnsentChangesNothing(run, t, i, j - 1);
    }
  }

  lemma BeforeUnsent<V>(s: State<V>, a: Action<V>, t: nat)
    requires Enabled(s, a) && t < |s.threads| && InSend(s.threads[t])
    requires Next(s, a).threads[t].SendTrying? || Next(s, a).threads[t] == SendDone(false)
    ensures s.threads[t].SendTrying? || s.threads[t] == SendDone(false)
    ensures s.threads[t] != Next(s, a).threads[t] ==> SharedKept(s, Next(s, a))
  {
  }

  /** A thread that changes nothing sends nothing. */
  lemma {:induction false} ChangingNothingSendsNothing<V(!new)>(run: seq<State<V>>, t: nat, i: nat, j: nat)
    requires IsRun(run) && ChangesNothing(run, t, i, j)
    ensures |run[i].sent| <= |run[j].sent| && NotLogged(run[j].senders, |run[i].sent|, t)
  {
    RunIsLogged(run, i);
    if i < j {
      ChangingNothingSendsNothing(run, t, i, j - 1);
      RunIsLogged(run, j - 1);
      var a := StepOfRun(run, j - 1);
      assert ChangesNothing(run, t, i, j);
      var k, l := j - 1, j;
      assert run[k].threads[t] != run[l].threads[t] ==> SharedKept(run[k], run[l]);
      QuietStepIsNotLogged(run[k], a, t, |run[i].sent|);
    }
  }

  lemma QuietStepIsNotLogged<V>(s: State<V>, a: Action<V>, t: nat, n: nat)
    requires Enabled(s, a) && Logged(s) && t < |s.threads| && n <= |s.sent| && NotLogged(s.senders, n, t)
    requires s.threads[t] != Next(s, a).threads[t] ==> SharedKept(s, Next(s, a))
    ensures n <= |Next(s, a).sent| && NotLogged(Next(s, a).senders, n, t)
  {
    if a.t != t {
      OthersStayAside(s, a, t);
    }
  }

  /** What try_send answers. In any run, a call that ends with true has sent its own value, once and nothing
      else; a call that ends with false has sent nothing and has touched neither word, pointer nor promises. */
  lemma TrySendAnswers<V(!new)>(run: seq<State<V>>, t: nat, i: nat, j: nat)
    requires IsRun(run) && OneSend(run, t, i, j) && run[j].threads[t].SendDone?
    ensures run[j].threads[t].sent <==> LoggedOnce(run[j].sent, run[j].senders, |run[i].sent|, t, run[i].threads[t].value)
    ensures !run[j].threads[t].sent <==> ChangesNothing(run, t, i, j)
    ensures !run[j].threads[t].sent ==> NotLogged(run[j].senders, |run[i].sent|, t)
  {
    SendsSoFar(run, t, i, j);
    if !run[j].threads[t].sent {
      UnsentChangesNothing(run, t, i, j);
    } else if ChangesNothing(run, t, i, j) {
      ChangingNothingSendsNothing(run, t, i, j);
    }
  }

  /** How far a call of recv has got. */
  ghost predicate RecvSoFar<V>(s: State<V>, t: nat, n: nat)
    requires t < |s.threads|
  {
    if s.threads[t].RecvDone? then LoggedOnce(s.received, s.receivers, n, t, s.threads[t].value)
    else InRecv(s.threads[t]) ==> NotLogged(s.receivers, n, t)
  }

  lemma RecvStep<V>(s: State<V>, a: Action<V>, t: nat, n: nat)
    requires Enabled(s, a) && Logged(s) && t < |s.threads| && n <= |s.received|
    requires RecvSoFar(s, t, n) && InRecv(s.threads[t]) && !Next(s, a).threads[t].Out?
    ensures RecvSoFar(Next(s, a), t, n) && n <= |Next(s, a).received|
  {
    var s' := Next(s, a);
    if a.t != t {
      OthersStayAside(s, a, t);
      NotLoggedAside(s.received, s'.received, s.receivers, s'.receivers, n, t);
    } else if a.Free? {
      LoggedNow(s.received, s.receivers, n, t, s.threads[t].value);
    }
  }

  /** At some moment of the call thread t leaves the entry of recv, with the word as stated. */
  ghost predicate EnteredOn<V>(run: seq<State<V>>, t: nat, i: nat, j: nat, waiting: bool) {
    exists k :: i <= k < j < |run| && EntersAt(run, t, k) && (run[k].word == Wait) == waiting
  }

  ghost predicate EntersAt<V>(run: seq<State<V>>, t: nat, k: nat)
    requires k + 1 < |run|
  {
    && t < |run[k].threads| && t < |run[k + 1].threads|
    && run[k].threads[t].RecvEntered? && !run[k + 1].threads[t].RecvEntered?
  }

  lemma {:induction false} RecvsSoFar<V(!new)>(run: seq<State<V>>, t: nat, i: nat, j: nat)
    requires IsRun(run) && OneRecv(run, t, i, j)
    ensures |run[i].received| <= |run[j].received| && RecvSoFar(run[j], t, |run[i].received|)
  {
    RunIsLogged(run, i);
    if i < j {
      RecvsSoFar(run, t, i, j - 1);
      RunIsLogged(run, j - 1);
      var a := StepOfRun(run, j - 1);
      RecvStep(run[j - 1], a, t, |run[i].received|);
    }
  }

  lemma {:induction false} RecvEntry<V(!new)>(run: seq<State<V>>, t: nat, i: nat, j: nat)
    requires IsRun(run) && OneRecv(run, t, i, j)
    ensures !run[j].threads[t].RecvEntered? ==> EnteredOn(run, t, i, j, run[j].threads[t].RecvThrew?)
  {
    if i < j {
      RecvEntry(run, t, i, j - 1);
      var a := StepOfRun(run, j - 1);
      EntryStep(run[j - 1], a, t);
      if run[j - 1].threads[t].RecvEntered? && !run[j].threads[t].RecvEntered? {
        assert EntersAt(run, t, j - 1);
      } else if !run[j - 1].threads[t].RecvEntered? {
        var k :| i <= k < j - 1 && EntersAt(run, t, k) && (run[k].word == Wait) == run[j - 1].threads[t].RecvThrew?;
        assert i <= k < j && EntersAt(run, t, k);
      }
    }
  }

  /** What recv answers. In any run, a call that returns has received the value it returns, once and nothing
      else, and had found nobody waiting; a call that throws had found somebody waiting, and has received nothing. */
  lemma RecvAnswers<V(!new)>(run: seq<State<V>>, t: nat, i: nat, j: nat)
    requires IsRun(run) && OneRecv(run, t, i, j)
    ensures run[j].threads[t].RecvDone? ==>
              LoggedOnce(run[j].received, run[j].receivers, |run[i].received|, t, run[j].threads[t].value)
              && EnteredOn(run, t, i, j, false)
    ensures run[j].threads[t].RecvThrew? ==>
              NotLogged(run[j].receivers, |run[i].received|, t) && EnteredOn(run, t, i, j, true)
  {
    RecvsSoFar(run, t, i, j);
    RecvEntry(run, t, i, j);
  }

  lemma EntryStep<V>(s: State<V>, a: Action<V>, t: nat)
    requires Enabled(s, a) && t < |s.threads| && InRecv(s.threads[t]) && InRecv(Next(s, a).threads[t])
    ensures var from, to := s.threads[t], Next(s, a).threads[t];
            && (from.RecvEntered? && !to.RecvEntered? ==> (to.RecvThrew? <==> s.word == Wait))
            && (!from.RecvEntered? ==> !to.RecvEntered? && (to.RecvThrew? <==> from.RecvThrew?))
  {
  }
}
