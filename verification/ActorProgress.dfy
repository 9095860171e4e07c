/** An actor that gets no new requests always comes to rest: with all work done, or, once kill is under
    way, with kill finished and the worker gone. */
module ActorProgress {
  import opened Wrappers
  import opened ThreadSums
  import C = SignalChannel
  import opened ActorProtocol
  import opened ActorExit

  /** Everything except a new request and the start of a kill. */
  ghost predicate Continues(a: Action) {
    a != ByOwner(StartKill) && !(a.ByRequester? && a.r == Request)
  }

  /** The worker waits for a signal, nothing is mailed, counted or on its way, and all that was accepted has run. */
  ghost predicate Drained(s: State) {
    && TwoThreads(s)
    && s.owner == Ready
    && s.worker == Receiving && s.channel.threads[WORKER].RecvWaiting? && s.channel.word == C.Wait
    && s.word == Idle && s.counter == 0 && s.mailbox == []
    && s.accepted == s.executed
    && forall t | 0 <= t < |s.requesters| :: !Busy(s.requesters[t])
  }

  /** Kill has returned, the worker has ended, and nobody is in a request but whoever waits for the state
      word, which stays dead. */
  ghost predicate Gone(s: State) {
    && TwoThreads(s)
    && s.owner == Killed && s.worker == Exited
    && forall t | 0 <= t < |s.requesters| :: !Busy(s.requesters[t]) || s.requesters[t].Swapping?
  }

  ghost predicate AtRest(s: State) {
    if Alive(s) then Drained(s) else Gone(s)
  }

  // ---- The measure ----

  /** The exit signal makes its receiver send another one. */
  ghost function Answer(signal: Signal): nat {
    if signal == GoExit then 10 else 0
  }

  ghost function ChannelRank(c: C.State<Signal>, t: nat): nat
    requires t < |c.threads|
  {
    match c.threads[t]
    case RecvEntered => 3
    case RecvClaiming => 2
    case RecvPreparing => 1
    case RecvWaiting(p) => if p < |c.promises| && c.promises[p].Holding? then 9 + Answer(c.promises[p].value) else 0
    case RecvClearing(_, signal) => 8 + Answer(signal)
    case RecvFreeing(_, signal) => 7 + Answer(signal)
    case RecvDone(signal) => 6 + Answer(signal)
    case SendTrying(signal) => 13 + Answer(signal)
    case SendSpinning(signal) => 12 + Answer(signal)
    case SendSetting(signal) => 11 + Answer(signal)
    case SendDone(_) => 1
    case _ => 0
  }

  ghost function OwnerRank(o: Owner): nat {
    match o
    case KillSwapping => 30
    case KillSending => 4
    case KillReceiving => 1
    case _ => 0
  }

  ghost function RequesterRank(loc: Requester): nat {
    match loc
    case Checking(_) => 21
    case CheckingState(_) => 20
    case Enqueuing(_) => 19
    case Counting(_) => 15
    case Swapping(_) => 14
    case _ => 0
  }

  ghost function WorkerRank(w: Worker): nat {
    match w
    case Starting => 20
    case StoringLoaded => 19
    case SendingSpawn => 5
    case StoringIdle => 5
    case StoringWorkable => 4
    case Dequeuing => 5
    case Running(_) => 7
    case Decrementing => 6
    case Resting => 4
    case SendingExitOk => 2
    case StoringDead => 1
    case _ => 0
  }

  ghost function ChannelRanks(c: C.State<Signal>): (ranks: seq<nat>)
    ensures |ranks| == |c.threads|
  {
    seq(|c.threads|, t requires 0 <= t < |c.threads| => ChannelRank(c, t))
  }

  ghost function RequesterRanks(requesters: seq<Requester>): (ranks: seq<nat>)
    ensures |ranks| == |requesters|
  {
    seq(|requesters|, t requires 0 <= t < |requesters| => RequesterRank(requesters[t]))
  }

  /** An upper bound on the steps that are left before the actor is at rest. */
  ghost function Work(s: State): nat {
    3 * |s.mailbox| + OwnerRank(s.owner) + WorkerRank(s.worker)
    + Total(ChannelRanks(s.channel)) + Total(RequesterRanks(s.requesters))
  }

  lemma RequesterMoves(requesters: seq<Requester>, t: nat, loc: Requester)
    requires t < |requesters|
    ensures Total(RequesterRanks(requesters[t := loc])) + RequesterRank(requesters[t])
         == Total(RequesterRanks(requesters)) + RequesterRank(loc)
  {
    assert RequesterRanks(requesters[t := loc]) == RequesterRanks(requesters)[t := RequesterRank(loc)];
    TotalUpdate(RequesterRanks(requesters), t, RequesterRank(loc));
  }

  lemma EnterMoves(c: C.State<Signal>, t: nat, loc: C.Loc<Signal>)
    requires t < |c.threads|
    ensures Total(ChannelRanks(C.At(c, t, loc))) + ChannelRank(c, t)
         == Total(ChannelRanks(c)) + ChannelRank(C.At(c, t, loc), t)
  {
    var c' := C.At(c, t, loc);
    assert ChannelRanks(c') == ChannelRanks(c)[t := ChannelRank(c', t)];
    TotalUpdate(ChannelRanks(c), t, ChannelRank(c', t));
  }

  /** Only the thread that holds the receiving end waits for a promise. */
  lemma OnlyReceiverWaits(c: C.State<Signal>, t: nat)
    requires C.Inv(c) && t < |c.threads| && c.threads[t].RecvWaiting?
    ensures c.receiver == Some(t)
  {
    assert C.Receiving(c.threads[t]);
  }

  lemma InnerStepFalls(c: C.State<Signal>, a: C.Action<Signal>)
    requires C.Inv(c) && C.Enabled(c, a) && C.Inner(a) && !a.SetPromise?
    requires a.Test? ==> c.word != C.Wait
    ensures Total(ChannelRanks(C.Next(c, a))) < Total(ChannelRanks(c))
  {
    var c' := C.Next(c, a);
    InnerRankFalls(c, a);
    forall u | 0 <= u < |c.threads| && u != a.t ensures ChannelRank(c', u) == ChannelRank(c, u) {
      OtherRanksStay(c, a, u);
    }
    assert ChannelRanks(c') == ChannelRanks(c)[a.t := ChannelRank(c', a.t)];
    TotalUpdate(ChannelRanks(c), a.t, ChannelRank(c', a.t));
  }

  lemma InnerRankFalls(c: C.State<Signal>, a: C.Action<Signal>)
    requires C.Inv(c) && C.Enabled(c, a) && C.Inner(a) && !a.SetPromise?
    requires a.Test? ==> c.word != C.Wait
    ensures |C.Next(c, a).threads| == |c.threads| && ChannelRank(C.Next(c, a), a.t) < ChannelRank(c, a.t)
  {
  }

  lemma OtherRanksStay(c: C.State<Signal>, a: C.Action<Signal>, u: nat)
    requires C.Inv(c) && C.Enabled(c, a) && C.Inner(a) && !a.SetPromise?
    requires u < |c.threads| && u != a.t
    ensures |C.Next(c, a).threads| == |c.threads| && ChannelRank(C.Next(c, a), u) == ChannelRank(c, u)
  {
    if c.threads[u].RecvWaiting? {
      OnlyReceiverWaits(c, u);
    }
  }

  /** Setting the promise costs the sender more than it gives the receiver. */
  lemma SetPromiseFalls(c: C.State<Signal>, t: nat)
    requires C.Inv(c) && C.Enabled(c, C.SetPromise(t))
    ensures Total(ChannelRanks(C.Next(c, C.SetPromise(t)))) < Total(ChannelRanks(c))
  {
    var c' := C.Next(c, C.SetPromise(t));
    assert C.Sending(c.threads[t]);
    var r := c.receiver.value;
    assert r != t;
    assert forall u | 0 <= u < |c.threads| :: c.threads[u].RecvWaiting? ==> C.Receiving(c.threads[u]);
    assert forall u | 0 <= u < |c.threads| && u != t && u != r :: ChannelRank(c', u) == ChannelRank(c, u);
    var ranks := ChannelRanks(c);
    var gained: nat := 9 + Answer(c.threads[t].value);
    var paid: seq<nat> := ranks[t := 1];
    assert ChannelRanks(c') == paid[r := gained];
    TotalUpdate(ranks, t, 1);
    TotalUpdate(paid, r, gained);
  }

  /** Whoever has come out of recv holds the signal that was meant for it. */
  lemma SignalsFit(s: State)
    requires Inv(s)
    ensures s.owner == Constructing && s.channel.threads[OWNER].RecvDone? ==> s.channel.threads[OWNER].value == Spawn
    ensures s.owner == KillReceiving && s.channel.threads[OWNER].RecvDone? ==> s.channel.threads[OWNER].value == ExitOk
    ensures s.worker == Receiving && s.channel.threads[WORKER].RecvDone? ==>
              s.channel.threads[WORKER].value == Active || s.channel.threads[WORKER].value == GoExit
  {
    if s.owner == Constructing && s.channel.threads[OWNER].RecvDone? {
      DoneIsNotReceiving(s, OWNER);
    }
  }

  lemma ChannelStepFalls(s: State, step: C.Action<Signal>)
    requires Inv(s) && Enabled(s, Channel(step))
    ensures Work(Next(s, Channel(step))) < Work(s)
  {
    if step.SetPromise? {
      SetPromiseFalls(s.channel, step.t);
    } else {
      if step.Test? {
        NobodyElseWaits(s, step.t);
      }
      InnerStepFalls(s.channel, step);
    }
  }

  lemma OwnerStepFalls(s: State, o: OwnerAction)
    requires TwoThreads(s) && OwnerEnabled(s, o) && o in {Constructed, KillSwap, KillSent, KillReceived}
    requires o == KillSwap ==> s.channel.threads[OWNER] == C.Out
    requires o == KillReceived ==> s.channel.threads[OWNER].value == ExitOk
    ensures Work(OwnerNext(s, o)) < Work(s)
  {
    EnterMoves(s.channel, OWNER, OwnerNext(s, o).channel.threads[OWNER]);
  }

  /** How the worker's own steps use up work, told from its place in the channel. */
  lemma WorkerStepFalls(s: State, w: WorkerAction)
    requires TwoThreads(s) && WorkerEnabled(s, w)
    requires w in {CheckSpawn, StoreIdle, Dequeue, FinishJob, Decrement, StoreDead}
    requires w == CheckSpawn ==> s.word == Spawning
    requires w == Dequeue ==> s.mailbox != []
    ensures Work(WorkerNext(s, w)) < Work(s)
  {
  }

  lemma WorkerEntryFalls(s: State, w: WorkerAction)
    requires TwoThreads(s) && WorkerEnabled(s, w) && w in {StoreLoaded, StoreWorkable, Rest}
    requires w == Rest ==> s.word == Proc
    requires s.channel.threads[WORKER] == C.Out
    ensures Work(WorkerNext(s, w)) < Work(s)
  {
    EnterMoves(s.channel, WORKER, WorkerNext(s, w).channel.threads[WORKER]);
  }

  lemma WorkerExitFalls(s: State, w: WorkerAction)
    requires TwoThreads(s) && WorkerEnabled(s, w) && w in {SpawnSent, Received, ExitOkSent}
    requires w == Received ==> s.channel.threads[WORKER].value == Active || s.channel.threads[WORKER].value == GoExit
    ensures Work(WorkerNext(s, w)) < Work(s)
  {
    EnterMoves(s.channel, WORKER, WorkerNext(s, w).channel.threads[WORKER]);
  }

  lemma RequesterStepFalls(s: State, t: nat, r: RequestAction)
    requires TwoThreads(s) && t < |s.requesters| && RequesterEnabled(s, t, r)
    requires r in {TestWorkable, TestState, Enqueue, Count}
    ensures Work(RequesterNext(s, t, r)) < Work(s)
  {
    RequesterMoves(s.requesters, t, RequesterNext(s, t, r).requesters[t]);
  }

  lemma RequesterSignalFalls(s: State, t: nat, r: RequestAction)
    requires TwoThreads(s) && t < |s.requesters| && RequesterEnabled(s, t, r)
    requires (r == SwapProc && s.channel.threads[t] == C.Out) || r == ActiveSent
    ensures Work(RequesterNext(s, t, r)) < Work(s)
  {
    var s' := RequesterNext(s, t, r);
    RequesterMoves(s.requesters, t, s'.requesters[t]);
    EnterMoves(s.channel, t, s'.channel.threads[t]);
  }

  lemma WorkerFalls(s: State, w: WorkerAction)
    requires Inv(s) && Enabled(s, ByWorker(w))
    ensures Work(Next(s, ByWorker(w))) < Work(s)
  {
    SignalsFit(s);
    WorkerNeverThrows(s);
    assert Fits(s.channel.threads[WORKER], ModeOf(s, WORKER));
    if w in {CheckSpawn, StoreIdle, Dequeue, FinishJob, Decrement, StoreDead} {
      if w == Dequeue {
        DequeueFindsMail(s);
      }
      WorkerStepFalls(s, w);
    } else if w in {StoreLoaded, StoreWorkable, Rest} {
      WorkerEntryFalls(s, w);
    } else {
      WorkerExitFalls(s, w);
    }
  }

  lemma RequesterFalls(s: State, t: nat, r: RequestAction)
    requires Inv(s) && Enabled(s, ByRequester(t, r)) && r != Request
    ensures Work(Next(s, ByRequester(t, r))) < Work(s)
  {
    if r == SwapProc || r == ActiveSent {
      assert Fits(s.channel.threads[t], ModeOf(s, t));
      RequesterSignalFalls(s, t, r);
    } else {
      RequesterStepFalls(s, t, r);
    }
  }

  lemma OwnerFalls(s: State, o: OwnerAction)
    requires Inv(s) && Enabled(s, ByOwner(o)) && o != StartKill
    ensures Work(Next(s, ByOwner(o))) < Work(s)
  {
    OwnerNeverThrows(s);
    SignalsFit(s);
    assert Fits(s.channel.threads[OWNER], ModeOf(s, OWNER));
    OwnerStepFalls(s, o);
  }

  /** Every step that is not a new request or the start of a kill uses up work, in every reachable state. */
  lemma StepsUseUpWork(s: State, a: Action)
    requires Inv(s) && Enabled(s, a) && Continues(a)
    ensures Work(Next(s, a)) < Work(s)
  {
    match a
    case Channel(step) => ChannelStepFalls(s, step);
    case ByOwner(o) => OwnerFalls(s, o);
    case ByWorker(w) => WorkerFalls(s, w);
    case ByRequester(t, r) => RequesterFalls(s, t, r);
  }

  /** Living actors stay alive, and dying ones do not come back. */
  lemma OwnerKeepsAlive(s: State, o: OwnerAction)
    requires Inv(s) && OwnerEnabled(s, o) && o != StartKill
    ensures Alive(OwnerNext(s, o)) == Alive(s)
  {
    OwnerNeverThrows(s);
    SignalsFit(s);
  }

  lemma StepKeepsAlive(s: State, a: Action)
    requires Inv(s) && Enabled(s, a) && Continues(a)
    ensures Alive(Next(s, a)) == Alive(s)
  {
    match a
    case Channel(step) =>
    case ByOwner(o) => OwnerKeepsAlive(s, o);
    case ByWorker(w) => assert WorkerNext(s, w).owner == s.owner;
    case ByRequester(t, r) => assert RequesterNext(s, t, r).owner == s.owner;
  }

  lemma Onward(s: State, s': State)
    requires Lasts(s) && CanContinue(s, s')
    ensures Lasts(s') && Alive(s') == Alive(s) && Work(s') < Work(s)
  {
    var a :| Enabled(s, a) && Continues(a) && s' == Next(s, a);
    LastsNext(s, a);
    StepsUseUpWork(s, a);
    StepKeepsAlive(s, a);
  }

  ghost predicate CanContinue(s: State, s': State) {
    exists a :: Enabled(s, a) && Continues(a) && s' == Next(s, a)
  }

  // ---- Somebody can always move ----

  /** Out of a channel operation, or between two of them, everybody moves on freely. */
  lemma WorkerMoves(s: State) returns (a: Action)
    requires Inv(s) && s.worker != Receiving && s.worker != SendingSpawn
    requires s.worker != SendingExitOk && s.worker != Exited
    requires !Busy(s.requesters[WORKER])
    ensures Enabled(s, a) && Continues(a)
  {
    match s.worker
    case Starting => a := ByWorker(CheckSpawn);
    case StoringLoaded => a := ByWorker(StoreLoaded);
    case StoringIdle => a := ByWorker(StoreIdle);
    case StoringWorkable => a := ByWorker(StoreWorkable);
    case Dequeuing => a := ByWorker(Dequeue);
    case Running(_) => a := ByWorker(FinishJob);
    case Decrementing => a := ByWorker(Decrement);
    case Resting => a := ByWorker(Rest);
    case StoringDead => a := ByWorker(StoreDead);
  }

  /** A thread inside recv can move, unless it waits for a signal that nobody has sent yet. */
  lemma ReceiverMoves(s: State, t: nat) returns (a: Action)
    requires Inv(s) && t < |s.requesters| && ModeOf(s, t) == Receives
    requires s.channel.word == C.Idle || s.channel.receiver == Some(t) || s.channel.threads[t].RecvDone?
    requires s.channel.word != C.Sig && !s.channel.threads[t].RecvWaiting?
    ensures Enabled(s, a) && Continues(a)
  {
    assert Fits(s.channel.threads[t], ModeOf(s, t));
    match s.channel.threads[t]
    case RecvEntered => a := Channel(C.Test(t));
    case RecvClaiming => a := Channel(C.Claim(t));
    case RecvPreparing => a := Channel(C.Publish(t));
    case RecvDone(_) =>
      a := if t == WORKER then ByWorker(Received)
           else ByOwner(if s.owner == Constructing then Constructed else KillReceived);
  }

  /** If the receiving end is taken, it is taken by one of the two threads that ever call recv. */
  lemma ReceivingEnd(s: State)
    requires Inv(s) && s.channel.word != C.Sig
    ensures s.channel.word == C.Idle || s.channel.receiver == Some(OWNER) || s.channel.receiver == Some(WORKER)
    ensures s.channel.word == C.Wait && s.channel.receiver == Some(OWNER) ==> ModeOf(s, OWNER) == Receives
    ensures s.channel.word == C.Wait && s.channel.receiver == Some(WORKER) ==> s.worker == Receiving
  {
    ReceiverIsOwnerOrWorker(s);
  }

  /** While no signal is in flight, a thread in try_send has not begun or has finished. */
  lemma SenderStands(s: State, t: nat, signal: Signal)
    requires Inv(s) && s.channel.word != C.Sig && t < |s.requesters| && ModeOf(s, t) == Sends(signal)
    ensures s.channel.threads[t] == C.SendTrying(signal) || s.channel.threads[t] == C.SendDone(true)
  {
    assert Fits(s.channel.threads[t], ModeOf(s, t));
    assert !C.Sending(s.channel.threads[t]);
  }

  lemma RequesterMovesOn(s: State, t: nat) returns (a: Action)
    requires Inv(s) && t < |s.requesters| && Busy(s.requesters[t]) && s.channel.word != C.Sig
    requires s.requesters[t].Swapping? ==> s.word == Idle
    requires s.requesters[t].Sending? && s.channel.threads[t].SendTrying? ==> s.channel.word == C.Wait
    ensures Enabled(s, a) && Continues(a)
  {
    match s.requesters[t]
    case Checking(_) => a := ByRequester(t, TestWorkable);
    case CheckingState(_) => a := ByRequester(t, TestState);
    case Enqueuing(_) => a := ByRequester(t, Enqueue);
    case Counting(_) => a := ByRequester(t, Count);
    case Swapping(_) => a := ByRequester(t, SwapProc);
    case Sending(_) =>
      assert Fits(s.channel.threads[t], ModeOf(s, t));
      assert !C.Sending(s.channel.threads[t]);
      a := if s.channel.threads[t].SendTrying? then Channel(C.Swap(t)) else ByRequester(t, ActiveSent);
  }

  /** A nested request never waits for anything. */
  lemma NestedMoves(s: State) returns (a: Action)
    requires Inv(s) && Busy(s.requesters[WORKER])
    ensures Enabled(s, a) && Continues(a)
  {
    match s.requesters[WORKER]
    case Checking(_) => a := ByRequester(WORKER, TestWorkable);
    case CheckingState(_) => a := ByRequester(WORKER, TestState);
    case Enqueuing(_) => a := ByRequester(WORKER, Enqueue);
    case Counting(_) => a := ByRequester(WORKER, Count);
  }

  /** A sender's partner is the owner: one of the two can move. */
  lemma AroundWaitingOwner(s: State, signal: Signal) returns (a: Action)
    requires Inv(s) && s.channel.word != C.Sig && ModeOf(s, WORKER) == Sends(signal)
    requires ModeOf(s, OWNER) == Receives && s.worker != Receiving
    requires s.channel.threads[WORKER].SendTrying?
    ensures Enabled(s, a) && Continues(a)
  {
    ReceivingEnd(s);
    if s.channel.threads[OWNER].RecvWaiting? {
      OnlyReceiverWaits(s.channel, OWNER);
      a := Channel(C.Swap(WORKER));
    } else {
      a := ReceiverMoves(s, OWNER);
    }
  }

  lemma BootMoves(s: State) returns (a: Action)
    requires Inv(s) && s.channel.word != C.Sig && s.worker == SendingSpawn
    ensures Enabled(s, a) && Continues(a)
  {
    SenderStands(s, WORKER, Spawn);
    if s.channel.threads[WORKER].SendTrying? {
      a := AroundWaitingOwner(s, Spawn);
    } else {
      a := ByWorker(SpawnSent);
    }
  }

  lemma ExitMoves(s: State) returns (a: Action)
    requires Lasts(s) && s.channel.word != C.Sig && s.worker == SendingExitOk
    ensures Enabled(s, a) && Continues(a)
  {
    SenderStands(s, WORKER, ExitOk);
    assert ExitSent(s) && C.InFlight(s.channel) == None;
    if s.channel.threads[WORKER].SendTrying? {
      if s.owner == KillSending {
        SenderStands(s, OWNER, GoExit);
        a := ByOwner(KillSent);
      } else {
        a := AroundWaitingOwner(s, ExitOk);
      }
    } else {
      a := ByWorker(ExitOkSent);
    }
  }

  /** In every reachable state that is not at rest, some thread can take a step that is not just another
      failed attempt of a spin loop. */
  lemma SomebodyMoves(s: State) returns (a: Action)
    requires Lasts(s) && !AtRest(s)
    ensures Enabled(s, a) && Continues(a)
  {
    if s.channel.word == C.Sig {
      var step := C.HandOverMoves(s.channel);
      a := Channel(step);
    } else if Busy(s.requesters[WORKER]) {
      a := NestedMoves(s);
    } else if s.worker == SendingSpawn {
      a := BootMoves(s);
    } else if s.worker == SendingExitOk {
      a := ExitMoves(s);
    } else if s.worker == Exited {
      a := WithoutWorker(s);
    } else if s.worker != Receiving {
      a := WorkerMoves(s);
    } else if !s.channel.threads[WORKER].RecvWaiting? {
      a := WorkerReceives(s);
    } else {
      a := AroundWaitingWorker(s);
    }
  }

  /** The worker is in recv and does not wait yet. */
  lemma WorkerReceives(s: State) returns (a: Action)
    requires Lasts(s) && s.channel.word != C.Sig
    requires s.worker == Receiving && !s.channel.threads[WORKER].RecvWaiting?
    ensures Enabled(s, a) && Continues(a)
  {
    ReceivingEnd(s);
    if !s.channel.threads[WORKER].RecvDone? {
      OwnerIsNotReceiving(s);
    }
    a := ReceiverMoves(s, WORKER);
  }

  /** When nothing is in flight and the worker has nothing in hand, the owner is not in recv. */
  lemma OwnerIsNotReceiving(s: State)
    requires Inv(s) && s.channel.word != C.Sig && s.worker == Receiving && !s.channel.threads[WORKER].RecvDone?
    ensures s.channel.receiver != Some(OWNER)
  {
    assert C.InFlight(s.channel) == None && !ExitUnderWay(s);
    assert ModeOf(s, OWNER) == Receives ==> s.channel.threads[OWNER] == C.RecvDone(Spawn);
    ReceiverIsOwnerOrWorker(s);
    if s.channel.threads[OWNER].RecvDone? {
      DoneIsNotReceiving(s, OWNER);
    }
  }

  lemma AroundWaitingWorker(s: State) returns (a: Action)
    requires Lasts(s) && !AtRest(s) && s.channel.word != C.Sig
    requires s.worker == Receiving && s.channel.threads[WORKER].RecvWaiting?
    requires !Busy(s.requesters[WORKER])
    ensures Enabled(s, a) && Continues(a)
  {
    OnlyReceiverWaits(s.channel, WORKER);
    assert s.channel.word == C.Wait && C.InFlight(s.channel) == None && !ExitUnderWay(s);
    if s.owner == Constructing {
      assert s.channel.threads[OWNER] == C.RecvDone(Spawn);
      a := ByOwner(Constructed);
    } else if s.owner == KillSending {
      SenderStands(s, OWNER, GoExit);
      a := Channel(C.Swap(OWNER));
    } else {
      a := AroundIdleWorker(s);
    }
  }

  /** The worker waits and the state word is not dead: a request or a kill can go on. */
  lemma AroundIdleWorker(s: State) returns (a: Action)
    requires Lasts(s) && !AtRest(s) && s.channel.word == C.Wait && C.InFlight(s.channel) == None
    requires s.worker == Receiving && s.channel.threads[WORKER].RecvWaiting?
    requires (s.owner == Ready || s.owner == KillSwapping) && s.word != Dead
    ensures Enabled(s, a) && Continues(a)
  {
    if t :| 0 <= t < |s.requesters| && Busy(s.requesters[t]) {
      assert s.requesters[t].Swapping? <==> s.token == Waking(t);
      a := RequesterMovesOn(s, t);
    } else {
      QuietIsIdle(s);
      a := ByOwner(KillSwap);
    }
  }

  /** Worker waiting, nobody in a request: then there is nothing left to do. */
  lemma QuietIsIdle(s: State)
    requires Inv(s) && s.channel.word == C.Wait && C.InFlight(s.channel) == None
    requires s.worker == Receiving && s.channel.threads[WORKER].RecvWaiting?
    requires (s.owner == Ready || s.owner == KillSwapping) && s.word != Dead
    requires forall t | 0 <= t < |s.requesters| :: !Busy(s.requesters[t])
    ensures s.word == Idle && (s.owner == Ready ==> Drained(s))
  {
    assert s.token == NoToken;
    NobodyUncounted(s.requesters);
  }

  /** The worker has ended: kill can return, and requesters that were under way can go on. */
  lemma WithoutWorker(s: State) returns (a: Action)
    requires Lasts(s) && !AtRest(s) && s.channel.word != C.Sig && s.worker == Exited
    ensures Enabled(s, a) && Continues(a)
  {
    assert ExitSent(s) && ConfirmUnderWay(s) && C.InFlight(s.channel) == None;
    if s.owner == KillReceiving {
      a := ByOwner(KillReceived);
    } else {
      assert s.owner == Killed && s.word == Dead;
      var t :| 0 <= t < |s.requesters| && Busy(s.requesters[t]) && !s.requesters[t].Swapping?;
      assert s.token != Signalling(t);
      a := RequesterMovesOn(s, t);
    }
  }

  // ---- Coming to rest ----

  /** A continuation without new requests and without the start of a kill, scheduled in any way. */
  ghost predicate Continuation(tail: seq<State>) {
    && 0 < |tail|
    && forall i, j {:trigger CanContinue(tail[i], tail[j])} | 0 <= i && j == i + 1 < |tail| ::
         CanContinue(tail[i], tail[j])
  }

  lemma Prepend(s: State, tail: seq<State>)
    requires Continuation(tail) && CanContinue(s, tail[0])
    ensures Continuation([s] + tail)
  {
    var longer := [s] + tail;
    forall i, j | 0 <= i && j == i + 1 < |longer| ensures CanContinue(longer[i], longer[j]) {
      assert i > 0 ==> CanContinue(tail[i - 1], tail[j - 1]);
    }
  }

  /** A continuation that brings the actor to rest. */
  ghost predicate RestsBy(s: State, tail: seq<State>) {
    && Continuation(tail) && |tail| <= Work(s) + 1 && tail[0] == s
    && AtRest(tail[|tail| - 1]) && Alive(tail[|tail| - 1]) == Alive(s)
  }

  lemma RestsSooner(s: State, s': State, rest: seq<State>)
    requires CanContinue(s, s') && Alive(s') == Alive(s) && Work(s') < Work(s) && RestsBy(s', rest)
    ensures RestsBy(s, [s] + rest)
  {
    Prepend(s, rest);
    assert ([s] + rest)[|rest|] == rest[|rest| - 1];
  }

  lemma {:induction false} ComesToRest(s: State) returns (tail: seq<State>)
    requires Lasts(s)
    ensures RestsBy(s, tail)
    decreases Work(s)
  {
    if AtRest(s) {
      tail := [s];
    } else {
      var s' := Advance(s);
      var rest := ComesToRest(s');
      RestsSooner(s, s', rest);
      tail := [s] + rest;
    }
  }

  lemma Advance(s: State) returns (s': State)
    requires Lasts(s) && !AtRest(s)
    ensures CanContinue(s, s') && Lasts(s') && Alive(s') == Alive(s) && Work(s') < Work(s)
  {
    var a := SomebodyMoves(s);
    s' := Next(s, a);
    Onward(s, s');
  }

  /** Progress. From every state that a run reaches before a kill, with no further requests, the actor
      comes to rest with every accepted job executed, within a known number of steps. */
  lemma EveryRunComesToRest(run: seq<State>, i: nat) returns (tail: seq<State>)
    requires IsRun(run) && i < |run| && Alive(run[i])
    ensures Continuation(tail) && |tail| <= Work(run[i]) + 1 && tail[0] == run[i] && Drained(tail[|tail| - 1])
  {
    RunLasts(run, i);
    tail := ComesToRest(run[i]);
  }

  lemma StepOfContinuation(tail: seq<State>, i: nat, j: nat)
    requires Continuation(tail) && j == i + 1 < |tail|
    ensures CanContinue(tail[i], tail[j])
  {}

  /** Numbers that fall at every place where something holds, which holds on from there. */
  lemma {:induction false} Falling(holds: seq<bool>, work: seq<nat>, i: nat)
    requires i < |holds| == |work| && holds[0]
    requires forall k, j {:trigger holds[k], holds[j]} | 0 <= k && j == k + 1 < |holds| ::
               holds[k] ==> holds[j] && work[j] < work[k]
    ensures holds[i] && work[i] + i <= work[0]
  {
    if 0 < i {
      Falling(holds, work, i - 1);
    }
  }

  ghost predicate LastsAs(s: State, alive: bool) {
    Lasts(s) && Alive(s) == alive
  }

  lemma OnwardAs(tail: seq<State>, k: nat, j: nat, alive: bool)
    requires Continuation(tail) && j == k + 1 < |tail| && LastsAs(tail[k], alive)
    ensures LastsAs(tail[j], alive) && Work(tail[j]) < Work(tail[k])
  {
    StepOfContinuation(tail, k, j);
    Onward(tail[k], tail[j]);
  }

  /** Where a continuation has got to. */
  lemma EndOf(tail: seq<State>) returns (last: State)
    requires Continuation(tail) && Lasts(tail[0])
    ensures last == tail[|tail| - 1] && Lasts(last) && Alive(last) == Alive(tail[0])
    ensures |tail| - 1 <= Work(tail[0])
  {
    var alive := Alive(tail[0]);
    var holds := seq(|tail|, k requires 0 <= k < |tail| => LastsAs(tail[k], alive));
    var work := seq(|tail|, k requires 0 <= k < |tail| => Work(tail[k]));
    forall k, j {:trigger holds[k], holds[j]} | 0 <= k && j == k + 1 < |tail| && holds[k]
      ensures holds[j] && work[j] < work[k]
    {
      OnwardAs(tail, k, j, alive);
    }
    Falling(holds, work, |tail| - 1);
    last := tail[|tail| - 1];
  }

  ghost predicate Stuck(s: State) {
    forall a :: Continues(a) ==> !Enabled(s, a)
  }

  /** No schedule can go on for ever, and none can stop early: a continuation that cannot be
      extended has ended in the drained state. */
  lemma StuckIsDrained(run: seq<State>, i: nat, tail: seq<State>)
    requires IsRun(run) && i < |run| && Alive(run[i])
    requires Continuation(tail) && tail[0] == run[i]
    ensures |tail| - 1 <= Work(run[i])
    ensures Stuck(tail[|tail| - 1]) <==> Drained(tail[|tail| - 1])
  {
    RunLasts(run, i);
    var last := EndOf(tail);
    RestIffStuck(last);
  }

  lemma RestIffStuck(s: State)
    requires Lasts(s)
    ensures Stuck(s) <==> AtRest(s)
  {
    if AtRest(s) {
      forall a | Continues(a) ensures !Enabled(s, a) {
        if Alive(s) {
          DrainedNeverMoves(s, a);
        } else {
          GoneNeverMoves(s, a);
        }
      }
    } else {
      var a := SomebodyMoves(s);
    }
  }

  lemma DrainedNeverMoves(s: State, a: Action)
    requires Lasts(s) && Drained(s) && Continues(a)
    ensures !Enabled(s, a)
  {
    DrainedHasNoWork(s);
    if Enabled(s, a) {
      assert CanContinue(s, Next(s, a));
      Onward(s, Next(s, a));
    }
  }

  lemma DrainedHasNoWork(s: State)
    requires Inv(s) && Drained(s)
    ensures Work(s) == 0
  {
    forall t | 0 <= t < |s.requesters| ensures RequesterRank(s.requesters[t]) == 0 {
      assert !Busy(s.requesters[t]);
    }
    ZerosSumToZero(RequesterRanks(s.requesters));
    OnlyReceiverWaits(s.channel, WORKER);
    forall t | 0 <= t < |s.channel.threads| ensures ChannelRank(s.channel, t) == 0 {
      assert Fits(s.channel.threads[t], ModeOf(s, t));
      assert !Busy(s.requesters[t]);
    }
    ZerosSumToZero(ChannelRanks(s.channel));
  }

  /** After a kill everybody is out of the channel, and the state word keeps its last value. */
  lemma GoneNeverMoves(s: State, a: Action)
    requires Inv(s) && Gone(s) && Continues(a)
    ensures !Enabled(s, a)
  {
    assert s.word == Dead;
    match a
    case Channel(step) =>
      if step.t < |s.requesters| {
        assert Fits(s.channel.threads[step.t], ModeOf(s, step.t));
        assert !Busy(s.requesters[step.t]) || s.requesters[step.t].Swapping?;
      }
    case ByRequester(t, r) =>
      assert t < |s.requesters| ==> !Busy(s.requesters[t]) || s.requesters[t].Swapping?;
    case _ =>
  }

  lemma {:induction false} ZerosSumToZero(amounts: seq<nat>)
    requires forall i | 0 <= i < |amounts| :: amounts[i] == 0
    ensures Total(amounts) == 0
  {
    if amounts != [] {
      ZerosSumToZero(amounts[1..]);
    }
  }
}
