/** Two more things that every run of an actor keeps: how the worker's last signal travels, and that
    an actor which is up and not being killed is open for requests. */
module ActorExit {
  import opened Wrappers
  import C = SignalChannel
  import opened ActorProtocol

  /** The worker has handed the last signal over. */
  ghost predicate ConfirmSent(s: State)
    requires TwoThreads(s)
  {
    (s.worker == SendingExitOk && !s.channel.threads[WORKER].SendTrying?) || s.worker == StoringDead || s.worker == Exited
  }

  /** That signal is in the channel, or with kill, or kill has returned. */
  ghost predicate ConfirmUnderWay(s: State)
    requires TwoThreads(s)
  {
    C.InFlight(s.channel) == Some(ExitOk)
    || (s.owner == KillReceiving && s.channel.threads[OWNER].RecvDone?)
    || s.owner == Killed
  }

  ghost predicate Confirmed(s: State) {
    TwoThreads(s) && (ConfirmSent(s) <==> ConfirmUnderWay(s))
  }

  ghost predicate Alive(s: State) {
    s.owner == Constructing || s.owner == Ready
  }

  ghost predicate Opened(s: State) {
    Alive(s) && !Booting(s.worker) ==> s.workable
  }

  /** What every reachable state satisfies. */
  ghost predicate Lasts(s: State) {
    Inv(s) && Confirmed(s) && Opened(s)
  }

  lemma SwapKeepsConfirmed(s: State, s': State, step: C.Action<Signal>)
    requires TwoThreads(s) && Roles(s) && Confirmed(s) && ChannelMoved(s, s', step)
    requires step.Swap? && Reaches(s, step.t) && C.InFlight(s.channel) == None
    ensures Confirmed(s')
  {
    assert Fits(s.channel.threads[step.t], ModeOf(s, step.t));
    assert Fits(s.channel.threads[WORKER], ModeOf(s, WORKER));
    assert Fits(s.channel.threads[OWNER], ModeOf(s, OWNER));
  }

  lemma FreeKeepsConfirmed(s: State, s': State, step: C.Action<Signal>)
    requires TwoThreads(s) && Roles(s) && Traffic(s) && Confirmed(s) && ChannelMoved(s, s', step)
    requires step.Free?
    ensures Confirmed(s')
  {
    assert Fits(s.channel.threads[step.t], ModeOf(s, step.t));
    assert Fits(s.channel.threads[WORKER], ModeOf(s, WORKER));
    assert step.t in {OWNER, WORKER};
    var signal := C.InFlight(s.channel).value;
    assert signal.Spawn? || signal.ExitOk? || signal.Active? || signal.GoExit?;
  }

  lemma OtherStepKeepsConfirmed(s: State, s': State, step: C.Action<Signal>)
    requires TwoThreads(s) && Confirmed(s) && ChannelMoved(s, s', step)
    requires !step.Swap? && !step.Free?
    ensures Confirmed(s')
  {
    assert forall t | 0 <= t < |s.requesters| ::
        s'.channel.threads[t].RecvDone? == s.channel.threads[t].RecvDone?
        && s'.channel.threads[t].SendTrying? == s.channel.threads[t].SendTrying?;
  }

  lemma ChannelKeepsConfirmed(s: State, step: C.Action<Signal>)
    requires Protocol(s) && Confirmed(s) && Enabled(s, Channel(step))
    ensures Confirmed(ChannelNext(s, step))
  {
    var s' := ChannelNext(s, step);
    ChannelMoves(s, step);
    if step.Swap? {
      SwapReaches(s, step.t);
      SwapKeepsConfirmed(s, s', step);
    } else if step.Free? {
      FreeKeepsConfirmed(s, s', step);
    } else {
      OtherStepKeepsConfirmed(s, s', step);
    }
  }

  lemma OwnerKeepsConfirmed(s: State, o: OwnerAction)
    requires Links(s) && Confirmed(s) && OwnerEnabled(s, o)
    ensures Confirmed(OwnerNext(s, o))
  {
    assert Fits(s.channel.threads[OWNER], ModeOf(s, OWNER));
    assert Fits(s.channel.threads[WORKER], ModeOf(s, WORKER));
    assert C.InFlight(OwnerNext(s, o).channel) == C.InFlight(s.channel);
  }

  lemma WorkerKeepsConfirmed(s: State, w: WorkerAction)
    requires Links(s) && Confirmed(s) && WorkerEnabled(s, w)
    ensures Confirmed(WorkerNext(s, w))
  {
    var s' := WorkerNext(s, w);
    assert Fits(s.channel.threads[WORKER], ModeOf(s, WORKER));
    WorkerLeavesOwner(s, w);
    if w == StoreDead || w == ExitOkSent {
      assert ConfirmSent(s) && ConfirmSent(s');
    } else {
      WorkerConfirmsNothing(s, w);
    }
  }

  lemma WorkerLeavesOwner(s: State, w: WorkerAction)
    requires TwoThreads(s) && WorkerEnabled(s, w)
    ensures var s' := WorkerNext(s, w);
            && TwoThreads(s') && s'.owner == s.owner && s'.channel.threads[OWNER] == s.channel.threads[OWNER]
            && C.InFlight(s'.channel) == C.InFlight(s.channel)
  {
  }

  lemma WorkerConfirmsNothing(s: State, w: WorkerAction)
    requires TwoThreads(s) && WorkerEnabled(s, w) && w != StoreDead && w != ExitOkSent
    ensures !ConfirmSent(s) && !ConfirmSent(WorkerNext(s, w))
  {
  }

  lemma RequesterKeepsConfirmed(s: State, t: nat, r: RequestAction)
    requires Links(s) && Confirmed(s) && t < |s.requesters| && RequesterEnabled(s, t, r)
    ensures Confirmed(RequesterNext(s, t, r))
  {
    var s' := RequesterNext(s, t, r);
    assert Fits(s.channel.threads[t], ModeOf(s, t));
    assert s'.owner == s.owner && s'.worker == s.worker;
    assert C.InFlight(s'.channel) == C.InFlight(s.channel);
  }

  lemma StepKeepsConfirmed(s: State, a: Action)
    requires Inv(s) && Confirmed(s) && Enabled(s, a)
    ensures Confirmed(Next(s, a))
  {
    match a
    case Channel(step) => ChannelKeepsConfirmed(s, step);
    case ByOwner(o) => OwnerKeepsConfirmed(s, o);
    case ByWorker(w) => WorkerKeepsConfirmed(s, w);
    case ByRequester(t, r) => RequesterKeepsConfirmed(s, t, r);
  }

  lemma WorkerKeepsOpened(s: State, w: WorkerAction)
    requires TwoThreads(s) && Boot(s) && Opened(s) && WorkerEnabled(s, w)
    ensures Opened(WorkerNext(s, w))
  {
  }

  lemma StepKeepsOpened(s: State, a: Action)
    requires TwoThreads(s) && Boot(s) && Opened(s) && Enabled(s, a)
    ensures Opened(Next(s, a))
  {
    match a
    case ByWorker(w) => WorkerKeepsOpened(s, w);
    case ByOwner(o) =>
    case Channel(step) =>
    case ByRequester(t, r) => assert RequesterNext(s, t, r).workable == s.workable;
  }

  lemma InitLasts(s: State)
    requires Init(s)
    ensures Lasts(s)
  {
    ProtocolInit(s);
    InitAccounts(s);
  }

  lemma LastsNext(s: State, a: Action)
    requires Lasts(s) && Enabled(s, a)
    ensures Lasts(Next(s, a))
  {
    InvNext(s, a);
    StepKeepsConfirmed(s, a);
    StepKeepsOpened(s, a);
  }

  lemma CanStepLasts(s: State, s': State)
    requires Lasts(s) && CanStep(s, s')
    ensures Lasts(s')
  {
    var a :| Enabled(s, a) && s' == Next(s, a);
    LastsNext(s, a);
  }

  lemma {:induction false} RunLasts(run: seq<State>, i: nat)
    requires IsRun(run) && i < |run|
    ensures Lasts(run[i])
  {
    if i == 0 {
      InitLasts(run[0]);
    } else {
      RunLasts(run, i - 1);
      CanStepLasts(run[i - 1], run[i]);
    }
  }
}
