/** The actor of vee/actor.h: a mailbox, a job counter, a state word and a signal channel shared by
    the thread that constructs and kills the actor, the worker thread, and any number of requesters.

    Thread 0 owns the actor, thread 1 is its worker; both may also make requests, the worker only
    from inside a job. A step is one atomic action; what a thread does on its own between two of
    them belongs to the first. An attempt of a spin loop that fails leaves everything as it was
    and is no step. Each request carries a job of its own, numbered in the order of the calls. */
module ActorProtocol {
  import opened Wrappers
  import Fifo = BoundedFifo
  import C = SignalChannel
  import opened ThreadSums

  const OWNER: nat := 0
  const WORKER: nat := 1

  datatype Signal = Spawn | Active | GoExit | ExitOk

  datatype Word = Spawning | Loaded | Idle | Proc | Dead

  type Job = nat

  datatype Owner =
    | Constructing     // in recv, for the spawn signal
    | ConstructThrew   // the constructor got another signal
    | Ready
    | KillSwapping     // swaps Idle for Dead
    | KillSending      // in try_send of the exit signal
    | KillReceiving    // in recv, until the worker has confirmed
    | Killed
    | OwnerThrew       // recv found somebody waiting

  datatype Worker =
    | Starting
    | StoringLoaded
    | SendingSpawn     // in try_send
    | StoringIdle
    | StoringWorkable
    | Receiving        // in recv
    | Dequeuing
    | Running(job: Job)
    | Decrementing
    | Resting          // swaps Proc for Idle
    | SendingExitOk    // in try_send
    | StoringDead
    | Exited
    | WorkerThrew

  datatype Requester =
    | Outside
    | Checking(job: Job)       // about to read whether the actor is workable
    | CheckingState(job: Job)
    | Enqueuing(job: Job)
    | Counting(job: Job)       // in the mailbox, not yet in the counter
    | Swapping(job: Job)       // raised the counter from 0, swaps Idle for Proc
    | Sending(job: Job)        // in try_send of the active signal
    | Returned(job: Job, result: int)

  /** Where the duty to run the epoch is while the counter is not zero. */
  datatype Token = NoToken | Waking(t: nat) | Signalling(t: nat) | InChannel | InEpoch

  /** requested counts the requests made; accepted and executed list jobs in the order of the
      enqueues and of the ends of their runs; nothing branches on these or on the token. */
  datatype State = State(
    channel: C.State<Signal>,
    word: Word,
    workable: bool,
    counter: int,
    capacity: nat,
    mailbox: seq<Job>,
    owner: Owner,
    worker: Worker,
    requesters: seq<Requester>,
    token: Token,
    requested: nat,
    accepted: seq<Job>,
    executed: seq<Job>)

  datatype OwnerAction = Constructed | StartKill | KillSwap | KillSent | KillReceived | OwnerThrows

  datatype WorkerAction =
    | CheckSpawn | StoreLoaded | SpawnSent | StoreIdle | StoreWorkable
    | Received | Dequeue | FinishJob | Decrement | Rest
    | ExitOkSent | StoreDead | WorkerThrows

  datatype RequestAction = Request | TestWorkable | TestState | Enqueue | Count | SwapProc | ActiveSent

  datatype Action =
    | Channel(step: C.Action<Signal>)
    | ByOwner(o: OwnerAction)
    | ByWorker(w: WorkerAction)
    | ByRequester(t: nat, r: RequestAction)

  ghost predicate Init(s: State) {
    && 2 <= |s.channel.threads|
    && C.Init(QuietChannel(s))
    && s.channel == C.At(QuietChannel(s), OWNER, C.RecvEntered)
    && s.word == Spawning && !s.workable && s.counter == 0 && s.mailbox == []
    && s.owner == Constructing && s.worker == Starting
    && |s.requesters| == |s.channel.threads|
    && (forall t | 0 <= t < |s.requesters| :: s.requesters[t] == Outside)
    && s.token == NoToken && s.requested == 0 && s.accepted == [] && s.executed == []
  }

  /** The channel before the constructor has called recv. */
  ghost function QuietChannel(s: State): C.State<Signal>
    requires 0 < |s.channel.threads|
  {
    C.At(s.channel, OWNER, C.Out)
  }

  // ---- Steps ----

  ghost predicate TwoThreads(s: State) {
    2 <= |s.requesters| == |s.channel.threads|
  }

  ghost predicate Busy(loc: Requester) {
    !loc.Outside? && !loc.Returned?
  }

  ghost predicate Enabled(s: State, a: Action) {
    && TwoThreads(s)
    && match a
       case Channel(step) => C.Inner(step) && C.Enabled(s.channel, step)
       case ByOwner(o) => OwnerEnabled(s, o)
       case ByWorker(w) => WorkerEnabled(s, w)
       case ByRequester(t, r) => t < |s.requesters| && RequesterEnabled(s, t, r)
  }

  ghost predicate OwnerEnabled(s: State, o: OwnerAction)
    requires TwoThreads(s)
  {
    var loc := s.channel.threads[OWNER];
    match o
    case Constructed => s.owner == Constructing && loc.RecvDone?
    case StartKill => s.owner == Ready && !Busy(s.requesters[OWNER])
    case KillSwap => s.owner == KillSwapping && s.word == Idle
    case KillSent => s.owner == KillSending && loc == C.SendDone(true)
    case KillReceived => s.owner == KillReceiving && loc.RecvDone?
    case OwnerThrows => (s.owner == Constructing || s.owner == KillReceiving) && loc.RecvThrew?
  }

  ghost predicate WorkerEnabled(s: State, w: WorkerAction)
    requires TwoThreads(s)
  {
    var loc := s.channel.threads[WORKER];
    match w
    case CheckSpawn => s.worker == Starting
    case StoreLoaded => s.worker == StoringLoaded
    case SpawnSent => s.worker == SendingSpawn && loc == C.SendDone(true)
    case StoreIdle => s.worker == StoringIdle
    case StoreWorkable => s.worker == StoringWorkable
    case Received => s.worker == Receiving && loc.RecvDone?
    case Dequeue => s.worker == Dequeuing
    case FinishJob => s.worker.Running? && !Busy(s.requesters[WORKER])
    case Decrement => s.worker == Decrementing
    case Rest => s.worker == Resting
    case ExitOkSent => s.worker == SendingExitOk && loc == C.SendDone(true)
    case StoreDead => s.worker == StoringDead
    case WorkerThrows => s.worker == Receiving && loc.RecvThrew?
  }

  ghost predicate RequesterEnabled(s: State, t: nat, r: RequestAction)
    requires TwoThreads(s) && t < |s.requesters|
  {
    var loc := s.requesters[t];
    match r
    case Request => !Busy(loc) && (t == OWNER ==> s.owner == Ready) && (t == WORKER ==> s.worker.Running?)
    case TestWorkable => loc.Checking?
    case TestState => loc.CheckingState?
    case Enqueue => loc.Enqueuing? && |s.mailbox| <= s.capacity
    case Count => loc.Counting?
    case SwapProc => loc.Swapping? && s.word == Idle
    case ActiveSent => loc.Sending? && s.channel.threads[t] == C.SendDone(true)
  }

  ghost function Next(s: State, a: Action): State
    requires Enabled(s, a)
  {
    match a
    case Channel(step) => ChannelNext(s, step)
    case ByOwner(o) => OwnerNext(s, o)
    case ByWorker(w) => WorkerNext(s, w)
    case ByRequester(t, r) => RequesterNext(s, t, r)
  }

  ghost function ChannelNext(s: State, step: C.Action<Signal>): State
    requires TwoThreads(s) && C.Enabled(s.channel, step)
  {
    var handsOver := step.Swap? && s.channel.threads[step.t] == C.SendTrying(Active);
    s.(channel := C.Next(s.channel, step), token := if handsOver then InChannel else s.token)
  }

  /** Thread t leaves the channel operation it is in, if any, and enters the given one. */
  ghost function Enter(s: State, t: nat, loc: C.Loc<Signal>): State
    requires t < |s.channel.threads|
  {
    s.(channel := C.At(s.channel, t, loc))
  }

  ghost function OwnerNext(s: State, o: OwnerAction): State
    requires TwoThreads(s) && OwnerEnabled(s, o)
  {
    match o
    case Constructed =>
      var signal := s.channel.threads[OWNER].value;
      Enter(s, OWNER, C.Out).(owner := if signal == Spawn then Ready else ConstructThrew)
    case StartKill => s.(workable := false, owner := KillSwapping)
    case KillSwap => Enter(s, OWNER, C.SendTrying(GoExit)).(word := Dead, owner := KillSending)
    case KillSent => Enter(s, OWNER, C.RecvEntered).(owner := KillReceiving)
    case KillReceived =>
      if s.channel.threads[OWNER].value == ExitOk then Enter(s, OWNER, C.Out).(owner := Killed)
      else Enter(s, OWNER, C.RecvEntered)
    case OwnerThrows => s.(owner := OwnerThrew)
  }

  ghost function WorkerNext(s: State, w: WorkerAction): State
    requires TwoThreads(s) && WorkerEnabled(s, w)
  {
    match w
    case CheckSpawn => s.(worker := if s.word != Spawning then WorkerThrew else StoringLoaded)
    case StoreLoaded => Enter(s, WORKER, C.SendTrying(Spawn)).(word := Loaded, worker := SendingSpawn)
    case SpawnSent => Enter(s, WORKER, C.Out).(worker := StoringIdle)
    case StoreIdle => s.(word := Idle, worker := StoringWorkable)
    case StoreWorkable => Enter(s, WORKER, C.RecvEntered).(workable := true, worker := Receiving)
    case Received =>
      (match s.channel.threads[WORKER].value
       case Active => Enter(s, WORKER, C.Out).(worker := Dequeuing, token := InEpoch)
       case GoExit => Enter(s, WORKER, C.SendTrying(ExitOk)).(worker := SendingExitOk)
       case _ => Enter(s, WORKER, C.Out).(worker := WorkerThrew))
    case Dequeue =>
      if s.mailbox == [] then Enter(s, WORKER, C.RecvEntered).(worker := Receiving)
      else s.(mailbox := s.mailbox[1..], worker := Running(s.mailbox[0]))
    case FinishJob => s.(worker := Decrementing, executed := s.executed + [s.worker.job])
    case Decrement =>
      var left := s.counter - 1;
      s.(counter := left, worker := if left == 0 then Resting else Dequeuing,
         token := if left == 0 then NoToken else s.token)
    case Rest =>
      if s.word == Proc then Enter(s, WORKER, C.RecvEntered).(word := Idle, worker := Receiving)
      else s.(worker := WorkerThrew)
    case ExitOkSent => Enter(s, WORKER, C.Out).(worker := StoringDead)
    case StoreDead => s.(word := Dead, worker := Exited)
    case WorkerThrows => s.(worker := WorkerThrew)
  }

  ghost function RequesterNext(s: State, t: nat, r: RequestAction): State
    requires TwoThreads(s) && t < |s.requesters| && RequesterEnabled(s, t, r)
  {
    var loc := s.requesters[t];
    match r
    case Request => Move(s, t, Checking(s.requested)).(requested := s.requested + 1)
    case TestWorkable => Move(s, t, if s.workable then CheckingState(loc.job) else Returned(loc.job, -1))
    case TestState => Move(s, t, if s.word == Dead then Returned(loc.job, -1) else Enqueuing(loc.job))
    case Enqueue =>
      var effect := Fifo.Apply(s.mailbox, Fifo.Enqueue(loc.job), s.capacity, false);
      if effect.outcome == Fifo.Refused then Move(s, t, Returned(loc.job, -2))
      else Move(s, t, Counting(loc.job)).(mailbox := effect.queue, accepted := s.accepted + effect.admitted)
    case Count =>
      var before := s.counter;
      if before == 0 then Move(s, t, Swapping(loc.job)).(counter := 1, token := Waking(t))
      else Move(s, t, Returned(loc.job, before)).(counter := before + 1)
    case SwapProc =>
      Enter(Move(s, t, Sending(loc.job)), t, C.SendTrying(Active)).(word := Proc, token := Signalling(t))
    case ActiveSent => Enter(Move(s, t, Returned(loc.job, 0)), t, C.Out)
  }

  ghost function Move(s: State, t: nat, loc: Requester): State
    requires t < |s.requesters|
  {
    s.(requesters := s.requesters[t := loc])
  }

  ghost predicate CanStep(s: State, s': State) {
    exists a :: Enabled(s, a) && s' == Next(s, a)
  }

  ghost predicate IsRun(run: seq<State>) {
    && 0 < |run|
    && Init(run[0])
    && forall i, j {:trigger CanStep(run[i], run[j])} | 0 <= i && j == i + 1 < |run| :: CanStep(run[i], run[j])
  }

  // ---- Invariant ----

  datatype Mode = Absent | Receives | Sends(signal: Signal)

  /** What a thread's place in the program says about its place in the channel. */
  ghost function ModeOf(s: State, t: nat): Mode
    requires t < |s.requesters|
  {
    if t == OWNER && (s.owner == Constructing || s.owner == KillReceiving) then Receives
    else if t == OWNER && s.owner == KillSending then Sends(GoExit)
    else if t == WORKER && s.worker == Receiving then Receives
    else if t == WORKER && s.worker == SendingSpawn then Sends(Spawn)
    else if t == WORKER && s.worker == SendingExitOk then Sends(ExitOk)
    else if s.requesters[t].Sending? then Sends(Active)
    else Absent
  }

  ghost predicate Fits(loc: C.Loc<Signal>, mode: Mode) {
    match mode
    case Absent => loc.Out?
    case Receives => loc.RecvEntered? || loc.RecvClaiming? || loc.RecvPreparing? || loc.RecvWaiting?
                     || loc.RecvClearing? || loc.RecvFreeing? || loc.RecvDone?
    case Sends(signal) => loc in {C.SendTrying(signal), C.SendSpinning(signal), C.SendSetting(signal), C.SendDone(true)}
  }

  ghost predicate Roles(s: State)
    requires TwoThreads(s)
  {
    forall t | 0 <= t < |s.requesters| :: Fits(s.channel.threads[t], ModeOf(s, t))
  }

  /** Requests from inside a job: their thread is never the one that has to wake the worker. */
  ghost predicate Nesting(s: State)
    requires TwoThreads(s)
  {
    && (Busy(s.requesters[WORKER]) ==> s.worker.Running?)
    && (Busy(s.requesters[OWNER]) ==> s.owner == Ready)
    && !s.requesters[WORKER].Swapping? && !s.requesters[WORKER].Sending?
    && (s.requesters[WORKER].Returned? ==> s.requesters[WORKER].result != 0)
  }

  ghost predicate Booting(w: Worker) {
    w.Starting? || w.StoringLoaded? || w.SendingSpawn? || w.StoringIdle? || w.StoringWorkable?
  }

  ghost predicate Boot(s: State) {
    && (Booting(s.worker) ==>
          && !s.workable && s.counter == 0 && s.mailbox == []
          && forall t | 0 <= t < |s.requesters| :: !Busy(s.requesters[t]) || s.requesters[t].Checking?)
    && (s.worker.Starting? || s.worker.StoringLoaded? ==> s.word == Spawning)
    && (s.worker.SendingSpawn? || s.worker.StoringIdle? ==> s.word == Loaded)
    && (!s.worker.Starting? && !s.worker.StoringLoaded? && !s.worker.SendingSpawn? && !s.worker.StoringIdle?
        ==> s.word in {Idle, Proc, Dead})
  }

  ghost predicate InEpochLoop(w: Worker) {
    w.Dequeuing? || w.Running? || w.Decrementing?
  }

  /** The active signal has been sent and the worker has not yet acted on it. */
  ghost predicate ActiveInChannel(s: State)
    requires TwoThreads(s)
  {
    C.InFlight(s.channel) == Some(Active)
    || (s.worker == Receiving && s.channel.threads[WORKER] == C.RecvDone(Active))
  }

  /** Has raised the counter from 0 and has not yet handed the active signal over. */
  ghost predicate OwesSignal(s: State, t: nat)
    requires TwoThreads(s) && t < |s.requesters|
  {
    s.requesters[t].Swapping? || (s.requesters[t].Sending? && s.channel.threads[t].SendTrying?)
  }

  ghost predicate Tokens(s: State)
    requires TwoThreads(s)
  {
    && (forall t | 0 <= t < |s.requesters| :: s.requesters[t].Swapping? <==> s.token == Waking(t))
    && (forall t | 0 <= t < |s.requesters| ::
          s.requesters[t].Sending? && s.channel.threads[t].SendTrying? <==> s.token == Signalling(t))
    && (s.token.Waking? || s.token.Signalling? ==> s.token.t < |s.requesters|)
    && (ActiveInChannel(s) <==> s.token == InChannel)
    && (InEpochLoop(s.worker) <==> s.token == InEpoch)
    && 0 <= s.counter
    && (s.counter == 0 <==> s.token == NoToken)
  }

  ghost predicate Words(s: State) {
    && (s.word == Proc <==> s.token.Signalling? || s.token == InChannel || s.token == InEpoch || s.worker == Resting)
    && (s.word == Dead <==> s.owner == KillSending || s.owner == KillReceiving || s.owner == Killed)
    && (s.worker == Resting ==> s.token == NoToken || s.token.Waking?)
  }

  /** The worker has not yet sent the spawn signal. */
  ghost predicate SpawnPending(s: State)
    requires TwoThreads(s)
  {
    s.worker == Starting || s.worker == StoringLoaded
    || (s.worker == SendingSpawn && s.channel.threads[WORKER].SendTrying?)
  }

  ghost predicate ExitSent(s: State)
    requires TwoThreads(s)
  {
    (s.owner == KillSending && !s.channel.threads[OWNER].SendTrying?) || s.owner == KillReceiving || s.owner == Killed
  }

  ghost predicate ExitUnderWay(s: State)
    requires TwoThreads(s)
  {
    C.InFlight(s.channel) == Some(GoExit)
    || (s.worker == Receiving && s.channel.threads[WORKER] == C.RecvDone(GoExit))
    || s.worker == SendingExitOk || s.worker == StoringDead || s.worker == Exited
  }

  /** Which signal travels to whom, over the one channel that both directions share. */
  ghost predicate Traffic(s: State)
    requires TwoThreads(s)
  {
    var signal := C.InFlight(s.channel);
    && (SpawnPending(s) ==> s.owner == Constructing && signal == None && !s.channel.threads[OWNER].RecvDone?)
    && (!SpawnPending(s) && s.owner == Constructing ==>
          signal == Some(Spawn) || s.channel.threads[OWNER] == C.RecvDone(Spawn))
    && (signal == Some(Spawn) ==> s.owner == Constructing && s.channel.receiver == Some(OWNER))
    && (signal == Some(ExitOk) ==> s.owner == KillReceiving && s.channel.receiver == Some(OWNER))
    && (signal == Some(Active) || signal == Some(GoExit) ==> s.worker == Receiving && s.channel.receiver == Some(WORKER))
    && (s.worker == Receiving && s.channel.threads[WORKER].RecvDone? ==>
          s.channel.threads[WORKER].value == Active || s.channel.threads[WORKER].value == GoExit)
    && (s.owner == KillReceiving && s.channel.threads[OWNER].RecvDone? ==> s.channel.threads[OWNER].value == ExitOk)
    && (ExitSent(s) <==> ExitUnderWay(s))
    && s.owner != ConstructThrew && s.owner != OwnerThrew && s.worker != WorkerThrew
  }

  ghost predicate Links(s: State) {
    TwoThreads(s) && Roles(s) && Nesting(s) && Boot(s) && Tokens(s) && Words(s) && Traffic(s)
  }

  ghost predicate Protocol(s: State) {
    Links(s) && C.Inv(s.channel)
  }

  lemma ProtocolInit(s: State)
    requires Init(s)
    ensures Protocol(s)
  {
    C.InvInit(QuietChannel(s));
    C.InvMove(QuietChannel(s), OWNER, C.RecvEntered);
    forall t | 0 <= t < |s.requesters| ensures Fits(s.channel.threads[t], ModeOf(s, t)) {
      assert t != OWNER ==> s.channel.threads[t] == QuietChannel(s).threads[t];
    }
  }

  // ---- Steps inside the channel ----

  /** The channel's receiving end is held by a thread that is in recv. */
  lemma ReceiverIsOwnerOrWorker(s: State)
    requires TwoThreads(s) && C.Inv(s.channel) && Roles(s)
    ensures s.channel.receiver.Some? ==> s.channel.receiver.value in {OWNER, WORKER}
                                         && ModeOf(s, s.channel.receiver.value) == Receives
  {
    if s.channel.receiver.Some? {
      var r := s.channel.receiver.value;
      assert C.Receiving(s.channel.threads[r]);
      assert Fits(s.channel.threads[r], ModeOf(s, r));
    }
  }

  /** A thread that enters recv never finds another one waiting there. */
  lemma NobodyElseWaits(s: State, t: nat)
    requires Protocol(s) && t < |s.requesters| && s.channel.threads[t].RecvEntered?
    ensures s.channel.word != C.Wait
  {
    ReceiverIsOwnerOrWorker(s);
    assert Fits(s.channel.threads[t], ModeOf(s, t));
  }

  /** The signal that thread t is about to swap in meets the thread it is meant for. */
  ghost predicate Reaches(s: State, t: nat)
    requires TwoThreads(s) && t < |s.requesters| && s.channel.threads[t].SendTrying?
  {
    match s.channel.threads[t].value
    case Spawn => s.owner == Constructing && s.channel.receiver == Some(OWNER) && SpawnPending(s) && t == WORKER
    case ExitOk => s.owner == KillReceiving && s.channel.receiver == Some(OWNER) && t == WORKER && s.worker == SendingExitOk
    case GoExit => s.worker == Receiving && s.channel.receiver == Some(WORKER) && t == OWNER && s.owner == KillSending
    case Active => s.worker == Receiving && s.channel.receiver == Some(WORKER) && s.token == Signalling(t) && s.requesters[t].Sending?
  }

  lemma SwapReaches(s: State, t: nat)
    requires Protocol(s) && Enabled(s, Channel(C.Swap(t)))
    ensures Reaches(s, t)
  {
    ReceiverIsOwnerOrWorker(s);
    assert Fits(s.channel.threads[t], ModeOf(s, t));
  }

  /** A channel step, seen from the actor. */
  ghost predicate ChannelMoved(s: State, s': State, step: C.Action<Signal>)
    requires TwoThreads(s)
  {
    && C.InnerEffect(s.channel, s'.channel, step)
    && s' == s.(channel := s'.channel, token := s'.token)
    && s'.token == (if step.Swap? && s.channel.threads[step.t] == C.SendTrying(Active) then InChannel else s.token)
  }

  lemma ChannelMoves(s: State, step: C.Action<Signal>)
    requires Protocol(s) && Enabled(s, Channel(step))
    ensures C.Inv(ChannelNext(s, step).channel) && ChannelMoved(s, ChannelNext(s, step), step)
  {
    if step.Test? {
      NobodyElseWaits(s, step.t);
    }
    C.InnerStep(s.channel, step);
  }

  lemma ChannelKeepsRoles(s: State, s': State, step: C.Action<Signal>)
    requires TwoThreads(s) && Roles(s) && ChannelMoved(s, s', step)
    ensures Roles(s')
  {
    forall t | 0 <= t < |s.requesters| ensures Fits(s'.channel.threads[t], ModeOf(s', t)) {
      assert Fits(s.channel.threads[t], ModeOf(s, t));
    }
  }

  lemma SwapKeepsTraffic(s: State, s': State, step: C.Action<Signal>)
    requires TwoThreads(s) && Roles(s) && Traffic(s) && ChannelMoved(s, s', step)
    requires step.Swap? && Reaches(s, step.t) && s.channel.word == C.Wait && C.InFlight(s.channel) == None
    ensures Traffic(s')
  {
    assert Fits(s.channel.threads[step.t], ModeOf(s, step.t));
    assert Fits(s.channel.threads[OWNER], ModeOf(s, OWNER));
    assert Fits(s.channel.threads[WORKER], ModeOf(s, WORKER));
  }

  lemma FreeKeepsTraffic(s: State, s': State, step: C.Action<Signal>)
    requires TwoThreads(s) && Roles(s) && Traffic(s) && ChannelMoved(s, s', step)
    requires step.Free?
    ensures Traffic(s')
  {
    var signal := C.InFlight(s.channel).value;
    assert s'.channel.threads[step.t] == C.RecvDone(signal);
    assert Fits(s.channel.threads[step.t], ModeOf(s, step.t));
    assert step.t in {OWNER, WORKER};
    assert signal.Spawn? || signal.ExitOk? || signal.Active? || signal.GoExit?;
  }

  lemma OtherStepKeepsTraffic(s: State, s': State, step: C.Action<Signal>)
    requires TwoThreads(s) && Roles(s) && Traffic(s) && ChannelMoved(s, s', step)
    requires !step.Swap? && !step.Free?
    ensures Traffic(s')
  {
    assert Fits(s.channel.threads[step.t], ModeOf(s, step.t));
    assert forall t | 0 <= t < |s.requesters| ::
        s'.channel.threads[t].RecvDone? == s.channel.threads[t].RecvDone?
        && s'.channel.threads[t].SendTrying? == s.channel.threads[t].SendTrying?;
  }

  lemma SwapKeepsTokens(s: State, s': State, step: C.Action<Signal>)
    requires TwoThreads(s) && Nesting(s) && Tokens(s) && ChannelMoved(s, s', step)
    requires step.Swap? && Reaches(s, step.t) && C.InFlight(s.channel) == None
    ensures Tokens(s')
  {
    var t := step.t;
    assert s.requesters[t].Sending? <==> s.channel.threads[t] == C.SendTrying(Active);
    assert !s'.channel.threads[t].SendTrying? && !s'.channel.threads[t].RecvDone?;
    assert forall u | 0 <= u < |s.requesters| && u != t :: s'.channel.threads[u] == s.channel.threads[u];
  }

  lemma OtherStepKeepsTokens(s: State, s': State, step: C.Action<Signal>)
    requires TwoThreads(s) && Roles(s) && Tokens(s) && Traffic(s) && ChannelMoved(s, s', step)
    requires !step.Swap?
    ensures Tokens(s')
  {
    assert Fits(s.channel.threads[step.t], ModeOf(s, step.t));
    assert forall t | 0 <= t < |s.requesters| ::
        s'.channel.threads[t].SendTrying? == s.channel.threads[t].SendTrying?;
  }

  lemma ChannelKeepsWords(s: State, s': State, step: C.Action<Signal>)
    requires TwoThreads(s) && Words(s) && ChannelMoved(s, s', step)
    requires step.Swap? ==> Reaches(s, step.t)
    ensures Words(s')
  {
  }

  lemma ChannelKeepsProtocol(s: State, step: C.Action<Signal>)
    requires Protocol(s) && Enabled(s, Channel(step))
    ensures Protocol(ChannelNext(s, step))
  {
    var s' := ChannelNext(s, step);
    ChannelMoves(s, step);
    ChannelKeepsRoles(s, s', step);
    if step.Swap? {
      SwapReaches(s, step.t);
      SwapKeepsTraffic(s, s', step);
      SwapKeepsTokens(s, s', step);
    } else {
      if step.Free? {
        FreeKeepsTraffic(s, s', step);
      } else {
        OtherStepKeepsTraffic(s, s', step);
      }
      OtherStepKeepsTokens(s, s', step);
    }
    ChannelKeepsWords(s, s', step);
  }

  // ---- Steps that enter or leave a channel operation ----

  /** Thread t has left the channel operation it had finished, if any, and entered another. */
  ghost predicate Entered(c: C.State<Signal>, c': C.State<Signal>, t: nat, loc: C.Loc<Signal>) {
    && t < |c.threads| == |c'.threads| && c'.threads == c.threads[t := loc]
    && C.InFlight(c') == C.InFlight(c)
    && c'.receiver == c.receiver
  }

  lemma EnterIsSafe(s: State, t: nat, loc: C.Loc<Signal>)
    requires Protocol(s) && t < |s.requesters|
    requires s.channel.threads[t].Out? || s.channel.threads[t].RecvDone? || s.channel.threads[t].SendDone?
    requires loc.Out? || loc.RecvEntered? || loc.SendTrying?
    ensures C.Inv(Enter(s, t, loc).channel) && Entered(s.channel, Enter(s, t, loc).channel, t, loc)
  {
    C.InvMove(s.channel, t, loc);
  }

  // ---- Steps of the owner ----

  lemma KeepConstructed(s: State)
    requires Links(s) && Enabled(s, ByOwner(Constructed))
    requires s.channel.threads[OWNER] == C.RecvDone(Spawn) && s.channel.receiver != Some(OWNER)
    requires Entered(s.channel, Next(s, ByOwner(Constructed)).channel, OWNER, C.Out)
    ensures Links(Next(s, ByOwner(Constructed)))
  {
  }

  lemma KeepStartKill(s: State)
    requires Links(s) && Enabled(s, ByOwner(StartKill))
    ensures Links(Next(s, ByOwner(StartKill)))
  {
    assert Fits(s.channel.threads[OWNER], ModeOf(s, OWNER));
  }

  lemma KeepKillSwap(s: State)
    requires Links(s) && Enabled(s, ByOwner(KillSwap))
    requires Entered(s.channel, Next(s, ByOwner(KillSwap)).channel, OWNER, C.SendTrying(GoExit))
    ensures Links(Next(s, ByOwner(KillSwap)))
  {
    assert Fits(s.channel.threads[OWNER], ModeOf(s, OWNER));
  }

  lemma KeepKillSent(s: State)
    requires Links(s) && Enabled(s, ByOwner(KillSent))
    requires Entered(s.channel, Next(s, ByOwner(KillSent)).channel, OWNER, C.RecvEntered)
    ensures Links(Next(s, ByOwner(KillSent)))
  {
    assert Fits(s.channel.threads[OWNER], ModeOf(s, OWNER));
  }

  lemma KeepKillReceived(s: State)
    requires Links(s) && Enabled(s, ByOwner(KillReceived))
    requires s.channel.threads[OWNER] == C.RecvDone(ExitOk) && s.channel.receiver != Some(OWNER)
    requires Entered(s.channel, Next(s, ByOwner(KillReceived)).channel, OWNER, C.Out)
    ensures Links(Next(s, ByOwner(KillReceived)))
  {
  }

  lemma OwnerNeverThrows(s: State)
    requires Links(s)
    ensures !OwnerEnabled(s, OwnerThrows)
  {
    assert Fits(s.channel.threads[OWNER], ModeOf(s, OWNER));
  }

  // ---- Steps of the worker ----

  lemma KeepCheckSpawn(s: State)
    requires Links(s) && Enabled(s, ByWorker(CheckSpawn))
    ensures Links(Next(s, ByWorker(CheckSpawn)))
  {
    assert Fits(s.channel.threads[WORKER], ModeOf(s, WORKER));
  }

  lemma KeepStoreLoaded(s: State)
    requires Links(s) && Enabled(s, ByWorker(StoreLoaded))
    requires Entered(s.channel, Next(s, ByWorker(StoreLoaded)).channel, WORKER, C.SendTrying(Spawn))
    ensures Links(Next(s, ByWorker(StoreLoaded)))
  {
    assert Fits(s.channel.threads[WORKER], ModeOf(s, WORKER));
  }

  lemma KeepSpawnSent(s: State)
    requires Links(s) && Enabled(s, ByWorker(SpawnSent))
    requires Entered(s.channel, Next(s, ByWorker(SpawnSent)).channel, WORKER, C.Out)
    ensures Links(Next(s, ByWorker(SpawnSent)))
  {
    assert Fits(s.channel.threads[WORKER], ModeOf(s, WORKER));
  }

  lemma KeepStoreIdle(s: State)
    requires Links(s) && Enabled(s, ByWorker(StoreIdle))
    ensures Links(Next(s, ByWorker(StoreIdle)))
  {
    assert Fits(s.channel.threads[WORKER], ModeOf(s, WORKER));
  }

  lemma KeepStoreWorkable(s: State)
    requires Links(s) && Enabled(s, ByWorker(StoreWorkable))
    requires Entered(s.channel, Next(s, ByWorker(StoreWorkable)).channel, WORKER, C.RecvEntered)
    ensures Links(Next(s, ByWorker(StoreWorkable)))
  {
    assert Fits(s.channel.threads[WORKER], ModeOf(s, WORKER));
  }

  lemma KeepReceivedActive(s: State)
    requires Links(s) && Enabled(s, ByWorker(Received))
    requires s.channel.threads[WORKER] == C.RecvDone(Active) && s.channel.receiver != Some(WORKER)
    requires Entered(s.channel, Next(s, ByWorker(Received)).channel, WORKER, C.Out)
    ensures Links(Next(s, ByWorker(Received)))
  {
  }

  lemma KeepReceivedExit(s: State)
    requires Links(s) && Enabled(s, ByWorker(Received))
    requires s.channel.threads[WORKER] == C.RecvDone(GoExit) && s.channel.receiver != Some(WORKER)
    requires Entered(s.channel, Next(s, ByWorker(Received)).channel, WORKER, C.SendTrying(ExitOk))
    ensures Links(Next(s, ByWorker(Received)))
  {
  }

  lemma KeepDequeue(s: State)
    requires Links(s) && Enabled(s, ByWorker(Dequeue)) && s.mailbox != []
    ensures Links(Next(s, ByWorker(Dequeue)))
  {
    assert Fits(s.channel.threads[WORKER], ModeOf(s, WORKER));
  }

  lemma KeepFinishJob(s: State)
    requires Links(s) && Enabled(s, ByWorker(FinishJob))
    ensures Links(Next(s, ByWorker(FinishJob)))
  {
    assert Fits(s.channel.threads[WORKER], ModeOf(s, WORKER));
  }

  lemma KeepDecrement(s: State)
    requires Links(s) && Enabled(s, ByWorker(Decrement))
    ensures Links(Next(s, ByWorker(Decrement)))
  {
    assert Fits(s.channel.threads[WORKER], ModeOf(s, WORKER));
  }

  lemma KeepRest(s: State)
    requires Links(s) && Enabled(s, ByWorker(Rest))
    requires Entered(s.channel, Next(s, ByWorker(Rest)).channel, WORKER, C.RecvEntered)
    ensures Links(Next(s, ByWorker(Rest)))
  {
    var s' := Next(s, ByWorker(Rest));
    forall u | 0 <= u < |s.requesters| ensures Fits(s'.channel.threads[u], ModeOf(s', u)) {
      assert Fits(s.channel.threads[u], ModeOf(s, u));
    }
  }

  lemma KeepExitOkSent(s: State)
    requires Links(s) && Enabled(s, ByWorker(ExitOkSent))
    requires Entered(s.channel, Next(s, ByWorker(ExitOkSent)).channel, WORKER, C.Out)
    ensures Links(Next(s, ByWorker(ExitOkSent)))
  {
    var s' := Next(s, ByWorker(ExitOkSent));
    forall u | 0 <= u < |s.requesters| ensures Fits(s'.channel.threads[u], ModeOf(s', u)) {
      assert Fits(s.channel.threads[u], ModeOf(s, u));
    }
  }

  lemma KeepStoreDead(s: State)
    requires Links(s) && Enabled(s, ByWorker(StoreDead))
    ensures Links(Next(s, ByWorker(StoreDead)))
  {
    assert Fits(s.channel.threads[WORKER], ModeOf(s, WORKER));
  }

  lemma WorkerNeverThrows(s: State)
    requires Links(s)
    ensures !WorkerEnabled(s, WorkerThrows)
  {
    assert Fits(s.channel.threads[WORKER], ModeOf(s, WORKER));
  }

  // ---- Steps of a requester ----

  lemma KeepRequest(s: State, t: nat)
    requires Links(s) && Enabled(s, ByRequester(t, Request))
    ensures Links(Next(s, ByRequester(t, Request)))
  {
    var s' := Next(s, ByRequester(t, Request));
    forall u | 0 <= u < |s.requesters| ensures Fits(s'.channel.threads[u], ModeOf(s', u)) {
      assert Fits(s.channel.threads[u], ModeOf(s, u));
    }
  }

  lemma KeepTestWorkable(s: State, t: nat)
    requires Links(s) && Enabled(s, ByRequester(t, TestWorkable))
    ensures Links(Next(s, ByRequester(t, TestWorkable)))
  {
    assert Fits(s.channel.threads[t], ModeOf(s, t));
  }

  lemma KeepTestState(s: State, t: nat)
    requires Links(s) && Enabled(s, ByRequester(t, TestState))
    ensures Links(Next(s, ByRequester(t, TestState)))
  {
    assert Fits(s.channel.threads[t], ModeOf(s, t));
  }

  lemma KeepEnqueue(s: State, t: nat)
    requires Links(s) && Enabled(s, ByRequester(t, Enqueue))
    ensures Links(Next(s, ByRequester(t, Enqueue)))
  {
    var s' := Next(s, ByRequester(t, Enqueue));
    KeepBusyMove(s, s', t);
  }

  /** Requester t moves without touching the words, the counter or the channel. */
  lemma KeepBusyMove(s: State, s': State, t: nat)
    requires Links(s) && t < |s.requesters| && Busy(s.requesters[t]) && !Booting(s.worker)
    requires !s.requesters[t].Swapping? && !s.requesters[t].Sending?
    requires |s'.requesters| == |s.requesters| && s'.requesters == s.requesters[t := s'.requesters[t]]
    requires !s'.requesters[t].Swapping? && !s'.requesters[t].Sending?
    requires s'.requesters[t].Returned? ==> s'.requesters[t].result < 0
    requires s' == s.(requesters := s'.requesters, mailbox := s'.mailbox, accepted := s'.accepted)
    ensures Links(s')
  {
    forall u | 0 <= u < |s.requesters| ensures Fits(s'.channel.threads[u], ModeOf(s', u)) {
      assert Fits(s.channel.threads[u], ModeOf(s, u));
    }
  }

  lemma KeepCountFirst(s: State, t: nat)
    requires Links(s) && Enabled(s, ByRequester(t, Count)) && s.counter == 0
    ensures Links(Next(s, ByRequester(t, Count)))
  {
    assert Fits(s.channel.threads[t], ModeOf(s, t));
  }

  lemma KeepCountLater(s: State, t: nat)
    requires Links(s) && Enabled(s, ByRequester(t, Count)) && s.counter != 0
    ensures Links(Next(s, ByRequester(t, Count)))
  {
    var s' := Next(s, ByRequester(t, Count));
    forall u | 0 <= u < |s.requesters| ensures Fits(s'.channel.threads[u], ModeOf(s', u)) {
      assert Fits(s.channel.threads[u], ModeOf(s, u));
    }
  }

  lemma KeepSwapProc(s: State, t: nat)
    requires Links(s) && Enabled(s, ByRequester(t, SwapProc))
    requires Entered(s.channel, Next(s, ByRequester(t, SwapProc)).channel, t, C.SendTrying(Active))
    ensures Links(Next(s, ByRequester(t, SwapProc)))
  {
    assert Fits(s.channel.threads[t], ModeOf(s, t));
  }

  lemma ActiveSentKeepsRoles(s: State, s': State, t: nat)
    requires TwoThreads(s) && TwoThreads(s') && Roles(s) && t < |s.requesters| == |s'.requesters|
    requires Entered(s.channel, s'.channel, t, C.Out) && ModeOf(s', t) == Absent
    requires s'.requesters == s.requesters[t := s'.requesters[t]] && s'.owner == s.owner && s'.worker == s.worker
    ensures Roles(s')
  {
    forall u | 0 <= u < |s.requesters| ensures Fits(s'.channel.threads[u], ModeOf(s', u)) {
      assert Fits(s.channel.threads[u], ModeOf(s, u));
    }
  }

  lemma KeepActiveSent(s: State, t: nat)
    requires Links(s) && Enabled(s, ByRequester(t, ActiveSent))
    requires Entered(s.channel, Next(s, ByRequester(t, ActiveSent)).channel, t, C.Out)
    ensures Links(Next(s, ByRequester(t, ActiveSent)))
  {
    assert t != WORKER && (t == OWNER ==> s.owner == Ready);
    assert s.token != Signalling(t) && s.token != Waking(t);
    ActiveSentKeepsRoles(s, Next(s, ByRequester(t, ActiveSent)), t);
  }

  // ---- Accounting: jobs, mailbox and counter ----

  ghost function UncountedFlags(requesters: seq<Requester>): (flags: seq<nat>)
    ensures |flags| == |requesters|
  {
    seq(|requesters|, i requires 0 <= i < |requesters| => if requesters[i].Counting? then 1 else 0)
  }

  /** How many requests are in the mailbox and not yet in the counter. */
  ghost function Uncounted(s: State): nat {
    Total(UncountedFlags(s.requesters))
  }

  ghost function InHand(w: Worker): seq<Job> {
    if w.Running? then [w.job] else []
  }

  /** One while the worker is between a dequeue and the decrement that belongs to it. */
  ghost function Undecremented(w: Worker): nat {
    if w.Running? || w.Decrementing? then 1 else 0
  }

  ghost predicate Ledger(s: State) {
    && |s.mailbox| <= s.capacity
    && |s.mailbox| + Undecremented(s.worker) == s.counter + Uncounted(s)
    && s.accepted == s.executed + InHand(s.worker) + s.mailbox
  }

  ghost predicate Placed(loc: Requester) {
    loc.Counting? || loc.Swapping? || loc.Sending? || (loc.Returned? && 0 <= loc.result)
  }

  ghost predicate JobOk(s: State, loc: Requester) {
    !loc.Outside? ==>
      && loc.job < s.requested
      && (Placed(loc) <==> loc.job in s.accepted)
      && (loc.Returned? && loc.result < 0 ==> loc.result in {-1, -2})
  }

  ghost predicate Jobs(s: State) {
    && (forall i | 0 <= i < |s.accepted| :: s.accepted[i] < s.requested)
    && (forall i, k | 0 <= i < k < |s.accepted| :: s.accepted[i] != s.accepted[k])
    && (forall t | 0 <= t < |s.requesters| :: JobOk(s, s.requesters[t]))
    && (forall t, u | 0 <= t < u < |s.requesters| && !s.requesters[t].Outside? && !s.requesters[u].Outside? ::
          s.requesters[t].job != s.requesters[u].job)
  }

  ghost predicate Inv(s: State) {
    Protocol(s) && Ledger(s) && Jobs(s)
  }

  lemma NobodyUncounted(requesters: seq<Requester>)
    requires forall t | 0 <= t < |requesters| :: !requesters[t].Counting?
    ensures Total(UncountedFlags(requesters)) == 0
  {
    if requesters != [] {
      NobodyUncounted(requesters[1..]);
      assert UncountedFlags(requesters)[1..] == UncountedFlags(requesters[1..]);
    }
  }

  lemma UncountedMove(requesters: seq<Requester>, t: nat, loc: Requester)
    requires t < |requesters|
    ensures Total(UncountedFlags(requesters[t := loc])) + (if requesters[t].Counting? then 1 else 0)
         == Total(UncountedFlags(requesters)) + (if loc.Counting? then 1 else 0)
  {
    var flag: nat := if loc.Counting? then 1 else 0;
    assert UncountedFlags(requesters[t := loc]) == UncountedFlags(requesters)[t := flag];
    TotalUpdate(UncountedFlags(requesters), t, flag);
  }

  /** The dequeue in the epoch loop never finds the mailbox empty. */
  lemma DequeueFindsMail(s: State)
    requires Links(s) && Ledger(s) && s.worker == Dequeuing
    ensures s.mailbox != []
  {
  }

  lemma InitAccounts(s: State)
    requires Init(s)
    ensures Ledger(s) && Jobs(s)
  {
    NobodyUncounted(s.requesters);
  }

  lemma WorkerKeepsLedger(s: State, w: WorkerAction)
    requires Ledger(s) && TwoThreads(s) && WorkerEnabled(s, w)
    ensures Ledger(WorkerNext(s, w))
  {
    if w == Dequeue {
      if s.mailbox != [] {
        assert s.mailbox == [s.mailbox[0]] + s.mailbox[1..];
      }
    } else if w == FinishJob || w == Decrement {
      assert WorkerNext(s, w).requesters == s.requesters && WorkerNext(s, w).mailbox == s.mailbox;
    } else {
      WorkerLeavesJobs(s, w);
    }
  }

  lemma WorkerLeavesJobs(s: State, w: WorkerAction)
    requires TwoThreads(s) && WorkerEnabled(s, w) && w != Dequeue && w != FinishJob && w != Decrement
    ensures var s' := WorkerNext(s, w);
            && s'.requesters == s.requesters && s'.mailbox == s.mailbox && s'.capacity == s.capacity
            && s'.counter == s.counter && s'.accepted == s.accepted && s'.executed == s.executed
            && InHand(s'.worker) == InHand(s.worker) && Undecremented(s'.worker) == Undecremented(s.worker)
  {
  }

  lemma RequesterKeepsLedger(s: State, t: nat, r: RequestAction)
    requires Ledger(s) && TwoThreads(s) && t < |s.requesters| && RequesterEnabled(s, t, r)
    ensures Ledger(RequesterNext(s, t, r))
  {
    UncountedMove(s.requesters, t, RequesterNext(s, t, r).requesters[t]);
  }

  /** The jobs stay accounted for when nothing that Jobs looks at has changed. */
  lemma JobsUnchanged(s: State, s': State)
    requires Jobs(s)
    requires s'.requesters == s.requesters && s'.accepted == s.accepted && s'.requested == s.requested
    ensures Jobs(s')
  {
    forall t | 0 <= t < |s.requesters| ensures JobOk(s', s'.requesters[t]) {
      assert JobOk(s, s.requesters[t]);
    }
  }

  /** A requester keeps its job and has not placed it anew. */
  lemma MoveKeepsJobs(s: State, s': State, t: nat)
    requires Jobs(s) && t < |s.requesters| == |s'.requesters|
    requires s'.requesters == s.requesters[t := s'.requesters[t]]
    requires s'.accepted == s.accepted && s'.requested == s.requested
    requires !s.requesters[t].Outside? && !s'.requesters[t].Outside?
    requires s'.requesters[t].job == s.requesters[t].job
    requires Placed(s'.requesters[t]) == Placed(s.requesters[t])
    requires s'.requesters[t].Returned? && s'.requesters[t].result < 0 ==> s'.requesters[t].result in {-1, -2}
    ensures Jobs(s')
  {
    forall u | 0 <= u < |s.requesters| ensures JobOk(s', s'.requesters[u]) {
      assert JobOk(s, s.requesters[u]);
    }
  }

  lemma RequestKeepsJobs(s: State, t: nat)
    requires Jobs(s) && TwoThreads(s) && t < |s.requesters| && RequesterEnabled(s, t, Request)
    ensures Jobs(RequesterNext(s, t, Request))
  {
    var s' := RequesterNext(s, t, Request);
    forall u | 0 <= u < |s.requesters| ensures JobOk(s', s'.requesters[u]) {
      assert JobOk(s, s.requesters[u]);
    }
  }

  lemma PlaceKeepsJobs(s: State, s': State, t: nat)
    requires Jobs(s) && t < |s.requesters| == |s'.requesters| && s.requesters[t].Enqueuing?
    requires s'.requesters == s.requesters[t := Counting(s.requesters[t].job)]
    requires s'.accepted == s.accepted + [s.requesters[t].job] && s'.requested == s.requested
    ensures Jobs(s')
  {
    assert JobOk(s, s.requesters[t]);
    forall u | 0 <= u < |s.requesters| ensures JobOk(s', s'.requesters[u]) {
      assert JobOk(s, s.requesters[u]);
    }
  }

  lemma RequesterKeepsJobs(s: State, t: nat, r: RequestAction)
    requires Jobs(s) && Ledger(s) && TwoThreads(s) && t < |s.requesters| && RequesterEnabled(s, t, r)
    requires 0 <= s.counter
    ensures Jobs(RequesterNext(s, t, r))
  {
    var s' := RequesterNext(s, t, r);
    if r == Request {
      RequestKeepsJobs(s, t);
    } else if r == Enqueue && |s.mailbox| < s.capacity {
      PlaceKeepsJobs(s, s', t);
    } else {
      MoveKeepsJobs(s, s', t);
    }
  }

  // ---- Every step keeps the invariant ----

  /** Whoever has come out of recv no longer holds the receiving end. */
  lemma DoneIsNotReceiving(s: State, t: nat)
    requires Protocol(s) && t < |s.requesters| && s.channel.threads[t].RecvDone?
    ensures s.channel.receiver != Some(t)
  {
  }

  lemma OwnerReceivesSafely(s: State, o: OwnerAction)
    requires Protocol(s) && Enabled(s, ByOwner(o))
    requires o in {Constructed, KillReceived}
    ensures Protocol(Next(s, ByOwner(o)))
  {
    DoneIsNotReceiving(s, OWNER);
    EnterIsSafe(s, OWNER, C.Out);
    if o == Constructed {
      KeepConstructed(s);
    } else {
      KeepKillReceived(s);
    }
  }

  lemma OwnerSendsSafely(s: State, o: OwnerAction)
    requires Protocol(s) && Enabled(s, ByOwner(o))
    requires o in {KillSwap, KillSent}
    ensures Protocol(Next(s, ByOwner(o)))
  {
    assert Fits(s.channel.threads[OWNER], ModeOf(s, OWNER));
    EnterIsSafe(s, OWNER, Next(s, ByOwner(o)).channel.threads[OWNER]);
    if o == KillSwap {
      KeepKillSwap(s);
    } else {
      KeepKillSent(s);
    }
  }

  lemma OwnerKeepsProtocol(s: State, o: OwnerAction)
    requires Protocol(s) && Enabled(s, ByOwner(o))
    ensures Protocol(Next(s, ByOwner(o)))
  {
    match o
    case Constructed => OwnerReceivesSafely(s, o);
    case StartKill => KeepStartKill(s);
    case KillReceived => OwnerReceivesSafely(s, o);
    case OwnerThrows => OwnerNeverThrows(s);
    case _ => OwnerSendsSafely(s, o);
  }

  lemma ReceivedKeepsProtocol(s: State)
    requires Protocol(s) && Enabled(s, ByWorker(Received))
    ensures Protocol(Next(s, ByWorker(Received)))
  {
    DoneIsNotReceiving(s, WORKER);
    if s.channel.threads[WORKER].value == Active {
      EnterIsSafe(s, WORKER, C.Out);
      KeepReceivedActive(s);
    } else {
      EnterIsSafe(s, WORKER, C.SendTrying(ExitOk));
      KeepReceivedExit(s);
    }
  }

  /** The worker's steps into and out of try_send and into recv. */
  lemma WorkerBootsSafely(s: State, w: WorkerAction)
    requires Protocol(s) && Enabled(s, ByWorker(w))
    requires w in {StoreLoaded, SpawnSent, StoreWorkable}
    ensures Protocol(Next(s, ByWorker(w)))
  {
    assert Fits(s.channel.threads[WORKER], ModeOf(s, WORKER));
    EnterIsSafe(s, WORKER, Next(s, ByWorker(w)).channel.threads[WORKER]);
    match w
    case StoreLoaded => KeepStoreLoaded(s);
    case SpawnSent => KeepSpawnSent(s);
    case _ => KeepStoreWorkable(s);
  }

  lemma WorkerLeavesSafely(s: State, w: WorkerAction)
    requires Protocol(s) && Enabled(s, ByWorker(w))
    requires w in {Rest, ExitOkSent}
    ensures Protocol(Next(s, ByWorker(w)))
  {
    assert Fits(s.channel.threads[WORKER], ModeOf(s, WORKER));
    EnterIsSafe(s, WORKER, Next(s, ByWorker(w)).channel.threads[WORKER]);
    if w == Rest {
      KeepRest(s);
    } else {
      KeepExitOkSent(s);
    }
  }

  lemma WorkerKeepsProtocol(s: State, w: WorkerAction)
    requires Protocol(s) && Ledger(s) && Enabled(s, ByWorker(w))
    ensures Protocol(Next(s, ByWorker(w)))
  {
    match w
    case CheckSpawn => KeepCheckSpawn(s);
    case StoreIdle => KeepStoreIdle(s);
    case Received => ReceivedKeepsProtocol(s);
    case Dequeue =>
      DequeueFindsMail(s);
      KeepDequeue(s);
    case FinishJob => KeepFinishJob(s);
    case Decrement => KeepDecrement(s);
    case StoreDead => KeepStoreDead(s);
    case WorkerThrows => WorkerNeverThrows(s);
    case Rest => WorkerLeavesSafely(s, w);
    case ExitOkSent => WorkerLeavesSafely(s, w);
    case _ => WorkerBootsSafely(s, w);
  }

  lemma RequesterEntersSafely(s: State, t: nat, r: RequestAction)
    requires Protocol(s) && Enabled(s, ByRequester(t, r))
    requires r in {SwapProc, ActiveSent}
    ensures Protocol(Next(s, ByRequester(t, r)))
  {
    assert Fits(s.channel.threads[t], ModeOf(s, t));
    if r == SwapProc {
      EnterIsSafe(s, t, C.SendTrying(Active));
      KeepSwapProc(s, t);
    } else {
      EnterIsSafe(s, t, C.Out);
      KeepActiveSent(s, t);
    }
  }

  lemma CountKeepsProtocol(s: State, t: nat)
    requires Protocol(s) && Enabled(s, ByRequester(t, Count))
    ensures Protocol(Next(s, ByRequester(t, Count)))
  {
    if s.counter == 0 {
      KeepCountFirst(s, t);
    } else {
      KeepCountLater(s, t);
    }
  }

  lemma RequesterKeepsProtocol(s: State, t: nat, r: RequestAction)
    requires Protocol(s) && Enabled(s, ByRequester(t, r))
    ensures Protocol(Next(s, ByRequester(t, r)))
  {
    match r
    case Count => CountKeepsProtocol(s, t);
    case SwapProc => RequesterEntersSafely(s, t, r);
    case ActiveSent => RequesterEntersSafely(s, t, r);
    case _ => RequesterPlacesSafely(s, t, r);
  }

  lemma RequesterPlacesSafely(s: State, t: nat, r: RequestAction)
    requires Protocol(s) && Enabled(s, ByRequester(t, r))
    requires r in {Request, TestWorkable, TestState, Enqueue}
    ensures Protocol(Next(s, ByRequester(t, r)))
  {
    PlacingLeavesChannel(s, t, r);
    match r
    case Request => KeepRequest(s, t);
    case TestWorkable => KeepTestWorkable(s, t);
    case TestState => KeepTestState(s, t);
    case _ => KeepEnqueue(s, t);
  }

  lemma PlacingLeavesChannel(s: State, t: nat, r: RequestAction)
    requires Enabled(s, ByRequester(t, r)) && r in {Request, TestWorkable, TestState, Enqueue}
    ensures Next(s, ByRequester(t, r)).channel == s.channel
  {
  }

  lemma StepKeepsProtocol(s: State, a: Action)
    requires Protocol(s) && Ledger(s) && Enabled(s, a)
    ensures Protocol(Next(s, a))
  {
    match a
    case Channel(step) => ChannelKeepsProtocol(s, step);
    case ByOwner(o) => OwnerKeepsProtocol(s, o);
    case ByWorker(w) => WorkerKeepsProtocol(s, w);
    case ByRequester(t, r) => RequesterKeepsProtocol(s, t, r);
  }

  lemma LedgerUnchanged(s: State, s': State)
    requires Ledger(s) && s'.mailbox == s.mailbox && s'.capacity == s.capacity && s'.counter == s.counter
    requires s'.worker == s.worker && s'.requesters == s.requesters
    requires s'.accepted == s.accepted && s'.executed == s.executed
    ensures Ledger(s')
  {
  }

  lemma StepKeepsLedger(s: State, a: Action)
    requires Ledger(s) && Enabled(s, a)
    ensures Ledger(Next(s, a))
  {
    match a
    case Channel(step) => LedgerUnchanged(s, Next(s, a));
    case ByOwner(o) => LedgerUnchanged(s, Next(s, a));
    case ByWorker(w) => WorkerKeepsLedger(s, w);
    case ByRequester(t, r) => RequesterKeepsLedger(s, t, r);
  }

  lemma StepKeepsJobs(s: State, a: Action)
    requires Ledger(s) && Jobs(s) && Enabled(s, a) && 0 <= s.counter
    ensures Jobs(Next(s, a))
  {
    match a
    case ByRequester(t, r) => RequesterKeepsJobs(s, t, r);
    case _ => JobsUnchanged(s, Next(s, a));
  }

  lemma InvNext(s: State, a: Action)
    requires Inv(s) && Enabled(s, a)
    ensures Inv(Next(s, a))
  {
    StepKeepsProtocol(s, a);
    StepKeepsLedger(s, a);
    StepKeepsJobs(s, a);
  }

  lemma CanStepKeepsInv(s: State, s': State)
    requires Inv(s) && CanStep(s, s')
    ensures Inv(s')
  {
    var a :| Enabled(s, a) && s' == Next(s, a);
    InvNext(s, a);
  }

  lemma {:induction false} RunKeepsInv(run: seq<State>, i: nat)
    requires IsRun(run) && i < |run|
    ensures Inv(run[i])
  {
    if i == 0 {
      ProtocolInit(run[0]);
      InitAccounts(run[0]);
    } else {
      RunKeepsInv(run, i - 1);
      CanStepKeepsInv(run[i - 1], run[i]);
    }
  }
}
