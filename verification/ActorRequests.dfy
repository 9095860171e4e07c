/** What a request answers, and how a kill closes the actor for the requests that come after it. */
module ActorRequests {
  import opened Wrappers
  import C = SignalChannel
  import opened ActorProtocol
  import opened ActorExit
  import opened ActorProgress
  import opened ActorKill

  // ---- What a request answers ----

  /** After index k thread t has left the given place in its request. */
  ghost predicate Leaves(run: seq<State>, k: nat, t: nat, loc: Requester) {
    && k + 1 < |run| && t < |run[k].requesters| && t < |run[k + 1].requesters|
    && run[k].requesters[t] == loc && run[k + 1].requesters[t] != loc
  }

  /** Before index j the request tested whether the actor is workable, with this result. */
  ghost predicate FoundWorkable(run: seq<State>, j: nat, t: nat, job: Job, yes: bool) {
    exists k :: 0 <= k < j && Leaves(run, k, t, Checking(job)) && run[k].workable == yes
  }

  /** It tested whether the actor is alive. */
  ghost predicate FoundLiving(run: seq<State>, j: nat, t: nat, job: Job, yes: bool) {
    exists k :: 0 <= k < j && Leaves(run, k, t, CheckingState(job)) && (run[k].word != Dead) == yes
  }

  /** It tried to put its job into the mailbox, and there was room for it, or not. */
  ghost predicate FoundRoom(run: seq<State>, j: nat, t: nat, job: Job, yes: bool) {
    exists k :: 0 <= k < j && Leaves(run, k, t, Enqueuing(job)) && (|run[k].mailbox| < run[k].capacity) == yes
  }

  /** It raised the counter by one from the given value. */
  ghost predicate FoundCounter(run: seq<State>, j: nat, t: nat, job: Job, before: int) {
    exists k :: 0 <= k < j && Leaves(run, k, t, Counting(job))
                && run[k].counter == before && run[k + 1].counter == before + 1
  }

  ghost predicate Admitted(run: seq<State>, j: nat, t: nat, job: Job) {
    FoundWorkable(run, j, t, job, true) && FoundLiving(run, j, t, job, true)
  }

  /** What the place of a thread in its request tells about the tests it has made. */
  ghost predicate Knows(run: seq<State>, j: nat, t: nat, loc: Requester) {
    match loc
    case Outside => true
    case Checking(_) => true
    case CheckingState(job) => FoundWorkable(run, j, t, job, true)
    case Enqueuing(job) => Admitted(run, j, t, job)
    case Counting(job) => Admitted(run, j, t, job) && FoundRoom(run, j, t, job, true)
    case Swapping(job) => Admitted(run, j, t, job) && FoundRoom(run, j, t, job, true) && FoundCounter(run, j, t, job, 0)
    case Sending(job) => Admitted(run, j, t, job) && FoundRoom(run, j, t, job, true) && FoundCounter(run, j, t, job, 0)
    case Returned(job, result) =>
      if result == -1 then
        FoundWorkable(run, j, t, job, false) || (FoundWorkable(run, j, t, job, true) && FoundLiving(run, j, t, job, false))
      else if result == -2 then Admitted(run, j, t, job) && FoundRoom(run, j, t, job, false)
      else
        && 0 <= result && Admitted(run, j, t, job) && FoundRoom(run, j, t, job, true)
        && FoundCounter(run, j, t, job, result)
  }

  /** What has been found stays found. */
  lemma StillKnows(run: seq<State>, i: nat, j: nat, t: nat, loc: Requester)
    requires i <= j && Knows(run, i, t, loc)
    ensures Knows(run, j, t, loc)
  {
    forall job, yes ensures FoundWorkable(run, i, t, job, yes) ==> FoundWorkable(run, j, t, job, yes) {}
    forall job, yes ensures FoundLiving(run, i, t, job, yes) ==> FoundLiving(run, j, t, job, yes) {}
    forall job, yes ensures FoundRoom(run, i, t, job, yes) ==> FoundRoom(run, j, t, job, yes) {}
    forall job, before ensures FoundCounter(run, i, t, job, before) ==> FoundCounter(run, j, t, job, before) {}
  }

  lemma OthersKeepPlace(s: State, a: Action, t: nat)
    requires Enabled(s, a) && t < |s.requesters|
    requires !(a.ByRequester? && a.t == t)
    ensures |Next(s, a).requesters| == |s.requesters| && Next(s, a).requesters[t] == s.requesters[t]
  {
    match a
    case ByWorker(w) => assert WorkerNext(s, w).requesters == s.requesters;
    case ByRequester(u, r) => assert RequesterNext(s, u, r).requesters == s.requesters[u := RequesterNext(s, u, r).requesters[u]];
    case _ =>
  }

  /** A step of thread t's request, from its place at index j. */
  ghost predicate OwnStep(run: seq<State>, j: nat, t: nat, r: RequestAction) {
    && j + 1 < |run| && TwoThreads(run[j]) && t < |run[j].requesters|
    && RequesterEnabled(run[j], t, r) && run[j + 1] == RequesterNext(run[j], t, r)
    && 0 <= run[j].counter && |run[j].mailbox| <= run[j].capacity
    && Knows(run, j + 1, t, run[j].requesters[t])
  }

  lemma TestKnows(run: seq<State>, j: nat, t: nat, r: RequestAction)
    requires OwnStep(run, j, t, r) && (r == TestWorkable || r == TestState)
    ensures t < |run[j + 1].requesters| && Knows(run, j + 1, t, run[j + 1].requesters[t])
  {
    assert Leaves(run, j, t, run[j].requesters[t]);
  }

  lemma EnqueueKnows(run: seq<State>, j: nat, t: nat)
    requires OwnStep(run, j, t, Enqueue)
    ensures t < |run[j + 1].requesters| && Knows(run, j + 1, t, run[j + 1].requesters[t])
  {
    assert Leaves(run, j, t, run[j].requesters[t]);
  }

  lemma CountKnows(run: seq<State>, j: nat, t: nat)
    requires OwnStep(run, j, t, Count)
    ensures t < |run[j + 1].requesters| && Knows(run, j + 1, t, run[j + 1].requesters[t])
  {
    assert Leaves(run, j, t, run[j].requesters[t]);
    assert FoundCounter(run, j + 1, t, run[j].requesters[t].job, run[j].counter);
  }

  lemma SignalKnows(run: seq<State>, j: nat, t: nat, r: RequestAction)
    requires OwnStep(run, j, t, r) && (r == SwapProc || r == ActiveSent || r == Request)
    ensures t < |run[j + 1].requesters| && Knows(run, j + 1, t, run[j + 1].requesters[t])
  {
  }

  /** One step of a request: the test it makes decides where it goes. */
  lemma OwnStepKnows(run: seq<State>, j: nat, t: nat, r: RequestAction)
    requires OwnStep(run, j, t, r)
    ensures t < |run[j + 1].requesters| && Knows(run, j + 1, t, run[j + 1].requesters[t])
  {
    match r
    case Enqueue => EnqueueKnows(run, j, t);
    case Count => CountKnows(run, j, t);
    case TestWorkable => TestKnows(run, j, t, r);
    case TestState => TestKnows(run, j, t, r);
    case _ => SignalKnows(run, j, t, r);
  }

  lemma {:induction false} RunKnows(run: seq<State>, j: nat, t: nat)
    requires IsRun(run) && j < |run| && t < |run[0].requesters|
    ensures t < |run[j].requesters| && Knows(run, j, t, run[j].requesters[t])
  {
    if 0 < j {
      var i := j - 1;
      RunKnows(run, i, t);
      StillKnows(run, i, j, t, run[i].requesters[t]);
      RunKeepsInv(run, i);
      assert CanStep(run[i], run[j]);
      var a :| Enabled(run[i], a) && run[j] == Next(run[i], a);
      if a.ByRequester? && a.t == t {
        OwnStepKnows(run, i, t, a.r);
      } else {
        OthersKeepPlace(run[i], a, t);
      }
    }
  }

  /** What a request returns. In any run: -1 if it found the actor not workable, or dead; -2 if it found it
      open but the mailbox full; and otherwise, having found it open and with room, the counter from which
      it raised it by one. */
  lemma RequestAnswers(run: seq<State>, j: nat, t: nat)
    requires IsRun(run) && j < |run| && t < |run[0].requesters|
    ensures t < |run[j].requesters|
    ensures run[j].requesters[t].Returned? ==>
              var job, result := run[j].requesters[t].job, run[j].requesters[t].result;
              && (result == -1 ==> FoundWorkable(run, j, t, job, false) || FoundLiving(run, j, t, job, false))
              && (result != -1 ==> FoundWorkable(run, j, t, job, true) && FoundLiving(run, j, t, job, true))
              && (result == -2 ==> FoundRoom(run, j, t, job, false))
              && (result != -1 && result != -2 ==>
                    0 <= result && FoundRoom(run, j, t, job, true) && FoundCounter(run, j, t, job, result))
  {
    RunKnows(run, j, t);
  }

  // ---- After the start of a kill ----

  /** Closed for good: dead, or being killed with the gate shut and the worker past opening it. */
  ghost predicate Shut(s: State) {
    s.word == Dead || (Killing(s) && !Booting(s.worker) && !s.workable)
  }

  lemma OwnerKeepsShut(s: State, o: OwnerAction)
    requires Links(s) && OwnerEnabled(s, o) && Shut(s)
    ensures Shut(OwnerNext(s, o))
  {
  }

  lemma WorkerKeepsShut(s: State, w: WorkerAction)
    requires Links(s) && WorkerEnabled(s, w) && Shut(s)
    ensures Shut(WorkerNext(s, w))
  {
  }

  lemma RequesterKeepsShut(s: State, t: nat, r: RequestAction)
    requires Links(s) && t < |s.requesters| && RequesterEnabled(s, t, r) && Shut(s)
    ensures Shut(RequesterNext(s, t, r))
  {
  }

  lemma StepKeepsShut(s: State, a: Action)
    requires Links(s) && Enabled(s, a) && Shut(s)
    ensures Shut(Next(s, a))
  {
    match a
    case Channel(_) =>
    case ByOwner(o) => OwnerKeepsShut(s, o);
    case ByWorker(w) => WorkerKeepsShut(s, w);
    case ByRequester(t, r) => RequesterKeepsShut(s, t, r);
  }

  /** No job from number n on has been accepted. */
  ghost predicate NoneAccepted(s: State, n: nat) {
    n <= s.requested && forall i | 0 <= i < |s.accepted| :: s.accepted[i] < n
  }

  /** A request for such a job has not got past its tests. */
  ghost predicate Rejects(s: State, n: nat, loc: Requester) {
    !loc.Outside? && n <= loc.job ==>
      loc.Checking? || (loc.CheckingState? && s.word == Dead) || (loc.Returned? && loc.result == -1)
  }

  ghost predicate AllRejected(s: State, n: nat) {
    NoneAccepted(s, n) && forall t | 0 <= t < |s.requesters| :: Rejects(s, n, s.requesters[t])
  }

  lemma RequesterKeepsRejecting(s: State, t: nat, r: RequestAction, n: nat)
    requires TwoThreads(s) && t < |s.requesters| && RequesterEnabled(s, t, r) && AllRejected(s, n)
    requires s.word == Dead || !s.workable
    ensures AllRejected(RequesterNext(s, t, r), n)
  {
    assert Rejects(s, n, s.requesters[t]);
  }

  lemma StepKeepsRejecting(s: State, a: Action, n: nat)
    requires Links(s) && Enabled(s, a) && Shut(s) && AllRejected(s, n)
    ensures Shut(Next(s, a)) && AllRejected(Next(s, a), n)
  {
    StepKeepsShut(s, a);
    match a
    case ByRequester(t, r) => RequesterKeepsRejecting(s, t, r, n);
    case ByWorker(w) =>
      WorkerFrame(s, w);
      assert s.word == Dead ==> WorkerNext(s, w).word == Dead;
    case ByOwner(o) => assert s.word == Dead ==> OwnerNext(s, o).word == Dead;
    case Channel(_) =>
  }

  /** Anything that can follow a state. */
  ghost predicate Follows(s: State, tail: seq<State>) {
    && 0 < |tail| && tail[0] == s
    && forall i, j {:trigger CanStep(tail[i], tail[j])} | 0 <= i && j == i + 1 < |tail| :: CanStep(tail[i], tail[j])
  }

  lemma StepThat(s: State, tail: seq<State>, i: nat) returns (a: Action)
    requires Follows(s, tail) && i + 1 < |tail|
    ensures Enabled(tail[i], a) && tail[i + 1] == Next(tail[i], a)
  {
    var j := i + 1;
    assert CanStep(tail[i], tail[j]);
    a :| Enabled(tail[i], a) && tail[j] == Next(tail[i], a);
  }

  ghost predicate KeepsOut(s: State, n: nat) {
    Lasts(s) && Shut(s) && AllRejected(s, n)
  }

  lemma KeepsOutNext(s: State, a: Action, n: nat)
    requires KeepsOut(s, n) && Enabled(s, a)
    ensures KeepsOut(Next(s, a), n)
  {
    LastsNext(s, a);
    StepKeepsRejecting(s, a, n);
  }

  lemma KeepsOutStep(s: State, tail: seq<State>, i: nat, j: nat, n: nat)
    requires Follows(s, tail) && j == i + 1 < |tail| && KeepsOut(tail[i], n)
    ensures KeepsOut(tail[j], n)
  {
    var a := StepThat(s, tail, i);
    KeepsOutNext(tail[i], a, n);
  }

  /** What holds at first and goes on from each place to the next holds everywhere. */
  lemma {:induction false} GoesOn(holds: seq<bool>, i: nat)
    requires i < |holds| && holds[0]
    requires forall k, j {:trigger holds[k], holds[j]} | 0 <= k && j == k + 1 < |holds| :: holds[k] ==> holds[j]
    ensures holds[i]
  {
    if 0 < i {
      GoesOn(holds, i - 1);
    }
  }

  lemma ShutRejects(s: State, tail: seq<State>, i: nat, n: nat)
    requires KeepsOut(s, n) && Follows(s, tail) && i < |tail|
    ensures KeepsOut(tail[i], n)
  {
    var holds := seq(|tail|, k requires 0 <= k < |tail| => KeepsOut(tail[k], n));
    forall k, j {:trigger holds[k], holds[j]} | 0 <= k && j == k + 1 < |tail| && holds[k] ensures holds[j] {
      KeepsOutStep(s, tail, k, j, n);
    }
    GoesOn(holds, i);
  }

  lemma NothingLateYet(s: State)
    requires Jobs(s)
    ensures AllRejected(s, s.requested)
  {
    assert forall t | 0 <= t < |s.requesters| :: JobOk(s, s.requesters[t]);
  }

  /** Once the actor is shut, every request made from then on that returns gives -1, and none is accepted. */
  lemma ShutForGood(s: State, tail: seq<State>, i: nat)
    requires Lasts(s) && Shut(s) && Follows(s, tail) && i < |tail|
    ensures Shut(tail[i])
    ensures forall t | 0 <= t < |tail[i].requesters| && tail[i].requesters[t].Returned? && s.requested <= tail[i].requesters[t].job ::
              tail[i].requesters[t].result == -1
    ensures NoneAccepted(tail[i], s.requested)
  {
    NothingLateYet(s);
    ShutRejects(s, tail, i, s.requested);
    forall t | 0 <= t < |tail[i].requesters| && tail[i].requesters[t].Returned? && s.requested <= tail[i].requesters[t].job
      ensures tail[i].requesters[t].result == -1
    {
      assert Rejects(tail[i], s.requested, tail[i].requesters[t]);
    }
  }

  /** Kill shuts the actor at its start if the worker is up, and else when it claims the state word. */
  lemma KillShuts(s: State)
    requires Lasts(s)
    ensures OwnerEnabled(s, StartKill) && !Booting(s.worker) ==> Shut(OwnerNext(s, StartKill))
    ensures OwnerEnabled(s, KillSwap) ==> Shut(OwnerNext(s, KillSwap))
  {
  }

  // ---- A kill that begins while the worker is starting ----

  /** Two threads only, none of which can make a request. */
  ghost predicate NobodyAsks(s: State) {
    && TwoThreads(s) && |s.requesters| == 2 && Killing(s) && s.mailbox == [] && !s.worker.Running?
    && !Busy(s.requesters[OWNER]) && !Busy(s.requesters[WORKER])
  }

  ghost predicate NothingAccepted(s: State, s': State) {
    s'.accepted == s.accepted && s.requested <= s'.requested && s'.capacity == s.capacity
  }

  lemma OwnerAsksNothing(s: State, o: OwnerAction)
    requires Links(s) && NobodyAsks(s) && OwnerEnabled(s, o)
    ensures NobodyAsks(OwnerNext(s, o)) && NothingAccepted(s, OwnerNext(s, o))
  {
    OwnerNeverThrows(s);
  }

  lemma WorkerAsksNothing(s: State, w: WorkerAction)
    requires NobodyAsks(s) && WorkerEnabled(s, w)
    ensures NobodyAsks(WorkerNext(s, w)) && NothingAccepted(s, WorkerNext(s, w))
  {
    WorkerFrame(s, w);
  }

  /** What the worker's own steps leave alone. */
  lemma WorkerFrame(s: State, w: WorkerAction)
    requires TwoThreads(s) && WorkerEnabled(s, w)
    ensures var s' := WorkerNext(s, w);
            && s'.requesters == s.requesters && s'.requested == s.requested && s'.accepted == s.accepted
            && s'.owner == s.owner && s'.capacity == s.capacity && |s'.channel.threads| == |s.channel.threads|
            && (s.mailbox == [] ==> s'.mailbox == [] && !s'.worker.Running?)
  {
  }

  lemma NobodyAsksStep(s: State, a: Action)
    requires Links(s) && NobodyAsks(s) && Enabled(s, a)
    ensures NobodyAsks(Next(s, a)) && NothingAccepted(s, Next(s, a))
  {
    match a
    case Channel(_) =>
    case ByOwner(o) => OwnerAsksNothing(s, o);
    case ByWorker(w) => WorkerAsksNothing(s, w);
    case ByRequester(t, r) => NoRequestEnabled(s, t, r);
  }

  lemma NoRequestEnabled(s: State, t: nat, r: RequestAction)
    requires NobodyAsks(s) && t < |s.requesters|
    ensures !RequesterEnabled(s, t, r)
  {
    assert t == OWNER || t == WORKER;
  }

  lemma NoRoomStep(s: State, a: Action)
    requires Enabled(s, a) && s.capacity == 0
    ensures NothingAccepted(s, Next(s, a))
  {
    match a
    case ByWorker(w) => assert WorkerNext(s, w).accepted == s.accepted;
    case _ =>
  }

  /** A state from which no further job is ever accepted. */
  ghost predicate Barren(s: State) {
    NobodyAsks(s) || s.capacity == 0
  }

  ghost predicate StaysBarren(s: State, s': State) {
    Lasts(s') && Barren(s') && NothingAccepted(s, s')
  }

  lemma BarrenStep(s: State, before: State, a: Action)
    requires StaysBarren(s, before) && Enabled(before, a)
    ensures StaysBarren(s, Next(before, a))
  {
    LastsNext(before, a);
    if before.capacity == 0 {
      NoRoomStep(before, a);
    } else {
      NobodyAsksStep(before, a);
    }
  }

  lemma BarrenOn(s: State, tail: seq<State>, i: nat, j: nat)
    requires Follows(s, tail) && j == i + 1 < |tail| && StaysBarren(s, tail[i])
    ensures StaysBarren(s, tail[j])
  {
    var a := StepThat(s, tail, i);
    BarrenStep(s, tail[i], a);
  }

  lemma BarrenAccepts(s: State, tail: seq<State>, i: nat)
    requires StaysBarren(s, s) && Follows(s, tail) && i < |tail|
    ensures StaysBarren(s, tail[i])
  {
    var holds := seq(|tail|, k requires 0 <= k < |tail| => StaysBarren(s, tail[k]));
    forall k, j {:trigger holds[k], holds[j]} | 0 <= k && j == k + 1 < |tail| && holds[k] ensures holds[j] {
      BarrenOn(s, tail, k, j);
    }
    GoesOn(holds, i);
  }

  lemma Go(s: State, tail: seq<State>, a: Action) returns (longer: seq<State>)
    requires Follows(s, tail) && Enabled(tail[|tail| - 1], a)
    ensures Follows(s, longer) && longer[|longer| - 1] == Next(tail[|tail| - 1], a)
  {
    longer := tail + [Next(tail[|tail| - 1], a)];
    assert CanStep(tail[|tail| - 1], Next(tail[|tail| - 1], a));
    forall i, j | 0 <= i && j == i + 1 < |longer| ensures CanStep(longer[i], longer[j]) {
      assert j < |tail| ==> CanStep(tail[i], tail[j]);
    }
  }

  /** The worker is about to open the gate, behind kill's back. */
  ghost predicate AboutToOpen(s: State, n: nat) {
    && TwoThreads(s) && 3 <= |s.requesters| && 1 <= s.capacity && s.mailbox == [] && n <= s.requested
    && s.owner == KillSwapping && s.worker == StoringWorkable && s.word == Idle
    && s.channel.threads[WORKER] == C.Out && !Busy(s.requesters[2])
  }

  /** The last steps of the start, up to the opening of the gate. */
  ghost predicate StartsUnderKill(s: State, n: nat) {
    && Links(s) && 3 <= |s.requesters| && 1 <= s.capacity && s.mailbox == [] && n <= s.requested
    && s.owner == KillSwapping && Booting(s.worker) && !s.workable && s.channel.word != C.Sig && C.Inv(s.channel)
  }

  /** Kill can only begin when the constructor has received the spawn signal. */
  lemma WorkerComing(s: State)
    requires Links(s) && C.Inv(s.channel) && s.owner == KillSwapping && Booting(s.worker) && s.channel.word != C.Sig
    ensures ComingUp(s)
  {
    assert !SpawnPending(s);
    assert Fits(s.channel.threads[WORKER], ModeOf(s, WORKER));
    assert !C.Sending(s.channel.threads[WORKER]);
    if s.worker == StoringWorkable {
      StartingWord(s);
    }
  }

  lemma StartingWord(s: State)
    requires Links(s) && s.owner == KillSwapping && s.worker == StoringWorkable
    ensures s.word == Idle
  {
    assert s.counter == 0 && s.token == NoToken;
  }

  /** No signal is in the channel while the worker is starting and kill is under way. */
  lemma NoSignalWhileStarting(s: State)
    requires Protocol(s) && s.owner == KillSwapping && Booting(s.worker)
    ensures s.channel.word != C.Sig
  {
    OneOfFour(C.InFlight(s.channel));
  }

  lemma OneOfFour(signal: Option<Signal>)
    ensures signal in {None, Some(Spawn), Some(Active), Some(GoExit), Some(ExitOk)}
  {
    match signal
    case None =>
    case Some(value) => assert value.Spawn? || value.Active? || value.GoExit? || value.ExitOk?;
  }

  lemma ThirdThreadReturns(s: State, n: nat) returns (tail: seq<State>)
    requires StartsUnderKill(s, n)
    ensures Follows(s, tail) && StartsUnderKillFree(tail[|tail| - 1], n)
  {
    tail := [s];
    WorkerComing(s);
    if Busy(s.requesters[2]) {
      assert s.requesters[2].Checking?;
      tail := Go(s, tail, ByRequester(2, TestWorkable));
      TestedUnderKill(s, n);
    }
  }

  lemma TestedUnderKill(s: State, n: nat)
    requires StartsUnderKill(s, n) && s.requesters[2].Checking?
    ensures StartsUnderKillFree(Next(s, ByRequester(2, TestWorkable)), n)
  {
    WorkerComing(s);
  }

  ghost predicate StartsUnderKillFree(s: State, n: nat) {
    && TwoThreads(s) && 3 <= |s.requesters| && 1 <= s.capacity && s.mailbox == [] && n <= s.requested
    && s.owner == KillSwapping && !Busy(s.requesters[2])
    && ComingUp(s)
  }

  /** The constructor has received the spawn signal, and the worker goes on from there. */
  ghost predicate ComingUp(s: State)
    requires TwoThreads(s)
  {
    || (s.worker == SendingSpawn && s.channel.threads[WORKER] == C.SendDone(true))
    || (s.worker == StoringIdle && s.channel.threads[WORKER] == C.Out)
    || (s.worker == StoringWorkable && s.channel.threads[WORKER] == C.Out && s.word == Idle)
  }

  lemma WorkerComesUp(s: State, before: seq<State>, n: nat) returns (tail: seq<State>)
    requires Follows(s, before) && StartsUnderKillFree(before[|before| - 1], n)
    ensures Follows(s, tail) && AboutToOpen(tail[|tail| - 1], n)
  {
    tail := before;
    if tail[|tail| - 1].worker == SendingSpawn {
      tail := Go(s, tail, ByWorker(SpawnSent));
    }
    if tail[|tail| - 1].worker == StoringIdle {
      tail := Go(s, tail, ByWorker(StoreIdle));
    }
  }

  lemma RequestSlipsIn(s: State, before: seq<State>, n: nat) returns (tail: seq<State>)
    requires Follows(s, before) && AboutToOpen(before[|before| - 1], n)
    ensures Follows(s, tail) && !NoneAccepted(tail[|tail| - 1], n)
  {
    var job := before[|before| - 1].requested;
    tail := Go(s, before, ByWorker(StoreWorkable));
    tail := Go(s, tail, ByRequester(2, Request));
    tail := Go(s, tail, ByRequester(2, TestWorkable));
    tail := Go(s, tail, ByRequester(2, TestState));
    tail := Go(s, tail, ByRequester(2, Enqueue));
    var last := tail[|tail| - 1];
    assert last.accepted[|last.accepted| - 1] == job;
  }

  /** Kill lets no later request in, whatever happens, if and only if it begins when the worker is up, or
      there is no thread besides owner and worker, or no room for any job. Otherwise the worker opens the
      gate after kill has shut it. */
  lemma KillShutsIff(s: State)
    requires Lasts(s) && Enabled(s, ByOwner(StartKill))
    ensures (forall tail, i: nat | Follows(Next(s, ByOwner(StartKill)), tail) && i < |tail| :: NoneAccepted(tail[i], s.requested))
       <==> !Booting(s.worker) || |s.requesters| < 3 || s.capacity == 0
  {
    var begun := Next(s, ByOwner(StartKill));
    LastsNext(s, ByOwner(StartKill));
    if !Booting(s.worker) {
      forall tail, i: nat | Follows(begun, tail) && i < |tail| ensures NoneAccepted(tail[i], s.requested) {
        ShutForGood(begun, tail, i);
      }
    } else if |s.requesters| < 3 || s.capacity == 0 {
      assert Barren(begun);
      forall tail, i: nat | Follows(begun, tail) && i < |tail| ensures NoneAccepted(tail[i], s.requested) {
        BarrenAccepts(begun, tail, i);
      }
    } else {
      NoSignalWhileStarting(begun);
      var tail := KillUndone(begun, s.requested);
      assert !NoneAccepted(tail[|tail| - 1], s.requested);
    }
  }

  lemma KillUndone(s: State, n: nat) returns (tail: seq<State>)
    requires StartsUnderKill(s, n)
    ensures Follows(s, tail) && !NoneAccepted(tail[|tail| - 1], n)
  {
    tail := ThirdThreadReturns(s, n);
    tail := WorkerComesUp(s, tail, n);
    tail := RequestSlipsIn(s, tail, n);
  }
}
