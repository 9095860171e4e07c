/** Killing an actor: kill always completes, and at most one requester is left behind. */
module ActorKill {
  import opened Wrappers
  import opened ThreadSums
  import C = SignalChannel
  import opened ActorProtocol
  import opened ActorExit
  import opened ActorProgress
  import opened ActorResults

  ghost predicate Killing(s: State) {
    s.owner == KillSwapping || s.owner == KillSending || s.owner == KillReceiving || s.owner == Killed
  }

  lemma KillingIsNotAlive(s: State)
    requires Lasts(s)
    ensures Killing(s) <==> !Alive(s)
  {
  }

  /** Kill completes. Once kill has begun, and with no further requests, no schedule goes on for ever, and
      one that cannot go on has ended with kill returned, the worker gone and every requester returned
      but for those that wait for the state word. */
  lemma KillCompletes(run: seq<State>, i: nat, tail: seq<State>)
    requires IsRun(run) && i < |run| && Killing(run[i])
    requires Continuation(tail) && tail[0] == run[i]
    ensures |tail| - 1 <= Work(run[i])
    ensures Stuck(tail[|tail| - 1]) <==> Gone(tail[|tail| - 1])
  {
    RunLasts(run, i);
    KillingIsNotAlive(run[i]);
    var last := EndOf(tail);
    RestIffStuck(last);
  }

  /** And such a schedule always exists. */
  lemma EveryKillCompletes(run: seq<State>, i: nat) returns (tail: seq<State>)
    requires IsRun(run) && i < |run| && Killing(run[i])
    ensures Continuation(tail) && |tail| <= Work(run[i]) + 1 && tail[0] == run[i] && Gone(tail[|tail| - 1])
  {
    RunLasts(run, i);
    KillingIsNotAlive(run[i]);
    tail := ComesToRest(run[i]);
  }

  ghost predicate LeftBehind(s: State, t: nat) {
    t < |s.requesters| && s.requesters[t].Swapping?
  }

  /** At most one requester is left behind. Jobs are left behind with it: all accepted jobs have been
      executed if and only if everybody has returned. */
  lemma KillLeaves(run: seq<State>, i: nat)
    requires IsRun(run) && i < |run| && Gone(run[i])
    ensures forall t, u :: LeftBehind(run[i], t) && LeftBehind(run[i], u) ==> t == u
    ensures run[i].accepted == run[i].executed <==> forall t :: !LeftBehind(run[i], t)
  {
    var s := run[i];
    RunKeepsInv(run, i);
    GoneLeavesOne(s);
    GoneLeavesJobs(s);
  }

  lemma GoneLeavesOne(s: State)
    requires TwoThreads(s) && Tokens(s) && Words(s) && Gone(s)
    ensures forall t, u :: LeftBehind(s, t) && LeftBehind(s, u) ==> t == u
    ensures s.counter == 0 <==> forall t :: !LeftBehind(s, t)
  {
    assert s.word == Dead && (s.counter == 0 <==> s.token == NoToken);
    if s.token.Waking? {
      assert LeftBehind(s, s.token.t);
    }
  }

  lemma GoneLeavesJobs(s: State)
    requires Ledger(s) && Gone(s)
    ensures s.accepted == s.executed <==> s.counter == 0
  {
    NobodyUncounted(s.requesters);
    assert s.accepted == s.executed + s.mailbox;
  }

  // ---- When a requester can be left behind ----

  /** The size of the system does not change, and a mailbox without room never takes a job. */
  ghost predicate Sized(s: State, capacity: nat, threads: nat) {
    s.capacity == capacity && |s.requesters| == threads && (capacity == 0 ==> s.accepted == [])
  }

  lemma StepKeepsSized(s: State, a: Action)
    requires Enabled(s, a) && Sized(s, s.capacity, |s.requesters|)
    ensures Sized(Next(s, a), s.capacity, |s.requesters|)
  {
    match a
    case ByRequester(t, r) => RequesterKeepsSized(s, t, r);
    case ByWorker(w) => assert WorkerNext(s, w).accepted == s.accepted && WorkerNext(s, w).requesters == s.requesters;
    case _ =>
  }

  lemma RequesterKeepsSized(s: State, t: nat, r: RequestAction)
    requires TwoThreads(s) && t < |s.requesters| && RequesterEnabled(s, t, r) && Sized(s, s.capacity, |s.requesters|)
    ensures Sized(RequesterNext(s, t, r), s.capacity, |s.requesters|)
  {
  }

  lemma CanStepKeepsSized(s: State, s': State)
    requires CanStep(s, s') && Sized(s, s.capacity, |s.requesters|)
    ensures Sized(s', s.capacity, |s.requesters|)
  {
    var a :| Enabled(s, a) && s' == Next(s, a);
    StepKeepsSized(s, a);
  }

  lemma {:induction false} RunKeepsSized(run: seq<State>, i: nat)
    requires IsRun(run) && i < |run|
    ensures Sized(run[i], run[0].capacity, |run[0].requesters|)
  {
    if 0 < i {
      RunKeepsSized(run, i - 1);
      CanStepKeepsSized(run[i - 1], run[i]);
    }
  }

  /** Kill has the state word, and somebody still waits for it. */
  ghost predicate Stranded(s: State) {
    s.word == Dead && exists t :: LeftBehind(s, t)
  }

  /** Nobody but a third thread is ever left behind, and only with a job that the mailbox took. */
  lemma StrandedNeeds(run: seq<State>, i: nat)
    requires IsRun(run) && i < |run| && Stranded(run[i])
    ensures 3 <= |run[0].requesters| && 1 <= run[0].capacity
  {
    var s := run[i];
    RunKeepsInv(run, i);
    RunKeepsSized(run, i);
    var t :| LeftBehind(s, t);
    LeftBehindIsThird(s, t);
    LeftBehindIsAccepted(s, t);
  }

  lemma LeftBehindIsThird(s: State, t: nat)
    requires TwoThreads(s) && Nesting(s) && Words(s) && s.word == Dead && LeftBehind(s, t)
    ensures t != OWNER && t != WORKER && 3 <= |s.requesters|
  {
  }

  lemma LeftBehindIsAccepted(s: State, t: nat)
    requires Jobs(s) && LeftBehind(s, t)
    ensures s.accepted != []
  {
    assert JobOk(s, s.requesters[t]);
  }

  lemma Append(run: seq<State>, a: Action) returns (longer: seq<State>)
    requires IsRun(run) && Enabled(run[|run| - 1], a)
    ensures IsRun(longer) && longer[0] == run[0] && longer[|longer| - 1] == Next(run[|run| - 1], a)
  {
    var s := run[|run| - 1];
    longer := run + [Next(s, a)];
    assert CanStep(s, Next(s, a));
    forall i, j | 0 <= i && j == i + 1 < |longer| ensures CanStep(longer[i], longer[j]) {
      assert j < |run| ==> CanStep(run[i], run[j]);
    }
  }

  /** A run that goes on as the given continuation. */
  lemma Extend(run: seq<State>, tail: seq<State>) returns (longer: seq<State>)
    requires IsRun(run) && Continuation(tail) && tail[0] == run[|run| - 1]
    ensures IsRun(longer) && longer[0] == run[0] && run <= longer && longer[|longer| - 1] == tail[|tail| - 1]
  {
    longer := run + tail[1..];
    forall i, j | 0 <= i && j == i + 1 < |longer| ensures CanStep(longer[i], longer[j]) {
      if j < |run| {
        assert CanStep(run[i], run[j]);
      } else {
        var k := i - (|run| - 1);
        assert longer[i] == tail[k] && longer[j] == tail[k + 1];
        StepOfContinuation(tail, k, k + 1);
      }
    }
  }

  /** A third thread's request has raised the counter from zero and is about to claim the state word. */
  ghost predicate AboutToClaim(s: State) {
    && TwoThreads(s) && 3 <= |s.requesters| && s.requesters[2].Swapping?
    && s.owner == Ready && !Busy(s.requesters[OWNER]) && s.word == Idle
  }

  lemma RequestAfterRest(before: seq<State>) returns (run: seq<State>)
    requires IsRun(before) && Drained(before[|before| - 1]) && before[|before| - 1].workable
    requires 3 <= |before[|before| - 1].requesters| && 1 <= before[|before| - 1].capacity
    ensures IsRun(run) && run[0] == before[0] && AboutToClaim(run[|run| - 1])
  {
    run := Append(before, ByRequester(2, Request));
    run := Append(run, ByRequester(2, TestWorkable));
    run := Append(run, ByRequester(2, TestState));
    run := Append(run, ByRequester(2, Enqueue));
    run := Append(run, ByRequester(2, Count));
  }

  lemma KillOvertakes(before: seq<State>) returns (run: seq<State>)
    requires IsRun(before) && AboutToClaim(before[|before| - 1])
    ensures IsRun(run) && run[0] == before[0] && Stranded(run[|run| - 1]) && Killing(run[|run| - 1])
  {
    run := Append(before, ByOwner(StartKill));
    run := Append(run, ByOwner(KillSwap));
    assert LeftBehind(run[|run| - 1], 2);
  }

  lemma StrandedForGood(run: seq<State>, i: nat, j: nat)
    requires IsRun(run) && i <= j < |run| && Stranded(run[i])
    ensures Stranded(run[j])
  {
    DeadForGood(run, i, j);
    var t :| LeftBehind(run[i], t);
    assert LeftBehind(run[j], t);
  }

  lemma RunToRest(s: State) returns (run: seq<State>)
    requires Init(s)
    ensures IsRun(run) && run[0] == s && Drained(run[|run| - 1]) && run[|run| - 1].workable
    ensures |run[|run| - 1].requesters| == |s.requesters| && run[|run| - 1].capacity == s.capacity
  {
    run := [s];
    var tail := EveryRunComesToRest(run, 0);
    run := Extend(run, tail);
    RunKeepsSized(run, |run| - 1);
    RunLasts(run, |run| - 1);
  }

  lemma RunToGone(before: seq<State>) returns (run: seq<State>)
    requires IsRun(before) && Stranded(before[|before| - 1]) && Killing(before[|before| - 1])
    ensures IsRun(run) && run[0] == before[0] && Gone(run[|run| - 1]) && Stranded(run[|run| - 1])
  {
    var last := |before| - 1;
    var tail := EveryKillCompletes(before, last);
    run := Extend(before, tail);
    assert run[last] == before[last];
    StrandedForGood(run, last, |run| - 1);
  }

  /** A run that comes to rest, takes one more request, and is killed before that request claims the state word. */
  lemma KillStrands(s: State) returns (run: seq<State>)
    requires Init(s) && 3 <= |s.requesters| && 1 <= s.capacity
    ensures IsRun(run) && run[0] == s && Gone(run[|run| - 1]) && Stranded(run[|run| - 1])
  {
    run := RunToRest(s);
    run := RequestAfterRest(run);
    run := KillOvertakes(run);
    run := RunToGone(run);
  }

  /** Some run leaves a requester spinning for ever behind a finished kill, if and only if there is a thread
      besides owner and worker, and the mailbox has room for a job. */
  lemma KillMayStrandIff(s: State)
    requires Init(s)
    ensures (exists run :: IsRun(run) && run[0] == s && Gone(run[|run| - 1]) && Stranded(run[|run| - 1]))
       <==> 3 <= |s.requesters| && 1 <= s.capacity
  {
    if run :| IsRun(run) && run[0] == s && Gone(run[|run| - 1]) && Stranded(run[|run| - 1]) {
      StrandedNeeds(run, |run| - 1);
    }
    if 3 <= |s.requesters| && 1 <= s.capacity {
      var run := KillStrands(s);
    }
  }
}
