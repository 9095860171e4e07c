/** The periodic timer of libvee_master/voost/timer/xtimer.cpp: its handler arms the timer again,
    while run, stop and completions that are already queued get in between.

    One thread serves the completions, so one handler runs at a time. A call of run is atomic, and
    comes before a handler, after it, or while it is in the callback. */
module TimerSteps {
  import opened Wrappers
  import opened Delegates

  const TICKS: nat := 0x1_0000_0000

  datatype Handler = NotInHandler | Checked | Ticked | InCallback

  /** One call of the callback with a tick. */
  datatype Called = Called(callback: Handlers, tick: nat)

  /** calls lists all calls of the callback, arms counts the waits started, handled the completions taken up.
      stale, expired and dropped count, since the last successful run: successful completions that
      were queued already, waits that expired, and completions that found the timer stopped. */
  datatype State = State(
    running: bool,
    tick: nat,
    callback: Handlers,
    armed: nat,                // waits that are pending
    completions: seq<bool>,    // queued completions: successful or aborted
    handler: Handler,
    calls: seq<Called>,
    arms: nat,
    handled: nat,
    delivered: seq<nat>,       // ticks passed to the callback since the last successful run
    stale: nat,
    expired: nat,
    dropped: nat)

  datatype Action =
    | Run(callback: Handlers)
    | Stop
    | Expire
    | Begin(i: nat)
    | Tick
    | Call
    | Rearm

  ghost predicate Init(s: State) {
    !s.running && s.tick == 0 && s.armed == 0 && s.completions == [] && s.handler == NotInHandler
    && s.calls == [] && s.arms == s.handled == 0
    && s.delivered == [] && s.stale == s.expired == s.dropped == 0
  }

  predicate Enabled(s: State, a: Action) {
    match a
    case Run(_) => s.handler == NotInHandler || s.handler == InCallback
    case Stop => true
    case Expire => 0 < s.armed
    case Begin(i) => s.handler == NotInHandler && i < |s.completions|
    case Tick => s.handler == Checked
    case Call => s.handler == Ticked
    case Rearm => s.handler == InCallback
  }

  /** Setting a new expiry aborts every pending wait; then one wait is started. */
  function SetTimer(s: State): State {
    s.(completions := s.completions + Repeat(false, s.armed), armed := 1, arms := s.arms + 1)
  }

  function RunStep(s: State, callback: Handlers): State {
    if s.running then s
    else SetTimer(s.(running := true, callback := Merge(s.callback, callback), tick := 0, delivered := [],
                     stale := Successes(s.completions), expired := 0, dropped := 0))
  }

  function BeginStep(s: State, i: nat): State
    requires i < |s.completions|
  {
    var taken := s.(completions := s.completions[..i] + s.completions[i + 1..], handled := s.handled + 1);
    if !s.completions[i] then taken
    else if s.running then taken.(handler := Checked)
    else taken.(dropped := s.dropped + 1)
  }

  function Next(s: State, a: Action): State
    requires Enabled(s, a)
  {
    match a
    case Run(callback) => RunStep(s, callback)
    case Stop => s.(running := false)
    case Expire => s.(armed := s.armed - 1, completions := s.completions + [true], expired := s.expired + 1)
    case Begin(i) => BeginStep(s, i)
    case Tick => s.(handler := Ticked, tick := (s.tick + 1) % TICKS)
    case Call =>
      s.(handler := InCallback, delivered := s.delivered + [s.tick], calls := s.calls + [Called(s.callback, s.tick)])
    case Rearm => SetTimer(s).(handler := NotInHandler)
  }

  function Successes(completions: seq<bool>): nat {
    if completions == [] then 0 else (if completions[0] then 1 else 0) + Successes(completions[1..])
  }

  lemma {:induction false} SuccessesAppend(first: seq<bool>, second: seq<bool>)
    ensures Successes(first + second) == Successes(first) + Successes(second)
  {
    if first == [] {
      assert first + second == second;
    } else {
      assert (first + second)[1..] == first[1..] + second;
      SuccessesAppend(first[1..], second);
    }
  }

  lemma {:induction false} AbortedAreNone(completions: seq<bool>)
    requires forall i | 0 <= i < |completions| :: !completions[i]
    ensures Successes(completions) == 0
  {
    if completions != [] {
      AbortedAreNone(completions[1..]);
    }
  }

  lemma {:induction false} SuccessesRemove(completions: seq<bool>, i: nat)
    requires i < |completions|
    ensures Successes(completions[..i] + completions[i + 1..]) + (if completions[i] then 1 else 0) == Successes(completions)
  {
    var without := completions[..i] + completions[i + 1..];
    if i == 0 {
      assert without == completions[1..];
    } else {
      SuccessesRemove(completions[1..], i - 1);
      assert without[1..] == completions[1..][..i - 1] + completions[1..][i..];
    }
  }

  lemma {:induction false} SuccessIsThere(completions: seq<bool>)
    ensures 0 < Successes(completions) <==> true in completions
  {
    if completions != [] {
      SuccessIsThere(completions[1..]);
      assert completions == [completions[0]] + completions[1..];
    }
  }

  // ---- Invariant ----

  /** A wait, a queued success or a handler will keep the timer going. */
  ghost predicate Going(s: State) {
    s.armed == 1 || 0 < Successes(s.completions) || s.handler != NotInHandler
  }

  /** Ticks since the last run are 1, 2, 3, ... as a 32-bit counter shows them. */
  ghost predicate Consecutive(s: State) {
    && (forall k | 0 <= k < |s.delivered| :: s.delivered[k] == (k + 1) % TICKS)
    && s.tick == (|s.delivered| + if s.handler == Ticked then 1 else 0) % TICKS
  }

  /** Every completion since the last run is queued, delivered, dropped or in a handler that is yet to call back. */
  ghost predicate Accounted(s: State) {
    Successes(s.completions) + |s.delivered| + s.dropped
      + (if s.handler == Checked || s.handler == Ticked then 1 else 0) == s.stale + s.expired
  }

  /** Every wait that was ever started is pending, or has its one completion queued or taken up. */
  ghost predicate WaitsComplete(s: State) {
    s.arms == s.armed + |s.completions| + s.handled
  }

  /** The ticks since the last run are those of the last calls. */
  ghost predicate Recorded(s: State) {
    && |s.delivered| <= |s.calls|
    && forall k | 0 <= k < |s.delivered| :: s.calls[|s.calls| - |s.delivered| + k].tick == s.delivered[k]
  }

  ghost predicate Inv(s: State) {
    && s.armed <= 1 && (s.running ==> Going(s)) && Consecutive(s) && Accounted(s)
    && WaitsComplete(s) && Recorded(s)
  }

  lemma SetTimerKeepsSuccesses(s: State)
    ensures Successes(SetTimer(s).completions) == Successes(s.completions)
  {
    SuccessesAppend(s.completions, Repeat(false, s.armed));
    AbortedAreNone(Repeat(false, s.armed));
  }

  lemma NextTick(n: nat)
    ensures (n % TICKS + 1) % TICKS == (n + 1) % TICKS
  {
  }

  lemma GoingNext(s: State, a: Action)
    requires s.armed <= 1 && (s.running ==> Going(s)) && Accounted(s) && Enabled(s, a)
    ensures var s' := Next(s, a); s'.armed <= 1 && (s'.running ==> Going(s')) && Accounted(s')
  {
    match a
    case Run(callback) =>
      SetTimerKeepsSuccesses(s);
    case Stop =>
    case Expire =>
      SuccessesAppend(s.completions, [true]);
    case Begin(i) =>
      SuccessesRemove(s.completions, i);
    case Tick =>
    case Call =>
    case Rearm =>
      SetTimerKeepsSuccesses(s);
  }

  lemma LogsNext(s: State, a: Action)
    requires Consecutive(s) && WaitsComplete(s) && Recorded(s) && Enabled(s, a)
    ensures Consecutive(Next(s, a)) && WaitsComplete(Next(s, a)) && Recorded(Next(s, a))
  {
    if a == Tick {
      NextTick(|s.delivered|);
    }
  }

  lemma InvNext(s: State, a: Action)
    requires Inv(s) && Enabled(s, a)
    ensures Inv(Next(s, a))
  {
    GoingNext(s, a);
    LogsNext(s, a);
  }

  ghost predicate CanStep(s: State, s': State) {
    exists a :: Enabled(s, a) && s' == Next(s, a)
  }

  ghost predicate IsRun(run: seq<State>) {
    && 0 < |run|
    && Init(run[0])
    && forall i, j {:trigger CanStep(run[i], run[j])} | 0 <= i && j == i + 1 < |run| :: CanStep(run[i], run[j])
  }

  lemma {:induction false} RunKeepsInv(run: seq<State>, i: nat)
    requires IsRun(run) && i < |run|
    ensures Inv(run[i])
  {
    if i > 0 {
      RunKeepsInv(run, i - 1);
      assert CanStep(run[i - 1], run[i]);
      var a :| Enabled(run[i - 1], a) && run[i] == Next(run[i - 1], a);
      InvNext(run[i - 1], a);
    }
  }

  /** In every run at most one wait is pending, a running timer never dies out, and the ticks since the
      last run count up from 1 without gap or repetition. */
  lemma TimerKeepsTicking(run: seq<State>, i: nat)
    requires IsRun(run) && i < |run|
    ensures var s := run[i];
            && s.armed <= 1
            && (s.running ==> s.armed == 1 || true in s.completions || s.handler != NotInHandler)
            && (forall k | 0 <= k < |s.delivered| :: s.delivered[k] == (k + 1) % TICKS)
            && |s.delivered| <= |s.calls|
            && (forall k | 0 <= k < |s.delivered| ::
                  s.calls[|s.calls| - |s.delivered| + k].tick == s.delivered[k])
            && s.arms == s.armed + |s.completions| + s.handled
  {
    RunKeepsInv(run, i);
    SuccessIsThere(run[i].completions);
  }

  /** No tick comes from nowhere. Successful completions are conserved: the waits that have expired since
      the last run and the completions that were queued already are the ticks delivered, those still to
      come, and those dropped. */
  lemma TicksComeFromExpiries(run: seq<State>, i: nat)
    requires IsRun(run) && i < |run|
    ensures var s := run[i];
            && |s.delivered| <= s.stale + s.expired
            && |s.delivered| + s.dropped + Successes(s.completions) + (if s.handler in {Checked, Ticked} then 1 else 0)
               == s.stale + s.expired
  {
    RunKeepsInv(run, i);
  }

  // ---- Ticks that belong to an earlier run ----

  /** Any step but a run that starts the timer anew. */
  ghost predicate SameRun(s: State, a: Action) {
    Enabled(s, a) && (a.Run? ==> s.running)
  }

  ghost predicate CanContinue(s: State, s': State) {
    exists a :: SameRun(s, a) && s' == Next(s, a)
  }

  /** All that can happen until the timer is started once more. */
  ghost predicate Continuation(s: State, tail: seq<State>) {
    && 0 < |tail| && tail[0] == s
    && forall i, j {:trigger CanContinue(tail[i], tail[j])} | 0 <= i && j == i + 1 < |tail| ::
         CanContinue(tail[i], tail[j])
  }

  lemma StepOfContinuation(s: State, tail: seq<State>, i: nat) returns (a: Action)
    requires Continuation(s, tail) && i + 1 < |tail|
    ensures SameRun(tail[i], a) && tail[i + 1] == Next(tail[i], a)
  {
    var j := i + 1;
    assert CanContinue(tail[i], tail[j]);
    a :| SameRun(tail[i], a) && tail[j] == Next(tail[i], a);
  }

  // ---- What a stopped timer still does, and what a running one does not leave out ----

  /** The handler has found the timer running and is yet to call back. */
  function CallsDue(s: State): nat {
    if s.handler == Checked || s.handler == Ticked then 1 else 0
  }

  /** The handler has found the timer running and is yet to arm it again. */
  function ArmsDue(s: State): nat {
    if s.handler == NotInHandler then 0 else 1
  }

  /** A stopped timer does not tick. Until it is started again nothing happens but what a handler that had
      found it running before still does: its one call, and the one wait that it starts after it. */
  lemma {:induction false} StoppedStaysQuiet(s: State, tail: seq<State>, i: nat)
    requires !s.running && Continuation(s, tail) && i < |tail|
    ensures !tail[i].running
    ensures |tail[i].calls| + CallsDue(tail[i]) == |s.calls| + CallsDue(s)
    ensures |tail[i].delivered| + CallsDue(tail[i]) == |s.delivered| + CallsDue(s)
    ensures tail[i].arms + ArmsDue(tail[i]) == s.arms + ArmsDue(s)
  {
    if 0 < i {
      StoppedStaysQuiet(s, tail, i - 1);
      var a := StepOfContinuation(s, tail, i - 1);
      StoppedStep(tail[i - 1], a);
    }
  }

  lemma StoppedStep(s: State, a: Action)
    requires !s.running && SameRun(s, a)
    ensures var s' := Next(s, a);
            && !s'.running
            && |s'.calls| + CallsDue(s') == |s.calls| + CallsDue(s)
            && |s'.delivered| + CallsDue(s') == |s.delivered| + CallsDue(s)
            && s'.arms + ArmsDue(s') == s.arms + ArmsDue(s)
  {
  }

  /** A running timer makes a tick of every success that a handler takes up: none is dropped. */
  lemma {:induction false} RunningDropsNothing(s: State, tail: seq<State>, i: nat)
    requires Continuation(s, tail) && i < |tail|
    requires forall k | 0 <= k < i :: tail[k].running
    ensures tail[i].dropped == s.dropped
  {
    if 0 < i {
      RunningDropsNothing(s, tail, i - 1);
      var a := StepOfContinuation(s, tail, i - 1);
    }
  }

  /** Until the timer is started anew, whatever is called is the callback that was installed. */
  lemma {:induction false} CallsGoToInstalled(s: State, tail: seq<State>, i: nat)
    requires Continuation(s, tail) && i < |tail|
    ensures tail[i].callback == s.callback && s.calls <= tail[i].calls
    ensures forall k | |s.calls| <= k < |tail[i].calls| :: tail[i].calls[k].callback == s.callback
  {
    if 0 < i {
      CallsGoToInstalled(s, tail, i - 1);
      var a := StepOfContinuation(s, tail, i - 1);
      CallStep(tail[i - 1], a);
    }
  }

  lemma CallStep(s: State, a: Action)
    requires SameRun(s, a)
    ensures Next(s, a).callback == s.callback
    ensures Next(s, a).calls == s.calls || Next(s, a).calls == s.calls + [Called(s.callback, s.tick)]
  {
  }

  // ---- Whose ticks they are ----

  /** No more ticks than waits that have expired. */
  ghost predicate OwnTicks(s: State) {
    |s.delivered| <= s.expired
  }

  lemma {:induction false} ContinuationKeepsStale(s: State, tail: seq<State>, i: nat)
    requires Inv(s) && Continuation(s, tail) && i < |tail|
    ensures Inv(tail[i]) && tail[i].stale == s.stale
  {
    if 0 < i {
      ContinuationKeepsStale(s, tail, i - 1);
      var a := StepOfContinuation(s, tail, i - 1);
      InvNext(tail[i - 1], a);
    }
  }

  lemma Continue(s: State, tail: seq<State>, a: Action) returns (longer: seq<State>)
    requires Continuation(s, tail) && SameRun(tail[|tail| - 1], a)
    ensures Continuation(s, longer) && longer[|longer| - 1] == Next(tail[|tail| - 1], a)
  {
    longer := tail + [Next(tail[|tail| - 1], a)];
    assert CanContinue(tail[|tail| - 1], Next(tail[|tail| - 1], a));
    forall i, j | 0 <= i && j == i + 1 < |longer| ensures CanContinue(longer[i], longer[j]) {
      assert j < |tail| ==> CanContinue(tail[i], tail[j]);
    }
  }

  /** A success that is queued when the timer is started makes its first tick come too early. */
  lemma StaleCompletionTicksEarly(s: State, callback: Handlers, i: nat) returns (tail: seq<State>)
    requires !s.running && Enabled(s, Run(callback)) && i < |s.completions| && s.completions[i]
    ensures Continuation(Next(s, Run(callback)), tail)
    ensures var last := tail[|tail| - 1]; last.running && last.expired == 0 && last.delivered == [1]
  {
    var started := Next(s, Run(callback));
    assert started.completions[i];
    tail := [started];
    if s.handler == InCallback {
      tail := Continue(started, tail, Rearm);
    }
    assert tail[|tail| - 1].completions[i];
    tail := Continue(started, tail, Begin(i));
    tail := Continue(started, tail, Tick);
    tail := Continue(started, tail, Call);
  }

  /** Whatever happens after the timer has been started, its ticks come from its own waits, if and only
      if no success was queued at the start. */
  lemma TicksAreOwnIff(s: State, callback: Handlers)
    requires Inv(s) && !s.running && Enabled(s, Run(callback))
    ensures (forall tail, i: nat | Continuation(Next(s, Run(callback)), tail) && i < |tail| :: OwnTicks(tail[i]))
       <==> true !in s.completions
  {
    var started := Next(s, Run(callback));
    SuccessIsThere(s.completions);
    InvNext(s, Run(callback));
    if true in s.completions {
      var i: nat :| i < |s.completions| && s.completions[i];
      var tail := StaleCompletionTicksEarly(s, callback, i);
      assert !OwnTicks(tail[|tail| - 1]);
    } else {
      forall tail, i: nat | Continuation(started, tail) && i < |tail| ensures OwnTicks(tail[i]) {
        ContinuationKeepsStale(started, tail, i);
      }
    }
  }

  /** The queue is not clean by itself: a wait may expire right before the timer is stopped. */
  lemma StaleCompletionArises(callback: Handlers, s0: State) returns (run: seq<State>)
    requires Init(s0)
    ensures IsRun(run) && run[0] == s0
    ensures var s := run[|run| - 1]; !s.running && s.completions == [true] && Enabled(s, Run(callback))
  {
    var s1 := Next(s0, Run(callback));
    var s2 := Next(s1, Expire);
    var s3 := Next(s2, Stop);
    run := [s0, s1, s2, s3];
    assert CanStep(s0, s1) && CanStep(s1, s2) && CanStep(s2, s3);
  }
}

/** The timer object itself. */
module Timers {
  import opened Wrappers
  import opened Delegates
  import opened TimerSteps

  /** What a callback does to its own timer. */
  datatype Request = RunAgain(callback: Handlers) | StopIt

  function ObeyOne(s: State, request: Request): State {
    match request
    case RunAgain(callback) => RunStep(s, callback)
    case StopIt => s.(running := false)
  }

  function Obey(s: State, requests: seq<Request>): (after: State)
    ensures after.handler == s.handler
  {
    if requests == [] then s
    else ObeyOne(Obey(s, requests[..|requests| - 1]), requests[|requests| - 1])
  }

  function RunningAfter(running: bool, requests: seq<Request>): bool {
    if requests == [] then running else requests[|requests| - 1].RunAgain?
  }

  /** The callbacks of those calls of run that find the timer stopped. */
  function Restarts(running: bool, requests: seq<Request>): seq<Handlers> {
    if requests == [] then []
    else
      var front, last := requests[..|requests| - 1], requests[|requests| - 1];
      Restarts(running, front) + if last.RunAgain? && !RunningAfter(running, front) then [last.callback] else []
  }

  /** What has come of a callback's requests: the last one decides whether the timer runs, and each call of
      run that finds it stopped installs its callback, starts a wait, and has the ticks begin anew. */
  ghost predicate Obeyed(s: State, after: State, requests: seq<Request>) {
    var restarts := Restarts(s.running, requests);
    && after.running == RunningAfter(s.running, requests)
    && after.callback == AssignAll(s.callback, restarts)
    && after.handler == s.handler && after.calls == s.calls && after.handled == s.handled
    && after.arms == s.arms + |restarts|
    && after.delivered == (if restarts == [] then s.delivered else [])
    && after.tick == (if restarts == [] then s.tick else 0)
    && after.armed == (if restarts == [] then s.armed else 1)
  }

  lemma {:induction false} ObeyMeans(s: State, requests: seq<Request>)
    ensures Obeyed(s, Obey(s, requests), requests)
  {
    if requests != [] {
      ObeyMeans(s, requests[..|requests| - 1]);
      ObeyedOneMore(s, Obey(s, requests[..|requests| - 1]), requests);
    }
  }

  lemma ObeyedOneMore(s: State, before: State, requests: seq<Request>)
    requires requests != [] && Obeyed(s, before, requests[..|requests| - 1])
    ensures Obeyed(s, ObeyOne(before, requests[|requests| - 1]), requests)
  {
    var front, last := requests[..|requests| - 1], requests[|requests| - 1];
    var restarts := Restarts(s.running, front);
    if last.RunAgain? && !RunningAfter(s.running, front) {
      AssignAppend(s.callback, restarts, last.callback);
    } else {
      assert restarts + [] == restarts;
    }
  }

  /** An aborted completion, and one that finds the timer stopped, change nothing but the queue. */
  ghost predicate LeftAlone(s: State, after: State) {
    && after.running == s.running && after.tick == s.tick && after.callback == s.callback
    && after.armed == s.armed && after.arms == s.arms
    && after.calls == s.calls && after.delivered == s.delivered
  }

  /** A success that finds the timer running makes one call, of the callback installed and with the next
      tick, obeys it, and starts one more wait. */
  ghost predicate TickedOnce(s: State, after: State, requests: seq<Request>) {
    var restarts, tick := Restarts(true, requests), (s.tick + 1) % TICKS;
    && after.calls == s.calls + [Called(s.callback, tick)]
    && after.running == RunningAfter(true, requests)
    && after.callback == AssignAll(s.callback, restarts)
    && after.armed == 1 && after.arms == s.arms + |restarts| + 1
    && after.delivered == (if restarts == [] then s.delivered + [tick] else [])
    && after.tick == (if restarts == [] then tick else 0)
  }

  /** A whole handler, as the steps it takes: nothing else happens but what the callback asks for. */
  function Handle(s: State, i: nat, requests: seq<Request>): State
    requires s.handler == NotInHandler && i < |s.completions|
  {
    var begun := Next(s, Begin(i));
    if begun.handler == NotInHandler then begun
    else Next(Obey(Next(Next(begun, Tick), Call), requests), Rearm)
  }

  /** What a whole handler does. */
  lemma HandleMeans(s: State, i: nat, requests: seq<Request>)
    requires s.handler == NotInHandler && i < |s.completions|
    ensures Handle(s, i, requests).handled == s.handled + 1
    ensures if s.completions[i] && s.running then TickedOnce(s, Handle(s, i, requests), requests)
            else LeftAlone(s, Handle(s, i, requests))
  {
    var begun := Next(s, Begin(i));
    if begun.handler == Checked {
      ObeyMeans(Next(Next(begun, Tick), Call), requests);
    }
  }

  lemma {:induction false} ObeyKeepsInv(s: State, requests: seq<Request>)
    requires Inv(s) && s.handler == InCallback
    ensures Inv(Obey(s, requests))
  {
    if requests != [] {
      var before := Obey(s, requests[..|requests| - 1]);
      ObeyKeepsInv(s, requests[..|requests| - 1]);
      match requests[|requests| - 1]
      case RunAgain(callback) => InvNext(before, Run(callback));
      case StopIt => InvNext(before, Stop);
    }
  }

  lemma HandleKeepsInv(s: State, i: nat, requests: seq<Request>)
    requires Inv(s) && s.handler == NotInHandler && i < |s.completions|
    ensures Inv(Handle(s, i, requests)) && Handle(s, i, requests).handler == NotInHandler
  {
    var begun := Next(s, Begin(i));
    InvNext(s, Begin(i));
    if begun.handler == Checked {
      InvNext(begun, Tick);
      InvNext(Next(begun, Tick), Call);
      var called := Next(Next(begun, Tick), Call);
      ObeyKeepsInv(called, requests);
      InvNext(Obey(called, requests), Rearm);
    }
  }

  lemma KeepsInv(s: State, a: Action)
    requires Enabled(s, a)
    ensures Inv(s) ==> Inv(Next(s, a))
  {
    if Inv(s) {
      InvNext(s, a);
    }
  }

  class AsyncTimer {
    var running: bool
    var tick: nat
    var callback: Handlers
    var armed: nat
    var completions: seq<bool>
    var handler: TimerSteps.Handler
    ghost var calls: seq<Called>
    ghost var arms: nat
    ghost var handled: nat
    ghost var delivered: seq<nat>
    ghost var stale: nat
    ghost var expired: nat
    ghost var dropped: nat

    ghost function View(): State
      reads this
    {
      State(running, tick, callback, armed, completions, handler, calls, arms, handled, delivered, stale, expired, dropped)
    }

    ghost predicate Valid()
      reads this
    {
      Inv(View())
    }

    constructor ()
      ensures Valid() && Init(View())
    {
      running, tick, callback, armed, completions := false, 0, EMPTY, 0, [];
      handler, calls, arms, handled := NotInHandler, [], 0, 0;
      delivered, stale, expired, dropped := [], 0, 0, 0;
    }

    method Run(cb: Handlers) returns (started: bool)
      requires handler == NotInHandler || handler == InCallback
      modifies this
      ensures View() == Next(old(View()), TimerSteps.Run(cb)) && started == !old(running)
      ensures !started ==> View() == old(View())
      ensures started ==> running && tick == 0 && armed == 1 && arms == old(arms) + 1 && delivered == []
                          && calls == old(calls) && handler == old(handler)
      ensures started ==> callback.plain == if cb.plain != [] then cb.plain else old(callback).plain
      ensures started ==> callback.keyed == if cb.keyed != [] then cb.keyed else old(callback).keyed
      ensures old(Valid()) ==> Valid()
    {
      ghost var before, after := View(), Next(View(), TimerSteps.Run(cb));
      KeepsInv(before, TimerSteps.Run(cb));
      if running {
        return false;
      }
      running := true;
      callback := Merge(callback, cb);
      tick := 0;
      delivered, stale, expired, dropped := [], Successes(completions), 0, 0;
      SetTimer();
      assert View() == after;
      return true;
    }

    method Stop() returns (stopped: bool)
      modifies this`running
      ensures View() == Next(old(View()), TimerSteps.Stop) && stopped == old(running)
      ensures !running && armed == old(armed) && completions == old(completions) && calls == old(calls)
      ensures old(Valid()) ==> Valid()
    {
      if !running {
        return false;
      }
      running := false;
      return true;
    }

    /** Moving the expiry aborts the pending waits; then a new wait is started. */
    method SetTimer()
      modifies this`completions, this`armed, this`arms
      ensures View() == TimerSteps.SetTimer(old(View()))
      ensures completions == old(completions) + Repeat(false, old(armed)) && armed == 1 && arms == old(arms) + 1
    {
      completions := completions + Repeat(false, armed);
      armed := 0;
      armed := armed + 1;
      arms := arms + 1;
    }

    /** A pending wait expires. */
    method Expire()
      requires 0 < armed
      modifies this
      ensures View() == Next(old(View()), TimerSteps.Expire)
      ensures armed == old(armed) - 1 && completions == old(completions) + [true]
      ensures old(Valid()) ==> Valid()
    {
      KeepsInv(View(), TimerSteps.Expire);
      armed := armed - 1;
      completions := completions + [true];
      expired := expired + 1;
    }

    /** The callback, which may stop its own timer and run it again. */
    method Callback(requests: seq<Request>)
      requires handler == InCallback
      modifies this
      ensures View() == Obey(old(View()), requests)
      ensures Obeyed(old(View()), View(), requests)
    {
      ObeyMeans(View(), requests);
      for r := 0 to |requests|
        invariant View() == Obey(old(View()), requests[..r])
      {
        assert requests[..r + 1][..r] == requests[..r];
        match requests[r]
        case RunAgain(cb) => var _ := Run(cb);
        case StopIt => var _ := Stop();
      }
      assert requests[..|requests|] == requests;
    }

    /** The part of the handler that finds the timer running. */
    method TickAndRearm(requests: seq<Request>)
      requires handler == Checked
      modifies this
      ensures View() == Next(Obey(Next(Next(old(View()), Tick), Call), requests), Rearm)
    {
      ghost var ticked := Next(View(), Tick);
      tick := (tick + 1) % TICKS;
      handler := Ticked;
      assert View() == ticked;
      Invoke(requests);
      SetTimer();
      handler := NotInHandler;
    }

    /** The call of the callback, with all that it asks for. */
    method Invoke(requests: seq<Request>)
      requires handler == Ticked
      modifies this
      ensures View() == Obey(Next(old(View()), Call), requests)
    {
      ghost var called := Next(View(), Call);
      delivered, calls := delivered + [tick], calls + [Called(callback, tick)];
      handler := InCallback;
      assert View() == called;
      Callback(requests);
    }

    /** The handler of the i-th queued completion. */
    method OnTimer(i: nat, requests: seq<Request>)
      requires handler == NotInHandler && i < |completions|
      modifies this
      ensures handler == NotInHandler && handled == old(handled) + 1
      ensures View() == Handle(old(View()), i, requests)
      ensures old(Valid()) ==> Valid()
      ensures !(old(completions)[i] && old(running)) ==>
                LeftAlone(old(View()), View())
      ensures old(completions)[i] && old(running) ==> TickedOnce(old(View()), View(), requests)
      ensures old(Valid()) ==> Valid()
    {
      ghost var before := View();
      HandleMeans(before, i, requests);
      if Inv(before) {
        HandleKeepsInv(before, i, requests);
      }
      TakeUp(i, requests);
    }

    method TakeUp(i: nat, requests: seq<Request>)
      requires handler == NotInHandler && i < |completions|
      modifies this
      ensures View() == Handle(old(View()), i, requests) && handler == NotInHandler
    {
      var success := completions[i];
      completions := completions[..i] + completions[i + 1..];
      handled := handled + 1;
      if success {
        if running {
          handler := Checked;
          TickAndRearm(requests);
        } else {
          dropped := dropped + 1;
        }
      }
    }
  }
}
