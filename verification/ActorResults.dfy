/** What every run of an actor keeps, stated on the state alone. */
module ActorResults {
  import opened Wrappers
  import C = SignalChannel
  import opened ActorProtocol

  /** The duty to run the epoch is at most in one place: with the worker, in the channel,
      or with one requester. */
  ghost predicate WorkerAwake(s: State)
    requires TwoThreads(s)
  {
    InEpochLoop(s.worker) && !ActiveInChannel(s)
    && forall t | 0 <= t < |s.requesters| :: !OwesSignal(s, t)
  }

  ghost predicate SignalUnderWay(s: State)
    requires TwoThreads(s)
  {
    ActiveInChannel(s) && !InEpochLoop(s.worker)
    && forall t | 0 <= t < |s.requesters| :: !OwesSignal(s, t)
  }

  ghost predicate OneRequesterOwes(s: State)
    requires TwoThreads(s)
  {
    !ActiveInChannel(s) && !InEpochLoop(s.worker)
    && exists t :: 0 <= t < |s.requesters| && OwesSignal(s, t)
                   && forall u | 0 <= u < |s.requesters| && u != t :: !OwesSignal(s, u)
  }

  ghost predicate NobodyOwes(s: State)
    requires TwoThreads(s)
  {
    !ActiveInChannel(s) && !InEpochLoop(s.worker)
    && forall t | 0 <= t < |s.requesters| :: !OwesSignal(s, t)
  }

  lemma TokenTellsWho(s: State)
    requires TwoThreads(s) && Tokens(s)
    ensures s.counter == 0 <==> NobodyOwes(s)
    ensures s.counter > 0 <==> WorkerAwake(s) || SignalUnderWay(s) || OneRequesterOwes(s)
  {
    forall t | 0 <= t < |s.requesters|
      ensures OwesSignal(s, t) <==> s.token == Waking(t) || s.token == Signalling(t)
    {
    }
    if s.token.Waking? || s.token.Signalling? {
      assert OwesSignal(s, s.token.t);
    }
  }

  /** No lost wakeup, and no double one: in every reachable state the counter is zero exactly when
      nobody is to run the epoch; otherwise the worker runs it, or the active signal is in the channel,
      or exactly one requester, which raised the counter from zero, has yet to hand that signal over. */
  lemma NoLostWakeup(run: seq<State>, i: nat)
    requires IsRun(run) && i < |run|
    ensures TwoThreads(run[i]) && 0 <= run[i].counter
    ensures run[i].counter == 0 <==> NobodyOwes(run[i])
    ensures run[i].counter > 0 <==> WorkerAwake(run[i]) || SignalUnderWay(run[i]) || OneRequesterOwes(run[i])
  {
    RunKeepsInv(run, i);
    TokenTellsWho(run[i]);
  }

  /** Counter accounting. The counter is the number of mailed jobs, give or take the requests that
      are mailed but not yet counted and the job taken out but not yet subtracted; it never exceeds
      the mailbox by more than that one job. So a dequeue of the epoch never finds the mailbox empty,
      and the worker, when it comes to rest, finds the state word as it expects it. */
  lemma CounterAccounts(run: seq<State>, i: nat)
    requires IsRun(run) && i < |run|
    ensures var s := run[i];
            && |s.mailbox| + Undecremented(s.worker) == s.counter + Uncounted(s)
            && 0 <= s.counter <= s.capacity + 1
            && (s.worker == Dequeuing ==> s.mailbox != [])
            && (s.worker == Resting ==> s.word == Proc)
  {
    RunKeepsInv(run, i);
    if run[i].worker == Dequeuing {
      DequeueFindsMail(run[i]);
    }
  }

  /** A request made from inside a running job is never the one that has to wake the worker:
      when it is accepted it returns at least 1, and it never spins on its own actor. */
  lemma NestedRequestNeverSpins(run: seq<State>, i: nat)
    requires IsRun(run) && i < |run|
    ensures |run[i].requesters| >= 2
    ensures var own := run[i].requesters[WORKER];
            && !own.Swapping? && !own.Sending?
            && (own.Returned? && own.result >= 0 ==> own.result >= 1)
            && (Busy(own) ==> run[i].worker.Running?)
  {
    RunKeepsInv(run, i);
  }

  /** Exactly once, first in first out: the accepted jobs, which are all different, are the executed
      ones, the one in hand and the mailed ones, in this order. A returned request had its job accepted
      exactly when it returned no error code, and no two requests share a job. */
  lemma ExactlyOnceInOrder(run: seq<State>, i: nat)
    requires IsRun(run) && i < |run|
    ensures var s := run[i];
            && s.accepted == s.executed + InHand(s.worker) + s.mailbox
            && (forall j, k | 0 <= j < k < |s.accepted| :: s.accepted[j] != s.accepted[k])
            && (forall t | 0 <= t < |s.requesters| && s.requesters[t].Returned? ::
                  && (0 <= s.requesters[t].result <==> s.requesters[t].job in s.accepted)
                  && -2 <= s.requesters[t].result)
            && (forall t, u | 0 <= t < u < |s.requesters| && s.requesters[t].Returned? && s.requesters[u].Returned? ::
                  s.requesters[t].job != s.requesters[u].job)
  {
    RunKeepsInv(run, i);
    forall t | 0 <= t < |run[i].requesters| && run[i].requesters[t].Returned?
      ensures 0 <= run[i].requesters[t].result <==> run[i].requesters[t].job in run[i].accepted
      ensures -2 <= run[i].requesters[t].result
    {
      assert JobOk(run[i], run[i].requesters[t]);
    }
  }

  lemma NobodyFaults(s: State)
    requires TwoThreads(s) && Roles(s)
    ensures forall t | 0 <= t < |s.channel.threads| ::
              s.channel.threads[t] != C.RecvThrew && s.channel.threads[t] != C.Fault
  {
    forall t | 0 <= t < |s.channel.threads|
      ensures s.channel.threads[t] != C.RecvThrew && s.channel.threads[t] != C.Fault
    {
      assert Fits(s.channel.threads[t], ModeOf(s, t));
    }
  }

  /** The handshake over the one channel that serves both directions: the constructor receives
      spawn, the worker's loop active or go_exit, kill exit_ok; nobody ever finds somebody else
      waiting in recv, and none of the throws is reachable. */
  lemma HandshakeNeverFails(run: seq<State>, i: nat)
    requires IsRun(run) && i < |run|
    ensures |run[i].channel.threads| >= 2
    ensures var s := run[i];
            var owner, worker := s.channel.threads[OWNER], s.channel.threads[WORKER];
            && (owner.RecvDone? && s.owner == Constructing ==> owner.value == Spawn)
            && (owner.RecvDone? && s.owner == KillReceiving ==> owner.value == ExitOk)
            && (worker.RecvDone? ==> s.worker == Receiving && (worker.value == Active || worker.value == GoExit))
            && (forall t | 0 <= t < |s.channel.threads| ::
                  s.channel.threads[t] != C.RecvThrew && s.channel.threads[t] != C.Fault)
            && s.owner != ConstructThrew && s.owner != OwnerThrew && s.worker != WorkerThrew
  {
    RunKeepsInv(run, i);
    var s := run[i];
    NobodyFaults(s);
    assert Fits(s.channel.threads[OWNER], ModeOf(s, OWNER));
    assert Fits(s.channel.threads[WORKER], ModeOf(s, WORKER));
    if s.owner == Constructing && s.channel.threads[OWNER].RecvDone? {
      DoneIsNotReceiving(s, OWNER);
    }
  }

  // ---- After a kill ----

  lemma DeadWorker(s: State)
    requires Inv(s) && s.word == Dead
    ensures s.worker in {StoringWorkable, Receiving, SendingExitOk, StoringDead, Exited}
  {
    assert !InEpochLoop(s.worker) && s.worker != Resting;
    assert !s.worker.Starting? && !s.worker.StoringLoaded? && !s.worker.SendingSpawn? && !s.worker.StoringIdle?;
  }

  /** Nothing has changed that a dead actor must keep. */
  ghost predicate StillDead(s: State, s': State) {
    && s'.word == Dead && s'.executed == s.executed
    && |s'.requesters| == |s.requesters|
    && forall t | 0 <= t < |s.requesters| && s.requesters[t].Swapping? :: s'.requesters[t] == s.requesters[t]
  }

  lemma DeadWorkerStep(s: State, w: WorkerAction)
    requires TwoThreads(s) && WorkerEnabled(s, w) && s.word == Dead
    requires s.worker in {StoringWorkable, Receiving, SendingExitOk, StoringDead, Exited}
    ensures StillDead(s, WorkerNext(s, w))
  {
  }

  lemma DeadRequesterStep(s: State, t: nat, r: RequestAction)
    requires TwoThreads(s) && t < |s.requesters| && RequesterEnabled(s, t, r) && s.word == Dead
    ensures StillDead(s, RequesterNext(s, t, r))
  {
  }

  lemma DeadStep(s: State, a: Action)
    requires Enabled(s, a) && s.word == Dead
    requires s.worker in {StoringWorkable, Receiving, SendingExitOk, StoringDead, Exited}
    ensures StillDead(s, Next(s, a))
  {
    match a
    case ByWorker(w) => DeadWorkerStep(s, w);
    case ByRequester(t, r) => DeadRequesterStep(s, t, r);
    case _ =>
  }

  lemma RunDeadStep(run: seq<State>, i: nat)
    requires IsRun(run) && i < |run| - 1 && run[i].word == Dead
    ensures StillDead(run[i], run[i + 1])
  {
    RunKeepsInv(run, i);
    DeadWorker(run[i]);
    assert CanStep(run[i], run[i + 1]);
    var a :| Enabled(run[i], a) && run[i + 1] == Next(run[i], a);
    DeadStep(run[i], a);
  }

  /** From the moment kill has claimed the state word the actor stays dead and executes nothing more,
      and a requester that raised the counter from zero but lost the state word never returns. */
  lemma {:induction false} DeadForGood(run: seq<State>, i: nat, j: nat)
    requires IsRun(run) && i <= j < |run| && run[i].word == Dead
    ensures StillDead(run[i], run[j])
  {
    if i < j {
      DeadForGood(run, i, j - 1);
      RunDeadStep(run, j - 1);
    }
  }
}
