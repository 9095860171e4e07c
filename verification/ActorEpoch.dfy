/** One actor of vee/actor.h, seen by one thread at a time: how requests fill the mailbox, also while a
    job runs, and how an epoch empties it through the one job variable that all its jobs are assigned to. */
module ActorEpoch {
  import opened Delegates
  import opened RingQueues
  import Fifo = BoundedFifo

  datatype Mail<A> = Mail(handlers: Handlers, args: A)

  datatype Word = Idle | Proc | Dead

  class Actor<A(0)> {
    const mailbox: RingQueue<Mail<A>>
    var workable: bool
    var word: Word
    var counter: nat
    var signalled: bool          // the active signal is under way to the worker
    var calls: seq<Fired<A>>     // all handler calls so far
    ghost var running: bool      // the worker has a job in hand

    ghost function Repr(): set<object> {
      {this, mailbox, mailbox.slots}
    }

    /** At rest, or signalled and about to run an epoch, or in the middle of a job. */
    ghost predicate Valid()
      reads Repr()
    {
      && mailbox.Valid() && !mailbox.overwriteMode
      && counter == |mailbox.Contents()| + (if running then 1 else 0)
      && (word == Proc <==> signalled || running)
      && !(signalled && running)
      && (word == Idle ==> counter == 0)
      && (signalled ==> 0 < counter)
      && Orderly(mailbox.Contents())
    }

    ghost function Mails(): (mails: seq<Mail<A>>)
      requires Valid()
      reads Repr()
      ensures |mails| <= counter
    {
      mailbox.Contents()
    }

    /** The actor takes a request. */
    predicate Open()
      reads this
    {
      workable && word != Dead
    }

    predicate Accepts()
      reads Repr()
    {
      Open() && mailbox.size < mailbox.capacity
    }

    constructor (capacity: nat)
      ensures Valid() && fresh(Repr()) && Accepts() == (0 < capacity) && !running
      ensures mailbox.capacity == capacity && Mails() == [] && calls == []
    {
      mailbox := new RingQueue(capacity);
      workable := true;
      word := Idle;
      counter := 0;
      signalled := false;
      calls := [];
      running := false;
    }

    /** Returns the old counter, or -1 when the actor is closed and -2 when its mailbox is full. */
    method Request(mail: Mail<A>) returns (result: int)
      requires Valid() && Ascending(mail.handlers.keyed)
      modifies this`word, this`counter, this`signalled
      modifies mailbox`rear, mailbox`front, mailbox`size, mailbox.slots
      ensures Valid() && workable == old(workable) && Open() == old(Open())
      ensures result == if !old(Open()) then -1 else if !old(Accepts()) then -2 else old(counter)
      ensures Mails() == if old(Accepts()) then old(Mails()) + [mail] else old(Mails())
      ensures old(Accepts()) ==> signalled || running
      ensures running ==> word == old(word) && signalled == old(signalled)
      ensures result < 0 ==> unchanged(this) && unchanged(mailbox) && unchanged(mailbox.slots)
    {
      if !workable || word == Dead {
        return -1;
      }
      var accepted := mailbox.Enqueue(mail);
      if !accepted {
        return -2;
      }
      result := counter;
      counter := counter + 1;
      if result == 0 {
        word := Proc;
        signalled := true;
      }
    }

    /** Requests made while a job runs: as many are accepted as there is room for. */
    method RequestAll(arrivals: seq<Mail<A>>) returns (ghost accepted: seq<Mail<A>>)
      requires Valid() && running && Orderly(arrivals)
      modifies this`word, this`counter, this`signalled
      modifies mailbox`rear, mailbox`front, mailbox`size, mailbox.slots
      ensures Valid() && word == old(word) && !signalled
      ensures accepted == if workable then Fitting(arrivals, mailbox.capacity - old(|Mails()|)) else []
      ensures Mails() == old(Mails()) + accepted
    {
      accepted := [];
      var k := 0;
      while k < |arrivals|
        invariant 0 <= k <= |arrivals| && Valid() && word == old(word) && !signalled
        invariant accepted == if workable then Fitting(arrivals[..k], mailbox.capacity - old(|Mails()|)) else []
        invariant Mails() == old(Mails()) + accepted
      {
        var result := Request(arrivals[k]);
        FittingUnfolds(arrivals, k, mailbox.capacity - old(|Mails()|));
        accepted := if 0 <= result then accepted + [arrivals[k]] else accepted;
        k := k + 1;
      }
      assert arrivals[..|arrivals|] == arrivals;
    }

    /** What holds between two jobs of an epoch. */
    ghost predicate BetweenJobs()
      reads Repr()
    {
      && mailbox.Valid() && !mailbox.overwriteMode
      && counter == |mailbox.Contents()|
      && word == Proc && !signalled && !running
      && Orderly(mailbox.Contents())
    }

    /** Takes the head mail, if there is one; its job is then in hand. */
    method TakeHead() returns (taken: bool, mail: Mail<A>)
      requires BetweenJobs()
      modifies this`running, mailbox`front, mailbox`size
      ensures taken == (old(mailbox.Contents()) != [])
      ensures taken ==> Valid() && running && Mails() == old(mailbox.Contents())[1..]
      ensures taken ==> mail == old(mailbox.Contents())[0] && Ascending(mail.handlers.keyed)
      ensures !taken ==> BetweenJobs() && counter == 0
    {
      var blank: Mail<A> := *;
      taken, mail := mailbox.Dequeue(blank);
      if taken {
        running := true;
      }
    }

    /** Takes the head mail into the job variable and calls what that now holds. */
    method RunHead(job: Delegate) returns (taken: bool)
      requires BetweenJobs() && job.Valid()
      modifies this`calls, this`running, mailbox`front, mailbox`size, job
      ensures job.Valid() && taken == (old(mailbox.Contents()) != [])
      ensures taken ==> Valid() && running && Mails() == old(mailbox.Contents())[1..]
      ensures taken ==> var mail := old(mailbox.Contents())[0];
                        && job.Contents() == Merge(old(job.Contents()), mail.handlers)
                        && calls == old(calls) + Calls(job.Contents(), mail.args)
      ensures !taken ==> BetweenJobs() && calls == old(calls) && counter == 0
    {
      var mail: Mail<A>;
      taken, mail := TakeHead();
      if taken {
        job.Assign(mail.handlers);
        var fired := job.Fire(mail.args);
        calls := calls + fired;
      }
    }

    /** One turn of the epoch's loop: run the head mail and count it off. The arrivals are the requests made
        while it runs. */
    method RunOne(job: Delegate, arrivals: seq<Mail<A>>) returns (taken: bool)
      requires BetweenJobs() && job.Valid() && Orderly(arrivals)
      modifies this`word, this`counter, this`signalled, this`calls, this`running
      modifies mailbox`rear, mailbox`front, mailbox`size, mailbox.slots, job
      ensures BetweenJobs() && job.Valid()
      ensures taken == (old(mailbox.Contents()) != [])
      ensures taken ==> var mail := old(mailbox.Contents())[0];
                        && mailbox.Contents() == AfterTurn(old(mailbox.Contents()), arrivals, mailbox.capacity, workable)
                        && job.Contents() == Merge(old(job.Contents()), mail.handlers)
                        && calls == old(calls) + Calls(job.Contents(), mail.args)
      ensures !taken ==> calls == old(calls) && counter == 0
    {
      taken := RunHead(job);
      if taken {
        ghost var accepted := RequestAll(arrivals);
        counter := counter - 1;
        running := false;
      }
    }

    /** The calls made so far and those to come in this epoch. */
    ghost function Trace(job: Handlers, arrivals: seq<seq<Mail<A>>>): seq<Fired<A>>
      reads this, mailbox, mailbox.slots
      requires mailbox.Valid()
    {
      calls + EpochCalls(job, Coming(mailbox.Contents(), arrivals, mailbox.capacity, workable))
    }

    /** A turn of the loop leaves that as it is. */
    method Turn(job: Delegate, arrivals: seq<seq<Mail<A>>>, turn: nat) returns (taken: bool, next: nat)
      requires BetweenJobs() && job.Valid() && turn <= |arrivals|
      requires forall k | 0 <= k < |arrivals| :: Orderly(arrivals[k])
      modifies this`word, this`counter, this`signalled, this`calls, this`running
      modifies mailbox`rear, mailbox`front, mailbox`size, mailbox.slots, job
      ensures BetweenJobs() && job.Valid()
      ensures taken == (old(counter) > 0)
      ensures next == if turn < |arrivals| then turn + 1 else turn
      ensures taken ==> Trace(job.Contents(), arrivals[next..]) == old(Trace(job.Contents(), arrivals[turn..]))
      ensures taken && turn == |arrivals| ==> counter < old(counter)
    {
      ghost var before, mails := job.Contents(), mailbox.Contents();
      if mails != [] {
        CallsOfTurn(before, mails, arrivals[turn..], mailbox.capacity, workable, calls);
      }
      var here := if turn < |arrivals| then arrivals[turn] else [];
      next := if turn < |arrivals| then turn + 1 else turn;
      taken := RunOne(job, here);
    }

    /** The loop over the mailbox. */
    method RunMails(job: Delegate, arrivals: seq<seq<Mail<A>>>) returns (emptied: bool)
      requires BetweenJobs() && job.Valid() && 0 < counter
      requires forall k | 0 <= k < |arrivals| :: Orderly(arrivals[k])
      modifies this`word, this`counter, this`signalled, this`calls, this`running
      modifies mailbox`rear, mailbox`front, mailbox`size, mailbox.slots, job
      ensures emptied && BetweenJobs() && counter == 0
      ensures calls == old(Trace(job.Contents(), arrivals))
    {
      var turn := 0;
      assert arrivals[0..] == arrivals;
      while true
        invariant BetweenJobs() && job.Valid() && 0 < counter
        invariant 0 <= turn <= |arrivals|
        invariant Trace(job.Contents(), arrivals[turn..]) == old(Trace(job.Contents(), arrivals))
        decreases |arrivals| - turn, counter
      {
        var taken;
        taken, turn := Turn(job, arrivals, turn);
        if !taken {
          return false;
        }
        if counter == 0 {
          break;
        }
      }
      NothingComing<A>(arrivals[turn..], mailbox.capacity, workable);
      return true;
    }

    /** The worker's loop over the mailbox, after it has received the active signal. The arrivals of a turn
        are the requests made while its job runs; those accepted are run in the same epoch. */
    method Epoch(arrivals: seq<seq<Mail<A>>>) returns (rested: bool)
      requires Valid() && signalled
      requires forall k | 0 <= k < |arrivals| :: Orderly(arrivals[k])
      modifies this`word, this`counter, this`signalled, this`calls, this`running
      modifies mailbox`rear, mailbox`front, mailbox`size, mailbox.slots
      ensures Valid() && rested && word == Idle && Mails() == []
      ensures calls == old(calls) + EpochCalls(EMPTY, old(Mails()) + AllAccepted(old(Mails()), arrivals, mailbox.capacity, workable))
    {
      signalled := false;
      var job := new Delegate();
      var emptied := RunMails(job, arrivals);
      if !emptied {
        return false;
      }
      if word != Proc {
        return false;
      }
      word := Idle;
      return true;
    }

    /** Kill waits until an epoch that is due has run; after that the actor is closed for good. */
    method Kill()
      requires Valid() && word != Dead && !running
      modifies this`workable, this`word, this`counter, this`signalled, this`calls, this`running
      modifies mailbox`rear, mailbox`front, mailbox`size, mailbox.slots
      ensures Valid() && !Open() && word == Dead && Mails() == []
      ensures calls == old(calls) + EpochCalls(EMPTY, old(Mails()))
    {
      workable := false;
      NobodyComing<A>(mailbox.Contents(), [], mailbox.capacity);
      if signalled {
        var rested := Epoch([]);
      }
      word := Dead;
    }
  }

  ghost predicate Orderly<A>(mails: seq<Mail<A>>) {
    forall i | 0 <= i < |mails| :: Ascending(mails[i].handlers.keyed)
  }

  // ---- Requests that arrive during an epoch ----

  /** As many as there is room for. */
  function Fitting<A>(arrivals: seq<Mail<A>>, room: nat): seq<Mail<A>> {
    if |arrivals| <= room then arrivals else arrivals[..room]
  }

  lemma FittingUnfolds<A>(arrivals: seq<Mail<A>>, k: nat, room: nat)
    requires k < |arrivals|
    ensures Fitting(arrivals[..k + 1], room)
         == if k < room then Fitting(arrivals[..k], room) + [arrivals[k]] else Fitting(arrivals[..k], room)
  {
    assert arrivals[..k + 1] == arrivals[..k] + [arrivals[k]];
    if room <= k {
      assert arrivals[..k + 1][..room] == arrivals[..k][..room];
    }
  }

  /** The requests accepted while the first of the mails is run. */
  function AcceptedNow<A>(mails: seq<Mail<A>>, arrivals: seq<Mail<A>>, capacity: nat, open: bool): seq<Mail<A>>
    requires mails != []
  {
    if open && |mails| - 1 <= capacity then Fitting(arrivals, capacity - (|mails| - 1)) else []
  }

  function AfterTurn<A>(mails: seq<Mail<A>>, arrivals: seq<Mail<A>>, capacity: nat, open: bool): seq<Mail<A>>
    requires mails != []
  {
    mails[1..] + AcceptedNow(mails, arrivals, capacity, open)
  }

  /** All requests accepted until the mailbox is empty; the next arrivals come while the first mail is run. */
  function AllAccepted<A>(mails: seq<Mail<A>>, arrivals: seq<seq<Mail<A>>>, capacity: nat, open: bool): seq<Mail<A>>
    decreases |arrivals|
  {
    if mails == [] || arrivals == [] then []
    else
      AcceptedNow(mails, arrivals[0], capacity, open)
      + AllAccepted(AfterTurn(mails, arrivals[0], capacity, open), arrivals[1..], capacity, open)
  }

  /** The mails that an epoch will run. */
  function Coming<A>(mails: seq<Mail<A>>, arrivals: seq<seq<Mail<A>>>, capacity: nat, open: bool): seq<Mail<A>> {
    mails + AllAccepted(mails, arrivals, capacity, open)
  }

  lemma NothingComing<A>(arrivals: seq<seq<Mail<A>>>, capacity: nat, open: bool)
    ensures Coming<A>([], arrivals, capacity, open) == []
  {
  }

  lemma {:induction false} NobodyComing<A>(mails: seq<Mail<A>>, arrivals: seq<seq<Mail<A>>>, capacity: nat)
    ensures Coming(mails, arrivals, capacity, false) == mails
    decreases |arrivals|
  {
    if mails != [] && arrivals != [] {
      NobodyComing(AfterTurn(mails, arrivals[0], capacity, false), arrivals[1..], capacity);
      assert AfterTurn(mails, arrivals[0], capacity, false) == mails[1..];
    }
  }

  /** A turn runs the first of the mails to come and leaves the others. */
  lemma ComingUnfolds<A>(mails: seq<Mail<A>>, arrivals: seq<seq<Mail<A>>>, capacity: nat, open: bool)
    requires mails != []
    ensures var here, later := if arrivals == [] then [] else arrivals[0], if arrivals == [] then [] else arrivals[1..];
            Coming(mails, arrivals, capacity, open)
            == [mails[0]] + Coming(AfterTurn(mails, here, capacity, open), later, capacity, open)
  {
    var here := if arrivals == [] then [] else arrivals[0];
    assert mails == [mails[0]] + mails[1..];
  }

  lemma CallsOfTurn<A>(job: Handlers, mails: seq<Mail<A>>, arrivals: seq<seq<Mail<A>>>, capacity: nat, open: bool,
                       calls: seq<Fired<A>>)
    requires mails != []
    ensures var here, later := if arrivals == [] then [] else arrivals[0], if arrivals == [] then [] else arrivals[1..];
            var merged := Merge(job, mails[0].handlers);
            calls + EpochCalls(job, Coming(mails, arrivals, capacity, open))
            == calls + Calls(merged, mails[0].args)
               + EpochCalls(merged, Coming(AfterTurn(mails, here, capacity, open), later, capacity, open))
  {
    ComingUnfolds(mails, arrivals, capacity, open);
    EpochCallsUnfold(job, Coming(mails, arrivals, capacity, open), calls);
  }

  /** The calls of an epoch: every mail is assigned over what the job variable holds. */
  function EpochCalls<A>(job: Handlers, mails: seq<Mail<A>>): seq<Fired<A>>
    decreases |mails|
  {
    if mails == [] then []
    else
      var merged := Merge(job, mails[0].handlers);
      Calls(merged, mails[0].args) + EpochCalls(merged, mails[1..])
  }

  function HandlersOf<A>(mails: seq<Mail<A>>): (sources: seq<Handlers>)
    ensures |sources| == |mails|
  {
    seq(|mails|, i requires 0 <= i < |mails| => mails[i].handlers)
  }

  /** What the job variable holds when the last of the mails is run. */
  function JobVariable<A>(job: Handlers, mails: seq<Mail<A>>): Handlers {
    AssignAll(job, HandlersOf(mails))
  }

  /** An epoch runs job by job: each adds, after all calls before it, those of the plain and then of the
      keyed handlers that the job variable has got by all assignments so far, with the arguments of its own mail. */
  lemma EpochRunsJobByJob<A>(job: Handlers, before: seq<Mail<A>>, mail: Mail<A>) returns (own: seq<Fired<A>>)
    ensures EpochCalls(job, before + [mail]) == EpochCalls(job, before) + own
    ensures PlainThenKeyed(own, JobVariable(job, before + [mail]), mail.args)
  {
    EpochCallsAppend(job, before, mail);
    own := Calls(JobVariable(job, before + [mail]), mail.args);
  }

  /** The last mail adds its calls after all others. */
  ghost predicate LastAdds<A>(job: Handlers, mails: seq<Mail<A>>, last: Mail<A>) {
    EpochCalls(job, mails + [last]) == EpochCalls(job, mails) + Calls(JobVariable(job, mails + [last]), last.args)
  }

  lemma {:induction false} EpochCallsAppend<A>(job: Handlers, mails: seq<Mail<A>>, last: Mail<A>)
    ensures LastAdds(job, mails, last)
    decreases |mails|
  {
    if mails == [] {
      assert [] + [last] == [last] + [];
      EpochCallsCons(job, last, []);
      JobVariableCons(job, last, []);
    } else {
      EpochCallsAppend(Merge(job, mails[0].handlers), mails[1..], last);
      LastAddsCons(job, mails[0], mails[1..], last);
      assert mails == [mails[0]] + mails[1..];
    }
  }

  lemma LastAddsCons<A>(job: Handlers, first: Mail<A>, rest: seq<Mail<A>>, last: Mail<A>)
    requires LastAdds(Merge(job, first.handlers), rest, last)
    ensures LastAdds(job, [first] + rest, last)
  {
    var merged := Merge(job, first.handlers);
    var all := [first] + (rest + [last]);
    var whole, shorter := EpochCalls(job, all), EpochCalls(job, [first] + rest);
    var own := Calls(JobVariable(job, all), last.args);
    assert JobVariable(job, all) == JobVariable(merged, rest + [last]) by {
      JobVariableCons(job, first, rest + [last]);
    }
    assert whole == Calls(merged, first.args) + EpochCalls(merged, rest + [last]) by {
      EpochCallsCons(job, first, rest + [last]);
    }
    assert shorter == Calls(merged, first.args) + EpochCalls(merged, rest) by {
      EpochCallsCons(job, first, rest);
    }
    Chain(whole, shorter, Calls(merged, first.args), EpochCalls(merged, rest), EpochCalls(merged, rest + [last]), own);
    assert ([first] + rest) + [last] == all;
  }

  lemma Chain<T>(whole: seq<T>, shorter: seq<T>, head: seq<T>, inner: seq<T>, longer: seq<T>, own: seq<T>)
    requires whole == head + longer && shorter == head + inner && longer == inner + own
    ensures whole == shorter + own
  {}

  lemma EpochCallsCons<A>(job: Handlers, first: Mail<A>, rest: seq<Mail<A>>)
    ensures var merged := Merge(job, first.handlers);
            EpochCalls(job, [first] + rest) == Calls(merged, first.args) + EpochCalls(merged, rest)
  {
    assert ([first] + rest)[1..] == rest;
  }

  lemma {:induction false} JobVariableCons<A>(job: Handlers, first: Mail<A>, rest: seq<Mail<A>>)
    ensures JobVariable(job, [first] + rest) == JobVariable(Merge(job, first.handlers), rest)
    decreases |rest|
  {
    var all := [first] + rest;
    var n := |all| - 1;
    if rest == [] {
      assert HandlersOf(all) == [first.handlers] && HandlersOf(all)[..0] == [] && HandlersOf(rest) == [];
      assert AssignAll(job, [first.handlers]) == Merge(AssignAll(job, []), first.handlers);
    } else {
      var shorter := rest[..|rest| - 1];
      JobVariableCons(job, first, shorter);
      assert HandlersOf(all)[..n] == HandlersOf([first] + shorter);
      assert HandlersOf(rest)[..n - 1] == HandlersOf(shorter);
    }
  }

  lemma EpochCallsUnfold<A>(job: Handlers, mails: seq<Mail<A>>, calls: seq<Fired<A>>)
    requires mails != []
    ensures var merged := Merge(job, mails[0].handlers);
            calls + EpochCalls(job, mails) == calls + Calls(merged, mails[0].args) + EpochCalls(merged, mails[1..])
  {
  }

  /** The calls that the mails ask for, in mailbox order. */
  function OwnCalls<A>(mails: seq<Mail<A>>): seq<Fired<A>> {
    if mails == [] then [] else Calls(mails[0].handlers, mails[0].args) + OwnCalls(mails[1..])
  }

  /** Every part of every mailed delegate is either filled or has never been filled before in this epoch. */
  ghost predicate NothingStale<A>(mails: seq<Mail<A>>) {
    forall i | 0 <= i < |mails| ::
      && (mails[i].handlers.plain == [] ==> forall k | 0 <= k < i :: mails[k].handlers.plain == [])
      && (mails[i].handlers.keyed == [] ==> forall k | 0 <= k < i :: mails[k].handlers.keyed == [])
  }

  /** The same, given what the job variable holds to begin with. */
  ghost predicate NothingStaleAfter<A>(job: Handlers, mails: seq<Mail<A>>)
    decreases |mails|
  {
    mails != [] ==>
      && Merge(job, mails[0].handlers) == mails[0].handlers
      && NothingStaleAfter(mails[0].handlers, mails[1..])
  }

  /** An epoch calls exactly what its mails ask for, no more and in mailbox order, if and only if no mail
      has an empty part that an earlier mail of the epoch filled. */
  lemma EpochCallsIff<A>(mails: seq<Mail<A>>)
    ensures EpochCalls(EMPTY, mails) == OwnCalls(mails) <==> NothingStale(mails)
  {
    CallsIffNothingStale(EMPTY, mails);
    StaleIsOrderly(EMPTY, mails);
  }

  /** Leftover handlers only ever add calls. */
  lemma {:induction false} LeftoversAddCalls<A>(job: Handlers, mails: seq<Mail<A>>)
    ensures |OwnCalls(mails)| <= |EpochCalls(job, mails)|
    decreases |mails|
  {
    if mails != [] {
      LeftoversAddCalls(Merge(job, mails[0].handlers), mails[1..]);
    }
  }

  lemma {:induction false} CallsIffNothingStale<A>(job: Handlers, mails: seq<Mail<A>>)
    ensures EpochCalls(job, mails) == OwnCalls(mails) <==> NothingStaleAfter(job, mails)
    decreases |mails|
  {
    if mails != [] {
      var own, args := mails[0].handlers, mails[0].args;
      var merged := Merge(job, own);
      LeftoversAddCalls(merged, mails[1..]);
      if merged == own {
        CallsIffNothingStale(merged, mails[1..]);
        assert EpochCalls(job, mails)[|Calls(own, args)|..] == EpochCalls(own, mails[1..]);
        assert OwnCalls(mails)[|Calls(own, args)|..] == OwnCalls(mails[1..]);
      } else {
        assert |Calls(own, args)| < |Calls(merged, args)|;
      }
    }
  }

  lemma {:induction false} StaleIsOrderly<A>(job: Handlers, mails: seq<Mail<A>>)
    ensures NothingStaleAfter(job, mails)
       <==> NothingStale(mails)
            && (job.plain != [] ==> forall i | 0 <= i < |mails| :: mails[i].handlers.plain != [])
            && (job.keyed != [] ==> forall i | 0 <= i < |mails| :: mails[i].handlers.keyed != [])
    decreases |mails|
  {
    if mails != [] {
      StaleIsOrderly(mails[0].handlers, mails[1..]);
      assert forall i | 0 <= i < |mails| - 1 :: mails[1..][i] == mails[i + 1];
      assert forall i | 0 < i < |mails| :: mails[i] == mails[1..][i - 1];
    }
  }

  /** The usual case: plain handlers in every mail and keyed ones in none. */
  lemma PlainMailsRunInOrder<A>(mails: seq<Mail<A>>)
    requires forall i | 0 <= i < |mails| :: mails[i].handlers.plain != [] && mails[i].handlers.keyed == []
    ensures EpochCalls(EMPTY, mails) == OwnCalls(mails)
  {
    EpochCallsIff(mails);
  }

  /** A mail without handlers runs the handlers of the mail before it. */
  lemma EmptyMailRepeatsHandlers(h: Handler, x: int, y: int)
    ensures var mails := [Mail(Handlers([h], []), x), Mail(EMPTY, y)];
            EpochCalls(EMPTY, mails) == [Fired(h, x), Fired(h, y)] && OwnCalls(mails) == [Fired(h, x)]
  {
    var first, second := Mail(Handlers([h], []), x), Mail(EMPTY, y);
    var mails := [first, second];
    assert mails[1..] == [second];
    assert EpochCalls(first.handlers, [second]) == Calls(first.handlers, y) == [Fired(h, y)];
    assert EpochCalls(EMPTY, mails) == Calls(first.handlers, x) + EpochCalls(first.handlers, [second]);
    assert Calls(first.handlers, x) == [Fired(h, x)];
    assert [second][1..] == [];
    assert OwnCalls([second]) == Calls(EMPTY, y) + OwnCalls<int>([]) == [];
    assert OwnCalls(mails) == Calls(first.handlers, x) + OwnCalls([second]);
  }
}
