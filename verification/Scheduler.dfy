/** The ticket counter and round robin of vee/scheduler.h. */
module RoundRobin {
  import opened ModArithmetic

  const INT_MIN: int := -0x8000_0000
  const INT_LIMIT: int := 0x8000_0000

  /** The remainder that truncates towards zero. */
  function Remainder(a: int, n: int): (r: int)
    requires 0 < n
    ensures -n < r < n
  {
    if 0 <= a then a % n else -((-a) % n)
  }

  /** The ticket after this one; past the largest it wraps around to the smallest. */
  function NextTicket(ticket: int): (next: int)
    requires INT_MIN <= ticket < INT_LIMIT
    ensures INT_MIN <= next < INT_LIMIT
  {
    if ticket + 1 < INT_LIMIT then ticket + 1 else INT_MIN
  }

  /** How many of the next k draws, the counter being at the given ticket, choose actor a out of n. */
  function Draws(ticket: int, k: nat, n: nat, a: nat): nat
    requires INT_MIN <= ticket < INT_LIMIT && a < n
    decreases k
  {
    if k == 0 then 0
    else (if Remainder(ticket, n) == a then 1 else 0) + Draws(NextTicket(ticket), k - 1, n, a)
  }

  /** The ticket that the counter shows after e draws. */
  function After(ticket: int, e: nat): (later: int)
    requires INT_MIN <= ticket < INT_LIMIT
    ensures INT_MIN <= later < INT_LIMIT
  {
    if e == 0 then ticket else NextTicket(After(ticket, e - 1))
  }

  /** What draw e comes to: an actor, or a negative number. */
  function Draw(ticket: int, e: nat, n: nat): int
    requires INT_MIN <= ticket < INT_LIMIT && 0 < n
  {
    Remainder(After(ticket, e), n)
  }

  /** Later draws are the draws from a later ticket. */
  lemma {:induction false} AfterNext(ticket: int, e: nat)
    requires INT_MIN <= ticket < INT_LIMIT
    ensures After(ticket, e + 1) == After(NextTicket(ticket), e)
  {
    if 0 < e {
      AfterNext(ticket, e - 1);
    }
  }

  lemma {:induction false} AfterShort(ticket: int, e: nat)
    requires INT_MIN <= ticket && ticket + e < INT_LIMIT
    ensures After(ticket, e) == ticket + e
  {
    if 0 < e {
      AfterShort(ticket, e - 1);
    }
  }

  /** How many of the k tickets from the given one, none of them wrapped around, choose actor a out of n. */
  function Chosen(ticket: nat, k: nat, n: nat, a: nat): nat
    requires a < n
    decreases k
  {
    if k == 0 then 0
    else (if Remainder(ticket, n) == a then 1 else 0) + Chosen(ticket + 1, k - 1, n, a)
  }

  lemma {:induction false} ChosenSplit(ticket: nat, j: nat, k: nat, n: nat, a: nat)
    requires a < n
    ensures Chosen(ticket, j + k, n, a) == Chosen(ticket, j, n, a) + Chosen(ticket + j, k, n, a)
    decreases j
  {
    if 0 < j {
      ChosenSplit(ticket + 1, j - 1, k, n, a);
    }
  }

  /** How far actor a is ahead of the given ticket. */
  function Ahead(ticket: nat, n: nat, a: nat): (d: nat)
    requires a < n
    ensures d < n
  {
    var r := ticket % n;
    if r <= a then a - r else a + n - r
  }

  /** Fewer than n consecutive tickets choose an actor once if it is near enough, and else not at all. */
  lemma {:induction false} ChosenInTurn(ticket: nat, k: nat, n: nat, a: nat)
    requires a < n && k <= n
    ensures Chosen(ticket, k, n, a) == if Ahead(ticket, n, a) < k then 1 else 0
    decreases k
  {
    if 0 < k {
      ChosenInTurn(ticket + 1, k - 1, n, a);
      NextRemainder(ticket, n);
    }
  }

  lemma NextRemainder(ticket: nat, n: nat)
    requires 0 < n
    ensures (ticket + 1) % n == if ticket % n + 1 == n then 0 else ticket % n + 1
  {
    var q, r := ticket / n, ticket % n;
    if r + 1 == n {
      assert n * (q + 1) == n * q + n;
      DivModUnique(ticket + 1, n, q + 1, 0);
    } else {
      DivModUnique(ticket + 1, n, q, r + 1);
    }
  }

  lemma {:induction false} DrawsAreChosen(ticket: nat, k: nat, n: nat, a: nat)
    requires ticket < INT_LIMIT && ticket + k <= INT_LIMIT && a < n
    ensures Draws(ticket, k, n, a) == Chosen(ticket, k, n, a)
    decreases k
  {
    if 1 < k {
      DrawsAreChosen(ticket + 1, k - 1, n, a);
    }
  }

  /** Any n consecutive draws short of the wrap-around visit every actor once. */
  lemma EveryActorOnce(ticket: nat, n: nat, a: nat)
    requires ticket < INT_LIMIT && ticket + n <= INT_LIMIT && a < n
    ensures Draws(ticket, n, n, a) == 1
  {
    DrawsAreChosen(ticket, n, n, a);
    ChosenInTurn(ticket, n, n, a);
  }

  lemma OneMoreRound(rounds: nat, n: nat)
    requires 0 < rounds
    ensures rounds * n == n + (rounds - 1) * n
  {}

  lemma {:induction false} FullRounds(ticket: nat, rounds: nat, n: nat, a: nat)
    requires a < n
    ensures Chosen(ticket, rounds * n, n, a) == rounds
    decreases rounds
  {
    if 0 < rounds {
      ChosenInTurn(ticket, n, n, a);
      FullRounds(ticket + n, rounds - 1, n, a);
      OneMoreRound(rounds, n);
      ChosenSplit(ticket, n, (rounds - 1) * n, n, a);
    }
  }

  /** Balance: of any k consecutive draws short of the wrap-around each actor gets k / n, rounded down
      or up; rounded up exactly when it is among the next k % n actors. */
  lemma Balanced(ticket: nat, k: nat, n: nat, a: nat)
    requires ticket < INT_LIMIT && ticket + k <= INT_LIMIT && a < n
    ensures Draws(ticket, k, n, a) == k / n + if Ahead(ticket, n, a) < k % n then 1 else 0
  {
    DrawsAreChosen(ticket, k, n, a);
    var rounds, rest := Divide(k, n);
    BalancedRounds(ticket, k, rounds, rest, n, a);
  }

  lemma Divide(k: nat, n: nat) returns (rounds: nat, rest: nat)
    requires 0 < n
    ensures rounds == k / n && rest == k % n && rest < n && k == rounds * n + rest
  {
    rounds, rest := k / n, k % n;
  }

  lemma BalancedRounds(ticket: nat, k: nat, rounds: nat, rest: nat, n: nat, a: nat)
    requires a < n && rest < n && k == rounds * n + rest
    ensures Chosen(ticket, k, n, a) == rounds + if Ahead(ticket, n, a) < rest then 1 else 0
  {
    var whole := rounds * n;
    FullRounds(ticket, rounds, n, a);
    ChosenSplit(ticket, whole, rest, n, a);
    ChosenInTurn(ticket + whole, rest, n, a);
    SameRemainder(ticket, rounds, n);
  }

  lemma {:induction false} SameRemainder(ticket: nat, rounds: nat, n: nat)
    requires 0 < n
    ensures (ticket + rounds * n) % n == ticket % n
    decreases rounds
  {
    if 0 < rounds {
      SameRemainder(ticket, rounds - 1, n);
      assert rounds * n == (rounds - 1) * n + n;
      ModAddOnce(ticket + (rounds - 1) * n, n);
    }
  }
}

/** The scheduler of vee/scheduler.h, one request at a time: actors take turns, and an actor that
    turns the job down passes it on to the next ticket. */
module Schedulers {
  import opened RoundRobin
  import opened ModArithmetic
  import opened Delegates
  import opened ActorEpoch

  /** The counter that all schedulers of one kind share. */
  class Tickets {
    var next: int

    ghost predicate Valid()
      reads this
    {
      INT_MIN <= next < INT_LIMIT
    }

    constructor ()
      ensures Valid() && next == 0
    {
      next := 0;
    }
  }

  // ---- Where the loop ends ----

  /** Draw d ends the loop: there is no actor, the draw is negative, or its actor takes the job. */
  ghost predicate EndsAt(takes: seq<bool>, ticket: int, d: nat)
    requires INT_MIN <= ticket < INT_LIMIT
  {
    takes == [] || Draw(ticket, d, |takes|) < 0 || takes[Draw(ticket, d, |takes|)]
  }

  /** Draw d is the first to end the loop. */
  ghost predicate FirstEnd(takes: seq<bool>, ticket: int, d: nat)
    requires INT_MIN <= ticket < INT_LIMIT
  {
    EndsAt(takes, ticket, d) && forall e: nat | e < d :: !EndsAt(takes, ticket, e)
  }

  /** Draw d and all before it come to an actor, and that of draw d takes the job. */
  ghost predicate Reaches(takes: seq<bool>, ticket: int, d: nat)
    requires INT_MIN <= ticket < INT_LIMIT && takes != []
  {
    && (forall e: nat | e <= d :: 0 <= Draw(ticket, e, |takes|))
    && takes[Draw(ticket, d, |takes|)]
  }

  ghost predicate ReachesSome(takes: seq<bool>, ticket: int)
    requires INT_MIN <= ticket < INT_LIMIT && takes != []
  {
    exists d: nat :: Reaches(takes, ticket, d)
  }

  /** Bounds the attempts before the ticket is negative and the request is given up. */
  ghost function Patience(ticket: int, n: nat): nat
    requires 0 < n && ticket < INT_LIMIT
  {
    if 0 <= ticket then INT_LIMIT - ticket + 2
    else if Remainder(ticket, n) == 0 then 2
    else 1
  }

  /** Two multiples of the number of actors never follow each other below zero. */
  lemma NextIsNegative(ticket: int, n: nat)
    requires 2 <= n && INT_MIN <= ticket < 0 && 0 <= Remainder(ticket, n)
    ensures ticket < -1 && Remainder(ticket, n) == 0 && Remainder(ticket + 1, n) < 0
  {
    var m := -ticket;
    assert m % n == 0;
    assert m != 1 by {
      ModSmall(1, n);
    }
    assert n * (m / n) == m && n * (m / n - 1) == n * (m / n) - n;
    DivModUnique(m - 1, n, m / n - 1, n - 1);
  }

  lemma PatienceWears(ticket: int, n: nat)
    requires 2 <= n && INT_MIN <= ticket < INT_LIMIT && 0 <= Remainder(ticket, n)
    ensures Patience(NextTicket(ticket), n) < Patience(ticket, n)
  {
    if ticket < 0 {
      NextIsNegative(ticket, n);
    }
  }

  /** With a single actor no draw is ever negative. */
  lemma LoneActorAlwaysDrawn(ticket: int, e: nat)
    requires INT_MIN <= ticket < INT_LIMIT
    ensures Draw(ticket, e, 1) == 0
  {
  }

  lemma {:induction false} LoopEnds(takes: seq<bool>, ticket: int) returns (d: nat)
    requires INT_MIN <= ticket < INT_LIMIT && takes != [false]
    ensures EndsAt(takes, ticket, d)
    decreases if |takes| < 2 then 0 else Patience(ticket, |takes|)
  {
    if |takes| == 1 {
      LoneActorAlwaysDrawn(ticket, 0);
    }
    d := 0;
    if !EndsAt(takes, ticket, 0) {
      PatienceWears(ticket, |takes|);
      d := LoopEnds(takes, NextTicket(ticket));
      AfterNext(ticket, d);
      d := d + 1;
    }
  }

  /** The loop ends, whatever the ticket, unless there is a single actor and it turns the job down:
      that one is asked for ever. */
  lemma LoopEndsIff(takes: seq<bool>, ticket: int)
    requires INT_MIN <= ticket < INT_LIMIT
    ensures (exists d: nat :: EndsAt(takes, ticket, d)) <==> takes != [false]
  {
    if takes == [false] {
      forall d: nat ensures !EndsAt(takes, ticket, d) {
        LoneActorAlwaysDrawn(ticket, d);
      }
    } else {
      var d := LoopEnds(takes, ticket);
    }
  }

  /** The first end of the loop decides: the job is placed exactly when it can be reached at all. */
  lemma FirstEndDecides(takes: seq<bool>, ticket: int, d: nat)
    requires INT_MIN <= ticket < INT_LIMIT && FirstEnd(takes, ticket, d)
    ensures takes != [] && 0 <= Draw(ticket, d, |takes|) <==> takes != [] && ReachesSome(takes, ticket)
  {
    if takes != [] {
      if 0 <= Draw(ticket, d, |takes|) {
        forall e: nat | e <= d ensures 0 <= Draw(ticket, e, |takes|) {
          assert e < d ==> !EndsAt(takes, ticket, e);
        }
        assert Reaches(takes, ticket, d);
      } else if e: nat :| Reaches(takes, ticket, e) {
        assert EndsAt(takes, ticket, e);
      }
    }
  }

  // ---- The outcome, told from the ticket and the actors ----

  /** Some ticket from the given one up to the largest chooses an actor that takes the job. */
  ghost predicate TakenBeforeWrap(takes: seq<bool>, ticket: nat)
    requires takes != []
  {
    exists later: nat :: ticket <= later < INT_LIMIT && takes[later % |takes|]
  }

  /** When a job is placed. Below zero only a multiple of the number of actors chooses anybody. */
  ghost predicate Placeable(takes: seq<bool>, ticket: int)
    requires INT_MIN <= ticket < INT_LIMIT
  {
    && takes != []
    && (|takes| == 1 ==> takes[0])
    && (|takes| >= 2 && ticket < 0 ==> Remainder(ticket, |takes|) == 0 && takes[0])
    && (|takes| >= 2 && 0 <= ticket ==>
          TakenBeforeWrap(takes, ticket) || (Remainder(INT_MIN, |takes|) == 0 && takes[0]))
  }

  /** The job can be reached at this draw, or, when this one comes to an actor, from the next ticket. */
  lemma ReachesUnfolds(takes: seq<bool>, ticket: int)
    requires INT_MIN <= ticket < INT_LIMIT && takes != []
    ensures ReachesSome(takes, ticket)
       <==> 0 <= Remainder(ticket, |takes|)
            && (takes[Remainder(ticket, |takes|)] || ReachesSome(takes, NextTicket(ticket)))
  {
    var n := |takes|;
    assert Draw(ticket, 0, n) == Remainder(ticket, n);
    if 0 <= Remainder(ticket, n) {
      if takes[Remainder(ticket, n)] {
        assert Reaches(takes, ticket, 0);
      } else if d: nat :| Reaches(takes, ticket, d) {
        ReachesLater(takes, ticket, d);
      } else if d: nat :| Reaches(takes, NextTicket(ticket), d) {
        ReachesEarlier(takes, ticket, d);
      }
    }
  }

  lemma ReachesLater(takes: seq<bool>, ticket: int, d: nat)
    requires INT_MIN <= ticket < INT_LIMIT && takes != [] && Reaches(takes, ticket, d)
    requires 0 <= Remainder(ticket, |takes|) && !takes[Remainder(ticket, |takes|)]
    ensures 0 < d && Reaches(takes, NextTicket(ticket), d - 1)
  {
    assert Draw(ticket, 0, |takes|) == Remainder(ticket, |takes|);
    forall e: nat | e <= d - 1 ensures 0 <= Draw(NextTicket(ticket), e, |takes|) {
      AfterNext(ticket, e);
      assert 0 <= Draw(ticket, e + 1, |takes|);
    }
    AfterNext(ticket, d - 1);
  }

  lemma ReachesEarlier(takes: seq<bool>, ticket: int, d: nat)
    requires INT_MIN <= ticket < INT_LIMIT && takes != [] && Reaches(takes, NextTicket(ticket), d)
    requires 0 <= Remainder(ticket, |takes|)
    ensures Reaches(takes, ticket, d + 1)
  {
    forall e: nat | e <= d + 1 ensures 0 <= Draw(ticket, e, |takes|) {
      if 0 < e {
        AfterNext(ticket, e - 1);
        assert 0 <= Draw(NextTicket(ticket), e - 1, |takes|);
      }
    }
    AfterNext(ticket, d);
  }

  /** The draws reach an actor that takes the job if and only if ticket and actors allow it. */
  lemma ReachesIffPlaceable(takes: seq<bool>, ticket: int)
    requires INT_MIN <= ticket < INT_LIMIT
    ensures (takes != [] && ReachesSome(takes, ticket)) <==> Placeable(takes, ticket)
  {
    if |takes| == 1 {
      LoneActorReached(takes, ticket);
    } else if |takes| >= 2 {
      if ticket < 0 {
        NegativeReaches(takes, ticket);
      } else {
        PositiveReaches(takes, ticket);
      }
    }
  }

  lemma LoneActorReached(takes: seq<bool>, ticket: int)
    requires INT_MIN <= ticket < INT_LIMIT && |takes| == 1
    ensures ReachesSome(takes, ticket) <==> takes[0]
  {
    if takes[0] {
      LoneActorAlwaysDrawn(ticket, 0);
      assert Reaches(takes, ticket, 0);
    } else if d: nat :| Reaches(takes, ticket, d) {
      LoneActorAlwaysDrawn(ticket, d);
    }
  }

  lemma NegativeReaches(takes: seq<bool>, ticket: int)
    requires INT_MIN <= ticket < 0 && 2 <= |takes|
    ensures ReachesSome(takes, ticket) <==> Remainder(ticket, |takes|) == 0 && takes[0]
  {
    ReachesUnfolds(takes, ticket);
    if 0 <= Remainder(ticket, |takes|) {
      NextIsNegative(ticket, |takes|);
      ReachesUnfolds(takes, ticket + 1);
    }
  }

  lemma {:induction false} PositiveReaches(takes: seq<bool>, ticket: nat)
    requires ticket < INT_LIMIT && 2 <= |takes|
    ensures ReachesSome(takes, ticket)
       <==> TakenBeforeWrap(takes, ticket) || (Remainder(INT_MIN, |takes|) == 0 && takes[0])
    decreases INT_LIMIT - ticket
  {
    ReachesUnfolds(takes, ticket);
    TakenUnfolds(takes, ticket);
    if ticket + 1 < INT_LIMIT {
      PositiveReaches(takes, ticket + 1);
    } else {
      NegativeReaches(takes, INT_MIN);
    }
  }

  lemma TakenUnfolds(takes: seq<bool>, ticket: nat)
    requires ticket < INT_LIMIT && takes != []
    ensures TakenBeforeWrap(takes, ticket) <==> takes[ticket % |takes|] || TakenBeforeWrap(takes, ticket + 1)
  {
  }

  /** A ticket that lasts for one round finds the first actor in turn that takes the job within that round. */
  lemma LastingTicketFinds(takes: seq<bool>, ticket: nat, a: nat) returns (d: nat)
    requires ticket + |takes| <= INT_LIMIT && a < |takes| && takes[a]
    ensures d < |takes| && FirstEnd(takes, ticket, d) && Draw(ticket, d, |takes|) == (ticket + d) % |takes|
    ensures After(ticket, d) == ticket + d && takes[(ticket + d) % |takes|]
  {
    var far := Ahead(ticket, |takes|, a);
    AheadArrives(ticket, |takes|, a);
    AfterShort(ticket, 0);
    d := 0;
    while !takes[(ticket + d) % |takes|]
      invariant d <= far
      invariant After(ticket, d) == ticket + d
      invariant forall e: nat | e < d :: !EndsAt(takes, ticket, e)
      decreases far - d
    {
      assert Draw(ticket, d, |takes|) == (ticket + d) % |takes|;
      d := d + 1;
      AfterShort(ticket, d);
    }
  }

  lemma AheadArrives(ticket: nat, n: nat, a: nat)
    requires a < n
    ensures (ticket + Ahead(ticket, n, a)) % n == a
  {
    var q, r := ticket / n, ticket % n;
    if r <= a {
      DivModUnique(ticket + (a - r), n, q, a);
    } else {
      assert n * (q + 1) == n * q + n;
      DivModUnique(ticket + (a + n - r), n, q + 1, a);
    }
  }

  class Scheduler<A(0)> {
    const tickets: Tickets
    const actors: seq<Actor<A>>
    ghost const footprint: set<object>   // everything that belongs to the actors

    ghost predicate Valid()
      reads this, tickets, footprint
    {
      && tickets.Valid() && tickets !in footprint && |actors| < INT_LIMIT
      && (forall i | 0 <= i < |actors| :: actors[i].Repr() <= footprint)
      && (forall i | 0 <= i < |actors| :: actors[i].Valid())
      && (forall i, j | 0 <= i < |actors| && 0 <= j < |actors| && i != j :: actors[i].Repr() !! actors[j].Repr())
    }

    /** Which actors would take a job now. */
    ghost function Takes(): (takes: seq<bool>)
      requires Valid()
      reads this, tickets, footprint
      ensures |takes| == |actors|
    {
      seq(|actors|, i requires Valid() && 0 <= i < |actors| reads this, tickets, footprint => actors[i].Accepts())
    }

    ghost function Mailboxes(): (mailboxes: seq<seq<Mail<A>>>)
      requires Valid()
      reads this, tickets, footprint
      ensures |mailboxes| == |actors|
    {
      seq(|actors|, i requires Valid() && 0 <= i < |actors| reads this, tickets, footprint => actors[i].Mails())
    }

    constructor (tickets: Tickets, actors: seq<Actor<A>>, ghost footprint: set<object>)
      requires tickets.Valid() && tickets !in footprint && |actors| < INT_LIMIT
      requires forall i | 0 <= i < |actors| :: actors[i].Valid() && actors[i].Repr() <= footprint
      requires forall i, j | 0 <= i < |actors| && 0 <= j < |actors| && i != j :: actors[i].Repr() !! actors[j].Repr()
      ensures Valid() && this.tickets == tickets && this.actors == actors
    {
      this.tickets := tickets;
      this.actors := actors;
      this.footprint := footprint;
    }

    /** Draws a ticket. The index is negative when there are no actors, and when the ticket is negative
        and no multiple of their number. */
    method NextIndex() returns (index: int)
      requires Valid()
      modifies tickets
      ensures Valid() && tickets.next == NextTicket(old(tickets.next))
      ensures index == if actors == [] then -1 else Remainder(old(tickets.next), |actors|)
      ensures Takes() == old(Takes()) && Mailboxes() == old(Mailboxes())
    {
      index := tickets.next;
      tickets.next := NextTicket(tickets.next);
      if |actors| == 0 {
        return -1;
      }
      index := Remainder(index, |actors|);
    }

    /** Offers a job to one actor. */
    method Offer(a: nat, mail: Mail<A>) returns (taken: bool)
      requires Valid() && a < |actors| && Ascending(mail.handlers.keyed)
      modifies actors[a].Repr()
      ensures Valid() && taken == old(Takes())[a]
      ensures !taken ==> Takes() == old(Takes())
      ensures Mailboxes() == if taken then Grown(old(Mailboxes()), a, mail) else old(Mailboxes())
    {
      var result := actors[a].Request(mail);
      taken := result >= 0;
    }

    /** One turn of the loop: draws a ticket and offers the job to the actor it chooses. */
    method Turn(mail: Mail<A>) returns (index: int, taken: bool)
      requires Valid() && Ascending(mail.handlers.keyed)
      modifies tickets, footprint
      ensures Valid() && tickets.next == NextTicket(old(tickets.next))
      ensures index == if actors == [] then -1 else Remainder(old(tickets.next), |actors|)
      ensures taken == (0 <= index && old(Takes())[index])
      ensures !taken ==> Takes() == old(Takes())
      ensures Mailboxes() == if taken then Grown(old(Mailboxes()), index, mail) else old(Mailboxes())
    {
      index := NextIndex();
      taken := false;
      if 0 <= index {
        taken := Offer(index, mail);
      }
    }

    /** Places a job. The draws go on until one is negative or its actor takes the job, which then is at
        the end of that actor's mailbox and nowhere else. Whether it gets that far is known beforehand
        from the ticket and the actors. The loop has an end unless a single actor turns the job down. */
    method Request(mail: Mail<A>) returns (placed: bool, ghost d: nat)
      requires Valid() && Ascending(mail.handlers.keyed)
      requires Takes() != [false]
      modifies tickets, footprint
      ensures Valid()
      ensures FirstEnd(old(Takes()), old(tickets.next), d) && tickets.next == After(old(tickets.next), d + 1)
      ensures placed <==> actors != [] && ReachesSome(old(Takes()), old(tickets.next))
      ensures placed <==> Placeable(old(Takes()), old(tickets.next))
      ensures placed ==> 0 <= Draw(old(tickets.next), d, |actors|)
      ensures Mailboxes() == if placed then Grown(old(Mailboxes()), Draw(old(tickets.next), d, |actors|), mail)
                             else old(Mailboxes())
    {
      ghost var start, takes := tickets.next, Takes();
      d := 0;
      while true
        invariant Valid() && Takes() == takes && Mailboxes() == old(Mailboxes())
        invariant tickets.next == After(start, d)
        invariant forall e: nat | e < d :: !EndsAt(takes, start, e)
        decreases if |actors| < 2 then 0 else Patience(tickets.next, |actors|)
      {
        ghost var ticket := tickets.next;
        var i, taken := Turn(mail);
        if i < 0 {
          FirstEndDecides(takes, start, d);
          ReachesIffPlaceable(takes, start);
          return false, d;
        }
        if taken {
          break;
        }
        PatienceWears(ticket, |actors|);
        d := d + 1;
      }
      placed := true;
      FirstEndDecides(takes, start, d);
      ReachesIffPlaceable(takes, start);
    }
  }

  /** One mailbox has got one more mail. */
  ghost function Grown<A>(mailboxes: seq<seq<Mail<A>>>, a: nat, mail: Mail<A>): seq<seq<Mail<A>>>
    requires a < |mailboxes|
  {
    mailboxes[a := mailboxes[a] + [mail]]
  }
}
