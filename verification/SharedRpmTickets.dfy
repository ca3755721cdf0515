/** The shared limiter as its callers may think of it: when each ticket was last stamped, and who waits. Nothing is
    evicted, nothing is kept in order; the deque with its eviction gives the same answers. */
module SharedRpmTickets {
  import opened Lists
  import opened SlidingWindow
  import opened SharedRpmLimiter

  /** `current` has each ticket that was granted and not released since, with the time at which it was granted or
      last claimed. */
  datatype Tickets = Tickets(current: map<nat, real>, waiting: seq<nat>, next: nat)

  /** The tickets whose current stamp is not a minute old. */
  function Counted(current: map<nat, real>, now: real): set<nat> {
    set k | k in current && current[k] > now - WINDOW
  }

  predicate Room(m: Tickets, limit: nat, now: real) {
    |Counted(m.current, now)| < limit
  }

  function After(m: Tickets, limit: nat, e: Event): Tickets {
    var Event(now, action) := e;
    match action
    case TryReserve =>
      if m.waiting == [] && Room(m, limit, now) then Tickets(m.current[m.next := now], m.waiting, m.next + 1)
      else m.(next := m.next + 1)
    case Release(ticket) => m.(current := map k | k in m.current && k != ticket :: m.current[k])
    case Claim(ticket) => if ticket in Counted(m.current, now) then m.(current := m.current[ticket := now]) else m
    case AvailableAfter => m
    case Join => m.(waiting := m.waiting + [m.next], next := m.next + 1)
    case Poll(ticket) =>
      if m.waiting != [] && m.waiting[0] == ticket && Room(m, limit, now)
      then m.(current := m.current[ticket := now], waiting := m.waiting[1..]) else m
    case Leave(ticket) => m.(waiting := Kept(k => k != ticket, m.waiting))
  }

  /** From the events alone: nobody has a ticket to begin with. */
  function AfterAll(m: Tickets, limit: nat, events: seq<Event>): Tickets
    decreases |events|
  {
    if events == [] then m else AfterAll(After(m, limit, events[0]), limit, events[1..])
  }

  function Current(limit: nat, events: seq<Event>): Tickets {
    AfterAll(Tickets(map[], [], 0), limit, events)
  }

  // ---- the deque agrees

  /** The entries of the deque are current stamps. */
  ghost predicate StampsCurrent(stamps: seq<Entry>, ledger: map<nat, real>) {
    forall i :: 0 <= i < |stamps| ==> stamps[i].ticket in ledger && ledger[stamps[i].ticket] == stamps[i].stamp
  }

  ghost predicate Agrees(s: Shared, m: Tickets) {
    m == Tickets(s.ledger, s.waiters, s.next) && StampsCurrent(s.stamps, s.ledger)
  }

  /** What is left after an eviction. */
  lemma EvictKeeps(s: Shared, limit: nat, before: real, now: real)
    requires Within(s, limit, before) && before <= now
    ensures var t := Evict(s, now);
            && Within(t, limit, now) && t.waiters == s.waiters && t.next == s.next && t.ledger == s.ledger
            && (forall i :: 0 <= i < |t.stamps| ==> t.stamps[i].stamp > now - WINDOW && t.stamps[i] in s.stamps)
            && AllUpTo(Times(t.past), now - WINDOW)
  {
    LaterOk(s, limit, before, now);
    var n := Aged(Times(s.stamps), now - WINDOW);
    forall i | 0 <= i < |s.stamps| - n ensures s.stamps[n..][i].stamp > now - WINDOW {
      StampsSorted(s, limit, before, n, n + i);
    }
  }

  lemma StampsSorted(s: Shared, limit: nat, now: real, i: nat, j: nat)
    requires LogOk(s, limit, now) && i <= j < |s.stamps|
    ensures Times(s.stamps)[i] <= Times(s.stamps)[j]
  {
    assert Times(Log(s))[|s.past| + i] == s.stamps[i].stamp && Times(Log(s))[|s.past| + j] == s.stamps[j].stamp;
  }

  lemma CurrentInDeque(s: Shared, limit: nat, now: real, k: nat)
    requires SharedOk(s, limit, now) && k in s.ledger && s.ledger[k] > now - WINDOW
    ensures Entry(s.ledger[k], k) in s.stamps && k in TicketsOf(s.stamps)
  {
    var e := Entry(s.ledger[k], k);
    assert e in Log(s);
    forall i | 0 <= i < |s.past| ensures s.past[i] != e { assert Times(s.past)[i] == s.past[i].stamp; }
    var i :| 0 <= i < |s.stamps| && s.stamps[i] == e;
    assert TicketsOf(s.stamps)[i] == k;
  }

  lemma TicketsApart(s: Shared)
    requires TicketsOk(s)
    ensures NoDup(TicketsOf(s.stamps))
  {
    var tickets := TicketsOf(s.stamps);
    forall i, j | 0 <= i < j < |tickets| ensures tickets[i] != tickets[j] {
      assert Log(s)[|s.past| + i] == s.stamps[i] && Log(s)[|s.past| + j] == s.stamps[j];
    }
  }

  lemma DequeCounted(t: Shared, limit: nat, now: real)
    requires SharedOk(t, limit, now) && StampsCurrent(t.stamps, t.ledger)
    requires forall i :: 0 <= i < |t.stamps| ==> t.stamps[i].stamp > now - WINDOW
    ensures |t.stamps| == |Counted(t.ledger, now)|
    ensures forall k :: k in TicketsOf(t.stamps) <==> k in Counted(t.ledger, now)
  {
    var tickets, counted := TicketsOf(t.stamps), Counted(t.ledger, now);
    forall k | k in counted ensures k in tickets { CurrentInDeque(t, limit, now, k); }
    forall k | k in tickets ensures k in counted {
      var i :| 0 <= i < |tickets| && tickets[i] == k;
      assert t.stamps[i].ticket == k;
    }
    TicketsApart(t);
    NoDupSize(tickets, counted);
  }

  lemma SomeStampsCurrent(stamps: seq<Entry>, some: seq<Entry>, ledger: map<nat, real>)
    requires StampsCurrent(stamps, ledger) && forall i :: 0 <= i < |some| ==> some[i] in stamps
    ensures StampsCurrent(some, ledger)
  {
    forall i | 0 <= i < |some| ensures some[i].ticket in ledger && ledger[some[i].ticket] == some[i].stamp {
      assert some[i] in stamps;
    }
  }

  /** The deque holds exactly the tickets whose current stamp is not a minute old. */
  lemma CountsAgree(s: Shared, m: Tickets, limit: nat, before: real, now: real)
    requires Within(s, limit, before) && before <= now && Agrees(s, m)
    ensures var t := Evict(s, now);
            && Within(t, limit, now) && Agrees(t, m) && |t.stamps| == |Counted(m.current, now)|
            && forall k :: k in TicketsOf(t.stamps) <==> k in Counted(m.current, now)
  {
    var t := Evict(s, now);
    EvictKeeps(s, limit, before, now);
    SomeStampsCurrent(s.stamps, t.stamps, s.ledger);
    DequeCounted(t, limit, now);
  }

  lemma StampAgrees(s: Shared, ticket: nat, now: real)
    requires StampsCurrent(s.stamps, s.ledger) && ticket !in TicketsOf(s.stamps)
    ensures StampsCurrent(Stamp(s, ticket, now).stamps, Stamp(s, ticket, now).ledger)
  {
    forall i | 0 <= i < |s.stamps| ensures s.stamps[i].ticket != ticket { assert TicketsOf(s.stamps)[i] == s.stamps[i].ticket; }
  }

  lemma DropAgrees(stamps: seq<Entry>, ledger: map<nat, real>, ticket: nat)
    requires StampsCurrent(stamps, ledger) && NoDup(TicketsOf(stamps))
    ensures StampsCurrent(Drop(stamps, ticket), ledger - {ticket}) && ticket !in TicketsOf(Drop(stamps, ticket))
  {
    var i, rest, tickets := IndexOf(stamps, ticket), Drop(stamps, ticket), TicketsOf(stamps);
    forall j | 0 <= j < |rest| ensures rest[j] in stamps && rest[j].ticket != ticket {
      if i < |stamps| {
        var k := if j < i then j else j + 1;
        assert rest[j] == stamps[k];
        if k > i { assert tickets[i] != tickets[k]; }
      }
    }
  }

  lemma {:induction false} LeaveAgrees(waiters: seq<nat>, ticket: nat)
    requires Rising(waiters)
    ensures RemoveWaiter(waiters, ticket) == Kept(k => k != ticket, waiters)
  {
    if waiters != [] {
      RisingRest(waiters);
      if waiters[0] == ticket {
        AllKept(waiters[1..], ticket);
      } else {
        LeaveAgrees(waiters[1..], ticket);
      }
    }
  }

  lemma {:induction false} AllKept(waiters: seq<nat>, ticket: nat)
    requires ticket !in waiters
    ensures Kept(k => k != ticket, waiters) == waiters
  {
    if waiters != [] { AllKept(waiters[1..], ticket); }
  }

  lemma NewTicket(s: Shared)
    requires TicketsOk(s)
    ensures s.next !in TicketsOf(s.stamps) && forall k :: k in s.waiters ==> k !in TicketsOf(s.stamps)
  {
    var tickets := TicketsOf(s.stamps);
    forall i | 0 <= i < |tickets| ensures tickets[i] < s.next && tickets[i] !in s.waiters {
      assert Log(s)[|s.past| + i] == s.stamps[i];
    }
  }

  lemma GivenAgrees(t: Shared, now: real)
    requires TicketsOk(t) && StampsCurrent(t.stamps, t.ledger)
    ensures var u := Stamp(t.(next := t.next + 1), t.next, now); StampsCurrent(u.stamps, u.ledger)
  {
    NewTicket(t);
    StampAgrees(t.(next := t.next + 1), t.next, now);
  }

  lemma MovedAgrees(t: Shared, ticket: nat, now: real)
    requires TicketsOk(t) && StampsCurrent(t.stamps, t.ledger)
    ensures var u := Stamp(t.(stamps := Drop(t.stamps, ticket)), ticket, now); StampsCurrent(u.stamps, u.ledger)
  {
    TicketsApart(t);
    DropAgrees(t.stamps, t.ledger, ticket);
    StampAgrees(t.(stamps := Drop(t.stamps, ticket), ledger := t.ledger - {ticket}), ticket, now);
    assert (t.ledger - {ticket})[ticket := now] == t.ledger[ticket := now];
  }

  lemma GrantAgrees(t: Shared, ticket: nat, now: real)
    requires TicketsOk(t) && StampsCurrent(t.stamps, t.ledger) && ticket in t.waiters
    ensures var u := Stamp(t.(waiters := t.waiters[1..], grants := t.grants + [ticket]), ticket, now);
            StampsCurrent(u.stamps, u.ledger)
  {
    NewTicket(t);
    StampAgrees(t.(waiters := t.waiters[1..], grants := t.grants + [ticket]), ticket, now);
  }

  /** After every step the deque's entries are current stamps. */
  lemma StampsStay(s: Shared, limit: nat, e: Event)
    requires TicketsOk(s) && TicketsOk(Evict(s, e.now)) && Evict(s, e.now).waiters == s.waiters
    requires StampsCurrent(s.stamps, s.ledger) && StampsCurrent(Evict(s, e.now).stamps, s.ledger)
    ensures StampsCurrent(Step(s, limit, e).stamps, Step(s, limit, e).ledger)
  {
    var t := Evict(s, e.now);
    match e.action
    case TryReserve => GivenAgrees(t, e.now);
    case Release(ticket) =>
      TicketsApart(s);
      DropAgrees(s.stamps, s.ledger, ticket);
    case Claim(ticket) => MovedAgrees(t, ticket, e.now);
    case Poll(ticket) => if ticket in s.waiters { GrantAgrees(t, ticket, e.now); }
    case _ =>
  }

  /** Where the decisions agree, so do the current stamps, the queue and the next ticket. */
  lemma FieldsAgree(s: Shared, m: Tickets, limit: nat, e: Event)
    requires m == Tickets(s.ledger, s.waiters, s.next) && |Evict(s, e.now).stamps| == |Counted(m.current, e.now)|
    requires e.action.Claim? ==>
               var stamps := Evict(s, e.now).stamps;
               IndexOf(stamps, e.action.ticket) < |stamps| <==> e.action.ticket in Counted(m.current, e.now)
    requires e.action.Leave? ==> RemoveWaiter(s.waiters, e.action.ticket) == Kept(k => k != e.action.ticket, s.waiters)
    requires s.waiters == [] || s.waiters[0] in s.waiters
    ensures var t := Step(s, limit, e); After(m, limit, e) == Tickets(t.ledger, t.waiters, t.next)
  {
    if e.action.Release? {
      var ticket := e.action.ticket;
      assert (map k | k in m.current && k != ticket :: m.current[k]) == s.ledger - {ticket};
    }
  }

  lemma StepAgrees(s: Shared, m: Tickets, limit: nat, before: real, e: Event)
    requires Within(s, limit, before) && before <= e.now && Agrees(s, m)
    ensures Agrees(Step(s, limit, e), After(m, limit, e))
  {
    CountsAgree(s, m, limit, before, e.now);
    StampsStay(s, limit, e);
    if e.action.Claim? { InDeque(Evict(s, e.now).stamps, e.action.ticket); }
    if e.action.Leave? {
      WaitersRise(s);
      LeaveAgrees(s.waiters, e.action.ticket);
    }
    FieldsAgree(s, m, limit, e);
  }

  lemma {:induction false} RunAgrees(s: Shared, m: Tickets, limit: nat, from: real, events: seq<Event>)
    requires Within(s, limit, from) && Forward(from, events) && Agrees(s, m) && limit > 0
    ensures Agrees(Run(s, limit, events), AfterAll(m, limit, events))
    decreases |events|
  {
    if events != [] {
      StepOk(s, limit, from, events[0]);
      StepAgrees(s, m, limit, from, events[0]);
      RunAgrees(Step(s, limit, events[0]), After(m, limit, events[0]), limit, events[0].now, events[1..]);
    }
  }

  lemma Reached(limit: nat, from: real, events: seq<Event>)
    requires Forward(from, events) && limit > 0
    ensures Within(Run(EMPTY, limit, events), limit, Last(from, events))
    ensures Agrees(Run(EMPTY, limit, events), Current(limit, events))
  {
    RunOk(EMPTY, limit, from, events);
    RunAgrees(EMPTY, Tickets(map[], [], 0), limit, from, events);
  }

  /** What the deque decides next is what the current stamps, as the events tell them, say it should: a reservation
      succeeds exactly if nobody waits and fewer than `limit` of them are less than a minute old, a claim exactly if
      the ticket's own is, and there is room for a waiter exactly if fewer than `limit` are. */
  lemma AnswersAgree(limit: nat, from: real, events: seq<Event>, now: real)
    requires Forward(from, events) && Last(from, events) <= now && limit > 0
    ensures var s, m := Run(EMPTY, limit, events), Current(limit, events);
            && m == Tickets(s.ledger, s.waiters, s.next)
            && (Reserve(Evict(s, now), limit) <==> m.waiting == [] && |Counted(m.current, now)| < limit)
            && (forall k :: k in TicketsOf(Evict(s, now).stamps) <==> k in Counted(m.current, now))
            && (Free(Evict(s, now), limit) <==> |Counted(m.current, now)| < limit)
  {
    Reached(limit, from, events);
    CountsAgree(Run(EMPTY, limit, events), Current(limit, events), limit, Last(from, events), now);
  }

  /** For any run of the limiter with one positive limit and a clock that does not run backwards, no 60-second window
      holds more than `limit` current stamps. */
  lemma NoWindowOverfull(limit: nat, from: real, events: seq<Event>, t: real)
    requires Forward(from, events) && limit > 0
    ensures |Held(Current(limit, events).current, t - 60.0, t)| <= limit
  {
    Reached(limit, from, events);
    HeldWithin(Run(EMPTY, limit, events), limit, Last(from, events), t);
  }

  lemma ReservesAgree(s: Shared, m: Tickets, limit: nat, before: real, now: real)
    requires Within(s, limit, before) && before <= now && Agrees(s, m)
    ensures Reserve(Evict(s, now), limit) <==> s.waiters == [] && |Counted(m.current, now)| < limit
  {
    CountsAgree(s, m, limit, before, now);
  }

  lemma CountedWithout(m: Tickets, limit: nat, ticket: nat, at: real, now: real)
    ensures Counted(After(m, limit, Event(at, Release(ticket))).current, now) == Counted(m.current, now) - {ticket}
  {
  }

  /** A release takes exactly the ticket out of what the next reservation counts. */
  lemma ReleaseRefunds(limit: nat, from: real, events: seq<Event>, ticket: nat, at: real, now: real)
    requires Forward(from, events) && Last(from, events) <= at <= now && limit > 0
    ensures var before := Run(EMPTY, limit, events);
            var after := Step(before, limit, Event(at, Release(ticket)));
            var counted := Counted(Current(limit, events).current, now);
            && (Reserve(Evict(before, now), limit) <==> before.waiters == [] && |counted| < limit)
            && (Reserve(Evict(after, now), limit) <==> before.waiters == [] && |counted - {ticket}| < limit)
  {
    var e, s, m := Event(at, Release(ticket)), Run(EMPTY, limit, events), Current(limit, events);
    Reached(limit, from, events);
    ReservesAgree(s, m, limit, Last(from, events), now);
    Stepped(s, m, limit, Last(from, events), e);
    ReservesAgree(Step(s, limit, e), After(m, limit, e), limit, at, now);
    CountedWithout(m, limit, ticket, at, now);
  }

  lemma Stepped(s: Shared, m: Tickets, limit: nat, before: real, e: Event)
    requires Within(s, limit, before) && before <= e.now && Agrees(s, m) && limit > 0
    ensures Within(Step(s, limit, e), limit, e.now) && Agrees(Step(s, limit, e), After(m, limit, e))
  {
    StepOk(s, limit, before, e);
    StepAgrees(s, m, limit, before, e);
  }

  /** A claim moves the ticket's stamp to the present: for the next minute it counts. */
  lemma ClaimHolds(limit: nat, from: real, events: seq<Event>, ticket: nat, at: real, now: real)
    requires Forward(from, events) && Last(from, events) <= at <= now < at + 60.0 && limit > 0
    requires ticket in Counted(Current(limit, events).current, at)
    ensures var after := Step(Run(EMPTY, limit, events), limit, Event(at, Claim(ticket)));
            after.ledger == Current(limit, events).current[ticket := at] && ticket in TicketsOf(Evict(after, now).stamps)
  {
    var e, s, m := Event(at, Claim(ticket)), Run(EMPTY, limit, events), Current(limit, events);
    Reached(limit, from, events);
    Stepped(s, m, limit, Last(from, events), e);
    CountsAgree(Step(s, limit, e), After(m, limit, e), limit, at, now);
  }
}
