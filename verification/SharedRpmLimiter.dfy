/** The rate limiter that all tasks of a profile share (transoria/runtime/rate_limit.py): tickets that can be
    refunded and re-stamped, and waiters that are served in order of arrival. Each action holds the lock. */
module SharedRpmLimiter {
  import opened Lists
  import opened SlidingWindow
  import opened TextRules

  const WINDOW := 60.0

  datatype Entry = Entry(stamp: real, ticket: nat)

  /** `stamps` and `waiters` are the two deques; tickets are numbered in the order in which they are created.
      The rest is history: `past` the entries that have aged out, `ledger` the current stamp of each ticket
      that was granted and not released, `grants` the tickets granted to waiters, in order. */
  datatype Shared = Shared(stamps: seq<Entry>, waiters: seq<nat>, next: nat,
                           past: seq<Entry>, ledger: map<nat, real>, grants: seq<nat>)

  const EMPTY := Shared([], [], 0, [], map[], [])

  datatype Action = TryReserve | Release(ticket: nat) | Claim(ticket: nat) | AvailableAfter
                  | Join | Poll(ticket: nat) | Leave(ticket: nat)

  datatype Event = Event(now: real, action: Action)

  function Times(entries: seq<Entry>): seq<real> {
    seq(|entries|, i requires 0 <= i < |entries| => entries[i].stamp)
  }

  function Evict(s: Shared, now: real): Shared {
    var n := Aged(Times(s.stamps), now - WINDOW);
    s.(past := s.past + s.stamps[..n], stamps := s.stamps[n..])
  }

  function Stamp(s: Shared, ticket: nat, now: real): Shared {
    s.(stamps := s.stamps + [Entry(now, ticket)], ledger := s.ledger[ticket := now])
  }

  /** The index of the ticket's entry, or the length of the deque. */
  function IndexOf(stamps: seq<Entry>, ticket: nat): (i: nat)
    ensures i <= |stamps| && (i < |stamps| ==> stamps[i].ticket == ticket)
    ensures forall k :: 0 <= k < i ==> stamps[k].ticket != ticket
  {
    if stamps == [] || stamps[0].ticket == ticket then 0 else 1 + IndexOf(stamps[1..], ticket)
  }

  function TicketsOf(stamps: seq<Entry>): seq<nat> {
    seq(|stamps|, i requires 0 <= i < |stamps| => stamps[i].ticket)
  }

  lemma InDeque(stamps: seq<Entry>, ticket: nat)
    ensures IndexOf(stamps, ticket) < |stamps| <==> ticket in TicketsOf(stamps)
  {
    var i := IndexOf(stamps, ticket);
    if i < |stamps| { assert TicketsOf(stamps)[i] == ticket; }
  }

  function Drop(stamps: seq<Entry>, ticket: nat): seq<Entry> {
    var i := IndexOf(stamps, ticket);
    if i < |stamps| then Without(stamps, i) else stamps
  }

  predicate Free(s: Shared, limit: nat) {
    |s.stamps| < limit
  }

  function Reserve(s: Shared, limit: nat): (reserved: bool) {
    s.waiters == [] && Free(s, limit)
  }

  function RemoveWaiter(waiters: seq<nat>, ticket: nat): seq<nat> {
    if waiters == [] then []
    else if waiters[0] == ticket then waiters[1..]
    else [waiters[0]] + RemoveWaiter(waiters[1..], ticket)
  }

  function Step(s: Shared, limit: nat, e: Event): Shared {
    var Event(now, action) := e;
    match action
    case TryReserve =>
      var aged := Evict(s, now).(next := s.next + 1);
      if Reserve(aged, limit) then Stamp(aged, s.next, now) else aged
    case Release(ticket) => s.(stamps := Drop(s.stamps, ticket), ledger := s.ledger - {ticket})
    case Claim(ticket) =>
      var aged := Evict(s, now);
      if IndexOf(aged.stamps, ticket) < |aged.stamps|
      then Stamp(aged.(stamps := Drop(aged.stamps, ticket)), ticket, now) else aged
    case AvailableAfter => Evict(s, now)
    case Join => s.(waiters := s.waiters + [s.next], next := s.next + 1)
    case Poll(ticket) =>
      if ticket !in s.waiters then s else
      var aged := Evict(s, now);
      if aged.waiters[0] == ticket && Free(aged, limit)
      then Stamp(aged.(waiters := aged.waiters[1..], grants := aged.grants + [ticket]), ticket, now)
      else aged
    case Leave(ticket) => s.(waiters := RemoveWaiter(s.waiters, ticket))
  }

  function Run(s: Shared, limit: nat, events: seq<Event>): Shared
    decreases |events|
  {
    if events == [] then s else Run(Step(s, limit, events[0]), limit, events[1..])
  }

  /** The clock does not run backwards. */
  predicate Forward(from: real, events: seq<Event>)
    decreases events
  {
    events == [] || (from <= events[0].now && Forward(events[0].now, events[1..]))
  }

  function Last(from: real, events: seq<Event>): real
    decreases events
  {
    if events == [] then from else Last(events[0].now, events[1..])
  }

  // ---- the invariant

  function Log(s: Shared): seq<Entry> {
    s.past + s.stamps
  }

  ghost predicate LogOk(s: Shared, limit: nat, now: real) {
    && Sorted(Times(Log(s))) && Spaced(Times(Log(s)), limit, WINDOW) && AllUpTo(Times(Log(s)), now)
    && AllUpTo(Times(s.past), now - WINDOW)
  }

  /** Each unreleased ticket's current stamp is in the log. */
  ghost predicate LedgerOk(s: Shared) {
    forall k :: k in s.ledger ==> Entry(s.ledger[k], k) in Log(s)
  }

  ghost predicate Rising(s: seq<nat>) {
    forall i, j :: 0 <= i < j < |s| ==> s[i] < s[j]
  }

  /** Waiters stand in order of arrival, and all who were served came before them. */
  ghost predicate QueueOk(s: Shared) {
    && Rising(s.grants + s.waiters)
    && forall k :: k in s.grants + s.waiters ==> k < s.next
  }

  ghost predicate TicketsOk(s: Shared) {
    && (forall i :: 0 <= i < |Log(s)| ==> Log(s)[i].ticket < s.next)
    && (forall k :: k in s.waiters ==> k !in s.ledger)
    && (forall i :: 0 <= i < |Log(s)| ==> Log(s)[i].ticket !in s.waiters)
    && forall i, j :: 0 <= i < j < |Log(s)| ==> Log(s)[i].ticket != Log(s)[j].ticket
  }

  ghost predicate SharedOk(s: Shared, limit: nat, now: real) {
    LogOk(s, limit, now) && LedgerOk(s) && QueueOk(s) && TicketsOk(s)
  }

  lemma TimesAppend(a: seq<Entry>, b: seq<Entry>)
    ensures Times(a + b) == Times(a) + Times(b)
  {
  }

  lemma EvictOk(s: Shared, limit: nat, before: real, now: real)
    requires SharedOk(s, limit, before) && before <= now
    ensures SharedOk(Evict(s, now), limit, now) && Log(Evict(s, now)) == Log(s)
  {
    var n := Aged(Times(s.stamps), now - WINDOW);
    TakeDrop(s.stamps, n);
    Assoc(s.past, s.stamps[..n], s.stamps[n..]);
    EvictLog(s, limit, before, now, n);
  }

  lemma EvictLog(s: Shared, limit: nat, before: real, now: real, n: nat)
    requires LogOk(s, limit, before) && before <= now && n == Aged(Times(s.stamps), now - WINDOW)
    requires Log(Evict(s, now)) == Log(s)
    ensures LogOk(Evict(s, now), limit, now)
  {
    assert Times(s.stamps[..n]) == Times(s.stamps)[..n];
    TimesAppend(s.past, s.stamps[..n]);
  }

  lemma StampLog(s: Shared, limit: nat, ticket: nat, now: real)
    requires LogOk(s, limit, now) && Free(s, limit)
    ensures Log(Stamp(s, ticket, now)) == Log(s) + [Entry(now, ticket)] && LogOk(Stamp(s, ticket, now), limit, now)
  {
    Assoc(s.past, s.stamps, [Entry(now, ticket)]);
    TimesAppend(s.past, s.stamps);
    TimesAppend(Log(s), [Entry(now, ticket)]);
    SpacedAppend(Times(s.past), Times(s.stamps), limit, WINDOW, now);
  }

  lemma StampOk(s: Shared, limit: nat, ticket: nat, now: real)
    requires SharedOk(s, limit, now) && Free(s, limit) && ticket < s.next && ticket !in s.waiters
    requires forall i :: 0 <= i < |Log(s)| ==> Log(s)[i].ticket != ticket
    ensures SharedOk(Stamp(s, ticket, now), limit, now)
  {
    StampLog(s, limit, ticket, now);
    StampedLedger(Log(s), s.ledger, ticket, now);
  }

  lemma StampedLedger(log: seq<Entry>, ledger: map<nat, real>, ticket: nat, now: real)
    requires forall k :: k in ledger ==> Entry(ledger[k], k) in log
    ensures var more := ledger[ticket := now]; forall k :: k in more ==> Entry(more[k], k) in log + [Entry(now, ticket)]
  {
  }

  lemma WithoutShift<T>(a: seq<T>, b: seq<T>, i: nat)
    requires i < |b|
    ensures a + Without(b, i) == Without(a + b, |a| + i)
  {
  }

  lemma DropLog(s: Shared, ticket: nat) returns (k: nat)
    requires IndexOf(s.stamps, ticket) < |s.stamps|
    ensures k < |Log(s)| && Log(s)[k].ticket == ticket
    ensures Log(s.(stamps := Drop(s.stamps, ticket))) == Without(Log(s), k)
  {
    var i := IndexOf(s.stamps, ticket);
    k := |s.past| + i;
    WithoutShift(s.past, s.stamps, i);
  }

  lemma WithoutTimes(s: Shared, k: nat, limit: nat, now: real)
    requires LogOk(s, limit, now) && k < |Log(s)|
    ensures var times := Times(Without(Log(s), k));
            Sorted(times) && Spaced(times, limit, WINDOW) && AllUpTo(times, now)
  {
    SpacedWithout(Times(Log(s)), k, limit, WINDOW, now);
    assert Times(Without(Log(s), k)) == Without(Times(Log(s)), k);
  }

  lemma DropOk(s: Shared, limit: nat, ticket: nat, now: real)
    requires SharedOk(s, limit, now)
    ensures var t := s.(stamps := Drop(s.stamps, ticket), ledger := s.ledger - {ticket});
            && SharedOk(t, limit, now)
            && (IndexOf(s.stamps, ticket) < |s.stamps| ==> forall i :: 0 <= i < |Log(t)| ==> Log(t)[i].ticket != ticket)
  {
    var t := s.(stamps := Drop(s.stamps, ticket), ledger := s.ledger - {ticket});
    if IndexOf(s.stamps, ticket) < |s.stamps| {
      var k := DropLog(s, ticket);
      WithoutTimes(s, k, limit, now);
      assert LogOk(t, limit, now);
      WithoutEntries(Log(s), k);
      assert LedgerOk(t) && TicketsOk(t);
    }
  }

  lemma WithoutEntries(log: seq<Entry>, k: nat)
    requires k < |log|
    ensures var r := Without(log, k);
            && (forall i :: 0 <= i < |r| ==> r[i] == log[if i < k then i else i + 1])
            && (forall e :: e in log && e != log[k] ==> e in r)
  {
    var r := Without(log, k);
    forall e | e in log && e != log[k] ensures e in r {
      var i :| 0 <= i < |log| && log[i] == e;
      assert r[if i < k then i else i - 1] == e;
    }
  }

  lemma ClaimOk(s: Shared, limit: nat, ticket: nat, now: real)
    requires SharedOk(s, limit, now) && IndexOf(s.stamps, ticket) < |s.stamps| <= limit
    ensures SharedOk(Stamp(s.(stamps := Drop(s.stamps, ticket)), ticket, now), limit, now)
  {
    var t := s.(stamps := Drop(s.stamps, ticket), ledger := s.ledger - {ticket});
    DropOk(s, limit, ticket, now);
    var i := IndexOf(s.stamps, ticket);
    assert Log(s)[|s.past| + i].ticket == ticket;
    StampOk(t, limit, ticket, now);
    assert t.ledger[ticket := now] == s.ledger[ticket := now];
    assert Stamp(s.(stamps := Drop(s.stamps, ticket)), ticket, now) == Stamp(t, ticket, now);
  }

  lemma RisingRest(all: seq<nat>)
    requires all != [] && Rising(all)
    ensures Rising(all[1..]) && forall k :: k in all[1..] ==> all[0] < k
  {
    var rest := all[1..];
    forall i, j | 0 <= i < j < |rest| ensures rest[i] < rest[j] { assert all[i + 1] < all[j + 1]; }
    forall k | k in rest ensures all[0] < k {
      var i :| 0 <= i < |rest| && rest[i] == k;
      assert all[0] < all[i + 1];
    }
  }

  lemma RisingCons(x: nat, rest: seq<nat>)
    requires Rising(rest) && forall k :: k in rest ==> x < k
    ensures Rising([x] + rest)
  {
    var all := [x] + rest;
    forall i, j | 0 <= i < j < |all| ensures all[i] < all[j] {
      assert all[j] == rest[j - 1] && rest[j - 1] in rest;
      if i > 0 { assert all[i] == rest[i - 1]; }
    }
  }

  lemma {:induction false} RemoveWaiterOk(waiters: seq<nat>, ticket: nat)
    requires Rising(waiters)
    ensures Rising(RemoveWaiter(waiters, ticket))
    ensures forall k :: k in RemoveWaiter(waiters, ticket) ==> k in waiters
  {
    if waiters != [] {
      RisingRest(waiters);
      Uncons(waiters);
      if waiters[0] != ticket {
        RemoveWaiterOk(waiters[1..], ticket);
        RisingCons(waiters[0], RemoveWaiter(waiters[1..], ticket));
      }
    }
  }

  lemma WaitersRise(s: Shared)
    requires QueueOk(s)
    ensures Rising(s.waiters)
  {
    forall i, j | 0 <= i < j < |s.waiters| ensures s.waiters[i] < s.waiters[j] {
      assert (s.grants + s.waiters)[|s.grants| + i] == s.waiters[i];
      assert (s.grants + s.waiters)[|s.grants| + j] == s.waiters[j];
    }
  }

  lemma LeaveOk(s: Shared, ticket: nat)
    requires QueueOk(s)
    ensures QueueOk(s.(waiters := RemoveWaiter(s.waiters, ticket)))
  {
    var w, g, r := s.waiters, s.grants, RemoveWaiter(s.waiters, ticket);
    WaitersRise(s);
    RemoveWaiterOk(w, ticket);
    forall i, j | 0 <= i < j < |g + r| ensures (g + r)[i] < (g + r)[j] {
      if j < |g| {
        assert (g + w)[i] < (g + w)[j];
      } else if i < |g| {
        assert r[j - |g|] in r && r[j - |g|] in w;
        var k :| 0 <= k < |w| && w[k] == r[j - |g|];
        assert (g + w)[i] < (g + w)[|g| + k];
      }
    }
    forall k | k in g + r ensures k < s.next { assert k in g + w; }
  }

  lemma JoinOk(s: Shared, limit: nat, now: real)
    requires SharedOk(s, limit, now)
    ensures SharedOk(s.(waiters := s.waiters + [s.next], next := s.next + 1), limit, now)
  {
    var t := s.(waiters := s.waiters + [s.next], next := s.next + 1);
    assert t.grants + t.waiters == (s.grants + s.waiters) + [s.next];
    forall k | k in s.ledger ensures k < s.next {
      var i :| 0 <= i < |Log(s)| && Log(s)[i] == Entry(s.ledger[k], k);
    }
    var queue := s.grants + s.waiters;
    assert forall i :: 0 <= i < |queue| ==> queue[i] in queue;
    assert QueueOk(t);
    assert Log(t) == Log(s) && TicketsOk(t);
  }

  lemma GrantOk(s: Shared, limit: nat, now: real)
    requires SharedOk(s, limit, now) && Free(s, limit) && s.waiters != []
    ensures var ticket := s.waiters[0];
            SharedOk(Stamp(s.(waiters := s.waiters[1..], grants := s.grants + [ticket]), ticket, now), limit, now)
  {
    var ticket := s.waiters[0];
    var t := s.(waiters := s.waiters[1..], grants := s.grants + [ticket]);
    assert t.grants + t.waiters == s.grants + s.waiters;
    assert ticket in s.waiters && ticket in s.grants + s.waiters;
    forall k | k in t.waiters ensures k in s.waiters && k != ticket {
      var i :| 0 <= i < |t.waiters| && t.waiters[i] == k;
      assert s.waiters[i + 1] == k;
      assert (s.grants + s.waiters)[|s.grants|] < (s.grants + s.waiters)[|s.grants| + i + 1];
    }
    assert SharedOk(t, limit, now);
    StampOk(t, limit, ticket, now);
  }

  /** At most `limit` entries are held. */
  ghost predicate Within(s: Shared, limit: nat, now: real) {
    SharedOk(s, limit, now) && |s.stamps| <= limit
  }

  lemma ReserveStepOk(s: Shared, limit: nat, now: real)
    requires Within(s, limit, now) && limit > 0
    ensures var t := s.(next := s.next + 1);
            Within(if Reserve(t, limit) then Stamp(t, s.next, now) else t, limit, now)
  {
    var t := s.(next := s.next + 1);
    assert SharedOk(t, limit, now);
    if Reserve(t, limit) { StampOk(t, limit, s.next, now); }
  }

  lemma LaterOk(s: Shared, limit: nat, before: real, now: real)
    requires Within(s, limit, before) && before <= now
    ensures Within(Evict(s, now), limit, now)
    ensures Evict(s, now).waiters == s.waiters && Evict(s, now).next == s.next
  {
    EvictOk(s, limit, before, now);
  }

  /** The actions that do not look at the clock. */
  lemma TimelessStepOk(s: Shared, limit: nat, before: real, e: Event)
    requires Within(s, limit, before) && before <= e.now && limit > 0
    requires e.action.Release? || e.action.Join? || e.action.Leave?
    ensures Within(Step(s, limit, e), limit, e.now)
  {
    assert SharedOk(s, limit, e.now);
    match e.action {
      case Release(ticket) => DropOk(s, limit, ticket, e.now);
      case Join => JoinOk(s, limit, e.now);
      case Leave(ticket) => LeaveStepOk(s, limit, e.now, ticket);
    }
  }

  lemma StepOk(s: Shared, limit: nat, before: real, e: Event)
    requires Within(s, limit, before) && before <= e.now && limit > 0
    ensures Within(Step(s, limit, e), limit, e.now)
  {
    var aged := Evict(s, e.now);
    LaterOk(s, limit, before, e.now);
    match e.action {
      case TryReserve => ReserveStepOk(aged, limit, e.now);
      case Claim(ticket) => ClaimStepOk(aged, limit, e.now, ticket);
      case AvailableAfter =>
      case Poll(ticket) =>
        if ticket !in s.waiters { IdleOk(s, limit, before, e.now); } else { PollStepOk(aged, limit, e.now, ticket); }
      case _ => TimelessStepOk(s, limit, before, e);
    }
  }

  lemma ClaimStepOk(aged: Shared, limit: nat, now: real, ticket: nat)
    requires Within(aged, limit, now)
    ensures Within(if IndexOf(aged.stamps, ticket) < |aged.stamps|
                   then Stamp(aged.(stamps := Drop(aged.stamps, ticket)), ticket, now) else aged, limit, now)
  {
    if IndexOf(aged.stamps, ticket) < |aged.stamps| { ClaimOk(aged, limit, ticket, now); }
  }

  lemma PollStepOk(aged: Shared, limit: nat, now: real, ticket: nat)
    requires Within(aged, limit, now) && aged.waiters != []
    ensures Within(if aged.waiters[0] == ticket && Free(aged, limit)
                   then Stamp(aged.(waiters := aged.waiters[1..], grants := aged.grants + [ticket]), ticket, now)
                   else aged, limit, now)
  {
    if aged.waiters[0] == ticket && Free(aged, limit) { GrantOk(aged, limit, now); }
  }

  lemma IdleOk(s: Shared, limit: nat, before: real, now: real)
    requires Within(s, limit, before) && before <= now
    ensures Within(s, limit, now)
  {
  }

  lemma LeaveStepOk(s: Shared, limit: nat, now: real, ticket: nat)
    requires SharedOk(s, limit, now)
    ensures SharedOk(s.(waiters := RemoveWaiter(s.waiters, ticket)), limit, now)
  {
    LeaveOk(s, ticket);
    WaitersRise(s);
    RemoveWaiterOk(s.waiters, ticket);
  }

  lemma {:induction false} RunOk(s: Shared, limit: nat, from: real, events: seq<Event>)
    requires Within(s, limit, from) && Forward(from, events) && limit > 0
    ensures Within(Run(s, limit, events), limit, Last(from, events))
    decreases |events|
  {
    if events != [] {
      StepOk(s, limit, from, events[0]);
      RunOk(Step(s, limit, events[0]), limit, events[0].now, events[1..]);
    }
  }

  // ---- the window

  /** The unreleased tickets whose current stamp is in (low, high]. */
  function Held(ledger: map<nat, real>, low: real, high: real): set<nat> {
    set k | k in ledger && low < ledger[k] <= high
  }

  function TicketsIn(log: seq<Entry>, low: real, high: real): (r: set<nat>) {
    set i | 0 <= i < |log| && low < log[i].stamp <= high :: log[i].ticket
  }

  lemma {:induction false} TicketsCount(log: seq<Entry>, low: real, high: real)
    ensures |TicketsIn(log, low, high)| <= CountIn(Times(log), low, high)
  {
    if log == [] {
      assert TicketsIn(log, low, high) == {};
    } else {
      TicketsCount(log[1..], low, high);
      assert Times(log)[1..] == Times(log[1..]);
      var rest := TicketsIn(log[1..], low, high);
      var own := if low < log[0].stamp <= high then {log[0].ticket} else {};
      assert TicketsIn(log, low, high) <= own + rest by {
        forall k | k in TicketsIn(log, low, high) ensures k in own + rest {
          var i :| 0 <= i < |log| && low < log[i].stamp <= high && log[i].ticket == k;
          if i > 0 { assert log[1..][i - 1] == log[i]; }
        }
      }
      SubsetSize(TicketsIn(log, low, high), own + rest);
    }
  }

  lemma HeldListed(s: Shared, low: real, high: real)
    requires LedgerOk(s)
    ensures |Held(s.ledger, low, high)| <= CountIn(Times(Log(s)), low, high)
  {
    var held, listed := Held(s.ledger, low, high), TicketsIn(Log(s), low, high);
    forall k | k in held ensures k in listed {
      var i :| 0 <= i < |Log(s)| && Log(s)[i] == Entry(s.ledger[k], k);
    }
    SubsetSize(held, listed);
    TicketsCount(Log(s), low, high);
  }

  lemma HeldWithin(s: Shared, limit: nat, now: real, t: real)
    requires Within(s, limit, now) && limit > 0
    ensures |Held(s.ledger, t - WINDOW, t)| <= limit
  {
    HeldListed(s, t - WINDOW, t);
    WindowBound(Times(Log(s)), limit, WINDOW, t);
  }

  /** Waiters who stay are granted in the order in which they came. */
  lemma ServedInOrder(limit: nat, from: real, events: seq<Event>)
    requires Forward(from, events) && limit > 0
    ensures var s := Run(EMPTY, limit, events); Rising(s.grants + s.waiters)
  {
    RunOk(EMPTY, limit, from, events);
  }

  // ---- nobody overtakes a waiter

  /** Everything on the log belongs to those who came before any of the waiters. */
  ghost predicate Ahead(log: seq<Entry>, waiters: seq<nat>) {
    forall i, k :: 0 <= i < |log| && k in waiters ==> log[i].ticket < k
  }

  lemma StampAhead(s: Shared, ticket: nat, now: real)
    requires Ahead(Log(s), s.waiters) && forall k :: k in s.waiters ==> ticket < k
    ensures Ahead(Log(Stamp(s, ticket, now)), s.waiters)
  {
    Assoc(s.past, s.stamps, [Entry(now, ticket)]);
  }

  lemma DropAhead(s: Shared, ticket: nat)
    requires Ahead(Log(s), s.waiters)
    ensures Ahead(Log(s.(stamps := Drop(s.stamps, ticket))), s.waiters)
  {
    if IndexOf(s.stamps, ticket) < |s.stamps| {
      var k := DropLog(s, ticket);
      WithoutEntries(Log(s), k);
    }
  }

  lemma LaterAhead(s: Shared, limit: nat, before: real, now: real)
    requires Within(s, limit, before) && before <= now && Ahead(Log(s), s.waiters)
    ensures Ahead(Log(Evict(s, now)), s.waiters) && Evict(s, now).waiters == s.waiters && Evict(s, now).next == s.next
  {
    EvictOk(s, limit, before, now);
  }

  lemma ClaimAhead(s: Shared, ticket: nat, now: real)
    requires Ahead(Log(s), s.waiters) && IndexOf(s.stamps, ticket) < |s.stamps|
    ensures Ahead(Log(Stamp(s.(stamps := Drop(s.stamps, ticket)), ticket, now)), s.waiters)
  {
    DropAhead(s, ticket);
    assert Log(s)[|s.past| + IndexOf(s.stamps, ticket)].ticket == ticket;
    StampAhead(s.(stamps := Drop(s.stamps, ticket)), ticket, now);
  }

  lemma GrantAhead(s: Shared, now: real)
    requires Ahead(Log(s), s.waiters) && s.waiters != [] && Rising(s.waiters)
    ensures var ticket := s.waiters[0];
            Ahead(Log(Stamp(s.(waiters := s.waiters[1..], grants := s.grants + [ticket]), ticket, now)), s.waiters[1..])
  {
    var ticket, rest := s.waiters[0], s.waiters[1..];
    RisingRest(s.waiters);
    assert forall k :: k in rest ==> k in s.waiters;
    StampAhead(s.(waiters := rest, grants := s.grants + [ticket]), ticket, now);
  }

  lemma StepAhead(s: Shared, limit: nat, before: real, e: Event)
    requires Within(s, limit, before) && before <= e.now && limit > 0 && Ahead(Log(s), s.waiters)
    ensures Ahead(Log(Step(s, limit, e)), Step(s, limit, e).waiters)
  {
    var aged := Evict(s, e.now);
    LaterAhead(s, limit, before, e.now);
    WaitersRise(s);
    match e.action
    case TryReserve => if s.waiters == [] { StampAhead(aged.(next := s.next + 1), s.next, e.now); }
    case Release(ticket) => DropAhead(s, ticket);
    case Claim(ticket) => if IndexOf(aged.stamps, ticket) < |aged.stamps| { ClaimAhead(aged, ticket, e.now); }
    case AvailableAfter =>
    case Join =>
    case Poll(ticket) => if s.waiters != [] { GrantAhead(aged, e.now); }
    case Leave(ticket) => RemoveWaiterOk(s.waiters, ticket);
  }

  lemma {:induction false} RunAhead(s: Shared, limit: nat, from: real, events: seq<Event>)
    requires Within(s, limit, from) && Forward(from, events) && limit > 0 && Ahead(Log(s), s.waiters)
    ensures Ahead(Log(Run(s, limit, events)), Run(s, limit, events).waiters)
    decreases |events|
  {
    if events != [] {
      StepOk(s, limit, from, events[0]);
      StepAhead(s, limit, from, events[0]);
      RunAhead(Step(s, limit, events[0]), limit, events[0].now, events[1..]);
    }
  }

  /** At no point of any run does anybody hold a ticket who came after one who still waits, by `try_reserve` or
      by waiting; and `try_reserve` succeeds exactly if nobody waits and there is room. */
  lemma NeverOvertakes(limit: nat, from: real, events: seq<Event>, now: real)
    requires Forward(from, events) && Last(from, events) <= now && limit > 0
    ensures var s := Run(EMPTY, limit, events);
            var t := Step(s, limit, Event(now, TryReserve));
            && (forall k, id :: k in s.waiters && id in s.ledger ==> id < k)
            && (s.next in t.ledger <==> s.waiters == [] && |Evict(s, now).stamps| < limit)
            && t.waiters == s.waiters && t.grants == s.grants
  {
    var s := Run(EMPTY, limit, events);
    RunOk(EMPTY, limit, from, events);
    RunAhead(EMPTY, limit, from, events);
    HeldAhead(s);
    ReservesExactly(s, limit, now);
  }

  lemma HeldAhead(s: Shared)
    requires LedgerOk(s) && TicketsOk(s) && Ahead(Log(s), s.waiters)
    ensures s.next !in s.ledger && forall k, id :: k in s.waiters && id in s.ledger ==> id < k
  {
    forall id | id in s.ledger ensures id < s.next && forall k :: k in s.waiters ==> id < k {
      var i :| 0 <= i < |Log(s)| && Log(s)[i] == Entry(s.ledger[id], id);
      assert Log(s)[i].ticket < s.next;
    }
  }

  lemma ReservesExactly(s: Shared, limit: nat, now: real)
    requires s.next !in s.ledger
    ensures var t := Step(s, limit, Event(now, TryReserve));
            && (s.next in t.ledger <==> s.waiters == [] && |Evict(s, now).stamps| < limit)
            && t.waiters == s.waiters && t.grants == s.grants
  {
  }

  // ---- the limiter

  /** With nobody waiting, there is room once the oldest entry has aged out, and not before. */
  lemma RoomAfter(s: Shared, limit: nat, later: real)
    requires s.waiters == [] && 0 < |s.stamps| <= limit && s.stamps[0].stamp <= later - WINDOW
    ensures Reserve(Evict(s, later), limit)
  {
    assert Times(s.stamps)[0] == s.stamps[0].stamp;
  }

  lemma FullBefore(s: Shared, limit: nat, early: real)
    requires |s.stamps| >= limit > 0 && s.stamps[0].stamp > early - WINDOW
    ensures !Reserve(Evict(s, early), limit)
  {
    assert Times(s.stamps)[0] == s.stamps[0].stamp && s.stamps[0..] == s.stamps;
  }

  class Limiter {
    var stamps: seq<Entry>
    var waiters: seq<nat>
    var next: nat
    ghost var past: seq<Entry>
    ghost var ledger: map<nat, real>
    ghost var grants: seq<nat>

    constructor ()
      ensures View() == EMPTY
    {
      stamps, waiters, next, past, ledger, grants := [], [], 0, [], map[], [];
    }

    ghost function View(): Shared
      reads this
    {
      Shared(stamps, waiters, next, past, ledger, grants)
    }

    method EvictAged(now: real)
      modifies this`stamps, this`past
      ensures View() == Evict(old(View()), now)
    {
      ghost var n := Aged(Times(stamps), now - WINDOW);
      ghost var i := 0;
      while stamps != [] && stamps[0].stamp <= now - WINDOW
        invariant 0 <= i <= n && stamps == old(stamps)[i..] && past == old(past) + old(stamps)[..i]
        invariant i + Aged(Times(stamps), now - WINDOW) == n
        decreases |stamps|
      {
        assert Times(stamps)[1..] == Times(stamps[1..]);
        assert old(stamps)[..i + 1] == old(stamps)[..i] + [old(stamps)[i]];
        past := past + [stamps[0]];
        stamps := stamps[1..];
        i := i + 1;
      }
    }

    /** `try_reserve`. */
    method TryReserve(limit: int, now: real) returns (ticket: Option<nat>)
      modifies this
      ensures limit <= 0 ==> ticket == Some(old(next)) && View() == old(View()).(next := old(next) + 1)
      ensures limit > 0 ==>
                && View() == Step(old(View()), limit, Event(now, Action.TryReserve))
                && ticket == if Reserve(Evict(old(View()), now), limit) then Some(old(next)) else None
    {
      var candidate := next;
      next := next + 1;
      if limit <= 0 { return Some(candidate); }
      EvictAged(now);
      if waiters != [] || |stamps| >= limit { return None; }
      stamps := stamps + [Entry(now, candidate)];
      ledger := ledger[candidate := now];
      return Some(candidate);
    }

    /** Finds the ticket's entry and takes it out. */
    method Remove(ticket: nat) returns (found: bool)
      modifies this`stamps
      ensures stamps == Drop(old(stamps), ticket)
      ensures found <==> IndexOf(old(stamps), ticket) < |old(stamps)|
    {
      var i := 0;
      while i < |stamps|
        invariant 0 <= i <= |stamps|
        invariant i + IndexOf(stamps[i..], ticket) == IndexOf(stamps, ticket)
      {
        assert stamps[i..][1..] == stamps[i + 1..];
        if stamps[i].ticket == ticket {
          stamps := stamps[..i] + stamps[i + 1..];
          return true;
        }
        i := i + 1;
      }
      return false;
    }

    method ReleaseTicket(ticket: nat, now: real)
      modifies this
      ensures forall limit :: View() == Step(old(View()), limit, Event(now, Release(ticket)))
    {
      var found := Remove(ticket);
      ledger := ledger - {ticket};
    }

    /** `claim`: the ticket's stamp moves to the present, if it has not aged out. */
    method ClaimTicket(ticket: nat, now: real) returns (claimed: bool)
      modifies this
      ensures forall limit :: View() == Step(old(View()), limit, Event(now, Claim(ticket)))
      ensures claimed <==> ticket in TicketsOf(Evict(old(View()), now).stamps)
    {
      EvictAged(now);
      InDeque(stamps, ticket);
      claimed := Remove(ticket);
      if claimed {
        stamps := stamps + [Entry(now, ticket)];
        ledger := ledger[ticket := now];
      }
    }

    /** `available_after`: zero exactly when `try_reserve` would succeed at this moment. With nobody waiting it is the
        time until it does: from then on, if nothing else happens, it succeeds, and before that (unless the wait is
        already down to its least) it does not. */
    method AvailableAfterNow(limit: int, now: real) returns (wait: real)
      modifies this
      ensures limit > 0 ==> View() == Step(old(View()), limit, Event(now, AvailableAfter))
      ensures wait >= 0.0
      ensures wait == 0.0 <==> limit <= 0 || Reserve(View(), limit)
      ensures limit > 0 && waiters == [] && |stamps| <= limit ==>
                forall later :: later >= now + wait ==> Reserve(Evict(View(), later), limit)
      ensures limit > 0 && waiters == [] && wait > 0.01 ==>
                forall early :: early < now + wait ==> !Reserve(Evict(View(), early), limit)
    {
      if limit <= 0 { return 0.0; }
      EvictAged(now);
      if waiters != [] && |stamps| < limit { return 0.1; }
      if |stamps| < limit { return 0.0; }
      wait := WINDOW - (now - stamps[0].stamp);
      if wait < 0.01 { wait := 0.01; }
      forall later | waiters == [] && |stamps| <= limit && later >= now + wait ensures Reserve(Evict(View(), later), limit) {
        RoomAfter(View(), limit, later);
      }
      forall early | wait > 0.01 && early < now + wait ensures !Reserve(Evict(View(), early), limit) {
        FullBefore(View(), limit, early);
      }
    }

    /** `acquire`, up to its loop. */
    method JoinQueue(now: real) returns (ticket: nat)
      modifies this
      ensures ticket == old(next)
      ensures forall limit :: View() == Step(old(View()), limit, Event(now, Join))
    {
      ticket := next;
      waiters := waiters + [ticket];
      next := next + 1;
    }

    /** One round of the loop in `acquire`; if the ticket is not granted, how long to sleep. */
    method PollTicket(limit: int, ticket: nat, now: real) returns (granted: bool, wait: real)
      requires limit > 0 && ticket in waiters
      modifies this
      ensures View() == Step(old(View()), limit, Event(now, Poll(ticket)))
      ensures granted <==> old(waiters)[0] == ticket && |Evict(old(View()), now).stamps| < limit
      ensures !granted ==> 0.01 <= wait <= 1.0
    {
      EvictAged(now);
      wait := 0.0;
      if waiters[0] == ticket && |stamps| < limit {
        waiters := waiters[1..];
        stamps := stamps + [Entry(now, ticket)];
        ledger := ledger[ticket := now];
        grants := grants + [ticket];
        return true, 0.0;
      }
      wait := if |stamps| >= limit then WINDOW - (now - stamps[0].stamp) else 0.1;
      if wait < 0.01 { wait := 0.01; }
      if wait > 1.0 { wait := 1.0; }
      return false, wait;
    }

    /** The `finally` of `acquire`: a waiter that gives up leaves the queue. */
    method LeaveQueue(ticket: nat, now: real)
      modifies this
      ensures forall limit :: View() == Step(old(View()), limit, Event(now, Leave(ticket)))
    {
      waiters := RemoveWaiter(waiters, ticket);
    }
  }
}
