/** The two limiters of a single task (transoria/runtime/rate_limit.py), on an injected clock. */
module RateLimiters {
  import Lists
  import opened SlidingWindow

  /** A clock that never runs backwards. `drift` says how far it moves on before each reading and beyond each
      sleep, once it is used up the clock moves only when asked to. */
  class Clock {
    var now: real
    var drift: seq<real>
    var sleeps: nat

    ghost predicate Valid()
      reads this
    {
      forall i :: 0 <= i < |drift| ==> drift[i] >= 0.0
    }

    method Pass()
      requires Valid()
      modifies this
      ensures Valid() && now >= old(now) && sleeps == old(sleeps)
      ensures old(drift) == [] ==> now == old(now) && drift == []
    {
      if drift != [] {
        now := now + drift[0];
        drift := drift[1..];
      }
    }

    method Read() returns (t: real)
      requires Valid()
      modifies this
      ensures Valid() && t == now >= old(now) && sleeps == old(sleeps)
      ensures old(drift) == [] ==> now == old(now) && drift == []
    {
      Pass();
      t := now;
    }

    method Sleep(seconds: real)
      requires Valid() && seconds > 0.0
      modifies this
      ensures Valid() && now >= old(now) + seconds && sleeps == old(sleeps) + 1
    {
      now := now + seconds;
      sleeps := sleeps + 1;
      Pass();
    }
  }

  // ---- requests per minute

  class RpmLimiter {
    const limit: int
    const window: real
    const clock: Clock
    var timestamps: seq<real>
    ghost var past: seq<real>

    constructor (limit: int, window: real, clock: Clock)
      requires clock.Valid() && window > 0.0
      ensures Valid() && this.limit == limit && this.window == window && this.clock == clock && Log() == []
    {
      this.limit, this.window, this.clock, timestamps, past := limit, window, clock, [], [];
    }

    /** Every request ever granted. */
    ghost function Log(): seq<real>
      reads this
    {
      past + timestamps
    }

    ghost predicate Valid()
      reads this, clock
    {
      && clock.Valid() && window > 0.0
      && (limit <= 0 ==> Log() == [])
      && (limit > 0 ==>
            && Sorted(Log()) && Spaced(Log(), limit, window) && AllUpTo(Log(), clock.now)
            && AllUpTo(past, clock.now - window) && |timestamps| <= limit)
    }

    method Evict(now: real)
      requires Valid() && now <= clock.now
      modifies this`timestamps, this`past
      ensures Valid() && Log() == old(Log())
      ensures |timestamps| <= |old(timestamps)|
      ensures |timestamps| == |old(timestamps)| ==> timestamps == old(timestamps) && past == old(past)
      ensures timestamps != [] ==> timestamps[0] > now - window
      ensures old(timestamps) != [] && old(timestamps)[0] <= now - window ==> |timestamps| < |old(timestamps)|
    {
      ghost var i := 0;
      while timestamps != [] && timestamps[0] <= now - window
        invariant 0 <= i <= |old(timestamps)| && timestamps == old(timestamps)[i..] && Log() == old(Log())
        invariant i == 0 ==> past == old(past)
        invariant Valid()
        decreases |timestamps|
      {
        past := past + [timestamps[0]];
        timestamps := timestamps[1..];
        assert Log() == old(Log());
        i := i + 1;
      }
    }

    /** One round of the loop in `acquire`: the request is granted unless the window is full. */
    method TryGrant(now: real) returns (granted: bool, wait: real)
      requires Valid() && now == clock.now && limit > 0
      modifies this
      ensures Valid()
      ensures granted ==> Log() == old(Log()) + [now]
      ensures !granted ==>
                && Log() == old(Log()) && timestamps != [] && wait == window - (now - timestamps[0]) > 0.0
                && CountIn(Log(), now - window, now) == limit
      ensures old(timestamps) != [] && old(timestamps)[0] <= now - window ==> granted
    {
      Evict(now);
      wait := 0.0;
      granted := |timestamps| < limit;
      if granted {
        SpacedAppend(past, timestamps, limit, window, now);
        assert past + (timestamps + [now]) == Log() + [now];
        timestamps := timestamps + [now];
      } else {
        CountKept(past, timestamps, now - window, now);
        wait := window - (now - timestamps[0]);
      }
    }

    /** `acquire`: one more request is granted, after at most one sleep, and that only if the window was
        full at some moment `full` of the call. The lock is held throughout. */
    method Acquire() returns (ghost full: real)
      requires Valid()
      modifies this, clock
      ensures Valid() && clock.sleeps <= old(clock.sleeps) + 1
      ensures Log() == if limit <= 0 then old(Log()) else old(Log()) + [clock.now]
      ensures clock.sleeps > old(clock.sleeps) ==>
                old(clock.now) <= full <= clock.now && CountIn(old(Log()), full - window, full) == limit
    {
      full := clock.now;
      if limit <= 0 { return; }
      ghost var log := Log();
      while true
        invariant Valid() && Log() == log && old(clock.now) <= full <= clock.now
        invariant old(clock.sleeps) <= clock.sleeps <= old(clock.sleeps) + 1
        invariant clock.sleeps > old(clock.sleeps) ==>
                    && timestamps != [] && timestamps[0] <= clock.now - window
                    && CountIn(log, full - window, full) == limit
        decreases old(clock.sleeps) + 2 - clock.sleeps
      {
        var now := clock.Read();
        var granted, wait := TryGrant(now);
        if granted { return; }
        full := now;
        clock.Sleep(wait);
      }
    }

    /** Never more than `limit` requests in any window. */
    lemma NoWindowOverfull(t: real)
      requires Valid() && limit > 0
      ensures CountIn(Log(), t - window, t) <= limit
    {
      WindowBound(Log(), limit, window, t);
    }
  }

  // ---- tokens per minute

  datatype Reservation = Reservation(stamp: real, id: int, tokens: int)

  /** What was estimated for a reservation, by how much its settlements have raised it in all, and how many
      there were. */
  datatype Fact = Fact(estimate: int, raised: int, settled: nat)

  datatype Settlement = Settlement(id: int, actual: int)

  function Tokens(entries: seq<Reservation>): int {
    if entries == [] then 0 else entries[0].tokens + Tokens(entries[1..])
  }

  function Positive(x: int): int {
    if x > 0 then x else 0
  }

  ghost function RaisedBy(e: Reservation, facts: map<int, Fact>): int {
    if e.id in facts then facts[e.id].raised else 0
  }

  /** By how much settlements have raised these reservations. */
  ghost function Raised(entries: seq<Reservation>, facts: map<int, Fact>): int {
    if entries == [] then 0 else RaisedBy(entries[0], facts) + Raised(entries[1..], facts)
  }

  /** The reservations made in (low, high]. */
  function Window(all: seq<Reservation>, low: real, high: real): seq<Reservation> {
    if all == [] then [] else (if low < all[0].stamp <= high then [all[0]] else []) + Window(all[1..], low, high)
  }

  /** A reservation settled once has been raised by what it went over its estimate. */
  ghost predicate EntryOk(e: Reservation, facts: map<int, Fact>, top: int) {
    && 0 < e.id <= top && e.id in facts && facts[e.id].estimate > 0 && e.tokens >= 0 && facts[e.id].raised >= 0
    && (facts[e.id].settled == 0 ==> e.tokens == facts[e.id].estimate && facts[e.id].raised == 0)
    && (facts[e.id].settled == 1 ==> facts[e.id].raised == Positive(e.tokens - facts[e.id].estimate))
  }

  ghost predicate EntriesOk(entries: seq<Reservation>, facts: map<int, Fact>, top: int) {
    && (forall i :: 0 <= i < |entries| ==> EntryOk(entries[i], facts, top))
    && forall i, j :: 0 <= i < j < |entries| ==> entries[i].id < entries[j].id
  }

  ghost predicate MadeBy(entries: seq<Reservation>, time: real) {
    forall i :: 0 <= i < |entries| ==> entries[i].stamp <= time
  }

  ghost predicate InOrder(entries: seq<Reservation>) {
    forall i, j :: 0 <= i < j < |entries| ==> entries[i].stamp <= entries[j].stamp
  }

  /** The reservations from the k-th to the i-th, if made within a window, exceed the limit at most by what settlements
      have added to them. */
  ghost predicate SliceBounded(all: seq<Reservation>, facts: map<int, Fact>, limit: int, window: real, k: nat, i: nat) {
    k < i < |all| && all[i].stamp - all[k].stamp < window ==> Tokens(all[k..i + 1]) <= limit + Raised(all[k..i + 1], facts)
  }

  ghost predicate Bounded(all: seq<Reservation>, facts: map<int, Fact>, limit: int, window: real) {
    forall k: nat, i: nat :: SliceBounded(all, facts, limit, window, k, i)
  }

  // ---- sums

  lemma {:induction false} TokensAppend(a: seq<Reservation>, e: Reservation)
    ensures Tokens(a + [e]) == Tokens(a) + e.tokens
  {
    if a == [] {
      assert a + [e] == [e];
    } else {
      assert (a + [e])[1..] == a[1..] + [e];
      TokensAppend(a[1..], e);
    }
  }

  lemma EntriesRest(entries: seq<Reservation>, facts: map<int, Fact>, top: int)
    requires entries != [] && EntriesOk(entries, facts, top)
    ensures EntriesOk(entries[1..], facts, top)
  {
    assert forall i :: 0 <= i < |entries[1..]| ==> entries[1..][i] == entries[i + 1];
  }

  ghost predicate NoneNegative(entries: seq<Reservation>, facts: map<int, Fact>) {
    forall i :: 0 <= i < |entries| ==> entries[i].tokens >= 0 && RaisedBy(entries[i], facts) >= 0
  }

  lemma {:induction false} SumsPositive(entries: seq<Reservation>, facts: map<int, Fact>)
    requires NoneNegative(entries, facts)
    ensures Tokens(entries) >= 0 && Raised(entries, facts) >= 0
  {
    if entries != [] { SumsPositive(entries[1..], facts); }
  }

  lemma {:induction false} SuffixTokens(entries: seq<Reservation>, facts: map<int, Fact>, k: nat)
    requires k <= |entries| && NoneNegative(entries, facts)
    ensures Tokens(entries[k..]) <= Tokens(entries)
  {
    if k > 0 {
      SuffixTokens(entries[1..], facts, k - 1);
      assert entries[1..][k - 1..] == entries[k..];
    } else {
      assert entries[0..] == entries;
    }
  }

  /** Nothing was added but what settlements are charged for. */
  lemma {:induction false} SumsCharged(a: seq<Reservation>, b: seq<Reservation>, facts: map<int, Fact>, more: map<int, Fact>)
    requires |a| == |b|
    requires forall i :: 0 <= i < |a| ==> b[i].tokens - RaisedBy(b[i], more) <= a[i].tokens - RaisedBy(a[i], facts)
    ensures Tokens(b) - Raised(b, more) <= Tokens(a) - Raised(a, facts)
  {
    if a != [] {
      assert forall i :: 0 <= i < |a[1..]| ==> a[1..][i] == a[i + 1] && b[1..][i] == b[i + 1];
      SumsCharged(a[1..], b[1..], facts, more);
    }
  }

  // ---- windows

  lemma {:induction false} WindowOfAll(kept: seq<Reservation>, low: real, high: real)
    requires forall i :: 0 <= i < |kept| ==> low < kept[i].stamp <= high
    ensures Window(kept, low, high) == kept
  {
    if kept != [] {
      Lists.Uncons(kept);
      WindowOfAll(kept[1..], low, high);
    }
  }

  lemma {:induction false} WindowKept(past: seq<Reservation>, kept: seq<Reservation>, low: real, high: real)
    requires MadeBy(past, low) && forall i :: 0 <= i < |kept| ==> low < kept[i].stamp <= high
    ensures Window(past + kept, low, high) == kept
    decreases |past|
  {
    if past != [] {
      Lists.TailOfConcat(past, kept);
      WindowKept(past[1..], kept, low, high);
      Lists.EmptyConcat(kept);
    } else {
      Lists.EmptyConcat(kept);
      WindowOfAll(kept, low, high);
    }
  }

  lemma KeptInWindow(past: seq<Reservation>, kept: seq<Reservation>, low: real, high: real)
    requires InOrder(past + kept) && MadeBy(past + kept, high) && MadeBy(past, low) && (kept != [] ==> low < kept[0].stamp)
    ensures kept == Window(past + kept, low, high)
  {
    var all := past + kept;
    forall i | 0 <= i < |kept| ensures low < kept[i].stamp <= high {
      assert all[|past|] == kept[0] && all[|past| + i] == kept[i];
    }
    WindowKept(past, kept, low, high);
  }

  lemma {:induction false} WindowInside(all: seq<Reservation>, low: real, high: real)
    ensures forall i :: 0 <= i < |Window(all, low, high)| ==> low < Window(all, low, high)[i].stamp <= high
  {
    if all != [] { WindowInside(all[1..], low, high); }
  }

  lemma {:induction false} WindowAfter(all: seq<Reservation>, low: real, high: real)
    requires forall i :: 0 <= i < |all| ==> all[i].stamp > high
    ensures Window(all, low, high) == []
  {
    if all != [] { WindowAfter(all[1..], low, high); }
  }

  lemma SliceOfRest(all: seq<Reservation>, k: nat, i: nat)
    requires all != [] && k <= i < |all|
    ensures all[1..][k..i] == all[k + 1..i + 1] && [all[0]] + all[1..][0..i] == all[0..i + 1]
  {
  }

  lemma RestInOrder(all: seq<Reservation>)
    requires all != [] && InOrder(all)
    ensures InOrder(all[1..]) && forall j :: 0 <= j < |all[1..]| ==> all[1..][j] == all[j + 1] && all[0].stamp <= all[j + 1].stamp
  {
  }

  /** The reservations of a window stand next to each other. */
  lemma {:induction false} WindowIsSlice(all: seq<Reservation>, low: real, high: real) returns (k: nat, i: nat)
    requires InOrder(all)
    ensures k <= i <= |all| && Window(all, low, high) == all[k..i]
    ensures forall j :: k <= j < i ==> low < all[j].stamp <= high
    ensures (all != [] ==> all[0].stamp > low) ==> k == 0
  {
    if all == [] { return 0, 0; }
    if all[0].stamp > high {
      RestInOrder(all);
      assert forall j :: 0 < j < |all| ==> all[j] == all[1..][j - 1];
      WindowAfter(all, low, high);
      return 0, 0;
    }
    RestInOrder(all);
    k, i := WindowIsSlice(all[1..], low, high);
    SliceOfRest(all, k, i);
    k, i := if all[0].stamp > low then 0 else k + 1, i + 1;
  }

  lemma WindowBounded(all: seq<Reservation>, facts: map<int, Fact>, limit: int, window: real, t: real)
    requires InOrder(all) && Bounded(all, facts, limit, window)
    ensures var w := Window(all, t - window, t); |w| >= 2 ==> Tokens(w) <= limit + Raised(w, facts)
  {
    var k, i := WindowIsSlice(all, t - window, t);
    if i - k >= 2 { assert SliceBounded(all, facts, limit, window, k, i - 1); }
  }

  // ---- reserving and settling

  lemma {:induction false} RaisedFrame(entries: seq<Reservation>, facts: map<int, Fact>, more: map<int, Fact>)
    requires forall i :: 0 <= i < |entries| ==> RaisedBy(entries[i], facts) == RaisedBy(entries[i], more)
    ensures Raised(entries, more) == Raised(entries, facts)
  {
    if entries != [] { RaisedFrame(entries[1..], facts, more); }
  }

  lemma NewEntryOk(all: seq<Reservation>, facts: map<int, Fact>, top: int, now: real, estimate: int)
    requires EntriesOk(all, facts, top) && estimate > 0 && top >= 0
    ensures EntriesOk(all + [Reservation(now, top + 1, estimate)], facts[top + 1 := Fact(estimate, 0, 0)], top + 1)
  {
    var more := facts[top + 1 := Fact(estimate, 0, 0)];
    forall i | 0 <= i < |all| ensures EntryOk(all[i], more, top + 1) && all[i].id != top + 1 {
      assert EntryOk(all[i], facts, top);
    }
  }

  lemma OldSlice(all: seq<Reservation>, e: Reservation, facts: map<int, Fact>, more: map<int, Fact>, k: nat, i: nat)
    requires k < i < |all| && forall j :: 0 <= j < |all| ==> RaisedBy(all[j], facts) == RaisedBy(all[j], more)
    ensures (all + [e])[k..i + 1] == all[k..i + 1] && Raised(all[k..i + 1], more) == Raised(all[k..i + 1], facts)
  {
    RaisedFrame(all[k..i + 1], facts, more);
  }

  /** The reservations still held from the k-th on, and the new one, fit together. */
  lemma NewSlice(entries: seq<Reservation>, e: Reservation, facts: map<int, Fact>, limit: int, k: nat)
    requires k < |entries| && NoneNegative(entries, facts) && e.tokens >= 0 && RaisedBy(e, facts) >= 0
    requires Tokens(entries) + e.tokens <= limit
    ensures Tokens(entries[k..] + [e]) <= limit + Raised(entries[k..] + [e], facts)
  {
    SuffixTokens(entries, facts, k);
    TokensAppend(entries[k..], e);
    SumsPositive(entries[k..] + [e], facts);
  }

  lemma AllNonNegative(entries: seq<Reservation>, facts: map<int, Fact>, top: int)
    requires EntriesOk(entries, facts, top)
    ensures NoneNegative(entries, facts)
  {
    forall i | 0 <= i < |entries| ensures entries[i].tokens >= 0 && RaisedBy(entries[i], facts) >= 0 {
      assert EntryOk(entries[i], facts, top);
    }
  }

  lemma ReserveKeeps(past: seq<Reservation>, entries: seq<Reservation>, facts: map<int, Fact>, top: int, limit: int,
                     window: real, now: real, estimate: int)
    requires EntriesOk(past + entries, facts, top) && Bounded(past + entries, facts, limit, window)
    requires MadeBy(past, now - window) && estimate > 0 && top >= 0
    requires Tokens(entries) + estimate <= limit || entries == []
    ensures var e, more := Reservation(now, top + 1, estimate), facts[top + 1 := Fact(estimate, 0, 0)];
            Bounded(past + entries + [e], more, limit, window)
  {
    var e, more, all := Reservation(now, top + 1, estimate), facts[top + 1 := Fact(estimate, 0, 0)], past + entries;
    var now_ := all + [e];
    NewEntryOk(all, facts, top, now, estimate);
    AllNonNegative(now_, more, top + 1);
    forall j | 0 <= j < |all| ensures RaisedBy(all[j], facts) == RaisedBy(all[j], more) { assert EntryOk(all[j], facts, top); }
    forall k: nat, i: nat ensures SliceBounded(now_, more, limit, window, k, i) {
      if i < |all| {
        assert SliceBounded(all, facts, limit, window, k, i);
        if k < i { OldSlice(all, e, facts, more, k, i); }
      } else if k < i == |all| && now - now_[k].stamp < window {
        HeldSlice(past, entries, e, more, limit, window, k);
      }
    }
  }

  lemma SliceOfHeld(past: seq<Reservation>, entries: seq<Reservation>, e: Reservation, k: nat)
    requires |past| <= k < |past + entries|
    ensures (past + entries + [e])[k..|past + entries| + 1] == entries[k - |past|..] + [e]
  {
  }

  lemma PositiveParts(past: seq<Reservation>, entries: seq<Reservation>, e: Reservation, facts: map<int, Fact>)
    requires NoneNegative(past + entries + [e], facts)
    ensures NoneNegative(entries, facts) && e.tokens >= 0 && RaisedBy(e, facts) >= 0
  {
    var all := past + entries + [e];
    assert all[|all| - 1] == e;
    forall j | 0 <= j < |entries| ensures entries[j].tokens >= 0 && RaisedBy(entries[j], facts) >= 0 {
      assert entries[j] == all[|past| + j];
    }
  }

  /** A reservation made after the cutoff has not been evicted. */
  lemma StillHeld(past: seq<Reservation>, entries: seq<Reservation>, cutoff: real, k: nat)
    requires k < |past + entries| && MadeBy(past, cutoff) && (past + entries)[k].stamp > cutoff
    ensures k >= |past|
  {
    assert forall j :: 0 <= j < |past| ==> (past + entries)[j] == past[j];
  }

  lemma HeldSlice(past: seq<Reservation>, entries: seq<Reservation>, e: Reservation, facts: map<int, Fact>, limit: int,
                  window: real, k: nat)
    requires k < |past + entries| && MadeBy(past, e.stamp - window) && e.stamp - (past + entries)[k].stamp < window
    requires NoneNegative(past + entries + [e], facts) && (Tokens(entries) + e.tokens <= limit || entries == [])
    ensures var all := past + entries + [e];
            Tokens(all[k..|past + entries| + 1]) <= limit + Raised(all[k..|past + entries| + 1], facts)
  {
    StillHeld(past, entries, e.stamp - window, k);
    SliceOfHeld(past, entries, e, k);
    PositiveParts(past, entries, e, facts);
    NewSlice(entries, e, facts, limit, k - |past|);
  }

  lemma LastInOrder(all: seq<Reservation>, e: Reservation)
    requires InOrder(all) && MadeBy(all, e.stamp)
    ensures InOrder(all + [e]) && MadeBy(all + [e], e.stamp)
  {
  }

  /** The facts after the reservation `id` has been settled once more, from `before` tokens to `after`. */
  function SettleFact(facts: map<int, Fact>, id: int, before: int, after: int): map<int, Fact> {
    if id in facts
    then facts[id := Fact(facts[id].estimate, facts[id].raised + Positive(after - before), facts[id].settled + 1)] else facts
  }

  lemma SettleEntriesOk(all: seq<Reservation>, facts: map<int, Fact>, top: int, k: nat, tokens: int)
    requires EntriesOk(all, facts, top) && k < |all| && tokens >= 0
    ensures EntriesOk(all[k := all[k].(tokens := tokens)], SettleFact(facts, all[k].id, all[k].tokens, tokens), top)
  {
    var settled, more := all[k := all[k].(tokens := tokens)], SettleFact(facts, all[k].id, all[k].tokens, tokens);
    forall i | 0 <= i < |settled| ensures EntryOk(settled[i], more, top) {
      assert EntryOk(all[i], facts, top) && EntryOk(all[k], facts, top);
    }
  }

  /** Every settlement keeps the bound. */
  lemma SettleKeeps(all: seq<Reservation>, facts: map<int, Fact>, top: int, limit: int, window: real, k: nat, tokens: int)
    requires EntriesOk(all, facts, top) && Bounded(all, facts, limit, window) && k < |all|
    ensures Bounded(all[k := all[k].(tokens := tokens)], SettleFact(facts, all[k].id, all[k].tokens, tokens), limit, window)
  {
    var settled, more := all[k := all[k].(tokens := tokens)], SettleFact(facts, all[k].id, all[k].tokens, tokens);
    assert EntryOk(all[k], facts, top);
    forall j | 0 <= j < |all|
      ensures settled[j].tokens - RaisedBy(settled[j], more) <= all[j].tokens - RaisedBy(all[j], facts)
    {
      assert EntryOk(all[j], facts, top);
    }
    forall l: nat, i: nat ensures SliceBounded(settled, more, limit, window, l, i) {
      assert SliceBounded(all, facts, limit, window, l, i);
      if l < i < |all| { SumsCharged(all[l..i + 1], settled[l..i + 1], facts, more); }
    }
  }

  lemma SliceOk(all: seq<Reservation>, facts: map<int, Fact>, top: int, k: nat, i: nat)
    requires EntriesOk(all, facts, top) && k <= i <= |all|
    ensures EntriesOk(all[k..i], facts, top)
  {
    forall j | 0 <= j < i - k ensures EntryOk(all[k..i][j], facts, top) { assert all[k..i][j] == all[k + j]; }
  }

  /** What the reservations that were settled hold over their estimates. */
  ghost function Overshoot(entries: seq<Reservation>, facts: map<int, Fact>): int {
    if entries == [] then 0
    else (if entries[0].id in facts && facts[entries[0].id].settled > 0
          then Positive(entries[0].tokens - facts[entries[0].id].estimate) else 0) + Overshoot(entries[1..], facts)
  }

  /** When nothing has been settled twice, that is what settlements have added. */
  lemma {:induction false} RaisedIsOvershoot(entries: seq<Reservation>, facts: map<int, Fact>, top: int)
    requires EntriesOk(entries, facts, top) && forall i :: 0 <= i < |entries| ==> facts[entries[i].id].settled <= 1
    ensures Raised(entries, facts) == Overshoot(entries, facts)
  {
    if entries != [] {
      assert EntryOk(entries[0], facts, top);
      EntriesRest(entries, facts, top);
      assert forall i :: 0 <= i < |entries[1..]| ==> entries[1..][i] == entries[i + 1];
      RaisedIsOvershoot(entries[1..], facts, top);
    }
  }

  // ---- the limiter's state

  /** `entries` is the deque and `next` the last id given. The rest is history: `past` are the reservations that were
      evicted, `facts` what is known of each. */
  datatype Ledger = Ledger(past: seq<Reservation>, entries: seq<Reservation>, facts: map<int, Fact>, next: int)

  /** Every reservation ever made, with the tokens it was last settled at. */
  function All(l: Ledger): seq<Reservation> {
    l.past + l.entries
  }

  /** How many entries at the front were made by `cutoff`. */
  function AgedOut(entries: seq<Reservation>, cutoff: real): (n: nat)
    ensures n <= |entries|
  {
    if entries != [] && entries[0].stamp <= cutoff then 1 + AgedOut(entries[1..], cutoff) else 0
  }

  function Evicted(l: Ledger, cutoff: real): Ledger {
    var n := AgedOut(l.entries, cutoff);
    l.(past := l.past + l.entries[..n], entries := l.entries[n..])
  }

  predicate Admits(entries: seq<Reservation>, limit: int, estimate: int) {
    Tokens(entries) + estimate <= limit || entries == []
  }

  function Logged(l: Ledger, now: real, estimate: int): Ledger {
    Ledger(l.past, l.entries + [Reservation(now, l.next + 1, estimate)], l.facts[l.next + 1 := Fact(estimate, 0, 0)], l.next + 1)
  }

  /** One round of the loop in `reserve`. */
  function Tried(l: Ledger, limit: int, window: real, now: real, estimate: int): Ledger {
    var kept := Evicted(l, now - window);
    if Admits(kept.entries, limit, estimate) then Logged(kept, now, estimate) else kept
  }

  /** The index of the entry with this id, or the length. */
  function IndexOfId(entries: seq<Reservation>, id: int): (k: nat)
    ensures k <= |entries| && (k < |entries| ==> entries[k].id == id)
  {
    if entries == [] || entries[0].id == id then 0 else 1 + IndexOfId(entries[1..], id)
  }

  function Settled(l: Ledger, settlement: Settlement): Ledger {
    var Settlement(id, actual) := settlement;
    var k := IndexOfId(l.entries, id);
    if id < 0 || k == |l.entries| then l
    else l.(entries := l.entries[k := l.entries[k].(tokens := Positive(actual))],
            facts := SettleFact(l.facts, id, l.entries[k].tokens, Positive(actual)))
  }

  function SettledAll(l: Ledger, settlements: seq<Settlement>): Ledger
    decreases |settlements|
  {
    if settlements == [] then l else SettledAll(Settled(l, settlements[0]), settlements[1..])
  }

  ghost predicate LedgerOk(l: Ledger, limit: int, window: real, now: real) {
    && l.next >= 0 && EntriesOk(All(l), l.facts, l.next) && Bounded(All(l), l.facts, limit, window)
    && InOrder(All(l)) && MadeBy(All(l), now) && MadeBy(l.past, now - window)
  }

  /** The same reservations, whatever they were settled at. */
  ghost predicate SameMade(a: seq<Reservation>, b: seq<Reservation>) {
    |a| == |b| && forall i :: 0 <= i < |a| ==> a[i].stamp == b[i].stamp && a[i].id == b[i].id
  }

  lemma {:induction false} AgedOutIs(entries: seq<Reservation>, cutoff: real)
    ensures var n := AgedOut(entries, cutoff);
            MadeBy(entries[..n], cutoff) && (n < |entries| ==> entries[n].stamp > cutoff)
  {
    if entries != [] && entries[0].stamp <= cutoff {
      AgedOutIs(entries[1..], cutoff);
      var n := AgedOut(entries, cutoff);
      assert forall i :: 0 < i < n ==> entries[..n][i] == entries[1..][..n - 1][i - 1];
    }
  }

  lemma MadeByConcat(a: seq<Reservation>, b: seq<Reservation>, time: real)
    requires MadeBy(a, time) && MadeBy(b, time)
    ensures MadeBy(a + b, time)
  {
  }

  lemma Later(l: Ledger, limit: int, window: real, before: real, now: real)
    requires LedgerOk(l, limit, window, before) && before <= now
    ensures LedgerOk(l, limit, window, now)
  {
  }

  /** Evicting loses nothing, and leaves exactly the reservations of the window ending now. */
  lemma EvictedOk(l: Ledger, limit: int, window: real, now: real)
    requires LedgerOk(l, limit, window, now) && window > 0.0
    ensures var kept := Evicted(l, now - window);
            All(kept) == All(l) && LedgerOk(kept, limit, window, now) && kept.entries == Window(All(l), now - window, now)
  {
    var n, cutoff := AgedOut(l.entries, now - window), now - window;
    var kept := Evicted(l, cutoff);
    AgedOutIs(l.entries, cutoff);
    Lists.TakeDrop(l.entries, n);
    Lists.Assoc(l.past, l.entries[..n], l.entries[n..]);
    MadeByConcat(l.past, l.entries[..n], cutoff);
    KeptInWindow(kept.past, kept.entries, cutoff, now);
  }

  lemma LoggedOk(l: Ledger, limit: int, window: real, now: real, estimate: int)
    requires LedgerOk(l, limit, window, now) && estimate > 0 && Admits(l.entries, limit, estimate)
    ensures var more := Logged(l, now, estimate);
            All(more) == All(l) + [Reservation(now, l.next + 1, estimate)] && LedgerOk(more, limit, window, now)
  {
    var e := Reservation(now, l.next + 1, estimate);
    NewEntryOk(All(l), l.facts, l.next, now, estimate);
    ReserveKeeps(l.past, l.entries, l.facts, l.next, limit, window, now, estimate);
    Lists.Assoc(l.past, l.entries, [e]);
    LastInOrder(All(l), e);
  }

  lemma {:induction false} LoggedInWindow(all: seq<Reservation>, e: Reservation, low: real)
    requires low < e.stamp
    ensures Window(all + [e], low, e.stamp) == Window(all, low, e.stamp) + [e]
  {
    if all == [] {
      assert all + [e] == [e] && [e][1..] == [];
    } else {
      assert (all + [e])[1..] == all[1..] + [e];
      LoggedInWindow(all[1..], e, low);
    }
  }

  /** Whether an estimate fits, with what was reserved in the window ending at `time`, or would be alone there. */
  ghost predicate FitsIn(all: seq<Reservation>, window: real, time: real, limit: int, estimate: int) {
    var w := Window(all, time - window, time); w == [] || Tokens(w) + estimate <= limit
  }

  lemma RoundDecides(l: Ledger, limit: int, window: real, now: real, estimate: int)
    requires LedgerOk(l, limit, window, now) && window > 0.0
    ensures Admits(Evicted(l, now - window).entries, limit, estimate) <==> FitsIn(All(l), window, now, limit, estimate)
  {
    EvictedOk(l, limit, window, now);
  }

  /** What is logged on what was kept. */
  lemma LoggedFrom(all: seq<Reservation>, kept: Ledger, limit: int, window: real, now: real, estimate: int)
    requires LedgerOk(kept, limit, window, now) && All(kept) == all && kept.entries == Window(all, now - window, now)
    requires estimate > 0 && window > 0.0 && Admits(kept.entries, limit, estimate)
    ensures var t, e := Logged(kept, now, estimate), Reservation(now, kept.next + 1, estimate);
            && LedgerOk(t, limit, window, now) && All(t) == all + [e]
            && var w := Window(all + [e], now - window, now); Tokens(w) <= limit || |w| == 1
  {
    var e := Reservation(now, kept.next + 1, estimate);
    LoggedOk(kept, limit, window, now, estimate);
    LoggedInWindow(all, e, now - window);
    TokensAppend(kept.entries, e);
  }

  lemma RoundIsLog(l: Ledger, limit: int, window: real, now: real, estimate: int)
    requires Admits(Evicted(l, now - window).entries, limit, estimate)
    ensures Tried(l, limit, window, now, estimate) == Logged(Evicted(l, now - window), now, estimate)
    ensures Evicted(l, now - window).next == l.next
  {
  }

  /** What fits is logged. */
  lemma RoundLogs(l: Ledger, limit: int, window: real, now: real, estimate: int)
    requires LedgerOk(l, limit, window, now) && estimate > 0 && window > 0.0 && FitsIn(All(l), window, now, limit, estimate)
    ensures var t, e := Tried(l, limit, window, now, estimate), Reservation(now, l.next + 1, estimate);
            && LedgerOk(t, limit, window, now) && t.next == l.next + 1 && All(t) == All(l) + [e]
            && var w := Window(All(l) + [e], now - window, now); Tokens(w) <= limit || |w| == 1
  {
    EvictedOk(l, limit, window, now);
    RoundIsLog(l, limit, window, now, estimate);
    LoggedFrom(All(l), Evicted(l, now - window), limit, window, now, estimate);
  }

  /** Otherwise what has aged is gone, and the oldest of the rest is to be waited for. */
  lemma RoundWaits(l: Ledger, limit: int, window: real, now: real, estimate: int)
    requires LedgerOk(l, limit, window, now) && window > 0.0 && !FitsIn(All(l), window, now, limit, estimate)
    ensures var t := Tried(l, limit, window, now, estimate);
            && LedgerOk(t, limit, window, now) && t.next == l.next && All(t) == All(l)
            && |t.entries| <= |l.entries| && t.entries != [] && t.entries[0].stamp > now - window
            && (l.entries[0].stamp <= now - window ==> |t.entries| < |l.entries|)
  {
    RoundDecides(l, limit, window, now, estimate);
    EvictedOk(l, limit, window, now);
    WindowInside(All(l), now - window, now);
  }

  /** One reservation more; the others as they were, but for settlements. */
  ghost predicate Reserved(before: seq<Reservation>, now: seq<Reservation>, e: Reservation, unsettled: bool) {
    && |now| == |before| + 1 && now[|before|] == e && SameMade(now[..|before|], before)
    && (unsettled ==> now[..|before|] == before)
  }

  lemma SettledAt(past: seq<Reservation>, entries: seq<Reservation>, k: nat, e: Reservation)
    requires k < |entries|
    ensures past + entries[k := e] == (past + entries)[|past| + k := e] && (past + entries)[|past| + k] == entries[k]
  {
  }

  lemma SameMadeOk(a: seq<Reservation>, b: seq<Reservation>, now: real)
    requires SameMade(a, b) && InOrder(a) && MadeBy(a, now)
    ensures InOrder(b) && MadeBy(b, now)
  {
  }

  lemma SettledOk(l: Ledger, limit: int, window: real, now: real, settlement: Settlement)
    requires LedgerOk(l, limit, window, now)
    ensures var t := Settled(l, settlement);
            && LedgerOk(t, limit, window, now) && SameMade(All(t), All(l)) && t.next == l.next
            && t.past == l.past && SameMade(t.entries, l.entries)
  {
    var k, tokens := IndexOfId(l.entries, settlement.id), Positive(settlement.actual);
    if settlement.id >= 0 && k < |l.entries| {
      var n := |l.past| + k;
      SettledAt(l.past, l.entries, k, l.entries[k].(tokens := tokens));
      SettleEntriesOk(All(l), l.facts, l.next, n, tokens);
      SettleKeeps(All(l), l.facts, l.next, limit, window, n, tokens);
      SameMadeOk(All(l), All(Settled(l, settlement)), now);
    }
  }

  lemma {:induction false} SettledAllOk(l: Ledger, limit: int, window: real, now: real, settlements: seq<Settlement>)
    requires LedgerOk(l, limit, window, now)
    ensures var t := SettledAll(l, settlements);
            && LedgerOk(t, limit, window, now) && SameMade(All(t), All(l)) && t.next == l.next
            && t.past == l.past && SameMade(t.entries, l.entries)
    decreases |settlements|
  {
    if settlements != [] {
      SettledOk(l, limit, window, now, settlements[0]);
      SettledAllOk(Settled(l, settlements[0]), limit, window, now, settlements[1..]);
    }
  }

  /** A settlement replaces the tokens of exactly the reservation it is for, if that is still held. */
  lemma SettledExactly(l: Ledger, limit: int, window: real, now: real, settlement: Settlement)
    requires LedgerOk(l, limit, window, now)
    ensures |Settled(l, settlement).entries| == |l.entries|
    ensures forall i :: 0 <= i < |l.entries| ==>
              Settled(l, settlement).entries[i] ==
                if l.entries[i].id == settlement.id
                then Reservation(l.entries[i].stamp, settlement.id, Positive(settlement.actual)) else l.entries[i]
  {
    IndexFirst(l.entries, settlement.id);
    forall i | 0 <= i < |l.entries| ensures l.entries[i].id > 0 && forall j :: i < j < |l.entries| ==> l.entries[i].id < l.entries[j].id {
      assert All(l)[|l.past| + i] == l.entries[i] && EntryOk(All(l)[|l.past| + i], l.facts, l.next);
      forall j | i < j < |l.entries| ensures l.entries[i].id < l.entries[j].id { assert All(l)[|l.past| + j] == l.entries[j]; }
    }
  }

  lemma {:induction false} IndexFirst(entries: seq<Reservation>, id: int)
    ensures forall i :: 0 <= i < IndexOfId(entries, id) ==> entries[i].id != id
  {
    if entries != [] && entries[0].id != id {
      IndexFirst(entries[1..], id);
      forall i | 0 < i < IndexOfId(entries, id) ensures entries[i].id != id { assert entries[i] == entries[1..][i - 1]; }
    }
  }

  class TpmLimiter {
    const limit: int
    const window: real
    const clock: Clock
    var entries: seq<Reservation>
    var nextId: int
    ghost var past: seq<Reservation>
    ghost var facts: map<int, Fact>

    constructor (limit: int, window: real, clock: Clock)
      requires clock.Valid() && window > 0.0
      ensures Valid() && this.limit == limit && this.window == window && this.clock == clock
      ensures View() == Ledger([], [], map[], 0)
    {
      this.limit, this.window, this.clock, entries, nextId, past, facts := limit, window, clock, [], 0, [], map[];
    }

    ghost function View(): Ledger
      reads this
    {
      Ledger(past, entries, facts, nextId)
    }

    ghost predicate Valid()
      reads this, clock
    {
      clock.Valid() && window > 0.0 && LedgerOk(View(), limit, window, clock.now)
    }

    method Evict(now: real)
      modifies this`entries, this`past
      ensures View() == Evicted(old(View()), now - window)
    {
      ghost var n := AgedOut(entries, now - window);
      ghost var i := 0;
      while entries != [] && entries[0].stamp <= now - window
        invariant 0 <= i <= n && entries == old(entries)[i..] && past == old(past) + old(entries)[..i]
        invariant i + AgedOut(entries, now - window) == n
        decreases |entries|
      {
        assert old(entries)[..i + 1] == old(entries)[..i] + [old(entries)[i]];
        past := past + [entries[0]];
        entries := entries[1..];
        i := i + 1;
      }
    }

    method Log(now: real, estimate: int) returns (id: int)
      modifies this`entries, this`nextId, this`facts
      ensures View() == Logged(old(View()), now, estimate) && id == nextId
    {
      nextId := nextId + 1;
      facts := facts[nextId := Fact(estimate, 0, 0)];
      entries := entries + [Reservation(now, nextId, estimate)];
      return nextId;
    }

    /** One round of the loop in `reserve`: an id, or how long to sleep. */
    method TryReserve(now: real, estimate: int) returns (id: int, wait: real)
      modifies this
      ensures View() == Tried(old(View()), limit, window, now, estimate)
      ensures if nextId == old(nextId) then id == -1 && entries != [] && wait == window - (now - entries[0].stamp)
              else id == nextId
    {
      Evict(now);
      wait := 0.0;
      if Tokens(entries) + estimate <= limit || entries == [] {
        id := Log(now, estimate);
      } else {
        id, wait := -1, window - (now - entries[0].stamp);
      }
    }

    /** `settle`: the actual usage replaces the estimate, unless the reservation has been evicted. */
    method Settle(id: int, actual: int)
      modifies this`entries, this`facts
      ensures View() == if limit <= 0 then old(View()) else Settled(old(View()), Settlement(id, actual))
    {
      if id < 0 || limit <= 0 { return; }
      var i := 0;
      while i < |entries|
        invariant 0 <= i <= |entries|
        invariant i + IndexOfId(entries[i..], id) == IndexOfId(entries, id)
      {
        assert entries[i..][1..] == entries[i + 1..];
        if entries[i].id == id {
          facts := SettleFact(facts, id, entries[i].tokens, Positive(actual));
          entries := entries[i := entries[i].(tokens := Positive(actual))];
          return;
        }
        i := i + 1;
      }
    }

    method SettleAll(settlements: seq<Settlement>)
      requires limit > 0
      modifies this`entries, this`facts
      ensures View() == SettledAll(old(View()), settlements)
    {
      assert settlements[0..] == settlements;
      for i := 0 to |settlements|
        invariant SettledAll(View(), settlements[i..]) == SettledAll(old(View()), settlements)
      {
        assert settlements[i..][1..] == settlements[i + 1..];
        Settle(settlements[i].id, settlements[i].actual);
      }
    }

    /** What was reserved in the window that ends at `time`, of all that was ever reserved. */
    ghost function InWindow(time: real): seq<Reservation>
      reads this
    {
      Window(All(View()), time - window, time)
    }

    /** `reserve`: after at most as many sleeps as there were entries, the estimate is logged. It then fits, with all
        that was reserved in the window ending now, within the limit, or it is alone in that window; and the call has
        slept only if at its first look, at `full`, it did not fit and was not alone. The lock is held throughout, but
        others may settle meanwhile: `meanwhile[k]` during the k-th sleep. */
    method Reserve(estimate: int, meanwhile: seq<seq<Settlement>>) returns (id: int, ghost full: real)
      requires Valid()
      modifies this, clock
      ensures Valid() && clock.sleeps <= old(clock.sleeps) + |old(entries)|
      ensures limit <= 0 || estimate <= 0 ==> id == -1 && View() == old(View())
      ensures limit > 0 && estimate > 0 ==>
                && id == nextId == old(nextId) + 1
                && Reserved(old(All(View())), All(View()), Reservation(clock.now, id, estimate), meanwhile == [])
                && (Tokens(InWindow(clock.now)) <= limit || |InWindow(clock.now)| == 1)
      ensures clock.sleeps > old(clock.sleeps) ==>
                old(clock.now) <= full <= clock.now && !FitsIn(old(All(View())), window, full, limit, estimate)
    {
      full := clock.now;
      if limit <= 0 || estimate <= 0 { return -1, full; }
      while true
        invariant Valid() && nextId == old(nextId) && SameMade(All(View()), old(All(View())))
        invariant clock.sleeps == old(clock.sleeps) || meanwhile == [] ==> All(View()) == old(All(View()))
        invariant old(clock.now) <= full <= clock.now
        invariant clock.sleeps > old(clock.sleeps) ==> !FitsIn(old(All(View())), window, full, limit, estimate)
        invariant old(clock.sleeps) <= clock.sleeps && |entries| <= |old(entries)|
        invariant clock.sleeps == old(clock.sleeps)
                  || (&& clock.sleeps + |entries| <= old(clock.sleeps) + |old(entries)| + 1
                      && entries != [] && entries[0].stamp <= clock.now - window)
        decreases |entries|, old(clock.sleeps) + 1 - clock.sleeps
      {
        var now := clock.Read();
        var wait;
        id, wait := TryOnce(now, estimate);
        if id >= 0 { return; }
        var k := clock.sleeps;
        if k == old(clock.sleeps) { full := now; }
        clock.Sleep(wait);
        SettleMeanwhile(if k < |meanwhile| then meanwhile[k] else []);
      }
    }

    /** A round seen from outside. */
    method TryOnce(now: real, estimate: int) returns (id: int, wait: real)
      requires Valid() && now == clock.now && limit > 0 && estimate > 0
      modifies this
      ensures Valid() && (id >= 0 <==> FitsIn(old(All(View())), window, now, limit, estimate))
      ensures id >= 0 ==>
                && id == nextId == old(nextId) + 1 && All(View()) == old(All(View())) + [Reservation(now, id, estimate)]
                && (Tokens(InWindow(now)) <= limit || |InWindow(now)| == 1)
      ensures id < 0 ==>
                && nextId == old(nextId) && All(View()) == old(All(View()))
                && |entries| <= |old(entries)| && entries != [] && wait == window - (now - entries[0].stamp) > 0.0
                && (old(entries) != [] && old(entries)[0].stamp <= now - window ==> |entries| < |old(entries)|)
    {
      ghost var l := View();
      if FitsIn(All(l), window, now, limit, estimate) {
        RoundLogs(l, limit, window, now, estimate);
      } else {
        RoundWaits(l, limit, window, now, estimate);
      }
      id, wait := TryReserve(now, estimate);
    }

    method SettleMeanwhile(settlements: seq<Settlement>)
      requires Valid() && limit > 0
      modifies this`entries, this`facts
      ensures Valid() && SameMade(All(View()), old(All(View()))) && SameMade(entries, old(entries))
      ensures settlements == [] ==> View() == old(View())
    {
      SettledAllOk(View(), limit, window, clock.now, settlements);
      SettleAll(settlements);
    }

    /** `used_in_window`: the tokens of all the reservations made in the window that ends now, whatever has been
        evicted before. */
    method UsedInWindow() returns (used: int)
      requires Valid()
      modifies this`entries, this`past, clock
      ensures Valid() && All(View()) == old(All(View())) && used == Tokens(InWindow(clock.now))
    {
      var now := clock.Read();
      EvictedOk(View(), limit, window, now);
      Evict(now);
      used := Tokens(entries);
    }

    /** The bound, after any history of reservations and settlements and for any window: what was reserved in it is
        never more than the limit and what settlements have added, unless it is a single reservation. If none has
        been settled twice, the settlements have added what the reservations hold over their estimates. */
    lemma NoWindowOverspent(time: real)
      requires Valid() && |InWindow(time)| >= 2
      ensures var w := InWindow(time);
              && Tokens(w) <= limit + Raised(w, facts)
              && ((forall i :: 0 <= i < |w| ==> w[i].id in facts && facts[w[i].id].settled <= 1) ==>
                    Tokens(w) <= limit + Overshoot(w, facts))
    {
      var w := InWindow(time);
      WindowBounded(All(View()), facts, limit, window, time);
      if forall i :: 0 <= i < |w| ==> w[i].id in facts && facts[w[i].id].settled <= 1 {
        var k, i := WindowIsSlice(All(View()), time - window, time);
        SliceOk(All(View()), facts, nextId, k, i);
        RaisedIsOvershoot(w, facts, nextId);
      }
    }
  }

  /** What reservations hold over their estimates does not bound them when one is settled twice. With a limit of 10,
      ten tokens are reserved and one is used; nine more are reserved; then the first is settled again, at ten. The two
      hold 19 and neither more than was estimated; the second settlement has added the 9. */
  lemma SettledTwiceOverruns(now: real)
    ensures var l := Settled(Tried(Settled(Tried(Ledger([], [], map[], 0), 10, 60.0, now, 10), Settlement(1, 1)),
                                   10, 60.0, now, 9), Settlement(1, 10));
            var w := Window(All(l), now - 60.0, now);
            |w| == 2 && Tokens(w) == 19 && Overshoot(w, l.facts) == 0 && Raised(w, l.facts) == 9
  {
    var a, b := Reservation(now, 1, 10), Reservation(now, 2, 9);
    TenTried(now);
    var l := Ledger([], [a.(tokens := 1)], map[1 := Fact(10, 0, 1)], 1);
    assert Settled(Ledger([], [a], map[1 := Fact(10, 0, 0)], 1), Settlement(1, 1)) == l;
    NineTried(now, l);
    var m := Ledger([], [a.(tokens := 1), b], map[1 := Fact(10, 0, 1), 2 := Fact(9, 0, 0)], 2);
    assert IndexOfId(m.entries, 1) == 0;
    assert Settled(m, Settlement(1, 10)) == Ledger([], [a, b], map[1 := Fact(10, 9, 2), 2 := Fact(9, 0, 0)], 2);
    assert [] + [a, b] == [a, b];
    WindowOfTwo(a, b, now - 60.0, now);
    TwoSums(a, b, map[1 := Fact(10, 9, 2), 2 := Fact(9, 0, 0)]);
  }

  lemma NothingEvicted(l: Ledger, cutoff: real)
    requires l.entries == [] || l.entries[0].stamp > cutoff
    ensures Evicted(l, cutoff) == l
  {
    assert l.entries[..0] == [] && l.entries[0..] == l.entries && l.past + [] == l.past;
  }

  lemma FirstLogged(now: real, estimate: int)
    ensures Logged(Ledger([], [], map[], 0), now, estimate)
            == Ledger([], [Reservation(now, 1, estimate)], map[1 := Fact(estimate, 0, 0)], 1)
  {
    Lists.EmptyConcat([Reservation(now, 1, estimate)]);
  }

  lemma TenTried(now: real)
    ensures Tried(Ledger([], [], map[], 0), 10, 60.0, now, 10)
            == Ledger([], [Reservation(now, 1, 10)], map[1 := Fact(10, 0, 0)], 1)
  {
    var l := Ledger([], [], map[], 0);
    NothingEvicted(l, now - 60.0);
    FirstLogged(now, 10);
  }

  lemma NineTried(now: real, l: Ledger)
    requires l == Ledger([], [Reservation(now, 1, 1)], map[1 := Fact(10, 0, 1)], 1)
    ensures Tried(l, 10, 60.0, now, 9)
            == Ledger([], [Reservation(now, 1, 1), Reservation(now, 2, 9)], map[1 := Fact(10, 0, 1), 2 := Fact(9, 0, 0)], 2)
  {
    assert l.entries[1..] == [] && Tokens(l.entries) == 1;
    NothingEvicted(l, now - 60.0);
  }

  lemma WindowOfTwo(a: Reservation, b: Reservation, low: real, high: real)
    requires low < a.stamp <= high && low < b.stamp <= high
    ensures Window([a, b], low, high) == [a, b] && Tokens([a, b]) == a.tokens + b.tokens
  {
    WindowOfAll([a, b], low, high);
    TokensAppend([a], b);
    assert [a] + [b] == [a, b] && [a][1..] == [] && Tokens([a]) == a.tokens;
  }

  lemma TwoSums(a: Reservation, b: Reservation, facts: map<int, Fact>)
    ensures Raised([a, b], facts) == RaisedBy(a, facts) + RaisedBy(b, facts)
    ensures Overshoot([a, b], facts) == Overshoot([a], facts) + Overshoot([b], facts)
  {
    assert [a, b][1..] == [b] && [a][1..] == [] && [b][1..] == [];
    assert Raised([b], facts) == RaisedBy(b, facts) && Overshoot([a][1..], facts) == 0;
  }
}
