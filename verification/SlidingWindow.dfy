/** Logs of time stamps of which no window holds too many. */
module SlidingWindow {

  ghost predicate Sorted(s: seq<real>) {
    forall i, j :: 0 <= i < j < |s| ==> s[i] <= s[j]
  }

  /** Any `limit + 1` consecutive stamps span at least a window. */
  ghost predicate Spaced(s: seq<real>, limit: nat, window: real) {
    forall i, j :: 0 <= i < j < |s| && j == i + limit ==> s[j] - s[i] >= window
  }

  ghost predicate AllUpTo(s: seq<real>, t: real) {
    forall i :: 0 <= i < |s| ==> s[i] <= t
  }

  /** How many stamps lie in (low, high]. */
  function CountIn(s: seq<real>, low: real, high: real): nat {
    if s == [] then 0 else (if low < s[0] <= high then 1 else 0) + CountIn(s[1..], low, high)
  }

  /** How many stamps at the front are not after `cutoff`. */
  function Aged(s: seq<real>, cutoff: real): (n: nat)
    ensures n <= |s| && AllUpTo(s[..n], cutoff)
    ensures n < |s| ==> s[n] > cutoff
  {
    if s != [] && s[0] <= cutoff then
      var n := 1 + Aged(s[1..], cutoff);
      assert forall i :: 0 < i < n ==> s[i] == s[1..][i - 1];
      n
    else 0
  }

  lemma {:induction false} CountSplit(s: seq<real>, k: nat, low: real, high: real)
    requires k <= |s|
    ensures CountIn(s, low, high) == CountIn(s[..k], low, high) + CountIn(s[k..], low, high)
    ensures CountIn(s[..k], low, high) <= k
  {
    if k > 0 {
      CountSplit(s[1..], k - 1, low, high);
      assert s[..k][1..] == s[1..][..k - 1] && s[k..] == s[1..][k - 1..];
    }
  }

  lemma {:induction false} CountNone(s: seq<real>, low: real, high: real)
    requires forall i :: 0 <= i < |s| ==> s[i] > high
    ensures CountIn(s, low, high) == 0
  {
    if s != [] { CountNone(s[1..], low, high); }
  }

  lemma {:induction false} CountBelow(s: seq<real>, low: real, high: real)
    requires AllUpTo(s, low)
    ensures CountIn(s, low, high) == 0
  {
    if s != [] { CountBelow(s[1..], low, high); }
  }

  lemma {:induction false} CountAll(s: seq<real>, low: real, high: real)
    requires forall i :: 0 <= i < |s| ==> low < s[i] <= high
    ensures CountIn(s, low, high) == |s|
  {
    if s != [] { CountAll(s[1..], low, high); }
  }

  /** The stamps that have not aged out are the ones in the window. */
  lemma CountKept(past: seq<real>, kept: seq<real>, low: real, high: real)
    requires Sorted(past + kept) && AllUpTo(past + kept, high)
    requires AllUpTo(past, low) && (kept != [] ==> low < kept[0])
    ensures CountIn(past + kept, low, high) == |kept|
  {
    CountSplit(past + kept, |past|, low, high);
    assert (past + kept)[..|past|] == past && (past + kept)[|past|..] == kept;
    CountBelow(past, low, high);
    KeptInside(past, kept, low, high);
    CountAll(kept, low, high);
  }

  lemma KeptInside(past: seq<real>, kept: seq<real>, low: real, high: real)
    requires Sorted(past + kept) && AllUpTo(past + kept, high) && (kept != [] ==> low < kept[0])
    ensures forall i :: 0 <= i < |kept| ==> low < kept[i] <= high
  {
    forall i | 0 <= i < |kept| ensures low < kept[i] <= high {
      assert (past + kept)[|past| + i] == kept[i] && (past + kept)[|past|] == kept[0];
    }
  }

  /** No window (t - window, t] holds more than `limit` stamps of a spaced log. */
  lemma {:induction false} WindowBound(s: seq<real>, limit: nat, window: real, t: real)
    requires Sorted(s) && Spaced(s, limit, window) && limit > 0
    ensures CountIn(s, t - window, t) <= limit
  {
    if s == [] {
    } else if !(t - window < s[0] <= t) {
      var rest := s[1..];
      assert forall i :: 0 <= i < |rest| ==> rest[i] == s[i + 1];
      WindowBound(rest, limit, window, t);
    } else {
      var k := if limit <= |s| then limit else |s|;
      CountSplit(s, k, t - window, t);
      forall i | 0 <= i < |s[k..]| ensures s[k..][i] > t {
        assert s[k] - s[0] >= window && s[k..][i] == s[k + i];
      }
      CountNone(s[k..], t - window, t);
    }
  }

  /** A stamp may be added when fewer than `limit` stamps have not aged out. */
  lemma SpacedAppend(past: seq<real>, kept: seq<real>, limit: nat, window: real, now: real)
    requires Sorted(past + kept) && Spaced(past + kept, limit, window) && AllUpTo(past + kept, now)
    requires AllUpTo(past, now - window) && |kept| < limit
    ensures Sorted(past + kept + [now]) && Spaced(past + kept + [now], limit, window)
    ensures AllUpTo(past + kept + [now], now)
  {
    var log, more := past + kept, past + kept + [now];
    forall i, j | 0 <= i < j < |more| && j == i + limit ensures more[j] - more[i] >= window {
      if j == |log| { assert more[i] == past[i]; } else { assert more[i] == log[i] && more[j] == log[j]; }
    }
  }

  function Without<T>(s: seq<T>, k: nat): seq<T>
    requires k < |s|
  {
    s[..k] + s[k + 1..]
  }

  lemma SpacedWithout(s: seq<real>, k: nat, limit: nat, window: real, now: real)
    requires Sorted(s) && Spaced(s, limit, window) && AllUpTo(s, now) && k < |s|
    ensures Sorted(Without(s, k)) && Spaced(Without(s, k), limit, window) && AllUpTo(Without(s, k), now)
  {
    var r := Without(s, k);
    forall i, j | 0 <= i < j < |r| && j == i + limit ensures r[j] - r[i] >= window {
      var i', j' := if i < k then i else i + 1, if j < k then j else j + 1;
      assert r[i] == s[i'] && r[j] == s[j'];
      assert s[i' + limit] - s[i'] >= window;
    }
  }
}
