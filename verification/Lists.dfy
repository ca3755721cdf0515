/** Lists: the shapes of concatenations, and lists without repetitions. */
module Lists {

  lemma Assoc<T>(a: seq<T>, b: seq<T>, c: seq<T>)
    ensures (a + b) + c == a + (b + c)
  {
  }

  /** The head and tail of a concatenation. */
  lemma TailOfConcat<T>(a: seq<T>, b: seq<T>)
    requires a != []
    ensures a + b != [] && (a + b)[0] == a[0] && (a + b)[1..] == a[1..] + b
  {
  }

  lemma Uncons<T>(a: seq<T>)
    requires a != []
    ensures a == [a[0]] + a[1..]
  {
  }

  lemma TakeDrop<T>(a: seq<T>, k: nat)
    requires k <= |a|
    ensures a[..k] + a[k..] == a
  {
  }

  /** Three lists in a row, taken apart again. */
  lemma ThreeParts<T>(s: seq<T>, a: seq<T>, m: seq<T>, b: seq<T>)
    requires s == a + m + b
    ensures s[..|a|] == a && s[|a|..|a| + |m|] == m && s[|a| + |m|..] == b
  {
  }

  lemma InThreeParts<T>(a: seq<T>, m: seq<T>, b: seq<T>, i: nat)
    requires i < |a + m + b|
    ensures (a + m + b)[i] in if i < |a| then a else if i < |a| + |m| then m else b
  {
  }

  lemma EmptyConcat<T>(a: seq<T>)
    ensures a + [] == a && [] + a == a
  {
  }

  function Kept<T>(f: T -> bool, s: seq<T>): seq<T> {
    if s == [] then [] else (if f(s[0]) then [s[0]] else []) + Kept(f, s[1..])
  }

  /** Where a kept element comes from. */
  lemma {:induction false} KeptFrom<T>(f: T -> bool, s: seq<T>, k: nat) returns (n: nat)
    requires k < |Kept(f, s)|
    ensures n < |s| && Kept(f, s)[k] == s[n] && f(s[n])
  {
    if f(s[0]) && k == 0 {
      n := 0;
    } else {
      var m := KeptFrom(f, s[1..], if f(s[0]) then k - 1 else k);
      n := m + 1;
    }
  }

  predicate NoDup<T(==)>(s: seq<T>) {
    forall i, j :: 0 <= i < j < |s| ==> s[i] != s[j]
  }

  lemma NoDupConcat<T>(a: seq<T>, b: seq<T>)
    requires NoDup(a) && NoDup(b) && forall x :: x in a ==> x !in b
    ensures NoDup(a + b)
  {
    forall i, j | 0 <= i < j < |a + b| ensures (a + b)[i] != (a + b)[j] {
      if i < |a| <= j { assert a[i] in a && b[j - |a|] in b; }
    }
  }

  lemma NoDupSplit<T>(a: seq<T>, b: seq<T>)
    requires NoDup(a + b)
    ensures NoDup(a) && NoDup(b) && forall x :: x in a ==> x !in b
  {
    var s := a + b;
    assert forall i :: 0 <= i < |a| ==> a[i] == s[i];
    assert forall j :: 0 <= j < |b| ==> b[j] == s[|a| + j];
  }

  lemma NoDupSwap<T>(a: seq<T>, b: seq<T>)
    requires NoDup(a + b)
    ensures NoDup(b + a) && forall x :: x in b + a <==> x in a + b
  {
    NoDupSplit(a, b);
    NoDupConcat(b, a);
  }

  lemma SubsetSize<T>(a: set<T>, b: set<T>)
    requires a <= b
    ensures |a| <= |b|
  {
    assert b == a + (b - a);
  }

  lemma NoDupCons<T>(x: T, rest: seq<T>)
    ensures NoDup([x] + rest) <==> x !in rest && NoDup(rest)
  {
    if NoDup([x] + rest) {
      NoDupSplit([x], rest);
      assert x in [x];
    }
    if x !in rest && NoDup(rest) { NoDupConcat([x], rest); }
  }

  /** A list has as many distinct elements as it is long exactly if it has no repetitions. */
  lemma {:induction false} SetCount<T>(s: seq<T>)
    ensures |set x | x in s| <= |s|
    ensures |set x | x in s| == |s| <==> NoDup(s)
  {
    if s == [] {
      assert (set x | x in s) == {};
    } else {
      var rest := s[1..];
      SetCount(rest);
      assert s == [s[0]] + rest;
      NoDupCons(s[0], rest);
      assert (set x | x in s) == {s[0]} + (set x | x in rest);
    }
  }

  /** A list without repetitions is as long as the set of its elements is large. */
  lemma {:induction false} NoDupSize<T>(s: seq<T>, elements: set<T>)
    requires NoDup(s) && forall x :: x in s <==> x in elements
    ensures |s| == |elements|
  {
    if s == [] {
      assert elements == {};
    } else {
      var rest := s[1..];
      assert s == [s[0]] + rest;
      NoDupCons(s[0], rest);
      NoDupSize(rest, elements - {s[0]});
    }
  }
}
