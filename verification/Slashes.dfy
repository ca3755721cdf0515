/** Splitting and joining at slashes, and at other characters. */
module Slashes {
  import opened Lists

  function FirstIndex(s: string, c: char): (i: nat)
    ensures i <= |s| && (i < |s| ==> s[i] == c) && forall j :: 0 <= j < i ==> s[j] != c
  {
    if s == "" || s[0] == c then 0 else 1 + FirstIndex(s[1..], c)
  }

  /** `s.split(c)`. */
  function Split(s: string, c: char): seq<string>
    decreases |s|
  {
    var i := FirstIndex(s, c);
    if i == |s| then [s] else [s[..i]] + Split(s[i + 1..], c)
  }

  function StripStart(s: string): string {
    if s != "" && s[0] == '/' then StripStart(s[1..]) else s
  }

  function StripEnd(s: string): string {
    if s != "" && s[|s| - 1] == '/' then StripEnd(s[..|s| - 1]) else s
  }

  function NonEmpty(parts: seq<string>): seq<string> {
    if parts == [] then [] else (if parts[0] == "" then [] else [parts[0]]) + NonEmpty(parts[1..])
  }

  function JoinSlash(steps: seq<string>): string {
    if steps == [] then "" else "/" + steps[0] + JoinSlash(steps[1..])
  }

  predicate PlainStep(s: string) {
    s != "" && forall i :: 0 <= i < |s| ==> s[i] != '/'
  }

  lemma FirstIndexOf(a: string, c: char, b: string)
    requires forall i :: 0 <= i < |a| ==> a[i] != c
    ensures FirstIndex(a + [c] + b, c) == |a|
    ensures FirstIndex(a, c) == |a|
  {
    var s := a + [c] + b;
    assert s[|a|] == c;
    assert forall j :: 0 <= j < |a| ==> s[j] == a[j];
  }

  lemma {:induction false} SplitJoin(first: string, rest: seq<string>)
    requires PlainStep(first) && forall i :: 0 <= i < |rest| ==> PlainStep(rest[i])
    ensures Split(first + JoinSlash(rest), '/') == [first] + rest
    decreases |rest|
  {
    if rest == [] {
      assert first + JoinSlash(rest) == first;
      FirstIndexOf(first, '/', "");
    } else {
      var tail := rest[0] + JoinSlash(rest[1..]);
      var s := first + JoinSlash(rest);
      Regroup(first, rest[0], JoinSlash(rest[1..]));
      FirstIndexOf(first, '/', tail);
      Around(first, '/', tail);
      SplitJoin(rest[0], rest[1..]);
      Uncons(rest);
    }
  }

  lemma Regroup(a: string, b: string, c: string)
    ensures a + ("/" + b + c) == a + ['/'] + (b + c)
  {
  }

  lemma Around(a: string, x: char, b: string)
    ensures var s := a + [x] + b; |s| > |a| && s[..|a|] == a && s[|a| + 1..] == b
  {
  }

  lemma {:induction false} NonEmptyPlain(parts: seq<string>)
    requires forall i :: 0 <= i < |parts| ==> PlainStep(parts[i])
    ensures NonEmpty(parts) == parts
  {
    if parts != [] { NonEmptyPlain(parts[1..]); }
  }

  lemma {:induction false} JoinSlashEnd(first: string, rest: seq<string>)
    requires PlainStep(first) && forall i :: 0 <= i < |rest| ==> PlainStep(rest[i])
    ensures var s := first + JoinSlash(rest); s != "" && s[0] != '/' && s[|s| - 1] != '/'
    decreases |rest|
  {
    if rest != [] {
      JoinSlashEnd(rest[0], rest[1..]);
      var tail := rest[0] + JoinSlash(rest[1..]);
      assert first + JoinSlash(rest) == first + "/" + tail;
    }
  }

  lemma JoinSlashCons(first: string, rest: seq<string>)
    ensures JoinSlash([first] + rest) == "/" + (first + JoinSlash(rest))
  {
    assert ([first] + rest)[1..] == rest;
    assert "/" + first + JoinSlash(rest) == "/" + (first + JoinSlash(rest));
  }
}
