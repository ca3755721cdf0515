/** An lxml document as the EPUB code sees it.

    The nodes form a tree that the modelled code never restructures, so a node is identified by its
    address: the child indices that lead to it from the root. `getparent` drops the last index,
    `getprevious` decrements it, and an ancestor is a prefix.

    Text hangs on two kinds of position, `elem.text` (before the first child) and `elem.tail`
    (after the node, inside its parent). A document's text content maps positions to strings;
    a missing entry is lxml's `None`, which the code always reads as "". */
module XmlTree {
  import opened Lists

  type Addr = seq<nat>

  /** `Other` is a comment, a processing instruction or an entity reference: a node whose `tag` is not a string. */
  datatype Tree = Element(name: string, kids: seq<Tree>) | Other

  datatype Slot = Text(at: Addr) | Tail(at: Addr)

  type Content = map<Slot, string>

  function Get(c: Content, s: Slot): string {
    if s in c then c[s] else ""
  }

  function Parent(a: Addr): Addr
    requires a != []
  {
    a[..|a| - 1]
  }

  /** The element whose content the position belongs to. */
  function Owner(s: Slot): Addr {
    if s.Text? || s.at == [] then s.at else Parent(s.at)
  }

  predicate ValidAddr(t: Tree, a: Addr) {
    a == [] || (t.Element? && a[0] < |t.kids| && ValidAddr(t.kids[a[0]], a[1..]))
  }

  function At(t: Tree, a: Addr): Tree
    requires ValidAddr(t, a)
  {
    if a == [] then t else At(t.kids[a[0]], a[1..])
  }

  /** Every node from `t` down to address `p`, both included, is an element not named in `stop`. */
  predicate Open(t: Tree, p: Addr, stop: set<string>) {
    t.Element? && t.name !in stop && (p == [] || (p[0] < |t.kids| && Open(t.kids[p[0]], p[1..], stop)))
  }

  /** The text positions of the subtree `t` rooted at `at`, in document order, not descending into
      elements named in `stop`. With an empty `stop` these are all positions owned in the subtree. */
  function Walk(t: Tree, at: Addr, stop: set<string>): seq<Slot>
    decreases t, 1, 0
  {
    if t.Element? && t.name !in stop then [Text(at)] + WalkKids(t, at, 0, stop) else []
  }

  function WalkKids(t: Tree, at: Addr, i: nat, stop: set<string>): seq<Slot>
    requires t.Element? && i <= |t.kids|
    decreases t, 0, |t.kids| - i
  {
    if i == |t.kids| then []
    else Walk(t.kids[i], at + [i], stop) + [Tail(at + [i])] + WalkKids(t, at, i + 1, stop)
  }

  /** The concatenated text of a list of positions. */
  function TextOf(ps: seq<Slot>, c: Content): string {
    if ps == [] then "" else Get(c, ps[0]) + TextOf(ps[1..], c)
  }

  /** Whether the position at relative path `p` (a tail or a text) is reached by a walk of `t`. */
  predicate Reached(t: Tree, p: Addr, tail: bool, stop: set<string>) {
    t.Element? && t.name !in stop &&
    if p == [] then !tail
    else p[0] < |t.kids| && ((|p| == 1 && tail) || Reached(t.kids[p[0]], p[1..], tail, stop))
  }

  // ---- addresses

  lemma {:induction false} AtAppend(t: Tree, a: Addr, b: Addr)
    ensures ValidAddr(t, a + b) <==> ValidAddr(t, a) && ValidAddr(At(t, a), b)
    ensures ValidAddr(t, a + b) ==> At(t, a + b) == At(At(t, a), b)
  {
    if a == [] {
      assert a + b == b;
    } else {
      assert (a + b)[1..] == a[1..] + b;
      if t.Element? && a[0] < |t.kids| { AtAppend(t.kids[a[0]], a[1..], b); }
    }
  }

  lemma {:induction false} OpenAppend(t: Tree, a: Addr, b: Addr, stop: set<string>)
    ensures Open(t, a + b, stop) ==> Open(t, a, stop)
    ensures Open(t, a, stop) ==> ValidAddr(t, a)
    ensures Open(t, a + b, stop) && b != [] ==>
              At(t, a).Element? && b[0] < |At(t, a).kids| && Open(At(t, a).kids[b[0]], b[1..], stop)
  {
    if a == [] {
      assert a + b == b;
    } else {
      assert (a + b)[1..] == a[1..] + b;
      if t.Element? && a[0] < |t.kids| { OpenAppend(t.kids[a[0]], a[1..], b, stop); }
    }
  }

  // ---- which positions a walk lists

  predicate WalkHas(t: Tree, at: Addr, stop: set<string>, s: Slot) {
    at <= s.at && Reached(t, s.at[|at|..], s.Tail?, stop)
  }

  lemma {:induction false} WalkMembers(t: Tree, at: Addr, stop: set<string>, s: Slot)
    ensures s in Walk(t, at, stop) <==> WalkHas(t, at, stop, s)
    decreases t, 1, 0
  {
    if t.Element? && t.name !in stop {
      WalkKidsMembers(t, at, 0, stop, s);
      if at <= s.at && s.at != at {
        assert s.at == at + s.at[|at|..];
      }
      assert Walk(t, at, stop) == [Text(at)] + WalkKids(t, at, 0, stop);
      assert s in Walk(t, at, stop) <==> s == Text(at) || s in WalkKids(t, at, 0, stop);
    }
  }

  lemma {:induction false} WalkKidsMembers(t: Tree, at: Addr, i: nat, stop: set<string>, s: Slot)
    requires t.Element? && t.name !in stop && i <= |t.kids|
    ensures s in WalkKids(t, at, i, stop) <==>
              at < s.at && i <= s.at[|at|] && WalkHas(t, at, stop, s)
    decreases t, 0, |t.kids| - i
  {
    if i == |t.kids| {
      if at < s.at { assert s.at[|at|..][0] == s.at[|at|]; }
    } else {
      WalkMembers(t.kids[i], at + [i], stop, s);
      WalkKidsMembers(t, at, i + 1, stop, s);
      if at < s.at {
        var p := s.at[|at|..];
        assert p[0] == s.at[|at|];
        if p[0] == i {
          assert at + [i] <= s.at;
          assert s.at[|at + [i]|..] == p[1..];
          if |p| == 1 { assert s.at == at + [i]; }
        } else {
          assert !(at + [i] <= s.at);
        }
      }
    }
  }

  lemma {:induction false} WalkNoDup(t: Tree, at: Addr, stop: set<string>)
    ensures NoDup(Walk(t, at, stop))
    decreases t, 1, 0
  {
    if t.Element? && t.name !in stop {
      WalkKidsNoDup(t, at, 0, stop);
      WalkKidsMembers(t, at, 0, stop, Text(at));
      NoDupConcat([Text(at)], WalkKids(t, at, 0, stop));
    }
  }

  lemma {:induction false} WalkKidsNoDup(t: Tree, at: Addr, i: nat, stop: set<string>)
    requires t.Element? && t.name !in stop && i <= |t.kids|
    ensures NoDup(WalkKids(t, at, i, stop))
    decreases t, 0, |t.kids| - i
  {
    if i < |t.kids| {
      var w, l, r := Walk(t.kids[i], at + [i], stop), [Tail(at + [i])], WalkKids(t, at, i + 1, stop);
      WalkNoDup(t.kids[i], at + [i], stop);
      WalkKidsNoDup(t, at, i + 1, stop);
      WalkMembers(t.kids[i], at + [i], stop, Tail(at + [i]));
      NoDupConcat(w, l);
      forall x | x in w + l ensures x !in r {
        WalkMembers(t.kids[i], at + [i], stop, x);
        WalkKidsMembers(t, at, i + 1, stop, x);
      }
      NoDupConcat(w + l, r);
    }
  }

  // ---- splitting a walk around a node

  /** The position just before a node: its previous sibling's tail, or its parent's text. */
  function Before(a: Addr): Slot
    requires a != []
  {
    var i := a[|a| - 1];
    if i == 0 then Text(Parent(a)) else Tail(Parent(a) + [i - 1])
  }

  lemma {:induction false} WalkKidsSplit(t: Tree, at: Addr, j: nat, i: nat, stop: set<string>) returns (pre: seq<Slot>)
    requires t.Element? && j <= i <= |t.kids|
    ensures WalkKids(t, at, j, stop) == pre + WalkKids(t, at, i, stop)
    ensures if i == j then pre == [] else pre != [] && pre[|pre| - 1] == Tail(at + [i - 1])
    decreases i - j
  {
    if i == j {
      pre := [];
      EmptyConcat(WalkKids(t, at, i, stop));
    } else {
      var rest := WalkKidsSplit(t, at, j + 1, i, stop);
      var first := Walk(t.kids[j], at + [j], stop) + [Tail(at + [j])];
      pre := first + rest;
      Assoc(first, rest, WalkKids(t, at, i, stop));
      if rest == [] { EmptyConcat(first); } else { assert pre[|pre| - 1] == rest[|rest| - 1]; }
    }
  }

  lemma Around(x: Slot, left: seq<Slot>, w: seq<Slot>, y: Slot, right: seq<Slot>)
    ensures [x] + (left + (w + [y] + right)) == ([x] + left) + w + [y] + right
  {
  }

  lemma Nested(front: seq<Slot>, pre: seq<Slot>, b: Slot, w: seq<Slot>, t: Slot, post: seq<Slot>, y: Slot, right: seq<Slot>)
    ensures front + (pre + [b] + w + [t] + post) + [y] + right == (front + pre) + [b] + w + [t] + (post + [y] + right)
  {
  }

  /** A walk that reaches the parent of a node reads: ..., the position before the node,
      the node's subtree, the node's tail, ... */
  lemma {:induction false} WalkAround(t: Tree, at: Addr, p: Addr, stop: set<string>)
    returns (pre: seq<Slot>, post: seq<Slot>)
    requires p != [] && Open(t, Parent(p), stop) && ValidAddr(t, p)
    ensures Walk(t, at, stop) ==
            pre + [Before(at + p)] + Walk(At(t, p), at + p, stop) + [Tail(at + p)] + post
    decreases |p|
  {
    var i := p[0];
    var kid := t.kids[i];
    var left := WalkKidsSplit(t, at, 0, i, stop);
    var right := WalkKids(t, at, i + 1, stop);
    var front := [Text(at)] + left;
    Around(Text(at), left, Walk(kid, at + [i], stop), Tail(at + [i]), right);
    if |p| == 1 {
      assert p == [i] && Parent(at + p) == at;
      assert front[|front| - 1] == Before(at + p);
      pre, post := front[..|front| - 1], right;
      assert front == pre + [Before(at + p)];
      assert At(t, p) == kid;
    } else {
      assert Parent(p)[1..] == Parent(p[1..]);
      var pre', post' := WalkAround(kid, at + [i], p[1..], stop);
      assert at + [i] + p[1..] == at + p;
      pre := front + pre';
      post := post' + [Tail(at + [i])] + right;
      Nested(front, pre', Before(at + p), Walk(At(t, p), at + p, stop), Tail(at + p), post', Tail(at + [i]), right);
    }
  }

  // ---- text of a list of positions

  lemma {:induction false} TextOfAppend(a: seq<Slot>, b: seq<Slot>, c: Content)
    ensures TextOf(a + b, c) == TextOf(a, c) + TextOf(b, c)
  {
    if a == [] {
      EmptyConcat(b);
      EmptyConcat(TextOf(b, c));
    } else {
      TailOfConcat(a, b);
      TextOfAppend(a[1..], b, c);
      Assoc(Get(c, a[0]), TextOf(a[1..], c), TextOf(b, c));
    }
  }

  predicate AgreeOn(ps: seq<Slot>, c: Content, d: Content) {
    forall s :: s in ps ==> Get(c, s) == Get(d, s)
  }

  lemma TextOfSingle(s: Slot, c: Content)
    ensures TextOf([s], c) == Get(c, s)
  {
    assert TextOf([s][1..], c) == "" && Get(c, s) + "" == Get(c, s);
  }

  lemma {:induction false} TextOfFrame(ps: seq<Slot>, c: Content, d: Content)
    requires AgreeOn(ps, c, d)
    ensures TextOf(ps, c) == TextOf(ps, d)
  {
    if ps != [] {
      TextOfFrame(ps[1..], c, d);
    }
  }
}
