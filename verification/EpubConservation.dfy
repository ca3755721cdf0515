/** No translated text is lost, repeated or reordered by the write-back, and none of it leaves the unit. */
module EpubConservation {
  import opened Lists
  import opened TextRules
  import opened XmlTree
  import opened EpubWriter

  /** The positions of `ps` that are in `keep`, in order. */
  function Pick(ps: seq<Slot>, keep: set<Slot>): seq<Slot> {
    if ps == [] then [] else (if ps[0] in keep then [ps[0]] else []) + Pick(ps[1..], keep)
  }

  function Members(slots: seq<Slot>): set<Slot> {
    set s | s in slots
  }

  /** The text positions of the unit rooted at `u`. */
  function Region(root: Tree, u: Addr, stop: set<string>): seq<Slot>
    requires ValidAddr(root, u)
  {
    Walk(At(root, u), u, stop)
  }

  /** `resolved` lists, in document order, positions of the region, and the others hold no text. */
  ghost predicate IsUnit(root: Tree, u: Addr, stop: set<string>, c: Content, resolved: seq<Slot>) {
    && resolved != [] && ValidAddr(root, u)
    && resolved == Pick(Region(root, u, stop), Members(resolved))
    && forall s :: s in Region(root, u, stop) && s !in resolved ==> Get(c, s) == ""
  }

  // ---- picked positions

  lemma {:induction false} PickAppend(a: seq<Slot>, b: seq<Slot>, keep: set<Slot>)
    ensures Pick(a + b, keep) == Pick(a, keep) + Pick(b, keep)
  {
    if a == [] {
      EmptyConcat(b);
      EmptyConcat(Pick(b, keep));
    } else {
      TailOfConcat(a, b);
      PickAppend(a[1..], b, keep);
      Assoc(if a[0] in keep then [a[0]] else [], Pick(a[1..], keep), Pick(b, keep));
    }
  }

  lemma {:induction false} PickMembers(ps: seq<Slot>, keep: set<Slot>)
    ensures forall s :: s in Pick(ps, keep) <==> s in ps && s in keep
    ensures NoDup(ps) ==> NoDup(Pick(ps, keep))
  {
    if ps != [] {
      PickMembers(ps[1..], keep);
      assert ps == [ps[0]] + ps[1..];
      if NoDup(ps) {
        assert NoDup(ps[1..]);
        forall x | x in Pick(ps[1..], keep) ensures x != ps[0] {
          var i :| 0 <= i < |ps[1..]| && ps[1..][i] == x;
          assert ps[i + 1] == x;
        }
        if ps[0] in keep { NoDupConcat([ps[0]], Pick(ps[1..], keep)); }
      }
    }
  }

  /** If the picked positions hold `texts` and the others nothing, the text is `texts` joined. */
  lemma {:induction false} PickText(ps: seq<Slot>, keep: set<Slot>, texts: seq<string>, d: Content)
    requires |texts| == |Pick(ps, keep)|
    requires forall i :: 0 <= i < |texts| ==> Get(d, Pick(ps, keep)[i]) == texts[i]
    requires forall s :: s in ps && s !in keep ==> Get(d, s) == ""
    ensures TextOf(ps, d) == Concat(texts)
  {
    if ps != [] {
      var rest := Pick(ps[1..], keep);
      if ps[0] in keep {
        assert forall i :: 0 <= i < |rest| ==> rest[i] == Pick(ps, keep)[i + 1];
        PickText(ps[1..], keep, texts[1..], d);
      } else {
        assert Pick(ps, keep) == rest;
        PickText(ps[1..], keep, texts, d);
      }
    }
  }

  lemma {:induction false} EmptyText(ps: seq<Slot>, d: Content)
    requires forall s :: s in ps ==> Get(d, s) == ""
    ensures TextOf(ps, d) == ""
  {
    if ps != [] { EmptyText(ps[1..], d); }
  }

  lemma {:induction false} OneText(ps: seq<Slot>, d: Content, x: Slot)
    requires NoDup(ps) && x in ps
    requires forall s :: s in ps && s != x ==> Get(d, s) == ""
    ensures TextOf(ps, d) == Get(d, x)
  {
    assert NoDup(ps[1..]);
    if ps[0] == x {
      assert forall s :: s in ps[1..] ==> s != x;
      EmptyText(ps[1..], d);
    } else {
      OneText(ps[1..], d, x);
    }
  }

  lemma {:induction false} SetAllGet(c: Content, slots: seq<Slot>, texts: seq<string>)
    requires |slots| == |texts|
    ensures forall s :: s !in slots ==> Get(SetAll(c, slots, texts), s) == Get(c, s)
    ensures NoDup(slots) ==> forall i :: 0 <= i < |slots| ==> Get(SetAll(c, slots, texts), slots[i]) == texts[i]
    decreases |slots|
  {
    if slots != [] {
      var c' := c[slots[0] := texts[0]];
      SetAllGet(c', slots[1..], texts[1..]);
      if NoDup(slots) {
        assert NoDup(slots[1..]);
        assert slots[0] !in slots[1..];
        forall i | 0 <= i < |slots| ensures Get(SetAll(c, slots, texts), slots[i]) == texts[i] {
          if i > 0 { assert slots[i] == slots[1..][i - 1]; }
        }
      }
    }
  }

  lemma ClearedGet(c: Content, slots: seq<Slot>)
    requires NoDup(slots)
    ensures forall s :: Get(SetAll(c, slots, Blanks(|slots|)), s) == if s in slots then "" else Get(c, s)
  {
    SetAllGet(c, slots, Blanks(|slots|));
  }

  // ---- placing an initial

  lemma NoDupAround(pre: seq<Slot>, b: Slot, mid: seq<Slot>, t: Slot, post: seq<Slot>)
    requires NoDup(pre + [b] + mid + [t] + post)
    ensures NoDup(mid) && b != t && b !in mid && t !in mid
    ensures forall s :: s in pre || s in post ==> s != b && s != t && s !in mid
  {
    NoDupSplit(pre + [b] + mid + [t], post);
    NoDupSplit(pre + [b] + mid, [t]);
    NoDupSplit(pre + [b], mid);
    NoDupSplit(pre, [b]);
    assert b in pre + [b] && t in [t];
    assert b in pre + [b] + mid && t in pre + [b] + mid + [t];
    assert b in pre + [b] + mid + [t];
    assert forall s :: s in pre ==> s in pre + [b] + mid;
    assert forall s :: s in mid ==> s in pre + [b] + mid && s in pre + [b] + mid + [t];
  }

  lemma PlaceInitialGet(e: Content, inside: seq<Slot>, carrier: Addr, p: Pieces)
    requires carrier != [] && inside != [] && NoDup(inside)
    requires Before(carrier) != Tail(carrier) && Before(carrier) !in inside && Tail(carrier) !in inside
    ensures var d := PlaceInitial(e, inside, carrier, p);
            && Get(d, inside[0]) == p.initial
            && Get(d, Before(carrier)) == Get(e, Before(carrier)) + p.leading
            && Get(d, Tail(carrier)) == p.rest + Get(e, Tail(carrier))
            && (forall s :: s in inside && s != inside[0] ==> Get(d, s) == "")
            && forall s :: s !in inside && s != Before(carrier) && s != Tail(carrier) ==> Get(d, s) == Get(e, s)
  {
    ClearedGet(e, inside);
  }

  lemma TextAround(pre: seq<Slot>, b: Slot, mid: seq<Slot>, t: Slot, post: seq<Slot>, d: Content)
    ensures TextOf(pre + [b] + mid + [t] + post, d)
         == TextOf(pre, d) + Get(d, b) + TextOf(mid, d) + Get(d, t) + TextOf(post, d)
  {
    TextOfSingle(b, d);
    TextOfSingle(t, d);
    TextOfAppend(pre, [b], d);
    TextOfAppend(pre + [b], mid, d);
    TextOfAppend(pre + [b] + mid, [t], d);
    TextOfAppend(pre + [b] + mid + [t], post, d);
  }

  lemma Regroup(a: string, b: string, l: string, i: string, r: string, t: string, q: string)
    ensures a + (b + l) + i + (r + t) + q == (a + b) + (l + i + r) + (t + q)
  {
    assert a + (b + l) + i + (r + t) + q == a + b + l + i + r + t + q;
    assert (a + b) + (l + i + r) + (t + q) == a + b + l + i + r + t + q;
  }

  /** Around a carrier whose own text lies in `inside`, the text becomes the three pieces in order. */
  lemma PlaceInitialText(e: Content, pre: seq<Slot>, mid: seq<Slot>, post: seq<Slot>,
                         inside: seq<Slot>, carrier: Addr, p: Pieces)
    requires carrier != [] && inside != [] && NoDup(inside)
    requires NoDup(pre + [Before(carrier)] + mid + [Tail(carrier)] + post)
    requires forall s :: s in inside ==> s in mid
    requires forall s :: s in mid && s !in inside ==> Get(e, s) == ""
    ensures var d := PlaceInitial(e, inside, carrier, p);
            TextOf(pre + [Before(carrier)] + mid + [Tail(carrier)] + post, d)
            == TextOf(pre + [Before(carrier)], e) + (p.leading + p.initial + p.rest) + TextOf([Tail(carrier)] + post, e)
  {
    var b, t := Before(carrier), Tail(carrier);
    var d := PlaceInitial(e, inside, carrier, p);
    NoDupAround(pre, b, mid, t, post);
    PlaceInitialGet(e, inside, carrier, p);
    TextAround(pre, b, mid, t, post, d);
    TextOfFrame(pre, d, e);
    TextOfFrame(post, d, e);
    OneText(mid, d, inside[0]);
    TextOfAppend(pre, [b], e);
    TextOfAppend([t], post, e);
    TextOfSingle(b, e);
    TextOfSingle(t, e);
    Regroup(TextOf(pre, e), Get(e, b), p.leading, p.initial, p.rest, Get(e, t), TextOf(post, e));
  }

  // ---- where a node's own positions lie among those of its unit

  lemma {:induction false} ReachedOwner(t: Tree, p: Addr, tail: bool, stop: set<string>)
    requires Reached(t, p, tail, stop)
    ensures tail ==> p != []
    ensures ValidAddr(t, p) && Open(t, if tail then Parent(p) else p, stop)
  {
    if p != [] && !(|p| == 1 && tail) {
      ReachedOwner(t.kids[p[0]], p[1..], tail, stop);
      if tail { assert Parent(p)[1..] == Parent(p[1..]); }
    }
  }

  lemma {:induction false} ReachedBelow(t: Tree, a: Addr, b: Addr, tail: bool, stop: set<string>)
    requires Reached(t, a + b, tail, stop) && (tail ==> b != [])
    ensures ValidAddr(t, a) && Reached(At(t, a), b, tail, stop)
  {
    if a == [] {
      assert a + b == b;
    } else {
      assert (a + b)[1..] == a[1..] + b;
      ReachedBelow(t.kids[a[0]], a[1..], b, tail, stop);
    }
  }

  lemma RegionOwner(root: Tree, u: Addr, stop: set<string>, s: Slot)
    requires ValidAddr(root, u) && s in Region(root, u, stop)
    ensures u <= Owner(s) && ValidSlot(root, s)
    ensures Open(At(root, u), Owner(s)[|u|..], stop)
  {
    WalkMembers(At(root, u), u, stop, s);
    var p := s.at[|u|..];
    ReachedOwner(At(root, u), p, s.Tail?, stop);
    assert s.at == u + p;
    AtAppend(root, u, p);
    if s.Tail? {
      assert Owner(s) == u + Parent(p);
      assert Owner(s)[|u|..] == Parent(p);
    } else {
      OpenAppend(At(root, u), p, [], stop);
      assert p + [] == p;
      OpenIsElement(At(root, u), p, stop);
    }
  }

  lemma {:induction false} OpenIsElement(t: Tree, p: Addr, stop: set<string>)
    requires Open(t, p, stop)
    ensures ValidAddr(t, p) && At(t, p).Element?
  {
    if p != [] { OpenIsElement(t.kids[p[0]], p[1..], stop); }
  }

  lemma {:induction false} OpenPrefix(t: Tree, a: Addr, p: Addr, stop: set<string>)
    requires Open(t, p, stop) && a <= p
    ensures Open(t, a, stop)
  {
    if a != [] { OpenPrefix(t.kids[p[0]], a[1..], p[1..], stop); }
  }

  /** A node strictly inside the unit, on the way to one of its positions `w`: its own positions are
      enclosed by the position before it and its tail. */
  lemma RegionAround(root: Tree, u: Addr, stop: set<string>, b: Addr, w: Slot)
    returns (pre: seq<Slot>, post: seq<Slot>)
    requires ValidAddr(root, u) && w in Region(root, u, stop)
    requires u <= b && b != u && b <= Owner(w)
    ensures ValidAddr(root, b)
    ensures Region(root, u, stop) == pre + [Before(b)] + Region(root, b, stop) + [Tail(b)] + post
  {
    var t, p := At(root, u), b[|u|..];
    assert b == u + p;
    RegionOwner(root, u, stop, w);
    var q := Owner(w)[|u|..];
    assert p <= q;
    OpenPrefix(t, p, q, stop);
    OpenPrefix(t, Parent(p), q, stop);
    OpenIsElement(t, p, stop);
    AtAppend(root, u, p);
    pre, post := WalkAround(t, u, p, stop);
  }

  lemma Slices(u: Addr, b: Addr, x: Addr)
    requires u <= b <= x
    ensures b == u + b[|u|..] && x == b + x[|b|..] && x[|u|..] == b[|u|..] + x[|b|..]
  {
  }

  /** The unit's positions owned at or below a node are that node's own positions. */
  lemma OwnedBelow(root: Tree, u: Addr, stop: set<string>, b: Addr, s: Slot)
    requires ValidAddr(root, u) && u <= b && ValidAddr(root, b) && s in Region(root, u, stop)
    requires b <= Owner(s)
    ensures s in Region(root, b, stop)
  {
    var t := At(root, u);
    assert u <= s.at && Reached(t, s.at[|u|..], s.Tail?, stop) by { WalkMembers(t, u, stop, s); }
    assert s.Tail? ==> s.at[|u|..] != [] by { ReachedOwner(t, s.at[|u|..], s.Tail?, stop); }
    assert b <= s.at && (s.Tail? ==> |b| < |s.at|) by { PrefixTrans(b, Owner(s), s.at); }
    var p, r := b[|u|..], s.at[|b|..];
    Slices(u, b, s.at);
    ReachedBelow(t, p, r, s.Tail?, stop);
    AtAppend(root, u, p);
    WalkMembers(At(root, b), b, stop, s);
  }

  // ---- the slots inside a node are a run of the unit's slots

  function Range(lo: nat, hi: nat): (r: seq<nat>)
    requires lo <= hi
    ensures |r| == hi - lo && forall k :: 0 <= k < |r| ==> r[k] == lo + k
    decreases hi - lo
  {
    if lo == hi then [] else [lo] + Range(lo + 1, hi)
  }

  lemma {:induction false} ScopeIsRange(resolved: seq<Slot>, node: Addr, lo: nat, hi: nat, i: nat)
    requires i <= |resolved| && lo <= hi <= |resolved|
    requires forall k :: 0 <= k < |resolved| ==> (node <= Owner(resolved[k]) <==> lo <= k < hi)
    ensures ScopeIndices(resolved, node, i) == if i <= lo then Range(lo, hi) else if i <= hi then Range(i, hi) else []
    decreases |resolved| - i
  {
    if i < |resolved| {
      ScopeIsRange(resolved, node, lo, hi, i + 1);
      var rest, own := ScopeIndices(resolved, node, i + 1), node <= Owner(resolved[i]);
      OneIndex(rest, lo, hi, i, own);
    }
  }

  lemma OneIndex(rest: seq<nat>, lo: nat, hi: nat, i: nat, own: bool)
    requires lo <= hi && (own <==> lo <= i < hi)
    requires rest == if i + 1 <= lo then Range(lo, hi) else if i + 1 <= hi then Range(i + 1, hi) else []
    ensures (if own then [i] else []) + rest
            == if i <= lo then Range(lo, hi) else if i <= hi then Range(i, hi) else []
  {
    if !own { EmptyConcat(rest); }
  }

  lemma {:induction false} JoinAtRange(texts: seq<string>, lo: nat, hi: nat)
    requires lo <= hi <= |texts|
    ensures JoinAt(texts, Range(lo, hi)) == Concat(texts[lo..hi])
    decreases hi - lo
  {
    if lo < hi {
      assert texts[lo..hi] == [texts[lo]] + texts[lo + 1..hi];
      JoinAtRange(texts, lo + 1, hi);
    }
  }

  /** The run of slots inside `b`, and the text of what lies before and after it. */
  lemma UnitAround(root: Tree, u: Addr, stop: set<string>, c: Content, resolved: seq<Slot>, b: Addr, k: nat)
    returns (pre: seq<Slot>, post: seq<Slot>, lo: nat, hi: nat)
    requires IsUnit(root, u, stop, c, resolved)
    requires k < |resolved| && u <= b && b != u && b <= Owner(resolved[k])
    ensures ValidAddr(root, b)
    ensures Region(root, u, stop) == pre + [Before(b)] + Region(root, b, stop) + [Tail(b)] + post
    ensures lo <= k < hi <= |resolved|
    ensures resolved[..lo] == Pick(pre + [Before(b)], Members(resolved))
    ensures resolved[lo..hi] == Pick(Region(root, b, stop), Members(resolved))
    ensures resolved[hi..] == Pick([Tail(b)] + post, Members(resolved))
    ensures ScopeIndices(resolved, b) == Range(lo, hi)
  {
    var keep := Members(resolved);
    assert resolved[k] in Region(root, u, stop) by { PickMembers(Region(root, u, stop), keep); }
    pre, post := RegionAround(root, u, stop, b, resolved[k]);
    var x, m, y := pre + [Before(b)], Region(root, b, stop), [Tail(b)] + post;
    Assoc(pre + [Before(b)] + m, [Tail(b)], post);
    PickParts(x, m, y, keep);
    ThreeParts(resolved, Pick(x, keep), Pick(m, keep), Pick(y, keep));
    lo, hi := |Pick(x, keep)|, |Pick(x, keep)| + |Pick(m, keep)|;
    WalkNoDup(At(root, u), u, stop);
    forall i | 0 <= i < |resolved| ensures b <= Owner(resolved[i]) <==> lo <= i < hi {
      RunIsInside(root, u, stop, resolved, b, x, m, y, i);
    }
    ScopeIsRange(resolved, b, lo, hi, 0);
  }

  lemma PickParts(x: seq<Slot>, m: seq<Slot>, y: seq<Slot>, keep: set<Slot>)
    ensures Pick(x + m + y, keep) == Pick(x, keep) + Pick(m, keep) + Pick(y, keep)
  {
    PickAppend(x + m, y, keep);
    PickAppend(x, m, keep);
  }

  lemma RunIsInside(root: Tree, u: Addr, stop: set<string>, resolved: seq<Slot>, b: Addr,
                    x: seq<Slot>, m: seq<Slot>, y: seq<Slot>, i: nat)
    requires ValidAddr(root, u) && ValidAddr(root, b) && u <= b && i < |resolved|
    requires m == Region(root, b, stop) && x + m + y == Region(root, u, stop) && NoDup(x + m + y)
    requires var keep := Members(resolved);
             resolved == Pick(x, keep) + Pick(m, keep) + Pick(y, keep)
    ensures var lo := |Pick(x, Members(resolved))|;
            b <= Owner(resolved[i]) <==> lo <= i < lo + |Pick(m, Members(resolved))|
  {
    var keep, s := Members(resolved), resolved[i];
    PickMembers(x, keep);
    PickMembers(m, keep);
    PickMembers(y, keep);
    NoDupSplit(x + m, y);
    NoDupSplit(x, m);
    assert forall z :: z in m ==> z in x + m;
    var lo, hi := |Pick(x, keep)|, |Pick(x, keep)| + |Pick(m, keep)|;
    InThreeParts(Pick(x, keep), Pick(m, keep), Pick(y, keep), i);
    assert s in m <==> lo <= i < hi;
    if b <= Owner(s) { OwnedBelow(root, u, stop, b, s); }
    if s in m { RegionOwner(root, b, stop, s); }
  }

  // ---- conservation

  lemma UnitSlotsValid(root: Tree, u: Addr, stop: set<string>, c: Content, resolved: seq<Slot>)
    requires IsUnit(root, u, stop, c, resolved)
    ensures ValidSlots(root, resolved) && NoDup(resolved) && u <= CommonOf(resolved)
    ensures forall s :: s in resolved ==> s in Region(root, u, stop)
  {
    PickMembers(Region(root, u, stop), Members(resolved));
    WalkNoDup(At(root, u), u, stop);
    forall i | 0 <= i < |resolved| ensures ValidSlot(root, resolved[i]) && u <= Owner(resolved[i]) {
      RegionOwner(root, u, stop, resolved[i]);
    }
    CommonIsGreatest(resolved, u);
  }

  lemma SlotsAtRange(resolved: seq<Slot>, lo: nat, hi: nat)
    requires lo <= hi <= |resolved|
    ensures SlotsAt(resolved, Range(lo, hi)) == resolved[lo..hi]
  {
  }

  /** The slots hold `texts` and the other positions of `all` nothing. */
  ghost predicate Holds(all: seq<Slot>, resolved: seq<Slot>, texts: seq<string>, e: Content) {
    && |texts| == |resolved|
    && (forall i :: 0 <= i < |texts| ==> Get(e, resolved[i]) == texts[i])
    && (forall s :: s in all && s !in resolved ==> Get(e, s) == "")
  }

  lemma PartText(all: seq<Slot>, resolved: seq<Slot>, texts: seq<string>, e: Content,
                 part: seq<Slot>, lo: nat, hi: nat)
    requires Holds(all, resolved, texts, e) && lo <= hi <= |resolved|
    requires (forall s :: s in part ==> s in all) && resolved[lo..hi] == Pick(part, Members(resolved))
    ensures TextOf(part, e) == Concat(texts[lo..hi])
  {
    assert forall i :: 0 <= i < hi - lo ==> resolved[lo..hi][i] == resolved[lo + i];
    PickText(part, Members(resolved), texts[lo..hi], e);
  }

  /** When the unit's slots hold `texts`, splitting an initial around its carrier keeps the text before
      and after the carrier's own slots and puts the three pieces in their place. */
  lemma InitialText(root: Tree, u: Addr, stop: set<string>, c: Content, resolved: seq<Slot>,
                    carrier: Addr, e: Content, texts: seq<string>, p: Pieces)
    returns (lo: nat, hi: nat)
    requires IsUnit(root, u, stop, c, resolved) && Holds(Region(root, u, stop), resolved, texts, e)
    requires u <= carrier && u != carrier && ScopeIndices(resolved, carrier) != []
    ensures lo < hi <= |resolved| && ScopeIndices(resolved, carrier) == Range(lo, hi)
    ensures TextOf(Region(root, u, stop), PlaceInitial(e, SlotsAt(resolved, Range(lo, hi)), carrier, p))
         == Concat(texts[..lo]) + (p.leading + p.initial + p.rest) + Concat(texts[hi..])
  {
    var all := Region(root, u, stop);
    var k := ScopeIndices(resolved, carrier)[0];
    assert k in ScopeIndices(resolved, carrier);
    var pre, post;
    pre, post, lo, hi := UnitAround(root, u, stop, c, resolved, carrier, k);
    SlotsAtRange(resolved, lo, hi);
    UnitSlotsValid(root, u, stop, c, resolved);
    WalkNoDup(At(root, u), u, stop);
    InitialTextAt(all, resolved, texts, e, pre, Region(root, carrier, stop), post, lo, hi, carrier, p);
  }

  lemma InitialTextAt(all: seq<Slot>, resolved: seq<Slot>, texts: seq<string>, e: Content, pre: seq<Slot>,
                      m: seq<Slot>, post: seq<Slot>, lo: nat, hi: nat, carrier: Addr, p: Pieces)
    requires Holds(all, resolved, texts, e) && lo < hi <= |resolved| && carrier != []
    requires NoDup(all) && NoDup(resolved) && all == pre + [Before(carrier)] + m + [Tail(carrier)] + post
    requires resolved[..lo] == Pick(pre + [Before(carrier)], Members(resolved))
    requires resolved[lo..hi] == Pick(m, Members(resolved))
    requires resolved[hi..] == Pick([Tail(carrier)] + post, Members(resolved))
    ensures TextOf(all, PlaceInitial(e, resolved[lo..hi], carrier, p))
         == Concat(texts[..lo]) + (p.leading + p.initial + p.rest) + Concat(texts[hi..])
  {
    var x, y := pre + [Before(carrier)], [Tail(carrier)] + post;
    assert all == x + m + y;
    OuterText(all, resolved, texts, e, x, m, y, lo, hi);
    PlaceRun(all, resolved, texts, e, pre, m, post, lo, hi, carrier, p);
  }

  lemma OuterText(all: seq<Slot>, resolved: seq<Slot>, texts: seq<string>, e: Content,
                  x: seq<Slot>, m: seq<Slot>, y: seq<Slot>, lo: nat, hi: nat)
    requires Holds(all, resolved, texts, e) && lo <= hi <= |resolved| && all == x + m + y
    requires resolved[..lo] == Pick(x, Members(resolved)) && resolved[hi..] == Pick(y, Members(resolved))
    ensures TextOf(x, e) == Concat(texts[..lo]) && TextOf(y, e) == Concat(texts[hi..])
  {
    assert resolved[0..lo] == resolved[..lo] && texts[0..lo] == texts[..lo];
    assert resolved[hi..|resolved|] == resolved[hi..] && texts[hi..|resolved|] == texts[hi..];
    PartText(all, resolved, texts, e, x, 0, lo);
    PartText(all, resolved, texts, e, y, hi, |resolved|);
  }

  lemma PlaceRun(all: seq<Slot>, resolved: seq<Slot>, texts: seq<string>, e: Content, pre: seq<Slot>,
                 m: seq<Slot>, post: seq<Slot>, lo: nat, hi: nat, carrier: Addr, p: Pieces)
    requires Holds(all, resolved, texts, e) && lo < hi <= |resolved| && carrier != []
    requires NoDup(all) && NoDup(resolved) && all == pre + [Before(carrier)] + m + [Tail(carrier)] + post
    requires resolved[lo..hi] == Pick(m, Members(resolved))
    ensures TextOf(all, PlaceInitial(e, resolved[lo..hi], carrier, p))
         == TextOf(pre + [Before(carrier)], e) + (p.leading + p.initial + p.rest) + TextOf([Tail(carrier)] + post, e)
  {
    PickMembers(m, Members(resolved));
    assert NoDup(resolved[lo..hi]);
    forall s | s in m && s !in resolved[lo..hi] ensures Get(e, s) == "" {
      assert s in all && s !in resolved;
    }
    PlaceInitialText(e, pre, m, post, resolved[lo..hi], carrier, p);
  }

  /** The initial is taken from a later line. */
  predicate Borrows(ch: Chars, lines: seq<string>, resolved: seq<Slot>, scope: Option<Scope>)
    requires |resolved| == |lines| && Splits(resolved, scope)
  {
    scope.Some? && Donor(ch, lines, scope.value.indices) < |lines|
  }

  lemma FilledUnit(root: Tree, u: Addr, stop: set<string>, c: Content, resolved: seq<Slot>, texts: seq<string>)
    requires IsUnit(root, u, stop, c, resolved) && |texts| == |resolved|
    ensures Holds(Region(root, u, stop), resolved, texts, SetAll(c, resolved, texts))
    ensures TextOf(Region(root, u, stop), SetAll(c, resolved, texts)) == Concat(texts)
  {
    UnitSlotsValid(root, u, stop, c, resolved);
    SetAllGet(c, resolved, texts);
    PickText(Region(root, u, stop), Members(resolved), texts, SetAll(c, resolved, texts));
  }

  lemma CarrierInside(root: Tree, u: Addr, stop: set<string>, c: Content, resolved: seq<Slot>, scope: Scope)
    requires IsUnit(root, u, stop, c, resolved) && Splits(resolved, Some(scope))
    ensures CommonOf(resolved) <= scope.carrier && CommonOf(resolved) != scope.carrier
    ensures u <= scope.carrier && u != scope.carrier
  {
    UnitSlotsValid(root, u, stop, c, resolved);
    CarrierBelowCommon(resolved, scope.carrier);
    PrefixTrans(u, CommonOf(resolved), scope.carrier);
  }

  /** With as many lines as slots, and no borrowed initial, the unit reads exactly the joined lines. */
  lemma MatchedConserved(ch: Chars, root: Tree, u: Addr, stop: set<string>, c: Content, resolved: seq<Slot>,
                         lines: seq<string>, scope: Option<Scope>)
    requires IsUnit(root, u, stop, c, resolved) && |resolved| == |lines|
    requires Splits(resolved, scope) && !Borrows(ch, lines, resolved, scope)
    ensures TextOf(Region(root, u, stop), Matched(ch, c, resolved, lines, scope)) == Concat(lines)
  {
    FilledUnit(root, u, stop, c, resolved, lines);
    if scope.Some? {
      CarrierInside(root, u, stop, c, resolved, scope.value);
      var Scope(carrier, indices) := scope.value;
      var p := SplitInitial(ch, JoinAt(lines, indices));
      var lo, hi := InitialText(root, u, stop, c, resolved, carrier, SetAll(c, resolved, lines), lines, p);
      JoinAtRange(lines, lo, hi);
      ConcatThree(lines, lo, hi);
    }
  }

  lemma ConcatThree(texts: seq<string>, lo: nat, hi: nat)
    requires lo <= hi <= |texts|
    ensures Concat(texts) == Concat(texts[..lo]) + Concat(texts[lo..hi]) + Concat(texts[hi..])
  {
    ConcatAppend(texts[..lo], texts[lo..hi]);
    ConcatAppend(texts[..hi], texts[hi..]);
    assert texts[..hi] == texts[..lo] + texts[lo..hi] && texts == texts[..hi] + texts[hi..];
  }

  /** A borrowed initial moves white space but no other character: the donor line gives up its first
      grapheme to the carrier, and only blank lines lie between the two. */
  lemma BorrowedConserved(ch: Chars, root: Tree, u: Addr, stop: set<string>, c: Content, resolved: seq<Slot>,
                          lines: seq<string>, scope: Option<Scope>)
    requires IsUnit(root, u, stop, c, resolved) && |resolved| == |lines|
    requires Splits(resolved, scope) && Borrows(ch, lines, resolved, scope)
    ensures NonSpace(ch, TextOf(Region(root, u, stop), Matched(ch, c, resolved, lines, scope)))
         == NonSpace(ch, Concat(lines))
  {
    var Scope(carrier, indices) := scope.value;
    CarrierInside(root, u, stop, c, resolved, scope.value);
    FilledUnit(root, u, stop, c, resolved, lines);
    UnitSlotsValid(root, u, stop, c, resolved);
    var donor := Donor(ch, lines, indices);
    var p := SplitInitial(ch, lines[donor]);
    var e := SetAll(c, resolved, lines)[resolved[donor] := p.leading + p.rest];
    DonorHolds(Region(root, u, stop), resolved, lines, SetAll(c, resolved, lines), donor, p.leading + p.rest);
    BorrowedRead(ch, root, u, stop, c, resolved, lines, carrier, donor, e);
  }

  lemma BorrowedRead(ch: Chars, root: Tree, u: Addr, stop: set<string>, c: Content, resolved: seq<Slot>,
                     lines: seq<string>, carrier: Addr, donor: nat, e: Content)
    requires IsUnit(root, u, stop, c, resolved) && |resolved| == |lines| && donor < |lines|
    requires u <= carrier && u != carrier && ScopeIndices(resolved, carrier) != []
    requires donor == Donor(ch, lines, ScopeIndices(resolved, carrier))
    requires var p := SplitInitial(ch, lines[donor]);
             Holds(Region(root, u, stop), resolved, lines[donor := p.leading + p.rest], e)
    ensures var p := SplitInitial(ch, lines[donor]);
            var inside := SlotsAt(resolved, ScopeIndices(resolved, carrier));
            NonSpace(ch, TextOf(Region(root, u, stop), PlaceInitial(e, inside, carrier, SplitInitial(ch, p.initial))))
            == NonSpace(ch, Concat(lines))
  {
    var p := SplitInitial(ch, lines[donor]);
    var texts := lines[donor := p.leading + p.rest];
    var lo, hi := InitialText(root, u, stop, c, resolved, carrier, e, texts, SplitInitial(ch, p.initial));
    DonorBehind(ch, lines, lo, hi);
    BorrowedText(ch, lines, lo, hi, donor, p);
    assert texts[..lo] == lines[..lo];
  }

  lemma DonorHolds(all: seq<Slot>, resolved: seq<Slot>, lines: seq<string>, e: Content, donor: nat, given: string)
    requires Holds(all, resolved, lines, e) && NoDup(resolved) && donor < |lines|
    ensures Holds(all, resolved, lines[donor := given], e[resolved[donor] := given])
  {
  }

  lemma DonorBehind(ch: Chars, lines: seq<string>, lo: nat, hi: nat)
    requires lo < hi <= |lines| && Donor(ch, lines, Range(lo, hi)) < |lines|
    ensures hi <= Donor(ch, lines, Range(lo, hi)) && Blank(ch, Concat(lines[lo..hi]))
    ensures forall k :: hi <= k < Donor(ch, lines, Range(lo, hi)) ==> Blank(ch, lines[k])
  {
    JoinAtRange(lines, lo, hi);
  }

  lemma NonSpaceThree(ch: Chars, a: string, b: string, c: string)
    ensures NonSpace(ch, a + b + c) == NonSpace(ch, a) + NonSpace(ch, b) + NonSpace(ch, c)
  {
    NonSpaceAppend(ch, a + b, c);
    NonSpaceAppend(ch, a, b);
  }

  lemma BorrowedText(ch: Chars, lines: seq<string>, lo: nat, hi: nat, donor: nat, p: Pieces)
    requires lo < hi <= donor < |lines|
    requires Blank(ch, Concat(lines[lo..hi])) && (forall k :: hi <= k < donor ==> Blank(ch, lines[k]))
    requires Blank(ch, p.leading) && lines[donor] == p.leading + p.initial + p.rest
    ensures NonSpace(ch, Concat(lines[..lo]) + p.initial + Concat(lines[donor := p.leading + p.rest][hi..]))
         == NonSpace(ch, Concat(lines))
  {
    var texts := lines[donor := p.leading + p.rest];
    var before, own := Concat(lines[..lo]), Concat(lines[lo..hi]);
    BehindInitial(ch, lines, hi, donor, p);
    NonSpaceBlank(ch, own);
    NonSpaceThree(ch, before, p.initial, Concat(texts[hi..]));
    ConcatThree(lines, lo, hi);
    NonSpaceThree(ch, before, own, Concat(lines[hi..]));
    Swap(NonSpace(ch, before), NonSpace(ch, p.initial), NonSpace(ch, p.rest), NonSpace(ch, Concat(lines[donor + 1..])));
  }

  lemma BehindInitial(ch: Chars, lines: seq<string>, hi: nat, donor: nat, p: Pieces)
    requires hi <= donor < |lines| && forall k :: hi <= k < donor ==> Blank(ch, lines[k])
    requires Blank(ch, p.leading) && lines[donor] == p.leading + p.initial + p.rest
    ensures NonSpace(ch, Concat(lines[hi..]))
         == (NonSpace(ch, p.initial) + NonSpace(ch, p.rest)) + NonSpace(ch, Concat(lines[donor + 1..]))
    ensures NonSpace(ch, Concat(lines[donor := p.leading + p.rest][hi..]))
         == NonSpace(ch, p.rest) + NonSpace(ch, Concat(lines[donor + 1..]))
  {
    var texts := lines[donor := p.leading + p.rest];
    FromDonor(ch, lines, hi, donor);
    FromDonor(ch, texts, hi, donor);
    assert texts[donor + 1..] == lines[donor + 1..];
    PiecesText(ch, p);
  }

  lemma PiecesText(ch: Chars, p: Pieces)
    requires Blank(ch, p.leading)
    ensures NonSpace(ch, p.leading + p.initial + p.rest) == NonSpace(ch, p.initial) + NonSpace(ch, p.rest)
    ensures NonSpace(ch, p.leading + p.rest) == NonSpace(ch, p.rest)
  {
    var i, r := NonSpace(ch, p.initial), NonSpace(ch, p.rest);
    NonSpaceBlank(ch, p.leading);
    NonSpaceThree(ch, p.leading, p.initial, p.rest);
    NonSpaceAppend(ch, p.leading, p.rest);
    EmptyConcat(i);
    EmptyConcat(r);
  }

  lemma Swap(a: string, b: string, c: string, d: string)
    ensures a + b + (c + d) == a + "" + ((b + c) + d)
  {
    assert a + b + (c + d) == a + b + c + d;
    assert a + "" + ((b + c) + d) == a + b + c + d;
  }

  lemma FromDonor(ch: Chars, lines: seq<string>, hi: nat, donor: nat)
    requires hi <= donor < |lines| && forall k :: hi <= k < donor ==> Blank(ch, lines[k])
    ensures NonSpace(ch, Concat(lines[hi..]))
         == NonSpace(ch, lines[donor]) + NonSpace(ch, Concat(lines[donor + 1..]))
  {
    var gap, tail := lines[hi..donor], lines[donor..];
    assert NonSpace(ch, Concat(gap)) == "" by {
      assert forall i :: 0 <= i < |gap| ==> gap[i] == lines[hi + i];
      ConcatBlank(ch, gap);
    }
    assert Concat(lines[hi..]) == Concat(gap) + Concat(tail) by {
      assert lines[hi..] == gap + tail;
      ConcatAppend(gap, tail);
    }
    assert Concat(tail) == lines[donor] + Concat(lines[donor + 1..]) by {
      assert tail[1..] == lines[donor + 1..];
    }
    NonSpaceAppend(ch, Concat(gap), Concat(tail));
    NonSpaceAppend(ch, lines[donor], Concat(lines[donor + 1..]));
  }

  /** With another number of lines than slots, the unit reads exactly the translation. */
  lemma UnmatchedConserved(ch: Chars, root: Tree, u: Addr, stop: set<string>, c: Content, resolved: seq<Slot>,
                           translation: string, scope: Option<Scope>)
    requires IsUnit(root, u, stop, c, resolved) && Splits(resolved, scope)
    ensures TextOf(Region(root, u, stop), Unmatched(ch, c, resolved, translation, scope)) == translation
  {
    var e := SetAll(c, resolved, Blanks(|resolved|));
    ClearedUnit(root, u, stop, c, resolved);
    if scope.Some? {
      CarrierInside(root, u, stop, c, resolved, scope.value);
      UnmatchedInitial(root, u, stop, e, resolved, scope.value.carrier, SplitInitial(ch, translation));
    } else {
      UnmatchedPlain(root, u, stop, e, resolved, translation);
    }
  }

  lemma ClearedUnit(root: Tree, u: Addr, stop: set<string>, c: Content, resolved: seq<Slot>)
    requires IsUnit(root, u, stop, c, resolved)
    ensures NoDup(resolved) && u <= CommonOf(resolved)
    ensures forall s :: s in resolved ==> s in Region(root, u, stop)
    ensures forall s :: s in Region(root, u, stop) ==> Get(SetAll(c, resolved, Blanks(|resolved|)), s) == ""
  {
    UnitSlotsValid(root, u, stop, c, resolved);
    ClearedGet(c, resolved);
  }

  lemma UnmatchedPlain(root: Tree, u: Addr, stop: set<string>, e: Content, resolved: seq<Slot>, translation: string)
    requires ValidAddr(root, u) && resolved != [] && u <= CommonOf(resolved)
    requires forall s :: s in resolved ==> s in Region(root, u, stop)
    requires forall s :: s in Region(root, u, stop) ==> Get(e, s) == ""
    ensures CommonOf(resolved) <= Owner(resolved[0])
    ensures var common, owner := CommonOf(resolved), Owner(resolved[0]);
            TextOf(Region(root, u, stop),
                   if owner == common then e[resolved[0] := translation]
                   else AppendText(e, Before(ChildOf(common, owner)), translation)) == translation
  {
    var all, common, owner := Region(root, u, stop), CommonOf(resolved), Owner(resolved[0]);
    CommonIsGreatest(resolved, []);
    WalkNoDup(At(root, u), u, stop);
    assert resolved[0] in all;
    if owner == common {
      OneText(all, e[resolved[0] := translation], resolved[0]);
    } else {
      var top := ChildOf(common, owner);
      assert u <= top && u != top by { PrefixTrans(u, common, top); }
      BeforeInside(root, u, stop, top, resolved[0]);
      OneText(all, AppendText(e, Before(top), translation), Before(top));
    }
  }

  lemma BeforeInside(root: Tree, u: Addr, stop: set<string>, b: Addr, w: Slot)
    requires ValidAddr(root, u) && w in Region(root, u, stop) && u <= b && b != u && b <= Owner(w)
    ensures Before(b) in Region(root, u, stop) && Tail(b) in Region(root, u, stop)
  {
    var pre, post := RegionAround(root, u, stop, b, w);
    var all := Region(root, u, stop);
    assert all[|pre|] == Before(b) && all[|pre| + 1 + |Region(root, b, stop)|] == Tail(b);
  }

  lemma UnmatchedInitial(root: Tree, u: Addr, stop: set<string>, e: Content, resolved: seq<Slot>,
                         carrier: Addr, p: Pieces)
    requires ValidAddr(root, u) && resolved != [] && NoDup(resolved) && u <= CommonOf(resolved)
    requires forall s :: s in resolved ==> s in Region(root, u, stop)
    requires forall s :: s in Region(root, u, stop) ==> Get(e, s) == ""
    requires CommonOf(resolved) <= carrier && CommonOf(resolved) != carrier && ScopeIndices(resolved, carrier) != []
    ensures TextOf(Region(root, u, stop),
                   PlaceInitial(e, SlotsAt(resolved, ScopeIndices(resolved, carrier)),
                                ChildOf(CommonOf(resolved), carrier), p))
         == p.leading + p.initial + p.rest
  {
    var all, indices, top := Region(root, u, stop), ScopeIndices(resolved, carrier), ChildOf(CommonOf(resolved), carrier);
    var inside := SlotsAt(resolved, indices);
    assert u <= top && u != top by { PrefixTrans(u, CommonOf(resolved), top); }
    InsideCarrier(resolved, carrier, top);
    assert inside[0] in inside;
    var pre, post := RegionAround(root, u, stop, top, inside[0]);
    var mid := Region(root, top, stop);
    forall s | s in inside ensures s in mid {
      OwnedBelow(root, u, stop, top, s);
    }
    WalkNoDup(At(root, u), u, stop);
    ClearedAround(all, e, pre, mid, post, inside, top, p);
  }

  lemma ClearedAround(all: seq<Slot>, e: Content, pre: seq<Slot>, mid: seq<Slot>, post: seq<Slot>,
                      inside: seq<Slot>, top: Addr, p: Pieces)
    requires top != [] && inside != [] && NoDup(inside) && NoDup(all)
    requires all == pre + [Before(top)] + mid + [Tail(top)] + post
    requires (forall s :: s in inside ==> s in mid) && forall s :: s in all ==> Get(e, s) == ""
    ensures TextOf(all, PlaceInitial(e, inside, top, p)) == p.leading + p.initial + p.rest
  {
    var x, y := pre + [Before(top)], [Tail(top)] + post;
    assert all == x + mid + y;
    EmptyText(x, e);
    EmptyText(y, e);
    PlaceInitialText(e, pre, mid, post, inside, top, p);
  }

  lemma InsideCarrier(resolved: seq<Slot>, carrier: Addr, top: Addr)
    requires NoDup(resolved) && top <= carrier
    ensures var inside := SlotsAt(resolved, ScopeIndices(resolved, carrier));
            NoDup(inside) && forall s :: s in inside ==> s in resolved && top <= Owner(s)
  {
    var indices := ScopeIndices(resolved, carrier);
    var inside := SlotsAt(resolved, indices);
    ScopeIndicesRise(resolved, carrier, 0);
    forall s | s in inside ensures s in resolved && top <= Owner(s) {
      var i :| 0 <= i < |indices| && inside[i] == s;
      assert indices[i] in indices;
      PrefixTrans(top, carrier, Owner(s));
    }
  }

  predicate Rises(r: seq<nat>) {
    forall a, b :: 0 <= a < b < |r| ==> r[a] < r[b]
  }

  lemma {:induction false} ScopeIndicesRise(resolved: seq<Slot>, node: Addr, i: nat)
    requires i <= |resolved|
    ensures Rises(ScopeIndices(resolved, node, i))
    decreases |resolved| - i
  {
    if i < |resolved| {
      var rest := ScopeIndices(resolved, node, i + 1);
      ScopeIndicesRise(resolved, node, i + 1);
      if node <= Owner(resolved[i]) {
        assert ScopeIndices(resolved, node, i) == [i] + rest;
        assert forall k :: 0 <= k < |rest| ==> i < rest[k];
        assert Rises([i] + rest);
      } else {
        assert ScopeIndices(resolved, node, i) == [] + rest == rest;
      }
    }
  }

  /** Text conservation: whatever was in the unit, after the write-back it reads the translation if the
      lines do not match the slots, and the joined lines if they do, exactly or, when the initial had to
      be borrowed, up to white space. */
  lemma TextConserved(ch: Chars, root: Tree, u: Addr, stop: set<string>, c: Content, resolved: seq<Slot>,
                      current: seq<string>, lines: seq<string>, translation: string)
    requires IsUnit(root, u, stop, c, resolved) && |current| == |resolved|
    ensures ValidSlots(root, resolved)
    ensures var scope := InitialScope(ch, root, c, resolved, current);
            var text := TextOf(Region(root, u, stop), Replaced(ch, root, c, resolved, current, lines, translation));
            if |lines| != |resolved| then text == translation
            else if Borrows(ch, lines, resolved, scope) then NonSpace(ch, text) == NonSpace(ch, Concat(lines))
            else text == Concat(lines)
  {
    UnitSlotsValid(root, u, stop, c, resolved);
    var scope := InitialScope(ch, root, c, resolved, current);
    if |lines| != |resolved| {
      UnmatchedConserved(ch, root, u, stop, c, resolved, translation, scope);
    } else if Borrows(ch, lines, resolved, scope) {
      BorrowedConserved(ch, root, u, stop, c, resolved, lines, scope);
    } else {
      MatchedConserved(ch, root, u, stop, c, resolved, lines, scope);
    }
  }
}
