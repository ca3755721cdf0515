/** Which text of a parsed document is extracted for translation, and how it is grouped into units
    (transoria/formats/epub_parser.py). */
module EpubParser {
  import opened Lists
  import opened XmlTree

  const BLOCK_TAGS: set<string> :=
    {"p", "h1", "h2", "h3", "h4", "h5", "h6", "div", "li", "td", "th", "caption", "figcaption", "dt", "dd",
     "blockquote", "aside", "address", "section", "article", "header", "footer", "main", "nav", "figure",
     "details", "summary", "hgroup", "body"}

  const SKIP_SUBTREE_TAGS: set<string> :=
    {"script", "style", "code", "pre", "kbd", "samp", "var", "noscript", "rt", "rp"}

  predicate IsBlock(t: Tree) {
    t.Element? && t.name in BLOCK_TAGS
  }

  predicate HasBlock(t: Tree) {
    t.Element? && (t.name in BLOCK_TAGS || exists i | 0 <= i < |t.kids| :: HasBlock(t.kids[i]))
  }

  predicate HasBlockDescendant(t: Tree) {
    t.Element? && exists i | 0 <= i < |t.kids| :: HasBlock(t.kids[i])
  }

  /** The part of the document that one unit is made of: a whole subtree (walked down to the stop
      tags), or a single position directly inside a block that also holds blocks. */
  datatype Area =
    | Subtree(block: Addr, at: Addr, tree: Tree, stop: set<string>)
    | Single(block: Addr, slot: Slot)
  {
    function Slots(): seq<Slot> {
      if Subtree? then Walk(tree, at, stop) else [slot]
    }

    /** Everything inside the area, skipped text included. */
    function Footprint(): seq<Slot> {
      if Subtree? then Walk(tree, at, {}) else [slot]
    }
  }

  function Collects(t: Tree): bool {
    IsBlock(t) && HasBlockDescendant(t)
  }

  function DirectText(t: Tree, at: Addr): seq<Area> {
    if Collects(t) then [Single(at, Text(at))] else []
  }

  /** `collect_document_units`, with the places that may hold text instead of those that do. */
  function Areas(t: Tree, at: Addr): seq<Area>
    decreases t, 1, 0
  {
    if !t.Element? || t.name in SKIP_SUBTREE_TAGS then []
    else if IsBlock(t) && !HasBlockDescendant(t) then [Subtree(at, at, t, SKIP_SUBTREE_TAGS)]
    else DirectText(t, at) + KidAreas(t, at, 0)
  }

  predicate IsInlineKid(t: Tree, i: nat)
    requires t.Element? && i < |t.kids|
  {
    Collects(t) && t.kids[i].Element? && !IsBlock(t.kids[i]) && !HasBlockDescendant(t.kids[i])
  }

  function KidArea(t: Tree, at: Addr, i: nat): seq<Area>
    requires t.Element? && i < |t.kids|
    decreases t, 0, 0
  {
    if IsInlineKid(t, i) then [Subtree(at, at + [i], t.kids[i], SKIP_SUBTREE_TAGS + BLOCK_TAGS)]
    else Areas(t.kids[i], at + [i])
  }

  function KidAreas(t: Tree, at: Addr, i: nat): seq<Area>
    requires t.Element? && i <= |t.kids|
    decreases t, 0, |t.kids| - i + 1
  {
    if i == |t.kids| then []
    else KidArea(t, at, i) + (if Collects(t) then [Single(at, Tail(at + [i]))] else []) + KidAreas(t, at, i + 1)
  }

  function AllSlots(areas: seq<Area>): seq<Slot> {
    if areas == [] then [] else areas[0].Slots() + AllSlots(areas[1..])
  }

  function AllFootprints(areas: seq<Area>): seq<Slot> {
    if areas == [] then [] else areas[0].Footprint() + AllFootprints(areas[1..])
  }

  // ---- what should be extracted, said without the grouping

  /** A block, or an element with a block somewhere below it. */
  predicate Decides(t: Tree) {
    IsBlock(t) || HasBlockDescendant(t)
  }

  /** The nodes from `t` down to address `p`. */
  function PathTo(t: Tree, p: Addr): (path: seq<Tree>)
    requires ValidAddr(t, p)
    ensures |path| == |p| + 1
  {
    [t] + if p == [] then [] else PathTo(t.kids[p[0]], p[1..])
  }

  predicate NoneSkipped(path: seq<Tree>) {
    forall k :: 0 <= k < |path| ==> path[k].Element? && path[k].name !in SKIP_SUBTREE_TAGS
  }

  predicate NoneDecides(path: seq<Tree>, from: nat) {
    forall k :: from <= k < |path| ==> !Decides(path[k])
  }

  predicate LastDecisionIsBlock(path: seq<Tree>) {
    exists k | 0 <= k < |path| :: IsBlock(path[k]) && NoneDecides(path, k + 1)
  }

  /** The text owned by the element at `a` is wanted: no element on the way down is skipped, and the
      innermost element on the way that is a block or has one below it is a block. */
  predicate Wanted(root: Tree, a: Addr) {
    ValidAddr(root, a) && NoneSkipped(PathTo(root, a)) && LastDecisionIsBlock(PathTo(root, a))
  }

  /** `Wanted` computed on the way down, `inside` telling what was decided above `t`. */
  predicate WantedBelow(t: Tree, p: Addr, inside: bool) {
    t.Element? && t.name !in SKIP_SUBTREE_TAGS &&
    var here := if Decides(t) then IsBlock(t) else inside;
    if p == [] then here else p[0] < |t.kids| && WantedBelow(t.kids[p[0]], p[1..], here)
  }

  lemma {:induction false} WantedBelowMeans(t: Tree, p: Addr, inside: bool)
    requires ValidAddr(t, p)
    ensures WantedBelow(t, p, inside) <==>
              && NoneSkipped(PathTo(t, p))
              && (LastDecisionIsBlock(PathTo(t, p)) || (inside && NoneDecides(PathTo(t, p), 0)))
  {
    var path := PathTo(t, p);
    assert path[0] == t;
    if p != [] {
      var rest := PathTo(t.kids[p[0]], p[1..]);
      assert path == [t] + rest;
      WantedBelowMeans(t.kids[p[0]], p[1..], if Decides(t) then IsBlock(t) else inside);
      PathShift(t, rest);
    } else {
      assert path == [t];
      assert LastDecisionIsBlock(path) <==> IsBlock(path[0]) && NoneDecides(path, 1);
    }
  }

  lemma PathShift(t: Tree, rest: seq<Tree>)
    ensures var path := [t] + rest;
            && (NoneSkipped(path) <==> t.Element? && t.name !in SKIP_SUBTREE_TAGS && NoneSkipped(rest))
            && (NoneDecides(path, 0) <==> !Decides(t) && NoneDecides(rest, 0))
            && (LastDecisionIsBlock(path) <==> LastDecisionIsBlock(rest) || (IsBlock(t) && NoneDecides(rest, 0)))
  {
    var path := [t] + rest;
    assert path[0] == t;
    assert forall k :: 0 <= k < |rest| ==> path[k + 1] == rest[k];
    assert forall k :: 0 < k < |path| ==> path[k] == rest[k - 1];
    assert forall k: nat :: NoneDecides(path, k + 1) <==> NoneDecides(rest, k) by {
      forall k: nat ensures NoneDecides(path, k + 1) <==> NoneDecides(rest, k) {
        if NoneDecides(path, k + 1) {
          forall j | k <= j < |rest| ensures !Decides(rest[j]) { assert !Decides(path[j + 1]); }
        }
      }
    }
    if LastDecisionIsBlock(rest) {
      var k :| 0 <= k < |rest| && IsBlock(rest[k]) && NoneDecides(rest, k + 1);
      assert IsBlock(path[k + 1]) && NoneDecides(path, k + 2);
    }
    if LastDecisionIsBlock(path) {
      var k :| 0 <= k < |path| && IsBlock(path[k]) && NoneDecides(path, k + 1);
      if k > 0 { assert IsBlock(rest[k - 1]) && NoneDecides(rest, k); }
    }
    if IsBlock(t) && NoneDecides(rest, 0) {
      assert NoneDecides(path, 0 + 1);
      assert 0 < |path| && IsBlock(path[0]);
    }
  }

  // ---- filters

  function Filter(f: Slot -> bool, ps: seq<Slot>): seq<Slot> {
    if ps == [] then [] else (if f(ps[0]) then [ps[0]] else []) + Filter(f, ps[1..])
  }

  lemma {:induction false} FilterAppend(f: Slot -> bool, a: seq<Slot>, b: seq<Slot>)
    ensures Filter(f, a + b) == Filter(f, a) + Filter(f, b)
  {
    if a == [] {
      EmptyConcat(b);
      EmptyConcat(Filter(f, b));
    } else {
      TailOfConcat(a, b);
      FilterAppend(f, a[1..], b);
      Assoc(if f(a[0]) then [a[0]] else [], Filter(f, a[1..]), Filter(f, b));
    }
  }

  lemma {:induction false} FilterSame(f: Slot -> bool, g: Slot -> bool, ps: seq<Slot>)
    requires forall s :: s in ps ==> f(s) == g(s)
    ensures Filter(f, ps) == Filter(g, ps)
  {
    if ps != [] { FilterSame(f, g, ps[1..]); }
  }

  /** The walk's positions whose owner is wanted, given what was decided above `t`. */
  function Extractable(t: Tree, at: Addr, inside: bool): Slot -> bool {
    s => at <= Owner(s) && WantedBelow(t, Owner(s)[|at|..], inside)
  }

  function Here(t: Tree, inside: bool): bool {
    if Decides(t) then IsBlock(t) else inside
  }

  lemma BelowKid(at: Addr, i: nat, a: Addr)
    requires at + [i] <= a
    ensures at <= a && a[|at|..] != [] && a[|at|..][0] == i && a[|at|..][1..] == a[|at + [i]|..]
  {
    assert a[|at|] == (at + [i])[|at|];
  }

  lemma OwnerBelowKid(kid: Tree, at: Addr, s: Slot)
    requires s in Walk(kid, at, {})
    ensures at <= Owner(s)
  {
    WalkMembers(kid, at, {}, s);
    var p := s.at[|at|..];
    assert s.at == at + p;
    assert s.Tail? ==> p != [];
  }

  lemma ExtractableKid(t: Tree, at: Addr, i: nat, inside: bool, s: Slot)
    requires t.Element? && t.name !in SKIP_SUBTREE_TAGS && i < |t.kids|
    ensures s in Walk(t.kids[i], at + [i], {}) ==>
              Extractable(t, at, inside)(s) == Extractable(t.kids[i], at + [i], Here(t, inside))(s)
    ensures Extractable(t, at, inside)(Tail(at + [i])) == Here(t, inside)
    ensures Extractable(t, at, inside)(Text(at)) == Here(t, inside)
  {
    assert Owner(Tail(at + [i])) == at && at[|at|..] == [];
    if s in Walk(t.kids[i], at + [i], {}) {
      OwnerBelowKid(t.kids[i], at + [i], s);
      BelowKid(at, i, Owner(s));
    }
  }

  lemma {:induction false} FilterNone(f: Slot -> bool, ps: seq<Slot>)
    requires forall s :: s in ps ==> !f(s)
    ensures Filter(f, ps) == []
  {
    if ps != [] { FilterNone(f, ps[1..]); }
  }

  lemma SkippedSubtree(t: Tree, at: Addr, inside: bool)
    requires !t.Element? || t.name in SKIP_SUBTREE_TAGS
    ensures Filter(Extractable(t, at, inside), Walk(t, at, {})) == []
  {
    FilterNone(Extractable(t, at, inside), Walk(t, at, {}));
  }

  /** Below a deciding block with no block under it, walking to the skipped tags lists just the wanted text. */
  lemma {:induction false} LeafExtracts(t: Tree, at: Addr, inside: bool, stop: set<string>)
    requires SKIP_SUBTREE_TAGS <= stop <= SKIP_SUBTREE_TAGS + BLOCK_TAGS
    requires !HasBlockDescendant(t) && Here(t, inside)
    requires IsBlock(t) ==> t.name !in stop
    ensures Walk(t, at, stop) == Filter(Extractable(t, at, inside), Walk(t, at, {}))
    decreases t, 1, 0
  {
    if !t.Element? || t.name in SKIP_SUBTREE_TAGS {
      SkippedSubtree(t, at, inside);
    } else {
      assert t.name !in stop;
      LeafKidsExtract(t, at, inside, stop, 0);
      if 0 < |t.kids| { ExtractableKid(t, at, 0, inside, Text(at)); }
      assert Extractable(t, at, inside)(Text(at));
      FilterAppend(Extractable(t, at, inside), [Text(at)], WalkKids(t, at, 0, {}));
    }
  }

  lemma {:induction false} LeafKidsExtract(t: Tree, at: Addr, inside: bool, stop: set<string>, i: nat)
    requires SKIP_SUBTREE_TAGS <= stop <= SKIP_SUBTREE_TAGS + BLOCK_TAGS
    requires t.Element? && t.name !in SKIP_SUBTREE_TAGS && !HasBlockDescendant(t) && Here(t, inside) && i <= |t.kids|
    ensures WalkKids(t, at, i, stop) == Filter(Extractable(t, at, inside), WalkKids(t, at, i, {}))
    decreases t, 0, |t.kids| - i
  {
    if i < |t.kids| {
      var kid := t.kids[i];
      assert !HasBlock(kid);
      LeafExtracts(kid, at + [i], true, stop);
      LeafKidsExtract(t, at, inside, stop, i + 1);
      KidFilter(t, at, inside, i);
    }
  }

  /** Filtering the positions of one kid and its tail with the parent's test. */
  lemma KidFilter(t: Tree, at: Addr, inside: bool, i: nat)
    requires t.Element? && t.name !in SKIP_SUBTREE_TAGS && i < |t.kids|
    ensures Filter(Extractable(t, at, inside), WalkKids(t, at, i, {}))
         == Filter(Extractable(t.kids[i], at + [i], Here(t, inside)), Walk(t.kids[i], at + [i], {}))
          + (if Here(t, inside) then [Tail(at + [i])] else [])
          + Filter(Extractable(t, at, inside), WalkKids(t, at, i + 1, {}))
  {
    var f, g := Extractable(t, at, inside), Extractable(t.kids[i], at + [i], Here(t, inside));
    var kid, tail, rest := Walk(t.kids[i], at + [i], {}), [Tail(at + [i])], WalkKids(t, at, i + 1, {});
    forall s | s in kid ensures f(s) == g(s) { ExtractableKid(t, at, i, inside, s); }
    ExtractableKid(t, at, i, inside, Text(at));
    FilterSame(f, g, kid);
    FilterAppend(f, kid + tail, rest);
    FilterAppend(f, kid, tail);
    assert Filter(f, tail) == if Here(t, inside) then tail else [] by {
      assert Filter(f, tail[1..]) == [];
    }
  }

  lemma {:induction false} AllSlotsAppend(a: seq<Area>, b: seq<Area>)
    ensures AllSlots(a + b) == AllSlots(a) + AllSlots(b)
    ensures AllFootprints(a + b) == AllFootprints(a) + AllFootprints(b)
  {
    if a == [] {
      EmptyConcat(b);
      EmptyConcat(AllSlots(b));
      EmptyConcat(AllFootprints(b));
    } else {
      TailOfConcat(a, b);
      AllSlotsAppend(a[1..], b);
      Assoc(a[0].Slots(), AllSlots(a[1..]), AllSlots(b));
      Assoc(a[0].Footprint(), AllFootprints(a[1..]), AllFootprints(b));
    }
  }

  lemma AllSlotsSingle(a: Area)
    ensures AllSlots([a]) == a.Slots() && AllFootprints([a]) == a.Footprint()
  {
    assert AllSlots([a][1..]) == [] && AllFootprints([a][1..]) == [];
  }

  lemma {:induction false} AreasExtract(t: Tree, at: Addr, inside: bool)
    requires inside ==> Decides(t)
    ensures AllSlots(Areas(t, at)) == Filter(Extractable(t, at, inside), Walk(t, at, {}))
    decreases t, 1, 0
  {
    if !t.Element? || t.name in SKIP_SUBTREE_TAGS {
      SkippedSubtree(t, at, inside);
    } else if IsBlock(t) && !HasBlockDescendant(t) {
      assert t.name !in SKIP_SUBTREE_TAGS;
      LeafExtracts(t, at, inside, SKIP_SUBTREE_TAGS);
      AllSlotsSingle(Subtree(at, at, t, SKIP_SUBTREE_TAGS));
    } else {
      var f := Extractable(t, at, inside);
      KidAreasExtract(t, at, inside, 0);
      AllSlotsAppend(DirectText(t, at), KidAreas(t, at, 0));
      AllSlotsSingle(Single(at, Text(at)));
      FilterAppend(f, [Text(at)], WalkKids(t, at, 0, {}));
      assert Owner(Text(at))[|at|..] == [] && f(Text(at)) == Here(t, inside) == Collects(t);
      assert Filter(f, [Text(at)]) == AllSlots(DirectText(t, at)) by { assert Filter(f, [Text(at)][1..]) == []; }
    }
  }

  lemma {:induction false} KidAreasExtract(t: Tree, at: Addr, inside: bool, i: nat)
    requires t.Element? && t.name !in SKIP_SUBTREE_TAGS && i <= |t.kids| && (inside ==> Decides(t))
    requires IsBlock(t) ==> HasBlockDescendant(t)
    ensures AllSlots(KidAreas(t, at, i)) == Filter(Extractable(t, at, inside), WalkKids(t, at, i, {}))
    decreases t, 0, |t.kids| - i
  {
    if i < |t.kids| {
      var kid, here := t.kids[i], Here(t, inside);
      var area := KidArea(t, at, i);
      assert here == Collects(t);
      if IsInlineKid(t, i) {
        LeafExtracts(kid, at + [i], here, SKIP_SUBTREE_TAGS + BLOCK_TAGS);
        assert area == [Subtree(at, at + [i], kid, SKIP_SUBTREE_TAGS + BLOCK_TAGS)];
        AllSlotsSingle(Subtree(at, at + [i], kid, SKIP_SUBTREE_TAGS + BLOCK_TAGS));
      } else if kid.Element? {
        AreasExtract(kid, at + [i], here);
      } else {
        SkippedSubtree(kid, at + [i], here);
        assert area == Areas(kid, at + [i]) == [];
      }
      assert AllSlots(area) == Filter(Extractable(kid, at + [i], here), Walk(kid, at + [i], {}));
      KidAreasExtract(t, at, inside, i + 1);
      KidFilter(t, at, inside, i);
      KidSlots(t, at, i);
    }
  }

  lemma KidSlots(t: Tree, at: Addr, i: nat)
    requires t.Element? && i < |t.kids|
    ensures AllSlots(KidAreas(t, at, i))
         == AllSlots(KidArea(t, at, i)) + (if Collects(t) then [Tail(at + [i])] else []) + AllSlots(KidAreas(t, at, i + 1))
    ensures AllFootprints(KidAreas(t, at, i))
         == AllFootprints(KidArea(t, at, i)) + (if Collects(t) then [Tail(at + [i])] else [])
            + AllFootprints(KidAreas(t, at, i + 1))
  {
    var tail := if Collects(t) then [Single(at, Tail(at + [i]))] else [];
    AllSlotsAppend(KidArea(t, at, i) + tail, KidAreas(t, at, i + 1));
    AllSlotsAppend(KidArea(t, at, i), tail);
    AllSlotsSingle(Single(at, Tail(at + [i])));
  }

  /** Exact extraction: the units' positions, one unit after the other, are exactly the document's wanted
      positions in document order. No position is in two units. */
  lemma ExactExtraction(root: Tree)
    ensures AllSlots(Areas(root, [])) == Filter(s => Wanted(root, Owner(s)), Walk(root, [], {}))
    ensures NoDup(AllSlots(Areas(root, [])))
  {
    var f, g := Extractable(root, [], false), (s: Slot) => Wanted(root, Owner(s));
    AreasExtract(root, [], false);
    forall s | s in Walk(root, [], {}) ensures f(s) == g(s) {
      WalkMembers(root, [], {}, s);
      assert s.at[0..] == s.at && Owner(s)[0..] == Owner(s);
      OwnerValid(root, s.at, s.Tail?);
      WantedBelowMeans(root, Owner(s), false);
    }
    FilterSame(f, g, Walk(root, [], {}));
    WalkNoDup(root, [], {});
    FilterNoDup(f, Walk(root, [], {}));
  }

  lemma {:induction false} OwnerValid(t: Tree, p: Addr, tail: bool)
    requires Reached(t, p, tail, {})
    ensures ValidAddr(t, if tail && p != [] then Parent(p) else p)
  {
    if p != [] && !(|p| == 1 && tail) {
      OwnerValid(t.kids[p[0]], p[1..], tail);
      if tail { assert Parent(p)[1..] == Parent(p[1..]); }
    }
  }

  lemma {:induction false} FilterNoDup(f: Slot -> bool, ps: seq<Slot>)
    requires NoDup(ps)
    ensures NoDup(Filter(f, ps)) && forall s :: s in Filter(f, ps) ==> s in ps && f(s)
  {
    if ps != [] {
      assert NoDup(ps[1..]) && forall s :: s in ps[1..] ==> s != ps[0];
      FilterNoDup(f, ps[1..]);
      if f(ps[0]) { NoDupConcat([ps[0]], Filter(f, ps[1..])); }
    }
  }
}
