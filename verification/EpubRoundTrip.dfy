/** Extraction and write-back together: each translation lands in its own unit, whatever the order. */
module EpubRoundTrip {
  import opened Lists
  import opened EpubEdits
  import opened Slashes
  import opened TextRules
  import opened XmlTree
  import opened ElementPaths
  import opened EpubParser
  import opened EpubUnits
  import opened EpubWriter
  import opened EpubConservation
  import opened EpubLocality
  import opened EpubSegments

  // ---- areas lie apart

  ghost predicate AreaOk(root: Tree, area: Area) {
    if area.Subtree? then ValidAddr(root, area.at) && At(root, area.at) == area.tree
    else ValidSlot(root, area.slot)
  }

  ghost predicate AreasOk(root: Tree, areas: seq<Area>) {
    forall i :: 0 <= i < |areas| ==> AreaOk(root, areas[i])
  }

  lemma {:induction false} AreasFit(root: Tree, t: Tree, at: Addr)
    requires ValidAddr(root, at) && At(root, at) == t
    ensures AreasOk(root, Areas(t, at)) && NoDup(AllFootprints(Areas(t, at)))
    ensures forall s :: s in AllFootprints(Areas(t, at)) ==> s in Walk(t, at, {})
    decreases t, 1, 0
  {
    if !t.Element? || t.name in SKIP_SUBTREE_TAGS {
    } else if IsBlock(t) && !HasBlockDescendant(t) {
      AllSlotsSingle(Subtree(at, at, t, SKIP_SUBTREE_TAGS));
      WalkNoDup(t, at, {});
    } else {
      KidAreasFit(root, t, at, 0);
      AllSlotsAppend(DirectText(t, at), KidAreas(t, at, 0));
      AllSlotsSingle(Single(at, Text(at)));
      WalkKidsMembers(t, at, 0, {}, Text(at));
      NoDupConcat(AllFootprints(DirectText(t, at)), AllFootprints(KidAreas(t, at, 0)));
    }
  }

  lemma OkConcat(root: Tree, a: seq<Area>, b: seq<Area>)
    requires AreasOk(root, a) && AreasOk(root, b)
    ensures AreasOk(root, a + b)
  {
  }

  ghost predicate AllIn(a: seq<Slot>, b: seq<Slot>) {
    forall s :: s in a ==> s in b
  }

  lemma TailFits(root: Tree, t: Tree, at: Addr, i: nat)
    requires ValidAddr(root, at) && At(root, at) == t && t.Element? && i < |t.kids|
    ensures AreasOk(root, TailArea(t, at, i))
  {
    AtAppend(root, at, [i]);
  }

  function TailArea(t: Tree, at: Addr, i: nat): seq<Area> {
    if Collects(t) then [Single(at, Tail(at + [i]))] else []
  }

  lemma KidAreasParts(t: Tree, at: Addr, i: nat)
    requires t.Element? && i < |t.kids|
    ensures KidAreas(t, at, i) == KidArea(t, at, i) + TailArea(t, at, i) + KidAreas(t, at, i + 1)
  {
  }

  lemma {:induction false} KidAreasFit(root: Tree, t: Tree, at: Addr, i: nat)
    requires ValidAddr(root, at) && At(root, at) == t && t.Element? && i <= |t.kids|
    ensures AreasOk(root, KidAreas(t, at, i)) && NoDup(AllFootprints(KidAreas(t, at, i)))
    ensures AllIn(AllFootprints(KidAreas(t, at, i)), WalkKids(t, at, i, {}))
    decreases t, 0, |t.kids| - i
  {
    if i < |t.kids| {
      KidAreaFits(root, t, at, i);
      KidAreasFit(root, t, at, i + 1);
      TailFits(root, t, at, i);
      OkConcat(root, KidArea(t, at, i), TailArea(t, at, i));
      OkConcat(root, KidArea(t, at, i) + TailArea(t, at, i), KidAreas(t, at, i + 1));
      KidAreasParts(t, at, i);
      KidFootprintsApart(root, t, at, i);
    }
  }

  lemma KidFootprintsApart(root: Tree, t: Tree, at: Addr, i: nat)
    requires t.Element? && i < |t.kids|
    requires NoDup(AllFootprints(KidArea(t, at, i))) && NoDup(AllFootprints(KidAreas(t, at, i + 1)))
    requires AllIn(AllFootprints(KidArea(t, at, i)), Walk(t.kids[i], at + [i], {}))
    requires AllIn(AllFootprints(KidAreas(t, at, i + 1)), WalkKids(t, at, i + 1, {}))
    ensures NoDup(AllFootprints(KidAreas(t, at, i)))
    ensures AllIn(AllFootprints(KidAreas(t, at, i)), WalkKids(t, at, i, {}))
  {
    KidSlots(t, at, i);
    WalkKidsNoDup(t, at, i, {});
    var x, y, z := AllFootprints(KidArea(t, at, i)),
                   if Collects(t) then [Tail(at + [i])] else [],
                   AllFootprints(KidAreas(t, at, i + 1));
    ApartLikeWalk(x, y, z, Walk(t.kids[i], at + [i], {}), [Tail(at + [i])], WalkKids(t, at, i + 1, {}));
  }

  lemma ApartLikeWalk(x: seq<Slot>, y: seq<Slot>, z: seq<Slot>, w: seq<Slot>, l: seq<Slot>, r: seq<Slot>)
    requires NoDup(x) && NoDup(y) && NoDup(z) && NoDup(w + l + r)
    requires AllIn(x, w) && AllIn(y, l) && AllIn(z, r)
    ensures NoDup(x + y + z) && AllIn(x + y + z, w + l + r)
  {
    NoDupSplit(w + l, r);
    NoDupSplit(w, l);
    NoDupConcat(x, y);
    assert forall s :: s in x + y ==> s in w + l;
    NoDupConcat(x + y, z);
  }

  lemma {:induction false} KidAreaFits(root: Tree, t: Tree, at: Addr, i: nat)
    requires ValidAddr(root, at) && At(root, at) == t && t.Element? && i < |t.kids|
    ensures AreasOk(root, KidArea(t, at, i)) && NoDup(AllFootprints(KidArea(t, at, i)))
    ensures AllIn(AllFootprints(KidArea(t, at, i)), Walk(t.kids[i], at + [i], {}))
    decreases t, 0, 0
  {
    AtAppend(root, at, [i]);
    if IsInlineKid(t, i) {
      AllSlotsSingle(Subtree(at, at + [i], t.kids[i], SKIP_SUBTREE_TAGS + BLOCK_TAGS));
      WalkNoDup(t.kids[i], at + [i], {});
    } else {
      AreasFit(root, t.kids[i], at + [i]);
    }
  }

  /** No position is in two areas. */
  ghost predicate Apart(areas: seq<Area>) {
    forall i, j, s :: 0 <= i < j < |areas| && s in areas[i].Footprint() ==> s !in areas[j].Footprint()
  }

  lemma {:induction false} InFootprints(areas: seq<Area>, j: nat, s: Slot)
    requires j < |areas| && s in areas[j].Footprint()
    ensures s in AllFootprints(areas)
  {
    if j > 0 { InFootprints(areas[1..], j - 1, s); }
  }

  lemma {:induction false} NoDupApart(areas: seq<Area>)
    requires NoDup(AllFootprints(areas))
    ensures Apart(areas)
  {
    if areas != [] {
      NoDupSplit(areas[0].Footprint(), AllFootprints(areas[1..]));
      NoDupApart(areas[1..]);
      forall i, j, s | 0 <= i < j < |areas| && s in areas[i].Footprint() ensures s !in areas[j].Footprint() {
        if s in areas[j].Footprint() { InFootprints(areas[1..], j - 1, s); }
        if i > 0 { assert areas[i] == areas[1..][i - 1] && areas[j] == areas[1..][j - 1]; }
      }
    }
  }

  // ---- from an area to its segment and back

  function Holding(c: Content): Slot -> bool {
    s => Get(c, s) != ""
  }

  /** The positions of an area that hold text: the unit's slots. */
  function AreaSlots(c: Content, area: Area): seq<Slot> {
    Filter(Holding(c), area.Slots())
  }

  function PartAt(root: Tree, c: Content, s: Slot): (Part, string) {
    (Part(s.Tail?, PathAt(root, s.at)), Get(c, s))
  }

  ghost predicate Held(root: Tree, c: Content, slots: seq<Slot>, parts: seq<(Part, string)>) {
    |slots| == |parts| && forall i :: 0 <= i < |slots| ==> parts[i] == PartAt(root, c, slots[i])
  }

  lemma HeldCons(root: Tree, c: Content, s: Slot, slots: seq<Slot>, parts: seq<(Part, string)>)
    requires Held(root, c, slots, parts)
    ensures Held(root, c, [s] + slots, [PartAt(root, c, s)] + parts)
  {
  }

  lemma {:induction false} PartsAreHeld(root: Tree, c: Content, ps: seq<Slot>)
    ensures Held(root, c, Filter(Holding(c), ps), PartsOf(root, c, ps))
  {
    if ps != [] {
      var slots, parts := Filter(Holding(c), ps[1..]), PartsOf(root, c, ps[1..]);
      PartsAreHeld(root, c, ps[1..]);
      if Get(c, ps[0]) == "" {
        EmptyConcat(slots);
        EmptyConcat(parts);
      } else {
        HeldCons(root, c, ps[0], slots, parts);
      }
    }
  }

  /** The area was extracted from `c` as this segment. */
  ghost predicate Extracted(ch: Chars, root: Tree, c: Content, area: Area, segment: Segment) {
    && AreaOk(root, area)
    && UnitOf(root, c, area) != []
    && segment == SegmentOf(ch, UnitOf(root, c, area)[0])
  }

  lemma HeldMeans(ch: Chars, root: Tree, c: Content, slots: seq<Slot>, u: Unit)
    requires Held(root, c, slots, u.slots)
    ensures SegmentOf(ch, u).parts == PartRefs(root, slots)
    ensures SegmentOf(ch, u).digest == Normalized(ch, Texts(c, slots))
  {
    var segment := SegmentOf(ch, u);
    forall i | 0 <= i < |slots|
      ensures u.slots[i].0 == PartRefs(root, slots)[i] && u.slots[i].1 == Texts(c, slots)[i]
    {
      assert u.slots[i] == PartAt(root, c, slots[i]);
    }
    assert segment.parts == PartRefs(root, slots);
    assert segment.digest == Normalized(ch, Texts(c, slots));
  }

  lemma ExtractedMeans(ch: Chars, root: Tree, c: Content, area: Area, segment: Segment)
    requires Extracted(ch, root, c, area, segment)
    ensures var slots := AreaSlots(c, area);
            && slots != []
            && segment.parts == PartRefs(root, slots)
            && segment.digest == Normalized(ch, Texts(c, slots))
  {
    PartsAreHeld(root, c, area.Slots());
    HeldMeans(ch, root, c, AreaSlots(c, area), UnitOf(root, c, area)[0]);
  }

  function SlotFor(tail: bool, a: Addr): Slot {
    if tail then Tail(a) else Text(a)
  }

  lemma ResolveCons(root: Tree, part: Part, rest: seq<Part>, a: Addr, more: seq<Slot>)
    requires root.Element? && FindByPath(root, part.path) == Some(a) && Resolve(root, rest) == Some(more)
    ensures Resolve(root, [part] + rest) == Some([SlotFor(part.tail, a)] + more)
  {
    assert ([part] + rest)[1..] == rest;
  }

  lemma {:induction false} ResolveRefs(root: Tree, slots: seq<Slot>)
    requires root.Element? && PlainNames(root) && ValidSlots(root, slots)
    ensures Resolve(root, PartRefs(root, slots)) == Some(slots)
  {
    if slots != [] {
      var s, rest := slots[0], slots[1..];
      assert ValidSlot(root, s);
      PathRoundTrip(root, s.at);
      ResolveRefs(root, rest);
      RefsCons(root, slots);
      ResolveCons(root, Part(s.Tail?, PathAt(root, s.at)), PartRefs(root, rest), s.at, rest);
      Uncons(slots);
    }
  }

  lemma RefsCons(root: Tree, slots: seq<Slot>)
    requires slots != []
    ensures PartRefs(root, slots) == [Part(slots[0].Tail?, PathAt(root, slots[0].at))] + PartRefs(root, slots[1..])
    ensures SlotFor(slots[0].Tail?, slots[0].at) == slots[0]
  {
  }

  lemma {:induction false} FilterIsPick(f: Slot -> bool, ps: seq<Slot>, keep: set<Slot>)
    requires forall s :: s in ps ==> (f(s) <==> s in keep)
    ensures Filter(f, ps) == Pick(ps, keep)
  {
    if ps != [] { FilterIsPick(f, ps[1..], keep); }
  }

  lemma {:induction false} FilterMembers(f: Slot -> bool, ps: seq<Slot>)
    ensures forall s :: s in Filter(f, ps) <==> s in ps && f(s)
  {
    if ps != [] {
      FilterMembers(f, ps[1..]);
      assert ps == [ps[0]] + ps[1..];
    }
  }

  /** The slots of an area are valid, lie in it, and leave no other text in it. */
  lemma AreaSlotsFit(root: Tree, c: Content, area: Area)
    requires AreaOk(root, area) && AreaSlots(c, area) != []
    ensures ValidSlots(root, AreaSlots(c, area))
    ensures forall s :: s in AreaSlots(c, area) ==> s in area.Slots() && s in area.Footprint()
    ensures area.Subtree? ==> IsUnit(root, area.at, area.stop, c, AreaSlots(c, area))
    ensures area.Single? ==> AreaSlots(c, area) == [area.slot]
  {
    var slots := AreaSlots(c, area);
    FilterMembers(Holding(c), area.Slots());
    if area.Subtree? {
      FilterIsPick(Holding(c), area.Slots(), Members(slots));
      assert IsUnit(root, area.at, area.stop, c, slots);
      UnitSlotsValid(root, area.at, area.stop, c, slots);
      forall s | s in slots ensures s in area.Footprint() { StoppedIsInside(root, area.at, area.stop, s); }
    } else {
      assert Filter(Holding(c), [area.slot][1..]) == [];
    }
  }

  lemma ExtractedStorable(ch: Chars, root: Tree, c: Content, area: Area, segment: Segment)
    requires root.Element? && PlainNames(root) && Extracted(ch, root, c, area, segment)
    ensures Resolve(root, segment.parts) == Some(AreaSlots(c, area)) && Storable(root, segment)
    ensures AreaSlots(c, area) != [] && segment.digest == Normalized(ch, Texts(c, AreaSlots(c, area)))
  {
    ExtractedMeans(ch, root, c, area, segment);
    AreaSlotsFit(root, c, area);
    ResolveRefs(root, AreaSlots(c, area));
  }

  // ---- one segment touches one area

  /** A unit of a single slot just gets the translation. */
  lemma SingleReplaced(ch: Chars, root: Tree, c: Content, s: Slot, current: seq<string>, translation: string)
    requires ValidSlots(root, [s]) && |current| == 1
    ensures forall x :: Get(Replaced(ch, root, c, [s], current, Split(translation, '\n'), translation), x)
                     == if x == s then translation else Get(c, x)
  {
    var scope, lines := InitialScope(ch, root, c, [s], current), Split(translation, '\n');
    if scope.Some? { OneSlotNeverSplits(s, scope.value); }
    OneSlot(ch, c, s, lines, translation, scope);
  }

  lemma OneSlotNeverSplits(s: Slot, scope: Scope)
    ensures !Splits([s], Some(scope))
  {
    var inside := ScopeIndices([s], scope.carrier);
    if inside != [] { assert inside[0] in inside && 0 in inside; }
  }

  lemma OneSlot(ch: Chars, c: Content, s: Slot, lines: seq<string>, translation: string, scope: Option<Scope>)
    requires scope.None? && lines == Split(translation, '\n')
    ensures var d := if |lines| == 1 then Matched(ch, c, [s], lines, scope) else Unmatched(ch, c, [s], translation, scope);
            forall x :: Get(d, x) == if x == s then translation else Get(c, x)
  {
    SetAllGet(c, [s], if |lines| == 1 then lines else Blanks(1));
    assert NoDup([s]) && [s][0] == s;
    if |lines| == 1 { assert lines == [translation]; }
  }

  lemma TextsAgree(c: Content, d: Content, all: seq<Slot>, slots: seq<Slot>)
    requires AgreeOn(all, c, d) && forall s :: s in slots ==> s in all
    ensures Texts(c, slots) == Texts(d, slots)
  {
  }

  lemma ReplacedStays(ch: Chars, root: Tree, origin: Content, area: Area, current: seq<string>, translation: string,
                      c: Content)
    requires AreaOk(root, area) && AreaSlots(origin, area) != [] && |current| == |AreaSlots(origin, area)|
    requires ValidSlots(root, AreaSlots(origin, area))
    ensures SameOutside(area.Footprint(), c,
                        Replaced(ch, root, c, AreaSlots(origin, area), current, Split(translation, '\n'), translation))
  {
    var slots, lines := AreaSlots(origin, area), Split(translation, '\n');
    AreaSlotsFit(root, origin, area);
    if area.Single? {
      SingleReplaced(ch, root, c, area.slot, current, translation);
    } else {
      assert SlotsIn(root, area.at, area.stop, slots);
      ReplacedOutside(ch, root, area.at, area.stop, c, slots, current, lines, translation);
      forall s | s in Region(root, area.at, area.stop) ensures s in area.Footprint() {
        StoppedIsInside(root, area.at, area.stop, s);
      }
    }
  }

  lemma ReplacedSame(ch: Chars, root: Tree, origin: Content, area: Area, current: seq<string>, translation: string,
                     c: Content, d: Content)
    requires AreaOk(root, area) && AreaSlots(origin, area) != [] && |current| == |AreaSlots(origin, area)|
    requires ValidSlots(root, AreaSlots(origin, area)) && AgreeOn(area.Footprint(), c, d)
    ensures var slots, lines := AreaSlots(origin, area), Split(translation, '\n');
            AgreeOn(area.Footprint(), Replaced(ch, root, c, slots, current, lines, translation),
                    Replaced(ch, root, d, slots, current, lines, translation))
  {
    var slots, lines := AreaSlots(origin, area), Split(translation, '\n');
    AreaSlotsFit(root, origin, area);
    if area.Single? {
      SingleReplaced(ch, root, c, area.slot, current, translation);
      SingleReplaced(ch, root, d, area.slot, current, translation);
    } else {
      assert SlotsIn(root, area.at, area.stop, slots);
      ReplacedAgree(ch, root, area.at, area.stop, c, d, slots, current, lines, translation);
    }
  }

  /** What there is to know of an extracted segment: where its slots are and which texts it expects there. */
  ghost predicate Located(ch: Chars, root: Tree, origin: Content, area: Area, segment: Segment)
    requires root.Element?
  {
    && AreaOk(root, area) && AreaSlots(origin, area) != [] && ValidSlots(root, AreaSlots(origin, area))
    && Resolve(root, segment.parts) == Some(AreaSlots(origin, area))
    && segment.digest == Normalized(ch, Texts(origin, AreaSlots(origin, area)))
    && forall s :: s in AreaSlots(origin, area) ==> s in area.Footprint()
  }

  lemma ExtractedIsLocated(ch: Chars, root: Tree, origin: Content, area: Area, segment: Segment)
    requires root.Element? && PlainNames(root) && Extracted(ch, root, origin, area, segment)
    ensures Located(ch, root, origin, area, segment) && Storable(root, segment)
  {
    ExtractedStorable(ch, root, origin, area, segment);
    AreaSlotsFit(root, origin, area);
  }

  /** Applying a segment changes only its own area ... */
  lemma SegmentStays(ch: Chars, root: Tree, origin: Content, area: Area, segment: Segment, translation: string,
                     c: Content)
    requires root.Element? && Located(ch, root, origin, area, segment) && Storable(root, segment)
    ensures SameOutside(area.Footprint(), c, ApplySegment(ch, root, c, segment, translation))
  {
    ReplacedStays(ch, root, origin, area, Normalized(ch, Texts(c, AreaSlots(origin, area))), translation, c);
  }

  /** ... in a way that depends only on that area. */
  lemma SegmentSame(ch: Chars, root: Tree, origin: Content, area: Area, segment: Segment, translation: string,
                    c: Content, d: Content)
    requires root.Element? && Located(ch, root, origin, area, segment) && Storable(root, segment)
    requires AgreeOn(area.Footprint(), c, d)
    ensures AgreeOn(area.Footprint(), ApplySegment(ch, root, c, segment, translation),
                    ApplySegment(ch, root, d, segment, translation))
  {
    TextsAgree(c, d, area.Footprint(), AreaSlots(origin, area));
    ReplacedSame(ch, root, origin, area, Normalized(ch, Texts(c, AreaSlots(origin, area))), translation, c, d);
  }

  /** What a written unit reads: an untranslated one is untouched, a single position holds the
      translation, and a subtree holds it as `TextConserved` says. */
  ghost predicate Reads(ch: Chars, root: Tree, origin: Content, area: Area, segment: Segment, translation: string,
                        d: Content)
    requires AreaOk(root, area) && AreaSlots(origin, area) != [] && ValidSlots(root, AreaSlots(origin, area))
  {
    var slots, lines := AreaSlots(origin, area), Split(translation, '\n');
    if translation == segment.text then AgreeOn(area.Footprint(), origin, d)
    else if area.Single? then Get(d, area.slot) == translation
    else
      var scope := InitialScope(ch, root, origin, slots, Normalized(ch, Texts(origin, slots)));
      var text := TextOf(area.Slots(), d);
      if |lines| != |slots| then text == translation
      else if Borrows(ch, lines, slots, scope) then NonSpace(ch, text) == NonSpace(ch, Concat(lines))
      else text == Concat(lines)
  }

  lemma ReplacedReads(ch: Chars, root: Tree, origin: Content, area: Area, segment: Segment, translation: string)
    requires root.Element? && Located(ch, root, origin, area, segment) && translation != segment.text
    ensures Reads(ch, root, origin, area, segment, translation,
                  Replaced(ch, root, origin, AreaSlots(origin, area), segment.digest, Split(translation, '\n'), translation))
  {
    var slots, lines := AreaSlots(origin, area), Split(translation, '\n');
    AreaSlotsFit(root, origin, area);
    if area.Single? {
      SingleReplaced(ch, root, origin, area.slot, segment.digest, translation);
    } else {
      TextConserved(ch, root, area.at, area.stop, origin, slots, segment.digest, lines, translation);
    }
  }

  lemma SegmentReads(ch: Chars, root: Tree, origin: Content, area: Area, segment: Segment, translation: string)
    requires root.Element? && PlainNames(root) && Extracted(ch, root, origin, area, segment)
    ensures Storable(root, segment) && AreaSlots(origin, area) != [] && ValidSlots(root, AreaSlots(origin, area))
    ensures Reads(ch, root, origin, area, segment, translation, ApplySegment(ch, root, origin, segment, translation))
  {
    ExtractedIsLocated(ch, root, origin, area, segment);
    if translation != segment.text { ReplacedReads(ch, root, origin, area, segment, translation); }
  }

  lemma ReadsAgree(ch: Chars, root: Tree, origin: Content, area: Area, segment: Segment, translation: string,
                   d: Content, e: Content)
    requires AreaOk(root, area) && AreaSlots(origin, area) != [] && ValidSlots(root, AreaSlots(origin, area))
    requires Reads(ch, root, origin, area, segment, translation, d) && AgreeOn(area.Footprint(), d, e)
    ensures Reads(ch, root, origin, area, segment, translation, e)
  {
    if area.Subtree? {
      forall s | s in area.Slots() ensures Get(d, s) == Get(e, s) { StoppedIsInside(root, area.at, area.stop, s); }
      TextOfFrame(area.Slots(), d, e);
    }
  }

  // ---- the segments of a document

  predicate Live(ch: Chars, root: Tree, origin: Content, area: Area) {
    var unit := UnitOf(root, origin, area);
    unit != [] && HasText(ch, unit[0])
  }

  /** The areas of a document that become segments, in document order. */
  function LiveAreas(ch: Chars, root: Tree, origin: Content, areas: seq<Area>): seq<Area> {
    Kept((area: Area) => Live(ch, root, origin, area), areas)
  }

  lemma LiveFrom(ch: Chars, root: Tree, origin: Content, areas: seq<Area>, k: nat) returns (n: nat)
    requires k < |LiveAreas(ch, root, origin, areas)|
    ensures n < |areas| && LiveAreas(ch, root, origin, areas)[k] == areas[n] && Live(ch, root, origin, areas[n])
  {
    n := KeptFrom((area: Area) => Live(ch, root, origin, area), areas, k);
  }

  lemma {:induction false} KeptApart(f: Area -> bool, areas: seq<Area>)
    requires Apart(areas)
    ensures Apart(Kept(f, areas))
  {
    if areas != [] {
      var rest := Kept(f, areas[1..]);
      assert Apart(areas[1..]) by {
        assert forall k :: 0 <= k < |areas[1..]| ==> areas[1..][k] == areas[k + 1];
      }
      KeptApart(f, areas[1..]);
      if f(areas[0]) {
        forall j, s | 0 <= j < |rest| && s in areas[0].Footprint() ensures s !in rest[j].Footprint() {
          var n := KeptFrom(f, areas[1..], j);
          assert rest[j] == areas[n + 1];
        }
        ApartCons(areas[0], rest);
      } else {
        EmptyConcat(rest);
      }
    }
  }

  lemma ApartCons(area: Area, rest: seq<Area>)
    requires Apart(rest) && forall j, s :: 0 <= j < |rest| && s in area.Footprint() ==> s !in rest[j].Footprint()
    ensures Apart([area] + rest)
  {
    var all := [area] + rest;
    forall i, j, s | 0 <= i < j < |all| && s in all[i].Footprint() ensures s !in all[j].Footprint() {
      assert all[j] == rest[j - 1];
      if i > 0 { assert all[i] == rest[i - 1]; }
    }
  }

  /** The live areas of a document. */
  function DocumentAreas(ch: Chars, root: Tree, origin: Content): seq<Area> {
    LiveAreas(ch, root, origin, Areas(root, []))
  }

  /** Live areas that lie apart. */
  ghost predicate Fit(ch: Chars, root: Tree, origin: Content, live: seq<Area>) {
    && Apart(live)
    && forall k :: 0 <= k < |live| ==> AreaOk(root, live[k]) && Live(ch, root, origin, live[k])
  }

  lemma DocumentAreasFit(ch: Chars, root: Tree, origin: Content)
    ensures Fit(ch, root, origin, DocumentAreas(ch, root, origin))
  {
    var live := DocumentAreas(ch, root, origin);
    AreasFit(root, root, []);
    NoDupApart(Areas(root, []));
    KeptApart((area: Area) => Live(ch, root, origin, area), Areas(root, []));
    forall k | 0 <= k < |live| ensures AreaOk(root, live[k]) && Live(ch, root, origin, live[k]) {
      var n := LiveFrom(ch, root, origin, Areas(root, []), k);
    }
  }

  function SegmentAt(ch: Chars, root: Tree, origin: Content, area: Area): Segment
    requires Live(ch, root, origin, area)
  {
    SegmentOf(ch, UnitOf(root, origin, area)[0])
  }

  ghost function JobAt(ch: Chars, root: Tree, origin: Content, live: seq<Area>, translations: seq<string>, i: nat): Job
    requires i < |live| == |translations| && Fit(ch, root, origin, live)
  {
    Job(SegmentAt(ch, root, origin, live[i]), translations[i])
  }

  /** Every segment with its translation. */
  ghost function AllJobs(ch: Chars, root: Tree, origin: Content, live: seq<Area>, translations: seq<string>): seq<Job>
    requires |live| == |translations| && Fit(ch, root, origin, live)
  {
    seq(|live|, i requires 0 <= i < |live| => JobAt(ch, root, origin, live, translations, i))
  }

  ghost function Owns(live: seq<Area>): seq<seq<Slot>> {
    seq(|live|, i requires 0 <= i < |live| => live[i].Footprint())
  }

  // ---- segments as edits

  ghost function EditOf(ch: Chars, root: Tree, job: Job): Edit
    requires root.Element? && Storable(root, job.segment)
  {
    (c: Content) => ApplySegment(ch, root, c, job.segment, job.translation)
  }

  ghost function EditsOf(ch: Chars, root: Tree, jobs: seq<Job>): seq<Edit>
    requires root.Element? && AllStorable(root, jobs)
  {
    seq(|jobs|, k requires 0 <= k < |jobs| => EditOf(ch, root, jobs[k]))
  }

  lemma EditIsLocal(ch: Chars, root: Tree, origin: Content, area: Area, job: Job)
    requires root.Element? && Located(ch, root, origin, area, job.segment) && Storable(root, job.segment)
    ensures Local(EditOf(ch, root, job), area.Footprint())
  {
    var e, own := EditOf(ch, root, job), area.Footprint();
    forall c ensures SameOutside(own, c, e(c)) {
      SegmentStays(ch, root, origin, area, job.segment, job.translation, c);
    }
    forall c, d | AgreeOn(own, c, d) ensures AgreeOn(own, e(c), e(d)) {
      SegmentSame(ch, root, origin, area, job.segment, job.translation, c, d);
    }
  }

  lemma EditsCons(ch: Chars, root: Tree, jobs: seq<Job>)
    requires root.Element? && AllStorable(root, jobs) && jobs != []
    ensures AllStorable(root, jobs[1..]) && EditsOf(ch, root, jobs)[1..] == EditsOf(ch, root, jobs[1..])
    ensures EditsOf(ch, root, jobs)[0] == EditOf(ch, root, jobs[0])
  {
  }

  lemma EditApplies(ch: Chars, root: Tree, job: Job, c: Content)
    requires root.Element? && Storable(root, job.segment)
    ensures EditOf(ch, root, job)(c) == ApplySegment(ch, root, c, job.segment, job.translation)
  {
  }

  lemma {:induction false} ApplyAllIsFold(ch: Chars, root: Tree, c: Content, jobs: seq<Job>)
    requires root.Element? && AllStorable(root, jobs)
    ensures ApplyAll(ch, root, c, jobs) == Fold(EditsOf(ch, root, jobs), c)
    decreases |jobs|
  {
    if jobs != [] {
      EditsCons(ch, root, jobs);
      EditApplies(ch, root, jobs[0], c);
      ApplyAllIsFold(ch, root, EditOf(ch, root, jobs[0])(c), jobs[1..]);
    }
  }

  lemma JobLocated(ch: Chars, root: Tree, origin: Content, live: seq<Area>, translations: seq<string>, i: nat)
    requires i < |live| == |translations| && Fit(ch, root, origin, live) && root.Element? && PlainNames(root)
    ensures var segment := JobAt(ch, root, origin, live, translations, i).segment;
            Located(ch, root, origin, live[i], segment) && Storable(root, segment)
  {
    ExtractedIsLocated(ch, root, origin, live[i], SegmentAt(ch, root, origin, live[i]));
  }

  lemma JobsStorable(ch: Chars, root: Tree, origin: Content, live: seq<Area>, translations: seq<string>)
    requires |live| == |translations| && Fit(ch, root, origin, live) && root.Element? && PlainNames(root)
    ensures AllStorable(root, AllJobs(ch, root, origin, live, translations))
  {
    var jobs := AllJobs(ch, root, origin, live, translations);
    forall i | 0 <= i < |jobs| ensures Storable(root, jobs[i].segment) {
      JobLocated(ch, root, origin, live, translations, i);
    }
  }

  lemma JobIsLocal(ch: Chars, root: Tree, origin: Content, live: seq<Area>, translations: seq<string>, i: nat)
    requires i < |live| == |translations| && Fit(ch, root, origin, live) && root.Element? && PlainNames(root)
    ensures var job := JobAt(ch, root, origin, live, translations, i);
            Storable(root, job.segment) && Local(EditOf(ch, root, job), live[i].Footprint())
  {
    JobLocated(ch, root, origin, live, translations, i);
    EditIsLocal(ch, root, origin, live[i], JobAt(ch, root, origin, live, translations, i));
  }

  lemma JobsLocal(ch: Chars, root: Tree, origin: Content, live: seq<Area>, translations: seq<string>)
    requires |live| == |translations| && Fit(ch, root, origin, live) && root.Element? && PlainNames(root)
    ensures AllStorable(root, AllJobs(ch, root, origin, live, translations))
    ensures AllLocal(EditsOf(ch, root, AllJobs(ch, root, origin, live, translations)), Owns(live)) && Disjoint(Owns(live))
  {
    var jobs := AllJobs(ch, root, origin, live, translations);
    JobsStorable(ch, root, origin, live, translations);
    forall i | 0 <= i < |jobs| ensures Local(EditOf(ch, root, jobs[i]), Owns(live)[i]) {
      JobIsLocal(ch, root, origin, live, translations, i);
    }
    EditsLocal(ch, root, jobs, Owns(live));
  }

  lemma EditsLocal(ch: Chars, root: Tree, jobs: seq<Job>, owns: seq<seq<Slot>>)
    requires root.Element? && AllStorable(root, jobs) && |owns| == |jobs|
    requires forall i :: 0 <= i < |jobs| ==> Local(EditOf(ch, root, jobs[i]), owns[i])
    ensures AllLocal(EditsOf(ch, root, jobs), owns)
  {
    forall i | 0 <= i < |jobs| ensures Local(EditsOf(ch, root, jobs)[i], owns[i]) { EditsAt(ch, root, jobs, i); }
  }

  lemma EditsAt(ch: Chars, root: Tree, jobs: seq<Job>, i: nat)
    requires root.Element? && AllStorable(root, jobs) && i < |jobs|
    ensures EditsOf(ch, root, jobs)[i] == EditOf(ch, root, jobs[i])
  {
  }

  // ---- writing them back

  /** Distinct segments, in the order in which they are to be applied, and a translation for each segment. */
  ghost predicate Picks(live: seq<Area>, picks: seq<nat>, translations: seq<string>) {
    NoDup(picks) && |translations| == |live| && InRange(picks, |live|)
  }

  lemma PickedStorable(root: Tree, jobs: seq<Job>, picks: seq<nat>)
    requires root.Element? && AllStorable(root, jobs) && InRange(picks, |jobs|)
    ensures AllStorable(root, Picked(jobs, picks))
  {
  }

  lemma PickedEdits(ch: Chars, root: Tree, jobs: seq<Job>, picks: seq<nat>)
    requires root.Element? && AllStorable(root, jobs) && InRange(picks, |jobs|)
    ensures AllStorable(root, Picked(jobs, picks))
    ensures EditsOf(ch, root, Picked(jobs, picks)) == Picked(EditsOf(ch, root, jobs), picks)
  {
  }

  /** What is in the document, which held `c`, after the picked segments of `origin` have been written back in turn. */
  ghost function WrittenFrom(ch: Chars, root: Tree, origin: Content, c: Content, live: seq<Area>, picks: seq<nat>,
                             translations: seq<string>): Content
    requires root.Element? && PlainNames(root) && Fit(ch, root, origin, live) && Picks(live, picks, translations)
  {
    var jobs := AllJobs(ch, root, origin, live, translations);
    JobsLocal(ch, root, origin, live, translations);
    PickedStorable(root, jobs, picks);
    ApplyAll(ch, root, c, Picked(jobs, picks))
  }

  /** Every segment's edit. */
  ghost function LiveEdits(ch: Chars, root: Tree, origin: Content, live: seq<Area>, translations: seq<string>): (r: seq<Edit>)
    requires |live| == |translations| && Fit(ch, root, origin, live) && root.Element? && PlainNames(root)
    ensures |r| == |live|
  {
    JobsLocal(ch, root, origin, live, translations);
    EditsOf(ch, root, AllJobs(ch, root, origin, live, translations))
  }

  lemma LiveEditsLocal(ch: Chars, root: Tree, origin: Content, live: seq<Area>, translations: seq<string>)
    requires |live| == |translations| && Fit(ch, root, origin, live) && root.Element? && PlainNames(root)
    ensures AllLocal(LiveEdits(ch, root, origin, live, translations), Owns(live)) && Disjoint(Owns(live))
  {
    JobsLocal(ch, root, origin, live, translations);
  }

  lemma WrittenIsFold(ch: Chars, root: Tree, origin: Content, c: Content, live: seq<Area>, picks: seq<nat>,
                      translations: seq<string>)
    requires root.Element? && PlainNames(root) && Fit(ch, root, origin, live) && Picks(live, picks, translations)
    ensures WrittenFrom(ch, root, origin, c, live, picks, translations)
            == Fold(Picked(LiveEdits(ch, root, origin, live, translations), picks), c)
  {
    var jobs := AllJobs(ch, root, origin, live, translations);
    JobsLocal(ch, root, origin, live, translations);
    PickedEdits(ch, root, jobs, picks);
    ApplyAllIsFold(ch, root, c, Picked(jobs, picks));
  }

  lemma WrittenInside(ch: Chars, root: Tree, origin: Content, c: Content, live: seq<Area>, picks: seq<nat>,
                      translations: seq<string>, k: nat)
    requires root.Element? && PlainNames(root) && Fit(ch, root, origin, live) && Picks(live, picks, translations)
    requires k < |picks|
    ensures AgreeOn(live[picks[k]].Footprint(), LiveEdits(ch, root, origin, live, translations)[picks[k]](c),
                    WrittenFrom(ch, root, origin, c, live, picks, translations))
  {
    var edits := LiveEdits(ch, root, origin, live, translations);
    LiveEditsLocal(ch, root, origin, live, translations);
    WrittenIsFold(ch, root, origin, c, live, picks, translations);
    PickedLocal(edits, Owns(live), picks);
    FoldInside(Picked(edits, picks), Picked(Owns(live), picks), c, k);
  }

  lemma WrittenOutside(ch: Chars, root: Tree, origin: Content, c: Content, live: seq<Area>, picks: seq<nat>,
                       translations: seq<string>, s: Slot)
    requires root.Element? && PlainNames(root) && Fit(ch, root, origin, live) && Picks(live, picks, translations)
    requires Outside(Picked(Owns(live), picks), s)
    ensures Get(WrittenFrom(ch, root, origin, c, live, picks, translations), s) == Get(c, s)
  {
    var edits := LiveEdits(ch, root, origin, live, translations);
    LiveEditsLocal(ch, root, origin, live, translations);
    WrittenIsFold(ch, root, origin, c, live, picks, translations);
    PickedLocal(edits, Owns(live), picks);
    FoldOutside(Picked(edits, picks), Picked(Owns(live), picks), c, s);
  }

  lemma EditAlone(ch: Chars, root: Tree, origin: Content, live: seq<Area>, translations: seq<string>, i: nat)
    requires i < |live| == |translations| && Fit(ch, root, origin, live) && root.Element? && PlainNames(root)
    ensures Storable(root, JobAt(ch, root, origin, live, translations, i).segment)
    ensures LiveEdits(ch, root, origin, live, translations)[i]
            == EditOf(ch, root, JobAt(ch, root, origin, live, translations, i))
  {
    JobsStorable(ch, root, origin, live, translations);
    EditsAt(ch, root, AllJobs(ch, root, origin, live, translations), i);
  }

  lemma JobReads(ch: Chars, root: Tree, origin: Content, area: Area, job: Job, e: Edit, d: Content)
    requires root.Element? && PlainNames(root) && Extracted(ch, root, origin, area, job.segment)
    requires Storable(root, job.segment) && e == EditOf(ch, root, job) && AgreeOn(area.Footprint(), e(origin), d)
    ensures AreaSlots(origin, area) != [] && ValidSlots(root, AreaSlots(origin, area))
    ensures Reads(ch, root, origin, area, job.segment, job.translation, d)
  {
    EditApplies(ch, root, job, origin);
    SegmentReads(ch, root, origin, area, job.segment, job.translation);
    ReadsAgree(ch, root, origin, area, job.segment, job.translation, e(origin), d);
  }

  lemma AreaReads(ch: Chars, root: Tree, origin: Content, live: seq<Area>, translations: seq<string>, i: nat, d: Content)
    requires i < |live| == |translations| && Fit(ch, root, origin, live) && root.Element? && PlainNames(root)
    requires AgreeOn(live[i].Footprint(), LiveEdits(ch, root, origin, live, translations)[i](origin), d)
    ensures AreaSlots(origin, live[i]) != [] && ValidSlots(root, AreaSlots(origin, live[i]))
    ensures Reads(ch, root, origin, live[i], SegmentAt(ch, root, origin, live[i]), translations[i], d)
  {
    EditAlone(ch, root, origin, live, translations, i);
    JobReads(ch, root, origin, live[i], JobAt(ch, root, origin, live, translations, i),
             LiveEdits(ch, root, origin, live, translations)[i], d);
  }

  // ---- the document's own segments

  ghost predicate DocumentPicks(ch: Chars, root: Tree, origin: Content, picks: seq<nat>, translations: seq<string>) {
    Picks(DocumentAreas(ch, root, origin), picks, translations)
  }

  /** A document whose segments, extracted from `origin` and translated, were written back in the picked order. */
  ghost function Written(ch: Chars, root: Tree, origin: Content, picks: seq<nat>, translations: seq<string>): Content
    requires root.Element? && PlainNames(root) && DocumentPicks(ch, root, origin, picks, translations)
  {
    DocumentAreasFit(ch, root, origin);
    WrittenFrom(ch, root, origin, origin, DocumentAreas(ch, root, origin), picks, translations)
  }

  /** The unit of an area reads its translation. */
  ghost predicate UnitReads(ch: Chars, root: Tree, origin: Content, area: Area, translation: string, d: Content) {
    && AreaOk(root, area) && Live(ch, root, origin, area)
    && AreaSlots(origin, area) != [] && ValidSlots(root, AreaSlots(origin, area))
    && Reads(ch, root, origin, area, SegmentAt(ch, root, origin, area), translation, d)
  }

  /** Write-back, end to end: extract a document's segments, translate any of them, apply them in any order.
      Every chosen unit then reads its translation, and no other text has changed. */
  lemma WriteBack(ch: Chars, root: Tree, origin: Content, picks: seq<nat>, translations: seq<string>)
    requires root.Element? && PlainNames(root) && DocumentPicks(ch, root, origin, picks, translations)
    ensures var live, d := DocumentAreas(ch, root, origin), Written(ch, root, origin, picks, translations);
            && (forall k :: 0 <= k < |picks| ==> UnitReads(ch, root, origin, live[picks[k]], translations[picks[k]], d))
            && (forall s :: Outside(Picked(Owns(live), picks), s) ==> Get(d, s) == Get(origin, s))
  {
    var live, d := DocumentAreas(ch, root, origin), Written(ch, root, origin, picks, translations);
    DocumentAreasFit(ch, root, origin);
    forall k | 0 <= k < |picks| ensures UnitReads(ch, root, origin, live[picks[k]], translations[picks[k]], d) {
      WrittenInside(ch, root, origin, origin, live, picks, translations, k);
      AreaReads(ch, root, origin, live, translations, picks[k], d);
    }
    forall s | Outside(Picked(Owns(live), picks), s) ensures Get(d, s) == Get(origin, s) {
      WrittenOutside(ch, root, origin, origin, live, picks, translations, s);
    }
  }

  /** The order in which the segments are applied does not matter. */
  lemma OrderIrrelevant(ch: Chars, root: Tree, origin: Content, p: seq<nat>, q: seq<nat>, translations: seq<string>,
                        s: Slot)
    requires root.Element? && PlainNames(root) && multiset(p) == multiset(q)
    requires DocumentPicks(ch, root, origin, p, translations) && DocumentPicks(ch, root, origin, q, translations)
    ensures Get(Written(ch, root, origin, p, translations), s) == Get(Written(ch, root, origin, q, translations), s)
  {
    var live := DocumentAreas(ch, root, origin);
    DocumentAreasFit(ch, root, origin);
    LiveEditsLocal(ch, root, origin, live, translations);
    WrittenIsFold(ch, root, origin, origin, live, p, translations);
    WrittenIsFold(ch, root, origin, origin, live, q, translations);
    OrderFree(LiveEdits(ch, root, origin, live, translations), Owns(live), p, q, origin, s);
  }
}
