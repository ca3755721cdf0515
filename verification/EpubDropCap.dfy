/** Where the pieces of a translation go (transoria/formats/epub_writer.py), position by position. Conservation says
    that nothing is lost; this says which position reads what. */
module EpubDropCap {
  import opened Lists
  import opened TextRules
  import opened XmlTree
  import opened EpubWriter
  import opened EpubConservation

  // ---- a position of the unit, read again

  /** The initial stands in the first of `inside`, the white space before it in front of `carrier` and the rest
      behind it; everything else in the region is as in `e`. */
  ghost predicate PlacedAround(region: seq<Slot>, e: Content, d: Content, inside: seq<Slot>, carrier: Addr, p: Pieces)
    requires carrier != []
  {
    && inside != [] && Get(d, inside[0]) == p.initial
    && (forall k :: 0 < k < |inside| ==> Get(d, inside[k]) == "")
    && Get(d, Before(carrier)) == Get(e, Before(carrier)) + p.leading
    && Get(d, Tail(carrier)) == p.rest + Get(e, Tail(carrier))
    && forall s :: s in region && s !in inside && s != Before(carrier) && s != Tail(carrier) ==> Get(d, s) == Get(e, s)
  }

  lemma CarrierApart(root: Tree, u: Addr, stop: set<string>, c: Content, resolved: seq<Slot>, carrier: Addr, top: Addr)
    requires IsUnit(root, u, stop, c, resolved) && ScopeIndices(resolved, carrier) != []
    requires u <= top && u != top && top <= carrier
    ensures var inside := SlotsAt(resolved, ScopeIndices(resolved, carrier));
            && inside != [] && NoDup(inside)
            && Before(top) != Tail(top) && Before(top) !in inside && Tail(top) !in inside
  {
    var inside := SlotsAt(resolved, ScopeIndices(resolved, carrier));
    UnitSlotsValid(root, u, stop, c, resolved);
    InsideCarrier(resolved, carrier, top);
    assert inside[0] in inside;
    var pre, post := RegionAround(root, u, stop, top, inside[0]);
    WalkNoDup(At(root, u), u, stop);
    NoDupAround(pre, Before(top), Region(root, top, stop), Tail(top), post);
    forall s | s in inside ensures s in Region(root, top, stop) { OwnedBelow(root, u, stop, top, s); }
  }

  lemma PlacedThere(region: seq<Slot>, e: Content, inside: seq<Slot>, carrier: Addr, p: Pieces)
    requires carrier != [] && inside != [] && NoDup(inside)
    requires Before(carrier) != Tail(carrier) && Before(carrier) !in inside && Tail(carrier) !in inside
    ensures PlacedAround(region, e, PlaceInitial(e, inside, carrier, p), inside, carrier, p)
  {
    PlaceInitialGet(e, inside, carrier, p);
    assert forall k :: 0 < k < |inside| ==> inside[k] in inside && inside[k] != inside[0];
  }

  // ---- line boundaries lost

  /** Nothing in the region but the translation, at a position directly in the shared container. */
  ghost predicate InContainer(region: seq<Slot>, d: Content, resolved: seq<Slot>, translation: string)
    requires resolved != []
  {
    exists x :: x in region && Owner(x) == CommonOf(resolved) && Get(d, x) == translation
                && forall s :: s in region && s != x ==> Get(d, s) == ""
  }

  /** The carrier reads the initial of the translation, and directly in the shared container stand the white space
      in front of it and the rest behind it. */
  ghost predicate InitialAndRest(ch: Chars, region: seq<Slot>, d: Content, resolved: seq<Slot>, scope: Scope, translation: string)
    requires resolved != [] && Splits(resolved, Some(scope))
  {
    exists p: Pieces, before: Slot, behind: Slot ::
      && IsLead(ch, translation, p) && Owner(before) == CommonOf(resolved) == Owner(behind) && before != behind
      && Get(d, before) == p.leading && Get(d, behind) == p.rest
      && Get(d, SlotsAt(resolved, scope.indices)[0]) == p.initial
      && forall s :: s in region && s != before && s != behind && s != SlotsAt(resolved, scope.indices)[0] ==> Get(d, s) == ""
  }

  lemma BeforeOwner(b: Addr)
    requires b != []
    ensures Owner(Before(b)) == Parent(b) == Owner(Tail(b))
  {
    if b[|b| - 1] > 0 { assert Parent(Parent(b) + [b[|b| - 1] - 1]) == Parent(b); }
  }

  lemma PlainInContainer(root: Tree, u: Addr, stop: set<string>, e: Content, resolved: seq<Slot>, translation: string)
    requires ValidAddr(root, u) && resolved != [] && u <= CommonOf(resolved)
    requires forall s :: s in resolved ==> s in Region(root, u, stop)
    requires forall s :: s in Region(root, u, stop) ==> Get(e, s) == ""
    ensures InContainer(Region(root, u, stop), InFront(e, resolved, translation), resolved, translation)
  {
    var common, owner := CommonOf(resolved), Owner(resolved[0]);
    CommonIsGreatest(resolved, []);
    assert resolved[0] in Region(root, u, stop);
    if owner == common {
      assert Get(InFront(e, resolved, translation), resolved[0]) == translation;
    } else {
      var top := ChildOf(common, owner);
      PrefixTrans(u, common, top);
      BeforeInside(root, u, stop, top, resolved[0]);
      BeforeOwner(top);
      EmptyConcat(translation);
      assert Get(InFront(e, resolved, translation), Before(top)) == translation;
    }
  }

  lemma InitialBeside(ch: Chars, root: Tree, u: Addr, stop: set<string>, c: Content, resolved: seq<Slot>,
                      translation: string, scope: Scope)
    requires IsUnit(root, u, stop, c, resolved) && Splits(resolved, Some(scope))
    ensures InitialAndRest(ch, Region(root, u, stop), Unmatched(ch, c, resolved, translation, Some(scope)), resolved, scope, translation)
  {
    var e, region := SetAll(c, resolved, Blanks(|resolved|)), Region(root, u, stop);
    CarrierInside(root, u, stop, c, resolved, scope);
    ClearedUnit(root, u, stop, c, resolved);
    var top, p, inside := ChildOf(CommonOf(resolved), scope.carrier), SplitInitial(ch, translation), SlotsAt(resolved, scope.indices);
    assert u <= top && u != top by { PrefixTrans(u, CommonOf(resolved), top); }
    CarrierApart(root, u, stop, c, resolved, scope.carrier, top);
    PlacedThere(region, e, inside, top, p);
    SplitIsLead(ch, translation);
    BeforeOwner(top);
    AroundInside(root, u, stop, c, resolved, scope, top);
    RestBlank(region, e, Unmatched(ch, c, resolved, translation, Some(scope)), inside, top, p);
  }

  lemma AroundInside(root: Tree, u: Addr, stop: set<string>, c: Content, resolved: seq<Slot>, scope: Scope, top: Addr)
    requires IsUnit(root, u, stop, c, resolved) && Splits(resolved, Some(scope))
    requires u <= top && u != top && top <= scope.carrier
    ensures Before(top) in Region(root, u, stop) && Tail(top) in Region(root, u, stop)
    ensures forall s :: s in SlotsAt(resolved, scope.indices) ==> s in Region(root, u, stop)
  {
    UnitSlotsValid(root, u, stop, c, resolved);
    var inside := SlotsAt(resolved, scope.indices);
    InsideCarrier(resolved, scope.carrier, top);
    assert inside[0] in inside;
    var pre, post := RegionAround(root, u, stop, top, inside[0]);
    assert Before(top) in [Before(top)] && Tail(top) in [Tail(top)];
  }

  /** In a region that was empty, nothing but the three pieces is left. */
  lemma RestBlank(region: seq<Slot>, e: Content, d: Content, inside: seq<Slot>, top: Addr, p: Pieces)
    requires top != [] && PlacedAround(region, e, d, inside, top, p) && Before(top) != Tail(top)
    requires Before(top) in region && Tail(top) in region && forall s :: s in region ==> Get(e, s) == ""
    ensures Get(d, Before(top)) == p.leading && Get(d, Tail(top)) == p.rest
    ensures forall s :: s in region && s != Before(top) && s != Tail(top) && s != inside[0] ==> Get(d, s) == ""
  {
    EmptyConcat(p.leading);
    EmptyConcat(p.rest);
  }

  // ---- a line for each slot

  /** The first line behind `last` that has text. */
  ghost predicate FirstBehind(ch: Chars, lines: seq<string>, last: nat, donor: nat) {
    last < donor < |lines| && !Blank(ch, lines[donor]) && forall k :: last < k < donor ==> Blank(ch, lines[k])
  }

  /** The lines the slots read in the end, and the text of which the carrier gets the initial: its own lines or, if
      these are blank, the initial of the first line behind them that has text, which gives it up. */
  ghost predicate Shares(ch: Chars, lines: seq<string>, indices: seq<nat>, kept: seq<string>, source: string)
    requires indices != [] && forall k :: 0 <= k < |indices| ==> indices[k] < |lines|
  {
    var own, last := JoinAt(lines, indices), indices[|indices| - 1];
    if Blank(ch, own) && exists donor: nat :: FirstBehind(ch, lines, last, donor) then
      exists donor: nat, q: Pieces :: FirstBehind(ch, lines, last, donor) && IsLead(ch, lines[donor], q)
                                   && kept == lines[donor := q.leading + q.rest] && source == q.initial
    else kept == lines && source == own
  }

  /** What the slot of line `i`, outside the carrier, reads besides its line when it adjoins the carrier. */
  function WithPieces(s: Slot, carrier: Addr, line: string, p: Pieces): string
    requires carrier != []
  {
    (if s == Tail(carrier) then p.rest else "") + line + if s == Before(carrier) then p.leading else ""
  }

  /** The carrier reads the initial; every slot outside reads its own line, and next to the carrier the pieces. */
  ghost predicate LinesAndInitial(ch: Chars, d: Content, resolved: seq<Slot>, lines: seq<string>, scope: Scope)
    requires |lines| == |resolved| && Splits(resolved, Some(scope))
  {
    exists kept: seq<string>, source: string, p: Pieces ::
      && |kept| == |lines| && Shares(ch, lines, scope.indices, kept, source) && IsLead(ch, source, p)
      && Get(d, SlotsAt(resolved, scope.indices)[0]) == p.initial
      && (forall k :: 0 < k < |scope.indices| ==> Get(d, SlotsAt(resolved, scope.indices)[k]) == "")
      && forall i :: 0 <= i < |lines| && i !in scope.indices ==>
           Get(d, resolved[i]) == WithPieces(resolved[i], scope.carrier, kept[i], p)
  }

  function KeptLines(ch: Chars, lines: seq<string>, indices: seq<nat>): (kept: seq<string>)
    requires indices != [] && forall k :: 0 <= k < |indices| ==> indices[k] < |lines|
    ensures |kept| == |lines|
  {
    var donor := Donor(ch, lines, indices);
    if donor == |lines| then lines
    else var q := SplitInitial(ch, lines[donor]); lines[donor := q.leading + q.rest]
  }

  lemma SharesIs(ch: Chars, lines: seq<string>, indices: seq<nat>)
    requires indices != [] && forall k :: 0 <= k < |indices| ==> indices[k] < |lines|
    ensures Shares(ch, lines, indices, KeptLines(ch, lines, indices), InitialSource(ch, lines, indices))
  {
    var own, last, donor := JoinAt(lines, indices), indices[|indices| - 1], Donor(ch, lines, indices);
    if donor < |lines| {
      assert FirstBehind(ch, lines, last, donor);
      SplitIsLead(ch, lines[donor]);
    } else if Blank(ch, own) {
      forall k: nat ensures !FirstBehind(ch, lines, last, k) {}
    }
  }

  lemma FilledGet(ch: Chars, c: Content, resolved: seq<Slot>, lines: seq<string>, indices: seq<nat>)
    requires |lines| == |resolved| && NoDup(resolved) && indices != [] && forall k :: 0 <= k < |indices| ==> indices[k] < |lines|
    ensures forall i :: 0 <= i < |resolved| ==> Get(Filled(ch, c, resolved, lines, indices), resolved[i]) == KeptLines(ch, lines, indices)[i]
  {
    SetAllGet(c, resolved, lines);
    var donor, all := Donor(ch, lines, indices), SetAll(c, resolved, lines);
    if donor < |lines| {
      forall i | 0 <= i < |resolved| && i != donor
        ensures Get(Filled(ch, c, resolved, lines, indices), resolved[i]) == lines[i]
      {
        assert resolved[i] != resolved[donor] && Get(all, resolved[i]) == lines[i];
      }
    }
  }

  lemma LinesTogether(ch: Chars, d: Content, resolved: seq<Slot>, lines: seq<string>, scope: Scope, p: Pieces)
    requires |lines| == |resolved| && Splits(resolved, Some(scope))
    requires IsLead(ch, InitialSource(ch, lines, scope.indices), p)
    requires Get(d, SlotsAt(resolved, scope.indices)[0]) == p.initial
    requires forall k :: 0 < k < |scope.indices| ==> Get(d, SlotsAt(resolved, scope.indices)[k]) == ""
    requires forall i :: 0 <= i < |lines| && i !in scope.indices ==>
               Get(d, resolved[i]) == WithPieces(resolved[i], scope.carrier, KeptLines(ch, lines, scope.indices)[i], p)
    ensures LinesAndInitial(ch, d, resolved, lines, scope)
  {
    SharesIs(ch, lines, scope.indices);
  }

  lemma LinesBeside(ch: Chars, root: Tree, u: Addr, stop: set<string>, c: Content, resolved: seq<Slot>,
                    lines: seq<string>, scope: Scope)
    requires IsUnit(root, u, stop, c, resolved) && Splits(resolved, Some(scope)) && |lines| == |resolved|
    ensures LinesAndInitial(ch, Matched(ch, c, resolved, lines, Some(scope)), resolved, lines, scope)
  {
    var e, region := Filled(ch, c, resolved, lines, scope.indices), Region(root, u, stop);
    var d, inside := Matched(ch, c, resolved, lines, Some(scope)), SlotsAt(resolved, scope.indices);
    var kept, source := KeptLines(ch, lines, scope.indices), InitialSource(ch, lines, scope.indices);
    var p := SplitInitial(ch, source);
    UnitSlotsValid(root, u, stop, c, resolved);
    CarrierInside(root, u, stop, c, resolved, scope);
    CarrierApart(root, u, stop, c, resolved, scope.carrier, scope.carrier);
    PlacedThere(region, e, inside, scope.carrier, p);
    SplitIsLead(ch, source);
    FilledGet(ch, c, resolved, lines, scope.indices);
    forall i | 0 <= i < |lines| && i !in scope.indices
      ensures Get(d, resolved[i]) == WithPieces(resolved[i], scope.carrier, kept[i], p)
    {
      assert resolved[i] in resolved;
      OutsideSlots(resolved, scope.indices, i);
      OutsideReads(region, e, d, inside, scope.carrier, p, resolved[i]);
    }
    InsideReads(region, e, d, inside, scope.carrier, p, |scope.indices|);
    LinesTogether(ch, d, resolved, lines, scope, p);
  }

  lemma OutsideReads(region: seq<Slot>, e: Content, d: Content, inside: seq<Slot>, carrier: Addr, p: Pieces, s: Slot)
    requires carrier != [] && PlacedAround(region, e, d, inside, carrier, p) && Before(carrier) != Tail(carrier)
    requires s in region && s !in inside
    ensures Get(d, s) == WithPieces(s, carrier, Get(e, s), p)
  {
    EmptyConcat(Get(e, s));
    EmptyConcat(p.rest + Get(e, s));
  }

  lemma InsideReads(region: seq<Slot>, e: Content, d: Content, inside: seq<Slot>, carrier: Addr, p: Pieces, n: nat)
    requires carrier != [] && PlacedAround(region, e, d, inside, carrier, p) && n == |inside|
    ensures n > 0 && Get(d, inside[0]) == p.initial && forall k :: 0 < k < n ==> Get(d, inside[k]) == ""
  {
  }

  lemma OutsideSlots(resolved: seq<Slot>, indices: seq<nat>, i: nat)
    requires NoDup(resolved) && i < |resolved| && i !in indices && forall k :: 0 <= k < |indices| ==> indices[k] < |resolved|
    ensures resolved[i] !in SlotsAt(resolved, indices)
  {
  }

  /** What each position of the unit reads after the replacement. With a line for each slot every slot reads its
      line. Otherwise the whole translation stands directly in the shared container, never in an inline element. With a
      drop cap its carrier reads the initial - the openers and exactly one grapheme, as the pattern prefers - and what
      precedes and follows the initial stands next to the carrier. */
  lemma DropCapKept(ch: Chars, root: Tree, u: Addr, stop: set<string>, c: Content, resolved: seq<Slot>,
                    current: seq<string>, lines: seq<string>, translation: string)
    requires IsUnit(root, u, stop, c, resolved) && |current| == |resolved|
    ensures ValidSlots(root, resolved)
    ensures var scope := InitialScope(ch, root, c, resolved, current);
            var d, region := Replaced(ch, root, c, resolved, current, lines, translation), Region(root, u, stop);
            match scope
            case None =>
              if |lines| == |resolved| then forall i :: 0 <= i < |lines| ==> Get(d, resolved[i]) == lines[i]
              else InContainer(region, d, resolved, translation)
            case Some(scope) =>
              if |lines| == |resolved| then LinesAndInitial(ch, d, resolved, lines, scope)
              else InitialAndRest(ch, region, d, resolved, scope, translation)
  {
    UnitSlotsValid(root, u, stop, c, resolved);
    match InitialScope(ch, root, c, resolved, current)
    case None =>
      if |lines| == |resolved| {
        SetAllGet(c, resolved, lines);
      } else {
        ClearedUnit(root, u, stop, c, resolved);
        PlainInContainer(root, u, stop, SetAll(c, resolved, Blanks(|resolved|)), resolved, translation);
      }
    case Some(scope) =>
      if |lines| == |resolved| { LinesBeside(ch, root, u, stop, c, resolved, lines, scope); }
      else { InitialBeside(ch, root, u, stop, c, resolved, translation, scope); }
  }

  // ---- when there is a drop cap

  /** An inline element whose text, so far as the unit has it, is just an initial. */
  ghost predicate HoldsInitial(ch: Chars, root: Tree, resolved: seq<Slot>, current: seq<string>, x: Addr)
    requires |current| == |resolved|
  {
    && ValidAddr(root, x) && At(root, x).Element? && At(root, x).name in INLINE_TAGS
    && IsInitial(ch, ScopeText(ch, resolved, current, x))
  }

  /** The unit's first text is the text of the element at `start`. */
  ghost predicate StartsAt(ch: Chars, resolved: seq<Slot>, current: seq<string>, start: Addr)
    requires |current| == |resolved|
  {
    exists first: nat :: first < |current| && !Blank(ch, current[first]) && (forall k :: 0 <= k < first ==> Blank(ch, current[k]))
                         && resolved[first] == Text(start)
  }

  /** From `start` up to `carrier` every element holds just the initial, and none further up does. */
  ghost predicate Widest(ch: Chars, root: Tree, resolved: seq<Slot>, current: seq<string>, carrier: Addr, start: Addr)
    requires |current| == |resolved|
  {
    && carrier <= start && (forall x :: carrier <= x <= start ==> HoldsInitial(ch, root, resolved, current, x))
    && (carrier != [] ==> !HoldsInitial(ch, root, resolved, current, Parent(carrier)))
  }

  ghost predicate HasLetter(ch: Chars, s: string) {
    exists k :: 0 <= k < |s| && ch.isAlpha(s[k])
  }

  /** The element is the carrier of a drop cap. */
  ghost predicate IsCarrier(ch: Chars, root: Tree, c: Content, resolved: seq<Slot>, current: seq<string>, carrier: Addr)
    requires |current| == |resolved|
  {
    && (exists start :: StartsAt(ch, resolved, current, start) && Widest(ch, root, resolved, current, carrier, start)
                        && HasLetter(ch, ScopeText(ch, resolved, current, start)))
    && carrier != [] && ValidAddr(root, carrier) && ValidAddr(root, Parent(carrier)) && !HasTag(At(root, carrier), RICH_TAGS)
    && (exists i :: 0 <= i < |current| && !(carrier <= Owner(resolved[i])) && !Blank(ch, current[i]))
    && !TextBefore(ch, root, c, carrier)
  }

  lemma {:induction false} WidenWidest(ch: Chars, root: Tree, resolved: seq<Slot>, current: seq<string>, carrier: Addr, start: Addr)
    requires |current| == |resolved| && ValidAddr(root, carrier) && carrier <= start
    requires forall x :: carrier <= x <= start ==> HoldsInitial(ch, root, resolved, current, x)
    ensures Widest(ch, root, resolved, current, WidenInitial(ch, root, resolved, current, carrier), start)
    decreases |carrier|
  {
    if InlineParent(root, carrier) && IsInitial(ch, ScopeText(ch, resolved, current, Parent(carrier))) {
      var parent := Parent(carrier);
      PrefixTrans(parent, carrier, start);
      forall x | parent <= x <= start ensures HoldsInitial(ch, root, resolved, current, x) {
        if x != parent { StepUp(parent, x, carrier, start); }
      }
      WidenWidest(ch, root, resolved, current, parent, start);
    }
  }

  /** What lies on the way to `start` below the parent of `carrier` is not above `carrier`. */
  lemma StepUp(parent: Addr, x: Addr, carrier: Addr, start: Addr)
    requires carrier != [] && parent == Parent(carrier) && carrier <= start && parent <= x <= start && x != parent
    ensures carrier <= x
  {
    assert |x| > |parent| && forall i :: 0 <= i < |carrier| ==> carrier[i] == start[i] == x[i];
  }

  lemma OneWidest(ch: Chars, root: Tree, resolved: seq<Slot>, current: seq<string>, a: Addr, b: Addr, start: Addr)
    requires |current| == |resolved| && Widest(ch, root, resolved, current, a, start) && Widest(ch, root, resolved, current, b, start)
    requires |a| <= |b|
    ensures a == b
  {
    assert forall i :: 0 <= i < |a| ==> a[i] == start[i] == b[i];
    if |a| < |b| { ParentBetween(a, b, start); }
  }

  lemma ParentBetween(a: Addr, b: Addr, start: Addr)
    requires a <= start && b <= start && |a| < |b|
    ensures b != [] && a <= Parent(b) <= start
  {
  }

  lemma StartIs(ch: Chars, resolved: seq<Slot>, current: seq<string>, start: Addr)
    requires |current| == |resolved|
    ensures StartsAt(ch, resolved, current, start) <==>
              var first := FirstText(ch, current, 0); first < |current| && resolved[first] == Text(start)
  {
    var first := FirstText(ch, current, 0);
    if StartsAt(ch, resolved, current, start) {
      var k: nat :| k < |current| && !Blank(ch, current[k]) && (forall i :: 0 <= i < k ==> Blank(ch, current[i])) && resolved[k] == Text(start);
      assert k == first;
    }
  }

  lemma OutsideIs(ch: Chars, resolved: seq<Slot>, current: seq<string>, carrier: Addr)
    requires |current| == |resolved|
    ensures TextOutside(ch, current, ScopeIndices(resolved, carrier)) <==>
              exists i :: 0 <= i < |current| && !(carrier <= Owner(resolved[i])) && !Blank(ch, current[i])
  {
  }

  lemma StartWithLetter(ch: Chars, root: Tree, resolved: seq<Slot>, current: seq<string>, start: Addr)
    requires |current| == |resolved| && ValidSlots(root, resolved)
    requires var first := FirstText(ch, current, 0); first < |current| && resolved[first] == Text(start)
    requires HoldsInitial(ch, root, resolved, current, start)
    ensures InitialStart(ch, root, resolved, current)
            == if HasLetter(ch, ScopeText(ch, resolved, current, start)) then Some(start) else None
  {
    var text := ScopeText(ch, resolved, current, start);
    assert HasLetter(ch, text) <==> exists i | 0 <= i < |text| :: ch.isAlpha(text[i]);
  }

  lemma CandidateIs(ch: Chars, root: Tree, resolved: seq<Slot>, current: seq<string>, start: Addr)
    requires |current| == |resolved| && ValidSlots(root, resolved) && InitialStart(ch, root, resolved, current) == Some(start)
    ensures var wide := WidenInitial(ch, root, resolved, current, start);
            ScopeCandidate(ch, root, resolved, current)
            == if !HasTag(At(root, wide), RICH_TAGS) && TextOutside(ch, current, ScopeIndices(resolved, wide))
               then Some(Scope(wide, ScopeIndices(resolved, wide))) else None
  {
  }

  /** The scope, in terms of where the unit starts. */
  lemma ScopeFromStart(ch: Chars, root: Tree, c: Content, resolved: seq<Slot>, current: seq<string>, carrier: Addr, start: Addr)
    requires |current| == |resolved| && ValidSlots(root, resolved) && InitialStart(ch, root, resolved, current) == Some(start)
    ensures var wide := WidenInitial(ch, root, resolved, current, start);
            InitialScope(ch, root, c, resolved, current) == Some(Scope(carrier, ScopeIndices(resolved, carrier))) <==>
              && carrier == wide
              && !HasTag(At(root, wide), RICH_TAGS) && TextOutside(ch, current, ScopeIndices(resolved, wide))
              && carrier != [] && ValidAddr(root, Parent(carrier)) && !TextBefore(ch, root, c, carrier)
  {
    var wide := WidenInitial(ch, root, resolved, current, start);
    CandidateIs(ch, root, resolved, current, start);
    if !HasTag(At(root, wide), RICH_TAGS) && TextOutside(ch, current, ScopeIndices(resolved, wide)) {
      CandidateScope(ch, root, c, resolved, current, wide);
    } else {
      NoCandidate(ch, root, c, resolved, current);
    }
  }

  lemma CandidateScope(ch: Chars, root: Tree, c: Content, resolved: seq<Slot>, current: seq<string>, wide: Addr)
    requires |current| == |resolved| && ValidSlots(root, resolved)
    requires ScopeCandidate(ch, root, resolved, current) == Some(Scope(wide, ScopeIndices(resolved, wide)))
    ensures wide != [] && ValidAddr(root, wide) && ValidAddr(root, Parent(wide))
    ensures InitialScope(ch, root, c, resolved, current)
            == if TextBefore(ch, root, c, wide) then None else Some(Scope(wide, ScopeIndices(resolved, wide)))
  {
  }

  lemma NoCandidate(ch: Chars, root: Tree, c: Content, resolved: seq<Slot>, current: seq<string>)
    requires |current| == |resolved| && ValidSlots(root, resolved) && ScopeCandidate(ch, root, resolved, current).None?
    ensures InitialScope(ch, root, c, resolved, current).None?
  {
  }

  lemma NoInitialNoScope(ch: Chars, root: Tree, c: Content, resolved: seq<Slot>, current: seq<string>)
    requires |current| == |resolved| && ValidSlots(root, resolved)
    requires var first := FirstText(ch, current, 0);
             first == |current| || resolved[first].Tail? || !HoldsInitial(ch, root, resolved, current, resolved[first].at)
    ensures InitialScope(ch, root, c, resolved, current).None?
  {
  }

  lemma JustOne(start: Addr, x: Addr)
    requires start <= x <= start
    ensures x == start
  {
  }

  lemma CarrierIsWidest(ch: Chars, root: Tree, resolved: seq<Slot>, current: seq<string>, carrier: Addr, start: Addr)
    requires |current| == |resolved| && HoldsInitial(ch, root, resolved, current, start)
    ensures Widest(ch, root, resolved, current, carrier, start) <==> carrier == WidenInitial(ch, root, resolved, current, start)
  {
    var wide := WidenInitial(ch, root, resolved, current, start);
    forall x | start <= x <= start ensures HoldsInitial(ch, root, resolved, current, x) { JustOne(start, x); }
    WidenWidest(ch, root, resolved, current, start, start);
    if Widest(ch, root, resolved, current, carrier, start) {
      if |carrier| <= |wide| { OneWidest(ch, root, resolved, current, carrier, wide, start); }
      else { OneWidest(ch, root, resolved, current, wide, carrier, start); }
    }
  }

  lemma CarrierFromStart(ch: Chars, root: Tree, c: Content, resolved: seq<Slot>, current: seq<string>, carrier: Addr, start: Addr)
    requires |current| == |resolved| && HoldsInitial(ch, root, resolved, current, start)
    requires forall s :: StartsAt(ch, resolved, current, s) <==> s == start
    ensures IsCarrier(ch, root, c, resolved, current, carrier) <==>
              && carrier == WidenInitial(ch, root, resolved, current, start)
              && HasLetter(ch, ScopeText(ch, resolved, current, start))
              && carrier != [] && ValidAddr(root, carrier) && ValidAddr(root, Parent(carrier))
              && !HasTag(At(root, carrier), RICH_TAGS) && TextOutside(ch, current, ScopeIndices(resolved, carrier))
              && !TextBefore(ch, root, c, carrier)
  {
    CarrierIsWidest(ch, root, resolved, current, carrier, start);
    OutsideIs(ch, resolved, current, carrier);
    assert StartsAt(ch, resolved, current, start);
  }

  lemma ExactlyFromStart(ch: Chars, root: Tree, c: Content, resolved: seq<Slot>, current: seq<string>, carrier: Addr, start: Addr)
    requires |current| == |resolved| && ValidSlots(root, resolved)
    requires var first := FirstText(ch, current, 0); first < |current| && resolved[first] == Text(start)
    requires HoldsInitial(ch, root, resolved, current, start)
    requires forall s :: StartsAt(ch, resolved, current, s) <==> s == start
    ensures InitialScope(ch, root, c, resolved, current) == Some(Scope(carrier, ScopeIndices(resolved, carrier)))
            <==> IsCarrier(ch, root, c, resolved, current, carrier)
  {
    CarrierFromStart(ch, root, c, resolved, current, carrier, start);
    StartWithLetter(ch, root, resolved, current, start);
    if HasLetter(ch, ScopeText(ch, resolved, current, start)) {
      ScopeFromStart(ch, root, c, resolved, current, carrier, start);
    } else {
      NoCandidate(ch, root, c, resolved, current);
    }
  }

  /** There is a drop cap exactly in such an element: no carrier is missed and none is made up. */
  lemma InitialScopeExactly(ch: Chars, root: Tree, c: Content, resolved: seq<Slot>, current: seq<string>, carrier: Addr)
    requires |current| == |resolved| && ValidSlots(root, resolved)
    ensures InitialScope(ch, root, c, resolved, current) == Some(Scope(carrier, ScopeIndices(resolved, carrier)))
            <==> IsCarrier(ch, root, c, resolved, current, carrier)
  {
    var first := FirstText(ch, current, 0);
    forall s ensures StartsAt(ch, resolved, current, s) <==> first < |current| && resolved[first] == Text(s) {
      StartIs(ch, resolved, current, s);
    }
    if first < |current| && resolved[first].Text? && HoldsInitial(ch, root, resolved, current, resolved[first].at) {
      ExactlyFromStart(ch, root, c, resolved, current, carrier, resolved[first].at);
    } else {
      NoInitialNoScope(ch, root, c, resolved, current);
      NoneIsCarrier(ch, root, c, resolved, current, carrier);
    }
  }

  lemma NoneIsCarrier(ch: Chars, root: Tree, c: Content, resolved: seq<Slot>, current: seq<string>, carrier: Addr)
    requires |current| == |resolved|
    requires forall s :: StartsAt(ch, resolved, current, s) ==> !HoldsInitial(ch, root, resolved, current, s)
    ensures !IsCarrier(ch, root, c, resolved, current, carrier)
  {
    forall s | StartsAt(ch, resolved, current, s) ensures !Widest(ch, root, resolved, current, carrier, s) {
      if carrier <= s { assert carrier <= s <= s; }
    }
  }
}
