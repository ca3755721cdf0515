/** Writing one unit back reads and changes nothing outside that unit. */
module EpubLocality {
  import opened EpubEdits
  import opened TextRules
  import opened XmlTree
  import opened EpubWriter
  import opened EpubConservation

  ghost predicate SlotsIn(root: Tree, u: Addr, stop: set<string>, resolved: seq<Slot>) {
    && resolved != [] && ValidAddr(root, u)
    && forall s :: s in resolved ==> s in Region(root, u, stop)
  }

  lemma SlotsInValid(root: Tree, u: Addr, stop: set<string>, resolved: seq<Slot>)
    requires SlotsIn(root, u, stop, resolved)
    ensures ValidSlots(root, resolved) && u <= CommonOf(resolved)
  {
    forall i | 0 <= i < |resolved| ensures ValidSlot(root, resolved[i]) && u <= Owner(resolved[i]) {
      RegionOwner(root, u, stop, resolved[i]);
    }
    CommonIsGreatest(resolved, u);
  }

  // ---- frame

  lemma {:induction false} SetAllOutside(all: seq<Slot>, c: Content, slots: seq<Slot>, texts: seq<string>)
    requires |slots| == |texts| && forall s :: s in slots ==> s in all
    ensures SameOutside(all, c, SetAll(c, slots, texts))
  {
    SetAllGet(c, slots, texts);
  }

  lemma PlaceInitialOutside(all: seq<Slot>, e: Content, inside: seq<Slot>, carrier: Addr, p: Pieces)
    requires carrier != [] && inside != [] && Before(carrier) in all && Tail(carrier) in all
    requires forall s :: s in inside ==> s in all
    ensures SameOutside(all, e, PlaceInitial(e, inside, carrier, p))
  {
    SetAllOutside(all, e, inside, Blanks(|inside|));
  }

  lemma SlotsAtIn(resolved: seq<Slot>, indices: seq<nat>)
    requires forall k :: 0 <= k < |indices| ==> indices[k] < |resolved|
    ensures forall s :: s in SlotsAt(resolved, indices) ==> s in resolved
  {
  }

  lemma CarrierEdges(root: Tree, u: Addr, stop: set<string>, resolved: seq<Slot>, scope: Scope)
    requires SlotsIn(root, u, stop, resolved) && Splits(resolved, Some(scope))
    ensures Before(scope.carrier) in Region(root, u, stop) && Tail(scope.carrier) in Region(root, u, stop)
    ensures CommonOf(resolved) <= scope.carrier && CommonOf(resolved) != scope.carrier
    ensures u <= scope.carrier && u != scope.carrier
    ensures var top := ChildOf(CommonOf(resolved), scope.carrier);
            Before(top) in Region(root, u, stop) && Tail(top) in Region(root, u, stop)
  {
    var carrier := scope.carrier;
    SlotsInValid(root, u, stop, resolved);
    CarrierBelowCommon(resolved, carrier);
    var common, k := CommonOf(resolved), scope.indices[0];
    assert k in scope.indices;
    var w, top := resolved[k], ChildOf(common, carrier);
    assert w in resolved;
    PrefixTrans(u, common, carrier);
    PrefixTrans(u, common, top);
    PrefixTrans(top, carrier, Owner(w));
    BeforeInside(root, u, stop, carrier, w);
    BeforeInside(root, u, stop, top, w);
  }

  lemma PlainEdges(root: Tree, u: Addr, stop: set<string>, resolved: seq<Slot>)
    requires SlotsIn(root, u, stop, resolved) && Owner(resolved[0]) != CommonOf(resolved)
    ensures CommonOf(resolved) <= Owner(resolved[0])
    ensures Before(ChildOf(CommonOf(resolved), Owner(resolved[0]))) in Region(root, u, stop)
  {
    SlotsInValid(root, u, stop, resolved);
    CommonIsGreatest(resolved, []);
    var common, owner := CommonOf(resolved), Owner(resolved[0]);
    PrefixTrans(u, common, ChildOf(common, owner));
    assert resolved[0] in resolved;
    BeforeInside(root, u, stop, ChildOf(common, owner), resolved[0]);
  }

  lemma MatchedOutside(ch: Chars, root: Tree, u: Addr, stop: set<string>, c: Content, resolved: seq<Slot>,
                       lines: seq<string>, scope: Option<Scope>)
    requires SlotsIn(root, u, stop, resolved) && |lines| == |resolved| && Splits(resolved, scope)
    ensures SameOutside(Region(root, u, stop), c, Matched(ch, c, resolved, lines, scope))
  {
    var all := Region(root, u, stop);
    if scope.None? {
      SetAllOutside(all, c, resolved, lines);
    } else {
      CarrierEdges(root, u, stop, resolved, scope.value);
      var Scope(carrier, indices) := scope.value;
      SlotsAtIn(resolved, indices);
      FilledOutside(ch, all, c, resolved, lines, indices);
      PlaceInitialOutside(all, Filled(ch, c, resolved, lines, indices), SlotsAt(resolved, indices), carrier,
                          SplitInitial(ch, InitialSource(ch, lines, indices)));
    }
  }

  lemma FilledOutside(ch: Chars, all: seq<Slot>, c: Content, resolved: seq<Slot>, lines: seq<string>, indices: seq<nat>)
    requires |lines| == |resolved| && indices != [] && forall k :: 0 <= k < |indices| ==> indices[k] < |lines|
    requires forall s :: s in resolved ==> s in all
    ensures SameOutside(all, c, Filled(ch, c, resolved, lines, indices))
  {
    SetAllOutside(all, c, resolved, lines);
    var donor := Donor(ch, lines, indices);
    assert donor < |lines| ==> resolved[donor] in all;
  }

  lemma UnmatchedOutside(ch: Chars, root: Tree, u: Addr, stop: set<string>, c: Content, resolved: seq<Slot>,
                         translation: string, scope: Option<Scope>)
    requires SlotsIn(root, u, stop, resolved) && Splits(resolved, scope)
    ensures SameOutside(Region(root, u, stop), c, Unmatched(ch, c, resolved, translation, scope))
  {
    var all := Region(root, u, stop);
    SetAllOutside(all, c, resolved, Blanks(|resolved|));
    if scope.Some? {
      CarrierEdges(root, u, stop, resolved, scope.value);
      SlotsAtIn(resolved, scope.value.indices);
      PlaceInitialOutside(all, SetAll(c, resolved, Blanks(|resolved|)), SlotsAt(resolved, scope.value.indices),
                          ChildOf(CommonOf(resolved), scope.value.carrier), SplitInitial(ch, translation));
    } else {
      assert resolved[0] in resolved;
      if Owner(resolved[0]) != CommonOf(resolved) { PlainEdges(root, u, stop, resolved); }
    }
  }

  /** Replacing a unit's text changes no position outside the unit, and in particular none that the
      extraction skips. */
  lemma ReplacedOutside(ch: Chars, root: Tree, u: Addr, stop: set<string>, c: Content, resolved: seq<Slot>,
                        current: seq<string>, lines: seq<string>, translation: string)
    requires SlotsIn(root, u, stop, resolved) && |current| == |resolved|
    ensures ValidSlots(root, resolved)
    ensures SameOutside(Region(root, u, stop), c, Replaced(ch, root, c, resolved, current, lines, translation))
  {
    SlotsInValid(root, u, stop, resolved);
    var scope := InitialScope(ch, root, c, resolved, current);
    if |lines| == |resolved| {
      MatchedOutside(ch, root, u, stop, c, resolved, lines, scope);
    } else {
      UnmatchedOutside(ch, root, u, stop, c, resolved, translation, scope);
    }
  }

  // ---- what the replacement reads

  lemma {:induction false} SetAllAgree(all: seq<Slot>, c: Content, d: Content, slots: seq<Slot>, texts: seq<string>)
    requires |slots| == |texts| && AgreeOn(all, c, d)
    ensures AgreeOn(all, SetAll(c, slots, texts), SetAll(d, slots, texts))
    decreases |slots|
  {
    if slots != [] { SetAllAgree(all, c[slots[0] := texts[0]], d[slots[0] := texts[0]], slots[1..], texts[1..]); }
  }

  lemma PlaceInitialAgree(all: seq<Slot>, e: Content, f: Content, inside: seq<Slot>, carrier: Addr, p: Pieces)
    requires carrier != [] && inside != [] && Before(carrier) in all && Tail(carrier) in all && AgreeOn(all, e, f)
    ensures AgreeOn(all, PlaceInitial(e, inside, carrier, p), PlaceInitial(f, inside, carrier, p))
  {
    var blanks := Blanks(|inside|);
    SetAllAgree(all, e, f, inside, blanks);
    var e1, f1 := SetAll(e, inside, blanks)[inside[0] := p.initial], SetAll(f, inside, blanks)[inside[0] := p.initial];
    assert AgreeOn(all, e1, f1);
    AppendAgree(all, e1, f1, Before(carrier), p.leading);
  }

  lemma AppendAgree(all: seq<Slot>, e: Content, f: Content, s: Slot, text: string)
    requires s in all && AgreeOn(all, e, f)
    ensures AgreeOn(all, AppendText(e, s, text), AppendText(f, s, text))
  {
  }

  lemma {:induction false} ReachedAbove(t: Tree, a: Addr, b: Addr, tail: bool)
    requires ValidAddr(t, a) && Reached(At(t, a), b, tail, {})
    ensures Reached(t, a + b, tail, {})
  {
    if a == [] {
      assert a + b == b;
    } else {
      assert (a + b)[1..] == a[1..] + b;
      ReachedAbove(t.kids[a[0]], a[1..], b, tail);
    }
  }

  lemma SubregionIn(root: Tree, u: Addr, b: Addr, s: Slot)
    requires ValidAddr(root, u) && ValidAddr(root, b) && u <= b && s in Region(root, b, {})
    ensures s in Region(root, u, {})
  {
    WalkMembers(At(root, b), b, {}, s);
    Slices(u, b, s.at);
    AtAppend(root, u, b[|u|..]);
    ReachedAbove(At(root, u), b[|u|..], s.at[|b|..], s.Tail?);
    WalkMembers(At(root, u), u, {}, s);
  }

  lemma KidInRegion(root: Tree, a: Addr, i: nat)
    requires ValidAddr(root, a) && At(root, a).Element? && i < |At(root, a).kids|
    ensures ValidAddr(root, a + [i]) && At(root, a + [i]) == At(root, a).kids[i]
    ensures Text(a) in Region(root, a, {}) && Tail(a + [i]) in Region(root, a, {})
  {
    AtAppend(root, a, [i]);
    WalkMembers(At(root, a), a, {}, Text(a));
    WalkMembers(At(root, a), a, {}, Tail(a + [i]));
  }

  lemma TextBeforeAgree(ch: Chars, root: Tree, u: Addr, c: Content, d: Content, carrier: Addr)
    requires ValidAddr(root, u) && u <= carrier && u != carrier && ValidAddr(root, carrier)
    requires AgreeOn(Region(root, u, {}), c, d)
    ensures ValidAddr(root, Parent(carrier))
    ensures TextBefore(ch, root, c, carrier) == TextBefore(ch, root, d, carrier)
  {
    var parent := Parent(carrier);
    ValidParent(root, carrier);
    var kids := At(root, parent).kids;
    KidInRegion(root, parent, carrier[|carrier| - 1]);
    SubregionIn(root, u, parent, Text(parent));
    assert u <= parent;
    forall i | 0 <= i < |kids|
      ensures KidHasText(ch, kids[i], parent + [i], c) == KidHasText(ch, kids[i], parent + [i], d)
    {
      KidTextAgree(root, u, c, d, parent, i);
    }
  }

  lemma KidTextAgree(root: Tree, u: Addr, c: Content, d: Content, parent: Addr, i: nat)
    requires ValidAddr(root, u) && u <= parent && ValidAddr(root, parent) && At(root, parent).Element?
    requires i < |At(root, parent).kids| && AgreeOn(Region(root, u, {}), c, d)
    ensures var kid := Walk(At(root, parent).kids[i], parent + [i], {});
            TextOf(kid, c) == TextOf(kid, d) && Get(c, Tail(parent + [i])) == Get(d, Tail(parent + [i]))
  {
    KidInRegion(root, parent, i);
    SubregionIn(root, u, parent, Tail(parent + [i]));
    forall s | s in Region(root, parent + [i], {}) ensures Get(c, s) == Get(d, s) {
      SubregionIn(root, u, parent + [i], s);
    }
    TextOfFrame(Region(root, parent + [i], {}), c, d);
  }

  lemma InitialScopeAgree(ch: Chars, root: Tree, u: Addr, stop: set<string>, c: Content, d: Content,
                          resolved: seq<Slot>, current: seq<string>)
    requires SlotsIn(root, u, stop, resolved) && |current| == |resolved| && ValidSlots(root, resolved)
    requires AgreeOn(Region(root, u, {}), c, d)
    ensures InitialScope(ch, root, c, resolved, current) == InitialScope(ch, root, d, resolved, current)
  {
    AtStartAgree(ch, root, u, stop, c, d, resolved, ScopeCandidate(ch, root, resolved, current));
  }

  lemma AtStartAgree(ch: Chars, root: Tree, u: Addr, stop: set<string>, c: Content, d: Content,
                     resolved: seq<Slot>, scope: Option<Scope>)
    requires SlotsIn(root, u, stop, resolved) && Splits(resolved, scope)
    requires scope.Some? ==> ValidAddr(root, scope.value.carrier) && ValidAddr(root, Parent(scope.value.carrier))
    requires AgreeOn(Region(root, u, {}), c, d)
    ensures AtStart(ch, root, c, scope) == AtStart(ch, root, d, scope)
  {
    if scope.Some? {
      CarrierEdges(root, u, stop, resolved, scope.value);
      TextBeforeAgree(ch, root, u, c, d, scope.value.carrier);
    }
  }

  lemma StoppedIsInside(root: Tree, u: Addr, stop: set<string>, s: Slot)
    requires ValidAddr(root, u) && s in Region(root, u, stop)
    ensures s in Region(root, u, {})
  {
    WalkMembers(At(root, u), u, stop, s);
    ReachedFreely(At(root, u), s.at[|u|..], s.Tail?, stop);
    WalkMembers(At(root, u), u, {}, s);
  }

  lemma {:induction false} ReachedFreely(t: Tree, p: Addr, tail: bool, stop: set<string>)
    requires Reached(t, p, tail, stop)
    ensures Reached(t, p, tail, {})
  {
    if p != [] && !(|p| == 1 && tail) { ReachedFreely(t.kids[p[0]], p[1..], tail, stop); }
  }

  lemma MatchedAgree(ch: Chars, all: seq<Slot>, c: Content, d: Content, resolved: seq<Slot>, lines: seq<string>,
                     scope: Option<Scope>)
    requires AgreeOn(all, c, d) && |lines| == |resolved| && Splits(resolved, scope)
    requires scope.Some? ==> Before(scope.value.carrier) in all && Tail(scope.value.carrier) in all
    ensures AgreeOn(all, Matched(ch, c, resolved, lines, scope), Matched(ch, d, resolved, lines, scope))
  {
    if scope.None? {
      SetAllAgree(all, c, d, resolved, lines);
    } else {
      var Scope(carrier, indices) := scope.value;
      FilledAgree(ch, all, c, d, resolved, lines, indices);
      PlaceInitialAgree(all, Filled(ch, c, resolved, lines, indices), Filled(ch, d, resolved, lines, indices),
                        SlotsAt(resolved, indices), carrier, SplitInitial(ch, InitialSource(ch, lines, indices)));
    }
  }

  lemma FilledAgree(ch: Chars, all: seq<Slot>, c: Content, d: Content, resolved: seq<Slot>, lines: seq<string>,
                    indices: seq<nat>)
    requires AgreeOn(all, c, d) && |lines| == |resolved| && indices != []
    requires forall k :: 0 <= k < |indices| ==> indices[k] < |lines|
    ensures AgreeOn(all, Filled(ch, c, resolved, lines, indices), Filled(ch, d, resolved, lines, indices))
  {
    SetAllAgree(all, c, d, resolved, lines);
  }

  lemma UnmatchedAgree(ch: Chars, root: Tree, u: Addr, stop: set<string>, c: Content, d: Content, resolved: seq<Slot>,
                       translation: string, scope: Option<Scope>)
    requires SlotsIn(root, u, stop, resolved) && Splits(resolved, scope) && AgreeOn(Region(root, u, {}), c, d)
    ensures AgreeOn(Region(root, u, {}), Unmatched(ch, c, resolved, translation, scope),
                    Unmatched(ch, d, resolved, translation, scope))
  {
    var all, blanks := Region(root, u, {}), Blanks(|resolved|);
    SetAllAgree(all, c, d, resolved, blanks);
    var e, f := SetAll(c, resolved, blanks), SetAll(d, resolved, blanks);
    if scope.Some? {
      UnmatchedScopeAgree(root, u, stop, e, f, resolved, scope.value, SplitInitial(ch, translation));
    } else {
      UnmatchedPlainAgree(root, u, stop, e, f, resolved, translation);
    }
  }

  lemma UnmatchedPlainAgree(root: Tree, u: Addr, stop: set<string>, e: Content, f: Content, resolved: seq<Slot>,
                            translation: string)
    requires SlotsIn(root, u, stop, resolved) && resolved != [] && AgreeOn(Region(root, u, {}), e, f)
    ensures CommonOf(resolved) <= Owner(resolved[0])
    ensures var common, owner := CommonOf(resolved), Owner(resolved[0]);
            if owner == common then AgreeOn(Region(root, u, {}), e[resolved[0] := translation], f[resolved[0] := translation])
            else AgreeOn(Region(root, u, {}), AppendText(e, Before(ChildOf(common, owner)), translation),
                         AppendText(f, Before(ChildOf(common, owner)), translation))
  {
    CommonIsGreatest(resolved, []);
    if Owner(resolved[0]) != CommonOf(resolved) {
      PlainEdges(root, u, stop, resolved);
      StoppedIsInside(root, u, stop, Before(ChildOf(CommonOf(resolved), Owner(resolved[0]))));
    }
  }

  lemma UnmatchedScopeAgree(root: Tree, u: Addr, stop: set<string>, e: Content, f: Content, resolved: seq<Slot>,
                            scope: Scope, p: Pieces)
    requires SlotsIn(root, u, stop, resolved) && Splits(resolved, Some(scope)) && AgreeOn(Region(root, u, {}), e, f)
    ensures CommonOf(resolved) <= scope.carrier && CommonOf(resolved) != scope.carrier
    ensures var inside, top := SlotsAt(resolved, scope.indices), ChildOf(CommonOf(resolved), scope.carrier);
            AgreeOn(Region(root, u, {}), PlaceInitial(e, inside, top, p), PlaceInitial(f, inside, top, p))
  {
    CarrierEdges(root, u, stop, resolved, scope);
    var top := ChildOf(CommonOf(resolved), scope.carrier);
    StoppedIsInside(root, u, stop, Before(top));
    StoppedIsInside(root, u, stop, Tail(top));
    PlaceInitialAgree(Region(root, u, {}), e, f, SlotsAt(resolved, scope.indices), top, p);
  }

  /** Documents that agree on a unit still agree on it after the same replacement: the write-back reads
      nothing outside the unit, not even to decide where the initial is. */
  lemma ReplacedAgree(ch: Chars, root: Tree, u: Addr, stop: set<string>, c: Content, d: Content, resolved: seq<Slot>,
                      current: seq<string>, lines: seq<string>, translation: string)
    requires SlotsIn(root, u, stop, resolved) && |current| == |resolved|
    requires AgreeOn(Region(root, u, {}), c, d)
    ensures ValidSlots(root, resolved)
    ensures AgreeOn(Region(root, u, {}), Replaced(ch, root, c, resolved, current, lines, translation),
                    Replaced(ch, root, d, resolved, current, lines, translation))
  {
    SlotsInValid(root, u, stop, resolved);
    InitialScopeAgree(ch, root, u, stop, c, d, resolved, current);
    var all, scope := Region(root, u, {}), InitialScope(ch, root, c, resolved, current);
    if |lines| == |resolved| {
      if scope.Some? {
        CarrierEdges(root, u, stop, resolved, scope.value);
        StoppedIsInside(root, u, stop, Before(scope.value.carrier));
        StoppedIsInside(root, u, stop, Tail(scope.value.carrier));
      }
      MatchedAgree(ch, all, c, d, resolved, lines, scope);
    } else {
      UnmatchedAgree(ch, root, u, stop, c, d, resolved, translation, scope);
    }
  }
}
