/** What a translated unit reads once the annotations in its ruby elements have been removed
    (transoria/formats/epub_writer.py): the write-back loop and the removal behind it, together. */
module EpubRubyUnits {
  import opened ElementPaths
  import opened EpubParser
  import opened EpubRoundTrip
  import opened EpubRuby
  import opened TextRules
  import opened XmlTree

  predicate Cleared(t: Tree, at: Addr, rubies: set<Addr>) {
    t.Element? && t.name == "ruby" && at in rubies
  }

  /** The subtree once the annotations in the elements `rubies` have been removed. */
  function Strip(t: Tree, at: Addr, c: Content, rubies: set<Addr>): Node
    decreases t, 1, 0
  {
    if !t.Element? then Comment
    else if Cleared(t, at, rubies) then Clean(Build(t, at, c))
    else Node(t.name, Get(c, Text(at)), StripKids(t, at, 0, c, rubies))
  }

  function StripKids(t: Tree, at: Addr, i: nat, c: Content, rubies: set<Addr>): seq<Kid>
    requires t.Element? && i <= |t.kids|
    decreases t, 0, |t.kids| - i
  {
    if i == |t.kids| then []
    else [Kid(Strip(t.kids[i], at + [i], c, rubies), Get(c, Tail(at + [i])))] + StripKids(t, at, i + 1, c, rubies)
  }

  /** How much is then still read where extraction stops: code and the like, and annotations in rubies that
      were not cleared. */
  function LeftOver(t: Tree, at: Addr, c: Content, rubies: set<Addr>, stop: set<string>): nat
    decreases t, 1, 0
  {
    if !t.Element? then 0
    else if Cleared(t, at, rubies) then PassedOver(t, at, c, stop)
    else if t.name in stop then |ReadNode(Strip(t, at, c, rubies))|
    else LeftOverKids(t, at, 0, c, rubies, stop)
  }

  function LeftOverKids(t: Tree, at: Addr, i: nat, c: Content, rubies: set<Addr>, stop: set<string>): nat
    requires t.Element? && i <= |t.kids|
    decreases t, 0, |t.kids| - i
  {
    if i == |t.kids| then 0
    else LeftOver(t.kids[i], at + [i], c, rubies, stop) + LeftOverKids(t, at, i + 1, c, rubies, stop)
  }

  lemma {:induction false} StripReads(t: Tree, at: Addr, c: Content, rubies: set<Addr>, stop: set<string>)
    requires ANNOTATIONS <= stop
    ensures LongerBy(ReadNode(Strip(t, at, c, rubies)), TextOf(Walk(t, at, stop), c), LeftOver(t, at, c, rubies, stop))
    decreases t, 1, 0
  {
    if Cleared(t, at, rubies) {
      RubyKeepsOutside(t, at, c);
      OutsideIsLonger(t, at, c, stop);
    } else if t.Element? && t.name !in stop {
      StripKidsRead(t, at, 0, c, rubies, stop);
      WalkText(t, at, c, stop);
    }
  }

  lemma {:induction false} StripKidsRead(t: Tree, at: Addr, i: nat, c: Content, rubies: set<Addr>, stop: set<string>)
    requires t.Element? && i <= |t.kids| && ANNOTATIONS <= stop
    ensures LongerBy(ReadKids(StripKids(t, at, i, c, rubies)), TextOf(WalkKids(t, at, i, stop), c),
                     LeftOverKids(t, at, i, c, rubies, stop))
    decreases t, 0, |t.kids| - i
  {
    if i < |t.kids| {
      var kid, tail := t.kids[i], Get(c, Tail(at + [i]));
      StripReads(kid, at + [i], c, rubies, stop);
      StripKidsRead(t, at, i + 1, c, rubies, stop);
      WalkKidsText(t, at, i, c, stop);
      var a, b, n := ReadNode(Strip(kid, at + [i], c, rubies)), TextOf(Walk(kid, at + [i], stop), c),
                     LeftOver(kid, at + [i], c, rubies, stop);
      LongerConcat(a, b, n, tail, tail, 0);
      LongerConcat(a + tail, b + tail, n, ReadKids(StripKids(t, at, i + 1, c, rubies)),
                   TextOf(WalkKids(t, at, i + 1, stop), c), LeftOverKids(t, at, i + 1, c, rubies, stop));
      StripKidsFirst(t, at, i, c, rubies);
    }
  }

  lemma StripKidsFirst(t: Tree, at: Addr, i: nat, c: Content, rubies: set<Addr>)
    requires t.Element? && i < |t.kids|
    ensures ReadKids(StripKids(t, at, i, c, rubies))
         == ReadNode(Strip(t.kids[i], at + [i], c, rubies)) + Get(c, Tail(at + [i])) + ReadKids(StripKids(t, at, i + 1, c, rubies))
  {
    assert StripKids(t, at, i, c, rubies)[1..] == StripKids(t, at, i + 1, c, rubies);
  }

  /** The ruby elements around the positions of a unit that hold text. */
  ghost function RubiesOf(root: Tree, slots: seq<Slot>): set<Addr> {
    set s, n | s in slots && 0 <= n <= |s.at| && ValidAddr(root, s.at[..n]) && At(root, s.at[..n]).Element?
               && At(root, s.at[..n]).name == "ruby" :: s.at[..n]
  }

  // ---- extraction stops at annotations in every unit

  ghost predicate StopsAtAnnotations(area: Area) {
    area.Subtree? ==> ANNOTATIONS <= area.stop
  }

  ghost predicate AllStop(areas: seq<Area>) {
    forall k :: 0 <= k < |areas| ==> StopsAtAnnotations(areas[k])
  }

  lemma StopConcat(a: seq<Area>, b: seq<Area>)
    requires AllStop(a) && AllStop(b)
    ensures AllStop(a + b)
  {
  }

  lemma {:induction false} AreasStop(t: Tree, at: Addr)
    ensures AllStop(Areas(t, at))
    decreases t, 1
  {
    if t.Element? && t.name !in SKIP_SUBTREE_TAGS && !(IsBlock(t) && !HasBlockDescendant(t)) {
      KidAreasStop(t, at, 0);
      StopConcat(DirectText(t, at), KidAreas(t, at, 0));
    }
  }

  lemma {:induction false} KidAreasStop(t: Tree, at: Addr, i: nat)
    requires t.Element? && i <= |t.kids|
    ensures AllStop(KidAreas(t, at, i))
    decreases t, 0, |t.kids| - i
  {
    if i < |t.kids| {
      if !IsInlineKid(t, i) { AreasStop(t.kids[i], at + [i]); }
      KidAreasStop(t, at, i + 1);
      KidAreasParts(t, at, i);
      StopConcat(KidArea(t, at, i), TailArea(t, at, i));
      StopConcat(KidArea(t, at, i) + TailArea(t, at, i), KidAreas(t, at, i + 1));
    }
  }

  lemma LiveStops(ch: Chars, root: Tree, origin: Content, k: nat)
    requires k < |DocumentAreas(ch, root, origin)|
    ensures StopsAtAnnotations(DocumentAreas(ch, root, origin)[k])
  {
    AreasStop(root, []);
    var n := LiveFrom(ch, root, origin, Areas(root, []), k);
  }

  /** Extract, translate, write back in any order, then clear the rubies around the unit's text: the unit's element
      reads exactly its translation if and only if nothing is left to read in it where extraction stopped. */
  lemma RubyUnitReads(ch: Chars, root: Tree, origin: Content, picks: seq<nat>, translations: seq<string>, k: nat)
    requires root.Element? && PlainNames(root) && DocumentPicks(ch, root, origin, picks, translations) && k < |picks|
    requires DocumentAreas(ch, root, origin)[picks[k]].Subtree?
    ensures var area, d := DocumentAreas(ch, root, origin)[picks[k]], Written(ch, root, origin, picks, translations);
            var rubies := RubiesOf(root, AreaSlots(origin, area));
            var read := ReadNode(Strip(area.tree, area.at, d, rubies));
            && UnitReads(ch, root, origin, area, translations[picks[k]], d)
            && (read == TextOf(area.Slots(), d) <==> LeftOver(area.tree, area.at, d, rubies, area.stop) == 0)
  {
    var area, d := DocumentAreas(ch, root, origin)[picks[k]], Written(ch, root, origin, picks, translations);
    WriteBack(ch, root, origin, picks, translations);
    LiveStops(ch, root, origin, picks[k]);
    StripReads(area.tree, area.at, d, RubiesOf(root, AreaSlots(origin, area)), area.stop);
  }
}
