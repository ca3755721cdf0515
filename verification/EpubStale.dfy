/** Writing back into a document that has changed since it was extracted (transoria/formats/epub_writer.py): a segment
    whose texts are no longer the extracted ones is passed over. */
module EpubStale {
  import opened Slashes
  import opened TextRules
  import opened XmlTree
  import opened ElementPaths
  import opened EpubParser
  import opened EpubConservation
  import opened EpubEdits
  import opened EpubLocality
  import opened EpubSegments
  import opened EpubWriter
  import opened EpubRoundTrip

  /** At each of the unit's slots the text is, when normalized, still the one extracted. */
  ghost predicate Fresh(ch: Chars, origin: Content, area: Area, c: Content) {
    forall s :: s in AreaSlots(origin, area) ==> NormalizeSlotText(ch, Get(c, s)) == NormalizeSlotText(ch, Get(origin, s))
  }

  /** No text has come up where the unit had none. */
  ghost predicate NothingNew(origin: Content, area: Area, c: Content) {
    forall s :: s in area.Slots() && s !in AreaSlots(origin, area) ==> Get(c, s) == ""
  }

  /** What the unit reads in `d`, written back into a document that held `c`. */
  ghost predicate ReadsNow(ch: Chars, root: Tree, origin: Content, c: Content, area: Area, segment: Segment,
                           translation: string, d: Content)
    requires AreaOk(root, area) && AreaSlots(origin, area) != [] && ValidSlots(root, AreaSlots(origin, area))
  {
    var slots, lines := AreaSlots(origin, area), Split(translation, '\n');
    if translation == segment.text then AgreeOn(area.Footprint(), c, d)
    else if area.Single? then Get(d, area.slot) == translation
    else
      var scope := InitialScope(ch, root, c, slots, Normalized(ch, Texts(c, slots)));
      var text := TextOf(area.Slots(), d);
      if |lines| != |slots| then text == translation
      else if Borrows(ch, lines, slots, scope) then NonSpace(ch, text) == NonSpace(ch, Concat(lines))
      else text == Concat(lines)
  }

  lemma FreshDigest(ch: Chars, origin: Content, area: Area, c: Content)
    ensures Fresh(ch, origin, area, c) <==>
              Normalized(ch, Texts(c, AreaSlots(origin, area))) == Normalized(ch, Texts(origin, AreaSlots(origin, area)))
  {
    var slots := AreaSlots(origin, area);
    var now, then_ := Normalized(ch, Texts(c, slots)), Normalized(ch, Texts(origin, slots));
    if now == then_ {
      forall s | s in slots ensures NormalizeSlotText(ch, Get(c, s)) == NormalizeSlotText(ch, Get(origin, s)) {
        var i :| 0 <= i < |slots| && slots[i] == s;
        assert now[i] == then_[i];
      }
    }
  }

  /** A stale segment changes nothing, at any position. */
  lemma StaleKeepsAll(ch: Chars, root: Tree, origin: Content, area: Area, segment: Segment, translation: string, c: Content)
    requires root.Element? && Located(ch, root, origin, area, segment) && Storable(root, segment)
    requires !Fresh(ch, origin, area, c)
    ensures ApplySegment(ch, root, c, segment, translation) == c
  {
    FreshDigest(ch, origin, area, c);
  }

  lemma StillUnit(root: Tree, origin: Content, area: Area, c: Content)
    requires AreaOk(root, area) && area.Subtree? && AreaSlots(origin, area) != [] && NothingNew(origin, area, c)
    ensures IsUnit(root, area.at, area.stop, c, AreaSlots(origin, area))
  {
    AreaSlotsFit(root, origin, area);
  }

  /** A fresh segment is written. */
  lemma FreshReads(ch: Chars, root: Tree, origin: Content, area: Area, segment: Segment, translation: string, c: Content)
    requires root.Element? && Located(ch, root, origin, area, segment) && Storable(root, segment)
    requires Fresh(ch, origin, area, c) && NothingNew(origin, area, c)
    ensures ReadsNow(ch, root, origin, c, area, segment, translation, ApplySegment(ch, root, c, segment, translation))
  {
    var slots, lines := AreaSlots(origin, area), Split(translation, '\n');
    FreshDigest(ch, origin, area, c);
    if translation != segment.text {
      AreaSlotsFit(root, origin, area);
      if area.Single? {
        SingleReplaced(ch, root, c, area.slot, segment.digest, translation);
      } else {
        StillUnit(root, origin, area, c);
        TextConserved(ch, root, area.at, area.stop, c, slots, segment.digest, lines, translation);
      }
    }
  }

  lemma NowAgrees(ch: Chars, root: Tree, origin: Content, c: Content, area: Area, segment: Segment, translation: string,
                  d: Content, e: Content)
    requires AreaOk(root, area) && AreaSlots(origin, area) != [] && ValidSlots(root, AreaSlots(origin, area))
    requires ReadsNow(ch, root, origin, c, area, segment, translation, d) && AgreeOn(area.Footprint(), d, e)
    ensures ReadsNow(ch, root, origin, c, area, segment, translation, e)
  {
    if area.Subtree? {
      forall s | s in area.Slots() ensures Get(d, s) == Get(e, s) { StoppedIsInside(root, area.at, area.stop, s); }
      TextOfFrame(area.Slots(), d, e);
    }
  }

  /** What becomes of one unit. */
  ghost predicate WrittenOrKept(ch: Chars, root: Tree, origin: Content, c: Content, area: Area, translation: string, d: Content) {
    && AreaOk(root, area) && Live(ch, root, origin, area)
    && AreaSlots(origin, area) != [] && ValidSlots(root, AreaSlots(origin, area))
    && (!Fresh(ch, origin, area, c) ==> AgreeOn(area.Footprint(), c, d))
    && (Fresh(ch, origin, area, c) && NothingNew(origin, area, c) ==>
          ReadsNow(ch, root, origin, c, area, SegmentAt(ch, root, origin, area), translation, d))
  }

  lemma UnitWrittenOrKept(ch: Chars, root: Tree, origin: Content, c: Content, live: seq<Area>, translations: seq<string>,
                          i: nat, d: Content)
    requires i < |live| == |translations| && Fit(ch, root, origin, live) && root.Element? && PlainNames(root)
    requires AgreeOn(live[i].Footprint(), LiveEdits(ch, root, origin, live, translations)[i](c), d)
    ensures WrittenOrKept(ch, root, origin, c, live[i], translations[i], d)
  {
    var job := JobAt(ch, root, origin, live, translations, i);
    EditAlone(ch, root, origin, live, translations, i);
    JobLocated(ch, root, origin, live, translations, i);
    EditApplies(ch, root, job, c);
    var e := ApplySegment(ch, root, c, job.segment, job.translation);
    if !Fresh(ch, origin, live[i], c) {
      StaleKeepsAll(ch, root, origin, live[i], job.segment, job.translation, c);
    } else if NothingNew(origin, live[i], c) {
      FreshReads(ch, root, origin, live[i], job.segment, job.translation, c);
      NowAgrees(ch, root, origin, c, live[i], job.segment, job.translation, e, d);
    }
  }

  /** The content once the picked segments, extracted from `origin` and translated, were written back into a document
      that held `c`. */
  ghost function WrittenLater(ch: Chars, root: Tree, origin: Content, c: Content, picks: seq<nat>,
                              translations: seq<string>): Content
    requires root.Element? && PlainNames(root) && DocumentPicks(ch, root, origin, picks, translations)
  {
    DocumentAreasFit(ch, root, origin);
    WrittenFrom(ch, root, origin, c, DocumentAreas(ch, root, origin), picks, translations)
  }

  lemma PickWrittenOrKept(ch: Chars, root: Tree, origin: Content, c: Content, picks: seq<nat>, translations: seq<string>,
                          k: nat)
    requires root.Element? && PlainNames(root) && DocumentPicks(ch, root, origin, picks, translations) && k < |picks|
    ensures WrittenOrKept(ch, root, origin, c, DocumentAreas(ch, root, origin)[picks[k]], translations[picks[k]],
                          WrittenLater(ch, root, origin, c, picks, translations))
  {
    var live, d := DocumentAreas(ch, root, origin), WrittenLater(ch, root, origin, c, picks, translations);
    DocumentAreasFit(ch, root, origin);
    WrittenInside(ch, root, origin, c, live, picks, translations, k);
    UnitWrittenOrKept(ch, root, origin, c, live, translations, picks[k], d);
  }

  /** Segments extracted from `origin` are written back, in any order, into a document that by now holds `c`, any
      content. A unit of which some slot's text has changed, white space apart, is left as it is; one whose texts are
      the extracted ones, with nothing new beside them, reads its translation; and no other text changes. */
  lemma WriteBackLater(ch: Chars, root: Tree, origin: Content, c: Content, picks: seq<nat>, translations: seq<string>)
    requires root.Element? && PlainNames(root) && DocumentPicks(ch, root, origin, picks, translations)
    ensures var live, d := DocumentAreas(ch, root, origin), WrittenLater(ch, root, origin, c, picks, translations);
            && (forall k :: 0 <= k < |picks| ==>
                  WrittenOrKept(ch, root, origin, c, live[picks[k]], translations[picks[k]], d))
            && (forall s :: Outside(Picked(Owns(live), picks), s) ==> Get(d, s) == Get(c, s))
  {
    var live, d := DocumentAreas(ch, root, origin), WrittenLater(ch, root, origin, c, picks, translations);
    forall k | 0 <= k < |picks| ensures WrittenOrKept(ch, root, origin, c, live[picks[k]], translations[picks[k]], d) {
      PickWrittenOrKept(ch, root, origin, c, picks, translations, k);
    }
    DocumentAreasFit(ch, root, origin);
    forall s | Outside(Picked(Owns(live), picks), s) ensures Get(d, s) == Get(c, s) {
      WrittenOutside(ch, root, origin, c, live, picks, translations, s);
    }
  }
}
