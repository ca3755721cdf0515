/** Segments between the two passes: the parser stores each unit as paths and normalized texts, the writer
    resolves the paths in the re-read document, checks the texts and replaces them. */
module EpubSegments {
  import opened Slashes
  import opened TextRules
  import opened XmlTree
  import opened ElementPaths
  import opened EpubUnits
  import opened EpubWriter

  // ---- normalized slot texts

  predicate IsBreak(x: char) {
    x == '\r' || x == '\n' || x == '\t'
  }

  /** Each run of line breaks and tabs becomes one space; `after` tells whether the previous one was in a run. */
  function CollapseBreaks(s: string, after: bool := false): string {
    if s == "" then ""
    else if IsBreak(s[0]) then (if after then "" else " ") + CollapseBreaks(s[1..], true)
    else [s[0]] + CollapseBreaks(s[1..], false)
  }

  /** Each run of spaces becomes one space. */
  function CollapseSpaces(s: string, after: bool := false): string {
    if s == "" then ""
    else if s[0] == ' ' then (if after then "" else " ") + CollapseSpaces(s[1..], true)
    else [s[0]] + CollapseSpaces(s[1..], false)
  }

  predicate NeedsCollapsing(s: string) {
    (exists i | 0 <= i < |s| :: IsBreak(s[i])) || exists i | 0 <= i < |s| - 1 :: s[i] == s[i + 1] == ' '
  }

  /** `normalize_slot_text`, with its shortcut. */
  function NormalizeSlotText(ch: Chars, s: string): string {
    if !NeedsCollapsing(s) then Strip(ch, s) else Strip(ch, CollapseSpaces(CollapseBreaks(s)))
  }

  lemma {:induction false} NothingToCollapse(s: string, after: bool)
    requires !NeedsCollapsing(s) && (after && s != "" ==> s[0] != ' ')
    ensures CollapseBreaks(s, false) == s && CollapseSpaces(s, after) == s
  {
    if s != "" {
      assert !NeedsCollapsing(s[1..]) by {
        assert forall i :: 0 <= i < |s[1..]| ==> s[1..][i] == s[i + 1];
      }
      NothingToCollapse(s[1..], s[0] == ' ');
    }
  }

  /** The shortcut agrees with the full normalization. */
  lemma ShortcutIsExact(ch: Chars, s: string)
    ensures NormalizeSlotText(ch, s) == Strip(ch, CollapseSpaces(CollapseBreaks(s)))
  {
    if !NeedsCollapsing(s) { NothingToCollapse(s, false); }
  }

  // ---- what the parser stores

  /** The digest is a SHA-1 of the normalized texts; it is taken to identify them. */
  datatype Segment = Segment(block: string, parts: seq<Part>, text: string, digest: seq<string>)

  /** The separator before part `i`: none if one of the two sits behind a comment, unless spaces part them. */
  function Separator(ch: Chars, parts: seq<Part>, raw: seq<string>, i: nat): string
    requires 0 < i < |parts| == |raw|
  {
    if Mentions(parts[i].path, "/$node[") || Mentions(parts[i - 1].path, "/$node[") then
      var left, right := raw[i - 1], raw[i];
      if (left != "" && ch.isSpace(left[|left| - 1])) || (right != "" && ch.isSpace(right[0])) then " " else ""
    else "\n"
  }

  function JoinParts(ch: Chars, texts: seq<string>, parts: seq<Part>, raw: seq<string>, i: nat): string
    requires |texts| == |parts| == |raw| && i <= |parts|
    decreases |parts| - i
  {
    if i == |parts| then ""
    else (if i == 0 then "" else Separator(ch, parts, raw, i)) + texts[i] + JoinParts(ch, texts, parts, raw, i + 1)
  }

  /** `join_segment_text`. */
  function JoinSegmentText(ch: Chars, texts: seq<string>, parts: seq<Part>, raw: seq<string>): string
    requires |texts| == |parts| == |raw|
  {
    if exists i | 0 <= i < |parts| :: Mentions(parts[i].path, "/ruby[") then Concat(texts)
    else JoinParts(ch, texts, parts, raw, 0)
  }

  function Texts(c: Content, slots: seq<Slot>): seq<string> {
    seq(|slots|, i requires 0 <= i < |slots| => Get(c, slots[i]))
  }

  function Normalized(ch: Chars, texts: seq<string>): seq<string> {
    seq(|texts|, i requires 0 <= i < |texts| => NormalizeSlotText(ch, texts[i]))
  }

  function PartRefs(root: Tree, slots: seq<Slot>): seq<Part> {
    seq(|slots|, i requires 0 <= i < |slots| => Part(slots[i].Tail?, PathAt(root, slots[i].at)))
  }

  /** The segment that `append_segment` makes of a unit. */
  function SegmentOf(ch: Chars, u: Unit): Segment {
    var parts := seq(|u.slots|, i requires 0 <= i < |u.slots| => u.slots[i].0);
    var raw := seq(|u.slots|, i requires 0 <= i < |u.slots| => u.slots[i].1);
    var texts := Normalized(ch, raw);
    Segment(u.block, parts, JoinSegmentText(ch, texts, parts, raw), texts)
  }

  predicate HasText(ch: Chars, u: Unit) {
    exists i | 0 <= i < |u.slots| :: !Blank(ch, u.slots[i].1)
  }

  // ---- what the writer does with one segment

  /** The stored paths resolved in this document; nothing if one of them leads nowhere. */
  function Resolve(root: Tree, parts: seq<Part>): Option<seq<Slot>>
    requires root.Element?
  {
    if parts == [] then Some([]) else
    match FindByPath(root, parts[0].path)
    case None => None
    case Some(a) =>
      match Resolve(root, parts[1..])
      case None => None
      case Some(rest) => Some([if parts[0].tail then Tail(a) else Text(a)] + rest)
  }

  /** The stored slots are ones that an extraction can produce: element texts and tails below the root. */
  predicate Storable(root: Tree, segment: Segment)
    requires root.Element?
  {
    var resolved := Resolve(root, segment.parts);
    resolved.Some? ==> ValidSlots(root, resolved.value)
  }

  /** One round of the loop of `_apply_doc_segments` (not bilingual): the segment is skipped if a path is
      gone, if the text under the paths is no longer the one extracted, or if nothing was translated. */
  function ApplySegment(ch: Chars, root: Tree, c: Content, segment: Segment, translation: string): Content
    requires root.Element? && Storable(root, segment)
  {
    var resolved := Resolve(root, segment.parts);
    if resolved.None? then c else
    var current := Normalized(ch, Texts(c, resolved.value));
    if current != segment.digest || translation == segment.text then c
    else Replaced(ch, root, c, resolved.value, current, Split(translation, '\n'), translation)
  }

  datatype Job = Job(segment: Segment, translation: string)

  ghost predicate AllStorable(root: Tree, jobs: seq<Job>)
    requires root.Element?
  {
    forall k :: 0 <= k < |jobs| ==> Storable(root, jobs[k].segment)
  }

  /** The document after all the segments have been applied, in the given order. */
  ghost function ApplyAll(ch: Chars, root: Tree, c: Content, jobs: seq<Job>): Content
    requires root.Element? && AllStorable(root, jobs)
    decreases |jobs|
  {
    if jobs == [] then c
    else ApplyAll(ch, root, ApplySegment(ch, root, c, jobs[0].segment, jobs[0].translation), jobs[1..])
  }
}
