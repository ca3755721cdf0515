/** The text of a segment, as it is handed to translation (transoria/formats/epub_parser.py): line by line the
    normalized texts of the slots, and but for white space exactly what the document reads there. */
module EpubSegmentText {
  import opened Lists
  import opened Slashes
  import opened TextRules
  import opened EpubSegments
  import opened EpubUnits

  /** As `str.isspace` has it. */
  predicate KnowsSpaces(ch: Chars) {
    ch.isSpace(' ') && ch.isSpace('\n') && ch.isSpace('\r') && ch.isSpace('\t')
  }

  // ---- normalizing

  ghost predicate NoBreaks(s: string) {
    forall x :: x in s ==> !IsBreak(x)
  }

  lemma {:induction false} BreaksCollapsed(ch: Chars, s: string, after: bool)
    ensures NoBreaks(CollapseBreaks(s, after))
    ensures KnowsSpaces(ch) ==> NonSpace(ch, CollapseBreaks(s, after)) == NonSpace(ch, s)
  {
    if s != "" {
      BreaksCollapsed(ch, s[1..], IsBreak(s[0]));
      NonSpaceAppend(ch, if IsBreak(s[0]) then (if after then "" else " ") else [s[0]], CollapseBreaks(s[1..], IsBreak(s[0])));
      OneSpace(ch);
    }
  }

  lemma OneSpace(ch: Chars)
    ensures NonSpace(ch, " ") == if ch.isSpace(' ') then "" else " "
  {
    assert " "[1..] == "";
  }

  lemma {:induction false} SpacesCollapsed(ch: Chars, s: string, after: bool)
    ensures NoBreaks(s) ==> NoBreaks(CollapseSpaces(s, after))
    ensures KnowsSpaces(ch) ==> NonSpace(ch, CollapseSpaces(s, after)) == NonSpace(ch, s)
  {
    if s != "" {
      Uncons(s);
      SpacesCollapsed(ch, s[1..], s[0] == ' ');
      NonSpaceAppend(ch, if s[0] == ' ' then (if after then "" else " ") else [s[0]], CollapseSpaces(s[1..], s[0] == ' '));
      OneSpace(ch);
    }
  }

  lemma {:induction false} LeftStripped(ch: Chars, s: string)
    ensures NoBreaks(s) ==> NoBreaks(StripLeft(ch, s))
    ensures NonSpace(ch, StripLeft(ch, s)) == NonSpace(ch, s)
  {
    if s != "" && ch.isSpace(s[0]) { LeftStripped(ch, s[1..]); }
  }

  lemma {:induction false} RightStripped(ch: Chars, s: string)
    ensures NoBreaks(s) ==> NoBreaks(StripRight(ch, s))
    ensures NonSpace(ch, StripRight(ch, s)) == NonSpace(ch, s)
  {
    if s != "" && ch.isSpace(s[|s| - 1]) {
      var init, last := s[..|s| - 1], s[|s| - 1];
      assert s == init + [last];
      RightStripped(ch, init);
      NonSpaceAppend(ch, init, [last]);
      assert NonSpace(ch, [last]) == "" by { assert [last][1..] == ""; }
    }
  }

  /** A normalized text has no line breaks or tabs, and but for white space is the text. */
  lemma NormalizedReads(ch: Chars, s: string)
    ensures NoBreaks(NormalizeSlotText(ch, s))
    ensures KnowsSpaces(ch) ==> NonSpace(ch, NormalizeSlotText(ch, s)) == NonSpace(ch, s)
  {
    var a := CollapseBreaks(s);
    var b := CollapseSpaces(a);
    ShortcutIsExact(ch, s);
    BreaksCollapsed(ch, s, false);
    SpacesCollapsed(ch, a, false);
    LeftStripped(ch, b);
    RightStripped(ch, StripLeft(ch, b));
  }

  // ---- joining

  /** The paths that the parser gives to texts behind comments and processing instructions, and inside ruby. */
  predicate BehindNode(part: Part) {
    Mentions(part.path, "/$node[")
  }

  predicate InRuby(part: Part) {
    Mentions(part.path, "/ruby[")
  }

  /** Texts with separators in front of them, in turn. */
  function Woven(seps: seq<string>, texts: seq<string>): string
    requires |seps| == |texts|
  {
    if texts == [] then "" else seps[0] + texts[0] + Woven(seps[1..], texts[1..])
  }

  predicate EndsInSpace(ch: Chars, s: string) {
    s != "" && ch.isSpace(s[|s| - 1])
  }

  predicate BeginsWithSpace(ch: Chars, s: string) {
    s != "" && ch.isSpace(s[0])
  }

  predicate HasRuby(parts: seq<Part>) {
    exists k | 0 <= k < |parts| :: InRuby(parts[k])
  }

  /** What stands in front of part `i`: a line break; next to a comment a space if the document has one there; and
      nothing in ruby or in front of the first. */
  predicate SeparatorIs(ch: Chars, parts: seq<Part>, raw: seq<string>, i: nat, sep: string)
    requires i < |parts| == |raw|
  {
    sep == if i == 0 || HasRuby(parts) then ""
           else if !BehindNode(parts[i]) && !BehindNode(parts[i - 1]) then "\n"
           else if EndsInSpace(ch, raw[i - 1]) || BeginsWithSpace(ch, raw[i]) then " " else ""
  }

  ghost predicate SeparatorsOk(ch: Chars, parts: seq<Part>, raw: seq<string>, seps: seq<string>) {
    |seps| == |parts| == |raw| && forall i :: 0 <= i < |seps| ==> SeparatorIs(ch, parts, raw, i, seps[i])
  }

  /** What the source puts in front of part `i`. */
  function FrontOf(ch: Chars, parts: seq<Part>, raw: seq<string>, i: nat): string
    requires i < |parts| == |raw|
  {
    if i == 0 then "" else Separator(ch, parts, raw, i)
  }

  lemma WovenFrom(seps: seq<string>, texts: seq<string>, i: nat)
    requires i < |seps| == |texts|
    ensures Woven(seps[i..], texts[i..]) == seps[i] + texts[i] + Woven(seps[i + 1..], texts[i + 1..])
  {
    assert texts[i..][1..] == texts[i + 1..] && seps[i..][1..] == seps[i + 1..];
  }

  lemma {:induction false} PartsWoven(ch: Chars, texts: seq<string>, parts: seq<Part>, raw: seq<string>, seps: seq<string>,
                                      i: nat)
    requires |texts| == |parts| == |raw| == |seps| && i <= |parts|
    requires forall k :: 0 <= k < |parts| ==> seps[k] == FrontOf(ch, parts, raw, k)
    ensures JoinParts(ch, texts, parts, raw, i) == Woven(seps[i..], texts[i..])
    decreases |parts| - i
  {
    if i < |parts| {
      PartsWoven(ch, texts, parts, raw, seps, i + 1);
      WovenFrom(seps, texts, i);
      assert seps[i] == FrontOf(ch, parts, raw, i);
    }
  }

  lemma {:induction false} ConcatWoven(texts: seq<string>, seps: seq<string>)
    requires |seps| == |texts| && forall i :: 0 <= i < |seps| ==> seps[i] == ""
    ensures Woven(seps, texts) == Concat(texts)
  {
    if texts != [] {
      assert forall i :: 0 <= i < |seps[1..]| ==> seps[1..][i] == seps[i + 1];
      ConcatWoven(texts[1..], seps[1..]);
      EmptyConcat(texts[0]);
    }
  }

  lemma RubyWoven(ch: Chars, texts: seq<string>, parts: seq<Part>, raw: seq<string>) returns (seps: seq<string>)
    requires |texts| == |parts| == |raw| && HasRuby(parts)
    ensures SeparatorsOk(ch, parts, raw, seps) && Concat(texts) == Woven(seps, texts)
  {
    seps := seq(|parts|, _ => "");
    ConcatWoven(texts, seps);
  }

  lemma SeparatorFits(ch: Chars, parts: seq<Part>, raw: seq<string>, i: nat)
    requires i < |parts| == |raw| && !HasRuby(parts)
    ensures SeparatorIs(ch, parts, raw, i, FrontOf(ch, parts, raw, i))
  {
  }

  lemma LinesWoven(ch: Chars, texts: seq<string>, parts: seq<Part>, raw: seq<string>) returns (seps: seq<string>)
    requires |texts| == |parts| == |raw| && !HasRuby(parts)
    ensures SeparatorsOk(ch, parts, raw, seps) && JoinParts(ch, texts, parts, raw, 0) == Woven(seps, texts)
  {
    seps := seq(|parts|, i requires 0 <= i < |parts| => FrontOf(ch, parts, raw, i));
    forall k | 0 <= k < |parts| ensures SeparatorIs(ch, parts, raw, k, seps[k]) { SeparatorFits(ch, parts, raw, k); }
    PartsWoven(ch, texts, parts, raw, seps, 0);
    assert texts[0..] == texts && seps[0..] == seps;
  }

  lemma RubyIs(ch: Chars, texts: seq<string>, parts: seq<Part>, raw: seq<string>)
    requires |texts| == |parts| == |raw|
    ensures JoinSegmentText(ch, texts, parts, raw)
            == if HasRuby(parts) then Concat(texts) else JoinParts(ch, texts, parts, raw, 0)
  {
    if HasRuby(parts) {
      var k :| 0 <= k < |parts| && InRuby(parts[k]);
      assert Mentions(parts[k].path, "/ruby[");
    } else {
      forall k | 0 <= k < |parts| ensures !Mentions(parts[k].path, "/ruby[") { assert !InRuby(parts[k]); }
    }
  }

  /** The text is the parts' texts in order, with exactly these separators. */
  lemma JoinedWith(ch: Chars, texts: seq<string>, parts: seq<Part>, raw: seq<string>) returns (seps: seq<string>)
    requires |texts| == |parts| == |raw|
    ensures SeparatorsOk(ch, parts, raw, seps) && JoinSegmentText(ch, texts, parts, raw) == Woven(seps, texts)
  {
    RubyIs(ch, texts, parts, raw);
    if HasRuby(parts) { seps := RubyWoven(ch, texts, parts, raw); } else { seps := LinesWoven(ch, texts, parts, raw); }
  }

  // ---- what the text reads

  lemma {:induction false} WovenReads(ch: Chars, seps: seq<string>, texts: seq<string>)
    requires |seps| == |texts| && forall i :: 0 <= i < |seps| ==> NonSpace(ch, seps[i]) == ""
    ensures NonSpace(ch, Woven(seps, texts)) == NonSpace(ch, Concat(texts))
  {
    if texts != [] {
      assert forall i :: 0 <= i < |seps[1..]| ==> seps[1..][i] == seps[i + 1];
      WovenReads(ch, seps[1..], texts[1..]);
      NonSpaceAppend(ch, seps[0] + texts[0], Woven(seps[1..], texts[1..]));
      NonSpaceAppend(ch, seps[0], texts[0]);
      EmptyConcat(NonSpace(ch, texts[0]));
      NonSpaceAppend(ch, texts[0], Concat(texts[1..]));
    }
  }

  lemma {:induction false} SameReading(ch: Chars, a: seq<string>, b: seq<string>)
    requires |a| == |b| && forall i :: 0 <= i < |a| ==> NonSpace(ch, a[i]) == NonSpace(ch, b[i])
    ensures NonSpace(ch, Concat(a)) == NonSpace(ch, Concat(b))
  {
    if a != [] {
      assert forall i :: 0 <= i < |a[1..]| ==> a[1..][i] == a[i + 1] && b[1..][i] == b[i + 1];
      SameReading(ch, a[1..], b[1..]);
      NonSpaceAppend(ch, a[0], Concat(a[1..]));
      NonSpaceAppend(ch, b[0], Concat(b[1..]));
    }
  }

  function RawOf(u: Unit): seq<string> {
    seq(|u.slots|, i requires 0 <= i < |u.slots| => u.slots[i].1)
  }

  lemma SeparatorsBlank(ch: Chars, parts: seq<Part>, raw: seq<string>, seps: seq<string>)
    requires KnowsSpaces(ch) && SeparatorsOk(ch, parts, raw, seps)
    ensures forall i :: 0 <= i < |seps| ==> NonSpace(ch, seps[i]) == ""
  {
    OneSpace(ch);
    assert "\n"[1..] == "";
    forall i | 0 <= i < |seps| ensures NonSpace(ch, seps[i]) == "" { assert SeparatorIs(ch, parts, raw, i, seps[i]); }
  }

  lemma TextReads(ch: Chars, parts: seq<Part>, raw: seq<string>)
    requires KnowsSpaces(ch) && |parts| == |raw|
    ensures NonSpace(ch, JoinSegmentText(ch, Normalized(ch, raw), parts, raw)) == NonSpace(ch, Concat(raw))
  {
    var texts := Normalized(ch, raw);
    var seps := JoinedWith(ch, texts, parts, raw);
    SeparatorsBlank(ch, parts, raw, seps);
    WovenReads(ch, seps, texts);
    forall i | 0 <= i < |raw| ensures NonSpace(ch, texts[i]) == NonSpace(ch, raw[i]) { NormalizedReads(ch, raw[i]); }
    SameReading(ch, texts, raw);
  }

  function PartsOf(u: Unit): seq<Part> {
    seq(|u.slots|, i requires 0 <= i < |u.slots| => u.slots[i].0)
  }

  lemma SegmentParts(ch: Chars, u: Unit)
    ensures SegmentOf(ch, u) == Segment(u.block, PartsOf(u), JoinSegmentText(ch, Normalized(ch, RawOf(u)), PartsOf(u), RawOf(u)),
                                        Normalized(ch, RawOf(u)))
  {
  }

  /** But for white space, the text of a segment is what its slots read, in document order: nothing is lost, added or
      moved. */
  lemma SegmentReadsUnit(ch: Chars, u: Unit)
    requires KnowsSpaces(ch)
    ensures NonSpace(ch, SegmentOf(ch, u).text) == NonSpace(ch, Concat(RawOf(u)))
  {
    SegmentParts(ch, u);
    TextReads(ch, PartsOf(u), RawOf(u));
  }

  lemma SplitAtBreak(first: string, rest: string)
    requires '\n' !in first
    ensures Split(first + ("\n" + rest), '\n') == [first] + Split(rest, '\n')
  {
    var s := first + ['\n'] + rest;
    Assoc(first, ['\n'], rest);
    FirstIndexOf(first, '\n', rest);
    assert s[..|first|] == first && s[|first| + 1..] == rest;
  }

  lemma OneLine(line: string)
    requires '\n' !in line
    ensures Split(line + "", '\n') == [line]
  {
    EmptyConcat(line);
    FirstIndexOf(line, '\n', "");
  }

  lemma {:induction false} WovenLines(seps: seq<string>, texts: seq<string>)
    requires |seps| == |texts| > 0 && forall i :: 0 < i < |seps| ==> seps[i] == "\n"
    requires forall i :: 0 <= i < |texts| ==> '\n' !in texts[i]
    ensures Split(texts[0] + Woven(seps[1..], texts[1..]), '\n') == texts
    decreases |texts|
  {
    if |texts| == 1 {
      OneLine(texts[0]);
    } else {
      var behind := Woven(seps[1..][1..], texts[1..][1..]);
      WovenLines(seps[1..], texts[1..]);
      Assoc("\n", texts[1], behind);
      SplitAtBreak(texts[0], texts[1] + behind);
      Uncons(texts);
    }
  }

  lemma LineSeparators(ch: Chars, parts: seq<Part>, raw: seq<string>, seps: seq<string>)
    requires SeparatorsOk(ch, parts, raw, seps) && !HasRuby(parts)
    requires forall i :: 0 <= i < |parts| ==> !BehindNode(parts[i])
    ensures forall i :: 0 < i < |seps| ==> seps[i] == "\n"
    ensures seps != [] ==> seps[0] == ""
  {
    forall i | 0 <= i < |seps| ensures seps[i] == if i == 0 then "" else "\n" { assert SeparatorIs(ch, parts, raw, i, seps[i]); }
  }

  lemma NormalizedLines(ch: Chars, raw: seq<string>)
    ensures forall i :: 0 <= i < |raw| ==> '\n' !in Normalized(ch, raw)[i]
  {
    forall i | 0 <= i < |raw| ensures '\n' !in Normalized(ch, raw)[i] {
      NormalizedReads(ch, raw[i]);
      assert '\n' in Normalized(ch, raw)[i] ==> !IsBreak('\n');
    }
  }

  lemma TextLines(ch: Chars, parts: seq<Part>, raw: seq<string>)
    requires |parts| == |raw| > 0 && !HasRuby(parts) && forall i :: 0 <= i < |parts| ==> !BehindNode(parts[i])
    ensures Split(JoinSegmentText(ch, Normalized(ch, raw), parts, raw), '\n') == Normalized(ch, raw)
  {
    var texts := Normalized(ch, raw);
    var seps := JoinedWith(ch, texts, parts, raw);
    LineSeparators(ch, parts, raw, seps);
    NormalizedLines(ch, raw);
    WovenLines(seps, texts);
    EmptyConcat(texts[0]);
  }

  /** Without comments and ruby the lines of a segment's text are the normalized texts of its slots, so that a
      translation which keeps the lines apart has one for each slot. */
  lemma LinesAreSlots(ch: Chars, u: Unit)
    requires u.slots != [] && !HasRuby(PartsOf(u)) && forall i :: 0 <= i < |u.slots| ==> !BehindNode(PartsOf(u)[i])
    ensures Split(SegmentOf(ch, u).text, '\n') == Normalized(ch, RawOf(u))
  {
    SegmentParts(ch, u);
    TextLines(ch, PartsOf(u), RawOf(u));
  }
}
