/** Plain text documents (transoria/formats/text.py): splitting into lines with their own line endings, and
    rendering them back with translations. */
module TextSplit {
  import opened Lists

  datatype Line = Line(text: string, newline: string)

  predicate IsBreak(x: char) {
    x == '\r' || x == '\n'
  }

  predicate BreakFree(s: string) {
    forall i :: 0 <= i < |s| ==> !IsBreak(s[i])
  }

  /** Where the line that begins at `offset` ends. */
  function LineEnd(text: string, offset: nat): (end: nat)
    requires offset <= |text|
    ensures offset <= end <= |text|
    decreases |text| - offset
  {
    if offset == |text| || IsBreak(text[offset]) then offset else LineEnd(text, offset + 1)
  }

  lemma {:induction false} LineEndMeans(text: string, offset: nat)
    requires offset <= |text|
    ensures var end := LineEnd(text, offset);
            (end < |text| ==> IsBreak(text[end])) && BreakFree(text[offset..end])
    decreases |text| - offset
  {
    var end := LineEnd(text, offset);
    if offset < end {
      LineEndMeans(text, offset + 1);
      assert text[offset..end] == [text[offset]] + text[offset + 1..end];
    }
  }

  /** The line ending that stands at `end`. */
  function NewlineAt(text: string, end: nat): (n: string)
    requires end <= |text|
    ensures end + |n| <= |text|
  {
    if end == |text| || !IsBreak(text[end]) then ""
    else if end + 1 < |text| && text[end] == '\r' && text[end + 1] == '\n' then "\r\n"
    else [text[end]]
  }

  /** The first line from `offset` on and where the next one begins, character by character. */
  datatype Step = Step(line: Line, next: nat)

  function FirstLine(text: string, offset: nat): (s: Step)
    requires offset <= |text|
    ensures offset <= s.next <= |text| && (offset < |text| ==> offset < s.next)
    decreases |text| - offset
  {
    if offset == |text| then Step(Line("", ""), offset)
    else if IsBreak(text[offset]) then Step(Line("", NewlineAt(text, offset)), offset + |NewlineAt(text, offset)|)
    else
      var s := FirstLine(text, offset + 1);
      Step(Line([text[offset]] + s.line.text, s.line.newline), s.next)
  }

  /** The lines from `offset` on. */
  function Lines(text: string, offset: nat): seq<Line>
    requires offset <= |text|
    decreases |text| - offset
  {
    if offset == |text| then [] else
    var s := FirstLine(text, offset);
    [s.line] + Lines(text, s.next)
  }

  /** The same, by the index of the line's end. */
  lemma {:induction false} FirstLineIs(text: string, offset: nat)
    requires offset <= |text|
    ensures var end := LineEnd(text, offset);
            FirstLine(text, offset) == Step(Line(text[offset..end], NewlineAt(text, end)), end + |NewlineAt(text, end)|)
    decreases |text| - offset
  {
    if offset < |text| && !IsBreak(text[offset]) {
      FirstLineIs(text, offset + 1);
      var end := LineEnd(text, offset);
      assert text[offset..end] == [text[offset]] + text[offset + 1..end];
    } else {
      assert text[offset..offset] == "";
    }
  }

  /** `_split_segments`; an empty text is one empty line. */
  function Split(text: string): seq<Line> {
    if text == "" then [Line("", "")] else Lines(text, 0)
  }

  function Render(lines: seq<Line>): string {
    if lines == [] then "" else lines[0].text + lines[0].newline + Render(lines[1..])
  }

  /** The lines with the translations that there are, by index. */
  function Translated(lines: seq<Line>, translations: map<nat, string>): seq<Line> {
    seq(|lines|, i requires 0 <= i < |lines| =>
      if i in translations then lines[i].(text := translations[i]) else lines[i])
  }

  /** The inner loop of `_split_segments` and the line ending behind it. */
  method NextLine(text: string, offset: nat) returns (end: nat, newline: string)
    requires offset <= |text|
    ensures end == LineEnd(text, offset) && newline == NewlineAt(text, end)
  {
    end := offset;
    while end < |text| && !IsBreak(text[end])
      invariant offset <= end <= |text|
      invariant LineEnd(text, end) == LineEnd(text, offset)
    {
      end := end + 1;
    }
    newline := "";
    if end < |text| {
      if end + 2 <= |text| {
        var two := text[end..end + 2];
        assert two[0] == text[end] && two[1] == text[end + 1];
        assert two == "\r\n" <==> two[0] == '\r' && two[1] == '\n';
      }
      newline := if end + 2 <= |text| && text[end..end + 2] == "\r\n" then "\r\n" else [text[end]];
    }
  }

  /** One line more is done. */
  lemma LinesFrom(lines: seq<Line>, text: string, offset: nat)
    requires offset < |text|
    ensures var end := LineEnd(text, offset);
            var newline := NewlineAt(text, end);
            && offset < end + |newline| <= |text|
            && lines + Lines(text, offset) == (lines + [Line(text[offset..end], newline)]) + Lines(text, end + |newline|)
  {
    FirstOfLines(text, offset);
    var end := LineEnd(text, offset);
    var newline := NewlineAt(text, end);
    Assoc(lines, [Line(text[offset..end], newline)], Lines(text, end + |newline|));
  }

  lemma FirstOfLines(text: string, offset: nat)
    requires offset < |text|
    ensures var end := LineEnd(text, offset);
            var newline := NewlineAt(text, end);
            && offset < end + |newline| <= |text|
            && Lines(text, offset) == [Line(text[offset..end], newline)] + Lines(text, end + |newline|)
  {
    FirstLineIs(text, offset);
  }

  method SplitSegments(text: string) returns (lines: seq<Line>)
    ensures lines == Split(text)
  {
    lines := [];
    var offset := 0;
    EmptyConcat(Lines(text, 0));
    while offset < |text|
      invariant 0 <= offset <= |text| && (offset > 0 <==> lines != [])
      invariant lines + Lines(text, offset) == Lines(text, 0)
      decreases |text| - offset
    {
      var end, newline := NextLine(text, offset);
      LinesFrom(lines, text, offset);
      lines := lines + [Line(text[offset..end], newline)];
      offset := end + |newline|;
    }
    EmptyConcat(lines);
    if lines == [] { lines := [Line("", "")]; }
  }

  method RenderTranslated(lines: seq<Line>, translations: map<nat, string>) returns (text: string)
    ensures text == Render(Translated(lines, translations))
  {
    text := "";
    var all := Translated(lines, translations);
    for i := 0 to |lines|
      invariant text + Render(all[i..]) == Render(all)
    {
      assert all[i..][1..] == all[i + 1..];
      var line := if i in translations then translations[i] else lines[i].text;
      Assoc(text, line + lines[i].newline, Render(all[i + 1..]));
      text := text + (line + lines[i].newline);
    }
    EmptyConcat(text);
  }

  // ---- render undoes split

  lemma SplitAt(text: string, a: nat, b: nat, c: nat)
    requires a <= b <= c <= |text|
    ensures text[a..] == text[a..b] + text[b..c] + text[c..]
  {
  }

  lemma NewlineShape(text: string, end: nat)
    requires end <= |text|
    ensures text[end..end + |NewlineAt(text, end)|] == NewlineAt(text, end)
  {
  }

  lemma FirstLineShape(text: string, offset: nat)
    requires offset <= |text|
    ensures var s := FirstLine(text, offset); text[offset..] == s.line.text + s.line.newline + text[s.next..]
  {
    var end := LineEnd(text, offset);
    FirstLineIs(text, offset);
    NewlineShape(text, end);
    SplitAt(text, offset, end, end + |NewlineAt(text, end)|);
  }

  lemma RenderCons(line: Line, rest: seq<Line>)
    ensures Render([line] + rest) == line.text + line.newline + Render(rest)
  {
    assert ([line] + rest)[1..] == rest;
  }

  lemma {:induction false} RenderLines(text: string, offset: nat)
    requires offset <= |text|
    ensures Render(Lines(text, offset)) == text[offset..]
    decreases |text| - offset
  {
    if offset == |text| {
      assert text[offset..] == "";
    } else {
      var s := FirstLine(text, offset);
      RenderLines(text, s.next);
      RenderCons(s.line, Lines(text, s.next));
      FirstLineShape(text, offset);
    }
  }

  /** Rendering the split of any text without translations gives the text back. */
  lemma RenderUndoesSplit(text: string)
    ensures Render(Translated(Split(text), map[])) == text
  {
    assert Translated(Split(text), map[]) == Split(text);
    RenderLines(text, 0);
    assert text[0..] == text;
    if text == "" { assert Split(text)[1..] == []; }
  }

  // ---- split undoes render, exactly when

  /** A carriage return runs into a bare line feed. */
  predicate Merges(line: Line, next: Line) {
    line.newline == "\r" && next.text == "" && next.newline == "\n"
  }

  /** Line lists that some text splits into: only the last line may lack an ending, and only a lone line
      may lack both text and ending. */
  predicate Canonical(lines: seq<Line>) {
    && lines != []
    && (forall i :: 0 <= i < |lines| ==> BreakFree(lines[i].text))
    && (forall i :: 0 <= i < |lines| - 1 ==> lines[i].newline in ["\r", "\n", "\r\n"])
    && lines[|lines| - 1].newline in ["", "\r", "\n", "\r\n"]
    && (forall i :: 0 <= i < |lines| - 1 ==> !Merges(lines[i], lines[i + 1]))
    && (|lines| > 1 ==> lines[|lines| - 1].text != "" || lines[|lines| - 1].newline != "")
  }

  /** Nothing but a lone line may be entirely empty. */
  predicate Solid(lines: seq<Line>) {
    lines != [] ==> |lines| > 1 || lines[0].text != "" || lines[0].newline != ""
  }

  lemma CanonicalRest(lines: seq<Line>)
    requires Canonical(lines) && |lines| > 1
    ensures Canonical(lines[1..]) && Solid(lines[1..]) && !Merges(lines[0], lines[1])
  {
    var rest := lines[1..];
    assert forall i :: 0 <= i < |rest| ==> rest[i] == lines[i + 1];
    assert rest[|rest| - 1] == lines[|lines| - 1];
  }

  /** The first character of what is rendered. */
  lemma RenderStarts(lines: seq<Line>)
    requires lines != [] && Solid(lines) && Canonical(lines)
    ensures Render(lines) != ""
    ensures Render(lines)[0] == '\n' ==> lines[0].text == "" && lines[0].newline == "\n"
  {
    FirstOf(lines[0].text, lines[0].newline, Render(lines[1..]));
  }

  lemma FirstOf(a: string, b: string, c: string)
    requires a + b != ""
    ensures a + b + c != "" && (a + b + c)[0] == if a != "" then a[0] else b[0]
  {
  }

  /** A text reads a line and then the rest. */
  ghost predicate ReadsLine(s: string, line: Line, rest: string) {
    && s == line.text + line.newline + rest
    && BreakFree(line.text) && line.newline in ["", "\r", "\n", "\r\n"] && (line.text != "" || line.newline != "")
    && (line.newline == "" ==> rest == "")
    && (line.newline == "\r" && rest != "" ==> rest[0] != '\n')
  }

  lemma {:induction false} LineEndIs(text: string, offset: nat, end: nat)
    requires offset <= end <= |text| && (end < |text| ==> IsBreak(text[end]))
    requires forall i :: offset <= i < end ==> !IsBreak(text[i])
    ensures LineEnd(text, offset) == end
    decreases end - offset
  {
    if offset < end { LineEndIs(text, offset + 1, end); }
  }

  lemma ReadAt(text: string, offset: nat, line: Line, rest: string)
    requires offset <= |text| && ReadsLine(text[offset..], line, rest)
    ensures var end := offset + |line.text|;
            && end + |line.newline| <= |text| && text[offset..end] == line.text
            && LineEnd(text, offset) == end && NewlineAt(text, end) == line.newline
            && text[end + |line.newline|..] == rest && end + |line.newline| > offset
  {
    var end := offset + |line.text|;
    ThreeBehind(text, offset, line.text, line.newline, rest);
    NoBreakWithin(text, offset, end);
    NewlineIs(text, end, line.newline, rest);
    LineEndIs(text, offset, end);
  }

  lemma NoBreakWithin(text: string, offset: nat, end: nat)
    requires offset <= end <= |text| && BreakFree(text[offset..end])
    ensures forall i :: offset <= i < end ==> !IsBreak(text[i])
  {
    assert forall i :: offset <= i < end ==> text[i] == text[offset..end][i - offset];
  }

  /** Three pieces that make up the rest of the text. */
  lemma ThreeBehind(text: string, offset: nat, a: string, m: string, b: string)
    requires offset <= |text| && text[offset..] == a + m + b
    ensures var k := offset + |a|;
            k + |m| <= |text| && text[offset..k] == a && text[k..k + |m|] == m && text[k + |m|..] == b
  {
    var s := text[offset..];
    ThreeParts(s, a, m, b);
    assert text[offset..offset + |a|] == s[..|a|] && text[offset + |a| + |m|..] == s[|a| + |m|..];
    assert text[offset + |a|..offset + |a| + |m|] == s[|a|..|a| + |m|];
  }

  lemma NewlineIs(text: string, end: nat, newline: string, rest: string)
    requires newline in ["", "\r", "\n", "\r\n"] && end + |newline| <= |text|
    requires text[end..end + |newline|] == newline && text[end + |newline|..] == rest
    requires newline == "" ==> rest == ""
    requires newline == "\r" && rest != "" ==> rest[0] != '\n'
    ensures NewlineAt(text, end) == newline && (end < |text| ==> IsBreak(text[end]))
  {
    assert forall i :: 0 <= i < |newline| ==> text[end + i] == newline[i];
    assert rest != "" ==> rest[0] == text[end + |newline|];
  }

  lemma ReadLine(text: string, offset: nat, line: Line, rest: string)
    requires offset <= |text| && ReadsLine(text[offset..], line, rest)
    ensures offset < |text| && FirstLine(text, offset).line == line && text[FirstLine(text, offset).next..] == rest
  {
    ReadAt(text, offset, line, rest);
    FirstLineIs(text, offset);
  }

  lemma ReadFirst(text: string, offset: nat, lines: seq<Line>)
    requires offset <= |text| && text[offset..] == Render(lines)
    requires lines != [] && Canonical(lines) && Solid(lines)
    ensures offset < |text| && FirstLine(text, offset).line == lines[0]
    ensures text[FirstLine(text, offset).next..] == Render(lines[1..])
  {
    RestStarts(lines);
    ReadLine(text, offset, lines[0], Render(lines[1..]));
  }

  lemma {:induction false} LinesOfRender(text: string, offset: nat, lines: seq<Line>)
    requires offset <= |text| && text[offset..] == Render(lines)
    requires lines != [] ==> Canonical(lines) && Solid(lines)
    ensures Lines(text, offset) == lines
    decreases |lines|
  {
    if lines == [] {
      assert |text[offset..]| == 0;
    } else {
      ReadFirst(text, offset, lines);
      if |lines| > 1 { CanonicalRest(lines); }
      LinesOfRender(text, FirstLine(text, offset).next, lines[1..]);
      Uncons(lines);
    }
  }

  lemma RestStarts(lines: seq<Line>)
    requires lines != [] && Canonical(lines) && Solid(lines)
    ensures ReadsLine(Render(lines), lines[0], Render(lines[1..]))
  {
    if |lines| > 1 {
      CanonicalRest(lines);
      RenderStarts(lines[1..]);
    }
  }

  ghost predicate LinesCanonical(lines: seq<Line>) {
    lines != [] ==> Canonical(lines) && Solid(lines)
  }

  /** A leading empty line that ends in a bare line feed shows in the text. */
  ghost predicate StartsAsText(text: string, offset: nat, lines: seq<Line>) {
    offset < |text| ==> lines != [] && (lines[0].text == "" && lines[0].newline == "\n" ==> text[offset] == '\n')
  }

  lemma {:induction false} SplitIsCanonical(text: string, offset: nat)
    requires offset <= |text|
    ensures LinesCanonical(Lines(text, offset)) && StartsAsText(text, offset, Lines(text, offset))
    decreases |text| - offset
  {
    if offset < |text| {
      var s := FirstLine(text, offset);
      FirstLineFits(text, offset);
      SplitIsCanonical(text, s.next);
      ConsCanonical(s.line, Lines(text, s.next));
    }
  }

  lemma FirstLineFits(text: string, offset: nat)
    requires offset < |text|
    ensures var Step(line, next) := FirstLine(text, offset);
            && BreakFree(line.text) && line.newline in ["", "\r", "\n", "\r\n"] && (line.text != "" || line.newline != "")
            && (line.newline == "" ==> next == |text|)
            && (line.newline == "\r" && next < |text| ==> text[next] != '\n')
            && (line.text == "" && line.newline == "\n" ==> text[offset] == '\n')
  {
    FirstLineIs(text, offset);
    LineEndMeans(text, offset);
  }

  lemma ConsCanonical(line: Line, rest: seq<Line>)
    requires LinesCanonical(rest) && BreakFree(line.text) && line.newline in ["", "\r", "\n", "\r\n"]
    requires line.text != "" || line.newline != ""
    requires rest != [] ==> line.newline != "" && !Merges(line, rest[0])
    ensures LinesCanonical([line] + rest)
  {
    var all := [line] + rest;
    assert forall i :: 0 < i < |all| ==> all[i] == rest[i - 1];
    forall i | 0 <= i < |all| - 1 ensures all[i].newline in ["\r", "\n", "\r\n"] && !Merges(all[i], all[i + 1]) {
      if i > 0 { assert all[i] == rest[i - 1] && all[i + 1] == rest[i]; }
    }
  }

  /** Splitting what is rendered gives the lines back, texts and line endings, exactly for canonical lines. */
  lemma SplitUndoesRender(lines: seq<Line>)
    ensures Split(Render(lines)) == lines <==> Canonical(lines)
  {
    SplitIsCanonical(Render(lines), 0);
    if Canonical(lines) {
      if Solid(lines) {
        assert Render(lines)[0..] == Render(lines);
        LinesOfRender(Render(lines), 0, lines);
        RenderStarts(lines);
      } else {
        assert lines == [Line("", "")] && lines[1..] == [];
        assert Render(lines) == "";
      }
    }
  }

  // ---- translated documents

  predicate Pure(lines: seq<Line>, translations: map<nat, string>) {
    forall i :: 0 <= i < |lines| && i in translations ==> BreakFree(translations[i])
  }

  /** A translation leaves a line empty between a lone carriage return and a lone line feed. */
  predicate Closes(lines: seq<Line>, i: nat)
    requires i + 1 < |lines|
  {
    Merges(lines[i], lines[i + 1])
  }

  /** Each line has its own ending and, if there is one, the translation of its own index. */
  ghost predicate TranslatedBy(lines: seq<Line>, translations: map<nat, string>, done: seq<Line>) {
    && |done| == |lines|
    && forall i :: 0 <= i < |lines| ==>
         done[i].newline == lines[i].newline && done[i].text == if i in translations then translations[i] else lines[i].text
  }

  /** A translated document splits into its translated lines again exactly if no translation holds a line
      break, none empties a line between a lone CR and a lone LF, and none empties a last line without an
      ending (unless it is the only line). */
  lemma TranslatedRoundTrip(text: string, translations: map<nat, string>)
    ensures var lines := Split(text);
            var done := Translated(lines, translations);
            && TranslatedBy(lines, translations, done)
            && (Split(Render(done)) == done <==>
                  && Pure(lines, translations)
                  && (forall i :: 0 <= i < |done| - 1 ==> !Closes(done, i))
                  && (|done| > 1 ==> done[|done| - 1].text != "" || done[|done| - 1].newline != ""))
  {
    var lines := Split(text);
    var done := Translated(lines, translations);
    SplitIsCanonical(text, 0);
    SplitUndoesRender(done);
    TranslatedCanonical(lines, translations);
  }

  lemma TranslatedCanonical(lines: seq<Line>, translations: map<nat, string>)
    requires Canonical(lines)
    ensures var done := Translated(lines, translations);
            Canonical(done) <==>
              && Pure(lines, translations)
              && (forall i :: 0 <= i < |done| - 1 ==> !Closes(done, i))
              && (|done| > 1 ==> done[|done| - 1].text != "" || done[|done| - 1].newline != "")
  {
    var done := Translated(lines, translations);
    TranslatedPure(lines, translations);
    forall i | 0 <= i < |done| - 1 ensures done[i].newline in ["\r", "\n", "\r\n"] {
      assert done[i].newline == lines[i].newline;
    }
    assert done[|done| - 1].newline == lines[|lines| - 1].newline;
    forall i | 0 <= i < |done| - 1 ensures Closes(done, i) == Merges(done[i], done[i + 1]) {}
  }

  lemma TranslatedPure(lines: seq<Line>, translations: map<nat, string>)
    requires forall i :: 0 <= i < |lines| ==> BreakFree(lines[i].text)
    ensures var done := Translated(lines, translations);
            Pure(lines, translations) <==> forall i :: 0 <= i < |done| ==> BreakFree(done[i].text)
  {
    var done := Translated(lines, translations);
    forall i | 0 <= i < |lines| && i in translations ensures BreakFree(translations[i]) == BreakFree(done[i].text) {
      assert done[i].text == translations[i];
    }
  }

  /** In particular, translations without line breaks that leave no line empty that was not. */
  lemma FaithfulTranslations(text: string, translations: map<nat, string>)
    requires Pure(Split(text), translations)
    requires forall i :: 0 <= i < |Split(text)| && i in translations && translations[i] == "" ==> Split(text)[i].text == ""
    ensures TranslatedBy(Split(text), translations, Split(Render(Translated(Split(text), translations))))
  {
    var lines := Split(text);
    var done := Translated(lines, translations);
    TranslatedRoundTrip(text, translations);
    SplitIsCanonical(text, 0);
    NoneCloses(lines, translations);
  }

  lemma NoneCloses(lines: seq<Line>, translations: map<nat, string>)
    requires Canonical(lines)
    requires forall i :: 0 <= i < |lines| && i in translations && translations[i] == "" ==> lines[i].text == ""
    ensures var done := Translated(lines, translations); forall i :: 0 <= i < |done| - 1 ==> !Closes(done, i)
  {
    var done := Translated(lines, translations);
    forall i | 0 <= i < |done| - 1 ensures !Closes(done, i) {
      assert !Merges(lines[i], lines[i + 1]);
      assert done[i + 1].text == "" ==> lines[i + 1].text == "";
    }
  }
}
