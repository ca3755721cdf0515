/** The character classes that the formats code takes from Python and the `regex` package, as parameters,
    and the small text functions built on them. */
module TextRules {
  import opened Lists

  datatype Option<+T> = None | Some(value: T)

  /** `isSpace` is `str.isspace`, `isRegexSpace` the pattern class \s, `isOpener` an opening quote or
      bracket, `grapheme` the length of the first extended grapheme cluster. */
  datatype RawChars = RawChars(
    isSpace: char -> bool,
    isRegexSpace: char -> bool,
    isAlpha: char -> bool,
    isOpener: char -> bool,
    grapheme: string -> nat)

  ghost predicate Sound(ch: RawChars) {
    && (forall x :: ch.isRegexSpace(x) ==> ch.isSpace(x))
    && (forall s :: s != "" ==> 1 <= ch.grapheme(s) <= |s|)
  }

  const ASCII_LIKE := RawChars(x => x == ' ', x => x == ' ', x => 'a' <= x <= 'z', x => x == '(', s => |s|)

  type Chars = ch: RawChars | Sound(ch) witness ASCII_LIKE

  predicate Blank(ch: Chars, s: string) {
    forall i :: 0 <= i < |s| ==> ch.isSpace(s[i])
  }

  predicate OccursAt(s: string, sub: string, i: nat) {
    i + |sub| <= |s| && s[i..i + |sub|] == sub
  }

  predicate Mentions(s: string, sub: string) {
    exists i: nat | 0 <= i <= |s| :: OccursAt(s, sub, i)
  }

  function Concat(parts: seq<string>): string {
    if parts == [] then "" else parts[0] + Concat(parts[1..])
  }

  function StripLeft(ch: Chars, s: string): string {
    if s != "" && ch.isSpace(s[0]) then StripLeft(ch, s[1..]) else s
  }

  function StripRight(ch: Chars, s: string): string {
    if s != "" && ch.isSpace(s[|s| - 1]) then StripRight(ch, s[..|s| - 1]) else s
  }

  /** `str.strip()`. */
  function Strip(ch: Chars, s: string): string {
    StripRight(ch, StripLeft(ch, s))
  }

  /** What remains of a text when its white space is deleted. */
  function NonSpace(ch: Chars, s: string): string {
    if s == "" then "" else (if ch.isSpace(s[0]) then "" else [s[0]]) + NonSpace(ch, s[1..])
  }

  lemma {:induction false} ConcatAppend(a: seq<string>, b: seq<string>)
    ensures Concat(a + b) == Concat(a) + Concat(b)
  {
    if a == [] {
      EmptyConcat(b);
      EmptyConcat(Concat(b));
    } else {
      TailOfConcat(a, b);
      ConcatAppend(a[1..], b);
      Assoc(a[0], Concat(a[1..]), Concat(b));
    }
  }

  lemma {:induction false} NonSpaceAppend(ch: Chars, a: string, b: string)
    ensures NonSpace(ch, a + b) == NonSpace(ch, a) + NonSpace(ch, b)
  {
    if a == "" {
      EmptyConcat(b);
      EmptyConcat(NonSpace(ch, b));
    } else {
      TailOfConcat(a, b);
      NonSpaceAppend(ch, a[1..], b);
      Assoc(if ch.isSpace(a[0]) then "" else [a[0]], NonSpace(ch, a[1..]), NonSpace(ch, b));
    }
  }

  lemma {:induction false} NonSpaceBlank(ch: Chars, s: string)
    ensures NonSpace(ch, s) == "" <==> Blank(ch, s)
  {
    if s != "" {
      NonSpaceBlank(ch, s[1..]);
      assert forall i :: 0 < i < |s| ==> s[i] == s[1..][i - 1];
      assert Blank(ch, s) <==> ch.isSpace(s[0]) && Blank(ch, s[1..]);
    }
  }

  lemma {:induction false} ConcatBlank(ch: Chars, parts: seq<string>)
    requires forall i :: 0 <= i < |parts| ==> Blank(ch, parts[i])
    ensures NonSpace(ch, Concat(parts)) == ""
  {
    if parts != [] {
      ConcatBlank(ch, parts[1..]);
      NonSpaceBlank(ch, parts[0]);
      NonSpaceAppend(ch, parts[0], Concat(parts[1..]));
    }
  }
}
