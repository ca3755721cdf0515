/** Write-back of one translated unit into a parsed document (transoria/formats/epub_writer.py).

    A unit is the list of text positions that the parser extracted together. `Replaced` is what
    `_replace_text_slots` leaves in the document; `Document.ReplaceTextSlots` computes it with the
    source's loops and in-place updates. */
module EpubWriter {
  import opened TextRules
  import opened XmlTree

  const INLINE_TAGS: set<string> := {"span", "em", "i", "strong", "b", "font"}
  const RICH_TAGS: set<string> :=
    {"a", "sup", "sub", "ruby", "img", "svg", "code", "pre", "script", "style"}

  // ---- splitting off a drop-cap initial

  function SpacePrefix(ch: Chars, s: string): nat {
    if s != "" && ch.isRegexSpace(s[0]) then 1 + SpacePrefix(ch, s[1..]) else 0
  }

  function OpenerPrefix(ch: Chars, s: string): nat {
    if s != "" && ch.isOpener(s[0]) then 1 + OpenerPrefix(ch, s[1..]) else 0
  }

  lemma PrefixBounds(ch: Chars, s: string)
    ensures SpacePrefix(ch, s) <= |s| && OpenerPrefix(ch, s) <= |s|
  {
  }

  datatype Pieces = Pieces(leading: string, initial: string, rest: string)

  function Cut(text: string, i: nat, j: nat): (p: Pieces)
    requires i <= j <= |text|
    ensures p.leading + p.initial + p.rest == text
  {
    assert text[..i] + text[i..j] == text[..j];
    Pieces(text[..i], text[i..j], text[j..])
  }

  /** White space, then opening quotes and one grapheme, then the rest. The pattern is greedy and gives
      characters back (openers first) until one is left for the grapheme. */
  function SplitInitial(ch: Chars, text: string): (p: Pieces)
    ensures p.leading + p.initial + p.rest == text
    ensures Blank(ch, p.leading)
  {
    if text == "" then Pieces(text, "", "") else
    SpacePrefixSpaces(ch, text);
    var spaces := SpacePrefix(ch, text);
    PrefixBounds(ch, text[spaces..]);
    var openers := OpenerPrefix(ch, text[spaces..]);
    if spaces + openers < |text| then
      Cut(text, spaces, spaces + openers + ch.grapheme(text[spaces + openers..]))
    else if openers > 0 then
      Cut(text, spaces, |text|)
    else
      Cut(text, spaces - 1, |text|)
  }

  lemma {:induction false} SpacePrefixSpaces(ch: Chars, s: string)
    ensures SpacePrefix(ch, s) <= |s| && forall i :: 0 <= i < SpacePrefix(ch, s) ==> ch.isSpace(s[i])
  {
    if s != "" && ch.isRegexSpace(s[0]) {
      SpacePrefixSpaces(ch, s[1..]);
      assert forall i :: 0 < i < SpacePrefix(ch, s) ==> s[i] == s[1..][i - 1];
    }
  }

  // ---- what the pattern matches

  /** White space up to `i`, then openers up to `j`, and something for the grapheme. */
  predicate Matching(ch: Chars, text: string, i: nat, j: nat) {
    && i <= j < |text|
    && (forall k :: 0 <= k < i ==> ch.isRegexSpace(text[k]))
    && forall k :: i <= k < j ==> ch.isOpener(text[k])
  }

  /** The match that a greedy pattern prefers: as much white space as possible, then as many openers. */
  ghost predicate Preferred(ch: Chars, text: string, i: nat, j: nat) {
    Matching(ch, text, i, j) && forall a: nat, b: nat :: Matching(ch, text, a, b) ==> a < i || (a == i && b <= j)
  }

  /** The pieces are the white space, the openers with exactly one grapheme, and the rest. */
  predicate CutAt(ch: Chars, text: string, i: nat, j: nat, p: Pieces)
    requires i <= j < |text|
  {
    var end := j + ch.grapheme(text[j..]);
    p == Pieces(text[..i], text[i..end], text[end..])
  }

  /** `p` is what the pattern makes of the text. */
  ghost predicate IsLead(ch: Chars, text: string, p: Pieces) {
    if text == "" then p == Pieces("", "", "") else exists i: nat, j: nat :: Preferred(ch, text, i, j) && CutAt(ch, text, i, j, p)
  }

  lemma {:induction false} SpaceRun(ch: Chars, s: string, i: nat)
    requires i <= |s|
    ensures SpacePrefix(ch, s) <= |s|
    ensures i <= SpacePrefix(ch, s) <==> forall k :: 0 <= k < i ==> ch.isRegexSpace(s[k])
  {
    if s != "" && ch.isRegexSpace(s[0]) {
      SpaceRun(ch, s[1..], if i > 0 then i - 1 else 0);
      assert forall k :: 0 < k < i ==> s[k] == s[1..][k - 1];
      assert forall k :: 0 <= k < i - 1 ==> s[1..][k] == s[k + 1];
    }
  }

  lemma {:induction false} OpenerRun(ch: Chars, s: string, i: nat)
    requires i <= |s|
    ensures OpenerPrefix(ch, s) <= |s|
    ensures i <= OpenerPrefix(ch, s) <==> forall k :: 0 <= k < i ==> ch.isOpener(s[k])
  {
    if s != "" && ch.isOpener(s[0]) {
      OpenerRun(ch, s[1..], if i > 0 then i - 1 else 0);
      assert forall k :: 0 < k < i ==> s[k] == s[1..][k - 1];
      assert forall k :: 0 <= k < i - 1 ==> s[1..][k] == s[k + 1];
    }
  }

  /** What matches, by the lengths of the runs. */
  lemma MatchingRuns(ch: Chars, text: string, i: nat, j: nat)
    requires i <= j < |text|
    ensures Matching(ch, text, i, j) <==> i <= SpacePrefix(ch, text) && j - i <= OpenerPrefix(ch, text[i..])
  {
    SpaceRun(ch, text, i);
    OpenerRun(ch, text[i..], j - i);
    assert forall k :: i <= k < j ==> text[k] == text[i..][k - i];
    assert forall k :: 0 <= k < j - i ==> text[i..][k] == text[i + k];
  }

  lemma PreferredIs(ch: Chars, text: string, i: nat, j: nat)
    requires i <= j < |text| && i <= SpacePrefix(ch, text) && j - i <= OpenerPrefix(ch, text[i..])
    requires i == SpacePrefix(ch, text) || i == |text| - 1
    requires j - i == OpenerPrefix(ch, text[i..]) || j == |text| - 1
    ensures Preferred(ch, text, i, j)
  {
    MatchingRuns(ch, text, i, j);
    forall a: nat, b: nat | Matching(ch, text, a, b) ensures a < i || (a == i && b <= j) { MatchingRuns(ch, text, a, b); }
  }

  lemma LastGrapheme(ch: Chars, text: string)
    requires text != ""
    ensures ch.grapheme(text[|text| - 1..]) == 1
  {
    assert |text[|text| - 1..]| == 1;
  }

  /** Something follows the white space and the openers. */
  lemma OrdinaryLead(ch: Chars, text: string)
    requires var spaces := SpacePrefix(ch, text);
             spaces <= |text| && spaces + OpenerPrefix(ch, text[spaces..]) < |text|
    ensures var spaces := SpacePrefix(ch, text); Preferred(ch, text, spaces, spaces + OpenerPrefix(ch, text[spaces..]))
  {
    PreferredIs(ch, text, SpacePrefix(ch, text), SpacePrefix(ch, text) + OpenerPrefix(ch, text[SpacePrefix(ch, text)..]));
  }

  /** The text ends with the openers, the last of which is given back, or with the white space. */
  lemma EndingLead(ch: Chars, text: string)
    requires var spaces := SpacePrefix(ch, text);
             spaces <= |text| && text != "" && spaces + OpenerPrefix(ch, text[spaces..]) == |text|
    ensures var spaces := SpacePrefix(ch, text);
            Preferred(ch, text, if spaces < |text| then spaces else spaces - 1, |text| - 1)
  {
    var spaces := SpacePrefix(ch, text);
    var i, j := if spaces < |text| then spaces else spaces - 1, |text| - 1;
    OpenerRun(ch, text[i..], 0);
    PreferredIs(ch, text, i, j);
  }

  /** `_split_initial` does what its pattern says. */
  lemma SplitIsLead(ch: Chars, text: string)
    ensures IsLead(ch, text, SplitInitial(ch, text))
  {
    if text != "" {
      SpaceRun(ch, text, 0);
      var spaces := SpacePrefix(ch, text);
      PrefixBounds(ch, text[spaces..]);
      var openers := OpenerPrefix(ch, text[spaces..]);
      if spaces + openers < |text| {
        OrdinaryLead(ch, text);
        assert CutAt(ch, text, spaces, spaces + openers, SplitInitial(ch, text));
      } else {
        EndingLead(ch, text);
        LastGrapheme(ch, text);
        assert CutAt(ch, text, if spaces < |text| then spaces else spaces - 1, |text| - 1, SplitInitial(ch, text));
      }
    }
  }

  /** There is but one way to split. */
  lemma LeadIsUnique(ch: Chars, text: string, p: Pieces, q: Pieces)
    requires IsLead(ch, text, p) && IsLead(ch, text, q)
    ensures p == q
  {
    if text != "" {
      var i: nat, j: nat :| Preferred(ch, text, i, j) && CutAt(ch, text, i, j, p);
      var a: nat, b: nat :| Preferred(ch, text, a, b) && CutAt(ch, text, a, b, q);
      assert a == i && b == j;
    }
  }

  /** `_INITIAL_PATTERN.fullmatch`: opening quotes and then exactly one grapheme. */
  predicate IsInitial(ch: Chars, s: string) {
    exists k | 0 <= k < |s| ::
      (forall i :: 0 <= i < k ==> ch.isOpener(s[i])) && ch.grapheme(s[k..]) == |s| - k
  }

  // ---- the common container and the drop-cap scope

  function CommonPrefix(a: Addr, b: Addr): Addr {
    if a == [] || b == [] || a[0] != b[0] then [] else [a[0]] + CommonPrefix(a[1..], b[1..])
  }

  lemma {:induction false} CommonPrefixIsGreatest(a: Addr, b: Addr, x: Addr)
    ensures CommonPrefix(a, b) <= a && CommonPrefix(a, b) <= b
    ensures x <= a && x <= b ==> x <= CommonPrefix(a, b)
  {
    if a != [] && b != [] && a[0] == b[0] {
      CommonPrefixIsGreatest(a[1..], b[1..], if x == [] then [] else x[1..]);
      var c := CommonPrefix(a[1..], b[1..]);
      assert a == [a[0]] + a[1..] && b == [b[0]] + b[1..];
      if x != [] && x <= a { assert x == [a[0]] + x[1..]; }
    }
  }

  /** The deepest element that contains every owner. */
  function CommonOf(resolved: seq<Slot>): Addr
    requires resolved != []
  {
    if |resolved| == 1 then Owner(resolved[0])
    else CommonPrefix(CommonOf(resolved[..|resolved| - 1]), Owner(resolved[|resolved| - 1]))
  }

  ghost predicate ContainsAll(x: Addr, resolved: seq<Slot>) {
    forall i :: 0 <= i < |resolved| ==> x <= Owner(resolved[i])
  }

  lemma PrefixTrans(a: Addr, b: Addr, c: Addr)
    requires a <= b && b <= c
    ensures a <= c
  {
    assert forall i :: 0 <= i < |a| ==> a[i] == b[i] == c[i];
  }

  lemma ContainsMore(x: Addr, init: seq<Slot>, s: Slot)
    ensures ContainsAll(x, init + [s]) <==> ContainsAll(x, init) && x <= Owner(s)
  {
    var all := init + [s];
    assert forall i :: 0 <= i < |init| ==> all[i] == init[i];
    assert all[|init|] == s;
  }

  lemma ContainsDown(x: Addr, y: Addr, resolved: seq<Slot>)
    requires x <= y && ContainsAll(y, resolved)
    ensures ContainsAll(x, resolved)
  {
    forall i | 0 <= i < |resolved| ensures x <= Owner(resolved[i]) { PrefixTrans(x, y, Owner(resolved[i])); }
  }

  lemma {:induction false} CommonIsGreatest(resolved: seq<Slot>, x: Addr)
    requires resolved != []
    ensures ContainsAll(CommonOf(resolved), resolved)
    ensures ContainsAll(x, resolved) ==> x <= CommonOf(resolved)
  {
    if |resolved| > 1 {
      var init, last := resolved[..|resolved| - 1], resolved[|resolved| - 1];
      var c := CommonOf(init);
      CommonIsGreatest(init, x);
      CommonPrefixIsGreatest(c, Owner(last), x);
      ContainsDown(CommonPrefix(c, Owner(last)), c, init);
      assert resolved == init + [last];
      ContainsMore(CommonPrefix(c, Owner(last)), init, last);
      ContainsMore(x, init, last);
    }
  }

  predicate ValidSlot(root: Tree, s: Slot) {
    ValidAddr(root, s.at) && if s.Text? then At(root, s.at).Element? else s.at != []
  }

  predicate ValidSlots(root: Tree, resolved: seq<Slot>) {
    forall i :: 0 <= i < |resolved| ==> ValidSlot(root, resolved[i])
  }

  /** The slots, from index `i` on, whose owner is `node` or lies below it. */
  function ScopeIndices(resolved: seq<Slot>, node: Addr, i: nat := 0): (r: seq<nat>)
    requires i <= |resolved|
    ensures forall k :: k in r <==> i <= k < |resolved| && node <= Owner(resolved[k])
    ensures forall k :: 0 <= k < |r| ==> i <= r[k] < |resolved|
    decreases |resolved| - i
  {
    if i == |resolved| then []
    else (if node <= Owner(resolved[i]) then [i] else []) + ScopeIndices(resolved, node, i + 1)
  }

  function JoinAt(texts: seq<string>, indices: seq<nat>): string
    requires forall k :: 0 <= k < |indices| ==> indices[k] < |texts|
  {
    if indices == [] then "" else texts[indices[0]] + JoinAt(texts, indices[1..])
  }

  function ScopeText(ch: Chars, resolved: seq<Slot>, current: seq<string>, node: Addr): string
    requires |current| == |resolved|
  {
    Strip(ch, JoinAt(current, ScopeIndices(resolved, node)))
  }

  function FirstText(ch: Chars, texts: seq<string>, from: nat): (i: nat)
    requires from <= |texts|
    ensures from <= i <= |texts|
    ensures forall k :: from <= k < i ==> Blank(ch, texts[k])
    ensures i < |texts| ==> !Blank(ch, texts[i])
    decreases |texts| - from
  {
    if from < |texts| && Blank(ch, texts[from]) then FirstText(ch, texts, from + 1) else from
  }

  predicate InlineParent(root: Tree, a: Addr)
    requires ValidAddr(root, a)
  {
    a != [] && ValidAddr(root, Parent(a)) && At(root, Parent(a)).Element? && At(root, Parent(a)).name in INLINE_TAGS
  }

  /** The widest run of inline ancestors whose text is still just the initial. */
  function WidenInitial(ch: Chars, root: Tree, resolved: seq<Slot>, current: seq<string>, carrier: Addr): (wide: Addr)
    requires |current| == |resolved| && ValidAddr(root, carrier)
    ensures wide <= carrier && ValidAddr(root, wide)
    decreases |carrier|
  {
    if InlineParent(root, carrier) && IsInitial(ch, ScopeText(ch, resolved, current, Parent(carrier)))
    then WidenInitial(ch, root, resolved, current, Parent(carrier))
    else carrier
  }

  predicate HasTag(t: Tree, names: set<string>) {
    t.Element? && (t.name in names || exists i | 0 <= i < |t.kids| :: HasTag(t.kids[i], names))
  }

  predicate KidHasText(ch: Chars, kid: Tree, at: Addr, c: Content) {
    kid.Element? && (!Blank(ch, TextOf(Walk(kid, at, {}), c)) || !Blank(ch, Get(c, Tail(at))))
  }

  /** Some text precedes the carrier inside its parent. A comment's tail is not looked at. */
  predicate TextBefore(ch: Chars, root: Tree, c: Content, carrier: Addr)
    requires carrier != [] && ValidAddr(root, carrier) && ValidAddr(root, Parent(carrier))
  {
    var parent := Parent(carrier);
    var kids := if At(root, parent).Element? then At(root, parent).kids else [];
    !Blank(ch, Get(c, Text(parent))) ||
    exists i | 0 <= i < carrier[|carrier| - 1] && i < |kids| :: KidHasText(ch, kids[i], parent + [i], c)
  }

  datatype Scope = Scope(carrier: Addr, indices: seq<nat>)

  /** A carrier with some of the slots inside it and some outside. */
  ghost predicate Splits(resolved: seq<Slot>, scope: Option<Scope>) {
    scope.Some? ==>
      && scope.value.carrier != []
      && scope.value.indices == ScopeIndices(resolved, scope.value.carrier) != []
      && exists i :: 0 <= i < |resolved| && i !in scope.value.indices
  }

  lemma ValidParent(root: Tree, a: Addr)
    requires a != [] && ValidAddr(root, a)
    ensures ValidAddr(root, Parent(a)) && At(root, Parent(a)).Element?
    ensures a[|a| - 1] < |At(root, Parent(a)).kids|
  {
    var last := a[|a| - 1];
    assert a == Parent(a) + [last];
    AtAppend(root, Parent(a), [last]);
  }

  /** The inline element holding the first text, when that text is just an initial. */
  function InitialStart(ch: Chars, root: Tree, resolved: seq<Slot>, current: seq<string>): (r: Option<Addr>)
    requires |current| == |resolved| && ValidSlots(root, resolved)
    ensures r.Some? ==> ValidAddr(root, r.value)
                        && exists i :: 0 <= i < |resolved| && r.value <= Owner(resolved[i])
  {
    var first := FirstText(ch, current, 0);
    if first == |current| || resolved[first].Tail? then None else
    var start := resolved[first].at;
    if At(root, start).name !in INLINE_TAGS then None else
    var prefix := ScopeText(ch, resolved, current, start);
    if !IsInitial(ch, prefix) || !(exists i | 0 <= i < |prefix| :: ch.isAlpha(prefix[i])) then None else
    assert start <= Owner(resolved[first]);
    Some(start)
  }

  predicate TextOutside(ch: Chars, current: seq<string>, indices: seq<nat>) {
    exists i | 0 <= i < |current| :: i !in indices && !Blank(ch, current[i])
  }

  /** The inline element that holds an initial, with the slots inside it; other slots hold text too. */
  function ScopeCandidate(ch: Chars, root: Tree, resolved: seq<Slot>, current: seq<string>): (r: Option<Scope>)
    requires |current| == |resolved| && ValidSlots(root, resolved)
    ensures Splits(resolved, r)
    ensures r.Some? ==> r.value.carrier != [] && ValidAddr(root, r.value.carrier) && ValidAddr(root, Parent(r.value.carrier))
  {
    var start := InitialStart(ch, root, resolved, current);
    if start.None? then None else
    var carrier := WidenInitial(ch, root, resolved, current, start.value);
    var indices := ScopeIndices(resolved, carrier);
    if HasTag(At(root, carrier), RICH_TAGS) || !TextOutside(ch, current, indices) then None else
    ScopeSplits(resolved, start.value, carrier);
    ValidParent(root, carrier);
    Some(Scope(carrier, indices))
  }

  /** Nothing may precede the initial inside its parent. */
  function AtStart(ch: Chars, root: Tree, c: Content, candidate: Option<Scope>): (r: Option<Scope>)
    requires candidate.Some? ==> candidate.value.carrier != [] && ValidAddr(root, candidate.value.carrier)
                                 && ValidAddr(root, Parent(candidate.value.carrier))
    ensures r == candidate || r.None?
  {
    if candidate.None? || TextBefore(ch, root, c, candidate.value.carrier) then None else candidate
  }

  /** `_initial_scope`. */
  function InitialScope(ch: Chars, root: Tree, c: Content, resolved: seq<Slot>, current: seq<string>): (r: Option<Scope>)
    requires |current| == |resolved| && ValidSlots(root, resolved)
    ensures Splits(resolved, r)
  {
    var candidate := ScopeCandidate(ch, root, resolved, current);
    assert Splits(resolved, candidate);
    AtStart(ch, root, c, candidate)
  }

  lemma ScopeSplits(resolved: seq<Slot>, start: Addr, carrier: Addr)
    requires carrier <= start && exists i :: 0 <= i < |resolved| && start <= Owner(resolved[i])
    requires exists i :: 0 <= i < |resolved| && i !in ScopeIndices(resolved, carrier)
    ensures carrier != [] && ScopeIndices(resolved, carrier) != []
  {
    var i :| 0 <= i < |resolved| && start <= Owner(resolved[i]);
    assert i in ScopeIndices(resolved, carrier);
  }

  // ---- replacing the text of a unit

  function SetAll(c: Content, slots: seq<Slot>, texts: seq<string>): Content
    requires |slots| == |texts|
    decreases |slots|
  {
    if slots == [] then c else SetAll(c[slots[0] := texts[0]], slots[1..], texts[1..])
  }

  function Blanks(n: nat): seq<string> {
    seq(n, _ => "")
  }

  function SlotsAt(resolved: seq<Slot>, indices: seq<nat>): seq<Slot>
    requires forall k :: 0 <= k < |indices| ==> indices[k] < |resolved|
  {
    seq(|indices|, k requires 0 <= k < |indices| => resolved[indices[k]])
  }

  function AppendText(c: Content, s: Slot, text: string): Content {
    c[s := Get(c, s) + text]
  }

  /** The initial goes into the first slot of its element, the white space before it in front of
      `carrier`, and what follows it right behind `carrier`. */
  function PlaceInitial(c: Content, inside: seq<Slot>, carrier: Addr, p: Pieces): Content
    requires inside != [] && carrier != []
  {
    var cleared := SetAll(c, inside, Blanks(|inside|));
    var placed := AppendText(cleared[inside[0] := p.initial], Before(carrier), p.leading);
    placed[Tail(carrier) := p.rest + Get(placed, Tail(carrier))]
  }

  lemma CarrierBelowCommon(resolved: seq<Slot>, carrier: Addr)
    requires resolved != [] && ScopeIndices(resolved, carrier) != []
    requires exists i :: 0 <= i < |resolved| && i !in ScopeIndices(resolved, carrier)
    ensures CommonOf(resolved) <= carrier && CommonOf(resolved) != carrier
  {
    var common := CommonOf(resolved);
    CommonIsGreatest(resolved, []);
    var k := ScopeIndices(resolved, carrier)[0];
    assert k in ScopeIndices(resolved, carrier);
    var owner := Owner(resolved[k]);
    assert carrier <= owner && common <= owner;
    var i :| 0 <= i < |resolved| && i !in ScopeIndices(resolved, carrier);
    var outside := Owner(resolved[i]);
    if |carrier| <= |common| {
      assert carrier <= common;
      PrefixTrans(carrier, common, outside);
    }
  }

  /** The ancestor-or-self of `a` that is a child of `common`. */
  function ChildOf(common: Addr, a: Addr): (top: Addr)
    requires common <= a && common != a
    ensures top != [] && Parent(top) == common && top <= a
  {
    a[..|common| + 1]
  }

  /** The donor line: the first line after the initial's own, empty, lines that has text. */
  function Donor(ch: Chars, lines: seq<string>, indices: seq<nat>): (d: nat)
    requires indices != [] && forall k :: 0 <= k < |indices| ==> indices[k] < |lines|
    ensures d <= |lines|
  {
    if Blank(ch, JoinAt(lines, indices)) then FirstText(ch, lines, indices[|indices| - 1] + 1) else |lines|
  }

  /** The text from which the initial is cut: the carrier's own lines or, if they are blank, the first
      piece of the donor line. */
  function InitialSource(ch: Chars, lines: seq<string>, indices: seq<nat>): string
    requires indices != [] && forall k :: 0 <= k < |indices| ==> indices[k] < |lines|
  {
    var donor := Donor(ch, lines, indices);
    if donor < |lines| then SplitInitial(ch, lines[donor]).initial else JoinAt(lines, indices)
  }

  /** Every slot holds its line, except that a donor line has given up its initial. */
  function Filled(ch: Chars, c: Content, resolved: seq<Slot>, lines: seq<string>, indices: seq<nat>): Content
    requires |lines| == |resolved| && indices != [] && forall k :: 0 <= k < |indices| ==> indices[k] < |lines|
  {
    var filled, donor := SetAll(c, resolved, lines), Donor(ch, lines, indices);
    if donor == |lines| then filled
    else
      var p := SplitInitial(ch, lines[donor]);
      filled[resolved[donor] := p.leading + p.rest]
  }

  /** One line per slot; the initial is moved to its carrier. */
  function Matched(ch: Chars, c: Content, resolved: seq<Slot>, lines: seq<string>, scope: Option<Scope>): Content
    requires |lines| == |resolved| && Splits(resolved, scope)
  {
    if scope.None? then SetAll(c, resolved, lines) else
    var Scope(carrier, indices) := scope.value;
    PlaceInitial(Filled(ch, c, resolved, lines, indices), SlotsAt(resolved, indices), carrier,
                 SplitInitial(ch, InitialSource(ch, lines, indices)))
  }

  /** Lost line boundaries: the whole text goes into the shared container, the initial into its carrier. */
  function Unmatched(ch: Chars, c: Content, resolved: seq<Slot>, translation: string, scope: Option<Scope>): Content
    requires resolved != [] && Splits(resolved, scope)
  {
    var cleared := SetAll(c, resolved, Blanks(|resolved|));
    if scope.Some? then BesideInitial(ch, cleared, resolved, translation, scope.value) else InFront(cleared, resolved, translation)
  }

  /** The initial goes back to the top of its carrier, what is left around the carrier. */
  function BesideInitial(ch: Chars, cleared: Content, resolved: seq<Slot>, translation: string, scope: Scope): Content
    requires resolved != [] && Splits(resolved, Some(scope))
  {
    CarrierBelowCommon(resolved, scope.carrier);
    PlaceInitial(cleared, SlotsAt(resolved, scope.indices), ChildOf(CommonOf(resolved), scope.carrier),
                 SplitInitial(ch, translation))
  }

  /** The text goes where the first slot is, or in front of the element that holds it. */
  function InFront(cleared: Content, resolved: seq<Slot>, translation: string): Content
    requires resolved != []
  {
    CommonIsGreatest(resolved, []);
    var common, owner := CommonOf(resolved), Owner(resolved[0]);
    if owner == common then cleared[resolved[0] := translation]
    else AppendText(cleared, Before(ChildOf(common, owner)), translation)
  }

  /** `_replace_text_slots`. */
  function Replaced(ch: Chars, root: Tree, c: Content, resolved: seq<Slot>, current: seq<string>,
                    lines: seq<string>, translation: string): Content
    requires |current| == |resolved| && ValidSlots(root, resolved)
  {
    var scope := InitialScope(ch, root, c, resolved, current);
    if resolved == [] then c
    else if |lines| == |resolved| then Matched(ch, c, resolved, lines, scope)
    else Unmatched(ch, c, resolved, translation, scope)
  }
}
