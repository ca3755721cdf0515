/** The detector of runaway repetition in streamed responses (transoria/llm/client.py). */
module Repetition {
  import opened Lists
  import opened TextRules

  const WINDOW := 2048
  const MIN_SPAN := 512
  const MAX_UNIT := 32

  function Power(u: string, n: nat): (r: string)
    ensures |r| == n * |u|
  {
    if n == 0 then ""
    else
      assert n * |u| == |u| + (n - 1) * |u|;
      u + Power(u, n - 1)
  }

  predicate Ends(text: string, s: string) {
    |s| <= |text| && text[|text| - |s|..] == s
  }

  /** How often a unit is repeated to fill the minimal span. */
  function Needed(length: nat): nat
    requires length > 0
  {
    (MIN_SPAN + length - 1) / length
  }

  predicate HasAlnum(alnum: char -> bool, u: string) {
    exists i | 0 <= i < |u| :: alnum(u[i])
  }

  /** The text runs away with the unit `u`, and not because the prompt says the same. */
  predicate RunsAway(alnum: char -> bool, text: string, prompt: string, u: string) {
    && 0 < |u| <= MAX_UNIT && HasAlnum(alnum, u)
    && Ends(text, Power(u, Needed(|u|))) && !Mentions(prompt, Power(u, Needed(|u|)))
  }

  // ---- powers

  lemma {:induction false} PowerAdd(u: string, a: nat, b: nat)
    ensures Power(u, a + b) == Power(u, a) + Power(u, b)
  {
    if a == 0 {
      EmptyConcat(Power(u, b));
    } else {
      PowerAdd(u, a - 1, b);
      Assoc(u, Power(u, a - 1), Power(u, b));
    }
  }

  lemma PowerOne(u: string)
    ensures Power(u, 1) == u
  {
    assert Power(u, 0) == "" && u + "" == u;
  }

  lemma EndsPrefix(text: string, a: string, b: string)
    requires Ends(text, a + b)
    ensures Ends(text, b)
  {
    var k := |text| - |a + b|;
    assert text[k..][|a|..] == b;
    assert text[k..][|a|..] == text[k + |a|..];
  }

  /** A text that ends in a long run ends in each shorter one. */
  lemma EndsFewer(text: string, u: string, few: nat, many: nat)
    requires few <= many && Ends(text, Power(u, many))
    ensures Ends(text, Power(u, few))
  {
    PowerAdd(u, many - few, few);
    EndsPrefix(text, Power(u, many - few), Power(u, few));
  }

  lemma EndsOneMore(text: string, u: string, n: nat)
    requires Ends(text, Power(u, n)) && |text| >= n * |u| + |u|
    ensures var k := |text| - n * |u| - |u|;
            Ends(text, Power(u, n + 1)) <==> text[k..k + |u|] == u
  {
    var k := |text| - n * |u| - |u|;
    assert (n + 1) * |u| == n * |u| + |u|;
    assert text[k..] == text[k..k + |u|] + text[k + |u|..];
    assert Power(u, n + 1) == u + Power(u, n);
    if text[k..] == u + Power(u, n) { assert text[k..][..|u|] == u; }
  }

  lemma MulMono(a: nat, b: nat, l: nat)
    requires a <= b
    ensures a * l <= b * l
  {
    assert b * l == a * l + (b - a) * l;
  }

  lemma MulFacts(a: nat, l: nat)
    ensures a * l > 0 ==> a > 0 && l > 0 && l <= a * l
    ensures a >= 2 ==> a * l >= l + l
  {
    if a == 0 || l == 0 { assert a * l == 0; } else { MulMono(1, a, l); }
    if a >= 2 { MulMono(2, a, l); }
  }

  lemma NeededIsLeast(n: nat, l: nat)
    requires 0 < l <= MAX_UNIT
    ensures n * l >= MIN_SPAN <==> n >= Needed(l)
    ensures Needed(l) * l < MIN_SPAN + l
  {
    var k := Needed(l);
    assert k * l <= MIN_SPAN + l - 1 < k * l + l;
    if n >= k { MulMono(k, n, l); } else { MulMono(n, k - 1, l); assert (k - 1) * l == k * l - l; }
  }

  lemma EndsInWindow(text: string, s: string)
    requires |s| <= WINDOW
    ensures var tail := if |text| > WINDOW then text[|text| - WINDOW..] else text;
            Ends(text, s) <==> Ends(tail, s)
  {
    if |text| > WINDOW {
      var tail := text[|text| - WINDOW..];
      assert tail[|tail| - |s|..] == text[|text| - |s|..];
    }
  }

  // ---- the detector

  /** Counts the repetitions at the end of the text, with a cursor that moves back one unit at a time. */
  method CountRepetitions(tail: string, unit: string) returns (n: nat)
    requires unit != "" && Ends(tail, unit)
    ensures n >= 1
    ensures forall m: nat :: Ends(tail, Power(unit, m)) <==> m <= n
  {
    var l := |unit|;
    n := 1;
    PowerOne(unit);
    var cursor := |tail| - l * 2;
    while cursor >= 0 && tail[cursor..cursor + l] == unit
      invariant n >= 1 && Ends(tail, Power(unit, n)) && cursor == |tail| - n * l - l
      decreases cursor
    {
      EndsOneMore(tail, unit, n);
      assert (n + 1) * l == n * l + l;
      n := n + 1;
      cursor := cursor - l;
    }
    assert !Ends(tail, Power(unit, n + 1)) by {
      assert (n + 1) * l == n * l + l;
      if cursor >= 0 { EndsOneMore(tail, unit, n); }
    }
    forall m: nat ensures Ends(tail, Power(unit, m)) <==> m <= n {
      if m <= n { EndsFewer(tail, unit, m, n); }
      else if Ends(tail, Power(unit, m)) { EndsFewer(tail, unit, n + 1, m); }
    }
  }

  /** The unit of a given length, if there is one, is the text's own ending. */
  lemma UnitIsEnding(alnum: char -> bool, text: string, prompt: string, u: string)
    requires RunsAway(alnum, text, prompt, u)
    ensures |text| >= MIN_SPAN && u == text[|text| - |u|..]
  {
    NeededIsLeast(Needed(|u|), |u|);
    NeededIsLeast(1, |u|);
    EndsFewer(text, u, 1, Needed(|u|));
    PowerOne(u);
  }

  /** `_runaway_repetition_unit`: sound, complete and minimal. */
  method RunawayRepetitionUnit(alnum: char -> bool, text: string, prompt: string) returns (unit: string)
    ensures unit != "" ==> RunsAway(alnum, text, prompt, unit)
    ensures unit != "" ==> forall u :: RunsAway(alnum, text, prompt, u) ==> |unit| <= |u|
    ensures unit == "" ==> forall u :: !RunsAway(alnum, text, prompt, u)
  {
    if |text| < MIN_SPAN {
      forall u ensures !RunsAway(alnum, text, prompt, u) {
        if RunsAway(alnum, text, prompt, u) { UnitIsEnding(alnum, text, prompt, u); }
      }
      return "";
    }
    var tail := if |text| > WINDOW then text[|text| - WINDOW..] else text;
    var length := 1;
    while length <= MAX_UNIT
      invariant 1 <= length <= MAX_UNIT + 1
      invariant forall u :: RunsAway(alnum, text, prompt, u) ==> |u| >= length
    {
      unit := tail[|tail| - length..];
      assert unit == text[|text| - length..];
      var found := TestUnit(alnum, text, tail, prompt, unit);
      if found { return; }
      forall u | RunsAway(alnum, text, prompt, u) ensures |u| >= length + 1 {
        UnitIsEnding(alnum, text, prompt, u);
      }
      length := length + 1;
    }
    return "";
  }

  /** One round of the detector's loop. */
  method TestUnit(alnum: char -> bool, text: string, tail: string, prompt: string, unit: string) returns (found: bool)
    requires 0 < |unit| <= MAX_UNIT && Ends(tail, unit)
    requires tail == if |text| > WINDOW then text[|text| - WINDOW..] else text
    ensures found <==> RunsAway(alnum, text, prompt, unit)
  {
    if !HasAlnum(alnum, unit) { return false; }
    var repetitions := CountRepetitions(tail, unit);
    NeededIsLeast(repetitions, |unit|);
    EndsInWindow(text, Power(unit, Needed(|unit|)));
    if repetitions * |unit| < MIN_SPAN { return false; }
    return !Mentions(prompt, Power(unit, Needed(|unit|)));
  }

  // ---- primitive units

  lemma {:induction false} PowerOfPower(v: string, k: nat, n: nat)
    ensures Power(Power(v, k), n) == Power(v, k * n)
  {
    if n > 0 {
      PowerOfPower(v, k, n - 1);
      assert k * n == k + k * (n - 1);
      PowerAdd(v, k, k * (n - 1));
    }
  }

  lemma {:induction false} PowerAlnum(alnum: char -> bool, v: string, k: nat)
    requires HasAlnum(alnum, Power(v, k))
    ensures HasAlnum(alnum, v)
  {
    if k > 0 {
      var u := Power(v, k);
      var i :| 0 <= i < |u| && alnum(u[i]);
      if i < |v| {
        assert u[i] == v[i];
      } else {
        assert u[i] == Power(v, k - 1)[i - |v|];
        PowerAlnum(alnum, v, k - 1);
      }
    }
  }

  /** A text that ends in a run of `v^k` ends in a long enough run of `v`. */
  lemma RootEnds(text: string, v: string, k: nat)
    requires 0 < |v| <= MAX_UNIT && 0 < |Power(v, k)| <= MAX_UNIT
    requires Ends(text, Power(Power(v, k), Needed(|Power(v, k)|)))
    ensures Ends(text, Power(v, Needed(|v|)))
  {
    var u := Power(v, k);
    var n := Needed(|u|);
    PowerOfPower(v, k, n);
    NeededIsLeast(n, |u|);
    assert |Power(v, k * n)| == n * |u|;
    NeededIsLeast(k * n, |v|);
    EndsFewer(text, v, Needed(|v|), k * n);
  }

  lemma NotInEmpty(v: string)
    requires 0 < |v| <= MAX_UNIT
    ensures !Mentions("", Power(v, Needed(|v|)))
  {
    NeededIsLeast(Needed(|v|), |v|);
  }

  /** With an empty prompt the root of a runaway unit runs away too, so the shortest is not a power. */
  lemma ShortestIsPrimitive(alnum: char -> bool, text: string, u: string, v: string, k: nat)
    requires RunsAway(alnum, text, "", u) && forall w :: RunsAway(alnum, text, "", w) ==> |u| <= |w|
    requires u == Power(v, k)
    ensures k == 1
  {
    MulFacts(k, |v|);
    RootEnds(text, v, k);
    NotInEmpty(v);
    PowerAlnum(alnum, v, k);
    assert RunsAway(alnum, text, "", v);
  }
}
