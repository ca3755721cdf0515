/** Removing the reading aids of a translated ruby element (transoria/formats/epub_writer.py). This changes the
    structure of the document, so it works on trees that carry their texts. */
module EpubRuby {
  import opened EpubParser
  import opened Lists
  import opened XmlTree

  const ANNOTATIONS: set<string> := {"rt", "rp"}

  datatype Node = Node(name: string, text: string, kids: seq<Kid>) | Comment
  datatype Kid = Kid(node: Node, tail: string)

  /** The subtree of a document with its texts. */
  function Build(t: Tree, at: Addr, c: Content): Node
    decreases t, 1, 0
  {
    if t.Element? then Node(t.name, Get(c, Text(at)), BuildKids(t, at, 0, c)) else Comment
  }

  function BuildKids(t: Tree, at: Addr, i: nat, c: Content): seq<Kid>
    requires t.Element? && i <= |t.kids|
    decreases t, 0, |t.kids| - i
  {
    if i == |t.kids| then []
    else [Kid(Build(t.kids[i], at + [i], c), Get(c, Tail(at + [i])))] + BuildKids(t, at, i + 1, c)
  }

  predicate IsAnnotation(n: Node) {
    n.Node? && n.name in ANNOTATIONS
  }

  /** `"".join(itertext())`. */
  function ReadNode(n: Node): string {
    if n.Comment? then "" else n.text + ReadKids(n.kids)
  }

  function ReadKids(kids: seq<Kid>): string {
    if kids == [] then "" else ReadNode(kids[0].node) + kids[0].tail + ReadKids(kids[1..])
  }

  predicate Annotated(n: Node) {
    n.Node? && exists k | 0 <= k < |n.kids| :: IsAnnotation(n.kids[k].node) || Annotated(n.kids[k].node)
  }

  /** What the children become, behind a text: an annotation leaves its tail to whatever precedes it. */
  function Stripped(text: string, kids: seq<Kid>): (string, seq<Kid>)
    decreases kids
  {
    if kids == [] then (text, []) else
    var last := kids[|kids| - 1];
    var (t, kept) := Stripped(text, kids[..|kids| - 1]);
    if !IsAnnotation(last.node) then (t, kept + [Kid(Clean(last.node), last.tail)])
    else if kept == [] then (t + last.tail, [])
    else (t, kept[|kept| - 1 := Kid(kept[|kept| - 1].node, kept[|kept| - 1].tail + last.tail)])
  }

  /** The node without annotations below it. */
  function Clean(n: Node): Node {
    if n.Comment? then n
    else
      var (text, kids) := Stripped(n.text, n.kids);
      Node(n.name, text, kids)
  }

  /** `_remove_ruby_annotations`: each annotation hands its tail to the previous sibling, or to the parent's
      text, and is removed. */
  method RemoveAnnotations(n: Node) returns (r: Node)
    ensures r == Clean(n)
    decreases n
  {
    if n.Comment? { return n; }
    var text, kept: seq<Kid> := n.text, [];
    var i := 0;
    while i < |n.kids|
      invariant 0 <= i <= |n.kids|
      invariant Stripped(n.text, n.kids[..i]) == (text, kept)
    {
      var kid := n.kids[i];
      assert n.kids[..i + 1][..i] == n.kids[..i];
      if IsAnnotation(kid.node) {
        if kept == [] {
          text := text + kid.tail;
        } else {
          var previous := kept[|kept| - 1];
          kept := kept[|kept| - 1 := Kid(previous.node, previous.tail + kid.tail)];
        }
      } else {
        var cleaned := RemoveAnnotations(kid.node);
        kept := kept + [Kid(cleaned, kid.tail)];
      }
      i := i + 1;
    }
    assert n.kids[..i] == n.kids;
    r := Node(n.name, text, kept);
  }

  // ---- what is read afterwards

  /** The text outside annotations. */
  function Outside(n: Node): string {
    if n.Comment? then "" else n.text + OutsideKids(n.kids)
  }

  function OutsideKids(kids: seq<Kid>): string {
    if kids == [] then ""
    else OutsideKids(kids[..|kids| - 1]) +
         ((if IsAnnotation(kids[|kids| - 1].node) then "" else Outside(kids[|kids| - 1].node)) + kids[|kids| - 1].tail)
  }

  lemma {:induction false} ReadKidsAppend(a: seq<Kid>, b: seq<Kid>)
    ensures ReadKids(a + b) == ReadKids(a) + ReadKids(b)
  {
    if a == [] {
      EmptyConcat(b);
      EmptyConcat(ReadKids(b));
    } else {
      TailOfConcat(a, b);
      ReadKidsAppend(a[1..], b);
      Assoc(ReadNode(a[0].node) + a[0].tail, ReadKids(a[1..]), ReadKids(b));
    }
  }

  lemma ReadOne(k: Kid)
    ensures ReadKids([k]) == ReadNode(k.node) + k.tail
  {
    assert ReadKids([k][1..]) == "" && ReadNode(k.node) + k.tail + "" == ReadNode(k.node) + k.tail;
  }

  /** A longer tail on the last kid is read at the end. */
  lemma LongerTail(kept: seq<Kid>, tail: string)
    requires kept != []
    ensures var last := kept[|kept| - 1];
            ReadKids(kept[|kept| - 1 := Kid(last.node, last.tail + tail)]) == ReadKids(kept) + tail
  {
    var init, last := kept[..|kept| - 1], kept[|kept| - 1];
    var more := Kid(last.node, last.tail + tail);
    assert kept == init + [last] && kept[|kept| - 1 := more] == init + [more];
    ReadKidsAppend(init, [last]);
    ReadKidsAppend(init, [more]);
    ReadOne(last);
    ReadOne(more);
    Assoc(ReadNode(last.node), last.tail, tail);
    Assoc(ReadKids(init), ReadNode(last.node) + last.tail, tail);
  }

  lemma {:induction false} StrippedReads(text: string, kids: seq<Kid>)
    ensures var (t, kept) := Stripped(text, kids); t + ReadKids(kept) == text + OutsideKids(kids)
    decreases kids
  {
    if kids == [] {
    } else {
      var before, last := kids[..|kids| - 1], kids[|kids| - 1];
      var (t, kept) := Stripped(text, before);
      StrippedReads(text, before);
      if IsAnnotation(last.node) {
        EmptyConcat(last.tail);
        Assoc(text, OutsideKids(before), last.tail);
        if kept == [] {
          assert t + ReadKids([]) == t && (t + last.tail) + "" == t + last.tail;
        } else {
          LongerTail(kept, last.tail);
          Assoc(t, ReadKids(kept), last.tail);
        }
      } else {
        CleanReads(last.node);
        var k := Kid(Clean(last.node), last.tail);
        ReadKidsAppend(kept, [k]);
        ReadOne(k);
        Assoc(text, OutsideKids(before), Outside(last.node) + last.tail);
        Assoc(t, ReadKids(kept), Outside(last.node) + last.tail);
      }
    }
  }

  /** The element reads what it read outside its annotations, in order and complete. */
  lemma {:induction false} CleanReads(n: Node)
    ensures ReadNode(Clean(n)) == Outside(n)
    decreases n
  {
    if n.Node? { StrippedReads(n.text, n.kids); }
  }

  ghost predicate NoneIn(kids: seq<Kid>) {
    forall k :: 0 <= k < |kids| ==> !IsAnnotation(kids[k].node) && !Annotated(kids[k].node)
  }

  lemma {:induction false} StrippedClean(text: string, kids: seq<Kid>)
    ensures NoneIn(Stripped(text, kids).1)
    decreases kids
  {
    if kids != [] {
      StrippedClean(text, kids[..|kids| - 1]);
      if !IsAnnotation(kids[|kids| - 1].node) { CleanIsClean(kids[|kids| - 1].node); }
    }
  }

  /** No annotation is left, at any depth. */
  lemma {:induction false} CleanIsClean(n: Node)
    ensures !Annotated(Clean(n)) && (IsAnnotation(Clean(n)) <==> IsAnnotation(n))
    decreases n
  {
    if n.Node? { StrippedClean(n.text, n.kids); }
  }

  // ---- the extracted positions

  lemma {:induction false} OutsideCons(k: Kid, rest: seq<Kid>)
    ensures OutsideKids([k] + rest) == ((if IsAnnotation(k.node) then "" else Outside(k.node)) + k.tail) + OutsideKids(rest)
    decreases |rest|
  {
    var own := (if IsAnnotation(k.node) then "" else Outside(k.node)) + k.tail;
    var all := [k] + rest;
    if rest == [] {
      assert all == [k] && OutsideKids(all[..0]) == "";
      EmptyConcat(own);
    } else {
      var init, last := rest[..|rest| - 1], rest[|rest| - 1];
      assert all[..|all| - 1] == [k] + init && all[|all| - 1] == last;
      OutsideCons(k, init);
      Assoc(own, OutsideKids(init), (if IsAnnotation(last.node) then "" else Outside(last.node)) + last.tail);
    }
  }

  lemma {:induction false} OutsideIsWalk(t: Tree, at: Addr, c: Content)
    requires !(t.Element? && t.name in ANNOTATIONS)
    ensures Outside(Build(t, at, c)) == TextOf(Walk(t, at, ANNOTATIONS), c)
    decreases t, 1, 0
  {
    if t.Element? {
      OutsideKidsIsWalk(t, at, 0, c);
      TextOfAppend([Text(at)], WalkKids(t, at, 0, ANNOTATIONS), c);
      TextOfSingle(Text(at), c);
    }
  }

  lemma {:induction false} OutsideKidsIsWalk(t: Tree, at: Addr, i: nat, c: Content)
    requires t.Element? && i <= |t.kids|
    ensures OutsideKids(BuildKids(t, at, i, c)) == TextOf(WalkKids(t, at, i, ANNOTATIONS), c)
    decreases t, 0, |t.kids| - i
  {
    if i < |t.kids| {
      var kid := t.kids[i];
      var k := Kid(Build(kid, at + [i], c), Get(c, Tail(at + [i])));
      var w := Walk(kid, at + [i], ANNOTATIONS);
      if !IsAnnotation(k.node) { OutsideIsWalk(kid, at + [i], c); }
      OutsideKidsIsWalk(t, at, i + 1, c);
      OutsideCons(k, BuildKids(t, at, i + 1, c));
      TextOfAppend(w + [Tail(at + [i])], WalkKids(t, at, i + 1, ANNOTATIONS), c);
      TextOfAppend(w, [Tail(at + [i])], c);
      TextOfSingle(Tail(at + [i]), c);
    }
  }

  /** After the removal a ruby element reads exactly its positions outside annotations, and no annotation is
      left. */
  lemma RubyKeepsOutside(t: Tree, at: Addr, c: Content)
    requires t.Element? && t.name == "ruby"
    ensures ReadNode(Clean(Build(t, at, c))) == TextOf(Walk(t, at, ANNOTATIONS), c)
    ensures !Annotated(Clean(Build(t, at, c)))
  {
    CleanReads(Build(t, at, c));
    CleanIsClean(Build(t, at, c));
    OutsideIsWalk(t, at, c);
  }

  // ---- what extraction passes over besides annotations

  /** How much text stands in elements at which extraction stops, annotations excepted. */
  function PassedOver(t: Tree, at: Addr, c: Content, stop: set<string>): nat
    decreases t, 1, 0
  {
    if !t.Element? || t.name in ANNOTATIONS then 0
    else if t.name in stop then |TextOf(Walk(t, at, ANNOTATIONS), c)|
    else PassedOverKids(t, at, 0, c, stop)
  }

  function PassedOverKids(t: Tree, at: Addr, i: nat, c: Content, stop: set<string>): nat
    requires t.Element? && i <= |t.kids|
    decreases t, 0, |t.kids| - i
  {
    if i == |t.kids| then 0 else PassedOver(t.kids[i], at + [i], c, stop) + PassedOverKids(t, at, i + 1, c, stop)
  }

  /** Two texts of which the first has so much more. */
  ghost predicate LongerBy(a: string, b: string, n: nat) {
    |a| == |b| + n && (n == 0 ==> a == b)
  }

  lemma LongerConcat(a: string, b: string, n: nat, x: string, y: string, m: nat)
    requires LongerBy(a, b, n) && LongerBy(x, y, m)
    ensures LongerBy(a + x, b + y, n + m)
  {
  }

  lemma WalkText(t: Tree, at: Addr, c: Content, stop: set<string>)
    requires t.Element? && t.name !in stop
    ensures TextOf(Walk(t, at, stop), c) == Get(c, Text(at)) + TextOf(WalkKids(t, at, 0, stop), c)
  {
    TextOfAppend([Text(at)], WalkKids(t, at, 0, stop), c);
    TextOfSingle(Text(at), c);
  }

  lemma WalkKidsText(t: Tree, at: Addr, i: nat, c: Content, stop: set<string>)
    requires t.Element? && i < |t.kids|
    ensures TextOf(WalkKids(t, at, i, stop), c)
         == TextOf(Walk(t.kids[i], at + [i], stop), c) + Get(c, Tail(at + [i])) + TextOf(WalkKids(t, at, i + 1, stop), c)
  {
    var w := Walk(t.kids[i], at + [i], stop);
    TextOfAppend(w + [Tail(at + [i])], WalkKids(t, at, i + 1, stop), c);
    TextOfAppend(w, [Tail(at + [i])], c);
    TextOfSingle(Tail(at + [i]), c);
  }

  lemma {:induction false} OutsideIsLonger(t: Tree, at: Addr, c: Content, stop: set<string>)
    requires ANNOTATIONS <= stop
    ensures LongerBy(TextOf(Walk(t, at, ANNOTATIONS), c), TextOf(Walk(t, at, stop), c), PassedOver(t, at, c, stop))
    decreases t, 1, 0
  {
    if t.Element? && t.name !in stop {
      OutsideKidsLonger(t, at, 0, c, stop);
      WalkText(t, at, c, stop);
      WalkText(t, at, c, ANNOTATIONS);
    }
  }

  lemma {:induction false} OutsideKidsLonger(t: Tree, at: Addr, i: nat, c: Content, stop: set<string>)
    requires t.Element? && i <= |t.kids| && ANNOTATIONS <= stop
    ensures LongerBy(TextOf(WalkKids(t, at, i, ANNOTATIONS), c), TextOf(WalkKids(t, at, i, stop), c),
                     PassedOverKids(t, at, i, c, stop))
    decreases t, 0, |t.kids| - i
  {
    if i < |t.kids| {
      var kid, tail := t.kids[i], Get(c, Tail(at + [i]));
      OutsideIsLonger(kid, at + [i], c, stop);
      OutsideKidsLonger(t, at, i + 1, c, stop);
      WalkKidsText(t, at, i, c, ANNOTATIONS);
      WalkKidsText(t, at, i, c, stop);
      var a, b := TextOf(Walk(kid, at + [i], ANNOTATIONS), c), TextOf(Walk(kid, at + [i], stop), c);
      LongerConcat(a, b, PassedOver(kid, at + [i], c, stop), tail, tail, 0);
      LongerConcat(a + tail, b + tail, PassedOver(kid, at + [i], c, stop),
                   TextOf(WalkKids(t, at, i + 1, ANNOTATIONS), c), TextOf(WalkKids(t, at, i + 1, stop), c),
                   PassedOverKids(t, at, i + 1, c, stop));
    }
  }

  /** After the removal a ruby element reads exactly what extraction takes from it if and only if nothing is
      written in it where extraction stops, annotations excepted. */
  lemma RubyKeepsExtracted(t: Tree, at: Addr, c: Content)
    requires t.Element? && t.name == "ruby"
    ensures ReadNode(Clean(Build(t, at, c))) == TextOf(Walk(t, at, SKIP_SUBTREE_TAGS), c)
            <==> PassedOver(t, at, c, SKIP_SUBTREE_TAGS) == 0
  {
    RubyKeepsOutside(t, at, c);
    OutsideIsLonger(t, at, c, SKIP_SUBTREE_TAGS);
  }
}
