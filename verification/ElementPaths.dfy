/** The path strings that name nodes in stored segments: the single-pass path map, the slow path of one
    node, and the lookup that leads back to the node (transoria/formats/epub_parser.py). */
module ElementPaths {
  import opened TextRules
  import opened Slashes
  import opened XmlTree

  // ---- decimal numbers

  function Digit(d: nat): char
    requires d < 10
  {
    '0' + d as char
  }

  function Dec(n: nat): (s: string)
    ensures s != "" && forall i :: 0 <= i < |s| ==> '0' <= s[i] <= '9'
  {
    if n < 10 then [Digit(n)] else Dec(n / 10) + [Digit(n % 10)]
  }

  /** `int(...)` on plain decimal digits; anything else is the `ValueError` case. */
  function ParseInt(s: string): Option<nat> {
    if s == "" || !('0' <= s[|s| - 1] <= '9') then None
    else
      var d := (s[|s| - 1] - '0') as nat;
      if |s| == 1 then Some(d)
      else match ParseInt(s[..|s| - 1]) case None => None case Some(v) => Some(10 * v + d)
  }

  lemma {:induction false} ParseDec(n: nat)
    ensures ParseInt(Dec(n)) == Some(n)
  {
    if n >= 10 {
      ParseDec(n / 10);
      assert Dec(n)[..|Dec(n)| - 1] == Dec(n / 10);
    }
  }

  /** `[part for part in path.strip("/").split("/") if part]`. */
  function PathParts(path: string): seq<string> {
    NonEmpty(Split(StripEnd(StripStart(path)), '/'))
  }

  lemma StripOf(s: string)
    requires s != "" && s[0] != '/' && s[|s| - 1] != '/'
    ensures StripEnd(StripStart("/" + s)) == s
  {
    assert ("/" + s)[1..] == s;
    assert StripStart(s) == s && StripEnd(s) == s;
  }

  lemma PathPartsJoin(first: string, rest: seq<string>)
    requires PlainStep(first) && forall i :: 0 <= i < |rest| ==> PlainStep(rest[i])
    ensures PathParts(JoinSlash([first] + rest)) == [first] + rest
  {
    JoinSlashCons(first, rest);
    JoinSlashEnd(first, rest);
    StripOf(first + JoinSlash(rest));
    SplitJoin(first, rest);
    PlainCons(first, rest);
    NonEmptyPlain([first] + rest);
  }

  lemma PlainCons(first: string, rest: seq<string>)
    requires PlainStep(first) && forall i :: 0 <= i < |rest| ==> PlainStep(rest[i])
    ensures forall i :: 0 <= i < |[first] + rest| ==> PlainStep(([first] + rest)[i])
  {
  }

  // ---- one step of a path

  const NODE := "$node"

  /** The name a step uses for a node: its own, or a marker for comments and the like. */
  function StepName(t: Tree): string {
    if t.Element? then t.name else NODE
  }

  /** Elements of one name are numbered together, and so are all the other nodes. */
  predicate Like(a: Tree, b: Tree) {
    a.Element? == b.Element? && (a.Element? ==> a.name == b.name)
  }

  /** How many of the first `n` kids are like `t`. */
  function CountLike(kids: seq<Tree>, t: Tree, n: nat): nat
    requires n <= |kids|
  {
    if n == 0 then 0 else CountLike(kids, t, n - 1) + if Like(kids[n - 1], t) then 1 else 0
  }

  function StepText(name: string, position: nat): string {
    name + "[" + Dec(position) + "]"
  }

  function Step(kids: seq<Tree>, i: nat): string
    requires i < |kids|
  {
    StepText(StepName(kids[i]), CountLike(kids, kids[i], i + 1))
  }

  function Steps(t: Tree, p: Addr): (steps: seq<string>)
    requires ValidAddr(t, p)
    ensures |steps| == |p|
  {
    if p == [] then [] else [Step(t.kids, p[0])] + Steps(t.kids[p[0]], p[1..])
  }

  /** The path of the node at `a`. */
  function NodePath(root: Tree, a: Addr): string
    requires root.Element? && ValidAddr(root, a)
  {
    JoinSlash([root.name] + Steps(root, a))
  }

  function PathName(part: string): string {
    part[..FirstIndex(part, '[')]
  }

  function LastIndex(s: string, c: char): (i: nat)
    requires c in s
    ensures i < |s| && s[i] == c && forall j :: i < j < |s| ==> s[j] != c
  {
    if s[|s| - 1] == c then |s| - 1 else LastIndex(s[..|s| - 1], c)
  }

  function PathPosition(part: string): nat {
    if '[' !in part || part[|part| - 1] != ']' then 1
    else match ParseInt(part[LastIndex(part, '[') + 1..|part| - 1]) case None => 1 case Some(v) => v
  }

  lemma StepParses(name: string, n: nat)
    requires '[' !in name
    ensures var part := StepText(name, n); PathName(part) == name && PathPosition(part) == n
  {
    var part := name + "[" + Dec(n) + "]";
    var k := |name|;
    FirstIndexOf(name, '[', Dec(n) + "]");
    assert part == name + ['['] + (Dec(n) + "]");
    assert part[k] == '[' && part[..k] == name;
    assert forall j :: k < j < |part| ==> part[j] != '[';
    assert LastIndex(part, '[') == k;
    assert part[k + 1..|part| - 1] == Dec(n);
    ParseDec(n);
  }

  // ---- lookup

  /** The kids that a step calls `name`, as indices from `i` on. */
  function Matches(kids: seq<Tree>, name: string, i: nat := 0): seq<nat>
    requires i <= |kids|
    decreases |kids| - i
  {
    if i == |kids| then []
    else
      var here := if name == NODE then !kids[i].Element? else kids[i].Element? && kids[i].name == name;
      (if here then [i] else []) + Matches(kids, name, i + 1)
  }

  function Kids(t: Tree): seq<Tree> {
    if t.Element? then t.kids else []
  }

  lemma {:induction false} MatchesBound(kids: seq<Tree>, name: string, i: nat)
    requires i <= |kids|
    ensures forall k :: 0 <= k < |Matches(kids, name, i)| ==> i <= Matches(kids, name, i)[k] < |kids|
    decreases |kids| - i
  {
    if i < |kids| { MatchesBound(kids, name, i + 1); }
  }

  function Descend(t: Tree, parts: seq<string>): Option<Addr>
    decreases |parts|
  {
    if parts == [] then Some([]) else
    var matches, position := Matches(Kids(t), PathName(parts[0])), PathPosition(parts[0]);
    if position < 1 || position > |matches| then None else
    var i := matches[position - 1];
    MatchesBound(Kids(t), PathName(parts[0]), 0);
    match Descend(Kids(t)[i], parts[1..]) case None => None case Some(p) => Some([i] + p)
  }

  /** `find_by_path`. */
  function FindByPath(root: Tree, path: string): Option<Addr>
    requires root.Element?
  {
    if path == "" || path[0] != '/' then None else
    var parts := PathParts(path);
    if parts == [] || PathName(parts[0]) != root.name then None else Descend(root, parts[1..])
  }

  // ---- the round trip

  predicate PlainName(s: string) {
    s != "" && s != NODE && '/' !in s && '[' !in s
  }

  /** Every element name is one that XML allows, as far as paths are concerned. */
  predicate PlainNames(t: Tree) {
    t.Element? ==> PlainName(t.name) && forall i :: 0 <= i < |t.kids| ==> PlainNames(t.kids[i])
  }

  lemma {:induction false} MatchesAt(kids: seq<Tree>, i: nat, from: nat)
    requires i < |kids| && from <= i && forall k :: 0 <= k < |kids| ==> PlainNames(kids[k])
    ensures var name := StepName(kids[i]);
            var n := CountLike(kids, kids[i], i) - CountLike(kids, kids[i], from);
            0 <= n < |Matches(kids, name, from)| && Matches(kids, name, from)[n] == i
    decreases i - from
  {
    assert PlainNames(kids[i]) && PlainNames(kids[from]);
    if from < i { MatchesAt(kids, i, from + 1); }
  }

  lemma {:induction false} StepsPlain(t: Tree, p: Addr)
    requires ValidAddr(t, p) && PlainNames(t)
    ensures forall i :: 0 <= i < |Steps(t, p)| ==> PlainStep(Steps(t, p)[i])
  {
    if p != [] {
      var kid := t.kids[p[0]];
      assert PlainNames(kid);
      StepsPlain(kid, p[1..]);
      var step, rest := Step(t.kids, p[0]), Steps(kid, p[1..]);
      assert PlainStep(step);
      assert forall i :: 0 < i < |Steps(t, p)| ==> Steps(t, p)[i] == rest[i - 1];
    }
  }

  lemma {:induction false} DescendSteps(t: Tree, p: Addr)
    requires ValidAddr(t, p) && PlainNames(t)
    ensures Descend(t, Steps(t, p)) == Some(p)
  {
    if p != [] {
      assert PlainNames(t.kids[p[0]]);
      DescendSteps(t.kids[p[0]], p[1..]);
      StepsCons(t, p);
      DescendStep(t, p[0], Steps(t.kids[p[0]], p[1..]));
    }
  }

  lemma StepsCons(t: Tree, p: Addr)
    requires p != [] && ValidAddr(t, p)
    ensures [p[0]] + p[1..] == p && Steps(t, p) == [Step(t.kids, p[0])] + Steps(t.kids[p[0]], p[1..])
  {
  }

  lemma DescendStep(t: Tree, i: nat, rest: seq<string>)
    requires t.Element? && i < |t.kids| && PlainNames(t) && Descend(t.kids[i], rest).Some?
    ensures Descend(t, [Step(t.kids, i)] + rest) == Some([i] + Descend(t.kids[i], rest).value)
  {
    var name := StepName(t.kids[i]);
    assert PlainNames(t.kids[i]);
    StepParses(name, CountLike(t.kids, t.kids[i], i + 1));
    MatchesAt(t.kids, i, 0);
    assert ([Step(t.kids, i)] + rest)[1..] == rest;
  }

  /** The path of every node, comments included, leads back to that very node. */
  lemma PathRoundTrip(root: Tree, a: Addr)
    requires root.Element? && PlainNames(root) && ValidAddr(root, a)
    ensures FindByPath(root, NodePath(root, a)) == Some(a)
  {
    DescendSteps(root, a);
    StepsPlain(root, a);
    PathPartsJoin(root.name, Steps(root, a));
    JoinSlashCons(root.name, Steps(root, a));
    assert ([root.name] + Steps(root, a))[1..] == Steps(root, a);
    FirstIndexOf(root.name, '[', "");
  }

  /** So two nodes never share a path. */
  lemma PathsDistinct(root: Tree, a: Addr, b: Addr)
    requires root.Element? && PlainNames(root) && ValidAddr(root, a) && ValidAddr(root, b)
    requires NodePath(root, a) == NodePath(root, b)
    ensures a == b
  {
    PathRoundTrip(root, a);
    PathRoundTrip(root, b);
  }
}
