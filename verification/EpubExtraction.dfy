/** The parser's own loops: the path map, the two tag maps and the recursive collection of units,
    each proved against the definitions of `ElementPaths` and `EpubParser`. */
module EpubExtraction {
  import opened Slashes
  import opened Lists
  import opened XmlTree
  import opened ElementPaths

  // ---- document order

  /** The addresses of the elements of `t`, parents first (`iter_elements`). */
  function Elements(t: Tree, at: Addr): seq<Addr>
    decreases t, 1, 0
  {
    if t.Element? then [at] + KidElements(t, at, 0) else []
  }

  function KidElements(t: Tree, at: Addr, i: nat): seq<Addr>
    requires t.Element? && i <= |t.kids|
    decreases t, 0, |t.kids| - i
  {
    if i == |t.kids| then [] else Elements(t.kids[i], at + [i]) + KidElements(t, at, i + 1)
  }

  predicate ElementAt(root: Tree, a: Addr) {
    ValidAddr(root, a) && At(root, a).Element?
  }

  // ---- the single-pass path map

  /** A node still to be visited: where it is, and the path given to it. */
  datatype Entry = Entry(tree: Tree, at: Addr, path: string)

  function PairsFrom(e: Entry): seq<(Addr, string)>
    decreases e.tree, 1, 0
  {
    if e.tree.Element? then [(e.at, e.path)] + KidPairs(e, 0) else []
  }

  function KidEntry(e: Entry, i: nat): Entry
    requires e.tree.Element? && i < |e.tree.kids|
  {
    Entry(e.tree.kids[i], e.at + [i], e.path + "/" + Step(e.tree.kids, i))
  }

  function KidPairs(e: Entry, i: nat): seq<(Addr, string)>
    requires e.tree.Element? && i <= |e.tree.kids|
    decreases e.tree, 0, |e.tree.kids| - i
  {
    if i == |e.tree.kids| then [] else PairsFrom(KidEntry(e, i)) + KidPairs(e, i + 1)
  }

  /** What popping a stack of entries yields: the last one first. */
  function StackPairs(stack: seq<Entry>): seq<(Addr, string)> {
    if stack == [] then []
    else PairsFrom(stack[|stack| - 1]) + StackPairs(stack[..|stack| - 1])
  }

  function Reverse<T>(s: seq<T>): (r: seq<T>)
    ensures |r| == |s|
  {
    if s == [] then [] else Reverse(s[1..]) + [s[0]]
  }

  function ListPairs(entries: seq<Entry>): seq<(Addr, string)> {
    if entries == [] then [] else PairsFrom(entries[0]) + ListPairs(entries[1..])
  }

  lemma {:induction false} StackReversed(stack: seq<Entry>, entries: seq<Entry>)
    ensures StackPairs(stack + Reverse(entries)) == ListPairs(entries) + StackPairs(stack)
    decreases |entries|
  {
    if entries == [] {
      assert stack + Reverse(entries) == stack;
    } else {
      var s := stack + Reverse(entries);
      assert s == (stack + Reverse(entries[1..])) + [entries[0]];
      assert s[..|s| - 1] == stack + Reverse(entries[1..]);
      StackReversed(stack, entries[1..]);
    }
  }

  function Size(t: Tree): nat
    decreases t, 1, 0
  {
    1 + if t.Element? then KidSize(t, 0) else 0
  }

  function KidSize(t: Tree, i: nat): nat
    requires t.Element? && i <= |t.kids|
    decreases t, 0, |t.kids| - i
  {
    if i == |t.kids| then 0 else Size(t.kids[i]) + KidSize(t, i + 1)
  }

  function StackSize(stack: seq<Entry>): nat {
    if stack == [] then 0 else Size(stack[|stack| - 1].tree) + StackSize(stack[..|stack| - 1])
  }

  function ListSize(entries: seq<Entry>): nat {
    if entries == [] then 0 else Size(entries[0].tree) + ListSize(entries[1..])
  }

  lemma {:induction false} StackSizeReversed(stack: seq<Entry>, entries: seq<Entry>)
    ensures StackSize(stack + Reverse(entries)) == StackSize(stack) + ListSize(entries)
    decreases |entries|
  {
    if entries == [] {
      assert stack + Reverse(entries) == stack;
    } else {
      var s := stack + Reverse(entries);
      assert s == (stack + Reverse(entries[1..])) + [entries[0]];
      assert s[..|s| - 1] == stack + Reverse(entries[1..]);
      StackSizeReversed(stack, entries[1..]);
    }
  }

  lemma {:induction false} ListAppend(a: seq<Entry>, e: Entry)
    ensures ListPairs(a + [e]) == ListPairs(a) + PairsFrom(e)
    ensures ListSize(a + [e]) == ListSize(a) + Size(e.tree)
  {
    if a == [] {
      EmptyConcat([e]);
      assert [e][1..] == [];
      EmptyConcat(PairsFrom(e));
    } else {
      TailOfConcat(a, [e]);
      ListAppend(a[1..], e);
      Assoc(PairsFrom(a[0]), ListPairs(a[1..]), PairsFrom(e));
    }
  }

  function Counted(counters: map<string, nat>, name: string): nat {
    if name in counters then counters[name] else 0
  }

  ghost predicate CountersOk(counters: map<string, nat>, kids: seq<Tree>, i: nat)
    requires i <= |kids|
  {
    forall name :: Counted(counters, name) == CountLike(kids, Element(name, []), i)
  }

  lemma CountersStep(counters: map<string, nat>, kids: seq<Tree>, i: nat)
    requires i < |kids| && CountersOk(counters, kids, i)
    ensures !kids[i].Element? ==> CountersOk(counters, kids, i + 1)
    ensures kids[i].Element? ==>
              var name := kids[i].name;
              && CountersOk(counters[name := Counted(counters, name) + 1], kids, i + 1)
              && CountLike(kids, kids[i], i + 1) == Counted(counters, name) + 1
  {
    if kids[i].Element? {
      CountLikeName(kids, kids[i], i + 1);
      assert Counted(counters, kids[i].name) == CountLike(kids, Element(kids[i].name, []), i);
    }
  }

  /** The element kids of a popped entry with their paths, numbered by one counter per name. */
  method ChildEntries(e: Entry) returns (entries: seq<Entry>)
    requires e.tree.Element?
    ensures ListPairs(entries) == KidPairs(e, 0)
    ensures ListSize(entries) <= KidSize(e.tree, 0)
    ensures forall k :: 0 <= k < |entries| ==> entries[k].tree.Element?
  {
    var kids := e.tree.kids;
    var counters: map<string, nat> := map[];
    entries := [];
    var i := 0;
    while i < |kids|
      invariant i <= |kids| && CountersOk(counters, kids, i)
      invariant ListPairs(entries) + KidPairs(e, i) == KidPairs(e, 0)
      invariant ListSize(entries) + KidSize(e.tree, i) <= KidSize(e.tree, 0)
      invariant forall k :: 0 <= k < |entries| ==> entries[k].tree.Element?
    {
      CountersStep(counters, kids, i);
      if kids[i].Element? {
        var name := kids[i].name;
        var position := Counted(counters, name) + 1;
        counters := counters[name := position];
        var entry := Entry(kids[i], e.at + [i], e.path + "/" + StepText(name, position));
        assert entry == KidEntry(e, i);
        ListAppend(entries, entry);
        Assoc(ListPairs(entries), PairsFrom(entry), KidPairs(e, i + 1));
        entries := entries + [entry];
      } else {
        EmptyConcat(KidPairs(e, i + 1));
      }
      i := i + 1;
    }
    EmptyConcat(ListPairs(entries));
  }

  lemma {:induction false} CountLikeName(kids: seq<Tree>, t: Tree, n: nat)
    requires n <= |kids| && t.Element?
    ensures CountLike(kids, t, n) == CountLike(kids, Element(t.name, []), n)
  {
    if n > 0 { CountLikeName(kids, t, n - 1); }
  }

  /** `iter_elem_path_pairs`: elements in document order with their paths, by a stack instead of recursion. */
  method IterElemPathPairs(root: Tree) returns (pairs: seq<(Addr, string)>)
    requires root.Element?
    ensures pairs == PairsFrom(Entry(root, [], "/" + root.name))
  {
    pairs := [];
    var stack := [Entry(root, [], "/" + root.name)];
    assert stack[..0] == [];
    while stack != []
      invariant forall k :: 0 <= k < |stack| ==> stack[k].tree.Element?
      invariant pairs + StackPairs(stack) == PairsFrom(Entry(root, [], "/" + root.name))
      decreases StackSize(stack)
    {
      var e := stack[|stack| - 1];
      stack := stack[..|stack| - 1];
      pairs := pairs + [(e.at, e.path)];
      var entries := ChildEntries(e);
      StackReversed(stack, entries);
      StackSizeReversed(stack, entries);
      forall k | 0 <= k < |Reverse(entries)| ensures Reverse(entries)[k].tree.Element? { ReverseAt(entries, k); }
      stack := stack + Reverse(entries);
    }
  }

  lemma {:induction false} ReverseAt<T>(s: seq<T>, k: nat)
    requires k < |s|
    ensures Reverse(s)[k] == s[|s| - 1 - k]
  {
    if k < |s| - 1 { ReverseAt(s[1..], k); }
  }

  // ---- the fast paths are the slow ones

  lemma {:induction false} StepsAppend(t: Tree, a: Addr, i: nat)
    requires ValidAddr(t, a) && At(t, a).Element? && i < |At(t, a).kids|
    ensures ValidAddr(t, a + [i]) && At(t, a + [i]) == At(t, a).kids[i]
    ensures Steps(t, a + [i]) == Steps(t, a) + [Step(At(t, a).kids, i)]
  {
    if a == [] {
      assert a + [i] == [i] && [i][1..] == [];
    } else {
      assert (a + [i])[1..] == a[1..] + [i];
      StepsAppend(t.kids[a[0]], a[1..], i);
    }
  }

  lemma {:induction false} JoinSlashAppend(a: seq<string>, s: string)
    ensures JoinSlash(a + [s]) == JoinSlash(a) + "/" + s
  {
    if a == [] {
      assert [s][1..] == [] && a + [s] == [s];
    } else {
      assert (a + [s])[1..] == a[1..] + [s];
      JoinSlashAppend(a[1..], s);
    }
  }

  lemma NodePathKid(root: Tree, a: Addr, i: nat)
    requires ElementAt(root, a) && i < |At(root, a).kids| && root.Element?
    ensures ValidAddr(root, a + [i]) && At(root, a + [i]) == At(root, a).kids[i]
    ensures NodePath(root, a + [i]) == NodePath(root, a) + "/" + Step(At(root, a).kids, i)
  {
    StepsAppend(root, a, i);
    assert [root.name] + Steps(root, a + [i]) == ([root.name] + Steps(root, a)) + [Step(At(root, a).kids, i)];
    JoinSlashAppend([root.name] + Steps(root, a), Step(At(root, a).kids, i));
  }

  predicate AllElements(root: Tree, addrs: seq<Addr>) {
    forall k :: 0 <= k < |addrs| ==> ElementAt(root, addrs[k])
  }

  /** The address of each pair, and its slow path. */
  function SlowPairs(root: Tree, addrs: seq<Addr>): seq<(Addr, string)>
    requires root.Element? && AllElements(root, addrs)
  {
    seq(|addrs|, k requires 0 <= k < |addrs| => (addrs[k], NodePath(root, addrs[k])))
  }

  lemma {:induction false} PairsAreSlow(root: Tree, a: Addr)
    requires root.Element? && ValidAddr(root, a)
    ensures var t := At(root, a);
            && AllElements(root, Elements(t, a))
            && PairsFrom(Entry(t, a, NodePath(root, a))) == SlowPairs(root, Elements(t, a))
    decreases At(root, a), 1, 0
  {
    if At(root, a).Element? {
      KidPairsAreSlow(root, a, 0);
      SlowPairsAppend(root, [a], KidElements(At(root, a), a, 0));
    }
  }

  lemma {:induction false} KidPairsAreSlow(root: Tree, a: Addr, i: nat)
    requires root.Element? && ElementAt(root, a) && i <= |At(root, a).kids|
    ensures var t := At(root, a);
            && AllElements(root, KidElements(t, a, i))
            && KidPairs(Entry(t, a, NodePath(root, a)), i) == SlowPairs(root, KidElements(t, a, i))
    decreases At(root, a), 0, |At(root, a).kids| - i
  {
    var t := At(root, a);
    if i < |t.kids| {
      NodePathKid(root, a, i);
      PairsAreSlow(root, a + [i]);
      KidPairsAreSlow(root, a, i + 1);
      var e := Entry(t, a, NodePath(root, a));
      var here, rest := Elements(t.kids[i], a + [i]), KidElements(t, a, i + 1);
      assert KidEntry(e, i) == Entry(At(root, a + [i]), a + [i], NodePath(root, a + [i]));
      assert KidElements(t, a, i) == here + rest;
      assert KidPairs(e, i) == PairsFrom(KidEntry(e, i)) + KidPairs(e, i + 1);
      SlowPairsAppend(root, here, rest);
    }
  }

  lemma SlowPairsAppend(root: Tree, a: seq<Addr>, b: seq<Addr>)
    requires root.Element? && AllElements(root, a) && AllElements(root, b)
    ensures AllElements(root, a + b)
    ensures SlowPairs(root, a + b) == SlowPairs(root, a) + SlowPairs(root, b)
  {
  }

  lemma RootPath(root: Tree)
    requires root.Element?
    ensures NodePath(root, []) == "/" + root.name
  {
    assert [root.name] + Steps(root, []) == [root.name] && [root.name][1..] == [];
    assert JoinSlash([root.name]) == "/" + root.name + "" == "/" + root.name;
  }

  lemma {:induction false} ElementsMembers(t: Tree, at: Addr, a: Addr)
    ensures a in Elements(t, at) <==> at <= a && ElementAt(t, a[|at|..])
    decreases t, 1, 0
  {
    if t.Element? {
      KidElementsMembers(t, at, 0, a);
      if at <= a && a != at { assert a == at + a[|at|..]; }
    }
  }

  lemma {:induction false} KidElementsMembers(t: Tree, at: Addr, i: nat, a: Addr)
    requires t.Element? && i <= |t.kids|
    ensures a in KidElements(t, at, i) <==> at < a && i <= a[|at|] && ElementAt(t, a[|at|..])
    decreases t, 0, |t.kids| - i
  {
    if at < a { assert a[|at|..][0] == a[|at|]; }
    if i < |t.kids| {
      ElementsMembers(t.kids[i], at + [i], a);
      KidElementsMembers(t, at, i + 1, a);
      if at < a {
        if a[|at|] == i {
          assert at + [i] <= a && a[|at + [i]|..] == a[|at|..][1..];
        } else {
          assert !(at + [i] <= a);
        }
      }
    }
  }

  ghost predicate PathMapOk(root: Tree, paths: map<Addr, string>) {
    root.Element? && forall a :: (a in paths <==> ElementAt(root, a)) && (a in paths ==> paths[a] == NodePath(root, a))
  }

  /** `build_elem_path_map`: every element, and each with the path that climbing from it would give. */
  method BuildElemPathMap(root: Tree) returns (paths: map<Addr, string>)
    requires root.Element?
    ensures PathMapOk(root, paths)
  {
    var pairs := IterElemPathPairs(root);
    RootPath(root);
    PairsAreSlow(root, []);
    ghost var addrs := Elements(root, []);
    assert pairs == SlowPairs(root, addrs);
    paths := map[];
    var i := 0;
    while i < |pairs|
      invariant i <= |pairs|
      invariant forall a :: a in paths ==> ElementAt(root, a) && paths[a] == NodePath(root, a)
      invariant forall k :: 0 <= k < i ==> addrs[k] in paths
    {
      assert pairs[i] == (addrs[i], NodePath(root, addrs[i]));
      paths := paths[pairs[i].0 := pairs[i].1];
      i := i + 1;
    }
    forall a | ElementAt(root, a) ensures a in paths {
      ElementsMembers(root, [], a);
      assert a[0..] == a;
      var k :| 0 <= k < |addrs| && addrs[k] == a;
    }
  }

  /** `build_elem_path`: climbs from the element to the root, then joins the steps in reverse. */
  method BuildElemPath(root: Tree, a: Addr) returns (path: string)
    requires root.Element? && ElementAt(root, a)
    ensures path == NodePath(root, a)
  {
    var segments: seq<string> := [];
    var current := a;
    while current != []
      invariant current <= a && ElementAt(root, current)
      invariant Steps(root, current) + Reverse(segments) == Steps(root, a)
      decreases |current|
    {
      var i := current[|current| - 1];
      assert current == Parent(current) + [i];
      AtAppend(root, Parent(current), [i]);
      StepsAppend(root, Parent(current), i);
      var kids := At(root, Parent(current)).kids;
      ReverseSnoc(segments, Step(kids, i));
      Assoc(Steps(root, Parent(current)), [Step(kids, i)], Reverse(segments));
      segments := segments + [Step(kids, i)];
      current := Parent(current);
    }
    EmptyConcat(Reverse(segments));
    ReverseSnoc(segments, root.name);
    segments := segments + [root.name];
    path := JoinSlash(Reverse(segments));
  }

  lemma {:induction false} ReverseSnoc<T>(s: seq<T>, x: T)
    ensures Reverse(s + [x]) == [x] + Reverse(s)
  {
    if s == [] {
      assert s + [x] == [x] && [x][1..] == [];
    } else {
      assert (s + [x])[1..] == s[1..] + [x];
      ReverseSnoc(s[1..], x);
    }
  }
}
