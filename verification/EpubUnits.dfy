/** The skipped and block-descendant maps, and the recursive collection of units with their slots. */
module EpubUnits {
  import opened Lists
  import opened XmlTree
  import opened ElementPaths
  import opened EpubParser
  import opened EpubExtraction

  // ---- document order puts parents before their children

  /** `a` comes before each of its descendants. */
  ghost predicate ParentsFirst(addrs: seq<Addr>) {
    forall j, k :: 0 <= j < |addrs| && 0 <= k < |addrs| && addrs[j] < addrs[k] ==> j < k
  }

  lemma {:induction false} ElementsParentsFirst(t: Tree, at: Addr)
    ensures ParentsFirst(Elements(t, at))
    decreases t, 1, 0
  {
    if t.Element? {
      var e, r := Elements(t, at), KidElements(t, at, 0);
      KidElementsParentsFirst(t, at, 0);
      assert e == [at] + r;
      forall j, k | 0 <= j < |e| && 0 <= k < |e| && e[j] < e[k] ensures j < k {
        if j > 0 {
          assert e[j] == r[j - 1] && r[j - 1] in r;
          KidElementsMembers(t, at, 0, e[j]);
          assert k > 0 && e[k] == r[k - 1];
        }
      }
    }
  }

  lemma {:induction false} KidElementsParentsFirst(t: Tree, at: Addr, i: nat)
    requires t.Element? && i <= |t.kids|
    ensures ParentsFirst(KidElements(t, at, i))
    decreases t, 0, |t.kids| - i
  {
    if i < |t.kids| {
      var x, y := Elements(t.kids[i], at + [i]), KidElements(t, at, i + 1);
      ElementsParentsFirst(t.kids[i], at + [i]);
      KidElementsParentsFirst(t, at, i + 1);
      var e := x + y;
      forall j, k | 0 <= j < |e| && 0 <= k < |e| && e[j] < e[k] ensures j < k {
        if j >= |x| {
          var low, high := e[j], e[k];
          assert low == y[j - |x|] && low in y;
          KidElementsMembers(t, at, i + 1, low);
          assert low[|at|] == high[|at|];
          ElementsMembers(t.kids[i], at + [i], high);
          assert high !in x;
          assert k >= |x| && e[k] == y[k - |x|];
        } else if k < |x| {
          assert e[j] == x[j] && e[k] == x[k];
        }
      }
    }
  }

  lemma ElementsAt(root: Tree, k: nat)
    requires k < |Elements(root, [])|
    ensures ElementAt(root, Elements(root, [])[k])
  {
    var a := Elements(root, [])[k];
    ElementsMembers(root, [], a);
    assert a[0..] == a;
  }

  lemma ElementListed(root: Tree, a: Addr) returns (k: nat)
    requires ElementAt(root, a)
    ensures k < |Elements(root, [])| && Elements(root, [])[k] == a
  {
    ElementsMembers(root, [], a);
    assert a[0..] == a;
    k :| 0 <= k < |Elements(root, [])| && Elements(root, [])[k] == a;
  }

  // ---- the skipped map

  /** The element at `a` lies in a skipped subtree. */
  predicate SkippedAt(root: Tree, a: Addr) {
    ValidAddr(root, a) && !NoneSkipped(PathTo(root, a))
  }

  lemma {:induction false} PathToParent(t: Tree, a: Addr)
    requires a != [] && ValidAddr(t, a)
    ensures ValidAddr(t, Parent(a)) && PathTo(t, a) == PathTo(t, Parent(a)) + [At(t, a)]
  {
    if |a| > 1 {
      PathToParent(t.kids[a[0]], a[1..]);
      assert Parent(a)[1..] == Parent(a[1..]);
    }
  }

  lemma SkippedStep(root: Tree, a: Addr)
    requires ElementAt(root, a)
    ensures SkippedAt(root, a) <==>
              (a != [] && SkippedAt(root, Parent(a))) || At(root, a).name in SKIP_SUBTREE_TAGS
  {
    var path := PathTo(root, a);
    if a != [] {
      PathToParent(root, a);
      var above := PathTo(root, Parent(a));
      assert path == above + [At(root, a)];
      assert forall k :: 0 <= k < |above| ==> path[k] == above[k];
      assert path[|above|] == At(root, a);
    } else {
      assert path == [root] && path[0] == root;
    }
  }

  ghost predicate SkippedMapOk(root: Tree, skipped: map<Addr, bool>) {
    forall a :: ElementAt(root, a) ==> a in skipped && (skipped[a] <==> SkippedAt(root, a))
  }

  /** `build_skipped_map`: one pass in document order, each element looking at its parent's entry. */
  method BuildSkippedMap(root: Tree) returns (skipped: map<Addr, bool>)
    ensures SkippedMapOk(root, skipped)
  {
    var elems := Elements(root, []);
    ElementsParentsFirst(root, []);
    skipped := map[];
    var i := 0;
    while i < |elems|
      invariant i <= |elems|
      invariant forall k :: 0 <= k < i ==> elems[k] in skipped && (skipped[elems[k]] <==> SkippedAt(root, elems[k]))
    {
      var a := elems[i];
      ElementsAt(root, i);
      SkippedStep(root, a);
      if a != [] {
        PathToParent(root, a);
        ParentIsElement(root, a);
        var k := ElementListed(root, Parent(a));
        assert elems[k] == Parent(a) < a == elems[i];
      }
      var parentSkipped := a != [] && Parent(a) in skipped && skipped[Parent(a)];
      skipped := skipped[a := parentSkipped || At(root, a).name in SKIP_SUBTREE_TAGS];
      i := i + 1;
    }
    forall a | ElementAt(root, a) ensures a in skipped && (skipped[a] <==> SkippedAt(root, a)) {
      var k := ElementListed(root, a);
    }
  }

  lemma ParentIsElement(root: Tree, a: Addr)
    requires a != [] && ValidAddr(root, a)
    ensures ElementAt(root, Parent(a)) && a[|a| - 1] < |At(root, Parent(a)).kids|
    ensures At(root, Parent(a)).kids[a[|a| - 1]] == At(root, a)
  {
    var last := a[|a| - 1];
    assert a == Parent(a) + [last];
    AtAppend(root, Parent(a), [last]);
  }

  // ---- the block-descendant map

  ghost predicate BlockMapOk(root: Tree, blocks: map<Addr, bool>) {
    forall a :: ElementAt(root, a) ==> a in blocks && (blocks[a] <==> HasBlockDescendant(At(root, a)))
  }

  /** `any(has_block_in_subtree[child] for child in iter_children_elements(elem))`. */
  method AnyKidHasBlock(root: Tree, a: Addr, inSubtree: map<Addr, bool>) returns (any: bool)
    requires ElementAt(root, a)
    requires forall i :: 0 <= i < |At(root, a).kids| && At(root, a).kids[i].Element? ==>
               a + [i] in inSubtree && (inSubtree[a + [i]] <==> HasBlock(At(root, a).kids[i]))
    ensures any <==> HasBlockDescendant(At(root, a))
  {
    var kids := At(root, a).kids;
    any := false;
    var i := 0;
    while i < |kids| && !any
      invariant i <= |kids|
      invariant any ==> HasBlockDescendant(At(root, a))
      invariant !any ==> forall k :: 0 <= k < i ==> !HasBlock(kids[k])
    {
      if kids[i].Element? && inSubtree[a + [i]] { any := true; }
      i := i + 1;
    }
  }

  /** `build_has_block_descendant_map`: one pass in reverse document order, children before parents. */
  method BuildHasBlockDescendantMap(root: Tree) returns (blocks: map<Addr, bool>)
    ensures BlockMapOk(root, blocks)
  {
    var elems := Elements(root, []);
    ElementsParentsFirst(root, []);
    var inSubtree: map<Addr, bool> := map[];
    blocks := map[];
    var i := |elems|;
    while i > 0
      invariant 0 <= i <= |elems|
      invariant forall k :: i <= k < |elems| ==>
                  && elems[k] in blocks && elems[k] in inSubtree && ElementAt(root, elems[k])
                  && (blocks[elems[k]] <==> HasBlockDescendant(At(root, elems[k])))
                  && (inSubtree[elems[k]] <==> HasBlock(At(root, elems[k])))
    {
      i := i - 1;
      var a := elems[i];
      ElementsAt(root, i);
      forall j | 0 <= j < |At(root, a).kids| && At(root, a).kids[j].Element?
        ensures a + [j] in inSubtree && (inSubtree[a + [j]] <==> HasBlock(At(root, a).kids[j]))
      {
        AtAppend(root, a, [j]);
        var k := ElementListed(root, a + [j]);
        assert elems[i] < elems[k];
      }
      var any := AnyKidHasBlock(root, a, inSubtree);
      blocks := blocks[a := any];
      inSubtree := inSubtree[a := At(root, a).name in BLOCK_TAGS || any];
    }
    forall a | ElementAt(root, a) ensures a in blocks && (blocks[a] <==> HasBlockDescendant(At(root, a))) {
      var k := ElementListed(root, a);
    }
  }

  // ---- units as the parser stores them

  datatype Part = Part(tail: bool, path: string)

  datatype Unit = Unit(block: string, slots: seq<(Part, string)>)

  /** Paths are only ever asked of nodes in the tree. */
  function PathAt(root: Tree, a: Addr): string {
    if root.Element? && ValidAddr(root, a) then NodePath(root, a) else ""
  }

  /** What is stored for a position that holds text: kind, path and text. */
  function StoredAt(root: Tree, c: Content, s: Slot): seq<(Part, string)> {
    if Get(c, s) == "" then [] else [(Part(s.Tail?, PathAt(root, s.at)), Get(c, s))]
  }

  /** What is stored for the positions that hold text. */
  function PartsOf(root: Tree, c: Content, ps: seq<Slot>): seq<(Part, string)> {
    if ps == [] then [] else StoredAt(root, c, ps[0]) + PartsOf(root, c, ps[1..])
  }

  function UnitOf(root: Tree, c: Content, area: Area): seq<Unit> {
    var slots := PartsOf(root, c, area.Slots());
    if slots == [] then [] else [Unit(PathAt(root, area.block), slots)]
  }

  function UnitsOf(root: Tree, c: Content, areas: seq<Area>): seq<Unit> {
    if areas == [] then [] else UnitOf(root, c, areas[0]) + UnitsOf(root, c, areas[1..])
  }

  lemma {:induction false} PartsAppend(root: Tree, c: Content, a: seq<Slot>, b: seq<Slot>)
    ensures PartsOf(root, c, a + b) == PartsOf(root, c, a) + PartsOf(root, c, b)
  {
    if a == [] {
      EmptyConcat(b);
      EmptyConcat(PartsOf(root, c, b));
    } else {
      TailOfConcat(a, b);
      PartsAppend(root, c, a[1..], b);
      Assoc(StoredAt(root, c, a[0]), PartsOf(root, c, a[1..]), PartsOf(root, c, b));
    }
  }

  lemma {:induction false} UnitsAppend(root: Tree, c: Content, a: seq<Area>, b: seq<Area>)
    ensures UnitsOf(root, c, a + b) == UnitsOf(root, c, a) + UnitsOf(root, c, b)
  {
    if a == [] {
      EmptyConcat(b);
      EmptyConcat(UnitsOf(root, c, b));
    } else {
      TailOfConcat(a, b);
      UnitsAppend(root, c, a[1..], b);
      Assoc(UnitOf(root, c, a[0]), UnitsOf(root, c, a[1..]), UnitsOf(root, c, b));
    }
  }

  lemma PartsSingle(root: Tree, c: Content, s: Slot)
    ensures PartsOf(root, c, [s]) == StoredAt(root, c, s)
  {
    assert PartsOf(root, c, [s][1..]) == [];
    EmptyConcat(StoredAt(root, c, s));
  }

  lemma UnitsSingle(root: Tree, c: Content, area: Area)
    ensures UnitsOf(root, c, [area]) == UnitOf(root, c, area)
  {
    assert UnitsOf(root, c, [area][1..]) == [];
  }

  /** `_text_slot_path`: a mapped path, or the parent's path and a count among its other nodes. */
  method TextSlotPath(root: Tree, a: Addr, paths: map<Addr, string>) returns (path: string)
    requires PathMapOk(root, paths) && ValidAddr(root, a)
    ensures path == PathAt(root, a)
  {
    if At(root, a).Element? {
      path := paths[a];
    } else {
      ParentIsElement(root, a);
      var parent, index := Parent(a), a[|a| - 1];
      var kids := At(root, parent).kids;
      var position, i := 0, 0;
      while i <= index
        invariant i <= index + 1 && position == CountLike(kids, Other, i)
      {
        if !kids[i].Element? { position := position + 1; }
        i := i + 1;
      }
      NodePathKid(root, parent, index);
      assert parent + [index] == a;
      CountLikeOther(kids, kids[index], index + 1);
      path := paths[parent] + "/" + StepText(NODE, position);
    }
  }

  lemma {:induction false} CountLikeOther(kids: seq<Tree>, t: Tree, n: nat)
    requires n <= |kids| && !t.Element?
    ensures CountLike(kids, t, n) == CountLike(kids, Other, n)
  {
    if n > 0 { CountLikeOther(kids, t, n - 1); }
  }

  function KidParts(root: Tree, c: Content, t: Tree, at: Addr, i: nat, stop: set<string>): seq<(Part, string)>
    requires t.Element? && i < |t.kids|
  {
    PartsOf(root, c, Walk(t.kids[i], at + [i], stop)) + StoredAt(root, c, Tail(at + [i]))
  }

  /** The nested `walk` of `iter_translatable_text_slots` and `iter_inline_text_slots`, which differ in `stop`. */
  method WalkSlots(root: Tree, at: Addr, stop: set<string>, paths: map<Addr, string>, c: Content)
    returns (results: seq<(Part, string)>)
    requires PathMapOk(root, paths) && ElementAt(root, at)
    ensures results == PartsOf(root, c, Walk(At(root, at), at, stop))
    decreases At(root, at), 1
  {
    var t := At(root, at);
    results := [];
    if t.name in stop { return; }
    if Get(c, Text(at)) != "" { results := results + [(Part(false, paths[at]), Get(c, Text(at)))]; }
    WalkStart(root, c, t, at, stop);
    ghost var all := PartsOf(root, c, Walk(t, at, stop));
    var i := 0;
    while i < |t.kids|
      invariant i <= |t.kids|
      invariant results + PartsOf(root, c, WalkKids(t, at, i, stop)) == all
    {
      var parts := WalkChild(root, at, i, stop, paths, c);
      WalkStep(root, c, t, at, i, stop);
      Assoc(results, parts, PartsOf(root, c, WalkKids(t, at, i + 1, stop)));
      results := results + parts;
      i := i + 1;
    }
  }

  /** One round of its loop: the child, if it is an element, and the child's tail. */
  method WalkChild(root: Tree, at: Addr, i: nat, stop: set<string>, paths: map<Addr, string>, c: Content)
    returns (parts: seq<(Part, string)>)
    requires PathMapOk(root, paths) && ElementAt(root, at) && i < |At(root, at).kids|
    ensures parts == KidParts(root, c, At(root, at), at, i, stop)
    decreases At(root, at), 0
  {
    var child := at + [i];
    AtAppend(root, at, [i]);
    parts := [];
    if At(root, child).Element? { parts := WalkSlots(root, child, stop, paths, c); }
    if Get(c, Tail(child)) != "" {
      var path := TextSlotPath(root, child, paths);
      parts := parts + [(Part(true, path), Get(c, Tail(child)))];
    }
  }

  lemma WalkStart(root: Tree, c: Content, t: Tree, at: Addr, stop: set<string>)
    requires t.Element? && t.name !in stop
    ensures PartsOf(root, c, Walk(t, at, stop)) == StoredAt(root, c, Text(at)) + PartsOf(root, c, WalkKids(t, at, 0, stop))
  {
    PartsSingle(root, c, Text(at));
    PartsAppend(root, c, [Text(at)], WalkKids(t, at, 0, stop));
  }

  lemma WalkStep(root: Tree, c: Content, t: Tree, at: Addr, i: nat, stop: set<string>)
    requires t.Element? && i < |t.kids|
    ensures PartsOf(root, c, WalkKids(t, at, i, stop))
         == KidParts(root, c, t, at, i, stop) + PartsOf(root, c, WalkKids(t, at, i + 1, stop))
  {
    PartsAppend(root, c, Walk(t.kids[i], at + [i], stop) + [Tail(at + [i])], WalkKids(t, at, i + 1, stop));
    PartsAppend(root, c, Walk(t.kids[i], at + [i], stop), [Tail(at + [i])]);
    PartsSingle(root, c, Tail(at + [i]));
  }

  function SingleUnits(root: Tree, c: Content, block: Addr, s: Slot): seq<Unit> {
    if Get(c, s) == "" then [] else [Unit(PathAt(root, block), StoredAt(root, c, s))]
  }

  function KidUnits(root: Tree, c: Content, t: Tree, at: Addr, i: nat): seq<Unit>
    requires t.Element? && i < |t.kids|
  {
    UnitsOf(root, c, KidArea(t, at, i)) + if Collects(t) then SingleUnits(root, c, at, Tail(at + [i])) else []
  }

  /** `collect_document_units`. */
  method CollectDocumentUnits(root: Tree, at: Addr, paths: map<Addr, string>, skipped: map<Addr, bool>,
                              blocks: map<Addr, bool>, c: Content) returns (units: seq<Unit>)
    requires PathMapOk(root, paths) && SkippedMapOk(root, skipped) && BlockMapOk(root, blocks) && ElementAt(root, at)
    ensures units == if SkippedAt(root, at) then [] else UnitsOf(root, c, Areas(At(root, at), at))
    decreases At(root, at), 2
  {
    units := [];
    if skipped[at] { return; }
    var t := At(root, at);
    SkippedStep(root, at);
    var isBlock, hasBlock := t.name in BLOCK_TAGS, blocks[at];
    if isBlock && !hasBlock {
      units := LeafUnit(root, at, paths, c);
      return;
    }
    var collect := isBlock && hasBlock;
    if collect { units := TextUnit(root, at, paths, c); }
    DirectUnits(root, c, t, at);
    var inner := CollectKids(root, at, collect, paths, skipped, blocks, c);
    units := units + inner;
  }

  /** A block without blocks below it is one unit. */
  method LeafUnit(root: Tree, at: Addr, paths: map<Addr, string>, c: Content) returns (units: seq<Unit>)
    requires PathMapOk(root, paths) && ElementAt(root, at)
    ensures units == UnitsOf(root, c, [Subtree(at, at, At(root, at), SKIP_SUBTREE_TAGS)])
    decreases At(root, at), 1, 1
  {
    var slots := WalkSlots(root, at, SKIP_SUBTREE_TAGS, paths, c);
    UnitsSingle(root, c, Subtree(at, at, At(root, at), SKIP_SUBTREE_TAGS));
    units := if slots != [] then [Unit(paths[at], slots)] else [];
  }

  /** The text directly inside an element is a unit of its own. */
  method TextUnit(root: Tree, at: Addr, paths: map<Addr, string>, c: Content) returns (units: seq<Unit>)
    requires PathMapOk(root, paths) && ElementAt(root, at)
    ensures units == SingleUnits(root, c, at, Text(at))
  {
    units := [];
    if Get(c, Text(at)) != "" { units := [Unit(paths[at], [(Part(false, paths[at]), Get(c, Text(at)))])]; }
  }

  /** Its loop over the children. */
  method CollectKids(root: Tree, at: Addr, collect: bool, paths: map<Addr, string>, skipped: map<Addr, bool>,
                     blocks: map<Addr, bool>, c: Content) returns (units: seq<Unit>)
    requires PathMapOk(root, paths) && SkippedMapOk(root, skipped) && BlockMapOk(root, blocks) && ElementAt(root, at)
    requires !SkippedAt(root, at) && collect == Collects(At(root, at))
    ensures units == UnitsOf(root, c, KidAreas(At(root, at), at, 0))
    decreases At(root, at), 1
  {
    var t := At(root, at);
    units := [];
    var i := 0;
    EmptyConcat(UnitsOf(root, c, KidAreas(t, at, 0)));
    while i < |t.kids|
      invariant i <= |t.kids|
      invariant units + UnitsOf(root, c, KidAreas(t, at, i)) == UnitsOf(root, c, KidAreas(t, at, 0))
    {
      var inner := CollectChild(root, at, i, collect, paths, skipped, blocks, c);
      KidUnitsStep(root, c, t, at, i);
      Assoc(units, inner, UnitsOf(root, c, KidAreas(t, at, i + 1)));
      units := units + inner;
      i := i + 1;
    }
    EmptyConcat(units);
  }

  /** One round of its loop: an inline child is one unit, another element is collected in turn, and the
      child's tail is a unit of its own. */
  method CollectChild(root: Tree, at: Addr, i: nat, collect: bool, paths: map<Addr, string>, skipped: map<Addr, bool>,
                      blocks: map<Addr, bool>, c: Content) returns (units: seq<Unit>)
    requires PathMapOk(root, paths) && SkippedMapOk(root, skipped) && BlockMapOk(root, blocks) && ElementAt(root, at)
    requires i < |At(root, at).kids| && !SkippedAt(root, at) && collect == Collects(At(root, at))
    ensures units == KidUnits(root, c, At(root, at), at, i)
    decreases At(root, at), 0
  {
    var t, child := At(root, at), at + [i];
    AtAppend(root, at, [i]);
    units := [];
    if t.kids[i].Element? {
      if collect && t.kids[i].name !in BLOCK_TAGS && !blocks[child] {
        var slots := WalkSlots(root, child, SKIP_SUBTREE_TAGS + BLOCK_TAGS, paths, c);
        UnitsSingle(root, c, Subtree(at, child, t.kids[i], SKIP_SUBTREE_TAGS + BLOCK_TAGS));
        if slots != [] { units := [Unit(paths[at], slots)]; }
      } else {
        units := CollectDocumentUnits(root, child, paths, skipped, blocks, c);
        assert Parent(child) == at;
        SkippedStep(root, child);
      }
    }
    assert units == UnitsOf(root, c, KidArea(t, at, i));
    if collect && Get(c, Tail(child)) != "" {
      var path := TextSlotPath(root, child, paths);
      units := units + [Unit(paths[at], [(Part(true, path), Get(c, Tail(child)))])];
    }
  }

  lemma SingleUnit(root: Tree, c: Content, block: Addr, s: Slot)
    ensures UnitsOf(root, c, [Single(block, s)]) == SingleUnits(root, c, block, s)
  {
    UnitsSingle(root, c, Single(block, s));
    PartsSingle(root, c, s);
  }

  lemma DirectUnits(root: Tree, c: Content, t: Tree, at: Addr)
    requires t.Element? && t.name !in SKIP_SUBTREE_TAGS && (IsBlock(t) ==> HasBlockDescendant(t))
    ensures UnitsOf(root, c, Areas(t, at))
         == (if Collects(t) then SingleUnits(root, c, at, Text(at)) else []) + UnitsOf(root, c, KidAreas(t, at, 0))
  {
    UnitsAppend(root, c, DirectText(t, at), KidAreas(t, at, 0));
    SingleUnit(root, c, at, Text(at));
  }

  lemma KidUnitsStep(root: Tree, c: Content, t: Tree, at: Addr, i: nat)
    requires t.Element? && i < |t.kids|
    ensures UnitsOf(root, c, KidAreas(t, at, i)) == KidUnits(root, c, t, at, i) + UnitsOf(root, c, KidAreas(t, at, i + 1))
  {
    var tail := if Collects(t) then [Single(at, Tail(at + [i]))] else [];
    UnitsAppend(root, c, KidArea(t, at, i) + tail, KidAreas(t, at, i + 1));
    UnitsAppend(root, c, KidArea(t, at, i), tail);
    SingleUnit(root, c, at, Tail(at + [i]));
  }

  // ---- the whole document

  /** Everything the units store, one unit after the other. */
  function StoredIn(units: seq<Unit>): seq<(Part, string)> {
    if units == [] then [] else units[0].slots + StoredIn(units[1..])
  }

  lemma {:induction false} StoredAppend(a: seq<Unit>, b: seq<Unit>)
    ensures StoredIn(a + b) == StoredIn(a) + StoredIn(b)
  {
    if a == [] {
      EmptyConcat(b);
      EmptyConcat(StoredIn(b));
    } else {
      TailOfConcat(a, b);
      StoredAppend(a[1..], b);
      Assoc(a[0].slots, StoredIn(a[1..]), StoredIn(b));
    }
  }

  lemma StoredUnit(root: Tree, c: Content, area: Area)
    ensures StoredIn(UnitOf(root, c, area)) == PartsOf(root, c, area.Slots())
  {
    var units, slots := UnitOf(root, c, area), PartsOf(root, c, area.Slots());
    if slots != [] {
      assert units[1..] == [];
      EmptyConcat(slots);
    }
  }

  lemma {:induction false} UnitsStore(root: Tree, c: Content, areas: seq<Area>)
    ensures StoredIn(UnitsOf(root, c, areas)) == PartsOf(root, c, AllSlots(areas))
  {
    if areas != [] {
      StoredAppend(UnitOf(root, c, areas[0]), UnitsOf(root, c, areas[1..]));
      StoredUnit(root, c, areas[0]);
      UnitsStore(root, c, areas[1..]);
      PartsAppend(root, c, areas[0].Slots(), AllSlots(areas[1..]));
    }
  }

  /** The parser on a whole document: what the units store, one after the other, is exactly what stands at the
      document's wanted positions, in document order, empty ones left out. */
  method ExtractDocument(root: Tree, c: Content) returns (units: seq<Unit>)
    requires root.Element?
    ensures StoredIn(units) == PartsOf(root, c, Filter(s => Wanted(root, Owner(s)), Walk(root, [], {})))
  {
    var paths := BuildElemPathMap(root);
    var skipped := BuildSkippedMap(root);
    var blocks := BuildHasBlockDescendantMap(root);
    SkippedStep(root, []);
    units := CollectDocumentUnits(root, [], paths, skipped, blocks, c);
    UnitsStore(root, c, Areas(root, []));
    ExactExtraction(root);
  }
}
