/** The document under write-back, updated in place by the loops of transoria/formats/epub_writer.py. */
module EpubDocument {
  import opened Lists
  import opened Slashes
  import opened TextRules
  import opened XmlTree
  import opened ElementPaths
  import opened EpubUnits
  import opened EpubWriter
  import opened EpubConservation
  import opened EpubSegments

  // ---- what the loops compute, step by step

  /** Climbing from `a` towards the root keeps the common prefix until it is reached. */
  lemma {:induction false} ClimbKeepsPrefix(a: Addr, b: Addr)
    ensures a <= b ==> CommonPrefix(a, b) == a
    ensures !(a <= b) ==> a != [] && CommonPrefix(Parent(a), b) == CommonPrefix(a, b)
  {
    if a != [] && b != [] && a[0] == b[0] {
      ClimbKeepsPrefix(a[1..], b[1..]);
      assert a == [a[0]] + a[1..] && b == [b[0]] + b[1..];
      if !(a <= b) { assert Parent(a) == [a[0]] + Parent(a[1..]); }
    }
  }

  lemma SetAllFirst(c: Content, slots: seq<Slot>, texts: seq<string>, i: nat)
    requires i < |slots| == |texts|
    ensures SetAll(c, slots[i..], texts[i..]) == SetAll(c[slots[i] := texts[i]], slots[i + 1..], texts[i + 1..])
  {
    assert slots[i..][1..] == slots[i + 1..] && texts[i..][1..] == texts[i + 1..];
  }

  lemma {:induction false} AlreadyBlank(c: Content, slots: seq<Slot>)
    requires forall s :: s in slots ==> s in c && c[s] == ""
    ensures SetAll(c, slots, Blanks(|slots|)) == c
  {
    if slots != [] {
      assert Blanks(|slots|)[1..] == Blanks(|slots| - 1) && c[slots[0] := ""] == c;
      AlreadyBlank(c, slots[1..]);
    }
  }

  lemma {:induction false} SetAllBlank(c: Content, slots: seq<Slot>)
    ensures forall s :: s in slots ==> s in SetAll(c, slots, Blanks(|slots|)) && SetAll(c, slots, Blanks(|slots|))[s] == ""
    ensures forall s :: s in c && c[s] == "" ==>
              s in SetAll(c, slots, Blanks(|slots|)) && SetAll(c, slots, Blanks(|slots|))[s] == ""
    decreases |slots|
  {
    if slots != [] {
      assert Blanks(|slots|)[1..] == Blanks(|slots| - 1);
      SetAllBlank(c[slots[0] := ""], slots[1..]);
    }
  }

  // ---- slots whose formatting is lost

  predicate IsLineBreak(root: Tree, s: Slot)
    requires ValidAddr(root, s.at)
  {
    var t := At(root, s.at);
    t.Element? && t.name == "br"
  }

  /** The slot's text had a formatting boundary of its own: it sits below the shared container, or behind a line break. */
  predicate Bounded(root: Tree, resolved: seq<Slot>, s: Slot)
    requires resolved != [] && ValidAddr(root, s.at)
  {
    Owner(s) != CommonOf(resolved) || IsLineBreak(root, s)
  }

  /** What `_replace_text_slots` reports. Lines lost: some text outside the initial had a boundary. Lines
      kept: some inline text outside the initial got nothing. */
  ghost predicate Unmapped(ch: Chars, root: Tree, resolved: seq<Slot>, current: seq<string>, lines: seq<string>,
                           scope: Option<Scope>)
    requires resolved != [] && |current| == |resolved| && ValidSlots(root, resolved)
  {
    exists i :: 0 <= i < |resolved| && (scope.Some? ==> i !in scope.value.indices) && !Blank(ch, current[i]) &&
      if |lines| == |resolved| then Blank(ch, lines[i]) && Owner(resolved[i]) != CommonOf(resolved)
      else Bounded(root, resolved, resolved[i])
  }

  // ---- paths, resolved step by step

  function Below(at: Addr, rest: Option<Addr>): Option<Addr> {
    match rest case None => None case Some(p) => Some(at + p)
  }

  lemma BelowRoot(rest: Option<Addr>)
    ensures Below([], rest) == rest
  {
    if rest.Some? { assert [] + rest.value == rest.value; }
  }

  lemma BelowStep(at: Addr, i: nat, rest: Option<Addr>)
    ensures Below(at + [i], rest) == Below(at, match rest case None => None case Some(p) => Some([i] + p))
  {
    if rest.Some? { assert at + [i] + rest.value == at + ([i] + rest.value); }
  }

  function Follow(slots: seq<Slot>, rest: Option<seq<Slot>>): Option<seq<Slot>> {
    match rest case None => None case Some(r) => Some(slots + r)
  }

  lemma FollowRoot(rest: Option<seq<Slot>>)
    ensures Follow([], rest) == rest
  {
    if rest.Some? { assert [] + rest.value == rest.value; }
  }

  lemma FollowStep(slots: seq<Slot>, s: Slot, rest: Option<seq<Slot>>)
    ensures Follow(slots + [s], rest) == Follow(slots, match rest case None => None case Some(r) => Some([s] + r))
  {
    if rest.Some? { assert slots + [s] + rest.value == slots + ([s] + rest.value); }
  }

  // ---- the document

  lemma SlotsAtBlank(c: Content, resolved: seq<Slot>, indices: seq<nat>)
    requires forall k :: 0 <= k < |indices| ==> indices[k] < |resolved|
    requires forall s :: s in resolved ==> s in c && c[s] == ""
    ensures forall s :: s in SlotsAt(resolved, indices) ==> s in c && c[s] == ""
  {
  }

  class Document {
    const root: Tree
    var content: Content

    constructor (root: Tree, content: Content)
      ensures this.root == root && this.content == content
    {
      this.root := root;
      this.content := content;
    }

    method SetSlot(s: Slot, text: string)
      modifies this
      ensures content == old(content)[s := text]
    {
      content := content[s := text];
    }

    /** `_insert_before`: behind the previous sibling, or in front of everything in the parent. */
    method InsertBefore(carrier: Addr, text: string)
      requires carrier != []
      modifies this
      ensures content == AppendText(old(content), Before(carrier), text)
    {
      var i := carrier[|carrier| - 1];
      if i == 0 {
        var parent := Parent(carrier);
        SetSlot(Text(parent), Get(content, Text(parent)) + text);
      } else {
        var previous := Parent(carrier) + [i - 1];
        SetSlot(Tail(previous), Get(content, Tail(previous)) + text);
      }
    }

    method SetSlots(slots: seq<Slot>, texts: seq<string>)
      requires |slots| == |texts|
      modifies this
      ensures content == SetAll(old(content), slots, texts)
    {
      var i := 0;
      while i < |slots|
        invariant 0 <= i <= |slots|
        invariant SetAll(content, slots[i..], texts[i..]) == SetAll(old(content), slots, texts)
      {
        SetAllFirst(content, slots, texts, i);
        SetSlot(slots[i], texts[i]);
        i := i + 1;
      }
    }

    /** `_common_container`: the deepest element that contains every owner (`CommonIsGreatest`). */
    method CommonContainer(resolved: seq<Slot>) returns (common: Addr)
      requires resolved != []
      ensures common == CommonOf(resolved)
    {
      common := Owner(resolved[0]);
      var i := 1;
      while i < |resolved|
        invariant 1 <= i <= |resolved|
        invariant common == CommonOf(resolved[..i])
      {
        var owner := Owner(resolved[i]);
        ghost var start := common;
        ClimbKeepsPrefix(common, owner);
        while !(common <= owner)
          invariant CommonPrefix(common, owner) == CommonPrefix(start, owner)
          invariant !(common <= owner) ==> common != []
          decreases |common|
        {
          ClimbKeepsPrefix(common, owner);
          common := Parent(common);
          ClimbKeepsPrefix(common, owner);
        }
        ClimbKeepsPrefix(common, owner);
        assert resolved[..i + 1][..i] == resolved[..i];
        i := i + 1;
      }
      assert resolved[..i] == resolved;
    }

    /** The child of `common` on the way up from `a`. */
    method ClimbTo(common: Addr, a: Addr) returns (top: Addr)
      requires common <= a && common != a
      ensures top == ChildOf(common, a)
    {
      top := a;
      while Parent(top) != common
        invariant common <= top <= a && common != top && top != []
        decreases |top|
      {
        top := Parent(top);
      }
    }

    /** The widening loop of `_initial_scope`. */
    method Widen(ch: Chars, resolved: seq<Slot>, current: seq<string>, start: Addr) returns (carrier: Addr)
      requires |current| == |resolved| && ValidAddr(root, start)
      ensures carrier == WidenInitial(ch, root, resolved, current, start)
    {
      carrier := start;
      while InlineParent(root, carrier) && IsInitial(ch, ScopeText(ch, resolved, current, Parent(carrier)))
        invariant ValidAddr(root, carrier)
        invariant WidenInitial(ch, root, resolved, current, carrier) == WidenInitial(ch, root, resolved, current, start)
        decreases |carrier|
      {
        carrier := Parent(carrier);
      }
    }

    /** `_initial_scope`. */
    method FindInitialScope(ch: Chars, resolved: seq<Slot>, current: seq<string>) returns (scope: Option<Scope>)
      requires |current| == |resolved| && ValidSlots(root, resolved)
      ensures scope == InitialScope(ch, root, content, resolved, current)
    {
      var start := InitialStart(ch, root, resolved, current);
      if start.None? { return None; }
      var carrier := Widen(ch, resolved, current, start.value);
      var indices := ScopeIndices(resolved, carrier);
      if HasTag(At(root, carrier), RICH_TAGS) || !TextOutside(ch, current, indices) { return None; }
      ghost var candidate := ScopeCandidate(ch, root, resolved, current);
      assert candidate == Some(Scope(carrier, indices));
      if TextBefore(ch, root, content, carrier) { return None; }
      return Some(Scope(carrier, indices));
    }

    /** Moves the initial into the first of `inside`, the rest of which is already clear. */
    method PutInitial(inside: seq<Slot>, carrier: Addr, p: Pieces)
      requires inside != [] && carrier != []
      requires forall s :: s in inside ==> s in content && content[s] == ""
      modifies this
      ensures content == PlaceInitial(old(content), inside, carrier, p)
    {
      AlreadyBlank(content, inside);
      SetSlot(inside[0], p.initial);
      InsertBefore(carrier, p.leading);
      SetSlot(Tail(carrier), p.rest + Get(content, Tail(carrier)));
    }

    method FillMatched(ch: Chars, resolved: seq<Slot>, lines: seq<string>, scope: Option<Scope>)
      requires |lines| == |resolved| && Splits(resolved, scope)
      modifies this
      ensures content == Matched(ch, old(content), resolved, lines, scope)
    {
      SetSlots(resolved, lines);
      if scope.Some? {
        var Scope(carrier, indices) := scope.value;
        var prefix := JoinAt(lines, indices);
        var donor := Donor(ch, lines, indices);
        if donor < |lines| {
          var p := SplitInitial(ch, lines[donor]);
          prefix := p.initial;
          SetSlot(resolved[donor], p.leading + p.rest);
        }
        assert content == Filled(ch, old(content), resolved, lines, indices);
        var inside := SlotsAt(resolved, indices);
        ghost var filled := content;
        SetSlots(inside, Blanks(|inside|));
        SetAllBlank(filled, inside);
        AlreadyBlank(content, inside);
        PutInitial(inside, carrier, SplitInitial(ch, prefix));
      }
    }

    method ClearAll(resolved: seq<Slot>)
      modifies this
      ensures content == SetAll(old(content), resolved, Blanks(|resolved|))
      ensures forall s :: s in resolved ==> s in content && content[s] == ""
    {
      SetAllBlank(content, resolved);
      SetSlots(resolved, Blanks(|resolved|));
    }

    method FillBesideInitial(ch: Chars, resolved: seq<Slot>, translation: string, scope: Scope, common: Addr)
      requires resolved != [] && Splits(resolved, Some(scope)) && common == CommonOf(resolved)
      requires forall s :: s in resolved ==> s in content && content[s] == ""
      modifies this
      ensures content == BesideInitial(ch, old(content), resolved, translation, scope)
    {
      CarrierBelowCommon(resolved, scope.carrier);
      var top := ClimbTo(common, scope.carrier);
      SlotsAtBlank(content, resolved, scope.indices);
      PutInitial(SlotsAt(resolved, scope.indices), top, SplitInitial(ch, translation));
    }

    method FillInFront(resolved: seq<Slot>, translation: string, common: Addr)
      requires resolved != [] && common == CommonOf(resolved)
      modifies this
      ensures content == InFront(old(content), resolved, translation)
    {
      CommonIsGreatest(resolved, []);
      var owner := Owner(resolved[0]);
      if owner == common {
        SetSlot(resolved[0], translation);
      } else {
        var top := ClimbTo(common, owner);
        InsertBefore(top, translation);
      }
    }

    method FillUnmatched(ch: Chars, resolved: seq<Slot>, translation: string, scope: Option<Scope>, common: Addr)
      requires resolved != [] && Splits(resolved, scope) && common == CommonOf(resolved)
      modifies this
      ensures content == Unmatched(ch, old(content), resolved, translation, scope)
    {
      ClearAll(resolved);
      if scope.Some? { FillBesideInitial(ch, resolved, translation, scope.value, common); }
      else { FillInFront(resolved, translation, common); }
    }

    /** The two checks of `_replace_text_slots` for lost formatting. */
    method FindUnmapped(ch: Chars, resolved: seq<Slot>, current: seq<string>, lines: seq<string>, common: Addr,
                        scope: Option<Scope>)
      returns (unmapped: bool)
      requires resolved != [] && |current| == |resolved| && ValidSlots(root, resolved) && common == CommonOf(resolved)
      ensures unmapped <==> Unmapped(ch, root, resolved, current, lines, scope)
    {
      var indices := if scope.Some? then scope.value.indices else [];
      var even := |lines| == |resolved|;
      unmapped := exists i | 0 <= i < |resolved| ::
        (&& i !in indices && !Blank(ch, current[i])
         && if even then Blank(ch, lines[i]) && Owner(resolved[i]) != common
            else Owner(resolved[i]) != common || IsLineBreak(root, resolved[i]));
    }

    /** `_replace_text_slots`. */
    method ReplaceTextSlots(ch: Chars, resolved: seq<Slot>, current: seq<string>, lines: seq<string>,
                            translation: string)
      returns (unmapped: bool)
      requires |current| == |resolved| && ValidSlots(root, resolved)
      modifies this
      ensures content == Replaced(ch, root, old(content), resolved, current, lines, translation)
      ensures resolved == [] ==> !unmapped
      ensures resolved != [] ==>
                (unmapped <==> Unmapped(ch, root, resolved, current, lines,
                                        InitialScope(ch, root, old(content), resolved, current)))
    {
      if resolved == [] { return false; }
      var common := CommonContainer(resolved);
      var scope := FindInitialScope(ch, resolved, current);
      unmapped := FindUnmapped(ch, resolved, current, lines, common, scope);
      if |lines| == |resolved| {
        FillMatched(ch, resolved, lines, scope);
      } else {
        FillUnmatched(ch, resolved, translation, scope, common);
      }
    }

    /** The loop of `find_by_path`. */
    method FindElement(path: string) returns (found: Option<Addr>)
      requires root.Element?
      ensures found == FindByPath(root, path)
    {
      if path == "" || path[0] != '/' { return None; }
      var parts := PathParts(path);
      if parts == [] || PathName(parts[0]) != root.name { return None; }
      var current, at, i := root, [], 1;
      BelowRoot(Descend(root, parts[1..]));
      while i < |parts|
        invariant 1 <= i <= |parts|
        invariant Below(at, Descend(current, parts[i..])) == Descend(root, parts[1..])
      {
        var matches, position := Matches(Kids(current), PathName(parts[i])), PathPosition(parts[i]);
        assert parts[i..][1..] == parts[i + 1..];
        if position < 1 || position > |matches| { return None; }
        MatchesBound(Kids(current), PathName(parts[i]), 0);
        BelowStep(at, matches[position - 1], Descend(Kids(current)[matches[position - 1]], parts[i + 1..]));
        current, at, i := Kids(current)[matches[position - 1]], at + [matches[position - 1]], i + 1;
      }
      assert parts[i..] == [] && at + [] == at;
      return Some(at);
    }

    /** The parts of a segment, resolved one after the other; nothing if one of them is gone. */
    method ResolveParts(parts: seq<Part>) returns (resolved: Option<seq<Slot>>)
      requires root.Element?
      ensures resolved == Resolve(root, parts)
    {
      var slots, i := [], 0;
      assert parts[0..] == parts;
      FollowRoot(Resolve(root, parts));
      while i < |parts|
        invariant 0 <= i <= |parts|
        invariant Follow(slots, Resolve(root, parts[i..])) == Resolve(root, parts)
      {
        var found := FindElement(parts[i].path);
        assert parts[i..][1..] == parts[i + 1..];
        if found.None? { return None; }
        var slot := if parts[i].tail then Tail(found.value) else Text(found.value);
        FollowStep(slots, slot, Resolve(root, parts[i + 1..]));
        slots, i := slots + [slot], i + 1;
      }
      assert parts[i..] == [] && slots + [] == slots;
      return Some(slots);
    }

    /** One round of the loop of `_apply_doc_segments`, when no bilingual copy is wanted. */
    method ApplyOne(ch: Chars, segment: Segment, translation: string)
      requires root.Element? && Storable(root, segment)
      modifies this
      ensures content == ApplySegment(ch, root, old(content), segment, translation)
    {
      var resolved := ResolveParts(segment.parts);
      if resolved.None? { return; }
      var current := Normalized(ch, Texts(content, resolved.value));
      if current == segment.digest && translation != segment.text {
        var unmapped := ReplaceTextSlots(ch, resolved.value, current, Split(translation, '\n'), translation);
      }
    }

    /** The loop of `_apply_doc_segments`. */
    method ApplyDocSegments(ch: Chars, jobs: seq<Job>)
      requires root.Element? && AllStorable(root, jobs)
      modifies this
      ensures content == ApplyAll(ch, root, old(content), jobs)
    {
      var i := 0;
      assert jobs[0..] == jobs;
      while i < |jobs|
        invariant 0 <= i <= |jobs| && AllStorable(root, jobs[i..])
        invariant ApplyAll(ch, root, content, jobs[i..]) == ApplyAll(ch, root, old(content), jobs)
      {
        StorableNext(root, jobs, i);
        ApplyOne(ch, jobs[i].segment, jobs[i].translation);
        i := i + 1;
      }
    }
  }

  lemma StorableNext(root: Tree, jobs: seq<Job>, i: nat)
    requires root.Element? && i < |jobs| && AllStorable(root, jobs[i..])
    ensures jobs[i..][0] == jobs[i] && jobs[i..][1..] == jobs[i + 1..]
    ensures Storable(root, jobs[i].segment) && AllStorable(root, jobs[i + 1..])
  {
    var here, rest := jobs[i..], jobs[i + 1..];
    assert here[0] == jobs[i];
    forall k | 0 <= k < |rest| ensures Storable(root, rest[k].segment) {
      assert rest[k] == here[k + 1];
    }
  }
}
