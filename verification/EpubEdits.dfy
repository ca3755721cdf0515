/** Edits of a document that each stay within positions of their own: they do not disturb each other. */
module EpubEdits {
  import opened Lists
  import opened XmlTree

  type Edit = Content -> Content

  ghost predicate SameOutside(all: seq<Slot>, c: Content, d: Content) {
    forall s :: s !in all ==> Get(c, s) == Get(d, s)
  }

  /** The edit changes only `own`, and what it does there depends only on what is there. */
  ghost predicate Local(e: Edit, own: seq<Slot>) {
    && (forall c :: SameOutside(own, c, e(c)))
    && forall c, d :: AgreeOn(own, c, d) ==> AgreeOn(own, e(c), e(d))
  }

  ghost predicate AllLocal(edits: seq<Edit>, owns: seq<seq<Slot>>) {
    |edits| == |owns| && forall k :: 0 <= k < |edits| ==> Local(edits[k], owns[k])
  }

  ghost predicate Disjoint(owns: seq<seq<Slot>>) {
    forall i, j, s :: 0 <= i < j < |owns| && s in owns[i] ==> s !in owns[j]
  }

  ghost predicate Outside(owns: seq<seq<Slot>>, s: Slot) {
    forall k :: 0 <= k < |owns| ==> s !in owns[k]
  }

  function Fold(edits: seq<Edit>, c: Content): Content {
    if edits == [] then c else Fold(edits[1..], edits[0](c))
  }

  lemma RestLocal(edits: seq<Edit>, owns: seq<seq<Slot>>)
    requires edits != [] && AllLocal(edits, owns)
    ensures AllLocal(edits[1..], owns[1..]) && Local(edits[0], owns[0])
  {
    forall k | 0 <= k < |edits[1..]| ensures Local(edits[1..][k], owns[1..][k]) { assert Local(edits[k + 1], owns[k + 1]); }
  }

  lemma RestDisjoint(owns: seq<seq<Slot>>)
    requires owns != [] && Disjoint(owns)
    ensures Disjoint(owns[1..]) && forall s :: s in owns[0] ==> Outside(owns[1..], s)
  {
    var rest := owns[1..];
    assert forall k :: 0 <= k < |rest| ==> rest[k] == owns[k + 1];
  }

  /** What belongs to no edit stays as it was. */
  lemma {:induction false} FoldOutside(edits: seq<Edit>, owns: seq<seq<Slot>>, c: Content, s: Slot)
    requires AllLocal(edits, owns) && Outside(owns, s)
    ensures Get(Fold(edits, c), s) == Get(c, s)
    decreases |edits|
  {
    if edits != [] {
      RestLocal(edits, owns);
      assert Outside(owns[1..], s) by { assert forall k :: 0 <= k < |owns[1..]| ==> owns[1..][k] == owns[k + 1]; }
      FoldOutside(edits[1..], owns[1..], edits[0](c), s);
      assert SameOutside(owns[0], c, edits[0](c));
    }
  }

  /** Each edit's own positions end up as if it had been the only one. */
  lemma {:induction false} FoldInside(edits: seq<Edit>, owns: seq<seq<Slot>>, c: Content, k: nat)
    requires AllLocal(edits, owns) && Disjoint(owns) && k < |edits|
    ensures AgreeOn(owns[k], edits[k](c), Fold(edits, c))
    decreases |edits|
  {
    var next := edits[0](c);
    RestLocal(edits, owns);
    RestDisjoint(owns);
    if k == 0 {
      forall s | s in owns[0] ensures Get(Fold(edits[1..], next), s) == Get(next, s) {
        FoldOutside(edits[1..], owns[1..], next, s);
      }
    } else {
      FoldInside(edits[1..], owns[1..], next, k - 1);
      Undisturbed(edits[0], edits[k], owns, c, k);
    }
  }

  lemma Undisturbed(first: Edit, e: Edit, owns: seq<seq<Slot>>, c: Content, k: nat)
    requires 0 < k < |owns| && Disjoint(owns) && Local(first, owns[0]) && Local(e, owns[k])
    ensures AgreeOn(owns[k], e(c), e(first(c)))
  {
    assert SameOutside(owns[0], c, first(c));
    forall s | s in owns[k] ensures Get(c, s) == Get(first(c), s) {
      assert s !in owns[0];
    }
    assert AgreeOn(owns[k], c, first(c));
  }

  // ---- a choice of edits, in some order

  ghost predicate InRange(picks: seq<nat>, n: nat) {
    forall k :: 0 <= k < |picks| ==> picks[k] < n
  }

  ghost function Picked<T>(all: seq<T>, picks: seq<nat>): seq<T>
    requires InRange(picks, |all|)
  {
    seq(|picks|, k requires 0 <= k < |picks| => all[picks[k]])
  }

  lemma PickedLocal(edits: seq<Edit>, owns: seq<seq<Slot>>, picks: seq<nat>)
    requires AllLocal(edits, owns) && Disjoint(owns) && InRange(picks, |edits|) && NoDup(picks)
    ensures AllLocal(Picked(edits, picks), Picked(owns, picks)) && Disjoint(Picked(owns, picks))
  {
    var chosen := Picked(owns, picks);
    forall i, j, s | 0 <= i < j < |chosen| && s in chosen[i] ensures s !in chosen[j] {
      assert picks[i] != picks[j];
      assert chosen[i] == owns[picks[i]] && chosen[j] == owns[picks[j]];
    }
  }

  lemma SamePick(p: seq<nat>, q: seq<nat>, k: nat) returns (j: nat)
    requires multiset(p) == multiset(q) && k < |p|
    ensures j < |q| && q[j] == p[k]
  {
    assert p[k] in multiset(p);
    assert p[k] in q;
    j :| 0 <= j < |q| && q[j] == p[k];
  }

  /** The order of the edits does not matter. */
  lemma OrderFree(edits: seq<Edit>, owns: seq<seq<Slot>>, p: seq<nat>, q: seq<nat>, c: Content, s: Slot)
    requires AllLocal(edits, owns) && Disjoint(owns) && multiset(p) == multiset(q)
    requires InRange(p, |edits|) && InRange(q, |edits|) && NoDup(p) && NoDup(q)
    ensures Get(Fold(Picked(edits, p), c), s) == Get(Fold(Picked(edits, q), c), s)
  {
    PickedLocal(edits, owns, p);
    PickedLocal(edits, owns, q);
    var a, b := Picked(owns, p), Picked(owns, q);
    if k :| 0 <= k < |a| && s in a[k] {
      var j := SamePick(p, q, k);
      FoldInside(Picked(edits, p), a, c, k);
      FoldInside(Picked(edits, q), b, c, j);
      assert a[k] == b[j] == owns[p[k]];
    } else {
      forall j | 0 <= j < |b| ensures s !in b[j] {
        var k := SamePick(q, p, j);
        assert a[k] == b[j];
      }
      FoldOutside(Picked(edits, p), a, c, s);
      FoldOutside(Picked(edits, q), b, c, s);
    }
  }
}
