/**
 * The shadow trees `_remove` and `_update` and their two edit primitives,
 * `_delete_dict_recursive` (Prune) and `_set_dict_recursive` (SetLeaf).
 */
module Markers {
  import opened Wrappers
  import opened Paths

  /** `True` (everything from here down is dirty) or a dict of finer markers. */
  datatype Marker = Leaf | Branch(children: map<string, Marker>)

  /** The root dict of a shadow tree. */
  type Tree = map<string, Marker>

  /** The marker stored at path q, if the walk from the root reaches one. */
  function Sub(t: Tree, q: seq<string>): Option<Marker>
    decreases |q|
  {
    if |q| == 0 || q[0] !in t then None
    else if |q| == 1 then Some(t[q[0]])
    else match t[q[0]]
      case Leaf => None
      case Branch(c) => Sub(c, q[1..])
  }

  predicate HasLeaf(t: Tree, q: seq<string>) {
    Sub(t, q) == Some(Leaf)
  }

  /** Walking along p meets a leaf at a strict prefix of p. */
  predicate Blocked(t: Tree, p: seq<string>)
    decreases |p|
  {
    |p| >= 2 && p[0] in t &&
    match t[p[0]]
    case Leaf => true
    case Branch(c) => Blocked(c, p[1..])
  }

  /** No dict marker is empty. */
  predicate NonEmpty(m: Marker) {
    match m
    case Leaf => true
    case Branch(c) => |c| > 0 && forall k :: k in c ==> NonEmpty(c[k])
  }

  predicate WellFormed(t: Tree) {
    forall k :: k in t ==> NonEmpty(t[k])
  }

  /** Every key in the tree is free of the separator (markers are written at split paths). */
  predicate DotFreeMarker(m: Marker) {
    match m
    case Leaf => true
    case Branch(c) => forall k :: k in c ==> DotFree(k) && DotFreeMarker(c[k])
  }

  predicate DotFreeTree(t: Tree) {
    forall k :: k in t ==> DotFree(k) && DotFreeMarker(t[k])
  }

  /**
   * `_delete_dict_recursive(t, p)`: remove everything at or below p, dropping
   * dicts emptied on the way back; answers False where a leaf lies strictly above p.
   */
  function Prune(t: Tree, p: seq<string>): (r: (bool, Tree))
    ensures r.0 == !Blocked(t, p)
    ensures !r.0 ==> r.1 == t
    decreases |p|
  {
    if |p| == 0 then (true, t)
    else if |p| == 1 then (true, t - {p[0]})
    else if p[0] !in t then (true, t)
    else match t[p[0]]
      case Leaf => (false, t)
      case Branch(c) =>
        var (ok, c') := Prune(c, p[1..]);
        (ok, if |c'| == 0 then t - {p[0]} else t[p[0] := Branch(c')])
  }

  /** What `data.setdefault(name, dict())` descends into. */
  function ChildMap(t: Tree, k: string): Tree {
    if k in t && t[k].Branch? then t[k].children else map[]
  }

  /** The tree `_set_dict_recursive(t, p)` leaves behind. */
  function Marked(t: Tree, p: seq<string>): Tree
    requires |p| > 0
    decreases |p|
  {
    if |p| == 1 then t[p[0] := Leaf]
    else if p[0] in t && t[p[0]].Leaf? then t
    else t[p[0] := Branch(Marked(ChildMap(t, p[0]), p[1..]))]
  }

  /**
   * `_set_dict_recursive(t, p)`: descend along all but the last segment,
   * creating dicts where missing and giving up at a leaf, then write a leaf.
   */
  method SetLeaf(t: Tree, p: seq<string>) returns (r: Tree)
    requires |p| > 0
    ensures r == Marked(t, p)
  {
    // levels[j] is the dict reached after j descent steps
    var levels := [t];
    var i := 0;
    while i < |p| - 1
      invariant 0 <= i <= |p| - 1 && |levels| == i + 1 && levels[0] == t
      invariant forall j :: 0 <= j < i ==>
        !(p[j] in levels[j] && levels[j][p[j]].Leaf?) && levels[j + 1] == ChildMap(levels[j], p[j])
    {
      var cur := levels[i];
      if p[i] in cur && cur[p[i]].Leaf? {
        // a leaf above the target: nothing is written
        ghost var j := i;
        assert Marked(levels[j], p[j..]) == levels[j];
        while j > 0
          invariant 0 <= j <= i
          invariant p[j] in levels[j] && Marked(levels[j], p[j..]) == levels[j]
        {
          j := j - 1;
          assert levels[j + 1] == ChildMap(levels[j], p[j]) && |levels[j + 1]| > 0;
          assert p[j..][1..] == p[j + 1..];
          assert levels[j][p[j] := Branch(levels[j + 1])] == levels[j];
        }
        assert p[0..] == p;
        return t;
      }
      levels := levels + [ChildMap(cur, p[i])];
      i := i + 1;
    }
    r := levels[i][p[i] := Leaf];
    assert p[i..] == [p[i]];
    while i > 0
      invariant 0 <= i <= |p| - 1
      invariant r == Marked(levels[i], p[i..])
    {
      i := i - 1;
      assert p[i..][1..] == p[i + 1..];
      r := levels[i][p[i] := Branch(r)];
    }
    assert p[0..] == p;
  }

  /** A leaf strictly above p makes the walk along p blocked. */
  lemma {:induction false} LeafAboveBlocks(t: Tree, p: seq<string>, q: seq<string>)
    requires q < p && HasLeaf(t, q)
    ensures Blocked(t, p)
    decreases |q|
  {
    if |q| > 1 {
      assert q[1..] < p[1..];
      LeafAboveBlocks(t[q[0]].children, p[1..], q[1..]);
    }
  }

  /** A blocked walk has met a leaf at a strict prefix of p. */
  lemma {:induction false} BlockedLeafAbove(t: Tree, p: seq<string>) returns (i: nat)
    requires Blocked(t, p)
    ensures 1 <= i < |p| && HasLeaf(t, p[..i])
    decreases |p|
  {
    match t[p[0]]
    case Leaf =>
      i := 1;
    case Branch(c) =>
      var j := BlockedLeafAbove(c, p[1..]);
      i := j + 1;
      assert p[..i][1..] == p[1..][..j];
  }

  /** Blocked says exactly that some strict prefix of p holds a leaf. */
  lemma BlockedIffLeafAbove(t: Tree, p: seq<string>)
    ensures Blocked(t, p) <==> exists i :: 1 <= i < |p| && HasLeaf(t, p[..i])
  {
    if Blocked(t, p) {
      var i := BlockedLeafAbove(t, p);
    }
    forall i | 1 <= i < |p| && HasLeaf(t, p[..i]) ensures Blocked(t, p) {
      LeafAboveBlocks(t, p, p[..i]);
    }
  }

  /** Where Prune succeeds, nothing is left at or below p and everything off the path is as before. */
  lemma {:induction false} PruneAt(t: Tree, p: seq<string>, q: seq<string>)
    requires |p| > 0 && !Blocked(t, p)
    ensures p <= q ==> Sub(Prune(t, p).1, q) == None
    ensures !(p <= q) && !(q < p) ==> Sub(Prune(t, p).1, q) == Sub(t, q)
    ensures q < p ==> !HasLeaf(Prune(t, p).1, q)
    decreases |p|
  {
    var t' := Prune(t, p).1;
    if |q| == 0 || q[0] != p[0] {
      assert |q| > 0 ==> !(p <= q) && !(q < p);
      assert |q| > 0 ==> Sub(t', q) == Sub(t, q) by {
        if |q| > 0 {
          assert q[0] in t' <==> q[0] in t;
          assert q[0] in t ==> t'[q[0]] == t[q[0]];
        }
      }
    } else if |p| == 1 || p[0] !in t {
      assert |p| == 1 ==> q[0] !in t';
    } else {
      var c := t[p[0]].children;
      var c' := Prune(c, p[1..]).1;
      if |q| > 1 {
        PruneAt(c, p[1..], q[1..]);
        assert p <= q <==> p[1..] <= q[1..];
        assert q < p <==> q[1..] < p[1..];
        assert Sub(t, q) == Sub(c, q[1..]);
        if |c'| == 0 {
          assert Sub(c', q[1..]) == None;
        } else {
          assert Sub(t', q) == Sub(c', q[1..]);
        }
      } else {
        assert q < p;
      }
    }
  }

  /** Where Prune succeeds, the leaves left are the old ones not at or below p. */
  lemma PruneLeaves(t: Tree, p: seq<string>, q: seq<string>)
    requires |p| > 0 && !Blocked(t, p)
    ensures HasLeaf(Prune(t, p).1, q) <==> HasLeaf(t, q) && !(p <= q)
  {
    PruneAt(t, p, q);
    if q < p && HasLeaf(t, q) {
      LeafAboveBlocks(t, p, q);
    }
  }

  /** Prune never leaves an empty dict behind. */
  lemma {:induction false} PruneWellFormed(t: Tree, p: seq<string>)
    requires WellFormed(t)
    ensures WellFormed(Prune(t, p).1)
    decreases |p|
  {
    if |p| > 1 && p[0] in t && t[p[0]].Branch? {
      PruneWellFormed(t[p[0]].children, p[1..]);
    }
  }

  lemma {:induction false} PruneDotFree(t: Tree, p: seq<string>)
    requires DotFreeTree(t)
    ensures DotFreeTree(Prune(t, p).1)
    decreases |p|
  {
    if |p| > 1 && p[0] in t && t[p[0]].Branch? {
      PruneDotFree(t[p[0]].children, p[1..]);
    }
  }

  /** Below a leaf, SetLeaf changes nothing. */
  lemma {:induction false} MarkedBlocked(t: Tree, p: seq<string>)
    requires |p| > 0 && Blocked(t, p)
    ensures Marked(t, p) == t
    decreases |p|
  {
    if t[p[0]].Branch? {
      MarkedBlocked(t[p[0]].children, p[1..]);
      assert t[p[0] := Branch(t[p[0]].children)] == t;
    }
  }

  /** Otherwise p holds a leaf, nothing is left below it, and nothing off the path changes. */
  lemma {:induction false} MarkedAt(t: Tree, p: seq<string>, q: seq<string>)
    requires |p| > 0 && !Blocked(t, p)
    ensures q == p ==> Sub(Marked(t, p), q) == Some(Leaf)
    ensures p < q ==> Sub(Marked(t, p), q) == None
    ensures !(p <= q) && !(q < p) ==> Sub(Marked(t, p), q) == Sub(t, q)
    ensures q < p && |q| > 0 ==> Sub(Marked(t, p), q).Some? && Sub(Marked(t, p), q).value.Branch?
    decreases |p|
  {
    if |p| > 1 && |q| > 1 && q[0] == p[0] {
      var c := ChildMap(t, p[0]);
      MarkedAt(c, p[1..], q[1..]);
      assert p < q <==> p[1..] < q[1..];
      assert q < p <==> q[1..] < p[1..];
      assert q == p <==> q[1..] == p[1..];
      if p[0] !in t || t[p[0]].Leaf? {
        assert Sub(c, q[1..]) == None;
      }
    }
  }

  /** The leaves after SetLeaf: p, and the old ones not at or below p. */
  lemma MarkedLeaves(t: Tree, p: seq<string>, q: seq<string>)
    requires |p| > 0 && !Blocked(t, p)
    ensures HasLeaf(Marked(t, p), q) <==> q == p || (HasLeaf(t, q) && !(p <= q))
  {
    MarkedAt(t, p, q);
    if q < p && HasLeaf(t, q) {
      LeafAboveBlocks(t, p, q);
    }
  }

  /** SetLeaf never leaves an empty dict behind. */
  lemma {:induction false} MarkedWellFormed(t: Tree, p: seq<string>)
    requires |p| > 0 && WellFormed(t)
    ensures WellFormed(Marked(t, p)) && p[0] in Marked(t, p)
    decreases |p|
  {
    if |p| > 1 && !(p[0] in t && t[p[0]].Leaf?) {
      MarkedWellFormed(ChildMap(t, p[0]), p[1..]);
    }
  }

  lemma {:induction false} MarkedDotFree(t: Tree, p: seq<string>)
    requires |p| > 0 && DotFreeTree(t) && AllDotFree(p)
    ensures DotFreeTree(Marked(t, p))
    decreases |p|
  {
    if |p| > 1 && !(p[0] in t && t[p[0]].Leaf?) {
      assert AllDotFree(p[1..]) by {
        forall i | 0 <= i < |p| - 1 ensures DotFree(p[1..][i]) {
          assert p[1..][i] == p[i + 1];
        }
      }
      MarkedDotFree(ChildMap(t, p[0]), p[1..]);
      assert DotFree(p[0]);
    }
  }
}
