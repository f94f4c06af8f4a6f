/**
 * The merge engine: `update_cache_data` and `remove_cache_data` on the pair
 * of shadow trees, and the invariants the pair keeps.
 */
module Merge {
  import opened Wrappers
  import opened Paths
  import opened Markers

  /** No leaf path of a equals, or is a prefix of, a leaf path of b. */
  ghost predicate Exclusive(a: Tree, b: Tree) {
    forall qa, qb :: HasLeaf(a, qa) && HasLeaf(b, qb) ==> !(qa <= qb)
  }

  /** What the pair (`_remove`, `_update`) keeps between operations. */
  ghost predicate Consistent(rm: Tree, up: Tree) {
    && WellFormed(rm) && WellFormed(up)
    && DotFreeTree(rm) && DotFreeTree(up)
    && Exclusive(rm, up) && Exclusive(up, rm)
  }

  /** `update_cache_data` on (`_remove`, `_update`): prune p from `_remove`, and mark it in `_update` if that succeeded. */
  function MarkUpdated(rm: Tree, up: Tree, p: seq<string>): (Tree, Tree)
    requires |p| > 0
  {
    var (ok, rm') := Prune(rm, p);
    (rm', if ok then Marked(up, p) else up)
  }

  /** `remove_cache_data` on (`_remove`, `_update`): the mirror image. */
  function MarkRemoved(rm: Tree, up: Tree, p: seq<string>): (Tree, Tree)
    requires |p| > 0
  {
    var (ok, up') := Prune(up, p);
    (if ok then Marked(rm, p) else rm, up')
  }

  /**
   * An update at p is dropped while `_remove` holds a leaf strictly above p;
   * otherwise nothing is left in `_remove` at or below p, and `_update` gets a
   * leaf at p unless it already has one strictly above p.
   */
  lemma MarkUpdatedEffect(rm: Tree, up: Tree, p: seq<string>)
    requires |p| > 0
    ensures Blocked(rm, p) ==> MarkUpdated(rm, up, p) == (rm, up)
    ensures !Blocked(rm, p) ==> forall q :: p <= q ==> Sub(MarkUpdated(rm, up, p).0, q) == None
    ensures !Blocked(rm, p) && Blocked(up, p) ==> MarkUpdated(rm, up, p).1 == up
    ensures !Blocked(rm, p) && !Blocked(up, p) ==> HasLeaf(MarkUpdated(rm, up, p).1, p)
  {
    if !Blocked(rm, p) {
      forall q | p <= q ensures Sub(MarkUpdated(rm, up, p).0, q) == None {
        PruneAt(rm, p, q);
      }
      if Blocked(up, p) {
        MarkedBlocked(up, p);
      } else {
        MarkedAt(up, p, p);
      }
    }
  }

  /** The mirror image for a removal at p. */
  lemma MarkRemovedEffect(rm: Tree, up: Tree, p: seq<string>)
    requires |p| > 0
    ensures Blocked(up, p) ==> MarkRemoved(rm, up, p) == (rm, up)
    ensures !Blocked(up, p) ==> forall q :: p <= q ==> Sub(MarkRemoved(rm, up, p).1, q) == None
    ensures !Blocked(up, p) && Blocked(rm, p) ==> MarkRemoved(rm, up, p).0 == rm
    ensures !Blocked(up, p) && !Blocked(rm, p) ==> HasLeaf(MarkRemoved(rm, up, p).0, p)
  {
    if !Blocked(up, p) {
      forall q | p <= q ensures Sub(MarkRemoved(rm, up, p).1, q) == None {
        PruneAt(up, p, q);
      }
      if Blocked(rm, p) {
        MarkedBlocked(rm, p);
      } else {
        MarkedAt(rm, p, p);
      }
    }
  }

  /**
   * Pruning p from one tree and marking p in the other keeps the two trees'
   * leaves off each other's root-to-leaf lines.
   */
  lemma PruneThenMarkExclusive(pruned: Tree, marked: Tree, p: seq<string>)
    requires |p| > 0 && !Blocked(pruned, p)
    requires Exclusive(pruned, marked) && Exclusive(marked, pruned)
    ensures var a := Prune(pruned, p).1;
            var b := if Blocked(marked, p) then marked else Marked(marked, p);
            Exclusive(a, b) && Exclusive(b, a)
  {
    var a := Prune(pruned, p).1;
    var b := if Blocked(marked, p) then marked else Marked(marked, p);
    forall qa, qb | HasLeaf(a, qa) && HasLeaf(b, qb) ensures !(qa <= qb) && !(qb <= qa) {
      PruneLeaves(pruned, p, qa);
      if !Blocked(marked, p) {
        MarkedLeaves(marked, p, qb);
      }
      if qb == p && qa <= p {
        if qa < p {
          LeafAboveBlocks(pruned, p, qa);
        }
      }
    }
  }

  /** `update_cache_data` keeps the pair consistent. */
  lemma MarkUpdatedConsistent(rm: Tree, up: Tree, p: seq<string>)
    requires |p| > 0 && AllDotFree(p) && Consistent(rm, up)
    ensures var (rm', up') := MarkUpdated(rm, up, p); Consistent(rm', up')
  {
    if !Blocked(rm, p) {
      PruneWellFormed(rm, p);
      PruneDotFree(rm, p);
      MarkedWellFormed(up, p);
      MarkedDotFree(up, p);
      PruneThenMarkExclusive(rm, up, p);
      if Blocked(up, p) {
        MarkedBlocked(up, p);
      }
    }
  }

  /** `remove_cache_data` keeps the pair consistent. */
  lemma MarkRemovedConsistent(rm: Tree, up: Tree, p: seq<string>)
    requires |p| > 0 && AllDotFree(p) && Consistent(rm, up)
    ensures var (rm', up') := MarkRemoved(rm, up, p); Consistent(rm', up')
  {
    if !Blocked(up, p) {
      PruneWellFormed(up, p);
      PruneDotFree(up, p);
      MarkedWellFormed(rm, p);
      MarkedDotFree(rm, p);
      PruneThenMarkExclusive(up, rm, p);
      if Blocked(rm, p) {
        MarkedBlocked(rm, p);
      }
    }
  }
}
