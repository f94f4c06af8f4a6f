/**
 * Packing: `_pack_update_data_recursive`, `_pack_remove_data_recursive` and
 * the change-set `pack_cache` builds from them.
 */
module Packing {
  import opened Wrappers
  import opened Paths
  import opened Values
  import opened Markers

  /**
   * Wherever a dict marker's key is present in the live data, the live value
   * is a dict (elsewhere the walkers raise on `k not in od` or `od[k]`).
   */
  predicate Aligned(t: Tree, d: Data)
    decreases Branch(t)
  {
    forall k :: k in t && k in d && t[k].Branch? ==>
      d[k].Dict? && Aligned(t[k].children, d[k].entries)
  }

  /** The writes `_pack_update_data_recursive(pd, od, db_dict, prefix)` makes into db_dict. */
  function PackUpdate(pd: Tree, od: Data, prefix: string): set<(string, Value)>
    requires Aligned(pd, od)
    decreases Branch(pd), 1
  {
    set k, e | k in pd && e in UpdateEntry(pd, od, prefix, k) :: e
  }

  /** The writes made for key k of the loop: skipped when absent, the live value at a leaf, else the recursion. */
  function UpdateEntry(pd: Tree, od: Data, prefix: string, k: string): set<(string, Value)>
    requires Aligned(pd, od) && k in pd
    decreases Branch(pd), 0
  {
    if k !in od then {}
    else if pd[k].Leaf? then {(NewPrefix(prefix, k), od[k])}
    else PackUpdate(pd[k].children, od[k].entries, NewPrefix(prefix, k))
  }

  /** The keys `_pack_remove_data_recursive(rd, od, db_dict, prefix)` sets to True. */
  function PackRemove(rd: Tree, od: Data, prefix: string): set<string>
    requires Aligned(rd, od)
    decreases Branch(rd), 1
  {
    set k, key | k in rd && key in RemoveEntry(rd, od, prefix, k) :: key
  }

  /** The keys emitted for key k: the key itself when absent, nothing at a present leaf, else the recursion. */
  function RemoveEntry(rd: Tree, od: Data, prefix: string, k: string): set<string>
    requires Aligned(rd, od) && k in rd
    decreases Branch(rd), 0
  {
    if k !in od then {NewPrefix(prefix, k)}
    else if rd[k].Leaf? then {}
    else PackRemove(rd[k].children, od[k].entries, NewPrefix(prefix, k))
  }

  /** An update leaf at q whose whole path exists in the live data. */
  ghost predicate UpdateHit(up: Tree, d: Data, q: seq<string>) {
    HasLeaf(up, q) && Lookup(d, q).Some?
  }

  /** A remove marker (leaf or dict) at q whose ancestors exist in the live data but whose own key does not. */
  ghost predicate RemoveHit(rm: Tree, d: Data, q: seq<string>) {
    |q| > 0 && Sub(rm, q).Some? && Lookup(d, Parent(q)).Some? && Lookup(d, q) == None
  }

  lemma ParentCons(k: string, q: seq<string>)
    requires |q| > 0
    ensures Parent([k] + q) == [k] + Parent(q)
  {
  }

  /** Every update leaf whose path exists is written, keyed by its dotted path, with the live value. */
  lemma {:induction false} PackUpdateComplete(pd: Tree, od: Data, prefix: string, q: seq<string>)
    requires Aligned(pd, od) && UpdateHit(pd, od, q)
    ensures (KeyFrom(prefix, q), Lookup(od, q).value) in PackUpdate(pd, od, prefix)
    decreases |q|
  {
    var k := q[0];
    assert Lookup(od, q) == Get(od[k], q[1..]);
    if |q| == 1 {
      assert (KeyFrom(prefix, q), Lookup(od, q).value) in UpdateEntry(pd, od, prefix, k);
    } else {
      var c, m := pd[k].children, od[k].entries;
      PackUpdateComplete(c, m, NewPrefix(prefix, k), q[1..]);
      assert (KeyFrom(prefix, q), Lookup(od, q).value) in UpdateEntry(pd, od, prefix, k);
    }
  }

  /** Every write comes from an update leaf whose path exists; absent keys are skipped. */
  lemma {:induction false} PackUpdateSource(pd: Tree, od: Data, prefix: string, e: (string, Value))
    returns (q: seq<string>)
    requires Aligned(pd, od) && e in PackUpdate(pd, od, prefix)
    ensures UpdateHit(pd, od, q) && e == (KeyFrom(prefix, q), Lookup(od, q).value)
    decreases Branch(pd)
  {
    var k :| k in pd && e in UpdateEntry(pd, od, prefix, k);
    if pd[k].Leaf? {
      q := [k];
      assert q[1..] == [];
      assert Lookup(od, q) == Get(od[k], []);
      assert KeyFrom(prefix, q) == NewPrefix(prefix, k);
    } else {
      var q' := PackUpdateSource(pd[k].children, od[k].entries, NewPrefix(prefix, k), e);
      q := [k] + q';
      assert q[1..] == q';
      assert Lookup(od, q) == Get(od[k], q');
    }
  }

  /** Every remove marker whose key is gone from the live data, below present ancestors, is reported. */
  lemma {:induction false} PackRemoveComplete(rd: Tree, od: Data, prefix: string, q: seq<string>)
    requires Aligned(rd, od) && RemoveHit(rd, od, q)
    ensures KeyFrom(prefix, q) in PackRemove(rd, od, prefix)
    decreases |q|
  {
    var k := q[0];
    if |q| == 1 {
      assert KeyFrom(prefix, q) == NewPrefix(prefix, k);
      assert q[1..] == [];
      assert k in od ==> Lookup(od, q) == Get(od[k], q[1..]);
      assert KeyFrom(prefix, q) in RemoveEntry(rd, od, prefix, k);
    } else {
      ParentCons(k, q[1..]);
      assert q == [k] + q[1..];
      assert k in od;
      var c, m := rd[k].children, od[k].entries;
      assert Lookup(od, q) == Get(od[k], q[1..]);
      assert Lookup(od, Parent(q)) == Get(od[k], Parent(q[1..]));
      PackRemoveComplete(c, m, NewPrefix(prefix, k), q[1..]);
      assert KeyFrom(prefix, q) in RemoveEntry(rd, od, prefix, k);
    }
  }

  /** Every reported key is such a marker: a marker whose key is still present is never reported. */
  lemma {:induction false} PackRemoveSource(rd: Tree, od: Data, prefix: string, key: string)
    returns (q: seq<string>)
    requires Aligned(rd, od) && key in PackRemove(rd, od, prefix)
    ensures RemoveHit(rd, od, q) && key == KeyFrom(prefix, q)
    decreases Branch(rd)
  {
    var k :| k in rd && key in RemoveEntry(rd, od, prefix, k);
    if k !in od {
      q := [k];
      assert Parent(q) == [];
    } else {
      var q' := PackRemoveSource(rd[k].children, od[k].entries, NewPrefix(prefix, k), key);
      q := [k] + q';
      assert q[1..] == q';
      ParentCons(k, q');
      assert Lookup(od, q) == Get(od[k], q');
      assert Lookup(od, Parent(q)) == Get(od[k], Parent(q'));
    }
  }

  /** A set of writes in which no key receives two different values. */
  ghost predicate Functional(w: set<(string, Value)>) {
    forall e1, e2 :: e1 in w && e2 in w && e1.0 == e2.0 ==> e1.1 == e2.1
  }

  /** The dict a set of non-conflicting writes leaves behind. */
  function AsDict(w: set<(string, Value)>): (m: map<string, Value>)
    requires Functional(w)
    ensures forall e :: e in w ==> e.0 in m && m[e.0] == e.1
    ensures forall key :: key in m ==> (key, m[key]) in w
  {
    map e | e in w :: e.0 := e.1
  }

  /** The result of `pack_cache`: the optional 'remove' and 'update' entries. */
  datatype ChangeSet = ChangeSet(remove: Option<map<string, bool>>, update: Option<map<string, Value>>)

  /** `{}` */
  const NoChanges := ChangeSet(None, None)

  /** What `pack_cache` returns for trees rm, up over live data d. */
  function Packed(rm: Tree, up: Tree, d: Data): ChangeSet
    requires Aligned(rm, d) && Aligned(up, d) && Functional(PackUpdate(up, d, ""))
  {
    ChangeSet(
      if |rm| > 0 then Some(map key | key in PackRemove(rm, d, "") :: true) else None,
      if |up| > 0 then Some(AsDict(PackUpdate(up, d, ""))) else None)
  }

  /** 'remove' is present iff `_remove` is non-empty, 'update' iff `_update` is; so `{}` iff both are empty. */
  lemma PackedShape(rm: Tree, up: Tree, d: Data)
    requires Aligned(rm, d) && Aligned(up, d) && Functional(PackUpdate(up, d, ""))
    ensures Packed(rm, up, d).remove.Some? <==> rm != map[]
    ensures Packed(rm, up, d).update.Some? <==> up != map[]
    ensures Packed(rm, up, d) == NoChanges <==> rm == map[] && up == map[]
  {
    if rm != map[] {
      var k :| k in rm;
    }
    if up != map[] {
      var k :| k in up;
    }
  }

  /** The 'update' entries are exactly the dotted paths of update leaves present in d, with their live values. */
  lemma PackedUpdateComplete(rm: Tree, up: Tree, d: Data, q: seq<string>)
    requires Aligned(rm, d) && Aligned(up, d) && Functional(PackUpdate(up, d, ""))
    requires UpdateHit(up, d, q)
    ensures Packed(rm, up, d).update.Some?
    ensures DottedKey(q) in Packed(rm, up, d).update.value
    ensures Packed(rm, up, d).update.value[DottedKey(q)] == Lookup(d, q).value
  {
    assert q[0] in up;
    PackUpdateComplete(up, d, "", q);
  }

  lemma PackedUpdateSource(rm: Tree, up: Tree, d: Data, key: string) returns (q: seq<string>)
    requires Aligned(rm, d) && Aligned(up, d) && Functional(PackUpdate(up, d, ""))
    requires Packed(rm, up, d).update.Some? && key in Packed(rm, up, d).update.value
    ensures UpdateHit(up, d, q) && key == DottedKey(q)
    ensures Packed(rm, up, d).update.value[key] == Lookup(d, q).value
  {
    q := PackUpdateSource(up, d, "", (key, Packed(rm, up, d).update.value[key]));
  }

  /** The 'remove' entries are exactly the dotted paths of the first markers whose key is gone from d. */
  lemma PackedRemoveComplete(rm: Tree, up: Tree, d: Data, q: seq<string>)
    requires Aligned(rm, d) && Aligned(up, d) && Functional(PackUpdate(up, d, ""))
    requires RemoveHit(rm, d, q)
    ensures Packed(rm, up, d).remove.Some?
    ensures DottedKey(q) in Packed(rm, up, d).remove.value
  {
    assert q[0] in rm;
    PackRemoveComplete(rm, d, "", q);
  }

  lemma PackedRemoveSource(rm: Tree, up: Tree, d: Data, key: string) returns (q: seq<string>)
    requires Aligned(rm, d) && Aligned(up, d) && Functional(PackUpdate(up, d, ""))
    requires Packed(rm, up, d).remove.Some? && key in Packed(rm, up, d).remove.value
    ensures RemoveHit(rm, d, q) && key == DottedKey(q)
    ensures Packed(rm, up, d).remove.value[key]
  {
    q := PackRemoveSource(rm, d, "", key);
  }

  /** The paths of a dot-free tree are dot-free. */
  lemma {:induction false} NodePathDotFree(t: Tree, q: seq<string>)
    requires DotFreeTree(t) && Sub(t, q).Some?
    ensures AllDotFree(q)
    decreases |q|
  {
    if |q| > 1 {
      NodePathDotFree(t[q[0]].children, q[1..]);
      assert forall i :: 1 <= i < |q| ==> q[i] == q[1..][i - 1];
    }
  }

  /** A tree that has no dict marker under the empty key at its root. */
  predicate RootKeyed(t: Tree) {
    "" in t ==> t[""].Leaf?
  }

  /** In such a dot-free tree, different marker paths get different output keys. */
  lemma DottedKeyInjective(t1: Tree, t2: Tree, q1: seq<string>, q2: seq<string>)
    requires DotFreeTree(t1) && RootKeyed(t1) && Sub(t1, q1).Some?
    requires DotFreeTree(t2) && RootKeyed(t2) && Sub(t2, q2).Some?
    requires DottedKey(q1) == DottedKey(q2)
    ensures q1 == q2
  {
    NodePathDotFree(t1, q1);
    NodePathDotFree(t2, q2);
    if q1[0] == "" {
      assert q1 == [""] && q1[1..] == [];
      assert DottedKey(q1) == KeyFrom("", []);
    }
    if q2[0] == "" {
      assert q2 == [""] && q2[1..] == [];
      assert DottedKey(q2) == KeyFrom("", []);
    }
    if q1[0] != "" {
      DottedKeyRoundTrip(q1);
    }
    if q2[0] != "" {
      DottedKeyRoundTrip(q2);
    }
    if q1[0] != "" && q2[0] == "" {
      DottedKeyIsJoin(q1);
      JoinNonEmpty(q1);
    }
    if q1[0] == "" && q2[0] != "" {
      DottedKeyIsJoin(q2);
      JoinNonEmpty(q2);
    }
  }

  /** So for such an update tree the writes never conflict and `pack_cache` is well defined. */
  lemma UpdateWritesFunctional(up: Tree, d: Data)
    requires Aligned(up, d) && DotFreeTree(up) && RootKeyed(up)
    ensures Functional(PackUpdate(up, d, ""))
  {
    forall e1, e2 | e1 in PackUpdate(up, d, "") && e2 in PackUpdate(up, d, "") && e1.0 == e2.0
      ensures e1.1 == e2.1
    {
      var q1 := PackUpdateSource(up, d, "", e1);
      var q2 := PackUpdateSource(up, d, "", e2);
      DottedKeyInjective(up, up, q1, q2);
    }
  }

  /** And with both trees of that shape, no key is reported both removed and updated. */
  lemma PackedKeysDisjoint(rm: Tree, up: Tree, d: Data, key: string)
    requires Aligned(rm, d) && Aligned(up, d)
    requires DotFreeTree(rm) && RootKeyed(rm) && DotFreeTree(up) && RootKeyed(up)
    requires Functional(PackUpdate(up, d, ""))
    requires Packed(rm, up, d).remove.Some? && key in Packed(rm, up, d).remove.value
    requires Packed(rm, up, d).update.Some?
    ensures key !in Packed(rm, up, d).update.value
  {
    var qr := PackedRemoveSource(rm, up, d, key);
    if key in Packed(rm, up, d).update.value {
      var qu := PackedUpdateSource(rm, up, d, key);
      DottedKeyInjective(rm, up, qr, qu);
    }
  }
}
