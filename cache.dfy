/**
 * `ChangeDataCache`: the live data, the two shadow trees, the recording flag,
 * and the mutation API that edits the data and then records the edit.
 */
module Cache {
  import opened Wrappers
  import opened Paths
  import opened Values
  import opened Markers
  import opened Merge
  import opened Packing

  /** The trees after `update_cache_data(k)`: unchanged while recording is off. */
  function AfterUpdateMark(on: bool, rm: Tree, up: Tree, k: string): (Tree, Tree) {
    if on then MarkUpdated(rm, up, Split(k)) else (rm, up)
  }

  /** The trees after `remove_cache_data(k)`. */
  function AfterRemoveMark(on: bool, rm: Tree, up: Tree, k: string): (Tree, Tree) {
    if on then MarkRemoved(rm, up, Split(k)) else (rm, up)
  }

  class ChangeDataCache {
    var data: Data
    var remove: Tree
    var update: Tree
    var canCache: bool

    ghost predicate Valid()
      reads this
    {
      Consistent(remove, update)
    }

    constructor (data: Data)
      ensures Valid()
      ensures this.data == data && remove == map[] && update == map[] && canCache
    {
      this.data := data;
      remove, update := map[], map[];
      canCache := true;
    }

    method ClearCache()
      modifies this
      ensures Valid()
      ensures remove == map[] && update == map[]
      ensures data == old(data) && canCache == old(canCache)
    {
      remove, update := map[], map[];
    }

    /** Recording resumes; markers gathered before are kept. */
    method BeginCache()
      modifies this
      ensures canCache
      ensures data == old(data) && remove == old(remove) && update == old(update)
    {
      canCache := true;
    }

    /** Recording pauses; markers gathered so far are kept. */
    method StopCache()
      modifies this
      ensures !canCache
      ensures data == old(data) && remove == old(remove) && update == old(update)
    {
      canCache := false;
    }

    /**
     * `pack_cache(clear_cache)`: the change-set of the current trees over the
     * live data; `{}` leaves the trees alone, otherwise they are emptied if asked.
     */
    method PackCache(clear: bool) returns (res: ChangeSet)
      requires Valid()
      requires Aligned(remove, data) && Aligned(update, data) && Functional(PackUpdate(update, data, ""))
      modifies this
      ensures data == old(data) && canCache == old(canCache)
      ensures Valid()
      ensures res == Packed(old(remove), old(update), data)
      ensures res == NoChanges <==> old(remove) == map[] && old(update) == map[]
      ensures if clear && res != NoChanges then remove == map[] && update == map[]
              else remove == old(remove) && update == old(update)
    {
      var removed: Option<map<string, bool>> := None;
      var updated: Option<map<string, Value>> := None;
      if |remove| > 0 {
        var keys := PackRemove(remove, data, "");
        removed := Some(map key | key in keys :: true);
      }
      if |update| > 0 {
        updated := Some(AsDict(PackUpdate(update, data, "")));
      }
      res := ChangeSet(removed, updated);
      PackedShape(remove, update, data);
      if res == NoChanges {
        return;
      }
      if clear {
        ClearCache();
      }
    }

    /** `for name in path: data = data[name]` from `_data`; None where a step raises. */
    method Walk(path: seq<string>) returns (r: Option<Value>)
      ensures r == Lookup(data, path)
    {
      var cur := Dict(data);
      var i := 0;
      assert path[0..] == path;
      while i < |path|
        invariant 0 <= i <= |path|
        invariant Lookup(data, path) == Get(cur, path[i..])
      {
        if !(cur.Dict? && path[i] in cur.entries) {
          return None;
        }
        assert path[i..][1..] == path[i + 1..];
        cur := cur.entries[path[i]];
        i := i + 1;
      }
      return Some(cur);
    }

    /** `_get_before_last_level_data(k)`: the value holding the last segment, and that segment. */
    method GetBeforeLastLevelData(k: string) returns (r: Option<(Value, string)>)
      ensures var p := Split(k);
              r == match Lookup(data, Parent(p))
                   case Some(bld) => Some((bld, Last(p)))
                   case None => None
    {
      var p := Split(k);
      var bld := Walk(Parent(p));
      r := match bld
           case Some(v) => Some((v, Last(p)))
           case None => None;
    }

    /** `_get_level_data(k)`: the value at the whole path. */
    method GetLevelData(k: string) returns (r: Option<Value>)
      ensures r == Lookup(data, Split(k))
    {
      r := Walk(Split(k));
    }

    /** `_remove_data_impl(k)`: pop the last key from its container. */
    method RemoveDataImpl(k: string) returns (ok: bool)
      modifies this
      ensures ok == Lookup(old(data), Split(k)).Some?
      ensures data == if ok then DeleteAt(old(data), Split(k)) else old(data)
      ensures remove == old(remove) && update == old(update) && canCache == old(canCache)
    {
      var p := Split(k);
      LookupViaContainer(data, p);
      var found := GetBeforeLastLevelData(k);
      // a failed walk, or `in`/`pop` on something that is not a dict, returns False or raises
      if found.None? || !found.value.0.Dict? {
        return false;
      }
      var (bld, kLast) := found.value;
      if kLast !in bld.entries {
        return false;
      }
      data := WithDictAt(data, Parent(p), bld.entries - {kLast});
      return true;
    }

    /** `_update_data_impl(k, v)`: set the last key in its container. */
    method UpdateDataImpl(k: string, v: Value) returns (ok: bool)
      modifies this
      ensures ok == Container(old(data), Split(k)).Some?
      ensures data == if ok then PutAt(old(data), Split(k), v) else old(data)
      ensures remove == old(remove) && update == old(update) && canCache == old(canCache)
    {
      var p := Split(k);
      var found := GetBeforeLastLevelData(k);
      // item assignment on something that is not a dict raises
      if found.None? || !found.value.0.Dict? {
        return false;
      }
      var (bld, kLast) := found.value;
      data := WithDictAt(data, Parent(p), bld.entries[kLast := v]);
      return true;
    }

    /** `_pull_data_impl(k, v)`: drop the first v from the list at k. */
    method PullDataImpl(k: string, v: Value) returns (ok: bool)
      modifies this
      ensures var p := Split(k);
              ok == (Lookup(old(data), p).Some? && Lookup(old(data), p).value.List?
                     && v in Lookup(old(data), p).value.items)
      ensures var p := Split(k);
              data == if ok then ReplaceAt(old(data), p, List(RemoveFirst(Lookup(old(data), p).value.items, v)))
                      else old(data)
      ensures remove == old(remove) && update == old(update) && canCache == old(canCache)
    {
      var p := Split(k);
      var ld := GetLevelData(k);
      if ld.None? || !ld.value.List? {
        return false;
      }
      if v !in ld.value.items {
        return false;
      }
      data := ReplaceAt(data, p, List(RemoveFirst(ld.value.items, v)));
      return true;
    }

    /** `_push_data_impl(k, v, push_to_set)`: append v to the list at k, unless it is a set push of a present value. */
    method PushDataImpl(k: string, v: Value, pushToSet: bool) returns (ok: bool)
      modifies this
      ensures var p := Split(k);
              ok == (Lookup(old(data), p).Some? && Lookup(old(data), p).value.List?
                     && !(pushToSet && v in Lookup(old(data), p).value.items))
      ensures var p := Split(k);
              data == if ok then ReplaceAt(old(data), p, List(Lookup(old(data), p).value.items + [v]))
                      else old(data)
      ensures remove == old(remove) && update == old(update) && canCache == old(canCache)
    {
      var p := Split(k);
      var ld := GetLevelData(k);
      if ld.None? || !ld.value.List? {
        return false;
      }
      if pushToSet && v in ld.value.items {
        return false;
      }
      data := ReplaceAt(data, p, List(ld.value.items + [v]));
      return true;
    }

    /** `remove_cache_data(k)`: prune k from `_update`, then mark it in `_remove` if that succeeded. */
    method RemoveCacheData(k: string)
      requires Valid()
      modifies this
      ensures Valid()
      ensures (remove, update) == AfterRemoveMark(old(canCache), old(remove), old(update), k)
      ensures data == old(data) && canCache == old(canCache)
    {
      if !canCache {
        return;
      }
      var p := Split(k);
      MarkRemovedConsistent(remove, update, p);
      var (ok, up) := Prune(update, p);
      update := up;
      if ok {
        remove := SetLeaf(remove, p);
      }
    }

    /** `update_cache_data(k)`: prune k from `_remove`, then mark it in `_update` if that succeeded. */
    method UpdateCacheData(k: string)
      requires Valid()
      modifies this
      ensures Valid()
      ensures (remove, update) == AfterUpdateMark(old(canCache), old(remove), old(update), k)
      ensures data == old(data) && canCache == old(canCache)
    {
      if !canCache {
        return;
      }
      var p := Split(k);
      MarkUpdatedConsistent(remove, update, p);
      var (ok, rm) := Prune(remove, p);
      remove := rm;
      if ok {
        update := SetLeaf(update, p);
      }
    }

    /** `remove_data(k)`: delete the value at k and record the removal; False, with no effect, if k does not resolve. */
    method RemoveData(k: string) returns (ok: bool)
      requires Valid()
      modifies this
      ensures Valid()
      ensures ok == Lookup(old(data), Split(k)).Some?
      ensures ok ==> data == DeleteAt(old(data), Split(k))
      ensures ok ==> (remove, update) == AfterRemoveMark(old(canCache), old(remove), old(update), k)
      ensures !ok ==> data == old(data) && remove == old(remove) && update == old(update)
      ensures canCache == old(canCache)
    {
      ok := RemoveDataImpl(k);
      if ok {
        RemoveCacheData(k);
      }
    }

    /** `update_data(k, v)`: store v at k and record the update; False, with no effect, if k's container does not resolve to a dict. */
    method UpdateData(k: string, v: Value) returns (ok: bool)
      requires Valid()
      modifies this
      ensures Valid()
      ensures ok == Container(old(data), Split(k)).Some?
      ensures ok ==> data == PutAt(old(data), Split(k), v)
      ensures ok ==> (remove, update) == AfterUpdateMark(old(canCache), old(remove), old(update), k)
      ensures !ok ==> data == old(data) && remove == old(remove) && update == old(update)
      ensures canCache == old(canCache)
    {
      ok := UpdateDataImpl(k, v);
      if ok {
        UpdateCacheData(k);
      }
    }

    /** `pull_data(k, v)`: remove the first v from the list at k and record an update of k. */
    method PullData(k: string, v: Value) returns (ok: bool)
      requires Valid()
      modifies this
      ensures Valid()
      ensures var p := Split(k);
              ok == (Lookup(old(data), p).Some? && Lookup(old(data), p).value.List?
                     && v in Lookup(old(data), p).value.items)
      ensures var p := Split(k);
              ok ==> data == ReplaceAt(old(data), p, List(RemoveFirst(Lookup(old(data), p).value.items, v)))
      ensures ok ==> (remove, update) == AfterUpdateMark(old(canCache), old(remove), old(update), k)
      ensures !ok ==> data == old(data) && remove == old(remove) && update == old(update)
      ensures canCache == old(canCache)
    {
      ok := PullDataImpl(k, v);
      if ok {
        UpdateCacheData(k);
      }
    }

    /** `push_data(k, v, push_to_set)`: append v to the list at k and record an update of k. */
    method PushData(k: string, v: Value, pushToSet: bool) returns (ok: bool)
      requires Valid()
      modifies this
      ensures Valid()
      ensures var p := Split(k);
              ok == (Lookup(old(data), p).Some? && Lookup(old(data), p).value.List?
                     && !(pushToSet && v in Lookup(old(data), p).value.items))
      ensures var p := Split(k);
              ok ==> data == ReplaceAt(old(data), p, List(Lookup(old(data), p).value.items + [v]))
      ensures ok ==> (remove, update) == AfterUpdateMark(old(canCache), old(remove), old(update), k)
      ensures !ok ==> data == old(data) && remove == old(remove) && update == old(update)
      ensures canCache == old(canCache)
    {
      ok := PushDataImpl(k, v, pushToSet);
      if ok {
        UpdateCacheData(k);
      }
    }

    /**
     * `set_default_data(k, default)`: if k is not a top-level key, `update_data(k, default)`
     * (which splits k); then the top-level value under the literal key k, if any.
     */
    method SetDefaultData(k: string, default: Value) returns (r: Option<Value>)
      requires Valid()
      modifies this
      ensures Valid()
      ensures k in old(data) ==> data == old(data) && remove == old(remove) && update == old(update)
      ensures k !in old(data) && Container(old(data), Split(k)).Some? ==>
        data == PutAt(old(data), Split(k), default)
        && (remove, update) == AfterUpdateMark(old(canCache), old(remove), old(update), k)
      ensures k !in old(data) && Container(old(data), Split(k)).None? ==>
        data == old(data) && remove == old(remove) && update == old(update)
      ensures r == if k in data then Some(data[k]) else None
      ensures canCache == old(canCache)
    {
      if k !in data {
        var _ := UpdateData(k, default);
      }
      r := if k in data then Some(data[k]) else None;
    }
  }
}
