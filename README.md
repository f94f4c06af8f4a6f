# ChangeDataCache, modelled in Dafny

`ChangeDataCache` is a write-tracking cache over a nested dict/list data tree.
Every edit through its API is applied to the live data and also recorded in one of two
*shadow trees* of markers:
- `_remove` holds paths that were deleted;
- `_update` holds paths that were changed.

A marker is either the leaf `True` ("this whole path changed") or a dict of finer markers.
`pack_cache` flattens both trees against the live data into a change-set
`{'remove': {dotted.path: True}, 'update': {dotted.path: live value}}`, ready to be written to a
database or synchronised.

The model has these modules:

- `Paths`: `k.split('.')` (`Split`), `'.'.join` (`Join`), and the packing key rule (`KeyFrom`),
  which prepends `'.'` only when the prefix is non-empty.
- `Values`: the live data as a value tree (`Atom | Dict | List`), path lookup, and the edits
  the API makes at a path (`PutAt`, `DeleteAt`, `ReplaceAt`, `RemoveFirst`).
- `Markers`: the marker tree.
  - `Prune` is `_delete_dict_recursive`, a pure recursive function returning the success flag
    and the new tree.
  - `SetLeaf` is `_set_dict_recursive`: a method with the same descent loop (`setdefault` at
    each level, stopping at a leaf), proved equal to the recursive specification `Marked`.
- `Merge`: `MarkUpdated` is `update_cache_data` (lines 417-425) and `MarkRemoved` is
  `remove_cache_data` (lines 391-397), as functions on the pair of trees. Each prunes the
  opposite tree and marks its own tree only if the prune succeeded. Both preserve the
  invariant `Consistent`:
  - no marker dict is empty;
  - path segments contain no dot;
  - no leaf of one tree lies on the same root-to-leaf line as a leaf of the other.
- `Packing`: the two packing walkers, as the set of writes they make into `db_dict`:
  - `PackUpdate` is `_pack_update_data_recursive` (lines 285-297);
  - `PackRemove` is `_pack_remove_data_recursive` (lines 300-320);
  - `Packed` is the change-set `pack_cache` returns (lines 341-358).

  The lemmas beside them state the change-set's exact contents.
- `Cache`: class `ChangeDataCache`, with fields `data`, `remove`, `update` and `canCache`. It has
  the whole public and private API except `get_data` and `__str__` (see "Left out").
  `AfterUpdateMark` and `AfterRemoveMark` give the trees after `update_cache_data` /
  `remove_cache_data` (lines 391-397, 417-425), including the `_can_cache` gate.
- `Facade`: classes `ListItem` and `DictItem`, the list and dict wrappers. Each wrapper is
  given by its cache and the live path of its container. Its dotted key `_k` is `Join` of that
  path.

Failures that the source turns into `False` through its catch-all `except` become explicit
conditions in the model, for example "an intermediate segment is missing or not a dict".
The exceptions the wrappers raise on purpose (`IndexError`, `ValueError`, `KeyError`) are
returned as `Result`/`Outcome` values.

## Model

| member | source | states |
|---|---|---|
| `Paths.Split` | change_data_cache_dict.py:363 | `k.split('.')` yields at least one segment, and no segment contains a dot |
| `Paths.JoinSplit` | change_data_cache_dict.py:363 | joining the segments of `k.split('.')` with `'.'` gives back `k` |
| `Paths.SplitJoin` | change_data_cache_dict.py:144-145 | splitting the `'.'`-join of dot-free segments gives back the segments |
| `Paths.SplitChildKey` | change_data_cache_dict.py:144-145 | the whole key `'%s.%s' % (_k, k)` of a dict wrapper splits into the wrapper's path plus `k`, when no segment contains a dot |
| `Paths.KeyFromIsJoin` | change_data_cache_dict.py:290-292 | with a non-empty prefix, the packing key rule is plain dotted joining |
| `Paths.DottedKeyIsJoin` | change_data_cache_dict.py:290-292 | a packed key from the root is the `'.'`-join of its path unless the path starts with an empty segment |
| `Paths.LeadingEmptySegmentDropped` | change_data_cache_dict.py:303-305 | a leading empty segment loses its dot: it leaves no trace in the packed key |
| `Paths.DottedKeyRoundTrip` | change_data_cache_dict.py:290-292 | a packed key of dot-free segments not starting with `""` splits back into the marker path |
| `Values.WithDictAtLookup` | change_data_cache_dict.py:384-389 | replacing the dict at `q` in place changes what lies at and below `q` and nothing beside that path |
| `Values.PutAtEffect` | change_data_cache_dict.py:409-415 | after `bld[k_last] = v` the path holds `v`, and every path off it is unchanged |
| `Values.DeleteAtEffect` | change_data_cache_dict.py:384-389 | after `bld.pop(k_last)` nothing is left at or below the path, and every path off it is unchanged |
| `Values.ReplaceAtEffect` | change_data_cache_dict.py:440-446 | an in-place edit of the list at a path leaves the new list there and every path off it unchanged |
| `Values.EditedContainer` | change_data_cache_dict.py:163-173 | after a put or a delete, the container holds its old entries with that one key set or removed |
| `Values.GetSplit` | change_data_cache_dict.py:360-372 | walking `a + b` is walking `a` and then `b` |
| `Values.FirstIndex` | change_data_cache_dict.py:93-97 | `list.index(v)` is the position of the first occurrence of `v` |
| `Values.RemoveFirst` | change_data_cache_dict.py:440-446 | `list.remove(v)` drops exactly the first occurrence of `v` |
| `Values.RemoveFirstCount` | change_data_cache_dict.py:440-446 | `list.remove(v)` removes one copy of `v` and keeps every other element |
| `Markers.Prune` | change_data_cache_dict.py:254-272 | `_delete_dict_recursive` returns False exactly when a leaf lies at a strict prefix of the path, and then leaves the tree unchanged |
| `Markers.PruneAt` | change_data_cache_dict.py:254-272 | on success no marker is left at or below the path, nothing off the path changes, and no leaf is left above it |
| `Markers.PruneLeaves` | change_data_cache_dict.py:254-272 | on success the leaves are the old leaves minus those at or below the path |
| `Markers.PruneWellFormed` | change_data_cache_dict.py:270-271 | dicts emptied along the path are removed, so no marker dict is ever empty |
| `Markers.PruneDotFree` | change_data_cache_dict.py:254-272 | pruning a tree whose segments are dot-free leaves them dot-free |
| `Markers.BlockedIffLeafAbove` | change_data_cache_dict.py:264-266 | the walk meets a leaf exactly when some strict prefix of the path holds a leaf |
| `Markers.BlockedLeafAbove` | change_data_cache_dict.py:264-266 | a blocked walk names the strict prefix that holds the leaf |
| `Markers.LeafAboveBlocks` | change_data_cache_dict.py:264-266 | a leaf at a strict prefix blocks the walk |
| `Markers.SetLeaf` | change_data_cache_dict.py:274-282 | the `setdefault` descent loop builds exactly the tree `Marked` |
| `Markers.MarkedBlocked` | change_data_cache_dict.py:277-279 | when a strict prefix is already a leaf, the tree is unchanged |
| `Markers.MarkedAt` | change_data_cache_dict.py:274-282 | otherwise the path holds a leaf, any finer subtree there is gone, nothing off the path changes, and dicts lie above it |
| `Markers.MarkedLeaves` | change_data_cache_dict.py:274-282 | the leaves afterwards are the path plus the old leaves not at or below it |
| `Markers.MarkedWellFormed` | change_data_cache_dict.py:274-282 | marking never leaves an empty marker dict |
| `Markers.MarkedDotFree` | change_data_cache_dict.py:274-282 | marking a dot-free path keeps every segment dot-free |
| `Merge.MarkUpdatedEffect` | change_data_cache_dict.py:417-425 | a leaf in `_remove` above `k` blocks all change; otherwise `_remove` keeps nothing at or below `k`, and `_update` gains a leaf at `k` unless a leaf above `k` already covers it |
| `Merge.MarkRemovedEffect` | change_data_cache_dict.py:391-397 | the mirror image for `remove_cache_data` |
| `Merge.PruneThenMarkExclusive` | change_data_cache_dict.py:391-397 | pruning one tree and then marking the other keeps each tree's leaves off the other's root-to-leaf lines |
| `Merge.MarkUpdatedConsistent` | change_data_cache_dict.py:417-425 | `update_cache_data` preserves non-empty dicts, dot-free segments and exclusiveness of the two trees |
| `Merge.MarkRemovedConsistent` | change_data_cache_dict.py:391-397 | `remove_cache_data` preserves the same invariant |
| `Packing.PackUpdateComplete` | change_data_cache_dict.py:285-297 | every `_update` leaf whose whole path exists is written under its packed key with the live value |
| `Packing.PackUpdateSource` | change_data_cache_dict.py:285-297 | every write comes from an `_update` leaf whose path exists, so markers with an absent key are skipped |
| `Packing.PackRemoveComplete` | change_data_cache_dict.py:300-320 | every `_remove` node, leaf or dict, whose key is absent from the live data below present ancestors is reported |
| `Packing.PackRemoveSource` | change_data_cache_dict.py:300-320 | every reported key is such a node, so a leaf whose key is still present is dropped |
| `Packing.PackedShape` | change_data_cache_dict.py:341-358 | `'remove'` is present iff `_remove` is non-empty, `'update'` iff `_update` is, so the result is `{}` iff both are empty |
| `Packing.PackedUpdateComplete` | change_data_cache_dict.py:352-355 | each existing `_update` leaf appears in `'update'` with its live value |
| `Packing.PackedUpdateSource` | change_data_cache_dict.py:352-355 | each `'update'` entry comes from an existing `_update` leaf |
| `Packing.PackedRemoveComplete` | change_data_cache_dict.py:346-349 | each first absent node of `_remove` appears in `'remove'` |
| `Packing.PackedRemoveSource` | change_data_cache_dict.py:346-349 | each `'remove'` entry comes from such a node |
| `Packing.UpdateWritesFunctional` | change_data_cache_dict.py:285-297 | with dot-free segments and no dict under a root key `""`, no packed key receives two values, so `'update'` does not depend on iteration order |
| `Packing.PackedKeysDisjoint` | change_data_cache_dict.py:341-358 | when both trees are dot-free and neither has a dict marker under a root key `""`, no key is both in `'remove'` and `'update'` |
| `Cache.ChangeDataCache.constructor` | change_data_cache_dict.py:323-328 | a new cache holds the given data, empty trees, and recording on |
| `Cache.ChangeDataCache.ClearCache` | change_data_cache_dict.py:330-332 | both trees become empty; data and the flag are kept |
| `Cache.ChangeDataCache.BeginCache` | change_data_cache_dict.py:334-335 | recording resumes and earlier markers are kept |
| `Cache.ChangeDataCache.StopCache` | change_data_cache_dict.py:337-338 | recording pauses and markers are kept |
| `Cache.ChangeDataCache.PackCache` | change_data_cache_dict.py:341-358 | returns the change-set of the current trees over the live data; `{}` exactly when both trees are empty, and then the trees are untouched; otherwise they are emptied when `clear_cache` is set |
| `Cache.ChangeDataCache.Walk` | change_data_cache_dict.py:362-365 | the `data = data[name]` loop yields the value at the path, or fails where a step is missing or not a dict |
| `Cache.ChangeDataCache.GetBeforeLastLevelData` | change_data_cache_dict.py:360-365 | returns the value at all but the last segment, together with the last segment |
| `Cache.ChangeDataCache.GetLevelData` | change_data_cache_dict.py:367-372 | returns the value at the whole split path |
| `Cache.ChangeDataCache.RemoveDataImpl` | change_data_cache_dict.py:384-389 | succeeds exactly when the path resolves, and then pops the last key |
| `Cache.ChangeDataCache.UpdateDataImpl` | change_data_cache_dict.py:409-415 | succeeds exactly when the container resolves to a dict, and then sets the last key |
| `Cache.ChangeDataCache.PullDataImpl` | change_data_cache_dict.py:440-446 | succeeds exactly when the path holds a list containing `v`, and then removes its first occurrence |
| `Cache.ChangeDataCache.PushDataImpl` | change_data_cache_dict.py:458-466 | succeeds exactly when the path holds a list and this is not a set push of a present value, and then appends `v` |
| `Cache.ChangeDataCache.RemoveCacheData` | change_data_cache_dict.py:391-397 | with recording on, the trees become `MarkRemoved` of the old trees; with it off, they are unchanged; the invariant is kept |
| `Cache.ChangeDataCache.UpdateCacheData` | change_data_cache_dict.py:417-425 | with recording on, the trees become `MarkUpdated` of the old trees; with it off, they are unchanged; the invariant is kept |
| `Cache.ChangeDataCache.RemoveData` | change_data_cache_dict.py:374-389 | False with no change when an intermediate step or the last key is missing; otherwise exactly one pop, and then `k` is marked removed |
| `Cache.ChangeDataCache.UpdateData` | change_data_cache_dict.py:399-415 | False with no change when the container does not resolve to a dict; otherwise exactly one assignment, and then `k` is marked updated |
| `Cache.ChangeDataCache.PullData` | change_data_cache_dict.py:427-446 | False with no change unless the target is a list holding `v`; otherwise one removal, and then `k` is marked updated |
| `Cache.ChangeDataCache.PushData` | change_data_cache_dict.py:448-466 | False with no change unless the target is a list and this is not a set push of a present value; otherwise one append, and then `k` is marked updated |
| `Cache.ChangeDataCache.SetDefaultData` | change_data_cache_dict.py:485-489 | calls `update_data` only when the literal key is not at top level, then returns the top-level value under that literal key |
| `Facade.ListItem.constructor` | change_data_cache_dict.py:39-44 | a wrapper is bound to its cache and the path of a list that is present in the live data (the `isinstance` assertion), and is valid from the start |
| `Facade.ListItem.NotifyDirty` | change_data_cache_dict.py:68-69 | the wrapper's own key is marked updated |
| `Facade.ListItem.Push` | change_data_cache_dict.py:99-106 | False with no change for a set push of a present value; otherwise appends and marks the key |
| `Facade.ListItem.Append` | change_data_cache_dict.py:71-72 | appends unconditionally and marks the key |
| `Facade.ListItem.Pop` | change_data_cache_dict.py:74-77 | IndexError for any index outside `0 <= i < len`, negatives included; otherwise returns and removes that element and marks the key |
| `Facade.ListItem.Remove` | change_data_cache_dict.py:79-84 | ValueError when `v` is absent; otherwise drops its first occurrence and marks the key |
| `Facade.ListItem.Pull` | change_data_cache_dict.py:108-115 | False when `v` is absent; otherwise drops its first occurrence and marks the key |
| `Facade.ListItem.Extend` | change_data_cache_dict.py:89-91 | appends all of `vs` and marks the key |
| `Facade.ListItem.ResetList` | change_data_cache_dict.py:117-120 | the list gets exactly the new contents, and the key is marked |
| `Facade.ListItem.ReplaceAtIndex` | change_data_cache_dict.py:122-128 | False with no change out of range; otherwise replaces that one element and marks the key |
| `Facade.ListItem.ReplaceValue` | change_data_cache_dict.py:130-131 | False when the old value is absent; otherwise replaces its first occurrence and marks the key |
| `Facade.DictItem.constructor` | change_data_cache_dict.py:134-139 | a wrapper is bound to its cache and the path of a dict that is present in the live data (the `isinstance` assertion), and is valid from the start |
| `Facade.DictItem.WholeKey` | change_data_cache_dict.py:144-145 | the child key `'%s.%s'` splits into the wrapper's path plus the child, when no segment contains a dot |
| `Facade.DictItem.SetItem` | change_data_cache_dict.py:163-169 | sets the key in the wrapped dict and marks the child key updated |
| `Facade.DictItem.DelItem` | change_data_cache_dict.py:171-173 | KeyError when the key is absent; otherwise deletes it and marks the child key removed |
| `Facade.DictItem.Update` | change_data_cache_dict.py:212-214 | merges `d` in, with `d`'s keys winning, and marks the dict's own key rather than the children |
| `Facade.DictItem.UpdateWithNoCache` | change_data_cache_dict.py:217-218 | merges `d` in and records nothing |
| `Facade.DictItem.Clear` | change_data_cache_dict.py:229-231 | empties the dict and marks its own key |
| `Facade.DictItem.Pop` | change_data_cache_dict.py:203-209 | returns the default with no change when the key is absent; otherwise returns the value, deletes it and marks the child key removed |
| `Facade.DictItem.SetDefault` | change_data_cache_dict.py:182-186 | sets the default only when the key is absent, then returns the value under the key |

## Left out

- Aliasing. The live data, the trees and the pack result are values. An in-place edit of a
  nested container is modelled as replacing the value at its path. A wrapper re-resolves its
  path each time. So the model does not capture a wrapper that keeps editing a container that
  was already detached from the data, nor a pack result that shares objects with the data
  (the note at line 340).
- The catch-all `except Exception` (lines 381, 406, 437, 455). It is modelled as failure of the
  resolution and kind checks. Exotic exception paths are not modelled: `in` or `pop` on a list
  or string, and indexing a list by a key.
- `Cache.ChangeDataCache.PackCache`: requires that every present live key under a dict marker
  hold a dict (`Aligned`). When that fails, it depends on the live value:
  - an int, bool or None value makes the walkers raise at `k not in od` (lines 287 and 311);
  - for a list or a string, `k not in od` is a membership test. When the marker key occurs in
    the list or string, the next `od[k]` raises TypeError (lines 295 and 297, and 320).
    Otherwise the walkers return a result that the model does not describe.

  The state is reachable in two ways. One is edits made while recording is stopped. The other
  is a dotted wrapper key: `w['a.b'] = 1` on a dict wrapper at `x` whose `a` holds 5 marks
  `x.a.b`, which puts a dict marker over the int.
- `Cache.ChangeDataCache.PackCache`: also requires that no packed `'update'` key receive two
  values (`Functional`). Otherwise the result depends on dict iteration order, which the model
  does not fix. `Packing.UpdateWritesFunctional` gives a sufficient condition under the cache
  invariant: no dict marker under a root key `""`.
- Dict iteration order in general: the walkers produce sets of writes, not ordered sequences.
- Wrapping, and re-wrapping by reflection: `get_data` (lines 472-482), `__getitem__`
  (lines 153-161), `setdefault`'s and `pop`'s wrapped return values, and the unwrapping
  `isinstance` at lines 410-411 and 165-166. Stored values are plain data, and the wrappers
  return plain values.
- `DictItem.popitem` (lines 220-227). Which key it takes depends on iteration order.
- Read-only forwarding: `__str__`, `__contains__`, `__iter__`, `__len__`, `data`, `count`,
  `index` (beyond `FirstIndex`), `get`, `get_raw`, `has_key`, `keys`, `values`, `items` and their
  iterator forms. The unused `copy` import is also left out.
- Line 251, a stray module-level statement that uses undefined names. It would raise at import.
- Python value equality (`1 == True == 1.0`) in list membership and removal. The model uses
  structural equality of `Value`.
- The `value` parameter of `_set_dict_recursive`, which is always `True` at every call site.
- Floats and other Python scalars. `Scalar` has only None, bool, int and str. Values are only
  stored, carried into the pack result and compared, so no operation depends on which scalars
  exist.
- `Packing.PackedKeysDisjoint`: holds only when no dict marker lies under a root key `""`
  (`RootKeyed`), which the cache invariant does not give. Otherwise the leading-empty-segment
  collision below also crosses the two outputs. For example, `remove_data("a")` followed by
  `update_data(".a", v)` leaves `_remove = {"a": True}` and `_update = {"": {"a": True}}`, and
  `"a"` is then packed into both `'remove'` and `'update'`.
- A leading empty path segment loses its dot in packed keys (`["", "a"]` packs as `"a"`).
  This is kept as the code has it (`Paths.LeadingEmptySegmentDropped`). The same holds for
  wrapper keys containing dots: a child key `k` with a dot is recorded at a deeper path than
  where it is stored (`Facade.DictItem.WholeKey` only speaks of dot-free keys).
