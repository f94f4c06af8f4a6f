/**
 * The list and dict wrappers handed out for nested containers: each edits the
 * container it wraps and then records the edit in its cache under its dotted key.
 * A wrapper is modelled by its cache and the live path `loc` of its container;
 * its dotted key `_k` is `Join(loc)`.
 */
module Facade {
  import opened Wrappers
  import opened Paths
  import opened Values
  import opened Cache

  /** The exceptions the wrappers raise on purpose. */
  datatype Fault = IndexError | ValueError | KeyError

  /** `ChangeDataCacheListItem`. */
  class ListItem {
    const parent: ChangeDataCache
    const loc: seq<string>

    ghost predicate Valid()
      reads this, parent
    {
      |loc| > 0 && parent.Valid() && Lookup(parent.data, loc).Some? && Lookup(parent.data, loc).value.List?
    }

    constructor (parent: ChangeDataCache, loc: seq<string>)
      requires |loc| > 0 && parent.Valid()
      requires Lookup(parent.data, loc).Some? && Lookup(parent.data, loc).value.List?
      ensures this.parent == parent && this.loc == loc
      ensures Valid()
    {
      this.parent := parent;
      this.loc := loc;
    }

    /** `self._k`. */
    function Key(): string
      reads this
      requires |loc| > 0
    {
      Join(loc)
    }

    /** The wrapped list. */
    function Items(): seq<Value>
      reads this, parent
      requires Valid()
    {
      Lookup(parent.data, loc).value.items
    }

    /** Store the new list contents at `loc`. */
    method Store(items: seq<Value>)
      requires Valid()
      modifies parent
      ensures Valid()
      ensures parent.data == ReplaceAt(old(parent.data), loc, List(items))
      ensures Items() == items
      ensures parent.remove == old(parent.remove) && parent.update == old(parent.update)
      ensures parent.canCache == old(parent.canCache)
    {
      ReplaceAtEffect(parent.data, loc, List(items), loc);
      parent.data := ReplaceAt(parent.data, loc, List(items));
    }

    /** `_notify_dirty`: record an update of the whole list. */
    method NotifyDirty()
      requires Valid()
      modifies parent
      ensures Valid()
      ensures (parent.remove, parent.update) ==
              AfterUpdateMark(old(parent.canCache), old(parent.remove), old(parent.update), Key())
      ensures parent.data == old(parent.data) && parent.canCache == old(parent.canCache)
    {
      parent.UpdateCacheData(Key());
    }

    /** `push(v, push_to_set)`: False, with no effect, for a set push of a present value. */
    method Push(v: Value, pushToSet: bool) returns (ok: bool)
      requires Valid()
      modifies parent
      ensures Valid()
      ensures ok == !(pushToSet && v in old(Items()))
      ensures Items() == if ok then old(Items()) + [v] else old(Items())
      ensures ok ==> parent.data == ReplaceAt(old(parent.data), loc, List(old(Items()) + [v]))
      ensures ok ==> ((parent.remove, parent.update) ==
                      AfterUpdateMark(old(parent.canCache), old(parent.remove), old(parent.update), Key()))
      ensures !ok ==> parent.data == old(parent.data) && parent.remove == old(parent.remove)
                      && parent.update == old(parent.update)
      ensures parent.canCache == old(parent.canCache)
    {
      if pushToSet && v in Items() {
        return false;
      }
      Store(Items() + [v]);
      NotifyDirty();
      return true;
    }

    /** `append(v)`: push without the set check. */
    method Append(v: Value)
      requires Valid()
      modifies parent
      ensures Valid()
      ensures Items() == old(Items()) + [v]
      ensures parent.data == ReplaceAt(old(parent.data), loc, List(old(Items()) + [v]))
      ensures (parent.remove, parent.update) ==
              AfterUpdateMark(old(parent.canCache), old(parent.remove), old(parent.update), Key())
      ensures parent.canCache == old(parent.canCache)
    {
      var _ := Push(v, false);
    }

    /** `pop(index)`: IndexError unless `0 <= index < len`, negative indices included. */
    method Pop(index: int) returns (r: Result<Value, Fault>)
      requires Valid()
      modifies parent
      ensures Valid()
      ensures r.Failure? <==> !(0 <= index < |old(Items())|)
      ensures r.Failure? ==> r.error == IndexError && parent.data == old(parent.data)
                             && parent.remove == old(parent.remove) && parent.update == old(parent.update)
      ensures r.Success? ==> r.value == old(Items())[index]
                             && Items() == old(Items())[..index] + old(Items())[index + 1..]
                             && parent.data == ReplaceAt(old(parent.data), loc,
                                                         List(old(Items())[..index] + old(Items())[index + 1..]))
                             && (parent.remove, parent.update) ==
                                AfterUpdateMark(old(parent.canCache), old(parent.remove), old(parent.update), Key())
      ensures parent.canCache == old(parent.canCache)
    {
      var items := Items();
      if !(0 <= index < |items|) {
        return Failure(IndexError);
      }
      NotifyDirty();
      Store(items[..index] + items[index + 1..]);
      return Success(items[index]);
    }

    /** `remove(v)`: ValueError when v is absent, otherwise drop its first occurrence. */
    method Remove(v: Value) returns (r: Outcome<Fault>)
      requires Valid()
      modifies parent
      ensures Valid()
      ensures r.Fail? <==> v !in old(Items())
      ensures r.Fail? ==> r.error == ValueError && parent.data == old(parent.data)
                          && parent.remove == old(parent.remove) && parent.update == old(parent.update)
      ensures r.Pass? ==> Items() == RemoveFirst(old(Items()), v)
                          && parent.data == ReplaceAt(old(parent.data), loc, List(RemoveFirst(old(Items()), v)))
                          && (parent.remove, parent.update) ==
                             AfterUpdateMark(old(parent.canCache), old(parent.remove), old(parent.update), Key())
      ensures parent.canCache == old(parent.canCache)
    {
      if v !in Items() {
        return Fail(ValueError);
      }
      Store(RemoveFirst(Items(), v));
      NotifyDirty();
      return Pass;
    }

    /** `pull(v)`: like `remove`, but False instead of the exception. */
    method Pull(v: Value) returns (ok: bool)
      requires Valid()
      modifies parent
      ensures Valid()
      ensures ok == (v in old(Items()))
      ensures Items() == if ok then RemoveFirst(old(Items()), v) else old(Items())
      ensures ok ==> parent.data == ReplaceAt(old(parent.data), loc, List(RemoveFirst(old(Items()), v)))
      ensures ok ==> ((parent.remove, parent.update) ==
                      AfterUpdateMark(old(parent.canCache), old(parent.remove), old(parent.update), Key()))
      ensures !ok ==> parent.data == old(parent.data) && parent.remove == old(parent.remove)
                      && parent.update == old(parent.update)
      ensures parent.canCache == old(parent.canCache)
    {
      if v !in Items() {
        return false;
      }
      Store(RemoveFirst(Items(), v));
      NotifyDirty();
      return true;
    }

    /** `extend(vs)`. */
    method Extend(vs: seq<Value>)
      requires Valid()
      modifies parent
      ensures Valid()
      ensures Items() == old(Items()) + vs
      ensures parent.data == ReplaceAt(old(parent.data), loc, List(old(Items()) + vs))
      ensures (parent.remove, parent.update) ==
              AfterUpdateMark(old(parent.canCache), old(parent.remove), old(parent.update), Key())
      ensures parent.canCache == old(parent.canCache)
    {
      Store(Items() + vs);
      NotifyDirty();
    }

    /** `reset_list(new_list)`: replace the contents, keeping the same list. */
    method ResetList(newList: seq<Value>)
      requires Valid()
      modifies parent
      ensures Valid()
      ensures Items() == newList
      ensures parent.data == ReplaceAt(old(parent.data), loc, List(newList))
      ensures (parent.remove, parent.update) ==
              AfterUpdateMark(old(parent.canCache), old(parent.remove), old(parent.update), Key())
      ensures parent.canCache == old(parent.canCache)
    {
      Store(newList);
      NotifyDirty();
    }

    /** `replace_at_index(index, v)`: False, with no effect, out of range. */
    method ReplaceAtIndex(index: int, v: Value) returns (ok: bool)
      requires Valid()
      modifies parent
      ensures Valid()
      ensures ok == (0 <= index < |old(Items())|)
      ensures ok ==> Items() == old(Items())[index := v]
                     && parent.data == ReplaceAt(old(parent.data), loc, List(old(Items())[index := v]))
                     && (parent.remove, parent.update) ==
                        AfterUpdateMark(old(parent.canCache), old(parent.remove), old(parent.update), Key())
      ensures !ok ==> parent.data == old(parent.data) && parent.remove == old(parent.remove)
                      && parent.update == old(parent.update)
      ensures parent.canCache == old(parent.canCache)
    {
      if !(0 <= index < |Items()|) {
        return false;
      }
      Store(Items()[index := v]);
      NotifyDirty();
      return true;
    }

    /** `replace_value(old, new)`: replace the first occurrence of `old`; False if there is none. */
    method ReplaceValue(oldValue: Value, newValue: Value) returns (ok: bool)
      requires Valid()
      modifies parent
      ensures Valid()
      ensures ok == (oldValue in old(Items()))
      ensures ok ==> Items() == old(Items())[FirstIndex(old(Items()), oldValue) := newValue]
                     && parent.data == ReplaceAt(old(parent.data), loc,
                                                 List(old(Items())[FirstIndex(old(Items()), oldValue) := newValue]))
                     && (parent.remove, parent.update) ==
                        AfterUpdateMark(old(parent.canCache), old(parent.remove), old(parent.update), Key())
      ensures !ok ==> parent.data == old(parent.data) && parent.remove == old(parent.remove)
                      && parent.update == old(parent.update)
      ensures parent.canCache == old(parent.canCache)
    {
      if oldValue !in Items() {
        return false;
      }
      ok := ReplaceAtIndex(FirstIndex(Items(), oldValue), newValue);
    }
  }

  /** `ChangeDataCacheDictItem`. */
  class DictItem {
    const parent: ChangeDataCache
    const loc: seq<string>

    ghost predicate Valid()
      reads this, parent
    {
      |loc| > 0 && parent.Valid() && DictAt(parent.data, loc).Some?
    }

    constructor (parent: ChangeDataCache, loc: seq<string>)
      requires |loc| > 0 && parent.Valid() && DictAt(parent.data, loc).Some?
      ensures this.parent == parent && this.loc == loc
      ensures Valid()
    {
      this.parent := parent;
      this.loc := loc;
    }

    /** `self._k`. */
    function Key(): string
      reads this
      requires |loc| > 0
    {
      Join(loc)
    }

    /** `_get_whole_k(k)`: the dotted key a child edit is recorded under. */
    function WholeKey(k: string): (r: string)
      reads this
      requires |loc| > 0
      ensures AllDotFree(loc) && DotFree(k) ==> Split(r) == loc + [k]
    {
      var r := Key() + [Sep] + k;
      if AllDotFree(loc) && DotFree(k) then SplitChildKey(loc, k); r else r
    }

    /** The wrapped dict. */
    function Entries(): Data
      reads this, parent
      requires Valid()
    {
      DictAt(parent.data, loc).value
    }

    /** `__setitem__(k, v)`: store v under k and record an update of the child key. */
    method SetItem(k: string, v: Value)
      requires Valid()
      modifies parent
      ensures Valid()
      ensures Entries() == old(Entries())[k := v]
      ensures parent.data == PutAt(old(parent.data), loc + [k], v)
      ensures (parent.remove, parent.update) ==
              AfterUpdateMark(old(parent.canCache), old(parent.remove), old(parent.update), WholeKey(k))
      ensures parent.canCache == old(parent.canCache)
    {
      ChildOf(loc, k);
      EditedContainer(parent.data, loc + [k], v);
      parent.data := PutAt(parent.data, loc + [k], v);
      parent.UpdateCacheData(WholeKey(k));
    }

    /** `__delitem__(k)`: KeyError when k is absent, otherwise delete it and record a removal of the child key. */
    method DelItem(k: string) returns (r: Outcome<Fault>)
      requires Valid()
      modifies parent
      ensures Valid()
      ensures r.Fail? <==> k !in old(Entries())
      ensures r.Fail? ==> r.error == KeyError && parent.data == old(parent.data)
                          && parent.remove == old(parent.remove) && parent.update == old(parent.update)
      ensures r.Pass? ==> Entries() == old(Entries()) - {k}
                          && Lookup(old(parent.data), loc + [k]).Some?
                          && parent.data == DeleteAt(old(parent.data), loc + [k])
                          && (parent.remove, parent.update) ==
                             AfterRemoveMark(old(parent.canCache), old(parent.remove), old(parent.update), WholeKey(k))
      ensures parent.canCache == old(parent.canCache)
    {
      if k !in Entries() {
        return Fail(KeyError);
      }
      ChildOf(loc, k);
      LookupViaContainer(parent.data, loc + [k]);
      EditedContainer(parent.data, loc + [k], Atom(Null));
      parent.data := DeleteAt(parent.data, loc + [k]);
      parent.RemoveCacheData(WholeKey(k));
      return Pass;
    }

    /** Overwrite the whole wrapped dict. */
    method Store(m: Data)
      requires Valid()
      modifies parent
      ensures Valid()
      ensures Entries() == m
      ensures parent.data == ReplaceAt(old(parent.data), loc, Dict(m))
      ensures parent.remove == old(parent.remove) && parent.update == old(parent.update)
      ensures parent.canCache == old(parent.canCache)
    {
      ReplaceAtEffect(parent.data, loc, Dict(m), loc);
      parent.data := ReplaceAt(parent.data, loc, Dict(m));
    }

    /** `update(d)`: merge d in (its keys win) and record an update of the dict's own key, not of each child. */
    method Update(d: Data)
      requires Valid()
      modifies parent
      ensures Valid()
      ensures Entries() == old(Entries()) + d
      ensures parent.data == ReplaceAt(old(parent.data), loc, Dict(old(Entries()) + d))
      ensures (parent.remove, parent.update) ==
              AfterUpdateMark(old(parent.canCache), old(parent.remove), old(parent.update), Key())
      ensures parent.canCache == old(parent.canCache)
    {
      Store(Entries() + d);
      parent.UpdateCacheData(Key());
    }

    /** `update_with_no_cache(d)`: merge d in without recording anything. */
    method UpdateWithNoCache(d: Data)
      requires Valid()
      modifies parent
      ensures Valid()
      ensures Entries() == old(Entries()) + d
      ensures parent.data == ReplaceAt(old(parent.data), loc, Dict(old(Entries()) + d))
      ensures parent.remove == old(parent.remove) && parent.update == old(parent.update)
      ensures parent.canCache == old(parent.canCache)
    {
      Store(Entries() + d);
    }

    /** `clear()`: empty the dict and record an update of its own key. */
    method Clear()
      requires Valid()
      modifies parent
      ensures Valid()
      ensures Entries() == map[]
      ensures parent.data == ReplaceAt(old(parent.data), loc, Dict(map[]))
      ensures (parent.remove, parent.update) ==
              AfterUpdateMark(old(parent.canCache), old(parent.remove), old(parent.update), Key())
      ensures parent.canCache == old(parent.canCache)
    {
      Store(map[]);
      parent.UpdateCacheData(Key());
    }

    /** `pop(k, d)`: d when k is absent; otherwise the value, deleted as by `__delitem__`. */
    method Pop(k: string, d: Value) returns (r: Value)
      requires Valid()
      modifies parent
      ensures Valid()
      ensures k !in old(Entries()) ==> r == d && parent.data == old(parent.data)
                                       && parent.remove == old(parent.remove) && parent.update == old(parent.update)
      ensures k in old(Entries()) ==> r == old(Entries())[k] && Entries() == old(Entries()) - {k}
                                      && Lookup(old(parent.data), loc + [k]).Some?
                                      && parent.data == DeleteAt(old(parent.data), loc + [k])
                                      && (parent.remove, parent.update) ==
                                         AfterRemoveMark(old(parent.canCache), old(parent.remove), old(parent.update), WholeKey(k))
      ensures parent.canCache == old(parent.canCache)
    {
      if k !in Entries() {
        return d;
      }
      r := Entries()[k];
      var _ := DelItem(k);
    }

    /** `setdefault(k, default)`: set k to default only when absent; then the value under k. */
    method SetDefault(k: string, default: Value) returns (r: Value)
      requires Valid()
      modifies parent
      ensures Valid()
      ensures k in old(Entries()) ==> r == old(Entries())[k] && parent.data == old(parent.data)
                                      && parent.remove == old(parent.remove) && parent.update == old(parent.update)
      ensures k !in old(Entries()) ==> r == default && Entries() == old(Entries())[k := default]
                                       && parent.data == PutAt(old(parent.data), loc + [k], default)
                                       && (parent.remove, parent.update) ==
                                          AfterUpdateMark(old(parent.canCache), old(parent.remove), old(parent.update), WholeKey(k))
      ensures parent.canCache == old(parent.canCache)
    {
      if k !in Entries() {
        SetItem(k, default);
      }
      r := Entries()[k];
    }
  }
}
