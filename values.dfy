/**
 * The live data tree (`ChangeDataCache._data`): a dict whose values are
 * scalars, dicts or lists, and the path-addressed reads and edits the
 * cache performs on it.
 */
module Values {
  import opened Wrappers

  datatype Scalar = Null | Bool(b: bool) | Int(i: int) | Str(s: string)

  datatype Value =
    | Atom(scalar: Scalar)
    | Dict(entries: map<string, Value>)
    | List(items: seq<Value>)

  /** The root is always a dict. */
  type Data = map<string, Value>

  /** The value reached from v by `v = v[name]` for each name of p; None where that raises. */
  function Get(v: Value, p: seq<string>): Option<Value>
    decreases |p|
  {
    if |p| == 0 then Some(v)
    else if v.Dict? && p[0] in v.entries then Get(v.entries[p[0]], p[1..])
    else None
  }

  /** The value at p below the root dict. */
  function Lookup(d: Data, p: seq<string>): Option<Value> {
    Get(Dict(d), p)
  }

  /** The dict at p, if the walk succeeds and ends on a dict. */
  function DictAt(d: Data, p: seq<string>): (r: Option<Data>)
    ensures r.Some? <==> Lookup(d, p).Some? && Lookup(d, p).value.Dict?
    ensures r.Some? ==> Lookup(d, p) == Some(Dict(r.value))
  {
    match Lookup(d, p)
    case Some(Dict(m)) => Some(m)
    case _ => None
  }

  function Parent(p: seq<string>): seq<string>
    requires |p| > 0
  {
    p[..|p| - 1]
  }

  function Last(p: seq<string>): string
    requires |p| > 0
  {
    p[|p| - 1]
  }

  /** The dict that holds p's last segment (what `_get_before_last_level_data` finds). */
  function Container(d: Data, p: seq<string>): Option<Data>
    requires |p| > 0
  {
    DictAt(d, Parent(p))
  }

  lemma {:induction false} GetAppend(v: Value, p: seq<string>, k: string)
    ensures Get(v, p + [k]) ==
      match Get(v, p)
      case Some(Dict(m)) => if k in m then Some(m[k]) else None
      case _ => None
    decreases |p|
  {
    if |p| > 0 && v.Dict? && p[0] in v.entries {
      assert (p + [k])[1..] == p[1..] + [k];
      GetAppend(v.entries[p[0]], p[1..], k);
    }
  }

  /** Resolving the whole path agrees with resolving its container and then the last key. */
  lemma LookupViaContainer(d: Data, p: seq<string>)
    requires |p| > 0
    ensures Lookup(d, p) ==
      match Container(d, p)
      case Some(m) => if Last(p) in m then Some(m[Last(p)]) else None
      case None => None
  {
    assert p == Parent(p) + [Last(p)];
    GetAppend(Dict(d), Parent(p), Last(p));
  }

  lemma DictAtStep(d: Data, q: seq<string>)
    requires |q| > 0 && DictAt(d, q).Some?
    ensures q[0] in d && d[q[0]].Dict? && DictAt(d[q[0]].entries, q[1..]) == DictAt(d, q)
  {
    assert q[0] in d;
    var v := d[q[0]];
    assert Lookup(d, q) == Get(v, q[1..]);
    if |q| > 1 {
      assert Get(v, q[1..]).Some?;
    }
  }

  /** The root with the dict at q replaced by m: the effect of editing that dict in place. */
  function WithDictAt(d: Data, q: seq<string>, m: Data): Data
    requires DictAt(d, q).Some?
    decreases |q|
  {
    if |q| == 0 then m
    else
      DictAtStep(d, q);
      d[q[0] := Dict(WithDictAt(d[q[0]].entries, q[1..], m))]
  }

  /** Replacing the dict at q changes exactly what lies at or below q. */
  lemma {:induction false} WithDictAtLookup(d: Data, q: seq<string>, m: Data, r: seq<string>)
    requires DictAt(d, q).Some?
    ensures q <= r ==> Lookup(WithDictAt(d, q, m), r) == Lookup(m, r[|q|..])
    ensures !(q <= r) && !(r < q) ==> Lookup(WithDictAt(d, q, m), r) == Lookup(d, r)
    ensures r < q ==> Lookup(WithDictAt(d, q, m), r).Some? && Lookup(WithDictAt(d, q, m), r).value.Dict?
    decreases |q|
  {
    if |q| > 0 {
      DictAtStep(d, q);
      var child := d[q[0]].entries;
      if |r| > 0 && r[0] == q[0] {
        WithDictAtLookup(child, q[1..], m, r[1..]);
        assert q <= r ==> q[1..] <= r[1..] && r[|q|..] == r[1..][|q| - 1..];
        assert r < q ==> r[1..] < q[1..];
        assert !(q <= r) && !(r < q) ==> !(q[1..] <= r[1..]) && !(r[1..] < q[1..]);
      }
    }
  }

  /** `container[last] = v` at path p (`_update_data_impl`). */
  function PutAt(d: Data, p: seq<string>, v: Value): Data
    requires |p| > 0 && Container(d, p).Some?
  {
    WithDictAt(d, Parent(p), Container(d, p).value[Last(p) := v])
  }

  /** `container.pop(last)` at path p (`_remove_data_impl`). */
  function DeleteAt(d: Data, p: seq<string>): Data
    requires |p| > 0 && Lookup(d, p).Some?
  {
    LookupViaContainer(d, p);
    WithDictAt(d, Parent(p), Container(d, p).value - {Last(p)})
  }

  /** Overwrite the value that exists at p (an in-place edit of a list there). */
  function ReplaceAt(d: Data, p: seq<string>, v: Value): Data
    requires |p| > 0 && Lookup(d, p).Some?
  {
    LookupViaContainer(d, p);
    PutAt(d, p, v)
  }

  /** After a put, p holds v, and nothing beside the path to p changes. */
  lemma PutAtEffect(d: Data, p: seq<string>, v: Value, r: seq<string>)
    requires |p| > 0 && Container(d, p).Some?
    ensures Lookup(PutAt(d, p, v), p) == Some(v)
    ensures p <= r ==> Lookup(PutAt(d, p, v), r) == Get(v, r[|p|..])
    ensures !(p <= r) && !(r < p) ==> Lookup(PutAt(d, p, v), r) == Lookup(d, r)
  {
    var q, c := Parent(p), Container(d, p).value;
    var m := c[Last(p) := v];
    assert p == q + [Last(p)];
    WithDictAtLookup(d, q, m, p);
    assert p[|q|..] == [Last(p)];
    assert [Last(p)][1..] == [];
    assert Lookup(m, [Last(p)]) == Get(v, []);
    WithDictAtLookup(d, q, m, r);
    if q <= r && |r| > |q| {
      var s := r[|q|..];
      assert r == q + s;
      GetSplit(Dict(d), q, s);
      assert s[1..] == r[|p|..];
      assert p <= r <==> s[0] == Last(p);
    }
  }

  /** After a delete, nothing is left at or below p, and nothing beside the path to p changes. */
  lemma DeleteAtEffect(d: Data, p: seq<string>, r: seq<string>)
    requires |p| > 0 && Lookup(d, p).Some?
    ensures p <= r ==> Lookup(DeleteAt(d, p), r) == None
    ensures !(p <= r) && !(r < p) ==> Lookup(DeleteAt(d, p), r) == Lookup(d, r)
  {
    LookupViaContainer(d, p);
    var q, m := Parent(p), Container(d, p).value - {Last(p)};
    WithDictAtLookup(d, q, m, r);
    if q <= r {
      assert r == q + r[|q|..];
      GetSplit(Dict(d), q, r[|q|..]);
      if |r| > |q| {
        assert r[|q|..][1..] == r[|q| + 1..];
        assert p <= r <==> r[|q|] == Last(p);
      }
    }
  }

  /** After an overwrite, p holds v, and nothing beside the path to p changes. */
  lemma ReplaceAtEffect(d: Data, p: seq<string>, v: Value, r: seq<string>)
    requires |p| > 0 && Lookup(d, p).Some?
    ensures Lookup(ReplaceAt(d, p, v), p) == Some(v)
    ensures !(p <= r) && !(r < p) ==> Lookup(ReplaceAt(d, p, v), r) == Lookup(d, r)
  {
    LookupViaContainer(d, p);
    PutAtEffect(d, p, v, r);
  }

  /** The container of a put or a delete holds the edited dict afterwards. */
  lemma EditedContainer(d: Data, p: seq<string>, v: Value)
    requires |p| > 0 && Container(d, p).Some?
    ensures DictAt(PutAt(d, p, v), Parent(p)) == Some(Container(d, p).value[Last(p) := v])
    ensures Lookup(d, p).Some? ==> DictAt(DeleteAt(d, p), Parent(p)) == Some(Container(d, p).value - {Last(p)})
  {
    var q, c := Parent(p), Container(d, p).value;
    assert q[|q|..] == [];
    WithDictAtLookup(d, q, c[Last(p) := v], q);
    WithDictAtLookup(d, q, c - {Last(p)}, q);
  }

  /** A put or delete of a child key of the dict at q keeps q a dict. */
  lemma ChildOf(q: seq<string>, k: string)
    ensures Parent(q + [k]) == q && Last(q + [k]) == k
  {
    assert (q + [k])[..|q|] == q;
  }

  lemma {:induction false} GetSplit(v: Value, a: seq<string>, b: seq<string>)
    ensures Get(v, a + b) == match Get(v, a) case Some(w) => Get(w, b) case None => None
    decreases |a|
  {
    if |a| == 0 {
      assert a + b == b;
    } else if v.Dict? && a[0] in v.entries {
      assert (a + b)[1..] == a[1..] + b;
      GetSplit(v.entries[a[0]], a[1..], b);
    }
  }

  /** `s.index(v)`: the first position holding v. */
  function FirstIndex(s: seq<Value>, v: Value): (i: nat)
    requires v in s
    ensures i < |s| && s[i] == v && v !in s[..i]
  {
    if s[0] == v then 0
    else
      assert s == [s[0]] + s[1..];
      var j := FirstIndex(s[1..], v);
      assert s[..j + 1] == [s[0]] + s[1..][..j];
      j + 1
  }

  /** `s.remove(v)`: drops the first occurrence of v. */
  function RemoveFirst(s: seq<Value>, v: Value): (r: seq<Value>)
    requires v in s
    ensures r == s[..FirstIndex(s, v)] + s[FirstIndex(s, v) + 1..]
  {
    if s[0] == v then s[1..]
    else
      assert s == [s[0]] + s[1..];
      [s[0]] + RemoveFirst(s[1..], v)
  }

  /** Removal takes out exactly one copy of v. */
  lemma RemoveFirstCount(s: seq<Value>, v: Value)
    requires v in s
    ensures multiset(RemoveFirst(s, v)) == multiset(s) - multiset{v}
  {
    var i := FirstIndex(s, v);
    assert s == s[..i] + [v] + s[i + 1..];
  }
}
