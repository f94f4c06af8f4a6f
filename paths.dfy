/**
 * Dotted keys: `k.split('.')`, the '.'-join the wrapper classes use to name
 * nested values, and the prefix rule the pack walkers use to name output keys.
 */
module Paths {

  /** The separator every dotted key is split on. */
  const Sep: char := '.'

  predicate DotFree(s: string) {
    Sep !in s
  }

  predicate AllDotFree(p: seq<string>) {
    forall i :: 0 <= i < |p| ==> DotFree(p[i])
  }

  /** `s.split('.')`: never empty, no segment holds the separator. */
  function Split(s: string): (r: seq<string>)
    ensures |r| > 0 && AllDotFree(r)
    decreases |s|
  {
    if |s| == 0 then [""]
    else
      var rest := Split(s[1..]);
      if s[0] == Sep then [""] + rest
      else [[s[0]] + rest[0]] + rest[1..]
  }

  /** `'.'.join(p)`, as `'%s.%s' % (parent_key, k)` builds nested keys. */
  function Join(p: seq<string>): string
    requires |p| > 0
    decreases |p|
  {
    if |p| == 1 then p[0] else p[0] + [Sep] + Join(p[1..])
  }

  /** A join that starts with a non-empty segment is not empty. */
  lemma JoinNonEmpty(p: seq<string>)
    requires |p| > 0 && p[0] != ""
    ensures Join(p) != ""
  {
    if |p| > 1 {
      assert |Join(p)| >= |p[0]|;
    }
  }

  /** Joining the pieces of a split gives back the key. */
  lemma {:induction false} JoinSplit(s: string)
    ensures Join(Split(s)) == s
    decreases |s|
  {
    if |s| > 0 {
      var rest := Split(s[1..]);
      JoinSplit(s[1..]);
      if s[0] != Sep && |rest| > 1 {
        assert Join(rest) == rest[0] + [Sep] + Join(rest[1..]);
        assert ([[s[0]] + rest[0]] + rest[1..])[1..] == rest[1..];
      }
    }
  }

  lemma {:induction false} SplitDotFreePrefix(a: string, s: string)
    requires DotFree(a)
    ensures Split(a + s) == [a + Split(s)[0]] + Split(s)[1..]
    decreases |a|
  {
    if |a| > 0 {
      assert (a + s)[1..] == a[1..] + s;
      SplitDotFreePrefix(a[1..], s);
      assert [a[0]] + (a[1..] + Split(s)[0]) == a + Split(s)[0];
    } else {
      assert a + s == s;
      assert a + Split(s)[0] == Split(s)[0];
      assert Split(s) == [Split(s)[0]] + Split(s)[1..];
    }
  }

  /** Splitting a join of dot-free segments gives back the segments. */
  lemma {:induction false} SplitJoin(p: seq<string>)
    requires |p| > 0 && AllDotFree(p)
    ensures Split(Join(p)) == p
    decreases |p|
  {
    if |p| == 1 {
      SplitDotFreePrefix(p[0], "");
      assert p[0] + "" == p[0];
    } else {
      SplitJoin(p[1..]);
      assert p[0] + [Sep] + Join(p[1..]) == p[0] + ([Sep] + Join(p[1..]));
      SplitDotFreePrefix(p[0], [Sep] + Join(p[1..]));
      assert ([Sep] + Join(p[1..]))[1..] == Join(p[1..]);
      assert p[0] + "" == p[0];
      assert p == [p[0]] + p[1..];
    }
  }

  /** Splitting around a separator splits both sides. */
  lemma {:induction false} SplitAround(a: string, b: string)
    ensures Split(a + [Sep] + b) == Split(a) + Split(b)
    decreases |a|
  {
    if |a| == 0 {
      assert a + [Sep] + b == [Sep] + b;
      assert ([Sep] + b)[1..] == b;
    } else {
      assert (a + [Sep] + b)[1..] == a[1..] + [Sep] + b;
      SplitAround(a[1..], b);
    }
  }

  /** The key `'%s.%s' % (Join(p), k)` of a child splits into p extended by k when nothing holds a dot. */
  lemma SplitChildKey(p: seq<string>, k: string)
    requires |p| > 0 && AllDotFree(p) && DotFree(k)
    ensures Split(Join(p) + [Sep] + k) == p + [k]
  {
    SplitAround(Join(p), k);
    SplitJoin(p);
    SplitDotFreePrefix(k, "");
    assert k + "" == k;
  }

  /** One step of the pack walkers: `prefix + '.' + k`, but with no '.' after an empty prefix. */
  function NewPrefix(prefix: string, k: string): string {
    if prefix != "" then prefix + [Sep] + k else k
  }

  /** The output key the pack walkers build for path q below prefix. */
  function KeyFrom(prefix: string, q: seq<string>): string
    decreases |q|
  {
    if |q| == 0 then prefix else KeyFrom(NewPrefix(prefix, q[0]), q[1..])
  }

  /** The output key of a marker path, walked from the root. */
  function DottedKey(q: seq<string>): string {
    KeyFrom("", q)
  }

  /** Below a non-empty prefix the key is the plain dotted join. */
  lemma {:induction false} KeyFromIsJoin(prefix: string, q: seq<string>)
    requires prefix != "" && |q| > 0
    ensures KeyFrom(prefix, q) == prefix + [Sep] + Join(q)
    decreases |q|
  {
    if |q| > 1 {
      KeyFromIsJoin(prefix + [Sep] + q[0], q[1..]);
      assert prefix + [Sep] + q[0] + [Sep] + Join(q[1..]) == prefix + [Sep] + (q[0] + [Sep] + Join(q[1..]));
    }
  }

  /** A path whose first segment is not empty gets the plain dotted join as its key. */
  lemma DottedKeyIsJoin(q: seq<string>)
    requires |q| > 0 && q[0] != ""
    ensures DottedKey(q) == Join(q)
  {
    assert DottedKey(q) == KeyFrom(q[0], q[1..]);
    if |q| > 1 {
      KeyFromIsJoin(q[0], q[1..]);
    }
  }

  /** Leading empty segments leave no trace in the key: `"" + '.' + k` is never built. */
  lemma {:induction false} LeadingEmptySegmentDropped(q: seq<string>)
    requires |q| > 0 && q[0] == ""
    ensures DottedKey(q) == DottedKey(q[1..])
  {
  }

  /** So two different marker paths can share an output key. */
  lemma LeadingEmptySegmentCollides()
    ensures DottedKey(["", "a"]) == DottedKey(["a"]) == "a"
    ensures Join(["", "a"]) == ".a"
  {
  }

  /** The key of a path of dot-free segments not starting with "" splits back into the path. */
  lemma DottedKeyRoundTrip(q: seq<string>)
    requires |q| > 0 && q[0] != "" && AllDotFree(q)
    ensures Split(DottedKey(q)) == q
  {
    DottedKeyIsJoin(q);
    SplitJoin(q);
  }
}
