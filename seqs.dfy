/** Order-preserving selection over sequences: the `filter` of Python list
    comprehensions and of JavaScript arrays, and the subsequence relation
    that every such selection satisfies. */
module Seqs {

  /** The elements of `s` that satisfy `keep`, in their original order. */
  function Filter<T>(s: seq<T>, keep: T -> bool): (r: seq<T>)
    ensures |r| <= |s|
    ensures forall x :: x in r ==> x in s && keep(x)
  {
    if |s| == 0 then []
    else Filter(s[..|s| - 1], keep) + (if keep(s[|s| - 1]) then [s[|s| - 1]] else [])
  }

  /** `a` can be obtained from `b` by deleting elements, without reordering. */
  predicate IsSubseq<T(==)>(a: seq<T>, b: seq<T>)
  {
    if |a| == 0 then true
    else if |b| == 0 then false
    else if a[|a| - 1] == b[|b| - 1] then IsSubseq(a[..|a| - 1], b[..|b| - 1])
    else IsSubseq(a, b[..|b| - 1])
  }

  lemma {:induction false} SubseqOfEmpty<T>(b: seq<T>)
    ensures IsSubseq([], b)
  {
  }

  /** Appending to the longer sequence keeps a subsequence a subsequence. */
  lemma {:induction false} SubseqExtend<T>(a: seq<T>, b: seq<T>, x: T)
    requires IsSubseq(a, b)
    ensures IsSubseq(a, b + [x])
    decreases |b|, 1
  {
    assert (b + [x])[..|b|] == b;
    if |a| > 0 && a[|a| - 1] == x {
      SubseqDropLast(a, b);
    }
  }

  /** Appending the same element to both sides keeps a subsequence a subsequence. */
  lemma {:induction false} SubseqExtendBoth<T>(a: seq<T>, b: seq<T>, x: T)
    requires IsSubseq(a, b)
    ensures IsSubseq(a + [x], b + [x])
  {
    assert (b + [x])[..|b|] == b;
    assert (a + [x])[..|a|] == a;
  }

  lemma {:induction false} SubseqDropLast<T>(a: seq<T>, b: seq<T>)
    requires |a| > 0 && IsSubseq(a, b)
    ensures IsSubseq(a[..|a| - 1], b)
    decreases |b|, 0
  {
    if |b| > 0 {
      var b' := b[..|b| - 1];
      assert b' + [b[|b| - 1]] == b;
      if a[|a| - 1] == b[|b| - 1] {
        SubseqExtend(a[..|a| - 1], b', b[|b| - 1]);
      } else {
        SubseqDropLast(a, b');
        SubseqExtend(a[..|a| - 1], b', b[|b| - 1]);
      }
    }
  }

  lemma {:induction false} SubseqReflexive<T>(s: seq<T>)
    ensures IsSubseq(s, s)
  {
    if |s| > 0 {
      SubseqReflexive(s[..|s| - 1]);
    }
  }

  /** Whatever `Filter` keeps, it keeps in the input's order: the result is a subsequence. */
  lemma {:induction false} FilterIsSubseq<T>(s: seq<T>, keep: T -> bool)
    ensures IsSubseq(Filter(s, keep), s)
  {
    if |s| > 0 {
      var init := s[..|s| - 1];
      assert init + [s[|s| - 1]] == s;
      FilterIsSubseq(init, keep);
      if keep(s[|s| - 1]) {
        SubseqExtendBoth(Filter(init, keep), init, s[|s| - 1]);
        assert Filter(s, keep) == Filter(init, keep) + [s[|s| - 1]];
      } else {
        SubseqExtend(Filter(init, keep), init, s[|s| - 1]);
        assert Filter(s, keep) == Filter(init, keep);
      }
    }
  }

  /** An element is kept exactly when it occurs in the input and satisfies the predicate. */
  lemma {:induction false} FilterMembership<T>(s: seq<T>, keep: T -> bool, x: T)
    ensures x in Filter(s, keep) <==> x in s && keep(x)
  {
    if |s| > 0 {
      var init := s[..|s| - 1];
      FilterMembership(init, keep, x);
      assert s == init + [s[|s| - 1]];
    }
  }

  /** When every element satisfies the predicate, filtering returns the input unchanged. */
  lemma {:induction false} FilterKeepsAll<T>(s: seq<T>, keep: T -> bool)
    requires forall i :: 0 <= i < |s| ==> keep(s[i])
    ensures Filter(s, keep) == s
  {
    if |s| > 0 {
      FilterKeepsAll(s[..|s| - 1], keep);
    }
  }

  /** Filtering distributes over concatenation, so a loop that appends can be tracked by prefixes. */
  lemma {:induction false} FilterAppend<T>(a: seq<T>, b: seq<T>, keep: T -> bool)
    ensures Filter(a + b, keep) == Filter(a, keep) + Filter(b, keep)
    decreases |b|
  {
    if |b| == 0 {
      assert a + b == a;
    } else {
      var bi := b[..|b| - 1];
      assert (a + b)[..|a + b| - 1] == a + bi;
      FilterAppend(a, bi, keep);
    }
  }

  /** `f` applied to every element, in order. */
  function Map<A, B>(s: seq<A>, f: A -> B): (r: seq<B>)
    ensures |r| == |s|
    ensures forall i :: 0 <= i < |s| ==> r[i] == f(s[i])
    decreases |s|
  {
    if |s| == 0 then [] else Map(s[..|s| - 1], f) + [f(s[|s| - 1])]
  }
}

/** Python dictionaries as insertion-ordered association lists: keys keep the
    position of their first insertion, and assigning an existing key
    replaces its value in place. */
module Dicts {
  import opened Wrappers

  function Keys<K, V>(d: seq<(K, V)>): (ks: seq<K>)
    ensures |ks| == |d|
    ensures forall i :: 0 <= i < |d| ==> ks[i] == d[i].0
  {
    seq(|d|, i requires 0 <= i < |d| => d[i].0)
  }

  predicate UniqueKeys<K(==), V>(d: seq<(K, V)>)
  {
    forall i, j :: 0 <= i < j < |d| ==> d[i].0 != d[j].0
  }

  /** `d.get(k)`. */
  function Lookup<K(==), V>(d: seq<(K, V)>, k: K): (r: Option<V>)
    ensures r.None? <==> k !in Keys(d)
    ensures r.Some? ==> exists i :: 0 <= i < |d| && d[i] == (k, r.value)
  {
    if |d| == 0 then None
    else if d[0].0 == k then Some(d[0].1)
    else
      var r := Lookup(d[1..], k);
      assert forall i :: 1 <= i < |d| ==> d[i] == d[1..][i - 1];
      assert Keys(d) == [d[0].0] + Keys(d[1..]);
      r
  }

  /** `d[k] = v`. */
  function Assign<K(==), V>(d: seq<(K, V)>, k: K, v: V): (r: seq<(K, V)>)
    requires UniqueKeys(d)
    ensures UniqueKeys(r)
    ensures Keys(r) == if k in Keys(d) then Keys(d) else Keys(d) + [k]
  {
    if |d| == 0 then [(k, v)]
    else if d[0].0 == k then
      var r := [(k, v)] + d[1..];
      assert Keys(r) == Keys(d);
      r
    else
      var rest := Assign(d[1..], k, v);
      var r := [d[0]] + rest;
      assert Keys(d) == [d[0].0] + Keys(d[1..]);
      assert Keys(r) == [d[0].0] + Keys(rest);
      r
  }

  /** Every entry of a dictionary is what looking up its key returns. */
  lemma {:induction false} LookupEntry<K, V>(d: seq<(K, V)>, i: nat)
    requires UniqueKeys(d) && i < |d|
    ensures Lookup(d, d[i].0) == Some(d[i].1)
  {
    if i > 0 {
      assert d[1..][i - 1] == d[i];
      LookupEntry(d[1..], i - 1);
    }
  }

  /** `d.setdefault(k, []).append(v)`. */
  function AppendAt<K(==), V>(d: seq<(K, seq<V>)>, k: K, v: V): (r: seq<(K, seq<V>)>)
    requires UniqueKeys(d)
    ensures UniqueKeys(r)
  {
    Assign(d, k, Lookup(d, k).GetOr([]) + [v])
  }

  /** The dictionary a loop builds by appending `val(x)` under `key(x)` for each `x` that
      passes `keep`. */
  function GroupBy<A, K(==), V>(xs: seq<A>, keep: A -> bool, key: A -> K, val: A -> V): (r: seq<(K, seq<V>)>)
    ensures UniqueKeys(r)
    decreases |xs|
  {
    if |xs| == 0 then []
    else
      var x := xs[|xs| - 1];
      var d := GroupBy(xs[..|xs| - 1], keep, key, val);
      if keep(x) then AppendAt(d, key(x), val(x)) else d
  }

  /** The values of the kept elements whose key is `k`, in order. */
  function Collected<A, K(==), V>(xs: seq<A>, keep: A -> bool, key: A -> K, val: A -> V, k: K): seq<V>
    decreases |xs|
  {
    if |xs| == 0 then []
    else
      var x := xs[|xs| - 1];
      Collected(xs[..|xs| - 1], keep, key, val, k) + (if keep(x) && key(x) == k then [val(x)] else [])
  }

  /** A key is in the grouping exactly when some kept element has it, and it holds the values
      of those elements in order. */
  lemma {:induction false} GroupByLookup<A, K, V>(xs: seq<A>, keep: A -> bool, key: A -> K, val: A -> V, k: K)
    ensures Lookup(GroupBy(xs, keep, key, val), k)
      == if Collected(xs, keep, key, val, k) == [] then None else Some(Collected(xs, keep, key, val, k))
    decreases |xs|
  {
    if |xs| > 0 {
      var init, x := xs[..|xs| - 1], xs[|xs| - 1];
      GroupByLookup(init, keep, key, val, k);
      var d := GroupBy(init, keep, key, val);
      var before := Collected(init, keep, key, val, k);
      if keep(x) {
        assert GroupBy(xs, keep, key, val) == Assign(d, key(x), Lookup(d, key(x)).GetOr([]) + [val(x)]);
        AssignLookup(d, key(x), Lookup(d, key(x)).GetOr([]) + [val(x)], k);
        if key(x) == k {
          assert Lookup(d, k).GetOr([]) == before;
          assert Collected(xs, keep, key, val, k) == before + [val(x)];
        } else {
          assert Collected(xs, keep, key, val, k) == before;
        }
      } else {
        assert Collected(xs, keep, key, val, k) == before;
      }
    }
  }

  /** Every group of the grouping holds at least one value. */
  lemma GroupByNonEmpty<A, K, V>(xs: seq<A>, keep: A -> bool, key: A -> K, val: A -> V)
    ensures forall i :: 0 <= i < |GroupBy(xs, keep, key, val)| ==> |GroupBy(xs, keep, key, val)[i].1| > 0
  {
    var d := GroupBy(xs, keep, key, val);
    forall i | 0 <= i < |d|
      ensures |d[i].1| > 0
    {
      LookupEntry(d, i);
      GroupByLookup(xs, keep, key, val, d[i].0);
    }
  }

  lemma {:induction false} CollectedMembership<A, K, V>(xs: seq<A>, keep: A -> bool, key: A -> K, val: A -> V, k: K, v: V)
    ensures v in Collected(xs, keep, key, val, k) <==>
      exists i :: 0 <= i < |xs| && keep(xs[i]) && key(xs[i]) == k && val(xs[i]) == v
    decreases |xs|
  {
    if |xs| > 0 {
      var n := |xs| - 1;
      CollectedMembership(xs[..n], keep, key, val, k, v);
      assert forall i :: 0 <= i < n ==> xs[..n][i] == xs[i];
    }
  }

  /** After `d[k] = v`, looking up `k` gives `v` and every other key is untouched. */
  lemma {:induction false} AssignLookup<K, V>(d: seq<(K, V)>, k: K, v: V, k': K)
    requires UniqueKeys(d)
    ensures Lookup(Assign(d, k, v), k') == if k' == k then Some(v) else Lookup(d, k')
  {
    if |d| > 0 && d[0].0 != k {
      AssignLookup(d[1..], k, v, k');
    }
  }
}
