/** `Array.prototype.filter` and the group-by-key reduce the site pages run. */
module Sequences {

  /** `xs.filter(p)`: the elements satisfying `p`, in their order. */
  function Filter<T>(xs: seq<T>, p: T -> bool): (r: seq<T>)
    ensures |r| <= |xs|
    ensures forall i :: 0 <= i < |r| ==> p(r[i])
  {
    if xs == [] then [] else Filter(xs[..|xs| - 1], p) + (if p(xs[|xs| - 1]) then [xs[|xs| - 1]] else [])
  }

  lemma {:induction false} FilterAppend<T>(a: seq<T>, b: seq<T>, p: T -> bool)
    ensures Filter(a + b, p) == Filter(a, p) + Filter(b, p)
    decreases |b|
  {
    if b != [] {
      assert (a + b)[..|a + b| - 1] == a + b[..|b| - 1];
      FilterAppend(a, b[..|b| - 1], p);
    } else {
      assert a + b == a;
    }
  }

  /** Two complementary filters split a sequence: each element passes exactly one of them. */
  lemma {:induction false} FilterSplit<T>(xs: seq<T>, p: T -> bool, q: T -> bool)
    requires forall i :: 0 <= i < |xs| ==> (p(xs[i]) <==> !q(xs[i]))
    ensures |Filter(xs, p)| + |Filter(xs, q)| == |xs|
  {
    if xs != [] {
      FilterSplit(xs[..|xs| - 1], p, q);
    }
  }

  /** A filter whose predicate holds everywhere keeps the sequence. */
  lemma {:induction false} FilterAll<T>(xs: seq<T>, p: T -> bool)
    requires forall i :: 0 <= i < |xs| ==> p(xs[i])
    ensures Filter(xs, p) == xs
  {
    if xs != [] {
      FilterAll(xs[..|xs| - 1], p);
    }
  }

  /** Every element satisfying the predicate survives the filter. */
  lemma {:induction false} FilterKeeps<T>(xs: seq<T>, p: T -> bool, i: int)
    requires 0 <= i < |xs| && p(xs[i])
    ensures xs[i] in Filter(xs, p)
  {
    if i < |xs| - 1 {
      FilterKeeps(xs[..|xs| - 1], p, i);
    }
  }

  // Grouping: `xs.reduce((groups, x) => { if (!keep(x)) return groups;
  // (groups[key(x)] ||= []).push(x); return groups; }, {})`.

  /** The members of group `k`: the kept elements whose key is `k`, in input order. */
  function Bucket<T>(xs: seq<T>, keep: T -> bool, key: T -> string, k: string): seq<T> {
    if xs == [] then []
    else
      var x := xs[|xs| - 1];
      Bucket(xs[..|xs| - 1], keep, key, k) + (if keep(x) && key(x) == k then [x] else [])
  }

  /** The group keys, in the order their first kept element appears. */
  function GroupKeys<T>(xs: seq<T>, keep: T -> bool, key: T -> string): seq<string> {
    if xs == [] then []
    else
      var ks := GroupKeys(xs[..|xs| - 1], keep, key);
      var x := xs[|xs| - 1];
      if keep(x) && key(x) !in ks then ks + [key(x)] else ks
  }

  /** The number of kept elements. */
  function KeptCount<T>(xs: seq<T>, keep: T -> bool): nat {
    |Filter(xs, keep)|
  }

  /** Builds the groups one element at a time, the way the reduce pushes into its dictionary. */
  method GroupBy<T>(xs: seq<T>, keep: T -> bool, key: T -> string) returns (groups: map<string, seq<T>>)
    ensures forall k :: k in groups <==> k in GroupKeys(xs, keep, key)
    ensures forall k :: k in groups ==> groups[k] == Bucket(xs, keep, key, k)
  {
    groups := map[];
    var i := 0;
    while i < |xs|
      invariant 0 <= i <= |xs|
      invariant forall k :: k in groups <==> k in GroupKeys(xs[..i], keep, key)
      invariant forall k :: k in groups ==> groups[k] == Bucket(xs[..i], keep, key, k)
    {
      var x := xs[i];
      assert xs[..i + 1][..i] == xs[..i];
      if keep(x) {
        var k := key(x);
        BucketEmptyOutsideKeys(xs[..i], keep, key, k);
        if k !in groups {
          groups := groups[k := []];
        }
        groups := groups[k := groups[k] + [x]];
      }
      i := i + 1;
    }
    assert xs[..i] == xs;
  }

  lemma {:induction false} BucketEmptyOutsideKeys<T>(xs: seq<T>, keep: T -> bool, key: T -> string, k: string)
    ensures k !in GroupKeys(xs, keep, key) <==> Bucket(xs, keep, key, k) == []
  {
    if xs != [] {
      BucketEmptyOutsideKeys(xs[..|xs| - 1], keep, key, k);
    }
  }

  /** Every member of group `k` is kept and has key `k`: no element lands in two groups. */
  lemma {:induction false} BucketMembers<T>(xs: seq<T>, keep: T -> bool, key: T -> string, k: string)
    ensures forall y :: y in Bucket(xs, keep, key, k) ==> keep(y) && key(y) == k
  {
    if xs != [] {
      BucketMembers(xs[..|xs| - 1], keep, key, k);
    }
  }

  /** Every kept element is in the group of its key, and that group is listed. */
  lemma {:induction false} KeptInOwnBucket<T>(xs: seq<T>, keep: T -> bool, key: T -> string, i: int)
    requires 0 <= i < |xs| && keep(xs[i])
    ensures xs[i] in Bucket(xs, keep, key, key(xs[i]))
    ensures key(xs[i]) in GroupKeys(xs, keep, key)
  {
    if i < |xs| - 1 {
      KeptInOwnBucket(xs[..|xs| - 1], keep, key, i);
    } else {
      BucketEmptyOutsideKeys(xs, keep, key, key(xs[i]));
    }
  }

  /** Groups of concatenated inputs are the concatenated groups: input order is kept inside every group. */
  lemma {:induction false} BucketAppend<T>(a: seq<T>, b: seq<T>, keep: T -> bool, key: T -> string, k: string)
    ensures Bucket(a + b, keep, key, k) == Bucket(a, keep, key, k) + Bucket(b, keep, key, k)
    decreases |b|
  {
    if b != [] {
      assert (a + b)[..|a + b| - 1] == a + b[..|b| - 1];
      BucketAppend(a, b[..|b| - 1], keep, key, k);
    } else {
      assert a + b == a;
    }
  }

  predicate Distinct(ks: seq<string>) {
    forall i, j :: 0 <= i < j < |ks| ==> ks[i] != ks[j]
  }

  lemma {:induction false} GroupKeysDistinct<T>(xs: seq<T>, keep: T -> bool, key: T -> string)
    ensures Distinct(GroupKeys(xs, keep, key))
  {
    if xs != [] {
      GroupKeysDistinct(xs[..|xs| - 1], keep, key);
    }
  }

  /** The total size of the groups listed in `ks`. */
  function GroupSizes<T>(ks: seq<string>, xs: seq<T>, keep: T -> bool, key: T -> string): nat {
    if ks == [] then 0
    else GroupSizes(ks[..|ks| - 1], xs, keep, key) + |Bucket(xs, keep, key, ks[|ks| - 1])|
  }

  function Occurrences(ks: seq<string>, k: string): nat {
    if ks == [] then 0 else Occurrences(ks[..|ks| - 1], k) + (if ks[|ks| - 1] == k then 1 else 0)
  }

  lemma {:induction false} OccurrencesDistinct(ks: seq<string>, k: string)
    requires Distinct(ks)
    ensures Occurrences(ks, k) == if k in ks then 1 else 0
  {
    if ks != [] {
      var init := ks[..|ks| - 1];
      assert Distinct(init);
      OccurrencesDistinct(init, k);
      assert ks == init + [ks[|ks| - 1]];
      if ks[|ks| - 1] == k {
        assert k !in init;
      }
    }
  }

  lemma {:induction false} GroupSizesStep<T>(ks: seq<string>, xs: seq<T>, x: T, keep: T -> bool, key: T -> string)
    ensures GroupSizes(ks, xs + [x], keep, key)
      == GroupSizes(ks, xs, keep, key) + (if keep(x) then Occurrences(ks, key(x)) else 0)
  {
    assert (xs + [x])[..|xs + [x]| - 1] == xs;
    if ks != [] {
      GroupSizesStep(ks[..|ks| - 1], xs, x, keep, key);
    }
  }

  /** The group sizes add up to the number of kept elements. */
  lemma {:induction false} GroupSizesSum<T>(xs: seq<T>, keep: T -> bool, key: T -> string)
    ensures GroupSizes(GroupKeys(xs, keep, key), xs, keep, key) == KeptCount(xs, keep)
  {
    if xs != [] {
      var init := xs[..|xs| - 1];
      var x := xs[|xs| - 1];
      assert xs == init + [x];
      var ks := GroupKeys(init, keep, key);
      GroupSizesSum(init, keep, key);
      GroupKeysDistinct(init, keep, key);
      if keep(x) && key(x) !in ks {
        GroupSizesStep(ks, init, x, keep, key);
        OccurrencesDistinct(ks, key(x));
        BucketEmptyOutsideKeys(init, keep, key, key(x));
        assert (ks + [key(x)])[..|ks + [key(x)]| - 1] == ks;
      } else {
        GroupSizesStep(ks, init, x, keep, key);
        if keep(x) {
          OccurrencesDistinct(ks, key(x));
        }
      }
    }
  }
}
