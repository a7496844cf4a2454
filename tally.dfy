/**
 * A Python dict from names to quantities as the workshop code uses it: keys
 * kept in insertion order, `d[k] += v` on a defaultdict(float) (a missing key
 * reads as 0), and iteration over `d.items()` in insertion order.
 */
module Tallies {
  import opened Text

  /** The items of the dict, in insertion order. */
  type Tally = seq<(string, real)>

  function Keys(t: Tally): (ks: seq<string>)
    ensures |ks| == |t|
    ensures forall i :: 0 <= i < |t| ==> ks[i] == t[i].0
  {
    if t == [] then [] else [t[0].0] + Keys(t[1..])
  }

  /** A dict never holds a key twice. */
  predicate Distinct(t: Tally) {
    t == [] || (t[0].0 !in Keys(t[1..]) && Distinct(t[1..]))
  }

  /** d[k] on a defaultdict: the value stored under `k`, or 0. */
  function Get(t: Tally, k: string): real {
    if t == [] then 0.0 else if t[0].0 == k then t[0].1 else Get(t[1..], k)
  }

  /** The sum of all values listed under `k` (a list of contributions may
      name a key several times). */
  function SumOf(xs: Tally, k: string): real {
    if xs == [] then 0.0 else (if xs[0].0 == k then xs[0].1 else 0.0) + SumOf(xs[1..], k)
  }

  /** A key that is absent reads as 0. */
  lemma {:induction false} GetAbsent(t: Tally, k: string)
    requires k !in Keys(t)
    ensures Get(t, k) == 0.0
  {
    if t != [] {
      GetAbsent(t[1..], k);
    }
  }

  /** Where each key is listed once, the sum under a key is its value. */
  lemma {:induction false} SumOfDistinct(t: Tally, k: string)
    requires Distinct(t)
    ensures SumOf(t, k) == Get(t, k)
  {
    if t != [] {
      SumOfDistinct(t[1..], k);
      if t[0].0 == k {
        GetAbsent(t[1..], k);
      }
    }
  }

  lemma {:induction false} SumOfAppend(xs: Tally, ys: Tally, k: string)
    ensures SumOf(xs + ys, k) == SumOf(xs, k) + SumOf(ys, k)
  {
    if xs == [] {
      assert xs + ys == ys;
    } else {
      assert (xs + ys)[1..] == xs[1..] + ys;
      SumOfAppend(xs[1..], ys, k);
    }
  }

  /** d[k] += v: the value under `k` grows by `v` and no other value changes;
      a new key goes to the end of the insertion order. */
  function Add(t: Tally, k: string, v: real): (r: Tally)
    ensures Get(r, k) == Get(t, k) + v
    ensures forall j :: j != k ==> Get(r, j) == Get(t, j)
    ensures Keys(r) == if k in Keys(t) then Keys(t) else Keys(t) + [k]
    ensures Distinct(t) ==> Distinct(r)
  {
    if t == [] then [(k, v)]
    else if t[0].0 == k then [(k, t[0].1 + v)] + t[1..]
    else
      var r := [t[0]] + Add(t[1..], k, v);
      assert r[1..] == Add(t[1..], k, v);
      r
  }

  /** d[k] = v: the value under `k` becomes `v` and no other value changes;
      a new key goes to the end of the insertion order, an old one keeps its
      place. */
  function Put(t: Tally, k: string, v: real): (r: Tally)
    ensures Get(r, k) == v
    ensures forall j :: j != k ==> Get(r, j) == Get(t, j)
    ensures Keys(r) == if k in Keys(t) then Keys(t) else Keys(t) + [k]
    ensures Distinct(t) ==> Distinct(r)
  {
    if t == [] then [(k, v)]
    else if t[0].0 == k then [(k, v)] + t[1..]
    else
      var r := [t[0]] + Put(t[1..], k, v);
      assert r[1..] == Put(t[1..], k, v);
      r
  }

  /** `for k, v in sub.items(): d[k + suffix] += v` */
  function Merge(acc: Tally, sub: Tally, suffix: string): (r: Tally)
    ensures Distinct(acc) ==> Distinct(r)
    decreases |sub|
  {
    if sub == [] then acc else Merge(Add(acc, sub[0].0 + suffix, sub[0].1), sub[1..], suffix)
  }

  /** Merging adds, under each key followed by the suffix, everything the
      contributions list under that key. */
  lemma {:induction false} MergeGet(acc: Tally, sub: Tally, suffix: string, k: string)
    ensures Get(Merge(acc, sub, suffix), k + suffix) == Get(acc, k + suffix) + SumOf(sub, k)
    decreases |sub|
  {
    if sub != [] {
      var next := Add(acc, sub[0].0 + suffix, sub[0].1);
      MergeGet(next, sub[1..], suffix, k);
      if k + suffix == sub[0].0 + suffix {
        assert k == (k + suffix)[..|k|] == (sub[0].0 + suffix)[..|sub[0].0|] == sub[0].0;
      }
    }
  }

  /** Merging leaves every key that does not end in the suffix alone. */
  lemma {:induction false} MergeKeepsOthers(acc: Tally, sub: Tally, suffix: string, key: string)
    requires !EndsWith(key, suffix)
    ensures Get(Merge(acc, sub, suffix), key) == Get(acc, key)
    decreases |sub|
  {
    if sub != [] {
      var w := sub[0].0 + suffix;
      assert w[|w| - |suffix|..] == suffix;
      MergeKeepsOthers(Add(acc, w, sub[0].1), sub[1..], suffix, key);
    }
  }

  /** Merging keeps the keys already present, in their order, at the front. */
  lemma {:induction false} MergeKeepsOrder(acc: Tally, sub: Tally, suffix: string)
    ensures |Merge(acc, sub, suffix)| >= |acc|
    ensures Keys(Merge(acc, sub, suffix))[..|acc|] == Keys(acc)
    decreases |sub|
  {
    if sub != [] {
      var next := Add(acc, sub[0].0 + suffix, sub[0].1);
      MergeKeepsOrder(next, sub[1..], suffix);
      assert Keys(next)[..|acc|] == Keys(acc);
    }
  }

  /** Merging a concatenation merges its two parts one after the other. */
  lemma {:induction false} MergeAppend(acc: Tally, xs: Tally, ys: Tally, suffix: string)
    ensures Merge(acc, xs + ys, suffix) == Merge(Merge(acc, xs, suffix), ys, suffix)
    decreases |xs|
  {
    if xs == [] {
      assert xs + ys == ys;
    } else {
      var zs := xs + ys;
      var next := Add(acc, xs[0].0 + suffix, xs[0].1);
      assert zs[0] == xs[0] && zs[1..] == xs[1..] + ys;
      MergeAppend(next, xs[1..], ys, suffix);
    }
  }

  /** MergeAppend, with the concatenation named. */
  lemma MergeStep(acc: Tally, xs: Tally, ys: Tally, zs: Tally, suffix: string)
    requires zs == xs + ys
    ensures Merge(Merge(acc, xs, suffix), ys, suffix) == Merge(acc, zs, suffix)
  {
    MergeAppend(acc, xs, ys, suffix);
  }

  /** Without a suffix, the merged keys are the old keys and the keys of the
      contributions. */
  lemma {:induction false} MergeKeys(acc: Tally, xs: Tally, k: string)
    ensures k in Keys(Merge(acc, xs, "")) <==> k in Keys(acc) || k in Keys(xs)
    decreases |xs|
  {
    if xs != [] {
      assert xs[0].0 + "" == xs[0].0;
      MergeKeys(Add(acc, xs[0].0, xs[0].1), xs[1..], k);
    }
  }

  /** Totals accumulated from nothing: one key for each contributor, which
      holds the sum of that contributor's contributions. */
  lemma Totals(xs: Tally)
    ensures Distinct(Merge([], xs, ""))
    ensures forall k :: k in Keys(Merge([], xs, "")) <==> k in Keys(xs)
    ensures forall k :: Get(Merge([], xs, ""), k) == SumOf(xs, k)
  {
    forall k ensures k in Keys(Merge([], xs, "")) <==> k in Keys(xs) {
      MergeKeys([], xs, k);
    }
    forall k ensures Get(Merge([], xs, ""), k) == SumOf(xs, k) {
      MergeGet([], xs, "", k);
      assert k + "" == k;
    }
  }
}
