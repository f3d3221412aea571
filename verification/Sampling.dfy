/**
 Choosing the transactions to profile: at most so many of each step path, evenly spaced in inclusion
 order.
 */
module Sampling {
  import opened Common
  import opened Word256

  type Hash = nat
  type StepPath = seq<nat>

  datatype Tx = Tx(hash: Hash, path: StepPath)

  datatype Mode = Sample(size: nat) | All

  // ---------------------------------------------------------------- even indices

  /** The index of pick `i` of `k` in a group of `n`. */
  function Index(n: nat, k: nat, i: nat): (index: nat)
    requires n > k >= 2 && i < k
    ensures index < n
  {
    IndexBounds(n, k, i);
    ((n - 1) * i) / (k - 1)
  }

  lemma IndexBounds(n: nat, k: nat, i: nat)
    requires n > k >= 2 && i < k
    ensures var index := ((n - 1) * i) / (k - 1);
      0 <= index < n && index * (k - 1) <= (n - 1) * i < index * (k - 1) + (k - 1)
  {
    var index := ((n - 1) * i) / (k - 1);
    ProductBound(n - 1, i, k - 1);
    QuotientBounds((n - 1) * i, k - 1);
    LessByProduct(index, n - 1, k - 1);
  }

  lemma ProductBound(a: nat, i: nat, d: nat)
    requires i <= d
    ensures 0 <= a * i <= a * d
  {
    assert a * d == a * i + a * (d - i);
  }

  lemma LessByProduct(x: int, y: int, d: int)
    requires d > 0 && x * d <= y * d
    ensures x <= y
  {
    if x > y {
      assert x * d == y * d + (x - y) * d;
      assert (x - y) * d >= d by {
        NonzeroMultiple(x - y, d);
      }
    }
  }

  function GapAfter(n: nat, k: nat, i: nat): int
    requires n > k >= 2 && i + 1 < k
  {
    Index(n, k, i + 1) - Index(n, k, i)
  }

  /** The picks run from the first to the last of the group, strictly forward, and no two gaps
      between neighbours differ by more than one. */
  lemma IndicesAreEven(n: nat, k: nat)
    requires n > k >= 2
    ensures Index(n, k, 0) == 0 && Index(n, k, k - 1) == n - 1
    ensures forall i: nat | i < k - 1 ::
      1 <= (n - 1) / (k - 1) <= GapAfter(n, k, i) <= (n - 1) / (k - 1) + 1
  {
    DivisionIs((n - 1) * 0, k - 1, 0, 0);
    DivisionIs((n - 1) * (k - 1), k - 1, n - 1, 0);
    forall i: nat | i < k - 1
      ensures 1 <= (n - 1) / (k - 1) <= GapAfter(n, k, i) <= (n - 1) / (k - 1) + 1
    {
      GapBounds(n, k, i);
    }
  }

  lemma GapBounds(n: nat, k: nat, i: nat)
    requires n > k >= 2 && i + 1 < k
    ensures 1 <= (n - 1) / (k - 1) <= GapAfter(n, k, i) <= (n - 1) / (k - 1) + 1
  {
    var a, d := n - 1, k - 1;
    IndexBounds(n, k, i);
    IndexBounds(n, k, i + 1);
    assert a * (i + 1) == a * i + a;
    QuotientBounds(a, d);
    Gap(a * i, a, d, Index(n, k, i), Index(n, k, i + 1), a / d);
    FactorAtLeastOne(a, d);
  }

  lemma FactorAtLeastOne(a: nat, d: nat)
    requires 0 < d <= a
    ensures a / d >= 1
  {
    QuotientBounds(a, d);
    Positive(a / d, d);
  }

  // Two neighbouring quotients by `d` whose dividends are `a` apart.
  lemma Gap(x: nat, a: nat, d: nat, p: nat, q: nat, g: nat)
    requires d > 0
    requires p * d <= x < p * d + d
    requires q * d <= x + a < q * d + d
    requires g * d <= a < g * d + d
    ensures g <= q - p <= g + 1
  {
    assert (q + 1 - p - g) * d == q * d + d - p * d - g * d > 0;
    assert (p + g + 2 - q) * d == p * d + g * d + d + d - q * d > 0;
    Positive(q + 1 - p - g, d);
    Positive(p + g + 2 - q, d);
  }

  lemma Positive(m: int, d: nat)
    requires m * d > 0
    ensures m >= 1
  {
    NonzeroMultiple(m, d);
    assert m == 0 ==> m * d == 0;
  }

  // ---------------------------------------------------------------- one group

  /** The picks of a group; a group no larger than the sample is taken whole. */
  function Picks(group: seq<Hash>, k: nat): seq<Hash>
    requires k > 0
  {
    if |group| <= k then group
    else if k == 1 then [group[0]]
    else seq(k, i requires 0 <= i < k => group[Index(|group|, k, i)])
  }

  function Min(a: nat, b: nat): nat {
    if a <= b then a else b
  }

  /** `s` consists of elements of `t` at increasing places. */
  ghost predicate IsSubsequence<T>(s: seq<T>, t: seq<T>) {
    exists at: seq<nat> :: IsEmbedding(at, s, t)
  }

  ghost predicate IsEmbedding<T>(at: seq<nat>, s: seq<T>, t: seq<T>) {
    && |at| == |s|
    && (forall i | 0 <= i < |s| :: at[i] < |t| && t[at[i]] == s[i])
    && (forall i, j | 0 <= i < j < |s| :: at[i] < at[j])
  }

  lemma {:induction false} IndexIncreasing(n: nat, k: nat, i: nat, j: nat)
    requires n > k >= 2 && i < j < k
    ensures Index(n, k, i) < Index(n, k, j)
    decreases j
  {
    GapBounds(n, k, j - 1);
    if i < j - 1 {
      IndexIncreasing(n, k, i, j - 1);
    }
  }

  /** The picks of a group are in inclusion order and as many as asked for or there are. */
  lemma PicksAreASubsequence(group: seq<Hash>, k: nat)
    requires k > 0
    ensures |Picks(group, k)| == Min(|group|, k)
    ensures IsSubsequence(Picks(group, k), group)
  {
    var n := |group|;
    if n <= k {
      assert IsEmbedding(seq(n, i requires 0 <= i < n => i), group, group);
    } else if k == 1 {
      assert IsEmbedding([0], [group[0]], group);
    } else {
      var at := seq(k, i requires 0 <= i < k => Index(n, k, i));
      forall i, j | 0 <= i < j < k
        ensures at[i] < at[j]
      {
        IndexIncreasing(n, k, i, j);
      }
      assert IsEmbedding(at, Picks(group, k), group);
    }
  }

  method SampleOneGroup(group: seq<Hash>, sampleSize: nat) returns (picks: seq<Hash>)
    requires sampleSize > 0
    ensures picks == Picks(group, sampleSize)
  {
    var groupSize := |group|;
    if groupSize == 0 {
      return [];
    }
    if groupSize <= sampleSize {
      return group;
    }
    if sampleSize == 1 {
      return [group[0]];
    }
    picks := [];
    var i := 0;
    while i < sampleSize
      invariant i <= sampleSize
      invariant picks == Picks(group, sampleSize)[..i]
    {
      IndexBounds(groupSize, sampleSize, i);
      picks := picks + [group[((groupSize - 1) * i) / (sampleSize - 1)]];
      i := i + 1;
    }
  }

  // ---------------------------------------------------------------- all groups

  // The hashes of a step path, in inclusion order.
  function Group(txs: seq<Tx>, path: StepPath): seq<Hash> {
    if txs == [] then []
    else
      var n := |txs| - 1;
      Group(txs[..n], path) + (if txs[n].path == path then [txs[n].hash] else [])
  }

  // The step paths in the order of their first transactions.
  function Paths(txs: seq<Tx>): seq<StepPath> {
    if txs == [] then []
    else
      var n := |txs| - 1;
      var before := Paths(txs[..n]);
      if txs[n].path in before then before else before + [txs[n].path]
  }

  function Labelled(hashes: seq<Hash>, path: StepPath): (txs: seq<Tx>)
    ensures |txs| == |hashes|
  {
    seq(|hashes|, i requires 0 <= i < |hashes| => Tx(hashes[i], path))
  }

  function SampleOf(paths: seq<StepPath>, txs: seq<Tx>, k: nat): seq<Tx>
    requires k > 0
  {
    if paths == [] then []
    else
      var n := |paths| - 1;
      SampleOf(paths[..n], txs, k) + Labelled(Picks(Group(txs, paths[n]), k), paths[n])
  }

  /** The sample of the transactions. */
  function Sampled(txs: seq<Tx>, mode: Mode): seq<Tx> {
    match mode
    case All => txs
    case Sample(k) => if k == 0 then [] else SampleOf(Paths(txs), txs, k)
  }

  lemma {:induction false} PathsAre(txs: seq<Tx>)
    ensures NoRepeats(Paths(txs))
    ensures forall p :: p in Paths(txs) <==> Group(txs, p) != []
    decreases |txs|
  {
    if txs != [] {
      PathsAre(txs[..|txs| - 1]);
    }
  }

  lemma {:induction false} GroupConcat(a: seq<Tx>, b: seq<Tx>, path: StepPath)
    ensures Group(a + b, path) == Group(a, path) + Group(b, path)
    decreases |b|
  {
    if b == [] {
      assert a + b == a;
    } else {
      var n := |b| - 1;
      assert (a + b)[..|a| + n] == a + b[..n];
      GroupConcat(a, b[..n], path);
    }
  }

  lemma {:induction false} GroupLabelled(hashes: seq<Hash>, given: StepPath, path: StepPath)
    ensures Group(Labelled(hashes, given), path) == if given == path then hashes else []
    decreases |hashes|
  {
    if hashes != [] {
      var n := |hashes| - 1;
      GroupLabelled(hashes[..n], given, path);
      assert Labelled(hashes, given)[..n] == Labelled(hashes[..n], given);
      assert hashes == hashes[..n] + [hashes[n]];
    }
  }

  lemma GroupOfMore(sample: seq<Tx>, picks: seq<Hash>, given: StepPath, path: StepPath)
    ensures Group(sample + Labelled(picks, given), path) == Group(sample, path) + (if given == path then picks else [])
  {
    GroupConcat(sample, Labelled(picks, given), path);
    GroupLabelled(picks, given, path);
  }

  lemma {:induction false} GroupOfSample(paths: seq<StepPath>, txs: seq<Tx>, k: nat, path: StepPath)
    requires k > 0 && NoRepeats(paths)
    ensures Group(SampleOf(paths, txs, k), path) == if path in paths then Picks(Group(txs, path), k) else []
    decreases |paths|
  {
    if paths != [] {
      var n := |paths| - 1;
      var picks := Picks(Group(txs, paths[n]), k);
      GroupOfSample(paths[..n], txs, k, path);
      GroupOfMore(SampleOf(paths[..n], txs, k), picks, paths[n], path);
      MembersSnoc(paths);
    }
  }

  lemma MembersSnoc<T>(s: seq<T>)
    requires s != [] && NoRepeats(s)
    ensures forall x :: x in s <==> x in s[..|s| - 1] || x == s[|s| - 1]
    ensures s[|s| - 1] !in s[..|s| - 1]
  {
    assert s == s[..|s| - 1] + [s[|s| - 1]];
  }

  /** The sample holds of each step path exactly the picks of its group, a subsequence of it. */
  lemma SampleHoldsPicks(txs: seq<Tx>, k: nat, path: StepPath)
    requires k > 0
    ensures Group(Sampled(txs, Sample(k)), path) == Picks(Group(txs, path), k)
    ensures IsSubsequence(Group(Sampled(txs, Sample(k)), path), Group(txs, path))
  {
    PathsAre(txs);
    GroupOfSample(Paths(txs), txs, k, path);
    PicksAreASubsequence(Group(txs, path), k);
  }

  // The sum over the paths of the group size, or the sample size where that is smaller.
  function SumOfMins(paths: seq<StepPath>, txs: seq<Tx>, k: nat): nat {
    if paths == [] then 0
    else
      var n := |paths| - 1;
      SumOfMins(paths[..n], txs, k) + Min(|Group(txs, paths[n])|, k)
  }

  lemma {:induction false} SampleOfSize(paths: seq<StepPath>, txs: seq<Tx>, k: nat)
    requires k > 0
    ensures |SampleOf(paths, txs, k)| == SumOfMins(paths, txs, k)
    decreases |paths|
  {
    if paths != [] {
      var n := |paths| - 1;
      SampleOfSize(paths[..n], txs, k);
      PicksAreASubsequence(Group(txs, paths[n]), k);
    }
  }

  /** The size of the sample; a sample size of zero gives none. */
  lemma SampleSize(txs: seq<Tx>, k: nat)
    ensures |Sampled(txs, Sample(k))| == SumOfMins(Paths(txs), txs, k)
  {
    if k > 0 {
      SampleOfSize(Paths(txs), txs, k);
    } else {
      NoSample(Paths(txs), txs);
    }
  }

  lemma {:induction false} NoSample(paths: seq<StepPath>, txs: seq<Tx>)
    ensures SumOfMins(paths, txs, 0) == 0
    decreases |paths|
  {
    if paths != [] {
      NoSample(paths[..|paths| - 1], txs);
    }
  }

  /** A sample size at least that of the largest group takes every transaction, group by group. */
  lemma {:induction false} LargeSampleTakesAll(txs: seq<Tx>, k: nat, path: StepPath)
    requires k >= |txs| && k > 0
    ensures Group(Sampled(txs, Sample(k)), path) == Group(txs, path)
  {
    SampleHoldsPicks(txs, k, path);
    GroupSize(txs, path);
  }

  lemma {:induction false} GroupSize(txs: seq<Tx>, path: StepPath)
    ensures |Group(txs, path)| <= |txs|
    decreases |txs|
  {
    if txs != [] {
      GroupSize(txs[..|txs| - 1], path);
    }
  }

  // ---------------------------------------------------------------- the loops

  // An insertion-ordered map from step paths to their transactions.
  datatype IndexMap = IndexMap(keys: seq<StepPath>, groups: map<StepPath, seq<Hash>>)

  ghost predicate Groups(m: IndexMap, txs: seq<Tx>) {
    && m.keys == Paths(txs)
    && m.groups.Keys == (set p <- m.keys)
    && forall p <- m.groups :: m.groups[p] == Group(txs, p)
  }

  method GroupByStep(txs: seq<Tx>) returns (byStep: IndexMap)
    ensures Groups(byStep, txs)
  {
    byStep := IndexMap([], map[]);
    var i := 0;
    while i < |txs|
      invariant i <= |txs|
      invariant Groups(byStep, txs[..i])
    {
      var tx := txs[i];
      assert txs[..i + 1][..i] == txs[..i];
      PathsAre(txs[..i]);
      if tx.path !in byStep.groups {
        byStep := IndexMap(byStep.keys + [tx.path], byStep.groups[tx.path := [tx.hash]]);
      } else {
        byStep := byStep.(groups := byStep.groups[tx.path := byStep.groups[tx.path] + [tx.hash]]);
      }
      i := i + 1;
    }
    assert txs[..i] == txs;
  }

  lemma SampleOfNext(paths: seq<StepPath>, i: nat, txs: seq<Tx>, k: nat)
    requires i < |paths| && k > 0
    ensures SampleOf(paths[..i + 1], txs, k)
         == SampleOf(paths[..i], txs, k) + Labelled(Picks(Group(txs, paths[i]), k), paths[i])
  {
    assert paths[..i + 1][..i] == paths[..i];
  }

  method SampleWatchedTxs(txs: seq<Tx>, mode: Mode) returns (out: seq<Tx>)
    ensures out == Sampled(txs, mode)
  {
    if mode.All? {
      return txs;
    }
    var sampleSize := mode.size;
    if sampleSize == 0 || |txs| == 0 {
      return [];
    }
    var byStep := GroupByStep(txs);
    out := [];
    var i := 0;
    while i < |byStep.keys|
      invariant i <= |byStep.keys|
      invariant out == SampleOf(byStep.keys[..i], txs, sampleSize)
    {
      var path := byStep.keys[i];
      SampleOfNext(byStep.keys, i, txs, sampleSize);
      var picks := SampleOneGroup(byStep.groups[path], sampleSize);
      out := out + Labelled(picks, path);
      i := i + 1;
    }
    assert byStep.keys[..i] == byStep.keys;
  }
}
