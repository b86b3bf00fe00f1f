/** Consensus by uptime: greedy clustering of weighted votes within a tolerance. */
module Clustering {
  import opened Sorting

  const TWO_64: int := 0x1_0000_0000_0000_0000

  /** Weights are unsigned 64-bit numbers and wrap around. */
  datatype Vote = Vote(value: int, weight: int)

  datatype Cluster = Cluster(values: seq<int>, totalWeight: int)

  function WrapU64(n: int): (r: int)
    ensures 0 <= r < TWO_64
  {
    n % TWO_64
  }

  function ByValue(): Vote -> Rank {
    (v: Vote) => ByNumber(v.value)
  }

  function HeaviestFirst(): Cluster -> Rank {
    (c: Cluster) => ByNumber(-c.totalWeight)
  }

  function Values(votes: seq<Vote>): seq<int> {
    seq(|votes|, i requires 0 <= i < |votes| => votes[i].value)
  }

  function Weight(votes: seq<Vote>): int {
    if votes == [] then 0 else WrapU64(Weight(votes[..|votes| - 1]) + votes[|votes| - 1].weight)
  }

  function Summary(votes: seq<Vote>): Cluster {
    Cluster(Values(votes), Weight(votes))
  }

  function Summaries(parts: seq<seq<Vote>>): seq<Cluster> {
    seq(|parts|, i requires 0 <= i < |parts| => Summary(parts[i]))
  }

  function Flatten(parts: seq<seq<Vote>>): seq<Vote> {
    if parts == [] then [] else Flatten(parts[..|parts| - 1]) + parts[|parts| - 1]
  }

  /** `parts` cut the sorted votes into groups: each within the tolerance of its first vote, each
      first vote beyond the tolerance of the one before. */
  ghost predicate Greedy(sorted: seq<Vote>, tolerance: int, parts: seq<seq<Vote>>) {
    && Flatten(parts) == sorted
    && AllGroups(tolerance, parts)
    && AllGaps(tolerance, parts)
  }

  ghost predicate AllGroups(tolerance: int, parts: seq<seq<Vote>>) {
    forall k :: 0 <= k < |parts| ==> IsGroup(parts[k], tolerance)
  }

  ghost predicate AllGaps(tolerance: int, parts: seq<seq<Vote>>) {
    forall k :: 0 < k < |parts| ==> Gap(parts[k - 1], parts[k], tolerance)
  }

  ghost predicate IsGroup(group: seq<Vote>, tolerance: int) {
    group != [] && forall v :: v in group[1..] ==> v.value - group[0].value <= tolerance
  }

  ghost predicate Gap(group: seq<Vote>, next: seq<Vote>, tolerance: int) {
    group != [] && next != [] && next[0].value - group[0].value > tolerance
  }

  function Middle(c: Cluster): int
    requires c.values != []
  {
    c.values[|c.values| / 2]
  }

  /** A cluster of at least two votes, none of the others heavier. */
  ghost predicate HeaviestCorroborated(clusters: seq<Cluster>, c: Cluster) {
    && c in clusters && |c.values| >= 2
    && forall d :: d in clusters && |d.values| >= 2 ==> d.totalWeight <= c.totalWeight
  }

  ghost predicate Heaviest(clusters: multiset<Cluster>, c: Cluster) {
    c in clusters && forall d :: d in clusters ==> d.totalWeight <= c.totalWeight
  }

  /** A second-heaviest cluster within 80 percent of a heaviest one may win the coin flip. */
  ghost predicate CloseSecond(clusters: seq<Cluster>, first: Cluster, second: Cluster) {
    && Heaviest(multiset(clusters), first)
    && Heaviest(multiset(clusters) - multiset{first}, second)
    && second.totalWeight >= WrapU64(first.totalWeight * 80) / 100
  }

  ghost predicate Chosen(clusters: seq<Cluster>, allowCoinFlip: bool, result: int) {
    if exists c :: c in clusters && |c.values| >= 2
    then exists c :: HeaviestCorroborated(clusters, c) && result == Middle(c)
    else
      || (exists c :: Heaviest(multiset(clusters), c) && c.values != [] && result == Middle(c))
      || (allowCoinFlip && exists c, d :: CloseSecond(clusters, c, d) && d.values != [] && result == Middle(d))
  }

  ghost predicate IsConsensus(values: seq<Vote>, tolerance: int, allowCoinFlip: bool, result: int) {
    exists sorted, parts :: Elected(values, tolerance, allowCoinFlip, sorted, parts, result)
  }

  ghost predicate Elected(values: seq<Vote>, tolerance: int, allowCoinFlip: bool, sorted: seq<Vote>,
                          parts: seq<seq<Vote>>, result: int) {
    && SortedArrangement(values, sorted, ByValue())
    && Greedy(sorted, tolerance, parts)
    && Chosen(Summaries(parts), allowCoinFlip, result)
  }

  method ConsensusByUptime(values: seq<Vote>, tolerance: int, allowCoinFlip: bool, coin: bool) returns (result: int)
    ensures values == [] ==> result == 0
    ensures values != [] ==> IsConsensus(values, tolerance, allowCoinFlip, result)
  {
    if |values| == 0 {
      return 0;
    }
    var sorted := SortSlice(values, ByValue());
    SameElements(values, sorted);
    var clusters;
    ghost var parts;
    clusters, parts := BuildClusters(sorted, tolerance);
    result := Choose(clusters, allowCoinFlip, coin);
    assert Elected(values, tolerance, allowCoinFlip, sorted, parts, result);
  }

  method BuildClusters(sorted: seq<Vote>, tolerance: int) returns (clusters: seq<Cluster>, ghost parts: seq<seq<Vote>>)
    requires sorted != []
    ensures Greedy(sorted, tolerance, parts) && clusters == Summaries(parts) && clusters != []
    ensures forall c :: c in clusters ==> c.values != []
  {
    clusters, parts := [], [];
    var current := Cluster([sorted[0].value], WrapU64(sorted[0].weight));
    ghost var group := [sorted[0]];
    var clusterStart := sorted[0].value;
    Begin(sorted[0], tolerance);
    assert sorted[..1] == [sorted[0]];
    for i := 1 to |sorted|
      invariant Building(sorted[..i], tolerance, parts, group, clusters, current)
      invariant group != [] && clusterStart == group[0].value
    {
      assert sorted[..i + 1] == sorted[..i] + [sorted[i]];
      if sorted[i].value - clusterStart <= tolerance {
        Joins(sorted[..i], tolerance, parts, group, clusters, current, sorted[i]);
        current := Cluster(current.values + [sorted[i].value], WrapU64(current.totalWeight + sorted[i].weight));
        group := group + [sorted[i]];
      } else {
        Begins(sorted[..i], tolerance, parts, group, clusters, current, sorted[i]);
        clusters := clusters + [current];
        parts := parts + [group];
        current := Cluster([sorted[i].value], WrapU64(sorted[i].weight));
        group := [sorted[i]];
        clusterStart := sorted[i].value;
      }
    }
    assert sorted[..|sorted|] == sorted;
    Ends(sorted, tolerance, parts, group, clusters, current);
    clusters := clusters + [current];
    parts := parts + [group];
  }

  /** The votes so far, in closed clusters and a current one. */
  ghost predicate Building(done: seq<Vote>, tolerance: int, parts: seq<seq<Vote>>, group: seq<Vote>,
                           clusters: seq<Cluster>, current: Cluster) {
    && clusters == Summaries(parts) && IsGroup(group, tolerance) && current == Summary(group)
    && Flatten(parts) + group == done && Greedy(Flatten(parts), tolerance, parts)
    && (parts != [] ==> Gap(parts[|parts| - 1], group, tolerance))
  }

  lemma Begin(v: Vote, tolerance: int)
    ensures Building([v], tolerance, [], [v], [], Cluster([v.value], WrapU64(v.weight)))
  {
    SummaryOne(v);
    assert Flatten([]) + [v] == [v];
  }

  lemma Ends(done: seq<Vote>, tolerance: int, parts: seq<seq<Vote>>, group: seq<Vote>, clusters: seq<Cluster>,
             current: Cluster)
    requires Building(done, tolerance, parts, group, clusters, current)
    ensures Greedy(done, tolerance, parts + [group]) && clusters + [current] == Summaries(parts + [group])
    ensures forall c :: c in clusters + [current] ==> c.values != []
  {
    GreedySnoc(tolerance, parts, group);
    SummariesNonEmpty(parts + [group], tolerance);
  }

  lemma Joins(done: seq<Vote>, tolerance: int, parts: seq<seq<Vote>>, group: seq<Vote>, clusters: seq<Cluster>,
              current: Cluster, v: Vote)
    requires Building(done, tolerance, parts, group, clusters, current) && v.value - group[0].value <= tolerance
    ensures (group + [v])[0] == group[0]
    ensures Building(done + [v], tolerance, parts, group + [v], clusters,
                     Cluster(current.values + [v.value], WrapU64(current.totalWeight + v.weight)))
  {
    JoinGroup(group, v, tolerance);
    assert Flatten(parts) + (group + [v]) == (Flatten(parts) + group) + [v];
  }

  lemma Begins(done: seq<Vote>, tolerance: int, parts: seq<seq<Vote>>, group: seq<Vote>, clusters: seq<Cluster>,
               current: Cluster, v: Vote)
    requires Building(done, tolerance, parts, group, clusters, current) && v.value - group[0].value > tolerance
    ensures Building(done + [v], tolerance, parts + [group], [v], clusters + [current],
                     Cluster([v.value], WrapU64(v.weight)))
  {
    GreedySnoc(tolerance, parts, group);
    SummaryOne(v);
  }

  lemma SummaryOne(v: Vote)
    ensures Summary([v]) == Cluster([v.value], WrapU64(v.weight))
  {
    WeightSnoc([], v);
    assert [] + [v] == [v];
    assert Values([v]) == [v.value];
  }

  lemma WeightSnoc(group: seq<Vote>, v: Vote)
    ensures Weight(group + [v]) == WrapU64(Weight(group) + v.weight)
  {
  }

  lemma JoinGroup(group: seq<Vote>, v: Vote, tolerance: int)
    requires IsGroup(group, tolerance) && v.value - group[0].value <= tolerance
    ensures IsGroup(group + [v], tolerance)
    ensures Summary(group + [v]) == Cluster(Values(group) + [v.value], WrapU64(Weight(group) + v.weight))
  {
    WeightSnoc(group, v);
    assert Values(group + [v]) == Values(group) + [v.value];
    assert (group + [v])[1..] == group[1..] + [v];
  }

  lemma FlattenSnoc(parts: seq<seq<Vote>>, group: seq<Vote>)
    ensures Flatten(parts + [group]) == Flatten(parts) + group
  {
  }

  lemma SummariesSnoc(parts: seq<seq<Vote>>, group: seq<Vote>)
    ensures Summaries(parts + [group]) == Summaries(parts) + [Summary(group)]
  {
  }

  lemma GreedySnoc(tolerance: int, parts: seq<seq<Vote>>, group: seq<Vote>)
    requires Greedy(Flatten(parts), tolerance, parts) && IsGroup(group, tolerance)
    requires parts != [] ==> Gap(parts[|parts| - 1], group, tolerance)
    ensures Flatten(parts + [group]) == Flatten(parts) + group
    ensures Greedy(Flatten(parts + [group]), tolerance, parts + [group])
    ensures Summaries(parts + [group]) == Summaries(parts) + [Summary(group)]
  {
    FlattenSnoc(parts, group);
    SummariesSnoc(parts, group);
    GroupsSnoc(tolerance, parts, group);
    GapsSnoc(tolerance, parts, group);
  }

  lemma GroupsSnoc(tolerance: int, parts: seq<seq<Vote>>, group: seq<Vote>)
    requires AllGroups(tolerance, parts) && IsGroup(group, tolerance)
    ensures AllGroups(tolerance, parts + [group])
  {
  }

  lemma GapsSnoc(tolerance: int, parts: seq<seq<Vote>>, group: seq<Vote>)
    requires AllGaps(tolerance, parts) && (parts != [] ==> Gap(parts[|parts| - 1], group, tolerance))
    ensures AllGaps(tolerance, parts + [group])
  {
  }

  lemma SummariesNonEmpty(parts: seq<seq<Vote>>, tolerance: int)
    requires forall k :: 0 <= k < |parts| ==> IsGroup(parts[k], tolerance)
    ensures forall c :: c in Summaries(parts) ==> c.values != []
  {
  }

  method Choose(clusters: seq<Cluster>, allowCoinFlip: bool, coin: bool) returns (result: int)
    requires clusters != [] && forall c :: c in clusters ==> c.values != []
    ensures Chosen(clusters, allowCoinFlip, result)
  {
    var ranked := SortSlice(clusters, HeaviestFirst());
    SameElements(clusters, ranked);
    for i := 0 to |ranked|
      invariant forall j :: 0 <= j < i ==> |ranked[j].values| < 2
    {
      if |ranked[i].values| >= 2 {
        FirstIsHeaviest(clusters, ranked, i);
        return Middle(ranked[i]);
      }
    }
    assert forall c :: c in clusters ==> c in ranked;
    HeadIsHeaviest(clusters, ranked);
    if allowCoinFlip && |ranked| >= 2 {
      var first, second := ranked[0], ranked[1];
      var threshold := WrapU64(first.totalWeight * 80) / 100;
      if second.totalWeight >= threshold {
        if coin {
          return Middle(first);
        }
        NextIsSecond(clusters, ranked);
        assert CloseSecond(clusters, first, second);
        return Middle(second);
      }
    }
    return Middle(ranked[0]);
  }

  lemma RankedWeights(ranked: seq<Cluster>, i: nat, j: nat)
    requires Sorted(ranked, HeaviestFirst()) && i <= j < |ranked|
    ensures ranked[j].totalWeight <= ranked[i].totalWeight
  {
  }

  lemma FirstIsHeaviest(clusters: seq<Cluster>, ranked: seq<Cluster>, i: nat)
    requires SortedArrangement(clusters, ranked, HeaviestFirst())
    requires i < |ranked| && |ranked[i].values| >= 2 && forall j :: 0 <= j < i ==> |ranked[j].values| < 2
    ensures HeaviestCorroborated(clusters, ranked[i])
  {
    SameElements(clusters, ranked);
    assert ranked[i] in ranked;
    forall d | d in clusters && |d.values| >= 2 ensures d.totalWeight <= ranked[i].totalWeight {
      var j :| 0 <= j < |ranked| && ranked[j] == d;
      RankedWeights(ranked, i, j);
    }
  }

  lemma HeadIsHeaviest(clusters: seq<Cluster>, ranked: seq<Cluster>)
    requires SortedArrangement(clusters, ranked, HeaviestFirst()) && ranked != []
    ensures Heaviest(multiset(clusters), ranked[0])
  {
  }

  lemma NextIsSecond(clusters: seq<Cluster>, ranked: seq<Cluster>)
    requires SortedArrangement(clusters, ranked, HeaviestFirst()) && |ranked| >= 2
    ensures Heaviest(multiset(clusters) - multiset{ranked[0]}, ranked[1])
  {
    assert ranked == [ranked[0]] + ranked[1..];
    assert multiset(clusters) - multiset{ranked[0]} == multiset(ranked[1..]);
    assert ranked[1..][0] == ranked[1];
    forall d | d in multiset(ranked[1..]) ensures d.totalWeight <= ranked[1].totalWeight {
      assert d in ranked[1..];
      var j :| 0 <= j < |ranked| - 1 && ranked[1..][j] == d;
      RankedWeights(ranked, 1, j + 1);
    }
  }

  // ---------- what the clusters are good for ----------

  lemma {:induction false} StartsApart(tolerance: int, parts: seq<seq<Vote>>, i: nat, j: nat)
    requires Greedy(Flatten(parts), tolerance, parts) && tolerance >= 0 && i < j < |parts|
    ensures parts[i] != [] && parts[j] != [] && parts[j][0].value - parts[i][0].value > tolerance
  {
    assert Gap(parts[j - 1], parts[j], tolerance);
    if i < j - 1 {
      StartsApart(tolerance, parts, i, j - 1);
    }
  }

  lemma {:induction false} FlattenMembers(parts: seq<seq<Vote>>, k: nat, v: Vote)
    requires k < |parts| && v in parts[k]
    ensures v in Flatten(parts)
  {
    if k < |parts| - 1 {
      FlattenMembers(parts[..|parts| - 1], k, v);
    }
  }

  /** Intervals of the tolerance's width, given by their left ends, that cover every vote. */
  ghost predicate Covers(lefts: seq<int>, tolerance: int, votes: seq<Vote>) {
    forall v :: v in votes ==> exists i :: 0 <= i < |lefts| && lefts[i] <= v.value <= lefts[i] + tolerance
  }

  lemma {:induction false} Pigeonhole(f: seq<int>, m: nat)
    requires Distinct(f) && forall x :: x in f ==> 0 <= x < m
    ensures |f| <= m
  {
    DistinctCardinality(f);
    BoundedSet((set x | x in f), m);
  }

  lemma {:induction false} BoundedSet(s: set<int>, m: nat)
    requires forall x :: x in s ==> 0 <= x < m
    ensures |s| <= m
  {
    if m == 0 {
      assert forall x :: x !in s;
    } else {
      BoundedSet(s - {m - 1}, m - 1);
    }
  }

  /** No cover of the votes by intervals of the tolerance's width uses fewer intervals than
      there are clusters: the first votes of the clusters are pairwise too far apart. */
  lemma ClustersAreFewest(sorted: seq<Vote>, tolerance: int, parts: seq<seq<Vote>>, lefts: seq<int>)
    requires Greedy(sorted, tolerance, parts) && tolerance >= 0 && Covers(lefts, tolerance, sorted)
    ensures |parts| <= |lefts|
  {
    var f: seq<int> := [];
    for k := 0 to |parts|
      invariant |f| == k && Distinct(f)
      invariant forall j :: 0 <= j < k ==> InInterval(parts, j, lefts, f[j], tolerance)
    {
      var first := parts[k][0];
      FlattenMembers(parts, k, first);
      var i :| 0 <= i < |lefts| && lefts[i] <= first.value <= lefts[i] + tolerance;
      forall j | 0 <= j < k ensures f[j] != i {
        StartsApart(tolerance, parts, j, k);
        assert InInterval(parts, j, lefts, f[j], tolerance);
      }
      f := f + [i];
    }
    forall x | x in f ensures 0 <= x < |lefts| {
      var j :| 0 <= j < |f| && f[j] == x;
      assert InInterval(parts, j, lefts, f[j], tolerance);
    }
    Pigeonhole(f, |lefts|);
  }

  ghost predicate InInterval(parts: seq<seq<Vote>>, j: nat, lefts: seq<int>, i: int, tolerance: int)
    requires j < |parts|
  {
    parts[j] != [] && 0 <= i < |lefts| && lefts[i] <= parts[j][0].value <= lefts[i] + tolerance
  }

  /** And the clusters are such a cover. */
  lemma ClustersCover(sorted: seq<Vote>, tolerance: int, parts: seq<seq<Vote>>)
    requires Sorted(sorted, ByValue()) && Greedy(sorted, tolerance, parts) && tolerance >= 0
    ensures forall k, v :: 0 <= k < |parts| && v in parts[k] ==> parts[k][0].value <= v.value <= parts[k][0].value + tolerance
  {
    forall k, v | 0 <= k < |parts| && v in parts[k]
      ensures parts[k][0].value <= v.value <= parts[k][0].value + tolerance
    {
      assert IsGroup(parts[k], tolerance);
      assert v == parts[k][0] || v in parts[k][1..];
      FirstIsLeast(sorted, parts, k, v);
    }
  }

  lemma {:induction false} FirstIsLeast(sorted: seq<Vote>, parts: seq<seq<Vote>>, k: nat, v: Vote)
    requires Sorted(sorted, ByValue()) && Flatten(parts) == sorted && k < |parts| && v in parts[k]
    ensures parts[k][0].value <= v.value
    decreases |parts|
  {
    if k < |parts| - 1 {
      var front := parts[..|parts| - 1];
      SortedSplit(sorted, ByValue(), |Flatten(front)|);
      assert sorted[..|Flatten(front)|] == Flatten(front);
      FirstIsLeast(Flatten(front), front, k, v);
    } else {
      var n := |sorted| - |parts[k]|;
      assert sorted[n..] == parts[k];
      SortedSplit(sorted, ByValue(), n);
    }
  }

  // Total weight is conserved, modulo 2^64.

  lemma {:induction false} WeightConcat(a: seq<Vote>, b: seq<Vote>)
    ensures Weight(a + b) == WrapU64(Weight(a) + Weight(b))
  {
    if b == [] {
      assert a + b == a;
      WeightInRange(a);
    } else {
      assert a + b == (a + b[..|b| - 1]) + [b[|b| - 1]];
      assert (a + b)[..|a + b| - 1] == a + b[..|b| - 1];
      WeightConcat(a, b[..|b| - 1]);
      WrapTwice(Weight(a) + Weight(b[..|b| - 1]), b[|b| - 1].weight);
      WrapTwice(Weight(b[..|b| - 1]) + b[|b| - 1].weight, Weight(a));
    }
  }

  lemma {:induction false} WeightInRange(a: seq<Vote>)
    ensures 0 <= Weight(a) < TWO_64
  {
  }

  lemma WrapTwice(x: int, y: int)
    ensures WrapU64(WrapU64(x) + y) == WrapU64(x + y)
  {
  }

  function TotalWeight(clusters: seq<Cluster>): int {
    if clusters == [] then 0 else WrapU64(TotalWeight(clusters[..|clusters| - 1]) + clusters[|clusters| - 1].totalWeight)
  }

  /** Grouping loses no weight. */
  lemma {:induction false} WeightConserved(parts: seq<seq<Vote>>)
    ensures TotalWeight(Summaries(parts)) == Weight(Flatten(parts))
  {
    if parts != [] {
      var front := parts[..|parts| - 1];
      WeightConserved(front);
      assert Summaries(parts)[..|parts| - 1] == Summaries(front);
      WeightConcat(Flatten(front), parts[|parts| - 1]);
    }
  }

  // ---------- the result is corroborated when it can be ----------

  /** Two votes within the tolerance of each other leave some cluster with two votes. */
  lemma CloseVotesCluster(sorted: seq<Vote>, tolerance: int, parts: seq<seq<Vote>>, i: nat, j: nat)
    requires Sorted(sorted, ByValue()) && Greedy(sorted, tolerance, parts) && tolerance >= 0
    requires i < j < |sorted| && sorted[j].value - sorted[i].value <= tolerance
    ensures exists c :: c in Summaries(parts) && |c.values| >= 2
  {
    if forall k :: 0 <= k < |parts| ==> |parts[k]| == 1 {
      SingletonsAreSorted(parts);
      assert |parts| == |sorted|;
      StartsApart(tolerance, parts, i, j);
    } else {
      var k :| 0 <= k < |parts| && |parts[k]| != 1;
      assert IsGroup(parts[k], tolerance);
      assert Summaries(parts)[k] in Summaries(parts);
    }
  }

  lemma {:induction false} SingletonsAreSorted(parts: seq<seq<Vote>>)
    requires forall k :: 0 <= k < |parts| ==> |parts[k]| == 1
    ensures |Flatten(parts)| == |parts|
    ensures forall k :: 0 <= k < |parts| ==> Flatten(parts)[k] == parts[k][0]
  {
    if parts != [] {
      SingletonsAreSorted(parts[..|parts| - 1]);
    }
  }

  /** If any two votes lie within the tolerance, the result is the value of a vote in a heaviest
      cluster of at least two - whatever the coin says. */
  lemma ResultIsCorroborated(values: seq<Vote>, tolerance: int, flip: bool, result: int, a: nat, b: nat)
    requires IsConsensus(values, tolerance, flip, result) && tolerance >= 0
    requires a < |values| && b < |values| && a != b && values[a].value <= values[b].value <= values[a].value + tolerance
    ensures exists sorted, parts, c ::
              && SortedArrangement(values, sorted, ByValue()) && Greedy(sorted, tolerance, parts)
              && HeaviestCorroborated(Summaries(parts), c) && result in c.values
  {
    var sorted, parts :| Elected(values, tolerance, flip, sorted, parts, result);
    var i, j := CloseInSorted(values, sorted, a, b, tolerance);
    CloseVotesCluster(sorted, tolerance, parts, i, j);
    var c :| HeaviestCorroborated(Summaries(parts), c) && result == Middle(c);
  }

  lemma CloseInSorted(values: seq<Vote>, sorted: seq<Vote>, a: nat, b: nat, tolerance: int) returns (i: nat, j: nat)
    requires SortedArrangement(values, sorted, ByValue()) && tolerance >= 0
    requires a < |values| && b < |values| && a != b && values[a].value <= values[b].value <= values[a].value + tolerance
    ensures i < j < |sorted| && sorted[j].value - sorted[i].value <= tolerance
  {
    SameElements(values, sorted);
    if values[a] == values[b] {
      TwiceInBoth(values, sorted, a, b);
      i, j :| 0 <= i < j < |sorted| && sorted[i] == sorted[j];
    } else {
      assert values[a] in values && values[b] in values;
      var p :| 0 <= p < |sorted| && sorted[p] == values[a];
      var q :| 0 <= q < |sorted| && sorted[q] == values[b];
      if p < q {
        i, j := p, q;
      } else {
        i, j := q, p;
      }
    }
  }

  lemma TwiceInBoth(values: seq<Vote>, sorted: seq<Vote>, a: nat, b: nat)
    requires multiset(sorted) == multiset(values)
    requires a < |values| && b < |values| && a != b && values[a] == values[b]
    ensures exists i, j :: 0 <= i < j < |sorted| && sorted[i] == sorted[j]
  {
    if Distinct(sorted) {
      DistinctRearranged(sorted, values);
    }
  }

  lemma ChosenIsMiddle(clusters: seq<Cluster>, flip: bool, result: int)
    requires Chosen(clusters, flip, result)
    ensures exists c :: c in clusters && c.values != [] && result == Middle(c)
  {
  }

  /** The result is always the value of some vote. */
  lemma ResultIsAVote(values: seq<Vote>, tolerance: int, flip: bool, result: int)
    requires IsConsensus(values, tolerance, flip, result)
    ensures exists v :: v in values && v.value == result
  {
    var sorted, parts :| Elected(values, tolerance, flip, sorted, parts, result);
    SameElements(values, sorted);
    ChosenIsMiddle(Summaries(parts), flip, result);
    var c :| c in Summaries(parts) && c.values != [] && result == Middle(c);
    var k :| 0 <= k < |parts| && Summaries(parts)[k] == c;
    var v := parts[k][|c.values| / 2];
    FlattenMembers(parts, k, v);
  }
}
