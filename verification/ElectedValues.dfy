/** Which value consensus by uptime elects, told on the groups of votes: the upper median of one of
    them, and which one that may be. */
module ElectedValues {
  import opened Sorting
  import opened Clustering

  function FewerThan(group: seq<Vote>, value: int): nat {
    if group == [] then 0 else FewerThan(group[..|group| - 1], value) + if group[|group| - 1].value < value then 1 else 0
  }

  function MoreThan(group: seq<Vote>, value: int): nat {
    if group == [] then 0 else MoreThan(group[..|group| - 1], value) + if group[|group| - 1].value > value then 1 else 0
  }

  /** `value` is some vote's, at most half of the votes are below it, and fewer than half above. */
  predicate UpperMedian(group: seq<Vote>, value: int) {
    && (exists v :: v in group && v.value == value)
    && 2 * FewerThan(group, value) <= |group| && 2 * MoreThan(group, value) < |group|
  }

  /** The weight of all votes together, before it wraps around. */
  function FullWeight(group: seq<Vote>): int {
    if group == [] then 0 else FullWeight(group[..|group| - 1]) + group[|group| - 1].weight
  }

  lemma {:induction false} WeightWraps(group: seq<Vote>)
    ensures Weight(group) == FullWeight(group) % 0x1_0000_0000_0000_0000
  {
    if group != [] {
      WeightWraps(group[..|group| - 1]);
      WrapTwice(FullWeight(group[..|group| - 1]), group[|group| - 1].weight);
    }
  }

  // ---------- the middle of a sorted group ----------

  lemma {:induction false} FewBelow(group: seq<Vote>, m: nat, value: int)
    requires m <= |group| && forall i :: m <= i < |group| ==> group[i].value >= value
    ensures FewerThan(group, value) <= m
  {
    if |group| > 0 {
      FewBelow(group[..|group| - 1], if m == |group| then m - 1 else m, value);
    }
  }

  lemma {:induction false} FewAbove(group: seq<Vote>, m: nat, value: int)
    requires m <= |group| && forall i :: 0 <= i < m ==> group[i].value <= value
    ensures MoreThan(group, value) <= |group| - m
  {
    if |group| > 0 {
      FewAbove(group[..|group| - 1], if m == |group| then m - 1 else m, value);
    }
  }

  ghost predicate AscendingVotes(group: seq<Vote>) {
    forall i, j :: 0 <= i <= j < |group| ==> group[i].value <= group[j].value
  }

  lemma MiddleIsUpperMedian(group: seq<Vote>)
    requires group != [] && AscendingVotes(group)
    ensures UpperMedian(group, Middle(Summary(group)))
  {
    var m := |group| / 2;
    var v := group[m];
    assert Middle(Summary(group)) == v.value && v in group;
    FewBelow(group, m, v.value);
    FewAbove(group, m + 1, v.value);
  }

  lemma SliceAscends(sorted: seq<Vote>, from: nat, until: nat)
    requires Sorted(sorted, ByValue()) && from <= until <= |sorted|
    ensures AscendingVotes(sorted[from..until])
  {
    forall i, j | 0 <= i <= j < until - from ensures sorted[from..until][i].value <= sorted[from..until][j].value {
      if i < j {
        assert !Below(ByValue()(sorted[from + j]), ByValue()(sorted[from + i]));
      }
    }
  }

  lemma {:induction false} GroupAscends(sorted: seq<Vote>, parts: seq<seq<Vote>>, k: nat)
    requires Sorted(sorted, ByValue()) && Flatten(parts) == sorted && k < |parts|
    ensures AscendingVotes(parts[k])
    decreases |parts|
  {
    var front := parts[..|parts| - 1];
    var n := |Flatten(front)|;
    if k < |parts| - 1 {
      assert sorted[..n] == Flatten(front);
      SortedSplit(sorted, ByValue(), n);
      GroupAscends(Flatten(front), front, k);
    } else {
      assert sorted[n..|sorted|] == parts[k];
      SliceAscends(sorted, n, |sorted|);
    }
  }

  // ---------- which group it may be ----------

  /** Some group has two votes, and `parts[k]` is a heaviest of those. */
  ghost predicate Corroborated(parts: seq<seq<Vote>>, k: nat) {
    && k < |parts| && |parts[k]| >= 2
    && forall j :: 0 <= j < |parts| && |parts[j]| >= 2 ==> Weight(parts[j]) <= Weight(parts[k])
  }

  ghost predicate HeaviestGroup(parts: seq<seq<Vote>>, k: nat) {
    k < |parts| && forall j :: 0 <= j < |parts| ==> Weight(parts[j]) <= Weight(parts[k])
  }

  /** `parts[k]` is a second-heaviest group, after `parts[h]`, and weighs 80 percent of it or more. */
  ghost predicate CloseBehind(parts: seq<seq<Vote>>, h: nat, k: nat) {
    && HeaviestGroup(parts, h) && k < |parts| && k != h
    && (forall j :: 0 <= j < |parts| && j != h ==> Weight(parts[j]) <= Weight(parts[k]))
    && Weight(parts[k]) >= Weight(parts[h]) * 80 % 0x1_0000_0000_0000_0000 / 100
  }

  ghost predicate MayWin(parts: seq<seq<Vote>>, allowCoinFlip: bool, k: nat) {
    if exists j :: 0 <= j < |parts| && |parts[j]| >= 2 then Corroborated(parts, k)
    else HeaviestGroup(parts, k) || (allowCoinFlip && exists h :: CloseBehind(parts, h, k))
  }

  lemma SummaryAt(parts: seq<seq<Vote>>, c: Cluster) returns (k: nat)
    requires c in Summaries(parts)
    ensures k < |parts| && Summaries(parts)[k] == c == Summary(parts[k])
  {
    k :| 0 <= k < |parts| && Summaries(parts)[k] == c;
  }

  lemma SummaryWeights(parts: seq<seq<Vote>>)
    ensures forall j :: 0 <= j < |parts| ==>
              && Summary(parts[j]) in Summaries(parts) && Summary(parts[j]).totalWeight == Weight(parts[j])
              && |Summary(parts[j]).values| == |parts[j]|
  {
    forall j | 0 <= j < |parts| ensures Summary(parts[j]) in Summaries(parts) {
      assert Summaries(parts)[j] == Summary(parts[j]);
    }
  }

  lemma WithoutOne<T>(s: seq<T>, h: nat)
    requires h < |s|
    ensures forall d :: d in multiset(s) - multiset{s[h]} <==> d in s[..h] + s[h + 1..]
  {
    var rest := s[..h] + s[h + 1..];
    assert s == s[..h] + [s[h]] + s[h + 1..];
    assert multiset(s) - multiset{s[h]} == multiset(rest);
    forall d ensures d in multiset(rest) <==> d in rest {
    }
  }

  lemma AnotherIndex<T>(s: seq<T>, h: nat, d: T) returns (k: nat)
    requires h < |s| && d in s[..h] + s[h + 1..]
    ensures k < |s| && k != h && s[k] == d
  {
    var rest := s[..h] + s[h + 1..];
    var i :| 0 <= i < |rest| && rest[i] == d;
    k := if i < h then i else i + 1;
  }

  lemma StaysInRest<T>(s: seq<T>, h: nat, j: nat)
    requires h < |s| && j < |s| && j != h
    ensures s[j] in s[..h] + s[h + 1..]
  {
    assert (s[..h] + s[h + 1..])[if j < h then j else j - 1] == s[j];
  }

  lemma SecondIsCloseBehind(parts: seq<seq<Vote>>, c: Cluster, d: Cluster) returns (h: nat, k: nat)
    requires CloseSecond(Summaries(parts), c, d)
    ensures CloseBehind(parts, h, k) && Summary(parts[k]) == d
  {
    var s := Summaries(parts);
    SummaryWeights(parts);
    h := SummaryAt(parts, c);
    WithoutOne(s, h);
    k := AnotherIndex(s, h, d);
    forall j | 0 <= j < |parts| && j != h ensures Weight(parts[j]) <= Weight(parts[k]) {
      StaysInRest(s, h, j);
      assert s[j] in multiset(s) - multiset{s[h]};
    }
    forall j | 0 <= j < |parts| ensures Weight(parts[j]) <= Weight(parts[h]) {
      assert s[j] in s;
    }
  }

  lemma ChosenGroup(parts: seq<seq<Vote>>, allowCoinFlip: bool, result: int) returns (k: nat)
    requires Chosen(Summaries(parts), allowCoinFlip, result) && forall p :: p in parts ==> p != []
    ensures k < |parts| && parts[k] != [] && MayWin(parts, allowCoinFlip, k) && result == Middle(Summary(parts[k]))
  {
    var s := Summaries(parts);
    SummaryWeights(parts);
    if exists j :: 0 <= j < |parts| && |parts[j]| >= 2 {
      var c :| HeaviestCorroborated(s, c) && result == Middle(c);
      k := SummaryAt(parts, c);
      assert Corroborated(parts, k);
    } else {
      assert !exists c :: c in s && |c.values| >= 2;
      if c :| Heaviest(multiset(s), c) && c.values != [] && result == Middle(c) {
        k := SummaryAt(parts, c);
        assert forall j :: 0 <= j < |parts| ==> s[j] in multiset(s);
        assert HeaviestGroup(parts, k);
      } else {
        var c, d :| CloseSecond(s, c, d) && d.values != [] && result == Middle(d);
        var h;
        h, k := SecondIsCloseBehind(parts, c, d);
      }
    }
  }

  /** The votes, in order of value, fall into groups: each within the tolerance of its first vote, each
      first vote beyond the tolerance of the one before. The result is the upper median of a group
      that may win. */
  lemma ResultIsUpperMedian(values: seq<Vote>, tolerance: int, allowCoinFlip: bool, result: int)
      returns (sorted: seq<Vote>, parts: seq<seq<Vote>>, k: nat)
    requires IsConsensus(values, tolerance, allowCoinFlip, result)
    ensures multiset(sorted) == multiset(values) && AscendingVotes(sorted) && Greedy(sorted, tolerance, parts)
    ensures k < |parts| && MayWin(parts, allowCoinFlip, k) && UpperMedian(parts[k], result)
  {
    sorted, parts :| Elected(values, tolerance, allowCoinFlip, sorted, parts, result);
    forall p | p in parts ensures p != [] {
      var i :| 0 <= i < |parts| && parts[i] == p;
      assert IsGroup(parts[i], tolerance);
    }
    k := ChosenGroup(parts, allowCoinFlip, result);
    SliceAscends(sorted, 0, |sorted|);
    assert sorted[0..|sorted|] == sorted;
    GroupAscends(sorted, parts, k);
    assert parts[k] in parts;
    MiddleIsUpperMedian(parts[k]);
  }
}
