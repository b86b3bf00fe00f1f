/** Sorting as the repository uses it: `sort.Slice` with a comparison callback.

    Every callback in the modelled code compares a few numbers of the two elements
    lexicographically, so a callback is given here by the rank it compares. The library
    sort is not stable: callers may rely only on getting *some* sorted arrangement of the
    same elements, and `SortedArrangement` says exactly that.
 */
module Sorting {

  datatype Rank = Rank(major: int, middle: int, minor: int)

  predicate Below(a: Rank, b: Rank) {
    || a.major < b.major
    || (a.major == b.major && a.middle < b.middle)
    || (a.major == b.major && a.middle == b.middle && a.minor < b.minor)
  }

  function ByNumber(n: int): Rank {
    Rank(0, 0, n)
  }

  ghost predicate Sorted<T>(s: seq<T>, rank: T -> Rank) {
    forall i, j :: 0 <= i < j < |s| ==> !Below(rank(s[j]), rank(s[i]))
  }

  ghost predicate SortedArrangement<T>(original: seq<T>, s: seq<T>, rank: T -> Rank) {
    multiset(s) == multiset(original) && Sorted(s, rank)
  }

  /** Some sorted arrangement of `s`. */
  method SortSlice<T>(s: seq<T>, rank: T -> Rank) returns (r: seq<T>)
    ensures SortedArrangement(s, r, rank)
  {
    r := [];
    for i := 0 to |s|
      invariant SortedArrangement(s[..i], r, rank)
    {
      r := InsertSorted(r, s[i], rank);
      assert s[..i + 1] == s[..i] + [s[i]];
    }
    assert s[..|s|] == s;
  }

  method InsertSorted<T>(s: seq<T>, x: T, rank: T -> Rank) returns (r: seq<T>)
    requires Sorted(s, rank)
    ensures multiset(r) == multiset(s) + multiset{x}
    ensures Sorted(r, rank)
  {
    var k := |s|;
    while k > 0 && Below(rank(x), rank(s[k - 1]))
      invariant 0 <= k <= |s|
      invariant k < |s| ==> Below(rank(x), rank(s[k]))
    {
      k := k - 1;
    }
    assert k > 0 ==> !Below(rank(x), rank(s[k - 1]));
    InsertKeepsSorted(s, k, x, rank);
    r := s[..k] + [x] + s[k..];
    assert multiset(r) == multiset(s[..k]) + multiset{x} + multiset(s[k..]);
    assert s == s[..k] + s[k..];
  }

  lemma InsertKeepsSorted<T>(s: seq<T>, k: nat, x: T, rank: T -> Rank)
    requires Sorted(s, rank) && k <= |s|
    requires k > 0 ==> !Below(rank(x), rank(s[k - 1]))
    requires k < |s| ==> Below(rank(x), rank(s[k]))
    ensures Sorted(s[..k] + [x] + s[k..], rank)
  {
    var r := s[..k] + [x] + s[k..];
    forall i, j | 0 <= i < j < |r| ensures !Below(rank(r[j]), rank(r[i])) {
      assert r[i] == if i < k then s[i] else if i == k then x else s[i - 1];
      assert r[j] == if j < k then s[j] else if j == k then x else s[j - 1];
    }
  }

  /** What stands first does not rank above what stands behind it. */
  lemma SortedSplit<T>(s: seq<T>, rank: T -> Rank, n: nat)
    requires Sorted(s, rank) && n <= |s|
    ensures forall a, b :: a in s[..n] && b in s[n..] ==> !Below(rank(b), rank(a))
    ensures n < |s| ==> s[n] in s[n..] && forall b :: b in s[n..] ==> !Below(rank(b), rank(s[n]))
    ensures Sorted(s[n..], rank) && Sorted(s[..n], rank)
  {
    forall a, b | a in s[..n] && b in s[n..] ensures !Below(rank(b), rank(a)) {
      var i :| 0 <= i < n && s[..n][i] == a;
      var j :| 0 <= j < |s| - n && s[n..][j] == b;
      assert s[i] == a && s[n + j] == b;
    }
    if n < |s| {
      assert s[n..][0] == s[n];
      forall b | b in s[n..] ensures !Below(rank(b), rank(s[n])) {
        var j :| 0 <= j < |s| - n && s[n..][j] == b;
        assert s[n + j] == b;
        IrreflexiveBelow(rank(b));
      }
    }
  }

  lemma IrreflexiveBelow(a: Rank)
    ensures !Below(a, a)
  {
  }

  lemma SameElements<T>(s: seq<T>, t: seq<T>)
    requires multiset(s) == multiset(t)
    ensures |s| == |t|
    ensures forall x :: x in s <==> x in t
  {
    assert |multiset(s)| == |s| && |multiset(t)| == |t|;
    forall x ensures x in s <==> x in t {
      assert x in s <==> x in multiset(s);
      assert x in t <==> x in multiset(t);
    }
  }

  /** Elements of a sequence that occur once each: rearranging keeps that. */
  ghost predicate Distinct<T>(s: seq<T>) {
    forall i, j :: 0 <= i < j < |s| ==> s[i] != s[j]
  }

  lemma {:induction false} DistinctMeansOnce<T>(s: seq<T>)
    ensures Distinct(s) <==> forall x :: x in multiset(s) ==> multiset(s)[x] == 1
  {
    if s != [] {
      var n := |s| - 1;
      var front, last := s[..n], s[n];
      assert s == front + [last];
      DistinctMeansOnce(front);
      if Distinct(s) {
        assert Distinct(front) by {
          forall i, j | 0 <= i < j < |front| ensures front[i] != front[j] {
            assert s[i] != s[j];
          }
        }
        forall i | 0 <= i < |front| ensures front[i] != last {
          assert s[i] != s[n];
        }
      }
      if forall x :: x in multiset(s) ==> multiset(s)[x] == 1 {
        assert multiset(s) == multiset(front) + multiset{last};
        assert last !in multiset(front) by {
          assert multiset(s)[last] == 1;
        }
        forall x | x in multiset(front) ensures multiset(front)[x] == 1 {
          assert x != last && x in multiset(s);
        }
        forall i, j | 0 <= i < j < |s| ensures s[i] != s[j] {
          if j == n {
            assert front[i] in multiset(front);
          } else {
            assert front[i] != front[j];
          }
        }
      }
    }
  }

  lemma DistinctRearranged<T>(s: seq<T>, t: seq<T>)
    requires multiset(s) == multiset(t)
    requires Distinct(s)
    ensures Distinct(t)
  {
    DistinctMeansOnce(s);
    DistinctMeansOnce(t);
  }

  lemma {:induction false} DistinctCardinality<T>(s: seq<T>)
    requires Distinct(s)
    ensures |set x | x in s| == |s|
  {
    if s != [] {
      var front := s[..|s| - 1];
      DistinctCardinality(front);
      assert s == front + [s[|s| - 1]];
      assert (set x | x in s) == (set x | x in front) + {s[|s| - 1]};
    }
  }

  ghost predicate Ascending(s: seq<int>) {
    forall i, j :: 0 <= i < j < |s| ==> s[i] <= s[j]
  }

  lemma SameFront<T>(a: seq<T>, b: seq<T>, last: T)
    requires multiset(a + [last]) == multiset(b + [last])
    ensures multiset(a) == multiset(b)
  {
    assert multiset(a) == multiset(a + [last]) - multiset{last};
    assert multiset(b) == multiset(b + [last]) - multiset{last};
  }

  // ---------- sizes ----------

  lemma SubsetSize<T>(a: set<T>, b: set<T>)
    requires a <= b
    ensures |a| <= |b| && (|a| == |b| <==> a == b)
  {
    assert b == a + (b - a);
    assert |b| == |a| + |b - a|;
  }

  lemma SubMultisetSize<T>(a: multiset<T>, b: multiset<T>)
    requires a <= b
    ensures |a| <= |b| && (|a| == |b| <==> a == b)
  {
    assert b == a + (b - a);
    assert |b| == |a| + |b - a|;
  }
}
