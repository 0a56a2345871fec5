/** The ordering of the organisation-wide insight list: a stable sort on
    the severity rank `high` 0, `medium` 1, `low` 2 and anything else 3. */
module SeverityOrder {
  import opened Insights

  /** `severity_order.get(severity, 3)`. */
  function Rank(severity: Severity): (r: nat)
    ensures r <= 3
    ensures r == 3 <==> severity.OtherSeverity?
  {
    match severity
    case High => 0
    case Medium => 1
    case Low => 2
    case OtherSeverity(_) => 3
  }

  /** Read from the text, the rank is the dictionary lookup with default 3. */
  lemma RankOfText(text: string)
    ensures Rank(SeverityOfText(text))
      == if text == "high" then 0 else if text == "medium" then 1 else if text == "low" then 2 else 3
  {
  }

  /** The insights of rank `k`, in list order. */
  function WithRank(s: seq<Insight>, k: nat): (r: seq<Insight>)
    ensures |r| <= |s|
  {
    if |s| == 0 then []
    else WithRank(s[..|s| - 1], k) + if Rank(s[|s| - 1].severity) == k then [s[|s| - 1]] else []
  }

  /** The list after `insights.sort(key=...)`: the stable sort puts the
      rank-0 insights first, then those of rank 1, 2 and 3, each group in its
      original order. */
  function SeveritySorted(s: seq<Insight>): (r: seq<Insight>)
    ensures |r| == |s|
  {
    GroupsPartition(s);
    assert |multiset(s)| == |WithRank(s, 0)| + |WithRank(s, 1)| + |WithRank(s, 2)| + |WithRank(s, 3)|;
    WithRank(s, 0) + WithRank(s, 1) + WithRank(s, 2) + WithRank(s, 3)
  }

  predicate SortedByRank(t: seq<Insight>) {
    forall i, j :: 0 <= i < j < |t| ==> Rank(t[i].severity) <= Rank(t[j].severity)
  }

  // ------------------------------------------------------ the rank groups

  /** A rank group holds exactly the insights of that rank. */
  lemma {:induction false} WithRankMembers(s: seq<Insight>, k: nat)
    ensures forall x :: x in WithRank(s, k) <==> x in s && Rank(x.severity) == k
  {
    if |s| > 0 {
      WithRankMembers(s[..|s| - 1], k);
      assert s == s[..|s| - 1] + [s[|s| - 1]];
    }
  }

  /** Grouping distributes over concatenation. */
  lemma {:induction false} WithRankAppend(a: seq<Insight>, b: seq<Insight>, k: nat)
    ensures WithRank(a + b, k) == WithRank(a, k) + WithRank(b, k)
  {
    if |b| > 0 {
      assert (a + b)[..|a + b| - 1] == a + b[..|b| - 1];
      WithRankAppend(a, b[..|b| - 1], k);
    } else {
      assert a + b == a;
    }
  }

  /** Appending one insight adds it to its own group only. */
  lemma WithRankSnoc(s: seq<Insight>, x: Insight, k: nat)
    ensures WithRank(s + [x], k) == WithRank(s, k) + if Rank(x.severity) == k then [x] else []
  {
    assert (s + [x])[..|s|] == s;
  }

  /** Grouping a group again keeps it whole under its own rank and empties
      it under any other. */
  lemma {:induction false} WithRankTwice(s: seq<Insight>, j: nat, k: nat)
    ensures WithRank(WithRank(s, j), k) == if j == k then WithRank(s, j) else []
  {
    if |s| > 0 {
      var init := s[..|s| - 1];
      var last := s[|s| - 1];
      WithRankTwice(init, j, k);
      var tail := if Rank(last.severity) == j then [last] else [];
      WithRankAppend(WithRank(init, j), tail, k);
      if tail != [] {
        WithRankSnoc([], last, k);
        assert [] + [last] == tail;
      }
    }
  }

  // ------------------------------------------------------ sorted by rank

  /** A rank group is sorted: all its insights share one rank. */
  lemma GroupSorted(s: seq<Insight>, k: nat)
    ensures SortedByRank(WithRank(s, k))
  {
    var g := WithRank(s, k);
    WithRankMembers(s, k);
    forall i, j | 0 <= i < j < |g|
      ensures Rank(g[i].severity) <= Rank(g[j].severity)
    {
      assert g[i] in g && g[j] in g;
    }
  }

  /** Two sorted lists, the first holding no rank above any rank of the
      second, concatenate to a sorted list. */
  lemma ConcatSorted(a: seq<Insight>, b: seq<Insight>, k: nat)
    requires SortedByRank(a) && SortedByRank(b)
    requires forall x :: x in a ==> Rank(x.severity) < k
    requires forall y :: y in b ==> Rank(y.severity) >= k
    ensures SortedByRank(a + b)
  {
    var t := a + b;
    forall i, j | 0 <= i < j < |t|
      ensures Rank(t[i].severity) <= Rank(t[j].severity)
    {
      if j < |a| {
        assert t[i] == a[i] && t[j] == a[j];
      } else if i < |a| {
        assert t[i] == a[i] && a[i] in a;
        assert t[j] == b[j - |a|] && b[j - |a|] in b;
      } else {
        assert t[i] == b[i - |a|] && t[j] == b[j - |a|];
      }
    }
  }

  /** The sorted list is non-decreasing in rank. */
  lemma SeveritySortedIsSorted(s: seq<Insight>)
    ensures SortedByRank(SeveritySorted(s))
  {
    var g0, g1, g2, g3 := WithRank(s, 0), WithRank(s, 1), WithRank(s, 2), WithRank(s, 3);
    GroupSorted(s, 0);
    GroupSorted(s, 1);
    GroupSorted(s, 2);
    GroupSorted(s, 3);
    WithRankMembers(s, 0);
    WithRankMembers(s, 1);
    WithRankMembers(s, 2);
    WithRankMembers(s, 3);
    ConcatSorted(g0, g1, 1);
    ConcatSorted(g0 + g1, g2, 2);
    ConcatSorted(g0 + g1 + g2, g3, 3);
  }

  // ------------------------------------------------------ a permutation

  /** Every insight falls in exactly one of the four rank groups. */
  lemma {:induction false} GroupsPartition(s: seq<Insight>)
    ensures multiset(s) == multiset(WithRank(s, 0)) + multiset(WithRank(s, 1))
      + multiset(WithRank(s, 2)) + multiset(WithRank(s, 3))
  {
    if |s| > 0 {
      var init := s[..|s| - 1];
      var x := s[|s| - 1];
      assert s == init + [x];
      GroupsPartition(init);
      WithRankSnoc(init, x, 0);
      WithRankSnoc(init, x, 1);
      WithRankSnoc(init, x, 2);
      WithRankSnoc(init, x, 3);
      var k := Rank(x.severity);
      assert multiset(WithRank(s, k)) == multiset(WithRank(init, k)) + multiset{x};
    } else {
      assert WithRank(s, 0) == [] && WithRank(s, 1) == [] && WithRank(s, 2) == [] && WithRank(s, 3) == [];
    }
  }

  /** Sorting neither loses nor invents an insight. */
  lemma SeveritySortedIsPermutation(s: seq<Insight>)
    ensures multiset(SeveritySorted(s)) == multiset(s)
  {
    GroupsPartition(s);
  }

  // ------------------------------------------------------ stable

  /** Insights of equal rank keep their original relative order: every rank
      group of the sorted list is the rank group of the input. */
  lemma SeveritySortedIsStable(s: seq<Insight>, k: nat)
    ensures WithRank(SeveritySorted(s), k) == WithRank(s, k)
  {
    var g0, g1, g2, g3 := WithRank(s, 0), WithRank(s, 1), WithRank(s, 2), WithRank(s, 3);
    assert WithRank(SeveritySorted(s), k) == WithRank(g0, k) + WithRank(g1, k) + WithRank(g2, k) + WithRank(g3, k) by {
      WithRankAppend(g0 + g1 + g2, g3, k);
      WithRankAppend(g0 + g1, g2, k);
      WithRankAppend(g0, g1, k);
    }
    WithRankTwice(s, 0, k);
    WithRankTwice(s, 1, k);
    WithRankTwice(s, 2, k);
    WithRankTwice(s, 3, k);
    if k > 3 {
      NoHigherRank(s, 3, k);
    }
    PickGroup(g0, g1, g2, g3, k, WithRank(s, k));
  }

  /** Concatenation bookkeeping for `SeveritySortedIsStable`: of four groups
      only group `k` survives. */
  lemma PickGroup(g0: seq<Insight>, g1: seq<Insight>, g2: seq<Insight>, g3: seq<Insight>, k: nat, gk: seq<Insight>)
    requires k == 0 ==> gk == g0
    requires k == 1 ==> gk == g1
    requires k == 2 ==> gk == g2
    requires k == 3 ==> gk == g3
    requires k > 3 ==> gk == []
    ensures (if k == 0 then g0 else []) + (if k == 1 then g1 else []) + (if k == 2 then g2 else [])
      + (if k == 3 then g3 else []) == gk
  {
    if k == 0 {
      assert g0 + [] + [] + [] == g0;
    } else if k == 1 {
      assert [] + g1 + [] + [] == g1;
    } else if k == 2 {
      assert [] + [] + g2 + [] == g2;
    } else if k == 3 {
      assert [] + [] + [] + g3 == g3;
    } else {
      assert [] + [] + [] + [] == gk;
    }
  }

  /** A sorted list whose rank groups are those of `s` is the sorted `s`:
      the stable sort is the only order with both properties. */
  lemma SortedByGroupsIsUnique(s: seq<Insight>, t: seq<Insight>)
    requires SortedByRank(t)
    requires forall k :: 0 <= k <= 3 ==> WithRank(t, k) == WithRank(s, k)
    ensures t == SeveritySorted(s)
  {
    SortedIsItsGroups(t);
  }

  /** A list sorted by rank already is its four rank groups in order. */
  lemma {:induction false} SortedIsItsGroups(t: seq<Insight>)
    requires SortedByRank(t)
    ensures t == SeveritySorted(t)
  {
    if |t| > 0 {
      var init := t[..|t| - 1];
      var x := t[|t| - 1];
      assert t == init + [x];
      assert SortedByRank(init);
      SortedIsItsGroups(init);
      var r := Rank(x.severity);
      forall i | 0 <= i < |init|
        ensures Rank(init[i].severity) <= r
      {
        assert init[i] == t[i];
      }
      forall j | r < j <= 3
        ensures WithRank(init, j) == []
      {
        NoHigherRank(init, r, j);
      }
      SortedSnocGroups(init, x);
    } else {
      assert SeveritySorted(t) == [];
    }
  }

  /** A list with no rank above `r` has an empty group for every rank
      above `r`. */
  lemma {:induction false} NoHigherRank(s: seq<Insight>, r: nat, j: nat)
    requires forall i :: 0 <= i < |s| ==> Rank(s[i].severity) <= r
    requires r < j
    ensures WithRank(s, j) == []
  {
    if |s| > 0 {
      var init := s[..|s| - 1];
      assert forall i :: 0 <= i < |init| ==> init[i] == s[i];
      NoHigherRank(init, r, j);
    }
  }

  /** Appending an insight whose rank is the largest so far puts it at the
      end of the sorted list. */
  lemma SortedSnocGroups(s: seq<Insight>, x: Insight)
    requires forall j :: Rank(x.severity) < j <= 3 ==> WithRank(s, j) == []
    ensures SeveritySorted(s + [x]) == SeveritySorted(s) + [x]
  {
    WithRankSnoc(s, x, 0);
    WithRankSnoc(s, x, 1);
    WithRankSnoc(s, x, 2);
    WithRankSnoc(s, x, 3);
    var g0, g1, g2, g3 := WithRank(s, 0), WithRank(s, 1), WithRank(s, 2), WithRank(s, 3);
    var r := Rank(x.severity);
    assert r < 1 ==> g1 == [];
    assert r < 2 ==> g2 == [];
    assert r < 3 ==> g3 == [];
    AppendToLastGroup(g0, g1, g2, g3, x, r);
  }

  /** Concatenation bookkeeping for `SortedSnocGroups`: adding `x` to group
      `r` when every later group is empty adds it at the very end. */
  lemma AppendToLastGroup(g0: seq<Insight>, g1: seq<Insight>, g2: seq<Insight>, g3: seq<Insight>, x: Insight, r: nat)
    requires r <= 3
    requires (r < 1 ==> g1 == []) && (r < 2 ==> g2 == []) && (r < 3 ==> g3 == [])
    ensures (g0 + if r == 0 then [x] else []) + (g1 + if r == 1 then [x] else [])
      + (g2 + if r == 2 then [x] else []) + (g3 + if r == 3 then [x] else [])
      == g0 + g1 + g2 + g3 + [x]
  {
    if r == 0 {
      assert g0 + g1 + g2 + g3 == g0;
    } else if r == 1 {
      assert g0 + g1 + g2 + g3 == g0 + g1;
    } else if r == 2 {
      assert g0 + g1 + g2 + g3 == g0 + g1 + g2;
    }
  }

  // ------------------------------------------------------ the sort

  /** One pass over the list collecting the insights of rank `k`, in order. */
  method CollectRank(s: seq<Insight>, k: nat, acc: seq<Insight>) returns (out: seq<Insight>)
    ensures out == acc + WithRank(s, k)
  {
    out := acc;
    for i := 0 to |s|
      invariant out == acc + WithRank(s[..i], k)
    {
      if Rank(s[i].severity) == k {
        out := out + [s[i]];
      }
      WithRankSnoc(s[..i], s[i], k);
      assert s[..i + 1] == s[..i] + [s[i]];
    }
    assert s[..|s|] == s;
  }

  /** The four passes, rank 0 to rank 3. */
  method CollectByRank(s: seq<Insight>) returns (out: seq<Insight>)
    ensures out == SeveritySorted(s)
  {
    out := CollectRank(s, 0, []);
    out := CollectRank(s, 1, out);
    out := CollectRank(s, 2, out);
    out := CollectRank(s, 3, out);
  }

  /** `insights.sort(key=lambda x: severity_order.get(x.get('severity', 'low'), 3))`
      every insight carries a severity, so the `'low'` default never applies;
      the rank passes, then the result written back over the array. */
  method SortBySeverity(a: array<Insight>)
    modifies a
    ensures a[..] == SeveritySorted(old(a[..]))
  {
    var s := a[..];
    var out := CollectByRank(s);
    for i := 0 to a.Length
      invariant a[..i] == out[..i]
    {
      a[i] := out[i];
    }
    assert a[..] == a[..a.Length];
  }
}
