/** Turning `userMap` into the ranked `UserStats[]`: the percentage, the
    descending stable sort and the `slice` projections used by the charts. */
module Ranking {

  /** `{sender, count, percentage}` of the dashboard. */
  datatype UserStat = UserStat(sender: string, count: nat, percentage: real)

  /** `total > 0 ? (count / total) * 100 : 0`, over exact reals. */
  function Percentage(count: nat, total: nat): (p: real)
    ensures total > 0 ==> p * (total as real) == (count as real) * 100.0
    ensures total == 0 ==> p == 0.0
    ensures count <= total ==> 0.0 <= p <= 100.0
  {
    if total > 0 then (count as real / total as real) * 100.0 else 0.0
  }

  /** `Array.from(userMap.entries()).map(...)`: one stat per key, in key order. */
  function Entries(order: seq<string>, counts: map<string, nat>, total: nat): (r: seq<UserStat>)
    requires forall s :: s in order ==> s in counts
    ensures |r| == |order|
    ensures forall i :: 0 <= i < |r| ==>
      r[i].sender == order[i] && r[i].count == counts[order[i]] &&
      r[i].percentage == Percentage(r[i].count, total)
  {
    if order == [] then []
    else
      var c := counts[order[0]];
      [UserStat(order[0], c, Percentage(c, total))] + Entries(order[1..], counts, total)
  }

  function SumCounts(t: seq<UserStat>): nat
  {
    if t == [] then 0 else t[0].count + SumCounts(t[1..])
  }

  function SumPercentages(t: seq<UserStat>): real
  {
    if t == [] then 0.0 else t[0].percentage + SumPercentages(t[1..])
  }

  lemma PercentageAdd(a: nat, b: nat, total: nat)
    ensures Percentage(a, total) + Percentage(b, total) == Percentage(a + b, total)
  {
    if total > 0 {
      var t := total as real;
      assert (a as real / t) + (b as real / t) == (a + b) as real / t;
    }
  }

  /** The whole is one hundred percent of itself. */
  lemma PercentageOfWhole(total: nat)
    requires total > 0
    ensures Percentage(total, total) == 100.0
  {
    assert total as real / total as real == 1.0;
  }

  /** Over exact reals the shares add up to the share of the summed counts. */
  lemma {:induction false} EntriesShares(order: seq<string>, counts: map<string, nat>, total: nat)
    requires forall s :: s in order ==> s in counts
    ensures SumPercentages(Entries(order, counts, total))
         == Percentage(SumCounts(Entries(order, counts, total)), total)
  {
    var r := Entries(order, counts, total);
    if order != [] {
      EntriesShares(order[1..], counts, total);
      assert r[1..] == Entries(order[1..], counts, total);
      PercentageAdd(r[0].count, SumCounts(r[1..]), total);
    }
  }

  // ---------------------------------------------------------------------------
  // `.sort((a, b) => b.count - a.count)`: a stable sort, descending by count.

  /** Places `x` in front of the first element whose count does not exceed its
      own, so that `x` precedes the equal counts that came after it in the input. */
  function InsertByCount(x: UserStat, t: seq<UserStat>): (r: seq<UserStat>)
    ensures |r| == |t| + 1
    ensures multiset(r) == multiset(t) + multiset{x}
  {
    if t == [] || t[0].count <= x.count then [x] + t
    else
      assert t == [t[0]] + t[1..];
      [t[0]] + InsertByCount(x, t[1..])
  }

  function SortByCount(s: seq<UserStat>): (r: seq<UserStat>)
    ensures |r| == |s|
    ensures multiset(r) == multiset(s)
  {
    if s == [] then []
    else
      assert s == [s[0]] + s[1..];
      InsertByCount(s[0], SortByCount(s[1..]))
  }

  predicate NonIncreasing(t: seq<UserStat>)
  {
    forall i, j :: 0 <= i < j < |t| ==> t[i].count >= t[j].count
  }

  /** The stats with count `c`, in order. */
  function WithCount(t: seq<UserStat>, c: nat): seq<UserStat>
  {
    if t == [] then [] else (if t[0].count == c then [t[0]] else []) + WithCount(t[1..], c)
  }

  predicate UniqueSenders(t: seq<UserStat>)
  {
    forall i, j :: 0 <= i < j < |t| ==> t[i].sender != t[j].sender
  }

  lemma {:induction false} InsertKeepsOrder(x: UserStat, t: seq<UserStat>)
    requires NonIncreasing(t)
    ensures NonIncreasing(InsertByCount(x, t))
  {
    if t != [] && t[0].count > x.count {
      InsertKeepsOrder(x, t[1..]);
      var r := InsertByCount(x, t);
      var r' := InsertByCount(x, t[1..]);
      assert r == [t[0]] + r';
      forall i, j | 0 <= i < j < |r| ensures r[i].count >= r[j].count {
        assert r[j] == r'[j - 1];
        if i == 0 {
          assert r'[j - 1] in multiset(t[1..]) + multiset{x};
        } else {
          assert r[i] == r'[i - 1];
        }
      }
    }
  }

  /** The ranked list is non-increasing by count. */
  lemma {:induction false} SortedByCount(s: seq<UserStat>)
    ensures NonIncreasing(SortByCount(s))
  {
    if s != [] {
      SortedByCount(s[1..]);
      InsertKeepsOrder(s[0], SortByCount(s[1..]));
    }
  }

  lemma {:induction false} InsertStable(x: UserStat, t: seq<UserStat>, c: nat)
    ensures WithCount(InsertByCount(x, t), c) == (if x.count == c then [x] else []) + WithCount(t, c)
  {
    if t == [] || t[0].count <= x.count {
      assert ([x] + t)[1..] == t;
    } else {
      InsertStable(x, t[1..], c);
      assert ([t[0]] + InsertByCount(x, t[1..]))[1..] == InsertByCount(x, t[1..]);
    }
  }

  /** Stability: among equal counts the ranked list keeps the input order. */
  lemma {:induction false} SortStable(s: seq<UserStat>, c: nat)
    ensures WithCount(SortByCount(s), c) == WithCount(s, c)
  {
    if s != [] {
      SortStable(s[1..], c);
      InsertStable(s[0], SortByCount(s[1..]), c);
    }
  }

  lemma {:induction false} InsertKeepsUniqueSenders(x: UserStat, t: seq<UserStat>)
    requires UniqueSenders(t)
    requires forall y :: y in t ==> y.sender != x.sender
    ensures UniqueSenders(InsertByCount(x, t))
  {
    if t != [] && t[0].count > x.count {
      InsertKeepsUniqueSenders(x, t[1..]);
      var r' := InsertByCount(x, t[1..]);
      assert InsertByCount(x, t) == [t[0]] + r';
      forall y | y in r' ensures y.sender != t[0].sender {
        assert y in multiset(r');
      }
    }
  }

  /** Sorting never makes two entries share a sender. */
  lemma {:induction false} SortKeepsUniqueSenders(s: seq<UserStat>)
    requires UniqueSenders(s)
    ensures UniqueSenders(SortByCount(s))
  {
    if s != [] {
      SortKeepsUniqueSenders(s[1..]);
      var t := SortByCount(s[1..]);
      forall y | y in t ensures y.sender != s[0].sender {
        assert y in multiset(s[1..]);
      }
      InsertKeepsUniqueSenders(s[0], t);
    }
  }

  lemma {:induction false} InsertSums(x: UserStat, t: seq<UserStat>)
    ensures SumCounts(InsertByCount(x, t)) == x.count + SumCounts(t)
    ensures SumPercentages(InsertByCount(x, t)) == x.percentage + SumPercentages(t)
  {
    if t == [] || t[0].count <= x.count {
      assert ([x] + t)[1..] == t;
    } else {
      InsertSums(x, t[1..]);
      assert ([t[0]] + InsertByCount(x, t[1..]))[1..] == InsertByCount(x, t[1..]);
    }
  }

  /** Sorting moves entries but keeps both totals. */
  lemma {:induction false} SortKeepsSums(s: seq<UserStat>)
    ensures SumCounts(SortByCount(s)) == SumCounts(s)
    ensures SumPercentages(SortByCount(s)) == SumPercentages(s)
  {
    if s != [] {
      SortKeepsSums(s[1..]);
      InsertSums(s[0], SortByCount(s[1..]));
    }
  }

  // ---------------------------------------------------------------------------
  // `userStats.slice(0, k)`.

  /** The first `min(k, |t|)` entries. */
  function Top(t: seq<UserStat>, k: nat): (r: seq<UserStat>)
    ensures |r| == if k < |t| then k else |t|
    ensures r <= t
  {
    if k < |t| then t[..k] else t
  }

  /** Bar chart data: `userStats.slice(0, 10)`. */
  function BarView(t: seq<UserStat>): (r: seq<UserStat>)
    ensures |r| == if 10 < |t| then 10 else |t|
    ensures r <= t
  {
    Top(t, 10)
  }

  /** Pie chart data: `userStats.slice(0, 8)`. */
  function PieView(t: seq<UserStat>): (r: seq<UserStat>)
    ensures |r| == if 8 < |t| then 8 else |t|
    ensures r <= BarView(t) <= t
  {
    Top(t, 8)
  }

  /** On a ranked list the top `k` dominate every entry left out, and the pie's
      eight entries are the first eight bars. */
  lemma TopDominates(t: seq<UserStat>, k: nat)
    requires NonIncreasing(t)
    ensures forall i, j :: 0 <= i < |Top(t, k)| <= j < |t| ==> Top(t, k)[i].count >= t[j].count
    ensures PieView(t) <= BarView(t)
  {
  }
}
