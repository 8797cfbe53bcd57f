/** The leaderboard page: `calculateStats`, the derived figures of the summary
    card, and the page state that decides when the stats are recomputed. */
module Dashboard {

  import opened Logs
  import opened TimeWindow
  import opened SenderTally
  import opened Ranking

  /** The logs that `calculateStats` counts at instant `now`. */
  function Counted(logs: seq<Log>, range: string, now: int): seq<Log>
  {
    InWindow(logs, Cutoff(range, now))
  }

  /** One stat per sender of the counted logs, in `userMap` order, before sorting. */
  function Unsorted(f: seq<Log>): (r: seq<UserStat>)
    ensures |r| == |Senders(f)|
  {
    Entries(Senders(f), CountMap(f), |f|)
  }

  /** `calculateStats` as a value: filter, group, share, sort. */
  function RankedStats(logs: seq<Log>, range: string, now: int): (r: seq<UserStat>)
    ensures |r| == |Senders(Counted(logs, range, now))|
    ensures NonIncreasing(r)
  {
    var u := Unsorted(Counted(logs, range, now));
    SortedByCount(u);
    SortByCount(u)
  }

  /** `calculateStats`: builds `userMap` in place, then maps and sorts its entries. */
  method CalculateStats(logs: seq<Log>, range: string, now: int) returns (stats: seq<UserStat>)
    ensures stats == RankedStats(logs, range, now)
  {
    var startDate := Cutoff(range, now);
    var filteredLogs := InWindow(logs, startDate);
    var order, userMap := BuildUserMap(filteredLogs);
    var total := |filteredLogs|;
    stats := SortByCount(Entries(order, userMap, total));
  }

  // ---------------------------------------------------------------------------
  // What the ranked list says about the counted logs.

  /** A sender is ranked iff some counted log is filed under it; each ranked
      entry carries that sender's exact count (at least one) and its share. */
  lemma RankedEntries(logs: seq<Log>, range: string, now: int, s: string)
    ensures var stats := RankedStats(logs, range, now);
            (exists i :: 0 <= i < |stats| && stats[i].sender == s) <==>
            (exists l :: l in logs && l.createdAt >= Cutoff(range, now) && SenderKey(l) == s)
    ensures var stats := RankedStats(logs, range, now);
            var f := Counted(logs, range, now);
            forall i :: 0 <= i < |stats| && stats[i].sender == s ==>
              stats[i].count == Occurrences(f, s) >= 1 &&
              stats[i].percentage == Percentage(stats[i].count, |f|)
  {
    var f := Counted(logs, range, now);
    var u := Unsorted(f);
    UnsortedEntries(f, s);
    SendersExactly(f, s);
    PermutedEntries(u, SortByCount(u), f, s);
  }

  /** The facts of `UnsortedEntries` carry over to any permutation. */
  lemma PermutedEntries(u: seq<UserStat>, t: seq<UserStat>, f: seq<Log>, s: string)
    requires multiset(u) == multiset(t)
    requires (exists i :: 0 <= i < |u| && u[i].sender == s) <==> s in Senders(f)
    requires forall i :: 0 <= i < |u| && u[i].sender == s ==>
               u[i].count == Occurrences(f, s) >= 1 &&
               u[i].percentage == Percentage(u[i].count, |f|)
    ensures (exists i :: 0 <= i < |t| && t[i].sender == s) <==> s in Senders(f)
    ensures forall i :: 0 <= i < |t| && t[i].sender == s ==>
              t[i].count == Occurrences(f, s) >= 1 &&
              t[i].percentage == Percentage(t[i].count, |f|)
  {
    SameElements(u, t);
    if exists i :: 0 <= i < |t| && t[i].sender == s {
      var i :| 0 <= i < |t| && t[i].sender == s;
      assert t[i] in u;
    }
    if exists j :: 0 <= j < |u| && u[j].sender == s {
      var j :| 0 <= j < |u| && u[j].sender == s;
      assert u[j] in t;
    }
    forall i | 0 <= i < |t| && t[i].sender == s
      ensures t[i].count == Occurrences(f, s) >= 1
      ensures t[i].percentage == Percentage(t[i].count, |f|)
    {
      assert t[i] in u;
    }
  }

  /** Before sorting: a sender has an entry iff it is a key, and the entry
      carries its exact count and share. */
  lemma UnsortedEntries(f: seq<Log>, s: string)
    ensures var u := Unsorted(f);
            (exists i :: 0 <= i < |u| && u[i].sender == s) <==> s in Senders(f)
    ensures var u := Unsorted(f);
            forall i :: 0 <= i < |u| && u[i].sender == s ==>
              u[i].count == Occurrences(f, s) >= 1 &&
              u[i].percentage == Percentage(u[i].count, |f|)
  {
    var u := Unsorted(f);
    SendersExactly(f, s);
    if s in Senders(f) {
      var j :| 0 <= j < |Senders(f)| && Senders(f)[j] == s;
      assert u[j].sender == s;
    }
  }

  /** Two lists that are permutations of each other hold the same stats. */
  lemma SameElements(u: seq<UserStat>, t: seq<UserStat>)
    requires multiset(u) == multiset(t)
    ensures forall x :: x in u <==> x in t
  {
    forall x ensures x in u <==> x in t {
      assert x in u <==> x in multiset(u);
      assert x in t <==> x in multiset(t);
    }
  }

  /** Each sender appears at most once in the ranked list. */
  lemma RankedUnique(logs: seq<Log>, range: string, now: int)
    ensures UniqueSenders(RankedStats(logs, range, now))
  {
    var f := Counted(logs, range, now);
    SendersDistinct(f);
    SortKeepsUniqueSenders(Unsorted(f));
  }

  lemma {:induction false} EntriesSumOver(ks: seq<string>, f: seq<Log>)
    requires forall s :: s in ks ==> s in Senders(f)
    ensures SumCounts(Entries(ks, CountMap(f), |f|)) == SumOver(ks, f)
  {
    if ks != [] {
      EntriesSumOver(ks[1..], f);
      assert Entries(ks, CountMap(f), |f|)[1..] == Entries(ks[1..], CountMap(f), |f|);
    }
  }

  /** Count conservation: the ranked counts add up to the number of counted logs. */
  lemma RankedConserves(logs: seq<Log>, range: string, now: int)
    ensures SumCounts(RankedStats(logs, range, now)) == |Counted(logs, range, now)|
  {
    var f := Counted(logs, range, now);
    SortKeepsSums(Unsorted(f));
    EntriesSumOver(Senders(f), f);
    TallyConserves(f);
  }

  lemma UnsortedShares(f: seq<Log>)
    requires f != []
    ensures Unsorted(f) != []
    ensures SumPercentages(Unsorted(f)) == 100.0
  {
    var u := Unsorted(f);
    SendersExactly(f, SenderKey(f[0]));
    EntriesSumOver(Senders(f), f);
    TallyConserves(f);
    EntriesShares(Senders(f), CountMap(f), |f|);
    assert SumCounts(u) == |f|;
    PercentageOfWhole(|f|);
  }

  /** The shares of a non-empty ranking add up to exactly 100; an empty window
      gives an empty ranking. */
  lemma RankedShares(logs: seq<Log>, range: string, now: int)
    ensures var stats := RankedStats(logs, range, now);
            stats != [] ==> SumPercentages(stats) == 100.0
    ensures Counted(logs, range, now) == [] <==> RankedStats(logs, range, now) == []
  {
    var f := Counted(logs, range, now);
    if f != [] {
      UnsortedShares(f);
      SortKeepsSums(Unsorted(f));
    }
  }

  /** The ranking is non-increasing by count, and senders with equal counts
      keep the order in which they first appear among the counted logs. */
  lemma RankedOrder(logs: seq<Log>, range: string, now: int, c: nat)
    ensures NonIncreasing(RankedStats(logs, range, now))
    ensures var f := Counted(logs, range, now);
            WithCount(RankedStats(logs, range, now), c) == WithCount(Unsorted(f), c)
  {
    var f := Counted(logs, range, now);
    SortedByCount(Unsorted(f));
    SortStable(Unsorted(f), c);
  }

  /** A log is counted under its sender iff it is no older than the cutoff. */
  lemma CountedIff(logs: seq<Log>, l: Log, range: string, now: int)
    ensures Occurrences(Counted(logs + [l], range, now), SenderKey(l))
         == Occurrences(Counted(logs, range, now), SenderKey(l)) + (if l.createdAt >= Cutoff(range, now) then 1 else 0)
  {
    var c := Cutoff(range, now);
    InWindowAppend(logs, [l], c);
    InWindowBoundary(l, c);
    OccurrencesSnoc(InWindow(logs, c), l, SenderKey(l));
    assert InWindow(logs, c) + [] == InWindow(logs, c);
  }

  /**
   * A log older than the cutoff changes nothing in the ranking, wherever it
   * sits in the snapshot (in an ascending snapshot, stale logs come first).
   */
  lemma StaleLogIgnored(a: seq<Log>, l: Log, b: seq<Log>, range: string, now: int)
    requires l.createdAt < Cutoff(range, now)
    ensures RankedStats(a + [l] + b, range, now) == RankedStats(a + b, range, now)
  {
    var c := Cutoff(range, now);
    InWindowAppend(a + [l], b, c);
    InWindowAppend(a, [l], c);
    InWindowAppend(a, b, c);
    InWindowBoundary(l, c);
    assert InWindow(a, c) + [] == InWindow(a, c);
  }

  /** Widening the window never lowers a sender's count. */
  lemma {:induction false} WiderWindowCountsMore(logs: seq<Log>, narrow: int, wide: int, s: string)
    requires wide <= narrow
    ensures Occurrences(InWindow(logs, narrow), s) <= Occurrences(InWindow(logs, wide), s)
  {
    if logs != [] {
      var p := logs[..|logs| - 1];
      var last := logs[|logs| - 1];
      WiderWindowCountsMore(p, narrow, wide, s);
      var pn, pw := InWindow(p, narrow), InWindow(p, wide);
      var one := if SenderKey(last) == s then 1 else 0;
      OccurrencesSnoc(pn, last, s);
      OccurrencesSnoc(pw, last, s);
      assert InWindow(logs, narrow) == pn + (if last.createdAt >= narrow then [last] else []);
      assert InWindow(logs, wide) == pw + (if last.createdAt >= wide then [last] else []);
      if last.createdAt >= narrow {
        assert Occurrences(InWindow(logs, narrow), s) == Occurrences(pn, s) + one;
        assert Occurrences(InWindow(logs, wide), s) == Occurrences(pw, s) + one;
      } else if last.createdAt >= wide {
        assert InWindow(logs, narrow) == pn;
        assert Occurrences(InWindow(logs, wide), s) == Occurrences(pw, s) + one;
      } else {
        assert InWindow(logs, narrow) == pn;
        assert InWindow(logs, wide) == pw;
      }
    }
  }

  function ExampleLog(id: int, who: string, at: int): Log
  {
    Log(id, Some(who), None, None, at)
  }

  lemma ExampleWindow(l1: Log, l2: Log, l3: Log, l4: Log, c: int)
    requires l1.createdAt < c <= l2.createdAt && c <= l3.createdAt && c <= l4.createdAt
    ensures InWindow([l1, l2, l3, l4], c) == [l2, l3, l4]
  {
    var logs := [l1, l2, l3, l4];
    assert logs[..3][..2][..1] == [l1] && [l1][..0] == [];
    assert logs[..3][..2] == [l1, l2] && logs[..3] == [l1, l2, l3];
    assert InWindow([l1], c) == [];
    assert InWindow([l1, l2], c) == [l2];
    assert InWindow([l1, l2, l3], c) == [l2, l3];
  }

  lemma ExampleSenders(l2: Log, l3: Log, l4: Log)
    requires SenderKey(l2) == "Y" && SenderKey(l3) == "X" && SenderKey(l4) == "X"
    ensures Senders([l2, l3, l4]) == ["Y", "X"]
  {
    SendersSnoc([], l2);
    assert [] + [l2] == [l2];
    assert Senders([l2]) == ["Y"];
    SendersSnoc([l2], l3);
    assert [l2] + [l3] == [l2, l3];
    assert "X" !in ["Y"];
    assert Senders([l2, l3]) == ["Y", "X"];
    SendersSnoc([l2, l3], l4);
    assert [l2, l3] + [l4] == [l2, l3, l4];
  }

  lemma ExampleCounts(l2: Log, l3: Log, l4: Log)
    requires SenderKey(l2) == "Y" && SenderKey(l3) == "X" && SenderKey(l4) == "X"
    ensures Occurrences([l2, l3, l4], "X") == 2 && Occurrences([l2, l3, l4], "Y") == 1
  {
    assert [] + [l2] == [l2] && [l2] + [l3] == [l2, l3] && [l2, l3] + [l4] == [l2, l3, l4];
    OccurrencesSnoc([], l2, "X");
    OccurrencesSnoc([], l2, "Y");
    assert Occurrences([l2], "X") == 0 && Occurrences([l2], "Y") == 1;
    OccurrencesSnoc([l2], l3, "X");
    OccurrencesSnoc([l2], l3, "Y");
    assert Occurrences([l2, l3], "X") == 1 && Occurrences([l2, l3], "Y") == 1;
    OccurrencesSnoc([l2, l3], l4, "X");
    OccurrencesSnoc([l2, l3], l4, "Y");
  }

  lemma ExampleTally(l2: Log, l3: Log, l4: Log)
    requires SenderKey(l2) == "Y" && SenderKey(l3) == "X" && SenderKey(l4) == "X"
    ensures Unsorted([l2, l3, l4]) == [UserStat("Y", 1, 100.0 / 3.0), UserStat("X", 2, 200.0 / 3.0)]
  {
    var f := [l2, l3, l4];
    ExampleSenders(l2, l3, l4);
    ExampleCounts(l2, l3, l4);
    var u := Unsorted(f);
    assert |u| == 2;
    assert CountMap(f)["Y"] == 1 && CountMap(f)["X"] == 2;
    assert Percentage(1, 3) == 100.0 / 3.0 && Percentage(2, 3) == 200.0 / 3.0;
    assert u[0] == UserStat("Y", 1, 100.0 / 3.0);
    assert u[1] == UserStat("X", 2, 200.0 / 3.0);
  }

  lemma ExampleSort(sy: UserStat, sx: UserStat)
    requires sy.count < sx.count
    ensures SortByCount([sy, sx]) == [sx, sy]
  {
    assert [sy, sx][1..] == [sx] && [sx][1..] == [];
    assert SortByCount([sx]) == [sx];
    assert InsertByCount(sy, [sx]) == [sx, sy];
  }

  /** Over a day: X wrote 25h, 2h and 1h ago, Y 3h ago (ascending by time).
      The 25h-old message falls outside the window, so X ranks first with two
      of three messages, then Y with one. */
  lemma DayExample(now: int)
    ensures RankedStats([ExampleLog(1, "X", now - 25 * HourMs), ExampleLog(2, "Y", now - 3 * HourMs),
                         ExampleLog(3, "X", now - 2 * HourMs), ExampleLog(4, "X", now - HourMs)], "day", now)
         == [UserStat("X", 2, 200.0 / 3.0), UserStat("Y", 1, 100.0 / 3.0)]
  {
    var l1, l2 := ExampleLog(1, "X", now - 25 * HourMs), ExampleLog(2, "Y", now - 3 * HourMs);
    var l3, l4 := ExampleLog(3, "X", now - 2 * HourMs), ExampleLog(4, "X", now - HourMs);
    assert Cutoff("day", now) == now - 24 * HourMs;
    ExampleWindow(l1, l2, l3, l4, Cutoff("day", now));
    ExampleTally(l2, l3, l4);
    ExampleSort(UserStat("Y", 1, 100.0 / 3.0), UserStat("X", 2, 200.0 / 3.0));
  }

  lemma TieWindow(l1: Log, l2: Log, l3: Log, c: int)
    requires l1.createdAt < c <= l2.createdAt && c <= l3.createdAt
    ensures InWindow([l1, l2, l3], c) == [l2, l3]
  {
    var logs := [l1, l2, l3];
    assert logs[..2][..1] == [l1] && [l1][..0] == [];
    assert logs[..2] == [l1, l2];
    assert InWindow([l1], c) == [];
    assert InWindow([l1, l2], c) == [l2];
  }

  lemma TieTally(l2: Log, l3: Log)
    requires SenderKey(l2) == "Y" && SenderKey(l3) == "X"
    ensures Unsorted([l2, l3]) == [UserStat("Y", 1, 50.0), UserStat("X", 1, 50.0)]
  {
    SendersSnoc([], l2);
    assert [] + [l2] == [l2];
    SendersSnoc([l2], l3);
    assert [l2] + [l3] == [l2, l3];
    assert "X" !in ["Y"];
    assert Senders([l2, l3]) == ["Y", "X"];
    OccurrencesSnoc([], l2, "X");
    OccurrencesSnoc([], l2, "Y");
    OccurrencesSnoc([l2], l3, "X");
    OccurrencesSnoc([l2], l3, "Y");
    assert CountMap([l2, l3])["Y"] == 1 && CountMap([l2, l3])["X"] == 1;
    assert Percentage(1, 2) == 50.0;
  }

  lemma TieSort(sy: UserStat, sx: UserStat)
    requires sy.count == sx.count
    ensures SortByCount([sy, sx]) == [sy, sx]
  {
    assert [sy, sx][1..] == [sx] && [sx][1..] == [];
    assert SortByCount([sx]) == [sx];
    assert InsertByCount(sy, [sx]) == [sy, sx];
  }

  /** Over a day: X wrote 25h and 2h ago, Y 3h ago (ascending by time). X
      appears first in the snapshot, but its first message is outside the
      window, so the tie at one message each is broken in Y's favour. */
  lemma TieOrderIsWindowOrder(now: int)
    ensures RankedStats([ExampleLog(1, "X", now - 25 * HourMs), ExampleLog(2, "Y", now - 3 * HourMs),
                         ExampleLog(3, "X", now - 2 * HourMs)], "day", now)
         == [UserStat("Y", 1, 50.0), UserStat("X", 1, 50.0)]
  {
    var l1, l2, l3 := ExampleLog(1, "X", now - 25 * HourMs), ExampleLog(2, "Y", now - 3 * HourMs), ExampleLog(3, "X", now - 2 * HourMs);
    assert Cutoff("day", now) == now - 24 * HourMs;
    TieWindow(l1, l2, l3, Cutoff("day", now));
    TieTally(l2, l3);
    TieSort(UserStat("Y", 1, 50.0), UserStat("X", 1, 50.0));
  }

  // ---------------------------------------------------------------------------
  // The summary card.

  /** `Math.round(n / d)` for non-negative `n` and positive `d`: the integer
      nearest to `n / d`, halves rounded up. */
  function RoundHalfUp(n: nat, d: nat): (m: nat)
    requires d > 0
    ensures 2 * d * m <= 2 * n + d < 2 * d * m + 2 * d
  {
    (2 * n + d) / (2 * d)
  }

  lemma RoundHalfUpPositive(n: nat, d: nat)
    requires n >= d > 0
    ensures RoundHalfUp(n, d) >= 1
  {
    assert 2 * n + d >= 2 * d;
  }

  /** "전체 채팅 수": the sum of the counts. */
  function TotalChats(stats: seq<UserStat>): (total: nat)
    ensures forall i :: 0 <= i < |stats| ==> stats[i].count <= total
  {
    CountBelowTotal(stats);
    SumCounts(stats)
  }

  lemma {:induction false} CountBelowTotal(t: seq<UserStat>)
    ensures forall i :: 0 <= i < |t| ==> t[i].count <= SumCounts(t)
  {
    if t != [] {
      CountBelowTotal(t[1..]);
      forall i | 1 <= i < |t| ensures t[i].count <= SumCounts(t) {
        assert t[i] == t[1..][i - 1];
      }
    }
  }

  /** "활성 사용자": the number of ranked senders. */
  function ActiveUsers(stats: seq<UserStat>): (n: nat)
    ensures (forall i :: 0 <= i < |stats| ==> stats[i].count >= 1) ==> n <= TotalChats(stats)
  {
    CountsAtLeastOneImp(stats);
    |stats|
  }

  /** `CountsAtLeastOne` with its premise as a hypothesis, for use in expressions. */
  lemma CountsAtLeastOneImp(t: seq<UserStat>)
    ensures (forall i :: 0 <= i < |t| ==> t[i].count >= 1) ==> SumCounts(t) >= |t|
  {
    if forall i :: 0 <= i < |t| ==> t[i].count >= 1 {
      CountsAtLeastOne(t);
    }
  }

  /** "평균 채팅 수": the rounded mean count, or 0 with no senders. */
  function MeanChats(stats: seq<UserStat>): (m: nat)
    ensures stats == [] ==> m == 0
    ensures stats != [] ==>
      2 * |stats| * m <= 2 * SumCounts(stats) + |stats| < 2 * |stats| * m + 2 * |stats|
  {
    if |stats| > 0 then RoundHalfUp(TotalChats(stats), ActiveUsers(stats)) else 0
  }

  lemma {:induction false} CountsAtLeastOne(t: seq<UserStat>)
    requires forall i :: 0 <= i < |t| ==> t[i].count >= 1
    ensures SumCounts(t) >= |t|
  {
    if t != [] {
      CountsAtLeastOne(t[1..]);
    }
  }

  /** On a ranking, the card shows the number of counted logs, the number of
      distinct senders among them, and a mean of at least one whenever anyone
      is ranked. */
  lemma SummaryCard(logs: seq<Log>, range: string, now: int)
    ensures var stats := RankedStats(logs, range, now);
            var f := Counted(logs, range, now);
            TotalChats(stats) == |f| &&
            ActiveUsers(stats) == |Senders(f)| &&
            (stats != [] ==> MeanChats(stats) >= 1)
  {
    var stats := RankedStats(logs, range, now);
    RankedConserves(logs, range, now);
    if stats != [] {
      forall i | 0 <= i < |stats| ensures stats[i].count >= 1 {
        RankedEntries(logs, range, now, stats[i].sender);
      }
      CountsAtLeastOne(stats);
      RoundHalfUpPositive(TotalChats(stats), |stats|);
    }
  }

  // ---------------------------------------------------------------------------
  // The page's state cells and the effect that recomputes the stats.

  class DashboardPage {
    var logs: seq<Log>
    var timeRange: string
    var userStats: seq<UserStat>

    constructor ()
      ensures logs == [] && timeRange == "day" && userStats == []
    {
      logs, timeRange, userStats := [], "day", [];
    }

    /** The effect on `[logs, timeRange]`: stats are recomputed only when some
        logs are loaded; otherwise the previous stats stay. */
    method Recompute(now: int)
      modifies this
      ensures logs == old(logs) && timeRange == old(timeRange)
      ensures userStats == if |logs| > 0 then RankedStats(logs, timeRange, now) else old(userStats)
      ensures |logs| > 0 ==> (ShowsNoData() <==> Counted(logs, timeRange, now) == [])
    {
      if |logs| > 0 {
        userStats := CalculateStats(logs, timeRange, now);
        RankedShares(logs, timeRange, now);
      }
    }

    /** `fetchLogs` returning `data` (ascending by `created_at`), then the effect.
        A query that returns no data changes no state, so the effect does not run. */
    method FetchLogs(data: Option<seq<Log>>, now: int)
      modifies this
      ensures timeRange == old(timeRange)
      ensures logs == if data.Some? then data.value else old(logs)
      ensures userStats == if data.Some? && data.value != [] then RankedStats(data.value, timeRange, now)
                           else old(userStats)
    {
      if data.Some? {
        logs := data.value;
        Recompute(now);
      }
    }

    /** A range button: `setTimeRange(range)`. Selecting the current range is
        not a state change, so the effect does not run again. */
    method SelectRange(range: string, now: int)
      modifies this
      ensures logs == old(logs) && timeRange == range
      ensures userStats == if range != old(timeRange) && |logs| > 0 then RankedStats(logs, range, now)
                           else old(userStats)
    {
      if range != timeRange {
        timeRange := range;
        Recompute(now);
      }
    }

    /** "선택한 기간에 데이터가 없습니다" is shown iff no sender is ranked. */
    predicate ShowsNoData()
      reads this
      ensures ShowsNoData() ==> TotalChats(userStats) == 0 && ActiveUsers(userStats) == 0 && MeanChats(userStats) == 0
    {
      userStats == []
    }
  }
}
