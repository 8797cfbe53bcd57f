/** The lookback window of the dashboard: `getTimeRangeDate` and the
    `created_at >= startDate` filter. */
module TimeWindow {

  import opened Logs

  const HourMs: int := 60 * 60 * 1000
  const DayMs: int := 24 * HourMs

  /** Days of lookback per selector; an unrecognised selector falls back to a day. */
  function LookbackDays(range: string): (days: nat)
    ensures days in {1, 7, 30, 365}
  {
    match range
    case "day" => 1
    case "week" => 7
    case "month" => 30
    case "year" => 365
    case _ => 1
  }

  /** Milliseconds subtracted from the evaluation instant. */
  function LookbackMs(range: string): (ms: int)
    ensures ms >= DayMs
    ensures ms % DayMs == 0
  {
    LookbackDays(range) * DayMs
  }

  /** The exact durations, written as plain millisecond counts. */
  lemma LookbackTable(range: string)
    ensures range == "day" ==> LookbackMs(range) == 86_400_000
    ensures range == "week" ==> LookbackMs(range) == 604_800_000
    ensures range == "month" ==> LookbackMs(range) == 2_592_000_000
    ensures range == "year" ==> LookbackMs(range) == 31_536_000_000
    ensures range !in {"day", "week", "month", "year"} ==> LookbackMs(range) == LookbackMs("day")
  {
  }

  /** The four selectable windows are strictly nested. */
  lemma LookbackNested()
    ensures LookbackMs("day") < LookbackMs("week") < LookbackMs("month") < LookbackMs("year")
  {
  }

  /** The earliest `created_at` still counted at instant `now`. */
  function Cutoff(range: string, now: int): (c: int)
    ensures c <= now - DayMs
    ensures now - c == LookbackMs(range)
  {
    now - LookbackMs(range)
  }

  /** `logs.filter(log => created_at >= cutoff)`: keeps order, drops the rest. */
  function InWindow(logs: seq<Log>, cutoff: int): (r: seq<Log>)
    ensures |r| <= |logs|
    ensures forall l :: l in r <==> l in logs && l.createdAt >= cutoff
  {
    if logs == [] then []
    else
      var last := logs[|logs| - 1];
      InWindow(logs[..|logs| - 1], cutoff) + (if last.createdAt >= cutoff then [last] else [])
  }

  /** Filtering distributes over concatenation of snapshots. */
  lemma {:induction false} InWindowAppend(a: seq<Log>, b: seq<Log>, cutoff: int)
    ensures InWindow(a + b, cutoff) == InWindow(a, cutoff) + InWindow(b, cutoff)
    decreases |b|
  {
    if b == [] {
      assert a + b == a;
    } else {
      var b', last := b[..|b| - 1], b[|b| - 1];
      assert (a + b)[..|a + b| - 1] == a + b' && (a + b)[|a + b| - 1] == last;
      InWindowAppend(a, b', cutoff);
      var tail := if last.createdAt >= cutoff then [last] else [];
      assert InWindow(a + b, cutoff) == InWindow(a + b', cutoff) + tail;
      assert InWindow(b, cutoff) == InWindow(b', cutoff) + tail;
    }
  }

  /** A log exactly at the cutoff is kept; one a millisecond earlier is not. */
  lemma InWindowBoundary(l: Log, cutoff: int)
    ensures InWindow([l], cutoff) == (if l.createdAt >= cutoff then [l] else [])
  {
    assert [l][..0] == [];
  }

  /** A wider window (earlier cutoff) keeps everything a narrower one keeps,
      in the same order. */
  lemma {:induction false} InWindowWiden(logs: seq<Log>, narrow: int, wide: int)
    requires wide <= narrow
    ensures InWindow(logs, narrow) == InWindow(InWindow(logs, wide), narrow)
  {
    if logs != [] {
      var p := logs[..|logs| - 1];
      var last := logs[|logs| - 1];
      InWindowWiden(p, narrow, wide);
      InWindowAppend(InWindow(p, wide), if last.createdAt >= wide then [last] else [], narrow);
      InWindowBoundary(last, narrow);
    }
  }
}
