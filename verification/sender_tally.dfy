/** Grouping of the filtered logs by sender: the `userMap` loop of
    `calculateStats`. */
module SenderTally {

  import opened Logs

  /** Key under which the dashboard counts a log with no sender. */
  const UnknownSender: string := "(알 수 없음)"

  /** `log.sender || '(알 수 없음)'`. */
  function SenderKey(l: Log): (s: string)
    ensures s != ""
    ensures Truthy(l.sender) ==> s == l.sender.value
    ensures !Truthy(l.sender) ==> s == UnknownSender
  {
    OrElse(l.sender, UnknownSender)
  }

  /** Number of logs counted under key `s`. */
  function Occurrences(logs: seq<Log>, s: string): nat
  {
    if logs == [] then 0
    else Occurrences(logs[..|logs| - 1], s) + (if SenderKey(logs[|logs| - 1]) == s then 1 else 0)
  }

  /** The keys of `userMap` in insertion order: each key where it first appears. */
  function Senders(logs: seq<Log>): seq<string>
  {
    if logs == [] then []
    else
      var prev := Senders(logs[..|logs| - 1]);
      var k := SenderKey(logs[|logs| - 1]);
      if k in prev then prev else prev + [k]
  }

  /** The `userMap` that the loop leaves behind, as a value. */
  function CountMap(logs: seq<Log>): map<string, nat>
  {
    map s | s in Senders(logs) :: Occurrences(logs, s)
  }

  predicate Distinct(ks: seq<string>)
  {
    forall i, j :: 0 <= i < j < |ks| ==> ks[i] != ks[j]
  }

  /** Appending one log adds its key at the end of the key order, unless the
      key is already there. */
  lemma SendersSnoc(logs: seq<Log>, l: Log)
    ensures Senders(logs + [l]) == if SenderKey(l) in Senders(logs) then Senders(logs) else Senders(logs) + [SenderKey(l)]
  {
    assert (logs + [l])[..|logs|] == logs;
  }

  /** Keys enter the map where they first appear: the keys of any prefix of
      the logs are a prefix of the keys of all of them. */
  lemma {:induction false} SendersPrefix(logs: seq<Log>, k: nat)
    requires k <= |logs|
    ensures Senders(logs[..k]) <= Senders(logs)
    decreases |logs|
  {
    if k < |logs| {
      var p := logs[..|logs| - 1];
      assert p[..k] == logs[..k];
      SendersPrefix(p, k);
    } else {
      assert logs[..k] == logs;
    }
  }

  /** Appending one log adds one to its own key and nothing to any other. */
  lemma OccurrencesSnoc(logs: seq<Log>, l: Log, s: string)
    ensures Occurrences(logs + [l], s) == Occurrences(logs, s) + (if SenderKey(l) == s then 1 else 0)
  {
    assert (logs + [l])[..|logs|] == logs;
  }

  /** Each key appears once in the map's key order. */
  lemma {:induction false} SendersDistinct(logs: seq<Log>)
    ensures Distinct(Senders(logs))
  {
    if logs != [] {
      SendersDistinct(logs[..|logs| - 1]);
    }
  }

  /** A key is in the map exactly when some log is counted under it, and then
      its count is at least one; a key absent from the map has count zero. */
  lemma {:induction false} SendersExactly(logs: seq<Log>, s: string)
    ensures s in Senders(logs) <==> exists l :: l in logs && SenderKey(l) == s
    ensures s in Senders(logs) <==> Occurrences(logs, s) >= 1
  {
    if logs != [] {
      var p := logs[..|logs| - 1];
      var last := logs[|logs| - 1];
      SendersExactly(p, s);
      assert logs == p + [last];
      if s !in Senders(logs) {
        forall l | l in logs ensures SenderKey(l) != s {
          if l != last { assert l in p; }
        }
      }
    }
  }

  /** Sum of the counts of the keys `ks`. */
  function SumOver(ks: seq<string>, logs: seq<Log>): nat
  {
    if ks == [] then 0 else Occurrences(logs, ks[0]) + SumOver(ks[1..], logs)
  }

  lemma {:induction false} SumOverAppend(ks: seq<string>, k: string, logs: seq<Log>)
    ensures SumOver(ks + [k], logs) == SumOver(ks, logs) + Occurrences(logs, k)
  {
    if ks != [] {
      assert (ks + [k])[1..] == ks[1..] + [k];
      SumOverAppend(ks[1..], k, logs);
    }
  }

  lemma {:induction false} SumOverSnoc(ks: seq<string>, logs: seq<Log>, l: Log)
    requires Distinct(ks)
    ensures SumOver(ks, logs + [l]) == SumOver(ks, logs) + (if SenderKey(l) in ks then 1 else 0)
  {
    if ks != [] {
      assert Distinct(ks[1..]);
      SumOverSnoc(ks[1..], logs, l);
      OccurrencesSnoc(logs, l, ks[0]);
      assert ks == [ks[0]] + ks[1..];
    }
  }

  /** Count conservation: the counts over all keys add up to the number of logs. */
  lemma {:induction false} TallyConserves(logs: seq<Log>)
    ensures SumOver(Senders(logs), logs) == |logs|
  {
    if logs != [] {
      var p := logs[..|logs| - 1];
      var last := logs[|logs| - 1];
      var k := SenderKey(last);
      assert logs == p + [last];
      TallyConserves(p);
      SendersDistinct(p);
      SumOverSnoc(Senders(p), p, last);
      if k !in Senders(p) {
        SendersExactly(p, k);
        OccurrencesSnoc(p, last, k);
        SumOverAppend(Senders(p), k, logs);
      }
    }
  }

  /** The `forEach` over the filtered logs that fills `userMap`:
      `userMap.set(sender, (userMap.get(sender) || 0) + 1)`. A JavaScript Map
      keeps keys in first-insertion order, which `order` records. */
  method BuildUserMap(logs: seq<Log>) returns (order: seq<string>, counts: map<string, nat>)
    ensures order == Senders(logs)
    ensures counts == CountMap(logs)
    ensures Distinct(order)
    ensures forall s :: s in counts ==> counts[s] >= 1
  {
    order, counts := [], map[];
    var i := 0;
    while i < |logs|
      invariant 0 <= i <= |logs|
      invariant order == Senders(logs[..i])
      invariant forall s :: s in counts <==> s in order
      invariant forall s :: s in counts ==> counts[s] == Occurrences(logs[..i], s)
    {
      var sender := SenderKey(logs[i]);
      var previous := if sender in counts then counts[sender] else 0;
      ghost var before := counts;
      if sender !in counts {
        order := order + [sender];
      }
      counts := counts[sender := previous + 1];
      assert logs[..i + 1] == logs[..i] + [logs[i]];
      assert logs[..i + 1][..i] == logs[..i];
      forall s | s in counts ensures counts[s] == Occurrences(logs[..i + 1], s) {
        OccurrencesSnoc(logs[..i], logs[i], s);
        if s != sender {
          assert s in before;
        } else if sender !in before {
          SendersExactly(logs[..i], sender);
        }
      }
      i := i + 1;
    }
    assert logs[..i] == logs;
    SendersDistinct(logs);
    forall s | s in counts ensures counts[s] >= 1 {
      SendersExactly(logs, s);
    }
  }
}
