/** The live page: the `logs` state cell, replaced by `fetchLogs` and grown by
    each realtime INSERT, and the fallbacks used to display a row. */
module LiveFeed {

  import opened Logs
  import SenderTally

  /** Shown for a row without a sender. */
  const NoSenderLabel: string := "알수없음"
  /** Shown for a row without a room. */
  const NoRoomLabel: string := "개인톡"

  /** What can happen to the list: a `fetchLogs` response (`data` may be null)
      or a realtime INSERT notification carrying the new row. */
  datatype Event = Loaded(data: Option<seq<Log>>) | Inserted(row: Log)

  /** One update of the `logs` state cell. */
  function Step(logs: seq<Log>, e: Event): (r: seq<Log>)
    ensures e.Inserted? ==> |r| == |logs| + 1 && r[0] == e.row && r[1..] == logs
    ensures e == Loaded(None) ==> r == logs
  {
    match e
    case Loaded(data) => if data.Some? then data.value else logs
    case Inserted(row) => [row] + logs
  }

  /** The list after `events`, starting from the initial empty list. */
  function Replay(events: seq<Event>): (r: seq<Log>)
    ensures |r| == |InsertedSince(events)| + |LastLoaded(events)|
  {
    if events == [] then []
    else Step(Replay(events[..|events| - 1]), events[|events| - 1])
  }

  /** The rows of the last load that returned data, or none. */
  function LastLoaded(events: seq<Event>): seq<Log>
  {
    if events == [] then []
    else
      match events[|events| - 1]
      case Loaded(Some(d)) => d
      case _ => LastLoaded(events[..|events| - 1])
  }

  /** The rows inserted since that load, most recent first. */
  function InsertedSince(events: seq<Event>): seq<Log>
  {
    if events == [] then []
    else
      match events[|events| - 1]
      case Loaded(Some(_)) => []
      case Loaded(None) => InsertedSince(events[..|events| - 1])
      case Inserted(row) => [row] + InsertedSince(events[..|events| - 1])
  }

  /** The list is always the rows inserted since the last successful load,
      newest first, in front of exactly the rows that load returned: a load
      discards every earlier insert, and nothing is merged or reordered. */
  lemma {:induction false} ReplayShape(events: seq<Event>)
    ensures Replay(events) == InsertedSince(events) + LastLoaded(events)
  {
    if events != [] {
      var p := events[..|events| - 1];
      ReplayShape(p);
      match events[|events| - 1]
      case Loaded(Some(d)) =>
      case Loaded(None) =>
      case Inserted(row) =>
        assert [row] + (InsertedSince(p) + LastLoaded(p)) == ([row] + InsertedSince(p)) + LastLoaded(p);
    }
  }

  /** A load that returned rows installs exactly those rows; one that returned
      no data leaves the list as it was. */
  lemma LoadResult(events: seq<Event>, data: Option<seq<Log>>)
    ensures Replay(events + [Loaded(data)]) == if data.Some? then data.value else Replay(events)
  {
    assert (events + [Loaded(data)])[..|events|] == events;
  }

  /** Number of rows with identifier `id`. */
  function CountId(logs: seq<Log>, id: int): nat
  {
    if logs == [] then 0 else (if logs[0].id == id then 1 else 0) + CountId(logs[1..], id)
  }

  lemma {:induction false} CountIdPresent(logs: seq<Log>, id: int)
    ensures CountId(logs, id) >= 1 <==> exists l :: l in logs && l.id == id
  {
    if logs != [] {
      CountIdPresent(logs[1..], id);
      assert logs == [logs[0]] + logs[1..];
    }
  }

  /** An insert puts the new row first and keeps every earlier row, in order;
      the list grows by one even when a row with the same `id` is already
      there, which then shows up twice. */
  lemma InsertNoDedup(logs: seq<Log>, row: Log)
    ensures var r := Step(logs, Inserted(row));
            |r| == |logs| + 1 && r[0] == row && r[1..] == logs
    ensures CountId(Step(logs, Inserted(row)), row.id) == CountId(logs, row.id) + 1
    ensures (exists l :: l in logs && l.id == row.id) ==> CountId(Step(logs, Inserted(row)), row.id) >= 2
  {
    var r := Step(logs, Inserted(row));
    assert r[1..] == logs;
    CountIdPresent(logs, row.id);
  }

  /** Newest first by `created_at`, as the load query orders the rows. */
  predicate NewestFirst(logs: seq<Log>)
  {
    forall i, j :: 0 <= i < j < |logs| ==> logs[i].createdAt >= logs[j].createdAt
  }

  /** Inserts are not re-sorted: a row older than the current head, put in
      front, breaks the newest-first order. */
  lemma InsertDoesNotSort(logs: seq<Log>, row: Log)
    requires logs != [] && row.createdAt < logs[0].createdAt
    ensures !NewestFirst(Step(logs, Inserted(row)))
  {
    var r := Step(logs, Inserted(row));
    assert r[0] == row && r[1] == logs[0];
  }

  /** Inserts that arrive in creation order keep a newest-first list newest first. */
  lemma InsertInOrder(logs: seq<Log>, row: Log)
    requires NewestFirst(logs)
    requires logs != [] ==> row.createdAt >= logs[0].createdAt
    ensures NewestFirst(Step(logs, Inserted(row)))
  {
  }

  /** `log.sender || '알수없음'`. */
  function SenderLabel(l: Log): (s: string)
    ensures s != ""
    ensures Truthy(l.sender) ==> s == l.sender.value
    ensures !Truthy(l.sender) ==> s == NoSenderLabel
  {
    OrElse(l.sender, NoSenderLabel)
  }

  /** `log.room || '개인톡'`. */
  function RoomLabel(l: Log): (s: string)
    ensures s != ""
    ensures Truthy(l.room) ==> s == l.room.value
    ensures !Truthy(l.room) ==> s == NoRoomLabel
  {
    OrElse(l.room, NoRoomLabel)
  }

  /** A row without a sender reads "알수없음" here but is counted under
      "(알 수 없음)" on the dashboard; a row with a sender reads the same on both. */
  lemma SenderSentinelsDiffer(l: Log)
    ensures !Truthy(l.sender) ==> SenderLabel(l) == NoSenderLabel != SenderTally.SenderKey(l)
    ensures Truthy(l.sender) ==> SenderLabel(l) == SenderTally.SenderKey(l)
  {
  }

  /** The list is empty exactly when no row arrived since the last successful
      load and that load (if any) returned no rows. */
  lemma EmptyMessageShown(events: seq<Event>)
    ensures Replay(events) == [] <==> InsertedSince(events) == [] && LastLoaded(events) == []
  {
    ReplayShape(events);
  }

  /** The page's `logs` state cell. `events` records what has happened to it. */
  class Feed {
    var logs: seq<Log>
    ghost var events: seq<Event>

    ghost predicate Valid()
      reads this
    {
      logs == Replay(events)
    }

    constructor ()
      ensures Valid() && logs == [] && events == []
    {
      logs := [];
      events := [];
    }

    /** `if (data) setLogs(data)`: the rows come newest first from the store. */
    method FetchLogs(data: Option<seq<Log>>)
      requires Valid()
      modifies this
      ensures Valid() && events == old(events) + [Loaded(data)]
      ensures logs == if data.Some? then data.value else old(logs)
    {
      if data.Some? {
        logs := data.value;
      }
      events := events + [Loaded(data)];
      LoadResult(old(events), data);
    }

    /** The INSERT callback: `setLogs(prev => [newLog, ...prev])`. */
    method OnInsert(row: Log)
      requires Valid()
      modifies this
      ensures Valid() && events == old(events) + [Inserted(row)]
      ensures logs == [row] + old(logs)
    {
      logs := [row] + logs;
      events := events + [Inserted(row)];
      assert events[..|events| - 1] == old(events);
    }

    /** "저장된 메시지가 없습니다." is shown exactly when no row arrived since the
        last successful load and that load (if any) returned no rows. */
    predicate ShowsEmptyMessage()
      reads this
      requires Valid()
      ensures ShowsEmptyMessage() <==> InsertedSince(events) == [] && LastLoaded(events) == []
    {
      EmptyMessageShown(events);
      |logs| == 0
    }
  }
}
