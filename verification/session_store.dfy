/** The session store (hci_logger/storage/database.py, `Database`) as an in-memory
    table set behind one connection: sessions go from active to completed,
    pointer events are appended, and reads filter by session and order by
    timestamp. Rows inserted without a commit are visible on the connection and
    are lost if it is closed before the next commit. */
module SessionStore {
  import opened Wrappers
  import opened MouseEvents

  datatype SessionStatus = Active | Completed

  /** A row of the `sessions` table. */
  datatype SessionRecord = SessionRecord(
    id: nat,
    uuid: string,
    startTime: real,
    endTime: Option<real>,
    participantId: Option<string>,
    experimentId: Option<string>,
    targetUrl: Option<string>,
    screenWidth: Option<int>,
    screenHeight: Option<int>,
    status: SessionStatus,
    updatedAt: Option<real>)

  /** `WHERE session_id = ?`, keeping table order. */
  function OfSession(events: seq<MouseEvent>, sessionId: int): (r: seq<MouseEvent>)
    ensures |r| <= |events|
    ensures forall i :: 0 <= i < |r| ==> r[i].sessionId == sessionId
    ensures multiset(r) <= multiset(events)
    ensures forall e :: e in events && e.sessionId == sessionId ==> e in r
  {
    if events == [] then []
    else
      var init, last := events[..|events| - 1], events[|events| - 1];
      assert events == init + [last];
      OfSession(init, sessionId) + (if last.sessionId == sessionId then [last] else [])
  }

  predicate SortedByTime(s: seq<MouseEvent>) {
    forall i, j :: 0 <= i < j < |s| ==> s[i].timestamp <= s[j].timestamp
  }

  /** Place `e` after every leading row whose timestamp is not greater than its own. */
  function InsertByTime(e: MouseEvent, s: seq<MouseEvent>): (r: seq<MouseEvent>)
    ensures multiset(r) == multiset(s) + multiset{e}
    ensures |r| == |s| + 1
  {
    if s == [] then [e]
    else if e.timestamp < s[0].timestamp then [e] + s
    else
      assert s == [s[0]] + s[1..];
      [s[0]] + InsertByTime(e, s[1..])
  }

  /** Every row of the result is one of the given rows or `e`. */
  lemma InsertedFrom(e: MouseEvent, s: seq<MouseEvent>, k: nat)
    requires k < |InsertByTime(e, s)|
    ensures InsertByTime(e, s)[k] == e || InsertByTime(e, s)[k] in s
  {
    var r := InsertByTime(e, s);
    assert r[k] in multiset(r);
  }

  /** Inserting into a sorted sequence keeps it sorted. */
  lemma {:induction false} InsertKeepsSorted(e: MouseEvent, s: seq<MouseEvent>)
    requires SortedByTime(s)
    ensures SortedByTime(InsertByTime(e, s))
    decreases |s|
  {
    if s != [] && e.timestamp >= s[0].timestamp {
      var rest := InsertByTime(e, s[1..]);
      InsertKeepsSorted(e, s[1..]);
      forall k | 0 <= k < |rest| ensures s[0].timestamp <= rest[k].timestamp {
        InsertedFrom(e, s[1..], k);
      }
      assert InsertByTime(e, s) == [s[0]] + rest;
    }
  }

  /** `ORDER BY timestamp` (an insertion sort; rows with equal timestamps keep
      their table order, which SQL itself leaves unspecified). */
  function SortByTime(s: seq<MouseEvent>): (r: seq<MouseEvent>)
    ensures SortedByTime(r)
    ensures multiset(r) == multiset(s)
    ensures |r| == |s|
  {
    if s == [] then []
    else
      assert s == s[..|s| - 1] + [s[|s| - 1]];
      InsertKeepsSorted(s[|s| - 1], SortByTime(s[..|s| - 1]));
      InsertByTime(s[|s| - 1], SortByTime(s[..|s| - 1]))
  }

  class Database {
    /** `self.conn is not None`. */
    var connected: bool
    /** The `sessions` table; a session's id is its position plus one. */
    var sessions: seq<SessionRecord>
    /** `mouse_events` rows that a commit has made durable. */
    var committed: seq<MouseEvent>
    /** `mouse_events` rows inserted since the last commit. */
    var pending: seq<MouseEvent>

    ghost predicate Valid()
      reads this`sessions
    {
      forall i :: 0 <= i < |sessions| ==> sessions[i].id == i + 1
    }

    /** The rows this connection reads: durable ones, then uncommitted ones. */
    function Events(): seq<MouseEvent>
      reads this`committed, this`pending
    {
      committed + pending
    }

    constructor()
      ensures Valid()
      ensures !connected && sessions == [] && committed == [] && pending == []
    {
      connected := false;
      sessions := [];
      committed := [];
      pending := [];
    }

    /** `initialize`: connect only when there is no connection, then run the schema
        script and commit. The schema creates nothing that already exists. */
    method Initialize()
      requires Valid()
      modifies this`connected, this`committed, this`pending
      ensures Valid()
      ensures connected
      ensures committed == old(committed) + old(pending) && pending == []
      ensures Events() == old(Events())
    {
      if !connected {
        connected := true;
      }
      committed, pending := committed + pending, [];
    }

    /** `create_session`: a new active session stamped with `now`, committed; its id
        is returned. */
    method CreateSession(uuid: string, participantId: Option<string>, experimentId: Option<string>,
                         targetUrl: Option<string>, screenWidth: Option<int>, screenHeight: Option<int>, now: real)
      returns (id: nat)
      requires Valid() && connected
      modifies this`sessions, this`committed, this`pending
      ensures Valid()
      ensures id == |old(sessions)| + 1
      ensures sessions == old(sessions) +
        [SessionRecord(id, uuid, now, None, participantId, experimentId, targetUrl, screenWidth, screenHeight, Active, None)]
      ensures committed == old(committed) + old(pending) && pending == []
    {
      id := |sessions| + 1;
      sessions := sessions +
        [SessionRecord(id, uuid, now, None, participantId, experimentId, targetUrl, screenWidth, screenHeight, Active, None)];
      committed, pending := committed + pending, [];
    }

    /** `end_session`: the session with that id gets its end time and the status
        completed; every other session, and an unknown id, changes nothing. */
    method EndSession(id: int, now: real)
      requires Valid() && connected
      modifies this`sessions, this`committed, this`pending
      ensures Valid()
      ensures |sessions| == |old(sessions)|
      ensures forall i :: 0 <= i < |sessions| && i + 1 != id ==> sessions[i] == old(sessions)[i]
      ensures 1 <= id <= |sessions| ==>
        sessions[id - 1] == old(sessions)[id - 1].(endTime := Some(now), status := Completed, updatedAt := Some(now))
      ensures committed == old(committed) + old(pending) && pending == []
    {
      if 1 <= id <= |sessions| {
        sessions := sessions[id - 1 := sessions[id - 1].(endTime := Some(now), status := Completed, updatedAt := Some(now))];
      }
      committed, pending := committed + pending, [];
    }

    /** `insert_mouse_event`: one row, not committed. */
    method InsertMouseEvent(e: MouseEvent)
      requires connected
      modifies this`pending
      ensures pending == old(pending) + [e]
      ensures Events() == old(Events()) + [e]
    {
      pending := pending + [e];
    }

    /** `insert_mouse_events_batch`: every given row, in order, then a commit. */
    method InsertMouseEventsBatch(events: seq<MouseEvent>)
      requires connected
      modifies this`committed, this`pending
      ensures committed == old(committed) + old(pending) + events && pending == []
      ensures Events() == old(Events()) + events
    {
      committed, pending := committed + pending + events, [];
    }

    /** `get_session`: the row with that id, or None. */
    method GetSession(id: int) returns (s: Option<SessionRecord>)
      requires Valid() && connected
      ensures s.Some? <==> 1 <= id <= |sessions|
      ensures s.Some? ==> s.value in sessions && s.value.id == id
    {
      if 1 <= id <= |sessions| {
        s := Some(sessions[id - 1]);
      } else {
        s := None;
      }
    }

    /** `get_mouse_events`: exactly the rows of that session, ordered by timestamp. */
    method GetMouseEvents(sessionId: int) returns (rows: seq<MouseEvent>)
      requires connected
      ensures SortedByTime(rows)
      ensures multiset(rows) == multiset(OfSession(Events(), sessionId))
      ensures forall i :: 0 <= i < |rows| ==> rows[i].sessionId == sessionId
      ensures forall e :: e in Events() && e.sessionId == sessionId ==> e in rows
    {
      var matching := OfSession(committed + pending, sessionId);
      rows := SortByTime(matching);
      forall i | 0 <= i < |rows| ensures rows[i].sessionId == sessionId {
        assert rows[i] in multiset(matching);
      }
      forall e | e in Events() && e.sessionId == sessionId ensures e in rows {
        assert e in multiset(rows);
      }
    }

    /** `get_event_count`: the number of rows `get_mouse_events` returns, 0 for a
        session without rows. */
    method GetEventCount(sessionId: int) returns (count: nat)
      requires connected
      ensures count == |SortByTime(OfSession(Events(), sessionId))|
      ensures (forall e :: e in Events() ==> e.sessionId != sessionId) ==> count == 0
    {
      count := |OfSession(committed + pending, sessionId)|;
      if forall e :: e in Events() ==> e.sessionId != sessionId {
        NoRowsOfOtherSession(Events(), sessionId);
      }
    }

    /** `close`: drop the connection, and with it the uncommitted rows; closing a
        closed store changes nothing. */
    method Close()
      modifies this`connected, this`pending
      ensures !connected
      ensures old(connected) ==> pending == []
      ensures !old(connected) ==> pending == old(pending)
    {
      if connected {
        connected := false;
        pending := [];
      }
    }
  }

  lemma {:induction false} NoRowsOfOtherSession(events: seq<MouseEvent>, sessionId: int)
    requires forall e :: e in events ==> e.sessionId != sessionId
    ensures OfSession(events, sessionId) == []
    decreases |events|
  {
    if events != [] {
      var init := events[..|events| - 1];
      assert forall e :: e in init ==> e in events;
      NoRowsOfOtherSession(init, sessionId);
    }
  }

}
