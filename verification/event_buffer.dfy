/** The logger window's pointer-event buffer (main.py, `HCILoggerWindow`): every
    event becomes a ten-field row; a full buffer of 50 rows is swapped out under
    the buffer lock and written after the lock is released; the final flush
    writes what is left while still holding the lock. The database write is
    recorded in a write log, one entry per batch, with the lock state at the time. */
module EventBuffer {
  import opened Wrappers
  import opened MouseEvents

  /** `_BUFFER_SIZE`. */
  const BufferSize: nat := 50

  /** The tuple appended to `_event_buffer`: the nine event fields, then the task id. */
  datatype Row = Row(
    sessionId: int,
    timestamp: real,
    eventType: EventType,
    x: int,
    y: int,
    button: Option<string>,
    pressed: Option<bool>,
    scrollDx: Option<real>,
    scrollDy: Option<real>,
    taskId: int)

  function RowOf(e: MouseEvent, taskId: int): (r: Row)
    ensures r.taskId == taskId && r.sessionId == e.sessionId && r.timestamp == e.timestamp
    ensures r.eventType == e.eventType && r.x == e.x && r.y == e.y && r.pressed == e.pressed
    ensures r.button == e.button && r.scrollDx == e.scrollDx && r.scrollDy == e.scrollDy
  {
    Row(e.sessionId, e.timestamp, e.eventType, e.x, e.y, e.button, e.pressed, e.scrollDx, e.scrollDy, taskId)
  }

  /** Python truthiness of `self.session_id`: None and 0 are false. */
  predicate HasSession(sessionId: Option<int>) {
    sessionId.Some? && sessionId.value != 0
  }

  /** One call of `insert_mouse_events_batch`, and whether the buffer lock was held. */
  datatype Write = Write(rows: seq<Row>, underLock: bool)

  /** What became of a batch that left the buffer. */
  datatype Fate = Written(underLock: bool) | Discarded
  datatype Batch = Batch(rows: seq<Row>, fate: Fate)

  /** The rows of all batches, in the order they left the buffer. */
  function BatchRows(batches: seq<Batch>): seq<Row> {
    if batches == [] then [] else BatchRows(batches[..|batches| - 1]) + batches[|batches| - 1].rows
  }

  /** The write log that a history of batches produces. */
  function WritesOf(batches: seq<Batch>): (w: seq<Write>)
    ensures |w| <= |batches|
  {
    if batches == [] then []
    else
      var last := batches[|batches| - 1];
      WritesOf(batches[..|batches| - 1]) +
        (match last.fate case Written(held) => [Write(last.rows, held)] case Discarded => [])
  }

  /** The rows of all writes, in write order. */
  function WrittenRows(writes: seq<Write>): seq<Row> {
    if writes == [] then [] else WrittenRows(writes[..|writes| - 1]) + writes[|writes| - 1].rows
  }

  predicate NoneDiscarded(batches: seq<Batch>) {
    forall i :: 0 <= i < |batches| ==> batches[i].fate.Written?
  }

  /** When no batch was discarded, the write log holds every row that left the
      buffer, once each and in arrival order. */
  lemma {:induction false} NothingDiscardedNothingLost(batches: seq<Batch>)
    requires NoneDiscarded(batches)
    ensures WrittenRows(WritesOf(batches)) == BatchRows(batches)
  {
    if batches != [] {
      var init := batches[..|batches| - 1];
      assert NoneDiscarded(init) by {
        forall i | 0 <= i < |init| ensures init[i].fate.Written? {
          assert init[i] == batches[i];
        }
      }
      NothingDiscardedNothingLost(init);
      var last := batches[|batches| - 1];
      assert WritesOf(batches) == WritesOf(init) + [Write(last.rows, last.fate.underLock)];
      assert (WritesOf(init) + [Write(last.rows, last.fate.underLock)])[..|WritesOf(init)|] == WritesOf(init);
    }
  }

  /** A discarded batch reaches the write log not at all: the log is as long as
      the number of written batches. */
  lemma {:induction false} DiscardedBatchesAreNotWritten(batches: seq<Batch>)
    ensures |WritesOf(batches)| == |batches| - DiscardedCount(batches)
  {
    if batches != [] {
      DiscardedBatchesAreNotWritten(batches[..|batches| - 1]);
    }
  }

  function DiscardedCount(batches: seq<Batch>): (n: nat)
    ensures n <= |batches|
  {
    if batches == [] then 0
    else DiscardedCount(batches[..|batches| - 1]) + (if batches[|batches| - 1].fate.Discarded? then 1 else 0)
  }

  lemma BatchRowsSnoc(batches: seq<Batch>, b: Batch)
    ensures BatchRows(batches + [b]) == BatchRows(batches) + b.rows
  {
    assert (batches + [b])[..|batches|] == batches;
  }

  lemma WritesOfSnoc(batches: seq<Batch>, b: Batch)
    ensures WritesOf(batches + [b]) ==
      WritesOf(batches) + (match b.fate case Written(held) => [Write(b.rows, held)] case Discarded => [])
  {
    assert (batches + [b])[..|batches|] == batches;
  }

  /** The write log is exactly the written batches, no batch is empty, and the
      buffer holds fewer than 50 rows. */
  ghost predicate Consistent(buffer: seq<Row>, batches: seq<Batch>, writes: seq<Write>) {
    && |buffer| < BufferSize
    && writes == WritesOf(batches)
    && (forall i :: 0 <= i < |batches| ==> |batches[i].rows| > 0)
  }

  /** Swapping out a full buffer as one batch keeps the write log in step and
      moves the rows, in order, from the buffer into the batch history. */
  lemma SwapKeepsConsistent(buffer: seq<Row>, batches: seq<Batch>, writes: seq<Write>, row: Row, hasSession: bool)
    requires Consistent(buffer, batches, writes)
    ensures var b := Batch(buffer + [row], SwapFate(hasSession));
      && Consistent([], batches + [b], writes + (if hasSession then [Write(buffer + [row], false)] else []))
      && BatchRows(batches + [b]) + [] == (BatchRows(batches) + buffer) + [row]
  {
    var b := Batch(buffer + [row], SwapFate(hasSession));
    assert (BatchRows(batches) + buffer) + [row] == BatchRows(batches) + (buffer + [row]);
    BatchRowsSnoc(batches, b);
    WritesOfSnoc(batches, b);
  }

  /** Writing the whole non-empty buffer keeps the write log in step and moves the
      rows from the buffer into the batch history. */
  lemma FlushKeepsConsistent(buffer: seq<Row>, batches: seq<Batch>, writes: seq<Write>)
    requires Consistent(buffer, batches, writes) && buffer != []
    ensures var b := Batch(buffer, Written(true));
      && Consistent([], batches + [b], writes + [Write(buffer, true)])
      && BatchRows(batches + [b]) + [] == BatchRows(batches) + buffer
  {
    var b := Batch(buffer, Written(true));
    BatchRowsSnoc(batches, b);
    WritesOfSnoc(batches, b);
  }

  /** The fate of a swapped-out batch: written outside the lock when a session id is set, dropped otherwise. */
  function SwapFate(hasSession: bool): Fate {
    if hasSession then Written(false) else Discarded
  }

  class LoggerWindow {
    var sessionId: Option<int>
    var currentTaskId: int
    var buffer: seq<Row>
    var clickCount: nat
    /** The calls made to `insert_mouse_events_batch`, in order. */
    var writes: seq<Write>
    /** Every batch that left the buffer, with its fate. */
    ghost var batches: seq<Batch>

    ghost predicate Valid()
      reads this`buffer, this`batches, this`writes
    {
      Consistent(buffer, batches, writes)
    }

    /** Every row the window has taken in: the batches that left the buffer, then
        the buffer. Each row is in exactly one place. */
    ghost function Received(): seq<Row>
      reads this`buffer, this`batches
    {
      BatchRows(batches) + buffer
    }

    constructor()
      ensures Valid()
      ensures sessionId == None && currentTaskId == 1 && clickCount == 0
      ensures buffer == [] && writes == [] && batches == [] && Received() == []
    {
      sessionId := None;
      currentTaskId := 1;
      buffer := [];
      clickCount := 0;
      writes := [];
      batches := [];
    }

    /** `_start_session`: the store's new session id, and the click counter reset. */
    method BeginSession(id: int)
      requires Valid()
      modifies this`sessionId, this`clickCount
      ensures Valid()
      ensures sessionId == Some(id) && clickCount == 0
    {
      sessionId := Some(id);
      clickCount := 0;
    }

    /** `_on_task_changed`. */
    method OnTaskChanged(taskId: int)
      requires Valid()
      modifies this`currentTaskId
      ensures Valid() && currentTaskId == taskId
    {
      currentTaskId := taskId;
    }

    /** `_on_mouse_event`: append the row; a buffer that reaches 50 rows becomes the
        batch and is emptied; the batch is written only when a session id is set
        (otherwise it is dropped); a pressed click bumps the click counter. No row
        is lost from or added to what the window has taken in. */
    method OnMouseEvent(e: MouseEvent)
      requires Valid()
      modifies this`buffer, this`writes, this`clickCount, this`batches
      ensures Valid()
      ensures Received() == old(Received()) + [RowOf(e, currentTaskId)]
      ensures |old(buffer)| + 1 < BufferSize ==>
                buffer == old(buffer) + [RowOf(e, currentTaskId)] && writes == old(writes) && batches == old(batches)
      ensures |old(buffer)| + 1 == BufferSize ==>
                && buffer == []
                && batches == old(batches) + [Batch(old(buffer) + [RowOf(e, currentTaskId)], SwapFate(HasSession(sessionId)))]
                && writes == old(writes) + (if HasSession(sessionId) then [Write(old(buffer) + [RowOf(e, currentTaskId)], false)] else [])
      ensures clickCount == old(clickCount) + (if IsPressedClick(e) then 1 else 0)
    {
      if e.eventType == Click && IsPressed(e.pressed) {
        clickCount := clickCount + 1;
      }
      Enqueue(RowOf(e, currentTaskId));
    }

    /** The part of `_on_mouse_event` under the buffer lock, and the write after it. */
    method Enqueue(row: Row)
      requires Valid()
      modifies this`buffer, this`writes, this`batches
      ensures Valid()
      ensures Received() == old(Received()) + [row]
      ensures |old(buffer)| + 1 < BufferSize ==>
                buffer == old(buffer) + [row] && writes == old(writes) && batches == old(batches)
      ensures |old(buffer)| + 1 == BufferSize ==>
                && buffer == []
                && batches == old(batches) + [Batch(old(buffer) + [row], SwapFate(HasSession(sessionId)))]
                && writes == old(writes) + (if HasSession(sessionId) then [Write(old(buffer) + [row], false)] else [])
    {
      if |buffer| + 1 >= BufferSize {
        // the full buffer is swapped out under the lock and written after it
        var batch := buffer + [row];
        SwapKeepsConsistent(buffer, batches, writes, row, HasSession(sessionId));
        batches := batches + [Batch(batch, SwapFate(HasSession(sessionId)))];
        buffer := [];
        if HasSession(sessionId) {
          writes := writes + [Write(batch, false)];
        }
      } else {
        assert (BatchRows(batches) + buffer) + [row] == BatchRows(batches) + (buffer + [row]);
        buffer := buffer + [row];
      }
    }

    /** `_flush_buffer_safe`: with rows pending and a session id set, write them all
        (the buffer lock is still held) and empty the buffer; otherwise change nothing. */
    method FlushBufferSafe()
      requires Valid()
      modifies this`buffer, this`writes, this`batches
      ensures Valid()
      ensures Received() == old(Received())
      ensures old(buffer) != [] && HasSession(sessionId) ==>
                buffer == [] && writes == old(writes) + [Write(old(buffer), true)]
                && batches == old(batches) + [Batch(old(buffer), Written(true))]
      ensures !(old(buffer) != [] && HasSession(sessionId)) ==>
                buffer == old(buffer) && writes == old(writes) && batches == old(batches)
    {
      if buffer != [] && HasSession(sessionId) {
        FlushKeepsConsistent(buffer, batches, writes);
        batches := batches + [Batch(buffer, Written(true))];
        writes := writes + [Write(buffer, true)];
        buffer := [];
      }
    }
  }
}
