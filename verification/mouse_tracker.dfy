/** The pointer source (hci_logger/trackers/mouse_tracker.py): moves are throttled by
    a per-axis distance from the last emitted position; clicks and scrolls always pass.
    The callback is replaced by the sequence `emitted` of everything it received. */
module Mouse {
  import opened Wrappers
  import opened Text
  import opened MouseEvents

  /** A raw device position; the device may report fractional coordinates. */
  datatype Pos = Pos(x: real, y: real)

  const Origin := Pos(0.0, 0.0)

  function Abs(r: real): real {
    if r < 0.0 then -r else r
  }

  /** The throttle test: strictly farther than `threshold` on at least one axis. */
  predicate FarEnough(last: Pos, p: Pos, threshold: int) {
    Abs(p.x - last.x) > threshold as real || Abs(p.y - last.y) > threshold as real
  }

  /** Reference definition of the throttle over a whole stream of moves: the
      positions that are emitted, in order, starting from the last position `last`. */
  function Throttle(moves: seq<Pos>, last: Pos, threshold: int): seq<Pos>
  {
    if moves == [] then []
    else if FarEnough(last, moves[0], threshold) then [moves[0]] + Throttle(moves[1..], moves[0], threshold)
    else Throttle(moves[1..], last, threshold)
  }

  /** The last emitted position, or `start` when nothing was emitted. */
  function LastOr(kept: seq<Pos>, start: Pos): Pos {
    if kept == [] then start else kept[|kept| - 1]
  }

  /** The throttle processes one more move by comparing it with the last emitted position. */
  lemma {:induction false} ThrottleSnoc(moves: seq<Pos>, m: Pos, last: Pos, threshold: int)
    ensures Throttle(moves + [m], last, threshold) ==
            Throttle(moves, last, threshold) +
            (if FarEnough(LastOr(Throttle(moves, last, threshold), last), m, threshold) then [m] else [])
    decreases |moves|
  {
    if moves == [] {
      assert moves + [m] == [m];
    } else {
      assert (moves + [m])[0] == moves[0] && (moves + [m])[1..] == moves[1..] + [m];
      if FarEnough(last, moves[0], threshold) {
        ThrottleSnoc(moves[1..], m, moves[0], threshold);
      } else {
        ThrottleSnoc(moves[1..], m, last, threshold);
      }
    }
  }

  /** Every emitted move is beyond the threshold from the one emitted before it (the
      first from the start position), and only received positions are emitted. */
  lemma {:induction false} ThrottleSpaced(moves: seq<Pos>, last: Pos, threshold: int)
    ensures var kept := Throttle(moves, last, threshold);
      |kept| <= |moves| &&
      (forall i :: 0 <= i < |kept| ==> kept[i] in moves) &&
      (|kept| > 0 ==> FarEnough(last, kept[0], threshold)) &&
      (forall i :: 0 < i < |kept| ==> FarEnough(kept[i - 1], kept[i], threshold))
    decreases |moves|
  {
    if moves != [] {
      if FarEnough(last, moves[0], threshold) {
        ThrottleSpaced(moves[1..], moves[0], threshold);
        var rest := Throttle(moves[1..], moves[0], threshold);
        assert Throttle(moves, last, threshold) == [moves[0]] + rest;
        forall i | 0 <= i < |rest| ensures rest[i] in moves {
          assert rest[i] in moves[1..];
        }
      } else {
        ThrottleSpaced(moves[1..], last, threshold);
        var rest := Throttle(moves[1..], last, threshold);
        forall i | 0 <= i < |rest| ensures rest[i] in moves {
          assert rest[i] in moves[1..];
        }
      }
    }
  }

  /** An exact repeat of the last emitted position is never emitted. */
  lemma RepeatSuppressed(moves: seq<Pos>, threshold: int)
    requires threshold >= 0
    ensures var kept := Throttle(moves, Origin, threshold);
      forall i :: 0 < i < |kept| ==> kept[i] != kept[i - 1]
  {
    ThrottleSpaced(moves, Origin, threshold);
  }

  /** Moves (100,100), (100,100), (980,540) with threshold 5 emit exactly two moves. */
  lemma DuplicateMoveExample()
    ensures Throttle([Pos(100.0, 100.0), Pos(100.0, 100.0), Pos(980.0, 540.0)], Origin, 5)
            == [Pos(100.0, 100.0), Pos(980.0, 540.0)]
  {
    var ms := [Pos(100.0, 100.0), Pos(100.0, 100.0), Pos(980.0, 540.0)];
    assert ms[1..] == [Pos(100.0, 100.0), Pos(980.0, 540.0)];
    assert ms[1..][1..] == [Pos(980.0, 540.0)];
    assert ms[1..][1..][1..] == [];
  }

  function MoveEvent(sessionId: int, now: real, p: Pos): MouseEvent {
    MouseEvent(sessionId, now, Move, Trunc(p.x), Trunc(p.y), None, None, None, None)
  }

  function ClickEvent(sessionId: int, now: real, p: Pos, button: string, pressed: bool): MouseEvent {
    MouseEvent(sessionId, now, Click, Trunc(p.x), Trunc(p.y), Some(button), Some(pressed), None, None)
  }

  /** `float(d) if d else None`. */
  function ScrollDelta(d: int): (r: Option<real>)
    ensures r == None <==> d == 0
    ensures r.Some? ==> r.value == d as real
  {
    if d == 0 then None else Some(d as real)
  }

  function ScrollEvent(sessionId: int, now: real, p: Pos, dx: int, dy: int): MouseEvent {
    MouseEvent(sessionId, now, Scroll, Trunc(p.x), Trunc(p.y), None, None, ScrollDelta(dx), ScrollDelta(dy))
  }

  class MouseTracker {
    const sessionId: int
    const threshold: int
    var lastPosition: Pos
    var eventsCaptured: nat
    /** Everything handed to the event callback, in order. */
    var emitted: seq<MouseEvent>
    /** Every move the device reported, and the positions of the moves emitted. */
    ghost var received: seq<Pos>
    ghost var kept: seq<Pos>

    ghost predicate Valid()
      reads this
    {
      && eventsCaptured == |emitted|
      && kept == Throttle(received, Origin, threshold)
      && lastPosition == LastOr(kept, Origin)
    }

    constructor (sessionId: int, threshold: int)
      ensures Valid()
      ensures this.sessionId == sessionId && this.threshold == threshold
      ensures lastPosition == Origin && eventsCaptured == 0 && emitted == []
      ensures received == []
    {
      this.sessionId := sessionId;
      this.threshold := threshold;
      lastPosition := Origin;
      eventsCaptured := 0;
      emitted := [];
      received := [];
      kept := [];
    }

    /** `_on_move`: emit only when the move is beyond the threshold from the last
        emitted position on some axis; the emitted coordinates are truncated, the
        remembered position is the raw one. */
    method OnMove(x: real, y: real, now: real)
      requires Valid()
      modifies this
      ensures Valid()
      ensures received == old(received) + [Pos(x, y)]
      ensures var moved := FarEnough(old(lastPosition), Pos(x, y), threshold);
        && emitted == old(emitted) + (if moved then [MoveEvent(sessionId, now, Pos(x, y))] else [])
        && lastPosition == (if moved then Pos(x, y) else old(lastPosition))
        && kept == old(kept) + (if moved then [Pos(x, y)] else [])
    {
      ThrottleSnoc(received, Pos(x, y), Origin, threshold);
      received := received + [Pos(x, y)];
      var dx := Abs(x - lastPosition.x);
      var dy := Abs(y - lastPosition.y);
      if dx > threshold as real || dy > threshold as real {
        emitted := emitted + [MoveEvent(sessionId, now, Pos(x, y))];
        lastPosition := Pos(x, y);
        eventsCaptured := eventsCaptured + 1;
        kept := kept + [Pos(x, y)];
      }
    }

    /** `_on_click`: every press and every release is emitted. */
    method OnClick(x: real, y: real, button: string, pressed: bool, now: real)
      requires Valid()
      modifies this`emitted, this`eventsCaptured
      ensures Valid()
      ensures emitted == old(emitted) + [ClickEvent(sessionId, now, Pos(x, y), button, pressed)]
      ensures eventsCaptured == old(eventsCaptured) + 1
    {
      emitted := emitted + [ClickEvent(sessionId, now, Pos(x, y), button, pressed)];
      eventsCaptured := eventsCaptured + 1;
    }

    /** `_on_scroll`: every scroll is emitted; a zero delta becomes None. */
    method OnScroll(x: real, y: real, dx: int, dy: int, now: real)
      requires Valid()
      modifies this`emitted, this`eventsCaptured
      ensures Valid()
      ensures emitted == old(emitted) + [ScrollEvent(sessionId, now, Pos(x, y), dx, dy)]
      ensures eventsCaptured == old(eventsCaptured) + 1
    {
      emitted := emitted + [ScrollEvent(sessionId, now, Pos(x, y), dx, dy)];
      eventsCaptured := eventsCaptured + 1;
    }
  }

  /** A tracker with the default threshold, fed the moves (100,100), (100,100) and
      (980,540), emits two move events, the second at the truncated (980,540). */
  method DuplicateMoveScenario(sessionId: int) returns (events: seq<MouseEvent>)
    ensures |events| == 2
    ensures events[0].eventType == Move && events[0].x == 100 && events[0].y == 100
    ensures events[1].eventType == Move && events[1].x == 980 && events[1].y == 540
  {
    var t := new MouseTracker(sessionId, 5);
    t.OnMove(100.0, 100.0, 1.0);
    t.OnMove(100.0, 100.0, 2.0);
    t.OnMove(980.0, 540.0, 3.0);
    events := t.emitted;
  }
}
