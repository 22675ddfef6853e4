/** The pointer event record that the mouse tracker emits and every consumer reads
    (a dict with keys session_id, timestamp, event_type, x, y, button, pressed,
    scroll_dx, scroll_dy in the source). */
module MouseEvents {
  import opened Wrappers

  datatype EventType = Move | Click | Scroll

  datatype MouseEvent = MouseEvent(
    sessionId: int,
    timestamp: real,
    eventType: EventType,
    x: int,
    y: int,
    button: Option<string>,
    pressed: Option<bool>,
    scrollDx: Option<real>,
    scrollDy: Option<real>)

  /** `event.get('pressed') is True`; on a value that is None, True or False this
      is also Python's truthiness test `event.get('pressed')`. */
  predicate IsPressed(pressed: Option<bool>) {
    pressed == Some(true)
  }

  /** A click whose `pressed` flag is True. */
  predicate IsPressedClick(e: MouseEvent) {
    e.eventType == Click && IsPressed(e.pressed)
  }

  /** A position in logical screen coordinates. */
  datatype Coord = Coord(x: int, y: int)

  function CoordOf(e: MouseEvent): Coord {
    Coord(e.x, e.y)
  }

  /** `[(e['x'], e['y']) for e in events]`. */
  function Coords(events: seq<MouseEvent>): (r: seq<Coord>)
    ensures |r| == |events|
    ensures forall i :: 0 <= i < |events| ==> r[i] == CoordOf(events[i])
  {
    seq(|events|, i requires 0 <= i < |events| => CoordOf(events[i]))
  }
}
