/** The capture trigger gate (hci_logger/trackers/event_screenshot_tracker.py):
    pressed clicks and accumulated scroll fire a capture, subject to a cooldown.
    The screen grab and the image write are an oracle `captureOk`; the
    screenshot callback is replaced by the sequence `artifacts`. */
module ScreenshotTrigger {
  import opened Wrappers
  import opened Text
  import opened MouseEvents

  function Abs(r: real): real {
    if r < 0.0 then -r else r
  }

  /** ASCII `str.lower()`. */
  function Lower(s: string): (r: string)
    ensures |r| == |s|
    ensures forall i :: 0 <= i < |s| ==> ('A' <= s[i] <= 'Z' <==> r[i] != s[i])
    ensures forall i :: 0 <= i < |s| && 'A' <= s[i] <= 'Z' ==> r[i] as int == s[i] as int + 32
  {
    if s == [] then []
    else [if 'A' <= s[0] <= 'Z' then (s[0] as int + 32) as char else s[0]] + Lower(s[1..])
  }

  /** `screenshot_{session}_{int(ts)}_{type}.{format}`. */
  function ScreenshotFilename(sessionId: int, timestamp: real, triggerType: string, format: string): string {
    ("screenshot_" + IntToString(sessionId) + "_") + IntToString(Trunc(timestamp)) + ("_" + triggerType + "." + format)
  }

  /** For one session, trigger type and format, two captures share a file name exactly
      when their timestamps truncate to the same second. */
  lemma FilenameSameSecond(sessionId: int, t1: real, t2: real, triggerType: string, format: string)
    ensures ScreenshotFilename(sessionId, t1, triggerType, format) == ScreenshotFilename(sessionId, t2, triggerType, format)
            <==> Trunc(t1) == Trunc(t2)
  {
    var p := "screenshot_" + IntToString(sessionId) + "_";
    var q := "_" + triggerType + "." + format;
    MiddleDetermines(p, IntToString(Trunc(t1)), IntToString(Trunc(t2)), q);
    IntToStringInjective(Trunc(t1), Trunc(t2));
  }

  /** With the default cooldown of 0.5 s, clicks at 10.0 s and 10.5 s both pass the
      gate and both are written to the same path. */
  lemma SameSecondCollision(sessionId: int)
    ensures !(10.5 - 10.0 < 0.5)
    ensures ScreenshotFilename(sessionId, 10.0, "click", "png") == ScreenshotFilename(sessionId, 10.5, "click", "png")
  {
    FilenameSameSecond(sessionId, 10.0, 10.5, "click", "png");
  }

  datatype Artifact = Artifact(
    sessionId: int,
    timestamp: real,
    filePath: string,
    format: string,
    triggerType: string,
    triggerX: int,
    triggerY: int,
    reason: string)

  /** The artifact of a scroll capture: trigger "scroll" at the pointer, with the
      reached total, truncated to whole pixels, in its reason. */
  function ScrollArtifact(sessionId: int, now: real, format: string, x: int, y: int, total: real): Artifact {
    Artifact(sessionId, now, ScreenshotFilename(sessionId, now, "scroll", format), format, "scroll", x, y,
             "scroll_" + IntToString(Trunc(total)) + "px")
  }

  /** The scroll accumulator after adding one scroll, and whether it reached the threshold. */
  function ScrollTotal(accX: real, accY: real, dx: real, dy: real): real {
    Abs(accX + Abs(dx)) + Abs(accY + Abs(dy))
  }

  predicate ScrollFires(accX: real, accY: real, dx: real, dy: real, threshold: real) {
    ScrollTotal(accX, accY, dx, dy) >= threshold
  }

  /** `event.get('scroll_dx', 0) or 0`. */
  function DeltaOrZero(d: Option<real>): real {
    match d
    case None => 0.0
    case Some(v) => v
  }

  // ---------------------------------------------------------------------------
  // The lock discipline of the scroll path.  `self.lock` is a non-reentrant
  // lock: a thread that acquires it while already holding it waits forever.

  datatype LockOp = Acquire | Release

  /** Whether the trace makes the thread acquire the lock it already holds. */
  predicate SelfDeadlocks(trace: seq<LockOp>, held: bool)
    decreases |trace|
  {
    if trace == [] then false
    else match trace[0]
      case Acquire => held || SelfDeadlocks(trace[1..], true)
      case Release => SelfDeadlocks(trace[1..], false)
  }

  /** The lock operations of `_accumulate_scroll` as written: the capture gate is
      entered (and acquires the lock) inside the `with self.lock` block. */
  function ScrollLockTraceAsWritten(fires: bool): seq<LockOp> {
    if fires then [Acquire, Acquire, Release, Release] else [Acquire, Release]
  }

  /** As written, every scroll that reaches the threshold makes the listener thread
      block forever on its own lock. */
  lemma ScrollDeadlocksAsWritten(accX: real, accY: real, dx: real, dy: real, threshold: real)
    requires ScrollFires(accX, accY, dx, dy, threshold)
    ensures SelfDeadlocks(ScrollLockTraceAsWritten(ScrollFires(accX, accY, dx, dy, threshold)), false)
  {
    var t := ScrollLockTraceAsWritten(true);
    assert t[1..][0] == Acquire;
  }

  /** A concrete input: empty accumulators, one scroll of 100 against the default threshold 100. */
  lemma ScrollDeadlockWitness()
    ensures ScrollFires(0.0, 0.0, 0.0, 100.0, 100.0)
    ensures SelfDeadlocks(ScrollLockTraceAsWritten(true), false)
  {
    ScrollDeadlocksAsWritten(0.0, 0.0, 0.0, 100.0, 100.0);
  }

  /** Corrected order: update and reset the accumulators under the lock, release it,
      and only then enter the capture gate, which takes the lock on its own. */
  function ScrollLockTraceCorrected(fires: bool): seq<LockOp> {
    [Acquire, Release] + (if fires then [Acquire, Release] else [])
  }

  /** Taking and then releasing the free lock leaves it free. */
  lemma AcquireReleasePair(rest: seq<LockOp>)
    ensures SelfDeadlocks([Acquire, Release] + rest, false) == SelfDeadlocks(rest, false)
  {
    var t := [Acquire, Release] + rest;
    assert t[1..] == [Release] + rest && t[1..][1..] == rest;
  }

  lemma ScrollNeverDeadlocksCorrected(fires: bool)
    ensures !SelfDeadlocks(ScrollLockTraceCorrected(fires), false)
  {
    var tail: seq<LockOp> := if fires then [Acquire, Release] else [];
    AcquireReleasePair(tail);
    if fires {
      assert tail == [Acquire, Release] + [];
      AcquireReleasePair([]);
    }
  }

  // ---------------------------------------------------------------------------

  class EventScreenshotTracker {
    const sessionId: int
    const scrollThreshold: real
    const cooldown: real
    const format: string
    var running: bool
    var screenshotsCaptured: nat
    var lastScreenshotTime: real
    var scrollAccX: real
    var scrollAccY: real
    /** Whether `self.lock` is held by the calling thread. */
    var held: bool
    /** Everything handed to the screenshot callback, in order. */
    var artifacts: seq<Artifact>

    ghost predicate Valid()
      reads this
    {
      !held && screenshotsCaptured == |artifacts| && scrollAccX >= 0.0 && scrollAccY >= 0.0
    }

    constructor (sessionId: int, scrollThreshold: real, cooldown: real, format: string)
      ensures Valid()
      ensures this.sessionId == sessionId && this.scrollThreshold == scrollThreshold
      ensures this.cooldown == cooldown && this.format == Lower(format)
      ensures !running && screenshotsCaptured == 0 && lastScreenshotTime == 0.0
      ensures scrollAccX == 0.0 && scrollAccY == 0.0 && artifacts == []
    {
      this.sessionId := sessionId;
      this.scrollThreshold := scrollThreshold;
      this.cooldown := cooldown;
      this.format := Lower(format);
      running := false;
      screenshotsCaptured := 0;
      lastScreenshotTime := 0.0;
      scrollAccX, scrollAccY := 0.0, 0.0;
      held := false;
      artifacts := [];
    }

    /** `start` (the monitor query is left out). */
    method Start()
      requires Valid()
      modifies this`running
      ensures Valid() && running
    {
      running := true;
    }

    /** `stop`. */
    method Stop()
      requires Valid()
      modifies this`running
      ensures Valid() && !running
    {
      running := false;
    }

    /** `_capture_on_event`: a trigger less than `cooldown` after the last accepted
        one is dropped; otherwise the time is recorded before the capture, which may
        still fail. Acquiring the lock requires that this thread does not hold it. */
    method CaptureOnEvent(triggerType: string, x: int, y: int, reason: string, now: real, captureOk: bool)
      returns (captured: bool)
      requires Valid()
      modifies this`held, this`lastScreenshotTime, this`screenshotsCaptured, this`artifacts
      ensures Valid()
      ensures var accepted := !(now - old(lastScreenshotTime) < cooldown);
        && lastScreenshotTime == (if accepted then now else old(lastScreenshotTime))
        && captured == (accepted && captureOk)
        && artifacts == old(artifacts) +
             (if captured then [Artifact(sessionId, now, ScreenshotFilename(sessionId, now, triggerType, format),
                                         format, triggerType, x, y, reason)]
              else [])
    {
      held := true;
      if now - lastScreenshotTime < cooldown {
        held := false;
        return false;
      }
      lastScreenshotTime := now;
      held := false;
      captured := CaptureScreenshot(now, triggerType, x, y, reason, captureOk);
    }

    /** `_capture_screenshot`: on success the artifact is reported and counted. */
    method CaptureScreenshot(timestamp: real, triggerType: string, x: int, y: int, reason: string, captureOk: bool)
      returns (success: bool)
      requires Valid()
      modifies this`screenshotsCaptured, this`artifacts
      ensures Valid()
      ensures success == captureOk
      ensures artifacts == old(artifacts) +
             (if success then [Artifact(sessionId, timestamp, ScreenshotFilename(sessionId, timestamp, triggerType, format),
                                        format, triggerType, x, y, reason)]
              else [])
    {
      if !captureOk {
        return false;
      }
      var path := ScreenshotFilename(sessionId, timestamp, triggerType, format);
      artifacts := artifacts + [Artifact(sessionId, timestamp, path, format, triggerType, x, y, reason)];
      screenshotsCaptured := screenshotsCaptured + 1;
      success := true;
    }

    /** `_accumulate_scroll`, in the corrected lock order (see ScrollLockTraceCorrected):
        the absolute deltas are added; once the total reaches the threshold both
        accumulators are reset before the cooldown check, so a scroll that the
        cooldown then drops is lost. */
    method AccumulateScroll(dx: real, dy: real, x: int, y: int, now: real, captureOk: bool)
      requires Valid()
      modifies this`held, this`scrollAccX, this`scrollAccY, this`lastScreenshotTime,
               this`screenshotsCaptured, this`artifacts
      ensures Valid()
      ensures var fires := ScrollFires(old(scrollAccX), old(scrollAccY), dx, dy, scrollThreshold);
        && (fires ==> scrollAccX == 0.0 && scrollAccY == 0.0)
        && (!fires ==> scrollAccX == old(scrollAccX) + Abs(dx) && scrollAccY == old(scrollAccY) + Abs(dy)
                       && artifacts == old(artifacts) && lastScreenshotTime == old(lastScreenshotTime))
        && (fires ==> var accepted := !(now - old(lastScreenshotTime) < cooldown);
              lastScreenshotTime == (if accepted then now else old(lastScreenshotTime)) &&
              artifacts == old(artifacts) +
                (if accepted && captureOk
                 then [ScrollArtifact(sessionId, now, format, x, y, ScrollTotal(old(scrollAccX), old(scrollAccY), dx, dy))]
                 else []))
    {
      held := true;
      scrollAccX := scrollAccX + Abs(dx);
      scrollAccY := scrollAccY + Abs(dy);
      var total := Abs(scrollAccX) + Abs(scrollAccY);
      var fires := total >= scrollThreshold;
      if fires {
        scrollAccX := 0.0;
        scrollAccY := 0.0;
      }
      held := false;
      if fires {
        var amount := Trunc(total);
        var _ := CaptureOnEvent("scroll", x, y, "scroll_" + IntToString(amount) + "px", now, captureOk);
      }
    }

    /** `on_mouse_event`: nothing happens while stopped; a click reaches the gate only
        when `pressed is True`; a scroll goes to the accumulator; moves are ignored. */
    method OnMouseEvent(e: MouseEvent, now: real, captureOk: bool)
      requires Valid()
      modifies this`held, this`scrollAccX, this`scrollAccY, this`lastScreenshotTime,
               this`screenshotsCaptured, this`artifacts
      ensures Valid()
      ensures !old(running) || e.eventType == Move || (e.eventType == Click && !IsPressed(e.pressed)) ==>
        && scrollAccX == old(scrollAccX) && scrollAccY == old(scrollAccY)
        && lastScreenshotTime == old(lastScreenshotTime) && artifacts == old(artifacts)
      ensures old(running) && IsPressedClick(e) ==>
        && scrollAccX == old(scrollAccX) && scrollAccY == old(scrollAccY)
        && var accepted := !(now - old(lastScreenshotTime) < cooldown);
           lastScreenshotTime == (if accepted then now else old(lastScreenshotTime)) &&
           artifacts == old(artifacts) +
             (if accepted && captureOk
              then [Artifact(sessionId, now, ScreenshotFilename(sessionId, now, "click", format), format, "click",
                             e.x, e.y, "click_" + ButtonText(e.button))]
              else [])
      ensures old(running) && e.eventType == Scroll ==>
        var fires := ScrollFires(old(scrollAccX), old(scrollAccY), DeltaOrZero(e.scrollDx), DeltaOrZero(e.scrollDy), scrollThreshold);
        && (fires ==> scrollAccX == 0.0 && scrollAccY == 0.0)
        && (!fires ==> scrollAccX == old(scrollAccX) + Abs(DeltaOrZero(e.scrollDx))
                       && scrollAccY == old(scrollAccY) + Abs(DeltaOrZero(e.scrollDy))
                       && artifacts == old(artifacts) && lastScreenshotTime == old(lastScreenshotTime))
        && (fires ==> var accepted := !(now - old(lastScreenshotTime) < cooldown);
              lastScreenshotTime == (if accepted then now else old(lastScreenshotTime)) &&
              artifacts == old(artifacts) +
                (if accepted && captureOk
                 then [ScrollArtifact(sessionId, now, format, e.x, e.y,
                                      ScrollTotal(old(scrollAccX), old(scrollAccY), DeltaOrZero(e.scrollDx), DeltaOrZero(e.scrollDy)))]
                 else []))
    {
      if !running {
        return;
      }
      if e.eventType == Click && IsPressed(e.pressed) {
        var _ := CaptureOnEvent("click", e.x, e.y, "click_" + ButtonText(e.button), now, captureOk);
      } else if e.eventType == Scroll {
        AccumulateScroll(DeltaOrZero(e.scrollDx), DeltaOrZero(e.scrollDy), e.x, e.y, now, captureOk);
      }
    }
  }

  /** f"{event.get('button')}": the button name, or "None". */
  function ButtonText(b: Option<string>): string {
    match b
    case None => "None"
    case Some(name) => name
  }

  function PressedClick(sessionId: int, t: real, x: int, y: int): MouseEvent {
    MouseEvent(sessionId, t, Click, x, y, Some("left"), Some(true), None, None)
  }

  /** Two pressed clicks `gap` seconds apart with the default cooldown of 0.5 s (and
      the first long after start): one capture if the gap is shorter than the
      cooldown, two otherwise. */
  method ClickBurstScenario(gap: real) returns (captures: nat)
    requires gap >= 0.0
    ensures gap < 0.5 ==> captures == 1
    ensures gap >= 0.5 ==> captures == 2
  {
    var t := new EventScreenshotTracker(1, 100.0, 0.5, "png");
    t.Start();
    t.OnMouseEvent(PressedClick(1, 10.0, 500, 500), 10.0, true);
    t.OnMouseEvent(PressedClick(1, 10.0 + gap, 500, 500), 10.0 + gap, true);
    captures := t.screenshotsCaptured;
  }

  /** A scroll of 60 px followed by one of `second` px (the scroll path of
      `on_mouse_event`), against the default threshold
      100: exactly one capture and an empty accumulator when the second brings the sum
      to 100, none and an accumulator of 99 when it brings it to 99. */
  method ScrollThresholdScenario(second: real) returns (captures: nat, accumulated: real)
    requires second >= 0.0
    ensures second == 40.0 ==> captures == 1 && accumulated == 0.0
    ensures second == 39.0 ==> captures == 0 && accumulated == 99.0
  {
    var t := new EventScreenshotTracker(1, 100.0, 0.5, "png");
    t.Start();
    t.AccumulateScroll(0.0, 60.0, 500, 500, 10.0, true);
    assert t.scrollAccX == 0.0 && t.scrollAccY == 60.0 && t.artifacts == [] && t.lastScreenshotTime == 0.0;
    t.AccumulateScroll(0.0, second, 500, 500, 10.1, true);
    captures := t.screenshotsCaptured;
    accumulated := t.scrollAccX + t.scrollAccY;
  }
}
