/** The facial-emotion sampler (hci_logger/trackers/emotion_tracker.py,
    `EmotionTracker`). The classifier, the camera and the clock are parameters:
    each pass of the capture loop is given the time, whether a frame was read,
    and what the classifier returned. `_analyze_frame` reshapes a classifier
    result into a record of seven scores divided by 100, with no clamping. */
module EmotionTracker {
  import opened Wrappers
  import EmotionNormalization

  /** One face in a classifier result. An absent key is None; `emotion` is the
      name-to-score map, scores on the 0-100 scale. */
  datatype Face = Face(
    emotion: Option<map<string, real>>,
    dominantEmotion: Option<string>,
    faceConfidence: Option<real>,
    age: Option<int>,
    dominantGender: Option<string>,
    gender: Option<string>)

  /** A classifier result: one face, or a list of faces. */
  datatype Analysis = OneFace(face: Face) | Faces(faces: seq<Face>)

  /** The dictionary `_analyze_frame` hands to the callback. */
  datatype EmotionRecord = EmotionRecord(
    sessionId: int,
    timestamp: real,
    angry: real,
    disgust: real,
    fear: real,
    happy: real,
    sad: real,
    surprise: real,
    neutral: real,
    dominantEmotion: string,
    faceConfidence: Option<real>,
    age: Option<int>,
    gender: Option<string>)

  /** `emotions.get(name, 0) / 100.0`. */
  function ScoreOf(emotions: map<string, real>, name: string): real {
    (if name in emotions then emotions[name] else 0.0) / 100.0
  }

  /** The face a result stands for: the first of a list, or the single one. */
  function Chosen(results: Analysis): Option<Face> {
    match results
    case OneFace(f) => Some(f)
    case Faces(fs) => if fs == [] then None else Some(fs[0])
  }

  /** `_analyze_frame`. `results` is None when the classifier raised; `now` is
      the analysis time. */
  function AnalyzeFrame(sessionId: int, analyzeAttributes: bool, results: Option<Analysis>, now: real): (r: Option<EmotionRecord>)
    ensures r.Some? <==>
      results.Some? && Chosen(results.value).Some? &&
      Chosen(results.value).value.emotion.Some? && Chosen(results.value).value.emotion.value != map[]
    ensures r.Some? ==>
      var face := Chosen(results.value).value;
      var scores := face.emotion.value;
      && r.value.sessionId == sessionId && r.value.timestamp == now
      && r.value.angry * 100.0 == (if "angry" in scores then scores["angry"] else 0.0)
      && r.value.disgust * 100.0 == (if "disgust" in scores then scores["disgust"] else 0.0)
      && r.value.fear * 100.0 == (if "fear" in scores then scores["fear"] else 0.0)
      && r.value.happy * 100.0 == (if "happy" in scores then scores["happy"] else 0.0)
      && r.value.sad * 100.0 == (if "sad" in scores then scores["sad"] else 0.0)
      && r.value.surprise * 100.0 == (if "surprise" in scores then scores["surprise"] else 0.0)
      && r.value.neutral * 100.0 == (if "neutral" in scores then scores["neutral"] else 0.0)
      && r.value.dominantEmotion == face.dominantEmotion.GetOr("unknown")
      && (!analyzeAttributes ==> r.value.faceConfidence.None? && r.value.age.None? && r.value.gender.None?)
      && (analyzeAttributes ==>
            r.value.faceConfidence == face.faceConfidence && r.value.age == face.age
            && r.value.gender == (if face.dominantGender.Some? then face.dominantGender else face.gender))
  {
    if results.None? then None
    else
      match Chosen(results.value)
      case None => None
      case Some(face) =>
        if face.emotion.None? || face.emotion.value == map[] then None
        else
          var scores := face.emotion.value;
          Some(EmotionRecord(
            sessionId, now,
            ScoreOf(scores, "angry"), ScoreOf(scores, "disgust"), ScoreOf(scores, "fear"),
            ScoreOf(scores, "happy"), ScoreOf(scores, "sad"), ScoreOf(scores, "surprise"),
            ScoreOf(scores, "neutral"),
            face.dominantEmotion.GetOr("unknown"),
            if analyzeAttributes then face.faceConfidence else None,
            if analyzeAttributes then face.age else None,
            if !analyzeAttributes then None
            else if face.dominantGender.Some? then face.dominantGender else face.gender))
  }

  /** Unlike `normalize_emotion`, the shaping does not clamp: a raw score of 150
      becomes 1.5. */
  lemma ShapingDoesNotClamp(sessionId: int, now: real)
    ensures var face := Face(Some(map["happy" := 150.0]), None, None, None, None, None);
      var r := AnalyzeFrame(sessionId, false, Some(OneFace(face)), now);
      r.Some? && r.value.happy == 1.5 && r.value.angry == 0.0 && r.value.dominantEmotion == "unknown"
  {
    var scores := map["happy" := 150.0];
    assert "angry"[0] != "happy"[0];
    assert "angry" !in scores;
    assert ScoreOf(scores, "happy") == 1.5;
  }

  /** Within the classifier's 0-100 range the shaped scores are exactly what
      `normalize_emotion` gives. */
  lemma ShapingAgreesWithNormalizeInRange(scores: map<string, real>, name: string, parseFloat: string -> Option<real>)
    requires name in scores && 0.0 <= scores[name] <= 100.0
    ensures ScoreOf(scores, name) == EmotionNormalization.NormalizeEmotion(EmotionNormalization.Num(scores[name]), parseFloat)
  {
    EmotionNormalization.InRangeIsFraction(scores[name], parseFloat);
  }

  /** An empty result list, a missing emotion map and an empty one all give nothing. */
  lemma NoFaceNoRecord(sessionId: int, attrs: bool, face: Face, now: real)
    requires face.emotion.None? || face.emotion == Some(map[])
    ensures AnalyzeFrame(sessionId, attrs, Some(Faces([])), now).None?
    ensures AnalyzeFrame(sessionId, attrs, Some(OneFace(face)), now).None?
    ensures AnalyzeFrame(sessionId, attrs, Some(Faces([face])), now).None?
  {
  }

  /** What one pass of `_capture_loop` is given: the loop's clock reading, whether
      the camera delivered a frame, the classifier's answer (None if it raised),
      the time the analysis starts, whether `on_emotion_callback` returns normally
      when it is called, and the time after the analysis. */
  datatype Tick = Tick(now: real, frameOk: bool, results: Option<Analysis>, analyzedAt: real, callbackOk: bool, doneAt: real)

  /** What passes of the loop leave behind: the records the callback took without
      raising, which are the ones counted, and the last detection time. */
  datatype Outcome = Outcome(delivered: seq<EmotionRecord>, last: real)

  /** A pass runs the analysis only when at least one frame interval has passed
      since the last detection and a frame was read. */
  predicate Analyzes(t: Tick, last: real, frameInterval: real) {
    t.now - last >= frameInterval && t.frameOk
  }

  /** The analysis yields a record and the callback it is handed to raises. */
  predicate CallbackRaises(sessionId: int, attrs: bool, t: Tick) {
    AnalyzeFrame(sessionId, attrs, t.results, t.analyzedAt).Some? && !t.callbackOk
  }

  /** One pass: too early or without a frame it changes nothing; otherwise a
      record, if the analysis yields one, goes to the callback. When the callback
      raises, the loop's handler skips both the count and the time update, so
      nothing is counted and the last detection time stays; otherwise the record
      is counted and the last detection time becomes the time after the analysis. */
  function Pass(sessionId: int, attrs: bool, frameInterval: real, last: real, t: Tick): (o: Outcome)
    ensures |o.delivered| <= 1
    ensures !Analyzes(t, last, frameInterval) ==> o == Outcome([], last)
    ensures Analyzes(t, last, frameInterval) && CallbackRaises(sessionId, attrs, t) ==> o == Outcome([], last)
    ensures Analyzes(t, last, frameInterval) && !CallbackRaises(sessionId, attrs, t) ==> o.last == t.doneAt
    ensures |o.delivered| == 1 <==>
      Analyzes(t, last, frameInterval) && AnalyzeFrame(sessionId, attrs, t.results, t.analyzedAt).Some? && t.callbackOk
    ensures |o.delivered| == 1 ==> o.delivered[0] == AnalyzeFrame(sessionId, attrs, t.results, t.analyzedAt).value
  {
    if !Analyzes(t, last, frameInterval) then Outcome([], last)
    else
      var rec := AnalyzeFrame(sessionId, attrs, t.results, t.analyzedAt);
      if rec.None? then Outcome([], t.doneAt)
      else if t.callbackOk then Outcome([rec.value], t.doneAt)
      else Outcome([], last)
  }

  /** A run of passes, in order. */
  function Run(sessionId: int, attrs: bool, frameInterval: real, last: real, ticks: seq<Tick>): (o: Outcome)
    ensures |o.delivered| <= |ticks|
  {
    if ticks == [] then Outcome([], last)
    else
      var before := Run(sessionId, attrs, frameInterval, last, ticks[..|ticks| - 1]);
      var step := Pass(sessionId, attrs, frameInterval, before.last, ticks[|ticks| - 1]);
      Outcome(before.delivered + step.delivered, step.last)
  }

  /** The rate gate: passes that all fall within one frame interval of the last
      detection deliver nothing and leave the last detection time alone. */
  lemma {:induction false} WithinIntervalNothingDelivered(sessionId: int, attrs: bool, frameInterval: real, last: real, ticks: seq<Tick>)
    requires forall i :: 0 <= i < |ticks| ==> ticks[i].now - last < frameInterval
    ensures Run(sessionId, attrs, frameInterval, last, ticks) == Outcome([], last)
    decreases |ticks|
  {
    if ticks != [] {
      WithinIntervalNothingDelivered(sessionId, attrs, frameInterval, last, ticks[..|ticks| - 1]);
    }
  }

  /** Passes whose camera read fails deliver nothing either. */
  lemma {:induction false} NoFrameNothingDelivered(sessionId: int, attrs: bool, frameInterval: real, last: real, ticks: seq<Tick>)
    requires forall i :: 0 <= i < |ticks| ==> !ticks[i].frameOk
    ensures Run(sessionId, attrs, frameInterval, last, ticks) == Outcome([], last)
    decreases |ticks|
  {
    if ticks != [] {
      NoFrameNothingDelivered(sessionId, attrs, frameInterval, last, ticks[..|ticks| - 1]);
    }
  }

  /** Two passes in a row that both run the analysis are at least one frame
      interval apart: the second's clock reading is an interval past the first's
      finishing time, or, when the first's callback raised, past the detection
      time the first was gated against. */
  lemma GateSpacing(sessionId: int, attrs: bool, frameInterval: real, last: real, t1: Tick, t2: Tick)
    requires Analyzes(t1, last, frameInterval)
    requires Analyzes(t2, Pass(sessionId, attrs, frameInterval, last, t1).last, frameInterval)
    ensures !CallbackRaises(sessionId, attrs, t1) ==> t2.now >= t1.doneAt + frameInterval
    ensures CallbackRaises(sessionId, attrs, t1) ==> t2.now >= last + frameInterval
  {
  }

  class EmotionSampler {
    const sessionId: int
    /** `1.0 / sample_rate`. */
    const frameInterval: real
    const analyzeAttributes: bool

    var running: bool
    var stopRequested: bool
    var cameraOpen: bool
    var emotionsCaptured: nat
    var lastDetectionTime: real
    /** What `on_emotion_callback` took without raising, in order. */
    var delivered: seq<EmotionRecord>

    ghost predicate Valid()
      reads this`emotionsCaptured, this`delivered
    {
      emotionsCaptured == |delivered|
    }

    /** `__init__`; a zero sample rate makes Python's division raise. */
    constructor(sessionId: int, sampleRate: real, analyzeAttributes: bool)
      requires sampleRate != 0.0
      ensures Valid()
      ensures this.sessionId == sessionId && frameInterval == 1.0 / sampleRate && this.analyzeAttributes == analyzeAttributes
      ensures !running && !stopRequested && !cameraOpen && emotionsCaptured == 0 && lastDetectionTime == 0.0 && delivered == []
    {
      this.sessionId := sessionId;
      frameInterval := 1.0 / sampleRate;
      this.analyzeAttributes := analyzeAttributes;
      running := false;
      stopRequested := false;
      cameraOpen := false;
      emotionsCaptured := 0;
      lastDetectionTime := 0.0;
      delivered := [];
    }

    /** `start`: a camera that does not open makes it raise before `running` is set. */
    method Start(cameraOk: bool) returns (ok: bool)
      requires Valid()
      modifies this`cameraOpen, this`running
      ensures Valid()
      ensures ok == cameraOk && cameraOpen == cameraOk
      ensures running == (cameraOk || old(running))
    {
      cameraOpen := cameraOk;
      if cameraOk {
        running := true;
      }
      ok := cameraOk;
    }

    /** One pass of `_capture_loop`; the counter rises exactly when the callback takes
        a record without raising. */
    method CaptureStep(t: Tick)
      requires Valid()
      modifies this`emotionsCaptured, this`lastDetectionTime, this`delivered
      ensures Valid()
      ensures var o := Pass(sessionId, analyzeAttributes, frameInterval, old(lastDetectionTime), t);
        delivered == old(delivered) + o.delivered && lastDetectionTime == o.last
    {
      if t.now - lastDetectionTime < frameInterval {
        // too early: sleep and try again
      } else if !t.frameOk {
        // the camera gave no frame: back off
      } else {
        var result := AnalyzeFrame(sessionId, analyzeAttributes, t.results, t.analyzedAt);
        if result.None? {
          lastDetectionTime := t.doneAt;
        } else if t.callbackOk {
          delivered := delivered + [result.value];
          emotionsCaptured := emotionsCaptured + 1;
          lastDetectionTime := t.doneAt;
        } else {
          // the callback raised: the handler logs and backs off, skipping the count
          // and the time update
        }
      }
    }

    /** `_capture_loop` over the passes it gets to make: while `running` is set and
        no stop was requested it delivers what `Run` says; otherwise nothing. */
    method CaptureLoop(ticks: seq<Tick>)
      requires Valid()
      modifies this`emotionsCaptured, this`lastDetectionTime, this`delivered
      ensures Valid()
      ensures !(running && !stopRequested) ==> delivered == old(delivered) && lastDetectionTime == old(lastDetectionTime)
      ensures running && !stopRequested ==>
        var o := Run(sessionId, analyzeAttributes, frameInterval, old(lastDetectionTime), ticks);
        delivered == old(delivered) + o.delivered && lastDetectionTime == o.last
    {
      if !(running && !stopRequested) {
        return;
      }
      ghost var before, last0 := delivered, lastDetectionTime;
      var i := 0;
      while i < |ticks|
        invariant 0 <= i <= |ticks| && Valid()
        invariant var o := Run(sessionId, analyzeAttributes, frameInterval, last0, ticks[..i]);
          delivered == before + o.delivered && lastDetectionTime == o.last
      {
        RunStep(sessionId, analyzeAttributes, frameInterval, last0, ticks, i);
        CaptureStep(ticks[i]);
        i := i + 1;
      }
      assert ticks[..i] == ticks;
    }

    /** `stop`: clear `running`, request the loop to end and release the camera. */
    method Stop()
      requires Valid()
      modifies this`running, this`stopRequested, this`cameraOpen
      ensures Valid() && !running && stopRequested && !cameraOpen
    {
      running := false;
      stopRequested := true;
      cameraOpen := false;
    }
  }

  /** A run one pass longer. */
  lemma RunStep(sessionId: int, attrs: bool, frameInterval: real, last: real, ticks: seq<Tick>, i: nat)
    requires i < |ticks|
    ensures var before := Run(sessionId, attrs, frameInterval, last, ticks[..i]);
      var step := Pass(sessionId, attrs, frameInterval, before.last, ticks[i]);
      Run(sessionId, attrs, frameInterval, last, ticks[..i + 1]) == Outcome(before.delivered + step.delivered, step.last)
  {
    assert ticks[..i + 1][..i] == ticks[..i];
  }
}
