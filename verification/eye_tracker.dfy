/** The decision logic of the webcam gaze tracker (hci_logger/trackers/eye_tracker.py,
    `EyeTracker`): the default 3x3 calibration grid, the sample collection of
    `calibrate` and the rule that decides whether the tracker counts as
    calibrated, the clipping of calibrated gaze to the screen, and the eye
    openness ratio with its zero guard. Camera frames, the face-mesh detector
    and the regression are parameters: each calibration sample is given as the
    feature vector the detector produced, or None when no face was found. */
module EyeTracker {
  import opened Wrappers

  /** The margin of the default grid, in pixels. */
  const Margin: int := 200

  /** A screen point `(x, y)`. */
  datatype Point = Point(x: int, y: int)

  /** `calibrate`'s default grid: x in {200, W//2, W-200} and y in {200, H//2, H-200},
      row by row from the top left. */
  function DefaultGrid(width: int, height: int): (g: seq<Point>)
    ensures |g| == 9
    ensures forall r, c :: 0 <= r < 3 && 0 <= c < 3 ==>
      g[3 * r + c] == Point(GridCoord(width, c), GridCoord(height, r))
  {
    var xs := [Margin, width / 2, width - Margin];
    var ys := [Margin, height / 2, height - Margin];
    [Point(xs[0], ys[0]), Point(xs[1], ys[0]), Point(xs[2], ys[0]),
     Point(xs[0], ys[1]), Point(xs[1], ys[1]), Point(xs[2], ys[1]),
     Point(xs[0], ys[2]), Point(xs[1], ys[2]), Point(xs[2], ys[2])]
  }

  /** The `k`-th of the three grid coordinates along an axis of the given extent
      (`//` is floor division, which Dafny's `/` matches for the divisor 2). */
  function GridCoord(extent: int, k: int): int
    requires 0 <= k < 3
  {
    if k == 0 then Margin else if k == 1 then extent / 2 else extent - Margin
  }

  /** On a screen at least 400 pixels each way every default point is on the screen. */
  lemma DefaultGridOnScreen(width: int, height: int)
    requires width >= 2 * Margin && height >= 2 * Margin
    ensures forall k :: 0 <= k < 9 ==>
      0 <= DefaultGrid(width, height)[k].x <= width && 0 <= DefaultGrid(width, height)[k].y <= height
  {
    var g := DefaultGrid(width, height);
    forall k | 0 <= k < 9
      ensures 0 <= g[k].x <= width && 0 <= g[k].y <= height
    {
      assert g[3 * (k / 3) + k % 3] == Point(GridCoord(width, k % 3), GridCoord(height, k / 3));
    }
  }

  /** Above 401 pixels each way the nine points are distinct; at 401 the centre
      column falls on the left one. */
  lemma DefaultGridDistinct(width: int, height: int)
    requires width > 2 * Margin + 1 && height > 2 * Margin + 1
    ensures forall i, j :: 0 <= i < j < 9 ==> DefaultGrid(width, height)[i] != DefaultGrid(width, height)[j]
  {
    var g := DefaultGrid(width, height);
    forall i, j | 0 <= i < j < 9
      ensures g[i] != g[j]
    {
      assert g[3 * (i / 3) + i % 3] == Point(GridCoord(width, i % 3), GridCoord(height, i / 3));
      assert g[3 * (j / 3) + j % 3] == Point(GridCoord(width, j % 3), GridCoord(height, j / 3));
    }
  }

  /** A calibration sample: the detector's feature vector and the point looked at. */
  datatype Sample = Sample(features: seq<real>, targetX: int, targetY: int)

  /** The samples one point yields: one per capture that found a face, in order. */
  function PointSamples(p: Point, captures: seq<Option<seq<real>>>): (s: seq<Sample>)
    ensures |s| <= |captures|
    ensures forall k :: 0 <= k < |s| ==> s[k].targetX == p.x && s[k].targetY == p.y
  {
    if captures == [] then []
    else
      var last := captures[|captures| - 1];
      PointSamples(p, captures[..|captures| - 1]) +
        (if last.Some? then [Sample(last.value, p.x, p.y)] else [])
  }

  /** The samples of a whole calibration, point after point. */
  function Collected(points: seq<Point>, captures: seq<seq<Option<seq<real>>>>): seq<Sample>
    requires |captures| == |points|
  {
    if points == [] then []
    else
      Collected(points[..|points| - 1], captures[..|captures| - 1]) +
        PointSamples(points[|points| - 1], captures[|captures| - 1])
  }

  /** No point yields more samples than it had captures. */
  lemma {:induction false} CollectedBound(points: seq<Point>, captures: seq<seq<Option<seq<real>>>>, perPoint: nat)
    requires |captures| == |points| && forall i :: 0 <= i < |captures| ==> |captures[i]| == perPoint
    ensures |Collected(points, captures)| <= |points| * perPoint
    decreases |points|
  {
    if points != [] {
      var n := |points|;
      assert forall i :: 0 <= i < n - 1 ==> captures[..n - 1][i] == captures[i];
      CollectedBound(points[..n - 1], captures[..n - 1], perPoint);
      assert |points| * perPoint == (n - 1) * perPoint + perPoint;
    }
  }

  /** The calibration flag after `calibrate`, as written: with more than 10
      samples the training runs, its failure handler clears the flag, and
      `calibrate` then sets it regardless; with 10 or fewer it keeps its old value. */
  function CalibratedAsWritten(samples: nat, trainOk: bool, wasCalibrated: bool): bool {
    if samples > 10 then true else wasCalibrated
  }

  /** The evident intent: the flag reports whether a model was actually trained. */
  function CalibratedAfter(samples: nat, trainOk: bool, wasCalibrated: bool): (c: bool)
    ensures samples > 10 ==> (c <==> trainOk)
    ensures samples <= 10 ==> c == wasCalibrated
  {
    if samples > 10 then trainOk else wasCalibrated
  }

  /** A failed training still reports the tracker calibrated. */
  lemma TrainingFailureReportedCalibrated()
    ensures CalibratedAsWritten(11, false, false)
    ensures !CalibratedAfter(11, false, false)
  {
  }

  /** Starting uncalibrated, the tracker is calibrated exactly when more than 10
      samples were collected and training succeeded. */
  lemma CalibratedOnlyWithTrainedModel(samples: nat, trainOk: bool)
    ensures CalibratedAfter(samples, trainOk, false) <==> samples > 10 && trainOk
  {
  }

  /** `np.clip(v, lo, hi)`: `min(max(v, lo), hi)`. */
  function Clip(v: real, lo: real, hi: real): (r: real)
    ensures lo <= hi ==> lo <= r <= hi
    ensures lo <= v <= hi ==> r == v
    ensures v > hi ==> r == hi
    ensures v < lo && lo <= hi ==> r == lo
  {
    var m := if v < lo then lo else v;
    if m > hi then hi else m
  }

  /** The calibrated gaze: the model's predictions clipped to [0, W] x [0, H]. */
  function CalibratedGaze(predX: real, predY: real, width: int, height: int): (g: (real, real))
    requires width >= 0 && height >= 0
    ensures 0.0 <= g.0 <= width as real && 0.0 <= g.1 <= height as real
    ensures 0.0 <= predX <= width as real && 0.0 <= predY <= height as real ==> g == (predX, predY)
  {
    (Clip(predX, 0.0, width as real), Clip(predY, 0.0, height as real))
  }

  /** A face-mesh landmark, in normalised image coordinates. */
  datatype Landmark = Landmark(x: real, y: real, z: real)

  function Abs(v: real): real {
    if v < 0.0 then -v else v
  }

  /** `_calculate_eye_openness`: the vertical span between the mean of landmarks 1
      and 2 and the mean of 5 and 6, over the horizontal span between 0 and 4;
      0 when the horizontal span is 0, and 0 when a landmark is missing (the
      lookup raises and the handler returns 0). */
  function EyeOpenness(landmarks: seq<Landmark>, eye: seq<nat>): (r: real)
    ensures r >= 0.0
  {
    if |eye| < 7 || exists k :: 0 <= k < 7 && k != 3 && eye[k] >= |landmarks| then 0.0
    else
      var top := (landmarks[eye[1]].y + landmarks[eye[2]].y) / 2.0;
      var bottom := (landmarks[eye[5]].y + landmarks[eye[6]].y) / 2.0;
      var horizontal := Abs(landmarks[eye[4]].x - landmarks[eye[0]].x);
      if horizontal > 0.0 then Abs(top - bottom) / horizontal else 0.0
  }

  /** `left_eye_open` and `right_eye_open`: open exactly when the ratio exceeds 0.02. */
  predicate EyeOpen(openness: real) {
    openness > 0.02
  }

  /** An eye whose corners share an x coordinate has openness 0 and counts as closed. */
  lemma ZeroSpanIsClosed(landmarks: seq<Landmark>, eye: seq<nat>)
    requires |eye| >= 7 && forall k :: 0 <= k < 7 && k != 3 ==> eye[k] < |landmarks|
    requires landmarks[eye[0]].x == landmarks[eye[4]].x
    ensures EyeOpenness(landmarks, eye) == 0.0 && !EyeOpen(EyeOpenness(landmarks, eye))
  {
  }

  /** A lid pair at one height gives openness 0 too. */
  lemma ShutLidIsClosed(landmarks: seq<Landmark>, eye: seq<nat>)
    requires |eye| >= 7 && forall k :: 0 <= k < 7 && k != 3 ==> eye[k] < |landmarks|
    requires landmarks[eye[1]].y + landmarks[eye[2]].y == landmarks[eye[5]].y + landmarks[eye[6]].y
    ensures !EyeOpen(EyeOpenness(landmarks, eye))
  {
  }

  class Calibration {
    const screenWidth: int
    const screenHeight: int

    var isCalibrated: bool
    /** The regression models are trained (`gaze_model_x` and `gaze_model_y`). */
    var modelsFitted: bool
    var calibrationData: seq<Sample>

    constructor(screenWidth: int, screenHeight: int)
      ensures this.screenWidth == screenWidth && this.screenHeight == screenHeight
      ensures !isCalibrated && !modelsFitted && calibrationData == []
    {
      this.screenWidth := screenWidth;
      this.screenHeight := screenHeight;
      isCalibrated := false;
      modelsFitted := false;
      calibrationData := [];
    }

    /** The points `calibrate` walks through: the given list, or the default grid. */
    function PointsOf(calibrationPoints: Option<seq<Point>>): seq<Point> {
      if calibrationPoints.None? then DefaultGrid(screenWidth, screenHeight) else calibrationPoints.value
    }

    /** `calibrate`: for every point, every capture that found a face adds a
        sample; with more than 10 samples the models are trained (`trainOk` says
        whether that succeeded) and the flag reports the result; with 10 or
        fewer nothing but the samples changes. */
    method Calibrate(calibrationPoints: Option<seq<Point>>, captures: seq<seq<Option<seq<real>>>>, trainOk: bool)
      requires |captures| == |PointsOf(calibrationPoints)|
      modifies this`calibrationData, this`isCalibrated, this`modelsFitted
      ensures calibrationData == Collected(PointsOf(calibrationPoints), captures)
      ensures isCalibrated == CalibratedAfter(|calibrationData|, trainOk, old(isCalibrated))
      ensures |calibrationData| > 10 ==> modelsFitted == trainOk
      ensures |calibrationData| <= 10 ==> modelsFitted == old(modelsFitted)
    {
      var points := PointsOf(calibrationPoints);
      calibrationData := [];
      var i := 0;
      while i < |points|
        invariant 0 <= i <= |points|
        invariant calibrationData == Collected(points[..i], captures[..i])
        invariant isCalibrated == old(isCalibrated) && modelsFitted == old(modelsFitted)
      {
        var pointSamples := CollectPoint(points[i], captures[i]);
        assert points[..i + 1][..i] == points[..i] && captures[..i + 1][..i] == captures[..i];
        if pointSamples != [] {
          calibrationData := calibrationData + pointSamples;
        } else {
          assert calibrationData + pointSamples == calibrationData;
        }
        i := i + 1;
      }
      assert points[..i] == points && captures[..i] == captures;
      if |calibrationData| > 10 {
        modelsFitted := trainOk;
        isCalibrated := trainOk;
      }
    }
  }

  /** The inner loop of `calibrate` for one point. */
  method CollectPoint(p: Point, captures: seq<Option<seq<real>>>) returns (samples: seq<Sample>)
    ensures samples == PointSamples(p, captures)
  {
    samples := [];
    var j := 0;
    while j < |captures|
      invariant 0 <= j <= |captures|
      invariant samples == PointSamples(p, captures[..j])
    {
      assert captures[..j + 1][..j] == captures[..j];
      if captures[j].Some? {
        samples := samples + [Sample(captures[j].value, p.x, p.y)];
      } else {
        assert samples + [] == samples;
      }
      j := j + 1;
    }
    assert captures[..j] == captures;
  }
}
