/** The microphone segmenter (hci_logger/trackers/audio_tracker.py, `AudioTracker`):
    chunks delivered by the input stream accumulate in the current segment; once
    the segment has lasted `segment_duration` seconds it is concatenated and put
    on a FIFO queue, and a writer drains the queue into files. `stop` enqueues
    the unfinished segment before it clears `running`, so the writer still saves
    it. Samples are opaque values; the clock is a parameter. */
module Audio {
  import opened Wrappers
  import opened Text

  /** One sample frame of the input stream. */
  type Frame = int

  /** A queued or saved segment: its frames and its start and end times. */
  datatype Segment = Segment(data: seq<Frame>, startTime: real, endTime: real)

  /** What `on_segment_callback` receives for a saved segment (the file size, read
      back from the file system, is not part of this model). */
  datatype SegmentInfo = SegmentInfo(
    sessionId: int,
    startTimestamp: real,
    endTimestamp: real,
    duration: real,
    filePath: string,
    sampleRate: int,
    channels: int)

  /** `np.concatenate(chunks, axis=0)`. */
  function Concat(chunks: seq<seq<Frame>>): seq<Frame> {
    if chunks == [] then [] else Concat(chunks[..|chunks| - 1]) + chunks[|chunks| - 1]
  }

  /** The frames of a run of segments, in order. */
  function Frames(segments: seq<Segment>): seq<Frame> {
    if segments == [] then [] else Frames(segments[..|segments| - 1]) + segments[|segments| - 1].data
  }

  lemma ConcatSnoc(chunks: seq<seq<Frame>>, c: seq<Frame>)
    ensures Concat(chunks + [c]) == Concat(chunks) + c
  {
    assert (chunks + [c])[..|chunks|] == chunks;
  }

  lemma FramesSnoc(segments: seq<Segment>, s: Segment)
    ensures Frames(segments + [s]) == Frames(segments) + s.data
  {
    assert (segments + [s])[..|segments|] == segments;
  }

  /** Taking the first segment off a queue takes its frames off the front. */
  lemma {:induction false} FramesUncons(segments: seq<Segment>)
    requires segments != []
    ensures Frames(segments) == segments[0].data + Frames(segments[1..])
    decreases |segments|
  {
    if |segments| > 1 {
      var init := segments[..|segments| - 1];
      FramesUncons(init);
      assert init[1..] == segments[1..][..|segments| - 2];
      assert init[0] == segments[0];
    } else {
      assert segments[..0] == [];
    }
  }

  /** The frames a tracker holds: taken by the writer, queued, and in the open segment. */
  function Heard(taken: seq<Segment>, queued: seq<Segment>, open: seq<Frame>): seq<Frame> {
    Frames(taken) + Frames(queued) + open
  }

  /** Appending a chunk to the open segment adds its frames at the end. */
  lemma ChunkKept(taken: seq<Segment>, queued: seq<Segment>, current: seq<seq<Frame>>, chunk: seq<Frame>)
    ensures Heard(taken, queued, Concat(current + [chunk])) == Heard(taken, queued, Concat(current)) + chunk
  {
    var before := Frames(taken) + Frames(queued);
    calc {
      Heard(taken, queued, Concat(current + [chunk]));
      before + Concat(current + [chunk]);
      { ConcatSnoc(current, chunk); }
      before + (Concat(current) + chunk);
      (before + Concat(current)) + chunk;
    }
  }

  /** Queueing the open segment moves its frames, unchanged, to the end of the queue. */
  lemma SegmentQueued(taken: seq<Segment>, queued: seq<Segment>, current: seq<seq<Frame>>, start: real, now: real)
    ensures Heard(taken, queued + [Segment(Concat(current), start, now)], []) == Heard(taken, queued, Concat(current))
  {
    var seg := Segment(Concat(current), start, now);
    calc {
      Heard(taken, queued + [seg], []);
      (Frames(taken) + Frames(queued + [seg])) + [];
      Frames(taken) + Frames(queued + [seg]);
      { FramesSnoc(queued, seg); }
      Frames(taken) + (Frames(queued) + seg.data);
      (Frames(taken) + Frames(queued)) + Concat(current);
    }
  }

  /** The writer taking the oldest queued segment moves its frames from the queue to the taken ones. */
  lemma SegmentTaken(taken: seq<Segment>, queued: seq<Segment>, open: seq<Frame>)
    requires queued != []
    ensures Heard(taken + [queued[0]], queued[1..], open) == Heard(taken, queued, open)
  {
    var first := queued[0];
    calc {
      Heard(taken + [first], queued[1..], open);
      (Frames(taken + [first]) + Frames(queued[1..])) + open;
      { FramesSnoc(taken, first); }
      ((Frames(taken) + first.data) + Frames(queued[1..])) + open;
      (Frames(taken) + (first.data + Frames(queued[1..]))) + open;
      { FramesUncons(queued); }
      (Frames(taken) + Frames(queued)) + open;
    }
  }

  lemma {:induction false} FramesAppend(a: seq<Segment>, b: seq<Segment>)
    ensures Frames(a + b) == Frames(a) + Frames(b)
    decreases |b|
  {
    if b == [] {
      assert a + b == a;
    } else {
      var init, last := b[..|b| - 1], b[|b| - 1];
      assert a + b == (a + init) + [last];
      assert init + [last] == b;
      calc {
        Frames(a + b);
        { FramesSnoc(a + init, last); }
        Frames(a + init) + last.data;
        { FramesAppend(a, init); }
        (Frames(a) + Frames(init)) + last.data;
        Frames(a) + (Frames(init) + last.data);
        { FramesSnoc(init, last); }
        Frames(a) + Frames(b);
      }
    }
  }

  /** The open segment's frames come after everything taken and queued. */
  lemma OpenHeard(taken: seq<Segment>, queued: seq<Segment>, open: seq<Frame>)
    ensures Heard(taken, queued, open) == Heard(taken, queued, []) + open
  {
    assert (Frames(taken) + Frames(queued)) + [] == Frames(taken) + Frames(queued);
  }

  /** Draining the whole queue moves all its frames, in order, to the taken ones. */
  lemma DrainKeepsHeard(taken: seq<Segment>, queued: seq<Segment>, open: seq<Frame>)
    ensures Heard(taken + queued, [], open) == Heard(taken, queued, open)
  {
    calc {
      Heard(taken + queued, [], open);
      (Frames(taken + queued) + []) + open;
      { assert Frames(taken + queued) + [] == Frames(taken + queued); }
      Frames(taken + queued) + open;
      { FramesAppend(taken, queued); }
      (Frames(taken) + Frames(queued)) + open;
    }
  }

  /** With nothing taken and no open segment, a tracker holds the frames of its queue. */
  lemma QueueHeard(queued: seq<Segment>)
    ensures Heard([], queued, []) == Frames(queued)
  {
    assert Heard([], queued, []) == ([] + Frames(queued)) + [];
  }

  /** `n` successful writes. */
  function AllTrue(n: nat): (r: seq<bool>)
    ensures |r| == n && forall i :: 0 <= i < n ==> r[i]
  {
    if n == 0 then [] else AllTrue(n - 1) + [true]
  }

  /** The segments a run of writes put on disk: those whose write succeeded. */
  function Succeeded(segments: seq<Segment>, ok: seq<bool>): (r: seq<Segment>)
    requires |ok| == |segments|
    ensures |r| <= |segments|
  {
    if segments == [] then []
    else Succeeded(segments[..|segments| - 1], ok[..|ok| - 1]) +
         (if ok[|ok| - 1] then [segments[|segments| - 1]] else [])
  }

  /** When every write succeeds, every dequeued segment is on disk, in queue order. */
  lemma {:induction false} AllWritesSucceed(segments: seq<Segment>, ok: seq<bool>)
    requires |ok| == |segments| && forall i :: 0 <= i < |ok| ==> ok[i]
    ensures Succeeded(segments, ok) == segments
    decreases |segments|
  {
    if segments != [] {
      AllWritesSucceed(segments[..|segments| - 1], ok[..|ok| - 1]);
    }
  }

  lemma SucceededSnoc(segments: seq<Segment>, ok: seq<bool>, s: Segment, b: bool)
    requires |ok| == |segments|
    ensures Succeeded(segments + [s], ok + [b]) == Succeeded(segments, ok) + (if b then [s] else [])
  {
    assert (segments + [s])[..|segments|] == segments;
    assert (ok + [b])[..|ok|] == ok;
  }

  /** One more pass of the writer over a queue `q`: the taken segments, the
      outcomes and what is left of the queue each move on by one. */
  lemma DrainStep(q: seq<Segment>, ok: seq<bool>, i: nat, saved0: seq<Segment>, taken0: seq<Segment>)
    requires |ok| == |q| && i < |q|
    ensures saved0 + Succeeded(q[..i + 1], ok[..i + 1]) ==
            (saved0 + Succeeded(q[..i], ok[..i])) + (if ok[i] then [q[i]] else [])
    ensures taken0 + q[..i + 1] == (taken0 + q[..i]) + [q[i]]
    ensures q[i..] != [] && q[i..][0] == q[i] && q[i..][1..] == q[i + 1..]
  {
    assert q[..i + 1] == q[..i] + [q[i]];
    assert ok[..i + 1] == ok[..i] + [ok[i]];
    SucceededSnoc(q[..i], ok[..i], q[i], ok[i]);
    var done := Succeeded(q[..i], ok[..i]);
    var more: seq<Segment> := if ok[i] then [q[i]] else [];
    assert saved0 + (done + more) == (saved0 + done) + more;
    assert taken0 + (q[..i] + [q[i]]) == (taken0 + q[..i]) + [q[i]];
  }

  /** `audio_{session}_{int(start)}.wav`. */
  function SegmentFileName(sessionId: int, startTime: real): string {
    ("audio_" + IntToString(sessionId) + "_") + IntToString(Trunc(startTime)) + ".wav"
  }

  /** Two segments of one session get the same file name exactly when they
      started in the same second. */
  lemma SegmentFileNameSameSecond(sessionId: int, t1: real, t2: real)
    ensures SegmentFileName(sessionId, t1) == SegmentFileName(sessionId, t2) <==> Trunc(t1) == Trunc(t2)
  {
    MiddleDetermines("audio_" + IntToString(sessionId) + "_", IntToString(Trunc(t1)), IntToString(Trunc(t2)), ".wav");
    IntToStringInjective(Trunc(t1), Trunc(t2));
  }

  /** Segments that start at least a second apart (at non-negative times) get
      different file names. */
  lemma SegmentsSecondApartNamedApart(sessionId: int, t1: real, t2: real)
    requires 0.0 <= t1 && t1 + 1.0 <= t2
    ensures SegmentFileName(sessionId, t1) != SegmentFileName(sessionId, t2)
  {
    SegmentFileNameSameSecond(sessionId, t1, t2);
  }

  /** The callback record of `_save_segment`. */
  function InfoOf(sessionId: int, outputDir: string, sampleRate: int, channels: int, s: Segment): (info: SegmentInfo)
    ensures info.duration == s.endTime - s.startTime
    ensures info.startTimestamp == s.startTime && info.endTimestamp == s.endTime
    ensures info.filePath == outputDir + "/" + SegmentFileName(sessionId, s.startTime)
  {
    SegmentInfo(sessionId, s.startTime, s.endTime, s.endTime - s.startTime,
                outputDir + "/" + SegmentFileName(sessionId, s.startTime), sampleRate, channels)
  }

  class AudioTracker {
    const sessionId: int
    const outputDir: string
    const segmentDuration: int
    const sampleRate: int
    const channels: int

    var running: bool
    /** The input stream is open and delivers chunks. */
    var streamOpen: bool
    var segmentsCaptured: nat
    /** `audio_buffer`, front first. */
    var queue: seq<Segment>
    /** `current_segment`: the chunks since the segment started. */
    var currentSegment: seq<seq<Frame>>
    var segmentStartTime: Option<real>
    /** The segments written to disk, in write order. */
    var saved: seq<Segment>
    /** What `on_segment_callback` received, in order. */
    var notified: seq<SegmentInfo>
    /** Every segment the writer has taken off the queue, and whether its write succeeded. */
    ghost var dequeued: seq<Segment>
    ghost var writeOk: seq<bool>

    ghost predicate Valid()
      reads this`saved, this`dequeued, this`writeOk, this`segmentsCaptured
    {
      && |writeOk| == |dequeued|
      && saved == Succeeded(dequeued, writeOk)
      && segmentsCaptured == |saved|
    }

    /** Every frame the stream has delivered, in delivery order: what the writer
        has taken, then what is queued, then (while the stream is open) the
        unfinished segment. */
    ghost function Received(): seq<Frame>
      reads this`dequeued, this`queue, this`streamOpen, this`currentSegment
    {
      Heard(dequeued, queue, if streamOpen then Concat(currentSegment) else [])
    }

    constructor(sessionId: int, outputDir: string, segmentDuration: int, sampleRate: int, channels: int)
      ensures Valid()
      ensures this.sessionId == sessionId && this.outputDir == outputDir && this.segmentDuration == segmentDuration
      ensures this.sampleRate == sampleRate && this.channels == channels
      ensures !running && !streamOpen && segmentsCaptured == 0 && queue == [] && currentSegment == []
      ensures segmentStartTime == None && saved == [] && notified == [] && Received() == []
    {
      this.sessionId := sessionId;
      this.outputDir := outputDir;
      this.segmentDuration := segmentDuration;
      this.sampleRate := sampleRate;
      this.channels := channels;
      running := false;
      streamOpen := false;
      segmentsCaptured := 0;
      queue := [];
      currentSegment := [];
      segmentStartTime := None;
      saved := [];
      notified := [];
      dequeued := [];
      writeOk := [];
    }

    /** `start` on a fresh tracker: the segment clock starts at `now`; when the
        device cannot be opened (`streamOk` false) `running` is cleared again and
        the call fails. */
    method Start(now: real, streamOk: bool) returns (ok: bool)
      requires Valid() && !streamOpen
      modifies this`running, this`streamOpen, this`segmentStartTime
      ensures Valid()
      ensures ok == streamOk && running == streamOk && streamOpen == streamOk
      ensures segmentStartTime == Some(now) && currentSegment == old(currentSegment)
      ensures streamOk ==> Received() == old(Received()) + Concat(currentSegment)
      ensures !streamOk ==> Received() == old(Received())
    {
      OpenHeard(dequeued, queue, Concat(currentSegment));
      running := true;
      segmentStartTime := Some(now);
      if streamOk {
        streamOpen := true;
      } else {
        running := false;
      }
      ok := streamOk;
    }

    /** `_audio_callback`: append the chunk; once `now` is `segment_duration` or more
        past the segment start, queue the whole segment (start to `now`) and begin
        a new one at `now`. No frame is lost or repeated. */
    method AudioCallback(chunk: seq<Frame>, now: real)
      requires Valid() && streamOpen && segmentStartTime.Some?
      modifies this`queue, this`currentSegment, this`segmentStartTime
      ensures Valid()
      ensures Received() == old(Received()) + chunk
      ensures now - old(segmentStartTime).value >= segmentDuration as real ==>
                && queue == old(queue) + [Segment(Concat(old(currentSegment) + [chunk]), old(segmentStartTime).value, now)]
                && currentSegment == [] && segmentStartTime == Some(now)
      ensures now - old(segmentStartTime).value < segmentDuration as real ==>
                queue == old(queue) && currentSegment == old(currentSegment) + [chunk]
                && segmentStartTime == old(segmentStartTime)
    {
      ChunkKept(dequeued, queue, currentSegment, chunk);
      currentSegment := currentSegment + [chunk];
      var start := segmentStartTime.value;
      if now - start >= segmentDuration as real {
        SegmentQueued(dequeued, queue, currentSegment, start, now);
        queue := queue + [Segment(Concat(currentSegment), start, now)];
        currentSegment := [];
        segmentStartTime := Some(now);
      }
    }

    /** `_save_segment`: on a successful write (`writeSucceeded`) the segment is on
        disk, the callback gets its record and the counter rises; a failed write
        is logged and changes nothing. */
    method SaveSegment(s: Segment, writeSucceeded: bool)
      requires Valid()
      modifies this`saved, this`notified, this`segmentsCaptured, this`dequeued, this`writeOk
      ensures Valid()
      ensures dequeued == old(dequeued) + [s] && writeOk == old(writeOk) + [writeSucceeded]
      ensures saved == old(saved) + (if writeSucceeded then [s] else [])
      ensures segmentsCaptured == old(segmentsCaptured) + (if writeSucceeded then 1 else 0)
      ensures notified == old(notified) + (if writeSucceeded then [InfoOf(sessionId, outputDir, sampleRate, channels, s)] else [])
    {
      SucceededSnoc(dequeued, writeOk, s, writeSucceeded);
      dequeued := dequeued + [s];
      writeOk := writeOk + [writeSucceeded];
      if writeSucceeded {
        saved := saved + [s];
        notified := notified + [InfoOf(sessionId, outputDir, sampleRate, channels, s)];
        segmentsCaptured := segmentsCaptured + 1;
      }
    }

    /** One pass of `_writer_loop`: take the oldest queued segment, if any, and save it. */
    method WriterStep(writeSucceeded: bool)
      requires Valid()
      modifies this`queue, this`saved, this`notified, this`segmentsCaptured, this`dequeued, this`writeOk
      ensures Valid() && Received() == old(Received())
      ensures old(queue) != [] ==>
                && queue == old(queue)[1..] && dequeued == old(dequeued) + [old(queue)[0]]
                && saved == old(saved) + (if writeSucceeded then [old(queue)[0]] else [])
      ensures old(queue) == [] ==> queue == [] && saved == old(saved) && dequeued == old(dequeued)
    {
      if queue != [] {
        var s := queue[0];
        ghost var open := if streamOpen then Concat(currentSegment) else [];
        SegmentTaken(dequeued, queue, open);
        queue := queue[1..];
        SaveSegment(s, writeSucceeded);
        assert Received() == Heard(dequeued, queue, open);
      }
    }

    /** `_writer_loop` once `running` is false: it keeps going while the queue is
        non-empty, so every queued segment is taken, oldest first; with every write
        succeeding, all of them are on disk in queue order. */
    method WriterLoop(writesSucceed: seq<bool>)
      requires Valid() && !running && |writesSucceed| == |queue|
      modifies this`queue, this`saved, this`notified, this`segmentsCaptured, this`dequeued, this`writeOk
      ensures Valid() && Received() == old(Received())
      ensures queue == [] && dequeued == old(dequeued) + old(queue)
      ensures saved == old(saved) + Succeeded(old(queue), writesSucceed)
    {
      ghost var q0, saved0, taken0 := queue, saved, dequeued;
      var i := 0;
      while running || queue != []
        invariant Valid()
        invariant 0 <= i <= |q0| && queue == q0[i..]
        invariant saved == saved0 + Succeeded(q0[..i], writesSucceed[..i])
        invariant dequeued == taken0 + q0[..i]
        decreases |queue|
      {
        DrainStep(q0, writesSucceed, i, saved0, taken0);
        WriterStep(writesSucceed[i]);
        i := i + 1;
      }
      assert q0[..i] == q0 && writesSucceed[..i] == writesSucceed;
      DrainKeepsHeard(taken0, q0, if streamOpen then Concat(currentSegment) else []);
    }

    /** `stop`: close the stream, queue the unfinished segment if it holds any
        chunk (ending at `now`), and only then clear `running`. The unfinished
        segment is not cleared, so on a tracker whose stream was already closed
        its frames are queued a second time. */
    method Stop(now: real)
      requires Valid() && (currentSegment != [] ==> segmentStartTime.Some?)
      modifies this`streamOpen, this`queue, this`running
      ensures Valid() && !running && !streamOpen
      ensures currentSegment != [] ==>
                queue == old(queue) + [Segment(Concat(currentSegment), segmentStartTime.value, now)]
      ensures currentSegment == [] ==> queue == old(queue)
      ensures old(streamOpen) ==> Received() == old(Received())
      ensures !old(streamOpen) ==> Received() == old(Received()) + Concat(currentSegment)
    {
      OpenHeard(dequeued, queue, Concat(currentSegment));
      streamOpen := false;
      if currentSegment != [] {
        SegmentQueued(dequeued, queue, currentSegment, segmentStartTime.value, now);
        queue := queue + [Segment(Concat(currentSegment), segmentStartTime.value, now)];
      }
      running := false;
    }
  }

  /** Start a fresh tracker and deliver the chunks, one callback each: the
      tracker has taken in exactly the chunks' frames, in order. */
  method Listen(t: AudioTracker, chunks: seq<seq<Frame>>, times: seq<real>)
    requires t.Valid() && !t.streamOpen && t.currentSegment == [] && t.queue == [] && t.dequeued == []
    requires |times| == |chunks| && |times| > 0
    modifies t`running, t`streamOpen, t`segmentStartTime, t`queue, t`currentSegment
    ensures t.Valid() && t.streamOpen && t.segmentStartTime.Some?
    ensures t.Received() == Concat(chunks)
  {
    var ok := t.Start(times[0], true);
    var i := 0;
    while i < |chunks|
      invariant 0 <= i <= |chunks|
      invariant t.Valid() && t.streamOpen && t.segmentStartTime.Some? && t.dequeued == []
      invariant t.Received() == Concat(chunks[..i])
    {
      ConcatSnoc(chunks[..i], chunks[i]);
      assert chunks[..i + 1] == chunks[..i] + [chunks[i]];
      t.AudioCallback(chunks[i], times[i]);
      i := i + 1;
    }
    assert chunks[..i] == chunks;
  }

  /** Stop a listening tracker whose writer has taken nothing yet, and let the
      writer drain the queue with every write succeeding: everything the tracker
      had taken in is saved, in order, the unfinished segment last. */
  method StopAndDrain(t: AudioTracker, stopAt: real)
    requires t.Valid() && t.streamOpen && t.segmentStartTime.Some? && t.dequeued == []
    modifies t`running, t`streamOpen, t`queue
    modifies t`saved, t`notified, t`segmentsCaptured, t`dequeued, t`writeOk
    ensures t.Valid() && !t.running && t.queue == []
    ensures Frames(t.saved) == old(t.Received())
  {
    t.Stop(stopAt);
    ghost var drained := t.queue;
    assert t.Received() == Heard([], drained, []);
    QueueHeard(drained);
    var allOk := AllTrue(|t.queue|);
    AllWritesSucceed(drained, allOk);
    t.WriterLoop(allOk);
    assert t.saved == [] + drained;
  }

  /** A whole recording on a fresh tracker: the chunks as they arrive, stop, and
      the writer draining the queue with every write succeeding. The saved
      segments hold exactly the delivered frames, in order: the unfinished
      segment is not lost at stop. */
  method RecordAll(t: AudioTracker, chunks: seq<seq<Frame>>, times: seq<real>, stopAt: real)
    requires t.Valid() && !t.streamOpen && t.currentSegment == [] && t.queue == [] && t.dequeued == []
    requires |times| == |chunks| && |times| > 0
    modifies t`running, t`streamOpen, t`segmentStartTime, t`queue, t`currentSegment
    modifies t`saved, t`notified, t`segmentsCaptured, t`dequeued, t`writeOk
    ensures t.Valid() && !t.running && t.queue == []
    ensures Frames(t.saved) == Concat(chunks)
  {
    Listen(t, chunks, times);
    StopAndDrain(t, stopAt);
  }
}
