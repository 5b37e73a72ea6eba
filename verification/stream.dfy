/** The control loop of `video_generator` (detector.py:127-214) as a pure
    step function.

    Everything the loop learns from the outside world arrives as an event:
    the stop flag found set at the top of an iteration, a frame read and
    encoded, a frame read whose encoding failed, a failed read, the outcome
    of reopening the capture, or an exception escaping the loop body. The
    session state is what the loop keeps between iterations plus a log of
    what it did to the outside world: the chunks it yielded, the alerts it
    raised and the capture operations it performed. */
module Stream {
  import opened Geometry
  import opened IouTracking
  import opened Policy

  // ---------------------------------------------------------------------------
  // Inputs.
  // ---------------------------------------------------------------------------

  /** One box reported by the detector: real corners and a class name. */
  datatype Detection = Detection(x1: real, y1: real, x2: real, y2: real, name: string)

  /** A frame as the detector sees it, with the clock reading taken while it
      is processed. */
  datatype Frame = Frame(detections: seq<Detection>, now: real)

  /** What the loop observes next. While streaming: `Stop` (the stop flag is
      set), `ReadOk` / `EncodeFail` (a frame was read and its annotated image
      was or was not encoded), `ReadFail`, or `Exception`. While reconnecting:
      `ReopenOk` or `ReopenFail`. An event the current phase cannot observe
      is skipped. */
  datatype Event =
    | Stop
    | ReadOk(frame: Frame)
    | EncodeFail(frame: Frame)
    | ReadFail
    | ReopenOk
    | ReopenFail
    | Exception

  // ---------------------------------------------------------------------------
  // State.
  // ---------------------------------------------------------------------------

  /** Effects on the video capture: a successful open, an open that failed
      with every backend, a release. */
  datatype CaptureOp = Opened | OpenFailed | Released

  datatype EndReason = NoModel | OpenFailure | Stopped | EndOfStream | ReconnectFailed | Failed

  /** At the top of the loop, between a failed read and the reopen outcome,
      or finished. */
  datatype Phase = Streaming | Reconnecting | Ended(reason: EndReason)

  /** A yielded multipart chunk: the blank placeholder image, or the
      annotated image of a frame. */
  datatype Chunk = Placeholder | Annotated(frame: Frame)

  /** A logged violation: when, how many tracked persons, how many
      helmet-or-no-helmet detections (detector.py:192). */
  datatype Alert = Alert(time: real, persons: nat, detections: nat)

  datatype Session = Session(
    phase: Phase,
    tracker: Tracker,
    personCount: nat,
    lastAlert: real,
    alerts: seq<Alert>,
    emitted: seq<Chunk>,
    capture: seq<CaptureOp>)

  /** The module-level state the generator writes: `global_tracker`,
      `global_metrics["person_count"]` and `global_stop_flag`. */
  datatype Globals = Globals(tracker: Tracker, personCount: nat, stopFlag: bool)

  /** Everything one call of the generator leaves behind. */
  datatype Outcome = Outcome(
    globals: Globals,
    phase: Phase,
    emitted: seq<Chunk>,
    alerts: seq<Alert>,
    capture: seq<CaptureOp>)

  // ---------------------------------------------------------------------------
  // Sources.
  // ---------------------------------------------------------------------------

  const FiniteSuffixes: seq<string> := [".mp4", ".avi", ".mov", ".jpg", ".png"]

  predicate EndsWith(s: string, suffix: string)
  {
    |suffix| <= |s| && s[|s| - |suffix|..] == suffix
  }

  /** A source that is a file, recognised by its (case-sensitive) suffix
      (detector.py:157): a failed read on it means the stream is over. */
  predicate IsFiniteSource(source: string)
  {
    exists k :: 0 <= k < |FiniteSuffixes| && EndsWith(source, FiniteSuffixes[k])
  }

  /** Every suffix has four characters, so a source is finite exactly when
      its last four characters are one of them. */
  lemma FiniteSourceByLastFour(source: string)
    ensures IsFiniteSource(source) <==>
              |source| >= 4 && source[|source| - 4..] in FiniteSuffixes
  {
    if |source| >= 4 && source[|source| - 4..] in FiniteSuffixes {
      var k :| 0 <= k < |FiniteSuffixes| && FiniteSuffixes[k] == source[|source| - 4..];
      assert EndsWith(source, FiniteSuffixes[k]);
    }
  }

  /** The suffix test is case-sensitive, and a camera URL is never finite. */
  lemma FiniteSourceExamples()
    ensures IsFiniteSource("site/clip.mp4")
    ensures !IsFiniteSource("site/clip.MP4")
    ensures !IsFiniteSource("rtsp://10.1.3.87/analytic/media.smp")
  {
    assert EndsWith("site/clip.mp4", FiniteSuffixes[0]);
    FiniteSourceByLastFour("site/clip.MP4");
    FiniteSourceByLastFour("rtsp://10.1.3.87/analytic/media.smp");
  }

  // ---------------------------------------------------------------------------
  // One processed frame (detector.py:168-206).
  // ---------------------------------------------------------------------------

  /** Every detection's box, truncated to integers, whatever its label. */
  function BoxesOf(ds: seq<Detection>): (boxes: seq<Box>)
    ensures |boxes| == |ds|
  {
    seq(|ds|, i requires 0 <= i < |ds| => TruncBox(ds[i].x1, ds[i].y1, ds[i].x2, ds[i].y2))
  }

  function LabelsOf(ds: seq<Detection>): (labels: seq<string>)
    ensures |labels| == |ds|
  {
    seq(|ds|, i requires 0 <= i < |ds| => ds[i].name)
  }

  /** Count the labels, update the tracker with every box, publish the
      person count, raise an alert when the cooldown policy says so, and
      yield the annotated frame when it was encoded. */
  function Process(s: Session, f: Frame, encoded: bool): (r: Session)
    ensures r.phase == s.phase && r.capture == s.capture
    ensures var u := Update(s.tracker, BoxesOf(f.detections));
            r.tracker == u.tracker && r.personCount == |u.mapping|
    ensures |f.detections| <= r.personCount <= |s.tracker.tracks| + |f.detections|
    ensures r.emitted == s.emitted + (if encoded then [Annotated(f)] else [])
    ensures var c := Tally(LabelsOf(f.detections));
            && (|r.alerts| == |s.alerts| + 1 <==> c.noHelmet > 0 && f.now - s.lastAlert > AlertCooldown)
            && (|r.alerts| == |s.alerts| + 1 ==>
                  r.alerts[|s.alerts|] == Alert(f.now, r.personCount, c.helmet + c.noHelmet)
                  && r.lastAlert == f.now)
            && (|r.alerts| == |s.alerts| ==> r.lastAlert == s.lastAlert)
            && s.alerts <= r.alerts && |r.alerts| <= |s.alerts| + 1
  {
    var c := Tally(LabelsOf(f.detections));
    var boxes := BoxesOf(f.detections);
    var u := Update(s.tracker, boxes);
    UpdateSizeBounds(s.tracker, boxes);
    var d := Decide(c, f.now, s.lastAlert, AlertCooldown);
    s.(tracker := u.tracker,
       personCount := |u.mapping|,
       lastAlert := d.lastAlert,
       alerts := s.alerts + (if d.fire then [Alert(f.now, |u.mapping|, c.helmet + c.noHelmet)] else []),
       emitted := s.emitted + (if encoded then [Annotated(f)] else []))
  }

  /** One person seen in two frames, the second box overlapping the first
      with IoU 0.9, is counted once: the published person count is 1. */
  lemma OverlapCountsOnePerson(g: Globals, blankEncodes: bool, source: string)
    ensures var a := Detection(0.0, 0.0, 10.0, 10.0, "Person");
            var b := Detection(0.0, 0.0, 10.0, 9.0, "Person");
            var events := [ReadOk(Frame([a], 1.0)), ReadOk(Frame([b], 2.0))];
            Generate(g, true, blankEncodes, true, source, events).globals.personCount == 1
  {
    var a := Detection(0.0, 0.0, 10.0, 10.0, "Person");
    var b := Detection(0.0, 0.0, 10.0, 9.0, "Person");
    var f1, f2 := Frame([a], 1.0), Frame([b], 2.0);
    var events := [ReadOk(f1), ReadOk(f2)];
    assert BoxesOf(f1.detections) == [Box(0, 0, 10, 10)];
    assert BoxesOf(f2.detections) == [Box(0, 0, 10, 9)];
    var s1 := StepGoodFrame(source, Start(), f1);
    var s2 := Process(s1, f2, true);
    OverlapKeepsIdentityExample();
    assert s2.personCount == 1;
    RunUnfold(source, Start(), events);
    assert events[1..] == [ReadOk(f2)];
    RunUnfold(source, s1, [ReadOk(f2)]);
    assert Run(source, Start(), events) == s2;
  }

  /** Labels decide alerts only: two frames with the same boxes drive the
      tracker and the person count identically. */
  lemma LabelsDoNotAffectTracking(s: Session, f: Frame, g: Frame, encoded: bool)
    requires |f.detections| == |g.detections|
    requires forall i :: 0 <= i < |f.detections| ==>
               f.detections[i].(name := "") == g.detections[i].(name := "")
    ensures Process(s, f, encoded).tracker == Process(s, g, encoded).tracker
    ensures Process(s, f, encoded).personCount == Process(s, g, encoded).personCount
  {
    assert BoxesOf(f.detections) == BoxesOf(g.detections) by {
      forall i | 0 <= i < |f.detections|
        ensures BoxesOf(f.detections)[i] == BoxesOf(g.detections)[i]
      {
        assert f.detections[i].(name := "") == g.detections[i].(name := "");
      }
    }
  }

  // ---------------------------------------------------------------------------
  // The loop.
  // ---------------------------------------------------------------------------

  /** Leave the loop, releasing the capture (detector.py:212-213). */
  function Finish(s: Session, reason: EndReason): Session
  {
    s.(phase := Ended(reason), capture := s.capture + [Released])
  }

  /** One observation of the loop. */
  function Step(source: string, s: Session, e: Event): (r: Session)
    ensures s.phase.Ended? ==> r == s
    ensures s.emitted <= r.emitted && |r.emitted| <= |s.emitted| + 1
    ensures s.alerts <= r.alerts && |r.alerts| <= |s.alerts| + 1
    ensures s.capture <= r.capture
  {
    match s.phase
    case Ended(_) => s
    case Streaming =>
      (match e
       case Stop => Finish(s, Stopped)
       case ReadFail =>
         if IsFiniteSource(source) then Finish(s, EndOfStream)
         else s.(phase := Reconnecting, capture := s.capture + [Released])
       case ReadOk(f) => Process(s, f, true)
       case EncodeFail(f) => Process(s, f, false)
       case Exception => Finish(s, Failed)
       case _ => s)
    case Reconnecting =>
      (match e
       case ReopenOk => s.(phase := Streaming, capture := s.capture + [Opened])
       case ReopenFail => s.(phase := Ended(ReconnectFailed), capture := s.capture + [OpenFailed])
       case _ => s)
  }

  /** The loop fed a sequence of observations. */
  function Run(source: string, s: Session, events: seq<Event>): (r: Session)
    ensures s.emitted <= r.emitted && |r.emitted| <= |s.emitted| + |events|
    ensures s.alerts <= r.alerts
    ensures s.capture <= r.capture
    decreases |events|
  {
    if |events| == 0 then s else Run(source, Step(source, s, events[0]), events[1..])
  }

  /** The session right after a successful open (detector.py:138-145). */
  function Start(): (s: Session)
    ensures s.phase == Streaming && s.capture == [Opened]
    ensures Valid(s.tracker) && s.tracker.tracks == [] && s.tracker.nextId == 0
    ensures s.alerts == [] && s.emitted == [] && s.personCount == 0
    ensures s.lastAlert == 0.0
    ensures s.tracker == New(DefaultMaxLost, DefaultIouThresh)
  {
    Session(Streaming, New(DefaultMaxLost, DefaultIouThresh), 0, 0.0, [], [], [Opened])
  }

  /** One call of the generator. Whether the model loaded, whether the blank
      placeholder encoded and whether the first open succeeded (`openOk`) are given. */
  function Generate(g: Globals, modelLoaded: bool, blankEncodes: bool, openOk: bool,
                    source: string, events: seq<Event>): (o: Outcome)
    ensures !modelLoaded ==>
              && o.globals == g && o.capture == [] && o.alerts == []
              && |o.emitted| <= 1 && (forall c :: c in o.emitted ==> c == Placeholder)
    ensures modelLoaded && !openOk ==>
              o.globals == g && o.emitted == [] && o.alerts == [] && o.capture == [OpenFailed]
    ensures o.phase.Ended? <==> !modelLoaded || !openOk || Run(source, Start(), events).phase.Ended?
  {
    if !modelLoaded then
      Outcome(g, Ended(NoModel), if blankEncodes then [Placeholder] else [], [], [])
    else if !openOk then
      Outcome(g, Ended(OpenFailure), [], [], [OpenFailed])
    else
      var s := Run(source, Start(), events);
      Outcome(Globals(s.tracker, s.personCount, s.phase == Ended(Stopped)),
              s.phase, s.emitted, s.alerts, s.capture)
  }

  // ---------------------------------------------------------------------------
  // Loop control.
  // ---------------------------------------------------------------------------

  /** Once finished, the loop ignores everything that follows. */
  lemma {:induction false} RunEnded(source: string, s: Session, events: seq<Event>)
    requires s.phase.Ended?
    ensures Run(source, s, events) == s
    decreases |events|
  {
    if |events| > 0 {
      RunEnded(source, Step(source, s, events[0]), events[1..]);
    }
  }

  /** A set stop flag ends the session before any read: nothing is tracked,
      yielded or alerted, and the capture is released. */
  lemma StopEndsSession(source: string, s: Session, rest: seq<Event>)
    requires s.phase == Streaming
    ensures Run(source, s, [Stop] + rest) ==
              s.(phase := Ended(Stopped), capture := s.capture + [Released])
  {
    assert ([Stop] + rest)[1..] == rest;
    RunEnded(source, Finish(s, Stopped), rest);
  }

  /** A failed read on a file source ends the stream without reopening. */
  lemma FiniteReadFailEnds(source: string, s: Session, rest: seq<Event>)
    requires s.phase == Streaming && IsFiniteSource(source)
    ensures Run(source, s, [ReadFail] + rest) ==
              s.(phase := Ended(EndOfStream), capture := s.capture + [Released])
  {
    assert ([ReadFail] + rest)[1..] == rest;
    RunEnded(source, Finish(s, EndOfStream), rest);
  }

  /** A failed read on a live source releases the capture and reopens it
      exactly once; the session goes on if the reopen succeeds. Tracker,
      count, alerts and output are untouched. */
  lemma LiveReadFailReopens(source: string, s: Session)
    requires s.phase == Streaming && !IsFiniteSource(source)
    ensures Run(source, s, [ReadFail, ReopenOk]) ==
              s.(capture := s.capture + [Released, Opened])
  {
    var mid := LiveReadFail(source, s);
    var es := [ReadFail, ReopenOk];
    assert es[1..] == [ReopenOk];
    assert Run(source, s, es) == Run(source, mid, [ReopenOk]);
    assert Run(source, mid, [ReopenOk]) == Step(source, mid, ReopenOk);
    assert mid.capture + [Opened] == s.capture + [Released, Opened];
  }

  /** If the reopen fails the session ends, with nothing left to release. */
  lemma LiveReadFailGivesUp(source: string, s: Session, rest: seq<Event>)
    requires s.phase == Streaming && !IsFiniteSource(source)
    ensures Run(source, s, [ReadFail, ReopenFail] + rest) ==
              s.(phase := Ended(ReconnectFailed), capture := s.capture + [Released, OpenFailed])
  {
    var mid := LiveReadFail(source, s);
    var es := [ReadFail, ReopenFail] + rest;
    assert es[0] == ReadFail && es[1..][0] == ReopenFail && es[1..][1..] == rest;
    var fin := Step(source, mid, ReopenFail);
    assert Run(source, s, es) == Run(source, mid, es[1..]);
    assert Run(source, mid, es[1..]) == Run(source, fin, rest);
    assert fin.capture == s.capture + [Released, OpenFailed];
    RunEnded(source, fin, rest);
  }

  /** The state between a failed read on a live source and the reopen. */
  lemma LiveReadFail(source: string, s: Session) returns (mid: Session)
    requires s.phase == Streaming && !IsFiniteSource(source)
    ensures mid == Step(source, s, ReadFail)
    ensures mid == s.(phase := Reconnecting, capture := s.capture + [Released])
  {
    mid := s.(phase := Reconnecting, capture := s.capture + [Released]);
  }

  /** While waiting for the reopen outcome nothing else is observed. */
  lemma ReconnectingWaits(source: string, s: Session, e: Event)
    requires s.phase == Reconnecting && e != ReopenOk && e != ReopenFail
    ensures Step(source, s, e) == s
  {
  }

  /** An exception ends the session; the capture is still released. */
  lemma ExceptionEnds(source: string, s: Session, rest: seq<Event>)
    requires s.phase == Streaming
    ensures Run(source, s, [Exception] + rest) ==
              s.(phase := Ended(Failed), capture := s.capture + [Released])
  {
    assert ([Exception] + rest)[1..] == rest;
    RunEnded(source, Finish(s, Failed), rest);
  }

  /** A frame whose image fails to encode is tracked and alerted on exactly
      like one that encodes; only its chunk is missing. */
  lemma EncodeFailSkipsOnlyEmission(source: string, s: Session, f: Frame)
    requires s.phase == Streaming
    ensures Step(source, s, ReadOk(f)).emitted == s.emitted + [Annotated(f)]
    ensures Step(source, s, EncodeFail(f)) == Step(source, s, ReadOk(f)).(emitted := s.emitted)
  {
  }

  // ---------------------------------------------------------------------------
  // The capture is released on exit.
  // ---------------------------------------------------------------------------

  /** Every successful open is matched by a release, except the one capture
      that is open while the loop is streaming. */
  predicate CaptureBalanced(phase: Phase, ops: seq<CaptureOp>)
  {
    multiset(ops)[Opened] == multiset(ops)[Released] + (if phase == Streaming then 1 else 0)
  }

  lemma StepKeepsBalanced(source: string, s: Session, e: Event)
    requires CaptureBalanced(s.phase, s.capture)
    ensures var r := Step(source, s, e); CaptureBalanced(r.phase, r.capture)
  {
    var r := Step(source, s, e);
    if r.capture != s.capture {
      var added := r.capture[|s.capture|..];
      assert r.capture == s.capture + added;
    }
  }

  lemma {:induction false} RunKeepsBalanced(source: string, s: Session, events: seq<Event>)
    requires CaptureBalanced(s.phase, s.capture)
    ensures var r := Run(source, s, events); CaptureBalanced(r.phase, r.capture)
    decreases |events|
  {
    if |events| > 0 {
      StepKeepsBalanced(source, s, events[0]);
      RunKeepsBalanced(source, Step(source, s, events[0]), events[1..]);
    }
  }

  /** Whenever the loop of a generator call has left, every capture it opened
      has been released; while it is still streaming exactly one capture is
      open. */
  lemma GenerateReleasesOnExit(g: Globals, modelLoaded: bool, blankEncodes: bool, openOk: bool,
                               source: string, events: seq<Event>)
    ensures var o := Generate(g, modelLoaded, blankEncodes, openOk, source, events);
            && (o.phase.Ended? ==> multiset(o.capture)[Opened] == multiset(o.capture)[Released])
            && (o.phase == Streaming ==> multiset(o.capture)[Opened] == multiset(o.capture)[Released] + 1)
  {
    if modelLoaded && openOk {
      RunKeepsBalanced(source, Start(), events);
    }
  }

  // ---------------------------------------------------------------------------
  // Alerts are spaced by the cooldown.
  // ---------------------------------------------------------------------------

  /** The alerts of a session that started with last-alert time `since`:
      each follows the previous one (the first follows `since`) by more than
      the cooldown, each comes from a frame with detections, and `lastAlert`
      is the time of the latest one. */
  predicate Spaced(alerts: seq<Alert>, since: real, lastAlert: real)
  {
    && (|alerts| == 0 ==> lastAlert == since)
    && (|alerts| > 0 ==>
          alerts[0].time - since > AlertCooldown && lastAlert == alerts[|alerts| - 1].time)
    && (forall i :: 1 <= i < |alerts| ==> alerts[i].time - alerts[i - 1].time > AlertCooldown)
    && (forall i :: 0 <= i < |alerts| ==> alerts[i].detections > 0)
  }

  lemma ProcessKeepsSpaced(s: Session, f: Frame, encoded: bool, since: real)
    requires Spaced(s.alerts, since, s.lastAlert)
    ensures var r := Process(s, f, encoded); Spaced(r.alerts, since, r.lastAlert)
  {
  }

  lemma StepKeepsSpaced(source: string, s: Session, e: Event, since: real)
    requires Spaced(s.alerts, since, s.lastAlert)
    ensures var r := Step(source, s, e); Spaced(r.alerts, since, r.lastAlert)
  {
    match e
    case ReadOk(f) => ProcessKeepsSpaced(s, f, true, since);
    case EncodeFail(f) => ProcessKeepsSpaced(s, f, false, since);
    case _ =>
  }

  lemma {:induction false} RunKeepsSpaced(source: string, s: Session, events: seq<Event>, since: real)
    requires Spaced(s.alerts, since, s.lastAlert)
    ensures var r := Run(source, s, events); Spaced(r.alerts, since, r.lastAlert)
    decreases |events|
  {
    if |events| > 0 {
      StepKeepsSpaced(source, s, events[0], since);
      RunKeepsSpaced(source, Step(source, s, events[0]), events[1..], since);
    }
  }

  /** Over a whole generator call, consecutive alerts are more than the
      cooldown apart, and the first comes more than the cooldown after time 0. */
  lemma GenerateAlertsSpaced(g: Globals, modelLoaded: bool, blankEncodes: bool, openOk: bool,
                             source: string, events: seq<Event>)
    ensures var o := Generate(g, modelLoaded, blankEncodes, openOk, source, events);
            && (|o.alerts| > 0 ==> o.alerts[0].time > AlertCooldown)
            && (forall i :: 1 <= i < |o.alerts| ==> o.alerts[i].time - o.alerts[i - 1].time > AlertCooldown)
  {
    if modelLoaded && openOk {
      RunKeepsSpaced(source, Start(), events, 0.0);
    }
  }

  // ---------------------------------------------------------------------------
  // The tracker stays well-formed.
  // ---------------------------------------------------------------------------

  /** The tracker keeps its settings, its table invariant, and no track
      lost for longer than `max_lost` frames. */
  predicate TrackerHealthy(t: Tracker)
  {
    && Valid(t)
    && t.maxLost == DefaultMaxLost && t.iouThresh == DefaultIouThresh
    && forall x :: x in t.tracks ==> x.lost <= t.maxLost
  }

  lemma StepKeepsHealthy(source: string, s: Session, e: Event)
    requires TrackerHealthy(s.tracker)
    ensures TrackerHealthy(Step(source, s, e).tracker)
  {
    if s.phase == Streaming && (e.ReadOk? || e.EncodeFail?) {
      var boxes := BoxesOf(e.frame.detections);
      UpdateKeepsValid(s.tracker, boxes);
      UpdateAging(s.tracker, boxes);
    }
  }

  lemma {:induction false} RunKeepsHealthy(source: string, s: Session, events: seq<Event>)
    requires TrackerHealthy(s.tracker)
    ensures TrackerHealthy(Run(source, s, events).tracker)
    decreases |events|
  {
    if |events| > 0 {
      StepKeepsHealthy(source, s, events[0]);
      RunKeepsHealthy(source, Step(source, s, events[0]), events[1..]);
    }
  }

  /** Whatever happens in a session, the global tracker it leaves behind is
      well-formed. */
  lemma GenerateTrackerHealthy(g: Globals, blankEncodes: bool, source: string, events: seq<Event>)
    ensures TrackerHealthy(Generate(g, true, blankEncodes, true, source, events).globals.tracker)
  {
    RunKeepsHealthy(source, Start(), events);
  }

  // ---------------------------------------------------------------------------
  // Runs of good frames.
  // ---------------------------------------------------------------------------

  function ReadOks(frames: seq<Frame>): (es: seq<Event>)
    ensures |es| == |frames|
  {
    seq(|frames|, i requires 0 <= i < |frames| => ReadOk(frames[i]))
  }

  function BoxFrames(frames: seq<Frame>): (bs: seq<seq<Box>>)
    ensures |bs| == |frames|
  {
    seq(|frames|, i requires 0 <= i < |frames| => BoxesOf(frames[i].detections))
  }

  function Annotations(frames: seq<Frame>): (cs: seq<Chunk>)
    ensures |cs| == |frames|
  {
    seq(|frames|, i requires 0 <= i < |frames| => Annotated(frames[i]))
  }

  /** A run of frames that all read and encode keeps streaming, feeds each
      frame's boxes to the tracker in order, and yields each frame once, in
      order; the capture is not touched. */
  lemma {:induction false} RunFramesReplays(source: string, s: Session, frames: seq<Frame>)
    requires s.phase == Streaming
    ensures var r := Run(source, s, ReadOks(frames));
            && r.phase == Streaming
            && r.tracker == Replay(s.tracker, BoxFrames(frames))
            && r.emitted == s.emitted + Annotations(frames)
            && r.capture == s.capture
    decreases |frames|
  {
    if |frames| == 0 {
      assert s.emitted + Annotations(frames) == s.emitted;
    } else {
      var next := PeelGoodFrame(source, s, frames);
      RunFramesReplays(source, next, frames[1..]);
    }
  }

  /** The session after the first of a run of good frames, and what remains
      of the run, its replay and its output. */
  lemma PeelGoodFrame(source: string, s: Session, frames: seq<Frame>) returns (next: Session)
    requires s.phase == Streaming && |frames| > 0
    ensures next.phase == Streaming && next.capture == s.capture
    ensures Run(source, s, ReadOks(frames)) == Run(source, next, ReadOks(frames[1..]))
    ensures Replay(s.tracker, BoxFrames(frames)) == Replay(next.tracker, BoxFrames(frames[1..]))
    ensures s.emitted + Annotations(frames) == next.emitted + Annotations(frames[1..])
  {
    next := StepGoodFrame(source, s, frames[0]);
    RunFramesUnfold(source, s, next, frames);
    EmittedPeel(s.emitted, next.emitted, frames);
  }

  lemma EmittedPeel(before: seq<Chunk>, after: seq<Chunk>, frames: seq<Frame>)
    requires |frames| > 0 && after == before + [Annotated(frames[0])]
    ensures before + Annotations(frames) == after + Annotations(frames[1..])
  {
    AnnotationsUnfold(frames);
    assert before + ([Annotated(frames[0])] + Annotations(frames[1..]))
        == (before + [Annotated(frames[0])]) + Annotations(frames[1..]);
  }

  /** Peeling the first good frame off a run, its replay and its output. */
  lemma RunFramesUnfold(source: string, s: Session, next: Session, frames: seq<Frame>)
    requires |frames| > 0
    requires next == Step(source, s, ReadOk(frames[0]))
    requires next.tracker == Update(s.tracker, BoxesOf(frames[0].detections)).tracker
    ensures Run(source, s, ReadOks(frames)) == Run(source, next, ReadOks(frames[1..]))
    ensures Replay(s.tracker, BoxFrames(frames)) == Replay(next.tracker, BoxFrames(frames[1..]))
    ensures Annotations(frames) == [Annotated(frames[0])] + Annotations(frames[1..])
  {
    ReadOksUnfold(frames);
    RunUnfold(source, s, ReadOks(frames));
    ReplayUnfold(s.tracker, next.tracker, frames);
    AnnotationsUnfold(frames);
  }

  lemma ReadOksUnfold(frames: seq<Frame>)
    requires |frames| > 0
    ensures ReadOks(frames)[0] == ReadOk(frames[0])
    ensures ReadOks(frames)[1..] == ReadOks(frames[1..])
  {
    assert ReadOks(frames)[1..] == ReadOks(frames[1..]);
  }

  lemma RunUnfold(source: string, s: Session, es: seq<Event>)
    requires |es| > 0
    ensures Run(source, s, es) == Run(source, Step(source, s, es[0]), es[1..])
  {
  }

  lemma AnnotationsUnfold(frames: seq<Frame>)
    requires |frames| > 0
    ensures Annotations(frames) == [Annotated(frames[0])] + Annotations(frames[1..])
  {
    assert Annotations(frames) == [Annotated(frames[0])] + Annotations(frames[1..]);
  }

  lemma ReplayUnfold(t: Tracker, t': Tracker, frames: seq<Frame>)
    requires |frames| > 0
    requires t' == Update(t, BoxesOf(frames[0].detections)).tracker
    ensures Replay(t, BoxFrames(frames)) == Replay(t', BoxFrames(frames[1..]))
  {
    var bs := BoxFrames(frames);
    assert bs[0] == BoxesOf(frames[0].detections);
    assert bs[1..] == BoxFrames(frames[1..]);
  }

  /** One good frame, as the step after which the run continues. */
  lemma StepGoodFrame(source: string, s: Session, f: Frame) returns (next: Session)
    requires s.phase == Streaming
    ensures next == Step(source, s, ReadOk(f))
    ensures next.phase == Streaming && next.capture == s.capture
    ensures next.tracker == Update(s.tracker, BoxesOf(f.detections)).tracker
    ensures next.emitted == s.emitted + [Annotated(f)]
  {
    next := Process(s, f, true);
  }

  /** A new call starts from a fresh tracker and a cleared stop flag, whatever
      the previous call left in the globals: over good frames the published
      tracker is a fresh tracker replayed over them, every frame is yielded,
      and the flag stays clear. */
  lemma GenerateFreshSession(g: Globals, blankEncodes: bool, source: string, frames: seq<Frame>)
    ensures var o := Generate(g, true, blankEncodes, true, source, ReadOks(frames));
            && o.globals.tracker == Replay(New(DefaultMaxLost, DefaultIouThresh), BoxFrames(frames))
            && !o.globals.stopFlag
            && o.emitted == Annotations(frames)
            && o.capture == [Opened]
  {
    RunFramesReplays(source, Start(), frames);
  }
}
