/**
 * The frame loop of the three pipelines, as specification functions over the
 * sequence of frames a capture yields: read a frame, run the engine on it, draw
 * the admitted detections, write the frame. The service and batch loops stop at the
 * end of the frames or at the first inference failure (Stream); the live loop
 * also stops after the first frame on which the quit key is seen (Live).
 */
module FrameLoop {
  import opened Wrappers
  import opened Renderer
  import opened Media

  /** What the engine returns for one frame: its result sets, or the exception it raised. */
  datatype Inference = Detected(results: seq<seq<Detection>>) | Failed(cause: string)

  /** A loaded detection model: inference on one frame. */
  datatype Model = Model(infer: Frame -> Inference)

  /** The frames a loop writes, and the inference failure that ended it, if any. */
  datatype StreamRun = StreamRun(written: seq<Frame>, failure: Option<string>)

  /** The frame as written when inference on it succeeds. */
  function Overlaid(infer: Frame -> Inference, f: Frame, st: Style): Frame {
    match infer(f)
    case Detected(rs) => Annotate(f, rs, st)
    case Failed(_) => f
  }

  /** The index of the first frame from `i` on whose inference fails, or |frames| if none does. */
  function FirstFailure(infer: Frame -> Inference, frames: seq<Frame>, i: nat): (k: nat)
    requires i <= |frames|
    ensures i <= k <= |frames|
    ensures forall j :: i <= j < k ==> infer(frames[j]).Detected?
    ensures k < |frames| ==> infer(frames[k]).Failed?
    decreases |frames| - i
  {
    if i == |frames| || infer(frames[i]).Failed? then i else FirstFailure(infer, frames, i + 1)
  }

  /** The loop of the file pipelines, from frame `i` on. */
  function StreamFrom(infer: Frame -> Inference, frames: seq<Frame>, i: nat, st: Style): StreamRun
    requires i <= |frames|
    decreases |frames| - i
  {
    if i == |frames| then StreamRun([], None)
    else match infer(frames[i])
      case Failed(cause) => StreamRun([], Some(cause))
      case Detected(rs) =>
        var rest := StreamFrom(infer, frames, i + 1, st);
        StreamRun([Annotate(frames[i], rs, st)] + rest.written, rest.failure)
  }

  function Stream(infer: Frame -> Inference, frames: seq<Frame>, st: Style): StreamRun {
    StreamFrom(infer, frames, 0, st)
  }

  /**
   * The loop writes one annotated frame per frame read, in order, up to the first
   * frame whose inference fails; that failure, if any, is what ended the loop.
   */
  lemma {:induction false} StreamFromStopsAtFirstFailure(infer: Frame -> Inference, frames: seq<Frame>, i: nat, st: Style)
    requires i <= |frames|
    ensures var s, k := StreamFrom(infer, frames, i, st), FirstFailure(infer, frames, i);
      && |s.written| == k - i
      && (forall j :: 0 <= j < |s.written| ==> s.written[j] == Overlaid(infer, frames[i + j], st))
      && s.failure == (if k < |frames| then Some(infer(frames[k]).cause) else None)
    decreases |frames| - i
  {
    if i < |frames| && infer(frames[i]).Detected? {
      StreamFromStopsAtFirstFailure(infer, frames, i + 1, st);
    }
  }

  /**
   * Over a whole source: the written frames are the annotated frames before the
   * first inference failure, one-to-one and in order, and there is a failure
   * exactly when some frame's inference fails; without one, every frame is written.
   */
  lemma StreamWritesPrefix(infer: Frame -> Inference, frames: seq<Frame>, st: Style)
    ensures var s, k := Stream(infer, frames, st), FirstFailure(infer, frames, 0);
      && |s.written| == k
      && (forall j :: 0 <= j < k ==> s.written[j] == Overlaid(infer, frames[j], st))
      && (s.failure.None? <==> forall j :: 0 <= j < |frames| ==> infer(frames[j]).Detected?)
      && (s.failure.None? ==> |s.written| == |frames|)
      && (s.failure.Some? ==> |s.written| < |frames| && infer(frames[|s.written|]) == Failed(s.failure.value))
  {
    StreamFromStopsAtFirstFailure(infer, frames, 0, st);
  }

  /** The first failure is the least failing index. */
  lemma {:induction false} FirstFailureIsLeast(infer: Frame -> Inference, frames: seq<Frame>, i: nat, k: nat)
    requires i <= k < |frames| && infer(frames[k]).Failed?
    requires forall j :: i <= j < k ==> infer(frames[j]).Detected?
    ensures FirstFailure(infer, frames, i) == k
    decreases k - i
  {
    if i < k {
      FirstFailureIsLeast(infer, frames, i + 1, k);
    }
  }

  /**
   * The frame loop of the file pipelines: read a frame, run inference on it, draw
   * its admitted detections and write it, until a read fails or inference raises.
   * Returns the exception's message in the latter case; both handles stay open.
   */
  method WriteFrames(cap: Capture, out: Writer, infer: Frame -> Inference) returns (failure: Option<string>)
    requires cap.Valid() && cap.isOpen && !cap.released && out.isOpen && !out.released
    modifies cap, out
    ensures cap.Valid() && !cap.released && !out.released
    ensures out.written == old(out.written) + StreamFrom(infer, cap.frames, old(cap.next), FileStyle).written
    ensures failure == StreamFrom(infer, cap.frames, old(cap.next), FileStyle).failure
  {
    ghost var start := cap.next;
    ghost var whole := StreamFrom(infer, cap.frames, start, FileStyle);
    while true
      invariant cap.Valid() && !cap.released && !out.released && start <= cap.next
      invariant old(out.written) + whole.written
                == out.written + StreamFrom(infer, cap.frames, cap.next, FileStyle).written
      invariant StreamFrom(infer, cap.frames, cap.next, FileStyle).failure == whole.failure
      decreases |cap.frames| - cap.next
    {
      var ok, frame := cap.Read();
      if !ok {
        return None;
      }
      match infer(frame)
      case Failed(cause) =>
        return Some(cause);
      case Detected(results) =>
        frame := Render(frame, results, FileStyle);
        out.Write(frame);
    }
  }

  // ---------------------------------------------------------------------------
  // The live loop.

  /** The quit key was seen right after frame `i` was shown. */
  predicate QuitAfter(quits: seq<bool>, i: nat) {
    i < |quits| && quits[i]
  }

  /** The loop's outcome when the inference exception is not caught: the frames written, and what was raised. */
  datatype LiveRun = LiveRun(written: seq<Frame>, raised: Option<string>)

  /** The index of the first frame from `i` on that fails inference or is followed by the quit key, or |frames|. */
  function FirstStop(infer: Frame -> Inference, frames: seq<Frame>, quits: seq<bool>, i: nat): (k: nat)
    requires i <= |frames|
    ensures i <= k <= |frames|
    ensures forall j :: i <= j < k ==> infer(frames[j]).Detected? && !QuitAfter(quits, j)
    ensures k < |frames| ==> infer(frames[k]).Failed? || QuitAfter(quits, k)
    decreases |frames| - i
  {
    if i == |frames| || infer(frames[i]).Failed? || QuitAfter(quits, i) then i
    else FirstStop(infer, frames, quits, i + 1)
  }

  /** The first stop is the least index where inference fails or quit follows. */
  lemma {:induction false} FirstStopIsLeast(infer: Frame -> Inference, frames: seq<Frame>, quits: seq<bool>,
                                            i: nat, k: nat)
    requires i <= k < |frames| && (infer(frames[k]).Failed? || QuitAfter(quits, k))
    requires forall j :: i <= j < k ==> infer(frames[j]).Detected? && !QuitAfter(quits, j)
    ensures FirstStop(infer, frames, quits, i) == k
    decreases k - i
  {
    if i < k {
      FirstStopIsLeast(infer, frames, quits, i + 1, k);
    }
  }

  /** The live loop from frame `i` on: the frame is written before the quit key is checked. */
  function LiveFrom(infer: Frame -> Inference, frames: seq<Frame>, quits: seq<bool>, i: nat, st: Style): LiveRun
    requires i <= |frames|
    decreases |frames| - i
  {
    if i == |frames| then LiveRun([], None)
    else match infer(frames[i])
      case Failed(cause) => LiveRun([], Some(cause))
      case Detected(rs) =>
        var shown := Annotate(frames[i], rs, st);
        if QuitAfter(quits, i) then LiveRun([shown], None)
        else
          var rest := LiveFrom(infer, frames, quits, i + 1, st);
          LiveRun([shown] + rest.written, rest.raised)
  }

  function Live(infer: Frame -> Inference, frames: seq<Frame>, quits: seq<bool>, st: Style): LiveRun {
    LiveFrom(infer, frames, quits, 0, st)
  }

  lemma {:induction false} LiveFromStopsAtFirstStop(
    infer: Frame -> Inference, frames: seq<Frame>, quits: seq<bool>, i: nat, st: Style)
    requires i <= |frames|
    ensures var l, k := LiveFrom(infer, frames, quits, i, st), FirstStop(infer, frames, quits, i);
      && (forall j :: 0 <= j < |l.written| ==> i + j < |frames| && l.written[j] == Overlaid(infer, frames[i + j], st))
      && (k == |frames| ==> |l.written| == k - i && l.raised.None?)
      && (k < |frames| && infer(frames[k]).Failed? ==>
            |l.written| == k - i && l.raised == Some(infer(frames[k]).cause))
      && (k < |frames| && infer(frames[k]).Detected? ==> |l.written| == k - i + 1 && l.raised.None?)
    decreases |frames| - i
  {
    if i < |frames| && infer(frames[i]).Detected? && !QuitAfter(quits, i) {
      LiveFromStopsAtFirstStop(infer, frames, quits, i + 1, st);
    }
  }

  /**
   * The live loop writes the annotated frames in order and stops at the first
   * failed capture (the end of the frames), the first quit key or the first
   * inference exception. The frame that triggers quit is still written; the frame
   * whose inference raised is not, and the exception is what the loop ends with.
   */
  lemma LiveStopsAtFirstStop(infer: Frame -> Inference, frames: seq<Frame>, quits: seq<bool>, st: Style)
    ensures var l, k := Live(infer, frames, quits, st), FirstStop(infer, frames, quits, 0);
      && (forall j :: 0 <= j < |l.written| ==> j < |frames| && l.written[j] == Overlaid(infer, frames[j], st))
      && l.raised == (if k < |frames| && infer(frames[k]).Failed? then Some(infer(frames[k]).cause) else None)
      && |l.written| == (if k < |frames| && infer(frames[k]).Detected? then k + 1 else k)
  {
    LiveFromStopsAtFirstStop(infer, frames, quits, 0, st);
  }

  /**
   * The live loop: read a frame, run inference on it, draw its admitted detections,
   * write and show it, then stop if the quit key follows it; a failed read also
   * stops the loop. An inference exception leaves the loop at once and is returned.
   * The writer's open state is never checked. Both handles stay open.
   */
  method ShowFrames(cap: Capture, out: Writer, infer: Frame -> Inference, quits: seq<bool>)
    returns (raised: Option<string>)
    requires cap.Valid() && cap.isOpen && !cap.released && !out.released
    modifies cap, out
    ensures cap.Valid() && !cap.released && !out.released
    ensures out.written == old(out.written)
            + (if out.isOpen then LiveFrom(infer, cap.frames, quits, old(cap.next), LiveStyle).written else [])
    ensures raised == LiveFrom(infer, cap.frames, quits, old(cap.next), LiveStyle).raised
  {
    ghost var start := cap.next;
    ghost var whole := LiveFrom(infer, cap.frames, quits, start, LiveStyle);
    ghost var emitted: seq<Frame> := [];
    while true
      invariant cap.Valid() && !cap.released && !out.released && start <= cap.next
      invariant out.written == old(out.written) + (if out.isOpen then emitted else [])
      invariant emitted + LiveFrom(infer, cap.frames, quits, cap.next, LiveStyle).written == whole.written
      invariant LiveFrom(infer, cap.frames, quits, cap.next, LiveStyle).raised == whole.raised
      decreases |cap.frames| - cap.next
    {
      var ok, frame := cap.Read();
      if !ok {
        return None;
      }
      match infer(frame)
      case Failed(cause) =>
        return Some(cause);
      case Detected(results) =>
        frame := Render(frame, results, LiveStyle);
        out.Write(frame);
        emitted := emitted + [frame];
        if QuitAfter(quits, cap.next - 1) {
          return None;
        }
    }
  }
}
