/**
 * The live variant: annotate frames from camera 0 into a fixed `.avi` file at 20
 * frames per second while showing them, until a capture fails or the quit key is
 * pressed. Neither the model load nor inference is guarded: an exception from
 * either leaves the function, and after inference raises the handles are not released.
 * The key read after each shown frame comes from `quits`.
 */
module Webcam {
  import opened Wrappers
  import opened Renderer
  import opened Media
  import opened FrameLoop

  const WebcamResultPath: string := "./Results/webcam_detected_objects.avi"

  /** The writer's frame rate, whatever the camera delivers. */
  const WebcamFps: real := 20.0

  /** How the function ends: with an exception, or returning the result path (or nothing). */
  datatype LiveReply = Raised(error: string) | Returned(path: Option<string>)

  /** What one live run does. */
  function WebcamRun(load: Result<Model>, camera: SourceSpec, quits: seq<bool>, writerOpens: bool,
                     files: set<string>): Outcome<LiveReply>
  {
    if load.Err? then Outcome(Raised(load.error), Absent, Absent, None, [], files)
    else if !camera.opens then Outcome(Returned(None), Unopened, Absent, None, [], files)
    else
      var sink := Some(SinkConfig(WebcamResultPath, WebcamFps, camera.width, camera.height));
      var l := Live(load.value.infer, camera.frames, quits, LiveStyle);
      var written := if writerOpens then l.written else [];
      var after := if writerOpens then files + {WebcamResultPath} else files;
      match l.raised
      case Some(e) => Outcome(Raised(e), Opened, if writerOpens then Opened else Unopened, sink, written, after)
      case None => Outcome(Returned(Some(WebcamResultPath)), Released, Released, sink, written, after)
  }

  /**
   * The live pipeline. `load` is the outcome of loading the weights, `camera`
   * what camera 0 delivers, and `quits[i]` whether the quit key is read after
   * frame i is shown (no key once `quits` runs out).
   */
  method DetectObjectsInWebcam(store: Storage, load: Result<Model>, camera: SourceSpec, quits: seq<bool>,
                               writerOpens: bool)
    returns (reply: LiveReply, ghost capture: Capture?, ghost writer: Writer?)
    modifies store
    ensures Observe(reply, capture, writer, store.files)
            == WebcamRun(load, camera, quits, writerOpens, old(store.files))
  {
    if load.Err? {
      return Raised(load.error), null, null;
    }
    var model := load.value;
    var cap := new Capture(camera);
    if !cap.isOpen {
      return Returned(None), cap, null;
    }
    var width, height := cap.width, cap.height;
    var out := new Writer(store, WebcamResultPath, WebcamFps, width, height, writerOpens);
    var raised := ShowFrames(cap, out, model.infer, quits);
    if raised.Some? {
      // The exception leaves the function before the handles are released.
      return Raised(raised.value), cap, out;
    }
    cap.Release();
    out.Release();
    return Returned(Some(WebcamResultPath)), cap, out;
  }

  /** A camera that does not open ends the run with no result and no writer. */
  lemma WebcamWithoutCamera(load: Result<Model>, camera: SourceSpec, quits: seq<bool>, writerOpens: bool,
                            files: set<string>)
    requires load.Ok? && !camera.opens
    ensures var r := WebcamRun(load, camera, quits, writerOpens, files);
      r.reply == Returned(None) && r.writer == Absent && r.sink.None? && r.written == [] && r.files == files
  {
  }

  /**
   * The writer always runs at 20 frames per second with the camera's width and
   * height, and its open state is never checked: when it does not open, the run
   * goes on exactly as before but no frame reaches the output.
   */
  lemma WebcamSinkIsFixedRate(load: Result<Model>, camera: SourceSpec, quits: seq<bool>, writerOpens: bool,
                              files: set<string>)
    requires load.Ok? && camera.opens
    ensures var r := WebcamRun(load, camera, quits, writerOpens, files);
      && r.sink == Some(SinkConfig(WebcamResultPath, 20.0, camera.width, camera.height))
      && (!writerOpens ==> r.written == [] && r.reply == WebcamRun(load, camera, quits, true, files).reply)
  {
  }

  /**
   * The loop ends at the first failed capture or the first quit key; every
   * captured frame is written, in order and annotated, before the key is checked,
   * so the frame after which quit is pressed is in the output. When no inference
   * raises up to that point (later frames are never shown to the model), both
   * handles are released and the fixed path is returned.
   */
  lemma WebcamWritesUntilQuit(load: Result<Model>, camera: SourceSpec, quits: seq<bool>, files: set<string>)
    requires load.Ok? && camera.opens
    requires var k := FirstStop(load.value.infer, camera.frames, quits, 0);
      k < |camera.frames| ==> load.value.infer(camera.frames[k]).Detected?
    ensures var r, k := WebcamRun(load, camera, quits, true, files), FirstStop(load.value.infer, camera.frames, quits, 0);
      && r.reply == Returned(Some(WebcamResultPath))
      && r.capture == Released && r.writer == Released
      && (k < |camera.frames| ==> QuitAfter(quits, k))
      && |r.written| == (if k < |camera.frames| then k + 1 else |camera.frames|)
      && (forall j :: 0 <= j < |r.written| ==>
            j < |camera.frames| && r.written[j] == Overlaid(load.value.infer, camera.frames[j], LiveStyle))
  {
    LiveStopsAtFirstStop(load.value.infer, camera.frames, quits, LiveStyle);
  }

  /**
   * A quit key after frame k, with every frame up to k detected and no earlier
   * quit, ends the run normally whatever inference would do on later frames:
   * frames 0..k are written annotated and both handles are released.
   */
  lemma WebcamQuitKeyEndsRun(load: Result<Model>, camera: SourceSpec, quits: seq<bool>, files: set<string>, k: nat)
    requires load.Ok? && camera.opens
    requires k < |camera.frames| && load.value.infer(camera.frames[k]).Detected? && QuitAfter(quits, k)
    requires forall j :: 0 <= j < k ==> load.value.infer(camera.frames[j]).Detected? && !QuitAfter(quits, j)
    ensures var r := WebcamRun(load, camera, quits, true, files);
      && r.reply == Returned(Some(WebcamResultPath))
      && r.capture == Released && r.writer == Released
      && |r.written| == k + 1
      && (forall j :: 0 <= j <= k ==> r.written[j] == Overlaid(load.value.infer, camera.frames[j], LiveStyle))
  {
    FirstStopIsLeast(load.value.infer, camera.frames, quits, 0, k);
    WebcamWritesUntilQuit(load, camera, quits, files);
  }

  /**
   * Inference is not guarded: when it raises before the quit key, the exception
   * leaves the function with the capture still open and the writer never released.
   */
  lemma WebcamLeaksHandlesOnInferenceError(load: Result<Model>, camera: SourceSpec, quits: seq<bool>,
                                           writerOpens: bool, files: set<string>, k: nat)
    requires load.Ok? && camera.opens
    requires k < |camera.frames| && load.value.infer(camera.frames[k]).Failed?
    requires forall j :: 0 <= j < k ==> load.value.infer(camera.frames[j]).Detected? && !QuitAfter(quits, j)
    ensures var r := WebcamRun(load, camera, quits, writerOpens, files);
      && r.reply == Raised(load.value.infer(camera.frames[k]).cause)
      && r.capture == Opened
      && r.writer != Released
      && (writerOpens ==> |r.written| == k)
      && (writerOpens ==>
            forall j :: 0 <= j < k ==> r.written[j] == Overlaid(load.value.infer, camera.frames[j], LiveStyle))
  {
    FirstStopIsLeast(load.value.infer, camera.frames, quits, 0, k);
    LiveStopsAtFirstStop(load.value.infer, camera.frames, quits, LiveStyle);
  }

  /** A model that fails to load raises before the camera is opened. */
  lemma WebcamLoadFailureRaises(error: string, camera: SourceSpec, quits: seq<bool>, writerOpens: bool,
                                files: set<string>)
    ensures WebcamRun(Err(error), camera, quits, writerOpens, files)
            == Outcome(Raised(error), Absent, Absent, None, [], files)
  {
  }
}
