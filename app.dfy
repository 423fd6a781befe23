/**
 * The detection service: the pipeline with error returns behind `POST /detect`,
 * the route's validation, job-namespaced file names and clean-up, and
 * `GET /health`. The model is loaded once when the service starts; the route and
 * the pipeline receive the outcome of that load.
 */
module App {
  import opened Wrappers
  import opened Renderer
  import opened Media
  import opened FrameLoop

  const UploadFolder: string := "uploads"
  const OutputFolder: string := "outputs"

  const ModelNotLoaded: string := "YOLO model not loaded"
  const CannotOpenVideo: string := "Could not open video file"
  const CannotInitWriter: string := "Could not initialize video writer"
  const InferenceFailedPrefix: string := "YOLO inference failed: "
  const SuccessMessage: string := "Success"

  const NoFilePartMessage: string := "No file part in the request"
  const NoFileSelectedMessage: string := "No file selected"
  const UnsupportedFormatMessage: string := "Unsupported file format. Use MP4 or AVI."
  const SendFailedPrefix: string := "Error sending file: "

  /** What the pipeline returns: a success flag and a message. */
  datatype Reply = Reply(success: bool, message: string)

  /** The model slot after the load at start-up: empty when loading raised. */
  function LoadModel(load: Result<Model>): Option<Model> {
    match load
    case Ok(m) => Some(m)
    case Err(_) => None
  }

  // ---------------------------------------------------------------------------
  // The pipeline.

  /**
   * What one pipeline run does: the precondition checks in their order, each with
   * its message; the writer configured from the capture; then the frame loop, which
   * aborts with the inference error.
   */
  function ServiceRun(model: Option<Model>, video: SourceSpec, outputPath: string, writerOpens: bool,
                      files: set<string>): Outcome<Reply>
  {
    if model.None? then Outcome(Reply(false, ModelNotLoaded), Absent, Absent, None, [], files)
    else if !video.opens then Outcome(Reply(false, CannotOpenVideo), Unopened, Absent, None, [], files)
    else
      var sink := Some(SinkConfig(outputPath, video.fps, video.width, video.height));
      if !writerOpens then Outcome(Reply(false, CannotInitWriter), Released, Unopened, sink, [], files)
      else
        var s := Stream(model.value.infer, video.frames, FileStyle);
        var reply := if s.failure.None? then Reply(true, SuccessMessage)
                     else Reply(false, InferenceFailedPrefix + s.failure.value);
        Outcome(reply, Released, Released, sink, s.written, files + {outputPath})
  }

  /**
   * The pipeline: opens the input video, configures a writer from its width,
   * height and frame rate, and writes every frame after drawing its detections.
   * `capture` and `writer` are the handles it created, exposed for the contract.
   */
  method DetectObjectsInVideo(store: Storage, model: Option<Model>, video: SourceSpec, outputPath: string,
                              writerOpens: bool)
    returns (success: bool, message: string, ghost capture: Capture?, ghost writer: Writer?)
    modifies store
    ensures Observe(Reply(success, message), capture, writer, store.files)
            == ServiceRun(model, video, outputPath, writerOpens, old(store.files))
  {
    if model.None? {
      return false, ModelNotLoaded, null, null;
    }
    var cap := new Capture(video);
    if !cap.isOpen {
      return false, CannotOpenVideo, cap, null;
    }
    var width, height, fps := cap.width, cap.height, cap.fps;
    var out := new Writer(store, outputPath, fps, width, height, writerOpens);
    if !out.isOpen {
      cap.Release();
      return false, CannotInitWriter, cap, out;
    }
    var failure := WriteFrames(cap, out, model.value.infer);
    cap.Release();
    out.Release();
    if failure.Some? {
      return false, InferenceFailedPrefix + failure.value, cap, out;
    }
    return true, SuccessMessage, cap, out;
  }

  /**
   * The checks before the frame loop, in order: no model, then a source that does
   * not open (no writer is created), then a writer that does not open (the capture
   * is released). Each ends the run with its own message, before any frame is written.
   */
  lemma ServiceChecksInOrder(model: Option<Model>, video: SourceSpec, outputPath: string, writerOpens: bool,
                             files: set<string>)
    ensures var r := ServiceRun(model, video, outputPath, writerOpens, files);
      && (model.None? ==> r == Outcome(Reply(false, ModelNotLoaded), Absent, Absent, None, [], files))
      && (model.Some? && !video.opens ==>
            r.reply == Reply(false, CannotOpenVideo) && r.writer == Absent && r.written == [])
      && (model.Some? && video.opens && !writerOpens ==>
            r.reply == Reply(false, CannotInitWriter) && r.capture == Released && r.written == []
            && r.files == files)
  {
  }

  /** A writer, when created, is configured with the output path and the source's width, height and frame rate. */
  lemma ServiceSinkMatchesSource(model: Option<Model>, video: SourceSpec, outputPath: string, writerOpens: bool,
                                 files: set<string>)
    ensures var r := ServiceRun(model, video, outputPath, writerOpens, files);
      && (r.sink.Some? <==> model.Some? && video.opens)
      && (r.sink.Some? ==> r.sink.value == SinkConfig(outputPath, video.fps, video.width, video.height))
  {
  }

  /** No exit leaves a handle open: every handle created is released, or never opened. */
  lemma ServiceReleasesHandles(model: Option<Model>, video: SourceSpec, outputPath: string, writerOpens: bool,
                               files: set<string>)
    ensures var r := ServiceRun(model, video, outputPath, writerOpens, files);
      r.capture != Opened && r.writer != Opened
  {
  }

  /**
   * The pipeline succeeds exactly when the model is loaded, both handles open and
   * inference succeeds on every frame; then each frame read is written once, in
   * order, with its detections drawn, and both handles are released.
   */
  lemma ServiceSuccessWritesEveryFrame(model: Option<Model>, video: SourceSpec, outputPath: string,
                                       writerOpens: bool, files: set<string>)
    ensures var r := ServiceRun(model, video, outputPath, writerOpens, files);
      && (r.reply.success <==>
            model.Some? && video.opens && writerOpens
            && forall j :: 0 <= j < |video.frames| ==> model.value.infer(video.frames[j]).Detected?)
      && (r.reply.success ==>
            && r.reply.message == SuccessMessage
            && r.capture == Released && r.writer == Released
            && |r.written| == |video.frames|
            && (forall j :: 0 <= j < |video.frames| ==>
                  r.written[j] == Overlaid(model.value.infer, video.frames[j], FileStyle)))
  {
    if model.Some? {
      StreamWritesPrefix(model.value.infer, video.frames, FileStyle);
    }
  }

  /**
   * An inference exception aborts the run: both handles are released, the output
   * holds exactly the annotated frames before the failing one, and the reply
   * carries the exception's message.
   */
  lemma ServiceInferenceFailureTruncates(model: Option<Model>, video: SourceSpec, outputPath: string,
                                         writerOpens: bool, files: set<string>, k: nat)
    requires model.Some? && video.opens && writerOpens
    requires k < |video.frames| && model.value.infer(video.frames[k]).Failed?
    requires forall j :: 0 <= j < k ==> model.value.infer(video.frames[j]).Detected?
    ensures var r := ServiceRun(model, video, outputPath, writerOpens, files);
      && r.reply == Reply(false, InferenceFailedPrefix + model.value.infer(video.frames[k]).cause)
      && r.capture == Released && r.writer == Released
      && |r.written| == k
      && (forall j :: 0 <= j < k ==> r.written[j] == Overlaid(model.value.infer, video.frames[j], FileStyle))
      && outputPath in r.files
  {
    var infer := model.value.infer;
    StreamWritesPrefix(infer, video.frames, FileStyle);
    FirstFailureIsLeast(infer, video.frames, 0, k);
  }

  // ---------------------------------------------------------------------------
  // Validation and naming in the upload route.

  /** The multipart form as the route sees it: no `file` part, or a named upload of a video. */
  datatype Upload = NoFilePart | Upload(filename: string, video: SourceSpec)

  /** ASCII lower-casing of one character. */
  function LowerChar(c: char): char {
    if 'A' <= c <= 'Z' then (c as int + 32) as char else c
  }

  function Lower(s: string): (r: string)
    ensures |r| == |s|
    ensures forall i :: 0 <= i < |s| ==> r[i] == LowerChar(s[i])
  {
    if s == [] then [] else [LowerChar(s[0])] + Lower(s[1..])
  }

  predicate EndsWith(s: string, suffix: string) {
    |suffix| <= |s| && s[|s| - |suffix|..] == suffix
  }

  /** The file name ends in `.mp4` or `.avi`, in any mix of upper and lower case. */
  predicate HasVideoExtension(filename: string) {
    EndsWith(Lower(filename), ".mp4") || EndsWith(Lower(filename), ".avi")
  }

  /** Two strings that differ at most in the case of their letters. */
  predicate SameIgnoringCase(a: string, b: string) {
    |a| == |b| && forall i :: 0 <= i < |a| ==> LowerChar(a[i]) == LowerChar(b[i])
  }

  /**
   * The extension test is case-insensitive: a name passes exactly when its last
   * four characters spell `.mp4` or `.avi` up to case.
   */
  lemma HasVideoExtensionIgnoresCase(filename: string)
    ensures HasVideoExtension(filename) <==>
      |filename| >= 4
      && (SameIgnoringCase(filename[|filename| - 4..], ".mp4") || SameIgnoringCase(filename[|filename| - 4..], ".avi"))
  {
    var n := |filename|;
    if n >= 4 {
      var tail := filename[n - 4..];
      assert Lower(filename)[n - 4..] == Lower(tail);
      assert Lower(".mp4") == ".mp4";
      assert Lower(".avi") == ".avi";
      assert SameIgnoringCase(tail, ".mp4") <==> Lower(tail) == ".mp4";
      assert SameIgnoringCase(tail, ".avi") <==> Lower(tail) == ".avi";
    }
  }

  /** The first check the upload fails, in the route's order, if any. */
  function ValidationError(u: Upload): Option<string> {
    if u.NoFilePart? then Some(NoFilePartMessage)
    else if u.filename == "" then Some(NoFileSelectedMessage)
    else if !HasVideoExtension(u.filename) then Some(UnsupportedFormatMessage)
    else None
  }

  /**
   * An upload is accepted exactly when it has a file part whose name carries a
   * video extension; a missing part is reported before an empty name, and an
   * empty name before a wrong extension.
   */
  lemma ValidationOrder(u: Upload)
    ensures ValidationError(u).None? <==> u.Upload? && HasVideoExtension(u.filename)
    ensures u.NoFilePart? ==> ValidationError(u) == Some(NoFilePartMessage)
    ensures u.Upload? && u.filename == "" ==> ValidationError(u) == Some(NoFileSelectedMessage)
    ensures u.Upload? && u.filename != "" && !HasVideoExtension(u.filename) ==>
              ValidationError(u) == Some(UnsupportedFormatMessage)
  {
    if u.Upload? && u.filename == "" {
      assert !EndsWith(Lower(u.filename), ".mp4");
      assert !EndsWith(Lower(u.filename), ".avi");
    }
  }

  /** Where the upload of job `token` is saved. */
  function InputPath(token: string, filename: string): string {
    UploadFolder + "/" + token + "_" + filename
  }

  /** The name the annotated video is sent under. */
  function OutputName(token: string): string {
    token + "_detected.mp4"
  }

  /** Where the annotated video of job `token` is written. */
  function OutputPath(token: string): string {
    OutputFolder + "/" + OutputName(token)
  }

  /** A job's input and output never share a path, whatever the tokens and names. */
  lemma InputOutputDistinct(token: string, filename: string, other: string)
    ensures InputPath(token, filename) != OutputPath(other)
  {
    assert InputPath(token, filename)[0] == 'u';
    assert OutputPath(other)[0] == 'o';
  }

  /** Different job tokens give different output paths. */
  lemma OutputPathInjective(t1: string, t2: string)
    requires OutputPath(t1) == OutputPath(t2)
    ensures t1 == t2
  {
    var prefix := |OutputFolder + "/"|;
    assert |t1| == |t2|;
    assert t1 == OutputPath(t1)[prefix..prefix + |t1|];
    assert t2 == OutputPath(t2)[prefix..prefix + |t2|];
  }

  /** With tokens of one length (a UUID's text always has 36), different jobs or names give different input paths. */
  lemma InputPathInjective(t1: string, n1: string, t2: string, n2: string)
    requires |t1| == |t2|
    requires InputPath(t1, n1) == InputPath(t2, n2)
    ensures t1 == t2 && n1 == n2
  {
    var prefix := |UploadFolder + "/"|;
    assert t1 == InputPath(t1, n1)[prefix..prefix + |t1|];
    assert t2 == InputPath(t2, n2)[prefix..prefix + |t2|];
    assert n1 == InputPath(t1, n1)[prefix + |t1| + 1..];
    assert n2 == InputPath(t2, n2)[prefix + |t2| + 1..];
  }

  // ---------------------------------------------------------------------------
  // The upload route.

  /** The route's answer: a JSON error with its status, or the annotated video (status 200). */
  datatype Response = ErrorReply(status: int, error: string) | VideoReply(path: string, downloadName: string)

  function Status(r: Response): int {
    match r
    case ErrorReply(status, _) => status
    case VideoReply(_, _) => 200
  }

  /** The response and the paths that exist once the route has returned. */
  datatype RouteRun = RouteRun(response: Response, files: set<string>)

  /**
   * What one request does: validate; save the upload under the job's input path;
   * run the pipeline into the job's output path; remove the input whatever the
   * outcome (a removal error is only logged); on failure answer 500 with the
   * pipeline's message; otherwise send the output and then remove it, where an
   * error in either step answers 500 and leaves the output in place.
   * `sendError` is the exception sending raises, if it does.
   */
  function DetectRoute(model: Option<Model>, upload: Upload, token: string, writerOpens: bool,
                       sendError: Option<string>, files: set<string>, locked: set<string>): RouteRun
  {
    match ValidationError(upload)
    case Some(e) => RouteRun(ErrorReply(400, e), files)
    case None =>
      var input, output := InputPath(token, upload.filename), OutputPath(token);
      var run := ServiceRun(model, upload.video, output, writerOpens, files + {input});
      var left := AfterRemove(run.files, locked, input);
      if !run.reply.success then RouteRun(ErrorReply(500, run.reply.message), left)
      else if sendError.Some? then RouteRun(ErrorReply(500, SendFailedPrefix + sendError.value), left)
      else match RemoveFailure(left, locked, output)
        case Some(e) => RouteRun(ErrorReply(500, SendFailedPrefix + e), left)
        case None => RouteRun(VideoReply(output, OutputName(token)), left - {output})
  }

  /** `POST /detect`. `token` is the job's fresh UUID text. */
  method Detect(store: Storage, model: Option<Model>, upload: Upload, token: string, writerOpens: bool,
                sendError: Option<string>)
    returns (response: Response)
    modifies store
    ensures RouteRun(response, store.files)
            == DetectRoute(model, upload, token, writerOpens, sendError, old(store.files), store.locked)
  {
    if upload.NoFilePart? {
      return ErrorReply(400, NoFilePartMessage);
    }
    if upload.filename == "" {
      return ErrorReply(400, NoFileSelectedMessage);
    }
    if !HasVideoExtension(upload.filename) {
      return ErrorReply(400, UnsupportedFormatMessage);
    }
    var inputPath := InputPath(token, upload.filename);
    store.Save(inputPath);
    var outputName := OutputName(token);
    var outputPath := OutputPath(token);
    var success, message;
    ghost var capture, writer;
    success, message, capture, writer := DetectObjectsInVideo(store, model, upload.video, outputPath, writerOpens);
    var removal := store.Remove(inputPath);
    if !success {
      return ErrorReply(500, message);
    }
    if sendError.Some? {
      return ErrorReply(500, SendFailedPrefix + sendError.value);
    }
    var err := store.Remove(outputPath);
    if err.Some? {
      return ErrorReply(500, SendFailedPrefix + err.value);
    }
    return VideoReply(outputPath, outputName);
  }

  /** A rejected upload answers 400 with the first failed check's message and touches no file. */
  lemma RouteRejectsBeforeSaving(model: Option<Model>, upload: Upload, token: string, writerOpens: bool,
                                 sendError: Option<string>, files: set<string>, locked: set<string>)
    requires ValidationError(upload).Some?
    ensures DetectRoute(model, upload, token, writerOpens, sendError, files, locked)
            == RouteRun(ErrorReply(400, ValidationError(upload).value), files)
  {
  }

  /**
   * Status 400 means the upload was rejected, 500 that the pipeline, the sending or
   * the removal of the output failed, and 200 that the job's output is sent.
   */
  lemma RouteStatusCodes(model: Option<Model>, upload: Upload, token: string, writerOpens: bool,
                         sendError: Option<string>, files: set<string>, locked: set<string>)
    ensures var r := DetectRoute(model, upload, token, writerOpens, sendError, files, locked);
      && (Status(r.response) == 400 <==> ValidationError(upload).Some?)
      && (Status(r.response) == 200 <==> r.response.VideoReply?)
      && (r.response.VideoReply? ==> r.response == VideoReply(OutputPath(token), OutputName(token)))
      && (Status(r.response) == 200 || Status(r.response) == 400 || Status(r.response) == 500)
      && (ValidationError(upload).None? && !ServiceRun(model, upload.video, OutputPath(token), writerOpens,
            files + {InputPath(token, upload.filename)}).reply.success ==>
            r.response == ErrorReply(500, ServiceRun(model, upload.video, OutputPath(token), writerOpens,
              files + {InputPath(token, upload.filename)}).reply.message))
  {
  }

  /**
   * The route answers with the video exactly when the upload is valid, the pipeline
   * succeeds, sending does not raise and the output can be removed afterwards; the
   * video is then sent under the job's output name.
   */
  lemma RouteSendsVideoOnSuccess(model: Option<Model>, upload: Upload, token: string, writerOpens: bool,
                                 sendError: Option<string>, files: set<string>, locked: set<string>)
    ensures var r := DetectRoute(model, upload, token, writerOpens, sendError, files, locked);
      && (r.response.VideoReply? <==>
            && ValidationError(upload).None?
            && ServiceRun(model, upload.video, OutputPath(token), writerOpens,
                          files + {InputPath(token, upload.filename)}).reply.success
            && sendError.None?
            && OutputPath(token) !in locked)
      && (r.response.VideoReply? ==> r.response == VideoReply(OutputPath(token), OutputName(token)))
  {
    if upload.Upload? {
      InputOutputDistinct(token, upload.filename, token);
    }
  }

  /** Whatever the pipeline's outcome, the job's input is gone afterwards unless its removal is refused. */
  lemma RouteRemovesInput(model: Option<Model>, upload: Upload, token: string, writerOpens: bool,
                          sendError: Option<string>, files: set<string>, locked: set<string>)
    requires ValidationError(upload).None?
    requires InputPath(token, upload.filename) !in locked
    ensures InputPath(token, upload.filename)
            !in DetectRoute(model, upload, token, writerOpens, sendError, files, locked).files
  {
  }

  /** A refused removal of the input changes nothing in the response. */
  lemma RemovalErrorDoesNotChangeResponse(model: Option<Model>, upload: Upload, token: string, writerOpens: bool,
                                          sendError: Option<string>, files: set<string>, locked: set<string>)
    requires ValidationError(upload).None?
    ensures DetectRoute(model, upload, token, writerOpens, sendError, files, locked + {InputPath(token, upload.filename)}).response
            == DetectRoute(model, upload, token, writerOpens, sendError, files, locked - {InputPath(token, upload.filename)}).response
  {
    InputOutputDistinct(token, upload.filename, token);
  }

  /** When the video is sent, neither of the job's files is left behind. */
  lemma RouteSuccessLeavesNoArtifacts(model: Option<Model>, upload: Upload, token: string, writerOpens: bool,
                                      sendError: Option<string>, files: set<string>, locked: set<string>)
    requires ValidationError(upload).None?
    requires InputPath(token, upload.filename) !in locked
    ensures var r := DetectRoute(model, upload, token, writerOpens, sendError, files, locked);
      r.response.VideoReply? ==> r.files == files - {InputPath(token, upload.filename), OutputPath(token)}
  {
  }

  /**
   * The route removes the output only after sending it: when inference fails after
   * the writer opened, or sending raises, the job's output file is left in place.
   */
  lemma RouteKeepsOutputOnFailure(model: Option<Model>, upload: Upload, token: string, writerOpens: bool,
                                  sendError: Option<string>, files: set<string>, locked: set<string>)
    requires ValidationError(upload).None?
    requires model.Some? && upload.video.opens && writerOpens
    requires (exists j :: 0 <= j < |upload.video.frames| && model.value.infer(upload.video.frames[j]).Failed?)
             || sendError.Some?
    ensures var r := DetectRoute(model, upload, token, writerOpens, sendError, files, locked);
      Status(r.response) == 500 && OutputPath(token) in r.files
  {
    InputOutputDistinct(token, upload.filename, token);
    ServiceSuccessWritesEveryFrame(model, upload.video, OutputPath(token), writerOpens,
                                   files + {InputPath(token, upload.filename)});
  }

  /** Without a loaded model, a valid upload answers 500 with the model message, and its input is removed. */
  lemma RouteWithoutModel(upload: Upload, token: string, writerOpens: bool, sendError: Option<string>,
                          files: set<string>, locked: set<string>)
    requires ValidationError(upload).None?
    requires InputPath(token, upload.filename) !in locked
    ensures DetectRoute(None, upload, token, writerOpens, sendError, files, locked)
            == RouteRun(ErrorReply(500, ModelNotLoaded), files - {InputPath(token, upload.filename)})
  {
  }

  /** A video the capture cannot open answers 500 with the open message, and its input is removed. */
  lemma RouteUnopenableVideo(model: Option<Model>, upload: Upload, token: string, writerOpens: bool,
                             sendError: Option<string>, files: set<string>, locked: set<string>)
    requires ValidationError(upload).None? && model.Some? && !upload.video.opens
    requires InputPath(token, upload.filename) !in locked
    ensures DetectRoute(model, upload, token, writerOpens, sendError, files, locked)
            == RouteRun(ErrorReply(500, CannotOpenVideo), files - {InputPath(token, upload.filename)})
  {
  }

  /** A text file is rejected with the format message. */
  lemma RouteRejectsTextFile(model: Option<Model>, video: SourceSpec, token: string, writerOpens: bool,
                             sendError: Option<string>, files: set<string>, locked: set<string>)
    ensures DetectRoute(model, Upload("notes.txt", video), token, writerOpens, sendError, files, locked)
            == RouteRun(ErrorReply(400, UnsupportedFormatMessage), files)
  {
    assert Lower("notes.txt")[5..] == ".txt";
  }

  // ---------------------------------------------------------------------------
  // The health route.

  datatype Health = Health(status: int, state: string, modelLoaded: bool)

  /** `GET /health`. */
  function HealthCheck(model: Option<Model>): Health {
    Health(200, "healthy", model.Some?)
  }

  /** The health route reports the model as loaded exactly when the load at start-up did not raise. */
  lemma HealthReportsLoad(load: Result<Model>)
    ensures HealthCheck(LoadModel(load)) == Health(200, "healthy", load.Ok?)
    ensures LoadModel(load).Some? ==> LoadModel(load).value == load.value
  {
  }
}
