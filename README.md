# Video object detection pipeline — a Dafny model

This project models the core of a small video object-detection system. The
system reads a video frame by frame, runs a YOLO detector on each frame, draws
a box and a label for every detection whose confidence reaches 0.5, and
writes the annotated frame to an output video. It does this in three places:

- the HTTP service (`app.py`): `detect_objects_in_video`, the pipeline that
  returns `(success, message)`; the `POST /detect` route, which validates the
  upload, names the job's files after a fresh UUID, runs the pipeline, removes
  the input, and sends and then removes the output; and `GET /health`;
- the batch script (`video-detection.py`): the same pipeline on a local file
  with a fixed result path, where an inference exception only ends the loop;
- the live script (`webcam_detection.py`): the pipeline on camera 0, writing
  an `.avi` at a fixed 20 fps until a capture fails or the quit key is pressed.

The collaborators are state:

- The file system is a `Storage` object: a set of existing paths, plus the
  paths whose removal is refused.
- The video capture is a `Capture` object. It yields a finite list of frames
  (the frames before its first failed read) and can be released.
- The video writer is a `Writer` object. It is configured with a path, fps,
  width and height. When it opens, it creates its file and keeps the frames
  written to it.
- The detector is a function from a frame to its result sets or to the
  exception it raises.

Some events become parameters:

- whether the codec lets the writer open;
- the job's UUID text;
- the keys pressed after each shown frame;
- an exception from `send_file`.

Drawing is modelled as appending one `Mark` per admitted detection to the
frame's overlay list. A mark holds the rectangle corners, colour, stroke, label
contents, label anchor and font settings. The raster is an opaque token that
drawing never changes.

Each source function has two parts in the model:

- An imperative method. It works on the objects above.
- A specification function. It gives the whole observable outcome of one call:
  - the reply;
  - the final state of the capture and of the writer (never created, not
    opened, left open, or released);
  - the writer's configuration;
  - the frames that reached the output;
  - the paths that exist afterwards.

The method's postcondition says that the outcome it leaves behind equals that
function. These functions are `ServiceRun`, `DetectRoute`, `BatchRun` and
`WebcamRun`. The lemmas state the system's properties about them.

The frame loops are built from two reference functions. `Stream` covers the
file variants: they stop at the end of the frames or at the first inference
failure. `Live` covers the camera variant: it also stops after the frame that
the quit key follows. The loops themselves are the methods `WriteFrames` and
`ShowFrames`. In `app.py` the loop releases both handles and returns the error
from inside the loop. Here the loop returns the failure and the pipeline then
releases both handles and returns. The calls, their order and the outcome are
the same.

Modules: `Wrappers` (Option, Result), `Renderer` (detections, the confidence
gate, marks, `Render`), `Media` (storage, capture, writer, outcomes),
`FrameLoop` (the loop specifications and loop methods), `App`, `Batch`,
`Webcam`.

Four behaviours of the code fall short of the system's stated intent of
"release everything, leave no artifact". The model follows the code, and
lemmas state each behaviour:

- The route removes the output file only after sending it. When the pipeline
  fails after the writer opened, or when sending raises, the output file stays
  in `outputs/` (`App.RouteKeepsOutputOnFailure`).
- In the live script, an inference exception is not caught. It leaves the
  function with the capture open and the writer unreleased
  (`Webcam.WebcamLeaksHandlesOnInferenceError`).
- The live script never checks whether its writer opened. Its frames are then
  silently dropped (`Webcam.WebcamSinkIsFixedRate`).
- The live script draws its rectangles with stroke 2, like the other
  variants. Only its label is lighter: stroke 1 and font scale 0.5.
  The colour is `(0, class_id, 255)`, with no reduction modulo 256.

## Model

| member | source | states |
|---|---|---|
| `Renderer.Render` | app.py:51-64 | The nested loop over result sets and detections returns exactly `Annotate(frame, results, style)`: one mark per detection with confidence >= 0.5, in engine order |
| `Renderer.AnnotateDrawsExactlyAdmitted` | app.py:57-64 | Annotating keeps the raster and appends exactly one mark per detection passing the 0.5 gate, in order, after the marks already there; calling it twice draws twice |
| `Renderer.DetectionMarksAreAdmitted` | app.py:57-58 | Within one result set, the marks drawn are those of the detections with confidence >= 0.5, in order |
| `Renderer.ResultMarksAreAdmitted` | app.py:51-58 | Across result sets, the marks drawn are those of the admitted detections of all sets, set by set |
| `Renderer.LowConfidenceLeavesFrameUnchanged` | app.py:58 | When no detection reaches 0.5, the frame is written exactly as read |
| `Renderer.DrawnMarksAreWellFormed` | app.py:57-64 | Every drawn mark has confidence >= 0.5, colour `(0, classId, 255)` (so one class, one colour), the variant's box stroke, font and label stroke, and its label anchored at `(xmin, ymin - 10)` |
| `Media.Storage.Save` | app.py:87 | Saving the upload makes its path exist |
| `Media.Storage.Remove` | app.py:94 | `os.remove` deletes an existing, unlocked path; otherwise it raises the "no such file" or "permission denied" error and changes nothing |
| `Media.Capture.constructor` | app.py:25-31 | A capture reports whether it opened and the source's width, height and fps, and starts at the first frame |
| `Media.Capture.Read` | app.py:40-42 | A read succeeds exactly while the capture is open, unreleased and has frames left; it yields the next frame in order |
| `Media.Capture.Release` | app.py:68 | Releasing marks the capture released and consumes nothing |
| `Media.Writer.constructor` | app.py:33-34 | A writer keeps the path, fps, width and height it is given; when it opens, its output file exists and holds no frames |
| `Media.Writer.Write` | app.py:66 | Writing appends the frame to an open, unreleased writer and does nothing otherwise |
| `Media.Writer.Release` | app.py:69 | Releasing marks the writer released and keeps what was written |
| `FrameLoop.WriteFrames` | app.py:39-66 | The loop appends to the writer exactly `StreamFrom(...)`'s frames from the capture's position and returns the inference failure that ended it, if any; both handles stay open |
| `FrameLoop.StreamFromStopsAtFirstFailure` | video-detection.py:38-65 | From any frame, the loop writes one annotated frame per frame read, in order, up to the first inference failure, which it reports |
| `FrameLoop.StreamWritesPrefix` | app.py:39-66 | Over a whole video: the output is the annotated prefix before the first failing frame; there is a failure exactly when some frame's inference fails; without one, the output has as many frames as were read |
| `FrameLoop.FirstFailureIsLeast` | app.py:44-49 | The loop's stopping point is the least index whose inference fails |
| `FrameLoop.LiveFromStopsAtFirstStop` | webcam_detection.py:20-48 | From any frame, the live loop writes the annotated frames in order and stops at the end of the frames, at an inference exception (frame not written) or after the frame the quit key follows (frame written) |
| `FrameLoop.LiveStopsAtFirstStop` | webcam_detection.py:20-48 | Over the whole capture: the written frames are the annotated frames up to the first stop, including the quit frame, and an exception is raised exactly when the first stop is an inference failure |
| `FrameLoop.FirstStopIsLeast` | webcam_detection.py:26-48 | The live loop's stopping point is the least index whose inference fails or is followed by the quit key |
| `FrameLoop.ShowFrames` | webcam_detection.py:20-48 | The live loop appends `LiveFrom(...)`'s frames to the writer when it is open (nothing otherwise) and returns the inference exception, if any; both handles stay open |
| `App.DetectObjectsInVideo` | app.py:21-70 | The pipeline's reply, handle states, writer configuration, written frames and created files are exactly `ServiceRun` |
| `App.ServiceChecksInOrder` | app.py:22-37 | No model gives "YOLO model not loaded" with nothing opened; then an unopenable source gives "Could not open video file" with no writer; then an unopenable writer gives "Could not initialize video writer" with the capture released; none writes a frame |
| `App.ServiceSinkMatchesSource` | app.py:29-34 | A writer is created exactly when the model is loaded and the source opens, configured with the output path and the source's fps, width and height |
| `App.ServiceReleasesHandles` | app.py:35-49 | No exit of the pipeline leaves the capture or the writer open |
| `App.ServiceSuccessWritesEveryFrame` | app.py:39-70 | The pipeline replies `(True, "Success")` exactly when the model is loaded, both handles open and inference succeeds on every frame; then every frame read is written once, annotated, in order, and both handles are released |
| `App.ServiceInferenceFailureTruncates` | app.py:44-49 | An inference exception on frame k releases both handles, leaves exactly the k annotated frames before it in the output and replies `(False, "YOLO inference failed: <cause>")` |
| `App.Lower` | app.py:81 | Lower-casing keeps the length and lower-cases each character |
| `App.HasVideoExtensionIgnoresCase` | app.py:81 | A file name passes exactly when its last four characters are `.mp4` or `.avi` up to case |
| `App.ValidationOrder` | app.py:74-82 | An upload is accepted exactly when it has a file part whose name has a video extension; a missing part is reported first, then an empty name, then the extension |
| `App.InputOutputDistinct` | app.py:84-90 | A job's input path (under `uploads/`) never equals any output path (under `outputs/`) |
| `App.OutputPathInjective` | app.py:89-90 | Different job ids give different output paths `outputs/{id}_detected.mp4` |
| `App.InputPathInjective` | app.py:84-86 | With ids of one length, `uploads/{id}_{filename}` determines both the id and the file name |
| `App.Detect` | app.py:72-106 | The route's response and the paths left afterwards are exactly `DetectRoute` |
| `App.RouteRejectsBeforeSaving` | app.py:74-82 | A rejected upload answers 400 with the first failed check's message and touches no file |
| `App.RouteStatusCodes` | app.py:72-106 | 400 exactly for rejected uploads; 200 only for the video reply, which carries the job's output path and the name `{id}_detected.mp4`; a failed pipeline answers 500 with its own message; no other status is answered |
| `App.RouteSendsVideoOnSuccess` | app.py:98-104 | The route answers with the video exactly when the upload is valid, the pipeline succeeds, sending does not raise and the output can be removed afterwards; the reply then carries the job's output path and download name |
| `App.RouteRemovesInput` | app.py:91-96 | Whatever the pipeline's outcome, the job's input file no longer exists afterwards, unless its removal is refused |
| `App.RemovalErrorDoesNotChangeResponse` | app.py:93-96 | Whether removing the input succeeds or raises does not change the response |
| `App.RouteSuccessLeavesNoArtifacts` | app.py:101-104 | When the video is sent, the files left are those before the request minus the job's input and output |
| `App.RouteKeepsOutputOnFailure` | app.py:98-106 | When inference fails after the writer opened, or sending raises, the answer is 500 and the job's output file is left in place |
| `App.RouteWithoutModel` | app.py:91-99 | Without a loaded model, a valid upload answers 500 "YOLO model not loaded" and its input is removed |
| `App.RouteUnopenableVideo` | app.py:91-99 | An upload the capture cannot open answers 500 "Could not open video file" and its input is removed |
| `App.RouteRejectsTextFile` | app.py:81-82 | `notes.txt` answers 400 "Unsupported file format. Use MP4 or AVI." and no file is written |
| `App.HealthReportsLoad` | app.py:108-110 | The health route answers 200 "healthy", with `model_loaded` true exactly when the model load at start-up did not raise |
| `Batch.DetectObjectsInDownloadedVideo` | video-detection.py:5-71 | The batch run's result, handle states, writer configuration, written frames and created files are exactly `BatchRun` |
| `Batch.BatchChecksInOrder` | video-detection.py:6-36 | A missing input gives no result before the model is loaded; a failed load, then an unopenable source, then an unopenable writer (capture released) each give no result and write nothing |
| `Batch.BatchSinkMatchesSource` | video-detection.py:24-31 | The writer is created exactly when the checks before it pass, with the fixed path `./Results/detected_downloaded_video.mp4` and the source's fps, width and height |
| `Batch.BatchReleasesHandles` | video-detection.py:33-68 | No exit leaves the capture or the writer open |
| `Batch.BatchReportsTruncatedOutput` | video-detection.py:38-71 | Once both handles open, the result path is returned whatever inference does; the output is the annotated prefix before the first inference failure, which is shorter than the video exactly when some frame fails |
| `Batch.BatchAndServiceWriteAlike` | video-detection.py:44-48 | For the same model and video, the batch and service pipelines write the same frames; the batch always returns its path, while the service fails exactly when some inference fails |
| `Webcam.DetectObjectsInWebcam` | webcam_detection.py:4-53 | The live run's outcome (returned or raised), handle states, writer configuration, written frames and created files are exactly `WebcamRun` |
| `Webcam.WebcamWithoutCamera` | webcam_detection.py:7-11 | A camera that does not open returns nothing, with no writer and nothing written |
| `Webcam.WebcamSinkIsFixedRate` | webcam_detection.py:13-18 | The writer uses 20 fps and the camera's width and height; when it fails to open, the run goes on as before but nothing reaches the output |
| `Webcam.WebcamWritesUntilQuit` | webcam_detection.py:20-53 | When no inference raises up to the loop's first stop, whatever later frames would do, the stop is the quit key or the end of the captured frames; every frame up to and including the one the quit key follows is written annotated, in order; both handles are released and the `.avi` path is returned |
| `Webcam.WebcamQuitKeyEndsRun` | webcam_detection.py:43-53 | A quit key after frame k, with frames 0..k detected and no earlier quit, ends the run normally with exactly frames 0..k written annotated and both handles released, even if a later frame would make inference raise |
| `Webcam.WebcamLeaksHandlesOnInferenceError` | webcam_detection.py:26 | An inference exception on frame k propagates after exactly the k annotated frames before it were written, in order, with the capture left open and the writer unreleased |
| `Webcam.WebcamLoadFailureRaises` | webcam_detection.py:5 | A model that fails to load raises before the camera is opened |

## Left out

- Pixel drawing (`cv2.rectangle`, `cv2.putText`), fonts and anti-aliasing: a drawn detection is a `Mark` in the frame's overlay list. The label keeps the class id and the confidence. The class-name lookup and the two-decimal formatting are not modelled.
- Frames are values. The in-place update of the frame buffer is a reassignment of the frame read in that iteration. The buffer is not shared with anything else, so nothing is lost.
- YOLO inference and weight loading: the engine is a function from a frame to its result sets or to an exception message. The same frame therefore always gets the same answer. Loading is a `Result` given to the pipeline.
- `int()` truncation of the box coordinates and of the capture's width and height: these are integers already. The fps is a real number, passed through unchanged.
- A read that fails in the middle of a video cannot be told apart from the end of the video. Both end the capture's list of frames.
- Codec negotiation: whether a writer opens is a parameter. A writer that opens creates its file; one that does not open creates nothing.
- Flask: request parsing, JSON bodies, MIME type and streaming are not modelled. A response is a status with an error message, or the output path with its download name. Any exception from `send_file` is a parameter.
- `uuid.uuid4()` is the `token` parameter. `os.makedirs`, the weights path constants, `app.run`, the scripts' `__main__` blocks and every `print` are not modelled.
- `App.Lower`: lower-cases ASCII letters only, where Python's `str.lower` also lower-cases other letters. The accepted extensions are ASCII, so the extension test does not change.
- `file.save` is assumed to succeed. An upload name containing `/` would make it raise, because the sub-directory does not exist; that is not modelled. `os.path.join` is modelled as joining with `/`.
- `cv2.imshow`, `cv2.waitKey` and `cv2.destroyAllWindows`: only the quit decision is kept, as one boolean per shown frame.
