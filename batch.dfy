/**
 * The batch variant: annotate a video at a local path into a fixed result file.
 * Its guards return nothing (a console message is all the caller gets); an
 * inference exception only ends the frame loop, so a truncated output is still
 * reported as the result.
 */
module Batch {
  import opened Wrappers
  import opened Renderer
  import opened Media
  import opened FrameLoop
  import App

  const ResultVideoPath: string := "./Results/detected_downloaded_video.mp4"

  /**
   * What one batch run does: a missing input file, a model that fails to load, a
   * source that does not open and a writer that does not open each give no result;
   * otherwise the loop runs and the result path is returned.
   */
  function BatchRun(videoPath: string, load: Result<Model>, video: SourceSpec, writerOpens: bool,
                    files: set<string>): Outcome<Option<string>>
  {
    if videoPath !in files then Outcome(None, Absent, Absent, None, [], files)
    else if load.Err? then Outcome(None, Absent, Absent, None, [], files)
    else if !video.opens then Outcome(None, Unopened, Absent, None, [], files)
    else
      var sink := Some(SinkConfig(ResultVideoPath, video.fps, video.width, video.height));
      if !writerOpens then Outcome(None, Released, Unopened, sink, [], files)
      else
        var s := Stream(load.value.infer, video.frames, FileStyle);
        Outcome(Some(ResultVideoPath), Released, Released, sink, s.written, files + {ResultVideoPath})
  }

  /**
   * The batch pipeline. `load` is the outcome of loading the model's weights and
   * `video` what a capture of `videoPath` sees; `capture` and `writer` are the
   * handles it created, exposed for the contract.
   */
  method DetectObjectsInDownloadedVideo(store: Storage, videoPath: string, load: Result<Model>, video: SourceSpec,
                                        writerOpens: bool)
    returns (result: Option<string>, ghost capture: Capture?, ghost writer: Writer?)
    modifies store
    ensures Observe(result, capture, writer, store.files)
            == BatchRun(videoPath, load, video, writerOpens, old(store.files))
  {
    if videoPath !in store.files {
      return None, null, null;
    }
    if load.Err? {
      return None, null, null;
    }
    var model := load.value;
    var cap := new Capture(video);
    if !cap.isOpen {
      return None, cap, null;
    }
    var width, height, fps := cap.width, cap.height, cap.fps;
    var out := new Writer(store, ResultVideoPath, fps, width, height, writerOpens);
    if !out.isOpen {
      cap.Release();
      return None, cap, out;
    }
    // An inference exception ends the loop like the end of the video does.
    var failure := WriteFrames(cap, out, model.infer);
    cap.Release();
    out.Release();
    return Some(ResultVideoPath), cap, out;
  }

  /**
   * The guards in their order: the input path is checked before the model is
   * loaded, the model before the source is opened, and the source before a writer
   * is created; a writer that does not open has the capture released. None of them
   * gives a result or writes a frame.
   */
  lemma BatchChecksInOrder(videoPath: string, load: Result<Model>, video: SourceSpec, writerOpens: bool,
                           files: set<string>)
    ensures var r := BatchRun(videoPath, load, video, writerOpens, files);
      && (videoPath !in files || load.Err? ==> r == Outcome(None, Absent, Absent, None, [], files))
      && (videoPath in files && load.Ok? && !video.opens ==>
            r.reply.None? && r.capture == Unopened && r.writer == Absent && r.written == [])
      && (videoPath in files && load.Ok? && video.opens && !writerOpens ==>
            r.reply.None? && r.capture == Released && r.written == [] && r.files == files)
  {
  }

  /** The writer is configured with the fixed result path and the source's width, height and frame rate. */
  lemma BatchSinkMatchesSource(videoPath: string, load: Result<Model>, video: SourceSpec, writerOpens: bool,
                               files: set<string>)
    ensures var r := BatchRun(videoPath, load, video, writerOpens, files);
      && (r.sink.Some? <==> videoPath in files && load.Ok? && video.opens)
      && (r.sink.Some? ==> r.sink.value == SinkConfig(ResultVideoPath, video.fps, video.width, video.height))
  {
  }

  /** No exit leaves a handle open. */
  lemma BatchReleasesHandles(videoPath: string, load: Result<Model>, video: SourceSpec, writerOpens: bool,
                             files: set<string>)
    ensures var r := BatchRun(videoPath, load, video, writerOpens, files);
      r.capture != Opened && r.writer != Opened
  {
  }

  /**
   * Once both handles open, the result path is returned whatever inference does;
   * the output holds the annotated frames, one per frame read and in order, up to
   * the first frame whose inference raised, so a truncated video counts as success.
   */
  lemma BatchReportsTruncatedOutput(videoPath: string, load: Result<Model>, video: SourceSpec, files: set<string>)
    requires videoPath in files && load.Ok? && video.opens
    ensures var r, k := BatchRun(videoPath, load, video, true, files), FirstFailure(load.value.infer, video.frames, 0);
      && r.reply == Some(ResultVideoPath)
      && r.capture == Released && r.writer == Released
      && |r.written| == k
      && (forall j :: 0 <= j < k ==> r.written[j] == Overlaid(load.value.infer, video.frames[j], FileStyle))
      && (k < |video.frames| <==> exists j :: 0 <= j < |video.frames| && load.value.infer(video.frames[j]).Failed?)
  {
    StreamWritesPrefix(load.value.infer, video.frames, FileStyle);
  }

  /**
   * The batch and service variants write the same frames for the same model and
   * video; they differ only in what they report when inference raises: the
   * service fails with the error, the batch run still returns its path.
   */
  lemma BatchAndServiceWriteAlike(videoPath: string, model: Model, video: SourceSpec, outputPath: string,
                                  files: set<string>)
    requires videoPath in files && video.opens
    ensures var b, s := BatchRun(videoPath, Ok(model), video, true, files),
                        App.ServiceRun(Some(model), video, outputPath, true, files);
      && b.written == s.written
      && b.reply.Some?
      && (!s.reply.success <==> exists j :: 0 <= j < |video.frames| && model.infer(video.frames[j]).Failed?)
  {
    App.ServiceSuccessWritesEveryFrame(Some(model), video, outputPath, true, files);
  }
}
