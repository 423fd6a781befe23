/**
 * The collaborators the pipelines drive: the file system (a set of existing paths),
 * the video capture (a source of frames that can be read and released) and the video
 * writer (a sink that frames are appended to). Each pipeline run is observed through
 * an Outcome: its reply, the final state of both handles, the writer's configuration,
 * the frames that reached the output file and the paths that exist afterwards.
 */
module Media {
  import opened Wrappers
  import opened Renderer

  /**
   * What a capture will see when it is created: whether it opens, the stream
   * properties it reports, and the frames it yields before its first failed read
   * (the end of a file, a corrupt frame or a camera error all end the list).
   */
  datatype SourceSpec = SourceSpec(opens: bool, width: int, height: int, fps: real, frames: seq<Frame>)

  /** How a writer was configured: output path, frame rate and frame size. */
  datatype SinkConfig = SinkConfig(path: string, fps: real, width: int, height: int)

  /** The state a capture or writer handle is left in. */
  datatype HandleState =
    | Absent    // never created
    | Unopened  // created, failed to open, never released
    | Opened    // open and never released: a leaked handle
    | Released

  /** The error text `os.remove` raises for `p`, if it raises. */
  function RemoveFailure(files: set<string>, locked: set<string>, p: string): Option<string> {
    if p !in files then Some("[Errno 2] No such file or directory: '" + p + "'")
    else if p in locked then Some("[Errno 13] Permission denied: '" + p + "'")
    else None
  }

  /** The existing paths after `os.remove(p)`. */
  function AfterRemove(files: set<string>, locked: set<string>, p: string): set<string> {
    if RemoveFailure(files, locked, p).None? then files - {p} else files
  }

  /** The file system: the paths that exist, and those whose removal is refused. */
  class Storage {
    var files: set<string>
    const locked: set<string>

    constructor (files: set<string>, locked: set<string>)
      ensures this.files == files && this.locked == locked
    {
      this.files := files;
      this.locked := locked;
    }

    /** Writes a file at `p`, replacing any file already there. */
    method Save(p: string)
      modifies this
      ensures files == old(files) + {p}
    {
      files := files + {p};
    }

    method Remove(p: string) returns (err: Option<string>)
      modifies this
      ensures err == RemoveFailure(old(files), locked, p)
      ensures files == AfterRemove(old(files), locked, p)
      ensures err.None? <==> p in old(files) && p !in locked
    {
      err := RemoveFailure(files, locked, p);
      if err.None? {
        files := files - {p};
      }
    }
  }

  /** A video capture: reads the source's frames in order until a read fails. */
  class Capture {
    const isOpen: bool
    const width: int
    const height: int
    const fps: real
    const frames: seq<Frame>
    var next: nat
    var released: bool

    ghost predicate Valid()
      reads this
    {
      next <= |frames|
    }

    constructor (source: SourceSpec)
      ensures Valid()
      ensures isOpen == source.opens && frames == source.frames
      ensures width == source.width && height == source.height && fps == source.fps
      ensures next == 0 && !released
    {
      isOpen := source.opens;
      width, height, fps := source.width, source.height, source.fps;
      frames := source.frames;
      next, released := 0, false;
    }

    /** `ok` is false once the frames are exhausted, or on a handle that is not open. */
    method Read() returns (ok: bool, frame: Frame)
      requires Valid()
      modifies this
      ensures Valid() && released == old(released)
      ensures ok == (isOpen && !released && old(next) < |frames|)
      ensures ok ==> frame == frames[old(next)] && next == old(next) + 1
      ensures !ok ==> next == old(next)
    {
      ok := isOpen && !released && next < |frames|;
      if ok {
        frame := frames[next];
        next := next + 1;
      } else {
        frame := Frame(0, []);
      }
    }

    method Release()
      requires Valid()
      modifies this
      ensures Valid() && released && next == old(next)
    {
      released := true;
    }
  }

  /**
   * A video writer. An opened writer creates its output file and appends every
   * frame written to it; writing to a writer that did not open, or was released,
   * does nothing.
   */
  class Writer {
    const path: string
    const fps: real
    const width: int
    const height: int
    const isOpen: bool
    var written: seq<Frame>
    var released: bool

    /** `opens` stands for the outcome of the codec negotiation. */
    constructor (store: Storage, path: string, fps: real, width: int, height: int, opens: bool)
      modifies store
      ensures this.path == path && this.fps == fps && this.width == width && this.height == height
      ensures isOpen == opens && written == [] && !released
      ensures store.files == if opens then old(store.files) + {path} else old(store.files)
    {
      this.path, this.fps, this.width, this.height := path, fps, width, height;
      isOpen := opens;
      written, released := [], false;
      new;
      if opens {
        store.Save(path);
      }
    }

    method Write(frame: Frame)
      modifies this
      ensures released == old(released)
      ensures written == if isOpen && !released then old(written) + [frame] else old(written)
    {
      if isOpen && !released {
        written := written + [frame];
      }
    }

    method Release()
      modifies this
      ensures released && written == old(written)
    {
      released := true;
    }
  }

  function CaptureState(c: Capture?): HandleState
    reads c
  {
    if c == null then Absent
    else if c.released then Released
    else if c.isOpen then Opened
    else Unopened
  }

  function WriterState(w: Writer?): HandleState
    reads w
  {
    if w == null then Absent
    else if w.released then Released
    else if w.isOpen then Opened
    else Unopened
  }

  /** The observable result of one pipeline run. */
  datatype Outcome<R> = Outcome(
    reply: R,
    capture: HandleState,
    writer: HandleState,
    sink: Option<SinkConfig>,
    written: seq<Frame>,
    files: set<string>)

  /** The outcome a run left behind in `reply`, its two handles and the file system. */
  function Observe<R>(reply: R, c: Capture?, w: Writer?, files: set<string>): Outcome<R>
    reads c, w
  {
    Outcome(
      reply, CaptureState(c), WriterState(w),
      if w == null then None else Some(SinkConfig(w.path, w.fps, w.width, w.height)),
      if w == null then [] else w.written,
      files)
  }
}
