/**
 * The annotation renderer shared by the three pipelines: the confidence gate, the
 * colour chosen per class, and the box and label drawn for every admitted detection.
 * Drawing is modelled as appending one Mark per admitted detection to the frame's
 * overlay list; the raster itself is an opaque token that drawing never changes.
 */
module Renderer {

  /** A pixel position. */
  datatype Point = Point(x: int, y: int)

  /** A bounding box in (xmin, ymin, xmax, ymax) order, already truncated to pixels. */
  datatype Box = Box(xmin: int, ymin: int, xmax: int, ymax: int)

  /** One object found by the engine in one frame. */
  datatype Detection = Detection(classId: int, confidence: real, box: Box)

  /** A colour in OpenCV's blue, green, red order. */
  datatype Color = Color(blue: int, green: int, red: int)

  /** What the label text is made of: the class (its name is looked up by id) and the confidence. */
  datatype Label = Label(classId: int, confidence: real)

  /** The overlay drawn for one detection: a rectangle and a text label above it. */
  datatype Mark = Mark(
    topLeft: Point, bottomRight: Point, color: Color, thickness: nat,
    caption: Label, labelAt: Point, fontScale: real, labelThickness: nat)

  /** A frame: the pixels as read (opaque) and the marks drawn on them so far. */
  datatype Frame = Frame(raster: int, overlay: seq<Mark>)

  /** The stroke and font settings of one pipeline variant. */
  datatype Style = Style(boxThickness: nat, fontScale: real, labelThickness: nat)

  /** Detections below this confidence are not drawn. */
  const ConfidenceGate: real := 0.5

  /** Offset, in pixels, of the label's anchor above the box's top edge. */
  const LabelLift: int := 10

  /** Style of the service and batch variants: box stroke 2, font scale 1, label stroke 2. */
  const FileStyle: Style := Style(2, 1.0, 2)

  /** Style of the live camera variant: box stroke 2, font scale 0.5, label stroke 1. */
  const LiveStyle: Style := Style(2, 0.5, 1)

  predicate Admits(d: Detection) {
    d.confidence >= ConfidenceGate
  }

  /** The colour depends on the class id alone. */
  function ClassColor(classId: int): Color {
    Color(0, classId, 255)
  }

  /** The mark drawn for an admitted detection. */
  function MarkFor(d: Detection, st: Style): Mark {
    Mark(Point(d.box.xmin, d.box.ymin), Point(d.box.xmax, d.box.ymax), ClassColor(d.classId),
         st.boxThickness, Label(d.classId, d.confidence), Point(d.box.xmin, d.box.ymin - LabelLift),
         st.fontScale, st.labelThickness)
  }

  /** A mark as the renderer draws it: for an admitted detection, coloured by its class, in style `st`. */
  ghost predicate WellFormedMark(m: Mark, st: Style) {
    && m.caption.confidence >= ConfidenceGate
    && m.color == ClassColor(m.caption.classId)
    && m.thickness == st.boxThickness
    && m.labelAt == Point(m.topLeft.x, m.topLeft.y - LabelLift)
    && m.fontScale == st.fontScale
    && m.labelThickness == st.labelThickness
  }

  // ---------------------------------------------------------------------------
  // Reference definitions: the detections that pass the gate, in engine order.

  /** The detections that pass the confidence gate, in their original order. */
  function Admitted(ds: seq<Detection>): (r: seq<Detection>)
    ensures |r| <= |ds|
    ensures forall d :: d in r ==> d in ds && Admits(d)
    ensures forall d :: d in ds && Admits(d) ==> d in r
  {
    if ds == [] then []
    else (if Admits(ds[0]) then [ds[0]] else []) + Admitted(ds[1..])
  }

  /** All detections of all result sets, result set by result set. */
  function Flatten(rs: seq<seq<Detection>>): seq<Detection> {
    if rs == [] then [] else rs[0] + Flatten(rs[1..])
  }

  function MarkList(ds: seq<Detection>, st: Style): seq<Mark> {
    seq(|ds|, i requires 0 <= i < |ds| => MarkFor(ds[i], st))
  }

  // ---------------------------------------------------------------------------
  // The renderer as the loops draw: result set by result set, detection by detection.

  function DetectionMarks(ds: seq<Detection>, st: Style): seq<Mark> {
    if ds == [] then []
    else DetectionMarks(ds[..|ds| - 1], st)
         + (if Admits(ds[|ds| - 1]) then [MarkFor(ds[|ds| - 1], st)] else [])
  }

  function ResultMarks(rs: seq<seq<Detection>>, st: Style): seq<Mark> {
    if rs == [] then [] else ResultMarks(rs[..|rs| - 1], st) + DetectionMarks(rs[|rs| - 1], st)
  }

  /** The frame after drawing every admitted detection of every result set. */
  function Annotate(f: Frame, rs: seq<seq<Detection>>, st: Style): Frame {
    f.(overlay := f.overlay + ResultMarks(rs, st))
  }

  /**
   * The nested loop over result sets and their detections: a detection whose
   * confidence reaches the gate gets its box and label drawn on the frame.
   */
  method Render(frame: Frame, results: seq<seq<Detection>>, style: Style) returns (drawn: Frame)
    ensures drawn == Annotate(frame, results, style)
  {
    drawn := frame;
    var j := 0;
    while j < |results|
      invariant 0 <= j <= |results|
      invariant drawn == Annotate(frame, results[..j], style)
    {
      var detections := results[j];
      var pos := 0;
      while pos < |detections|
        invariant 0 <= pos <= |detections|
        invariant drawn.raster == frame.raster
        invariant drawn.overlay
                  == frame.overlay + ResultMarks(results[..j], style) + DetectionMarks(detections[..pos], style)
      {
        var d := detections[pos];
        if d.confidence >= ConfidenceGate {
          drawn := drawn.(overlay := drawn.overlay + [MarkFor(d, style)]);
        }
        assert detections[..pos + 1][..pos] == detections[..pos];
        pos := pos + 1;
      }
      assert detections[..pos] == detections;
      assert results[..j + 1][..j] == results[..j];
      j := j + 1;
    }
    assert results[..j] == results;
  }

  // ---------------------------------------------------------------------------
  // Properties of the renderer.

  lemma {:induction false} AdmittedAppend(a: seq<Detection>, b: seq<Detection>)
    ensures Admitted(a + b) == Admitted(a) + Admitted(b)
  {
    if a == [] {
      assert a + b == b;
    } else {
      assert (a + b)[0] == a[0];
      assert (a + b)[1..] == a[1..] + b;
      AdmittedAppend(a[1..], b);
    }
  }

  lemma {:induction false} FlattenAppend(a: seq<seq<Detection>>, x: seq<Detection>)
    ensures Flatten(a + [x]) == Flatten(a) + x
  {
    if a == [] {
      assert a + [x] == [x];
      assert Flatten([x][1..]) == [];
    } else {
      assert (a + [x])[0] == a[0];
      assert (a + [x])[1..] == a[1..] + [x];
      FlattenAppend(a[1..], x);
    }
  }

  lemma MarkListAppend(a: seq<Detection>, b: seq<Detection>, st: Style)
    ensures MarkList(a + b, st) == MarkList(a, st) + MarkList(b, st)
  {
  }

  /** Within one result set, the marks drawn are those of the admitted detections, in order. */
  lemma {:induction false} DetectionMarksAreAdmitted(ds: seq<Detection>, st: Style)
    ensures DetectionMarks(ds, st) == MarkList(Admitted(ds), st)
  {
    if ds != [] {
      var init, last := ds[..|ds| - 1], ds[|ds| - 1];
      assert ds == init + [last];
      DetectionMarksAreAdmitted(init, st);
      AdmittedAppend(init, [last]);
      assert Admitted([last]) == if Admits(last) then [last] else [];
      MarkListAppend(Admitted(init), Admitted([last]), st);
    }
  }

  /** Across result sets, the marks drawn are those of the admitted detections, in engine order. */
  lemma {:induction false} ResultMarksAreAdmitted(rs: seq<seq<Detection>>, st: Style)
    ensures ResultMarks(rs, st) == MarkList(Admitted(Flatten(rs)), st)
  {
    if rs != [] {
      var init, last := rs[..|rs| - 1], rs[|rs| - 1];
      assert rs == init + [last];
      ResultMarksAreAdmitted(init, st);
      DetectionMarksAreAdmitted(last, st);
      FlattenAppend(init, last);
      AdmittedAppend(Flatten(init), last);
      MarkListAppend(Admitted(Flatten(init)), Admitted(last), st);
    }
  }

  /**
   * Annotating keeps the pixels as read and draws exactly one mark per detection
   * that passes the gate, in the order the engine reported them, after any marks
   * already on the frame (a second call draws a second, overlapping overlay).
   */
  lemma AnnotateDrawsExactlyAdmitted(f: Frame, rs: seq<seq<Detection>>, st: Style)
    ensures Annotate(f, rs, st).raster == f.raster
    ensures Annotate(f, rs, st).overlay == f.overlay + MarkList(Admitted(Flatten(rs)), st)
  {
    ResultMarksAreAdmitted(rs, st);
  }

  lemma {:induction false} FlattenMembers(rs: seq<seq<Detection>>, d: Detection)
    requires d in Flatten(rs)
    ensures exists j :: 0 <= j < |rs| && d in rs[j]
  {
    if d !in rs[0] {
      FlattenMembers(rs[1..], d);
      var j :| 0 <= j < |rs[1..]| && d in rs[1..][j];
      assert d in rs[j + 1];
    }
  }

  /** When no detection reaches the gate, the frame is written exactly as read. */
  lemma LowConfidenceLeavesFrameUnchanged(f: Frame, rs: seq<seq<Detection>>, st: Style)
    requires forall j, d :: 0 <= j < |rs| && d in rs[j] ==> !Admits(d)
    ensures Annotate(f, rs, st) == f
  {
    AnnotateDrawsExactlyAdmitted(f, rs, st);
    if Admitted(Flatten(rs)) != [] {
      var d := Admitted(Flatten(rs))[0];
      FlattenMembers(rs, d);
    }
  }

  /**
   * Every mark drawn belongs to a detection at or above the gate, is coloured by its
   * class id alone (so two detections of one class share a colour), uses the
   * variant's strokes and font, and has its label anchored 10 pixels above the box.
   */
  lemma DrawnMarksAreWellFormed(f: Frame, rs: seq<seq<Detection>>, st: Style)
    ensures forall m :: m in Annotate(f, rs, st).overlay[|f.overlay|..] ==> WellFormedMark(m, st)
  {
    AnnotateDrawsExactlyAdmitted(f, rs, st);
    var ds := Admitted(Flatten(rs));
    assert Annotate(f, rs, st).overlay[|f.overlay|..] == MarkList(ds, st);
    forall m | m in MarkList(ds, st) ensures WellFormedMark(m, st) {
      var i :| 0 <= i < |ds| && MarkList(ds, st)[i] == m;
      assert ds[i] in ds;
    }
  }
}
