/**
 The geometry of rendering a diagram to an image: the root element is measured,
 placed after the left margin, the start cap and a track stub, laid out going
 forward at its measured width, and the canvas is sized to hold it together
 with the two end caps, their stubs and the margins. Drawing itself (paths,
 colours, fonts, the pixel scale) is not modelled.
 */
module Render {
  import opened Style
  import opened Tree
  import opened MeasurePass
  import opened MeasureProperties
  import opened LayoutPass
  import opened Containment
  import opened LayoutAsWritten

  /** What a render computes before drawing: the canvas size, the laid-out
      root, the y of the track line, the top of the end caps and the left
      edges of the start and end caps. */
  datatype Canvas = Canvas(width: int, height: int, root: Node, lineY: int, capY: int, capX1: int, capX2: int)

  /** Renders the geometry of `e`. The source traps on an out-of-range
      center index while measuring and asserts a positive canvas before
      drawing; both become errors here. */
  function RenderGeometry(e: Element, st: DiagramStyle): (r: Result<Canvas>)
    ensures !ValidCenters(e) <==> r == Failure(CenterIndexOutOfRange)
    ensures r.Ok? ==> r.value.width > 0 && r.value.height > 0
  {
    if !ValidCenters(e) then Failure(CenterIndexOutOfRange)
    else
      var measured := Measure(e, st);
      CanvasAround(Place(measured, RootX(st), st.margin.top, measured.f.width, st, Forward), st)
  }

  /** Where the root goes: after the left margin, the start cap and its stub. */
  function RootX(st: DiagramStyle): int {
    st.margin.left + st.arrowSize + st.horizontalSpacing
  }

  /** The canvas around a laid-out root, or the failed size assertion. */
  function CanvasAround(root: Node, st: DiagramStyle): (r: Result<Canvas>)
    ensures r.Failure? ==> r.error == CanvasNotPositive
    ensures r.Ok? ==> r.value.root == root && r.value.width > 0 && r.value.height > 0
  {
    var cap := st.arrowSize;
    var hs := st.horizontalSpacing;
    var width := root.f.width + cap * 2 + hs * 2 + st.margin.left + st.margin.right;
    var height := root.f.height + st.margin.top + st.margin.bottom;
    if width <= 0 || height <= 0 then Failure(CanvasNotPositive)
    else
      var lineY := root.f.y + root.f.connectY;
      Ok(Canvas(width, height, root, lineY, lineY - (cap + 1) / 2,
                root.f.x - cap - hs, root.f.x + root.f.width + hs))
  }

  /** The render as the source performs it: the layout traps on an empty
      Series given positive width, anywhere in the tree, and drawing, which
      visits every node, traps on an empty Parallel whose center index is
      neither 0 nor -1. Nothing else of drawing is modelled. */
  function RenderAsWritten(e: Element, st: DiagramStyle): (r: Result<Canvas>)
    ensures !ValidCenters(e) <==> r == Failure(CenterIndexOutOfRange)
    ensures r.Ok? ==> r.value.width > 0 && r.value.height > 0
    ensures r.Ok? ==> DrawableCenters(e)
  {
    if !ValidCenters(e) then Failure(CenterIndexOutOfRange)
    else
      var measured := Measure(e, st);
      match PlaceAsWritten(measured, RootX(st), st.margin.top, measured.f.width, st, Forward)
      case Failure(trap) => Failure(trap)
      case Ok(root) =>
        match CanvasAround(root, st)
        case Failure(trap) => Failure(trap)
        case Ok(canvas) => if DrawableCenters(e) then Ok(canvas) else Failure(UnwrapOfEmptyParallel)
  }

  /** The source's render and the model's differ only where the source
      traps in a Series' slack spread: otherwise they compute the same
      canvas, or fail the same way. */
  lemma RenderAsWrittenAgrees(e: Element, st: DiagramStyle)
    ensures || RenderAsWritten(e, st) == RenderGeometry(e, st)
            || RenderAsWritten(e, st) == Failure(UnwrapOfEmptySeries)
            || RenderAsWritten(e, st) == Failure(UnwrapOfEmptyParallel)
    ensures RenderAsWritten(e, st)
              == if ValidCenters(e) && Traps(Measure(e, st), Measure(e, st).f.width, st)
                 then Failure(UnwrapOfEmptySeries)
                 else if RenderGeometry(e, st).Ok? && !DrawableCenters(e)
                 then Failure(UnwrapOfEmptyParallel)
                 else RenderGeometry(e, st)
  {
    if ValidCenters(e) {
      var measured := Measure(e, st);
      PlaceAsWrittenAgrees(measured, RootX(st), st.margin.top, measured.f.width, st, Forward);
      PlaceTrapsExactly(measured, RootX(st), st.margin.top, measured.f.width, st, Forward);
    }
  }

  /** A trap in the layout of the measured root is the render's result. */
  lemma LayoutTrapEndsRender(e: Element, st: DiagramStyle)
    requires ValidCenters(e)
    requires var m := Measure(e, st);
             PlaceAsWritten(m, RootX(st), st.margin.top, m.f.width, st, Forward).Failure?
    ensures RenderAsWritten(e, st) == Failure(UnwrapOfEmptySeries)
  {
  }

  /** A diagram in which every Series has an element renders the same in
      the source and in the model, unless drawing reaches an empty Parallel
      with a center index other than 0 or -1. */
  lemma RenderAsWrittenWithoutEmptySeries(e: Element, st: DiagramStyle)
    requires NoEmptySeries(e)
    ensures DrawableCenters(e) ==> RenderAsWritten(e, st) == RenderGeometry(e, st)
    ensures !DrawableCenters(e) && RenderGeometry(e, st).Ok? ==> RenderAsWritten(e, st) == Failure(UnwrapOfEmptyParallel)
  {
    RenderAsWrittenAgrees(e, st);
    if ValidCenters(e) {
      var measured := Measure(e, st);
      assert Erase(measured) == e;
      NoEmptySeriesNeverTraps(measured, measured.f.width, st);
    }
  }

  /** The horizontal budget of a canvas: margin, cap, stub, the root, stub,
      cap, margin, left to right and without gaps; vertically the root sits
      between the top and bottom margins at its measured size. The end caps
      are centered on the track line, rounded upwards. */
  lemma CanvasFramesRoot(e: Element, st: DiagramStyle)
    ensures RenderGeometry(e, st).Ok? ==>
            var c := RenderGeometry(e, st).value;
            var cap := st.arrowSize;
            var hs := st.horizontalSpacing;
            && c.root.f.width == Measure(e, st).f.width
            && c.root.f.height == Measure(e, st).f.height
            && c.capX1 == st.margin.left
            && c.capX1 + cap + hs == c.root.f.x
            && c.root.f.x + c.root.f.width + hs == c.capX2
            && c.capX2 + cap + st.margin.right == c.width
            && c.root.f.y == st.margin.top
            && c.root.f.y + c.root.f.height + st.margin.bottom == c.height
            && c.lineY == c.root.f.y + Measure(e, st).f.connectY
            && 0 <= 2 * (c.lineY - c.capY) - cap <= 1
  {
  }

  /** For non-negative insets and spacings, the track line crosses the root,
      and every element of the rendered tree lies inside its parent and on
      its parent's line where the track runs through. */
  lemma RenderKeepsTreeInside(e: Element, st: DiagramStyle)
    requires NonNegativeInsets(e) && st.Sane()
    ensures RenderGeometry(e, st).Ok? ==>
            var c := RenderGeometry(e, st).value;
            && c.root.f.y <= c.lineY <= c.root.f.y + c.root.f.height
            && WellPlaced(c.root) && Joined(c.root)
  {
    if ValidCenters(e) {
      MeasuredConnectYInRange(e, st);
      var root := Place(Measure(e, st), RootX(st), st.margin.top, Measure(e, st).f.width, st, Forward);
      LayoutKeepsChildrenInside(e, st, RootX(st), st.margin.top, Measure(e, st).f.width, Forward);
      assert RenderGeometry(e, st).Ok? ==> RenderGeometry(e, st).value.root == root;
    }
  }

  /** For non-negative insets, spacings and margins, a well-formed element
      fails to render exactly when the canvas would have no width (no
      element width, caps, spacing or side margins) or no height (no element
      height and no top or bottom margin). */
  lemma RenderFailsOnlyOnEmptyCanvas(e: Element, st: DiagramStyle)
    requires ValidCenters(e) && NonNegativeInsets(e) && st.Sane() && st.margin.NonNegative()
    ensures RenderGeometry(e, st).Failure? <==>
              || (Measure(e, st).f.width == 0 && st.arrowSize == 0 && st.horizontalSpacing == 0
                  && st.margin.left == 0 && st.margin.right == 0)
              || (Measure(e, st).f.height == 0 && st.margin.top == 0 && st.margin.bottom == 0)
    ensures RenderGeometry(e, st).Failure? ==> RenderGeometry(e, st).error == CanvasNotPositive
  {
    MeasuredConnectYInRange(e, st);
  }

  /** An empty diagram with the default style has no height, so its render
      trips the height assertion. */
  lemma EmptyDiagramHasNoHeight()
    ensures RenderGeometry(Series([]), DefaultDiagramStyle()) == Failure(CanvasNotPositive)
  {
  }
}
