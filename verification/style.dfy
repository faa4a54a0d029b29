/**
 Styling parameters of a railroad diagram and the small derived quantities the
 layout engine reads from them. Geometry is measured in whole points: every
 default value of the styles is integral, so `int` models it exactly. Fonts and
 colours only influence drawing and text measurement and are not modelled.
 */
module Style {

  /** Edge insets (UIEdgeInsets / NSEdgeInsets). */
  datatype Insets = Insets(top: int, left: int, bottom: int, right: int)
  {
    predicate NonNegative() {
      top >= 0 && left >= 0 && bottom >= 0 && right >= 0
    }
  }

  datatype BoxShape =
    | NoShape                               // text only, used for comments
    | Rectangle
    | RoundedSides
    | RoundedCorners(cornerRadius: int)
    | PointySides(angle: int)

  /** Only the padding of a text style takes part in layout. */
  datatype TextStyle = TextStyle(padding: Insets)

  datatype BoxStyle = BoxStyle(shape: BoxShape, borderSize: int, textStyle: TextStyle)

  datatype DecorationStyle = DecorationStyle(
    margin: Insets,
    padding: Insets,
    borderSize: int,
    textStyle: TextStyle)

  datatype Alignment = Left | Center | Right | Fill

  datatype CapStyle = FilledCircle | StrokedCircle | VerticalBars

  datatype Direction = Forward | Backward

  datatype DiagramStyle = DiagramStyle(
    margin: Insets,
    capStyle: CapStyle,
    trackLineWidth: int,
    arrowHeads: bool,
    arrowSize: int,
    horizontalSpacing: int,   // length of the track stubs before and after boxes
    verticalSpacing: int,     // distance between the rows of a Parallel or Loop
    forwardAlignment: Alignment,
    backwardAlignment: Alignment)
  {
    /** The spacing parameters layout depends on are not negative. */
    predicate Sane() {
      trackLineWidth >= 0 && arrowSize >= 0 && horizontalSpacing >= 0 && verticalSpacing >= 0
    }
  }

  const DefaultTextStyle := TextStyle(Insets(6, 18, 6, 18))

  function DefaultBoxStyle(): BoxStyle {
    BoxStyle(Rectangle, 1, DefaultTextStyle)
  }

  function DefaultDecorationStyle(): DecorationStyle {
    DecorationStyle(Insets(0, 12, 0, 12), Insets(18, 12, 30, 12), 3, TextStyle(Insets(0, 0, 6, 9)))
  }

  function DefaultDiagramStyle(): DiagramStyle {
    DiagramStyle(Insets(0, 0, 0, 0), FilledCircle, 2, true, 10, 24, 24, Left, Center)
  }

  /** Forward rows use the forward alignment, backward rows (the return path of a Loop) the other one. */
  function AlignmentFor(st: DiagramStyle, direction: Direction): (a: Alignment)
    ensures direction == Forward ==> a == st.forwardAlignment
    ensures direction == Backward ==> a == st.backwardAlignment
  {
    if direction == Forward then st.forwardAlignment else st.backwardAlignment
  }

  /** The track stub before a box: it also holds the arrow head when arrows are drawn. */
  function LefthandTrackLength(st: DiagramStyle): (len: int)
    ensures st.Sane() ==> len >= RighthandTrackLength(st)
  {
    st.horizontalSpacing + (if st.arrowHeads then st.arrowSize else 0)
  }

  /** The track stub after a box. */
  function RighthandTrackLength(st: DiagramStyle): int
  {
    st.horizontalSpacing
  }
}
