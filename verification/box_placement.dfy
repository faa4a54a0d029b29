/**
 Where a Box draws its outline within the width its parent gave it: after the
 lefthand track stub, moved or stretched according to the alignment of the
 direction it is drawn in. The stubs left and right of the outline carry the
 track.
 */
module BoxPlacement {
  import opened Style
  import opened Tree
  import opened MeasurePass
  import opened MeasureProperties
  import opened LayoutPass

  /** The outline's left edge and width. */
  datatype Outline = Outline(x: int, width: int)

  /** The outline of a box of measured outline width `boxWidth` drawn in a
      frame `width` wide. The source halves the free room with `floor`, which
      Dafny's division by a positive divisor also does for negative room. */
  function PlaceOutline(width: int, boxWidth: int, st: DiagramStyle, dir: Direction): (o: Outline)
    ensures AlignmentFor(st, dir) != Fill ==> o.width == boxWidth
  {
    var lhs := LefthandTrackLength(st);
    var rhs := RighthandTrackLength(st);
    match AlignmentFor(st, dir)
    case Left => Outline(lhs, boxWidth)
    case Center => Outline(lhs + (width - lhs - rhs - boxWidth) / 2, boxWidth)
    case Right => Outline(width - boxWidth - rhs, boxWidth)
    case Fill => Outline(lhs, width - lhs - rhs)
  }

  /** Room left of the outline beyond the lefthand stub, and right of it
      beyond the righthand stub. */
  function LeftGap(width: int, o: Outline, st: DiagramStyle): int {
    o.x - LefthandTrackLength(st)
  }

  function RightGap(width: int, o: Outline, st: DiagramStyle): int {
    width - RighthandTrackLength(st) - (o.x + o.width)
  }

  /** In a frame at least as wide as the box and its stubs, the outline lies
      between the stubs; the free room goes to the right for Left, to the left
      for Right, splits evenly (the odd point to the right) for Center, and is
      taken up by the outline for Fill. */
  lemma OutlineBetweenStubs(width: int, boxWidth: int, st: DiagramStyle, dir: Direction)
    requires boxWidth >= 0
    requires width >= boxWidth + LefthandTrackLength(st) + RighthandTrackLength(st)
    ensures var o := PlaceOutline(width, boxWidth, st, dir);
            var room := width - LefthandTrackLength(st) - RighthandTrackLength(st) - boxWidth;
            && LeftGap(width, o, st) >= 0 && RightGap(width, o, st) >= 0
            && o.width >= boxWidth
            && (AlignmentFor(st, dir) == Left ==> LeftGap(width, o, st) == 0 && RightGap(width, o, st) == room)
            && (AlignmentFor(st, dir) == Right ==> RightGap(width, o, st) == 0 && LeftGap(width, o, st) == room)
            && (AlignmentFor(st, dir) == Center ==>
                  0 <= RightGap(width, o, st) - LeftGap(width, o, st) <= 1
                  && LeftGap(width, o, st) + RightGap(width, o, st) == room)
            && (AlignmentFor(st, dir) == Fill ==>
                  LeftGap(width, o, st) == 0 && RightGap(width, o, st) == 0 && o.width == boxWidth + room)
  {
  }

  /** With exactly the measured width there is no room to distribute: every
      alignment draws the outline right after the lefthand stub, at its
      measured width. */
  lemma OutlineAtMeasuredWidth(boxWidth: int, st: DiagramStyle, dir: Direction)
    ensures PlaceOutline(boxWidth + LefthandTrackLength(st) + RighthandTrackLength(st), boxWidth, st, dir)
         == Outline(LefthandTrackLength(st), boxWidth)
  {
  }

  /** A Box laid out in at least its measured width draws its outline between
      its track stubs, and at least as wide as its padded text. */
  lemma LaidOutBoxOutline(text: string, tw: nat, th: nat, style: BoxStyle, st: DiagramStyle,
                          x: int, y: int, width: int, dir: Direction)
    requires style.textStyle.padding.NonNegative()
    requires width >= Measure(Box(text, tw, th, style), st).f.width
    ensures var n := Place(Measure(Box(text, tw, th, style), st), x, y, width, st, dir);
            var o := PlaceOutline(n.f.width, n.kind.boxWidth, st, dir);
            var pad := style.textStyle.padding;
            && LefthandTrackLength(st) <= o.x
            && o.x + o.width <= n.f.width - RighthandTrackLength(st)
            && o.width >= tw + pad.left + pad.right
  {
    var m := Measure(Box(text, tw, th, style), st);
    MeasureBox(text, tw, th, style, st);
    var n := Place(m, x, y, width, st, dir);
    assert n.kind == m.kind;
    OutlineBetweenStubs(width, m.kind.boxWidth, st, dir);
  }
}
