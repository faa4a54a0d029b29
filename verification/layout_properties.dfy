/**
 What the layout pass promises for each kind of container: a Series fills
 exactly the width it is given with a contiguous row of children, spreading
 the slack as its alignment says; a Parallel stacks its children in the
 column its measure reserved; a Loop fixes the directions of its rows.
 */
module LayoutProperties {
  import opened Style
  import opened Tree
  import opened MeasurePass
  import opened MeasureProperties
  import opened LayoutPass

  /** Children side by side without gaps or overlap, the first at `x0`. */
  predicate RowFrom(cs: seq<Node>, x0: int)
    decreases |cs|
  {
    cs == [] || (cs[0].f.x == x0 && RowFrom(cs[1..], x0 + cs[0].f.width))
  }

  /** Children whose left edges are the running sum of the widths before them form a row. */
  lemma {:induction false} RowFromOffsets(r: seq<Node>, x0: int)
    requires forall i :: 0 <= i < |r| ==> r[i].f.x == x0 + SumWidths(r[..i])
    ensures RowFrom(r, x0)
    decreases |r|
  {
    if r != [] {
      assert r[..0] == [];
      forall j | 0 <= j < |r[1..]|
        ensures r[1..][j].f.x == x0 + r[0].f.width + SumWidths(r[1..][..j])
      {
        assert r[..j + 1][1..] == r[1..][..j];
      }
      RowFromOffsets(r[1..], x0 + r[0].f.width);
    }
  }

  lemma {:induction false} SameWidthsSum(a: seq<Node>, b: seq<Node>)
    requires |a| == |b|
    requires forall i :: 0 <= i < |a| ==> a[i].f.width == b[i].f.width
    ensures SumWidths(a) == SumWidths(b)
    decreases |a|
  {
    if a != [] {
      SameWidthsSum(a[1..], b[1..]);
    }
  }

  /** A Series' children, placed, form a row from `x0` as wide as they were measured. */
  lemma PlaceRowIsRow(cs: seq<Node>, x0: int, connectY: int, st: DiagramStyle, dir: Direction)
    ensures RowFrom(PlaceRow(cs, x0, connectY, st, dir), x0)
    ensures SumWidths(PlaceRow(cs, x0, connectY, st, dir)) == SumWidths(cs)
  {
    var r := PlaceRow(cs, x0, connectY, st, dir);
    forall i | 0 <= i < |r| ensures r[i].f.x == x0 + SumWidths(r[..i]) {
      SameWidthsSum(r[..i], cs[..i]);
    }
    RowFromOffsets(r, x0);
    SameWidthsSum(r, cs);
  }

  /** A child's place in a row: it starts at or after the row and ends at or
      before the row's total width. */
  lemma {:induction false} RowBounds(cs: seq<Node>, x0: int, i: int)
    requires RowFrom(cs, x0)
    requires forall j :: 0 <= j < |cs| ==> cs[j].f.width >= 0
    requires 0 <= i < |cs|
    ensures x0 <= cs[i].f.x
    ensures cs[i].f.x + cs[i].f.width <= x0 + SumWidths(cs)
    decreases |cs|
  {
    SumWidthsNonNegative(cs[1..]);
    if i > 0 {
      RowBounds(cs[1..], x0 + cs[0].f.width, i - 1);
    }
  }

  lemma {:induction false} ShiftAllIsRow(cs: seq<Node>, x0: int, dx: int)
    requires RowFrom(cs, x0)
    ensures RowFrom(ShiftAll(cs, dx), x0 + dx)
    ensures SumWidths(ShiftAll(cs, dx)) == SumWidths(cs)
    decreases |cs|
  {
    if cs != [] {
      assert ShiftAll(cs, dx)[1..] == ShiftAll(cs[1..], dx);
      ShiftAllIsRow(cs[1..], x0 + cs[0].f.width, dx);
    }
  }

  lemma {:induction false} ShiftAndWidenIsRow(cs: seq<Node>, x0: int, addX: int, perElement: int)
    requires RowFrom(cs, x0)
    ensures RowFrom(ShiftAndWiden(cs, addX, perElement), x0 + addX)
    ensures SumWidths(ShiftAndWiden(cs, addX, perElement)) == SumWidths(cs) + |cs| * perElement
    decreases |cs|
  {
    if cs != [] {
      ShiftAndWidenIsRow(cs[1..], x0 + cs[0].f.width, addX + perElement, perElement);
    }
  }

  lemma {:induction false} WidenLastIsRow(cs: seq<Node>, x0: int, dw: int)
    requires RowFrom(cs, x0)
    requires cs != []
    ensures var r := cs[..|cs| - 1] + [Stretch(cs[|cs| - 1], 0, dw)];
            RowFrom(r, x0) && SumWidths(r) == SumWidths(cs) + dw
    decreases |cs|
  {
    var r := cs[..|cs| - 1] + [Stretch(cs[|cs| - 1], 0, dw)];
    if |cs| > 1 {
      WidenLastIsRow(cs[1..], x0 + cs[0].f.width, dw);
      assert r[1..] == cs[1..][..|cs[1..]| - 1] + [Stretch(cs[1..][|cs[1..]| - 1], 0, dw)];
    }
  }

  lemma SpreadLeftIs(cs: seq<Node>, diff: int)
    requires cs != [] && diff > 0
    ensures SpreadSlack(cs, diff, Left) == cs[..|cs| - 1] + [Stretch(cs[|cs| - 1], 0, diff)]
  {
  }

  lemma SpreadRightIs(cs: seq<Node>, diff: int)
    requires cs != [] && diff > 0
    ensures SpreadSlack(cs, diff, Right) == [Stretch(cs[0], 0, diff)] + ShiftAll(cs[1..], diff)
  {
  }

  lemma SpreadEvenlyIs(cs: seq<Node>, diff: int, align: Alignment)
    requires cs != [] && diff > 0 && (align == Center || align == Fill)
    ensures var spread := ShiftAndWiden(cs, 0, diff / |cs|);
            SpreadSlack(cs, diff, align)
              == spread[..|cs| - 1] + [Stretch(spread[|cs| - 1], 0, diff - |cs| * (diff / |cs|))]
  {
  }

  /** Distributing slack keeps a Series' children contiguous and makes them add
      up to exactly the allotted width. */
  lemma SpreadSlackFillsRow(cs: seq<Node>, x0: int, diff: int, align: Alignment)
    requires RowFrom(cs, x0)
    requires cs != [] && diff > 0
    ensures RowFrom(SpreadSlack(cs, diff, align), x0)
    ensures SumWidths(SpreadSlack(cs, diff, align)) == SumWidths(cs) + diff
  {
    match align
    case Left =>
      SpreadLeftIs(cs, diff);
      WidenLastIsRow(cs, x0, diff);
    case Right =>
      SpreadRightFillsRow(cs, x0, diff);
    case Center =>
      SpreadEvenlyFillsRow(cs, x0, diff, align);
    case Fill =>
      SpreadEvenlyFillsRow(cs, x0, diff, align);
  }

  lemma SpreadRightFillsRow(cs: seq<Node>, x0: int, diff: int)
    requires RowFrom(cs, x0)
    requires cs != [] && diff > 0
    ensures RowFrom(SpreadSlack(cs, diff, Right), x0)
    ensures SumWidths(SpreadSlack(cs, diff, Right)) == SumWidths(cs) + diff
  {
    var r := SpreadSlack(cs, diff, Right);
    SpreadRightIs(cs, diff);
    ShiftAllIsRow(cs[1..], x0 + cs[0].f.width, diff);
    assert r[1..] == ShiftAll(cs[1..], diff);
  }

  lemma SpreadEvenlyFillsRow(cs: seq<Node>, x0: int, diff: int, align: Alignment)
    requires RowFrom(cs, x0)
    requires cs != [] && diff > 0 && (align == Center || align == Fill)
    ensures RowFrom(SpreadSlack(cs, diff, align), x0)
    ensures SumWidths(SpreadSlack(cs, diff, align)) == SumWidths(cs) + diff
  {
    var n := |cs|;
    var share := diff / n;
    var spread := ShiftAndWiden(cs, 0, share);
    SpreadEvenlyIs(cs, diff, align);
    ShiftAndWidenIsRow(cs, x0, 0, share);
    WidenLastIsRow(spread, x0, diff - n * share);
  }

  /** Left alignment grows only the last child. */
  lemma SpreadSlackLeft(cs: seq<Node>, diff: int)
    requires cs != [] && diff > 0
    ensures forall i :: 0 <= i < |cs| - 1 ==> SpreadSlack(cs, diff, Left)[i] == cs[i]
    ensures SpreadSlack(cs, diff, Left)[|cs| - 1].f.x == cs[|cs| - 1].f.x
    ensures SpreadSlack(cs, diff, Left)[|cs| - 1].f.width == cs[|cs| - 1].f.width + diff
  {
    SpreadLeftIs(cs, diff);
  }

  /** Right alignment grows the first child and moves all others right. */
  lemma SpreadSlackRight(cs: seq<Node>, diff: int)
    requires cs != [] && diff > 0
    ensures SpreadSlack(cs, diff, Right)[0].f.x == cs[0].f.x
    ensures SpreadSlack(cs, diff, Right)[0].f.width == cs[0].f.width + diff
    ensures forall i :: 1 <= i < |cs| ==>
              && SpreadSlack(cs, diff, Right)[i].f.width == cs[i].f.width
              && SpreadSlack(cs, diff, Right)[i].f.x == cs[i].f.x + diff
  {
    SpreadRightIs(cs, diff);
    var r := SpreadSlack(cs, diff, Right);
    forall i | 1 <= i < |cs|
      ensures r[i].f.width == cs[i].f.width && r[i].f.x == cs[i].f.x + diff
    {
      assert r[i] == ShiftAll(cs[1..], diff)[i - 1];
    }
  }

  /** Center and Fill alignment give every child the same share of the slack,
      the last child also taking the rounding remainder (less than one point
      per child), and move each child right by the shares handed out before it. */
  lemma SpreadSlackEvenly(cs: seq<Node>, diff: int, align: Alignment)
    requires cs != [] && diff > 0
    requires align == Center || align == Fill
    ensures forall i :: 0 <= i < |cs| ==> SpreadSlack(cs, diff, align)[i].f.x == cs[i].f.x + i * (diff / |cs|)
    ensures forall i :: 0 <= i < |cs| - 1 ==>
              SpreadSlack(cs, diff, align)[i].f.width == cs[i].f.width + diff / |cs|
    ensures cs[|cs| - 1].f.width + diff / |cs| <= SpreadSlack(cs, diff, align)[|cs| - 1].f.width
    ensures SpreadSlack(cs, diff, align)[|cs| - 1].f.width < cs[|cs| - 1].f.width + diff / |cs| + |cs|
  {
    SpreadEvenlyIs(cs, diff, align);
    var n := |cs|;
    var share := diff / n;
    var spread := ShiftAndWiden(cs, 0, share);
    var rem := diff - n * share;
    var r := SpreadSlack(cs, diff, align);
    assert r[n - 1] == Stretch(spread[n - 1], 0, rem);
    forall i | 0 <= i < n
      ensures r[i].f.x == cs[i].f.x + i * share
    {
      if i < n - 1 {
        assert r[i] == spread[i];
      }
    }
    forall i | 0 <= i < n - 1
      ensures r[i].f.width == cs[i].f.width + share
    {
      assert r[i] == spread[i];
    }
    assert r[n - 1].f.width == cs[n - 1].f.width + share + rem;
    ShareBounds(diff, n);
  }

  /** Each child's share of non-negative slack, and what is left over for the
      last child, are both non-negative; the leftover is less than one point
      per child. */
  lemma ShareBounds(diff: int, n: int)
    requires n > 0 && diff >= 0
    ensures 0 <= diff / n
    ensures 0 <= diff - n * (diff / n) < n
  {
    assert diff == n * (diff / n) + diff % n;
  }

  /** A Series lays out its row of children from 0 on its own connection line,
      each at its measured width, and then spreads the width it was given
      beyond its measured children over the row. */
  lemma PlaceSeriesIs(f: Frame, cs: seq<Node>, x: int, y: int, width: int, st: DiagramStyle, dir: Direction)
    ensures Place(Node(f, SeriesNode(cs)), x, y, width, st, dir)
         == Node(f.(x := x, y := y, width := width),
                 SeriesNode(SpreadSlack(PlaceRow(cs, 0, f.connectY, st, dir), width - SumWidths(cs), AlignmentFor(st, dir))))
  {
    PlaceRowIsRow(cs, 0, f.connectY, st, dir);
  }

  /** A Series given exactly the width of its children has no slack to
      spread: its children stay side by side from its left edge, each at its
      own width and height and on the Series' line. */
  lemma {:induction false} SeriesAtOwnWidth(n: Node, x: int, y: int, st: DiagramStyle, dir: Direction)
    requires n.kind.SeriesNode? && n.f.width == SumWidths(n.kind.elements)
    ensures Place(n, x, y, n.f.width, st, dir).kind.SeriesNode?
    ensures |Place(n, x, y, n.f.width, st, dir).kind.elements| == |n.kind.elements|
    ensures RowFrom(Place(n, x, y, n.f.width, st, dir).kind.elements, 0)
    ensures forall i :: 0 <= i < |n.kind.elements| ==>
              Place(n, x, y, n.f.width, st, dir).kind.elements[i].f
                == n.kind.elements[i].f.(x := Place(n, x, y, n.f.width, st, dir).kind.elements[i].f.x,
                                         y := n.f.connectY - n.kind.elements[i].f.connectY)
  {
    var cs := n.kind.elements;
    var row := PlaceRow(cs, 0, n.f.connectY, st, dir);
    PlaceSeriesIs(n.f, cs, x, y, n.f.width, st, dir);
    assert Place(n, x, y, n.f.width, st, dir).kind.elements == row;
    PlaceRowIsRow(cs, 0, n.f.connectY, st, dir);
    forall i | 0 <= i < |cs|
      ensures row[i].f == cs[i].f.(x := row[i].f.x, y := n.f.connectY - cs[i].f.connectY)
    {
      assert row[i] == Place(cs[i], SumWidths(cs[..i]), n.f.connectY - cs[i].f.connectY, cs[i].f.width, st, dir);
    }
  }

  /** The children of a Series after layout: still a contiguous row from 0,
      together exactly as wide as the Series when it was given at least their
      measured width. */
  lemma LayoutSeries(f: Frame, cs: seq<Node>, x: int, y: int, width: int, st: DiagramStyle, dir: Direction)
    ensures Place(Node(f, SeriesNode(cs)), x, y, width, st, dir).kind.SeriesNode?
    ensures |Place(Node(f, SeriesNode(cs)), x, y, width, st, dir).kind.elements| == |cs|
    ensures RowFrom(Place(Node(f, SeriesNode(cs)), x, y, width, st, dir).kind.elements, 0)
    ensures cs != [] && width >= SumWidths(cs) ==>
              SumWidths(Place(Node(f, SeriesNode(cs)), x, y, width, st, dir).kind.elements) == width
  {
    var row := PlaceRow(cs, 0, f.connectY, st, dir);
    PlaceRowIsRow(cs, 0, f.connectY, st, dir);
    var diff := width - SumWidths(cs);
    var spread := SpreadSlack(row, diff, AlignmentFor(st, dir));
    PlaceSeriesIs(f, cs, x, y, width, st, dir);
    assert Place(Node(f, SeriesNode(cs)), x, y, width, st, dir).kind.elements == spread;
    if cs != [] && diff > 0 {
      SpreadSlackFillsRow(row, 0, diff, AlignmentFor(st, dir));
    }
  }

  /** Every child of a Series after layout is pushed down so that its
      connection line is the Series' own, and keeps its measured height. */
  lemma {:induction false} LayoutSeriesOnLine(f: Frame, cs: seq<Node>, x: int, y: int, width: int, st: DiagramStyle, dir: Direction)
    ensures Place(Node(f, SeriesNode(cs)), x, y, width, st, dir).kind.SeriesNode?
    ensures |Place(Node(f, SeriesNode(cs)), x, y, width, st, dir).kind.elements| == |cs|
    ensures forall i :: 0 <= i < |cs| ==>
              && Place(Node(f, SeriesNode(cs)), x, y, width, st, dir).kind.elements[i].f.y == f.connectY - cs[i].f.connectY
              && Place(Node(f, SeriesNode(cs)), x, y, width, st, dir).kind.elements[i].f.height == cs[i].f.height
              && Place(Node(f, SeriesNode(cs)), x, y, width, st, dir).kind.elements[i].f.connectY == cs[i].f.connectY
  {
    var n := Place(Node(f, SeriesNode(cs)), x, y, width, st, dir);
    PlaceSeriesIs(f, cs, x, y, width, st, dir);
    assert n.kind.elements == SpreadSlack(PlaceRow(cs, 0, f.connectY, st, dir), width - SumWidths(cs), AlignmentFor(st, dir));
    RowOnLine(cs, f.connectY, width - SumWidths(cs), AlignmentFor(st, dir), st, dir);
  }

  /** Proof helper: a placed row keeps every child's height and line, hung
      from `connectY`, however its slack is then spread. */
  lemma {:induction false} RowOnLine(cs: seq<Node>, connectY: int, diff: int, align: Alignment, st: DiagramStyle, dir: Direction)
    ensures var r := SpreadSlack(PlaceRow(cs, 0, connectY, st, dir), diff, align);
            && |r| == |cs|
            && forall i :: 0 <= i < |cs| ==>
                 && r[i].f.y == connectY - cs[i].f.connectY
                 && r[i].f.height == cs[i].f.height
                 && r[i].f.connectY == cs[i].f.connectY
  {
    var row := PlaceRow(cs, 0, connectY, st, dir);
    var r := SpreadSlack(row, diff, align);
    assert Restretched(row, r);
    forall i | 0 <= i < |cs|
      ensures && r[i].f.y == connectY - cs[i].f.connectY
              && r[i].f.height == cs[i].f.height
              && r[i].f.connectY == cs[i].f.connectY
    {
      assert row[i] == Place(cs[i], SumWidths(cs[..i]), connectY - cs[i].f.connectY, cs[i].f.width, st, dir);
    }
  }

  /** Proof helper: one unfolding of `Place` for a Parallel, which passes its
      own direction to a column of its children, each indented by one and a
      half horizontal spacings and as wide as the Parallel less three spacings. */
  lemma PlaceParallelIs(f: Frame, cs: seq<Node>, k: int, x: int, y: int, width: int, st: DiagramStyle, dir: Direction)
    ensures Place(Node(f, ParallelNode(cs, k)), x, y, width, st, dir)
         == Node(f.(x := x, y := y, width := width),
                 ParallelNode(PlaceColumn(cs, 0, (3 * st.horizontalSpacing) / 2, width - 3 * st.horizontalSpacing, st, dir), k))
  {
  }

  /** The children of a Parallel after layout: stacked top to bottom with the
      vertical spacing between them, all equally indented and equally wide. */
  lemma LayoutParallel(f: Frame, cs: seq<Node>, k: int, x: int, y: int, width: int, st: DiagramStyle, dir: Direction)
    ensures Place(Node(f, ParallelNode(cs, k)), x, y, width, st, dir).kind.ParallelNode?
    ensures |Place(Node(f, ParallelNode(cs, k)), x, y, width, st, dir).kind.elements| == |cs|
    ensures forall i :: 0 <= i < |cs| ==>
              Place(Node(f, ParallelNode(cs, k)), x, y, width, st, dir).kind.elements[i].f
                == cs[i].f.(x := (3 * st.horizontalSpacing) / 2,
                            y := StackHeight(cs[..i], st.verticalSpacing),
                            width := width - 3 * st.horizontalSpacing)
  {
    PlaceParallelIs(f, cs, k, x, y, width, st, dir);
  }

  /** A measured Parallel given at least its measured width never makes a
      child narrower than that child was measured. */
  lemma ParallelChildrenNotNarrowed(es: seq<Element>, k: int, st: DiagramStyle, x: int, y: int, width: int, dir: Direction)
    requires ValidCenters(Parallel(es, k))
    requires width >= Measure(Parallel(es, k), st).f.width
    ensures Place(Measure(Parallel(es, k), st), x, y, width, st, dir).kind.ParallelNode?
    ensures |Place(Measure(Parallel(es, k), st), x, y, width, st, dir).kind.elements| == |es|
    ensures forall i :: 0 <= i < |es| ==>
              Place(Measure(Parallel(es, k), st), x, y, width, st, dir).kind.elements[i].f.width
                >= Measure(es[i], st).f.width
  {
    var m := Measure(Parallel(es, k), st);
    MeasureParallel(es, k, st);
    LayoutParallel(m.f, m.kind.elements, k, x, y, width, st, dir);
  }

  /** A Loop lays out its forward row Forward and its backward row Backward
      below it, both indented by a horizontal spacing and as wide as the Loop
      less two spacings. */
  lemma PlaceLoopIs(f: Frame, fw: Node, bw: Node, x: int, y: int, width: int, st: DiagramStyle, dir: Direction)
    ensures Place(Node(f, LoopNode(fw, bw)), x, y, width, st, dir)
         == Node(f.(x := x, y := y, width := width),
                 LoopNode(Place(fw, st.horizontalSpacing, 0, width - 2 * st.horizontalSpacing, st, Forward),
                          Place(bw, st.horizontalSpacing, fw.f.height + st.verticalSpacing,
                                width - 2 * st.horizontalSpacing, st, Backward)))
  {
  }

  /** Where a Loop puts its rows: the forward row at the top, on the Loop's
      line when its measured line is the Loop's, the backward row below it,
      both as wide as the Loop less a stub on each side. */
  lemma {:induction false} LoopRows(n: Node, x: int, y: int, width: int, st: DiagramStyle, dir: Direction)
    requires n.kind.LoopNode? && n.f.connectY == n.kind.forward.f.connectY
    ensures Place(n, x, y, width, st, dir).kind.LoopNode?
    ensures var r := Place(n, x, y, width, st, dir);
            var hs := st.horizontalSpacing;
            && r.kind.forward.f == n.kind.forward.f.(x := hs, y := 0, width := width - 2 * hs)
            && r.kind.backward.f == n.kind.backward.f.(x := hs, y := n.kind.forward.f.height + st.verticalSpacing,
                                                       width := width - 2 * hs)
            && r.kind.forward.f.y + r.kind.forward.f.connectY == r.f.connectY
  {
    PlaceLoopIs(n.f, n.kind.forward, n.kind.backward, x, y, width, st, dir);
  }

  /** Hence a Loop comes out the same whichever direction it is laid out in. */
  lemma LoopIgnoresDirection(f: Frame, fw: Node, bw: Node, x: int, y: int, width: int, st: DiagramStyle)
    ensures Place(Node(f, LoopNode(fw, bw)), x, y, width, st, Forward)
         == Place(Node(f, LoopNode(fw, bw)), x, y, width, st, Backward)
  {
    PlaceLoopIs(f, fw, bw, x, y, width, st, Forward);
    PlaceLoopIs(f, fw, bw, x, y, width, st, Backward);
  }

  /** Whatever the direction of a Loop, a Series on its forward track
      spreads its slack with the style's forward alignment. */
  lemma {:induction false} LoopForwardRowAlignment(f: Frame, ff: Frame, fs: seq<Node>, bw: Node,
                                                   x: int, y: int, width: int, st: DiagramStyle, dir: Direction)
    ensures Place(Node(f, LoopNode(Node(ff, SeriesNode(fs)), bw)), x, y, width, st, dir).kind.LoopNode?
    ensures Place(Node(f, LoopNode(Node(ff, SeriesNode(fs)), bw)), x, y, width, st, dir).kind.forward.kind
         == SeriesNode(SpreadSlack(PlaceRow(fs, 0, ff.connectY, st, Forward),
                                   width - 2 * st.horizontalSpacing - SumWidths(fs), st.forwardAlignment))
  {
    LoopForwardSeries(Node(f, LoopNode(Node(ff, SeriesNode(fs)), bw)), x, y, width, st, dir);
  }

  /** Proof helper: `LoopForwardRowAlignment` for any Loop whose forward
      track is a Series. */
  lemma {:induction false} LoopForwardSeries(n: Node, x: int, y: int, width: int, st: DiagramStyle, dir: Direction)
    requires n.kind.LoopNode? && n.kind.forward.kind.SeriesNode?
    ensures Place(n, x, y, width, st, dir).kind.LoopNode?
    ensures var fw := n.kind.forward;
            Place(n, x, y, width, st, dir).kind.forward.kind
              == SeriesNode(SpreadSlack(PlaceRow(fw.kind.elements, 0, fw.f.connectY, st, Forward),
                                        width - 2 * st.horizontalSpacing - SumWidths(fw.kind.elements),
                                        st.forwardAlignment))
  {
    var fw := n.kind.forward;
    var cs := fw.kind.elements;
    var hs := st.horizontalSpacing;
    var forward := Place(fw, hs, 0, width - 2 * hs, st, Forward);
    assert Place(n, x, y, width, st, dir).kind.forward == forward by {
      assert n == Node(n.f, LoopNode(fw, n.kind.backward));
      PlaceLoopIs(n.f, fw, n.kind.backward, x, y, width, st, dir);
    }
    assert forward.kind == SeriesNode(SpreadSlack(PlaceRow(cs, 0, fw.f.connectY, st, Forward),
                                                  width - 2 * hs - SumWidths(cs), st.forwardAlignment)) by {
      assert fw == Node(fw.f, SeriesNode(cs));
      SeriesRowAlignment(fw.f, cs, hs, 0, width - 2 * hs, st, Forward);
    }
  }

  /** Whatever the direction of a Loop, a Series on its backward track
      spreads its slack with the style's backward alignment. */
  lemma {:induction false} LoopBackwardRowAlignment(f: Frame, fw: Node, bf: Frame, bs: seq<Node>,
                                                    x: int, y: int, width: int, st: DiagramStyle, dir: Direction)
    ensures Place(Node(f, LoopNode(fw, Node(bf, SeriesNode(bs)))), x, y, width, st, dir).kind.LoopNode?
    ensures Place(Node(f, LoopNode(fw, Node(bf, SeriesNode(bs)))), x, y, width, st, dir).kind.backward.kind
         == SeriesNode(SpreadSlack(PlaceRow(bs, 0, bf.connectY, st, Backward),
                                   width - 2 * st.horizontalSpacing - SumWidths(bs), st.backwardAlignment))
  {
    var bw := Node(bf, SeriesNode(bs));
    var backward := Place(bw, st.horizontalSpacing, fw.f.height + st.verticalSpacing,
                          width - 2 * st.horizontalSpacing, st, Backward);
    assert Place(Node(f, LoopNode(fw, bw)), x, y, width, st, dir).kind.backward == backward by {
      PlaceLoopIs(f, fw, bw, x, y, width, st, dir);
    }
    assert backward.kind == SeriesNode(SpreadSlack(PlaceRow(bs, 0, bf.connectY, st, Backward),
                                   width - 2 * st.horizontalSpacing - SumWidths(bs), st.backwardAlignment)) by {
      SeriesRowAlignment(bf, bs, st.horizontalSpacing, fw.f.height + st.verticalSpacing,
                         width - 2 * st.horizontalSpacing, st, Backward);
    }
  }

  /** A Series laid out in direction `dir` spreads its slack with that
      direction's alignment. */
  lemma {:induction false} SeriesRowAlignment(f: Frame, cs: seq<Node>, x: int, y: int, width: int, st: DiagramStyle, dir: Direction)
    ensures Place(Node(f, SeriesNode(cs)), x, y, width, st, dir).kind
         == SeriesNode(SpreadSlack(PlaceRow(cs, 0, f.connectY, st, dir), width - SumWidths(cs),
                                   if dir == Forward then st.forwardAlignment else st.backwardAlignment))
  {
    PlaceSeriesIs(f, cs, x, y, width, st, dir);
  }

  /** Proof helper: one unfolding of `Place` for a Decoration, which leaves
      its child at its measured width, inset by its own margin and padding,
      and passes its direction down. */
  lemma PlaceDecorationIs(f: Frame, c: Node, text: string, tw: nat, th: nat, style: DecorationStyle,
                          x: int, y: int, width: int, st: DiagramStyle, dir: Direction)
    ensures Place(Node(f, DecorationNode(c, text, tw, th, style)), x, y, width, st, dir)
         == Node(f.(x := x, y := y, width := width),
                 DecorationNode(Place(c, style.margin.left + style.padding.left, style.margin.top + style.padding.top,
                                      c.f.width, st, dir),
                                text, tw, th, style))
  {
  }

  /** Where a node is placed does not change how its inside is laid out:
      every child position is relative to the node's own corner. */
  lemma PlaceKindIgnoresPosition(n: Node, x: int, y: int, x': int, y': int, width: int, st: DiagramStyle, dir: Direction)
    ensures Place(n, x, y, width, st, dir).kind == Place(n, x', y', width, st, dir).kind
  {
    match n.kind
    case BoxNode(_, _, _, _, _) =>
    case SeriesNode(cs) =>
      PlaceSeriesIs(n.f, cs, x, y, width, st, dir);
      PlaceSeriesIs(n.f, cs, x', y', width, st, dir);
    case ParallelNode(cs, k) =>
      PlaceParallelIs(n.f, cs, k, x, y, width, st, dir);
      PlaceParallelIs(n.f, cs, k, x', y', width, st, dir);
    case LoopNode(fw, bw) =>
      PlaceLoopIs(n.f, fw, bw, x, y, width, st, dir);
      PlaceLoopIs(n.f, fw, bw, x', y', width, st, dir);
    case SkipNode =>
    case DecorationNode(c, text, tw, th, style) =>
      PlaceDecorationIs(n.f, c, text, tw, th, style, x, y, width, st, dir);
      PlaceDecorationIs(n.f, c, text, tw, th, style, x', y', width, st, dir);
  }

  /** A Decoration laid out anywhere keeps its caption and its style, and
      puts its child at the child's own measured width, inset by the
      decoration's margin and padding, laid out in the same direction as
      the decoration. When the decoration's line is the child's line moved
      down by that inset, as measuring makes it, the child sits on the
      decoration's line. */
  lemma DecorationFramesChild(f: Frame, c: Node, text: string, tw: nat, th: nat, style: DecorationStyle,
                              x: int, y: int, width: int, st: DiagramStyle, dir: Direction)
    ensures Place(Node(f, DecorationNode(c, text, tw, th, style)), x, y, width, st, dir).kind.DecorationNode?
    ensures var n := Place(Node(f, DecorationNode(c, text, tw, th, style)), x, y, width, st, dir);
            var child := n.kind.element;
            var top := style.margin.top + style.padding.top;
            && n.kind.text == text && n.kind.textWidth == tw && n.kind.textHeight == th
            && n.kind.decorationStyle == style
            && child.f == c.f.(x := style.margin.left + style.padding.left, y := top)
            && child.kind == Place(c, 0, 0, c.f.width, st, dir).kind
            && (f.connectY == c.f.connectY + top ==> child.f.y + child.f.connectY == n.f.connectY)
  {
    var left := style.margin.left + style.padding.left;
    var top := style.margin.top + style.padding.top;
    PlaceDecorationIs(f, c, text, tw, th, style, x, y, width, st, dir);
    PlaceKindIgnoresPosition(c, left, top, 0, 0, c.f.width, st, dir);
  }

  /** Spreading non-negative slack never makes a child narrower. */
  lemma SpreadSlackWidens(cs: seq<Node>, diff: int, align: Alignment)
    requires diff >= 0
    ensures forall i :: 0 <= i < |cs| ==> SpreadSlack(cs, diff, align)[i].f.width >= cs[i].f.width
  {
    if cs != [] && diff > 0 {
      match align
      case Left => SpreadSlackLeft(cs, diff);
      case Right => SpreadSlackRight(cs, diff);
      case Center =>
        SpreadSlackEvenly(cs, diff, align);
        ShareBounds(diff, |cs|);
      case Fill =>
        SpreadSlackEvenly(cs, diff, align);
        ShareBounds(diff, |cs|);
    }
  }
}
