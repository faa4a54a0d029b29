/**
 The promise the two passes make together: once a measured tree is laid out in
 at least its measured width, every child lies inside its parent, and the track
 runs straight through every Series, through the center child of every
 Parallel, along the forward row of every Loop and through every Decoration.

 The proof goes through `Fits`, the size relations the measure pass
 establishes between a node and its children and the only thing the layout
 pass relies on.
 */
module Containment {
  import opened Style
  import opened Tree
  import opened MeasurePass
  import opened MeasureProperties
  import opened LayoutPass
  import opened LayoutProperties

  /** The child's box lies within the parent's. */
  predicate Inside(c: Frame, p: Frame) {
    0 <= c.x && c.x + c.width <= p.width && 0 <= c.y && c.y + c.height <= p.height
  }

  /** The child's connection line is the parent's. */
  predicate OnLine(c: Frame, p: Frame) {
    c.y + c.connectY == p.connectY
  }

  /** Every child of every node lies inside its parent. */
  predicate WellPlaced(n: Node)
    decreases n
  {
    match n.kind
    case SeriesNode(es) => forall i :: 0 <= i < |es| ==> Inside(es[i].f, n.f) && WellPlaced(es[i])
    case ParallelNode(es, _) => forall i :: 0 <= i < |es| ==> Inside(es[i].f, n.f) && WellPlaced(es[i])
    case LoopNode(fw, bw) => Inside(fw.f, n.f) && Inside(bw.f, n.f) && WellPlaced(fw) && WellPlaced(bw)
    case DecorationNode(c, _, _, _, _) => Inside(c.f, n.f) && WellPlaced(c)
    case _ => true
  }

  /** The track runs through: all children of a Series, the center child of a
      Parallel, the forward row of a Loop and the child of a Decoration sit on
      their parent's connection line. */
  predicate Joined(n: Node)
    decreases n
  {
    match n.kind
    case SeriesNode(es) => forall i :: 0 <= i < |es| ==> OnLine(es[i].f, n.f) && Joined(es[i])
    case ParallelNode(es, k) =>
      && (0 <= k < |es| ==> OnLine(es[k].f, n.f))
      && forall i :: 0 <= i < |es| ==> Joined(es[i])
    case LoopNode(fw, bw) => OnLine(fw.f, n.f) && Joined(fw) && Joined(bw)
    case DecorationNode(c, _, _, _, _) => OnLine(c.f, n.f) && Joined(c)
    case _ => true
  }

  /** Size relations between every node and its children, as the measure pass
      leaves them: enough width and height for the children where the layout
      pass will put them, and the connection line where the track enters. */
  predicate Fits(n: Node, st: DiagramStyle)
    decreases n
  {
    && 0 <= n.f.width
    && 0 <= n.f.connectY <= n.f.height
    && match n.kind
       case BoxNode(_, _, _, _, _) => true
       case SkipNode => true
       case SeriesNode(es) =>
         && SumWidths(es) <= n.f.width
         && forall i :: 0 <= i < |es| ==>
              && es[i].f.connectY <= n.f.connectY
              && n.f.connectY - es[i].f.connectY + es[i].f.height <= n.f.height
              && Fits(es[i], st)
       case ParallelNode(es, k) =>
         && StackHeight(es, st.verticalSpacing) - st.verticalSpacing <= n.f.height
         && (0 <= k < |es| ==> StackHeight(es[..k], st.verticalSpacing) + es[k].f.connectY == n.f.connectY)
         && forall i :: 0 <= i < |es| ==> es[i].f.width + 3 * st.horizontalSpacing <= n.f.width && Fits(es[i], st)
       case LoopNode(fw, bw) =>
         && fw.f.width + 2 * st.horizontalSpacing <= n.f.width
         && bw.f.width + 2 * st.horizontalSpacing <= n.f.width
         && fw.f.height + st.verticalSpacing + bw.f.height <= n.f.height
         && fw.f.connectY == n.f.connectY
         && Fits(fw, st) && Fits(bw, st)
       case DecorationNode(c, _, _, _, style) =>
         && 0 <= style.margin.left + style.padding.left
         && style.margin.left + style.padding.left + c.f.width <= n.f.width
         && 0 <= style.margin.top + style.padding.top
         && style.margin.top + style.padding.top + c.f.height <= n.f.height
         && c.f.connectY + style.margin.top + style.padding.top == n.f.connectY
         && Fits(c, st)
  }

  /** The measure pass leaves every node fitting its children, for
      non-negative insets and spacings. */
  lemma {:induction false} MeasureFits(e: Element, st: DiagramStyle)
    requires ValidCenters(e) && NonNegativeInsets(e) && st.Sane()
    ensures Fits(Measure(e, st), st)
    decreases e
  {
    match e
    case Box(_, _, _, _) => MeasuredConnectYInRange(e, st);
    case Skip => MeasuredConnectYInRange(e, st);
    case Series(es) =>
      forall i | 0 <= i < |es| ensures Fits(Measure(es[i], st), st) {
        MeasureFits(es[i], st);
      }
      SeriesFits(es, st);
    case Parallel(es, k) =>
      forall i | 0 <= i < |es| ensures Fits(Measure(es[i], st), st) {
        MeasureFits(es[i], st);
      }
      ParallelFits(es, k, st);
    case Loop(fw, bw) =>
      MeasureFits(fw, st);
      MeasureFits(bw, st);
      LoopFits(fw, bw, st);
    case Decoration(c, text, tw, th, style) =>
      MeasureFits(c, st);
      DecorationFits(c, text, tw, th, style, st);
  }

  lemma SeriesFits(es: seq<Element>, st: DiagramStyle)
    requires ValidCenters(Series(es)) && NonNegativeInsets(Series(es)) && st.Sane()
    requires forall i :: 0 <= i < |es| ==> Fits(Measure(es[i], st), st)
    ensures Fits(Measure(Series(es), st), st)
  {
    MeasuredConnectYInRange(Series(es), st);
    MeasureSeries(es, st);
  }

  lemma ParallelFits(es: seq<Element>, k: int, st: DiagramStyle)
    requires ValidCenters(Parallel(es, k)) && NonNegativeInsets(Parallel(es, k)) && st.Sane()
    requires forall i :: 0 <= i < |es| ==> Fits(Measure(es[i], st), st)
    ensures Fits(Measure(Parallel(es, k), st), st)
  {
    MeasuredConnectYInRange(Parallel(es, k), st);
    MeasureParallel(es, k, st);
  }

  lemma LoopFits(fw: Element, bw: Element, st: DiagramStyle)
    requires ValidCenters(Loop(fw, bw)) && NonNegativeInsets(Loop(fw, bw)) && st.Sane()
    requires Fits(Measure(fw, st), st) && Fits(Measure(bw, st), st)
    ensures Fits(Measure(Loop(fw, bw), st), st)
  {
    MeasuredConnectYInRange(Loop(fw, bw), st);
    MeasureLoop(fw, bw, st);
  }

  lemma DecorationFits(c: Element, text: string, tw: nat, th: nat, style: DecorationStyle, st: DiagramStyle)
    requires ValidCenters(Decoration(c, text, tw, th, style)) && NonNegativeInsets(Decoration(c, text, tw, th, style))
    requires st.Sane()
    requires Fits(Measure(c, st), st)
    ensures Fits(Measure(Decoration(c, text, tw, th, style), st), st)
  {
    MeasuredConnectYInRange(Decoration(c, text, tw, th, style), st);
    MeasureDecoration(c, text, tw, th, style, st);
  }

  /** Moving a laid-out node or widening it keeps its children inside and joined. */
  lemma Reframe(n: Node, g: Frame)
    requires g.width >= n.f.width && g.height == n.f.height && g.connectY == n.f.connectY
    requires WellPlaced(n) && Joined(n)
    ensures WellPlaced(n.(f := g)) && Joined(n.(f := g))
  {
  }

  /** Every node of a row lies inside `g` on `g`'s connection line, and keeps
      its own children inside and joined. */
  predicate RowInside(rs: seq<Node>, g: Frame) {
    forall i :: 0 <= i < |rs| ==> Inside(rs[i].f, g) && OnLine(rs[i].f, g) && WellPlaced(rs[i]) && Joined(rs[i])
  }

  lemma ParallelPlaced(g: Frame, es: seq<Node>, k: int)
    requires forall i :: 0 <= i < |es| ==> Inside(es[i].f, g) && WellPlaced(es[i]) && Joined(es[i])
    requires 0 <= k < |es| ==> OnLine(es[k].f, g)
    ensures WellPlaced(Node(g, ParallelNode(es, k))) && Joined(Node(g, ParallelNode(es, k)))
  {
  }

  lemma LoopPlaced(g: Frame, fw: Node, bw: Node)
    ensures Inside(fw.f, g) && Inside(bw.f, g) && OnLine(fw.f, g)
            && WellPlaced(fw) && Joined(fw) && WellPlaced(bw) && Joined(bw)
            ==> WellPlaced(Node(g, LoopNode(fw, bw))) && Joined(Node(g, LoopNode(fw, bw)))
  {
  }

  lemma DecorationPlaced(g: Frame, c: Node, text: string, tw: nat, th: nat, style: DecorationStyle)
    ensures Inside(c.f, g) && OnLine(c.f, g) && WellPlaced(c) && Joined(c)
            ==> WellPlaced(Node(g, DecorationNode(c, text, tw, th, style)))
                && Joined(Node(g, DecorationNode(c, text, tw, th, style)))
  {
  }

  /** Spreading a Series' slack over a row that lies inside the Series keeps
      it inside: the row only grows to the Series' width. */
  lemma SpreadRowInside(row: seq<Node>, g: Frame, align: Alignment)
    ensures && RowFrom(row, 0) && SumWidths(row) <= g.width
            && (forall i :: 0 <= i < |row| ==> 0 <= row[i].f.width)
            && RowInside(row, g)
            ==> && WellPlaced(Node(g, SeriesNode(SpreadSlack(row, g.width - SumWidths(row), align))))
                && Joined(Node(g, SeriesNode(SpreadSlack(row, g.width - SumWidths(row), align))))
  {
    var diff := g.width - SumWidths(row);
    var r := SpreadSlack(row, diff, align);
    if && RowFrom(row, 0) && SumWidths(row) <= g.width
       && (forall i :: 0 <= i < |row| ==> 0 <= row[i].f.width)
       && RowInside(row, g)
    {
      if row != [] && diff > 0 {
        SpreadSlackFillsRow(row, 0, diff, align);
        SpreadSlackWidens(row, diff, align);
        forall i | 0 <= i < |r|
          ensures Inside(r[i].f, g) && OnLine(r[i].f, g) && WellPlaced(r[i]) && Joined(r[i])
        {
          assert r[i] == row[i].(f := r[i].f);
          Reframe(row[i], r[i].f);
          RowBounds(r, 0, i);
        }
      }
      assert RowInside(r, g);
    }
  }

  /** A node that fits its children, laid out in at least its measured width,
      keeps all its descendants inside their parents and on the track. */
  lemma {:induction false} PlaceKeepsInside(n: Node, x: int, y: int, width: int, st: DiagramStyle, dir: Direction)
    requires Fits(n, st) && st.Sane()
    requires width >= n.f.width
    ensures WellPlaced(Place(n, x, y, width, st, dir)) && Joined(Place(n, x, y, width, st, dir))
    decreases n, 2
  {
    match n.kind
    case BoxNode(_, _, _, _, _) =>
    case SkipNode =>
    case SeriesNode(cs) => SeriesKeepsInside(n.f, cs, x, y, width, st, dir);
    case ParallelNode(cs, k) => ParallelKeepsInside(n.f, cs, k, x, y, width, st, dir);
    case LoopNode(fw, bw) => LoopKeepsInside(n.f, fw, bw, x, y, width, st, dir);
    case DecorationNode(c, text, tw, th, style) =>
      DecorationKeepsInside(n.f, c, text, tw, th, style, x, y, width, st, dir);
  }

  /** `PlaceKeepsInside` as a plain implication, for a child whose fit its
      parent's lemma establishes. */
  lemma ChildPlaced(n: Node, x: int, y: int, width: int, st: DiagramStyle, dir: Direction)
    ensures Fits(n, st) && st.Sane() && width >= n.f.width ==>
              WellPlaced(Place(n, x, y, width, st, dir)) && Joined(Place(n, x, y, width, st, dir))
    decreases n, 3
  {
    if Fits(n, st) && st.Sane() && width >= n.f.width {
      PlaceKeepsInside(n, x, y, width, st, dir);
    }
  }

  lemma {:induction false} SeriesKeepsInside(
    f: Frame, cs: seq<Node>, x: int, y: int, width: int, st: DiagramStyle, dir: Direction)
    requires Fits(Node(f, SeriesNode(cs)), st) && st.Sane()
    requires width >= f.width
    ensures WellPlaced(Place(Node(f, SeriesNode(cs)), x, y, width, st, dir))
    ensures Joined(Place(Node(f, SeriesNode(cs)), x, y, width, st, dir))
    decreases Node(f, SeriesNode(cs)), 1
  {
    var g := f.(x := x, y := y, width := width);
    var row := PlaceRow(cs, 0, f.connectY, st, dir);
    RowPlaced(f, cs, g, st, dir);
    assert SumWidths(row) == SumWidths(cs) <= g.width;
    var align := AlignmentFor(st, dir);
    var spread := SpreadSlack(row, width - SumWidths(cs), align);
    assert WellPlaced(Node(g, SeriesNode(spread))) && Joined(Node(g, SeriesNode(spread))) by {
      assert spread == SpreadSlack(row, g.width - SumWidths(row), align);
      assert && RowFrom(row, 0) && SumWidths(row) <= g.width
             && (forall i :: 0 <= i < |row| ==> 0 <= row[i].f.width)
             && RowInside(row, g);
      SpreadRowInside(row, g, align);
    }
    assert Place(Node(f, SeriesNode(cs)), x, y, width, st, dir) == Node(g, SeriesNode(spread)) by {
      PlaceSeriesIs(f, cs, x, y, width, st, dir);
    }
  }

  /** The children of a Series, laid out as a row at their measured widths,
      lie inside the Series on its line. */
  lemma {:induction false} RowPlaced(f: Frame, cs: seq<Node>, g: Frame, st: DiagramStyle, dir: Direction)
    requires Fits(Node(f, SeriesNode(cs)), st) && st.Sane()
    requires g.width >= f.width && g.height == f.height && g.connectY == f.connectY
    ensures RowFrom(PlaceRow(cs, 0, f.connectY, st, dir), 0)
    ensures SumWidths(PlaceRow(cs, 0, f.connectY, st, dir)) == SumWidths(cs)
    ensures forall i :: 0 <= i < |cs| ==> 0 <= PlaceRow(cs, 0, f.connectY, st, dir)[i].f.width
    ensures RowInside(PlaceRow(cs, 0, f.connectY, st, dir), g)
    decreases Node(f, SeriesNode(cs)), 0
  {
    var row := PlaceRow(cs, 0, f.connectY, st, dir);
    PlaceRowIsRow(cs, 0, f.connectY, st, dir);
    forall i | 0 <= i < |row|
      ensures 0 <= row[i].f.width
      ensures WellPlaced(row[i]) && Joined(row[i])
    {
      assert Fits(cs[i], st);
      ChildPlaced(cs[i], SumWidths(cs[..i]), f.connectY - cs[i].f.connectY, cs[i].f.width, st, dir);
    }
    forall i | 0 <= i < |row|
      ensures Inside(row[i].f, g) && OnLine(row[i].f, g)
    {
      RowBounds(row, 0, i);
    }
  }

  lemma {:induction false} ParallelKeepsInside(
    f: Frame, cs: seq<Node>, k: int, x: int, y: int, width: int, st: DiagramStyle, dir: Direction)
    requires Fits(Node(f, ParallelNode(cs, k)), st) && st.Sane()
    requires width >= f.width
    ensures WellPlaced(Place(Node(f, ParallelNode(cs, k)), x, y, width, st, dir))
    ensures Joined(Place(Node(f, ParallelNode(cs, k)), x, y, width, st, dir))
    decreases Node(f, ParallelNode(cs, k)), 1
  {
    var hs := st.horizontalSpacing;
    var vs := st.verticalSpacing;
    var g := f.(x := x, y := y, width := width);
    var column := PlaceColumn(cs, 0, (3 * hs) / 2, width - 3 * hs, st, dir);
    forall i | 0 <= i < |column|
      ensures WellPlaced(column[i]) && Joined(column[i])
    {
      assert Fits(cs[i], st);
      ChildPlaced(cs[i], (3 * hs) / 2, StackHeight(cs[..i], vs), width - 3 * hs, st, dir);
    }
    forall i | 0 <= i < |column|
      ensures Inside(column[i].f, g)
    {
      assert Fits(cs[i], st);
      StackHeightSplit(cs, vs, i);
    }
    ParallelPlaced(g, column, k);
    PlaceParallelIs(f, cs, k, x, y, width, st, dir);
    assert Place(Node(f, ParallelNode(cs, k)), x, y, width, st, dir) == Node(g, ParallelNode(column, k));
  }

  lemma {:induction false} LoopKeepsInside(
    f: Frame, fw: Node, bw: Node, x: int, y: int, width: int, st: DiagramStyle, dir: Direction)
    requires Fits(Node(f, LoopNode(fw, bw)), st) && st.Sane()
    requires width >= f.width
    ensures WellPlaced(Place(Node(f, LoopNode(fw, bw)), x, y, width, st, dir))
    ensures Joined(Place(Node(f, LoopNode(fw, bw)), x, y, width, st, dir))
    decreases Node(f, LoopNode(fw, bw)), 1
  {
    var hs := st.horizontalSpacing;
    var g := f.(x := x, y := y, width := width);
    var forward := Place(fw, hs, 0, width - 2 * hs, st, Forward);
    var backward := Place(bw, hs, fw.f.height + st.verticalSpacing, width - 2 * hs, st, Backward);
    ChildPlaced(fw, hs, 0, width - 2 * hs, st, Forward);
    ChildPlaced(bw, hs, fw.f.height + st.verticalSpacing, width - 2 * hs, st, Backward);
    LoopPlaced(g, forward, backward);
    PlaceLoopIs(f, fw, bw, x, y, width, st, dir);
    assert Place(Node(f, LoopNode(fw, bw)), x, y, width, st, dir) == Node(g, LoopNode(forward, backward));
  }

  lemma {:induction false} DecorationKeepsInside(
    f: Frame, c: Node, text: string, tw: nat, th: nat, style: DecorationStyle,
    x: int, y: int, width: int, st: DiagramStyle, dir: Direction)
    requires Fits(Node(f, DecorationNode(c, text, tw, th, style)), st) && st.Sane()
    requires width >= f.width
    ensures WellPlaced(Place(Node(f, DecorationNode(c, text, tw, th, style)), x, y, width, st, dir))
    ensures Joined(Place(Node(f, DecorationNode(c, text, tw, th, style)), x, y, width, st, dir))
    decreases Node(f, DecorationNode(c, text, tw, th, style)), 1
  {
    var left := style.margin.left + style.padding.left;
    var top := style.margin.top + style.padding.top;
    var g := f.(x := x, y := y, width := width);
    var child := Place(c, left, top, c.f.width, st, dir);
    ChildPlaced(c, left, top, c.f.width, st, dir);
    DecorationPlaced(g, child, text, tw, th, style);
    PlaceDecorationIs(f, c, text, tw, th, style, x, y, width, st, dir);
    assert Place(Node(f, DecorationNode(c, text, tw, th, style)), x, y, width, st, dir)
        == Node(g, DecorationNode(child, text, tw, th, style));
  }

  /** Laying out a measured tree in at least its measured width puts every
      child inside its parent and on its parent's line where the track runs
      straight through. */
  lemma LayoutKeepsChildrenInside(e: Element, st: DiagramStyle, x: int, y: int, width: int, dir: Direction)
    requires ValidCenters(e) && NonNegativeInsets(e) && st.Sane()
    requires width >= Measure(e, st).f.width
    ensures WellPlaced(Place(Measure(e, st), x, y, width, st, dir))
    ensures Joined(Place(Measure(e, st), x, y, width, st, dir))
  {
    MeasureFits(e, st);
    PlaceKeepsInside(Measure(e, st), x, y, width, st, dir);
  }
}
