/**
 What the measure pass promises: the size of each kind of node in terms of its
 children, and that every measured node's connection line lies within it.
 */
module MeasureProperties {
  import opened Style
  import opened Tree
  import opened MeasurePass

  /** A node and all its descendants have non-negative size and a connection
      line inside their own height. */
  predicate WellMeasured(n: Node)
    decreases n
  {
    && 0 <= n.f.width
    && 0 <= n.f.connectY <= n.f.height
    && match n.kind
       case BoxNode(_, _, _, _, _) => true
       case SeriesNode(es) => forall i :: 0 <= i < |es| ==> WellMeasured(es[i])
       case ParallelNode(es, _) => forall i :: 0 <= i < |es| ==> WellMeasured(es[i])
       case LoopNode(fw, bw) => WellMeasured(fw) && WellMeasured(bw)
       case SkipNode => true
       case DecorationNode(c, _, _, _, _) => WellMeasured(c)
  }

  lemma {:induction false} SumWidthsNonNegative(cs: seq<Node>)
    requires forall i :: 0 <= i < |cs| ==> cs[i].f.width >= 0
    ensures SumWidths(cs) >= 0
    decreases |cs|
  {
    if cs != [] {
      SumWidthsNonNegative(cs[1..]);
    }
  }

  lemma {:induction false} StackHeightAppend(a: seq<Node>, b: seq<Node>, gap: int)
    ensures StackHeight(a + b, gap) == StackHeight(a, gap) + StackHeight(b, gap)
    decreases |a|
  {
    if a == [] {
      assert a + b == b;
    } else {
      assert (a + b)[1..] == a[1..] + b;
      StackHeightAppend(a[1..], b, gap);
    }
  }

  lemma {:induction false} StackHeightNonNegative(cs: seq<Node>, gap: int)
    requires gap >= 0
    requires forall i :: 0 <= i < |cs| ==> cs[i].f.height >= 0
    ensures StackHeight(cs, gap) >= 0
    decreases |cs|
  {
    if cs != [] {
      StackHeightNonNegative(cs[1..], gap);
    }
  }

  /** In a column of non-negative heights, the i-th child's top edge (the
      height of everything stacked before it) plus its own height fits in the
      column less the trailing gap. */
  lemma StackHeightSplit(cs: seq<Node>, gap: int, i: int)
    requires 0 <= i < |cs|
    requires gap >= 0
    requires forall j :: 0 <= j < |cs| ==> cs[j].f.height >= 0
    ensures 0 <= StackHeight(cs[..i], gap)
    ensures StackHeight(cs[..i], gap) + cs[i].f.height <= StackHeight(cs, gap) - gap
  {
    assert cs == cs[..i] + ([cs[i]] + cs[i + 1..]);
    StackHeightAppend(cs[..i], [cs[i]] + cs[i + 1..], gap);
    assert ([cs[i]] + cs[i + 1..])[1..] == cs[i + 1..];
    StackHeightNonNegative(cs[..i], gap);
    StackHeightNonNegative(cs[i + 1..], gap);
  }

  /** The connection line of every measured node lies within its height, and
      sizes are non-negative, for non-negative insets and spacings. */
  lemma {:induction false} MeasuredConnectYInRange(e: Element, st: DiagramStyle)
    requires ValidCenters(e) && NonNegativeInsets(e) && st.Sane()
    ensures WellMeasured(Measure(e, st))
    decreases e
  {
    var r := Measure(e, st);
    match e
    case Box(_, _, _, _) =>
    case Series(es) =>
      var ms := r.kind.elements;
      forall i | 0 <= i < |es| ensures WellMeasured(ms[i]) {
        MeasuredConnectYInRange(es[i], st);
      }
      SumWidthsNonNegative(ms);
    case Parallel(es, k) =>
      var ms := r.kind.elements;
      forall i | 0 <= i < |es| ensures WellMeasured(ms[i]) {
        MeasuredConnectYInRange(es[i], st);
      }
      if |ms| > 0 {
        StackHeightSplit(ms, st.verticalSpacing, k);
      }
    case Loop(fw, bw) =>
      MeasuredConnectYInRange(fw, st);
      MeasuredConnectYInRange(bw, st);
    case Skip =>
    case Decoration(c, _, _, _, _) =>
      MeasuredConnectYInRange(c, st);
  }

  /** Box: the outline holds the padded text (and is at least as wide as high
      when its sides are rounded); the element adds a track stub on each side;
      the track meets the box at its vertical middle. */
  lemma MeasureBox(text: string, tw: nat, th: nat, style: BoxStyle, st: DiagramStyle)
    ensures var r := Measure(Box(text, tw, th, style), st);
            var pad := style.textStyle.padding;
            && r.f.height == th + pad.top + pad.bottom
            && r.kind.boxWidth >= tw + pad.left + pad.right
            && (style.shape.RoundedSides? ==> r.kind.boxWidth >= r.f.height)
            && (r.kind.boxWidth == tw + pad.left + pad.right
                || (style.shape.RoundedSides? && r.kind.boxWidth == r.f.height))
            && r.f.width == r.kind.boxWidth + LefthandTrackLength(st) + RighthandTrackLength(st)
            && 2 * r.f.connectY <= r.f.height <= 2 * r.f.connectY + 1
  {
  }

  /** Skip: as high as the arrow head (or the track line without arrows), with
      its line in the middle; its width is left to the parent. */
  lemma MeasureSkip(st: DiagramStyle)
    ensures var r := Measure(Skip, st);
            && r.f.height == (if st.arrowHeads then st.arrowSize else st.trackLineWidth)
            && r.f.width == 0
            && 2 * r.f.connectY <= r.f.height <= 2 * r.f.connectY + 1
  {
  }

  /** Series: the children side by side. The shared connection line is the
      lowest of the children's lines (and not above 0); the height is the
      least that holds every child once pushed down onto that line. */
  lemma MeasureSeries(es: seq<Element>, st: DiagramStyle)
    requires forall i :: 0 <= i < |es| ==> ValidCenters(es[i])
    ensures var r := Measure(Series(es), st);
            var ms := r.kind.elements;
            && |ms| == |es|
            && (forall i :: 0 <= i < |es| ==> ms[i] == Measure(es[i], st))
            && r.f.width == SumWidths(ms)
            && (forall i :: 0 <= i < |ms| ==> ms[i].f.connectY <= r.f.connectY)
            && 0 <= r.f.connectY
            && (r.f.connectY == 0 || exists i :: 0 <= i < |ms| && ms[i].f.connectY == r.f.connectY)
            && (forall i :: 0 <= i < |ms| ==>
                  (r.f.connectY - ms[i].f.connectY) + ms[i].f.height <= r.f.height)
            && 0 <= r.f.height
            && (r.f.height == 0 || exists i :: 0 <= i < |ms| && (r.f.connectY - ms[i].f.connectY) + ms[i].f.height == r.f.height)
  {
    assert ValidCenters(Series(es));
  }

  /** Parallel: the children stacked with the vertical spacing between them,
      with room for the connecting curves on both sides; the connection line is
      that of the center child, below everything stacked above it. Without
      children everything stays 0. */
  lemma MeasureParallel(es: seq<Element>, k: int, st: DiagramStyle)
    requires ValidCenters(Parallel(es, k))
    ensures var r := Measure(Parallel(es, k), st);
            var ms := r.kind.elements;
            var hs := st.horizontalSpacing;
            var vs := st.verticalSpacing;
            && |ms| == |es|
            && (forall i :: 0 <= i < |es| ==> ms[i] == Measure(es[i], st))
            && (|es| == 0 ==> r.f == Frame(0, 0, 0, 0, 0))
            && (|es| > 0 ==>
                && (forall i :: 0 <= i < |ms| ==> ms[i].f.width + 3 * hs <= r.f.width)
                && (r.f.width == 3 * hs || exists i :: 0 <= i < |ms| && ms[i].f.width + 3 * hs == r.f.width)
                && r.f.height + vs == StackHeight(ms, vs)
                && r.f.connectY == StackHeight(ms[..k], vs) + ms[k].f.connectY)
  {
  }

  /** Loop: the forward row above the backward row, as wide as the wider of
      the two plus a spacing on each side for the return curves; the line is
      that of the forward row. */
  lemma MeasureLoop(fw: Element, bw: Element, st: DiagramStyle)
    requires ValidCenters(fw) && ValidCenters(bw)
    ensures var r := Measure(Loop(fw, bw), st);
            var hs := st.horizontalSpacing;
            && r.kind.forward == Measure(fw, st)
            && r.kind.backward == Measure(bw, st)
            && r.f.width - 2 * hs >= r.kind.forward.f.width
            && r.f.width - 2 * hs >= r.kind.backward.f.width
            && r.f.width - 2 * hs >= 0
            && (r.f.width - 2 * hs == 0 || r.f.width - 2 * hs == r.kind.forward.f.width
                || r.f.width - 2 * hs == r.kind.backward.f.width)
            && r.f.height == r.kind.forward.f.height + st.verticalSpacing + r.kind.backward.f.height
            && r.f.connectY == r.kind.forward.f.connectY
  {
  }

  /** Decoration: the frame holds both the child and the padded caption (an
      empty caption takes no room), plus margin and padding on every side; the
      line is the child's, moved down by the top margin and padding. */
  lemma MeasureDecoration(c: Element, text: string, tw: nat, th: nat, style: DecorationStyle, st: DiagramStyle)
    requires ValidCenters(c)
    ensures var r := Measure(Decoration(c, text, tw, th, style), st);
            var m := style.margin;
            var p := style.padding;
            var tp := style.textStyle.padding;
            var cw := if text == "" then 0 else tw;
            var ch := if text == "" then 0 else th;
            var innerW := r.f.width - (m.left + m.right + p.left + p.right);
            var innerH := r.f.height - (m.top + m.bottom + p.top + p.bottom);
            && r.kind.element == Measure(c, st)
            && innerW >= r.kind.element.f.width && innerW >= cw + tp.left + tp.right
            && (innerW == r.kind.element.f.width || innerW == cw + tp.left + tp.right)
            && innerH >= r.kind.element.f.height && innerH >= ch + tp.top + tp.bottom
            && (innerH == r.kind.element.f.height || innerH == ch + tp.top + tp.bottom)
            && r.f.connectY == r.kind.element.f.connectY + m.top + p.top
  {
  }
}
