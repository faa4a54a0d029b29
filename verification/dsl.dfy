/**
 The builder functions that assemble diagrams the way regular expressions and
 EBNF are written, and the one-call `diagram` render. Texts come with their
 measured extents, since text measurement is the platform's.
 */
module Builders {
  import opened Style
  import opened Tree
  import opened MeasurePass
  import opened MeasureProperties
  import opened LayoutPass
  import opened LayoutProperties
  import opened Containment
  import opened Render
  import opened LayoutAsWritten

  /** A terminal symbol: a box with rounded sides. */
  function Terminal(text: string, textWidth: nat, textHeight: nat): (r: Element)
    ensures r.Box? && r.style.shape == RoundedSides
  {
    Box(text, textWidth, textHeight, DefaultBoxStyle().(shape := RoundedSides))
  }

  /** A non-terminal symbol: a box with straight sides. */
  function NonTerminal(text: string, textWidth: nat, textHeight: nat): (r: Element)
    ensures r.Box? && r.style.shape == Rectangle
  {
    Box(text, textWidth, textHeight, DefaultBoxStyle())
  }

  /** Text with no outline (the source also sets it in italics, which only
      changes the extents the caller passes in). */
  function Comment(text: string, textWidth: nat, textHeight: nat): (r: Element)
    ensures r.Box? && r.style.shape == NoShape
  {
    Box(text, textWidth, textHeight, DefaultBoxStyle().(shape := NoShape))
  }

  /** Concatenation. */
  function Sequence(elements: seq<Element>): (r: Element)
    ensures r.Series? && r.elements == elements
  {
    Series(elements)
  }

  /** `?` of a regular expression: the element on the center line and a skip
      track beside it, below the element unless `drawSkipBelow` is false. */
  function Optional(element: Element, drawSkipBelow: bool): (r: Element)
    ensures r.Parallel? && |r.elements| == 2
    ensures 0 <= r.indexOfCenterElement < 2
    ensures r.elements[r.indexOfCenterElement] == element
    ensures r.elements[1 - r.indexOfCenterElement] == Skip
    ensures drawSkipBelow <==> r.indexOfCenterElement == 0
  {
    if drawSkipBelow then Parallel([element, Skip], 0)
    else Parallel([Skip, element], 1)
  }

  /** `|` of a regular expression, the first alternative on the center line. */
  function Choice(elements: seq<Element>): (r: Element)
    ensures r.Parallel? && r.elements == elements && r.indexOfCenterElement == 0
    ensures ValidCenters(r) <==> forall i :: 0 <= i < |elements| ==> ValidCenters(elements[i])
    ensures DrawableCenters(r) <==> forall i :: 0 <= i < |elements| ==> DrawableCenters(elements[i])
  {
    Parallel(elements, 0)
  }

  /** `|` with the alternative at `centerIndex` on the center line; an index
      outside a non-empty choice traps once the diagram is measured. */
  function ChoiceCentered(centerIndex: int, elements: seq<Element>): (r: Element)
    ensures r.Parallel? && r.elements == elements && r.indexOfCenterElement == centerIndex
    ensures ValidCenters(r) <==>
              && (|elements| > 0 ==> 0 <= centerIndex < |elements|)
              && forall i :: 0 <= i < |elements| ==> ValidCenters(elements[i])
    ensures DrawableCenters(r) <==>
              && (elements == [] ==> centerIndex == 0 || centerIndex == -1)
              && forall i :: 0 <= i < |elements| ==> DrawableCenters(elements[i])
  {
    Parallel(elements, centerIndex)
  }

  /** `+` of a regular expression: the element, with `repeat` on the way back. */
  function OneOrMore(element: Element, repeat: Element): (r: Element)
    ensures r.Loop? && r.forward == element && r.backward == repeat
  {
    Loop(element, repeat)
  }

  /** `*` of a regular expression: an optional repetition. */
  function ZeroOrMore(element: Element, repeat: Element, drawSkipBelow: bool): (r: Element)
    ensures r == Optional(OneOrMore(element, repeat), drawSkipBelow)
  {
    if drawSkipBelow then Parallel([Loop(element, repeat), Skip], 0)
    else Parallel([Skip, Loop(element, repeat)], 1)
  }

  /** A capture group: the element framed with a caption in the default
      decoration style. */
  function Capture(element: Element, text: string, textWidth: nat, textHeight: nat): (r: Element)
    ensures r.Decoration? && r.element == element && r.text == text
    ensures r.decorationStyle == DefaultDecorationStyle()
  {
    Decoration(element, text, textWidth, textHeight, DefaultDecorationStyle())
  }

  /** The style of the one-call render: the default with a margin of 10 all round. */
  function DiagramDefaults(): (st: DiagramStyle)
    ensures st.Sane() && st.margin.NonNegative()
    ensures st == DefaultDiagramStyle().(margin := Insets(10, 10, 10, 10))
  {
    DiagramStyle(Insets(10, 10, 10, 10), FilledCircle, 2, true, 10, 24, 24, Left, Center)
  }

  /** Renders the elements in a row with the one-call defaults; the first
      postcondition only names the render it wraps. The render never trips
      its size assertions: the margins alone make the canvas at least 88 by
      20, which an empty diagram is exactly. */
  function DiagramOf(elements: seq<Element>): (r: Result<Canvas>)
    ensures r == RenderGeometry(Series(elements), DiagramDefaults())
    ensures (forall i :: 0 <= i < |elements| ==> ValidCenters(elements[i]) && NonNegativeInsets(elements[i])) ==>
              && r.Ok?
              && r.value.width >= 88 && r.value.height >= 20
              && (elements == [] ==> r.value.width == 88 && r.value.height == 20)
  {
    var e := Series(elements);
    var st := DiagramDefaults();
    if forall i :: 0 <= i < |elements| ==> ValidCenters(elements[i]) && NonNegativeInsets(elements[i]) then
      assert ValidCenters(e) && NonNegativeInsets(e);
      RenderFailsOnlyOnEmptyCanvas(e, st);
      MeasuredConnectYInRange(e, st);
      CanvasFramesRoot(e, st);
      RenderGeometry(e, st)
    else
      RenderGeometry(e, st)
  }

  /** `each(a, b, c)`: the same as a sequence. */
  function Each(elements: seq<Element>): (r: Element)
    ensures r == Sequence(elements)
  {
    Series(elements)
  }

  /** `or(a, b)`: the same as a choice. */
  function Or(elements: seq<Element>): (r: Element)
    ensures r == Choice(elements)
  {
    Parallel(elements, 0)
  }

  /** `maybe(a)`: optional with the skip below. */
  function Maybe(element: Element): (r: Element)
    ensures r == Optional(element, true)
  {
    Parallel([element, Skip], 0)
  }

  /** `many(a, r)`: the same as one or more. */
  function Many(element: Element, repeat: Element): (r: Element)
    ensures r == OneOrMore(element, repeat)
  {
    Loop(element, repeat)
  }

  /** `any(a, r)`: zero or more with the skip below. */
  function Any(element: Element, repeat: Element): (r: Element)
    ensures r == ZeroOrMore(element, repeat, true)
  {
    Parallel([Loop(element, repeat), Skip], 0)
  }

  /** A terminal's outline is a pill: never narrower than high, and no wider
      than it must be to hold the padded text or to be that round. */
  lemma TerminalIsPill(text: string, tw: nat, th: nat, st: DiagramStyle)
    ensures var r := Measure(Terminal(text, tw, th), st);
            && r.f.height == th + 12
            && r.kind.boxWidth >= r.f.height
            && r.kind.boxWidth >= tw + 36
            && (r.kind.boxWidth == r.f.height || r.kind.boxWidth == tw + 36)
  {
    MeasureBox(text, tw, th, DefaultBoxStyle().(shape := RoundedSides), st);
  }

  /** A non-terminal's outline is exactly the padded text. */
  lemma NonTerminalHugsText(text: string, tw: nat, th: nat, st: DiagramStyle)
    ensures var r := Measure(NonTerminal(text, tw, th), st);
            && r.f.height == th + 12
            && r.kind.boxWidth == tw + 36
  {
    MeasureBox(text, tw, th, DefaultBoxStyle(), st);
  }

  /** The builders keep a tree well formed: non-negative insets everywhere and
      a center index inside every non-empty choice. */
  lemma {:induction false} BuildersWellFormed(e: Element, repeat: Element, below: bool, text: string, tw: nat, th: nat)
    ensures ValidCenters(e) ==> ValidCenters(Optional(e, below))
    ensures NonNegativeInsets(e) ==> NonNegativeInsets(Optional(e, below))
    ensures ValidCenters(e) && ValidCenters(repeat) ==> ValidCenters(ZeroOrMore(e, repeat, below))
    ensures NonNegativeInsets(e) && NonNegativeInsets(repeat) ==> NonNegativeInsets(ZeroOrMore(e, repeat, below))
    ensures ValidCenters(e) ==> ValidCenters(Capture(e, text, tw, th))
    ensures NonNegativeInsets(e) ==> NonNegativeInsets(Capture(e, text, tw, th))
    ensures NonNegativeInsets(Terminal(text, tw, th)) && NonNegativeInsets(NonTerminal(text, tw, th))
    ensures NonNegativeInsets(Comment(text, tw, th))
  {
    BuildersKeepCenters(e, repeat, below, text, tw, th);
    BuildersKeepInsets(e, repeat, below, text, tw, th);
  }

  /** Proof helper: the center-index half of `BuildersWellFormed`. */
  lemma {:induction false} BuildersKeepCenters(e: Element, repeat: Element, below: bool, text: string, tw: nat, th: nat)
    ensures ValidCenters(e) ==> ValidCenters(Optional(e, below))
    ensures ValidCenters(e) && ValidCenters(repeat) ==> ValidCenters(ZeroOrMore(e, repeat, below))
    ensures ValidCenters(e) ==> ValidCenters(Capture(e, text, tw, th))
  {
  }

  /** Proof helper: the inset half of `BuildersWellFormed`. */
  lemma {:induction false} BuildersKeepInsets(e: Element, repeat: Element, below: bool, text: string, tw: nat, th: nat)
    ensures NonNegativeInsets(e) ==> NonNegativeInsets(Optional(e, below))
    ensures NonNegativeInsets(e) && NonNegativeInsets(repeat) ==> NonNegativeInsets(ZeroOrMore(e, repeat, below))
    ensures NonNegativeInsets(e) ==> NonNegativeInsets(Capture(e, text, tw, th))
    ensures NonNegativeInsets(Terminal(text, tw, th)) && NonNegativeInsets(NonTerminal(text, tw, th))
    ensures NonNegativeInsets(Comment(text, tw, th))
  {
  }

  /** The builders other than a centered choice never make an empty choice
      that cannot be drawn. */
  lemma {:induction false} BuildersDrawable(e: Element, repeat: Element, below: bool, text: string, tw: nat, th: nat)
    ensures DrawableCenters(e) ==> DrawableCenters(Optional(e, below))
    ensures DrawableCenters(e) && DrawableCenters(repeat) ==> DrawableCenters(ZeroOrMore(e, repeat, below))
    ensures DrawableCenters(e) ==> DrawableCenters(Capture(e, text, tw, th))
  {
  }

  /** However the skip is drawn, an optional element stays on the center line
      of the whole: once laid out, the element is on the choice's line, and the
      skip track lies wholly below it (or wholly above it when asked). */
  lemma {:induction false} OptionalKeepsElementOnLine(e: Element, below: bool, st: DiagramStyle, x: int, y: int, dir: Direction)
    requires ValidCenters(e) && NonNegativeInsets(e) && st.Sane()
    ensures var m := Measure(Optional(e, below), st);
            var k := m.kind.indexOfCenterElement;
            var n := Place(m, x, y, m.f.width, st, dir);
            && m.kind.elements[k] == Measure(e, st)
            && m.kind.elements[1 - k] == Measure(Skip, st)
            && n.kind.ParallelNode? && |n.kind.elements| == 2
            && var element := n.kind.elements[k];
            var skip := n.kind.elements[1 - k];
            && OnLine(element.f, n.f)
            && (below ==> element.f.y + element.f.height <= skip.f.y)
            && (!below ==> skip.f.y + skip.f.height <= element.f.y)
  {
    var opt := Optional(e, below);
    assert ValidCenters(opt) && NonNegativeInsets(opt);
    var m := Measure(opt, st);
    MeasureParallel(opt.elements, opt.indexOfCenterElement, st);
    MeasuredConnectYInRange(opt, st);
    assert m.kind.elements[0].f.height >= 0;
    LayoutKeepsChildrenInside(opt, st, x, y, m.f.width, dir);
    LayoutParallel(m.f, m.kind.elements, m.kind.indexOfCenterElement, x, y, m.f.width, st, dir);
    assert m.kind.elements[..0] == [];
    assert m.kind.elements[..1] == [m.kind.elements[0]];
    assert StackHeight(m.kind.elements[..1], st.verticalSpacing) == m.kind.elements[0].f.height + st.verticalSpacing;
  }

  /** A sequence laid out at its measured width: its elements side by side
      in the given order from its left edge, each at its own measured size
      with no slack added, and each on the sequence's line. */
  lemma {:induction false} SequenceLaysOutInOrder(es: seq<Element>, st: DiagramStyle, x: int, y: int, dir: Direction)
    requires forall i :: 0 <= i < |es| ==> ValidCenters(es[i])
    ensures Place(Measure(Sequence(es), st), x, y, Measure(Sequence(es), st).f.width, st, dir).kind.SeriesNode?
    ensures var m := Measure(Sequence(es), st);
            var n := Place(m, x, y, m.f.width, st, dir);
            && |n.kind.elements| == |es|
            && RowFrom(n.kind.elements, 0)
            && forall i :: 0 <= i < |es| ==>
                 && n.kind.elements[i].f.width == Measure(es[i], st).f.width
                 && n.kind.elements[i].f.height == Measure(es[i], st).f.height
                 && OnLine(n.kind.elements[i].f, n.f)
  {
    var m := Measure(Sequence(es), st);
    SequenceMeasuredAsRow(es, st);
    SeriesAtOwnWidth(m, x, y, st, dir);
    var n := Place(m, x, y, m.f.width, st, dir);
    var ms := m.kind.elements;
    forall i | 0 <= i < |es|
      ensures && n.kind.elements[i].f.width == Measure(es[i], st).f.width
              && n.kind.elements[i].f.height == Measure(es[i], st).f.height
              && OnLine(n.kind.elements[i].f, n.f)
    {
      assert n.kind.elements[i].f == ms[i].f.(x := n.kind.elements[i].f.x, y := m.f.connectY - ms[i].f.connectY);
    }
  }

  /** Proof helper: a measured sequence is a Series of its measured elements
      exactly as wide as they are together. */
  lemma SequenceMeasuredAsRow(es: seq<Element>, st: DiagramStyle)
    requires forall i :: 0 <= i < |es| ==> ValidCenters(es[i])
    ensures var m := Measure(Sequence(es), st);
            && m.kind.SeriesNode? && |m.kind.elements| == |es|
            && (forall i :: 0 <= i < |es| ==> m.kind.elements[i].f == Measure(es[i], st).f)
            && m.f.width == SumWidths(m.kind.elements)
  {
    assert Sequence(es) == Series(es);
    MeasureSeries(es, st);
  }

  /** One or more: the element runs forward on the loop's line and the
      repeat runs backward directly below it, both as wide as the loop less
      a stub on each side, so neither is narrowed. */
  lemma {:induction false} OneOrMoreLaysOutElementForward(e: Element, repeat: Element, st: DiagramStyle, x: int, y: int, dir: Direction)
    requires ValidCenters(e) && ValidCenters(repeat)
    ensures Place(Measure(OneOrMore(e, repeat), st), x, y, Measure(OneOrMore(e, repeat), st).f.width, st, dir).kind.LoopNode?
    ensures var m := Measure(OneOrMore(e, repeat), st);
            var n := Place(m, x, y, m.f.width, st, dir);
            var hs := st.horizontalSpacing;
            var forward := n.kind.forward.f;
            var backward := n.kind.backward.f;
            && forward == Measure(e, st).f.(x := hs, y := 0, width := m.f.width - 2 * hs)
            && backward == Measure(repeat, st).f.(x := hs, y := forward.height + st.verticalSpacing, width := m.f.width - 2 * hs)
            && OnLine(forward, n.f)
            && forward.width >= Measure(e, st).f.width
            && backward.width >= Measure(repeat, st).f.width
  {
    assert OneOrMore(e, repeat) == Loop(e, repeat);
    var m := Measure(OneOrMore(e, repeat), st);
    var hs := st.horizontalSpacing;
    assert m.kind.forward == Measure(e, st) && m.kind.backward == Measure(repeat, st)
        && m.f.width - 2 * hs >= Measure(e, st).f.width && m.f.width - 2 * hs >= Measure(repeat, st).f.width
        && m.f.connectY == Measure(e, st).f.connectY by {
      MeasureLoop(e, repeat, st);
    }
    LoopRows(m, x, y, m.f.width, st, dir);
  }

  /** A capture group laid out at its measured width: the element at its own
      measured width, inset by the default margin and padding, on the group's
      line, with the padding kept clear to its right and below it. */
  lemma CaptureFramesElement(e: Element, text: string, tw: nat, th: nat, st: DiagramStyle, x: int, y: int, dir: Direction)
    requires ValidCenters(e)
    ensures Place(Measure(Capture(e, text, tw, th), st), x, y, Measure(Capture(e, text, tw, th), st).f.width, st, dir)
              .kind.DecorationNode?
    ensures var m := Measure(Capture(e, text, tw, th), st);
            var n := Place(m, x, y, m.f.width, st, dir);
            var c := n.kind.element;
            && n.kind.text == text
            && c == Place(Measure(e, st), 24, 18, Measure(e, st).f.width, st, dir)
            && OnLine(c.f, n.f)
            && c.f.x + c.f.width + 24 <= n.f.width
            && c.f.y + c.f.height + 30 <= n.f.height
  {
    var d := Capture(e, text, tw, th);
    var m := Measure(d, st);
    MeasureDecoration(e, text, tw, th, DefaultDecorationStyle(), st);
    PlaceDecorationIs(m.f, m.kind.element, text, tw, th, DefaultDecorationStyle(), x, y, m.f.width, st, dir);
  }

  /** An empty choice centered on its second alternative measures, lays out
      and fits its canvas, but drawing it reads the first of no alternatives
      for the track going up, so the source's render traps; the model's
      geometry renders it. */
  lemma EmptyCenteredChoiceTraps()
    ensures var d := [ChoiceCentered(1, [])];
            && RenderAsWritten(Series(d), DiagramDefaults()) == Failure(UnwrapOfEmptyParallel)
            && DiagramOf(d).Ok?
  {
    var d := [ChoiceCentered(1, [])];
    var e := Series(d);
    assert ValidCenters(d[0]) && NonNegativeInsets(d[0]);
    assert NoEmptySeries(e) && !DrawableCenters(e) by {
      assert e.elements[0] == d[0];
    }
    assert DiagramOf(d).Ok?;
    RenderAsWrittenWithoutEmptySeries(e, DiagramDefaults());
  }

  /** An empty sequence beside a terminal: the choice hands the empty row
      the terminal's width as slack. The source's slack spread unwraps the
      first or last element of that row and traps, so the whole render
      fails; the model leaves the row empty and renders the diagram. */
  lemma EmptySequenceBesideTerminal(tw: nat, th: nat)
    ensures var d := [Choice([Sequence([]), Terminal("a", tw, th)])];
            && RenderAsWritten(Series(d), DiagramDefaults()) == Failure(UnwrapOfEmptySeries)
            && DiagramOf(d).Ok?
  {
    var d := [Choice([Sequence([]), Terminal("a", tw, th)])];
    assert ValidCenters(d[0]) && NonNegativeInsets(d[0]);
    EmptySequenceTraps(tw, th);
  }

  /** The trap itself, followed down the tree: the empty row is given the
      choice's width less the curves, which the terminal makes positive. */
  lemma EmptySequenceTraps(tw: nat, th: nat)
    ensures RenderAsWritten(Series([Choice([Sequence([]), Terminal("a", tw, th)])]), DiagramDefaults())
         == Failure(UnwrapOfEmptySeries)
  {
    var st := DiagramDefaults();
    var c := Choice([Sequence([]), Terminal("a", tw, th)]);
    var d := [c];
    var e := Series(d);
    assert ValidCenters(e);
    var root := Measure(e, st);
    MeasureSeries(d, st);
    var m := root.kind.elements[0];
    assert m == Measure(c, st);
    MeasureParallel(c.elements, 0, st);
    TerminalIsPill("a", tw, th, st);
    assert m.kind.elements[0].kind == SeriesNode([]);
    assert m.kind.elements[1].f.width >= 36;
    EmptyFirstAlternativeFirstTraps(root, RootX(st), st.margin.top, root.f.width, st, Forward);
    LayoutTrapEndsRender(e, st);
  }
}
