/**
 The layout pass: top-down, every container gives its children their x and y
 (and, for Parallel and Loop, their width) and then lets each child lay out
 its own children. A Series that was given more width than its children need
 hands the slack out according to the alignment of the current direction.
 */
module LayoutPass {
  import opened Style
  import opened Tree

  /** The runtime traps of the source that the model turns into errors. */
  datatype Trap =
    | UnwrapOfEmptySeries     // `elements.last!` / `elements.first!` on a Series without elements
    | CenterIndexOutOfRange   // `elements[indexOfCenterElement]` outside a non-empty Parallel
    | CanvasNotPositive       // the `width > 0` / `height > 0` assertions before drawing
    | UnwrapOfEmptyParallel   // `elements.first!` / `elements.last!` drawing a Parallel without elements

  datatype Result<T> = Ok(value: T) | Failure(error: Trap)

  /** Moves a node right by `dx` and widens it by `dw`, leaving its children as they are. */
  function Stretch(n: Node, dx: int, dw: int): Node {
    n.(f := n.f.(x := n.f.x + dx, width := n.f.width + dw))
  }

  /** Lays out node `n` after its parent has put it at (`x`, `y`) and given it
      `width`: a node's layout only ever moves and sizes its children, so its
      own height and connection line are those the measure pass computed. */
  function Place(n: Node, x: int, y: int, width: int, st: DiagramStyle, dir: Direction): (r: Node)
    ensures r.f == n.f.(x := x, y := y, width := width)
    decreases n, 2
  {
    var f := n.f.(x := x, y := y, width := width);
    match n.kind
    case BoxNode(_, _, _, _, _) => Node(f, n.kind)
    case SeriesNode(es) => PlaceSeries(f, es, st, dir)
    case ParallelNode(es, k) => PlaceParallel(f, es, k, st, dir)
    case LoopNode(fw, bw) => PlaceLoop(f, fw, bw, st)
    case SkipNode => Node(f, n.kind)
    case DecorationNode(c, text, tw, th, style) => PlaceDecoration(f, c, text, tw, th, style, st, dir)
  }

  /** Series: the children side by side on the Series' line, then the slack
      spread over them according to the alignment of `dir`. */
  function PlaceSeries(f: Frame, es: seq<Node>, st: DiagramStyle, dir: Direction): (r: Node)
    ensures r.f == f
    decreases es, 1
  {
    var row := PlaceRow(es, 0, f.connectY, st, dir);
    Node(f, SeriesNode(SpreadSlack(row, f.width - SumWidths(row), AlignmentFor(st, dir))))
  }

  /** Parallel: the children stacked, indented for the connecting curves, each
      as wide as the Parallel less the room for the curves on both sides. */
  function PlaceParallel(f: Frame, es: seq<Node>, k: int, st: DiagramStyle, dir: Direction): (r: Node)
    ensures r.f == f
    decreases es, 1
  {
    var hs := st.horizontalSpacing;
    Node(f, ParallelNode(PlaceColumn(es, 0, (hs * 3) / 2, f.width - hs * 3, st, dir), k))
  }

  /** Loop: the forward row laid out Forward, the backward row below it laid
      out Backward, whatever the direction of the Loop itself. */
  function PlaceLoop(f: Frame, fw: Node, bw: Node, st: DiagramStyle): (r: Node)
    ensures r.f == f
    decreases LoopNode(fw, bw), 1
  {
    var hs := st.horizontalSpacing;
    var forward := Place(fw, hs, 0, f.width - hs * 2, st, Forward);
    var backward := Place(bw, forward.f.x, forward.f.height + st.verticalSpacing, forward.f.width, st, Backward);
    Node(f, LoopNode(forward, backward))
  }

  /** Decoration: the child at its measured width, inset by margin and padding. */
  function PlaceDecoration(f: Frame, c: Node, text: string, tw: nat, th: nat, style: DecorationStyle,
                           st: DiagramStyle, dir: Direction): (r: Node)
    ensures r.f == f
    decreases DecorationNode(c, text, tw, th, style), 1
  {
    var child := Place(c, style.margin.left + style.padding.left, style.margin.top + style.padding.top,
                       c.f.width, st, dir);
    Node(f, DecorationNode(child, text, tw, th, style))
  }

  /** The children of a Series, left to right from `localX` (each starts where
      the widths before it end), each moved down so that its connection line
      lies on the row's `connectY`. */
  function PlaceRow(cs: seq<Node>, localX: int, connectY: int, st: DiagramStyle, dir: Direction): (r: seq<Node>)
    ensures |r| == |cs|
    decreases cs, 0
  {
    seq(|cs|, i requires 0 <= i < |cs| =>
      Place(cs[i], localX + SumWidths(cs[..i]), connectY - cs[i].f.connectY, cs[i].f.width, st, dir))
  }

  /** The children of a Parallel, top to bottom from `localY` (each starts
      below the heights and vertical spacings before it), all at `x` and all
      `width` wide. */
  function PlaceColumn(cs: seq<Node>, localY: int, x: int, width: int, st: DiagramStyle, dir: Direction): (r: seq<Node>)
    ensures |r| == |cs|
    decreases cs, 0
  {
    seq(|cs|, i requires 0 <= i < |cs| =>
      Place(cs[i], x, localY + StackHeight(cs[..i], st.verticalSpacing), width, st, dir))
  }

  /** Slack distribution of a Series, as written: every alignment reaches for
      the first or last element, which traps when the Series is empty. */
  function SpreadSlackAsWritten(cs: seq<Node>, diff: int, align: Alignment): (r: Result<seq<Node>>)
    ensures r.Failure? <==> diff > 0 && cs == []
    ensures r.Ok? ==> |r.value| == |cs|
  {
    if diff <= 0 then Ok(cs)
    else if cs == [] then Failure(UnwrapOfEmptySeries)
    else
      var last := |cs| - 1;
      match align
      case Left =>
        Ok(cs[..last] + [Stretch(cs[last], 0, diff)])
      case Right =>
        Ok([Stretch(cs[0], 0, diff)] + ShiftAll(cs[1..], diff))
      case _ =>
        var perElement := diff / |cs|;
        var spread := ShiftAndWiden(cs, 0, perElement);
        Ok(spread[..last] + [Stretch(spread[last], 0, diff - |cs| * perElement)])
  }

  /** Slack distribution with an empty Series left as it is. */
  function SpreadSlack(cs: seq<Node>, diff: int, align: Alignment): (r: seq<Node>)
    ensures |r| == |cs|
    ensures cs == [] || diff <= 0 ==> r == cs
    ensures Restretched(cs, r)
  {
    if cs == [] then cs
    else
      SpreadSlackRestretches(cs, diff, align);
      SpreadSlackAsWritten(cs, diff, align).value
  }

  /** `r` is `cs` with children moved sideways or resized, nothing else. */
  predicate Restretched(cs: seq<Node>, r: seq<Node>) {
    && |r| == |cs|
    && forall i :: 0 <= i < |cs| ==>
         && r[i] == cs[i].(f := r[i].f)
         && r[i].f.y == cs[i].f.y
         && r[i].f.height == cs[i].f.height
         && r[i].f.connectY == cs[i].f.connectY
  }

  lemma SpreadSlackRestretches(cs: seq<Node>, diff: int, align: Alignment)
    requires cs != []
    ensures Restretched(cs, SpreadSlackAsWritten(cs, diff, align).value)
  {
    var r := SpreadSlackAsWritten(cs, diff, align).value;
    var last := |cs| - 1;
    if diff > 0 {
      match align
      case Left =>
        assert forall i :: 0 <= i < last ==> r[i] == cs[i];
        assert r[last] == Stretch(cs[last], 0, diff);
      case Right =>
        assert r[0] == Stretch(cs[0], 0, diff);
        assert forall i :: 1 <= i < |cs| ==> r[i] == ShiftAll(cs[1..], diff)[i - 1];
      case _ =>
        var perElement := diff / |cs|;
        var spread := ShiftAndWiden(cs, 0, perElement);
        assert forall i :: 0 <= i < last ==> r[i] == spread[i];
        assert r[last] == Stretch(spread[last], 0, diff - |cs| * perElement);
    }
  }

  function ShiftAll(cs: seq<Node>, dx: int): (r: seq<Node>)
    ensures |r| == |cs|
    ensures forall i :: 0 <= i < |cs| ==> r[i] == Stretch(cs[i], dx, 0)
  {
    seq(|cs|, i requires 0 <= i < |cs| => Stretch(cs[i], dx, 0))
  }

  /** The Center/Fill loop: each element moves right by what was handed out
      before it and grows by `perElement`. */
  function ShiftAndWiden(cs: seq<Node>, addX: int, perElement: int): (r: seq<Node>)
    ensures |r| == |cs|
    ensures forall i :: 0 <= i < |cs| ==> r[i] == Stretch(cs[i], addX + i * perElement, perElement)
    decreases |cs|
  {
    if cs == [] then []
    else [Stretch(cs[0], addX, perElement)] + ShiftAndWiden(cs[1..], addX + perElement, perElement)
  }
}
