/**
 The element tree of a railroad diagram, before and after the geometry passes.

 `Element` is the tree the builder functions assemble: a closed set of six
 kinds. `Node` is the same tree carrying the geometry the passes compute: the
 measure pass fills in width, height and connectY, the layout pass x and y
 (and may widen a node). Keeping the two as immutable values means no node can
 appear at two places of a diagram, which the mutable classes could only ask
 of their callers.

 Text is never measured here: a Box or a Decoration caption carries the
 extents of its text, already rounded up to whole points, as it would receive
 them from the platform's text measurement.
 */
module Tree {
  import opened Style

  datatype Element =
    | Box(text: string, textWidth: nat, textHeight: nat, style: BoxStyle)
    | Series(elements: seq<Element>)
    | Parallel(elements: seq<Element>, indexOfCenterElement: int)
    | Loop(forward: Element, backward: Element)
    | Skip
    | Decoration(element: Element, text: string, textWidth: nat, textHeight: nat, decorationStyle: DecorationStyle)

  /** Geometry of a node: top-left corner in the parent's coordinates, size, and
      the local y of the line where the incoming and outgoing tracks attach. */
  datatype Frame = Frame(x: int, y: int, width: int, height: int, connectY: int)

  /** A node of the measured tree: its frame and what kind of element it is. */
  datatype Node = Node(f: Frame, kind: Kind)

  datatype Kind =
    | BoxNode(text: string, textWidth: nat, textHeight: nat, style: BoxStyle, boxWidth: int)
    | SeriesNode(elements: seq<Node>)
    | ParallelNode(elements: seq<Node>, indexOfCenterElement: int)
    | LoopNode(forward: Node, backward: Node)
    | SkipNode
    | DecorationNode(element: Node, text: string, textWidth: nat, textHeight: nat, decorationStyle: DecorationStyle)

  /** The element a node was computed from: drops all geometry. */
  function Erase(n: Node): Element
    decreases n
  {
    match n.kind
    case BoxNode(text, tw, th, style, _) => Box(text, tw, th, style)
    case SeriesNode(es) => Series(seq(|es|, i requires 0 <= i < |es| => Erase(es[i])))
    case ParallelNode(es, k) => Parallel(seq(|es|, i requires 0 <= i < |es| => Erase(es[i])), k)
    case LoopNode(fw, bw) => Loop(Erase(fw), Erase(bw))
    case SkipNode => Skip
    case DecorationNode(c, text, tw, th, style) => Decoration(Erase(c), text, tw, th, style)
  }

  /** Erasing a row of nodes child by child gives back the row of elements. */
  lemma EraseChildren(ns: seq<Node>, es: seq<Element>)
    requires |ns| == |es|
    requires forall i :: 0 <= i < |ns| ==> Erase(ns[i]) == es[i]
    ensures seq(|ns|, i requires 0 <= i < |ns| => Erase(ns[i])) == es
  {
  }

  /** Every Parallel that has children names one of them as its center: the
      measure pass reads `elements[indexOfCenterElement]` and traps otherwise. */
  predicate ValidCenters(e: Element)
    decreases e
  {
    match e
    case Box(_, _, _, _) => true
    case Series(es) => forall i :: 0 <= i < |es| ==> ValidCenters(es[i])
    case Parallel(es, k) =>
      (|es| > 0 ==> 0 <= k < |es|) && forall i :: 0 <= i < |es| ==> ValidCenters(es[i])
    case Loop(fw, bw) => ValidCenters(fw) && ValidCenters(bw)
    case Skip => true
    case Decoration(c, _, _, _, _) => ValidCenters(c)
  }

  /** Every Parallel without children has center index 0 or -1. Drawing a
      Parallel reads its first child for the track going up when the index
      is above 0, and its last child for the track going down when the index
      is below the last position; only 0 and -1 avoid both on an empty one. */
  predicate DrawableCenters(e: Element)
    decreases e
  {
    match e
    case Box(_, _, _, _) => true
    case Series(es) => forall i :: 0 <= i < |es| ==> DrawableCenters(es[i])
    case Parallel(es, k) =>
      (es == [] ==> k == 0 || k == -1) && forall i :: 0 <= i < |es| ==> DrawableCenters(es[i])
    case Loop(fw, bw) => DrawableCenters(fw) && DrawableCenters(bw)
    case Skip => true
    case Decoration(c, _, _, _, _) => DrawableCenters(c)
  }

  /** All paddings and margins in the tree are non-negative, as every style
      default is. */
  predicate NonNegativeInsets(e: Element)
    decreases e
  {
    match e
    case Box(_, _, _, style) => style.textStyle.padding.NonNegative()
    case Series(es) => forall i :: 0 <= i < |es| ==> NonNegativeInsets(es[i])
    case Parallel(es, _) => forall i :: 0 <= i < |es| ==> NonNegativeInsets(es[i])
    case Loop(fw, bw) => NonNegativeInsets(fw) && NonNegativeInsets(bw)
    case Skip => true
    case Decoration(c, _, _, _, style) =>
      && style.margin.NonNegative()
      && style.padding.NonNegative()
      && style.textStyle.padding.NonNegative()
      && NonNegativeInsets(c)
  }

  function Max(a: int, b: int): int {
    if a < b then b else a
  }

  // Folds over the children of a Series or Parallel.

  function SumWidths(cs: seq<Node>): int
  {
    if cs == [] then 0 else cs[0].f.width + SumWidths(cs[1..])
  }

  /** The widest child, or 0. */
  function MaxWidth(cs: seq<Node>): (m: int)
    ensures m >= 0
    ensures forall i :: 0 <= i < |cs| ==> cs[i].f.width <= m
    ensures m == 0 || exists i :: 0 <= i < |cs| && cs[i].f.width == m
  {
    if cs == [] then 0 else Max(cs[0].f.width, MaxWidth(cs[1..]))
  }

  /** The lowest connection line of the children, or 0. */
  function MaxConnectY(cs: seq<Node>): (m: int)
    ensures m >= 0
    ensures forall i :: 0 <= i < |cs| ==> cs[i].f.connectY <= m
    ensures m == 0 || exists i :: 0 <= i < |cs| && cs[i].f.connectY == m
  {
    if cs == [] then 0 else Max(cs[0].f.connectY, MaxConnectY(cs[1..]))
  }

  /** The height a row needs when every child is pushed down so that its
      connection line lies at `connectY`, or 0. */
  function PushedHeight(cs: seq<Node>, connectY: int): (m: int)
    ensures m >= 0
    ensures forall i :: 0 <= i < |cs| ==> cs[i].f.height + (connectY - cs[i].f.connectY) <= m
    ensures m == 0 || exists i :: 0 <= i < |cs| && cs[i].f.height + (connectY - cs[i].f.connectY) == m
  {
    if cs == [] then 0
    else Max(cs[0].f.height + (connectY - cs[0].f.connectY), PushedHeight(cs[1..], connectY))
  }

  /** The height of a column of children, each followed by a gap of `gap`. */
  function StackHeight(cs: seq<Node>, gap: int): int
  {
    if cs == [] then 0 else cs[0].f.height + gap + StackHeight(cs[1..], gap)
  }
}
