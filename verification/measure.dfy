/**
 The measure pass: bottom-up, it gives every node of a freshly built tree its
 width, height and connectY. Positions stay 0 until the layout pass.
 */
module MeasurePass {
  import opened Style
  import opened Tree

  /** Caption extents of a Decoration: nothing is measured for an empty caption. */
  function CaptionSize(text: string, textWidth: nat, textHeight: nat): (size: (nat, nat))
    ensures text == "" ==> size == (0, 0)
    ensures text != "" ==> size == (textWidth, textHeight)
  {
    if text == "" then (0, 0) else (textWidth, textHeight)
  }

  function Measure(e: Element, st: DiagramStyle): (r: Node)
    requires ValidCenters(e)
    ensures Erase(r) == e
    ensures r.f.x == 0 && r.f.y == 0
    decreases e, 1
  {
    match e
    case Box(text, tw, th, style) =>
      var pad := style.textStyle.padding;
      var height := th + pad.top + pad.bottom;
      var padded := tw + pad.left + pad.right;
      var boxWidth := if style.shape.RoundedSides? then Max(padded, height) else padded;
      var width := boxWidth + LefthandTrackLength(st) + RighthandTrackLength(st);
      Node(Frame(0, 0, width, height, height / 2), BoxNode(text, tw, th, style, boxWidth))

    case Series(es) =>
      var ms := MeasureAll(es, st);
      var connectY := MaxConnectY(ms);
      EraseChildren(ms, es);
      Node(Frame(0, 0, SumWidths(ms), PushedHeight(ms, connectY), connectY), SeriesNode(ms))

    case Parallel(es, k) =>
      var ms := MeasureAll(es, st);
      EraseChildren(ms, es);
      if |ms| == 0 then
        Node(Frame(0, 0, 0, 0, 0), ParallelNode(ms, k))
      else
        var width := MaxWidth(ms) + st.horizontalSpacing * 3;
        var height := StackHeight(ms, st.verticalSpacing) - st.verticalSpacing;
        var connectY := StackHeight(ms[..k], st.verticalSpacing) + ms[k].f.connectY;
        Node(Frame(0, 0, width, height, connectY), ParallelNode(ms, k))

    case Loop(fw, bw) =>
      var mf := Measure(fw, st);
      var mb := Measure(bw, st);
      var width := Max(Max(0, mf.f.width), mb.f.width) + st.horizontalSpacing * 2;
      var height := mf.f.height + st.verticalSpacing + mb.f.height;
      Node(Frame(0, 0, width, height, mf.f.connectY), LoopNode(mf, mb))

    case Skip =>
      var height := if st.arrowHeads then st.arrowSize else st.trackLineWidth;
      Node(Frame(0, 0, 0, height, height / 2), SkipNode)

    case Decoration(c, text, tw, th, style) =>
      var caption := CaptionSize(text, tw, th);
      var tp := style.textStyle.padding;
      var m := style.margin;
      var p := style.padding;
      var mc := Measure(c, st);
      var width := Max(mc.f.width, caption.0 + tp.left + tp.right) + m.left + m.right + p.left + p.right;
      var height := Max(mc.f.height, caption.1 + tp.top + tp.bottom) + m.top + m.bottom + p.top + p.bottom;
      Node(Frame(0, 0, width, height, mc.f.connectY + m.top + p.top), DecorationNode(mc, text, tw, th, style))
  }

  /** Measures the children of a Series or Parallel, in order. */
  function MeasureAll(es: seq<Element>, st: DiagramStyle): (ms: seq<Node>)
    requires forall i :: 0 <= i < |es| ==> ValidCenters(es[i])
    ensures |ms| == |es|
    ensures forall i :: 0 <= i < |es| ==> ms[i] == Measure(es[i], st) && Erase(ms[i]) == es[i]
    decreases es, 0
  {
    seq(|es|, i requires 0 <= i < |es| => Measure(es[i], st))
  }
}
