/**
 The layout pass as the source performs it, traps included. A Series that has
 no elements but is given positive width reaches for a missing first or last
 element; wherever that Series sits in the tree, the whole layout stops there.
 The rest of the model lays out with the corrected Series step. The lemmas
 here show that both layouts agree wherever the source does not trap.
 */
module LayoutAsWritten {
  import opened Style
  import opened Tree
  import opened LayoutPass

  /** Lays out node `n` at (`x`, `y`) in `width`, as `LayoutPass.Place`
      does, but trapping where the source traps. */
  function PlaceAsWritten(n: Node, x: int, y: int, width: int, st: DiagramStyle, dir: Direction): (r: Result<Node>)
    ensures r.Failure? ==> r.error == UnwrapOfEmptySeries
    ensures r.Ok? ==> r.value.f == n.f.(x := x, y := y, width := width)
    decreases n, 2, 0
  {
    var f := n.f.(x := x, y := y, width := width);
    match n.kind
    case BoxNode(_, _, _, _, _) => Ok(Node(f, n.kind))
    case SeriesNode(es) => PlaceSeriesAsWritten(f, es, st, dir)
    case ParallelNode(es, k) => PlaceParallelAsWritten(f, es, k, st, dir)
    case LoopNode(fw, bw) => PlaceLoopAsWritten(f, fw, bw, st)
    case SkipNode => Ok(Node(f, n.kind))
    case DecorationNode(c, text, tw, th, style) => PlaceDecorationAsWritten(f, c, text, tw, th, style, st, dir)
  }

  /** Series: each child laid out in turn, then the slack spread as written. */
  function PlaceSeriesAsWritten(f: Frame, es: seq<Node>, st: DiagramStyle, dir: Direction): (r: Result<Node>)
    ensures r.Ok? ==> r.value.f == f
    ensures es == [] ==> (r.Failure? <==> f.width > 0)
    ensures r.Failure? ==> r.error == UnwrapOfEmptySeries
    decreases es, 1, 0
  {
    match RowAsWritten(es, 0, f.connectY, st, dir)
    case Failure(trap) => Failure(trap)
    case Ok(row) => SeriesOfRow(f, row, st, dir)
  }

  /** The slack of a laid-out row spread as written. Where it does not trap it
      gives what the model's slack spread gives. */
  function SeriesOfRow(f: Frame, row: seq<Node>, st: DiagramStyle, dir: Direction): (r: Result<Node>)
    ensures r.Failure? <==> row == [] && f.width > 0
    ensures r.Failure? ==> r.error == UnwrapOfEmptySeries
    ensures r.Ok? ==> r.value == Node(f, SeriesNode(SpreadSlack(row, f.width - SumWidths(row), AlignmentFor(st, dir))))
  {
    match SpreadSlackAsWritten(row, f.width - SumWidths(row), AlignmentFor(st, dir))
    case Failure(trap) => Failure(trap)
    case Ok(spread) => Ok(Node(f, SeriesNode(spread)))
  }

  /** The children `cs[i..]` of a Series, left to right, stopping at the first trap. */
  function RowAsWritten(cs: seq<Node>, i: int, connectY: int, st: DiagramStyle, dir: Direction): (r: Result<seq<Node>>)
    requires 0 <= i <= |cs|
    ensures r.Ok? ==> |r.value| == |cs| - i
    ensures r.Failure? ==> r.error == UnwrapOfEmptySeries
    decreases cs, 0, |cs| - i
  {
    if i == |cs| then Ok([])
    else
      match PlaceAsWritten(cs[i], SumWidths(cs[..i]), connectY - cs[i].f.connectY, cs[i].f.width, st, dir)
      case Failure(trap) => Failure(trap)
      case Ok(c) =>
        match RowAsWritten(cs, i + 1, connectY, st, dir)
        case Failure(trap) => Failure(trap)
        case Ok(rest) => Ok([c] + rest)
  }

  /** Parallel: each child laid out in turn, top to bottom. */
  function PlaceParallelAsWritten(f: Frame, es: seq<Node>, k: int, st: DiagramStyle, dir: Direction): (r: Result<Node>)
    ensures r.Ok? ==> r.value.f == f
    ensures r.Failure? ==> r.error == UnwrapOfEmptySeries
    decreases es, 1, 0
  {
    var hs := st.horizontalSpacing;
    match ColumnAsWritten(es, 0, (hs * 3) / 2, f.width - hs * 3, st, dir)
    case Failure(trap) => Failure(trap)
    case Ok(column) => Ok(Node(f, ParallelNode(column, k)))
  }

  /** The children `cs[i..]` of a Parallel, top to bottom, stopping at the first trap. */
  function ColumnAsWritten(cs: seq<Node>, i: int, x: int, width: int, st: DiagramStyle, dir: Direction): (r: Result<seq<Node>>)
    requires 0 <= i <= |cs|
    ensures r.Ok? ==> |r.value| == |cs| - i
    ensures r.Failure? ==> r.error == UnwrapOfEmptySeries
    decreases cs, 0, |cs| - i
  {
    if i == |cs| then Ok([])
    else
      match PlaceAsWritten(cs[i], x, StackHeight(cs[..i], st.verticalSpacing), width, st, dir)
      case Failure(trap) => Failure(trap)
      case Ok(c) =>
        match ColumnAsWritten(cs, i + 1, x, width, st, dir)
        case Failure(trap) => Failure(trap)
        case Ok(rest) => Ok([c] + rest)
  }

  /** Loop: the forward row, then the backward row below it. */
  function PlaceLoopAsWritten(f: Frame, fw: Node, bw: Node, st: DiagramStyle): (r: Result<Node>)
    ensures r.Ok? ==> r.value.f == f
    ensures r.Failure? ==> r.error == UnwrapOfEmptySeries
    decreases LoopNode(fw, bw), 1, 0
  {
    var hs := st.horizontalSpacing;
    match PlaceAsWritten(fw, hs, 0, f.width - hs * 2, st, Forward)
    case Failure(trap) => Failure(trap)
    case Ok(forward) =>
      match PlaceAsWritten(bw, forward.f.x, forward.f.height + st.verticalSpacing, forward.f.width, st, Backward)
      case Failure(trap) => Failure(trap)
      case Ok(backward) => Ok(Node(f, LoopNode(forward, backward)))
  }

  /** Decoration: the child, inset by margin and padding. */
  function PlaceDecorationAsWritten(f: Frame, c: Node, text: string, tw: nat, th: nat, style: DecorationStyle,
                                    st: DiagramStyle, dir: Direction): (r: Result<Node>)
    ensures r.Failure? ==> r.error == UnwrapOfEmptySeries
    ensures r.Ok? ==> r.value.f == f
    decreases DecorationNode(c, text, tw, th, style), 1, 0
  {
    match PlaceAsWritten(c, style.margin.left + style.padding.left, style.margin.top + style.padding.top,
                         c.f.width, st, dir)
    case Failure(trap) => Failure(trap)
    case Ok(child) => Ok(Node(f, DecorationNode(child, text, tw, th, style)))
  }

  /** A Parallel whose first alternative is an empty Series traps as soon
      as the alternatives are given any width. */
  lemma {:induction false} EmptyFirstAlternativeTraps(n: Node, x: int, y: int, width: int, st: DiagramStyle, dir: Direction)
    requires n.kind.ParallelNode? && |n.kind.elements| > 0 && n.kind.elements[0].kind == SeriesNode([])
    requires width - st.horizontalSpacing * 3 > 0
    ensures PlaceAsWritten(n, x, y, width, st, dir) == Failure(UnwrapOfEmptySeries)
  {
    var hs := st.horizontalSpacing;
    var es := n.kind.elements;
    var empty := es[0];
    var inner := empty.f.(x := (hs * 3) / 2, y := 0, width := width - hs * 3);
    assert PlaceSeriesAsWritten(inner, [], st, dir).Failure?;
    assert PlaceAsWritten(empty, (hs * 3) / 2, 0, width - hs * 3, st, dir).Failure? by {
      assert es[..0] == [];
    }
    assert ColumnAsWritten(es, 0, (hs * 3) / 2, width - hs * 3, st, dir).Failure? by {
      assert es[..0] == [];
    }
  }

  /** A trap in the first element of a Series traps the Series. */
  lemma {:induction false} FirstElementTrapsSeries(n: Node, x: int, y: int, width: int, st: DiagramStyle, dir: Direction)
    requires n.kind.SeriesNode? && |n.kind.elements| > 0
    requires var c := n.kind.elements[0];
             PlaceAsWritten(c, 0, n.f.connectY - c.f.connectY, c.f.width, st, dir).Failure?
    ensures PlaceAsWritten(n, x, y, width, st, dir).Failure?
  {
    var es := n.kind.elements;
    assert es[..0] == [];
    assert RowAsWritten(es, 0, n.f.connectY, st, dir).Failure?;
  }

  /** A Series whose first element is a Parallel with an empty first
      alternative traps once that Parallel's alternatives get any width. */
  lemma {:induction false} EmptyFirstAlternativeFirstTraps(n: Node, x: int, y: int, width: int, st: DiagramStyle, dir: Direction)
    requires n.kind.SeriesNode? && |n.kind.elements| > 0
    requires var p := n.kind.elements[0];
             && p.kind.ParallelNode? && |p.kind.elements| > 0 && p.kind.elements[0].kind == SeriesNode([])
             && p.f.width - st.horizontalSpacing * 3 > 0
    ensures PlaceAsWritten(n, x, y, width, st, dir).Failure?
  {
    var p := n.kind.elements[0];
    EmptyFirstAlternativeTraps(p, 0, n.f.connectY - p.f.connectY, p.f.width, st, dir);
    FirstElementTrapsSeries(n, x, y, width, st, dir);
  }

  /** Wherever the source's layout does not trap, it computes exactly the
      model's layout. */
  lemma {:induction false} PlaceAsWrittenAgrees(n: Node, x: int, y: int, width: int, st: DiagramStyle, dir: Direction)
    ensures PlaceAsWritten(n, x, y, width, st, dir).Ok? ==>
              PlaceAsWritten(n, x, y, width, st, dir).value == Place(n, x, y, width, st, dir)
    decreases n, 2, 0
  {
    var f := n.f.(x := x, y := y, width := width);
    match n.kind
    case BoxNode(_, _, _, _, _) =>
    case SeriesNode(es) =>
      SeriesAsWrittenAgrees(f, es, st, dir);
    case ParallelNode(es, k) =>
      ParallelAsWrittenAgrees(f, es, k, st, dir);
    case LoopNode(fw, bw) =>
      LoopAsWrittenAgrees(f, fw, bw, st);
    case SkipNode =>
    case DecorationNode(c, text, tw, th, style) =>
      DecorationAsWrittenAgrees(f, c, text, tw, th, style, st, dir);
  }

  /** For a Series the two layouts agree where the source does not trap; an
      empty Series traps exactly when given positive width, and the model
      then leaves it empty. */
  lemma {:induction false} SeriesAsWrittenAgrees(f: Frame, es: seq<Node>, st: DiagramStyle, dir: Direction)
    ensures PlaceSeriesAsWritten(f, es, st, dir).Ok? ==>
              PlaceSeriesAsWritten(f, es, st, dir).value == PlaceSeries(f, es, st, dir)
    decreases es, 1, 0
  {
    var written := RowAsWritten(es, 0, f.connectY, st, dir);
    if written.Ok? {
      var row := PlaceRow(es, 0, f.connectY, st, dir);
      assert written.value == row by {
        RowAsWrittenAgrees(es, 0, f.connectY, st, dir);
        assert row[0..] == row;
      }
      assert PlaceSeriesAsWritten(f, es, st, dir) == SeriesOfRow(f, row, st, dir);
      SeriesOfModelRow(f, es, st, dir);
    }
  }

  /** Proof helper: the slack of the model's row, spread as written, is the
      model's Series wherever it does not trap. */
  lemma SeriesOfModelRow(f: Frame, es: seq<Node>, st: DiagramStyle, dir: Direction)
    ensures var row := PlaceRow(es, 0, f.connectY, st, dir);
            SeriesOfRow(f, row, st, dir).Ok? ==> SeriesOfRow(f, row, st, dir).value == PlaceSeries(f, es, st, dir)
  {
    SeriesStep(f, es, st, dir);
  }

  /** One step of the model's Series layout, kept apart from the larger proofs. */
  lemma SeriesStep(f: Frame, es: seq<Node>, st: DiagramStyle, dir: Direction)
    ensures var row := PlaceRow(es, 0, f.connectY, st, dir);
            PlaceSeries(f, es, st, dir) == Node(f, SeriesNode(SpreadSlack(row, f.width - SumWidths(row), AlignmentFor(st, dir))))
  {
  }

  lemma {:induction false} RowAsWrittenAgrees(cs: seq<Node>, i: int, connectY: int, st: DiagramStyle, dir: Direction)
    requires 0 <= i <= |cs|
    ensures RowAsWritten(cs, i, connectY, st, dir).Ok? ==>
              RowAsWritten(cs, i, connectY, st, dir).value == PlaceRow(cs, 0, connectY, st, dir)[i..]
    decreases cs, 0, |cs| - i
  {
    if i < |cs| {
      var row := PlaceRow(cs, 0, connectY, st, dir);
      PlaceAsWrittenAgrees(cs[i], SumWidths(cs[..i]), connectY - cs[i].f.connectY, cs[i].f.width, st, dir);
      RowAsWrittenAgrees(cs, i + 1, connectY, st, dir);
      assert row[i..] == [row[i]] + row[i + 1..];
    }
  }

  lemma {:induction false} ParallelAsWrittenAgrees(f: Frame, es: seq<Node>, k: int, st: DiagramStyle, dir: Direction)
    ensures PlaceParallelAsWritten(f, es, k, st, dir).Ok? ==>
              PlaceParallelAsWritten(f, es, k, st, dir).value == PlaceParallel(f, es, k, st, dir)
    decreases es, 1, 0
  {
    var hs := st.horizontalSpacing;
    ColumnAsWrittenAgrees(es, 0, (hs * 3) / 2, f.width - hs * 3, st, dir);
    var column := PlaceColumn(es, 0, (hs * 3) / 2, f.width - hs * 3, st, dir);
    assert column[0..] == column;
  }

  lemma {:induction false} ColumnAsWrittenAgrees(cs: seq<Node>, i: int, x: int, width: int, st: DiagramStyle, dir: Direction)
    requires 0 <= i <= |cs|
    ensures ColumnAsWritten(cs, i, x, width, st, dir).Ok? ==>
              ColumnAsWritten(cs, i, x, width, st, dir).value == PlaceColumn(cs, 0, x, width, st, dir)[i..]
    decreases cs, 0, |cs| - i
  {
    if i < |cs| {
      var column := PlaceColumn(cs, 0, x, width, st, dir);
      PlaceAsWrittenAgrees(cs[i], x, StackHeight(cs[..i], st.verticalSpacing), width, st, dir);
      ColumnAsWrittenAgrees(cs, i + 1, x, width, st, dir);
      assert column[i..] == [column[i]] + column[i + 1..];
    }
  }

  lemma {:induction false} LoopAsWrittenAgrees(f: Frame, fw: Node, bw: Node, st: DiagramStyle)
    ensures PlaceLoopAsWritten(f, fw, bw, st).Ok? ==>
              PlaceLoopAsWritten(f, fw, bw, st).value == PlaceLoop(f, fw, bw, st)
    decreases LoopNode(fw, bw), 1, 0
  {
    var hs := st.horizontalSpacing;
    PlaceAsWrittenAgrees(fw, hs, 0, f.width - hs * 2, st, Forward);
    var forward := Place(fw, hs, 0, f.width - hs * 2, st, Forward);
    PlaceAsWrittenAgrees(bw, forward.f.x, forward.f.height + st.verticalSpacing, forward.f.width, st, Backward);
  }

  lemma {:induction false} DecorationAsWrittenAgrees(f: Frame, c: Node, text: string, tw: nat, th: nat,
                                                     style: DecorationStyle, st: DiagramStyle, dir: Direction)
    ensures PlaceDecorationAsWritten(f, c, text, tw, th, style, st, dir).Ok? ==>
              PlaceDecorationAsWritten(f, c, text, tw, th, style, st, dir).value
                == PlaceDecoration(f, c, text, tw, th, style, st, dir)
    decreases DecorationNode(c, text, tw, th, style), 1, 0
  {
    PlaceAsWrittenAgrees(c, style.margin.left + style.padding.left, style.margin.top + style.padding.top,
                         c.f.width, st, dir);
  }

  /** Whether laying out `n` in `width` reaches an empty Series that is given
      positive width: the one place the source's layout traps. A Series hands
      each child its own width, a Parallel its alternatives the width less
      three spacings, a Loop both tracks the width less two spacings, and a
      Decoration its child the child's own width. */
  predicate Traps(n: Node, width: int, st: DiagramStyle)
    decreases n
  {
    match n.kind
    case BoxNode(_, _, _, _, _) => false
    case SeriesNode(es) =>
      (es == [] && width > 0) || exists i :: 0 <= i < |es| && Traps(es[i], es[i].f.width, st)
    case ParallelNode(es, _) =>
      exists i :: 0 <= i < |es| && Traps(es[i], width - st.horizontalSpacing * 3, st)
    case LoopNode(fw, bw) =>
      Traps(fw, width - st.horizontalSpacing * 2, st) || Traps(bw, width - st.horizontalSpacing * 2, st)
    case SkipNode => false
    case DecorationNode(c, _, _, _, _) => Traps(c, c.f.width, st)
  }

  /** Every Series in the tree has at least one element. */
  predicate NoEmptySeries(e: Element)
    decreases e
  {
    match e
    case Box(_, _, _, _) => true
    case Series(es) => |es| > 0 && forall i :: 0 <= i < |es| ==> NoEmptySeries(es[i])
    case Parallel(es, _) => forall i :: 0 <= i < |es| ==> NoEmptySeries(es[i])
    case Loop(fw, bw) => NoEmptySeries(fw) && NoEmptySeries(bw)
    case Skip => true
    case Decoration(c, _, _, _, _) => NoEmptySeries(c)
  }

  /** The source's layout traps exactly where `Traps` says, whatever the
      position and direction. */
  lemma {:induction false} PlaceTrapsExactly(n: Node, x: int, y: int, width: int, st: DiagramStyle, dir: Direction)
    ensures PlaceAsWritten(n, x, y, width, st, dir).Failure? <==> Traps(n, width, st)
    decreases n, 2, 0
  {
    var f := n.f.(x := x, y := y, width := width);
    match n.kind
    case BoxNode(_, _, _, _, _) =>
    case SeriesNode(es) =>
      SeriesTrapsExactly(f, es, st, dir);
    case ParallelNode(es, k) =>
      ParallelTrapsExactly(f, es, k, st, dir);
    case LoopNode(fw, bw) =>
      LoopTrapsExactly(f, fw, bw, st);
    case SkipNode =>
    case DecorationNode(c, text, tw, th, style) =>
      DecorationTrapsExactly(f, c, text, tw, th, style, st, dir);
  }

  lemma {:induction false} SeriesTrapsExactly(f: Frame, es: seq<Node>, st: DiagramStyle, dir: Direction)
    ensures PlaceSeriesAsWritten(f, es, st, dir).Failure? <==>
              (es == [] && f.width > 0) || exists i :: 0 <= i < |es| && Traps(es[i], es[i].f.width, st)
    decreases es, 1, 0
  {
    var written := RowAsWritten(es, 0, f.connectY, st, dir);
    RowTrapsExactly(es, 0, f.connectY, st, dir);
    if written.Ok? {
      assert PlaceSeriesAsWritten(f, es, st, dir) == SeriesOfRow(f, written.value, st, dir);
      assert written.value == [] <==> es == [] by {
        assert |written.value| == |es|;
      }
    }
  }

  lemma {:induction false} RowTrapsExactly(cs: seq<Node>, i: int, connectY: int, st: DiagramStyle, dir: Direction)
    requires 0 <= i <= |cs|
    ensures RowAsWritten(cs, i, connectY, st, dir).Failure? <==>
              exists j :: i <= j < |cs| && Traps(cs[j], cs[j].f.width, st)
    decreases cs, 0, |cs| - i
  {
    if i < |cs| {
      PlaceTrapsExactly(cs[i], SumWidths(cs[..i]), connectY - cs[i].f.connectY, cs[i].f.width, st, dir);
      RowTrapsExactly(cs, i + 1, connectY, st, dir);
      if !Traps(cs[i], cs[i].f.width, st) {
        assert (exists j :: i <= j < |cs| && Traps(cs[j], cs[j].f.width, st)) ==>
               (exists j :: i + 1 <= j < |cs| && Traps(cs[j], cs[j].f.width, st));
      }
    }
  }

  lemma {:induction false} ParallelTrapsExactly(f: Frame, es: seq<Node>, k: int, st: DiagramStyle, dir: Direction)
    ensures PlaceParallelAsWritten(f, es, k, st, dir).Failure? <==>
              exists i :: 0 <= i < |es| && Traps(es[i], f.width - st.horizontalSpacing * 3, st)
    decreases es, 1, 0
  {
    var hs := st.horizontalSpacing;
    ColumnTrapsExactly(es, 0, (hs * 3) / 2, f.width - hs * 3, st, dir);
  }

  lemma {:induction false} ColumnTrapsExactly(cs: seq<Node>, i: int, x: int, width: int, st: DiagramStyle, dir: Direction)
    requires 0 <= i <= |cs|
    ensures ColumnAsWritten(cs, i, x, width, st, dir).Failure? <==>
              exists j :: i <= j < |cs| && Traps(cs[j], width, st)
    decreases cs, 0, |cs| - i
  {
    if i < |cs| {
      PlaceTrapsExactly(cs[i], x, StackHeight(cs[..i], st.verticalSpacing), width, st, dir);
      ColumnTrapsExactly(cs, i + 1, x, width, st, dir);
      if !Traps(cs[i], width, st) {
        assert (exists j :: i <= j < |cs| && Traps(cs[j], width, st)) ==>
               (exists j :: i + 1 <= j < |cs| && Traps(cs[j], width, st));
      }
    }
  }

  lemma {:induction false} LoopTrapsExactly(f: Frame, fw: Node, bw: Node, st: DiagramStyle)
    ensures PlaceLoopAsWritten(f, fw, bw, st).Failure? <==>
              Traps(fw, f.width - st.horizontalSpacing * 2, st) || Traps(bw, f.width - st.horizontalSpacing * 2, st)
    decreases LoopNode(fw, bw), 1, 0
  {
    var hs := st.horizontalSpacing;
    var forward := PlaceAsWritten(fw, hs, 0, f.width - hs * 2, st, Forward);
    PlaceTrapsExactly(fw, hs, 0, f.width - hs * 2, st, Forward);
    if forward.Ok? {
      var ff := forward.value.f;
      assert ff.width == f.width - hs * 2;
      PlaceTrapsExactly(bw, ff.x, ff.height + st.verticalSpacing, ff.width, st, Backward);
    }
  }

  lemma {:induction false} DecorationTrapsExactly(f: Frame, c: Node, text: string, tw: nat, th: nat,
                                                  style: DecorationStyle, st: DiagramStyle, dir: Direction)
    ensures PlaceDecorationAsWritten(f, c, text, tw, th, style, st, dir).Failure? <==> Traps(c, c.f.width, st)
    decreases DecorationNode(c, text, tw, th, style), 1, 0
  {
    PlaceTrapsExactly(c, style.margin.left + style.padding.left, style.margin.top + style.padding.top,
                      c.f.width, st, dir);
  }

  /** A tree in which every Series has an element never reaches the trap,
      whatever width it is given. */
  lemma {:induction false} NoEmptySeriesNeverTraps(n: Node, width: int, st: DiagramStyle)
    requires NoEmptySeries(Erase(n))
    ensures !Traps(n, width, st)
    decreases n
  {
    match n.kind
    case BoxNode(_, _, _, _, _) =>
    case SeriesNode(es) =>
      assert |es| > 0;
      forall i | 0 <= i < |es|
        ensures !Traps(es[i], es[i].f.width, st)
      {
        assert Erase(n).elements[i] == Erase(es[i]);
        NoEmptySeriesNeverTraps(es[i], es[i].f.width, st);
      }
    case ParallelNode(es, _) =>
      forall i | 0 <= i < |es|
        ensures !Traps(es[i], width - st.horizontalSpacing * 3, st)
      {
        assert Erase(n).elements[i] == Erase(es[i]);
        NoEmptySeriesNeverTraps(es[i], width - st.horizontalSpacing * 3, st);
      }
    case LoopNode(fw, bw) =>
      NoEmptySeriesNeverTraps(fw, width - st.horizontalSpacing * 2, st);
      NoEmptySeriesNeverTraps(bw, width - st.horizontalSpacing * 2, st);
    case SkipNode =>
    case DecorationNode(c, _, _, _, _) =>
      NoEmptySeriesNeverTraps(c, c.f.width, st);
  }
}
