# Railroad diagram layout, modelled in Dafny

A model of the layout engine of the Swift library Railroad-Diagrams-Swift.
The engine turns a tree of diagram elements into geometry: Box, Series,
Parallel, Loop, Skip and Decoration. It then sizes the canvas the diagram is
drawn on. The engine makes two passes:

- **measure** runs bottom-up. It gives every node its width, height and
  `connectY`, the local y of the line where the track enters and leaves.
- **layout** runs top-down. Each container puts its children at their x and
  y, and a Parallel or Loop also gives its children a width. A Series that
  was given more width than its children need hands out the slack. It does
  so according to the alignment of the current direction: Forward rows use
  the forward alignment, the return rows of a Loop the backward one.

The model is functional. `Tree.Element` is the tree the builder functions
build. `MeasurePass.Measure` turns it into a `Tree.Node` that carries a
`Frame`. `LayoutPass.Place` positions the node and its children, the way a
parent sets `x`, `y` and `width` before calling `layout`. Since nodes are
values, a node cannot be shared between two places of a tree, which the
mutable classes of the library can only ask of their callers.

Geometry is in whole points over `int`. Every default style value is
integral, and text extents come in as natural numbers already rounded up,
standing in for the platform's text measurement. Swift's `floor(x / 2)` on
such values is Dafny's `/` by a positive divisor, including for negative
room, and `ceil(c / 2)` is `(c + 1) / 2`.

Modules, following the source's structure:

- `Style`: the style records, their defaults, the alignment per direction
  and the track-stub lengths.
- `Tree`: elements, frames, nodes and the sums and maxima the passes use.
- `MeasurePass` / `MeasureProperties`: the measure pass and what it promises
  per kind.
- `LayoutPass` / `LayoutProperties`: the layout pass, slack distribution, and
  what it promises per kind.
- `LayoutAsWritten`: the layout pass as the source performs it, traps
  included, and where it agrees with the model's.
- `Containment`: measure followed by layout puts every child inside its
  parent, on the parent's track line where the track runs straight through.
- `BoxPlacement`: where a Box draws its outline within its allotted width.
- `Render`: the geometry of rendering to an image.
- `Builders`: the builder functions (`terminal`, `optional`, `choice`, …) and
  the one-call `diagram`.

## Model

| member | source | states |
|---|---|---|
| `Style.LefthandTrackLength` | Railroad/Railroad.swift:266-272 | For non-negative spacings, the stub before a box is never shorter than the stub after it, because it also holds the arrow head. |
| `MeasurePass.Measure` | Railroad/Railroad.swift:380-398 | Measuring keeps the tree it was given (erasing the geometry gives back the element) and leaves every position at 0 for the layout pass. |
| `MeasureProperties.MeasuredConnectYInRange` | Railroad/Railroad.swift:426-870 | For non-negative insets and spacings and valid center indices, every measured node has a non-negative width and its connection line within its height. |
| `MeasureProperties.StackHeightSplit` | Railroad/Railroad.swift:624-640 | In a column, everything stacked above a child plus the child's height fits within the column's height. |
| `MeasureProperties.MeasureBox` | Railroad/Railroad.swift:426-440 | The outline holds the padded text, and is raised to the height for rounded sides. The element adds a stub on each side. The track meets the box at floor(height/2). |
| `MeasureProperties.MeasureSkip` | Railroad/Railroad.swift:818-821 | A skip is as high as the arrow head (or the line without arrows), has width 0 and its line in the middle. |
| `MeasureProperties.MeasureSeries` | Railroad/Railroad.swift:540-555 | Width is the sum of the children's. The line is the lowest child line, and 0 without children. The height is the least that holds every child pushed down onto that line. |
| `MeasureProperties.MeasureParallel` | Railroad/Railroad.swift:624-640 | Width is the widest child plus three spacings. Height is the stacked heights with spacing between rows. The line is the center child's, below all rows above it. Without children everything is 0. |
| `MeasureProperties.MeasureLoop` | Railroad/Railroad.swift:752-763 | Width is the wider row plus two spacings. Height is forward, spacing, backward. The line is the forward row's. |
| `MeasureProperties.MeasureDecoration` | Railroad/Railroad.swift:851-870 | Each axis holds the larger of the child and the padded caption, plus margin and padding. The line is the child's, moved down by the top margin and padding. |
| `LayoutPass.Place` | Railroad/Railroad.swift:380-402 | Layout sets a node's position and width only. The height and line the measure pass gave it stay. |
| `LayoutPass.SpreadSlackAsWritten` | Railroad/Railroad.swift:569-590 | Spreading slack as written fails exactly for positive slack over an empty row, and otherwise keeps the row's length. |
| `LayoutPass.SpreadSlack` | Railroad/Railroad.swift:569-590 | An empty row, or a row without slack, stays as it is. Otherwise every child only moves sideways or changes width. |
| `LayoutPass.ShiftAndWiden` | Railroad/Railroad.swift:579-586 | Child i moves right by the shares handed out before it and grows by one share. |
| `LayoutProperties.PlaceRowIsRow` | Railroad/Railroad.swift:557-565 | A Series' placed children form a contiguous row from 0 with their measured widths. |
| `LayoutProperties.RowBounds` | Railroad/Railroad.swift:557-565 | A child of a contiguous row lies between the row's start and the sum of its widths. |
| `LayoutProperties.SpreadSlackFillsRow` | Railroad/Railroad.swift:569-590 | After spreading positive slack, the row is still contiguous and exactly slack wider, for every alignment. |
| `LayoutProperties.SpreadSlackLeft` | Railroad/Railroad.swift:572-573 | Left alignment grows only the last child and leaves the others as they were. |
| `LayoutProperties.SpreadSlackRight` | Railroad/Railroad.swift:574-578 | Right alignment grows the first child and moves every other child right by the slack. |
| `LayoutProperties.SpreadSlackEvenly` | Railroad/Railroad.swift:579-588 | Center and Fill give every child floor(slack/n) and move child i right by i shares. The last child also takes the remainder, which is less than one point per child. |
| `LayoutProperties.SpreadSlackWidens` | Railroad/Railroad.swift:569-590 | Spreading non-negative slack never makes a child narrower. |
| `LayoutProperties.SeriesAtOwnWidth` | Railroad/Railroad.swift:557-590 | A Series given exactly its children's total width spreads nothing: the children form a row from 0, at their own sizes, on the Series' line. |
| `LayoutProperties.LayoutSeries` | Railroad/Railroad.swift:557-590 | After layout, a non-empty Series given at least its measured width has a contiguous row of children whose widths sum exactly to its width. |
| `LayoutProperties.LayoutSeriesOnLine` | Railroad/Railroad.swift:558-563 | Each child of a Series is pushed down so that its line is the Series' line, and keeps its height. |
| `LayoutProperties.LayoutParallel` | Railroad/Railroad.swift:642-651 | Parallel children are at x = floor(1.5 hs), as wide as the Parallel less three spacings, and stacked with the vertical spacing. |
| `LayoutProperties.ParallelChildrenNotNarrowed` | Railroad/Railroad.swift:642-651 | A measured Parallel given at least its measured width never gives a child less than the child's measured width. |
| `LayoutProperties.PlaceLoopIs` | Railroad/Railroad.swift:766-776 | A Loop's forward row is at (hs, 0) laid out Forward. Its backward row is below it at (hs, forward height + vs) laid out Backward. Both are the Loop's width less two spacings. |
| `LayoutProperties.LoopRows` | Railroad/Railroad.swift:766-776 | The forward row sits at the top on the Loop's line, the backward row right below it, both as wide as the Loop less a stub on each side. |
| `LayoutProperties.LoopForwardRowAlignment` | Railroad/Railroad.swift:258-264 | Whatever the Loop's own direction, a Series on its forward track spreads its slack with the forward alignment. |
| `LayoutProperties.LoopBackwardRowAlignment` | Railroad/Railroad.swift:258-264 | Whatever the Loop's own direction, a Series on its return track spreads its slack with the backward alignment. |
| `LayoutProperties.LoopIgnoresDirection` | Railroad/Railroad.swift:766-776 | A Loop comes out the same whichever direction it is laid out in. |
| `LayoutProperties.DecorationFramesChild` | Railroad/Railroad.swift:872-876 | A Decoration keeps its caption and style. Its child keeps its measured size, sits at the margin plus padding from the Decoration's corner, and is laid out inside as it would be on its own in the Decoration's direction. When the Decoration's line is the child's line moved down by that inset, as measuring makes it, the child lies on the Decoration's line. |
| `LayoutAsWritten.PlaceSeriesAsWritten` | Railroad/Railroad.swift:557-590 | The source's Series layout of an empty Series traps exactly when it was given a positive width, and every trap it reports is the unwrap of a missing element. |
| `LayoutAsWritten.SeriesOfRow` | Railroad/Railroad.swift:567-590 | Spreading a laid-out row's slack as written traps exactly for an empty row given positive width. Otherwise it gives what the model's slack spread gives. |
| `LayoutAsWritten.PlaceAsWrittenAgrees` | Railroad/Railroad.swift:557-876 | Wherever the source's layout of a whole tree does not trap, it computes exactly the model's layout. |
| `LayoutAsWritten.SeriesAsWrittenAgrees` | Railroad/Railroad.swift:557-590 | Wherever the source's Series layout does not trap, it computes exactly the model's Series layout. |
| `LayoutAsWritten.EmptyFirstAlternativeTraps` | Railroad/Railroad.swift:642-651 | A Parallel whose first alternative is an empty Series traps as soon as its alternatives get any width. |
| `LayoutAsWritten.FirstElementTrapsSeries` | Railroad/Railroad.swift:557-565 | A trap while laying out the first child of a Series stops the Series' layout. |
| `LayoutAsWritten.EmptyFirstAlternativeFirstTraps` | Railroad/Railroad.swift:557-565 | A Series whose first element is a Parallel with an empty first alternative traps once the alternatives get any width. |
| `LayoutAsWritten.PlaceTrapsExactly` | Railroad/Railroad.swift:557-876 | The source's layout of a whole tree traps if and only if it reaches an empty Series that is given positive width. A Series gives each child its own width, a Parallel its alternatives the width less three spacings, a Loop both tracks the width less two spacings, and a Decoration its child the child's own width. |
| `LayoutAsWritten.SeriesTrapsExactly` | Railroad/Railroad.swift:557-590 | A Series traps if and only if it is empty and given positive width, or one of its children traps at that child's own width. |
| `LayoutAsWritten.ParallelTrapsExactly` | Railroad/Railroad.swift:642-651 | A Parallel traps if and only if one of its alternatives traps at the Parallel's width less three spacings. |
| `LayoutAsWritten.LoopTrapsExactly` | Railroad/Railroad.swift:766-776 | A Loop traps if and only if its forward or its backward track traps at the Loop's width less two spacings. |
| `LayoutAsWritten.DecorationTrapsExactly` | Railroad/Railroad.swift:872-876 | A Decoration traps if and only if its child traps at the child's own width. |
| `LayoutAsWritten.NoEmptySeriesNeverTraps` | Railroad/Railroad.swift:569-590 | A tree in which every Series has an element never traps in the source's layout, whatever width it is given. |
| `Containment.MeasureFits` | Railroad/Railroad.swift:426-870 | Every measured node leaves room for its children where layout will put them, with its line where the track enters each child. |
| `Containment.PlaceKeepsInside` | Railroad/Railroad.swift:557-876 | Laying out a fitting node in at least its width puts every descendant inside its parent and, along the track, on its parent's line. |
| `Containment.LayoutKeepsChildrenInside` | Railroad/Railroad.swift:396-876 | Measure followed by layout in at least the measured width keeps every child inside its parent and on the track. |
| `BoxPlacement.PlaceOutline` | Railroad/Railroad.swift:447-457 | Only Fill changes the outline's width. |
| `BoxPlacement.OutlineBetweenStubs` | Railroad/Railroad.swift:447-457 | The outline lies between the two stubs. Left leaves the room on the right and Right on the left. Center splits it, the odd point going right. Fill takes all of it. |
| `BoxPlacement.OutlineAtMeasuredWidth` | Railroad/Railroad.swift:447-457 | At exactly the measured width every alignment draws the outline right after the lefthand stub. |
| `BoxPlacement.LaidOutBoxOutline` | Railroad/Railroad.swift:426-457 | A laid-out Box draws its outline between its stubs and at least as wide as its padded text. |
| `Render.RenderGeometry` | Railroad/Railroad.swift:918-941 | A render fails with an index error exactly when some center index is out of range. A successful render has a positive canvas. |
| `Render.CanvasFramesRoot` | Railroad/Railroad.swift:918-941 | Left to right without gaps: margin, cap, stub, root at its measured width, stub, cap, margin. Vertically the root sits between the margins. The caps are centered on the track line, rounded up. |
| `Render.RenderKeepsTreeInside` | Railroad/Railroad.swift:920-924 | The track line crosses the root, and the whole rendered tree is well placed and joined. |
| `Render.CanvasAround` | Railroad/Railroad.swift:926-941 | The canvas around a laid-out root holds that root and is positive, or the render fails with the canvas error. |
| `Render.RenderAsWritten` | Railroad/Railroad.swift:918-941 | The source's render fails with the index error exactly when some center index is out of range. A render that succeeds has a positive canvas, and every empty Parallel in it has center index 0 or -1, because drawing traps on any other (:666-667, :681-682). |
| `Render.RenderAsWrittenAgrees` | Railroad/Railroad.swift:918-941 | The source's render traps on a missing Series element exactly when the measured tree has valid centers and its layout reaches an empty Series given positive width. Otherwise, where the model's render succeeds, the source's traps while drawing exactly when some empty Parallel has a center index other than 0 or -1. In every remaining case both give the same canvas or the same error. |
| `Render.RenderAsWrittenWithoutEmptySeries` | Railroad/Railroad.swift:918-941 | For a diagram in which every Series has an element, the source's render and the model's are equal when every empty Parallel has center index 0 or -1. Otherwise the source's render traps while drawing wherever the model's succeeds. |
| `Render.RenderFailsOnlyOnEmptyCanvas` | Railroad/Railroad.swift:926-929 | With non-negative sizes, the model's render of a well-formed element fails exactly when the canvas would have no width or no height, and then with the canvas error. |
| `Render.EmptyDiagramHasNoHeight` | Railroad/Railroad.swift:926-929 | An empty Series under the default style has zero height and trips the assertion. |
| `Builders.Terminal` | Railroad/Railroad.swift:1030-1039 | A terminal is a box with rounded sides. |
| `Builders.NonTerminal` | Railroad/Railroad.swift:1041-1050 | A non-terminal is a box with straight sides. |
| `Builders.Comment` | Railroad/Railroad.swift:1052-1069 | A comment is text with no outline. |
| `Builders.SequenceLaysOutInOrder` | Railroad/Railroad.swift:1072-1074 | What `sequence` builds, laid out at its measured width, puts its elements side by side in the given order from its left edge, each at its measured size and on the sequence's line. |
| `Builders.Optional` | Railroad/Railroad.swift:1082-1093 | Two rows: the element at the center index and a skip at the other. The center is the first row exactly when the skip goes below. |
| `Builders.Choice` | Railroad/Railroad.swift:1096-1098 | A choice has exactly the given alternatives with the first on the center line. It is well formed, and drawable, exactly when its alternatives are. |
| `Builders.ChoiceCentered` | Railroad/Railroad.swift:1106-1110 | A centered choice has exactly the given alternatives with the given index as its center. It is well formed exactly when the index picks an alternative (or there are none) and the alternatives are well formed. It can be drawn exactly when its alternatives can and, if there are none, the index is 0 or -1. |
| `Builders.OneOrMoreLaysOutElementForward` | Railroad/Railroad.swift:1113-1115 | In what `oneOrMore` builds, the element runs on the top track on the loop's line and the repeat on the track right below it, both as wide as the loop less its stubs, so neither is narrowed. |
| `Builders.ZeroOrMore` | Railroad/Railroad.swift:1118-1120 | An optional one-or-more. |
| `Builders.CaptureFramesElement` | Railroad/Railroad.swift:1123-1125 | In what `capture` builds, the element keeps its measured width, sits inset 24 by 18 on the group's line, and leaves 24 points of frame to its right and 30 below it. |
| `Builders.DiagramDefaults` | Railroad/Railroad.swift:1128-1131 | The default diagram style with a margin of 10 on every side, which is sane. |
| `Builders.DiagramOf` | Railroad/Railroad.swift:1128-1135 | The model's one-call render of well-formed elements never fails. It is at least 88 by 20, and exactly 88 by 20 when there are no elements. |
| `Builders.Each` | Railroad/Railroad.swift:1141-1143 | Same as `sequence`. |
| `Builders.Or` | Railroad/Railroad.swift:1146-1148 | Same as `choice`. |
| `Builders.Maybe` | Railroad/Railroad.swift:1151-1153 | Same as `optional` with the skip below. |
| `Builders.Many` | Railroad/Railroad.swift:1156-1158 | Same as `oneOrMore`. |
| `Builders.Any` | Railroad/Railroad.swift:1161-1163 | Same as `zeroOrMore` with the skip below. |
| `Builders.TerminalIsPill` | Railroad/Railroad.swift:426-434 | A terminal's outline is never narrower than it is high, and is exactly the padded text or the height. |
| `Builders.NonTerminalHugsText` | Railroad/Railroad.swift:426-434 | A non-terminal's outline is exactly its padded text. |
| `Builders.BuildersWellFormed` | Railroad/Railroad.swift:1037-1125 | The builders keep center indices valid and insets non-negative. |
| `Builders.BuildersDrawable` | Railroad/Railroad.swift:1076-1125 | `optional`, `zeroOrMore` and `capture` never make an empty choice that cannot be drawn. |
| `Builders.EmptyCenteredChoiceTraps` | Railroad/Railroad.swift:653-682 | For `diagram(choice(centerIndex: 1))`, the source's render traps drawing the track going up to a first alternative that does not exist, while the model's renders. |
| `Builders.OptionalKeepsElementOnLine` | Railroad/Railroad.swift:1076-1093 | After layout the optional element is on the choice's line. The skip lies wholly below it, or wholly above it when asked. |
| `Builders.EmptySequenceTraps` | Railroad/Railroad.swift:569-578 | The source's render of `diagram(choice(sequence(), terminal("a")))` traps on the missing element of the empty row. |
| `Builders.EmptySequenceBesideTerminal` | Railroad/Railroad.swift:569-578 | For `diagram(choice(sequence(), terminal("a")))` the source's render traps, while the model's renders. |

## Left out

- Drawing is not modelled: every `drawIntoContext`, the shape paths, arrow heads, end caps, colours and fonts. It is CoreGraphics calls and floating-point trigonometry, and none of it moves a node. Its one trap, `first!`/`last!` on an empty Parallel whose center index is not 0 or -1, is kept in `Render.RenderAsWritten`.
- Text measurement is not modelled, since it is a platform call. Each Box and Decoration caption carries its text extents, already rounded up to whole points.
- The bitmap context, the pixel `scale` and image creation in `renderImage` are not modelled. Only its geometry is.
- The debug helpers `debugRect` and `randomColor` are not modelled. They are debug-only and random.
- `BoxFactory` is not modelled, because it only copies a style into new boxes.
- Re-measuring a tree is not modelled. The source accumulates into `width` and `height` without resetting them, so only a single measure of a fresh tree is modelled.
- Non-integral style values are not modelled. Geometry is `int`, exact for the integral defaults but not for fractional spacings.
- An out-of-range `indexOfCenterElement` traps in the source while measuring. `Measure` takes a valid index as a precondition, and `Render.RenderGeometry` reports the error.
- `renderImage`'s `assert(width > 0)` and `assert(height > 0)` only stop debug builds. The model always reports them as an error.
- LayoutPass.Place: uses the corrected Series layout throughout (see Findings). It therefore does not model the trap for an empty Series given positive width, which is kept in `LayoutAsWritten.PlaceAsWritten`.
- Render.RenderFailsOnlyOnEmptyCanvas: is about the model's render, which uses the corrected Series layout and does not draw. The source's render also traps exactly where the layout reaches an empty Series given positive width, and while drawing an empty Parallel whose center index is not 0 or -1, as `Render.RenderAsWrittenAgrees` states.
- Builders.DiagramOf: is about the model's render. The source's one-call render traps when an empty sequence gets slack, as `Builders.EmptySequenceBesideTerminal` shows, and when drawing an empty choice whose center index is not 0 or -1, as `Builders.EmptyCenteredChoiceTraps` shows.
- Render.RenderGeometry: computes geometry only and so does not report the draw trap on an empty Parallel whose center index is not 0 or -1. `Render.RenderAsWritten` reports it.
- Render.RenderAsWrittenWithoutEmptySeries: no longer promises equal renders for every diagram without an empty Series, since drawing an empty Parallel with a center index other than 0 or -1 traps in the source. It promises equality when every empty Parallel has index 0 or -1, and the draw trap otherwise.
- `oneOrMore` and `zeroOrMore` default their repeat to a skip, and `optional` its skip to below. Dafny has no default arguments, so the builders take them explicitly.

## Findings

| source | as written | input that shows it | evidently intended | confidence | as-written member | corrected member |
|---|---|---|---|---|---|---|
| Railroad/Railroad.swift:569-590 | A Series given positive slack force-unwraps `elements.last!` (Left, Center, Fill) or `elements.first!` (Right) even when it has no elements. | `choice(sequence(), terminal("a"))`: the Parallel gives the empty Series the terminal's width. | An empty Series ignores its slack and lays out as an empty row. | not executed | `LayoutAsWritten.PlaceAsWritten` and `Render.RenderAsWritten`; `LayoutAsWritten.PlaceTrapsExactly` says where they trap (counterexample `Builders.EmptySequenceBesideTerminal`) | `LayoutPass.SpreadSlack`, with `LayoutAsWritten.PlaceAsWrittenAgrees` and `Render.RenderAsWrittenAgrees` |
