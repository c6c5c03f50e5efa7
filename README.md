# GridLayout component logic: a Dafny model

This project models the layout logic that the `GridLayout` React component
(`packages/core/src/grid.tsx`) runs itself, between calls into its layout engine.
It covers:

- the geometry update of `onInnerResize`. Top and left handles keep the opposite edge fixed,
  unless the anchored coordinate would become negative. Then the size on that axis reverts and
  the coordinate becomes 0, so that edge moves: an item at `x = 2` with `w = 2`, resized on the
  `w` handle to `w = 5`, ends at `x = 0` with `w = 2`. With `preventCollision && !allowOverlap`, any collision vetoes the change.
- the capability policy of `genGridItem`: draggable, resizable, bounded and the resize handles.
- the layout list edits: the height report (`handleItemHeightChange`), removal of the
  dropping placeholder, and appending the dropping item in `onInnerDragOver`.
- the drag-enter counter of the enter, leave and drop handlers, and the placeholder it controls.
  The container attaches these four handlers only when `isDroppable` is set, which is `false` by
  default (grid.tsx:71, 755-758). The model describes the grid with `isDroppable` set.
- the `containerHeight` arithmetic.

The data model follows `packages/core/src/type.ts`. Layout items are a datatype; each property
that may be `undefined` is an `Option`. The compaction axis and the eight resize handles are
datatypes. The items' `static` field is called `isStatic`, since `static` is a Dafny keyword.

Modules, one per concern:

- `Types`: the data model.
- `Layouts`: lookup by id, the id filter, and the id-directed `map`.
- `Resize`: the resize geometry. It has a declarative specification (`Proposal`, `Vetoed`,
  `ResizeOutcome`) and the step-by-step update `ResizeUpdate`, which is proved against it.
- `Capability`: the capability policy and the props of a rendered item.
- `Container`: the container height.
- `Grid`: the component's state. The class `GridLayout` holds the fields the handlers change:
  `innerLayout`, `dragEnterCount.current`, and whether `droppingDOM.current` is set. Each
  handler is a method whose new state is a pure transition function of the old one.
- `DropTrace`: lemmas about sequences of drag events.

The layout engine imported from `./utils` is not part of this model: `compact`, `moveElement`,
`getAllCollisions` and `bottom`. These are function-valued fields of `Grid.Engine`. No property
of them is assumed, so every statement about them holds for any engine. There is one exception.
The resize handler calls `compact` with three arguments (grid.tsx:577), and the model passes
`false` as the fourth, so it takes the omitted `allowOverlap` to behave as `false`. `getLayoutItem` and
`withLayoutItem` are not part of this model's sources either. They are given the behaviour of
their documented interface. `getLayoutItem` finds the first item with the id, or none.
`withLayoutItem` writes the updated clone over the entries with that id, and leaves the layout
as it is for an unknown id. `calcXY` is left out too: the drag-over handler is given the
grid cell it returns.

`onDropDragOver` may return an `i` of its own. The appended item then carries that id, but
placeholder removal, leave and drop filter on `droppingItem.i`. Such an item survives that
filter, so it is in the layout these handlers hand to `compact`. What `compact` then does with
it is up to the engine. A drop also looks up `droppingItem.i` (grid.tsx:248), so `onDrop` is
never told the renamed item: it is told whatever the layout held under that id before the
append, usually nothing (`Grid.RenamedDroppingItemSurvivesRemoval`).

Integers are unbounded. Grid coordinates, sizes and pixel heights are modelled as integers.

## Model

| member | source | states |
|---|---|---|
| Layouts.IndexOfId | packages/core/src/grid.tsx:248 | the index of the first item with the id; none exactly when no item has it |
| Layouts.GetLayoutItem | packages/core/src/grid.tsx:248 | `find` by id: the item found is the first one with the id, so every earlier item has another id; nothing is found exactly when no item has the id |
| Layouts.GetLayoutItemAppendOther | packages/core/src/grid.tsx:248 | appending an item with another id does not change what the lookup finds |
| Layouts.GetLayoutItemUnique | packages/core/src/grid.tsx:623 | with unique ids, looking up an item's id finds that very item |
| Layouts.WithoutId | packages/core/src/grid.tsx:227 | `filter(l => l.i !== id)`: an item is kept exactly when it was there and has another id; no item is added; a layout without the id is returned as it is |
| Layouts.WithoutIdAppend | packages/core/src/grid.tsx:227 | the filter distributes over concatenation, so the kept items stay in their original order |
| Layouts.WithoutIdIdempotent | packages/core/src/grid.tsx:225-231 | removing the dropping id a second time removes nothing more |
| Layouts.MapById | packages/core/src/grid.tsx:158-163 | the id-directed `map`: same length; matching positions get `f(item)`, every other position is unchanged |
| Layouts.UpdateHeight | packages/core/src/grid.tsx:158-163 | only `h` of the items whose id matches is replaced; length, order, other fields and other items are unchanged |
| Layouts.UpdateHeightIdempotent | packages/core/src/grid.tsx:156-165 | reporting the same height twice gives the layout that reporting it once gives |
| Layouts.UpdateHeightCommutes | packages/core/src/grid.tsx:156-165 | height reports for two different ids commute |
| Layouts.ReplaceById | packages/core/src/grid.tsx:498-543 | `withLayoutItem`'s write-back: every entry with the clone's id becomes the clone, all others stay |
| Layouts.ReplaceAtIndex | packages/core/src/grid.tsx:498-543 | with unique ids, the write-back is a point update at the item's index |
| Layouts.ReplaceFoundIsIdentity | packages/core/src/grid.tsx:498-543 | with unique ids, writing back an unmodified clone leaves the layout unchanged |
| Resize.Proposal | packages/core/src/grid.tsx:505-516 | west handles (`sw`, `nw`, `w`) keep the right edge `x + w` fixed and north handles (`ne`, `n`, `nw`) the bottom edge; if the anchored coordinate would be negative, the size on that axis reverts and the coordinate becomes 0; the other axis keeps its position and takes the requested size; coordinates are never negative when the item's are not |
| Resize.ResizeOutcome | packages/core/src/grid.tsx:501-542 | only `w` and `h` are written into the clone; a collision with any other item under `preventCollision && !allowOverlap` restores `x, y, w, h` and cancels the move; otherwise the proposal is taken and a move is asked for exactly on `sw, w, nw, n, ne`; `se`, `e`, `s` never change `x, y` or ask for a move |
| Resize.ResizeUpdate | packages/core/src/grid.tsx:495-541 | the source's step-by-step reassignment of `x`, `y`, `w`, `h`, `shouldMoveItem` computes exactly `ResizeOutcome` |
| Capability.Resolve | packages/core/src/grid.tsx:626-635 | an explicit per-item `isDraggable`/`isResizable` wins, otherwise `!static && containerFlag`; `bounded` holds exactly when draggable, the container is bounded and the item's `isBounded` is not `false`; the item's `resizeHandles`, even an empty list, replaces the container's |
| Capability.GenGridItem | packages/core/src/grid.tsx:622-673 | no grid item for a key the layout lacks; otherwise the props of the first item with that key: its geometry, bounds and `static` copied and its capabilities resolved |
| Capability.DefaultPolicyLocksOnlyStatic | packages/core/src/grid.tsx:67-78 | with the container defaults and no overrides, exactly the non-static items are draggable and resizable, none is bounded, and the handles are `['se']` |
| Container.ContainerHeight | packages/core/src/grid.tsx:147-154 | there is no height exactly when `autoSize` is false |
| Container.ContainerHeightStacksRows | packages/core/src/grid.tsx:150-153 | the closed formula equals the rows stacked one at a time, each adding its height and one margin, on twice the vertical padding (`containerPadding[1]` when a padding pair is given, else `margin[1]`) less one margin |
| Container.ContainerHeightRowStep | packages/core/src/grid.tsx:153 | one more row adds exactly `rowHeight + margin[1]` |
| Container.ContainerHeightMonotone | packages/core/src/grid.tsx:149-153 | with a non-negative row pitch, a layout reaching further down never gets a smaller container |
| Container.DefaultHeights | packages/core/src/grid.tsx:63-66 | with the default row height and margin, one row is 170 px and an empty grid 10 px |
| Grid.MergeWithoutOverrides | packages/core/src/grid.tsx:293-296 | with no overrides returned, the dropping item is used as it is |
| Grid.DragEnter | packages/core/src/grid.tsx:277-283 | enter increments the counter and changes nothing else |
| Grid.DragLeave | packages/core/src/grid.tsx:266-275 | leave decrements the counter; the placeholder is removed exactly when the counter reaches 0, otherwise nothing else changes |
| Grid.Drop | packages/core/src/grid.tsx:245-250 | drop resets the counter to 0 and removes the placeholder: the layout is the compaction of the layout without the dropping id |
| Grid.DragOver | packages/core/src/grid.tsx:285-335 | an `onDropDragOver` that is not a function leaves everything as it is; a `false` result removes an existing placeholder and otherwise changes nothing; an accepted drag-over appends exactly one item, with `static` false and `isDraggable` true at the cell given, only when no placeholder exists and both `w` and `h` are defined; otherwise nothing changes |
| Grid.ResizeItem | packages/core/src/grid.tsx:493-589 | an unknown id changes nothing; the counter and placeholder are never touched |
| Grid.RenamedDroppingItemSurvivesRemoval | packages/core/src/grid.tsx:225-335 | an item appended under an id that `onDropDragOver` overrode has that id and is kept by the filter on `droppingItem.i`; the drop's lookup of `droppingItem.i` finds what it found before the append |
| Grid.DropUndoesDragOver | packages/core/src/grid.tsx:245-335 | when the dropped item keeps the dropping id, a drop right after the drag-over that appended it ends exactly where a drop without that drag-over ends: the filter removes the appended item again |
| Grid.AsWrittenDropElementNotRendered | packages/core/src/grid.tsx:321 | with the dropping element keyed `drop-dom-${dropItem.i}`, `genGridItem` finds no layout entry for it, although the drag-over has just appended the item |
| Grid.DropElementRendered | packages/core/src/grid.tsx:620-624 | keyed by the dropping item's own id, the dropping element is rendered, from the appended entry when no other item has that id |
| Grid.OriginResizeMovesToProposal | packages/core/src/grid.tsx:501-577 | with unique ids, an unvetoed resize on `sw`, `w`, `nw`, `n` or `ne` writes the clone resized to the proposal back at the item's index, asks `moveElement` to take that clone to the proposed `x`, `y`, and compacts unless overlap is allowed |
| Grid.VetoedResizeKeepsLayout | packages/core/src/grid.tsx:519-545 | with unique ids, a vetoed resize hands compaction the layout it started from |
| Grid.SouthEastResizeIsPointUpdate | packages/core/src/grid.tsx:495-559 | with unique ids, an unvetoed `se`/`e`/`s` resize only writes the new size into the item at its index before compaction, and `moveElement` is not called |
| Grid.GridLayout.constructor | packages/core/src/grid.tsx:102-130 | the component keeps its configuration and engine, and starts on the synchronized layout, with the counter at 0 and no placeholder |
| Grid.GridLayout.ContainerHeight | packages/core/src/grid.tsx:147-154 | no height exactly when `autoSize` is false; otherwise, with `nbRow = bottom(innerLayout)`, the `nbRow` rows stacked one at a time on twice the vertical padding less one margin |
| Grid.GridLayout.RemoveDroppingPlaceholder | packages/core/src/grid.tsx:225-238 | the new state is the compaction of the layout without the dropping id, and no placeholder |
| Grid.GridLayout.OnDragEnter | packages/core/src/grid.tsx:277-283 | the new state is `DragEnter` of the old one |
| Grid.GridLayout.OnDragLeave | packages/core/src/grid.tsx:266-275 | the new state is `DragLeave` of the old one |
| Grid.GridLayout.OnDrop | packages/core/src/grid.tsx:245-264 | reports the layout before removal and its dropping item; the new state is `Drop` of the old one |
| Grid.GridLayout.OnDragOver | packages/core/src/grid.tsx:285-335 | the new state is `DragOver` of the old one |
| Grid.GridLayout.OnItemHeightChange | packages/core/src/grid.tsx:156-167 | the new layout is the compaction of the height-updated layout |
| Grid.GridLayout.OnResize | packages/core/src/grid.tsx:493-589 | the new state is `ResizeItem` of the old one |
| DropTrace.RunAppend | packages/core/src/grid.tsx:245-361 | handling two batches of events in turn is handling their concatenation |
| DropTrace.CounterTracksEnterLeave | packages/core/src/grid.tsx:249-280 | until a drop, the counter is its start value plus the enters minus the leaves |
| DropTrace.DropEndsGesture | packages/core/src/grid.tsx:245-250 | after any events, a drop leaves the counter at 0 and no placeholder |
| DropTrace.EnterThenLeaveFromIdle | packages/core/src/grid.tsx:266-283 | from an idle grid, enter, any drag-overs, then leave ends with the counter at 0 and no placeholder |
| DropTrace.AcceptedOversAppendAtMostOne | packages/core/src/grid.tsx:305-335 | accepted drag-overs append at most one item, keep the old layout as a prefix, change nothing once a placeholder exists, and leave a placeholder whenever they added an item |

## Findings

| source | as written | input that shows it | evidently intended | confidence | as-written member | corrected member |
|---|---|---|---|---|---|---|
| packages/core/src/grid.tsx:321 | the dropping element gets the key `drop-dom-${dropItem.i}`, and `genGridItem(droppingDOM.current, true)` (grid.tsx:762) looks that key up in the layout | the default dropping item `__dropping-elem__` dragged over an empty grid: the layout gets `__dropping-elem__`, and the lookup asks for `drop-dom-__dropping-elem__` | the key is the dropping item's id, so the appended entry is rendered with the `droppingPosition` that `isDrop` passes | not executed; medium (the prefix may have been meant to keep the React key apart from the children's) | Grid.AsWrittenDropElementNotRendered | Grid.DropElementRendered |

## Left out

- The React machinery: hooks, `memo`, `flushSync`, JSX rendering and the placeholder element. The deep-equality checks before each `setInnerLayout` (`isEqual`) only skip a write of an equal value, so the model always writes.
- The layout engine (`compact`, `moveElement`, `getAllCollisions`, `bottom`, `synchronizeLayoutWithChildren`, `deepEqual`, `calcXY`, the `compactType` helper): these are `./utils`, `./calculate` and `./equals`, which are not part of this model. The first four are uninterpreted fields of `Grid.Engine`. The constructor takes the already synchronized layout. The config takes the already resolved compaction axis.
- Pointer geometry in `onInnerDragOver` (`getBoundingClientRect`, `clientX`, division by `transformScale`) and the `droppingPosition` state: DOM access and floating-point pixels. The drag-over handler receives the grid cell directly.
- Grid.DragOver: of the spread `{ ...droppingItem, ...onDragOverResult }` only `i`, `w` and `h` are modelled. Every other property of either object (`minW`, `isResizable`, ...) is copied into the appended item by the source, but the model's appended item leaves them absent.
- Grid.Merge: a property that `onDropDragOver` explicitly sets to `undefined` is treated as absent. In JavaScript it would override the dropping item's value.
- Grid.GridLayout.OnDrop and the other handlers: the user callbacks (`onDrop`, `onResize`, ...) and `console` output are not modelled. `OnDrop` returns what `onDrop` would be told.
- The `rect` placeholder rectangle, `old.current` and `resizing.current`: these feed rendering and user callbacks.
- `lastRect.current`: it is set by `onInnerDragStart` (grid.tsx:379), `onInnerDrag` (grid.tsx:421) and `onInnerResize` (grid.tsx:580). It is cleared by `onInnerDragStop` (grid.tsx:459) and `onInnerResizeStop` (grid.tsx:602). It gates `onInnerDragStop` (grid.tsx:440) and the effect at grid.tsx:717-721.
- Grid.GridLayout.OnResize: does not model the write of the placeholder rectangle to `rect` and `lastRect.current` (grid.tsx:578-581). While a resize is under way, that write holds off the layout reset at grid.tsx:717-721, which the model has no operation for.
- `onInnerDragStart` (which records the rectangle and calls no engine function), `onInnerDrag`, `onInnerDragStop` (which move the item through `moveElement` and `compact`), `onInnerResizeStart` and `onInnerResizeStop`. They are not modelled.
- The effect at grid.tsx:717-721: while `lastRect.current` is unset, it replaces `innerLayout` with the newly synchronized layout. This can remove the dropping item while `droppingDOM.current` stays set. The model has no operation for it.
- Container.ContainerHeight: the result is a number of pixels. The source appends the string `'px'`.
- `packages/core/src/auto-height-item.tsx`, the ResizeObserver, debounce timing and `Math.ceil` of float heights. The height report enters the model as an integer.
