/** The state the `GridLayout` component keeps between events (packages/core/src/grid.tsx):
    the inner layout, the drag-enter counter and whether a dropping placeholder exists;
    and how the height report, resize and external-drop handlers change it. */
module Grid {
  import opened Types
  import opened Layouts
  import opened Resize
  import Container
  import opened Capability

  /** The layout engine imported from `./utils`. Its source is not part of this model, so
      each function stays uninterpreted: no property of theirs is assumed anywhere. */
  datatype Engine = Engine(
    compact: (Layout, CompactType, int, bool) -> Layout,
    getAllCollisions: (Layout, LayoutItem) -> Layout,
    moveElement: (Layout, LayoutItem, int, int, bool, bool, CompactType, int, bool) -> Layout,
    bottom: Layout -> int)

  /** The item dropped from outside the grid (`droppingItem`), possibly without a size. */
  datatype DroppingItem = DroppingItem(i: string, w: Option<int>, h: Option<int>)

  /** The default dropping item: id `__dropping-elem__`, one cell. */
  const DefaultDroppingItem: DroppingItem := DroppingItem("__dropping-elem__", Some(1), Some(1))

  /** What `onDropDragOver` returned: `false`, or properties that override the dropping item
      (`Accept` with no overrides stands for `undefined` and for any other value).
      `NoHandler` stands for an `onDropDragOver` prop that is not a function. */
  datatype DragOverOverride = DragOverOverride(i: Option<string>, w: Option<int>, h: Option<int>)
  datatype DragOverResult = Reject | Accept(overrides: DragOverOverride) | NoHandler

  /** `{ ...droppingItem, ...onDragOverResult }`. */
  function Merge(d: DroppingItem, o: DragOverOverride): (r: DroppingItem)
    ensures r.i == (if o.i.Some? then o.i.value else d.i)
    ensures r.w == (if o.w.Some? then o.w else d.w)
    ensures r.h == (if o.h.Some? then o.h else d.h)
  {
    DroppingItem(if o.i.Some? then o.i.value else d.i,
                 if o.w.Some? then o.w else d.w,
                 if o.h.Some? then o.h else d.h)
  }

  /** With no overrides (the default `noop` callback returns `undefined`) the dropping item
      is used as it is. */
  lemma MergeWithoutOverrides(d: DroppingItem)
    ensures Merge(d, DragOverOverride(None, None, None)) == d
  {
  }

  /** Applying the same overrides twice changes nothing more, and overrides that set every
      property make the dropping item irrelevant. */
  lemma MergeOverrides(d: DroppingItem, e: DroppingItem, o: DragOverOverride)
    ensures Merge(Merge(d, o), o) == Merge(d, o)
    ensures o.i.Some? && o.w.Some? && o.h.Some? ==> Merge(d, o) == Merge(e, o)
  {
  }

  /** The layout entry appended for a dropping item placed at cell (`x`, `y`). */
  function DroppedItem(d: DroppingItem, x: int, y: int): LayoutItem
    requires d.w.Some? && d.h.Some?
  {
    LayoutItem(d.w.value, d.h.value, x, y, d.i, None, None, None, None, None,
               Some(false), Some(true), None, None, None, None)
  }

  /** The props the handlers read. `compactType` is the already resolved compaction axis. */
  datatype Config = Config(cols: int, compactType: CompactType, allowOverlap: bool,
                           preventCollision: bool, droppingItem: DroppingItem)

  /** The component's mutable state as a value. */
  datatype GridState = GridState(layout: Layout, dragEnterCount: int, droppingElement: bool)

  /** `removeDroppingPlaceholder`: filter out the dropping id, compact, forget the placeholder. */
  function RemovePlaceholder(cfg: Config, eng: Engine, s: GridState): GridState {
    GridState(eng.compact(WithoutId(s.layout, cfg.droppingItem.i), cfg.compactType, cfg.cols, cfg.allowOverlap),
              s.dragEnterCount, false)
  }

  /** `onInnerDragEnter`. */
  function DragEnter(s: GridState): (r: GridState)
    ensures r.dragEnterCount == s.dragEnterCount + 1
    ensures r.layout == s.layout && r.droppingElement == s.droppingElement
  {
    s.(dragEnterCount := s.dragEnterCount + 1)
  }

  /** `onInnerDragLeave`: the placeholder goes exactly when the counter reaches 0. */
  function DragLeave(cfg: Config, eng: Engine, s: GridState): (r: GridState)
    ensures r.dragEnterCount == s.dragEnterCount - 1
    ensures r.dragEnterCount == 0 ==> r == RemovePlaceholder(cfg, eng, s).(dragEnterCount := 0)
    ensures r.dragEnterCount != 0 ==> r.layout == s.layout && r.droppingElement == s.droppingElement
  {
    var left := s.(dragEnterCount := s.dragEnterCount - 1);
    if left.dragEnterCount == 0 then RemovePlaceholder(cfg, eng, left) else left
  }

  /** `onInnerDrop`: the counter is reset and the placeholder removed. */
  function Drop(cfg: Config, eng: Engine, s: GridState): (r: GridState)
    ensures r.dragEnterCount == 0 && !r.droppingElement
    ensures r.layout == eng.compact(WithoutId(s.layout, cfg.droppingItem.i), cfg.compactType, cfg.cols, cfg.allowOverlap)
  {
    RemovePlaceholder(cfg, eng, s.(dragEnterCount := 0))
  }

  /** `onInnerDragOver` with the pointer over cell (`cellX`, `cellY`), as `calcXY` maps it. */
  function DragOver(cfg: Config, eng: Engine, s: GridState, res: DragOverResult, cellX: int, cellY: int): (r: GridState)
    // without a callback the handler does nothing
    ensures res.NoHandler? ==> r == s
    // a rejection removes an existing placeholder and otherwise does nothing
    ensures res.Reject? ==> r == (if s.droppingElement then RemovePlaceholder(cfg, eng, s) else s)
    // exactly one item is appended, and only with no placeholder yet and both sizes defined
    ensures res.Accept? ==>
      var d := Merge(cfg.droppingItem, res.overrides);
      if !s.droppingElement && d.w.Some? && d.h.Some? then
        |r.layout| == |s.layout| + 1 && r.layout[..|s.layout|] == s.layout &&
        r.layout[|s.layout|].i == d.i && r.layout[|s.layout|].x == cellX && r.layout[|s.layout|].y == cellY &&
        r.layout[|s.layout|].w == d.w.value && r.layout[|s.layout|].h == d.h.value &&
        r.layout[|s.layout|].isStatic == Some(false) && r.layout[|s.layout|].isDraggable == Some(true) &&
        r.droppingElement && r.dragEnterCount == s.dragEnterCount
      else r == s
  {
    match res
    case NoHandler => s
    case Reject => if s.droppingElement then RemovePlaceholder(cfg, eng, s) else s
    case Accept(o) =>
      var d := Merge(cfg.droppingItem, o);
      if !s.droppingElement && d.w.Some? && d.h.Some? then
        s.(layout := s.layout + [DroppedItem(d, cellX, cellY)], droppingElement := true)
      else s
  }

  /** `handleItemHeightChange`: the new height on the matching items, then compaction. */
  function HeightChange(cfg: Config, eng: Engine, s: GridState, id: string, newHeight: int): GridState {
    s.(layout := eng.compact(UpdateHeight(s.layout, id, newHeight), cfg.compactType, cfg.cols, cfg.allowOverlap))
  }

  /** The layout `onInnerResize` builds once the item is found: the clone substituted,
      `moveElement` on an origin-moving resize, and compaction unless overlap is allowed.
      The source calls `compact` here with three arguments; the model passes `false` for the
      omitted `allowOverlap`, so it takes the engine's default for that parameter to be `false`. */
  function ResizedLayout(cfg: Config, eng: Engine, layout: Layout, o: ResizeResult): Layout {
    var next := ReplaceById(layout, o.item);
    var final := if o.shouldMoveItem
                 then eng.moveElement(next, o.item, o.x, o.y, true, cfg.preventCollision,
                                      cfg.compactType, cfg.cols, cfg.allowOverlap)
                 else next;
    if cfg.allowOverlap then final else eng.compact(final, cfg.compactType, cfg.cols, false)
  }

  /** `onInnerResize` for item `id`, asked for size `w` x `h` on `handle`. */
  function ResizeItem(cfg: Config, eng: Engine, s: GridState, id: string, w: int, h: int,
                      handle: ResizeHandle): (r: GridState)
    // an unknown id changes nothing
    ensures GetLayoutItem(s.layout, id).None? ==> r == s
    ensures r.dragEnterCount == s.dragEnterCount && r.droppingElement == s.droppingElement
  {
    match GetLayoutItem(s.layout, id)
    case None => s
    case Some(item) =>
      var o := ResizeOutcome(item, w, h, handle, cfg.preventCollision, cfg.allowOverlap,
                             s.layout, eng.getAllCollisions);
      s.(layout := ResizedLayout(cfg, eng, s.layout, o))
  }

  /** An item appended under an id that `onDropDragOver` overrode is not the one that
      placeholder removal (and so leave and drop) filters out: it stays in the layout handed
      to `compact`, and a drop's lookup of the dropping id finds what it found before the
      append, never the appended item. */
  lemma RenamedDroppingItemSurvivesRemoval(cfg: Config, eng: Engine, s: GridState, o: DragOverOverride,
                                           cellX: int, cellY: int)
    requires !s.droppingElement && o.i.Some? && o.i.value != cfg.droppingItem.i
    requires Merge(cfg.droppingItem, o).w.Some? && Merge(cfg.droppingItem, o).h.Some?
    ensures var t := DragOver(cfg, eng, s, Accept(o), cellX, cellY);
      |t.layout| == |s.layout| + 1 && t.layout[|s.layout|].i == o.i.value &&
      t.layout[|s.layout|] in WithoutId(t.layout, cfg.droppingItem.i) &&
      GetLayoutItem(t.layout, cfg.droppingItem.i) == GetLayoutItem(s.layout, cfg.droppingItem.i)
  {
    var t := DragOver(cfg, eng, s, Accept(o), cellX, cellY);
    assert t.layout[|s.layout|] in t.layout;
    assert t.layout == s.layout + [t.layout[|s.layout|]];
    GetLayoutItemAppendOther(s.layout, t.layout[|s.layout|], cfg.droppingItem.i);
  }

  /** Dropping right after the drag-over that added the placeholder ends where dropping
      without it would: the appended item carries the dropping id, so the drop's filter
      removes it again. */
  lemma DropUndoesDragOver(cfg: Config, eng: Engine, s: GridState, o: DragOverOverride,
                           cellX: int, cellY: int)
    requires !s.droppingElement && Merge(cfg.droppingItem, o).i == cfg.droppingItem.i
    requires Merge(cfg.droppingItem, o).w.Some? && Merge(cfg.droppingItem, o).h.Some?
    ensures Drop(cfg, eng, DragOver(cfg, eng, s, Accept(o), cellX, cellY)) == Drop(cfg, eng, s)
  {
    var t := DragOver(cfg, eng, s, Accept(o), cellX, cellY);
    var x := t.layout[|s.layout|];
    assert t.layout == s.layout + [x];
    WithoutIdAppend(s.layout, [x], cfg.droppingItem.i);
    assert WithoutId([x], cfg.droppingItem.i) == [];
    assert WithoutId(s.layout, cfg.droppingItem.i) + [] == WithoutId(s.layout, cfg.droppingItem.i);
    assert WithoutId(t.layout, cfg.droppingItem.i) == WithoutId(s.layout, cfg.droppingItem.i);
    assert Drop(cfg, eng, t).layout == Drop(cfg, eng, s).layout;
  }

  /** The key of the element rendered for the dropping item, as written: `drop-dom-${dropItem.i}`. */
  function DropElementKeyAsWritten(id: string): string {
    "drop-dom-" + id
  }

  /** The key that lets `genGridItem` find the dropping item: its own id. */
  function DropElementKey(id: string): string {
    id
  }

  /** With the key as written, `genGridItem` finds no layout entry for the dropping element,
      although the drag-over has just appended one: the dropping item is never rendered
      (unless some other item happens to carry the prefixed id). */
  lemma AsWrittenDropElementNotRendered(cfg: Config, eng: Engine, s: GridState, o: DragOverOverride,
                                        cellX: int, cellY: int, policy: Policy)
    requires !s.droppingElement
    requires Merge(cfg.droppingItem, o).w.Some? && Merge(cfg.droppingItem, o).h.Some?
    requires forall k :: 0 <= k < |s.layout| ==>
      s.layout[k].i != DropElementKeyAsWritten(Merge(cfg.droppingItem, o).i)
    ensures var t := DragOver(cfg, eng, s, Accept(o), cellX, cellY);
      var id := Merge(cfg.droppingItem, o).i;
      t.layout[|s.layout|].i == id &&
      GenGridItem(t.layout, DropElementKeyAsWritten(id), policy).None?
  {
    var t := DragOver(cfg, eng, s, Accept(o), cellX, cellY);
    var id := Merge(cfg.droppingItem, o).i;
    assert |DropElementKeyAsWritten(id)| == |id| + 9;
    forall k | 0 <= k < |t.layout| ensures t.layout[k].i != DropElementKeyAsWritten(id) {
      if k == |s.layout| {
        assert |t.layout[k].i| == |id|;
      }
    }
  }

  /** With the dropping item's own id as key, `genGridItem` renders the entry the drag-over
      appended (the first one with that id, which is the appended one when no other has it). */
  lemma DropElementRendered(cfg: Config, eng: Engine, s: GridState, o: DragOverOverride,
                            cellX: int, cellY: int, policy: Policy)
    requires !s.droppingElement
    requires Merge(cfg.droppingItem, o).w.Some? && Merge(cfg.droppingItem, o).h.Some?
    ensures var t := DragOver(cfg, eng, s, Accept(o), cellX, cellY);
      GenGridItem(t.layout, DropElementKey(Merge(cfg.droppingItem, o).i), policy).Some?
    ensures var t := DragOver(cfg, eng, s, Accept(o), cellX, cellY);
      var id := Merge(cfg.droppingItem, o).i;
      (forall k :: 0 <= k < |s.layout| ==> s.layout[k].i != id) ==>
      GenGridItem(t.layout, DropElementKey(id), policy) == Some(ItemProps(t.layout[|s.layout|], policy))
  {
    var t := DragOver(cfg, eng, s, Accept(o), cellX, cellY);
    var id := Merge(cfg.droppingItem, o).i;
    assert t.layout[|s.layout|].i == id;
    if forall k :: 0 <= k < |s.layout| ==> s.layout[k].i != id {
      var r := GenGridItem(t.layout, id, policy);
      var k :| 0 <= k < |t.layout| && t.layout[k].i == id && r.value == ItemProps(t.layout[k], policy);
      assert k == |s.layout|;
    }
  }

  /** A resize on a top or left handle that is not vetoed resizes the clone to the proposal,
      writes it back at the item's index and asks `moveElement` to take it to the proposed
      corner; compaction follows unless overlap is allowed. */
  lemma OriginResizeMovesToProposal(cfg: Config, eng: Engine, s: GridState, k: nat, w: int, h: int,
                                    handle: ResizeHandle)
    requires UniqueIds(s.layout) && k < |s.layout| && MovesOrigin(handle)
    requires !Vetoed(s.layout[k], Proposal(s.layout[k], w, h, handle), cfg.preventCollision,
                     cfg.allowOverlap, s.layout, eng.getAllCollisions)
    ensures var p := Proposal(s.layout[k], w, h, handle);
      var it := s.layout[k].(w := p.w, h := p.h);
      var moved := eng.moveElement(s.layout[k := it], it, p.x, p.y, true, cfg.preventCollision,
                                   cfg.compactType, cfg.cols, cfg.allowOverlap);
      ResizeItem(cfg, eng, s, s.layout[k].i, w, h, handle).layout ==
      (if cfg.allowOverlap then moved else eng.compact(moved, cfg.compactType, cfg.cols, false))
  {
    var p := Proposal(s.layout[k], w, h, handle);
    GetLayoutItemUnique(s.layout, k);
    ReplaceAtIndex(s.layout, k, s.layout[k].(w := p.w, h := p.h));
  }

  /** A vetoed resize hands the engine back the layout it started from: with unique ids the
      substituted clone is the item itself and `moveElement` is not called. */
  lemma VetoedResizeKeepsLayout(cfg: Config, eng: Engine, s: GridState, id: string, w: int, h: int,
                                handle: ResizeHandle)
    requires UniqueIds(s.layout) && GetLayoutItem(s.layout, id).Some?
    requires var item := GetLayoutItem(s.layout, id).value;
      Vetoed(item, Proposal(item, w, h, handle), cfg.preventCollision, cfg.allowOverlap,
             s.layout, eng.getAllCollisions)
    ensures ResizeItem(cfg, eng, s, id, w, h, handle).layout ==
      (if cfg.allowOverlap then s.layout else eng.compact(s.layout, cfg.compactType, cfg.cols, false))
  {
    ReplaceFoundIsIdentity(s.layout, id);
  }

  /** A bottom or right handle resize only writes the new size into the item at its index
      (before compaction); its position stays and the engine is not asked to move it. */
  lemma SouthEastResizeIsPointUpdate(cfg: Config, eng: Engine, s: GridState, k: nat, w: int, h: int,
                                     handle: ResizeHandle)
    requires UniqueIds(s.layout) && k < |s.layout| && !MovesOrigin(handle)
    requires !Vetoed(s.layout[k], Proposal(s.layout[k], w, h, handle), cfg.preventCollision,
                     cfg.allowOverlap, s.layout, eng.getAllCollisions)
    ensures var next := s.layout[k := s.layout[k].(w := w, h := h)];
      ResizeItem(cfg, eng, s, s.layout[k].i, w, h, handle).layout ==
      (if cfg.allowOverlap then next else eng.compact(next, cfg.compactType, cfg.cols, false))
  {
    GetLayoutItemUnique(s.layout, k);
    ReplaceAtIndex(s.layout, k, s.layout[k].(w := w, h := h));
  }

  /** The component. Engine and props are fixed; the three fields are what the handlers
      change (`innerLayout`, `dragEnterCount.current`, `droppingDOM.current`). */
  class GridLayout {
    const cfg: Config
    const engine: Engine
    var layout: Layout
    var dragEnterCount: int
    var droppingElement: bool

    function State(): GridState
      reads this
    {
      GridState(layout, dragEnterCount, droppingElement)
    }

    /** Mounted on an already synchronized layout, with no drag in progress. */
    constructor (cfg: Config, engine: Engine, initial: Layout)
      ensures this.cfg == cfg && this.engine == engine
      ensures State() == GridState(initial, 0, false)
    {
      this.cfg := cfg;
      this.engine := engine;
      layout := initial;
      dragEnterCount := 0;
      droppingElement := false;
    }

    /** `containerHeight` for the current layout: `nbRow` is `bottom(innerLayout)`. */
    function ContainerHeight(autoSize: bool, rowHeight: int, margin: (int, int),
                             containerPadding: Option<(int, int)>): (r: Option<int>)
      reads this
      ensures r.None? <==> !autoSize
      // the rows up to the engine's bottom, stacked with one margin between rows
      ensures autoSize && engine.bottom(layout) >= 0 ==>
        r == Some(Container.Stacked(engine.bottom(layout), rowHeight, margin.1,
                                    Container.PaddingY(margin, containerPadding)))
    {
      var nbRow := engine.bottom(layout);
      if autoSize && nbRow >= 0 then
        Container.ContainerHeightStacksRows(nbRow, rowHeight, margin, containerPadding);
        Container.ContainerHeight(autoSize, nbRow, rowHeight, margin, containerPadding)
      else
        Container.ContainerHeight(autoSize, nbRow, rowHeight, margin, containerPadding)
    }

    method RemoveDroppingPlaceholder()
      modifies this
      ensures State() == RemovePlaceholder(cfg, engine, old(State()))
    {
      var nextLayout := engine.compact(WithoutId(layout, cfg.droppingItem.i), cfg.compactType,
                                       cfg.cols, cfg.allowOverlap);
      droppingElement := false;
      layout := nextLayout;
    }

    method OnDragEnter()
      modifies this
      ensures State() == DragEnter(old(State()))
    {
      dragEnterCount := dragEnterCount + 1;
    }

    method OnDragLeave()
      modifies this
      ensures State() == DragLeave(cfg, engine, old(State()))
    {
      dragEnterCount := dragEnterCount - 1;
      if dragEnterCount == 0 {
        RemoveDroppingPlaceholder();
      }
    }

    /** Returns what `onDrop` is told: the layout before removal and the dropped item. */
    method OnDrop() returns (dropped: Layout, item: Option<LayoutItem>)
      modifies this
      ensures dropped == old(layout) && item == GetLayoutItem(old(layout), cfg.droppingItem.i)
      ensures State() == Drop(cfg, engine, old(State()))
    {
      dropped := layout;
      item := GetLayoutItem(layout, cfg.droppingItem.i);
      dragEnterCount := 0;
      RemoveDroppingPlaceholder();
    }

    method OnDragOver(res: DragOverResult, cellX: int, cellY: int)
      modifies this
      ensures State() == DragOver(cfg, engine, old(State()), res, cellX, cellY)
    {
      if res.NoHandler? {
        return;
      }
      if res.Reject? {
        if droppingElement {
          RemoveDroppingPlaceholder();
        }
        return;
      }
      var d := Merge(cfg.droppingItem, res.overrides);
      if !droppingElement {
        if d.w.Some? && d.h.Some? {
          droppingElement := true;
          layout := layout + [DroppedItem(d, cellX, cellY)];
        }
      }
    }

    method OnItemHeightChange(id: string, newHeight: int)
      modifies this
      ensures State() == HeightChange(cfg, engine, old(State()), id, newHeight)
    {
      var updatedLayout := UpdateHeight(layout, id, newHeight);
      layout := engine.compact(updatedLayout, cfg.compactType, cfg.cols, cfg.allowOverlap);
    }

    method OnResize(id: string, w: int, h: int, handle: ResizeHandle)
      modifies this
      ensures State() == ResizeItem(cfg, engine, old(State()), id, w, h, handle)
    {
      var found := GetLayoutItem(layout, id);
      if found.Some? {
        var item, x, y, shouldMoveItem := ResizeUpdate(found.value, w, h, handle, cfg.preventCollision,
                                                       cfg.allowOverlap, layout, engine.getAllCollisions);
        var finalLayout := ReplaceById(layout, item);
        if shouldMoveItem {
          finalLayout := engine.moveElement(finalLayout, item, x, y, true, cfg.preventCollision,
                                            cfg.compactType, cfg.cols, cfg.allowOverlap);
        }
        layout := if cfg.allowOverlap then finalLayout
                  else engine.compact(finalLayout, cfg.compactType, cfg.cols, false);
      }
    }
  }
}
