/** How `genGridItem` resolves an item's capabilities from its own overrides, its `static`
    flag and the container's defaults, and which props it hands to the grid item
    (packages/core/src/grid.tsx:620-685). */
module Capability {
  import opened Types
  import opened Layouts

  /** Container-level props: `isDraggable`, `isResizable`, `isBounded`, `resizeHandles`. */
  datatype Policy = Policy(isDraggable: bool, isResizable: bool, isBounded: bool,
                           resizeHandles: seq<ResizeHandle>)

  /** The container's defaults: draggable, resizable, unbounded, one `'se'` handle. */
  const DefaultPolicy: Policy := Policy(true, true, false, [SE])

  datatype Capabilities = Capabilities(draggable: bool, resizable: bool, bounded: bool,
                                       resizeHandles: seq<ResizeHandle>)

  /** An explicit boolean on the item, or else "not static and the container allows it". */
  function Override(explicit: Option<bool>, item: LayoutItem, containerFlag: bool): bool {
    if explicit.Some? then explicit.value else !IsStatic(item) && containerFlag
  }

  function Resolve(item: LayoutItem, policy: Policy): (c: Capabilities)
    // an explicit per-item boolean wins
    ensures item.isDraggable.Some? ==> c.draggable == item.isDraggable.value
    ensures item.isResizable.Some? ==> c.resizable == item.isResizable.value
    // otherwise a static item is locked and any other follows the container
    ensures item.isDraggable.None? ==> (c.draggable <==> !IsStatic(item) && policy.isDraggable)
    ensures item.isResizable.None? ==> (c.resizable <==> !IsStatic(item) && policy.isResizable)
    // bounded needs draggable and the container's bound, and `isBounded: false` switches it off
    ensures c.bounded <==> c.draggable && policy.isBounded && item.isBounded != Some(false)
    // the item's own handle list, even an empty one, replaces the container's
    ensures item.resizeHandles.Some? ==> c.resizeHandles == item.resizeHandles.value
    ensures item.resizeHandles.None? ==> c.resizeHandles == policy.resizeHandles
  {
    var draggable := Override(item.isDraggable, item, policy.isDraggable);
    var resizable := Override(item.isResizable, item, policy.isResizable);
    var handles := match item.resizeHandles
      case Some(hs) => hs
      case None => policy.resizeHandles;
    Capabilities(draggable, resizable,
                 draggable && policy.isBounded && item.isBounded != Some(false), handles)
  }

  /** The layout-dependent props of one rendered grid item. */
  datatype GridItemProps = GridItemProps(
    i: string, x: int, y: int, w: int, h: int,
    minW: Option<int>, minH: Option<int>, maxW: Option<int>, maxH: Option<int>,
    isStatic: Option<bool>, caps: Capabilities, autoHeight: bool)

  /** The props built from one item: its geometry, bounds and `static` flag copied, its
      capabilities resolved, and `autoHeight` choosing the self-measuring wrapper. */
  function ItemProps(it: LayoutItem, policy: Policy): GridItemProps {
    GridItemProps(it.i, it.x, it.y, it.w, it.h, it.minW, it.minH, it.maxW, it.maxH,
                  it.isStatic, Resolve(it, policy), it.autoHeight == Some(true))
  }

  /** The props for the child with key `key`; no grid item for a key the layout lacks. */
  function GenGridItem(layout: Layout, key: string, policy: Policy): (r: Option<GridItemProps>)
    ensures r.None? <==> forall k :: 0 <= k < |layout| ==> layout[k].i != key
    // the props are those of the first item with the key, as `getLayoutItem` finds it
    ensures r.Some? ==> exists k :: (0 <= k < |layout| && layout[k].i == key && r.value == ItemProps(layout[k], policy)
                                     && forall j :: 0 <= j < k ==> layout[j].i != key)
  {
    match GetLayoutItem(layout, key)
    case None => None
    case Some(it) => Some(ItemProps(it, policy))
  }

  /** With the container's defaults and no overrides, a static item can be neither dragged
      nor resized, while any other item can be both, and none is bounded. */
  lemma DefaultPolicyLocksOnlyStatic(item: LayoutItem)
    requires item.isDraggable.None? && item.isResizable.None?
    ensures Resolve(item, DefaultPolicy).draggable == !IsStatic(item)
    ensures Resolve(item, DefaultPolicy).resizable == !IsStatic(item)
    ensures !Resolve(item, DefaultPolicy).bounded
    ensures item.resizeHandles.None? ==> Resolve(item, DefaultPolicy).resizeHandles == [SE]
  {
  }
}
