/** The grid's data model: layout items, layouts, compaction axes and resize handles
    (packages/core/src/type.ts). */
module Types {

  /** A JavaScript property that may be `undefined`. */
  datatype Option<T> = None | Some(value: T)

  /** The compaction axis; `NoCompaction` is the source's `undefined` (free placement). */
  datatype CompactType = Vertical | Horizontal | NoCompaction

  /** The eight resize handles, named by compass point. */
  datatype ResizeHandle = S | W | E | N | SW | NW | SE | NE

  /** One grid rectangle. Grid coordinates and sizes are integers. The source's `static`
      field is called `isStatic` here, since `static` is a Dafny keyword. */
  datatype LayoutItem = LayoutItem(
    w: int,
    h: int,
    x: int,
    y: int,
    i: string,
    minW: Option<int>,
    minH: Option<int>,
    maxW: Option<int>,
    maxH: Option<int>,
    moved: Option<bool>,
    isStatic: Option<bool>,
    isDraggable: Option<bool>,
    isResizable: Option<bool>,
    isBounded: Option<bool>,
    resizeHandles: Option<seq<ResizeHandle>>,
    autoHeight: Option<bool>)

  /** Layouts are ordered; the order is that of insertion. */
  type Layout = seq<LayoutItem>

  /** JavaScript truthiness of `item.static`: only an explicit `true` makes an item static. */
  predicate IsStatic(item: LayoutItem) {
    item.isStatic == Some(true)
  }

  /** No two items of the layout share an id. */
  predicate UniqueIds(l: Layout) {
    forall a, b :: 0 <= a < b < |l| ==> l[a].i != l[b].i
  }
}
