/** The geometry update `onInnerResize` applies to the item being resized
    (packages/core/src/grid.tsx:501-542): top and left handles keep the opposite edge fixed,
    except that when the anchored coordinate would be negative the size on that axis reverts
    and the coordinate becomes 0, so the far edge moves; with collision prevention any
    collision vetoes the whole change. */
module Resize {
  import opened Types
  import opened Layouts

  /** Handles that may move the item's origin: `['sw', 'w', 'nw', 'n', 'ne']`. */
  predicate MovesOrigin(handle: ResizeHandle) {
    handle.SW? || handle.W? || handle.NW? || handle.N? || handle.NE?
  }

  /** Handles on the left edge: `['sw', 'nw', 'w']`. */
  predicate IsWest(handle: ResizeHandle) {
    handle.SW? || handle.NW? || handle.W?
  }

  /** Handles on the top edge: `['ne', 'n', 'nw']`. */
  predicate IsNorth(handle: ResizeHandle) {
    handle.NE? || handle.N? || handle.NW?
  }

  /** A grid rectangle. */
  datatype Rect = Rect(x: int, y: int, w: int, h: int)

  /** One axis resized from its low edge: position and size after anchoring the high
      edge (`pos + size`) at the requested size `req`. */
  datatype Span = Span(pos: int, size: int)

  function AnchorHighEdge(pos: int, size: int, req: int): Span
  {
    var moved := pos + (size - req);
    Span(if moved < 0 then 0 else moved, if pos != moved && moved < 0 then size else req)
  }

  /** The rectangle the resize asks for, before the collision check. */
  function Proposal(item: LayoutItem, w: int, h: int, handle: ResizeHandle): (p: Rect)
    // a west handle keeps the right edge where it was ...
    ensures IsWest(handle) && item.x + item.w - w >= 0 ==>
      p.w == w && p.x + p.w == item.x + item.w
    // ... unless that puts the left edge below 0: then the width reverts and x becomes 0
    ensures IsWest(handle) && item.x + item.w - w < 0 ==> p.x == 0 && p.w == item.w
    ensures !IsWest(handle) ==> p.x == item.x && p.w == w
    // a north handle keeps the bottom edge, with the same clamp at row 0
    ensures IsNorth(handle) && item.y + item.h - h >= 0 ==>
      p.h == h && p.y + p.h == item.y + item.h
    ensures IsNorth(handle) && item.y + item.h - h < 0 ==> p.y == 0 && p.h == item.h
    ensures !IsNorth(handle) ==> p.y == item.y && p.h == h
    // coordinates are never negative when the item's own are not
    ensures item.x >= 0 ==> p.x >= 0
    ensures item.y >= 0 ==> p.y >= 0
  {
    var xs := if IsWest(handle) then AnchorHighEdge(item.x, item.w, w) else Span(item.x, w);
    var ys := if IsNorth(handle) then AnchorHighEdge(item.y, item.h, h) else Span(item.y, h);
    Rect(xs.pos, ys.pos, xs.size, ys.size)
  }

  /** `{ ...item, w, h, x, y }`: the item placed on a rectangle. */
  function Placed(item: LayoutItem, r: Rect): LayoutItem {
    item.(x := r.x, y := r.y, w := r.w, h := r.h)
  }

  /** The veto: with `preventCollision && !allowOverlap`, the proposed rectangle collides
      with some item other than the resized one. */
  predicate Vetoed(item: LayoutItem, p: Rect, preventCollision: bool, allowOverlap: bool,
                   layout: Layout, getAllCollisions: (Layout, LayoutItem) -> Layout)
  {
    preventCollision && !allowOverlap &&
    |WithoutId(getAllCollisions(layout, Placed(item, p)), item.i)| > 0
  }

  /** What the update callback leaves behind: the item written back (only its `w` and `h`),
      the target `x`, `y` and whether `moveElement` is to be called. */
  datatype ResizeResult = ResizeResult(item: LayoutItem, x: int, y: int, shouldMoveItem: bool)

  /** The outcome of the update callback, as a function of its inputs. */
  function ResizeOutcome(item: LayoutItem, w: int, h: int, handle: ResizeHandle,
                         preventCollision: bool, allowOverlap: bool,
                         layout: Layout, getAllCollisions: (Layout, LayoutItem) -> Layout): (r: ResizeResult)
    // only the size is written into the item
    ensures r.item == item.(w := r.item.w, h := r.item.h)
    // a veto restores everything and cancels the move
    ensures Vetoed(item, Proposal(item, w, h, handle), preventCollision, allowOverlap, layout, getAllCollisions) ==>
      r == ResizeResult(item, item.x, item.y, false)
    // otherwise the proposal is taken, and the move is asked for exactly on origin-moving handles
    ensures !Vetoed(item, Proposal(item, w, h, handle), preventCollision, allowOverlap, layout, getAllCollisions) ==>
      Rect(r.x, r.y, r.item.w, r.item.h) == Proposal(item, w, h, handle) &&
      r.shouldMoveItem == MovesOrigin(handle)
    // bottom and right handles never move the origin
    ensures !MovesOrigin(handle) ==> r.x == item.x && r.y == item.y && !r.shouldMoveItem
  {
    var p := Proposal(item, w, h, handle);
    if Vetoed(item, p, preventCollision, allowOverlap, layout, getAllCollisions)
    then ResizeResult(item, item.x, item.y, false)
    else ResizeResult(item.(w := p.w, h := p.h), p.x, p.y, MovesOrigin(handle))
  }

  /** The update callback of `onInnerResize`, step by step as the source reassigns its
      locals; `item` is the clone `withLayoutItem` hands it, `layout` the current layout. */
  method ResizeUpdate(item: LayoutItem, w0: int, h0: int, handle: ResizeHandle,
                      preventCollision: bool, allowOverlap: bool,
                      layout: Layout, getAllCollisions: (Layout, LayoutItem) -> Layout)
    returns (updated: LayoutItem, x: int, y: int, shouldMoveItem: bool)
    ensures ResizeResult(updated, x, y, shouldMoveItem) ==
      ResizeOutcome(item, w0, h0, handle, preventCollision, allowOverlap, layout, getAllCollisions)
  {
    var w, h := w0, h0;
    shouldMoveItem := false;
    x := item.x;
    y := item.y;
    if MovesOrigin(handle) {
      if IsWest(handle) {
        x := item.x + (item.w - w);
        w := if item.x != x && x < 0 then item.w else w;
        x := if x < 0 then 0 else x;
      }
      if IsNorth(handle) {
        y := item.y + (item.h - h);
        h := if item.y != y && y < 0 then item.h else h;
        y := if y < 0 then 0 else y;
      }
      shouldMoveItem := true;
    }
    if preventCollision && !allowOverlap {
      var collisions := WithoutId(getAllCollisions(layout, item.(w := w, h := h, x := x, y := y)), item.i);
      var hasCollisions := |collisions| > 0;
      if hasCollisions {
        y := item.y;
        h := item.h;
        x := item.x;
        w := item.w;
        shouldMoveItem := false;
      }
    }
    updated := item.(w := w, h := h);
  }
}
