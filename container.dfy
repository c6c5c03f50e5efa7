/** The container height of an auto-sized grid (packages/core/src/grid.tsx:147-154):
    `nbRow` rows of `rowHeight` pixels, a vertical margin between consecutive rows and the
    vertical padding above and below. `nbRow` is `bottom(innerLayout)`. */
module Container {
  import opened Types

  /** The vertical padding: `containerPadding[1]` when a padding pair is given, else `margin[1]`. */
  function PaddingY(margin: (int, int), containerPadding: Option<(int, int)>): (r: int)
    ensures containerPadding.Some? ==> r == containerPadding.value.1
    ensures containerPadding.None? ==> r == margin.1
  {
    match containerPadding
    case Some(p) => p.1
    case None => margin.1
  }

  /** The height in pixels, or `None` when the container is not auto-sized. */
  function ContainerHeight(autoSize: bool, nbRow: int, rowHeight: int, margin: (int, int),
                           containerPadding: Option<(int, int)>): (r: Option<int>)
    ensures r.None? <==> !autoSize
  {
    if !autoSize then None
    else Some(nbRow * rowHeight + (nbRow - 1) * margin.1 + PaddingY(margin, containerPadding) * 2)
  }

  /** Reference definition: the rows laid down one at a time, each adding its own height and
      one margin; with no rows the padding is counted twice and one margin is subtracted. */
  function Stacked(rows: nat, rowHeight: int, marginY: int, padY: int): int {
    if rows == 0 then 2 * padY - marginY
    else Stacked(rows - 1, rowHeight, marginY, padY) + rowHeight + marginY
  }

  /** The closed formula agrees with stacking the rows one by one. */
  lemma {:induction false} ContainerHeightStacksRows(nbRow: nat, rowHeight: int, margin: (int, int),
                                                     containerPadding: Option<(int, int)>)
    ensures ContainerHeight(true, nbRow, rowHeight, margin, containerPadding)
         == Some(Stacked(nbRow, rowHeight, margin.1, PaddingY(margin, containerPadding)))
  {
    if nbRow > 0 {
      ContainerHeightStacksRows(nbRow - 1, rowHeight, margin, containerPadding);
      assert nbRow * rowHeight == (nbRow - 1) * rowHeight + rowHeight;
      assert (nbRow - 1) * margin.1 == (nbRow - 2) * margin.1 + margin.1;
    }
  }

  /** Each extra row adds one row height and one margin. */
  lemma ContainerHeightRowStep(nbRow: int, rowHeight: int, margin: (int, int),
                               containerPadding: Option<(int, int)>)
    ensures ContainerHeight(true, nbRow + 1, rowHeight, margin, containerPadding).value
         == ContainerHeight(true, nbRow, rowHeight, margin, containerPadding).value + rowHeight + margin.1
  {
    assert (nbRow + 1) * rowHeight == nbRow * rowHeight + rowHeight;
    assert nbRow * margin.1 == (nbRow - 1) * margin.1 + margin.1;
  }

  /** With a non-negative row pitch, a layout that reaches further down never gets a smaller container. */
  lemma {:induction false} ContainerHeightMonotone(n: nat, m: nat, rowHeight: int, margin: (int, int),
                                                   containerPadding: Option<(int, int)>)
    requires n <= m && rowHeight + margin.1 >= 0
    ensures ContainerHeight(true, n, rowHeight, margin, containerPadding).value
         <= ContainerHeight(true, m, rowHeight, margin, containerPadding).value
  {
    if n < m {
      ContainerHeightMonotone(n, m - 1, rowHeight, margin, containerPadding);
      ContainerHeightRowStep(m - 1, rowHeight, margin, containerPadding);
    }
  }

  /** The defaults (`rowHeight` 150, `margin` [10, 10], no padding) give 170 px for one row,
      and an empty grid keeps 10 px: twice the padding less one margin. */
  lemma DefaultHeights()
    ensures ContainerHeight(true, 1, 150, (10, 10), None) == Some(170)
    ensures ContainerHeight(true, 0, 150, (10, 10), None) == Some(10)
    ensures ContainerHeight(true, 3, 150, (10, 10), Some((0, 0))) == Some(470)
  {
  }
}
