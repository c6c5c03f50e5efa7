/** Edits of a layout that look items up by id: lookup (`getLayoutItem`, `Array.find`),
    the id filter of `removeDroppingPlaceholder` and of the resize collision query, and the
    id-directed `map` of `handleItemHeightChange` and of `withLayoutItem`. */
module Layouts {
  import opened Types

  /** Index of the first item whose id is `id`. */
  function IndexOfId(l: Layout, id: string): (r: Option<nat>)
    ensures r.None? <==> forall k :: 0 <= k < |l| ==> l[k].i != id
    ensures r.Some? ==> r.value < |l| && l[r.value].i == id
    ensures r.Some? ==> forall j :: 0 <= j < r.value ==> l[j].i != id
  {
    if l == [] then None
    else if l[0].i == id then Some(0)
    else match IndexOfId(l[1..], id)
      case None => None
      case Some(k) => Some(k + 1)
  }

  /** The first item whose id is `id`, or `None` for an unknown id. */
  function GetLayoutItem(l: Layout, id: string): (r: Option<LayoutItem>)
    ensures r.None? <==> forall k :: 0 <= k < |l| ==> l[k].i != id
    ensures r.Some? ==> r.value in l && r.value.i == id
    // `find` returns the first match
    ensures r.Some? ==> exists k :: 0 <= k < |l| && r.value == l[k] && forall j :: 0 <= j < k ==> l[j].i != id
  {
    match IndexOfId(l, id)
    case None => None
    case Some(k) => Some(l[k])
  }

  /** Appending an item with another id does not change what a lookup finds. */
  lemma GetLayoutItemAppendOther(l: Layout, x: LayoutItem, id: string)
    requires x.i != id
    ensures GetLayoutItem(l + [x], id) == GetLayoutItem(l, id)
  {
    var m := IndexOfId(l + [x], id);
    var n := IndexOfId(l, id);
    assert forall j :: 0 <= j < |l| ==> (l + [x])[j] == l[j];
    if n.Some? {
      assert m.Some? && m.value == n.value;
    }
  }

  /** In a layout with unique ids, the item found for an id is the one at that id's index. */
  lemma GetLayoutItemUnique(l: Layout, k: nat)
    requires UniqueIds(l) && k < |l|
    ensures GetLayoutItem(l, l[k].i) == Some(l[k])
  {
    var m := IndexOfId(l, l[k].i);
    assert m.Some? && m.value == k;
  }

  /** `layout.filter(l => l.i !== id)`. */
  function WithoutId(l: Layout, id: string): (r: Layout)
    ensures |r| <= |l|
    ensures forall it :: it in r <==> it in l && it.i != id
    ensures (forall k :: 0 <= k < |l| ==> l[k].i != id) ==> r == l
  {
    if l == [] then []
    else if l[0].i == id then WithoutId(l[1..], id)
    else [l[0]] + WithoutId(l[1..], id)
  }

  /** The filter distributes over concatenation: the kept items keep their relative order. */
  lemma {:induction false} WithoutIdAppend(a: Layout, b: Layout, id: string)
    ensures WithoutId(a + b, id) == WithoutId(a, id) + WithoutId(b, id)
  {
    if a == [] {
      assert a + b == b;
    } else {
      assert (a + b)[0] == a[0];
      assert (a + b)[1..] == a[1..] + b;
      WithoutIdAppend(a[1..], b, id);
    }
  }

  /** Removing an id a second time removes nothing more. */
  lemma WithoutIdIdempotent(l: Layout, id: string)
    ensures WithoutId(WithoutId(l, id), id) == WithoutId(l, id)
  {
    var r := WithoutId(l, id);
    assert forall k :: 0 <= k < |r| ==> r[k] in r;
  }

  /** `layout.map(item => item.i === id ? f(item) : item)`. */
  function MapById(l: Layout, id: string, f: LayoutItem -> LayoutItem): (r: Layout)
    ensures |r| == |l|
    ensures forall k :: 0 <= k < |l| ==> r[k] == if l[k].i == id then f(l[k]) else l[k]
  {
    if l == [] then []
    else [if l[0].i == id then f(l[0]) else l[0]] + MapById(l[1..], id, f)
  }

  /** The map of `handleItemHeightChange`: `{ ...item, h: newHeight }` on matching items. */
  function UpdateHeight(l: Layout, id: string, newHeight: int): (r: Layout)
    ensures |r| == |l|
    ensures forall k :: 0 <= k < |l| && l[k].i == id ==> r[k] == l[k].(h := newHeight)
    ensures forall k :: 0 <= k < |l| && l[k].i != id ==> r[k] == l[k]
  {
    MapById(l, id, (it: LayoutItem) => it.(h := newHeight))
  }

  /** Setting the same height twice is the same as setting it once. */
  lemma UpdateHeightIdempotent(l: Layout, id: string, newHeight: int)
    ensures UpdateHeight(UpdateHeight(l, id, newHeight), id, newHeight) == UpdateHeight(l, id, newHeight)
  {
    var once := UpdateHeight(l, id, newHeight);
    var twice := UpdateHeight(once, id, newHeight);
    assert forall k :: 0 <= k < |l| ==> once[k].i == l[k].i;
    assert forall k :: 0 <= k < |l| ==> twice[k] == once[k];
  }

  /** Height updates for two different ids commute. */
  lemma UpdateHeightCommutes(l: Layout, a: string, ha: int, b: string, hb: int)
    requires a != b
    ensures UpdateHeight(UpdateHeight(l, a, ha), b, hb) == UpdateHeight(UpdateHeight(l, b, hb), a, ha)
  {
    var ab := UpdateHeight(UpdateHeight(l, a, ha), b, hb);
    var ba := UpdateHeight(UpdateHeight(l, b, hb), a, ha);
    assert forall k :: 0 <= k < |l| ==> ab[k] == ba[k];
  }

  /** The substitution `withLayoutItem` performs: every item with the clone's id becomes the clone. */
  function ReplaceById(l: Layout, item: LayoutItem): (r: Layout)
    ensures |r| == |l|
    ensures forall k :: 0 <= k < |l| && l[k].i == item.i ==> r[k] == item
    ensures forall k :: 0 <= k < |l| && l[k].i != item.i ==> r[k] == l[k]
  {
    MapById(l, item.i, (_: LayoutItem) => item)
  }

  /** With unique ids, substituting a clone of the item at index `k` is a point update. */
  lemma ReplaceAtIndex(l: Layout, k: nat, item: LayoutItem)
    requires UniqueIds(l) && k < |l| && item.i == l[k].i
    ensures ReplaceById(l, item) == l[k := item]
  {
    var r := ReplaceById(l, item);
    forall j | 0 <= j < |l|
      ensures r[j] == l[k := item][j]
    {
      if j < k {
        assert l[j].i != l[k].i;
      } else if j > k {
        assert l[k].i != l[j].i;
      }
    }
  }

  /** With unique ids, writing back the item that was looked up leaves the layout unchanged. */
  lemma ReplaceFoundIsIdentity(l: Layout, id: string)
    requires UniqueIds(l) && GetLayoutItem(l, id).Some?
    ensures ReplaceById(l, GetLayoutItem(l, id).value) == l
  {
    var k := IndexOfId(l, id).value;
    ReplaceAtIndex(l, k, l[k]);
    assert l[k := l[k]] == l;
  }
}
