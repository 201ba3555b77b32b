/** compute_positions: x from the layer index, y by stacking each layer's nodes from the top margin. */
module Positions {
  import opened Wrappers
  import opened Graph
  import Ordering

  /** The drawing parameters of compute_positions (`layer_padding` is accepted but never read). */
  datatype Canvas = Canvas(width: int, height: int, nodeWidth: int, layerPadding: int, nodePadding: int)

  const Defaults := Canvas(800, 600, 20, 100, 8)

  /** The margin on every side, and the smallest node height. */
  const Margin: real := 20.0
  const MinNodeHeight: real := 6.0

  /** One placed node: its centre (x, y) and its size w by h. */
  datatype Box = Box(id: NodeId, x: real, y: real, w: real, h: real)

  function Top(b: Box): real { b.y - b.h / 2.0 }
  function Bottom(b: Box): real { b.y + b.h / 2.0 }

  // ---------------------------------------------------------------- x per layer

  /** The largest layer index. */
  function MaxKey(keys: seq<int>): (m: int)
    requires keys != []
    ensures m in keys && forall k :: k in keys ==> k <= m
  {
    if |keys| == 1 then keys[0]
    else
      var m := MaxKey(keys[..|keys| - 1]);
      assert forall k :: k in keys ==> k in keys[..|keys| - 1] || k == keys[|keys| - 1];
      if keys[|keys| - 1] > m then keys[|keys| - 1] else m
  }

  /** The number of layer columns: one more than the largest layer index, or 1 without layers. */
  function NumLayers(keys: seq<int>): int {
    if keys == [] then 1 else MaxKey(keys) + 1
  }

  /** The x of each layer column: with several layers, the indices up to the layer count spread evenly between the
      margins; otherwise layer 0 in
      the middle. */
  function LayerXs(n: int, width: int): map<int, real> {
    if n > 1 then map i | 0 <= i < n :: ColumnX(n, width, i)
    else map[0 := width as real / 2.0]
  }

  /** The x of column i: the left margin plus i equal steps across the drawing width. */
  function ColumnX(n: int, width: int, i: int): real
    requires n > 1
  {
    Margin + i as real * ((width - 40) as real / (n - 1) as real)
  }

  /** The x of a layer, the left margin for a layer without a column. */
  function XOf(xs: map<int, real>, li: int): real {
    if li in xs then xs[li] else Margin
  }

  /** With several layers the first column sits on the left margin. */
  lemma LayerXsFirst(n: int, width: int)
    requires n > 1
    ensures XOf(LayerXs(n, width), 0) == Margin
  {
    assert 0 in LayerXs(n, width);
  }

  /** With several layers the last column sits on the right margin. */
  lemma LayerXsLast(n: int, width: int)
    requires n > 1
    ensures XOf(LayerXs(n, width), n - 1) == width as real - Margin
  {
    assert n - 1 in LayerXs(n, width);
    var d := (n - 1) as real;
    var step := (width - 40) as real / d;
    assert d * step == (width - 40) as real;
  }

  /** When the canvas is wider than its margins the columns run strictly left to right. */
  lemma LayerXsIncreasing(n: int, width: int, i: int, j: int)
    requires n > 1 && 0 <= i < j < n && width > 40
    ensures XOf(LayerXs(n, width), i) < XOf(LayerXs(n, width), j)
  {
    assert i in LayerXs(n, width) && j in LayerXs(n, width);
    var step := (width - 40) as real / (n - 1) as real;
    assert step > 0.0;
    MulIncreasing(i as real, j as real, step);
  }

  lemma MulIncreasing(a: real, b: real, step: real)
    requires a < b && step > 0.0
    ensures a * step < b * step
  {
    assert b * step - a * step == (b - a) * step;
  }

  /** A layer index outside `range(num_layers)` falls back to the left margin. */
  lemma LayerXsOutside(n: int, width: int, li: int)
    requires n > 1 && (li < 0 || n <= li)
    ensures XOf(LayerXs(n, width), li) == Margin
  {}

  /** With at most one layer, layer 0 is centred and every other layer index falls back to the margin. */
  lemma LayerXsSingle(n: int, width: int, li: int)
    requires n <= 1
    ensures XOf(LayerXs(n, width), li) == if li == 0 then width as real / 2.0 else Margin
  {}

  // ---------------------------------------------------------------- heights

  /** The value of a node, 1 when it has none. */
  function ValueOf(values: map<NodeId, real>, id: NodeId): real {
    if id in values then values[id] else 1.0
  }

  /** The values of the listed ids, in order. */
  function Vals(ids: seq<NodeId>, values: map<NodeId, real>): (r: seq<real>)
    ensures |r| == |ids|
  {
    if ids == [] then [] else Vals(ids[..|ids| - 1], values) + [ValueOf(values, ids[|ids| - 1])]
  }

  /** The sum of a list of reals. */
  function Sum(s: seq<real>): real {
    if s == [] then 0.0 else Sum(s[..|s| - 1]) + s[|s| - 1]
  }

  /** The total value of a layer, 1 for an empty layer. */
  function Total(vals: seq<real>): real {
    if vals == [] then 1.0 else Sum(vals)
  }

  /** The height of a node: its share of 60% of the available height, but never below the minimum node height. */
  function Height(v: real, total: real, height: int): (h: real)
    requires total != 0.0
    ensures h >= MinNodeHeight && h >= v / total * ((height - 40) as real * 0.6)
    ensures h == MinNodeHeight || h == v / total * ((height - 40) as real * 0.6)
  {
    var raw := v / total * ((height - 40) as real * 0.6);
    if MinNodeHeight >= raw then MinNodeHeight else raw
  }

  /** The heights of a layer's nodes, in order. */
  function Heights(vals: seq<real>, total: real, height: int): (r: seq<real>)
    requires total != 0.0
    ensures |r| == |vals| && forall i :: 0 <= i < |r| ==> r[i] >= MinNodeHeight
  {
    if vals == [] then [] else Heights(vals[..|vals| - 1], total, height) + [Height(vals[|vals| - 1], total, height)]
  }

  // ---------------------------------------------------------------- stacking one layer

  /** The running `y` after stacking the first `k` heights: it starts at the top margin and each node advances it
      by its height plus the padding. */
  function Advance(hs: seq<real>, pad: real, k: nat): real
    requires k <= |hs|
  {
    if k == 0 then Margin else Advance(hs, pad, k - 1) + hs[k - 1] + pad
  }

  /** The boxes of the first `k` listed ids of one layer. */
  function Stack(ids: seq<NodeId>, hs: seq<real>, x: real, w: real, pad: real, k: nat): (r: seq<Box>)
    requires |ids| == |hs| && k <= |ids|
    ensures |r| == k
  {
    if k == 0 then []
    else Stack(ids, hs, x, w, pad, k - 1) + [Box(ids[k - 1], x, Advance(hs, pad, k - 1) + hs[k - 1] / 2.0, w, hs[k - 1])]
  }

  /** Box i of a layer belongs to id i, sits on the layer's x with the node width and height i, and is centred
      half its height below the running y reached after the boxes before it. */
  lemma {:induction false} StackShape(ids: seq<NodeId>, hs: seq<real>, x: real, w: real, pad: real, k: nat)
    requires |ids| == |hs| && k <= |ids|
    ensures forall i {:trigger Stack(ids, hs, x, w, pad, k)[i]} :: 0 <= i < k ==>
      Stack(ids, hs, x, w, pad, k)[i] == Box(ids[i], x, Advance(hs, pad, i) + hs[i] / 2.0, w, hs[i])
  {
    if k > 0 {
      StackShape(ids, hs, x, w, pad, k - 1);
    }
  }

  /** A layer's boxes form its column, and each box has its node's height. */
  lemma StackColumn(ids: seq<NodeId>, hs: seq<real>, x: real, w: real, pad: real)
    requires |ids| == |hs|
    ensures Column(Stack(ids, hs, x, w, pad, |ids|), ids, x, w)
    ensures forall i {:trigger Stack(ids, hs, x, w, pad, |ids|)[i]} :: 0 <= i < |ids| ==>
      Stack(ids, hs, x, w, pad, |ids|)[i].h == hs[i]
  {
    StackShape(ids, hs, x, w, pad, |ids|);
  }

  /** The stacking rule: the first box's top is the top margin, and every next box's top is the previous box's
      bottom plus the padding. */
  predicate Stacked(r: seq<Box>, pad: real) {
    && (r != [] ==> Top(r[0]) == Margin)
    && forall i :: 0 <= i < |r| - 1 ==> Top(r[i + 1]) == Bottom(r[i]) + pad
  }

  /** A layer's boxes follow the stacking rule. */
  lemma StackTops(ids: seq<NodeId>, hs: seq<real>, x: real, w: real, pad: real)
    requires |ids| == |hs|
    ensures Stacked(Stack(ids, hs, x, w, pad, |ids|), pad)
  {
    StackShape(ids, hs, x, w, pad, |ids|);
  }

  /** With a non-negative padding and non-negative heights no two boxes of a layer overlap: an earlier box ends
      above every later one. */
  lemma StackDisjoint(r: seq<Box>, pad: real, i: int, j: int)
    requires Stacked(r, pad) && pad >= 0.0 && forall k :: 0 <= k < |r| ==> r[k].h >= 0.0
    requires 0 <= i < j < |r|
    ensures Bottom(r[i]) <= Top(r[j])
    decreases j - i
  {
    if i + 1 < j {
      StackDisjoint(r, pad, i + 1, j);
    }
  }

  // ---------------------------------------------------------------- all layers

  /** The ids of layer `li` in drawing order: the given ordering, or the layer's node ids in group order. */
  function LayerIds(layers: ODict<int, seq<Node>>, ordering: map<int, seq<NodeId>>, li: int): seq<NodeId>
    requires li in layers.entries
  {
    if li in ordering then ordering[li] else Ordering.NodeIds(layers.entries[li])
  }

  /** compute_positions divides by each layer's total value: it must not be 0 (an empty layer uses 1.0). */
  predicate Scalable(layers: ODict<int, seq<Node>>, ordering: map<int, seq<NodeId>>, values: map<NodeId, real>) {
    forall li :: li in layers.entries ==> Total(Vals(LayerIds(layers, ordering, li), values)) != 0.0
  }

  /** The boxes of layer `li`. */
  function LayerBoxes(layers: ODict<int, seq<Node>>, ordering: map<int, seq<NodeId>>, values: map<NodeId, real>,
                      c: Canvas, xs: map<int, real>, li: int): seq<Box>
    requires li in layers.entries && Scalable(layers, ordering, values)
  {
    var ids := LayerIds(layers, ordering, li);
    var vals := Vals(ids, values);
    Stack(ids, Heights(vals, Total(vals), c.height), XOf(xs, li), c.nodeWidth as real,
          c.nodePadding as real, |ids|)
  }

  /** Every box of layer `li` belongs to one of its listed ids, has the layer's x, the node width and a height of at
      least 6, and the boxes stack as StackTops states. */
  lemma LayerBoxesSpec(layers: ODict<int, seq<Node>>, ordering: map<int, seq<NodeId>>, values: map<NodeId, real>,
                       c: Canvas, xs: map<int, real>, li: int)
    requires li in layers.entries && Scalable(layers, ordering, values)
    ensures Column(LayerBoxes(layers, ordering, values, c, xs, li), LayerIds(layers, ordering, li), XOf(xs, li),
                   c.nodeWidth as real)
    ensures AtLeastMin(LayerBoxes(layers, ordering, values, c, xs, li))
    ensures Stacked(LayerBoxes(layers, ordering, values, c, xs, li), c.nodePadding as real)
  {
    var ids := LayerIds(layers, ordering, li);
    var vals := Vals(ids, values);
    var hs := Heights(vals, Total(vals), c.height);
    StackColumn(ids, hs, XOf(xs, li), c.nodeWidth as real, c.nodePadding as real);
    StackTops(ids, hs, XOf(xs, li), c.nodeWidth as real, c.nodePadding as real);
  }

  /** The boxes of one layer: one per listed id, in order, all on the layer's x with the node width. */
  predicate Column(r: seq<Box>, ids: seq<NodeId>, x: real, w: real) {
    |r| == |ids| && forall i {:trigger r[i]} :: 0 <= i < |r| ==> r[i].id == ids[i] && r[i].x == x && r[i].w == w
  }

  /** Every box is at least 6 high. */
  predicate AtLeastMin(boxes: seq<Box>) {
    forall i :: 0 <= i < |boxes| ==> boxes[i].h >= MinNodeHeight
  }

  /** Every key listed in the dict's key order has an entry. */
  predicate KeysKnown(layers: ODict<int, seq<Node>>) {
    forall i :: 0 <= i < |layers.keys| ==> layers.keys[i] in layers.entries
  }

  /** The boxes of the first `j` layers in the dict's key order, layer after layer. */
  function Boxes(layers: ODict<int, seq<Node>>, ordering: map<int, seq<NodeId>>, values: map<NodeId, real>,
                 c: Canvas, xs: map<int, real>, j: nat): seq<Box>
    requires Scalable(layers, ordering, values) && KeysKnown(layers) && j <= |layers.keys|
  {
    if j == 0 then []
    else Boxes(layers, ordering, values, c, xs, j - 1) + LayerBoxes(layers, ordering, values, c, xs, layers.keys[j - 1])
  }


  /** Every node is at least 6 high, whatever layer it is in. */
  lemma {:induction false} BoxesAtLeastMin(layers: ODict<int, seq<Node>>, ordering: map<int, seq<NodeId>>,
                                          values: map<NodeId, real>, c: Canvas, xs: map<int, real>, j: nat)
    requires Scalable(layers, ordering, values) && KeysKnown(layers) && j <= |layers.keys|
    ensures AtLeastMin(Boxes(layers, ordering, values, c, xs, j))
  {
    if j > 0 {
      BoxesAtLeastMin(layers, ordering, values, c, xs, j - 1);
      LayerBoxesSpec(layers, ordering, values, c, xs, layers.keys[j - 1]);
      var a: seq<Box> := Boxes(layers, ordering, values, c, xs, j - 1);
      var b: seq<Box> := LayerBoxes(layers, ordering, values, c, xs, layers.keys[j - 1]);
      forall i | 0 <= i < |a + b|
        ensures (a + b)[i].h >= MinNodeHeight
      {
        if i < |a| { assert (a + b)[i] == a[i]; } else { assert (a + b)[i] == b[i - |a|]; }
      }
    }
  }

  // ---------------------------------------------------------------- the two result dicts

  /** The centres of the first `k` boxes written in order over `base`, a later box overwriting an earlier one. */
  function PlacePositions(base: map<NodeId, (real, real)>, boxes: seq<Box>, k: nat): map<NodeId, (real, real)>
    requires k <= |boxes|
  {
    if k == 0 then base else PlacePositions(base, boxes, k - 1)[boxes[k - 1].id := (boxes[k - 1].x, boxes[k - 1].y)]
  }

  /** The sizes of the first `k` boxes written in order over `base`, a later box overwriting an earlier one. */
  function PlaceSizes(base: map<NodeId, (real, real)>, boxes: seq<Box>, k: nat): map<NodeId, (real, real)>
    requires k <= |boxes|
  {
    if k == 0 then base else PlaceSizes(base, boxes, k - 1)[boxes[k - 1].id := (boxes[k - 1].w, boxes[k - 1].h)]
  }

  /** Starting from empty dicts, exactly the placed ids get an entry. */
  lemma {:induction false} PlacedKeys(boxes: seq<Box>, k: nat)
    requires k <= |boxes|
    ensures PlacePositions(map[], boxes, k).Keys == (set i | 0 <= i < k :: boxes[i].id)
    ensures PlaceSizes(map[], boxes, k).Keys == (set i | 0 <= i < k :: boxes[i].id)
  {
    if k > 0 {
      PlacedKeys(boxes, k - 1);
      assert (set i | 0 <= i < k :: boxes[i].id) == (set i | 0 <= i < k - 1 :: boxes[i].id) + {boxes[k - 1].id};
    }
  }

  /** Box `i` is the last of the first `k` boxes with its id. */
  predicate LastBox(boxes: seq<Box>, k: int, i: int) {
    0 <= i < k <= |boxes| && forall j :: i < j < k ==> boxes[j].id != boxes[i].id
  }

  /** Each entry is taken from the id's last box: when an id is listed in several layers the later layer wins. */
  lemma {:induction false} PlacedLast(p: map<NodeId, (real, real)>, s: map<NodeId, (real, real)>, boxes: seq<Box>,
                                      k: nat, i: int)
    requires LastBox(boxes, k, i)
    ensures boxes[i].id in PlacePositions(p, boxes, k) && boxes[i].id in PlaceSizes(s, boxes, k)
    ensures PlacePositions(p, boxes, k)[boxes[i].id] == (boxes[i].x, boxes[i].y)
    ensures PlaceSizes(s, boxes, k)[boxes[i].id] == (boxes[i].w, boxes[i].h)
  {
    if i < k - 1 {
      PlacedLast(p, s, boxes, k - 1, i);
    }
  }

  /** The last box, among the first `k`, with the same id as box `i`. */
  ghost function LastOf(boxes: seq<Box>, k: nat, i: int): (r: int)
    requires 0 <= i < k <= |boxes|
    ensures LastBox(boxes, k, r) && boxes[r].id == boxes[i].id
    decreases k - i
  {
    if forall j :: i < j < k ==> boxes[j].id != boxes[i].id then i
    else
      var j :| i < j < k && boxes[j].id == boxes[i].id;
      LastOf(boxes, k, j)
  }

  /** Only the first `k` boxes matter. */
  lemma {:induction false} PlacePrefix(p: map<NodeId, (real, real)>, s: map<NodeId, (real, real)>,
                                       u: seq<Box>, v: seq<Box>, k: nat)
    requires k <= |u| && k <= |v| && forall i :: 0 <= i < k ==> u[i] == v[i]
    ensures PlacePositions(p, u, k) == PlacePositions(p, v, k) && PlaceSizes(s, u, k) == PlaceSizes(s, v, k)
  {
    if k > 0 {
      PlacePrefix(p, s, u, v, k - 1);
    }
  }

  /** When every box is at least 6 high (BoxesAtLeastMin), so is every entry of the sizes dict. */
  lemma SizesAtLeastMin(boxes: seq<Box>)
    requires AtLeastMin(boxes)
    ensures forall id :: id in PlaceSizes(map[], boxes, |boxes|) ==> PlaceSizes(map[], boxes, |boxes|)[id].1 >= MinNodeHeight
  {
    PlacedKeys(boxes, |boxes|);
    forall id | id in PlaceSizes(map[], boxes, |boxes|)
      ensures PlaceSizes(map[], boxes, |boxes|)[id].1 >= MinNodeHeight
    {
      var i :| 0 <= i < |boxes| && boxes[i].id == id;
      PlacedLast(map[], map[], boxes, |boxes|, LastOf(boxes, |boxes|, i));
    }
  }

  // ---------------------------------------------------------------- the methods

  /** The inner loop of compute_positions: stack one layer's ids with their heights, advancing the running y. The
      dicts hold the entries of the boxes `done` placed so far; afterwards they hold those of `done` followed by this
      layer's boxes. */
  method PlaceLayer(positions: map<NodeId, (real, real)>, sizes: map<NodeId, (real, real)>, ghost done: seq<Box>,
                    ids: seq<NodeId>, hs: seq<real>, x: real, w: real, pad: real)
    returns (positions': map<NodeId, (real, real)>, sizes': map<NodeId, (real, real)>)
    requires |ids| == |hs|
    requires positions == PlacePositions(map[], done, |done|) && sizes == PlaceSizes(map[], done, |done|)
    ensures positions' == PlacePositions(map[], done + Stack(ids, hs, x, w, pad, |ids|), |done| + |ids|)
    ensures sizes' == PlaceSizes(map[], done + Stack(ids, hs, x, w, pad, |ids|), |done| + |ids|)
  {
    ghost var all := done + Stack(ids, hs, x, w, pad, |ids|);
    StackShape(ids, hs, x, w, pad, |ids|);
    PlacePrefix(map[], map[], done, all, |done|);
    positions', sizes' := positions, sizes;
    var y := Margin;
    for i := 0 to |ids|
      invariant y == Advance(hs, pad, i)
      invariant positions' == PlacePositions(map[], all, |done| + i)
      invariant sizes' == PlaceSizes(map[], all, |done| + i)
    {
      var h := hs[i];
      assert all[|done| + i] == Box(ids[i], x, y + h / 2.0, w, h);
      positions' := positions'[ids[i] := (x, y + h / 2.0)];
      sizes' := sizes'[ids[i] := (w, h)];
      y := y + h + pad;
    }
  }

  /** The dicts compute_positions returns hold exactly the centres and the sizes of `boxes`, placed in order. */
  ghost predicate Placed(positions: map<NodeId, (real, real)>, sizes: map<NodeId, (real, real)>, boxes: seq<Box>) {
    positions == PlacePositions(map[], boxes, |boxes|) && sizes == PlaceSizes(map[], boxes, |boxes|)
  }

  /** One iteration of the layer loop, for the `j`-th key: the layer's ids, their values, the total and the
      heights, then the stacking loop. */
  method PlaceLayerOf(layers: ODict<int, seq<Node>>, ordering: map<int, seq<NodeId>>, values: map<NodeId, real>,
                      c: Canvas, xs: map<int, real>, j: nat, positions: map<NodeId, (real, real)>,
                      sizes: map<NodeId, (real, real)>)
    returns (positions': map<NodeId, (real, real)>, sizes': map<NodeId, (real, real)>)
    requires KeysKnown(layers) && Scalable(layers, ordering, values) && j < |layers.keys|
    requires Placed(positions, sizes, Boxes(layers, ordering, values, c, xs, j))
    ensures Placed(positions', sizes', Boxes(layers, ordering, values, c, xs, j + 1))
  {
    var li := layers.keys[j];
    var ids := LayerIds(layers, ordering, li);
    var vals := Vals(ids, values);
    var total := Total(vals);
    var hs := Heights(vals, total, c.height);
    ghost var done := Boxes(layers, ordering, values, c, xs, j);
    assert Boxes(layers, ordering, values, c, xs, j + 1)
        == done + Stack(ids, hs, XOf(xs, li), c.nodeWidth as real, c.nodePadding as real, |ids|);
    positions', sizes' := PlaceLayer(positions, sizes, done, ids, hs, XOf(xs, li), c.nodeWidth as real,
                                     c.nodePadding as real);
  }

  /** The boxes compute_positions places: every layer in the dict's key order, with the layer columns of
      `layer_xs`. */
  function AllBoxes(layers: ODict<int, seq<Node>>, ordering: map<int, seq<NodeId>>, values: map<NodeId, real>,
                    c: Canvas): seq<Box>
    requires KeysKnown(layers) && Scalable(layers, ordering, values)
  {
    Boxes(layers, ordering, values, c, LayerXs(NumLayers(layers.keys), c.width), |layers.keys|)
  }

  /** The layer loop of compute_positions, for given layer columns `xs`. */
  method PlaceLayers(layers: ODict<int, seq<Node>>, ordering: map<int, seq<NodeId>>, values: map<NodeId, real>,
                     c: Canvas, xs: map<int, real>)
    returns (positions: map<NodeId, (real, real)>, sizes: map<NodeId, (real, real)>)
    requires KeysKnown(layers) && Scalable(layers, ordering, values)
    ensures Placed(positions, sizes, Boxes(layers, ordering, values, c, xs, |layers.keys|))
  {
    positions, sizes := map[], map[];
    for j := 0 to |layers.keys|
      invariant Placed(positions, sizes, Boxes(layers, ordering, values, c, xs, j))
    {
      positions, sizes := PlaceLayerOf(layers, ordering, values, c, xs, j, positions, sizes);
    }
  }

  /** compute_positions: the layer columns, then node centres and sizes layer by layer in the dict's key order. */
  method ComputePositions(layers: ODict<int, seq<Node>>, ordering: map<int, seq<NodeId>>,
                          values: map<NodeId, real>, c: Canvas)
    returns (positions: map<NodeId, (real, real)>, sizes: map<NodeId, (real, real)>)
    requires KeysKnown(layers) && Scalable(layers, ordering, values)
    ensures Placed(positions, sizes, AllBoxes(layers, ordering, values, c))
  {
    var xs := LayerXs(NumLayers(layers.keys), c.width);
    positions, sizes := PlaceLayers(layers, ordering, values, c, xs);
  }
}
