/** barycenter_ordering: the node order inside each layer, refined by top-down and bottom-up barycenter sweeps. */
module Ordering {
  import opened Wrappers
  import opened Graph

  /** The ordering: for each layer key, the list of node ids. The key order of the dict is fixed when it is built (only
      existing keys are overwritten later), so it is carried separately as `keys`. */
  type Order = map<int, seq<NodeId>>

  /** Every listed layer index is a key of the ordering. */
  predicate AllIn(lis: seq<int>, order: Order) {
    forall i :: 0 <= i < |lis| ==> lis[i] in order
  }

  /** The neighbours of `v` in link order: the sources of the links into `v` (upward) or the targets of the links out
      of `v` (downward). */
  function Neighbors(links: seq<Link>, v: NodeId, upward: bool): (r: seq<NodeId>)
    ensures |r| <= |links|
  {
    if links == [] then []
    else
      var l := links[|links| - 1];
      Neighbors(links[..|links| - 1], v, upward)
      + (if upward && l.target == v then [l.source] else if !upward && l.source == v then [l.target] else [])
  }

  /** The neighbour list of v in a predecessor or successor dict, empty when v has none. */
  function GetL(m: map<NodeId, seq<NodeId>>, v: NodeId): seq<NodeId> {
    if v in m then m[v] else []
  }

  ghost predicate Adjacency(preds: map<NodeId, seq<NodeId>>, succs: map<NodeId, seq<NodeId>>, links: seq<Link>) {
    && (forall v :: GetL(preds, v) == Neighbors(links, v, true))
    && (forall v :: GetL(succs, v) == Neighbors(links, v, false))
  }

  /** The adjacency loop: preds and succs list the neighbours of every node in link order. */
  method BuildAdjacency(links: seq<Link>) returns (preds: map<NodeId, seq<NodeId>>, succs: map<NodeId, seq<NodeId>>)
    ensures Adjacency(preds, succs, links)
  {
    preds, succs := map[], map[];
    for i := 0 to |links|
      invariant Adjacency(preds, succs, links[..i])
    {
      var l := links[i];
      AdjacencyStep(preds, succs, links, i);
      preds := preds[l.target := GetL(preds, l.target) + [l.source]];
      succs := succs[l.source := GetL(succs, l.source) + [l.target]];
    }
    assert links[..|links|] == links;
  }

  lemma AdjacencyStep(preds: map<NodeId, seq<NodeId>>, succs: map<NodeId, seq<NodeId>>, links: seq<Link>, i: nat)
    requires i < |links| && Adjacency(preds, succs, links[..i])
    ensures var l := links[i];
      Adjacency(preds[l.target := GetL(preds, l.target) + [l.source]],
                succs[l.source := GetL(succs, l.source) + [l.target]], links[..i + 1])
  {
    var l := links[i];
    var preds', succs' := preds[l.target := GetL(preds, l.target) + [l.source]], succs[l.source := GetL(succs, l.source) + [l.target]];
    assert links[..i + 1][..i] == links[..i];
    forall v ensures GetL(preds', v) == Neighbors(links[..i + 1], v, true) {
      assert GetL(preds, v) == Neighbors(links[..i], v, true);
    }
    forall v ensures GetL(succs', v) == Neighbors(links[..i + 1], v, false) {
      assert GetL(succs, v) == Neighbors(links[..i], v, false);
    }
  }

  /** The position of `nb` in the first layer, in key order, whose list contains it. */
  function PositionIn(keys: seq<int>, order: Order, nb: NodeId): Option<nat> {
    if keys == [] then None
    else if keys[0] in order && nb in order[keys[0]] then IndexOf(order[keys[0]], nb)
    else PositionIn(keys[1..], order, nb)
  }

  /** A neighbour is found exactly when some layer holds it; it is then found at its first place in the first such
      layer, in key order. */
  lemma {:induction false} PositionInSpec(keys: seq<int>, order: Order, nb: NodeId)
    ensures PositionIn(keys, order, nb).None? <==> forall k :: k in keys && k in order ==> nb !in order[k]
    ensures PositionIn(keys, order, nb).Some? ==>
      exists i :: 0 <= i < |keys| && keys[i] in order
        && (forall j :: 0 <= j < i && keys[j] in order ==> nb !in order[keys[j]])
        && PositionIn(keys, order, nb).value < |order[keys[i]]|
        && order[keys[i]][PositionIn(keys, order, nb).value] == nb
        && nb !in order[keys[i]][..PositionIn(keys, order, nb).value]
  {
    if keys != [] {
      PositionInSpec(keys[1..], order, nb);
      assert forall k :: k in keys ==> k == keys[0] || k in keys[1..];
      if !(keys[0] in order && nb in order[keys[0]]) && PositionIn(keys, order, nb).Some? {
        var p := PositionIn(keys, order, nb).value;
        var i :| 0 <= i < |keys[1..]| && keys[1..][i] in order
          && (forall j :: 0 <= j < i && keys[1..][j] in order ==> nb !in order[keys[1..][j]])
          && p < |order[keys[1..][i]]| && order[keys[1..][i]][p] == nb && nb !in order[keys[1..][i]][..p];
        assert keys[i + 1] == keys[1..][i];
        forall j | 0 <= j < i + 1 && keys[j] in order ensures nb !in order[keys[j]] {
          if j > 0 { assert keys[j] == keys[1..][j - 1]; }
        }
      }
    }
  }

  /** The inner search over `order.items()`, stopping at the first layer that holds `nb`. */
  method FindPosition(keys: seq<int>, order: Order, nb: NodeId) returns (p: Option<nat>)
    requires AllIn(keys, order)
    ensures p == PositionIn(keys, order, nb)
  {
    p := None;
    var i := 0;
    while i < |keys|
      invariant 0 <= i <= |keys|
      invariant PositionIn(keys, order, nb) == PositionIn(keys[i..], order, nb)
    {
      var lst := order[keys[i]];
      if nb in lst {
        p := IndexOf(lst, nb);
        return;
      }
      assert keys[i..][1..] == keys[i + 1..];
      i := i + 1;
    }
  }

  /** The sum of the positions of the neighbours found in some layer, and how many were found. */
  function Found(keys: seq<int>, order: Order, nbrs: seq<NodeId>): (r: (real, nat))
    ensures r.1 <= |nbrs|
  {
    if nbrs == [] then (0.0, 0)
    else
      var prev := Found(keys, order, nbrs[..|nbrs| - 1]);
      match PositionIn(keys, order, nbrs[|nbrs| - 1])
      case Some(p) => (prev.0 + p as real, prev.1 + 1)
      case None => prev
  }

  /** No neighbour is counted exactly when none of them is in any layer. */
  lemma {:induction false} FoundNone(keys: seq<int>, order: Order, nbrs: seq<NodeId>)
    ensures Found(keys, order, nbrs).1 == 0 <==> forall i :: 0 <= i < |nbrs| ==> PositionIn(keys, order, nbrs[i]).None?
  {
    if nbrs != [] {
      FoundNone(keys, order, nbrs[..|nbrs| - 1]);
      assert forall i :: 0 <= i < |nbrs| - 1 ==> nbrs[..|nbrs| - 1][i] == nbrs[i];
    }
  }

  lemma FoundStep(keys: seq<int>, order: Order, nbrs: seq<NodeId>, i: nat)
    requires i < |nbrs|
    ensures var prev := Found(keys, order, nbrs[..i]);
      Found(keys, order, nbrs[..i + 1]) ==
        match PositionIn(keys, order, nbrs[i])
        case Some(p) => (prev.0 + p as real, prev.1 + 1)
        case None => prev
  {
    assert nbrs[..i + 1][..i] == nbrs[..i];
  }

  /** The barycenter of a node: the mean position of its neighbours that are found in some layer, or None. */
  function Barycenter(keys: seq<int>, order: Order, nbrs: seq<NodeId>): Option<real> {
    if nbrs == [] then None
    else
      var f := Found(keys, order, nbrs);
      if f.1 == 0 then None else Some(f.0 / f.1 as real)
  }

  /** A node has no barycenter exactly when none of its neighbours is in any layer (in particular when it has no
      neighbour). */
  lemma BarycenterNone(keys: seq<int>, order: Order, nbrs: seq<NodeId>)
    ensures Barycenter(keys, order, nbrs).None? <==>
      forall i :: 0 <= i < |nbrs| ==> forall k :: k in keys && k in order ==> nbrs[i] !in order[k]
  {
    FoundNone(keys, order, nbrs);
    forall i | 0 <= i < |nbrs| {
      PositionInSpec(keys, order, nbrs[i]);
    }
  }

  /** The weight loop for one node with neighbours: `s` and `c` accumulate the positions found. */
  method ComputeWeight(keys: seq<int>, order: Order, nbrs: seq<NodeId>) returns (w: Option<real>)
    requires AllIn(keys, order) && nbrs != []
    ensures w == Barycenter(keys, order, nbrs)
  {
    var s, c := 0.0, 0;
    for i := 0 to |nbrs|
      invariant (s, c) == Found(keys, order, nbrs[..i])
    {
      var p := FindPosition(keys, order, nbrs[i]);
      FoundStep(keys, order, nbrs, i);
      if p.Some? {
        s := s + p.value as real;
        c := c + 1;
      }
    }
    assert nbrs[..|nbrs|] == nbrs;
    w := if c != 0 then Some(s / c as real) else None;
  }

  /** A node with a barycenter, with its position in the layer before the reordering. */
  datatype Weighted = Weighted(pos: nat, id: NodeId, w: real)

  /** The nodes that have a barycenter, in layer order, each with its position and weight. */
  function Has(ids: seq<NodeId>, ws: seq<Option<real>>): (r: seq<Weighted>)
    requires |ws| == |ids|
    ensures forall i :: 0 <= i < |r| ==> r[i].pos < |ids| && ids[r[i].pos] == r[i].id && ws[r[i].pos] == Some(r[i].w)
    ensures forall i, j :: 0 <= i < j < |r| ==> r[i].pos < r[j].pos
  {
    if ids == [] then []
    else
      var n := |ids| - 1;
      Has(ids[..n], ws[..n]) + (if ws[n].Some? then [Weighted(n, ids[n], ws[n].value)] else [])
  }

  /** Every position that has a barycenter appears in Has. */
  lemma {:induction false} HasComplete(ids: seq<NodeId>, ws: seq<Option<real>>, p: nat)
    requires |ws| == |ids| && p < |ids| && ws[p].Some?
    ensures exists i :: 0 <= i < |Has(ids, ws)| && Has(ids, ws)[i].pos == p
  {
    var n := |ids| - 1;
    var h := Has(ids[..n], ws[..n]);
    if p == n {
      assert Has(ids, ws)[|h|].pos == p;
    } else {
      assert ws[..n][p] == ws[p];
      HasComplete(ids[..n], ws[..n], p);
      var i :| 0 <= i < |h| && h[i].pos == p;
      assert Has(ids, ws)[i] == h[i];
    }
  }

  predicate Unweighted(w: Option<real>) {
    w.None?
  }

  /** The nodes without a barycenter, in layer order: the ids at the positions without one. */
  function NotHas(ids: seq<NodeId>, ws: seq<Option<real>>): (r: seq<NodeId>)
    requires |ws| == |ids|
    ensures |r| == |Positions(ws, Unweighted)|
    ensures forall i :: 0 <= i < |r| ==> r[i] == ids[Positions(ws, Unweighted)[i]]
  {
    if ids == [] then []
    else
      var n := |ids| - 1;
      var t := NotHas(ids[..n], ws[..n]);
      assert Positions(ws, Unweighted) == Positions(ws[..n], Unweighted) + (if ws[n].None? then [n] else []);
      assert forall i :: 0 <= i < |t| ==> t[i] == ids[Positions(ws, Unweighted)[i]];
      t + (if ws[n].None? then [ids[n]] else [])
  }

  function IdsOf(s: seq<Weighted>): (r: seq<NodeId>)
    ensures |r| == |s| && forall i :: 0 <= i < |s| ==> r[i] == s[i].id
  {
    MapSeq(s, (e: Weighted) => e.id)
  }

  /** One step of a stable insertion by weight: `x` goes after every element whose weight is not larger. */
  function Insert(s: seq<Weighted>, x: Weighted): (r: seq<Weighted>)
    ensures |r| == |s| + 1
    ensures multiset(r) == multiset(s) + multiset{x}
  {
    if s == [] || s[|s| - 1].w <= x.w then s + [x]
    else
      assert s == s[..|s| - 1] + [s[|s| - 1]];
      Insert(s[..|s| - 1], x) + [s[|s| - 1]]
  }

  /** The weighted nodes sorted by weight; the sort is stable, so equal weights keep their order. */
  function SortByWeight(s: seq<Weighted>): (r: seq<Weighted>)
    ensures multiset(r) == multiset(s)
  {
    if s == [] then []
    else
      assert s == s[..|s| - 1] + [s[|s| - 1]];
      Insert(SortByWeight(s[..|s| - 1]), s[|s| - 1])
  }

  /** `a` comes before `b`: a smaller weight, or the same weight and an earlier original position. */
  predicate Precedes(a: Weighted, b: Weighted) {
    a.w < b.w || (a.w == b.w && a.pos < b.pos)
  }

  /** Ascending by weight; equal weights keep their original order. */
  predicate SortedStable(s: seq<Weighted>) {
    forall i, j :: 0 <= i < j < |s| ==> Precedes(s[i], s[j])
  }

  lemma AppendSorted(r: seq<Weighted>, y: Weighted)
    requires SortedStable(r) && forall e :: e in r ==> Precedes(e, y)
    ensures SortedStable(r + [y])
  {
    forall i, j | 0 <= i < j < |r + [y]| ensures Precedes((r + [y])[i], (r + [y])[j]) {
      assert (r + [y])[i] == r[i];
      if j == |r| { assert r[i] in r; } else { assert (r + [y])[j] == r[j]; }
    }
  }

  lemma {:induction false} InsertSorted(s: seq<Weighted>, x: Weighted)
    requires SortedStable(s)
    requires forall e :: e in s ==> e.pos < x.pos
    ensures SortedStable(Insert(s, x))
    ensures multiset(IdsOf(Insert(s, x))) == multiset(IdsOf(s)) + multiset{x.id}
  {
    if s == [] || s[|s| - 1].w <= x.w {
      assert IdsOf(s + [x]) == IdsOf(s) + [x.id];
      forall e | e in s ensures Precedes(e, x) {
        var k :| 0 <= k < |s| && s[k] == e;
        assert k == |s| - 1 || Precedes(s[k], s[|s| - 1]);
      }
      AppendSorted(s, x);
    } else {
      var init, last := s[..|s| - 1], s[|s| - 1];
      assert forall e :: e in init ==> e in s;
      InsertSorted(init, x);
      var r := Insert(init, x);
      InsertBelowLast(s, x);
      AppendSorted(r, last);
      assert IdsOf(r + [last]) == IdsOf(r) + [last.id];
      assert IdsOf(s) == IdsOf(init) + [last.id];
    }
  }

  /** When `x` goes before the last element, everything inserted before it stays below it. */
  lemma InsertBelowLast(s: seq<Weighted>, x: Weighted)
    requires SortedStable(s) && s != [] && s[|s| - 1].w > x.w
    ensures var r := Insert(s[..|s| - 1], x);
      forall e :: e in r ==> Precedes(e, s[|s| - 1])
  {
    var init, last := s[..|s| - 1], s[|s| - 1];
    var r := Insert(init, x);
    forall e | e in r ensures Precedes(e, last) {
      assert e in multiset(r);
      if e != x {
        assert e in multiset(init);
        var k :| 0 <= k < |init| && init[k] == e;
        assert s[k] == e;
      }
    }
  }

  /** The sorted list is stably sorted and lists the same ids. */
  lemma {:induction false} SortSorted(s: seq<Weighted>)
    requires forall i, j :: 0 <= i < j < |s| ==> s[i].pos < s[j].pos
    ensures SortedStable(SortByWeight(s))
    ensures multiset(IdsOf(SortByWeight(s))) == multiset(IdsOf(s))
  {
    if s != [] {
      var init, last := s[..|s| - 1], s[|s| - 1];
      SortSorted(init);
      var r := SortByWeight(init);
      SortedBelow(init, last);
      InsertSorted(r, last);
      assert IdsOf(s) == IdsOf(init) + [last.id];
    }
  }

  lemma SortedBelow(init: seq<Weighted>, last: Weighted)
    requires forall i :: 0 <= i < |init| ==> init[i].pos < last.pos
    ensures forall e :: e in SortByWeight(init) ==> e.pos < last.pos
  {
    forall e | e in SortByWeight(init) ensures e.pos < last.pos {
      assert e in multiset(SortByWeight(init));
      assert e in multiset(init);
    }
  }

  /** The new order of one layer: the nodes with a barycenter sorted by it, then the others. */
  function Reordered(ids: seq<NodeId>, ws: seq<Option<real>>): seq<NodeId>
    requires |ws| == |ids|
  {
    IdsOf(SortByWeight(Has(ids, ws))) + NotHas(ids, ws)
  }

  lemma {:induction false} SplitByWeight(ids: seq<NodeId>, ws: seq<Option<real>>)
    requires |ws| == |ids|
    ensures multiset(IdsOf(Has(ids, ws))) + multiset(NotHas(ids, ws)) == multiset(ids)
  {
    if ids != [] {
      var n := |ids| - 1;
      SplitByWeight(ids[..n], ws[..n]);
      assert multiset(ids) == multiset(ids[..n]) + multiset{ids[n]} by {
        assert ids == ids[..n] + [ids[n]];
      }
      var h := Has(ids[..n], ws[..n]);
      if ws[n].Some? {
        assert Has(ids, ws) == h + [Weighted(n, ids[n], ws[n].value)];
        assert IdsOf(Has(ids, ws)) == IdsOf(h) + [ids[n]];
        assert NotHas(ids, ws) == NotHas(ids[..n], ws[..n]);
      } else {
        assert Has(ids, ws) == h;
        assert NotHas(ids, ws) == NotHas(ids[..n], ws[..n]) + [ids[n]];
      }
    }
  }

  /** A reordering step: the weighted nodes come first, ascending by barycenter and stable among equal barycenters;
      the unweighted nodes follow in their original order; and the layer is a permutation of what it was. */
  lemma ReorderedSpec(ids: seq<NodeId>, ws: seq<Option<real>>)
    requires |ws| == |ids|
    ensures var h := SortByWeight(Has(ids, ws));
      var r := Reordered(ids, ws);
      && |h| <= |r|
      && (forall i :: 0 <= i < |h| ==> h[i].pos < |ids| && r[i] == ids[h[i].pos] && ws[h[i].pos] == Some(h[i].w))
      && SortedStable(h)
      && r[|h|..] == NotHas(ids, ws)
      && multiset(r) == multiset(ids)
  {
    var has := Has(ids, ws);
    var h := SortByWeight(has);
    SortSorted(has);
    SplitByWeight(ids, ws);
    forall i | 0 <= i < |h| ensures h[i].pos < |ids| && ids[h[i].pos] == h[i].id && ws[h[i].pos] == Some(h[i].w) {
      assert h[i] in multiset(has);
    }
  }

  /** The barycenter weights of the ids of one layer. */
  function Weights(keys: seq<int>, order: Order, links: seq<Link>, ids: seq<NodeId>, upward: bool): (r: seq<Option<real>>)
    ensures |r| == |ids|
  {
    seq(|ids|, i requires 0 <= i < |ids| => Barycenter(keys, order, Neighbors(links, ids[i], upward)))
  }

  /** One barycenter step on a layer: the layer's list is replaced by its reordering. */
  function Step(keys: seq<int>, order: Order, links: seq<Link>, li: int, upward: bool): (r: Order)
    requires li in order
    ensures r.Keys == order.Keys
    ensures forall k :: k in r && k != li ==> r[k] == order[k]
    ensures multiset(r[li]) == multiset(order[li])
  {
    var ids := order[li];
    ReorderedSpec(ids, Weights(keys, order, links, ids, upward));
    order[li := Reordered(ids, Weights(keys, order, links, ids, upward))]
  }

  /** The barycenter weights of one layer, filled node by node. */
  method ComputeWeights(keys: seq<int>, order: Order, preds: map<NodeId, seq<NodeId>>, succs: map<NodeId, seq<NodeId>>,
                        ghost links: seq<Link>, ids: seq<NodeId>, upward: bool) returns (weights: map<NodeId, Option<real>>)
    requires AllIn(keys, order) && Adjacency(preds, succs, links)
    ensures forall i :: 0 <= i < |ids| ==> ids[i] in weights
    ensures forall v :: v in weights ==> weights[v] == Barycenter(keys, order, Neighbors(links, v, upward))
  {
    weights := map[];
    for i := 0 to |ids|
      invariant forall v :: v in weights ==> weights[v] == Barycenter(keys, order, Neighbors(links, v, upward))
      invariant forall j :: 0 <= j < i ==> ids[j] in weights
    {
      var nid := ids[i];
      var neighbors := if upward then GetL(preds, nid) else GetL(succs, nid);
      assert neighbors == Neighbors(links, nid, upward);
      if neighbors == [] {
        weights := weights[nid := None];
        continue;
      }
      var w := ComputeWeight(keys, order, neighbors);
      weights := weights[nid := w];
    }
  }

  /** The barycenter step as a loop: the layer's list is replaced by its reordering. */
  method Reorder(keys: seq<int>, order: Order, preds: map<NodeId, seq<NodeId>>, succs: map<NodeId, seq<NodeId>>,
                 ghost links: seq<Link>, li: int, upward: bool) returns (r: Order)
    requires AllIn(keys, order) && li in order
    requires Adjacency(preds, succs, links)
    ensures r == Step(keys, order, links, li, upward)
  {
    var ids := order[li];
    var weights := ComputeWeights(keys, order, preds, succs, links, ids, upward);
    var withB := seq(|ids|, i requires 0 <= i < |ids| => weights[ids[i]]);
    assert withB == Weights(keys, order, links, ids, upward);
    r := order[li := Reordered(ids, withB)];
  }

  /** One sweep: a step for each layer index of `lis`, in that order. */
  function Sweep(keys: seq<int>, order: Order, links: seq<Link>, lis: seq<int>, upward: bool): (r: Order)
    requires AllIn(lis, order)
    ensures r.Keys == order.Keys
  {
    if lis == [] then order
    else
      var prev := Sweep(keys, order, links, lis[..|lis| - 1], upward);
      Step(keys, prev, links, lis[|lis| - 1], upward)
  }

  function Reverse(s: seq<int>): (r: seq<int>)
    ensures |r| == |s| && forall i :: 0 <= i < |s| ==> r[i] == s[|s| - 1 - i]
  {
    if s == [] then [] else [s[|s| - 1]] + Reverse(s[..|s| - 1])
  }

  /** The layers of the top-down sweep: every layer index but the first, ascending. */
  function TopDown(lis: seq<int>): seq<int> {
    if lis == [] then [] else lis[1..]
  }

  /** The layers of the bottom-up sweep: every layer index but the last, descending. */
  function BottomUp(lis: seq<int>): seq<int> {
    if lis == [] then [] else Reverse(lis[..|lis| - 1])
  }

  /** One iteration: the top-down sweep with predecessors, then the bottom-up sweep with successors. */
  function Round(keys: seq<int>, order: Order, links: seq<Link>, lis: seq<int>): (r: Order)
    requires AllIn(lis, order)
    ensures r.Keys == order.Keys
  {
    var down := Sweep(keys, order, links, TopDown(lis), true);
    Sweep(keys, down, links, BottomUp(lis), false)
  }

  function Rounds(keys: seq<int>, order: Order, links: seq<Link>, lis: seq<int>, n: int): (r: Order)
    requires AllIn(lis, order)
    ensures r.Keys == order.Keys
    decreases n
  {
    if n <= 0 then order else Round(keys, Rounds(keys, order, links, lis, n - 1), links, lis)
  }

  /** The ids of a layer's nodes, in order. */
  function NodeIds(nodes: seq<Node>): (r: seq<NodeId>)
    ensures |r| == |nodes| && forall i :: 0 <= i < |nodes| ==> r[i] == nodes[i].id
  {
    MapSeq(nodes, (n: Node) => n.id)
  }

  /** The initial ordering: each layer's node ids in group order. */
  function Initial(layers: ODict<int, seq<Node>>): (r: Order)
    ensures r.Keys == layers.entries.Keys
  {
    map k | k in layers.entries :: NodeIds(layers.entries[k])
  }

  function InsertInt(s: seq<int>, x: int): (r: seq<int>)
    ensures |r| == |s| + 1 && multiset(r) == multiset(s) + multiset{x}
  {
    if s == [] || s[|s| - 1] <= x then s + [x]
    else
      assert s == s[..|s| - 1] + [s[|s| - 1]];
      InsertInt(s[..|s| - 1], x) + [s[|s| - 1]]
  }

  predicate Increasing(s: seq<int>) {
    forall i, j :: 0 <= i < j < |s| ==> s[i] < s[j]
  }

  lemma {:induction false} InsertIntIncreasing(s: seq<int>, x: int)
    requires Increasing(s) && x !in s
    ensures Increasing(InsertInt(s, x))
  {
    if s != [] && s[|s| - 1] > x {
      var init, last := s[..|s| - 1], s[|s| - 1];
      assert x !in init by { assert forall e :: e in init ==> e in s; }
      InsertIntIncreasing(init, x);
      IntBelowLast(init, last, x);
      AppendIncreasing(InsertInt(init, x), last);
    }
  }

  lemma IntBelowLast(init: seq<int>, last: int, x: int)
    requires x < last && forall k :: 0 <= k < |init| ==> init[k] < last
    ensures forall i :: 0 <= i < |InsertInt(init, x)| ==> InsertInt(init, x)[i] < last
  {
    var r := InsertInt(init, x);
    forall i | 0 <= i < |r| ensures r[i] < last {
      assert r[i] in multiset(r);
    }
  }

  lemma AppendIncreasing(r: seq<int>, y: int)
    requires Increasing(r) && forall i :: 0 <= i < |r| ==> r[i] < y
    ensures Increasing(r + [y])
  {
    forall i, j | 0 <= i < j < |r + [y]| ensures (r + [y])[i] < (r + [y])[j] {
      assert (r + [y])[i] == r[i];
    }
  }

  /** The layer indices, ascending. */
  function SortInts(s: seq<int>): (r: seq<int>)
    ensures multiset(r) == multiset(s)
  {
    if s == [] then []
    else
      assert s == s[..|s| - 1] + [s[|s| - 1]];
      InsertInt(SortInts(s[..|s| - 1]), s[|s| - 1])
  }

  /** Distinct keys come out strictly ascending. */
  lemma {:induction false} SortIntsIncreasing(s: seq<int>)
    requires forall i, j :: 0 <= i < j < |s| ==> s[i] != s[j]
    ensures Increasing(SortInts(s))
  {
    if s != [] {
      var init, last := s[..|s| - 1], s[|s| - 1];
      SortIntsIncreasing(init);
      assert last !in multiset(init);
      assert last !in multiset(SortInts(init));
      InsertIntIncreasing(SortInts(init), last);
    }
  }

  /** The ordering barycenter_ordering computes, with the key order of the layer dict. */
  function Ordered(layers: ODict<int, seq<Node>>, links: seq<Link>, iterations: int): (r: ODict<int, seq<NodeId>>)
    requires layers.Valid()
  {
    var order := Initial(layers);
    LayerIndicesKnown(layers);
    ODict(layers.keys, Rounds(layers.keys, order, links, SortInts(layers.keys), iterations))
  }

  lemma LayerIndicesKnown(layers: ODict<int, seq<Node>>)
    requires layers.Valid()
    ensures AllIn(layers.keys, Initial(layers)) && AllIn(SortInts(layers.keys), Initial(layers))
  {
    var lis := SortInts(layers.keys);
    assert forall i :: 0 <= i < |layers.keys| ==> layers.keys[i] in layers.entries;
    forall i | 0 <= i < |lis| ensures lis[i] in layers.entries {
      assert lis[i] in multiset(layers.keys);
    }
  }

  /** Every layer of the result is a permutation of the same layer before. */
  ghost predicate SameLayers(r: Order, order: Order) {
    && r.Keys == order.Keys
    && forall k :: k in r ==> multiset(r[k]) == multiset(order[k])
  }

  lemma SameLayersTrans(a: Order, b: Order, c: Order)
    requires SameLayers(a, b) && SameLayers(b, c)
    ensures SameLayers(a, c)
  {
  }

  lemma {:induction false} SweepPermutes(keys: seq<int>, order: Order, links: seq<Link>, lis: seq<int>, upward: bool)
    requires AllIn(lis, order)
    ensures SameLayers(Sweep(keys, order, links, lis, upward), order)
  {
    if lis != [] {
      SweepPermutes(keys, order, links, lis[..|lis| - 1], upward);
    }
  }

  lemma RoundPermutes(keys: seq<int>, order: Order, links: seq<Link>, lis: seq<int>)
    requires AllIn(lis, order)
    ensures SameLayers(Round(keys, order, links, lis), order)
  {
    var down := Sweep(keys, order, links, TopDown(lis), true);
    SweepPermutes(keys, order, links, TopDown(lis), true);
    SweepPermutes(keys, down, links, BottomUp(lis), false);
    SameLayersTrans(Sweep(keys, down, links, BottomUp(lis), false), down, order);
  }

  lemma {:induction false} RoundsPermute(keys: seq<int>, order: Order, links: seq<Link>, lis: seq<int>, n: int)
    requires AllIn(lis, order)
    ensures SameLayers(Rounds(keys, order, links, lis, n), order)
    decreases n
  {
    if n > 0 {
      var prev := Rounds(keys, order, links, lis, n - 1);
      RoundsPermute(keys, order, links, lis, n - 1);
      RoundPermutes(keys, prev, links, lis);
      SameLayersTrans(Round(keys, prev, links, lis), prev, order);
    }
  }

  /** A sweep leaves every layer it does not visit as it was. */
  lemma {:induction false} SweepUntouched(keys: seq<int>, order: Order, links: seq<Link>, lis: seq<int>, upward: bool, k: int)
    requires AllIn(lis, order)
    requires k in order && k !in lis
    ensures Sweep(keys, order, links, lis, upward)[k] == order[k]
  {
    if lis != [] {
      assert lis[..|lis| - 1] + [lis[|lis| - 1]] == lis;
      SweepUntouched(keys, order, links, lis[..|lis| - 1], upward, k);
    }
  }

  /** The sorted layer indices: every key once, ascending. */
  lemma LayerIndicesSorted(keys: seq<int>, order: Order)
    requires AllIn(keys, order) && forall i, j :: 0 <= i < j < |keys| ==> keys[i] != keys[j]
    ensures var lis := SortInts(keys);
      && AllIn(lis, order) && Increasing(lis) && |lis| == |keys|
      && forall k :: k in keys ==> k in lis
  {
    var lis := SortInts(keys);
    SortIntsIncreasing(keys);
    assert |lis| == |keys| by {
      assert |multiset(lis)| == |multiset(keys)|;
    }
    forall i | 0 <= i < |lis| ensures lis[i] in order {
      assert lis[i] in multiset(keys);
    }
    forall k | k in keys ensures k in lis {
      assert k in multiset(keys);
    }
  }

  lemma TopDownIn(lis: seq<int>, order: Order)
    requires AllIn(lis, order)
    ensures AllIn(TopDown(lis), order)
  {
    forall i | 0 <= i < |TopDown(lis)| ensures TopDown(lis)[i] in order {
      assert TopDown(lis)[i] == lis[i + 1];
    }
  }

  lemma BottomUpIn(lis: seq<int>, order: Order)
    requires AllIn(lis, order)
    ensures AllIn(BottomUp(lis), order)
  {
    forall i | 0 <= i < |BottomUp(lis)| ensures BottomUp(lis)[i] in order {
      assert BottomUp(lis)[i] == lis[|lis| - 2 - i];
    }
  }

  /** The top-down sweep never touches the smallest layer. */
  lemma TopDownKeepsFirst(keys: seq<int>, order: Order, links: seq<Link>)
    requires AllIn(keys, order) && keys != [] && forall i, j :: 0 <= i < j < |keys| ==> keys[i] != keys[j]
    ensures var lis := SortInts(keys);
      && AllIn(lis, order) && lis != []
      && (forall k :: k in keys ==> lis[0] <= k)
      && Sweep(keys, order, links, TopDown(lis), true)[lis[0]] == order[lis[0]]
  {
    var lis := SortInts(keys);
    LayerIndicesSorted(keys, order);
    forall k | k in keys ensures lis[0] <= k {
      var i :| 0 <= i < |lis| && lis[i] == k;
    }
    assert lis[0] !in TopDown(lis);
    TopDownIn(lis, order);
    SweepUntouched(keys, order, links, TopDown(lis), true, lis[0]);
  }

  lemma LastNotInBottomUp(lis: seq<int>)
    requires lis != [] && Increasing(lis)
    ensures lis[|lis| - 1] !in BottomUp(lis)
  {
  }

  /** The bottom-up sweep never touches the largest layer. */
  lemma BottomUpKeepsLast(keys: seq<int>, order: Order, links: seq<Link>)
    requires AllIn(keys, order) && keys != [] && forall i, j :: 0 <= i < j < |keys| ==> keys[i] != keys[j]
    ensures var lis := SortInts(keys);
      && AllIn(lis, order) && lis != []
      && (forall k :: k in keys ==> k <= lis[|lis| - 1])
      && Sweep(keys, order, links, BottomUp(lis), false)[lis[|lis| - 1]] == order[lis[|lis| - 1]]
  {
    var lis := SortInts(keys);
    LayerIndicesSorted(keys, order);
    var last := lis[|lis| - 1];
    forall k | k in keys ensures k <= last {
      var i :| 0 <= i < |lis| && lis[i] == k;
    }
    LastNotInBottomUp(lis);
    BottomUpIn(lis, order);
    SweepUntouched(keys, order, links, BottomUp(lis), false, last);
  }

  /** The sweep loop over a list of layer indices. */
  method RunSweep(keys: seq<int>, order: Order, preds: map<NodeId, seq<NodeId>>, succs: map<NodeId, seq<NodeId>>,
                  ghost links: seq<Link>, lis: seq<int>, upward: bool) returns (r: Order)
    requires AllIn(keys, order) && AllIn(lis, order)
    requires Adjacency(preds, succs, links)
    ensures r == Sweep(keys, order, links, lis, upward)
  {
    r := order;
    for i := 0 to |lis|
      invariant r == Sweep(keys, order, links, lis[..i], upward)
    {
      assert lis[..i + 1][..i] == lis[..i];
      r := Reorder(keys, r, preds, succs, links, lis[i], upward);
    }
    assert lis[..|lis|] == lis;
  }

  /** What barycenter_ordering computes: the layer keys of the input in the same order, each layer a permutation of
      its node ids; with no iteration, the initial ordering. */
  lemma OrderedSpec(layers: ODict<int, seq<Node>>, links: seq<Link>, iterations: int)
    requires layers.Valid()
    ensures var order := Ordered(layers, links, iterations);
      && order.keys == layers.keys && order.entries.Keys == layers.entries.Keys
      && (forall k :: k in order.entries ==> multiset(order.entries[k]) == multiset(NodeIds(layers.entries[k])))
      && (iterations <= 0 ==> forall k :: k in order.entries ==> order.entries[k] == NodeIds(layers.entries[k]))
  {
    LayerIndicesKnown(layers);
    RoundsPermute(layers.keys, Initial(layers), links, SortInts(layers.keys), iterations);
  }

  /** No round runs when the iteration count is not positive. */
  lemma RoundsNone(keys: seq<int>, order: Order, links: seq<Link>, lis: seq<int>, n: int)
    requires AllIn(lis, order)
    ensures Rounds(keys, order, links, lis, if n < 0 then 0 else n) == Rounds(keys, order, links, lis, n)
  {
  }

  lemma SameKeys(lis: seq<int>, a: Order, b: Order)
    requires AllIn(lis, a) && a.Keys == b.Keys
    ensures AllIn(lis, b)
  {
  }

  /** One iteration of the outer loop: the top-down sweep, then the bottom-up sweep. */
  method RunRound(keys: seq<int>, order: Order, preds: map<NodeId, seq<NodeId>>, succs: map<NodeId, seq<NodeId>>,
                  ghost links: seq<Link>, lis: seq<int>) returns (r: Order)
    requires AllIn(keys, order) && AllIn(lis, order)
    requires Adjacency(preds, succs, links)
    ensures r == Round(keys, order, links, lis)
  {
    r := RunSweep(keys, order, preds, succs, links, TopDown(lis), true);
    r := RunSweep(keys, r, preds, succs, links, BottomUp(lis), false);
  }

  /** One pass of the outer loop, as the `it`-th round after the initial order. */
  method RunNextRound(keys: seq<int>, initial: Order, preds: map<NodeId, seq<NodeId>>,
                      succs: map<NodeId, seq<NodeId>>, ghost links: seq<Link>, lis: seq<int>, it: nat, order: Order)
    returns (r: Order)
    requires AllIn(keys, initial) && AllIn(lis, initial)
    requires Adjacency(preds, succs, links)
    requires order == Rounds(keys, initial, links, lis, it)
    ensures r == Rounds(keys, initial, links, lis, it + 1)
  {
    SameKeys(keys, initial, order);
    SameKeys(lis, initial, order);
    r := RunRound(keys, order, preds, succs, links, lis);
  }

  /** The outer loop: `iterations` rounds of sweeps. */
  method RunRounds(keys: seq<int>, initial: Order, preds: map<NodeId, seq<NodeId>>, succs: map<NodeId, seq<NodeId>>,
                   ghost links: seq<Link>, lis: seq<int>, iterations: int) returns (order: Order)
    requires AllIn(keys, initial) && AllIn(lis, initial)
    requires Adjacency(preds, succs, links)
    ensures order == Rounds(keys, initial, links, lis, iterations)
  {
    order := initial;
    var it := 0;
    while it < iterations
      invariant 0 <= it <= (if iterations < 0 then 0 else iterations)
      invariant order == Rounds(keys, initial, links, lis, it)
    {
      order := RunNextRound(keys, initial, preds, succs, links, lis, it, order);
      it := it + 1;
    }
    assert it == (if iterations < 0 then 0 else iterations);
    RoundsNone(keys, initial, links, lis, iterations);
  }

  /** barycenter_ordering. */
  method BarycenterOrdering(layers: ODict<int, seq<Node>>, links: seq<Link>, iterations: int)
    returns (result: ODict<int, seq<NodeId>>)
    requires layers.Valid()
    ensures result == Ordered(layers, links, iterations)
  {
    var preds, succs := BuildAdjacency(links);
    var order := Initial(layers);
    LayerIndicesKnown(layers);
    var layerIndices := SortInts(layers.keys);
    order := RunRounds(layers.keys, order, preds, succs, links, layerIndices, iterations);
    result := ODict(layers.keys, order);
  }
}
