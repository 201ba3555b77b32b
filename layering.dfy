/** Layer inference: explicit layers when every node has one, otherwise longest-path layering by Kahn-style
    propagation over the links between known nodes, a fallback of 0, and a shift that makes the minimum 0. */
module Layering {
  import opened Wrappers
  import opened Graph

  /** The first pass: every id gets the explicit layer of the last node with that id, or None. */
  function ExplicitLayers(nodes: seq<Node>, segments: Option<seq<string>>): (m: map<NodeId, Option<int>>)
    ensures m.Keys == Ids(nodes)
  {
    if nodes == [] then map[]
    else
      var init, last := nodes[..|nodes| - 1], nodes[|nodes| - 1];
      assert Ids(nodes) == Ids(init) + {last.id} by {
        assert forall i :: 0 <= i < |init| ==> init[i] == nodes[i];
      }
      ExplicitLayers(init, segments)[last.id := NodeLayer(last, segments)]
  }

  predicate AllKnown(m: map<NodeId, Option<int>>) {
    forall id :: id in m ==> m[id].Some?
  }

  type Edge = (NodeId, NodeId)

  /** The links whose both ends are nodes, as (source, target) pairs in link order. The adjacency list of a node u
      is the sequence of targets of the edges whose source is u, in this order. */
  function KnownEdges(links: seq<Link>, ids: set<NodeId>): (es: seq<Edge>)
    ensures forall k :: 0 <= k < |es| ==> es[k].0 in ids && es[k].1 in ids
  {
    if links == [] then []
    else
      var l := links[|links| - 1];
      KnownEdges(links[..|links| - 1], ids) + (if l.source in ids && l.target in ids then [(l.source, l.target)] else [])
  }

  lemma {:induction false} KnownEdgesComplete(links: seq<Link>, ids: set<NodeId>, i: nat)
    requires i < |links| && links[i].source in ids && links[i].target in ids
    ensures (links[i].source, links[i].target) in KnownEdges(links, ids)
  {
    if i < |links| - 1 {
      KnownEdgesComplete(links[..|links| - 1], ids, i);
    }
  }

  /** A ranking that strictly increases along every edge: the edge graph has no cycle. */
  ghost predicate IsRanking(rank: map<NodeId, nat>, edges: seq<Edge>) {
    forall k :: 0 <= k < |edges| ==> edges[k].0 in rank && edges[k].1 in rank && rank[edges[k].0] < rank[edges[k].1]
  }

  ghost predicate Acyclic(edges: seq<Edge>) {
    exists rank :: IsRanking(rank, edges)
  }

  /** The edges into v that have not been relaxed yet: what the in-degree counter of v counts. */
  function Pending(edges: seq<Edge>, v: NodeId, consumed: set<nat>): set<nat> {
    set k | 0 <= k < |edges| && edges[k].1 == v && k !in consumed
  }

  /** The edges relaxed once the nodes of `done` have been popped and u has relaxed its edges before index i. */
  function Relaxing(edges: seq<Edge>, done: set<NodeId>, u: NodeId, i: nat): set<nat> {
    set k | 0 <= k < |edges| && (edges[k].0 in done || (edges[k].0 == u && k < i))
  }

  function OutOf(edges: seq<Edge>, done: set<NodeId>): set<nat> {
    set k | 0 <= k < |edges| && edges[k].0 in done
  }

  function Get(m: map<NodeId, int>, v: NodeId): int {
    if v in m then m[v] else 0
  }

  /** The ids of the nodes, each once, in the order of first occurrence (the keys of the node map). */
  method DistinctIds(nodes: seq<Node>) returns (order: seq<NodeId>)
    ensures forall i, j :: 0 <= i < j < |order| ==> order[i] != order[j]
    ensures forall v :: v in order <==> v in Ids(nodes)
  {
    order := [];
    for i := 0 to |nodes|
      invariant forall a, b :: 0 <= a < b < |order| ==> order[a] != order[b]
      invariant forall v :: v in order <==> v in Ids(nodes[..i])
    {
      assert Ids(nodes[..i + 1]) == Ids(nodes[..i]) + {nodes[i].id} by {
        assert forall k :: 0 <= k < i ==> nodes[..i + 1][k] == nodes[..i][k];
      }
      if nodes[i].id !in order {
        order := order + [nodes[i].id];
      }
    }
    assert nodes[..|nodes|] == nodes;
  }

  /** The first pass of infer_layers, as a loop over the nodes. */
  method FirstPass(nodes: seq<Node>, segments: Option<seq<string>>) returns (explicit: map<NodeId, Option<int>>)
    ensures explicit == ExplicitLayers(nodes, segments)
  {
    explicit := map[];
    for i := 0 to |nodes|
      invariant explicit == ExplicitLayers(nodes[..i], segments)
    {
      assert nodes[..i + 1][..i] == nodes[..i];
      explicit := explicit[nodes[i].id := NodeLayer(nodes[i], segments)];
    }
    assert nodes[..|nodes|] == nodes;
  }

  /** The loop that builds the adjacency and the in-degree counters. */
  method BuildInDegrees(links: seq<Link>, ids: set<NodeId>) returns (edges: seq<Edge>, indeg: map<NodeId, int>)
    ensures edges == KnownEdges(links, ids)
    ensures forall v :: Get(indeg, v) == |Pending(edges, v, {})|
  {
    edges, indeg := [], map[];
    for i := 0 to |links|
      invariant edges == KnownEdges(links[..i], ids)
      invariant forall v :: Get(indeg, v) == |Pending(edges, v, {})|
    {
      assert links[..i + 1][..i] == links[..i];
      var s, t := links[i].source, links[i].target;
      if s in ids && t in ids {
        var edges' := edges + [(s, t)];
        assert Pending(edges', t, {}) == Pending(edges, t, {}) + {|edges|};
        assert forall v :: v != t ==> Pending(edges', v, {}) == Pending(edges, v, {});
        edges := edges';
        indeg := indeg[t := Get(indeg, t) + 1];
      }
    }
    assert links[..|links|] == links;
  }

  /** Both ends of a relaxed edge have a layer, and the target's is at least one more than the source's. */
  ghost predicate Relaxed(layer: map<NodeId, Option<int>>, e: Edge) {
    e.0 in layer && e.1 in layer && layer[e.0].Some? && layer[e.1].Some? && layer[e.1].value >= layer[e.0].value + 1
  }

  /** A layer is explained by where it came from: unset, the explicit layer, 0 for a node without incoming edges,
      or one more than the layer of a predecessor along a relaxed edge. */
  ghost predicate Justified(layer: map<NodeId, Option<int>>, explicit: map<NodeId, Option<int>>, edges: seq<Edge>,
                            consumed: set<nat>, v: NodeId)
    requires v in layer && v in explicit
  {
    || layer[v].None?
    || layer[v] == explicit[v]
    || (explicit[v].None? && layer[v] == Some(0) && forall k :: 0 <= k < |edges| ==> edges[k].1 != v)
    || (exists k :: k in consumed && 0 <= k < |edges| && edges[k].1 == v && edges[k].0 in layer
         && layer[edges[k].0].Some? && layer[v].value == layer[edges[k].0].value + 1)
  }

  ghost predicate Frame(ids: set<NodeId>, explicit: map<NodeId, Option<int>>, edges: seq<Edge>,
                        layer: map<NodeId, Option<int>>) {
    && explicit.Keys == ids && layer.Keys == ids
    && (forall k :: 0 <= k < |edges| ==> edges[k].0 in ids && edges[k].1 in ids)
  }

  /** The queue holds, once each, the queued nodes not popped yet. */
  ghost predicate QueueOk(ids: set<NodeId>, q: seq<NodeId>, enq: set<NodeId>, popped: set<NodeId>) {
    && enq <= ids && popped <= enq
    && (forall a, b :: 0 <= a < b < |q| ==> q[a] != q[b])
    && (forall x :: x in q <==> x in enq && x !in popped)
  }

  /** Only edges out of popped nodes have been relaxed. */
  ghost predicate ConsumedFrom(edges: seq<Edge>, consumed: set<nat>, popped: set<NodeId>) {
    forall k :: k in consumed ==> 0 <= k < |edges| && edges[k].0 in popped
  }

  /** Each in-degree counter counts the edges still to relax into its node. */
  ghost predicate Counts(edges: seq<Edge>, indeg: map<NodeId, int>, consumed: set<nat>) {
    forall v :: Get(indeg, v) == |Pending(edges, v, consumed)|
  }

  /** A node has been queued exactly when all its incoming edges have been relaxed. */
  ghost predicate Ready(ids: set<NodeId>, edges: seq<Edge>, enq: set<NodeId>, consumed: set<nat>) {
    forall v :: v in ids ==> (v in enq <==> Pending(edges, v, consumed) == {})
  }

  ghost predicate Layered(enq: set<NodeId>, layer: map<NodeId, Option<int>>) {
    forall v :: v in enq ==> v in layer && layer[v].Some?
  }

  ghost predicate AllRelaxed(edges: seq<Edge>, consumed: set<nat>, layer: map<NodeId, Option<int>>) {
    forall k :: k in consumed ==> 0 <= k < |edges| && Relaxed(layer, edges[k])
  }

  /** Explicit layers are only ever raised. */
  ghost predicate Raised(ids: set<NodeId>, explicit: map<NodeId, Option<int>>, layer: map<NodeId, Option<int>>) {
    forall v :: v in ids && v in explicit && v in layer && explicit[v].Some? ==>
      layer[v].Some? && layer[v].value >= explicit[v].value
  }

  /** A node is still unset exactly when it has no explicit layer, was never queued and no edge into it was relaxed. */
  ghost predicate Unset(ids: set<NodeId>, explicit: map<NodeId, Option<int>>, edges: seq<Edge>, enq: set<NodeId>,
                        consumed: set<nat>, layer: map<NodeId, Option<int>>) {
    forall v :: v in ids && v in explicit && v in layer ==>
      (layer[v].None? <==> explicit[v].None? && v !in enq && forall k :: k in consumed && 0 <= k < |edges| ==> edges[k].1 != v)
  }

  /** The state of the propagation loop. `popped` are the nodes taken off the queue (including the one whose edges are
      being relaxed), `enq` every node ever queued, `consumed` the indices of the relaxed edges. */
  ghost predicate Core(ids: set<NodeId>, explicit: map<NodeId, Option<int>>, edges: seq<Edge>, q: seq<NodeId>,
                       enq: set<NodeId>, popped: set<NodeId>, consumed: set<nat>, indeg: map<NodeId, int>,
                       layer: map<NodeId, Option<int>>)
  {
    && Frame(ids, explicit, edges, layer)
    && QueueOk(ids, q, enq, popped)
    && ConsumedFrom(edges, consumed, popped)
    && Counts(edges, indeg, consumed)
    && Ready(ids, edges, enq, consumed)
    && Layered(enq, layer)
    && AllRelaxed(edges, consumed, layer)
    && Raised(ids, explicit, layer)
    && Unset(ids, explicit, edges, enq, consumed, layer)
  }

  ghost predicate AllJustified(ids: set<NodeId>, explicit: map<NodeId, Option<int>>, edges: seq<Edge>,
                               consumed: set<nat>, layer: map<NodeId, Option<int>>)
  {
    && explicit.Keys == ids && layer.Keys == ids
    && forall v :: v in ids ==> Justified(layer, explicit, edges, consumed, v)
  }

  /** The seeding loop: every node without incoming edges is queued, in node order, with layer 0 unless explicit. */
  method Seed(ids: set<NodeId>, order: seq<NodeId>, explicit: map<NodeId, Option<int>>, edges: seq<Edge>,
              indeg: map<NodeId, int>)
    returns (q: seq<NodeId>, ghost enq: set<NodeId>, layer: map<NodeId, Option<int>>)
    requires forall i, j :: 0 <= i < j < |order| ==> order[i] != order[j]
    requires forall v :: v in order <==> v in ids
    requires explicit.Keys == ids
    requires forall k :: 0 <= k < |edges| ==> edges[k].0 in ids && edges[k].1 in ids
    requires forall v :: Get(indeg, v) == |Pending(edges, v, {})|
    ensures Core(ids, explicit, edges, q, enq, {}, {}, indeg, layer)
    ensures AllJustified(ids, explicit, edges, {}, layer)
  {
    q, enq, layer := SeedQueue(ids, order, explicit, indeg);
    SeedEstablishes(ids, explicit, edges, q, enq, indeg, layer);
  }

  /** The seeding loop itself: the queue holds, in node order, the nodes whose counter is 0, and those of them
      without an explicit layer get layer 0. */
  method SeedQueue(ids: set<NodeId>, order: seq<NodeId>, explicit: map<NodeId, Option<int>>, indeg: map<NodeId, int>)
    returns (q: seq<NodeId>, ghost enq: set<NodeId>, layer: map<NodeId, Option<int>>)
    requires forall i, j :: 0 <= i < j < |order| ==> order[i] != order[j]
    requires forall v :: v in order <==> v in ids
    requires explicit.Keys == ids
    ensures forall a, b :: 0 <= a < b < |q| ==> q[a] != q[b]
    ensures forall x :: x in q <==> x in enq
    ensures forall v :: v in enq <==> v in ids && Get(indeg, v) == 0
    ensures layer.Keys == ids
    ensures forall v :: v in ids ==> layer[v] == if v in enq && explicit[v].None? then Some(0) else explicit[v]
  {
    q, enq, layer := [], {}, explicit;
    for j := 0 to |order|
      invariant forall a, b :: 0 <= a < b < |q| ==> q[a] != q[b]
      invariant forall x :: x in q <==> x in enq
      invariant forall v :: v in enq <==> v in order[..j] && Get(indeg, v) == 0
      invariant enq <= ids
      invariant layer.Keys == ids
      invariant forall v :: v in ids ==> layer[v] == if v in enq && explicit[v].None? then Some(0) else explicit[v]
    {
      assert order[..j + 1] == order[..j] + [order[j]];
      var nid := order[j];
      assert nid !in enq by {
        forall k | 0 <= k < j ensures order[..j][k] != nid { assert order[..j][k] == order[k]; }
      }
      if Get(indeg, nid) == 0 {
        q := q + [nid];
        enq := enq + {nid};
        if layer[nid].None? {
          layer := layer[nid := Some(0)];
        }
      }
    }
    assert order[..|order|] == order;
  }

  lemma SeedEstablishes(ids: set<NodeId>, explicit: map<NodeId, Option<int>>, edges: seq<Edge>, q: seq<NodeId>,
                        enq: set<NodeId>, indeg: map<NodeId, int>, layer: map<NodeId, Option<int>>)
    requires explicit.Keys == ids && layer.Keys == ids
    requires forall k :: 0 <= k < |edges| ==> edges[k].0 in ids && edges[k].1 in ids
    requires forall v :: Get(indeg, v) == |Pending(edges, v, {})|
    requires forall a, b :: 0 <= a < b < |q| ==> q[a] != q[b]
    requires forall x :: x in q <==> x in enq
    requires forall v :: v in enq <==> v in ids && Get(indeg, v) == 0
    requires forall v :: v in ids ==> layer[v] == if v in enq && explicit[v].None? then Some(0) else explicit[v]
    ensures Core(ids, explicit, edges, q, enq, {}, {}, indeg, layer)
    ensures AllJustified(ids, explicit, edges, {}, layer)
  {
    forall v | v in ids ensures v in enq <==> Pending(edges, v, {}) == {} {
      assert |Pending(edges, v, {})| == 0 <==> Pending(edges, v, {}) == {};
    }
    forall v | v in ids ensures Justified(layer, explicit, edges, {}, v) {
      if v in enq && explicit[v].None? {
        forall k | 0 <= k < |edges| ensures edges[k].1 != v {
          assert edges[k].1 == v ==> k in Pending(edges, v, {});
        }
      }
    }
  }


  /** The new layer of the target v of a relaxed edge from a node at layer uLayer. */
  function RaiseTo(layer: map<NodeId, Option<int>>, v: NodeId, uLayer: int): map<NodeId, Option<int>>
    requires v in layer
  {
    if layer[v].None? || uLayer + 1 > layer[v].value then layer[v := Some(uLayer + 1)] else layer
  }

  lemma TargetNotQueued(ids: set<NodeId>, explicit: map<NodeId, Option<int>>, edges: seq<Edge>, enq: set<NodeId>,
                        consumed: set<nat>, layer: map<NodeId, Option<int>>, i: nat)
    requires Frame(ids, explicit, edges, layer) && Ready(ids, edges, enq, consumed)
    requires i < |edges| && i !in consumed
    ensures edges[i].1 !in enq
  {
    assert i in Pending(edges, edges[i].1, consumed);
  }

  lemma CountsStep(edges: seq<Edge>, indeg: map<NodeId, int>, consumed: set<nat>, i: nat)
    requires Counts(edges, indeg, consumed) && i < |edges| && i !in consumed
    ensures Counts(edges, indeg[edges[i].1 := Get(indeg, edges[i].1) - 1], consumed + {i})
  {
    var v, c1 := edges[i].1, consumed + {i};
    assert Pending(edges, v, consumed) == Pending(edges, v, c1) + {i};
    assert forall w :: w != v ==> Pending(edges, w, c1) == Pending(edges, w, consumed);
  }

  lemma ReadyStep(ids: set<NodeId>, edges: seq<Edge>, enq: set<NodeId>, consumed: set<nat>, i: nat,
                  indeg1: map<NodeId, int>, enq1: set<NodeId>)
    requires Ready(ids, edges, enq, consumed) && i < |edges| && i !in consumed && edges[i].1 in ids
    requires Counts(edges, indeg1, consumed + {i})
    requires enq1 == if Get(indeg1, edges[i].1) == 0 then enq + {edges[i].1} else enq
    requires edges[i].1 !in enq
    ensures Ready(ids, edges, enq1, consumed + {i})
  {
    var v, c1 := edges[i].1, consumed + {i};
    assert forall w :: w != v ==> Pending(edges, w, c1) == Pending(edges, w, consumed);
    assert |Pending(edges, v, c1)| == 0 <==> Pending(edges, v, c1) == {};
  }

  lemma QueueStep(ids: set<NodeId>, q: seq<NodeId>, enq: set<NodeId>, popped: set<NodeId>, v: NodeId, ready: bool)
    requires QueueOk(ids, q, enq, popped) && v in ids && v !in enq
    ensures QueueOk(ids, if ready then q + [v] else q, if ready then enq + {v} else enq, popped)
  {
  }

  lemma LayerStep(ids: set<NodeId>, explicit: map<NodeId, Option<int>>, edges: seq<Edge>, enq: set<NodeId>,
                  popped: set<NodeId>, consumed: set<nat>, layer: map<NodeId, Option<int>>, i: nat, uLayer: int,
                  enq1: set<NodeId>)
    requires Frame(ids, explicit, edges, layer) && popped <= enq && ConsumedFrom(edges, consumed, popped)
    requires Layered(enq, layer) && AllRelaxed(edges, consumed, layer) && Raised(ids, explicit, layer)
    requires Unset(ids, explicit, edges, enq, consumed, layer)
    requires i < |edges| && edges[i].0 in popped && layer[edges[i].0] == Some(uLayer) && edges[i].1 !in enq
    requires enq1 == enq || enq1 == enq + {edges[i].1}
    ensures Frame(ids, explicit, edges, RaiseTo(layer, edges[i].1, uLayer))
    ensures Layered(enq1, RaiseTo(layer, edges[i].1, uLayer))
    ensures AllRelaxed(edges, consumed + {i}, RaiseTo(layer, edges[i].1, uLayer))
    ensures Raised(ids, explicit, RaiseTo(layer, edges[i].1, uLayer))
    ensures Unset(ids, explicit, edges, enq1, consumed + {i}, RaiseTo(layer, edges[i].1, uLayer))
  {
    RaiseToShape(layer, edges[i].1, uLayer);
    RaiseToRelaxed(edges, consumed, layer, i, uLayer);
  }

  /** Raising v changes no other entry, leaves v set, at least one above uLayer and not below its old layer. */
  lemma RaiseToShape(layer: map<NodeId, Option<int>>, v: NodeId, uLayer: int)
    requires v in layer
    ensures RaiseTo(layer, v, uLayer).Keys == layer.Keys
    ensures forall w :: w in layer && w != v ==> RaiseTo(layer, v, uLayer)[w] == layer[w]
    ensures RaiseTo(layer, v, uLayer)[v].Some? && RaiseTo(layer, v, uLayer)[v].value >= uLayer + 1
    ensures layer[v].Some? ==> RaiseTo(layer, v, uLayer)[v].value >= layer[v].value
  {
  }

  /** Relaxing edge i keeps every relaxed edge relaxed and relaxes edge i, as long as no relaxed edge leaves its
      target. */
  lemma RaiseToRelaxed(edges: seq<Edge>, consumed: set<nat>, layer: map<NodeId, Option<int>>, i: nat, uLayer: int)
    requires AllRelaxed(edges, consumed, layer)
    requires i < |edges| && edges[i].0 in layer && edges[i].1 in layer && layer[edges[i].0] == Some(uLayer)
    requires edges[i].0 != edges[i].1 && forall k :: k in consumed ==> edges[k].0 != edges[i].1
    ensures AllRelaxed(edges, consumed + {i}, RaiseTo(layer, edges[i].1, uLayer))
  {
    var v, layer1 := edges[i].1, RaiseTo(layer, edges[i].1, uLayer);
    RaiseToShape(layer, v, uLayer);
    forall k | k in consumed + {i} ensures 0 <= k < |edges| && Relaxed(layer1, edges[k]) {
      if k != i { assert Relaxed(layer, edges[k]); }
    }
  }

  lemma RelaxCore(ids: set<NodeId>, explicit: map<NodeId, Option<int>>, edges: seq<Edge>, q: seq<NodeId>,
                  enq: set<NodeId>, popped: set<NodeId>, consumed: set<nat>, indeg: map<NodeId, int>,
                  layer: map<NodeId, Option<int>>, i: nat, uLayer: int)
    requires Core(ids, explicit, edges, q, enq, popped, consumed, indeg, layer)
    requires i < |edges| && i !in consumed && edges[i].0 in popped && layer[edges[i].0] == Some(uLayer)
    ensures var v := edges[i].1;
      var indeg1 := indeg[v := Get(indeg, v) - 1];
      var ready := Get(indeg1, v) == 0;
      Core(ids, explicit, edges, if ready then q + [v] else q, if ready then enq + {v} else enq, popped,
           consumed + {i}, indeg1, RaiseTo(layer, v, uLayer))
  {
    var v := edges[i].1;
    var indeg1 := indeg[v := Get(indeg, v) - 1];
    var ready := Get(indeg1, v) == 0;
    var enq1 := if ready then enq + {v} else enq;
    TargetNotQueued(ids, explicit, edges, enq, consumed, layer, i);
    CountsStep(edges, indeg, consumed, i);
    ReadyStep(ids, edges, enq, consumed, i, indeg1, enq1);
    QueueStep(ids, q, enq, popped, v, ready);
    LayerStep(ids, explicit, edges, enq, popped, consumed, layer, i, uLayer, enq1);
  }

  lemma RelaxJustified(ids: set<NodeId>, explicit: map<NodeId, Option<int>>, edges: seq<Edge>, enq: set<NodeId>,
                       popped: set<NodeId>, consumed: set<nat>, layer: map<NodeId, Option<int>>, i: nat, uLayer: int)
    requires Frame(ids, explicit, edges, layer) && popped <= enq && ConsumedFrom(edges, consumed, popped)
    requires AllJustified(ids, explicit, edges, consumed, layer)
    requires i < |edges| && edges[i].0 in popped && layer[edges[i].0] == Some(uLayer) && edges[i].1 !in enq
    ensures AllJustified(ids, explicit, edges, consumed + {i}, RaiseTo(layer, edges[i].1, uLayer))
  {
    var v, c1 := edges[i].1, consumed + {i};
    var layer1 := RaiseTo(layer, v, uLayer);
    forall w | w in ids ensures Justified(layer1, explicit, edges, c1, w) {
      if w == v && layer1[v] != layer[v] {
        assert layer1[v].value == layer1[edges[i].0].value + 1;
      } else {
        assert layer1[w] == layer[w];
        assert Justified(layer, explicit, edges, consumed, w);
        if layer[w].Some? && layer[w] != explicit[w]
          && !(explicit[w].None? && layer[w] == Some(0) && forall k :: 0 <= k < |edges| ==> edges[k].1 != w)
        {
          var k :| k in consumed && 0 <= k < |edges| && edges[k].1 == w && edges[k].0 in layer
            && layer[edges[k].0].Some? && layer[w].value == layer[edges[k].0].value + 1;
          assert edges[k].0 != v;
          assert k in c1 && layer1[edges[k].0] == layer[edges[k].0];
        }
      }
    }
  }

  /** The inner loop of the propagation: relax every edge out of the popped node u, in adjacency order. */
  method RelaxEdges(ids: set<NodeId>, explicit: map<NodeId, Option<int>>, edges: seq<Edge>, u: NodeId, uLayer: int,
                    q0: seq<NodeId>, ghost enq0: set<NodeId>, ghost done: set<NodeId>, indeg0: map<NodeId, int>,
                    layer0: map<NodeId, Option<int>>)
    returns (q: seq<NodeId>, ghost enq: set<NodeId>, indeg: map<NodeId, int>, layer: map<NodeId, Option<int>>)
    requires Core(ids, explicit, edges, q0, enq0, done + {u}, OutOf(edges, done), indeg0, layer0)
    requires AllJustified(ids, explicit, edges, OutOf(edges, done), layer0)
    requires u in enq0 && u !in done && layer0[u] == Some(uLayer)
    ensures Core(ids, explicit, edges, q, enq, done + {u}, OutOf(edges, done + {u}), indeg, layer)
    ensures AllJustified(ids, explicit, edges, OutOf(edges, done + {u}), layer)
  {
    q, enq, indeg, layer := q0, enq0, indeg0, layer0;
    RelaxingEnds(edges, done, u);
    for i := 0 to |edges|
      invariant Core(ids, explicit, edges, q, enq, done + {u}, Relaxing(edges, done, u, i), indeg, layer)
      invariant AllJustified(ids, explicit, edges, Relaxing(edges, done, u, i), layer)
      invariant u in enq && layer[u] == Some(uLayer)
    {
      q, enq, indeg, layer := RelaxOne(ids, explicit, edges, u, uLayer, done, i, q, enq, indeg, layer);
    }
  }

  /** One iteration of the inner loop: the edge at index i, if it leaves u. */
  method RelaxOne(ids: set<NodeId>, explicit: map<NodeId, Option<int>>, edges: seq<Edge>, u: NodeId, uLayer: int,
                  ghost done: set<NodeId>, i: nat, q0: seq<NodeId>, ghost enq0: set<NodeId>, indeg0: map<NodeId, int>,
                  layer0: map<NodeId, Option<int>>)
    returns (q: seq<NodeId>, ghost enq: set<NodeId>, indeg: map<NodeId, int>, layer: map<NodeId, Option<int>>)
    requires i < |edges|
    requires Core(ids, explicit, edges, q0, enq0, done + {u}, Relaxing(edges, done, u, i), indeg0, layer0)
    requires AllJustified(ids, explicit, edges, Relaxing(edges, done, u, i), layer0)
    requires u in enq0 && u !in done && layer0[u] == Some(uLayer)
    ensures Core(ids, explicit, edges, q, enq, done + {u}, Relaxing(edges, done, u, i + 1), indeg, layer)
    ensures AllJustified(ids, explicit, edges, Relaxing(edges, done, u, i + 1), layer)
    ensures u in enq && layer[u] == Some(uLayer)
  {
    RelaxingNext(edges, done, u, i);
    if edges[i].0 == u {
      q, enq, indeg, layer := RelaxEdge(ids, explicit, edges, u, uLayer, done + {u}, Relaxing(edges, done, u, i), i,
                                        q0, enq0, indeg0, layer0);
    } else {
      q, enq, indeg, layer := q0, enq0, indeg0, layer0;
    }
  }

  /** The body of the inner loop for an edge u -> v: raise v's layer to at least u's plus one, decrement v's
      in-degree, and queue v when that reaches 0. */
  method RelaxEdge(ids: set<NodeId>, explicit: map<NodeId, Option<int>>, edges: seq<Edge>, u: NodeId, uLayer: int,
                   ghost popped: set<NodeId>, ghost consumed: set<nat>, i: nat, q0: seq<NodeId>,
                   ghost enq0: set<NodeId>, indeg0: map<NodeId, int>, layer0: map<NodeId, Option<int>>)
    returns (q: seq<NodeId>, ghost enq: set<NodeId>, indeg: map<NodeId, int>, layer: map<NodeId, Option<int>>)
    requires i < |edges| && i !in consumed && edges[i].0 == u && u in popped
    requires Core(ids, explicit, edges, q0, enq0, popped, consumed, indeg0, layer0)
    requires AllJustified(ids, explicit, edges, consumed, layer0)
    requires u in enq0 && layer0[u] == Some(uLayer)
    ensures Core(ids, explicit, edges, q, enq, popped, consumed + {i}, indeg, layer)
    ensures AllJustified(ids, explicit, edges, consumed + {i}, layer)
    ensures u in enq && layer[u] == Some(uLayer)
  {
    q, enq, indeg, layer := q0, enq0, indeg0, layer0;
    var v := edges[i].1;
    RelaxCore(ids, explicit, edges, q, enq, popped, consumed, indeg, layer, i, uLayer);
    RelaxJustified(ids, explicit, edges, enq, popped, consumed, layer, i, uLayer);
    TargetNotQueued(ids, explicit, edges, enq, consumed, layer, i);
    var cur := layer[v];
    var candidate := uLayer + 1;
    if cur.None? || candidate > cur.value {
      layer := layer[v := Some(candidate)];
    }
    indeg := indeg[v := Get(indeg, v) - 1];
    if Get(indeg, v) == 0 {
      q := q + [v];
      enq := enq + {v};
    }
    assert layer == RaiseTo(layer0, v, uLayer);
  }

  lemma RelaxingNext(edges: seq<Edge>, done: set<NodeId>, u: NodeId, i: nat)
    requires i < |edges|
    ensures Relaxing(edges, done, u, i + 1) == Relaxing(edges, done, u, i) + (if edges[i].0 == u then {i} else {})
  {
  }

  lemma RelaxingEnds(edges: seq<Edge>, done: set<NodeId>, u: NodeId)
    ensures Relaxing(edges, done, u, 0) == OutOf(edges, done)
    ensures Relaxing(edges, done, u, |edges|) == OutOf(edges, done + {u})
  {
  }

  lemma PopStep(ids: set<NodeId>, explicit: map<NodeId, Option<int>>, edges: seq<Edge>, q: seq<NodeId>,
                enq: set<NodeId>, done: set<NodeId>, indeg: map<NodeId, int>, layer: map<NodeId, Option<int>>)
    requires Core(ids, explicit, edges, q, enq, done, OutOf(edges, done), indeg, layer) && q != []
    ensures q[0] in enq && q[0] !in done && q[0] in ids
    ensures Core(ids, explicit, edges, q[1..], enq, done + {q[0]}, OutOf(edges, done), indeg, layer)
  {
    assert q[0] in q;
    forall x ensures x in q[1..] <==> x in enq && x !in done + {q[0]} {
      if x in q[1..] {
        var j :| 0 <= j < |q[1..]| && q[1..][j] == x;
        assert q[j + 1] == x;
      }
    }
  }

  /** Every node that has no rank, or a rank below n, has been processed. */
  lemma {:induction false} ProcessedBelowRank(ids: set<NodeId>, edges: seq<Edge>, done: set<NodeId>,
                                              rank: map<NodeId, nat>, n: nat)
    requires IsRanking(rank, edges)
    requires forall k :: 0 <= k < |edges| ==> edges[k].0 in ids
    requires Stuck(ids, edges, done)
    ensures forall v :: v in ids && (v !in rank || rank[v] < n) ==> v in done
  {
    if n > 0 {
      ProcessedBelowRank(ids, edges, done, rank, n - 1);
    }
    forall v | v in ids && (v !in rank || rank[v] < n) ensures v in done {
      if v !in done {
        assert Waiting(ids, done, v);
        assert false;
      }
    }
  }

  /** When the edge graph is acyclic, a node that is never processed would need an unprocessed predecessor of
      strictly smaller rank, and so on without end: every node is processed. */
  lemma KahnComplete(ids: set<NodeId>, edges: seq<Edge>, done: set<NodeId>, rank: map<NodeId, nat>)
    requires IsRanking(rank, edges)
    requires forall k :: 0 <= k < |edges| ==> edges[k].0 in ids
    requires Stuck(ids, edges, done)
    ensures ids <= done
  {
    forall v | v in ids ensures v in done {
      if v in rank {
        ProcessedBelowRank(ids, edges, done, rank, rank[v] + 1);
      } else {
        ProcessedBelowRank(ids, edges, done, rank, 0);
      }
    }
  }

  /** What the propagation leaves, `processed` being the nodes taken off the queue: explicit layers are only raised,
      every processed node has a layer and has relaxed its outgoing edges, every unprocessed node waits on an
      unprocessed predecessor, a layer is unset exactly when nothing ever reached its node, and every layer is
      justified by its explicit value, by 0 at a source or by a relaxed edge. */
  ghost predicate Propagation(ids: set<NodeId>, explicit: map<NodeId, Option<int>>, edges: seq<Edge>,
                              layer: map<NodeId, Option<int>>, processed: set<NodeId>)
  {
    && explicit.Keys == ids && layer.Keys == ids && processed <= ids
    && (forall v :: v in ids && explicit[v].Some? ==> layer[v].Some? && layer[v].value >= explicit[v].value)
    && (forall v :: v in processed ==> layer[v].Some?)
    && (forall k :: 0 <= k < |edges| && edges[k].0 in processed ==> Relaxed(layer, edges[k]))
    && Stuck(ids, edges, processed)
    && (forall v :: v in ids ==>
         (layer[v].None? <==>
           explicit[v].None? && v !in processed && forall k :: 0 <= k < |edges| && edges[k].1 == v ==> edges[k].0 !in processed))
    && (forall v :: v in ids ==> Justified(layer, explicit, edges, OutOf(edges, processed), v))
  }

  /** Longest-path layers on an acyclic edge graph: every node has a layer, at least its explicit one and at least one
      more than each predecessor's, and equal to one of these bounds, or 0 for a node with neither. */
  ghost predicate LongestPath(ids: set<NodeId>, explicit: map<NodeId, Option<int>>, edges: seq<Edge>,
                              layer: map<NodeId, Option<int>>)
  {
    && explicit.Keys == ids && layer.Keys == ids
    && (forall k :: 0 <= k < |edges| ==> edges[k].0 in ids && edges[k].1 in ids)
    && (forall v :: v in ids ==> layer[v].Some?)
    && (forall v :: v in ids && explicit[v].Some? ==> layer[v].value >= explicit[v].value)
    && (forall k :: 0 <= k < |edges| ==> Relaxed(layer, edges[k]))
    && (forall v :: v in ids ==> Justified(layer, explicit, edges, OutOf(edges, ids), v))
  }

  /** Once every node is processed, the propagation has computed longest-path layers. */
  lemma PropagationLongestPath(ids: set<NodeId>, explicit: map<NodeId, Option<int>>, edges: seq<Edge>,
                               layer: map<NodeId, Option<int>>)
    requires forall k :: 0 <= k < |edges| ==> edges[k].0 in ids && edges[k].1 in ids
    requires Propagation(ids, explicit, edges, layer, ids)
    ensures LongestPath(ids, explicit, edges, layer)
  {
  }

  /** Longest-path layers are unique: on an acyclic edge graph at most one map of layers satisfies LongestPath. */
  lemma LongestPathUnique(ids: set<NodeId>, explicit: map<NodeId, Option<int>>, edges: seq<Edge>,
                          a: map<NodeId, Option<int>>, b: map<NodeId, Option<int>>)
    requires Acyclic(edges)
    requires LongestPath(ids, explicit, edges, a) && LongestPath(ids, explicit, edges, b)
    ensures a == b
  {
    var rank :| IsRanking(rank, edges);
    forall v | v in ids ensures a[v] == b[v] {
      LayerAgrees(ids, explicit, edges, a, b, rank, v);
    }
  }

  function RankOf(rank: map<NodeId, nat>, v: NodeId): nat {
    if v in rank then rank[v] else 0
  }

  lemma {:induction false} LayerAgrees(ids: set<NodeId>, explicit: map<NodeId, Option<int>>, edges: seq<Edge>,
                                       a: map<NodeId, Option<int>>, b: map<NodeId, Option<int>>,
                                       rank: map<NodeId, nat>, v: NodeId)
    requires IsRanking(rank, edges)
    requires LongestPath(ids, explicit, edges, a) && LongestPath(ids, explicit, edges, b)
    requires v in ids
    ensures a[v] == b[v]
    decreases RankOf(rank, v)
  {
    forall k | 0 <= k < |edges| && edges[k].1 == v ensures a[edges[k].0] == b[edges[k].0] {
      assert rank[edges[k].0] < rank[edges[k].1];
      LayerAgrees(ids, explicit, edges, a, b, rank, edges[k].0);
    }
    AtMost(ids, explicit, edges, a, b, v);
    AtMost(ids, explicit, edges, b, a, v);
  }

  /** When the predecessors of v agree, the layer of v in `a` is one of the bounds that `b` meets: it is no larger. */
  lemma AtMost(ids: set<NodeId>, explicit: map<NodeId, Option<int>>, edges: seq<Edge>,
               a: map<NodeId, Option<int>>, b: map<NodeId, Option<int>>, v: NodeId)
    requires LongestPath(ids, explicit, edges, a) && LongestPath(ids, explicit, edges, b)
    requires v in ids
    requires forall k :: 0 <= k < |edges| && edges[k].1 == v ==> a[edges[k].0] == b[edges[k].0]
    ensures a[v].value <= b[v].value
  {
    assert Justified(a, explicit, edges, OutOf(edges, ids), v);
    assert Justified(b, explicit, edges, OutOf(edges, ids), v);
    if k :| k in OutOf(edges, ids) && 0 <= k < |edges| && edges[k].1 == v && a[v].value == a[edges[k].0].value + 1 {
      assert Relaxed(b, edges[k]);
    }
  }

  /** The seeding and the propagation loop of infer_layers. `processed` is the set of nodes taken off the queue. */
  method Propagate(ids: set<NodeId>, order: seq<NodeId>, explicit: map<NodeId, Option<int>>, edges: seq<Edge>,
                   indeg0: map<NodeId, int>)
    returns (layer: map<NodeId, Option<int>>, ghost processed: set<NodeId>)
    requires forall i, j :: 0 <= i < j < |order| ==> order[i] != order[j]
    requires forall v :: v in order <==> v in ids
    requires explicit.Keys == ids
    requires forall k :: 0 <= k < |edges| ==> edges[k].0 in ids && edges[k].1 in ids
    requires forall v :: Get(indeg0, v) == |Pending(edges, v, {})|
    ensures Propagation(ids, explicit, edges, layer, processed)
    ensures Acyclic(edges) ==> processed == ids
  {
    var q;
    ghost var enq;
    q, enq, layer := Seed(ids, order, explicit, edges, indeg0);
    ghost var done, indeg;
    layer, done, enq, indeg := Drain(ids, explicit, edges, q, enq, indeg0, layer);
    processed := done;
    Finish(ids, explicit, edges, enq, done, indeg, layer);
    if Acyclic(edges) {
      var rank :| IsRanking(rank, edges);
      KahnComplete(ids, edges, done, rank);
    }
  }

  /** The propagation loop: pop the front of the queue and relax its edges, until the queue is empty. */
  method Drain(ids: set<NodeId>, explicit: map<NodeId, Option<int>>, edges: seq<Edge>, q0: seq<NodeId>,
               ghost enq0: set<NodeId>, indeg0: map<NodeId, int>, layer0: map<NodeId, Option<int>>)
    returns (layer: map<NodeId, Option<int>>, ghost done: set<NodeId>, ghost enq: set<NodeId>,
             indeg: map<NodeId, int>)
    requires Core(ids, explicit, edges, q0, enq0, {}, {}, indeg0, layer0)
    requires AllJustified(ids, explicit, edges, {}, layer0)
    ensures Core(ids, explicit, edges, [], enq, done, OutOf(edges, done), indeg, layer)
    ensures AllJustified(ids, explicit, edges, OutOf(edges, done), layer)
  {
    var q := q0;
    layer, done, enq, indeg := layer0, {}, enq0, indeg0;
    assert OutOf(edges, {}) == {};
    while q != []
      invariant Core(ids, explicit, edges, q, enq, done, OutOf(edges, done), indeg, layer)
      invariant AllJustified(ids, explicit, edges, OutOf(edges, done), layer)
      decreases |ids - done|
    {
      q, enq, done, indeg, layer := PopAndRelax(ids, explicit, edges, q, enq, done, indeg, layer);
    }
  }

  /** One iteration of the propagation loop: pop u and relax its edges from its current layer. */
  method PopAndRelax(ids: set<NodeId>, explicit: map<NodeId, Option<int>>, edges: seq<Edge>, q0: seq<NodeId>,
                     ghost enq0: set<NodeId>, ghost done0: set<NodeId>, indeg0: map<NodeId, int>,
                     layer0: map<NodeId, Option<int>>)
    returns (q: seq<NodeId>, ghost enq: set<NodeId>, ghost done: set<NodeId>, indeg: map<NodeId, int>,
             layer: map<NodeId, Option<int>>)
    requires Core(ids, explicit, edges, q0, enq0, done0, OutOf(edges, done0), indeg0, layer0) && q0 != []
    requires AllJustified(ids, explicit, edges, OutOf(edges, done0), layer0)
    ensures Core(ids, explicit, edges, q, enq, done, OutOf(edges, done), indeg, layer)
    ensures AllJustified(ids, explicit, edges, OutOf(edges, done), layer)
    ensures done0 < done && |ids - done| < |ids - done0|
  {
    PopStep(ids, explicit, edges, q0, enq0, done0, indeg0, layer0);
    var u := q0[0];
    var uLayer := layer0[u].GetOr(0);
    q, enq, indeg, layer := RelaxEdges(ids, explicit, edges, u, uLayer, q0[1..], enq0, done0, indeg0, layer0);
    done := done0 + {u};
    assert ids - done < ids - done0;
  }

  lemma Finish(ids: set<NodeId>, explicit: map<NodeId, Option<int>>, edges: seq<Edge>, enq: set<NodeId>,
               done: set<NodeId>, indeg: map<NodeId, int>, layer: map<NodeId, Option<int>>)
    requires Core(ids, explicit, edges, [], enq, done, OutOf(edges, done), indeg, layer)
    ensures layer.Keys == ids && explicit.Keys == ids
    ensures enq == done
    ensures forall v :: v in ids ==>
      (layer[v].None? <==>
        explicit[v].None? && v !in done && forall k :: 0 <= k < |edges| && edges[k].1 == v ==> edges[k].0 !in done)
    ensures forall k :: 0 <= k < |edges| && edges[k].0 in done ==> Relaxed(layer, edges[k])
    ensures Stuck(ids, edges, done)
  {
    FinishQueue(ids, enq, done);
    FinishStuck(ids, edges, done);
    FinishRelaxed(edges, done, layer);
    FinishUnset(ids, explicit, edges, done, layer);
  }

  /** Every node left unprocessed has an unprocessed predecessor: it lies on a cycle or downstream of one. */
  ghost predicate Stuck(ids: set<NodeId>, edges: seq<Edge>, done: set<NodeId>) {
    forall v {:trigger Waiting(ids, done, v)} :: Waiting(ids, done, v) ==>
      exists k :: 0 <= k < |edges| && edges[k].1 == v && edges[k].0 !in done
  }

  /** A node that was never processed. */
  predicate Waiting(ids: set<NodeId>, done: set<NodeId>, v: NodeId) {
    v in ids && v !in done
  }

  lemma FinishQueue(ids: set<NodeId>, enq: set<NodeId>, done: set<NodeId>)
    requires QueueOk(ids, [], enq, done)
    ensures enq == done
  {
  }

  lemma FinishStuck(ids: set<NodeId>, edges: seq<Edge>, done: set<NodeId>)
    requires Ready(ids, edges, done, OutOf(edges, done))
    ensures Stuck(ids, edges, done)
  {
    forall v | Waiting(ids, done, v)
      ensures exists k :: 0 <= k < |edges| && edges[k].1 == v && edges[k].0 !in done
    {
      var k :| k in Pending(edges, v, OutOf(edges, done));
    }
  }

  lemma FinishRelaxed(edges: seq<Edge>, done: set<NodeId>, layer: map<NodeId, Option<int>>)
    requires AllRelaxed(edges, OutOf(edges, done), layer)
    ensures forall k :: 0 <= k < |edges| && edges[k].0 in done ==> Relaxed(layer, edges[k])
  {
    forall k | 0 <= k < |edges| && edges[k].0 in done ensures Relaxed(layer, edges[k]) {
      assert k in OutOf(edges, done);
    }
  }

  lemma FinishUnset(ids: set<NodeId>, explicit: map<NodeId, Option<int>>, edges: seq<Edge>, done: set<NodeId>,
                    layer: map<NodeId, Option<int>>)
    requires Frame(ids, explicit, edges, layer)
    requires Unset(ids, explicit, edges, done, OutOf(edges, done), layer)
    ensures forall v :: v in ids ==>
      (layer[v].None? <==>
        explicit[v].None? && v !in done && forall k :: 0 <= k < |edges| && edges[k].1 == v ==> edges[k].0 !in done)
  {
    forall v | v in ids
      ensures layer[v].None? <==>
        explicit[v].None? && v !in done && forall k :: 0 <= k < |edges| && edges[k].1 == v ==> edges[k].0 !in done
    {
      if forall k :: k in OutOf(edges, done) && 0 <= k < |edges| ==> edges[k].1 != v {
        forall k | 0 <= k < |edges| && edges[k].1 == v ensures edges[k].0 !in done {
          assert edges[k].0 in done ==> k in OutOf(edges, done);
        }
      }
    }
  }

  /** A layer after the fallback: unset layers become 0. */
  function Filled(layer: map<NodeId, Option<int>>, v: NodeId): int
    requires v in layer
  {
    layer[v].GetOr(0)
  }

  /** The fallback and the normalisation: unset layers become 0, then every layer is shifted so the smallest is 0. */
  method FallbackAndNormalize(order: seq<NodeId>, layer0: map<NodeId, Option<int>>)
    returns (layers: map<NodeId, int>, shift: int)
    requires forall i, j :: 0 <= i < j < |order| ==> order[i] != order[j]
    requires forall v :: v in order <==> v in layer0
    ensures layers.Keys == layer0.Keys
    ensures forall v :: v in layers ==> layers[v] == Filled(layer0, v) - shift
    ensures forall v :: v in layer0 ==> shift <= Filled(layer0, v)
    ensures layer0 != map[] ==> exists v :: v in layer0 && Filled(layer0, v) == shift
    ensures layer0 == map[] ==> shift == 0
    ensures forall v, w :: v in layers && w in layers ==> layers[v] - layers[w] == Filled(layer0, v) - Filled(layer0, w)
    ensures forall v :: v in layers ==> layers[v] >= 0
    ensures layer0 != map[] ==> exists v :: v in layers && layers[v] == 0
  {
    var layer := Fallback(order, layer0);
    var minLayer := MinLayer(order, layer);
    if minLayer != 0 {
      layer := Shift(order, layer, minLayer);
    }
    layers := map v | v in layer :: layer[v].value;
    shift := minLayer;
    if layer0 != map[] {
      var v :| v in layer0 && minLayer == Filled(layer0, v);
      assert layers[v] == 0;
    }
  }

  /** Every unset layer becomes 0. */
  method Fallback(order: seq<NodeId>, layer0: map<NodeId, Option<int>>) returns (layer: map<NodeId, Option<int>>)
    requires forall v :: v in order <==> v in layer0
    ensures layer.Keys == layer0.Keys
    ensures forall v :: v in layer ==> layer[v] == Some(Filled(layer0, v))
  {
    layer := layer0;
    for j := 0 to |order|
      invariant layer.Keys == layer0.Keys
      invariant forall v :: v in layer ==> layer[v] == (if v in order[..j] then Some(Filled(layer0, v)) else layer0[v])
    {
      var k := order[j];
      if layer[k].None? {
        layer := layer[k := Some(0)];
      }
    }
    assert order[..|order|] == order;
  }

  /** The smallest layer, or 0 when there are no nodes. */
  method MinLayer(order: seq<NodeId>, layer: map<NodeId, Option<int>>) returns (m: int)
    requires forall v :: v in order <==> v in layer
    requires forall v :: v in layer ==> layer[v].Some?
    ensures forall v :: v in layer ==> m <= layer[v].value
    ensures layer != map[] ==> exists v :: v in layer && m == layer[v].value
    ensures layer == map[] ==> m == 0
  {
    m := 0;
    for j := 0 to |order|
      invariant forall i :: 0 <= i < j ==> m <= layer[order[i]].value
      invariant j > 0 ==> exists i :: 0 <= i < j && m == layer[order[i]].value
      invariant j == 0 ==> m == 0
    {
      var x := layer[order[j]].value;
      if j == 0 || x < m {
        m := x;
      }
    }
    if layer != map[] {
      var v :| v in layer;
      assert v in order;
    }
  }

  /** Every layer minus `delta`. */
  method Shift(order: seq<NodeId>, layer0: map<NodeId, Option<int>>, delta: int) returns (layer: map<NodeId, Option<int>>)
    requires forall i, j :: 0 <= i < j < |order| ==> order[i] != order[j]
    requires forall v :: v in order <==> v in layer0
    requires forall v :: v in layer0 ==> layer0[v].Some?
    ensures layer.Keys == layer0.Keys
    ensures forall v :: v in layer ==> layer[v] == Some(layer0[v].value - delta)
  {
    layer := layer0;
    for j := 0 to |order|
      invariant layer.Keys == layer0.Keys
      invariant forall v :: v in layer ==> layer[v].Some?
      invariant forall v :: v in layer ==> layer[v].value == if v in order[..j] then layer0[v].value - delta else layer0[v].value
    {
      assert order[..j + 1] == order[..j] + [order[j]];
      var k := order[j];
      layer := layer[k := Some(layer[k].value - delta)];
    }
    assert order[..|order|] == order;
  }

  /** What infer_layers computes: the explicit layers when every node has one; otherwise the layers of the
      propagation along the links (longest-path layers on an acyclic link graph), unset ones 0, less their minimum
      `shift`. */
  ghost predicate Inferred(nodes: seq<Node>, links: seq<Link>, segments: Option<seq<string>>, layers: map<NodeId, int>,
                           propagated: map<NodeId, Option<int>>, processed: set<NodeId>, shift: int)
  {
    var explicit, edges := ExplicitLayers(nodes, segments), KnownEdges(links, Ids(nodes));
    && layers.Keys == Ids(nodes)
    && (AllKnown(explicit) ==> forall v :: v in layers ==> explicit[v] == Some(layers[v]))
    && (!AllKnown(explicit) ==>
         && Propagation(Ids(nodes), explicit, edges, propagated, processed)
         && (Acyclic(edges) ==> LongestPath(Ids(nodes), explicit, edges, propagated))
         && (forall v :: v in layers ==> layers[v] == Filled(propagated, v) - shift)
         && (forall v :: v in propagated ==> shift <= Filled(propagated, v))
         && (nodes != [] ==> exists v :: v in propagated && Filled(propagated, v) == shift))
  }

  /** infer_layers, with the propagated layers, the processed nodes and the shift as ghost results. Without a full
      set of explicit layers the result is non-negative with a 0, and on an acyclic link graph every link goes
      forward. */
  method InferLayers(nodes: seq<Node>, links: seq<Link>, segments: Option<seq<string>>)
    returns (layers: map<NodeId, int>, ghost propagated: map<NodeId, Option<int>>, ghost processed: set<NodeId>,
             ghost shift: int)
    ensures Inferred(nodes, links, segments, layers, propagated, processed, shift)
    ensures !AllKnown(ExplicitLayers(nodes, segments)) ==>
      (forall v :: v in layers ==> layers[v] >= 0) && (nodes != [] ==> exists v :: v in layers && layers[v] == 0)
    ensures !AllKnown(ExplicitLayers(nodes, segments)) && Acyclic(KnownEdges(links, Ids(nodes))) ==>
      forall l :: l in links && l.source in layers && l.target in layers ==> layers[l.target] >= layers[l.source] + 1
  {
    var explicit := FirstPass(nodes, segments);
    if AllKnown(explicit) {
      layers := map v | v in explicit :: explicit[v].value;
      propagated, processed, shift := explicit, {}, 0;
      return;
    }
    var ids := Ids(nodes);
    var order := DistinctIds(nodes);
    var edges, indeg := BuildInDegrees(links, ids);
    var layer, s;
    layer, processed := Propagate(ids, order, explicit, edges, indeg);
    layers, s := FallbackAndNormalize(order, layer);
    propagated, shift := layer, s;
    if nodes != [] {
      assert nodes[0].id in propagated;
    }
    if Acyclic(edges) {
      PropagationLongestPath(ids, explicit, edges, propagated);
      assert forall k :: 0 <= k < |edges| ==> edges[k].0 in processed;
      ForwardLinks(links, ids, edges, propagated, layers);
    }
  }

  lemma ForwardLinks(links: seq<Link>, ids: set<NodeId>, edges: seq<Edge>, layer: map<NodeId, Option<int>>,
                     layers: map<NodeId, int>)
    requires edges == KnownEdges(links, ids)
    requires forall k :: 0 <= k < |edges| ==> Relaxed(layer, edges[k])
    requires layers.Keys == layer.Keys && layer.Keys == ids
    requires forall v, w :: v in layers && w in layers ==> layers[v] - layers[w] == Filled(layer, v) - Filled(layer, w)
    ensures forall l :: l in links && l.source in layers && l.target in layers ==> layers[l.target] >= layers[l.source] + 1
  {
    forall l | l in links && l.source in layers && l.target in layers
      ensures layers[l.target] >= layers[l.source] + 1
    {
      var i :| 0 <= i < |links| && links[i] == l;
      KnownEdgesComplete(links, ids, i);
      var k :| 0 <= k < |edges| && edges[k] == (l.source, l.target);
      assert Relaxed(layer, edges[k]);
    }
  }
}
