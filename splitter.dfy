/** The long-link splitter: every left-to-right link spanning k > 1 layers becomes a chain of k adjacent-layer
    links through k - 1 new dummy nodes; every other link passes through unchanged. */
module Splitter {
  import opened Wrappers
  import opened Graph

  /** The layer map of the splitter: each node with a resolvable layer, later nodes overwriting earlier ones. */
  function KnownLayers(nodes: seq<Node>, segments: Option<seq<string>>): map<NodeId, int>
  {
    if nodes == [] then map[]
    else
      var m := KnownLayers(nodes[..|nodes| - 1], segments);
      var n := nodes[|nodes| - 1];
      match NodeLayer(n, segments)
      case Some(l) => m[n.id := l]
      case None => m
  }

  /** An id has a layer exactly when some node with that id resolves, and then it has the layer of the last such
      node. */
  lemma {:induction false} KnownLayersLast(nodes: seq<Node>, segments: Option<seq<string>>, id: NodeId)
    ensures var m := KnownLayers(nodes, segments);
      && (id in m <==> exists i :: 0 <= i < |nodes| && nodes[i].id == id && NodeLayer(nodes[i], segments).Some?)
      && (id in m ==> exists i :: (0 <= i < |nodes| && nodes[i].id == id && NodeLayer(nodes[i], segments) == Some(m[id])
            && forall j :: i < j < |nodes| && nodes[j].id == id ==> NodeLayer(nodes[j], segments).None?))
  {
    if nodes != [] {
      var init := nodes[..|nodes| - 1];
      KnownLayersLast(init, segments, id);
      assert forall i :: 0 <= i < |init| ==> init[i] == nodes[i];
    }
  }

  /** Some((a, b)) when the link must be split: both ends are nodes with known layers a and b, and b - a > 1. */
  function SplitPlan(ids: set<NodeId>, layers: map<NodeId, int>, link: Link): Option<(int, int)> {
    if link.source !in ids || link.target !in ids then None
    else if link.source !in layers || link.target !in layers then None
    else
      var a, b := layers[link.source], layers[link.target];
      if b == a || b - a == 1 || a - b == 1 then None
      else if b < a then None
      else Some((a, b))
  }

  lemma PlanIffLong(ids: set<NodeId>, layers: map<NodeId, int>, link: Link)
    ensures SplitPlan(ids, layers, link).Some? <==>
      link.source in ids && link.target in ids && link.source in layers && link.target in layers
      && layers[link.target] - layers[link.source] > 1
    ensures SplitPlan(ids, layers, link).Some? ==>
      SplitPlan(ids, layers, link).value == (layers[link.source], layers[link.target])
  {
  }

  /** The dummy node for layer `layer` of the chain of link `li`. */
  function DummyNode(a: int, b: int, serial: nat, layer: int, li: nat): Node {
    Node(Dummy(a, b, serial), None, Some(SInt(layer)), None, true, Some(li))
  }

  /** The dummy nodes of the chain for a link from layer a to layer b, with serials from `next` on. */
  function ChainNodes(a: int, b: int, next: nat, li: nat): seq<Node>
    requires b - a > 1
  {
    seq(b - a - 1, j requires 0 <= j < b - a - 1 => DummyNode(a, b, next + j, a + 1 + j, li))
  }

  /** The links of the chain: source, dummies, target, each with the link's value (0 when absent) and metadata. */
  function ChainLinks(link: Link, a: int, b: int, next: nat): seq<Link>
    requires b - a > 1
  {
    seq(b - a, j requires 0 <= j < b - a =>
      Link(if j == 0 then link.source else Dummy(a, b, next + j - 1),
           if j == b - a - 1 then link.target else Dummy(a, b, next + j),
           Some(ValueOr0(link)), link.meta))
  }

  /** The state of the splitter after some links: nodes so far, links so far and the next dummy serial. */
  datatype Acc = Acc(nodes: seq<Node>, links: seq<Link>, next: nat)

  /** The splitter after processing links[..n]. */
  function SplitPrefix(ids: set<NodeId>, layers: map<NodeId, int>, nodes: seq<Node>, links: seq<Link>, n: nat): Acc
    requires n <= |links|
  {
    if n == 0 then Acc(nodes, [], 1)
    else Step(ids, layers, SplitPrefix(ids, layers, nodes, links, n - 1), n - 1, links[n - 1])
  }

  /** The splitter's treatment of link number `li`: one unchanged copy, or a chain. */
  function Step(ids: set<NodeId>, layers: map<NodeId, int>, acc: Acc, li: nat, link: Link): Acc {
    match SplitPlan(ids, layers, link)
    case None => Acc(acc.nodes, acc.links + [link], acc.next)
    case Some((a, b)) =>
      Acc(acc.nodes + ChainNodes(a, b, acc.next, li), acc.links + ChainLinks(link, a, b, acc.next),
          acc.next + (b - a - 1))
  }

  /** The result of split_long_links. */
  function Split(nodes: seq<Node>, links: seq<Link>, segments: Option<seq<string>>): Acc {
    SplitPrefix(Ids(nodes), KnownLayers(nodes, segments), nodes, links, |links|)
  }

  /** The input nodes stay, unchanged and in order, as a prefix; after them come only dummy nodes, the j-th of
      which has serial j + 1, no label, an integer segment, and the index of an input link already processed. */
  lemma {:induction false} AppendedDummies(ids: set<NodeId>, layers: map<NodeId, int>, nodes: seq<Node>,
                                           links: seq<Link>, n: nat)
    requires n <= |links|
    ensures var acc := SplitPrefix(ids, layers, nodes, links, n);
      && acc.next >= 1 && |acc.nodes| == |nodes| + acc.next - 1
      && acc.nodes[..|nodes|] == nodes
      && forall j :: |nodes| <= j < |acc.nodes| ==>
           && acc.nodes[j].id.Dummy? && acc.nodes[j].id.serial == j - |nodes| + 1
           && acc.nodes[j].dummy && acc.nodes[j].caption.None?
           && acc.nodes[j].segment.Some? && acc.nodes[j].segment.value.SInt?
           && acc.nodes[j].origLinkIndex.Some? && acc.nodes[j].origLinkIndex.value < n
  {
    if n > 0 {
      AppendedDummies(ids, layers, nodes, links, n - 1);
      var acc := SplitPrefix(ids, layers, nodes, links, n - 1);
      match SplitPlan(ids, layers, links[n - 1])
      case None =>
      case Some((a, b)) =>
        var ch := ChainNodes(a, b, acc.next, n - 1);
        var r := acc.nodes + ch;
        assert r[..|nodes|] == acc.nodes[..|nodes|];
        forall j | |nodes| <= j < |r|
          ensures r[j].id.Dummy? && r[j].id.serial == j - |nodes| + 1 && r[j].dummy && r[j].caption.None?
            && r[j].segment.Some? && r[j].segment.value.SInt?
            && r[j].origLinkIndex.Some? && r[j].origLinkIndex.value < n
        {
          if j >= |acc.nodes| {
            var k := j - |acc.nodes|;
            assert r[j] == ch[k] == DummyNode(a, b, acc.next + k, a + 1 + k, n - 1);
          } else {
            assert r[j] == acc.nodes[j];
          }
        }
    }
  }

  /** Dummy ids made in one call are pairwise distinct (even for repeated source/target pairs), and distinct from
      every input id as long as no input id has the dummy form. */
  lemma DummyIdsDistinct(nodes: seq<Node>, links: seq<Link>, segments: Option<seq<string>>)
    ensures var out := Split(nodes, links, segments).nodes;
      && (forall i, j :: |nodes| <= i < j < |out| ==> out[i].id != out[j].id)
      && ((forall k :: 0 <= k < |nodes| ==> nodes[k].id.User?) ==>
            forall i, k :: |nodes| <= i < |out| && 0 <= k < |nodes| ==> out[i].id != nodes[k].id)
  {
    AppendedDummies(Ids(nodes), KnownLayers(nodes, segments), nodes, links, |links|);
  }

  /** The dummy chain of one link: k - 1 dummy nodes on layers a + 1 .. b - 1 in increasing order and k links from
      the source through the dummies to the target, each with the link's value (0 when absent) and metadata. */
  lemma ChainShape(link: Link, a: int, b: int, next: nat, li: nat)
    requires b - a > 1
    ensures var ds, ls := ChainNodes(a, b, next, li), ChainLinks(link, a, b, next);
      && |ds| == b - a - 1 && |ls| == b - a
      && ls[0].source == link.source && ls[b - a - 1].target == link.target
      && (forall j :: 0 <= j < b - a - 1 ==> ls[j].target == ds[j].id && ls[j + 1].source == ds[j].id)
      && (forall j :: 0 <= j < b - a - 1 ==>
            ds[j].segment == Some(SInt(a + 1 + j)) && ds[j].dummy && ds[j].caption.None?
            && ds[j].origLinkIndex == Some(li))
      && (forall j :: 0 <= j < b - a ==> ls[j].value == Some(ValueOr0(link)) && ls[j].meta == link.meta)
  {
    var ds, ls := ChainNodes(a, b, next, li), ChainLinks(link, a, b, next);
    forall j | 0 <= j < b - a - 1
      ensures ls[j].target == ds[j].id && ls[j + 1].source == ds[j].id
      ensures ds[j].segment == Some(SInt(a + 1 + j)) && ds[j].dummy && ds[j].caption.None?
      ensures ds[j].origLinkIndex == Some(li)
    {
      assert ds[j] == DummyNode(a, b, next + j, a + 1 + j, li);
      assert ls[j].target == Dummy(a, b, next + j);
      assert ls[j + 1].source == Dummy(a, b, next + (j + 1) - 1);
    }
  }

  /** The number of output links for one input link: its span when split, 1 otherwise. */
  function Span(ids: set<NodeId>, layers: map<NodeId, int>, link: Link): nat {
    match SplitPlan(ids, layers, link)
    case Some((a, b)) => b - a
    case None => 1
  }

  function TotalSpan(ids: set<NodeId>, layers: map<NodeId, int>, links: seq<Link>): nat {
    if links == [] then 0 else TotalSpan(ids, layers, links[..|links| - 1]) + Span(ids, layers, links[|links| - 1])
  }

  /** The output has one link per unsplit input link and k links per link split across k layers, and one dummy
      node per intermediate layer of every split link. */
  lemma {:induction false} LinkCount(ids: set<NodeId>, layers: map<NodeId, int>, nodes: seq<Node>,
                                     links: seq<Link>, n: nat)
    requires n <= |links|
    ensures var acc := SplitPrefix(ids, layers, nodes, links, n);
      && |acc.links| == TotalSpan(ids, layers, links[..n])
      && acc.next - 1 + n == TotalSpan(ids, layers, links[..n])
  {
    if n > 0 {
      LinkCount(ids, layers, nodes, links, n - 1);
      assert links[..n][..n - 1] == links[..n - 1];
    }
  }

  /** Processing more links only appends: the output for links[..m] is a prefix of the output for links[..n], so
      the output holds one contiguous block per input link, in input order. */
  lemma {:induction false} OutputGrows(ids: set<NodeId>, layers: map<NodeId, int>, nodes: seq<Node>,
                                       links: seq<Link>, m: nat, n: nat)
    requires m <= n <= |links|
    ensures var am, an := SplitPrefix(ids, layers, nodes, links, m), SplitPrefix(ids, layers, nodes, links, n);
      && |am.links| <= |an.links| && an.links[..|am.links|] == am.links
      && |am.nodes| <= |an.nodes| && an.nodes[..|am.nodes|] == am.nodes
      && am.next <= an.next
  {
    if m < n {
      OutputGrows(ids, layers, nodes, links, m, n - 1);
      var am, ap := SplitPrefix(ids, layers, nodes, links, m), SplitPrefix(ids, layers, nodes, links, n - 1);
      var an := SplitPrefix(ids, layers, nodes, links, n);
      assert an.links[..|ap.links|] == ap.links;
      assert an.nodes[..|ap.nodes|] == ap.nodes;
      assert an.links[..|am.links|] == ap.links[..|am.links|];
      assert an.nodes[..|am.nodes|] == ap.nodes[..|am.nodes|];
    }
  }

  /** When no link spans more than one layer forward, splitting changes nothing and creates no dummy node. */
  lemma {:induction false} NothingToSplit(ids: set<NodeId>, layers: map<NodeId, int>, nodes: seq<Node>,
                                          links: seq<Link>, n: nat)
    requires n <= |links|
    requires forall i :: 0 <= i < n ==> SplitPlan(ids, layers, links[i]).None?
    ensures SplitPrefix(ids, layers, nodes, links, n) == Acc(nodes, links[..n], 1)
  {
    if n > 0 {
      NothingToSplit(ids, layers, nodes, links, n - 1);
      assert links[..n] == links[..n - 1] + [links[n - 1]];
    }
  }

  /** `m'` is `m` with each node of `ds` given its integer segment as layer. */
  ghost predicate AddsLayers(m: map<NodeId, int>, m': map<NodeId, int>, ds: seq<Node>)
    requires forall j :: 0 <= j < |ds| ==> ds[j].segment.Some? && ds[j].segment.value.SInt?
  {
    && (forall j :: 0 <= j < |ds| ==> ds[j].id in m' && m'[ds[j].id] == ds[j].segment.value.i)
    && (forall id :: id !in Ids(ds) ==> (id in m' <==> id in m) && (id in m ==> m'[id] == m[id]))
  }

  /** Appending nodes whose ids are pairwise distinct and whose segments are integers: their own ids get exactly their
      segment, every other id keeps its layer (or its absence). */
  lemma {:induction false} KnownLayersAppend(s: seq<Node>, ds: seq<Node>, segments: Option<seq<string>>)
    requires forall i, j :: 0 <= i < j < |ds| ==> ds[i].id != ds[j].id
    requires forall j :: 0 <= j < |ds| ==> ds[j].segment.Some? && ds[j].segment.value.SInt?
    ensures AddsLayers(KnownLayers(s, segments), KnownLayers(s + ds, segments), ds)
  {
    if ds == [] { assert s + ds == s; }
    if ds != [] {
      var init, last := ds[..|ds| - 1], ds[|ds| - 1];
      assert forall j :: 0 <= j < |init| ==> init[j] == ds[j];
      KnownLayersAppend(s, init, segments);
      assert (s + ds)[..|s + ds| - 1] == s + init;
      var m, m0, m' := KnownLayers(s, segments), KnownLayers(s + init, segments), KnownLayers(s + ds, segments);
      var l := last.segment.value.i;
      assert NodeLayer(last, segments) == Some(l);
      assert m' == m0[last.id := l];
      assert Ids(ds) == Ids(init) + {last.id};
      forall j | 0 <= j < |ds| ensures ds[j].id in m' && m'[ds[j].id] == ds[j].segment.value.i {
        if j < |init| {
          assert ds[j].id != last.id;
          assert ds[j].id in m0 && m0[ds[j].id] == init[j].segment.value.i;
        }
      }
      forall id | id !in Ids(ds) ensures (id in m' <==> id in m) && (id in m ==> m'[id] == m[id]) {
        assert id !in Ids(init) && id != last.id;
      }
    }
  }

  /** An id that the splitter state after `next` serials may mention: a user id or an earlier dummy. */
  predicate Before(id: NodeId, next: nat) {
    id.User? || id.serial < next
  }

  /** The layer map `out` agrees with `layers` on every user id. */
  ghost predicate KeepsUserLayers(out: map<NodeId, int>, layers: map<NodeId, int>) {
    forall id: NodeId :: id.User? ==> (id in out <==> id in layers) && (id in layers ==> out[id] == layers[id])
  }

  ghost predicate MentionsBefore(ls: seq<Link>, next: nat) {
    forall k :: 0 <= k < |ls| ==> Before(ls[k].source, next) && Before(ls[k].target, next)
  }

  /** No link whose ends both have a layer in `out` goes forward by more than one layer. */
  ghost predicate SpansAtMostOne(ls: seq<Link>, out: map<NodeId, int>) {
    forall k :: 0 <= k < |ls| && ls[k].source in out && ls[k].target in out ==> out[ls[k].target] - out[ls[k].source] <= 1
  }

  /** What splitting keeps true link after link: input ids keep their layers, links mention only ids already
      created, and no link with two known layers goes forward by more than one. */
  ghost predicate Adjacent(acc: Acc, layers: map<NodeId, int>, segments: Option<seq<string>>) {
    && KeepsUserLayers(KnownLayers(acc.nodes, segments), layers)
    && MentionsBefore(acc.links, acc.next)
    && SpansAtMostOne(acc.links, KnownLayers(acc.nodes, segments))
  }

  lemma PassStepAdjacent(ids: set<NodeId>, layers: map<NodeId, int>, acc0: Acc, li: nat, link: Link,
                         segments: Option<seq<string>>)
    requires SplitPlan(ids, layers, link).None?
    requires link.source.User? && link.target.User?
    requires forall id :: id in layers ==> id in ids
    requires Adjacent(acc0, layers, segments)
    ensures Adjacent(Step(ids, layers, acc0, li, link), layers, segments)
  {
    var acc := Step(ids, layers, acc0, li, link);
    var out := KnownLayers(acc.nodes, segments);
    PlanIffLong(ids, layers, link);
    assert acc.nodes == acc0.nodes && acc.links == acc0.links + [link];
    forall k | 0 <= k < |acc.links| && acc.links[k].source in out && acc.links[k].target in out
      ensures out[acc.links[k].target] - out[acc.links[k].source] <= 1
    {
      if k < |acc0.links| { assert acc.links[k] == acc0.links[k]; }
    }
  }

  lemma ChainStepAdjacent(ids: set<NodeId>, layers: map<NodeId, int>, acc0: Acc, li: nat, link: Link,
                          segments: Option<seq<string>>)
    requires SplitPlan(ids, layers, link).Some?
    requires link.source.User? && link.target.User?
    requires Adjacent(acc0, layers, segments)
    ensures Adjacent(Step(ids, layers, acc0, li, link), layers, segments)
  {
    PlanIffLong(ids, layers, link);
    var (a, b) := SplitPlan(ids, layers, link).value;
    var acc := Step(ids, layers, acc0, li, link);
    var out0, out := KnownLayers(acc0.nodes, segments), KnownLayers(acc.nodes, segments);
    var ds, ls := ChainNodes(a, b, acc0.next, li), ChainLinks(link, a, b, acc0.next);
    ChainShape(link, a, b, acc0.next, li);
    forall i, j | 0 <= i < j < |ds| ensures ds[i].id != ds[j].id {
      assert ds[i].id.serial == acc0.next + i && ds[j].id.serial == acc0.next + j;
    }
    KnownLayersAppend(acc0.nodes, ds, segments);
    assert acc.nodes == acc0.nodes + ds && acc.links == acc0.links + ls;
    assert forall id: NodeId :: Before(id, acc0.next) ==> id !in Ids(ds);
    forall k | 0 <= k < |acc.links|
      ensures Before(acc.links[k].source, acc.next) && Before(acc.links[k].target, acc.next)
      ensures acc.links[k].source in out && acc.links[k].target in out ==>
        out[acc.links[k].target] - out[acc.links[k].source] <= 1
    {
      if k < |acc0.links| {
        assert acc.links[k] == acc0.links[k];
      } else {
        var j := k - |acc0.links|;
        assert acc.links[k] == ls[j];
        var srcLayer := if j == 0 then a else a + j;
        var tgtLayer := if j == b - a - 1 then b else a + 1 + j;
        if j > 0 { assert ls[j].source == ds[j - 1].id; }
        if j < b - a - 1 { assert ls[j].target == ds[j].id; }
        assert ls[j].source in out && out[ls[j].source] == srcLayer;
        assert ls[j].target in out && out[ls[j].target] == tgtLayer;
      }
    }
  }

  /** After splitting, no link whose ends both have a layer spans more than one layer from left to right (links
      between the same or adjacent layers, and reversed links, are all that remain); the input nodes keep their
      layers. This needs the input to use no id of the dummy form. */
  lemma {:induction false} SplitPrefixAdjacent(nodes: seq<Node>, links: seq<Link>, segments: Option<seq<string>>,
                                               n: nat)
    requires n <= |links|
    requires forall i :: 0 <= i < |nodes| ==> nodes[i].id.User?
    requires forall i :: 0 <= i < |links| ==> links[i].source.User? && links[i].target.User?
    ensures Adjacent(SplitPrefix(Ids(nodes), KnownLayers(nodes, segments), nodes, links, n),
                     KnownLayers(nodes, segments), segments)
  {
    var ids, layers := Ids(nodes), KnownLayers(nodes, segments);
    if n > 0 {
      SplitPrefixAdjacent(nodes, links, segments, n - 1);
      var acc0 := SplitPrefix(ids, layers, nodes, links, n - 1);
      var link := links[n - 1];
      assert SplitPrefix(ids, layers, nodes, links, n) == Step(ids, layers, acc0, n - 1, link);
      if SplitPlan(ids, layers, link).None? {
        KnownLayersIds(nodes, segments);
        PassStepAdjacent(ids, layers, acc0, n - 1, link, segments);
      } else {
        ChainStepAdjacent(ids, layers, acc0, n - 1, link, segments);
      }
    }
  }

  /** Only node ids have a layer. */
  lemma KnownLayersIds(nodes: seq<Node>, segments: Option<seq<string>>)
    ensures forall id :: id in KnownLayers(nodes, segments) ==> id in Ids(nodes)
  {
    forall id | id in KnownLayers(nodes, segments) ensures id in Ids(nodes) {
      KnownLayersLast(nodes, segments, id);
    }
  }

  /** The same for the whole output of split_long_links. */
  lemma SplitLinksAdjacent(nodes: seq<Node>, links: seq<Link>, segments: Option<seq<string>>)
    requires forall i :: 0 <= i < |nodes| ==> nodes[i].id.User?
    requires forall i :: 0 <= i < |links| ==> links[i].source.User? && links[i].target.User?
    ensures SpansAtMostOne(Split(nodes, links, segments).links, KnownLayers(Split(nodes, links, segments).nodes, segments))
  {
    SplitPrefixAdjacent(nodes, links, segments, |links|);
  }

  /** The loop of split_long_links that builds the layer map. */
  method ComputeKnownLayers(nodes: seq<Node>, segments: Option<seq<string>>) returns (layers: map<NodeId, int>)
    ensures layers == KnownLayers(nodes, segments)
  {
    layers := map[];
    for i := 0 to |nodes|
      invariant layers == KnownLayers(nodes[..i], segments)
    {
      assert nodes[..i + 1][..i] == nodes[..i];
      var layer := NodeLayer(nodes[i], segments);
      if layer.Some? {
        layers := layers[nodes[i].id := layer.value];
      }
    }
    assert nodes[..|nodes|] == nodes;
  }

  /** The inner loop of split_long_links: one dummy node and one link per intermediate layer, threading `prev`,
      then the final link into the target. */
  method AppendChain(link: Link, a: int, b: int, li: nat, nodes0: seq<Node>, links0: seq<Link>, next0: nat)
    returns (newNodes: seq<Node>, newLinks: seq<Link>, next: nat)
    requires b - a > 1
    ensures newNodes == nodes0 + ChainNodes(a, b, next0, li)
    ensures newLinks == links0 + ChainLinks(link, a, b, next0)
    ensures next == next0 + (b - a - 1)
  {
    newNodes, newLinks, next := nodes0, links0, next0;
    var val := ValueOr0(link);
    var prev := link.source;
    var layer := a + 1;
    while layer < b
      invariant a + 1 <= layer <= b
      invariant next == next0 + (layer - a - 1)
      invariant newNodes == nodes0 + ChainNodes(a, b, next0, li)[..layer - a - 1]
      invariant newLinks == links0 + ChainLinks(link, a, b, next0)[..layer - a - 1]
      invariant prev == if layer == a + 1 then link.source else Dummy(a, b, next - 1)
    {
      var did := Dummy(a, b, next);
      newNodes := newNodes + [DummyNode(a, b, next, layer, li)];
      newLinks := newLinks + [Link(prev, did, Some(val), link.meta)];
      assert ChainNodes(a, b, next0, li)[..layer - a] ==
        ChainNodes(a, b, next0, li)[..layer - a - 1] + [DummyNode(a, b, next, layer, li)];
      assert ChainLinks(link, a, b, next0)[..layer - a] ==
        ChainLinks(link, a, b, next0)[..layer - a - 1] + [Link(prev, did, Some(val), link.meta)];
      prev := did;
      next := next + 1;
      layer := layer + 1;
    }
    newLinks := newLinks + [Link(prev, link.target, Some(val), link.meta)];
    assert ChainNodes(a, b, next0, li)[..b - a - 1] == ChainNodes(a, b, next0, li);
    assert ChainLinks(link, a, b, next0) ==
      ChainLinks(link, a, b, next0)[..b - a - 1] + [Link(prev, link.target, Some(val), link.meta)];
  }

  method SplitLongLinks(nodes: seq<Node>, links: seq<Link>, segments: Option<seq<string>>)
    returns (newNodes: seq<Node>, newLinks: seq<Link>)
    ensures newNodes == Split(nodes, links, segments).nodes
    ensures newLinks == Split(nodes, links, segments).links
  {
    var ids := Ids(nodes);
    var layers := ComputeKnownLayers(nodes, segments);
    newNodes, newLinks := nodes, [];
    var next: nat := 1;
    for li := 0 to |links|
      invariant Acc(newNodes, newLinks, next) == SplitPrefix(ids, layers, nodes, links, li)
    {
      newNodes, newLinks, next := ProcessLink(ids, layers, links[li], li, newNodes, newLinks, next);
    }
  }

  /** The body of the loop of split_long_links over the links. */
  method ProcessLink(ids: set<NodeId>, layers: map<NodeId, int>, link: Link, li: nat,
                     nodes0: seq<Node>, links0: seq<Link>, next0: nat)
    returns (newNodes: seq<Node>, newLinks: seq<Link>, next: nat)
    ensures Acc(newNodes, newLinks, next) == Step(ids, layers, Acc(nodes0, links0, next0), li, link)
  {
    newNodes, newLinks, next := nodes0, links0, next0;
    var src, tgt := link.source, link.target;
    if src !in ids || tgt !in ids {
      newLinks := newLinks + [link];
    } else if src !in layers || tgt !in layers {
      newLinks := newLinks + [link];
    } else {
      var a, b := layers[src], layers[tgt];
      if b == a || b - a == 1 || a - b == 1 {
        newLinks := newLinks + [link];
      } else if b < a {
        newLinks := newLinks + [link];
      } else {
        newNodes, newLinks, next := AppendChain(link, a, b, li, newNodes, newLinks, next);
      }
    }
  }
}
