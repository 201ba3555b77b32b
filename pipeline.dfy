/** build_internal_graph: infer the layers, write each node's layer into its segment, split the long links, and
    read back the layer of every node, dummy nodes included. */
module Pipeline {
  import opened Wrappers
  import opened Graph
  import opened Splitter
  import opened Layering

  /** Every node id is a user id (no input id has the dummy form). */
  predicate UserIds(nodes: seq<Node>) {
    forall i :: 0 <= i < |nodes| ==> nodes[i].id.User?
  }

  /** Every link endpoint is a user id. */
  predicate UserEnds(links: seq<Link>) {
    forall i :: 0 <= i < |links| ==> links[i].source.User? && links[i].target.User?
  }

  /** The copies of the nodes with the integer segment of their layer, where the layer map has one. */
  function Annotate(nodes: seq<Node>, layers: map<NodeId, int>): (r: seq<Node>)
    ensures |r| == |nodes|
  {
    seq(|nodes|, i requires 0 <= i < |nodes| =>
      if nodes[i].id in layers then nodes[i].(segment := Some(SInt(layers[nodes[i].id]))) else nodes[i])
  }

  /** The final layer map: each node whose segment is an integer, later nodes overwriting earlier ones. */
  function IntLayers(nodes: seq<Node>): map<NodeId, int> {
    if nodes == [] then map[]
    else
      var m, n := IntLayers(nodes[..|nodes| - 1]), nodes[|nodes| - 1];
      match n.segment
      case Some(SInt(i)) => m[n.id := i]
      case _ => m
  }

  predicate AllIntSegments(nodes: seq<Node>) {
    forall i :: 0 <= i < |nodes| ==> nodes[i].segment.Some? && nodes[i].segment.value.SInt?
  }

  /** When every segment is an integer, the final layer map is the splitter's layer map and covers every node. */
  lemma {:induction false} IntLayersKnown(nodes: seq<Node>, segments: Option<seq<string>>)
    requires AllIntSegments(nodes)
    ensures IntLayers(nodes) == KnownLayers(nodes, segments)
    ensures IntLayers(nodes).Keys == Ids(nodes)
  {
    if nodes != [] {
      var init := nodes[..|nodes| - 1];
      IntLayersKnown(init, segments);
      assert Ids(nodes) == Ids(init) + {nodes[|nodes| - 1].id} by {
        assert forall i :: 0 <= i < |init| ==> init[i] == nodes[i];
      }
    }
  }

  /** After annotation with a layer map that covers every node, the splitter sees exactly that layer map. */
  lemma {:induction false} AnnotatedLayers(nodes: seq<Node>, layers: map<NodeId, int>, segments: Option<seq<string>>)
    requires Ids(nodes) <= layers.Keys
    ensures AllIntSegments(Annotate(nodes, layers))
    ensures KnownLayers(Annotate(nodes, layers), segments) == map v | v in Ids(nodes) :: layers[v]
  {
    var a := Annotate(nodes, layers);
    assert forall i :: 0 <= i < |nodes| ==> nodes[i].id in Ids(nodes);
    if nodes != [] {
      var init := nodes[..|nodes| - 1];
      assert Ids(nodes) == Ids(init) + {nodes[|nodes| - 1].id} by {
        assert forall i :: 0 <= i < |init| ==> init[i] == nodes[i];
      }
      AnnotatedLayers(init, layers, segments);
      assert a[..|a| - 1] == Annotate(init, layers);
    }
  }

  /** The annotation loop of build_internal_graph. */
  method AnnotateNodes(nodes: seq<Node>, layers: map<NodeId, int>) returns (r: seq<Node>)
    ensures r == Annotate(nodes, layers)
  {
    r := [];
    for i := 0 to |nodes|
      invariant r == Annotate(nodes[..i], layers)
    {
      var n := nodes[i];
      if n.id in layers {
        n := n.(segment := Some(SInt(layers[n.id])));
      }
      r := r + [n];
    }
    assert nodes[..|nodes|] == nodes;
  }

  /** The loop that recomputes the layer map over the nodes after splitting. */
  method ReadLayers(nodes: seq<Node>) returns (m: map<NodeId, int>)
    ensures m == IntLayers(nodes)
  {
    m := map[];
    for i := 0 to |nodes|
      invariant m == IntLayers(nodes[..i])
    {
      assert nodes[..i + 1][..i] == nodes[..i];
      match nodes[i].segment
      case Some(SInt(l)) => m := m[nodes[i].id := l];
      case _ =>
    }
    assert nodes[..|nodes|] == nodes;
  }

  /** build_internal_graph. The input nodes come first, with their layer as integer segment, followed by dummy
      nodes; every node has a final layer; explicit layers are kept when every node has one; and every link of the
      result between two layered nodes goes at most one layer to the right. */
  method BuildInternalGraph(nodes: seq<Node>, links: seq<Link>, segments: Option<seq<string>>)
    returns (newNodes: seq<Node>, newLinks: seq<Link>, finalLayers: map<NodeId, int>,
             ghost inferred: map<NodeId, int>, ghost propagated: map<NodeId, Option<int>>,
             ghost processed: set<NodeId>, ghost shift: int)
    ensures Inferred(nodes, links, segments, inferred, propagated, processed, shift)
    ensures newNodes == Split(Annotate(nodes, inferred), links, segments).nodes
    ensures newLinks == Split(Annotate(nodes, inferred), links, segments).links
    ensures finalLayers == IntLayers(newNodes)
    ensures UserIds(nodes) ==> forall v :: v in Ids(nodes) ==> v in finalLayers && finalLayers[v] == inferred[v]
    ensures |newNodes| >= |nodes|
    ensures finalLayers.Keys == Ids(newNodes)
    ensures forall i :: |nodes| <= i < |newNodes| ==> newNodes[i].dummy && newNodes[i].id.Dummy?
    ensures UserIds(nodes) ==>
      forall i :: 0 <= i < |nodes| ==>
        nodes[i].id in finalLayers && newNodes[i] == nodes[i].(segment := Some(SInt(finalLayers[nodes[i].id])))
    ensures UserIds(nodes) && AllKnown(ExplicitLayers(nodes, segments)) ==>
      forall v :: v in Ids(nodes) ==> ExplicitLayers(nodes, segments)[v] == Some(finalLayers[v])
    ensures UserIds(nodes) && UserEnds(links) ==>
      forall k :: 0 <= k < |newLinks| && newLinks[k].source in finalLayers && newLinks[k].target in finalLayers ==>
        finalLayers[newLinks[k].target] - finalLayers[newLinks[k].source] <= 1
  {
    var layers;
    layers, propagated, processed, shift := InferLayers(nodes, links, segments);
    inferred := layers;
    var annotated := AnnotateNodes(nodes, layers);
    newNodes, newLinks := SplitLongLinks(annotated, links, segments);
    finalLayers := ReadLayers(newNodes);
    Facts(nodes, links, segments, layers);
    if UserIds(nodes) {
      forall v | v in Ids(nodes) ensures v in finalLayers && finalLayers[v] == inferred[v] {
        var i :| 0 <= i < |nodes| && nodes[i].id == v;
      }
    }
  }

  lemma Facts(nodes: seq<Node>, links: seq<Link>, segments: Option<seq<string>>, layers: map<NodeId, int>)
    requires layers.Keys == Ids(nodes)
    ensures var annotated := Annotate(nodes, layers);
      var out := Split(annotated, links, segments);
      var finalLayers := IntLayers(out.nodes);
      && |out.nodes| >= |nodes|
      && finalLayers.Keys == Ids(out.nodes)
      && finalLayers == KnownLayers(out.nodes, segments)
      && (forall i :: |nodes| <= i < |out.nodes| ==> out.nodes[i].dummy && out.nodes[i].id.Dummy?)
      && (UserIds(nodes) ==>
           forall i :: 0 <= i < |nodes| ==>
             nodes[i].id in finalLayers && finalLayers[nodes[i].id] == layers[nodes[i].id]
             && out.nodes[i] == nodes[i].(segment := Some(SInt(finalLayers[nodes[i].id]))))
      && (UserIds(nodes) && UserEnds(links) ==>
           forall k :: 0 <= k < |out.links| && out.links[k].source in finalLayers && out.links[k].target in finalLayers ==>
             finalLayers[out.links[k].target] - finalLayers[out.links[k].source] <= 1)
  {
    var annotated := Annotate(nodes, layers);
    AnnotatedLayers(nodes, layers, segments);
    assert Ids(annotated) == Ids(nodes) by {
      assert forall i :: 0 <= i < |nodes| ==> annotated[i].id == nodes[i].id;
    }
    assert KnownLayers(annotated, segments) == layers;
    Shape(annotated, links, segments);
    if UserIds(nodes) {
      assert UserIds(annotated);
      Prefix(annotated, links, segments);
      var out := Split(annotated, links, segments);
      var finalLayers := IntLayers(out.nodes);
      forall i | 0 <= i < |nodes|
        ensures nodes[i].id in finalLayers && finalLayers[nodes[i].id] == layers[nodes[i].id]
          && out.nodes[i] == nodes[i].(segment := Some(SInt(finalLayers[nodes[i].id])))
      {
        assert nodes[i].id in Ids(nodes);
        assert out.nodes[i] == out.nodes[..|nodes|][i] == annotated[i];
      }
      if UserEnds(links) {
        SplitLinksAdjacent(annotated, links, segments);
      }
    }
  }

  /** The output nodes: the input, then dummies; all with integer segments when the input has them. */
  lemma Shape(nodes: seq<Node>, links: seq<Link>, segments: Option<seq<string>>)
    requires AllIntSegments(nodes)
    ensures var out := Split(nodes, links, segments);
      && |out.nodes| >= |nodes| && out.nodes[..|nodes|] == nodes
      && (forall i :: |nodes| <= i < |out.nodes| ==> out.nodes[i].dummy && out.nodes[i].id.Dummy?)
      && AllIntSegments(out.nodes)
      && IntLayers(out.nodes) == KnownLayers(out.nodes, segments)
      && IntLayers(out.nodes).Keys == Ids(out.nodes)
  {
    AppendedDummies(Ids(nodes), KnownLayers(nodes, segments), nodes, links, |links|);
    var out := Split(nodes, links, segments);
    assert AllIntSegments(out.nodes) by {
      forall i | 0 <= i < |out.nodes| ensures out.nodes[i].segment.Some? && out.nodes[i].segment.value.SInt? {
        if i < |nodes| { assert out.nodes[i] == out.nodes[..|nodes|][i]; }
      }
    }
    IntLayersKnown(out.nodes, segments);
  }

  /** With user ids only, the final layer of an input id is the layer the input nodes had. */
  lemma Prefix(nodes: seq<Node>, links: seq<Link>, segments: Option<seq<string>>)
    requires AllIntSegments(nodes) && UserIds(nodes)
    ensures var out := Split(nodes, links, segments);
      forall i :: 0 <= i < |nodes| ==>
        nodes[i].id in KnownLayers(out.nodes, segments) && nodes[i].id in KnownLayers(nodes, segments)
        && KnownLayers(out.nodes, segments)[nodes[i].id] == KnownLayers(nodes, segments)[nodes[i].id]
  {
    Shape(nodes, links, segments);
    IntLayersKnown(nodes, segments);
    var out := Split(nodes, links, segments);
    var ds := out.nodes[|nodes|..];
    assert out.nodes == nodes + ds;
    DummyIdsDistinct(nodes, links, segments);
    SuffixDistinct(out.nodes, |nodes|);
    assert forall j :: 0 <= j < |ds| ==> ds[j] == out.nodes[|nodes| + j];
    KnownLayersAppend(nodes, ds, segments);
    forall i | 0 <= i < |nodes| ensures nodes[i].id !in Ids(ds) && nodes[i].id in Ids(nodes) {
    }
  }

  lemma SuffixDistinct(s: seq<Node>, n: nat)
    requires n <= |s|
    requires forall i, j :: n <= i < j < |s| ==> s[i].id != s[j].id
    ensures forall i, j :: 0 <= i < j < |s[n..]| ==> s[n..][i].id != s[n..][j].id
  {
    forall i, j | 0 <= i < j < |s[n..]| ensures s[n..][i].id != s[n..][j].id {
      assert s[n..][i] == s[n + i] && s[n..][j] == s[n + j];
    }
  }
}
