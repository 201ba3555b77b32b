/** Colour assignment of the colour demo renderer and its flag parser. */
module Colors {
  import opened Wrappers
  import opened Graph
  import Ordering
  import Strings

  /** The ten-colour categorical palette. */
  const Palette: seq<string> := [
    "#1f77b4", "#ff7f0e", "#2ca02c", "#d62728", "#9467bd",
    "#8c564b", "#e377c2", "#7f7f7f", "#bcbd22", "#17becf"]

  /** The palette colour for index i: the palette is cycled, so index i and index i plus its length agree. */
  function PaletteColor(i: int): string {
    Palette[i % |Palette|]
  }

  /** The colour of every dummy node. */
  const DummyColor: string := "#cccccc"

  const TrueWords: set<string> := {"1", "true", "t", "yes", "y", "on"}
  const FalseWords: set<string> := {"0", "false", "f", "no", "n", "off"}

  /** The word a flag value is compared as: stripped, then lower-cased. */
  function Normal(s: string): string {
    Strings.Lower(Strings.Strip(s))
  }

  /** `parse_bool`: a recognised true or false word decides; anything else (and None) gives the default. */
  function ParseBool(s: Option<string>, default: bool): (r: bool)
    ensures r != default ==> s.Some? && Normal(s.value) in (if r then TrueWords else FalseWords)
    ensures s.Some? && Normal(s.value) in TrueWords ==> r
    ensures s.Some? && Normal(s.value) in FalseWords ==> !r
  {
    if s.None? then default
    else
      var w := Normal(s.value);
      if w in TrueWords then true
      else if w in FalseWords then false
      else default
  }

  /** Surrounding whitespace does not change a flag. */
  lemma ParseBoolPadding(p: string, s: string, q: string, default: bool)
    requires Strings.AllSpace(p) && Strings.AllSpace(q)
    ensures ParseBool(Some(p + s + q), default) == ParseBool(Some(s), default)
  {
    Strings.StripSpaceBefore(p, s + q);
    Strings.StripSpaceAfter(s, q);
    assert p + s + q == p + (s + q);
  }

  /** Flags are read case-insensitively. */
  lemma ParseBoolIgnoresCase(s: string, t: string, default: bool)
    requires Strings.Lower(s) == Strings.Lower(t)
    ensures ParseBool(Some(s), default) == ParseBool(Some(t), default)
  {
    Strings.LowerStrip(s);
    Strings.LowerStrip(t);
  }

  /** The two word lists are disjoint, so a recognised word decides the flag whatever the default. */
  lemma ParseBoolWords(w: string, default: bool)
    ensures w in TrueWords ==> ParseBool(Some(w), default)
    ensures w in FalseWords ==> !ParseBool(Some(w), default)
  {
    if w in TrueWords || w in FalseWords {
      assert w != [] && !Strings.IsSpace(w[0]) && !Strings.IsSpace(w[|w| - 1]);
      Strings.StripTrimmed(w);
      assert Strings.Lower(w) == w;
    }
  }

  /** The rank of a segment among the used ones: how many used segments are smaller. */
  function Rank(used: set<int>, seg: int): nat {
    |set y | y in used && y < seg|
  }

  /** The distinct segment values of the layer map. */
  function Used(layerMap: ODict<NodeId, int>): set<int> {
    set k | k in layerMap.entries :: layerMap.entries[k]
  }

  /** The segment colouring of both modes: every used segment, coloured by its rank. */
  ghost predicate SegmentColoring(layerMap: ODict<NodeId, int>, segColor: map<int, string>) {
    segColor.Keys == Used(layerMap)
    && forall seg :: seg in segColor ==> segColor[seg] == PaletteColor(Rank(Used(layerMap), seg))
  }

  predicate Shown(n: Node) {
    !n.dummy
  }

  /** The nodes that are not dummies; NonDummiesInOrder states their order. */
  function NonDummies(nodes: seq<Node>): (r: seq<Node>)
    ensures forall i :: 0 <= i < |r| ==> r[i] in nodes && !r[i].dummy
    ensures forall i :: 0 <= i < |nodes| && !nodes[i].dummy ==> nodes[i] in r
    ensures (forall i, j :: 0 <= i < j < |nodes| ==> nodes[i].id != nodes[j].id) ==>
      forall i, j :: 0 <= i < j < |r| ==> r[i].id != r[j].id
  {
    if nodes == [] then []
    else
      var init := NonDummies(nodes[..|nodes| - 1]);
      var last := nodes[|nodes| - 1];
      assert forall i :: 0 <= i < |nodes| - 1 ==> nodes[..|nodes| - 1][i] == nodes[i];
      if last.dummy then init else init + [last]
  }

  /** The non-dummy nodes are exactly the nodes at the positions of the non-dummies, in the same order and with the
      same multiplicity. */
  lemma {:induction false} NonDummiesInOrder(nodes: seq<Node>)
    ensures |NonDummies(nodes)| == |Positions(nodes, Shown)|
    ensures forall i :: 0 <= i < |NonDummies(nodes)| ==> NonDummies(nodes)[i] == nodes[Positions(nodes, Shown)[i]]
  {
    if nodes != [] {
      var n := |nodes| - 1;
      NonDummiesInOrder(nodes[..n]);
      var ps := Positions(nodes[..n], Shown);
      assert Positions(nodes, Shown) == ps + (if nodes[n].dummy then [] else [n]);
      assert forall i :: 0 <= i < |ps| ==> nodes[..n][ps[i]] == nodes[ps[i]];
    }
  }

  /** The last of the first `n` nodes that has this id. */
  function LastWith(nodes: seq<Node>, id: NodeId, n: nat): (r: Option<Node>)
    requires n <= |nodes|
  {
    if n == 0 then None
    else if nodes[n - 1].id == id then Some(nodes[n - 1])
    else LastWith(nodes, id, n - 1)
  }

  /** The id-to-node dict of the first `n` nodes: each id maps to the last node that has it. */
  function ById(nodes: seq<Node>, n: nat): (r: map<NodeId, Node>)
    requires n <= |nodes|
    ensures forall id :: id in r <==> LastWith(nodes, id, n).Some?
    ensures forall id :: id in r ==> r[id] == LastWith(nodes, id, n).value
  {
    if n == 0 then map[] else ById(nodes, n - 1)[nodes[n - 1].id := nodes[n - 1]]
  }

  /** Whether a node with this id is a dummy, judged by the last node with the id (no node: not a dummy). */
  function IsDummy(nodes: seq<Node>, id: NodeId): bool {
    var last := LastWith(nodes, id, |nodes|);
    last.Some? && last.value.dummy
  }

  /** Whether some node with this id among the first `n` is a dummy. */
  ghost predicate DummyAmong(nodes: seq<Node>, id: NodeId, n: int) {
    exists j :: 0 <= j < n && j < |nodes| && nodes[j].dummy && nodes[j].id == id
  }

  /** The per-item node colouring: every node id is coloured; an id with a dummy node gets the dummy colour,
      any other id the palette colour of the rank of its last node among the non-dummy nodes. */
  ghost predicate ItemColoring(nodes: seq<Node>, nodeColor: map<NodeId, string>) {
    var nd := NonDummies(nodes);
    nodeColor.Keys == Ids(nodes)
    && (forall i :: 0 <= i < |nodes| && nodes[i].dummy ==> nodeColor[nodes[i].id] == DummyColor)
    && (forall i :: 0 <= i < |nd| && LastBefore(nd, i, |nd|) && !DummyAmong(nodes, nd[i].id, |nodes|) ==>
          nodeColor[nd[i].id] == PaletteColor(i))
  }

  /** The per-segment node colouring: every id of the layer map is coloured, a dummy with the dummy colour and
      any other with its segment's colour. */
  ghost predicate SegmentNodeColoring(layerMap: ODict<NodeId, int>, nodes: seq<Node>, nodeColor: map<NodeId, string>) {
    nodeColor.Keys == layerMap.entries.Keys
    && forall id :: id in nodeColor ==> nodeColor[id] == SegmentNodeColor(layerMap, nodes, id)
  }

  ghost function SegmentNodeColor(layerMap: ODict<NodeId, int>, nodes: seq<Node>, id: NodeId): string
    requires id in layerMap.entries
  {
    if IsDummy(nodes, id) then DummyColor else PaletteColor(Rank(Used(layerMap), layerMap.entries[id]))
  }

  /** `assign_colors`: the segment colours and the node colours for the mode. The layer map is a Python dict,
      iterated in insertion order. */
  method AssignColors(layerMap: ODict<NodeId, int>, nodes: seq<Node>, mode: string)
    returns (segColor: map<int, string>, nodeColor: map<NodeId, string>)
    requires layerMap.Valid()
    ensures SegmentColoring(layerMap, segColor)
    ensures mode == "per_item" ==> ItemColoring(nodes, nodeColor)
    ensures mode != "per_item" ==> SegmentNodeColoring(layerMap, nodes, nodeColor)
  {
    var byId := ById(nodes, |nodes|);
    if mode == "per_item" {
      nodeColor := ItemColors(nodes);
      segColor := SegmentColors(layerMap);
      return;
    }
    segColor := SegmentColors(layerMap);
    nodeColor := map[];
    var fallback := PaletteColor(0);
    for i := 0 to |layerMap.keys|
      invariant forall id :: id in nodeColor <==> id in layerMap.keys[..i]
      invariant forall id :: id in nodeColor ==> nodeColor[id] == SegmentNodeColor(layerMap, nodes, id)
    {
      var nid := layerMap.keys[i];
      var seg := layerMap.entries[nid];
      assert seg in segColor;
      if nid in byId && byId[nid].dummy {
        nodeColor := nodeColor[nid := DummyColor];
      } else {
        nodeColor := nodeColor[nid := if seg in segColor then segColor[seg] else fallback];
      }
      assert layerMap.keys[..i + 1] == layerMap.keys[..i] + [nid];
    }
    assert layerMap.keys[..|layerMap.keys|] == layerMap.keys;
  }

  /** The node colours of the per-item mode. */
  method ItemColors(nodes: seq<Node>) returns (nodeColor: map<NodeId, string>)
    ensures ItemColoring(nodes, nodeColor)
  {
    var nd := NonDummies(nodes);
    nodeColor := RankColors(nd);
    nodeColor := DummyColors(nodes, nd, nodeColor);
  }

  /** No later node among the first `n` has the id of node `j`. */
  ghost predicate LastBefore(nd: seq<Node>, j: int, n: int)
    requires 0 <= j < |nd| && n <= |nd|
  {
    forall k :: j < k < n ==> nd[k].id != nd[j].id
  }

  /** The colours after the first `n` non-dummy nodes were coloured by their position. */
  ghost predicate Ranked(nd: seq<Node>, nodeColor: map<NodeId, string>, n: int)
    requires 0 <= n <= |nd|
  {
    (forall id :: id in nodeColor <==> exists j :: 0 <= j < n && nd[j].id == id)
    && forall j :: 0 <= j < n && LastBefore(nd, j, n) ==> nodeColor[nd[j].id] == PaletteColor(j)
  }

  /** The first loop of the per-item mode: the i-th non-dummy node gets the i-th palette colour, cyclically. */
  method RankColors(nd: seq<Node>) returns (nodeColor: map<NodeId, string>)
    ensures Ranked(nd, nodeColor, |nd|)
  {
    nodeColor := map[];
    for i := 0 to |nd|
      invariant Ranked(nd, nodeColor, i)
    {
      RankedStep(nd, nodeColor, i);
      nodeColor := nodeColor[nd[i].id := PaletteColor(i)];
    }
  }

  lemma RankedStep(nd: seq<Node>, nodeColor: map<NodeId, string>, i: nat)
    requires i < |nd| && Ranked(nd, nodeColor, i)
    ensures Ranked(nd, nodeColor[nd[i].id := PaletteColor(i)], i + 1)
  {
    RankedKeys(nd, nodeColor, i);
    RankedColours(nd, nodeColor, i);
  }

  lemma RankedKeys(nd: seq<Node>, nodeColor: map<NodeId, string>, i: nat)
    requires i < |nd| && Ranked(nd, nodeColor, i)
    ensures var m := nodeColor[nd[i].id := PaletteColor(i)];
      forall id :: id in m <==> exists j :: 0 <= j < i + 1 && nd[j].id == id
  {
    var m := nodeColor[nd[i].id := PaletteColor(i)];
    forall j | 0 <= j < i + 1 ensures nd[j].id in m {
      if j < i {
        assert nd[j].id in nodeColor;
      }
    }
    forall id | id in m ensures exists j :: 0 <= j < i + 1 && nd[j].id == id {
      if id == nd[i].id {
        assert nd[i].id == id;
      } else {
        var j :| 0 <= j < i && nd[j].id == id;
        assert 0 <= j < i + 1 && nd[j].id == id;
      }
    }
  }

  lemma RankedColours(nd: seq<Node>, nodeColor: map<NodeId, string>, i: nat)
    requires i < |nd| && Ranked(nd, nodeColor, i)
    ensures forall j :: 0 <= j < i + 1 && LastBefore(nd, j, i + 1) ==>
      nodeColor[nd[i].id := PaletteColor(i)][nd[j].id] == PaletteColor(j)
  {
    var m := nodeColor[nd[i].id := PaletteColor(i)];
    forall j | 0 <= j < i + 1 && LastBefore(nd, j, i + 1) ensures m[nd[j].id] == PaletteColor(j) {
      if j < i {
        assert nd[i].id != nd[j].id;
        assert LastBefore(nd, j, i);
        assert nodeColor[nd[j].id] == PaletteColor(j);
        assert m[nd[j].id] == nodeColor[nd[j].id];
      } else {
        assert j == i;
      }
    }
  }

  /** The colours after the first `n` nodes of the second per-item loop. */
  ghost predicate Recoloured(nodes: seq<Node>, nd: seq<Node>, nodeColor0: map<NodeId, string>,
                             nodeColor: map<NodeId, string>, n: int)
  {
    (forall id :: id in nodeColor <==> id in nodeColor0 || DummyAmong(nodes, id, n))
    && (forall j :: 0 <= j < n && j < |nodes| && nodes[j].dummy ==>
          nodes[j].id in nodeColor && nodeColor[nodes[j].id] == DummyColor)
    && (forall j :: 0 <= j < |nd| && LastBefore(nd, j, |nd|) && !DummyAmong(nodes, nd[j].id, n) ==>
          nd[j].id in nodeColor && nodeColor[nd[j].id] == PaletteColor(j))
  }

  /** The second loop of the per-item mode: dummy nodes are recoloured. */
  method DummyColors(nodes: seq<Node>, nd: seq<Node>, nodeColor0: map<NodeId, string>) returns (nodeColor: map<NodeId, string>)
    requires nd == NonDummies(nodes) && Ranked(nd, nodeColor0, |nd|)
    ensures ItemColoring(nodes, nodeColor)
  {
    nodeColor := nodeColor0;
    for i := 0 to |nodes|
      invariant Recoloured(nodes, nd, nodeColor0, nodeColor, i)
    {
      var n := nodes[i];
      NonDummyColoured(nodes, nd, nodeColor0, nodeColor, i);
      RecolouredStep(nodes, nd, nodeColor0, nodeColor, i);
      if n.dummy {
        nodeColor := nodeColor[n.id := DummyColor];
      } else if n.id !in nodeColor {
        // Unreachable: the first loop coloured every non-dummy node.
        assert false;
      }
    }
    ItemIds(nodes, nd, nodeColor0, nodeColor);
  }

  lemma NonDummyColoured(nodes: seq<Node>, nd: seq<Node>, nodeColor0: map<NodeId, string>,
                         nodeColor: map<NodeId, string>, i: nat)
    requires nd == NonDummies(nodes) && Ranked(nd, nodeColor0, |nd|) && i < |nodes|
    requires Recoloured(nodes, nd, nodeColor0, nodeColor, i)
    ensures !nodes[i].dummy ==> nodes[i].id in nodeColor
  {
    if !nodes[i].dummy {
      assert nodes[i] in nd;
      var j :| 0 <= j < |nd| && nd[j] == nodes[i];
      assert nd[j].id in nodeColor0;
    }
  }

  lemma RecolouredStep(nodes: seq<Node>, nd: seq<Node>, nodeColor0: map<NodeId, string>,
                       nodeColor: map<NodeId, string>, i: nat)
    requires i < |nodes| && Recoloured(nodes, nd, nodeColor0, nodeColor, i)
    ensures Recoloured(nodes, nd, nodeColor0,
      if nodes[i].dummy then nodeColor[nodes[i].id := DummyColor] else nodeColor, i + 1)
  {
    var n := nodes[i];
    var m := if n.dummy then nodeColor[n.id := DummyColor] else nodeColor;
    forall id ensures DummyAmong(nodes, id, i + 1) <==> DummyAmong(nodes, id, i) || (n.dummy && n.id == id) {
      if DummyAmong(nodes, id, i + 1) && !(n.dummy && n.id == id) {
        var j :| 0 <= j < i + 1 && j < |nodes| && nodes[j].dummy && nodes[j].id == id;
        assert j < i;
      }
    }
    forall j | 0 <= j < i + 1 && j < |nodes| && nodes[j].dummy ensures m[nodes[j].id] == DummyColor {
      if j < i && nodes[j].id != n.id {
        assert nodeColor[nodes[j].id] == DummyColor;
      }
    }
  }

  lemma ItemIds(nodes: seq<Node>, nd: seq<Node>, nodeColor0: map<NodeId, string>, nodeColor: map<NodeId, string>)
    requires nd == NonDummies(nodes)
    requires forall id :: id in nodeColor0 <==> exists j :: 0 <= j < |nd| && nd[j].id == id
    requires forall id :: id in nodeColor <==> id in nodeColor0 || DummyAmong(nodes, id, |nodes|)
    ensures nodeColor.Keys == Ids(nodes)
  {
    forall id | id in Ids(nodes) ensures id in nodeColor {
      var i :| 0 <= i < |nodes| && nodes[i].id == id;
      NodeColoured(nodes, nd, nodeColor0, nodeColor, i);
    }
    forall id | id in nodeColor ensures id in Ids(nodes) {
      if id in nodeColor0 {
        var j :| 0 <= j < |nd| && nd[j].id == id;
        ColouredNode(nodes, nd, j);
      }
    }
  }

  lemma NodeColoured(nodes: seq<Node>, nd: seq<Node>, nodeColor0: map<NodeId, string>, nodeColor: map<NodeId, string>, i: nat)
    requires nd == NonDummies(nodes) && i < |nodes|
    requires forall id :: id in nodeColor0 <==> exists j :: 0 <= j < |nd| && nd[j].id == id
    requires forall id :: id in nodeColor <==> id in nodeColor0 || DummyAmong(nodes, id, |nodes|)
    ensures nodes[i].id in nodeColor
  {
    if !nodes[i].dummy {
      assert nodes[i] in nd;
      var j :| 0 <= j < |nd| && nd[j] == nodes[i];
      assert nd[j].id == nodes[i].id;
    } else {
      assert DummyAmong(nodes, nodes[i].id, |nodes|);
    }
  }

  lemma ColouredNode(nodes: seq<Node>, nd: seq<Node>, j: nat)
    requires nd == NonDummies(nodes) && j < |nd|
    ensures nd[j].id in Ids(nodes)
  {
    assert nd[j] in nodes;
    var i :| 0 <= i < |nodes| && nodes[i] == nd[j];
  }

  /** The segment colours: the used segments sorted, each coloured by its position. */
  method SegmentColors(layerMap: ODict<NodeId, int>) returns (segColor: map<int, string>)
    requires layerMap.Valid()
    ensures SegmentColoring(layerMap, segColor)
  {
    // The set `used`, held as the list of its elements in the order they were added.
    var used: seq<int> := [];
    for i := 0 to |layerMap.keys|
      invariant forall x :: x in used <==> exists j :: 0 <= j < i && layerMap.entries[layerMap.keys[j]] == x
      invariant forall j, k :: 0 <= j < k < |used| ==> used[j] != used[k]
    {
      var seg := layerMap.entries[layerMap.keys[i]];
      if seg !in used {
        used := used + [seg];
      }
    }
    var sorted := Ordering.SortInts(used);
    Ordering.SortIntsIncreasing(used);
    segColor := ColourSorted(sorted);
    UsedElements(layerMap, used, sorted);
    RankIncreasing(sorted, Used(layerMap));
  }

  /** The segment colours: each segment of the ascending list gets the palette colour of its position. */
  method ColourSorted(sorted: seq<int>) returns (segColor: map<int, string>)
    requires Ordering.Increasing(sorted)
    ensures segColor.Keys == set j | 0 <= j < |sorted| :: sorted[j]
    ensures forall j :: 0 <= j < |sorted| ==> segColor[sorted[j]] == PaletteColor(j)
  {
    segColor := map[];
    for i := 0 to |sorted|
      invariant segColor.Keys == set j | 0 <= j < i :: sorted[j]
      invariant forall j :: 0 <= j < i ==> segColor[sorted[j]] == PaletteColor(j)
    {
      segColor := segColor[sorted[i] := PaletteColor(i)];
    }
  }

  lemma UsedElements(layerMap: ODict<NodeId, int>, used: seq<int>, sorted: seq<int>)
    requires layerMap.Valid()
    requires forall x :: x in used <==> exists j :: 0 <= j < |layerMap.keys| && layerMap.entries[layerMap.keys[j]] == x
    requires multiset(sorted) == multiset(used)
    ensures forall y :: y in Used(layerMap) <==> y in multiset(sorted)
    ensures (set j | 0 <= j < |sorted| :: sorted[j]) == Used(layerMap)
  {
    forall y ensures y in Used(layerMap) <==> y in used {
      if y in Used(layerMap) {
        var k :| k in layerMap.entries && layerMap.entries[k] == y;
        assert k in layerMap.keys;
        var j :| 0 <= j < |layerMap.keys| && layerMap.keys[j] == k;
      }
    }
    forall y | y in Used(layerMap) ensures y in set j | 0 <= j < |sorted| :: sorted[j] {
      assert y in multiset(sorted);
      assert y in sorted;
      var j :| 0 <= j < |sorted| && sorted[j] == y;
    }
    forall y | y in (set j | 0 <= j < |sorted| :: sorted[j]) ensures y in Used(layerMap) {
      var j :| 0 <= j < |sorted| && sorted[j] == y;
      assert y in multiset(used);
    }
  }

  /** In an ascending list of the used segments, each sits at its rank. */
  lemma RankIncreasing(s: seq<int>, used: set<int>)
    requires Ordering.Increasing(s)
    requires forall y :: y in used <==> y in multiset(s)
    ensures forall i :: 0 <= i < |s| ==> Rank(used, s[i]) == i
  {
    forall i | 0 <= i < |s| ensures Rank(used, s[i]) == i {
      assert (set y | y in used && y < s[i]) == set j | 0 <= j < i :: s[j] by {
        forall y | y in used && y < s[i] ensures y in set j | 0 <= j < i :: s[j] {
          assert y in s;
          var j :| 0 <= j < |s| && s[j] == y;
        }
      }
      PrefixCard(s, i);
    }
  }

  /** The first `n` elements of a strictly ascending list are `n` distinct values. */
  lemma {:induction false} PrefixCard(s: seq<int>, n: nat)
    requires Ordering.Increasing(s) && n <= |s|
    ensures |set j | 0 <= j < n :: s[j]| == n
  {
    if n > 0 {
      PrefixCard(s, n - 1);
      assert (set j | 0 <= j < n :: s[j]) == (set j | 0 <= j < n - 1 :: s[j]) + {s[n - 1]};
    }
  }

  /** With distinct node ids, the i-th non-dummy node gets the i-th palette colour (cyclically). */
  lemma ItemColoringDistinct(nodes: seq<Node>, nodeColor: map<NodeId, string>)
    requires ItemColoring(nodes, nodeColor)
    requires forall i, j :: 0 <= i < j < |nodes| ==> nodes[i].id != nodes[j].id
    ensures forall i :: 0 <= i < |NonDummies(nodes)| ==> nodeColor[NonDummies(nodes)[i].id] == PaletteColor(i)
  {
    var nd := NonDummies(nodes);
    forall i | 0 <= i < |nd| ensures nodeColor[nd[i].id] == PaletteColor(i) {
      assert nd[i] in nodes;
      assert !DummyAmong(nodes, nd[i].id, |nodes|);
    }
  }
}
