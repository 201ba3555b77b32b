/** The two-column diagram: left nodes with declared values, right nodes with the flows they receive from left
    nodes, the check that the flows add up, and the index and link lists the diagram is drawn from. */
module TwoColumn {
  import opened Wrappers
  import Colors

  /** One flow into a right node: `(source, value)`. */
  datatype Flow = Flow(source: string, value: real)

  /** Left node name to its declared value, in insertion order. */
  type LeftNodes = ODict<string, real>

  /** Right node name to the flows it receives, in insertion order. */
  type RightNodes = ODict<string, seq<Flow>>

  /** The flows of the first `n` right nodes, right node by right node, each node's flows in order. */
  function AllFlows(right: RightNodes, n: nat): (r: seq<Flow>)
    requires n <= |right.keys| && forall i :: 0 <= i < |right.keys| ==> right.keys[i] in right.entries
  {
    if n == 0 then [] else AllFlows(right, n - 1) + right.entries[right.keys[n - 1]]
  }

  /** Every flow of a right node among the first `n` is among the first `m >= n`. */
  lemma {:induction false} AllFlowsGrow(right: RightNodes, n: nat, m: nat)
    requires n <= m <= |right.keys| && forall i :: 0 <= i < |right.keys| ==> right.keys[i] in right.entries
    ensures forall f :: f in AllFlows(right, n) ==> f in AllFlows(right, m)
    decreases m
  {
    if n < m {
      AllFlowsGrow(right, n, m - 1);
    }
  }

  /** The summed value of the flows out of one left node. */
  function Total(fs: seq<Flow>, node: string): real {
    if fs == [] then 0.0
    else Total(fs[..|fs| - 1], node) + (if fs[|fs| - 1].source == node then fs[|fs| - 1].value else 0.0)
  }

  lemma TotalAppend(fs: seq<Flow>, f: Flow, node: string)
    ensures Total(fs + [f], node) == Total(fs, node) + (if f.source == node then f.value else 0.0)
  {
    assert (fs + [f])[..|fs|] == fs;
  }

  /** A left node no flow comes from totals 0. */
  lemma {:induction false} TotalNone(fs: seq<Flow>, node: string)
    requires forall i :: 0 <= i < |fs| ==> fs[i].source != node
    ensures Total(fs, node) == 0.0
  {
    if fs != [] {
      TotalNone(fs[..|fs| - 1], node);
    }
  }

  /** The totals of two flow lists one after the other add up. */
  lemma {:induction false} TotalConcat(fs: seq<Flow>, gs: seq<Flow>, node: string)
    ensures Total(fs + gs, node) == Total(fs, node) + Total(gs, node)
    decreases |gs|
  {
    if gs == [] {
      assert fs + gs == fs;
    } else {
      var init, last := gs[..|gs| - 1], gs[|gs| - 1];
      assert fs + gs == (fs + init) + [last];
      TotalAppend(fs + init, last, node);
      TotalConcat(fs, init, node);
    }
  }

  /** A total agrees with the expected value when they differ by at most 0.01. */
  predicate Within(total: real, expected: real) {
    -0.01 <= total - expected <= 0.01
  }

  predicate RightWellFormed(right: RightNodes) {
    forall i :: 0 <= i < |right.keys| ==> right.keys[i] in right.entries
  }

  /** Every flow comes from a left node. */
  ghost predicate SourcesKnown(left: LeftNodes, right: RightNodes)
    requires RightWellFormed(right)
  {
    forall f :: f in AllFlows(right, |right.keys|) ==> f.source in left.entries
  }

  /** Every left node sends out, within 0.01, what it declares. */
  ghost predicate Balanced(left: LeftNodes, right: RightNodes)
    requires RightWellFormed(right)
  {
    forall k :: k in left.entries ==> Within(Total(AllFlows(right, |right.keys|), k), left.entries[k])
  }

  /** The running totals: every left node mapped to its total over the flows seen so far. */
  ghost predicate Totals(left: LeftNodes, totals: map<string, real>, seen: seq<Flow>) {
    totals.Keys == left.entries.Keys && forall k :: k in totals ==> totals[k] == Total(seen, k)
  }

  /** `validate_flows` (the warnings it prints are left out): false as soon as a flow names an unknown left node,
      otherwise whether every left node balances. */
  method ValidateFlows(left: LeftNodes, right: RightNodes) returns (ok: bool)
    requires left.Valid() && right.Valid()
    ensures ok <==> SourcesKnown(left, right) && Balanced(left, right)
  {
    var totals: map<string, real> := map k | k in left.entries :: 0.0;
    for r := 0 to |right.keys|
      invariant Totals(left, totals, AllFlows(right, r))
      invariant forall f :: f in AllFlows(right, r) ==> f.source in left.entries
    {
      var flows := right.entries[right.keys[r]];
      var known;
      totals, known := AddFlows(left, totals, AllFlows(right, r), flows);
      if !known {
        AllFlowsGrow(right, r + 1, |right.keys|);
        return false;
      }
    }
    assert SourcesKnown(left, right);
    ok := CheckTotals(left, totals);
    BalancedByKeys(left, right, totals);
  }

  /** The second loop of `validate_flows`: whether every left node's total is within 0.01 of its value. */
  method CheckTotals(left: LeftNodes, totals: map<string, real>) returns (isValid: bool)
    requires left.Valid() && totals.Keys == left.entries.Keys
    ensures isValid <==> forall j :: 0 <= j < |left.keys| ==> Within(totals[left.keys[j]], left.entries[left.keys[j]])
  {
    isValid := true;
    for i := 0 to |left.keys|
      invariant isValid <==> forall j :: 0 <= j < i ==> Within(totals[left.keys[j]], left.entries[left.keys[j]])
    {
      var node := left.keys[i];
      var total := totals[node];
      var expected := left.entries[node];
      if !(-0.01 <= total - expected <= 0.01) {
        isValid := false;
      }
    }
  }

  /** The inner loop of `validate_flows`: the flows of one right node are added to the totals, and the first
      flow from an unknown node stops it. */
  method AddFlows(left: LeftNodes, totals0: map<string, real>, ghost seen: seq<Flow>, flows: seq<Flow>)
    returns (totals: map<string, real>, known: bool)
    requires Totals(left, totals0, seen)
    ensures known <==> forall f :: f in flows ==> f.source in left.entries
    ensures known ==> Totals(left, totals, seen + flows)
  {
    totals := totals0;
    assert seen + flows[..0] == seen;
    for j := 0 to |flows|
      invariant Totals(left, totals, seen + flows[..j])
      invariant forall f :: f in flows[..j] ==> f.source in left.entries
    {
      var f := flows[j];
      if f.source !in totals {
        return totals, false;
      }
      forall k | k in totals ensures Total(seen + flows[..j + 1], k) == Total(seen + flows[..j], k) + (if f.source == k then f.value else 0.0) {
        assert seen + flows[..j + 1] == (seen + flows[..j]) + [f];
        TotalAppend(seen + flows[..j], f, k);
      }
      totals := totals[f.source := totals[f.source] + f.value];
      assert flows[..j + 1] == flows[..j] + [f];
    }
    assert flows[..|flows|] == flows;
    known := true;
  }

  lemma BalancedByKeys(left: LeftNodes, right: RightNodes, totals: map<string, real>)
    requires left.Valid() && RightWellFormed(right)
    requires Totals(left, totals, AllFlows(right, |right.keys|))
    ensures (forall j :: 0 <= j < |left.keys| ==> Within(totals[left.keys[j]], left.entries[left.keys[j]]))
      <==> Balanced(left, right)
  {
    if forall j :: 0 <= j < |left.keys| ==> Within(totals[left.keys[j]], left.entries[left.keys[j]]) {
      forall k | k in left.entries ensures Within(Total(AllFlows(right, |right.keys|), k), left.entries[k]) {
        var j :| 0 <= j < |left.keys| && left.keys[j] == k;
      }
    }
  }

  /** The flows whose source is a left node, each tagged with the position of its right node; the first `m`
      flows of right node `r`. */
  function KnownIn(left: LeftNodes, r: nat, flows: seq<Flow>, m: nat): (s: seq<(nat, Flow)>)
    requires m <= |flows|
  {
    if m == 0 then []
    else KnownIn(left, r, flows, m - 1) + (if flows[m - 1].source in left.entries then [(r, flows[m - 1])] else [])
  }

  /** The flows whose source is a left node, in right-node then flow order, over the first `n` right nodes. */
  function Known(left: LeftNodes, right: RightNodes, n: nat): (s: seq<(nat, Flow)>)
    requires n <= |right.keys| && RightWellFormed(right)
  {
    if n == 0 then []
    else
      var flows := right.entries[right.keys[n - 1]];
      Known(left, right, n - 1) + KnownIn(left, n - 1, flows, |flows|)
  }

  /** The link lists of a diagram of `numLeft` left nodes: one link per known flow, from the left index of its
      source to the index of its right node, with the flow's value. */
  ghost predicate Links(left: LeftNodes, known: seq<(nat, Flow)>, source: seq<nat>, target: seq<nat>, value: seq<real>) {
    |source| == |known| && |target| == |known| && |value| == |known|
    && forall k {:trigger source[k]} :: 0 <= k < |known| ==>
         source[k] < |left.keys| && left.keys[source[k]] == known[k].1.source
         && target[k] == |left.keys| + known[k].0
         && value[k] == known[k].1.value
  }

  /** What the diagram is drawn from: the node labels, the three parallel link lists and the node colours. */
  datatype Diagram = Diagram(labels: seq<string>, source: seq<nat>, target: seq<nat>, value: seq<real>,
                             colors: seq<string>)

  /** The index, link and colour construction of `create_sankey_diagram`. A name on both sides gets two labels,
      its left one at its left position and its right one after all left labels. */
  method CreateSankeyDiagram(left: LeftNodes, right: RightNodes) returns (d: Diagram)
    requires left.Valid() && right.Valid()
    ensures d.labels == left.keys + right.keys
    ensures Links(left, Known(left, right, |right.keys|), d.source, d.target, d.value)
    ensures forall k :: 0 <= k < |d.source| ==> d.source[k] < |left.keys| <= d.target[k] < |d.labels|
    ensures |d.colors| == |d.labels| && forall i :: 0 <= i < |d.colors| ==> d.colors[i] == Colors.PaletteColor(i)
  {
    // `duplicates` (the names on both sides) is computed by the source but never used.
    var labels, leftIndices, rightIndices := Indices(left, right);
    LeftIndicesKeys(left, leftIndices);
    var source, target, value := BuildLinks(left, right, leftIndices, rightIndices);
    var colors := NodeColors(|labels|);
    d := Diagram(labels, source, target, value, colors);
    LinksBounds(left, right, Known(left, right, |right.keys|), source, target, value);
  }

  /** `all_labels`, `left_indices` and `right_indices`: left label i at index i, right label i at index
      `len(left) + i`. */
  method Indices(left: LeftNodes, right: RightNodes)
    returns (labels: seq<string>, leftIndices: map<string, nat>, rightIndices: map<string, nat>)
    requires left.Valid() && right.Valid()
    ensures labels == left.keys + right.keys
    ensures leftIndices.Keys == set j | 0 <= j < |left.keys| :: left.keys[j]
    ensures forall j :: 0 <= j < |left.keys| ==> leftIndices[left.keys[j]] == j
    ensures forall j :: 0 <= j < |right.keys| ==> right.keys[j] in rightIndices && rightIndices[right.keys[j]] == |left.keys| + j
  {
    labels := [];
    leftIndices := map[];
    for i := 0 to |left.keys|
      invariant labels == left.keys[..i]
      invariant leftIndices.Keys == set j | 0 <= j < i :: left.keys[j]
      invariant forall j :: 0 <= j < i ==> leftIndices[left.keys[j]] == j
    {
      labels := labels + [left.keys[i]];
      leftIndices := leftIndices[left.keys[i] := i];
    }
    var numLeft := |left.keys|;
    rightIndices := map[];
    for i := 0 to |right.keys|
      invariant labels == left.keys + right.keys[..i]
      invariant forall j :: 0 <= j < i ==> right.keys[j] in rightIndices && rightIndices[right.keys[j]] == numLeft + j
    {
      labels := labels + [right.keys[i]];
      rightIndices := rightIndices[right.keys[i] := numLeft + i];
    }
    assert right.keys[..|right.keys|] == right.keys;
  }

  /** The `source`, `target` and `value` lists: one link per flow from a left node. */
  method BuildLinks(left: LeftNodes, right: RightNodes, leftIndices: map<string, nat>, rightIndices: map<string, nat>)
    returns (source: seq<nat>, target: seq<nat>, value: seq<real>)
    requires right.Valid()
    requires leftIndices.Keys == left.entries.Keys
    requires forall k :: k in leftIndices ==> leftIndices[k] < |left.keys| && left.keys[leftIndices[k]] == k
    requires forall j :: 0 <= j < |right.keys| ==> right.keys[j] in rightIndices && rightIndices[right.keys[j]] == |left.keys| + j
    ensures Links(left, Known(left, right, |right.keys|), source, target, value)
  {
    source, target, value := [], [], [];
    for r := 0 to |right.keys|
      invariant Links(left, Known(left, right, r), source, target, value)
    {
      var rightIdx := rightIndices[right.keys[r]];
      var flows := right.entries[right.keys[r]];
      source, target, value := AddLinks(left, leftIndices, Known(left, right, r), r, rightIdx, flows, source, target, value);
    }
  }

  /** `node_colors`: node i gets palette colour i, cyclically. */
  method NodeColors(n: nat) returns (colors: seq<string>)
    ensures |colors| == n && forall i :: 0 <= i < n ==> colors[i] == Colors.PaletteColor(i)
  {
    colors := [];
    for i := 0 to n
      invariant |colors| == i && forall j :: 0 <= j < i ==> colors[j] == Colors.PaletteColor(j)
    {
      colors := colors + [Colors.PaletteColor(i)];
    }
  }

  lemma LeftIndicesKeys(left: LeftNodes, leftIndices: map<string, nat>)
    requires left.Valid()
    requires leftIndices.Keys == set j | 0 <= j < |left.keys| :: left.keys[j]
    requires forall j :: 0 <= j < |left.keys| ==> leftIndices[left.keys[j]] == j
    ensures leftIndices.Keys == left.entries.Keys
    ensures forall k :: k in leftIndices ==> leftIndices[k] < |left.keys| && left.keys[leftIndices[k]] == k
  {
    forall k | k in leftIndices ensures leftIndices[k] < |left.keys| && left.keys[leftIndices[k]] == k {
      var j :| 0 <= j < |left.keys| && left.keys[j] == k;
    }
  }

  /** Every tag of a known flow is the position of a right node. */
  lemma {:induction false} KnownTags(left: LeftNodes, right: RightNodes, n: nat)
    requires n <= |right.keys| && RightWellFormed(right)
    ensures forall k :: 0 <= k < |Known(left, right, n)| ==> Known(left, right, n)[k].0 < n
  {
    if n > 0 {
      KnownTags(left, right, n - 1);
      var flows := right.entries[right.keys[n - 1]];
      KnownInTags(left, n - 1, flows, |flows|);
    }
  }

  lemma {:induction false} KnownInTags(left: LeftNodes, r: nat, flows: seq<Flow>, m: nat)
    requires m <= |flows|
    ensures forall k :: 0 <= k < |KnownIn(left, r, flows, m)| ==> KnownIn(left, r, flows, m)[k].0 == r
  {
    if m > 0 {
      KnownInTags(left, r, flows, m - 1);
    }
  }

  lemma LinksBounds(left: LeftNodes, right: RightNodes, known: seq<(nat, Flow)>, source: seq<nat>, target: seq<nat>,
                    value: seq<real>)
    requires RightWellFormed(right) && known == Known(left, right, |right.keys|)
    requires Links(left, known, source, target, value)
    ensures forall k :: 0 <= k < |source| ==> source[k] < |left.keys| <= target[k] < |left.keys| + |right.keys|
  {
    KnownTags(left, right, |right.keys|);
    forall k | 0 <= k < |source| ensures source[k] < |left.keys| <= target[k] < |left.keys| + |right.keys| {
      assert target[k] == |left.keys| + known[k].0 && known[k].0 < |right.keys|;
    }
  }

  /** One more known flow adds one link at the end of each list. */
  lemma LinksAppend(left: LeftNodes, known: seq<(nat, Flow)>, source: seq<nat>, target: seq<nat>, value: seq<real>,
                    r: nat, f: Flow, leftIdx: nat)
    requires Links(left, known, source, target, value)
    requires leftIdx < |left.keys| && left.keys[leftIdx] == f.source
    ensures Links(left, known + [(r, f)], source + [leftIdx], target + [|left.keys| + r], value + [f.value])
  {
  }

  /** The inner flow loop of `create_sankey_diagram`: a link per flow of right node `r` whose source is a left
      node. */
  method AddLinks(left: LeftNodes, leftIndices: map<string, nat>, ghost known: seq<(nat, Flow)>, r: nat,
                  rightIdx: nat, flows: seq<Flow>, source0: seq<nat>, target0: seq<nat>, value0: seq<real>)
    returns (source: seq<nat>, target: seq<nat>, value: seq<real>)
    requires leftIndices.Keys == left.entries.Keys
    requires forall k :: k in leftIndices ==> leftIndices[k] < |left.keys| && left.keys[leftIndices[k]] == k
    requires rightIdx == |left.keys| + r
    requires Links(left, known, source0, target0, value0)
    ensures Links(left, known + KnownIn(left, r, flows, |flows|), source, target, value)
  {
    source, target, value := source0, target0, value0;
    assert known + KnownIn(left, r, flows, 0) == known;
    for m := 0 to |flows|
      invariant Links(left, known + KnownIn(left, r, flows, m), source, target, value)
    {
      var f := flows[m];
      if f.source in leftIndices {
        var leftIdx := leftIndices[f.source];
        assert known + KnownIn(left, r, flows, m + 1) == (known + KnownIn(left, r, flows, m)) + [(r, f)];
        LinksAppend(left, known + KnownIn(left, r, flows, m), source, target, value, r, f, leftIdx);
        source, target, value := source + [leftIdx], target + [rightIdx], value + [f.value];
      } else {
        assert known + KnownIn(left, r, flows, m + 1) == known + KnownIn(left, r, flows, m);
      }
    }
  }
}
