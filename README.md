# Sankey layout and parsing, modelled in Dafny

This project models the core of a small Sankey-diagram toolkit. It covers two independent front ends.

**The multi-segment pipeline** (`sankey_multi.py`, `sankey_pipeline.py`) turns nodes and links into a layered layout:

- It resolves each node's explicit segment to a layer index.
- It infers the missing layers by a Kahn-style propagation, which assigns the longest distance from a source.
- It normalises the layers so that the smallest is 0.
- It splits every link that spans more than one layer into a chain of dummy nodes, one per intermediate layer.
- It recomputes the layer map, including the dummies.
- It computes node values as the maximum of in-flow, out-flow and the declared value.
- It groups nodes by layer.
- It orders each layer by barycenter sweeps: top-down, then bottom-up.
- It stacks the nodes of each layer into boxes whose heights are proportional to their values, with a minimum height.

**The two-column diagram** (`sankey_diagram.py`) reads its input in two formats:

- a text format (`Left` / `A=10` / `Right` / `M= 5 from A, 5 from B`);
- a JSON format, with left nodes given as an object or as a list of `{name, value}` items, and right flows given as `{from|source, value|amount}` objects.

It then checks that the flows out of every left node add up to that node's value, within 0.01. It also computes the node indices, the links and the palette colours of the diagram.

The colour demo (`scripts/demo_render_color.py`) adds two things:

- a flag parser, `parse_bool`;
- two colouring schemes: per item, and per segment with grey dummies.

Each Python dict whose iteration order the code relies on is an `ODict`, which pairs a key sequence with a map (module `Wrappers`). Every other dict is a `map`.

Errors that the source raises are modelled as `Result` failures. These are a `KeyError` for a missing `name`, a failing `float()`, `.items()` on a non-object, and a segment that `int()` cannot read.

Loops in the source are methods, and each is proved equal to a recursive specification function. The properties are stated as lemmas about those functions.

Modules:

- `Graph`: the node and link records shared by the pipeline.
- `Splitter`: `split_long_links`.
- `Layering`: `infer_layers`.
- `Pipeline`: `build_internal_graph`.
- `Layout`: `compute_node_values` and `group_by_layer`.
- `Ordering`: `barycenter_ordering`.
- `Positions`: `compute_positions`.
- `Colors`: the demo's palette, `parse_bool` and `assign_colors`.
- `TwoColumn`: `validate_flows` and `create_sankey_diagram`.
- `TextFormat`: `parse_text_format`.
- `TextRoundTrip`: its round trip.
- `JsonFormat`: `parse_json_format` and its round trip.
- `Strings`: `strip`, `lower` and decimal digits.

Behaviour of the JSON parser that the model keeps as the code has it:

- A flow whose `value` is `0` is dropped unless it also has a non-null `amount`, because `flow.get("value") or flow.get("amount")` treats `0` as missing (`JsonFormat.FlowDropped`). The text format keeps such a flow.
- A right node whose flows container is an object or a string yields no flows, and the node is dropped.
- Iterating a string flows container yields its characters, and none of them is an object.

## Model

| member | source | states |
|---|---|---|
| Graph.NodeLayer | sankey_multi.py:7-24 | An integer segment is the layer. A segment name gives the index of its first occurrence in `segments`, exactly when the list is given and contains the name. A missing segment or one of any other kind gives no layer. |
| Splitter.KnownLayersLast | sankey_multi.py:37-43 | An id is in the layer map iff some node with that id has a known layer. Its layer is that of the last such node, because a later dict assignment overwrites an earlier one. |
| Splitter.PlanIffLong | sankey_multi.py:50-75 | A link is split iff both ends are known nodes with known layers and the target lies more than one layer after the source. The plan is then (source layer, target layer). Every other link is copied unchanged. |
| Splitter.ChainShape | sankey_multi.py:77-105 | A link from layer a to layer b becomes b-a links through b-a-1 dummy nodes at layers a+1..b-1. The chain starts at the source and ends at the target, and consecutive links meet at the dummies. Each link carries the original value (default 0) and metadata. Each dummy is unlabelled, marked dummy, and records the link index. |
| Splitter.AppendedDummies | sankey_multi.py:45-89 | The input nodes remain an unchanged prefix of the output. Every appended node is a dummy with consecutive serial numbers from 1, no label, an integer segment and the index of an already-processed link. |
| Splitter.DummyIdsDistinct | sankey_multi.py:81 | The generated dummy ids are pairwise distinct. They also differ from every input id when no input id has the dummy form. |
| Splitter.LinkCount | sankey_multi.py:49-105 | The number of output links is the sum of the link spans (1 for a link that is kept). The number of dummies is that sum minus the number of links. |
| Splitter.OutputGrows | sankey_multi.py:49-105 | Processing more links only appends nodes and links, and never rewrites earlier output. |
| Splitter.NothingToSplit | sankey_multi.py:53-75 | When no link needs splitting, the output is the input nodes and links, with no dummy. |
| Splitter.KnownLayersAppend | sankey_multi.py:39-43 | Appending distinct nodes with integer segments extends the layer map by exactly their layers. |
| Splitter.SplitLinksAdjacent | sankey_multi.py:26-107 | After splitting, no output link whose ends both have layers goes forward by more than one layer. This assumes that no input id has the dummy form. |
| Splitter.ComputeKnownLayers | sankey_multi.py:39-43 | The loop builds exactly the layer map `KnownLayers`. |
| Splitter.AppendChain | sankey_multi.py:77-105 | The inner loop appends exactly the dummy chain and its links, and advances the counter by b-a-1. |
| Splitter.ProcessLink | sankey_multi.py:50-105 | One iteration of the link loop is one step of the specification, for both the pass-through cases and the split case. |
| Splitter.SplitLongLinks | sankey_multi.py:26-107 | `split_long_links` returns exactly the specified nodes and links. |
| Layering.ExplicitLayers | sankey_pipeline.py:52-66 | The first pass has one entry per node id. |
| Layering.FirstPass | sankey_pipeline.py:52-66 | The first-pass loop computes `ExplicitLayers`: an int segment, a name's index in `segments`, or None otherwise. |
| Layering.KnownEdges | sankey_pipeline.py:76-82 | Every adjacency edge joins two known nodes. |
| Layering.KnownEdgesComplete | sankey_pipeline.py:76-82 | Every link whose ends are both known nodes is an adjacency edge. |
| Layering.DistinctIds | sankey_pipeline.py:49 | The node-map keys are duplicate-free and are exactly the node ids. |
| Layering.BuildInDegrees | sankey_pipeline.py:72-82 | The in-degree of every node is the number of adjacency edges into it. |
| Layering.SeedQueue | sankey_pipeline.py:84-90 | The queue holds, once each, exactly the nodes of in-degree 0. Those among them without an explicit layer get layer 0, and every other layer is unchanged. |
| Layering.Seed | sankey_pipeline.py:84-90 | The seeded state satisfies the propagation invariant, and every assigned layer is justified. |
| Layering.RaiseToShape | sankey_pipeline.py:98-101 | Relaxing an edge changes only its target. The target's new layer is at least the source's layer plus one and not below its old layer. |
| Layering.RelaxEdge | sankey_pipeline.py:96-104 | Relaxing one edge keeps the propagation invariant: queue, in-degrees, relaxed edges and justified layers. |
| Layering.RelaxEdges | sankey_pipeline.py:96-104 | Relaxing all out-edges of the popped node keeps the invariant and consumes exactly those edges. |
| Layering.PopAndRelax | sankey_pipeline.py:93-104 | One iteration of the queue loop keeps the invariant and processes one more node. |
| Layering.Drain | sankey_pipeline.py:93-104 | The queue loop ends with an empty queue, with the invariant holding. |
| Layering.KahnComplete | sankey_pipeline.py:93-104 | If the edges admit a ranking (the graph is acyclic), the propagation processes every node. |
| Layering.Propagate | sankey_pipeline.py:84-104 | The result satisfies `Propagation`. Explicit layers are only raised, and every processed node has a layer. Every edge out of a processed node ends at least one layer after its source. Every unprocessed node waits on an unprocessed predecessor. A node stays unset iff it has no explicit layer, was not processed and has no processed predecessor. Every layer is its explicit layer, 0 at a source, or one more than a predecessor along a relaxed edge. On an acyclic graph every node is processed. |
| Layering.LongestPathUnique | sankey_pipeline.py:92-104 | On an acyclic graph at most one layer map is at least every explicit layer, at least one more than every predecessor, and equal to one of those bounds (0 for a node with neither). The propagation's layers are therefore the longest-path layers. |
| Layering.Fallback | sankey_pipeline.py:106-109 | Every unset layer becomes 0, and the others are kept. |
| Layering.MinLayer | sankey_pipeline.py:112 | The result is the least layer, or 0 for an empty map. |
| Layering.Shift | sankey_pipeline.py:113-115 | Every layer is lowered by the same amount. |
| Layering.FallbackAndNormalize | sankey_pipeline.py:106-115 | Every layer is its propagated layer (unset as 0) minus `shift`. `shift` is the least of those layers, or 0 without nodes. So the differences are kept, every layer is at least 0, and some layer is 0 when there are nodes. |
| Layering.ForwardLinks | sankey_pipeline.py:92-115 | Edges that are forward after propagation stay forward after the fallback and normalisation. |
| Layering.InferLayers | sankey_pipeline.py:44-117 | `Inferred` holds, with one layer per node id. When every node has an explicit layer, those layers are returned as they are. Otherwise the ghost `propagated` map satisfies `Propagation` (and `LongestPath` on an acyclic graph), and every layer is its propagated layer, unset as 0, minus the least of those. Every layer is then at least 0 and some is 0, and on an acyclic graph every link goes forward by at least one layer. |
| Pipeline.Annotate | sankey_pipeline.py:125-128 | The node copies keep the node count. |
| Pipeline.AnnotateNodes | sankey_pipeline.py:125-128 | The loop produces the annotated copies. |
| Pipeline.AnnotatedLayers | sankey_pipeline.py:124-129 | With a layer map that covers the nodes, every annotated segment is an integer. The splitter then sees exactly the inferred layer map. |
| Pipeline.IntLayersKnown | sankey_pipeline.py:131-135 | When every segment is an integer, the recomputed map is the splitter's layer map and covers every node id. |
| Pipeline.ReadLayers | sankey_pipeline.py:131-135 | The loop builds the map from ids to integer segments. |
| Pipeline.Facts | sankey_pipeline.py:123-135 | The final layer map covers every output node and agrees with the inferred layers on the input nodes. The input nodes come back annotated. Every added node is a dummy. No link goes forward by more than one layer. |
| Pipeline.Shape | sankey_pipeline.py:129-135 | With integer segments, the split keeps the input nodes as a prefix and only adds dummies. All segments stay integers, and the final map covers every node. |
| Pipeline.Prefix | sankey_pipeline.py:129-135 | Splitting does not change the layer of any input node. |
| Pipeline.BuildInternalGraph | sankey_pipeline.py:120-136 | The ghost `inferred` map is what infer_layers returns (`Inferred`). The output nodes and links are exactly `split_long_links` of the nodes annotated with `inferred`, and the final map is the integer segments of the output nodes. Every output node has a final layer, and an input id's final layer is its inferred layer. The input nodes come back with that layer as segment. The added nodes are dummies. Explicit layers are kept when all are known. No output link goes forward by more than one layer. |
| Layout.NodeTotal | sankey_pipeline.py:149 | A node's value is the maximum of its in-flow sum, its out-flow sum and its declared value (default 0). |
| Layout.SumsNonNegative | sankey_pipeline.py:141-145 | With non-negative link values, the in-flow and out-flow sums are non-negative. |
| Layout.SumsAppend | sankey_pipeline.py:143-145 | The flow sums of two link lists add up. |
| Layout.LinkSums | sankey_pipeline.py:141-145 | The loop accumulates every node's in-flow and out-flow sums, with missing values counted as 0. |
| Layout.ComputeNodeValues | sankey_pipeline.py:146-150 | There is one value per node id, and it is that of the last node with the id. |
| Layout.GroupKey | sankey_pipeline.py:156-159 | A node's group is its layer from the map, else its integer segment, else 0. A segment that is neither an int nor a name is an error. |
| Layout.GroupKeyName | sankey_pipeline.py:157-159 | A name segment of a node without a layer gives a key iff `ParseInt` reads it, and the key is that value. |
| Layout.Digits | sankey_pipeline.py:159 | A scan of digits and underscores succeeds iff the string is a `Numeral`: ASCII digits, with single underscores only between digits. Its value is the decimal value of the digits. |
| Layout.ParseInt | sankey_pipeline.py:159 | `int()` of a string succeeds iff, after stripping whitespace, it is a numeral with an optional `+` or `-` sign. The value is the numeral's value, negated after `-`. |
| Layout.ParseIntStr | sankey_pipeline.py:159 | `int()` reads back the decimal spelling of every integer, whatever whitespace surrounds it. |
| Layout.GroupedOk | sankey_pipeline.py:153-160 | Grouping succeeds iff every node's key can be computed. |
| Layout.GroupedKeys | sankey_pipeline.py:153-160 | The group keys are duplicate-free and are exactly the keys of the nodes. |
| Layout.GroupedMembers | sankey_pipeline.py:153-160 | Each group is the in-order list of the nodes with that key. |
| Layout.MembersEmpty | sankey_pipeline.py:153-160 | A key that is not a group has no members. |
| Layout.MembersPartition | sankey_pipeline.py:155-159 | A node belongs to a group iff its key is that group's key. |
| Layout.GroupedFailurePersists | sankey_pipeline.py:159 | The first node whose key fails aborts the whole grouping. |
| Layout.GroupByLayer | sankey_pipeline.py:153-160 | The loop computes the grouping or its error. |
| Ordering.BuildAdjacency | sankey_pipeline.py:167-172 | Predecessor and successor lists hold, in link order, the other end of every link. |
| Ordering.PositionInSpec | sankey_pipeline.py:190-195 | A neighbour's position is its first index in the first layer, in dict order, that contains it. There is no position iff no layer contains it. |
| Ordering.FindPosition | sankey_pipeline.py:190-195 | The nested search computes that position. |
| Ordering.FoundNone | sankey_pipeline.py:185-195 | No neighbour is counted iff none is found in any layer. |
| Ordering.BarycenterNone | sankey_pipeline.py:179-196 | A node has no weight iff none of its neighbours appears in any layer, which includes a node with no neighbours at all. |
| Ordering.ComputeWeight | sankey_pipeline.py:185-196 | The loop computes the average position of the found neighbours. |
| Ordering.ComputeWeights | sankey_pipeline.py:178-196 | Every node of the layer gets its barycenter over its predecessors (upward) or successors (downward). |
| Ordering.Has | sankey_pipeline.py:198-199 | Every weighted entry carries the position, id and weight of a node that has a weight. The positions strictly increase. |
| Ordering.HasComplete | sankey_pipeline.py:198-199 | Every position that has a weight appears among the weighted entries. |
| Ordering.NotHas | sankey_pipeline.py:198-200 | The unweighted ids are exactly the ids at the positions without a weight, in increasing order of position. |
| Ordering.SortByWeight | sankey_pipeline.py:202 | Sorting permutes the weighted entries. |
| Ordering.SortSorted | sankey_pipeline.py:202 | The sort is stable: entries are ordered by weight, ties keep their original order, and the sort is a permutation. |
| Ordering.SplitByWeight | sankey_pipeline.py:198-201 | The nodes with and without a weight together are a permutation of the layer. |
| Ordering.ReorderedSpec | sankey_pipeline.py:197-204 | The new layer is the weighted nodes sorted stably by weight, followed by the unweighted nodes in their order. It is a permutation of the old layer. |
| Ordering.Step | sankey_pipeline.py:176-204 | One barycenter pass changes only its own layer, and only by a permutation. |
| Ordering.Reorder | sankey_pipeline.py:176-204 | The imperative pass computes that step. |
| Ordering.SortIntsIncreasing | sankey_pipeline.py:206 | The sorted layer indices are strictly increasing and permute the keys. |
| Ordering.LayerIndicesSorted | sankey_pipeline.py:206 | The layer indices are sorted, keep every key, and are all layers of the order. |
| Ordering.SweepPermutes | sankey_pipeline.py:207-213 | A sweep keeps the layer keys and permutes every layer. |
| Ordering.RoundsPermute | sankey_pipeline.py:207-213 | Any number of rounds keeps every layer a permutation of its nodes. |
| Ordering.SweepUntouched | sankey_pipeline.py:209-213 | A layer that a sweep does not visit is unchanged. |
| Ordering.TopDownKeepsFirst | sankey_pipeline.py:209-210 | The top-down sweep leaves the smallest layer as it is. |
| Ordering.BottomUpKeepsLast | sankey_pipeline.py:212-213 | The bottom-up sweep leaves the largest layer as it is. |
| Ordering.RoundsNone | sankey_pipeline.py:207 | A negative iteration count behaves as zero. |
| Ordering.RunSweep | sankey_pipeline.py:209-213 | The sweep loop computes the specified sweep. |
| Ordering.RunRound | sankey_pipeline.py:207-213 | One round is a top-down sweep followed by a bottom-up sweep. |
| Ordering.RunNextRound | sankey_pipeline.py:207-213 | One more iteration is one more round. |
| Ordering.RunRounds | sankey_pipeline.py:207-213 | The iteration loop computes the specified rounds. |
| Ordering.OrderedSpec | sankey_pipeline.py:163-214 | The result has the same layers in the same key order, and each layer is a permutation of its node ids. With no iteration, each layer keeps the input order. |
| Ordering.BarycenterOrdering | sankey_pipeline.py:163-214 | `barycenter_ordering` returns exactly the specified ordering. |
| Positions.MaxKey | sankey_pipeline.py:224 | The result is the greatest layer key. |
| Positions.LayerXsFirst | sankey_pipeline.py:226-228 | With several layers, the first layer is at x = 20. |
| Positions.LayerXsLast | sankey_pipeline.py:226-228 | With several layers, the last layer is at x = width - 20. |
| Positions.LayerXsIncreasing | sankey_pipeline.py:226-228 | With several layers and width above 40, the x positions strictly increase with the layer index. |
| Positions.LayerXsOutside | sankey_pipeline.py:250 | A layer index outside 0..n-1 falls back to x = 20. |
| Positions.LayerXsSingle | sankey_pipeline.py:229-230 | With one layer, layer 0 is at width / 2 and any other index at 20. |
| Positions.Height | sankey_pipeline.py:245-246 | A node's height is the larger of 6 and its share of 60% of the available height. |
| Positions.Heights | sankey_pipeline.py:246 | There is one height per node, and each is at least 6. |
| Positions.StackShape | sankey_pipeline.py:248-253 | The i-th box is centred at the running offset plus half its height, which is the sum of the earlier heights and paddings from 20. |
| Positions.StackColumn | sankey_pipeline.py:248-253 | The boxes of a layer are its ids in order, all at the layer's x, with the node width and the given heights. |
| Positions.StackTops | sankey_pipeline.py:248-253 | Each box starts at 20 or right below its predecessor plus the padding. |
| Positions.StackDisjoint | sankey_pipeline.py:248-253 | With non-negative padding, stacked boxes do not overlap. |
| Positions.LayerBoxesSpec | sankey_pipeline.py:236-253 | A layer's boxes form one column in the given order, are at least 6 high, and are stacked. |
| Positions.BoxesAtLeastMin | sankey_pipeline.py:245-246 | Every box of every layer is at least 6 high. |
| Positions.PlacedKeys | sankey_pipeline.py:251-252 | The position and size maps hold exactly the placed ids. |
| Positions.PlacedLast | sankey_pipeline.py:251-252 | An id that appears several times keeps the box of its last occurrence. |
| Positions.SizesAtLeastMin | sankey_pipeline.py:252 | Every recorded size is at least 6 high. |
| Positions.PlaceLayer | sankey_pipeline.py:249-253 | The stacking loop records exactly the layer's boxes. |
| Positions.PlaceLayerOf | sankey_pipeline.py:236-253 | One iteration of the layer loop places the next layer. |
| Positions.PlaceLayers | sankey_pipeline.py:236-253 | The layer loop places every layer in dict order. |
| Positions.ComputePositions | sankey_pipeline.py:217-255 | `compute_positions` returns exactly the centre and size of the specified boxes. |
| Colors.ParseBool | scripts/demo_render_color.py:50-58 | A recognised true word gives true and a recognised false word gives false. Anything else, including no value, gives the default. |
| Colors.ParseBoolPadding | scripts/demo_render_color.py:53 | Surrounding whitespace does not change the result. |
| Colors.ParseBoolIgnoresCase | scripts/demo_render_color.py:53 | Letter case does not change the result. |
| Colors.ParseBoolWords | scripts/demo_render_color.py:54-57 | Each listed word gives its value whatever the default. |
| Colors.NonDummies | scripts/demo_render_color.py:67 | Every element is a non-dummy node of the input, every non-dummy node is an element, and distinct input ids stay distinct. |
| Colors.NonDummiesInOrder | scripts/demo_render_color.py:67 | The result is exactly the nodes at the non-dummy positions, in increasing order of position, one element per position. |
| Colors.ById | scripts/demo_render_color.py:62 | Each id maps to the last node with that id. |
| Colors.ItemColors | scripts/demo_render_color.py:65-74 | The per-item colouring colours every node id. An id that has a dummy node is grey. Any other id gets the palette colour of its last node's rank among the non-dummy nodes. |
| Colors.RankColors | scripts/demo_render_color.py:68-69 | The i-th non-dummy gets palette colour i mod 10. |
| Colors.DummyColors | scripts/demo_render_color.py:70-74 | The second loop greys every dummy and completes the per-item colouring. |
| Colors.ItemColoringDistinct | scripts/demo_render_color.py:66-74 | With distinct ids, the i-th non-dummy node keeps palette colour i. |
| Colors.SegmentColors | scripts/demo_render_color.py:75-85 | Each used segment gets the palette colour of its rank among the sorted used segments. |
| Colors.ColourSorted | scripts/demo_render_color.py:84-85 | The j-th sorted segment gets palette colour j mod 10, and only those segments get a colour. |
| Colors.RankIncreasing | scripts/demo_render_color.py:82-85 | In the sorted list of the used segments, each segment's rank is its index. |
| Colors.AssignColors | scripts/demo_render_color.py:61-93 | Segments are coloured by rank. In per-item mode nodes are coloured per item. Otherwise every mapped node is grey if it is a dummy and takes its segment's colour if not. |
| TwoColumn.TotalNone | sankey_diagram.py:214-222 | A node that no flow comes from has total 0. |
| TwoColumn.TotalConcat | sankey_diagram.py:216-222 | A node's totals over two flow lists add up. |
| TwoColumn.AllFlowsGrow | sankey_diagram.py:216-217 | Taking more right nodes only appends flows. |
| TwoColumn.AddFlows | sankey_diagram.py:217-222 | The inner loop succeeds iff every flow's source is a left node, and then adds each value to its source's total. |
| TwoColumn.CheckTotals | sankey_diagram.py:224-233 | The result holds iff every left node's total is within 0.01 of its value. |
| TwoColumn.BalancedByKeys | sankey_diagram.py:224-233 | Checking the totals key by key is the same as every left node being balanced. |
| TwoColumn.ValidateFlows | sankey_diagram.py:205-234 | The result holds iff every flow comes from a known left node and every left node's total is within 0.01 of its value. |
| TwoColumn.Indices | sankey_diagram.py:257-280 | The labels are the left names followed by the right names. Left name j gets index j, and right name j gets index (left count + j). |
| TwoColumn.AddLinks | sankey_diagram.py:290-295 | The inner loop appends one link per flow from a known left node. |
| TwoColumn.BuildLinks | sankey_diagram.py:283-295 | There is one link per flow from a known left node, in order, from its left index to its right node's index, with the flow's value. |
| TwoColumn.KnownTags | sankey_diagram.py:288-291 | Every kept flow is tagged with the right node it came from. |
| TwoColumn.LinksBounds | sankey_diagram.py:288-295 | Every link goes from a left index to a right index. |
| TwoColumn.NodeColors | sankey_diagram.py:298-314 | Node i gets palette colour i mod 10. |
| TwoColumn.CreateSankeyDiagram | sankey_diagram.py:255-314 | The diagram has the labels, links and colours above, and every link goes from a left index to a right index. |
| Strings.Strip | sankey_diagram.py:52 | The stripped string has no whitespace at either end and is no longer than the input. |
| Strings.StripIdempotent | sankey_diagram.py:52 | Stripping twice is stripping once. |
| Strings.Lower | sankey_diagram.py:57 | Lower-casing maps each character and keeps the length. |
| Strings.LowerStrip | scripts/demo_render_color.py:53 | Lower-casing and stripping commute. |
| TextFormat.WordLen | sankey_diagram.py:66 | Greedy `\w*`: the longest prefix of word characters. |
| TextFormat.SpaceLen | sankey_diagram.py:66 | Greedy `\s*`: the longest prefix of whitespace. |
| TextFormat.DigitLen | sankey_diagram.py:66 | Greedy `\d*`: the longest prefix of digits. |
| TextFormat.NumberAt | sankey_diagram.py:66 | `\d+(?:\.\d+)?` matches iff the text starts with a digit. The value is non-negative and the match is non-empty. |
| TextFormat.NameEq | sankey_diagram.py:66 | `(\w+)\s*=\s*` matches a word followed by `=` with optional spaces. |
| TextFormat.MatchLeft | sankey_diagram.py:66 | A left line gives a word name, which prefixes the line, and a non-negative value. |
| TextFormat.MatchRight | sankey_diagram.py:73 | A right line gives a word name, which prefixes the line, and a non-empty rest of line. |
| TextFormat.FromAt | sankey_diagram.py:79 | `\s+from\s+` starts and ends with whitespace and is at least 6 characters long. |
| TextFormat.FlowAt | sankey_diagram.py:79 | A flow match has a non-negative value and a word source. |
| TextFormat.FindFlows | sankey_diagram.py:79-82 | Every flow found has a non-negative value and a word source. |
| TextFormat.SplitLines | sankey_diagram.py:48 | Splitting on newlines always gives at least one line. |
| TextFormat.Step | sankey_diagram.py:51-85 | A blank line changes nothing. A `left` or `right` header, in any letter case, sets the section and nothing else. Only such headers change the section. In the left section a matching line puts its name and value, and nothing else changes. In the right section a matching line with at least one flow puts its name and flows, and nothing else changes. No other line changes either dict. |
| TextFormat.ReadLine | sankey_diagram.py:52-85 | One pass of the line loop leaves exactly the state `Step` gives for that line. |
| TextFormat.Run | sankey_diagram.py:51-85 | Running lines keeps the dicts valid, the values non-negative and no right node without flows. |
| TextFormat.ParseTextFormat | sankey_diagram.py:26-87 | The loop computes the specified parse. Every recorded right node has flows. |
| TextRoundTrip.NumberAtNat | sankey_diagram.py:66 | A written natural number is read back with its full length. |
| TextRoundTrip.FlowAtOf | sankey_diagram.py:79 | A written flow `n from W` is read back as the same flow. |
| TextRoundTrip.FindFlowsText | sankey_diagram.py:79-82 | The flows written with `, ` separators are found again, all and in order. |
| TextRoundTrip.SplitJoin | sankey_diagram.py:48 | Splitting joined newline-free lines gives those lines back. |
| TextRoundTrip.NotHeader | sankey_diagram.py:57-62 | A line containing `=` is never a section header. |
| TextRoundTrip.Headers | sankey_diagram.py:57-62 | `Left` and `Right` switch the section and change nothing else. |
| TextRoundTrip.RunLines | sankey_diagram.py:51-85 | Running the rendered lines rebuilds both dicts exactly. |
| TextRoundTrip.ParseRender | sankey_diagram.py:26-87 | Parsing the rendered text of word names, whole-number values and non-empty flow lists gives the same dicts, in the same order. |
| JsonFormat.Get | sankey_diagram.py:154-155 | `dict.get` gives None for a missing key. |
| JsonFormat.Or | sankey_diagram.py:154-155 | Python `or` returns the first operand if truthy, else the second. The result is truthy iff either operand is. |
| JsonFormat.Float | sankey_diagram.py:142 | `float()` keeps a number and reads `True`/`False` as 1.0/0.0. It rejects None, lists and objects with a `TypeError`. A string succeeds exactly when the whole stripped text is one decimal numeral, and then it reads as that numeral's (non-negative) value. Any other string is a `ValueError`. |
| JsonFormat.Key | sankey_diagram.py:145 | Only a string name becomes a key, and it is kept as it is. |
| JsonFormat.LeftObjectFrom | sankey_diagram.py:142 | Converting the object's values gives a valid dict or the first error. |
| JsonFormat.LeftItem | sankey_diagram.py:145 | An item succeeds only if it is an object with both `name` and `value`, and its name is the given string. |
| JsonFormat.LeftListFrom | sankey_diagram.py:145 | Converting the items gives a valid dict or the first error. |
| JsonFormat.ParseLeft | sankey_diagram.py:138-145 | The left section parses to a valid dict or an error. |
| JsonFormat.Elements | sankey_diagram.py:152 | Iterating a flows container fails exactly for None, booleans and numbers. An object or string yields only strings. |
| JsonFormat.FlowOf | sankey_diagram.py:153-157 | A recorded flow comes from an object and has a non-empty source. |
| JsonFormat.FlowListFrom | sankey_diagram.py:151-157 | The flow loop only appends flows with non-empty sources. |
| JsonFormat.FlowListSkips | sankey_diagram.py:152-153 | Elements that are not objects are skipped. |
| JsonFormat.FlowsOf | sankey_diagram.py:151-157 | An object or string container gives no flows. A scalar container is a `TypeError`. Every flow has a source. |
| JsonFormat.RightObjectFrom | sankey_diagram.py:150-159 | The right loop builds a valid dict or the first error. |
| JsonFormat.ParseRight | sankey_diagram.py:148-159 | A non-object right section is an `AttributeError`. Otherwise the result is a valid dict or an error. |
| JsonFormat.ParseJson | sankey_diagram.py:134-161 | A successful parse gives two valid dicts. An input with neither section gives two empty dicts. |
| JsonFormat.LeftObjectLoop | sankey_diagram.py:142 | The comprehension over the left object computes `LeftObjectFrom`. |
| JsonFormat.LeftListLoop | sankey_diagram.py:145 | The comprehension over the left list computes `LeftListFrom`. |
| JsonFormat.FlowLoop | sankey_diagram.py:151-157 | The per-node flow loop computes `FlowsOf`. |
| JsonFormat.RightLoop | sankey_diagram.py:150-159 | The right loop computes `RightObjectFrom`. |
| JsonFormat.ParseJsonFormat | sankey_diagram.py:90-161 | `parse_json_format` computes the specified parse or its error. |
| JsonFormat.LeftObjectKeys | sankey_diagram.py:142 | The left dict keeps the object's keys in order. |
| JsonFormat.RightObjectDrawn | sankey_diagram.py:150-159 | Every recorded right node is a key of the right object, with a non-empty list of named flows. |
| JsonFormat.ParseJsonShape | sankey_diagram.py:134-161 | After a successful parse, a left object's keys come back in order. Every right node is drawn from the right object with non-empty flows. |
| JsonFormat.FlowDropped | sankey_diagram.py:154-156 | A flow object is dropped iff neither `from` nor `source` is truthy, or `value` is falsy and `amount` is missing or null. |
| JsonFormat.FromPreferred | sankey_diagram.py:154-157 | A non-empty `from` and a non-zero `value` give exactly that flow. |
| JsonFormat.SourceAmountFallback | sankey_diagram.py:154-157 | Without `from` and `value`, `source` and `amount` are used. |
| JsonFormat.LeftFormatsAgreeFrom | sankey_diagram.py:140-145 | From any position, the list form and the object form of the same left nodes parse alike. |
| JsonFormat.LeftFormatsAgree | sankey_diagram.py:140-145 | The `[{name, value}]` list form and the `{name: value}` object form give the same left dict. |
| JsonFormat.MapValues | sankey_diagram.py:142 | Mapping the values keeps the keys and their order. |
| JsonFormat.ToJson | sankey_diagram.py:94-112 | The written document is well formed. |
| JsonFormat.FlowListJson | sankey_diagram.py:151-157 | A written flow list is read back flow by flow. |
| JsonFormat.FlowsOfJson | sankey_diagram.py:151-158 | A written, non-empty flow list with named sources and non-zero values is read back as is. |
| JsonFormat.LeftRoundTrip | sankey_diagram.py:142 | A written left object is read back as the same dict. |
| JsonFormat.RightRoundTrip | sankey_diagram.py:150-159 | A right object whose values read back as the flows gives the same dict. |
| JsonFormat.ToJsonFields | sankey_diagram.py:94-112 | The document has `left` and `right` holding the written sections. |
| JsonFormat.ParseLeftWritten | sankey_diagram.py:138-145 | A written left section parses to the same dict. |
| JsonFormat.ParseRightWritten | sankey_diagram.py:148-159 | A written right section parses to the same dict. |
| JsonFormat.JsonRoundTrip | sankey_diagram.py:90-161 | Parsing the written document gives back both dicts, for non-empty flow lists with named sources and non-zero values. |

## Left out

- File input and CLI: `load_input`, `load_input_data`, `main`, `run_pipeline` and `run_color_demo` are left out. They read files and argv. The model starts from the parsed values, and it takes a JSON document to be a top-level object.
- Rendering: `render_svg`, `render_color_svg`, the plotly figure and its layout options, which only draw or print.
- Printing: the `verbose` printing in `validate_flows` is not modelled.
- Floating point is modelled as exact `real` arithmetic. This covers the 0.01 tolerance, the barycenter division and the height scaling.
- Strings are ASCII. `\w`, `\s`, `strip()` and `lower()` follow their ASCII meaning, and Unicode word characters, whitespace and case folding are not modelled.
- JsonFormat.Float reads a string only in the form `\d+(\.\d+)?` after stripping. Signs, exponents, `inf`/`nan`, underscores and forms such as `5.` or `.5` are a `ValueError` in the model, although Python accepts them.
- JsonFormat.Key makes a non-string left name or flow source a failure (`NonStringName`). Python would store a number or a boolean as the key.
- JsonFormat.JsonRoundTrip covers only non-empty flow lists with non-empty sources and non-zero values. A zero value is dropped by the parser itself (`FlowDropped`).
- TextRoundTrip.ParseRender covers only word names and whole-number values. Fractions are written in many ways, and the lemma does not follow them.
- Graph.NodeLayer: a segment that is neither an int nor a string (for example a float) is a single `SOther` case.
- Layout.GroupKey: an `SOther` segment is always an error, although Python's `int()` accepts a float and a boolean.
- Layout.ParseInt: reads ASCII digits only. Python's `int()` also accepts other Unicode decimal digits and Unicode whitespace.
- Graph.ValueOr0, Layout.NodeTotal, Layout.LinkSums, Layout.GroupKey, Splitter.ChainShape, Splitter.SplitLongLinks: a key present with a JSON null and an absent key are both `None`. Python raises `TypeError` for a null link value in the sums, a null node value in `max`, and a null segment in `int()`. The model reads all three as 0. When the splitter breaks a long link into a chain, Python copies a null value on to every chain link (sankey_multi.py:52, 94 and 103). The model gives each chain link the value 0 instead.
- Graph.NodeLayer: a boolean segment counts as an int in Python (1 or 0). The model expects it as `SInt` and does not map it.
- Splitter.SplitLinksAdjacent and Splitter.DummyIdsDistinct assume that no input id has the form of a generated dummy id. Python would silently merge such an id with a dummy.
- Layering.InferLayers states forward links and longest-path layers only for acyclic graphs. On a cycle, `Propagation` still describes every layer, but it does not fix the layers of the nodes on or behind the cycle to a single map.
- Layering: `adj` and `indeg` are represented by the filtered edge list and the in-degree map. `defaultdict` entries created as a side effect are not modelled.
- Ordering: Python's stable `list.sort(key=...)` is modelled as a stable insertion sort on the weights. Only its result is stated, not its algorithm.
- Positions.ComputePositions requires every layer's value total to be non-zero. Python raises `ZeroDivisionError` for a non-empty layer whose values sum to 0.0, and the model does not reproduce that error.
- Positions: `layer_padding` is kept as the `Canvas` field `layerPadding`, but, as in the source, nothing reads it.
- TwoColumn.CreateSankeyDiagram does not model the `duplicates` set, which the source computes but never uses.
- `tests/test_split_long_links.py:42-56` expects 2 dummies for two links from layer 0 to layer 3, but the code creates one dummy per intermediate layer, which makes 4. The model follows the code. The same test's count of 6 links agrees with `Splitter.LinkCount`.
