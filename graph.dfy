/** Nodes and links of a layered flow diagram, and the resolution of a node's explicit layer. */
module Graph {
  import opened Wrappers

  /** A node identifier. User ids are the strings of the input; the link splitter makes the synthetic id
      `__dummy_l{srcLayer}_{tgtLayer}_{serial}`, which is determined by (and determines) the three numbers. */
  datatype NodeId = User(name: string) | Dummy(srcLayer: int, tgtLayer: int, serial: nat)

  /** The value of a node's `segment` key: an integer layer, a segment name, or any other value. */
  datatype Seg = SInt(i: int) | SName(name: string) | SOther

  /** A node record. An absent key is None; `dummy` is the truthiness of the `dummy` key. */
  datatype Node = Node(
    id: NodeId,
    caption: Option<string>,  // the `label` key
    segment: Option<Seg>,
    value: Option<real>,
    dummy: bool,
    origLinkIndex: Option<nat>)

  /** A metadata value carried opaquely by a link. */
  datatype MetaValue = MStr(s: string) | MNum(r: real) | MBool(b: bool) | MNull

  /** A link record: its endpoints, its `value` key if present, and every other key in `meta`. */
  datatype Link = Link(source: NodeId, target: NodeId, value: Option<real>, meta: map<string, MetaValue>)

  /** The value of a link, 0 when the link has no value key. */
  function ValueOr0(l: Link): real {
    l.value.GetOr(0.0)
  }

  /** The ids of a node list: the keys of the dict from id to node. */
  function Ids(nodes: seq<Node>): set<NodeId> {
    set i | 0 <= i < |nodes| :: nodes[i].id
  }

  /** The explicit layer of a node: an integer segment as it is, a segment name as its position in `segments`,
      and None for a missing segment, a name with no segment list or not in it, or any other value. */
  function NodeLayer(n: Node, segments: Option<seq<string>>): (r: Option<int>)
    ensures n.segment.Some? && n.segment.value.SInt? ==> r == Some(n.segment.value.i)
    ensures n.segment.Some? && n.segment.value.SName? ==>
      (r.Some? <==> segments.Some? && n.segment.value.name in segments.value)
    ensures n.segment.Some? && n.segment.value.SName? && r.Some? ==>
      0 <= r.value < |segments.value| && segments.value[r.value] == n.segment.value.name
      && n.segment.value.name !in segments.value[..r.value]
    ensures n.segment.None? || n.segment.value.SOther? ==> r.None?
  {
    match n.segment
    case None => None
    case Some(SInt(i)) => Some(i)
    case Some(SName(name)) =>
      if segments.None? then None
      else (match IndexOf(segments.value, name)
        case Some(k) => Some(k)
        case None => None)
    case Some(SOther()) => None
  }
}
