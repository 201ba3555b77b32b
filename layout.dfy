/** Node values and the grouping of nodes by layer. */
module Layout {
  import opened Wrappers
  import opened Graph
  import opened Strings

  /** The summed value of the links leaving `id` (absent values count 0). */
  function OutSum(links: seq<Link>, id: NodeId): real {
    if links == [] then 0.0
    else
      var l := links[|links| - 1];
      OutSum(links[..|links| - 1], id) + (if l.source == id then ValueOr0(l) else 0.0)
  }

  /** The summed value of the links entering `id`. */
  function InSum(links: seq<Link>, id: NodeId): real {
    if links == [] then 0.0
    else
      var l := links[|links| - 1];
      InSum(links[..|links| - 1], id) + (if l.target == id then ValueOr0(l) else 0.0)
  }

  function Max(a: real, b: real): real {
    if a >= b then a else b
  }

  /** The value of a node: the largest of its incoming sum, its outgoing sum and its declared value (or 0). */
  function NodeTotal(n: Node, links: seq<Link>): (r: real)
    ensures r >= InSum(links, n.id) && r >= OutSum(links, n.id) && r >= n.value.GetOr(0.0)
    ensures r == InSum(links, n.id) || r == OutSum(links, n.id) || r == n.value.GetOr(0.0)
  {
    Max(Max(InSum(links, n.id), OutSum(links, n.id)), n.value.GetOr(0.0))
  }

  /** No later node has the same id: this node's entry is the one that stays in a dict keyed by id. */
  predicate LastWithId(nodes: seq<Node>, i: nat)
    requires i < |nodes|
  {
    forall j :: i < j < |nodes| ==> nodes[j].id != nodes[i].id
  }

  function GetR(m: map<NodeId, real>, id: NodeId): real {
    if id in m then m[id] else 0.0
  }

  /** With non-negative link values both sums are non-negative. */
  lemma {:induction false} SumsNonNegative(links: seq<Link>, id: NodeId)
    requires forall i :: 0 <= i < |links| ==> ValueOr0(links[i]) >= 0.0
    ensures InSum(links, id) >= 0.0 && OutSum(links, id) >= 0.0
  {
    if links != [] {
      SumsNonNegative(links[..|links| - 1], id);
    }
  }

  /** The sums of a concatenation are the sums of the parts. */
  lemma {:induction false} SumsAppend(a: seq<Link>, b: seq<Link>, id: NodeId)
    ensures InSum(a + b, id) == InSum(a, id) + InSum(b, id)
    ensures OutSum(a + b, id) == OutSum(a, id) + OutSum(b, id)
  {
    if b != [] {
      SumsAppend(a, b[..|b| - 1], id);
      assert (a + b)[..|a + b| - 1] == a + b[..|b| - 1];
    } else {
      assert a + b == a;
    }
  }

  /** The first loop of compute_node_values: the incoming and outgoing sums of every id, missing ids reading 0. */
  method LinkSums(links: seq<Link>) returns (inSum: map<NodeId, real>, outSum: map<NodeId, real>)
    ensures forall id :: GetR(outSum, id) == OutSum(links, id)
    ensures forall id :: GetR(inSum, id) == InSum(links, id)
  {
    inSum, outSum := map[], map[];
    for i := 0 to |links|
      invariant forall id :: GetR(outSum, id) == OutSum(links[..i], id)
      invariant forall id :: GetR(inSum, id) == InSum(links[..i], id)
    {
      assert links[..i + 1][..i] == links[..i];
      var l := links[i];
      outSum := outSum[l.source := GetR(outSum, l.source) + l.value.GetOr(0.0)];
      inSum := inSum[l.target := GetR(inSum, l.target) + l.value.GetOr(0.0)];
    }
    assert links[..|links|] == links;
  }

  /** compute_node_values: one entry per node id, the value of the last node with that id. */
  method ComputeNodeValues(nodes: seq<Node>, links: seq<Link>) returns (vals: map<NodeId, real>)
    ensures vals.Keys == Ids(nodes)
    ensures forall i :: 0 <= i < |nodes| && LastWithId(nodes, i) ==> vals[nodes[i].id] == NodeTotal(nodes[i], links)
  {
    var inSum, outSum := LinkSums(links);
    vals := map[];
    for i := 0 to |nodes|
      invariant vals.Keys == Ids(nodes[..i])
      invariant forall a :: 0 <= a < i && (forall j :: a < j < i ==> nodes[j].id != nodes[a].id) ==>
        vals[nodes[a].id] == NodeTotal(nodes[a], links)
    {
      assert Ids(nodes[..i + 1]) == Ids(nodes[..i]) + {nodes[i].id} by {
        assert forall k :: 0 <= k < i ==> nodes[..i + 1][k] == nodes[..i][k];
      }
      var nid := nodes[i].id;
      var v := Max(Max(GetR(inSum, nid), GetR(outSum, nid)), nodes[i].value.GetOr(0.0));
      vals := vals[nid := v];
    }
    assert nodes[..|nodes|] == nodes;
  }

  /** The group key of a node: its layer from the layer map, else its segment, else 0, converted with int(): an
      integer segment is kept, a name segment is parsed as int() parses a string (GroupKeyName), and anything else
      is an error. */
  function GroupKey(n: Node, layerMap: map<NodeId, int>): (r: Result<int, string>)
    ensures n.id in layerMap ==> r == Success(layerMap[n.id])
    ensures n.id !in layerMap && n.segment.None? ==> r == Success(0)
    ensures n.id !in layerMap && n.segment.Some? && n.segment.value.SInt? ==> r == Success(n.segment.value.i)
    ensures n.id !in layerMap && n.segment.Some? && n.segment.value.SOther? ==> r.Failure?
  {
    if n.id in layerMap then Success(layerMap[n.id])
    else match n.segment
      case None => Success(0)
      case Some(SInt(i)) => Success(i)
      case Some(SName(s)) =>
        (match ParseInt(s)
         case Some(i) => Success(i)
         case None => Failure("invalid literal for int()"))
      case Some(SOther()) => Failure("segment is not an integer")
  }

  /** A name segment of a node without a layer gives a key exactly when int() reads it, and then its value. */
  lemma GroupKeyName(n: Node, layerMap: map<NodeId, int>)
    requires n.id !in layerMap && n.segment.Some? && n.segment.value.SName?
    ensures GroupKey(n, layerMap).Success? <==> ParseInt(n.segment.value.name).Some?
    ensures GroupKey(n, layerMap).Success? ==> ParseInt(n.segment.value.name) == Some(GroupKey(n, layerMap).value)
  {
  }

  /** A decimal numeral as int() reads one: ASCII digits, with single underscores allowed between two digits. */
  predicate Numeral(s: string) {
    && s != [] && IsDigit(s[0]) && IsDigit(s[|s| - 1])
    && (forall i :: 0 <= i < |s| ==> IsDigit(s[i]) || s[i] == '_')
    && (forall i :: 0 <= i < |s| - 1 && s[i] == '_' ==> IsDigit(s[i + 1]))
  }

  /** The digits of a string of digits and underscores, the underscores dropped. */
  function DropUnderscores(s: string): (r: string)
    requires forall i :: 0 <= i < |s| ==> IsDigit(s[i]) || s[i] == '_'
    ensures forall i :: 0 <= i < |r| ==> IsDigit(r[i])
  {
    if s == [] then []
    else DropUnderscores(s[..|s| - 1]) + (if s[|s| - 1] == '_' then [] else [s[|s| - 1]])
  }

  /** The numeral in front of the last digit of `s`: one character shorter, or two when an underscore precedes it. */
  function Front(s: string): string
    requires |s| >= 2
  {
    if s[|s| - 2] == '_' then s[..|s| - 2] else s[..|s| - 1]
  }

  /** The value of a numeral, scanned from the right one digit, or one underscore and digit, at a time. */
  function Digits(s: string): (r: Option<nat>)
    ensures Numeral(s) ==> r == Some(DigitsValue(DropUnderscores(s)))
    ensures !Numeral(s) ==> r.None?
    decreases |s|
  {
    if s == [] || !IsDigit(s[|s| - 1]) then None
    else if |s| == 1 then Some(DigitOf(s[0]))
    else
      NumeralFront(s);
      match Digits(Front(s))
      case None => None
      case Some(d) => Some(d * 10 + DigitOf(s[|s| - 1]))
  }

  /** A string of two or more characters ending in a digit is a numeral exactly when its front is, and its value is
      then ten times the front's plus the last digit. */
  lemma NumeralFront(s: string)
    requires |s| >= 2 && IsDigit(s[|s| - 1])
    ensures Numeral(s) <==> Numeral(Front(s))
    ensures Numeral(s) ==>
      DigitsValue(DropUnderscores(s)) == 10 * DigitsValue(DropUnderscores(Front(s))) + DigitOf(s[|s| - 1])
  {
    var f, c := Front(s), s[|s| - 1];
    if s[|s| - 2] == '_' {
      assert s == f + ['_', c];
      NumeralUnderscore(f, c);
      if Numeral(s) {
        DropUnderscore(f, c);
      }
    } else {
      assert s == f + [c];
      NumeralDigit(f, c);
      if Numeral(s) {
        DropDigit(f, c);
      }
    }
  }

  lemma DropDigit(f: string, c: char)
    requires IsDigit(c) && forall i :: 0 <= i < |f| ==> IsDigit(f[i]) || f[i] == '_'
    ensures DigitsValue(DropUnderscores(f + [c])) == 10 * DigitsValue(DropUnderscores(f)) + DigitOf(c)
  {
    var s := f + [c];
    assert s[..|s| - 1] == f;
    assert DropUnderscores(s) == DropUnderscores(f) + [c];
    DigitsValueSnoc(DropUnderscores(f), c);
  }

  lemma DropUnderscore(f: string, c: char)
    requires IsDigit(c) && forall i :: 0 <= i < |f| ==> IsDigit(f[i]) || f[i] == '_'
    ensures DigitsValue(DropUnderscores(f + ['_', c])) == 10 * DigitsValue(DropUnderscores(f)) + DigitOf(c)
  {
    var s := f + ['_', c];
    assert s[..|s| - 1] == f + ['_'];
    assert (f + ['_'])[..|f|] == f;
    assert DropUnderscores(f + ['_']) == DropUnderscores(f);
    assert DropUnderscores(s) == DropUnderscores(f) + [c];
    DigitsValueSnoc(DropUnderscores(f), c);
  }

  lemma NumeralDigit(f: string, c: char)
    requires IsDigit(c) && f != [] && f[|f| - 1] != '_'
    ensures Numeral(f + [c]) <==> Numeral(f)
  {
    var s := f + [c];
    assert forall i :: 0 <= i < |f| ==> s[i] == f[i];
    if Numeral(f) {
      forall i | 0 <= i < |s| - 1 && s[i] == '_' ensures IsDigit(s[i + 1]) {
        if i + 1 < |f| { assert s[i] == f[i]; }
      }
    }
    if Numeral(s) {
      assert IsDigit(f[|f| - 1]) by { assert s[|f| - 1] == f[|f| - 1]; }
      forall i | 0 <= i < |f| - 1 && f[i] == '_' ensures IsDigit(f[i + 1]) {
        assert s[i] == f[i] && s[i + 1] == f[i + 1];
      }
    }
  }

  lemma NumeralUnderscore(f: string, c: char)
    requires IsDigit(c)
    ensures Numeral(f + ['_', c]) <==> Numeral(f)
  {
    var s := f + ['_', c];
    assert forall i :: 0 <= i < |f| ==> s[i] == f[i];
    assert s[|f|] == '_' && s[|f| + 1] == c;
    if Numeral(f) {
      forall i | 0 <= i < |s| - 1 && s[i] == '_' ensures IsDigit(s[i + 1]) {
        if i + 1 < |f| { assert s[i] == f[i]; }
      }
    }
    if Numeral(s) {
      assert f != [] by { assert s[0] != '_'; }
      assert IsDigit(f[|f| - 1]) by { assert s[|f| - 1] == f[|f| - 1]; }
      forall i | 0 <= i < |f| - 1 && f[i] == '_' ensures IsDigit(f[i + 1]) {
        assert s[i] == f[i] && s[i + 1] == f[i + 1];
      }
    }
  }

  lemma DigitsValueSnoc(ds: string, c: char)
    requires IsDigit(c) && forall i :: 0 <= i < |ds| ==> IsDigit(ds[i])
    ensures DigitsValue(ds + [c]) == 10 * DigitsValue(ds) + DigitOf(c)
  {
    assert (ds + [c])[..|ds|] == ds;
  }

  /** int() of a string: whitespace at either end, then an optional sign and a numeral. */
  function ParseInt(s: string): (r: Option<int>)
    ensures var t := Strip(s);
      r.Some? <==> Numeral(t) || (|t| > 1 && (t[0] == '-' || t[0] == '+') && Numeral(t[1..]))
    ensures Numeral(Strip(s)) ==> r == Some(DigitsValue(DropUnderscores(Strip(s))))
    ensures var t := Strip(s);
      |t| > 1 && t[0] == '+' && Numeral(t[1..]) ==> r == Some(DigitsValue(DropUnderscores(t[1..])))
    ensures var t := Strip(s);
      |t| > 1 && t[0] == '-' && Numeral(t[1..]) ==> r == Some(0 - DigitsValue(DropUnderscores(t[1..])))
  {
    var t := Strip(s);
    if t != [] && (t[0] == '-' || t[0] == '+') then
      match Digits(t[1..])
      case None => None
      case Some(d) => Some(if t[0] == '-' then 0 - d else d)
    else
      match Digits(t)
      case None => None
      case Some(d) => Some(d)
  }

  /** The decimal spelling of an integer, with a minus sign when it is negative. */
  function IntStr(i: int): (s: string)
    ensures s != []
  {
    if i < 0 then "-" + NatStr(0 - i) else NatStr(i)
  }

  /** int() reads back the decimal spelling of every integer, whatever whitespace surrounds it. */
  lemma ParseIntStr(i: int, p: string, q: string)
    requires AllSpace(p) && AllSpace(q)
    ensures ParseInt(p + IntStr(i) + q) == Some(i)
  {
    var t := IntStr(i);
    assert p + t + q == p + (t + q);
    StripSpaceBefore(p, t + q);
    StripSpaceAfter(t, q);
    assert !IsSpace(t[0]) && !IsSpace(t[|t| - 1]);
    StripTrimmed(t);
    ParseIntStrTrimmed(i);
  }

  lemma ParseIntStrTrimmed(i: int)
    ensures Strip(IntStr(i)) == IntStr(i) ==> ParseInt(IntStr(i)) == Some(i)
  {
    var n: nat := if i < 0 then 0 - i else i;
    var ds := NatStr(n);
    NatStrValue(n);
    DigitsNumeral(ds);
    if i < 0 {
      assert IntStr(i)[1..] == ds;
    }
  }

  /** A non-empty string of digits is a numeral, and dropping underscores leaves it as it is. */
  lemma {:induction false} DigitsNumeral(ds: string)
    requires ds != [] && forall i :: 0 <= i < |ds| ==> IsDigit(ds[i])
    ensures Numeral(ds) && DropUnderscores(ds) == ds
  {
    if |ds| > 1 {
      DigitsNumeral(ds[..|ds| - 1]);
    }
  }

  /** The nodes whose key is k, in input order. */
  function Members(nodes: seq<Node>, layerMap: map<NodeId, int>, k: int): (r: seq<Node>)
    ensures |r| <= |nodes|
  {
    if nodes == [] then []
    else
      Members(nodes[..|nodes| - 1], layerMap, k)
      + (if GroupKey(nodes[|nodes| - 1], layerMap) == Success(k) then [nodes[|nodes| - 1]] else [])
  }

  /** The groups built so far, or the first error. */
  function Grouped(nodes: seq<Node>, layerMap: map<NodeId, int>): (r: Result<ODict<int, seq<Node>>, string>)
    ensures r.Success? ==> r.value.Valid()
  {
    if nodes == [] then Success(EmptyDict())
    else
      match Grouped(nodes[..|nodes| - 1], layerMap)
      case Failure(e) => Failure(e)
      case Success(g) =>
        var n := nodes[|nodes| - 1];
        match GroupKey(n, layerMap)
        case Failure(e) => Failure(e)
        case Success(k) =>
          Success(Put(g, k, (if k in g.entries then g.entries[k] else []) + [n]))
  }

  /** group_by_layer succeeds exactly when every node has a key. */
  lemma {:induction false} GroupedOk(nodes: seq<Node>, layerMap: map<NodeId, int>)
    ensures Grouped(nodes, layerMap).Success? <==> forall i :: 0 <= i < |nodes| ==> GroupKey(nodes[i], layerMap).Success?
  {
    if nodes != [] {
      var init, n := nodes[..|nodes| - 1], nodes[|nodes| - 1];
      GroupedOk(init, layerMap);
      assert (forall i :: 0 <= i < |nodes| ==> GroupKey(nodes[i], layerMap).Success?)
        <==> (forall i :: 0 <= i < |init| ==> GroupKey(init[i], layerMap).Success?) && GroupKey(n, layerMap).Success? by {
        assert forall i :: 0 <= i < |init| ==> init[i] == nodes[i];
      }
    }
  }

  /** The keys of the nodes that have one. */
  predicate HasKey(nodes: seq<Node>, layerMap: map<NodeId, int>, k: int) {
    exists i :: 0 <= i < |nodes| && GroupKey(nodes[i], layerMap) == Success(k)
  }

  /** When group_by_layer succeeds, its keys are exactly the keys of the nodes, each listed once. */
  lemma {:induction false} GroupedKeys(nodes: seq<Node>, layerMap: map<NodeId, int>)
    requires Grouped(nodes, layerMap).Success?
    ensures var g := Grouped(nodes, layerMap).value;
      && (forall i, j :: 0 <= i < j < |g.keys| ==> g.keys[i] != g.keys[j])
      && (forall k :: k in g.entries <==> HasKey(nodes, layerMap, k))
  {
    if nodes != [] {
      var init, n := nodes[..|nodes| - 1], nodes[|nodes| - 1];
      GroupedKeys(init, layerMap);
      var g, k := Grouped(init, layerMap).value, GroupKey(n, layerMap).value;
      var g' := Grouped(nodes, layerMap).value;
      assert g'.entries.Keys == g.entries.Keys + {k};
      forall k' ensures HasKey(nodes, layerMap, k') <==> HasKey(init, layerMap, k') || k' == k {
        HasKeyStep(nodes, layerMap, k');
      }
    }
  }

  lemma HasKeyStep(nodes: seq<Node>, layerMap: map<NodeId, int>, k: int)
    requires nodes != [] && GroupKey(nodes[|nodes| - 1], layerMap).Success?
    ensures HasKey(nodes, layerMap, k) <==>
      HasKey(nodes[..|nodes| - 1], layerMap, k) || k == GroupKey(nodes[|nodes| - 1], layerMap).value
  {
    var init := nodes[..|nodes| - 1];
    if HasKey(nodes, layerMap, k) && k != GroupKey(nodes[|nodes| - 1], layerMap).value {
      var i :| 0 <= i < |nodes| && GroupKey(nodes[i], layerMap) == Success(k);
      assert i < |init| && init[i] == nodes[i];
    }
    if HasKey(init, layerMap, k) {
      var i :| 0 <= i < |init| && GroupKey(init[i], layerMap) == Success(k);
      assert init[i] == nodes[i];
    }
  }

  /** When group_by_layer succeeds, every group is the list of the nodes with that key, in input order. */
  lemma {:induction false} GroupedMembers(nodes: seq<Node>, layerMap: map<NodeId, int>)
    requires Grouped(nodes, layerMap).Success?
    ensures var g := Grouped(nodes, layerMap).value;
      forall k :: k in g.entries ==> g.entries[k] == Members(nodes, layerMap, k)
  {
    if nodes != [] {
      var init, n := nodes[..|nodes| - 1], nodes[|nodes| - 1];
      GroupedMembers(init, layerMap);
      var g, k := Grouped(init, layerMap).value, GroupKey(n, layerMap).value;
      var g' := Grouped(nodes, layerMap).value;
      assert g'.entries == g.entries[k := (if k in g.entries then g.entries[k] else []) + [n]];
      forall k' | k' in g'.entries ensures g'.entries[k'] == Members(nodes, layerMap, k') {
        if k' == k && k !in g.entries {
          MembersEmpty(init, layerMap, k);
        }
      }
    }
  }

  /** A key that no node has has no members. */
  lemma {:induction false} MembersEmpty(nodes: seq<Node>, layerMap: map<NodeId, int>, k: int)
    requires Grouped(nodes, layerMap).Success? && k !in Grouped(nodes, layerMap).value.entries
    ensures Members(nodes, layerMap, k) == []
  {
    if nodes != [] {
      var init := nodes[..|nodes| - 1];
      MembersEmpty(init, layerMap, k);
    }
  }

  /** Each node is a member of the group of its own key and of no other. */
  lemma {:induction false} MembersPartition(nodes: seq<Node>, layerMap: map<NodeId, int>, k: int)
    ensures forall n :: n in Members(nodes, layerMap, k) <==> n in nodes && GroupKey(n, layerMap) == Success(k)
  {
    if nodes != [] {
      MembersPartition(nodes[..|nodes| - 1], layerMap, k);
      assert nodes == nodes[..|nodes| - 1] + [nodes[|nodes| - 1]];
    }
  }

  /** group_by_layer. */
  method GroupByLayer(nodes: seq<Node>, layerMap: map<NodeId, int>) returns (r: Result<ODict<int, seq<Node>>, string>)
    ensures r == Grouped(nodes, layerMap)
  {
    var g: ODict<int, seq<Node>> := EmptyDict();
    for i := 0 to |nodes|
      invariant Grouped(nodes[..i], layerMap) == Success(g)
      invariant g.Valid()
    {
      assert nodes[..i + 1][..i] == nodes[..i];
      var n := nodes[i];
      var lid := GroupKey(n, layerMap);
      if lid.Failure? {
        GroupedFailurePersists(nodes, layerMap, i + 1);
        return Failure(lid.error);
      }
      var k := lid.value;
      var members := if k in g.entries then g.entries[k] else [];
      g := Put(g, k, members + [n]);
    }
    assert nodes[..|nodes|] == nodes;
    return Success(g);
  }

  /** Once a node has no key, the whole grouping fails with that node's error. */
  lemma {:induction false} GroupedFailurePersists(nodes: seq<Node>, layerMap: map<NodeId, int>, n: nat)
    requires 0 < n <= |nodes|
    requires Grouped(nodes[..n], layerMap).Failure?
    ensures Grouped(nodes, layerMap) == Grouped(nodes[..n], layerMap)
  {
    if n < |nodes| {
      assert nodes[..|nodes| - 1][..n] == nodes[..n];
      GroupedFailurePersists(nodes[..|nodes| - 1], layerMap, n);
    } else {
      assert nodes[..n] == nodes;
    }
  }
}
