/** The JSON input format of the two-column diagram: `left` as a name-to-value object or as a list of
    `{"name", "value"}` objects, `right` as an object from right node names to lists of flow objects. */
module JsonFormat {
  import opened Wrappers
  import opened Strings
  import opened TwoColumn
  import TextFormat

  /** A value as `json.load` returns it; objects keep their key order, a repeated key keeps its last value. */
  datatype Json =
    | Null
    | Bool(b: bool)
    | Number(n: real)
    | Str(s: string)
    | List(items: seq<Json>)
    | Object(fields: ODict<string, Json>)

  /** The exception the parser raises. `NonStringName` stands for a name or source that is not a string, which
      Python would store as it is and which the string-keyed result of this model cannot hold. */
  datatype Error = TypeError | KeyError | ValueError | AttributeError | NonStringName

  /** Every object, however deeply nested, is a proper dictionary. */
  ghost predicate WellFormed(j: Json) {
    match j
    case List(items) => forall i :: 0 <= i < |items| ==> WellFormed(items[i])
    case Object(d) => d.Valid() && forall k :: k in d.entries ==> WellFormed(d.entries[k])
    case _ => true
  }

  /** An object held under a key of a well-formed object is a proper dictionary. */
  lemma FieldValid(data: ODict<string, Json>, key: string)
    requires WellFormed(Object(data)) && key in data.entries && data.entries[key].Object?
    ensures data.entries[key].fields.Valid()
  {
  }

  /** Python's truth value of a JSON value. */
  predicate Truthy(j: Json) {
    match j
    case Null => false
    case Bool(b) => b
    case Number(n) => n != 0.0
    case Str(s) => s != []
    case List(items) => items != []
    case Object(d) => d.keys != []
  }

  /** The value of a key of an object, Null when the key is absent. */
  function Get(o: ODict<string, Json>, key: string): (r: Json)
    ensures key !in o.entries ==> r == Null
  {
    if key in o.entries then o.entries[key] else Null
  }

  /** Python's `a or b`. */
  function Or(a: Json, b: Json): (r: Json)
    ensures Truthy(r) <==> Truthy(a) || Truthy(b)
    ensures Truthy(a) ==> r == a
  {
    if Truthy(a) then a else b
  }

  /** `float(x)`: numbers as they are, booleans as 1.0 and 0.0, a string holding a decimal numeral (surrounding
      whitespace allowed) as its value; None, lists and objects raise TypeError. */
  function Float(j: Json): (r: Result<real, Error>)
    ensures j.Number? ==> r == Success(j.n)
    ensures j.Null? || j.List? || j.Object? ==> r == Failure(TypeError)
    ensures j.Bool? ==> r == Success(if j.b then 1.0 else 0.0)
    ensures j.Str? ==> (r.Success? <==> TextFormat.NumberAt(Strip(j.s)).Some?
                                        && TextFormat.NumberAt(Strip(j.s)).value.1 == |Strip(j.s)|)
    ensures j.Str? && r.Success? ==> r.value == TextFormat.NumberAt(Strip(j.s)).value.0 && r.value >= 0.0
    ensures j.Str? && r.Failure? ==> r.error == ValueError
  {
    match j
    case Number(n) => Success(n)
    case Bool(b) => Success(if b then 1.0 else 0.0)
    case Str(s) =>
      var t := Strip(s);
      (match TextFormat.NumberAt(t)
       case Some((v, n)) => if n == |t| then Success(v) else Failure(ValueError)
       case None => Failure(ValueError))
    case _ => Failure(TypeError)
  }

  /** A name used as a dictionary key: lists and objects are unhashable. */
  function Key(j: Json): (r: Result<string, Error>)
    ensures r.Success? <==> j.Str?
    ensures j.Str? ==> r.value == j.s
  {
    match j
    case Str(s) => Success(s)
    case List(_) => Failure(TypeError)
    case Object(_) => Failure(TypeError)
    case _ => Failure(NonStringName)
  }

  /** The object format of `left`: each key with its value converted to a float, from the `i`-th key on, onto `acc`. */
  function LeftObjectFrom(d: ODict<string, Json>, i: nat, acc: LeftNodes): (r: Result<LeftNodes, Error>)
    requires d.Valid() && i <= |d.keys| && acc.Valid()
    ensures r.Success? ==> r.value.Valid()
    decreases |d.keys| - i
  {
    if i == |d.keys| then Success(acc)
    else
      KeyIn(d, i);
      match Float(d.entries[d.keys[i]])
      case Failure(e) => Failure(e)
      case Success(v) => LeftObjectFrom(d, i + 1, Put(acc, d.keys[i], v))
  }

  /** One entry of the list format: its name, its value converted to a float, then the name used as a key. */
  function LeftItem(item: Json): (r: Result<(string, real), Error>)
    ensures r.Success? ==> item.Object? && "name" in item.fields.entries && "value" in item.fields.entries
    ensures r.Success? ==> item.fields.entries["name"] == Str(r.value.0)
  {
    match item
    case Object(o) =>
      if "name" !in o.entries || "value" !in o.entries then Failure(KeyError)
      else
        (match Float(o.entries["value"])
         case Failure(e) => Failure(e)
         case Success(v) =>
           match Key(o.entries["name"])
           case Failure(e) => Failure(e)
           case Success(name) => Success((name, v)))
    case _ => Failure(TypeError)
  }

  /** The list format of `left`: each item's name with its value converted to a float, from the `i`-th item on, onto `acc`. */
  function LeftListFrom(items: seq<Json>, i: nat, acc: LeftNodes): (r: Result<LeftNodes, Error>)
    requires i <= |items| && acc.Valid()
    ensures r.Success? ==> r.value.Valid()
    decreases |items| - i
  {
    if i == |items| then Success(acc)
    else
      match LeftItem(items[i])
      case Failure(e) => Failure(e)
      case Success((name, v)) => LeftListFrom(items, i + 1, Put(acc, name, v))
  }

  /** The left nodes: empty when `left` is missing or is neither an object nor a list. */
  function ParseLeft(data: ODict<string, Json>): (r: Result<LeftNodes, Error>)
    requires WellFormed(Object(data))
    ensures r.Success? ==> r.value.Valid()
  {
    if "left" !in data.entries then Success(EmptyDict())
    else
      match data.entries["left"]
      case Object(d) => FieldValid(data, "left"); LeftObjectFrom(d, 0, EmptyDict())
      case List(items) => LeftListFrom(items, 0, EmptyDict())
      case _ => Success(EmptyDict())
  }

  /** What `for flow in flows` visits: a list's items, an object's keys, a string's characters. */
  function Elements(j: Json): (r: Result<seq<Json>, Error>)
    ensures r.Success? && !j.List? ==> forall i :: 0 <= i < |r.value| ==> r.value[i].Str?
    ensures r.Failure? <==> j.Null? || j.Bool? || j.Number?
  {
    match j
    case List(items) => Success(items)
    case Object(d) => Success(seq(|d.keys|, i requires 0 <= i < |d.keys| => Str(d.keys[i])))
    case Str(s) => Success(seq(|s|, i requires 0 <= i < |s| => Str([s[i]])))
    case _ => Failure(TypeError)
  }

  /** One element of a flow list: a dict with a truthy `from` (else `source`) and a `value` (else `amount`) that
      is not None gives a flow; anything else is skipped. */
  function FlowOf(x: Json): (r: Result<Option<Flow>, Error>)
    ensures r.Success? && r.value.Some? ==> x.Object? && r.value.value.source != []
  {
    match x
    case Object(o) =>
      var source := Or(Get(o, "from"), Get(o, "source"));
      var value := Or(Get(o, "value"), Get(o, "amount"));
      if Truthy(source) && value != Null then
        (match Float(value)
         case Failure(e) => Failure(e)
         case Success(v) => if source.Str? then Success(Some(Flow(source.s, v))) else Failure(NonStringName))
      else Success(None)
    case _ => Success(None)
  }

  /** Every flow has a non-empty source. */
  predicate Named(fs: seq<Flow>) {
    forall i :: 0 <= i < |fs| ==> fs[i].source != []
  }

  /** The flows kept from the `i`-th element on, appended to `acc`. */
  function FlowListFrom(xs: seq<Json>, i: nat, acc: seq<Flow>): (r: Result<seq<Flow>, Error>)
    requires i <= |xs|
    ensures r.Success? && Named(acc) ==> Named(r.value) && |r.value| >= |acc|
    decreases |xs| - i
  {
    if i == |xs| then Success(acc)
    else
      match FlowOf(xs[i])
      case Failure(e) => Failure(e)
      case Success(None) => FlowListFrom(xs, i + 1, acc)
      case Success(Some(f)) => FlowListFrom(xs, i + 1, acc + [f])
  }

  /** The flows kept from elements that are not dicts: none. */
  lemma {:induction false} FlowListSkips(xs: seq<Json>, i: nat, acc: seq<Flow>)
    requires i <= |xs| && forall j :: 0 <= j < |xs| ==> !xs[j].Object?
    ensures FlowListFrom(xs, i, acc) == Success(acc)
    decreases |xs| - i
  {
    if i < |xs| {
      FlowListSkips(xs, i + 1, acc);
    }
  }

  /** The flow list of one right node. */
  function FlowsOf(flows: Json): (r: Result<seq<Flow>, Error>)
    ensures flows.Object? || flows.Str? ==> r == Success([])
    ensures r.Success? ==> Named(r.value)
    ensures r.Failure? && (flows.Null? || flows.Bool? || flows.Number?) ==> r.error == TypeError
  {
    match Elements(flows)
    case Failure(e) => Failure(e)
    case Success(xs) =>
      if flows.List? then FlowListFrom(xs, 0, [])
      else
        FlowListSkips(xs, 0, []);
        FlowListFrom(xs, 0, [])
  }

  /** `for right_node, flows in d.items()`, from the `i`-th key on, onto `acc`; a node without flows is left out. */
  function RightObjectFrom(d: ODict<string, Json>, i: nat, acc: RightNodes): (r: Result<RightNodes, Error>)
    requires d.Valid() && i <= |d.keys| && acc.Valid()
    ensures r.Success? ==> r.value.Valid()
    decreases |d.keys| - i
  {
    if i == |d.keys| then Success(acc)
    else
      KeyIn(d, i);
      match FlowsOf(d.entries[d.keys[i]])
      case Failure(e) => Failure(e)
      case Success(fs) => RightObjectFrom(d, i + 1, if fs == [] then acc else Put(acc, d.keys[i], fs))
  }

  /** The right nodes: empty when `right` is missing; `.items()` of anything but an object raises AttributeError. */
  function ParseRight(data: ODict<string, Json>): (r: Result<RightNodes, Error>)
    requires WellFormed(Object(data))
    ensures r.Success? ==> r.value.Valid()
    ensures "right" in data.entries && !data.entries["right"].Object? ==> r == Failure(AttributeError)
  {
    if "right" !in data.entries then Success(EmptyDict())
    else
      match data.entries["right"]
      case Object(d) => FieldValid(data, "right"); RightObjectFrom(d, 0, EmptyDict())
      case _ => Failure(AttributeError)
  }

  /** `parse_json_format`: the left nodes first, then the right nodes. */
  function ParseJson(data: ODict<string, Json>): (r: Result<(LeftNodes, RightNodes), Error>)
    requires WellFormed(Object(data))
    ensures r.Success? ==> r.value.0.Valid() && r.value.1.Valid()
    ensures "left" !in data.entries && "right" !in data.entries ==> r.Success? && r.value.0.keys == [] && r.value.1.keys == []
  {
    match ParseLeft(data)
    case Failure(e) => Failure(e)
    case Success(left) =>
      match ParseRight(data)
      case Failure(e) => Failure(e)
      case Success(right) => Success((left, right))
  }

  /** The dictionary comprehension over an object's items. */
  method LeftObjectLoop(d: ODict<string, Json>) returns (r: Result<LeftNodes, Error>)
    requires d.Valid()
    ensures r == LeftObjectFrom(d, 0, EmptyDict())
  {
    var left: LeftNodes := EmptyDict();
    var i := 0;
    while i < |d.keys|
      invariant i <= |d.keys| && left.Valid()
      invariant LeftObjectFrom(d, i, left) == LeftObjectFrom(d, 0, EmptyDict())
      decreases |d.keys| - i
    {
      KeyIn(d, i);
      var v := Float(d.entries[d.keys[i]]);
      if v.Failure? {
        return Failure(v.error);
      }
      left := Put(left, d.keys[i], v.value);
      i := i + 1;
    }
    r := Success(left);
  }

  /** The dictionary comprehension over a list of `{"name", "value"}` objects. */
  method LeftListLoop(items: seq<Json>) returns (r: Result<LeftNodes, Error>)
    ensures r == LeftListFrom(items, 0, EmptyDict())
  {
    var left: LeftNodes := EmptyDict();
    var i := 0;
    while i < |items|
      invariant i <= |items| && left.Valid()
      invariant LeftListFrom(items, i, left) == LeftListFrom(items, 0, EmptyDict())
      decreases |items| - i
    {
      var item := LeftItem(items[i]);
      if item.Failure? {
        return Failure(item.error);
      }
      left := Put(left, item.value.0, item.value.1);
      i := i + 1;
    }
    r := Success(left);
  }

  /** The inner loop: a flow of the source and the float value for every element that passes the test. */
  method FlowLoop(flows: Json) returns (r: Result<seq<Flow>, Error>)
    ensures r == FlowsOf(flows)
  {
    var elements := Elements(flows);
    if elements.Failure? {
      return Failure(elements.error);
    }
    var xs := elements.value;
    var flowList: seq<Flow> := [];
    var j := 0;
    while j < |xs|
      invariant j <= |xs|
      invariant FlowListFrom(xs, j, flowList) == FlowListFrom(xs, 0, [])
      decreases |xs| - j
    {
      var x := xs[j];
      if x.Object? {
        var source := Or(Get(x.fields, "from"), Get(x.fields, "source"));
        var value := Or(Get(x.fields, "value"), Get(x.fields, "amount"));
        if Truthy(source) && value != Null {
          var v := Float(value);
          if v.Failure? {
            return Failure(v.error);
          }
          if !source.Str? {
            return Failure(NonStringName);
          }
          flowList := flowList + [Flow(source.s, v.value)];
        }
      }
      j := j + 1;
    }
    r := Success(flowList);
  }

  /** The outer loop over the right nodes; a node whose flow list stays empty is not stored. */
  method RightLoop(d: ODict<string, Json>) returns (r: Result<RightNodes, Error>)
    requires d.Valid()
    ensures r == RightObjectFrom(d, 0, EmptyDict())
  {
    var right: RightNodes := EmptyDict();
    var i := 0;
    while i < |d.keys|
      invariant i <= |d.keys| && right.Valid()
      invariant RightObjectFrom(d, i, right) == RightObjectFrom(d, 0, EmptyDict())
      decreases |d.keys| - i
    {
      KeyIn(d, i);
      var flowList := FlowLoop(d.entries[d.keys[i]]);
      if flowList.Failure? {
        return Failure(flowList.error);
      }
      if flowList.value != [] {
        right := Put(right, d.keys[i], flowList.value);
      }
      i := i + 1;
    }
    r := Success(right);
  }

  /** `parse_json_format` as the source writes it: the left nodes, then the right nodes. */
  method ParseJsonFormat(data: ODict<string, Json>) returns (r: Result<(LeftNodes, RightNodes), Error>)
    requires WellFormed(Object(data))
    ensures r == ParseJson(data)
  {
    var left: Result<LeftNodes, Error> := Success(EmptyDict());
    if "left" in data.entries {
      var leftData := data.entries["left"];
      if leftData.Object? {
        FieldValid(data, "left");
        left := LeftObjectLoop(leftData.fields);
      } else if leftData.List? {
        left := LeftListLoop(leftData.items);
      }
    }
    if left.Failure? {
      return Failure(left.error);
    }
    var right: Result<RightNodes, Error> := Success(EmptyDict());
    if "right" in data.entries {
      var rightData := data.entries["right"];
      if !rightData.Object? {
        return Failure(AttributeError);
      }
      FieldValid(data, "right");
      right := RightLoop(rightData.fields);
    }
    if right.Failure? {
      return Failure(right.error);
    }
    r := Success((left.value, right.value));
  }

  // What a successful parse looks like.

  /** Every right node came from the `right` object and keeps at least one flow, each with a source. */
  ghost predicate RightDrawnFrom(right: RightNodes, data: ODict<string, Json>) {
    forall k :: k in right.entries ==>
      && "right" in data.entries && data.entries["right"].Object? && k in data.entries["right"].fields.entries
      && right.entries[k] != [] && Named(right.entries[k])
  }

  lemma {:induction false} RightObjectDrawn(data: ODict<string, Json>, d: ODict<string, Json>, i: nat, acc: RightNodes)
    requires "right" in data.entries && data.entries["right"] == Object(d)
    requires d.Valid() && i <= |d.keys| && acc.Valid() && RightDrawnFrom(acc, data)
    requires RightObjectFrom(d, i, acc).Success?
    ensures RightDrawnFrom(RightObjectFrom(d, i, acc).value, data)
    decreases |d.keys| - i
  {
    if i < |d.keys| {
      KeyIn(d, i);
      var fs := FlowsOf(d.entries[d.keys[i]]).value;
      var next := if fs == [] then acc else Put(acc, d.keys[i], fs);
      assert RightObjectFrom(d, i, acc) == RightObjectFrom(d, i + 1, next);
      assert RightDrawnFrom(next, data);
      RightObjectDrawn(data, d, i + 1, next);
    }
  }

  lemma {:induction false} LeftObjectKeys(d: ODict<string, Json>, i: nat, acc: LeftNodes)
    requires d.Valid() && i <= |d.keys| && acc.Valid() && acc.keys == d.keys[..i]
    requires LeftObjectFrom(d, i, acc).Success?
    ensures LeftObjectFrom(d, i, acc).value.keys == d.keys
    decreases |d.keys| - i
  {
    if i == |d.keys| {
      assert d.keys[..i] == d.keys;
    } else {
      KeyIn(d, i);
      var k := d.keys[i];
      assert k !in acc.keys;
      assert d.keys[..i + 1] == d.keys[..i] + [k];
      LeftObjectKeys(d, i + 1, Put(acc, k, Float(d.entries[k]).value));
    }
  }

  /** A successful parse: the left nodes of an object keep its keys in order; every right node is a key of the
      `right` object, and a node whose flows were all dropped is left out, as is a flow without a source. */
  lemma ParseJsonShape(data: ODict<string, Json>)
    requires WellFormed(Object(data)) && ParseJson(data).Success?
    ensures "left" in data.entries && data.entries["left"].Object? ==>
      ParseJson(data).value.0.keys == data.entries["left"].fields.keys
    ensures RightDrawnFrom(ParseJson(data).value.1, data)
  {
    if "left" in data.entries && data.entries["left"].Object? {
      FieldValid(data, "left");
      LeftObjectKeys(data.entries["left"].fields, 0, EmptyDict());
    }
    if "right" in data.entries {
      FieldValid(data, "right");
      RightObjectDrawn(data, data.entries["right"].fields, 0, EmptyDict());
    }
  }

  // Which flow objects are kept.

  /** A flow object is skipped exactly when neither `from` nor `source` is truthy, or when `value` is falsy
      and `amount` is missing or null: a flow of value 0 without an `amount` is dropped. */
  lemma FlowDropped(o: ODict<string, Json>)
    ensures FlowOf(Object(o)) == Success(None) <==>
      (!Truthy(Get(o, "from")) && !Truthy(Get(o, "source"))) || (!Truthy(Get(o, "value")) && Get(o, "amount") == Null)
  {
  }

  /** A truthy `from` and a truthy `value` decide the flow, whatever `source` and `amount` hold. */
  lemma FromPreferred(o: ODict<string, Json>, s: string, v: real)
    requires Get(o, "from") == Str(s) && s != [] && Get(o, "value") == Number(v) && v != 0.0
    ensures FlowOf(Object(o)) == Success(Some(Flow(s, v)))
  {
  }

  /** Without a truthy `from` and `value`, the flow is taken from `source` and `amount`; an `amount` of 0 is kept. */
  lemma SourceAmountFallback(o: ODict<string, Json>, s: string, a: real)
    requires !Truthy(Get(o, "from")) && Get(o, "source") == Str(s) && s != []
    requires !Truthy(Get(o, "value")) && Get(o, "amount") == Number(a)
    ensures FlowOf(Object(o)) == Success(Some(Flow(s, a)))
  {
  }

  // The two formats of the left nodes.

  /** The list-format item of one left node: an object with a name and a value. */
  function ItemJson(name: string, v: Json): (item: Json)
    ensures item.Object? && item.fields.Valid()
  {
    Object(Put(Put(EmptyDict(), "name", Str(name)), "value", v))
  }

  /** The list format of a name-to-value object: one `{"name", "value"}` item per key, in key order. */
  function Items(d: ODict<string, Json>): (items: seq<Json>)
    requires d.Valid()
    ensures |items| == |d.keys|
  {
    seq(|d.keys|, i requires 0 <= i < |d.keys| => KeyIn(d, i); ItemJson(d.keys[i], d.entries[d.keys[i]]))
  }

  lemma {:induction false} LeftFormatsAgreeFrom(d: ODict<string, Json>, i: nat, acc: LeftNodes)
    requires d.Valid() && i <= |d.keys| && acc.Valid()
    ensures LeftListFrom(Items(d), i, acc) == LeftObjectFrom(d, i, acc)
    decreases |d.keys| - i
  {
    if i < |d.keys| {
      KeyIn(d, i);
      var k := d.keys[i];
      var item := Items(d)[i];
      assert item == ItemJson(k, d.entries[k]);
      assert item.fields.entries["name"] == Str(k);
      assert item.fields.entries["value"] == d.entries[k];
      match Float(d.entries[k])
      case Failure(e) =>
      case Success(v) => LeftFormatsAgreeFrom(d, i + 1, Put(acc, k, v));
    }
  }

  /** The list format gives the same left nodes, or the same error, as the object it lists. */
  lemma LeftFormatsAgree(d: ODict<string, Json>)
    requires d.Valid()
    ensures LeftListFrom(Items(d), 0, EmptyDict()) == LeftObjectFrom(d, 0, EmptyDict())
  {
    LeftFormatsAgreeFrom(d, 0, EmptyDict());
  }

  // Writing the two dictionaries as JSON and reading them back.

  /** The same keys in the same order, each value passed through `f`. */
  function MapValues<V, W>(d: ODict<string, V>, f: V -> W): (r: ODict<string, W>)
    requires d.Valid()
    ensures r.Valid() && r.keys == d.keys && r.entries.Keys == d.entries.Keys
    ensures forall k :: k in d.entries ==> r.entries[k] == f(d.entries[k])
  {
    ODict(d.keys, map k | k in d.entries :: f(d.entries[k]))
  }

  function ValueJson(v: real): Json {
    Number(v)
  }

  /** The object written for one flow: its source under `from` and its value. */
  function FlowJson(f: Flow): (j: Json)
    ensures j.Object? && j.fields.Valid()
  {
    Object(Put(Put(EmptyDict(), "from", Str(f.source)), "value", Number(f.value)))
  }

  function FlowsJson(fs: seq<Flow>): (j: Json)
    ensures j.List? && |j.items| == |fs|
  {
    List(seq(|fs|, i requires 0 <= i < |fs| => FlowJson(fs[i])))
  }

  lemma FlowsJsonWellFormed(fs: seq<Flow>)
    ensures WellFormed(FlowsJson(fs))
  {
    forall i | 0 <= i < |fs| ensures WellFormed(FlowsJson(fs).items[i]) {
      assert FlowsJson(fs).items[i] == FlowJson(fs[i]);
    }
  }

  /** The JSON document of a diagram: `left` maps each left node to its value, `right` each right node to its list of
      flow objects. */
  function ToJson(left: LeftNodes, right: RightNodes): (data: ODict<string, Json>)
    requires left.Valid() && right.Valid()
    ensures WellFormed(Object(data))
  {
    var l := MapValues(left, ValueJson);
    var r := MapValues(right, FlowsJson);
    assert WellFormed(Object(l));
    forall k | k in r.entries ensures WellFormed(r.entries[k]) {
      FlowsJsonWellFormed(right.entries[k]);
    }
    assert WellFormed(Object(r));
    Put(Put(EmptyDict(), "left", Object(l)), "right", Object(r))
  }

  /** A flow list the JSON format can carry: not empty, every source non-empty and every value non-zero. */
  predicate WritableFlows(fs: seq<Flow>) {
    fs != [] && forall i :: 0 <= i < |fs| ==> fs[i].source != [] && fs[i].value != 0.0
  }

  ghost predicate JsonWritable(left: LeftNodes, right: RightNodes) {
    left.Valid() && right.Valid() && forall k :: k in right.entries ==> WritableFlows(right.entries[k])
  }

  lemma {:induction false} FlowListJson(fs: seq<Flow>, j: nat)
    requires WritableFlows(fs) && j <= |fs|
    ensures FlowListFrom(FlowsJson(fs).items, j, fs[..j]) == Success(fs)
    decreases |fs| - j
  {
    if j == |fs| {
      assert fs[..j] == fs;
    } else {
      var f := fs[j];
      assert FlowsJson(fs).items[j] == FlowJson(f);
      assert FlowOf(FlowJson(f)) == Success(Some(f));
      assert fs[..j] + [f] == fs[..j + 1];
      FlowListJson(fs, j + 1);
    }
  }

  /** A written flow list reads back as itself. */
  lemma FlowsOfJson(fs: seq<Flow>)
    requires WritableFlows(fs)
    ensures FlowsOf(FlowsJson(fs)) == Success(fs)
  {
    FlowListJson(fs, 0);
    assert fs[..0] == [];
  }

  /** An object whose keys are those of `right`, in order, and whose every value reads back as that node's
      (non-empty) flows, reads back as `right`. */
  lemma {:induction false} RightRoundTrip(m: ODict<string, Json>, right: RightNodes, i: nat)
    requires right.Valid() && m.Valid() && m.keys == right.keys && i <= |right.keys|
    requires forall k :: k in right.entries ==> k in m.entries && right.entries[k] != [] && FlowsOf(m.entries[k]) == Success(right.entries[k])
    ensures RightObjectFrom(m, i, Prefix(right, i)) == Success(right)
    decreases |right.keys| - i
  {
    if i == |right.keys| {
      PrefixAll(right);
    } else {
      KeyIn(right, i);
      var k := right.keys[i];
      assert Prefix(right, i + 1) == Put(Prefix(right, i), k, right.entries[k]);
      RightRoundTrip(m, right, i + 1);
    }
  }

  lemma {:induction false} LeftRoundTrip(left: LeftNodes, i: nat)
    requires left.Valid() && i <= |left.keys|
    ensures LeftObjectFrom(MapValues(left, ValueJson), i, Prefix(left, i)) == Success(left)
    decreases |left.keys| - i
  {
    if i == |left.keys| {
      PrefixAll(left);
    } else {
      KeyIn(left, i);
      var m := MapValues(left, ValueJson);
      var k := left.keys[i];
      assert m.keys[i] == k && m.entries[k] == Number(left.entries[k]);
      assert Float(m.entries[k]) == Success(left.entries[k]);
      assert Prefix(left, i + 1) == Put(Prefix(left, i), k, left.entries[k]);
      assert LeftObjectFrom(m, i, Prefix(left, i)) == LeftObjectFrom(m, i + 1, Prefix(left, i + 1));
      LeftRoundTrip(left, i + 1);
    }
  }

  lemma ToJsonFields(left: LeftNodes, right: RightNodes)
    requires left.Valid() && right.Valid()
    ensures "left" in ToJson(left, right).entries && "right" in ToJson(left, right).entries
    ensures ToJson(left, right).entries["left"] == Object(MapValues(left, ValueJson))
    ensures ToJson(left, right).entries["right"] == Object(MapValues(right, FlowsJson))
  {
  }

  /** Reading back what `ToJson` writes gives the same left and right nodes, in the same order. */
  lemma JsonRoundTrip(left: LeftNodes, right: RightNodes)
    requires JsonWritable(left, right)
    ensures ParseJson(ToJson(left, right)) == Success((left, right))
  {
    var data := ToJson(left, right);
    ToJsonFields(left, right);
    ParseLeftWritten(data, left);
    ParseRightWritten(data, right);
  }

  lemma ParseLeftWritten(data: ODict<string, Json>, left: LeftNodes)
    requires WellFormed(Object(data)) && left.Valid()
    requires "left" in data.entries && data.entries["left"] == Object(MapValues(left, ValueJson))
    ensures ParseLeft(data) == Success(left)
  {
    assert Prefix(left, 0) == EmptyDict();
    LeftRoundTrip(left, 0);
  }

  lemma ParseRightWritten(data: ODict<string, Json>, right: RightNodes)
    requires WellFormed(Object(data)) && right.Valid() && forall k :: k in right.entries ==> WritableFlows(right.entries[k])
    requires "right" in data.entries && data.entries["right"] == Object(MapValues(right, FlowsJson))
    ensures ParseRight(data) == Success(right)
  {
    var m := MapValues(right, FlowsJson);
    forall k | k in right.entries
      ensures k in m.entries && right.entries[k] != [] && FlowsOf(m.entries[k]) == Success(right.entries[k])
    {
      FlowsOfJson(right.entries[k]);
    }
    assert Prefix(right, 0) == EmptyDict();
    RightRoundTrip(m, right, 0);
  }
}
