/** `flowObjectFromTemplate`: a new flow for a sensor, made from the flow
    template by renumbering its ids with the next flow number and filling in
    the sensor-specific fields of its nodes. */
module Template {
  import opened JsValues
  import opened JsNumbers
  import opened FlowIds
  import opened Decoder

  /** The branches of the `type` chain, tested in the code's order. */
  datatype Kind = Tab | TtnUplink | TtnApp | FunctionNode | InfluxOut | OtherKind

  function KindOf(node: J): Kind
  {
    if HasType(node, "tab") then Tab
    else if HasType(node, "ttn uplink") then TtnUplink
    else if HasType(node, "ttn app") then TtnApp
    else if HasType(node, "function") then FunctionNode
    else if HasType(node, "influxdb out") then InfluxOut
    else OtherKind
  }

  /** A node outside the five types, and anything that is not an object, is
      of no kind the chain names. */
  lemma KindOfMeaning(node: J)
    ensures KindOf(node) == Tab <==> GetProp(node, "type") == Some(JStr("tab"))
    ensures KindOf(node) == FunctionNode <==> GetProp(node, "type") == Some(JStr("function"))
    ensures KindOf(node) != OtherKind ==> node.JObj?
  {
  }

  /** The fields the generator sets on a node, by the node's kind, with the
      values it sets them to, in the order it assigns them; `func` is the
      decoder text a function node receives. */
  function PatchedFields(node: J, s: Sensor, c: Config, func: string): seq<(string, J)>
  {
    match KindOf(node)
    case Tab => [("label", JStr(s.id))]
    case TtnUplink => [("dev_id", JStr(s.ttn.devId))]
    case TtnApp => [("appId", JStr(s.ttn.appId)), ("accessKey", JStr(s.ttn.accessKey))]
    case FunctionNode => [("func", JStr(func))]
    case InfluxOut => [("measurement", JStr(c.measurement))]
    case OtherKind => []
  }

  /** The assignments `node[k] = v`, one after another. */
  function AssignAll(node: J, fs: seq<(string, J)>): J
    decreases |fs|
  {
    if |fs| == 0 then node else AssignAll(SetProp(node, fs[0].0, Some(fs[0].1)), fs[1..])
  }

  predicate DistinctKeys(fs: seq<(string, J)>)
  {
    forall i, j :: 0 <= i < j < |fs| ==> fs[i].0 != fs[j].0
  }

  /** Assigning properties with distinct names to an object: each named one
      takes its value, the others keep theirs. */
  lemma {:induction false} AssignAllMeaning(node: J, fs: seq<(string, J)>, k: string)
    requires node.JObj? && DistinctKeys(fs)
    ensures GetProp(AssignAll(node, fs), k) == if Lookup(fs, k).Some? then Lookup(fs, k) else GetProp(node, k)
    decreases |fs|
  {
    if |fs| > 0 {
      var next := SetProp(node, fs[0].0, Some(fs[0].1));
      var rest := fs[1..];
      assert DistinctKeys(rest) by {
        forall i, j | 0 <= i < j < |rest| ensures rest[i].0 != rest[j].0 {
          assert rest[i] == fs[i + 1] && rest[j] == fs[j + 1];
        }
      }
      AssignAllMeaning(next, rest, k);
    }
  }

  /** Anything that is not an object is left as it is. */
  lemma {:induction false} AssignAllNonObject(node: J, fs: seq<(string, J)>)
    requires !node.JObj?
    ensures AssignAll(node, fs) == node
    decreases |fs|
  {
    if |fs| > 0 {
      AssignAllNonObject(SetProp(node, fs[0].0, Some(fs[0].1)), fs[1..]);
    }
  }

  /** The node after the assignments of the `type` chain. */
  function PatchNode(node: J, s: Sensor, c: Config, func: string): J
  {
    AssignAll(node, PatchedFields(node, s, c, func))
  }

  /** Each property of a patched node is the value its type's table gives, and
      every property the table does not name is what it was. */
  lemma PatchNodeMeaning(node: J, s: Sensor, c: Config, func: string, k: string)
    ensures GetProp(PatchNode(node, s, c, func), k)
         == if Lookup(PatchedFields(node, s, c, func), k).Some? then Lookup(PatchedFields(node, s, c, func), k)
            else GetProp(node, k)
  {
    var fs := PatchedFields(node, s, c, func);
    if node.JObj? {
      PatchedKeysDistinct(node, s, c, func);
      AssignAllMeaning(node, fs, k);
    } else {
      KindOfMeaning(node);
      assert fs == [];
    }
  }

  lemma PatchedKeysDistinct(node: J, s: Sensor, c: Config, func: string)
    ensures DistinctKeys(PatchedFields(node, s, c, func))
  {
  }

  lemma AssignOne(node: J, k: string, v: J)
    ensures AssignAll(node, [(k, v)]) == SetProp(node, k, Some(v))
  {
    assert [(k, v)][1..] == [];
  }

  lemma AssignTwo(node: J, k1: string, v1: J, k2: string, v2: J)
    ensures AssignAll(node, [(k1, v1), (k2, v2)]) == SetProp(SetProp(node, k1, Some(v1)), k2, Some(v2))
  {
    assert [(k1, v1), (k2, v2)][1..] == [(k2, v2)];
    AssignOne(SetProp(node, k1, Some(v1)), k2, v2);
  }

  /** `type`, `id` and `z` are never patched, so a node keeps its kind and its
      place in the flow. */
  lemma PatchKeepsStructure(node: J, s: Sensor, c: Config, func: string)
    ensures GetProp(PatchNode(node, s, c, func), "type") == GetProp(node, "type")
    ensures GetProp(PatchNode(node, s, c, func), "id") == GetProp(node, "id")
    ensures GetProp(PatchNode(node, s, c, func), "z") == GetProp(node, "z")
  {
    PatchNodeMeaning(node, s, c, func, "type");
    PatchNodeMeaning(node, s, c, func, "id");
    PatchNodeMeaning(node, s, c, func, "z");
    StructuralKeysNotPatched(node, s, c, func);
  }

  lemma StructuralKeysNotPatched(node: J, s: Sensor, c: Config, func: string)
    ensures Lookup(PatchedFields(node, s, c, func), "type") == None
    ensures Lookup(PatchedFields(node, s, c, func), "id") == None
    ensures Lookup(PatchedFields(node, s, c, func), "z") == None
  {
  }

  /** Patching with the sensor as a decoder generation leaves it gives the
      same node: the patched fields do not depend on the tags. */
  lemma PatchNodeSensorStable(node: J, s: Sensor, c: Config, func: string)
    ensures PatchNode(node, SensorAfter(s, c), c, func) == PatchNode(node, s, c, func)
  {
    PatchedFieldsSensorStable(node, s, c, func);
  }

  lemma PatchedFieldsSensorStable(node: J, s: Sensor, c: Config, func: string)
    ensures PatchedFields(node, SensorAfter(s, c), c, func) == PatchedFields(node, s, c, func)
  {
  }

  /** The nodes `for (key in target)` visits: an array's elements and an
      object's property values, in order. */
  function Nodes(t: J): seq<J>
  {
    match t
    case JArr(items) => items
    case JObj(props) => seq(|props|, i requires 0 <= i < |props| => props[i].1)
    case _ => []
  }

  predicate HasFunctionNode(t: J)
  {
    AnyFunctionNode(Nodes(t))
  }

  predicate AnyFunctionNode(nodes: seq<J>)
  {
    exists j :: 0 <= j < |nodes| && KindOf(nodes[j]) == FunctionNode
  }

  /** Every node of an already renumbered document patched, function nodes
      receiving `func`; other documents are left as they are. */
  function PatchAll(t: J, s: Sensor, c: Config, func: string): (r: J)
    ensures t.JArr? ==> r.JArr? && |r.items| == |t.items|
    ensures t.JObj? ==> r.JObj? && |r.props| == |t.props|
    ensures !t.JArr? && !t.JObj? ==> r == t
  {
    match t
    case JArr(items) => JArr(seq(|items|, i requires 0 <= i < |items| => PatchNode(items[i], s, c, func)))
    case JObj(props) =>
      JObj(seq(|props|, i requires 0 <= i < |props| => (props[i].0, PatchNode(props[i].1, s, c, func))))
    case _ => t
  }

  /** The flow made from `template` for flow number `n`: the renumbered
      template with every node patched, function nodes receiving `func`. */
  function InstantiateWith(template: J, s: Sensor, c: Config, func: string, n: int): (r: J)
    ensures template.JArr? ==> r.JArr? && |r.items| == |template.items|
    ensures template.JObj? ==> r.JObj? && |r.props| == |template.props|
  {
    PatchAll(IncIds(template, n), s, c, func)
  }

  /** The flow `flowObjectFromTemplate` returns: function nodes receive the
      decoder generated for the sensor. */
  function Instantiate(template: J, s: Sensor, c: Config, n: int): J
  {
    InstantiateWith(template, s, c, DecoderText(s, c), n)
  }

  /** Node `i` of a flow made from an array template: the renumbered template
      node with its type's fields set. */
  lemma InstantiateNode(template: J, s: Sensor, c: Config, func: string, n: int, i: int, k: string)
    requires template.JArr? && 0 <= i < |template.items|
    ensures InstantiateWith(template, s, c, func, n).JArr?
    ensures |InstantiateWith(template, s, c, func, n).items| == |template.items|
    ensures GetProp(InstantiateWith(template, s, c, func, n).items[i], k)
         == if Lookup(PatchedFields(IncIds(template.items[i], n), s, c, func), k).Some?
            then Lookup(PatchedFields(IncIds(template.items[i], n), s, c, func), k)
            else GetProp(IncIds(template.items[i], n), k)
  {
    PatchNodeMeaning(IncIds(template.items[i], n), s, c, func, k);
  }

  /** The `id` of node `i` is the template's `id` renumbered. */
  lemma InstantiateId(template: J, s: Sensor, c: Config, func: string, n: int, i: int)
    requires template.JArr? && 0 <= i < |template.items|
    ensures GetProp(InstantiateWith(template, s, c, func, n).items[i], "id")
         == if GetProp(template.items[i], "id").Some?
            then Some(IncIds(GetProp(template.items[i], "id").value, n)) else None
  {
    PatchKeepsStructure(IncIds(template.items[i], n), s, c, func);
    GetPropOfInc(template.items[i], "id", n);
  }

  /** Two different flow numbers give a node, or two nodes sharing a template
      id, different ids, whenever that id has the shape of a Node-RED id and a
      suffix that parses; this holds whatever decoder text the two flows carry. */
  lemma IdsDifferAcrossFlows(template: J, s: Sensor, c: Config, f1: string, f2: string, n: int, m: int, i: int, j: int)
    requires template.JArr? && 0 <= i < |template.items| && 0 <= j < |template.items|
    requires n != m
    requires GetProp(template.items[i], "id") == GetProp(template.items[j], "id")
    requires GetProp(template.items[i], "id").Some? && GetProp(template.items[i], "id").value.JStr?
    requires IsFlowId(GetProp(template.items[i], "id").value.s)
    requires ParseIntHex(IdSuffix(GetProp(template.items[i], "id").value.s)).Some?
    ensures GetProp(InstantiateWith(template, s, c, f1, n).items[i], "id")
         != GetProp(InstantiateWith(template, s, c, f2, m).items[j], "id")
  {
    var id := GetProp(template.items[i], "id").value.s;
    InstantiateId(template, s, c, f1, n, i);
    InstantiateId(template, s, c, f2, m, j);
    if IncIdString(id, n) == IncIdString(id, m) {
      IncIdInjective(id, n, m);
    }
  }

  /** Two nodes whose template ids differ before their first `.` keep
      different ids in any two flows, whatever the flow numbers and the
      decoder texts. */
  lemma DistinctPrefixesAcrossFlows(template: J, s: Sensor, c: Config, f1: string, f2: string, n: int, m: int, i: int, j: int)
    requires template.JArr? && 0 <= i < |template.items| && 0 <= j < |template.items|
    requires GetProp(template.items[i], "id").Some? && GetProp(template.items[i], "id").value.JStr?
    requires GetProp(template.items[j], "id").Some? && GetProp(template.items[j], "id").value.JStr?
    requires IsFlowId(GetProp(template.items[i], "id").value.s)
    requires IsFlowId(GetProp(template.items[j], "id").value.s)
    requires IdPrefix(GetProp(template.items[i], "id").value.s) != IdPrefix(GetProp(template.items[j], "id").value.s)
    ensures GetProp(InstantiateWith(template, s, c, f1, n).items[i], "id")
         != GetProp(InstantiateWith(template, s, c, f2, m).items[j], "id")
  {
    var a := GetProp(template.items[i], "id").value.s;
    var b := GetProp(template.items[j], "id").value.s;
    InstantiateId(template, s, c, f1, n, i);
    InstantiateId(template, s, c, f2, m, j);
    DistinctPrefixesStayApart(a, b, n, m);
  }

  /** A node's `z` that names another node's `id` in the template still names
      that node's `id` in the flow. */
  lemma ReferencesResolve(template: J, s: Sensor, c: Config, func: string, n: int, i: int, j: int)
    requires template.JArr? && 0 <= i < |template.items| && 0 <= j < |template.items|
    requires GetProp(template.items[i], "z").Some?
    requires GetProp(template.items[i], "z") == GetProp(template.items[j], "id")
    ensures GetProp(InstantiateWith(template, s, c, func, n).items[i], "z").Some?
    ensures GetProp(InstantiateWith(template, s, c, func, n).items[i], "z")
         == GetProp(InstantiateWith(template, s, c, func, n).items[j], "id")
  {
    ReferencesKept(template.items[i], "z", template.items[j], "id", n);
    PatchKeepsStructure(IncIds(template.items[i], n), s, c, func);
    PatchKeepsStructure(IncIds(template.items[j], n), s, c, func);
  }

  /** The patched node, branch by branch of the `type` chain. */
  lemma PatchByKind(node: J, s: Sensor, c: Config, func: string)
    ensures HasType(node, "tab") ==> PatchNode(node, s, c, func) == SetProp(node, "label", Some(JStr(s.id)))
    ensures HasType(node, "ttn uplink") ==> PatchNode(node, s, c, func) == SetProp(node, "dev_id", Some(JStr(s.ttn.devId)))
    ensures HasType(node, "ttn app") ==>
              PatchNode(node, s, c, func)
              == SetProp(SetProp(node, "appId", Some(JStr(s.ttn.appId))), "accessKey", Some(JStr(s.ttn.accessKey)))
    ensures HasType(node, "function") ==> PatchNode(node, s, c, func) == SetProp(node, "func", Some(JStr(func)))
    ensures HasType(node, "influxdb out") ==>
              PatchNode(node, s, c, func) == SetProp(node, "measurement", Some(JStr(c.measurement)))
    ensures KindOf(node) == OtherKind ==> PatchNode(node, s, c, func) == node
  {
    match KindOf(node)
    case Tab =>
      assert PatchedFields(node, s, c, func) == [("label", JStr(s.id))];
      AssignOne(node, "label", JStr(s.id));
    case TtnUplink =>
      assert PatchedFields(node, s, c, func) == [("dev_id", JStr(s.ttn.devId))];
      AssignOne(node, "dev_id", JStr(s.ttn.devId));
    case TtnApp =>
      assert PatchedFields(node, s, c, func) == [("appId", JStr(s.ttn.appId)), ("accessKey", JStr(s.ttn.accessKey))];
      AssignTwo(node, "appId", JStr(s.ttn.appId), "accessKey", JStr(s.ttn.accessKey));
    case FunctionNode =>
      assert PatchedFields(node, s, c, func) == [("func", JStr(func))];
      AssignOne(node, "func", JStr(func));
    case InfluxOut =>
      assert PatchedFields(node, s, c, func) == [("measurement", JStr(c.measurement))];
      AssignOne(node, "measurement", JStr(c.measurement));
    case OtherKind =>
      assert PatchedFields(node, s, c, func) == [];
  }

  /** One node of the `for (key in target)` loop: the `type` chain with its
      assignments; a function node gets a freshly generated decoder, which may
      update the sensor's tags. */
  method PatchInPlace(node: J, sensor: Sensor, config: Config, preamble: string) returns (r: J, sensorAfter: Sensor)
    ensures r == PatchNode(node, sensor, config, TextAfter(preamble, sensor, config))
    ensures sensorAfter == if KindOf(node) == FunctionNode then SensorAfter(sensor, config) else sensor
  {
    PatchByKind(node, sensor, config, TextAfter(preamble, sensor, config));
    r := node;
    sensorAfter := sensor;
    if HasType(node, "tab") {
      r := SetProp(r, "label", Some(JStr(sensor.id)));
    } else if HasType(node, "ttn uplink") {
      r := SetProp(r, "dev_id", Some(JStr(sensor.ttn.devId)));
    } else if HasType(node, "ttn app") {
      r := SetProp(r, "appId", Some(JStr(sensor.ttn.appId)));
      r := SetProp(r, "accessKey", Some(JStr(sensor.ttn.accessKey)));
    } else if HasType(node, "function") {
      var text;
      text, sensorAfter := AppendDecoderBody(preamble, sensor, config);
      r := SetProp(r, "func", Some(JStr(text)));
    } else if HasType(node, "influxdb out") {
      r := SetProp(r, "measurement", Some(JStr(config.measurement)));
    }
  }

  /** A node patched with the sensor as an earlier decoder generation left
      it is the node patched with the original sensor. */
  lemma PatchWithCurrentSensor(node: J, sensor: Sensor, cur: Sensor, config: Config, preamble: string)
    requires cur == sensor || cur == SensorAfter(sensor, config)
    ensures PatchNode(node, cur, config, TextAfter(preamble, cur, config))
         == PatchNode(node, sensor, config, TextAfter(preamble, sensor, config))
  {
    if cur != sensor {
      TextAfterStable(preamble, sensor, config);
      PatchNodeSensorStable(node, sensor, config, TextAfter(preamble, sensor, config));
    }
  }

  lemma AnyFunctionNodeStep(nodes: seq<J>, i: int)
    requires 0 <= i < |nodes|
    ensures AnyFunctionNode(nodes[..i + 1]) == (AnyFunctionNode(nodes[..i]) || KindOf(nodes[i]) == FunctionNode)
  {
    assert nodes[..i + 1][i] == nodes[i];
    if AnyFunctionNode(nodes[..i]) {
      var j :| 0 <= j < i && KindOf(nodes[..i][j]) == FunctionNode;
      assert nodes[..i + 1][j] == nodes[..i][j];
    }
    if AnyFunctionNode(nodes[..i + 1]) && KindOf(nodes[i]) != FunctionNode {
      var j :| 0 <= j < i + 1 && KindOf(nodes[..i + 1][j]) == FunctionNode;
      assert nodes[..i][j] == nodes[..i + 1][j];
    }
  }

  /** One node of the loop, seen from the original sensor: patching with the
      sensor an earlier node left is patching with the original, and the
      sensor is updated once some function node has been met. */
  lemma SensorThreadingStep(nodes: seq<J>, i: int, x: J, next: Sensor, cur: Sensor, s: Sensor, c: Config, preamble: string)
    requires 0 <= i < |nodes|
    requires cur == if AnyFunctionNode(nodes[..i]) then SensorAfter(s, c) else s
    requires x == PatchNode(nodes[i], cur, c, TextAfter(preamble, cur, c))
    requires next == if KindOf(nodes[i]) == FunctionNode then SensorAfter(cur, c) else cur
    ensures x == PatchNode(nodes[i], s, c, TextAfter(preamble, s, c))
    ensures next == if AnyFunctionNode(nodes[..i + 1]) then SensorAfter(s, c) else s
  {
    DeriveTagsStable(s, c);
    PatchWithCurrentSensor(nodes[i], s, cur, c, preamble);
    AnyFunctionNodeStep(nodes, i);
  }

  /** After `i` nodes of the loop: those nodes are patched as with the
      original sensor, and the sensor is updated once a function node has
      been met. */
  ghost predicate PatchedUpTo(nodes: seq<J>, i: int, patched: seq<J>, cur: Sensor, s: Sensor, c: Config, preamble: string)
    requires 0 <= i <= |nodes|
  {
    && |patched| == |nodes|
    && (forall j :: 0 <= j < i ==> patched[j] == PatchNode(nodes[j], s, c, TextAfter(preamble, s, c)))
    && cur == if AnyFunctionNode(nodes[..i]) then SensorAfter(s, c) else s
  }

  lemma PatchedUpToStep(nodes: seq<J>, i: int, patched: seq<J>, cur: Sensor, x: J, next: Sensor, s: Sensor, c: Config, preamble: string)
    requires 0 <= i < |nodes|
    requires PatchedUpTo(nodes, i, patched, cur, s, c, preamble)
    requires x == PatchNode(nodes[i], cur, c, TextAfter(preamble, cur, c))
    requires next == if KindOf(nodes[i]) == FunctionNode then SensorAfter(cur, c) else cur
    ensures PatchedUpTo(nodes, i + 1, patched[i := x], next, s, c, preamble)
  {
    SensorThreadingStep(nodes, i, x, next, cur, s, c, preamble);
  }

  /** The `for (key in target)` loop over the nodes in order, the sensor
      carried from one decoder generation to the next. */
  method PatchNodes(nodes: seq<J>, sensor: Sensor, config: Config, preamble: string) returns (patched: seq<J>, sensorAfter: Sensor)
    ensures |patched| == |nodes|
    ensures forall j :: 0 <= j < |nodes| ==> patched[j] == PatchNode(nodes[j], sensor, config, TextAfter(preamble, sensor, config))
    ensures sensorAfter == if AnyFunctionNode(nodes) then SensorAfter(sensor, config) else sensor
  {
    patched := nodes;
    sensorAfter := sensor;
    for i := 0 to |nodes|
      invariant PatchedUpTo(nodes, i, patched, sensorAfter, sensor, config, preamble)
    {
      var x, next := PatchInPlace(nodes[i], sensorAfter, config, preamble);
      PatchedUpToStep(nodes, i, patched, sensorAfter, x, next, sensor, config, preamble);
      patched := patched[i := x];
      sensorAfter := next;
    }
    assert nodes[..|nodes|] == nodes;
  }

  /** The `for (key in target)` loop on the renumbered document: an array's
      elements or an object's property values, each patched in place. */
  method PatchTarget(target: J, sensor: Sensor, config: Config, preamble: string) returns (flow: J, sensorAfter: Sensor)
    ensures flow == PatchAll(target, sensor, config, TextAfter(preamble, sensor, config))
    ensures sensorAfter == if HasFunctionNode(target) then SensorAfter(sensor, config) else sensor
  {
    match target {
      case JArr(items) =>
        var patched;
        patched, sensorAfter := PatchNodes(items, sensor, config, preamble);
        flow := JArr(patched);
        assert Nodes(target) == items;
        assert patched == PatchAll(target, sensor, config, TextAfter(preamble, sensor, config)).items;
      case JObj(props) =>
        var values := seq(|props|, i requires 0 <= i < |props| => props[i].1);
        var patched;
        patched, sensorAfter := PatchNodes(values, sensor, config, preamble);
        flow := JObj(seq(|props|, i requires 0 <= i < |props| => (props[i].0, patched[i])));
        assert Nodes(target) == values;
        assert flow.props == PatchAll(target, sensor, config, TextAfter(preamble, sensor, config)).props;
      case _ =>
        flow := target;
        sensorAfter := sensor;
    }
  }

  /** The generator's persistent state: the template document and the flow
      counter that the counter file holds between calls. */
  class FlowGenerator {
    const template: J
    var counter: int

    constructor(template: J, counter: int)
      ensures this.template == template && this.counter == counter
    {
      this.template := template;
      this.counter := counter;
    }

    /** The flow number is the stored counter plus one; it renumbers the ids
        and is stored as the new counter once every node is patched. */
    method FlowObjectFromTemplate(sensor: Sensor, config: Config) returns (flow: J, sensorAfter: Sensor)
      modifies this
      ensures counter == old(counter) + 1
      ensures flow == Instantiate(template, sensor, config, counter)
      ensures sensorAfter
           == if HasFunctionNode(IncIds(template, counter)) then SensorAfter(sensor, config) else sensor
    {
      var flownumber := counter + 1;
      var target := IncIdFn(template, flownumber);
      flow, sensorAfter := PatchTarget(target, sensor, config, Preamble);
      counter := flownumber;
    }
  }
}
