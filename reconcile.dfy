/** `deployFlowObject`, `updateFlowFn` and `deleteFlowForSensorId`: bringing
    the local Node-RED server in line with a generated flow. The HTTP layer is
    given to the model as inputs: the flow listing the server answers
    `GET /flows` with, and the status code of the update or delete response.
    Each operation returns the requests it sends, in order, and the boolean it
    hands to its success callback. */
module Reconcile {
  import opened JsValues

  datatype Verb = GET | POST | PUT | DELETE

  /** One request to the server; `body` is the JSON document sent, if any. */
  datatype Request = Request(verb: Verb, path: string, body: Option<J>)

  /** `flowInfo`: the tab's label and id, and whether the server already has a
      flow with that label. */
  datatype FlowInfo = FlowInfo(tabLabel: Option<J>, id: Option<J>, existing: bool)

  /** The listing request of `runOnExistingFlows`. */
  const ListRequest: Request := Request(GET, "/flows", None)

  // ---------------------------------------------------------------------
  // Finding the tab of a flow object

  predicate IsTab(node: J)
  {
    HasType(node, "tab")
  }

  /** The index of the first `tab` node. */
  function FirstTab(nodes: seq<J>): (k: Option<nat>)
    ensures k.Some? ==> k.value < |nodes| && IsTab(nodes[k.value])
    ensures k.Some? ==> forall j :: 0 <= j < k.value ==> !IsTab(nodes[j])
    ensures k.None? <==> forall j :: 0 <= j < |nodes| ==> !IsTab(nodes[j])
  {
    if |nodes| == 0 then None
    else if IsTab(nodes[0]) then Some(0)
    else
      match FirstTab(nodes[1..])
      case None => None
      case Some(k) => Some(k + 1)
  }

  /** A tab with no tab before it is the first tab. */
  lemma FirstTabAt(nodes: seq<J>, k: nat)
    requires k < |nodes| && IsTab(nodes[k])
    requires forall j :: 0 <= j < k ==> !IsTab(nodes[j])
    ensures FirstTab(nodes) == Some(k)
  {
  }

  /** `splice(k, 1)`: the nodes without the one at `k`. */
  function Spliced(nodes: seq<J>, k: nat): (r: seq<J>)
    requires k < |nodes|
    ensures |r| == |nodes| - 1
    ensures forall j :: 0 <= j < k ==> r[j] == nodes[j]
    ensures forall j :: k <= j < |r| ==> r[j] == nodes[j + 1]
    ensures multiset(r) + multiset{nodes[k]} == multiset(nodes)
  {
    assert nodes == nodes[..k] + [nodes[k]] + nodes[k + 1..];
    nodes[..k] + nodes[k + 1..]
  }

  /** The `flowInfo` a tab node gives before the listing is consulted. */
  function TabInfo(tab: J): FlowInfo
  {
    FlowInfo(GetProp(tab, "label"), GetProp(tab, "id"), false)
  }

  /** The first loop of `deployFlowObject`: the first `tab` node supplies the
      flow info and is spliced out of the node array, and the loop stops. */
  method ExtractFlowInfo(nodes: seq<J>) returns (info: Option<FlowInfo>, rest: seq<J>)
    ensures info.None? <==> FirstTab(nodes).None?
    ensures info.None? ==> rest == nodes
    ensures info.Some? ==>
              info.value == TabInfo(nodes[FirstTab(nodes).value])
              && rest == Spliced(nodes, FirstTab(nodes).value)
  {
    info := None;
    rest := nodes;
    var i := 0;
    while i < |rest|
      invariant 0 <= i <= |nodes|
      invariant info.None? && rest == nodes
      invariant forall j :: 0 <= j < i ==> !IsTab(nodes[j])
    {
      if HasType(rest[i], "tab") {
        FirstTabAt(nodes, i);
        info := Some(FlowInfo(GetProp(rest[i], "label"), GetProp(rest[i], "id"), false));
        rest := rest[..i] + rest[i + 1..];
        break;
      }
      i := i + 1;
    }
  }

  // ---------------------------------------------------------------------
  // Matching against the listing

  /** `flows[i].type == 'tab' && flows[i].label == label`. */
  predicate Listed(flow: J, wanted: Option<J>)
  {
    IsTab(flow) && LooseEq(GetProp(flow, "label"), wanted)
  }

  /** The index of the first listed tab with that label. */
  function FirstListed(listing: seq<J>, wanted: Option<J>): (k: Option<nat>)
    ensures k.Some? ==> k.value < |listing| && Listed(listing[k.value], wanted)
    ensures k.Some? ==> forall j :: 0 <= j < k.value ==> !Listed(listing[j], wanted)
    ensures k.None? <==> forall j :: 0 <= j < |listing| ==> !Listed(listing[j], wanted)
  {
    if |listing| == 0 then None
    else if Listed(listing[0], wanted) then Some(0)
    else
      match FirstListed(listing[1..], wanted)
      case None => None
      case Some(k) => Some(k + 1)
  }

  /** The loop over the listing with `break` at the first match, shared by
      deploy (matching the tab's label) and delete (matching the sensor id). */
  method FindListed(listing: seq<J>, wanted: Option<J>) returns (k: Option<nat>)
    ensures k == FirstListed(listing, wanted)
  {
    k := None;
    var i := 0;
    while i < |listing|
      invariant 0 <= i <= |listing|
      invariant forall j :: 0 <= j < i ==> !Listed(listing[j], wanted)
    {
      if HasType(listing[i], "tab") && LooseEq(GetProp(listing[i], "label"), wanted) {
        k := Some(i);
        return;
      }
      i := i + 1;
    }
  }

  /** The flow info once the listing is known: a listed tab with the same
      label supplies the id and marks the flow as existing. */
  function Matched(tab: J, listing: seq<J>): (r: FlowInfo)
    ensures r.tabLabel == GetProp(tab, "label")
    ensures r.existing <==> exists j :: 0 <= j < |listing| && Listed(listing[j], GetProp(tab, "label"))
    ensures !r.existing ==> r == TabInfo(tab)
    ensures r.existing ==> r.id == GetProp(listing[FirstListed(listing, GetProp(tab, "label")).value], "id")
  {
    var info := TabInfo(tab);
    match FirstListed(listing, info.tabLabel)
    case None => info
    case Some(k) => FlowInfo(info.tabLabel, GetProp(listing[k], "id"), true)
  }

  /** A listed tab with the tab's label, with none before it, supplies the id. */
  lemma FirstListedAt(listing: seq<J>, wanted: Option<J>, k: nat)
    requires k < |listing| && Listed(listing[k], wanted)
    requires forall j :: 0 <= j < k ==> !Listed(listing[j], wanted)
    ensures FirstListed(listing, wanted) == Some(k)
  {
  }

  // ---------------------------------------------------------------------
  // updateFlowFn

  /** The guard `flowObject.z != ''` of the `z` loop, as written: it reads
      `z` of the node array itself, which has none, and `undefined != ''`. */
  predicate ZGuard(nodes: seq<J>)
  {
    !LooseEq(GetProp(JArr(nodes), "z"), Some(JStr("")))
  }

  /** The guard never skips a node, whatever the nodes are. */
  lemma ZGuardHolds(nodes: seq<J>)
    ensures ZGuard(nodes)
  {
  }

  /** Every node with its `z` set to `id`. */
  function WithZ(nodes: seq<J>, id: Option<J>): (r: seq<J>)
    ensures |r| == |nodes|
    ensures forall i :: 0 <= i < |nodes| && nodes[i].JObj? ==> r[i].JObj? && GetProp(r[i], "z") == id
    ensures forall i, k :: 0 <= i < |nodes| && k != "z" ==> GetProp(r[i], k) == GetProp(nodes[i], k)
    ensures forall i :: 0 <= i < |nodes| && !nodes[i].JObj? ==> r[i] == nodes[i]
  {
    seq(|nodes|, i requires 0 <= i < |nodes| => SetProp(nodes[i], "z", id))
  }

  /** The `z` loop of `updateFlowFn`, one node at a time. */
  method AssignZ(nodes: seq<J>, id: Option<J>) returns (r: seq<J>)
    ensures r == WithZ(nodes, id)
  {
    r := nodes;
    for i := 0 to |nodes|
      invariant |r| == |nodes|
      invariant forall j :: 0 <= j < i ==> r[j] == SetProp(nodes[j], "z", id)
      invariant forall j :: i <= j < |nodes| ==> r[j] == nodes[j]
    {
      if !LooseEq(GetProp(JArr(r), "z"), Some(JStr(""))) {
        r := r[i := SetProp(r[i], "z", id)];
      }
    }
  }

  /** A property of the request body; JSON serialisation leaves out a
      property whose value is undefined. */
  function Member(k: string, v: Option<J>): seq<(string, J)>
  {
    if v.Some? then [(k, v.value)] else []
  }

  /** `{id: flowInfo.id, label: flowInfo.label, nodes: flowObject}`. */
  function Body(info: FlowInfo, nodes: seq<J>): J
  {
    JObj(Member("id", info.id) + Member("label", info.tabLabel) + [("nodes", JArr(nodes))])
  }

  /** The request `updateFlowFn` sends: `PUT /flow/<id>` with every `z`
      rewritten for an existing flow, `POST /flow` with the nodes as they are
      otherwise. */
  function UpdateRequest(info: FlowInfo, nodes: seq<J>): (r: Request)
    ensures r.verb == PUT <==> info.existing
    ensures r.verb == POST <==> !info.existing
    ensures r.body.Some? && r.body.value.JObj?
  {
    if info.existing then Request(PUT, "/flow/" + JsString(info.id), Some(Body(info, WithZ(nodes, info.id))))
    else Request(POST, "/flow", Some(Body(info, nodes)))
  }

  /** The status chain of the update response. */
  function UpdateSucceeded(status: int): (ok: bool)
    ensures ok <==> status == 200 || status == 204
  {
    if status == 400 then false
    else if status == 401 then false
    else if status == 204 || status == 200 then true
    else false
  }

  method UpdateFlowFn(info: FlowInfo, flowObject: seq<J>, status: int) returns (req: Request, ok: bool)
    ensures req == UpdateRequest(info, flowObject)
    ensures ok <==> status == 200 || status == 204
  {
    var entrypoint := "/flow";
    var verb := POST;
    var nodes := flowObject;
    if info.existing {
      nodes := AssignZ(nodes, info.id);
      entrypoint := entrypoint + "/" + JsString(info.id);
      verb := PUT;
    }
    req := Request(verb, entrypoint, Some(Body(info, nodes)));
    ok := UpdateSucceeded(status);
  }

  /** The body's three properties read back. */
  lemma BodyFields(info: FlowInfo, nodes: seq<J>)
    ensures GetProp(Body(info, nodes), "id") == info.id
    ensures GetProp(Body(info, nodes), "label") == info.tabLabel
    ensures GetProp(Body(info, nodes), "nodes") == Some(JArr(nodes))
  {
    var tail := [("nodes", JArr(nodes))];
    assert tail[1..] == [];
    LookupMember("label", info.tabLabel, tail, "id");
    LookupMember("label", info.tabLabel, tail, "label");
    LookupMember("label", info.tabLabel, tail, "nodes");
    var afterId := Member("label", info.tabLabel) + tail;
    assert Member("id", info.id) + Member("label", info.tabLabel) + tail == Member("id", info.id) + afterId;
    LookupMember("id", info.id, afterId, "id");
    LookupMember("id", info.id, afterId, "label");
    LookupMember("id", info.id, afterId, "nodes");
  }

  lemma LookupMember(k: string, v: Option<J>, tail: seq<(string, J)>, key: string)
    ensures Lookup(Member(k, v) + tail, key) == if key == k && v.Some? then v else Lookup(tail, key)
  {
    if v.Some? {
      assert (Member(k, v) + tail)[1..] == tail;
    } else {
      assert Member(k, v) + tail == tail;
    }
  }

  /** A property of the request body, undefined when there is no body. */
  function BodyProp(req: Request, k: string): Option<J>
  {
    if req.body.Some? then GetProp(req.body.value, k) else None
  }

  /** The nodes an update request carries. */
  function SentNodes(req: Request): seq<J>
  {
    var v := BodyProp(req, "nodes");
    if v.Some? && v.value.JArr? then v.value.items else []
  }

  /** An existing flow is replaced under its id, each object node now on that
      flow's tab; a new flow is created with the nodes untouched. Either way
      the body names the flow's id and label. */
  lemma UpdateRequestMeaning(info: FlowInfo, nodes: seq<J>)
    ensures var req := UpdateRequest(info, nodes);
            && (info.existing ==> req.verb == PUT && req.path == "/flow/" + JsString(info.id))
            && (!info.existing ==> req.verb == POST && req.path == "/flow" && SentNodes(req) == nodes)
            && |SentNodes(req)| == |nodes|
            && (info.existing ==>
                  forall i :: 0 <= i < |nodes| && nodes[i].JObj? ==> GetProp(SentNodes(req)[i], "z") == info.id)
            && BodyProp(req, "id") == info.id
            && BodyProp(req, "label") == info.tabLabel
  {
    if info.existing {
      BodyFields(info, WithZ(nodes, info.id));
    } else {
      BodyFields(info, nodes);
    }
  }

  // ---------------------------------------------------------------------
  // deployFlowObject

  /** What `deployFlowObject` sends and reports. A flow object that is not an
      array has no usable `length`, so it is treated like one without a tab. */
  function Deploy(flowObject: J, listing: seq<J>, status: int): (r: (seq<Request>, bool))
    ensures |r.0| == 0 || |r.0| == 2
    ensures |r.0| == 0 <==> !flowObject.JArr? || FirstTab(flowObject.items).None?
    ensures |r.0| == 0 ==> !r.1
    ensures |r.0| == 2 ==> r.0[0] == ListRequest && (r.1 <==> status == 200 || status == 204)
  {
    if !flowObject.JArr? then ([], false)
    else
      match FirstTab(flowObject.items)
      case None => ([], false)
      case Some(k) =>
        var info := Matched(flowObject.items[k], listing);
        ([ListRequest, UpdateRequest(info, Spliced(flowObject.items, k))], UpdateSucceeded(status))
  }

  method DeployFlowObject(flowObject: J, listing: seq<J>, status: int) returns (requests: seq<Request>, ok: bool)
    ensures (requests, ok) == Deploy(flowObject, listing, status)
  {
    if !flowObject.JArr? {
      return [], false;
    }
    var info, rest := ExtractFlowInfo(flowObject.items);
    if info.None? {
      return [], false;
    }
    var flowInfo := info.value;
    var k := FindListed(listing, flowInfo.tabLabel);
    if k.Some? {
      flowInfo := FlowInfo(flowInfo.tabLabel, GetProp(listing[k.value], "id"), true);
    }
    var req;
    req, ok := UpdateFlowFn(flowInfo, rest, status);
    requests := [ListRequest, req];
  }

  /** Without a tab nothing is sent and failure is reported. */
  lemma DeployWithoutTab(flowObject: J, listing: seq<J>, status: int)
    requires flowObject.JArr? && forall j :: 0 <= j < |flowObject.items| ==> !IsTab(flowObject.items[j])
    ensures Deploy(flowObject, listing, status) == ([], false)
  {
  }

  /** With a tab at `k` (the first one): the listing is fetched, then the
      other nodes are sent in their order, under PUT when a listed tab carries
      the same label and under POST otherwise, with the tab's label; the
      result is success exactly for status 200 or 204. */
  lemma DeployWithTab(flowObject: J, listing: seq<J>, status: int, k: nat)
    requires flowObject.JArr? && k < |flowObject.items| && IsTab(flowObject.items[k])
    requires forall j :: 0 <= j < k ==> !IsTab(flowObject.items[j])
    ensures Deploy(flowObject, listing, status).1 <==> status == 200 || status == 204
    ensures |Deploy(flowObject, listing, status).0| == 2
    ensures Deploy(flowObject, listing, status).0[0] == ListRequest
    ensures var req := Deploy(flowObject, listing, status).0[1];
            var wanted := GetProp(flowObject.items[k], "label");
            && |SentNodes(req)| == |flowObject.items| - 1
            && BodyProp(req, "label") == wanted
            && (req.verb == PUT <==> exists j :: 0 <= j < |listing| && Listed(listing[j], wanted))
            && (req.verb == POST <==> !exists j :: 0 <= j < |listing| && Listed(listing[j], wanted))
            && (req.verb == POST ==>
                  req.path == "/flow" && SentNodes(req) == Spliced(flowObject.items, k)
                  && BodyProp(req, "id") == GetProp(flowObject.items[k], "id"))
  {
    FirstTabAt(flowObject.items, k);
    var info := Matched(flowObject.items[k], listing);
    UpdateRequestMeaning(info, Spliced(flowObject.items, k));
  }

  /** An existing flow found by label: the request goes to its id, names it
      in the body, and sends every other node with its `z` set to that id. */
  lemma DeployExisting(flowObject: J, listing: seq<J>, status: int, k: nat, m: nat)
    requires flowObject.JArr? && FirstTab(flowObject.items) == Some(k)
    requires FirstListed(listing, GetProp(flowObject.items[k], "label")) == Some(m)
    ensures |Deploy(flowObject, listing, status).0| == 2
    ensures var req := Deploy(flowObject, listing, status).0[1];
            var id := GetProp(listing[m], "id");
            && req.verb == PUT && req.path == "/flow/" + JsString(id)
            && BodyProp(req, "id") == id
            && |SentNodes(req)| == |flowObject.items| - 1
            && SentNodes(req) == WithZ(Spliced(flowObject.items, k), id)
            && forall i :: 0 <= i < |SentNodes(req)| && Spliced(flowObject.items, k)[i].JObj? ==>
                 GetProp(SentNodes(req)[i], "z") == id
  {
    var info := Matched(flowObject.items[k], listing);
    UpdateRequestMeaning(info, Spliced(flowObject.items, k));
    SentOfUpdate(info, Spliced(flowObject.items, k));
  }

  /** The scenario of a redeployed sensor: a flow made of a tab labelled
      `sensorA` and one other node, deployed against a listing whose only flow
      is a `sensorA` tab with id `17a3.4f2`, is sent as `PUT /flow/17a3.4f2`
      naming that id and label, with the other node, and only it, moved onto
      that tab and otherwise unchanged; status 204 reports success. */
  lemma DeploySensorA(tab: J, node: J, listed: J)
    requires GetProp(tab, "type") == Some(JStr("tab")) && GetProp(tab, "label") == Some(JStr("sensorA"))
    requires node.JObj?
    requires GetProp(listed, "type") == Some(JStr("tab")) && GetProp(listed, "label") == Some(JStr("sensorA"))
    requires GetProp(listed, "id") == Some(JStr("17a3.4f2"))
    ensures Deploy(JArr([tab, node]), [listed], 204).1
    ensures |Deploy(JArr([tab, node]), [listed], 204).0| == 2
    ensures Deploy(JArr([tab, node]), [listed], 204).0[0] == ListRequest
    ensures var req := Deploy(JArr([tab, node]), [listed], 204).0[1];
            && req.verb == PUT && req.path == "/flow/17a3.4f2"
            && BodyProp(req, "id") == Some(JStr("17a3.4f2")) && BodyProp(req, "label") == Some(JStr("sensorA"))
            && |SentNodes(req)| == 1
            && GetProp(SentNodes(req)[0], "z") == Some(JStr("17a3.4f2"))
            && forall k :: k != "z" ==> GetProp(SentNodes(req)[0], k) == GetProp(node, k)
  {
    var items := [tab, node];
    FirstTabAt(items, 0);
    assert Spliced(items, 0) == [node];
    DeployAt(items, [listed], 204, 0);
    SensorAMatched(tab, listed);
    SensorAUpdate(node);
  }

  lemma SensorAMatched(tab: J, listed: J)
    requires GetProp(tab, "label") == Some(JStr("sensorA"))
    requires GetProp(listed, "type") == Some(JStr("tab")) && GetProp(listed, "label") == Some(JStr("sensorA"))
    requires GetProp(listed, "id") == Some(JStr("17a3.4f2"))
    ensures Matched(tab, [listed]) == FlowInfo(Some(JStr("sensorA")), Some(JStr("17a3.4f2")), true)
  {
    FirstListedAt([listed], Some(JStr("sensorA")), 0);
  }

  lemma SensorAUpdate(node: J)
    requires node.JObj?
    ensures var req := UpdateRequest(FlowInfo(Some(JStr("sensorA")), Some(JStr("17a3.4f2")), true), [node]);
            && req.verb == PUT && req.path == "/flow/17a3.4f2"
            && BodyProp(req, "id") == Some(JStr("17a3.4f2")) && BodyProp(req, "label") == Some(JStr("sensorA"))
            && |SentNodes(req)| == 1
            && GetProp(SentNodes(req)[0], "z") == Some(JStr("17a3.4f2"))
            && forall k :: k != "z" ==> GetProp(SentNodes(req)[0], k) == GetProp(node, k)
  {
    var info := FlowInfo(Some(JStr("sensorA")), Some(JStr("17a3.4f2")), true);
    SensorAPath();
    UpdateRequestMeaning(info, [node]);
    SentOfUpdate(info, [node]);
  }

  lemma SentOfUpdate(info: FlowInfo, nodes: seq<J>)
    ensures SentNodes(UpdateRequest(info, nodes)) == if info.existing then WithZ(nodes, info.id) else nodes
  {
    if info.existing {
      BodyFields(info, WithZ(nodes, info.id));
    } else {
      BodyFields(info, nodes);
    }
  }

  lemma DeployAt(items: seq<J>, listing: seq<J>, status: int, k: nat)
    requires FirstTab(items) == Some(k)
    ensures Deploy(JArr(items), listing, status)
         == ([ListRequest, UpdateRequest(Matched(items[k], listing), Spliced(items, k))], status == 200 || status == 204)
  {
  }

  lemma SensorAPath()
    ensures "/flow/" + JsString(Some(JStr("17a3.4f2"))) == "/flow/17a3.4f2"
  {
  }

  // ---------------------------------------------------------------------
  // deleteFlowForSensorId

  /** The status chain of the delete response. */
  function DeleteSucceeded(status: int): (ok: bool)
    ensures ok <==> status == 200 || status == 204
  {
    if status == 400 then false
    else if status == 401 then false
    else if status == 404 then false
    else if status == 204 || status == 200 then true
    else false
  }

  /** The id of the first listed tab labelled with the sensor id, or `null`. */
  function ListedId(sensorId: string, listing: seq<J>): Option<J>
  {
    match FirstListed(listing, Some(JStr(sensorId)))
    case None => Some(JNull)
    case Some(k) => GetProp(listing[k], "id")
  }

  /** What `deleteFlowForSensorId` sends and reports. */
  function Delete(sensorId: string, listing: seq<J>, status: int): (r: (seq<Request>, bool))
    ensures 1 <= |r.0| <= 2 && r.0[0] == ListRequest
    ensures |r.0| == 1 ==> r.1
    ensures |r.0| == 2 ==> r.0[1].verb == DELETE && r.0[1].body.None? && (r.1 <==> status == 200 || status == 204)
  {
    var id := ListedId(sensorId, listing);
    if Truthy(id) then ([ListRequest, Request(DELETE, "/flow/" + JsString(id), None)], DeleteSucceeded(status))
    else ([ListRequest], true)
  }

  method DeleteFlowForSensorId(sensorId: string, listing: seq<J>, status: int) returns (requests: seq<Request>, ok: bool)
    ensures (requests, ok) == Delete(sensorId, listing, status)
  {
    var id: Option<J> := Some(JNull);
    var k := FindListed(listing, Some(JStr(sensorId)));
    if k.Some? {
      id := GetProp(listing[k.value], "id");
    }
    if Truthy(id) {
      requests := [ListRequest, Request(DELETE, "/flow/" + JsString(id), None)];
      ok := DeleteSucceeded(status);
    } else {
      requests := [ListRequest];
      ok := true;
    }
  }

  /** No listed tab for the sensor: only the listing is fetched, and the
      deletion counts as done. */
  lemma DeleteNothingListed(sensorId: string, listing: seq<J>, status: int)
    requires forall j :: 0 <= j < |listing| ==> !Listed(listing[j], Some(JStr(sensorId)))
    ensures Delete(sensorId, listing, status) == ([ListRequest], true)
  {
  }

  /** A listed tab for the sensor with a usable id: that flow is deleted, and
      success is reported exactly for status 200 or 204 (400, 401, 404 and
      every other status are failures). */
  lemma DeleteListed(sensorId: string, listing: seq<J>, status: int, k: nat)
    requires k < |listing| && Listed(listing[k], Some(JStr(sensorId)))
    requires forall j :: 0 <= j < k ==> !Listed(listing[j], Some(JStr(sensorId)))
    requires Truthy(GetProp(listing[k], "id"))
    ensures Delete(sensorId, listing, status).0
         == [ListRequest, Request(DELETE, "/flow/" + JsString(GetProp(listing[k], "id")), None)]
    ensures Delete(sensorId, listing, status).1 <==> status == 200 || status == 204
  {
    FirstListedAt(listing, Some(JStr(sensorId)), k);
  }

  /** A delete never sends more than one DELETE, and only for a listed tab
      labelled with the sensor id. */
  lemma DeleteTargetsListedTab(sensorId: string, listing: seq<J>, status: int)
    ensures var requests := Delete(sensorId, listing, status).0;
            && 1 <= |requests| <= 2 && requests[0] == ListRequest
            && (|requests| == 2 ==>
                  exists k :: 0 <= k < |listing| && Listed(listing[k], Some(JStr(sensorId)))
                    && requests[1].path == "/flow/" + JsString(GetProp(listing[k], "id")))
  {
    var f := FirstListed(listing, Some(JStr(sensorId)));
    if f.Some? {
      var k := f.value;
      assert Listed(listing[k], Some(JStr(sensorId)));
    }
  }
}
