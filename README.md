# Node-RED flow generation for sensor ingestion, in Dafny

This project models the part of the sensor platform that talks to a local
Node-RED server:

- generating a data-ingestion flow for a sensor from a flow template;
- deploying that flow, or replacing an existing one with the same label;
- deleting the flow that belongs to a sensor;
- the half-precision float decoder that every generated decoding function
  carries.

It has seven modules:

- `JsValues` (`js_values.dfy`): JSON documents as the code sees them. Objects
  keep their properties in insertion order. Also property reads and writes,
  `==` on primitive values, truthiness, and `String(v)`.
- `JsNumbers` (`js_numbers.dfy`): `parseInt(s, 16)` and `n.toString(16)` on
  integers. The model includes white space, sign, `0x` and NaN.
- `HalfFloat` (`half_float.dfy`): `toArrayBuffer` as a loop over a fresh
  `array<bv8>`. `toHalf` as the sequence of mask, shift, add, select and or
  steps on 32-bit words, proved equal to an IEEE-754 field-level reference
  (`HalfToSingle`).
- `FlowIds` (`flow_ids.dfy`): `incidfn`. `IncIds` is the function and
  `IncIdFn` is the in-place walk as a recursive method with loops.
- `Decoder` (`decoder.dfy`): `buildconversionfn`. The generated decoder is a
  list of statements (`Stmt`) with a rendering to text; the method builds the
  text in a loop.
- `Template` (`template.dfy`): `flowObjectFromTemplate`. The class
  `FlowGenerator` stores the flow counter in a field. The method renumbers the
  ids, then patches every node by its `type`.
- `Reconcile` (`reconcile.dfy`): `deployFlowObject`, `updateFlowFn` and
  `deleteFlowForSensorId`. The HTTP layer is an input: the flow listing the
  server returns and the status code of the response. Each operation returns
  the requests it sends and the value it passes to its success callback.

Three places where the code does not do what it is evidently meant to do are
listed under Findings:

- ASCII string fields (types `string` and `string_ascii`) are meant to be
  decoded, but the `in` test never decodes them.
- A time taken from the device is meant to set `fields["time"]`, but that
  statement is never added to the decoder.
- Renumbering is meant to make ids unique across flows, but two ids that share
  the part up to their first `.` can meet.

The generated decoder (`DecoderText`, `BuildConversionFn`, and the flow built
from it) follows the code as written. `DecoderTextIntended` is the corrected
text, and `DecoderTextsAgree` proves the two equal whenever no field has an
affected type and time comes from the network.

## Model

| member | source | states |
|---|---|---|
| HalfFloat.ToArrayBuffer | schemas/toHalf.js:1-8 | returns a fresh buffer of the same length as `buf`; byte i is `buf[i]` |
| HalfFloat.ToHalf | schemas/toHalf.js:10-29 | an odd-length slice is rejected (the Int16Array view throws); otherwise the result is the reference single-precision pattern of the slice's first 16-bit element, so nothing after the first two bytes matters |
| HalfFloat.SupportArraySteps | schemas/toHalf.js:12-23 | updating the three scratch cells one statement at a time yields `Steps(element)` |
| HalfFloat.StepsMatchReference | schemas/toHalf.js:13-23 | the steps on the sign-extended element give the IEEE field reference: the sign moves to bit 31, the exponent is re-biased by 112, the mantissa moves up 13 bits |
| HalfFloat.StepsIgnoreExtension | schemas/toHalf.js:13-15 | the masks are at most 16 bits wide, so the int32 sign extension of the element does not change the result |
| HalfFloat.HalfSignBit | schemas/toHalf.js:14-23 | bit 31 of the result is bit 15 of the half |
| HalfFloat.HalfDenormalsAsZero | schemas/toHalf.js:15-23 | a zero exponent gives exactly 0x00000000 or 0x80000000, whatever the mantissa |
| HalfFloat.HalfNormal | schemas/toHalf.js:13-23 | a non-zero exponent gives `(((h & 0x7fff) << 13) + 0x38000000) \| sign`, and the sum is at most 0x47FFE000, so the int32 cell never overflows |
| HalfFloat.SignDoesNotOverlap | schemas/toHalf.js:23 | for such a sum, or-ing in the sign leaves the low 31 bits equal to the sum and puts the sign in bit 31 |
| HalfFloat.HalfToSingleExamples | schemas/toHalf.js:13-23 | 0x3C00 gives 0x3F800000 (1.0); 0x7C00 gives 0x47800000 (no infinity case); signed zeros and subnormals give signed zeros |
| JsValues.Lookup | node-red-comm.js:163 | a property read finds a value exactly when some property has that name, and the value belongs to it |
| JsValues.Put | node-red-comm.js:129-131 | after `o[k] = v`, `k` reads `v`, every other name reads as before, an existing key keeps its position and a new key goes last |
| JsValues.PutExisting | node-red-comm.js:129-131 | assigning a property the value it already has changes nothing |
| JsValues.Remove | node-red-comm.js:198 | after the removal `k` is absent and every other name reads as before |
| JsValues.SetProp | node-red-comm.js:164-173 | on an object the assigned name reads the new value and every other name is unchanged; a non-object is returned as it is |
| JsValues.HasTypeIsLooseEq | node-red-comm.js:163 | `node.type == "t"` holds exactly when the node's `type` is the string `t` |
| JsValues.NatDigits | node-red-comm.js:97-121 | decimal digits only, at least one |
| JsValues.DecValueOfNatDigits | node-red-comm.js:97-121 | the decimal digits written for a natural number read back as that number |
| JsValues.DecStringValue | node-red-comm.js:97-121 | a number written into the decoder text reads back as itself: its digits for a non-negative number, `-` followed by the digits of its magnitude for a negative one |
| JsNumbers.ToHex | node-red-comm.js:30 | `toString(16)` writes lowercase hex digits with no leading zero unless the number is 0 |
| JsNumbers.NumberToHex | node-red-comm.js:30 | `i.toString(16)` is never empty, starts with `-` exactly when `i` is negative, and is lowercase hex digits after that |
| JsNumbers.ParseIntHex | node-red-comm.js:28 | `parseInt(s, 16)` of a string that is empty after its leading white space is NaN; a negative result comes only after a leading `-` |
| JsNumbers.ParseMagnitude | node-red-comm.js:28 | after the sign, and after an optional `0x` or `0X`, the number is NaN exactly when no hex digit follows; otherwise it is non-negative |
| JsNumbers.HexValueOfToHex | node-red-comm.js:28-30 | reading the hex digits of `n` back gives `n` |
| JsNumbers.TrimStartMeaning | node-red-comm.js:28 | `parseInt` skips exactly the leading white space and line terminators |
| JsNumbers.HexPrefixLen | node-red-comm.js:28 | `parseInt` reads the longest leading run of hex digits |
| JsNumbers.ParseMagnitudeOfDigits | node-red-comm.js:28 | a run of hex digits is read in full, as its value |
| JsNumbers.ParseIntHexOfDigits | node-red-comm.js:28 | `parseInt(s, 16)` of a string of hex digits is its value |
| JsNumbers.ParseIntHexSigned | node-red-comm.js:28 | a magnitude starting with a hex digit parses as itself, and as its negation after `-` |
| JsNumbers.NumberToHexRoundTrip | node-red-comm.js:28-30 | `parseInt(i.toString(16), 16) == i` for every integer, negative ones included |
| JsNumbers.NumberToHexInjective | node-red-comm.js:28-30 | different integers have different hex strings |
| FlowIds.IndexOf | node-red-comm.js:26 | the first index of the character, or -1 exactly when it does not occur |
| FlowIds.ShiftedDigits | node-red-comm.js:28-30 | the digits are "NaN" exactly when the suffix had no number |
| FlowIds.ShiftedDigitsParse | node-red-comm.js:28-30 | read back with `parseInt`, the new digits are the old number plus the flow number |
| FlowIds.IncIdString | node-red-comm.js:25-30 | the new id keeps the prefix up to and including the first `.`; a suffix that does not parse becomes "NaN" |
| FlowIds.IncIdStringParse | node-red-comm.js:28-30 | after the prefix, the new id reads back as the old suffix's number plus `n` |
| FlowIds.IncIdOfParsedSuffix | node-red-comm.js:25-31 | a qualifying id whose suffix parses to `v` becomes the prefix followed by `(v + n).toString(16)` |
| FlowIds.OtherStringsKept | node-red-comm.js:25-26 | a string that is not 14 or 15 characters long with its first `.` at index 7 or 8 is unchanged (characters are Unicode scalar values, see Left out) |
| FlowIds.IncIdInjective | node-red-comm.js:28-30 | for a suffix that parses, two flow numbers give the same id only if they are equal |
| FlowIds.FirstIndexIs | node-red-comm.js:26 | `indexOf` finds a character at k when it occurs there and nowhere before |
| FlowIds.IncIdKeepsDot | node-red-comm.js:25-30 | the renumbered id has its first `.` where the original id has it |
| FlowIds.DistinctPrefixesStayApart | node-red-comm.js:16-30 | two qualifying ids that differ up to their first `.` stay different, whatever the two flow numbers |
| FlowIds.SharedPrefixCollision | node-red-comm.js:16-30 | "1234567.000001" renumbered for flow 2 and "1234567.000002" renumbered for flow 1 are both "1234567.3" |
| FlowIds.IncIds | node-red-comm.js:23-48 | the rewrite keeps each value's kind, array lengths and object keys in order; numbers, booleans and null are unchanged |
| FlowIds.IncIdFn | node-red-comm.js:23-48 | overwriting each property or element in place, in order, gives `IncIds` |
| FlowIds.IncIdsSameShape | node-red-comm.js:33-45 | the rewritten document has the same shape at every depth: kinds, keys, lengths, and every non-string leaf |
| FlowIds.LookupOfInc | node-red-comm.js:34-37 | a property of a rewritten object is the rewrite of the original property |
| FlowIds.GetPropOfInc | node-red-comm.js:34-37 | the same for `v.k` on any value |
| FlowIds.ReferencesKept | node-red-comm.js:23-48 | a `z` equal to another node's `id` is still equal to it after the rewrite |
| Decoder.FieldStmt | node-red-comm.js:93-123 | as evidently intended, a field yields a statement exactly when its type is int, uint, float, string, string_ascii or string_unicode |
| Decoder.FieldStmtAsWritten | node-red-comm.js:95-122 | as written, a field yields a statement exactly when its type is int, uint, float or string_unicode, or is a key of the array literal `['string', 'string_ascii']` |
| Decoder.FieldStmtBy | node-red-comm.js:95-122 | under either test, a field yields a statement exactly when its type reaches one of the branches |
| Decoder.FieldStmtMeaning | node-red-comm.js:95-121 | under either test, the statement writes the field's name and reads `length_bytes` bytes at `offset_bytes`; a 1-byte int or uint uses `readInt8` or `readUInt8`, any other length a little-endian read of `8 * length_bytes` bits, signed for int and unsigned for uint; a 2-byte float goes through `toHalf`, a 4-byte float is `readFloatLE`, any other float is `readDoubleLE` of 8 bytes; the ASCII branch decodes ASCII and string_unicode decodes UTF-8 |
| Decoder.FieldStmts | node-red-comm.js:93-123 | the field loop emits at most one statement per field, as written and as intended |
| Decoder.EmittingFields | node-red-comm.js:93-123 | a field is among the emitting fields exactly when it is a field whose type yields a statement under that test; there are at most as many as fields |
| Decoder.EmittingFieldsLast | node-red-comm.js:93-123 | a last field whose type yields a statement comes last among the emitting fields, after those of the fields before it |
| Decoder.EmittingFieldsAll | node-red-comm.js:93-123 | when every field's type yields a statement, the emitting fields are the fields themselves, in order |
| Decoder.EmittingFieldsAppend | node-red-comm.js:93-123 | the emitting fields of two field lists joined are those of the first list followed by those of the second, so the filter keeps field order and multiplicity |
| Decoder.OneStmtPerField | node-red-comm.js:93-123 | as written and as intended, one statement for each emitting field, in field order, and no others |
| Decoder.FieldStmtsAppend | node-red-comm.js:93-123 | under either test, the statements of two field lists joined are the two statement lists joined |
| Decoder.FieldStmtsAgree | node-red-comm.js:93-123 | when no field has type string or string_ascii or a key of the array literal as its type, the written and the intended loops emit the same statements |
| Decoder.Render | node-red-comm.js:97-121 | every statement is an assignment `fields["<name>"] = …;` to the field it writes, ended by a line break |
| Decoder.RenderAll | node-red-comm.js:93-133 | a list of statements renders as nothing exactly when it is empty |
| Decoder.RenderAllAppend | node-red-comm.js:93-123 | rendering joined statement lists is joining their renderings |
| Decoder.StringKindsAreNotKeys | node-red-comm.js:116 | "string" and "string_ascii" are not keys of the array literal, and "0" is |
| Decoder.AsciiTestFindsKeys | node-red-comm.js:116-118 | as written, a string_ascii or string field yields nothing and a field of type "0" is decoded as ASCII; the corrected test does the opposite |
| Decoder.AsciiTestAgreesElsewhere | node-red-comm.js:95-122 | for every other type, the written and corrected tests give the same statement |
| Decoder.TimeStmts | node-red-comm.js:130-143 | as evidently intended, exactly one time statement: network time, or the device field scaled to nanoseconds |
| Decoder.TimeStmtsAsWritten | node-red-comm.js:130-143 | as written, one statement for network time and none at all for device time |
| Decoder.DeviceTimeDropped | node-red-comm.js:133-143 | with device time, no statement as written sets `time`; the corrected one does |
| Decoder.TimeScaling | node-red-comm.js:132-142 | epoch_ns, epoch_ms and epoch_s scale by 1, 10^6 and 10^9; network time is scaled by 10^6; `t = 5` in epoch_ms gives 5000000 |
| Decoder.DeriveTags | node-red-comm.js:124-134 | tags are the sensor's tags, or `{}`, with `ID` set to the sensor id and `measuretime` set to "network" exactly when time comes from the network, else "device"; every other tag is kept |
| Decoder.SensorAfter | node-red-comm.js:124-129 | the sensor keeps its id and TTN settings, and has tags afterwards exactly when it had them before |
| Decoder.DeriveTagsStable | node-red-comm.js:124-134 | generating again from the updated sensor gives the same tags and leaves the sensor as it is |
| Decoder.TagsJson | node-red-comm.js:145 | `JSON.stringify(tags)` is an object literal in braces, `{}` for no tags |
| Decoder.TextAfterStable | node-red-comm.js:58-147 | the generated text is the same for the sensor before and after a generation |
| Decoder.TextsAgree | node-red-comm.js:91-147 | after any preamble, the text as written and the intended text are equal when no field has an affected type and time comes from the network |
| Decoder.DecoderTextsAgree | node-red-comm.js:58-147 | the same for the whole generated decoder |
| Decoder.AppendDecoderBody | node-red-comm.js:91-146 | the statements after the preamble build exactly the declarations, one statement per field the written `in` test accepts, the network time statement and nothing for device time, the payload with the serialised tags, and `return msg;` |
| Decoder.BuildConversionFn | node-red-comm.js:58-148 | the text is the preamble (`toArrayBuffer` and `toHalf`) followed by that body, as the code is written; the sensor is updated as `SensorAfter` says |
| Template.KindOfMeaning | node-red-comm.js:163-174 | a node is a tab or a function node exactly when its `type` says so; a node of any named kind is an object |
| Template.AssignAllMeaning | node-red-comm.js:163-174 | after assigning properties with distinct names, each takes its value and every other property keeps its own |
| Template.AssignAllNonObject | node-red-comm.js:163-174 | assignments to a non-object leave it unchanged |
| Template.PatchNodeMeaning | node-red-comm.js:161-176 | each property of a patched node is the value its type's table gives, and every other property is unchanged |
| Template.PatchByKind | node-red-comm.js:163-174 | tab sets `label`; ttn uplink sets `dev_id`; ttn app sets `appId` then `accessKey`; function sets `func`; influxdb out sets `measurement`; any other node is unchanged |
| Template.PatchKeepsStructure | node-red-comm.js:163-174 | `type`, `id` and `z` of a node are never changed by patching |
| Template.StructuralKeysNotPatched | node-red-comm.js:163-174 | no type's table names `type`, `id` or `z` |
| Template.PatchNodeSensorStable | node-red-comm.js:170-171 | patching with the sensor as a decoder generation left it gives the same node |
| Template.PatchInPlace | node-red-comm.js:162-175 | one step of the loop patches the node by its type; only a function node triggers a decoder generation and its update of the sensor |
| Template.PatchNodes | node-red-comm.js:161-176 | every node is patched as with the original sensor, although the sensor is threaded through each generation; the sensor is updated once a function node is met |
| Template.PatchAll | node-red-comm.js:161-176 | patching keeps an array's length and an object's property count, and leaves other values as they are |
| Template.PatchTarget | node-red-comm.js:161-176 | the loop over the renumbered document gives `PatchAll` with the generated decoder text |
| Template.InstantiateWith | node-red-comm.js:158-176 | the flow from an array or object template has as many nodes as the template |
| Template.InstantiateNode | node-red-comm.js:158-176 | each property of node i is either its type's patched value or that property of the renumbered template node |
| Template.InstantiateId | node-red-comm.js:158 | node i's `id` is the template node's `id` renumbered |
| Template.IdsDifferAcrossFlows | node-red-comm.js:157-158 | a qualifying template id whose suffix parses gets different ids in two flows with different flow numbers, whether it belongs to one node or to two nodes that share it; any decoder text |
| Template.DistinctPrefixesAcrossFlows | node-red-comm.js:157-158 | two nodes whose qualifying template ids differ up to their first `.` have different ids in any two flows, whatever the flow numbers and decoder texts |
| Template.ReferencesResolve | node-red-comm.js:158-176 | a `z` that names another node's `id` in the template still names that node's `id` in the flow |
| Template.FlowGenerator.constructor | node-red-comm.js:156-157 | the generator holds the template and the stored counter |
| Template.FlowGenerator.FlowObjectFromTemplate | node-red-comm.js:155-182 | the counter becomes the old counter plus 1; the flow is the template renumbered by that value with every node patched; the sensor is updated exactly when the flow has a function node |
| Reconcile.FirstTab | node-red-comm.js:294-300 | the first tab node, or None exactly when there is none |
| Reconcile.FirstTabAt | node-red-comm.js:294-300 | a tab with no tab before it is the first tab |
| Reconcile.Spliced | node-red-comm.js:297 | `splice(k, 1)` removes exactly node k and keeps the others in order, as a multiset too |
| Reconcile.ExtractFlowInfo | node-red-comm.js:293-305 | no tab: no flow info and nothing is removed; otherwise the first tab's label and id are taken and only that tab is spliced out |
| Reconcile.FirstListed | node-red-comm.js:308-316 | the first listed tab with the wanted label, or None exactly when there is none |
| Reconcile.FirstListedAt | node-red-comm.js:308-316 | a matching listed tab with none before it is the first match |
| Reconcile.FindListed | node-red-comm.js:308-316 | the loop with `break` finds the first matching listed tab |
| Reconcile.Matched | node-red-comm.js:307-316 | the label is the tab's; `existing` is true exactly when some listed tab has the same label, and then the id is that first match's id; otherwise the flow info is the tab's own |
| Reconcile.ZGuardHolds | node-red-comm.js:197 | the guard tests the array's own `z`, which is undefined, so it never skips a node |
| Reconcile.WithZ | node-red-comm.js:196-200 | every object node's `z` becomes the id and its other properties are unchanged; non-objects are unchanged |
| Reconcile.AssignZ | node-red-comm.js:196-200 | the `z` loop gives `WithZ` |
| Reconcile.UpdateSucceeded | node-red-comm.js:218-235 | success exactly for status 200 or 204 |
| Reconcile.UpdateFlowFn | node-red-comm.js:190-240 | the request is `UpdateRequest`; the result is true exactly for status 200 or 204 |
| Reconcile.BodyFields | node-red-comm.js:193-204 | the body reads back the flow info's id and label, and the nodes |
| Reconcile.LookupMember | node-red-comm.js:193 | a member whose value is undefined adds nothing to the body; a defined one is what a read of its name finds |
| Reconcile.SentOfUpdate | node-red-comm.js:194-204 | the nodes sent are the nodes with `z` rewritten for an existing flow, and the nodes as they are otherwise |
| Reconcile.UpdateRequest | node-red-comm.js:190-204 | the request is a PUT exactly for an existing flow and a POST exactly for a new one, and always carries an object body |
| Reconcile.UpdateRequestMeaning | node-red-comm.js:190-204 | existing flow: `PUT /flow/<id>` with every object node's `z` set to the id; new flow: `POST /flow` with the nodes untouched; either way the body names the id and label and carries every node |
| Reconcile.DeployFlowObject | node-red-comm.js:291-319 | what is sent and reported is `Deploy`: nothing and false without a tab; otherwise the listing request, then the update request |
| Reconcile.Deploy | node-red-comm.js:291-319 | nothing is sent, and false reported, exactly when the flow object has no tab; otherwise two requests, the listing first, and success exactly for status 200 or 204 |
| Reconcile.DeployAt | node-red-comm.js:291-319 | with a first tab at k, deploy sends the listing request, then the update for the matched flow info and the other nodes |
| Reconcile.DeployWithoutTab | node-red-comm.js:301-305 | a flow object with no tab sends nothing and reports false |
| Reconcile.DeployWithTab | node-red-comm.js:293-317 | with a first tab: two requests, the listing first; every other node is sent; PUT exactly when a listed tab has the label, POST otherwise; POST sends the spliced nodes with the tab's own id; success exactly for 200 or 204 |
| Reconcile.DeployExisting | node-red-comm.js:307-317 | a flow found by label is replaced under the listed id, which the body names; the nodes sent are exactly the other nodes, in order, each object node with its `z` set to that id |
| Reconcile.DeploySensorA | node-red-comm.js:291-319 | a `sensorA` tab plus one node, against a listing with a `sensorA` tab of id `17a3.4f2`, is sent as `PUT /flow/17a3.4f2` with that node moved onto the tab and otherwise unchanged; status 204 reports success |
| Reconcile.SensorAMatched | node-red-comm.js:308-316 | in that scenario the listed tab supplies id `17a3.4f2` and marks the flow existing |
| Reconcile.SensorAUpdate | node-red-comm.js:194-204 | in that scenario the update request is the PUT described above |
| Reconcile.SensorAPath | node-red-comm.js:201 | the path for id `17a3.4f2` is `/flow/17a3.4f2` |
| Reconcile.DeleteSucceeded | node-red-comm.js:347-367 | success exactly for status 200 or 204; 400, 401, 404 and every other status fail |
| Reconcile.DeleteFlowForSensorId | node-red-comm.js:327-375 | what is sent and reported is `Delete` |
| Reconcile.Delete | node-red-comm.js:327-375 | the listing is always fetched first; with no second request the result is true; a second request is a bodiless DELETE, and success then means status 200 or 204 |
| Reconcile.DeleteNothingListed | node-red-comm.js:370-373 | with no listed tab labelled with the sensor id, only the listing is fetched and true is reported |
| Reconcile.DeleteListed | node-red-comm.js:330-368 | with such a tab and a usable id, `DELETE /flow/<id>` of the first match is sent; true exactly for 200 or 204 |
| Reconcile.DeleteTargetsListedTab | node-red-comm.js:328-344 | at most one DELETE is sent, always after the listing, and only for a listed tab labelled with the sensor id |

## Left out

- HTTP transport is not modelled: `http.request`, host, port, headers, `Content-Length`, chunked response bodies and `JSON.parse` of the listing. The listing and the response status are inputs, and the server is assumed to answer the listing with 200.
- The other listing branches (401, 400 and any other status) are not modelled. They call a `success_callback` that is not defined in their scope, so they report nothing cleanly.
- The request body is a JSON value, not its `JSON.stringify` text. `TagsJson` serialises the tag map without escaping.
- HalfFloat.ToHalf: models `toHalf` with its two logging lines removed. Those lines call `buf2hex`, which no file of the repository defines, so as written `toHalf` throws a ReferenceError at schemas/toHalf.js:25 (node-red-comm.js:83 in the generated text) before it returns. `console.log` is not modelled.
- The last step of `toHalf` is not modelled: reading the 32-bit pattern back through a `Float32Array`. The result is the bit pattern. The runtime meaning of the generated text (`readFloatLE`, `readDoubleLE`, `Date`) is not modelled; only the text is.
- HalfFloat.SupportArraySteps: the three cells of the `Int32Array` scratch buffer are three local `bv32` variables, not an array. The statements and their order are the same, but the aliasing of `supportArray.buffer` by the final view is not modelled.
- Leading bytes are read little-endian, as on the hosts Node.js runs on.
- File I/O is not modelled. The template document is an input to the `FlowGenerator` constructor. The counter file is the `counter` field, and its text is assumed to parse as an integer.
- Two concurrent generations racing on the counter file are not modelled; the model is sequential.
- `==` between values of different types (a number against a string, say) is not modelled. It is false here, where JavaScript may convert. The code compares `type` and `label` with strings.
- Reading a property of `null` or `undefined` is not modelled; it throws a TypeError in JavaScript. Here it reads as undefined.
- Reconcile.WithZ: assigning `z` to a `null` node in the flow object (node-red-comm.js:198) throws a TypeError in JavaScript. Here a node that is not an object is sent unchanged.
- FlowIds.IsFlowId and FlowIds.IndexOf: lengths and indices count Unicode scalar values (Dafny characters), not the UTF-16 code units of JavaScript's `length` and `indexOf`. The two differ only for strings with characters outside the Basic Multilingual Plane. For example, "\u{1F600}23456.abcdef" has length 14 with its `.` at index 7 in JavaScript and is renumbered there, but has 13 characters here and is kept.
- Numbers are integers: offsets, lengths, flow numbers and parsed ids are unbounded integers. JavaScript's formatting of non-integers, of values of 1e21 or more, and the loss of precision above 2^53 are not modelled.
- Integer-like object keys (`"1"`, `"2"`) come first in JavaScript's property order. Here every key keeps insertion order.
- `incidfn` on a string template: `for…in` over a string is not modelled. Only a template that is already a JSON document is considered.
- A flow object that is a plain object with a `length` property, rather than an array, is not modelled: deploy treats every non-array as having no tab.
- `deployFlowObject` mutates the caller's array with `splice`; here the method returns the remaining nodes without aliasing that array.
- The decoder preamble is a parameter of Template.PatchInPlace, PatchNodes and PatchTarget. FlowObjectFromTemplate passes `Decoder.Preamble`, the text BuildConversionFn starts from, so the flow carries exactly the generated decoder.
- The lemmas Template.InstantiateNode, InstantiateId, IdsDifferAcrossFlows, DistinctPrefixesAcrossFlows and ReferencesResolve are stated for `InstantiateWith`, with any decoder text. `Instantiate` is the case with the generated text.
- The inherited names the `in` test finds are taken from ECMAScript 2023. Names added by later editions or by the host are not listed.

## Findings

| source | as written | input that shows it | evidently intended | confidence | as-written member | corrected member |
|---|---|---|---|---|---|---|
| node-red-comm.js:116 | `field.type in ['string', 'string_ascii']` tests the array's keys ("0", "1", "length" and inherited names), not its elements | a field `{type: "string_ascii"}` yields no statement, and a field `{type: "0"}` is decoded as ASCII | decode the bytes as ASCII when the type is `string` or `string_ascii` | not executed | Decoder.FieldStmtAsWritten (shown by Decoder.AsciiTestFindsKeys; used by Decoder.DecoderText) | Decoder.FieldStmt (used by Decoder.DecoderTextIntended) |
| node-red-comm.js:135-143 | the device-time branches build the statement text and discard it, and the `epoch_ms` factor (1000) and the `epoch_s` factor (1000 * 1000) both give microseconds, where the network, `epoch_ns` and `Date.parse` branches give nanoseconds | `time = {from: "device", field: "t", format: "epoch_ms"}` yields a decoder that never sets `fields["time"]` | append `fields["time"]` from the device field, scaled to nanoseconds: 1, 10^6, 10^9, or `Date.parse` * 10^6 | not executed | Decoder.TimeStmtsAsWritten (shown by Decoder.DeviceTimeDropped; used by Decoder.DecoderText) | Decoder.TimeStmts (scaling in Decoder.TimeScaling; used by Decoder.DecoderTextIntended) |
| node-red-comm.js:16-30 | ids are made unique across flows by adding the flow number to the hex number after the first `.`, so two ids with the same prefix whose numbers differ by the difference of two flow numbers meet | "1234567.000001" in flow 2 and "1234567.000002" in flow 1 both become "1234567.3" | ids of different flows are unique | not executed | FlowIds.SharedPrefixCollision | FlowIds.DistinctPrefixesStayApart and Template.DistinctPrefixesAcrossFlows (ids that differ up to their first `.` never meet) |
