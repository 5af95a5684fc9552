/** `buildconversionfn`: the source text of the Node-RED function node that
    turns a sensor's raw payload into a field map and a tag map, generated
    from the sensor descriptor and its decoding configuration. */
module Decoder {
  import opened JsValues

  /** One entry of `configobj.fields`. */
  datatype FieldSpec = FieldSpec(name: string, kind: string, offset: int, length: int)

  /** `configobj.time`. */
  datatype TimeSpec = TimeSpec(from: string, field: string, format: string)

  /** `sensorobj.TTN`. */
  datatype Ttn = Ttn(devId: string, appId: string, accessKey: string)

  /** The sensor descriptor; `tags` is None when the descriptor has no `tags`
      property. */
  datatype Sensor = Sensor(id: string, ttn: Ttn, tags: Option<seq<(string, string)>>)

  /** The decoding configuration; `measurement` is `configobj.db.measurement`. */
  datatype Config = Config(fields: seq<FieldSpec>, time: TimeSpec, measurement: string)

  /** One statement of the generated decoder. */
  datatype Stmt =
    | ReadInt8(name: string, unsigned: bool, offset: int)
    | ReadIntLE(name: string, unsigned: bool, bits: int, offset: int)
    | HalfSlice(name: string, start: int, end: int)
    | ReadFloatLE(name: string, offset: int)
    | ReadDoubleLE(name: string, offset: int)
    | TextSlice(name: string, encoding: string, start: int, end: int)
    | NetworkTime
    | DeviceTime(field: string, format: string)

  /** The fixed text every generated decoder starts with: the definitions of
      `toArrayBuffer` and `toHalf`, exactly as the generator writes them. */
  const Preamble: string :=
    "var toArrayBuffer = function (buf) {\n" +
    "        var ab = new ArrayBuffer(buf.length);\n" +
    "        var view = new Uint8Array(ab);\n" +
    "        for (var i = 0; i < buf.length; ++i) {\n" +
    "            view[i] = buf[i];\n" +
    "        }\n" +
    "        return ab;\n" +
    "    }\n" +
    "    \n" +
    "    var toHalf = function( slice ) {\n" +
    "            var int16View = new Int16Array(toArrayBuffer(slice));\n" +
    "            var supportArray = new Int32Array(3);\n" +
    "            supportArray[0] = int16View[0] & 0x7fff; // Non-sign bits\n" +
    "            supportArray[1] = int16View[0] & 0x8000; // Sign bit\n" +
    "            supportArray[2] = int16View[0] & 0x7c00; // Exponent\n" +
    "    \n" +
    "            supportArray[0] = supportArray[0] << 13; // Align mantissa on MSB\n" +
    "            supportArray[1] = supportArray[1] << 16; // Shift sign bit into position\n" +
    "    \n" +
    "            supportArray[0] += 0x38000000; // Adjust bias\n" +
    "    \n" +
    "            supportArray[0] = (supportArray[2] == 0 ? 0 : supportArray[0]); //Denormals-as-zero\n" +
    "            supportArray[0] = supportArray[0] | supportArray[1]; //Re-insert sign bit\n" +
    "    \n" +
    "            console.log(\"Int16val: \" + buf2hex(int16View.buffer));\n" +
    "            console.log(\"Support Array: \" + buf2hex(supportArray.buffer));\n" +
    "    \n" +
    "            var floatView = new Float32Array(supportArray.buffer);\n" +
    "            return floatView[0];\n" +
    "    }\n" +
    "    \n" +
    "    "

  const Footer: string := "return msg;"


  /** The left-hand side of a statement: `fields["name"] = `. */
  function FieldRef(name: string): string
  {
    "fields[\"" + name + "\"] = "
  }

  /** `fields["name"] = rhs;` and a line break. */
  function Assign(name: string, rhs: string): string
  {
    FieldRef(name) + rhs + ";\n"
  }

  /** The multiplications that turn a time value into nanoseconds: an epoch in
      nanoseconds as it is, milliseconds (also what `Date.parse` and
      `getTime` give) times 1000 * 1000, seconds times 1000 * 1000 * 1000. */
  function TimeFactors(format: string): seq<int>
  {
    if format == "epoch_ns" then []
    else if format == "epoch_s" then [1000, 1000, 1000]
    else [1000, 1000]
  }

  function Product(xs: seq<int>): int
  {
    if |xs| == 0 then 1 else xs[0] * Product(xs[1..])
  }

  /** `e * k1 * k2 ...` as source text. */
  function Scaled(e: string, factors: seq<int>): string
    decreases |factors|
  {
    if |factors| == 0 then e else Scaled(e + " * " + DecString(factors[0]), factors[1..])
  }

  /** The expression a device-time statement reads: the decoded field, through
      `Date.parse` unless the format is a numeric epoch. */
  function DeviceTimeSource(field: string, format: string): string
  {
    var value := "fields[\"" + field + "\"]";
    if format == "epoch_ns" || format == "epoch_ms" || format == "epoch_s" then value
    else "Date.parse(" + value + ")"
  }

  /** The right-hand side of a statement. */
  function Rhs(st: Stmt): string
  {
    match st
    case ReadInt8(_, unsigned, offset) =>
      "buf.read" + (if unsigned then "UInt8(" else "Int8(") + DecString(offset) + ")"
    case ReadIntLE(_, unsigned, bits, offset) =>
      "buf.read" + (if unsigned then "UInt" else "Int") + DecString(bits) + "LE(" + DecString(offset) + ")"
    case HalfSlice(_, start, end) => "toHalf(buf.slice(" + DecString(start) + "," + DecString(end) + "))"
    case ReadFloatLE(_, offset) => "buf.readFloatLE(" + DecString(offset) + ")"
    case ReadDoubleLE(_, offset) => "buf.readDoubleLE(" + DecString(offset) + ")"
    case TextSlice(_, encoding, start, end) =>
      "buf.toString(\"" + encoding + "\", " + DecString(start) + ", " + DecString(end) + ")"
    case NetworkTime => Scaled("new Date().getTime()", [1000, 1000])
    case DeviceTime(field, format) => Scaled(DeviceTimeSource(field, format), TimeFactors(format))
  }

  /** The text of a statement: an assignment to the field it writes, ended by
      `;` and a line break. */
  function Render(st: Stmt): (r: string)
    ensures |r| >= |FieldRef(Target(st))| + 2
    ensures r[..|FieldRef(Target(st))|] == FieldRef(Target(st))
    ensures r[|r| - 2..] == ";\n"
  {
    AssignShape(Target(st), Rhs(st));
    Assign(Target(st), Rhs(st))
  }

  lemma AssignShape(name: string, rhs: string)
    ensures |Assign(name, rhs)| == |FieldRef(name)| + |rhs| + 2
    ensures Assign(name, rhs)[..|FieldRef(name)|] == FieldRef(name)
    ensures Assign(name, rhs)[|Assign(name, rhs)| - 2..] == ";\n"
  {
    var a := Assign(name, rhs);
    assert a == FieldRef(name) + (rhs + ";\n");
  }

  /** The statements one after another; no statement renders as nothing. */
  function RenderAll(sts: seq<Stmt>): (r: string)
    ensures r == "" <==> |sts| == 0
  {
    if |sts| == 0 then "" else RenderAll(sts[..|sts| - 1]) + Render(sts[|sts| - 1])
  }

  lemma {:induction false} RenderAllAppend(a: seq<Stmt>, b: seq<Stmt>)
    ensures RenderAll(a + b) == RenderAll(a) + RenderAll(b)
    decreases |b|
  {
    if |b| > 0 {
      assert (a + b)[..|a + b| - 1] == a + b[..|b| - 1];
      RenderAllAppend(a, b[..|b| - 1]);
    } else {
      assert a + b == a;
    }
  }

  /** The statement for a field once the branch chain has reached a type:
      `asciiBranch` is the outcome of the test for the ASCII string types. */
  function StmtFor(f: FieldSpec, asciiBranch: bool): Option<Stmt>
  {
    if f.kind == "int" then
      Some(if f.length == 1 then ReadInt8(f.name, false, f.offset) else ReadIntLE(f.name, false, 8 * f.length, f.offset))
    else if f.kind == "uint" then
      Some(if f.length == 1 then ReadInt8(f.name, true, f.offset) else ReadIntLE(f.name, true, 8 * f.length, f.offset))
    else if f.kind == "float" then
      Some(if f.length == 2 then HalfSlice(f.name, f.offset, f.offset + f.length)
           else if f.length == 4 then ReadFloatLE(f.name, f.offset)
           else ReadDoubleLE(f.name, f.offset))
    else if asciiBranch then Some(TextSlice(f.name, "ascii", f.offset, f.offset + f.length))
    else if f.kind == "string_unicode" then Some(TextSlice(f.name, "utf-8", f.offset, f.offset + f.length))
    else None
  }

  /** The names JavaScript's `in` finds on every array besides its indices and
      `length`: the properties of `Array.prototype` and of `Object.prototype`
      (ECMAScript 2023). */
  const ArrayPrototypeKeys: set<string> := {
    "at", "concat", "copyWithin", "entries", "every", "fill", "filter", "find",
    "findIndex", "findLast", "findLastIndex", "flat", "flatMap", "forEach",
    "includes", "indexOf", "join", "keys", "lastIndexOf", "map", "pop", "push",
    "reduce", "reduceRight", "reverse", "shift", "slice", "some", "sort",
    "splice", "toLocaleString", "toReversed", "toSorted", "toSpliced",
    "toString", "unshift", "values", "with", "constructor"
  }

  const ObjectPrototypeKeys: set<string> := {
    "__defineGetter__", "__defineSetter__", "__lookupGetter__",
    "__lookupSetter__", "__proto__", "hasOwnProperty", "isPrototypeOf",
    "propertyIsEnumerable", "toLocaleString", "toString", "valueOf", "constructor"
  }

  /** `k in ['string', 'string_ascii']`: true for the keys of that array,
      which are "0", "1", "length" and the inherited names, not its elements. */
  predicate InTwoElementArray(k: string)
  {
    k == "0" || k == "1" || k == "length" || k in ArrayPrototypeKeys || k in ObjectPrototypeKeys
  }

  /** No inherited name starts with "st". */
  predicate NotStPrefixed(k: string)
  {
    |k| < 2 || k[0] != 's' || k[1] != 't'
  }

  /** The ASCII test of the field loop: as the code is written (`written`), an
      `in` test on the array literal; as evidently intended, the type being
      `string` or `string_ascii`. */
  predicate AsciiTest(kind: string, written: bool)
  {
    if written then InTwoElementArray(kind) else kind == "string" || kind == "string_ascii"
  }

  /** The field types that yield a statement under that test. */
  predicate Emits(kind: string, written: bool)
  {
    kind == "int" || kind == "uint" || kind == "float" || AsciiTest(kind, written) || kind == "string_unicode"
  }

  /** The statement for one field, under the written or the intended test. */
  function FieldStmtBy(f: FieldSpec, written: bool): (r: Option<Stmt>)
    ensures r.Some? <==> Emits(f.kind, written)
  {
    StmtFor(f, AsciiTest(f.kind, written))
  }

  /** The field types a decoder is meant to read. */
  predicate KnownKind(kind: string)
  {
    kind == "int" || kind == "uint" || kind == "float" || kind == "string" || kind == "string_ascii"
    || kind == "string_unicode"
  }

  /** The statement for one field as evidently intended: the ASCII branch
      is taken for `string` and `string_ascii`. */
  function FieldStmt(f: FieldSpec): (r: Option<Stmt>)
    ensures r.Some? <==> KnownKind(f.kind)
  {
    FieldStmtBy(f, false)
  }

  /** The statement for one field as the code is written: the ASCII branch is
      taken for the keys of the array literal. */
  function FieldStmtAsWritten(f: FieldSpec): (r: Option<Stmt>)
    ensures r.Some? <==> f.kind == "int" || f.kind == "uint" || f.kind == "float" || f.kind == "string_unicode"
                         || InTwoElementArray(f.kind)
  {
    FieldStmtBy(f, true)
  }

  /** The written test never decodes an ASCII string field, and decodes a field
      whose type is "0" as one; `string_unicode` is not a key either. */
  lemma StringKindsAreNotKeys()
    ensures !InTwoElementArray("string") && !InTwoElementArray("string_ascii")
    ensures !InTwoElementArray("string_unicode")
    ensures InTwoElementArray("0")
  {
    assert forall k | k in ArrayPrototypeKeys :: NotStPrefixed(k);
    assert forall k | k in ObjectPrototypeKeys :: NotStPrefixed(k);
  }

  lemma AsciiTestFindsKeys(name: string, offset: int, length: int)
    ensures FieldStmtAsWritten(FieldSpec(name, "string_ascii", offset, length)).None?
    ensures FieldStmtAsWritten(FieldSpec(name, "string", offset, length)).None?
    ensures FieldStmt(FieldSpec(name, "string_ascii", offset, length))
         == Some(TextSlice(name, "ascii", offset, offset + length))
    ensures FieldStmtAsWritten(FieldSpec(name, "0", offset, length))
         == Some(TextSlice(name, "ascii", offset, offset + length))
    ensures FieldStmt(FieldSpec(name, "0", offset, length)).None?
  {
    StringKindsAreNotKeys();
  }

  /** The types for which the written and the intended test agree. */
  predicate Unaffected(kind: string)
  {
    kind != "string" && kind != "string_ascii" && !InTwoElementArray(kind)
  }

  /** Outside the two string types and the array's keys both readings agree. */
  lemma AsciiTestAgreesElsewhere(f: FieldSpec)
    requires Unaffected(f.kind)
    ensures FieldStmtAsWritten(f) == FieldStmt(f)
  {
  }

  /** The field a statement writes. */
  function Target(st: Stmt): string
  {
    match st
    case ReadInt8(name, _, _) => name
    case ReadIntLE(name, _, _, _) => name
    case HalfSlice(name, _, _) => name
    case ReadFloatLE(name, _) => name
    case ReadDoubleLE(name, _) => name
    case TextSlice(name, _, _, _) => name
    case _ => "time"
  }

  /** The bytes `[start, end)` of the payload a statement reads at decode
      time; the time statements read none. */
  function Span(st: Stmt): (int, int)
  {
    match st
    case ReadInt8(_, _, offset) => (offset, offset + 1)
    case ReadIntLE(_, _, bits, offset) => (offset, offset + bits / 8)
    case HalfSlice(_, start, end) => (start, end)
    case ReadFloatLE(_, offset) => (offset, offset + 4)
    case ReadDoubleLE(_, offset) => (offset, offset + 8)
    case TextSlice(_, _, start, end) => (start, end)
    case _ => (0, 0)
  }

  /** What the statement of a field does, under either test: it writes the
      field's name and reads `length_bytes` bytes from `offset_bytes`, except
      that a float of any length other than 2 or 4 is read as an 8-byte
      double; a 1-byte int or uint is read with `readInt8`/`readUInt8` and any
      other length as a little-endian integer of `8 * length_bytes` bits;
      a 2-byte float goes through `toHalf`, a 4-byte one is `readFloatLE`;
      the strings are decoded as ASCII or UTF-8. */
  lemma FieldStmtMeaning(f: FieldSpec, written: bool)
    requires Emits(f.kind, written)
    ensures Target(FieldStmtBy(f, written).value) == f.name
    ensures Span(FieldStmtBy(f, written).value)
         == (f.offset, f.offset + if f.kind == "float" && f.length != 2 && f.length != 4 then 8 else f.length)
    ensures (f.kind == "int" || f.kind == "uint") && f.length == 1 ==>
              FieldStmtBy(f, written).value == ReadInt8(f.name, f.kind == "uint", f.offset)
    ensures (f.kind == "int" || f.kind == "uint") && f.length != 1 ==>
              FieldStmtBy(f, written).value == ReadIntLE(f.name, f.kind == "uint", 8 * f.length, f.offset)
    ensures f.kind == "float" && f.length == 2 ==>
              FieldStmtBy(f, written).value == HalfSlice(f.name, f.offset, f.offset + 2)
    ensures f.kind == "float" && f.length == 4 ==> FieldStmtBy(f, written).value == ReadFloatLE(f.name, f.offset)
    ensures f.kind == "float" && f.length != 2 && f.length != 4 ==>
              FieldStmtBy(f, written).value == ReadDoubleLE(f.name, f.offset)
    ensures f.kind != "int" && f.kind != "uint" && f.kind != "float" && AsciiTest(f.kind, written) ==>
              FieldStmtBy(f, written).value == TextSlice(f.name, "ascii", f.offset, f.offset + f.length)
    ensures f.kind == "string_unicode" ==>
              FieldStmtBy(f, written).value == TextSlice(f.name, "utf-8", f.offset, f.offset + f.length)
  {
    StringKindsAreNotKeys();
    var st := FieldStmtBy(f, written).value;
    if st.ReadIntLE? {
      assert st.bits / 8 == f.length;
    }
  }

  /** The statements for the fields, in field order, under the written or the
      intended test; a field whose type is not read contributes none. */
  function FieldStmts(fs: seq<FieldSpec>, written: bool): (r: seq<Stmt>)
    ensures |r| <= |fs|
  {
    if |fs| == 0 then []
    else
      var st := FieldStmtBy(fs[|fs| - 1], written);
      FieldStmts(fs[..|fs| - 1], written) + (if st.Some? then [st.value] else [])
  }

  /** The fields that produce a statement, in order. */
  function EmittingFields(fs: seq<FieldSpec>, written: bool): (r: seq<FieldSpec>)
    ensures forall f :: f in r ==> f in fs && Emits(f.kind, written)
    ensures forall f :: f in fs && Emits(f.kind, written) ==> f in r
    ensures |r| <= |fs|
  {
    if |fs| == 0 then []
    else
      var prefix := EmittingFields(fs[..|fs| - 1], written);
      assert forall f :: f in fs[..|fs| - 1] ==> f in fs;
      assert forall f :: f in fs ==> f in fs[..|fs| - 1] || f == fs[|fs| - 1];
      prefix + (if Emits(fs[|fs| - 1].kind, written) then [fs[|fs| - 1]] else [])
  }

  /** When every field emits, the emitting fields are the fields themselves. */
  lemma {:induction false} EmittingFieldsAll(fs: seq<FieldSpec>, written: bool)
    requires forall i :: 0 <= i < |fs| ==> Emits(fs[i].kind, written)
    ensures EmittingFields(fs, written) == fs
  {
    if |fs| > 0 {
      var init := fs[..|fs| - 1];
      forall i | 0 <= i < |init|
        ensures Emits(init[i].kind, written)
      {
        assert init[i] == fs[i];
      }
      EmittingFieldsAll(init, written);
      EmittingFieldsLast(fs, written);
      InitAndLast(fs);
    }
  }

  lemma EmittingFieldsLast(fs: seq<FieldSpec>, written: bool)
    requires |fs| > 0 && Emits(fs[|fs| - 1].kind, written)
    ensures EmittingFields(fs, written) == EmittingFields(fs[..|fs| - 1], written) + [fs[|fs| - 1]]
  {
  }

  lemma InitAndLast(fs: seq<FieldSpec>)
    requires |fs| > 0
    ensures fs[..|fs| - 1] + [fs[|fs| - 1]] == fs
  {
  }

  /** Filtering keeps the field order: the emitting fields of two lists joined
      are those of the first followed by those of the second. */
  lemma {:induction false} EmittingFieldsAppend(a: seq<FieldSpec>, b: seq<FieldSpec>, written: bool)
    ensures EmittingFields(a + b, written) == EmittingFields(a, written) + EmittingFields(b, written)
    decreases |b|
  {
    if |b| == 0 {
      assert a + b == a;
    } else {
      assert (a + b)[..|a + b| - 1] == a + b[..|b| - 1];
      EmittingFieldsAppend(a, b[..|b| - 1], written);
    }
  }

  /** Exactly one statement per emitting field, in field order: as written,
      the fields of type int, uint, float, string_unicode or a key of the
      array literal; as intended, those of a known type. */
  lemma {:induction false} OneStmtPerField(fs: seq<FieldSpec>, written: bool)
    ensures |FieldStmts(fs, written)| == |EmittingFields(fs, written)|
    ensures forall i :: 0 <= i < |FieldStmts(fs, written)| ==>
              FieldStmts(fs, written)[i] == FieldStmtBy(EmittingFields(fs, written)[i], written).value
  {
    if |fs| > 0 {
      OneStmtPerField(fs[..|fs| - 1], written);
    }
  }

  /** Where two field lists are put together, so are their statements. */
  lemma {:induction false} FieldStmtsAppend(a: seq<FieldSpec>, b: seq<FieldSpec>, written: bool)
    ensures FieldStmts(a + b, written) == FieldStmts(a, written) + FieldStmts(b, written)
    decreases |b|
  {
    if |b| == 0 {
      assert a + b == a;
    } else {
      assert (a + b)[..|a + b| - 1] == a + b[..|b| - 1];
      FieldStmtsAppend(a, b[..|b| - 1], written);
    }
  }

  /** Fields of no affected type give the same statements under both tests. */
  lemma {:induction false} FieldStmtsAgree(fs: seq<FieldSpec>)
    requires forall i :: 0 <= i < |fs| ==> Unaffected(fs[i].kind)
    ensures FieldStmts(fs, true) == FieldStmts(fs, false)
  {
    if |fs| > 0 {
      FieldStmtsAgree(fs[..|fs| - 1]);
      AsciiTestAgreesElsewhere(fs[|fs| - 1]);
    }
  }

  /** The time statement as evidently intended: device time is appended too,
      scaled to nanoseconds. */
  function TimeStmts(t: TimeSpec): (r: seq<Stmt>)
    ensures |r| == 1
  {
    if t.from == "network" then [NetworkTime] else [DeviceTime(t.field, t.format)]
  }

  /** The time statements as the code is written: the device branches build
      their text and drop it, so only network time is ever appended. */
  function TimeStmtsAsWritten(t: TimeSpec): (r: seq<Stmt>)
    ensures |r| == 1 <==> t.from == "network"
    ensures |r| == 0 <==> t.from != "network"
  {
    if t.from == "network" then [NetworkTime] else []
  }

  /** A record decoded with a device time holds no time field with the code
      as written, and holds one with the corrected code. */
  lemma DeviceTimeDropped(t: TimeSpec)
    requires t.from != "network"
    ensures forall st :: st in TimeStmtsAsWritten(t) ==> Target(st) != "time"
    ensures exists st :: st in TimeStmts(t) && Target(st) == "time"
  {
    assert DeviceTime(t.field, t.format) in TimeStmts(t);
  }

  /** The nanoseconds a time statement yields from the value it reads: an
      epoch value for the numeric formats, the milliseconds `Date.parse` or
      the clock gives otherwise. */
  function Nanos(st: Stmt, value: int): int
    requires st.NetworkTime? || st.DeviceTime?
  {
    if st.NetworkTime? then value * Product([1000, 1000]) else value * Product(TimeFactors(st.format))
  }

  /** Nanoseconds, milliseconds and seconds are scaled by 1, 10^6 and 10^9; a
      device field `t = 5` in `epoch_ms` gives 5000000. */
  lemma TimeScaling(field: string, value: int)
    ensures Nanos(TimeStmts(TimeSpec("device", field, "epoch_ns"))[0], value) == value
    ensures Nanos(TimeStmts(TimeSpec("device", field, "epoch_ms"))[0], value) == value * 1_000_000
    ensures Nanos(TimeStmts(TimeSpec("device", field, "epoch_s"))[0], value) == value * 1_000_000_000
    ensures Nanos(TimeStmts(TimeSpec("network", field, "epoch_s"))[0], value) == value * 1_000_000
    ensures Nanos(TimeStmts(TimeSpec("device", "t", "epoch_ms"))[0], 5) == 5_000_000
  {
    assert Product([1000, 1000]) == 1_000_000 by {
      assert [1000, 1000][1..] == [1000];
      assert [1000][1..] == [];
    }
    assert Product([1000, 1000, 1000]) == 1_000_000_000 by {
      assert [1000, 1000, 1000][1..] == [1000, 1000];
      assert [1000, 1000][1..] == [1000];
      assert [1000][1..] == [];
    }
  }

  /** Tags: `sensorobj.tags` or a new empty object, with `ID` set to the
      sensor id and `measuretime` to "network" or "device"; an existing
      property keeps its place, a new one goes last. */
  function DeriveTags(s: Sensor, c: Config): (t: seq<(string, string)>)
    ensures Lookup(t, "ID") == Some(s.id)
    ensures Lookup(t, "measuretime") == Some(if c.time.from == "network" then "network" else "device")
    ensures forall k :: k != "ID" && k != "measuretime" ==>
              Lookup(t, k) == if s.tags.Some? then Lookup(s.tags.value, k) else None
  {
    var base := if s.tags.Some? then s.tags.value else [];
    var withId := Put(base, "ID", s.id);
    Put(withId, "measuretime", if c.time.from == "network" then "network" else "device")
  }

  /** The sensor after the call: when it has tags the generator writes into
      that very object; otherwise its fresh `{}` is not part of the sensor. */
  function SensorAfter(s: Sensor, c: Config): (r: Sensor)
    ensures r.id == s.id && r.ttn == s.ttn && r.tags.Some? == s.tags.Some?
  {
    if s.tags.Some? then s.(tags := Some(DeriveTags(s, c))) else s
  }

  /** Generating again from the updated sensor gives the same tags, so does
      not change the sensor a second time. */
  lemma DeriveTagsStable(s: Sensor, c: Config)
    ensures DeriveTags(SensorAfter(s, c), c) == DeriveTags(s, c)
    ensures SensorAfter(SensorAfter(s, c), c) == SensorAfter(s, c)
  {
    if s.tags.Some? {
      var t := DeriveTags(s, c);
      var m := if c.time.from == "network" then "network" else "device";
      PutExisting(t, "ID", s.id);
      PutExisting(t, "measuretime", m);
    }
  }

  /** `JSON.stringify` of a map from strings to strings (no escaping): an
      object literal, `{}` for no tags. */
  function TagsJson(t: seq<(string, string)>): (r: string)
    ensures |r| >= 2 && r[0] == '{' && r[|r| - 1] == '}'
    ensures |t| == 0 ==> r == "{}"
  {
    "{" + Members(t) + "}"
  }

  function Members(t: seq<(string, string)>): string
  {
    if |t| == 0 then ""
    else
      var first := "\"" + t[0].0 + "\":\"" + t[0].1 + "\"";
      if |t| == 1 then first else first + "," + Members(t[1..])
  }

  /** The whole generated text, as the code builds it. */
  function DecoderText(s: Sensor, c: Config): string
  {
    TextAfter(Preamble, s, c)
  }

  /** A preamble, then the buffer and field-map declarations, one statement
      per field the written test accepts, the network time statement if any,
      the payload assignment with the serialised tags, and `return msg;`. */
  function TextAfter(preamble: string, s: Sensor, c: Config): string
  {
    preamble + "var buf = msg.payload_raw;\n" + "var fields = {};\n"
    + RenderAll(FieldStmts(c.fields, true)) + RenderAll(TimeStmtsAsWritten(c.time))
    + "msg.payload = [fields," + TagsJson(DeriveTags(s, c)) + "];\n" + Footer
  }

  /** The text the generator is evidently meant to build: ASCII string fields
      decoded and the device time appended. */
  function DecoderTextIntended(s: Sensor, c: Config): string
  {
    IntendedTextAfter(Preamble, s, c)
  }

  function IntendedTextAfter(preamble: string, s: Sensor, c: Config): string
  {
    preamble + "var buf = msg.payload_raw;\n" + "var fields = {};\n"
    + RenderAll(FieldStmts(c.fields, false)) + RenderAll(TimeStmts(c.time))
    + "msg.payload = [fields," + TagsJson(DeriveTags(s, c)) + "];\n" + Footer
  }

  /** The two texts are the same when no field has an affected type and time
      comes from the network. */
  lemma TextsAgree(preamble: string, s: Sensor, c: Config)
    requires forall i :: 0 <= i < |c.fields| ==> Unaffected(c.fields[i].kind)
    requires c.time.from == "network"
    ensures TextAfter(preamble, s, c) == IntendedTextAfter(preamble, s, c)
  {
    FieldStmtsAgree(c.fields);
  }

  lemma DecoderTextsAgree(s: Sensor, c: Config)
    requires forall i :: 0 <= i < |c.fields| ==> Unaffected(c.fields[i].kind)
    requires c.time.from == "network"
    ensures DecoderText(s, c) == DecoderTextIntended(s, c)
  {
    TextsAgree(Preamble, s, c);
  }

  lemma TextAfterStable(preamble: string, s: Sensor, c: Config)
    ensures TextAfter(preamble, SensorAfter(s, c), c) == TextAfter(preamble, s, c)
  {
    DeriveTagsStable(s, c);
  }

  lemma AppendAssoc(a: string, b: string, c: string)
    ensures a + b + c == a + (b + c)
  {
  }

  lemma FieldStmtsStep(fs: seq<FieldSpec>, i: int, written: bool)
    requires 0 <= i < |fs|
    ensures FieldStmtBy(fs[i], written).Some? ==>
              RenderAll(FieldStmts(fs[..i + 1], written))
              == RenderAll(FieldStmts(fs[..i], written)) + Render(FieldStmtBy(fs[i], written).value)
    ensures FieldStmtBy(fs[i], written).None? ==>
              RenderAll(FieldStmts(fs[..i + 1], written)) == RenderAll(FieldStmts(fs[..i], written))
  {
    assert fs[..i + 1][..i] == fs[..i];
    var st := FieldStmtBy(fs[i], written);
    if st.Some? {
      assert RenderAll(FieldStmts(fs[..i], written) + [st.value])
          == RenderAll(FieldStmts(fs[..i], written)) + Render(st.value);
    } else {
      assert FieldStmts(fs[..i], written) + [] == FieldStmts(fs[..i], written);
    }
  }

  lemma TimeStmtsText(t: TimeSpec)
    ensures RenderAll(TimeStmtsAsWritten(t)) == if t.from == "network" then Render(NetworkTime) else ""
  {
    if t.from == "network" {
      assert TimeStmtsAsWritten(t)[..0] == [];
    }
  }

  /** `buildconversionfn(sensorobj, configobj)`: `out` starts as the
      preamble and grows one statement at a time; the sensor's tags are
      updated in place when it has them. */
  method BuildConversionFn(sensor: Sensor, config: Config) returns (out: string, sensorAfter: Sensor)
    ensures out == DecoderText(sensor, config)
    ensures sensorAfter == SensorAfter(sensor, config)
  {
    out := Preamble;
    out, sensorAfter := AppendDecoderBody(out, sensor, config);
  }

  /** The statements of `buildconversionfn` after the preamble, each adding
      to `out`. */
  method AppendDecoderBody(preamble: string, sensor: Sensor, config: Config) returns (out: string, sensorAfter: Sensor)
    ensures out == TextAfter(preamble, sensor, config)
    ensures sensorAfter == SensorAfter(sensor, config)
  {
    out := preamble;
    out := out + "var buf = msg.payload_raw;\n";
    out := out + "var fields = {};\n";
    var fields := config.fields;
    ghost var start := out;
    for i := 0 to |fields|
      invariant out == start + RenderAll(FieldStmts(fields[..i], true))
    {
      var st := FieldStmtAsWritten(fields[i]);
      FieldStmtsStep(fields, i, true);
      if st.Some? {
        AppendAssoc(start, RenderAll(FieldStmts(fields[..i], true)), Render(st.value));
        out := out + Render(st.value);
      }
    }
    assert fields[..|fields|] == fields;
    var tags: seq<(string, string)>;
    if sensor.tags.None? {
      tags := [];
    } else {
      tags := sensor.tags.value;
    }
    tags := Put(tags, "ID", sensor.id);
    var time := config.time;
    TimeStmtsText(time);
    if time.from == "network" {
      tags := Put(tags, "measuretime", "network");
      out := out + Render(NetworkTime);
    } else {
      // The device-time branches evaluate their statement text and drop it.
      tags := Put(tags, "measuretime", "device");
      assert out == out + "";
    }
    sensorAfter := if sensor.tags.Some? then sensor.(tags := Some(tags)) else sensor;
    out := out + "msg.payload = [fields," + TagsJson(tags) + "];\n";
    out := out + "return msg;";
  }
}
