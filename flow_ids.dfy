/** `incidfn`: every string of a flow document that looks like a Node-RED node
    id has the hex number after its first `.` shifted by the flow number, so
    that the nodes of each generated flow get fresh ids. */
module FlowIds {
  import opened JsValues
  import opened JsNumbers

  /** `s.indexOf(c)`: the first index of `c`, or -1. */
  function IndexOf(s: string, c: char): (k: int)
    ensures -1 <= k < |s|
    ensures k >= 0 ==> s[k] == c && forall j :: 0 <= j < k ==> s[j] != c
    ensures k == -1 <==> c !in s
  {
    if |s| == 0 then -1
    else if s[0] == c then 0
    else
      var k := IndexOf(s[1..], c);
      if k == -1 then -1 else k + 1
  }

  /** The shape the code takes for an id: 14 or 15 characters with the first
      `.` at index 7 or 8. */
  predicate IsFlowId(s: string)
  {
    (|s| == 14 || |s| == 15) && (IndexOf(s, '.') == 7 || IndexOf(s, '.') == 8)
  }

  /** The characters up to and including the first `.`. */
  function IdPrefix(s: string): string
    requires IsFlowId(s)
  {
    s[..IndexOf(s, '.') + 1]
  }

  /** The characters after the first `.`. */
  function IdSuffix(s: string): string
    requires IsFlowId(s)
  {
    s[IndexOf(s, '.') + 1..]
  }

  /** `(num + n).toString(16)`, where None is NaN and NaN plus anything is
      NaN. */
  function ShiftedDigits(num: Option<int>, n: int): (d: string)
    ensures num.None? <==> d == "NaN"
  {
    if num.None? then "NaN"
    else
      var d := NumberToHex(num.value + n);
      assert d[0] != 'N';
      d
  }

  /** The digits read back with `parseInt` are the shifted number. */
  lemma ShiftedDigitsParse(num: Option<int>, n: int)
    requires num.Some?
    ensures ParseIntHex(ShiftedDigits(num, n)) == Some(num.value + n)
  {
    NumberToHexRoundTrip(num.value + n);
  }

  /** The renumbered id: the prefix, then `(parseInt(suffix, 16) + n).toString(16)`;
      a suffix without a leading hex digit parses to NaN, which stays NaN. */
  function IncIdString(s: string, n: int): (r: string)
    requires IsFlowId(s)
    ensures |r| >= |IdPrefix(s)| && r[..|IdPrefix(s)|] == IdPrefix(s)
    ensures ParseIntHex(IdSuffix(s)).None? ==> r == IdPrefix(s) + "NaN"
  {
    var digits := ShiftedDigits(ParseIntHex(IdSuffix(s)), n);
    var r := IdPrefix(s) + digits;
    assert r[..|IdPrefix(s)|] == IdPrefix(s);
    r
  }

  /** After the prefix, the renumbered id reads back as the suffix's number
      plus `n`. */
  lemma IncIdStringParse(s: string, n: int)
    requires IsFlowId(s) && ParseIntHex(IdSuffix(s)).Some?
    ensures ParseIntHex(IncIdString(s, n)[|IdPrefix(s)|..]) == Some(ParseIntHex(IdSuffix(s)).value + n)
  {
    var digits := ShiftedDigits(ParseIntHex(IdSuffix(s)), n);
    assert IncIdString(s, n)[|IdPrefix(s)|..] == digits;
    ShiftedDigitsParse(ParseIntHex(IdSuffix(s)), n);
  }

  /** One leaf: a qualifying string is renumbered, every other leaf is kept. */
  function IncLeaf(t: J, n: int): J
  {
    if t.JStr? && IsFlowId(t.s) then JStr(IncIdString(t.s, n)) else t
  }

  /** `incidfn(target, n)` on a JSON value. An array is an object to `typeof`,
      so its elements are visited by the object branch, in index order; the
      branch for `typeof == "array"` is never taken. `null` is an object too
      and has no properties. */
  function IncIds(t: J, n: int): (r: J)
    ensures t.JArr? <==> r.JArr?
    ensures t.JObj? <==> r.JObj?
    ensures t.JStr? <==> r.JStr?
    ensures t.JArr? ==> |r.items| == |t.items|
    ensures t.JObj? ==> |r.props| == |t.props| && forall i :: 0 <= i < |t.props| ==> r.props[i].0 == t.props[i].0
    ensures !t.JArr? && !t.JObj? && !t.JStr? ==> r == t
    decreases t
  {
    match t
    case JStr(s) => IncLeaf(t, n)
    case JArr(items) => JArr(seq(|items|, i requires 0 <= i < |items| => IncIds(items[i], n)))
    case JObj(props) =>
      JObj(seq(|props|, i requires 0 <= i < |props| => (props[i].0, IncIds(props[i].1, n))))
    case _ => t
  }

  /** The in-place walk of `incidfn`: each own property (or array element) is
      overwritten with the rewritten value, one after another. */
  method IncIdFn(target: J, flownumber: int) returns (r: J)
    ensures r == IncIds(target, flownumber)
    decreases target
  {
    match target {
      case JStr(s) =>
        if IsFlowId(s) {
          r := JStr(IncIdString(s, flownumber));
        } else {
          r := target;
        }
      case JArr(items) =>
        var a := items;
        for i := 0 to |items|
          invariant |a| == |items|
          invariant forall j :: 0 <= j < i ==> a[j] == IncIds(items[j], flownumber)
          invariant a[i..] == items[i..]
        {
          assert a[i] == items[i];
          var x := IncIdFn(items[i], flownumber);
          a := a[i := x];
        }
        r := JArr(a);
      case JObj(props) =>
        var p := props;
        for i := 0 to |props|
          invariant |p| == |props|
          invariant forall j :: 0 <= j < i ==> p[j] == (props[j].0, IncIds(props[j].1, flownumber))
          invariant p[i..] == props[i..]
        {
          assert p[i] == props[i];
          var x := IncIdFn(props[i].1, flownumber);
          p := p[i := (props[i].0, x)];
        }
        r := JObj(p);
      case _ =>
        r := target;
    }
  }

  /** A qualifying id whose suffix parses to `v` becomes the prefix followed
      by the lowercase hex of `v + n`; a suffix of hex digits parses to its
      value (`ParseIntHexOfDigits`). */
  lemma IncIdOfParsedSuffix(s: string, n: int, v: int)
    requires IsFlowId(s) && ParseIntHex(IdSuffix(s)) == Some(v)
    ensures IncIds(JStr(s), n) == JStr(IdPrefix(s) + NumberToHex(v + n))
  {
    IncIdStringOfValue(s, n, v);
  }

  lemma IncIdStringOfValue(s: string, n: int, v: int)
    requires IsFlowId(s) && ParseIntHex(IdSuffix(s)) == Some(v)
    ensures IncIdString(s, n) == IdPrefix(s) + NumberToHex(v + n)
  {
    assert ShiftedDigits(ParseIntHex(IdSuffix(s)), n) == NumberToHex(v + n);
  }

  /** Strings that do not look like an id are returned unchanged. */
  lemma OtherStringsKept(s: string, n: int)
    requires !IsFlowId(s)
    ensures IncIds(JStr(s), n) == JStr(s)
  {
  }

  /** Different flow numbers give different ids for a suffix that parses. */
  lemma IncIdInjective(s: string, n1: int, n2: int)
    requires IsFlowId(s) && ParseIntHex(IdSuffix(s)).Some?
    requires IncIdString(s, n1) == IncIdString(s, n2)
    ensures n1 == n2
  {
    IncIdStringParse(s, n1);
    IncIdStringParse(s, n2);
  }

  /** A `c` with no `c` before it is the first one. */
  lemma FirstIndexIs(s: string, c: char, k: int)
    requires 0 <= k < |s| && s[k] == c
    requires forall j :: 0 <= j < k ==> s[j] != c
    ensures IndexOf(s, c) == k
  {
    assert s[k] in s;
  }

  /** The renumbered id has its first `.` where the original had it: the new
      digits come after it. */
  lemma IncIdKeepsDot(s: string, n: int)
    requires IsFlowId(s)
    ensures IndexOf(IncIdString(s, n), '.') == IndexOf(s, '.')
  {
    var r := IncIdString(s, n);
    var k := IndexOf(s, '.');
    assert r[..k + 1] == s[..k + 1];
    assert r[k] == s[..k + 1][k];
    forall j | 0 <= j < k
      ensures r[j] != '.'
    {
      assert r[j] == s[..k + 1][j];
    }
    FirstIndexIs(r, '.', k);
  }

  /** Ids that differ up to their first `.` never meet, whatever flow numbers
      renumber them. */
  lemma DistinctPrefixesStayApart(s1: string, s2: string, n1: int, n2: int)
    requires IsFlowId(s1) && IsFlowId(s2) && IdPrefix(s1) != IdPrefix(s2)
    ensures IncIdString(s1, n1) != IncIdString(s2, n2)
  {
    if IncIdString(s1, n1) == IncIdString(s2, n2) {
      IncIdKeepsDot(s1, n1);
      IncIdKeepsDot(s2, n2);
    }
  }

  /** Ids that share a prefix can meet across flows: "1234567.000001" in
      flow 2 and "1234567.000002" in flow 1 both become "1234567.3". */
  lemma SharedPrefixCollision()
    ensures IsFlowId("1234567.000001") && IsFlowId("1234567.000002")
    ensures IncIds(JStr("1234567.000001"), 2) == JStr("1234567.3")
    ensures IncIds(JStr("1234567.000002"), 1) == JStr("1234567.3")
  {
    FirstExampleId();
    SecondExampleId();
  }

  lemma FirstExampleId()
    ensures IsFlowId("1234567.000001")
    ensures IncIds(JStr("1234567.000001"), 2) == JStr("1234567.3")
  {
    ExampleLiterals();
    ExampleId("1234567.000001", '1', 1, 2);
  }

  lemma SecondExampleId()
    ensures IsFlowId("1234567.000002")
    ensures IncIds(JStr("1234567.000002"), 1) == JStr("1234567.3")
  {
    ExampleLiterals();
    ExampleId("1234567.000002", '2', 2, 1);
  }

  lemma ExampleLiterals()
    ensures "1234567.000001" == "1234567.00000" + ['1']
    ensures "1234567.000002" == "1234567.00000" + ['2']
  {
  }

  /** `a`, one of the two ids above, renumbered by `n` becomes "1234567.3". */
  lemma ExampleId(a: string, d: char, v: int, n: int)
    requires a == "1234567.00000" + [d]
    requires IsHexDigit(d) && HexDigitValue(d) == v && v + n == 3
    ensures IsFlowId(a)
    ensures IncIds(JStr(a), n) == JStr("1234567.3")
  {
    ExampleIdBecomes(a, d, v, n);
    ExampleDigits();
  }

  lemma ExampleDigits()
    ensures "1234567." + NumberToHex(3) == "1234567.3"
  {
    assert NumberToHex(3) == "3";
  }

  /** `a` = "1234567.00000d", for the hex digit d of value v, renumbered by n. */
  lemma ExampleIdBecomes(a: string, d: char, v: int, n: int)
    requires a == "1234567.00000" + [d]
    requires IsHexDigit(d) && HexDigitValue(d) == v
    ensures IsFlowId(a)
    ensures IncIds(JStr(a), n) == JStr("1234567." + NumberToHex(v + n))
  {
    ExampleIdParts(d);
    ExampleSuffixValue(d);
    ParseIntHexOfDigits("00000" + [d]);
    IncIdOfParsedSuffix(a, n, v);
  }

  lemma ExampleIdParts(d: char)
    requires IsHexDigit(d)
    ensures IsFlowId("1234567.00000" + [d])
    ensures IdPrefix("1234567.00000" + [d]) == "1234567."
    ensures IdSuffix("1234567.00000" + [d]) == "00000" + [d]
  {
    var a := "1234567.00000" + [d];
    assert d != '.';
    FirstIndexIs(a, '.', 7);
    assert a[..8] == "1234567.";
    assert a[8..] == "00000" + [d];
  }

  lemma ExampleSuffixValue(d: char)
    requires IsHexDigit(d)
    ensures |"00000" + [d]| > 0 && AllHex("00000" + [d])
    ensures HexValue("00000" + [d]) == HexDigitValue(d)
  {
    var t := "00000" + [d];
    assert t[..5] == "00000";
    assert "00000"[..4] == "0000" && "0000"[..3] == "000" && "000"[..2] == "00" && "00"[..1] == "0";
    assert "0"[..0] == "";
  }

  /** Same shape: same kinds of nodes, same keys in the same order, same array
      lengths, and equal leaves other than strings. */
  predicate SameShape(a: J, b: J)
    decreases a
  {
    match a
    case JStr(_) => b.JStr?
    case JArr(xs) =>
      b.JArr? && |b.items| == |xs| && forall i :: 0 <= i < |xs| ==> SameShape(xs[i], b.items[i])
    case JObj(ps) =>
      b.JObj? && |b.props| == |ps|
      && forall i :: 0 <= i < |ps| ==> ps[i].0 == b.props[i].0 && SameShape(ps[i].1, b.props[i].1)
    case _ => a == b
  }

  lemma {:induction false} IncIdsSameShape(t: J, n: int)
    ensures SameShape(t, IncIds(t, n))
    decreases t
  {
    match t
    case JArr(xs) =>
      forall i | 0 <= i < |xs|
        ensures SameShape(xs[i], IncIds(t, n).items[i])
      {
        IncIdsSameShape(xs[i], n);
      }
    case JObj(ps) =>
      forall i | 0 <= i < |ps|
        ensures SameShape(ps[i].1, IncIds(t, n).props[i].1)
      {
        IncIdsSameShape(ps[i].1, n);
      }
    case _ =>
  }

  /** Reading a property of the rewritten object is rewriting the property
      read from the original. */
  lemma LookupOfInc(ps: seq<(string, J)>, k: string, n: int)
    ensures Lookup(seq(|ps|, i requires 0 <= i < |ps| => (ps[i].0, IncIds(ps[i].1, n))), k)
         == if Lookup(ps, k).Some? then Some(IncIds(Lookup(ps, k).value, n)) else None
  {
    LookupOfRewritten(ps, seq(|ps|, i requires 0 <= i < |ps| => (ps[i].0, IncIds(ps[i].1, n))), k, n);
  }

  /** The same for any property list whose values are rewritten one by one. */
  lemma {:induction false} LookupOfRewritten(ps: seq<(string, J)>, q: seq<(string, J)>, k: string, n: int)
    requires |q| == |ps| && forall i :: 0 <= i < |ps| ==> q[i] == (ps[i].0, IncIds(ps[i].1, n))
    ensures Lookup(q, k) == if Lookup(ps, k).Some? then Some(IncIds(Lookup(ps, k).value, n)) else None
  {
    if |ps| > 0 && ps[0].0 != k {
      LookupOfRewritten(ps[1..], q[1..], k, n);
    }
  }

  lemma GetPropOfInc(t: J, k: string, n: int)
    ensures GetProp(IncIds(t, n), k) == if GetProp(t, k).Some? then Some(IncIds(GetProp(t, k).value, n)) else None
  {
    if t.JObj? {
      LookupOfInc(t.props, k, n);
    }
  }

  /** The rewrite depends on the string alone, so a reference from one node
      to another (a `z` naming a tab's `id`, a wire naming a node) still holds
      after the rewrite. */
  lemma ReferencesKept(a: J, ka: string, b: J, kb: string, n: int)
    requires GetProp(a, ka).Some? && GetProp(a, ka) == GetProp(b, kb)
    ensures GetProp(IncIds(a, n), ka) == GetProp(IncIds(b, n), kb)
    ensures GetProp(IncIds(a, n), ka).Some?
  {
    GetPropOfInc(a, ka, n);
    GetPropOfInc(b, kb, n);
  }
}
