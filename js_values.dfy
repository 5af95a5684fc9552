/** JSON documents as the flow engine and the flow template hold them, and the
    handful of JavaScript value operations the flow code applies to them:
    property read and write, loose equality, truthiness and string conversion. */
module JsValues {

  datatype Option<+T> = None | Some(value: T)

  /** A JSON value. Numbers are integers (every number this code handles is an
      integer); an object keeps its properties in insertion order, as a
      JavaScript object does for string keys. A property that is absent is
      `undefined` to the code, which is `None` wherever the model reads one. */
  datatype J =
    | JNull
    | JBool(b: bool)
    | JNum(n: int)
    | JStr(s: string)
    | JArr(items: seq<J>)
    | JObj(props: seq<(string, J)>)

  /** The value of the first property named `k`, or None. */
  function Lookup<V>(props: seq<(string, V)>, k: string): (r: Option<V>)
    ensures r.Some? <==> exists i :: 0 <= i < |props| && props[i].0 == k
    ensures r.Some? ==> (k, r.value) in props
  {
    if |props| == 0 then None
    else if props[0].0 == k then Some(props[0].1)
    else Lookup(props[1..], k)
  }

  /** Assignment `o[k] = v`: an existing property keeps its place and takes the
      new value, a new one is added at the end. */
  function Put<V>(props: seq<(string, V)>, k: string, v: V): (r: seq<(string, V)>)
    ensures Lookup(r, k) == Some(v)
    ensures forall k' :: k' != k ==> Lookup(r, k') == Lookup(props, k')
    ensures |r| == if Lookup(props, k).Some? then |props| else |props| + 1
    ensures forall i :: 0 <= i < |props| ==> r[i].0 == props[i].0
  {
    if |props| == 0 then [(k, v)]
    else if props[0].0 == k then [(k, v)] + props[1..]
    else [props[0]] + Put(props[1..], k, v)
  }

  /** Assigning a value a property already has changes nothing. */
  lemma {:induction false} PutExisting<V>(props: seq<(string, V)>, k: string, v: V)
    requires Lookup(props, k) == Some(v)
    ensures Put(props, k, v) == props
  {
    if props[0].0 != k {
      PutExisting(props[1..], k, v);
      assert [props[0]] + props[1..] == props;
    } else {
      assert [(k, v)] + props[1..] == props;
    }
  }

  /** Removal of every property named `k`; this is how an assignment of
      `undefined` is represented, since such a property is not serialised. */
  function Remove<V>(props: seq<(string, V)>, k: string): (r: seq<(string, V)>)
    ensures Lookup(r, k) == None
    ensures forall k' :: k' != k ==> Lookup(r, k') == Lookup(props, k')
  {
    if |props| == 0 then []
    else if props[0].0 == k then Remove(props[1..], k)
    else [props[0]] + Remove(props[1..], k)
  }

  /** `v.k` for the property names the flow code reads (type, label, id, z):
      an object's own property, and undefined on every other value. */
  function GetProp(v: J, k: string): Option<J>
  {
    match v
    case JObj(props) => Lookup(props, k)
    case _ => None
  }

  /** `v.k = x`, where None stands for `undefined`. Only an object shows the
      change in its serialised form. */
  function SetProp(v: J, k: string, x: Option<J>): (r: J)
    ensures v.JObj? ==> r.JObj? && GetProp(r, k) == x
    ensures forall k' :: k' != k ==> GetProp(r, k') == GetProp(v, k')
    ensures !v.JObj? ==> r == v
  {
    match v
    case JObj(props) => JObj(if x.Some? then Put(props, k, x.value) else Remove(props, k))
    case _ => v
  }

  /** `a == b` in JavaScript for operands that are undefined, null, booleans,
      numbers or strings of the same kind; two objects coming from different
      documents are never the same reference, so they are never equal. */
  predicate LooseEq(a: Option<J>, b: Option<J>)
  {
    match (a, b)
    case (None, None) => true
    case (None, Some(JNull)) => true
    case (Some(JNull), None) => true
    case (Some(JNull), Some(JNull)) => true
    case (Some(JBool(x)), Some(JBool(y))) => x == y
    case (Some(JNum(x)), Some(JNum(y))) => x == y
    case (Some(JStr(x)), Some(JStr(y))) => x == y
    case _ => false
  }

  /** `node.type == t` for a string `t`: the node is an object whose `type`
      is the string `t`. */
  predicate HasType(node: J, t: string)
  {
    GetProp(node, "type") == Some(JStr(t))
  }

  /** That is what the loose comparison with a string gives on the values
      modelled. */
  lemma HasTypeIsLooseEq(node: J, t: string)
    ensures HasType(node, t) <==> LooseEq(GetProp(node, "type"), Some(JStr(t)))
  {
  }

  /** The condition `if (v)`. */
  predicate Truthy(v: Option<J>)
  {
    match v
    case None => false
    case Some(JNull) => false
    case Some(JBool(b)) => b
    case Some(JNum(n)) => n != 0
    case Some(JStr(s)) => s != ""
    case Some(_) => true
  }

  /** Decimal digits of a natural number. */
  function NatDigits(n: nat): (s: string)
    ensures |s| > 0
    ensures AllDecimal(s)
  {
    var d := ['0' + (n % 10) as char];
    if n < 10 then d else NatDigits(n / 10) + d
  }

  predicate AllDecimal(s: string)
  {
    forall i :: 0 <= i < |s| ==> '0' <= s[i] <= '9'
  }

  /** The value of a string of decimal digits, most significant first. */
  function DecValue(s: string): nat
    requires AllDecimal(s)
  {
    if |s| == 0 then 0 else 10 * DecValue(s[..|s| - 1]) + (s[|s| - 1] - '0') as nat
  }

  /** The digits of `n` read back give `n`. */
  lemma {:induction false} DecValueOfNatDigits(n: nat)
    ensures DecValue(NatDigits(n)) == n
  {
    var s := NatDigits(n);
    assert (s[|s| - 1] - '0') as nat == n % 10;
    if n >= 10 {
      assert s[..|s| - 1] == NatDigits(n / 10);
      DecValueOfNatDigits(n / 10);
    }
  }

  /** `String(n)` for an integer number. */
  function DecString(n: int): string
  {
    if n < 0 then "-" + NatDigits(-n) else NatDigits(n)
  }

  /** `String(n)` spells `n`: its digits, after a minus sign when `n` is
      negative. */
  lemma DecStringValue(n: int)
    ensures n >= 0 ==> AllDecimal(DecString(n)) && DecValue(DecString(n)) == n
    ensures n < 0 ==> DecString(n)[0] == '-' && AllDecimal(DecString(n)[1..]) && DecValue(DecString(n)[1..]) == -n
  {
    if n >= 0 {
      DecValueOfNatDigits(n);
    } else {
      assert DecString(n)[1..] == NatDigits(-n);
      DecValueOfNatDigits(-n);
    }
  }

  /** `String(v)`, as string concatenation converts a value. */
  function JsString(v: Option<J>): string
  {
    match v
    case None => "undefined"
    case Some(x) => ValueString(x)
  }

  function ValueString(x: J): string
  {
    match x
    case JNull => "null"
    case JBool(b) => if b then "true" else "false"
    case JNum(n) => DecString(n)
    case JStr(s) => s
    case JArr(items) =>
      Join(seq(|items|, i requires 0 <= i < |items| =>
        if items[i].JNull? then "" else ValueString(items[i])))
    case JObj(_) => "[object Object]"
  }

  /** `Array.prototype.join(",")` over the elements' strings (a null element
      contributes the empty string). */
  function Join(parts: seq<string>): string
  {
    if |parts| == 0 then ""
    else if |parts| == 1 then parts[0]
    else parts[0] + "," + Join(parts[1..])
  }
}
