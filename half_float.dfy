/** The half-precision decoder that every generated decoding function carries:
    `toArrayBuffer` copies a byte buffer, `toHalf` turns the first 16-bit
    element of a byte slice into the 32-bit pattern of a single-precision
    float (its last step, reading that pattern back as a float, is not part of
    this model). */
module HalfFloat {
  import opened JsValues

  /** `toArrayBuffer(buf)`: a new buffer of the same length, byte for byte. */
  method ToArrayBuffer(buf: seq<bv8>) returns (ab: array<bv8>)
    ensures fresh(ab)
    ensures ab[..] == buf
  {
    ab := new bv8[|buf|];
    for i := 0 to |buf|
      invariant ab[..i] == buf[..i]
    {
      ab[i] := buf[i];
    }
  }

  /** `new Int16Array(bytes)[0]` as 16 bits, on a little-endian host; an empty
      view yields `undefined`, which every mask below turns into 0. */
  function FirstHalf(bytes: seq<bv8>): bv16
  {
    if |bytes| < 2 then 0 else (bytes[0] as bv16) | ((bytes[1] as bv16) << 8)
  }

  /** The int32 a JavaScript bitwise operator sees for an int16 element: its
      sign bit is extended. */
  function SignExtend(h: bv16): bv32
  {
    Widen(h as bv32)
  }

  function Widen(x: bv32): bv32
  {
    if x & 0x8000 == 0 then x else x | 0xFFFF_0000
  }

  /** Reference definition in IEEE-754 field terms: the sign moves from bit 15
      to bit 31, a zero exponent (zero or subnormal half) gives a signed zero,
      any other exponent e becomes e + 112 (bias 15 to bias 127, with no
      special case for the all-ones exponent) and the 10 mantissa bits move
      up by 13. */
  function HalfToSingle(h: bv16): bv32
  {
    FieldsToSingle(h as bv32)
  }

  function FieldsToSingle(x: bv32): bv32
  {
    var sign := (x >> 15) << 31;
    var exponent := (x >> 10) & 0x1F;
    var mantissa := x & 0x3FF;
    if exponent == 0 then sign else sign | ((exponent + 112) << 23) | (mantissa << 13)
  }

  /** `toHalf(slice)`. An odd-length slice makes the Int16Array constructor
      throw a RangeError, which is None here; an empty one reads `undefined`,
      which the masks turn into 0. */
  method ToHalf(slice: seq<bv8>) returns (bits: Option<bv32>)
    ensures bits == if |slice| % 2 == 1 then None else Some(HalfToSingle(FirstHalf(slice)))
  {
    if |slice| % 2 == 1 {
      return None;
    }
    var ab := ToArrayBuffer(slice);
    var element: bv32 := 0;
    if ab.Length >= 2 {
      element := SignExtend((ab[0] as bv16) | ((ab[1] as bv16) << 8));
    }
    assert element == SignExtend(FirstHalf(slice));
    var pattern := SupportArraySteps(element);
    StepsMatchReference(FirstHalf(slice));
    bits := Some(pattern);
  }

  /** What the masks, shifts and the addition of `toHalf` compute, in the
      order they are applied. */
  function Steps(x: bv32): bv32
  {
    (if x & 0x7C00 == 0 then 0 else ((x & 0x7FFF) << 13) + 0x3800_0000) | ((x & 0x8000) << 16)
  }

  /** The three cells of the Int32Array scratch buffer of `toHalf`, updated
      one statement at a time (the addition stored into a cell is modulo
      2^32, which is bv32 addition). */
  method SupportArraySteps(element: bv32) returns (pattern: bv32)
    ensures pattern == Steps(element)
  {
    var nonSign := element & 0x7FFF;
    var sign := element & 0x8000;
    var exponent := element & 0x7C00;
    nonSign := nonSign << 13;
    sign := sign << 16;
    nonSign := nonSign + 0x3800_0000;
    nonSign := if exponent == 0 then 0 else nonSign;
    nonSign := nonSign | sign;
    pattern := nonSign;
  }

  /** The masks of `toHalf` are at most 16 bits wide, so they do not see the
      sign extension. */
  lemma StepsIgnoreExtension(x: bv32)
    ensures Steps(Widen(x)) == Steps(x)
  {
    if x & 0x8000 != 0 {
      StepsIgnoreHighBits(x);
    }
  }

  lemma StepsIgnoreHighBits(x: bv32)
    ensures Steps(x | 0xFFFF_0000) == Steps(x)
  {
    assert (x | 0xFFFF_0000) & 0x7FFF == x & 0x7FFF;
    assert (x | 0xFFFF_0000) & 0x8000 == x & 0x8000;
    assert (x | 0xFFFF_0000) & 0x7C00 == x & 0x7C00;
  }

  lemma SignMoves(x: bv32)
    requires x <= 0xFFFF
    ensures (x & 0x8000) << 16 == (x >> 15) << 31
  {
  }

  lemma ExponentMask(x: bv32)
    ensures (x & 0x7C00 == 0) == ((x >> 10) & 0x1F == 0)
  {
  }

  /** Adding 0x38000000 to the shifted non-sign bits adds 112 to the exponent
      field and never carries into the sign bit. */
  lemma Rebias(x: bv32)
    ensures ((x & 0x7FFF) << 13) + 0x3800_0000 == ((((x >> 10) & 0x1F) + 112) << 23) | ((x & 0x3FF) << 13)
  {
  }

  lemma OrRegroup(a: bv32, b: bv32, c: bv32)
    ensures (b | c) | a == a | b | c
  {
  }

  lemma StepsOnWord(x: bv32)
    requires x <= 0xFFFF
    ensures Steps(x) == FieldsToSingle(x)
  {
    SignMoves(x);
    ExponentMask(x);
    Rebias(x);
    OrRegroup((x >> 15) << 31, (((x >> 10) & 0x1F) + 112) << 23, (x & 0x3FF) << 13);
  }

  /** The step-by-step computation of `toHalf` on the sign-extended element
      gives the reference pattern. */
  lemma StepsMatchReference(h: bv16)
    ensures Steps(SignExtend(h)) == HalfToSingle(h)
  {
    StepsIgnoreExtension(h as bv32);
    StepsOnWord(h as bv32);
  }

  /** Bit 31 of the result is the sign bit of the half. */
  lemma HalfSignBit(h: bv16)
    ensures HalfToSingle(h) >> 31 == (h >> 15) as bv32
  {
  }

  /** A zero exponent (a zero or a subnormal half) gives a signed zero, whatever
      the mantissa. */
  lemma HalfDenormalsAsZero(h: bv16)
    requires h & 0x7C00 == 0
    ensures HalfToSingle(h) == if h & 0x8000 == 0 then 0 else 0x8000_0000
  {
  }

  /** Any other exponent: the pattern is the shifted non-sign bits plus
      0x38000000, or-ed with the sign bit; the sum is at most 0x47FFE000, so
      the int32 addition never overflows. */
  lemma HalfNormal(h: bv16)
    requires h & 0x7C00 != 0
    ensures HalfToSingle(h) == ((((h as bv32) & 0x7FFF) << 13) + 0x3800_0000) | (((h as bv32) & 0x8000) << 16)
    ensures (((h as bv32) & 0x7FFF) << 13) + 0x3800_0000 <= 0x47FF_E000
  {
  }

  /** With the sum below 2^31 and only bit 31 set in the sign word, the low 31
      bits of the or are the sum and bit 31 is the sign. */
  lemma SignDoesNotOverlap(biased: bv32, sign: bv32)
    requires biased <= 0x47FF_E000
    requires sign & 0x7FFF_FFFF == 0
    ensures (biased | sign) & 0x7FFF_FFFF == biased
    ensures (biased | sign) >> 31 == sign >> 31
  {
  }

  /** 1.0, +0.0, -0.0, the all-ones exponent (re-biased, not infinity) and two
      subnormals (flushed to zero). */
  lemma HalfToSingleExamples()
    ensures HalfToSingle(0x3C00) == 0x3F80_0000
    ensures HalfToSingle(0x0000) == 0x0000_0000
    ensures HalfToSingle(0x8000) == 0x8000_0000
    ensures HalfToSingle(0x7C00) == 0x4780_0000
    ensures HalfToSingle(0x0001) == 0x0000_0000
    ensures HalfToSingle(0x83FF) == 0x8000_0000
  {
  }
}
