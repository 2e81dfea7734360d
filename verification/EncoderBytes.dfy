/** The bytes that the encoder writes, against the standards, and their exact number. */
module EncoderBytes {
  import opened Wrappers
  import opened Utf16To8
  import opened StringRoundTrip

  /**
   * The bytes of one unit: itself from 1 to 0x7f, two bytes for zero and up to 0x7ff, three above. Zero is
   * the overlong form of section 4.4.7 of the Java Virtual Machine Specification.
   */
  lemma BytesOfUnit(u: CodeUnit)
    ensures Encode([u]) ==
            if u == 0 then [0xc0, 0x80]
            else if u < 0x80 then [u]
            else if u < 0x800 then [0xc0 + u / 0x40, 0x80 + u % 0x40]
            else [0xe0 + u / 0x1000, 0x80 + u / 0x40 % 0x40, 0x80 + u % 0x40]
  {
    EncodeCons([u]);
    assert [u][1..] == [];
  }

  /** A scalar value below 0x10000 is written as section 3 of RFC 3629 writes it. */
  lemma ScalarIsStandard(v: nat)
    requires IsScalar(v) && v < 0x10000
    ensures Encode([v]) == Utf8Char(v)
  {
    BytesOfUnit(v);
  }

  lemma EncodeJoins(u: CodeUnit, rest: seq<CodeUnit>)
    ensures Encode([u] + rest) == Encode([u]) + Encode(rest)
  {
    EncodeCons([u] + rest);
    EncodeCons([u]);
    assert ([u] + rest)[1..] == rest && [u][1..] == [];
  }

  /** So is a text of them. */
  lemma {:induction false} TextIsStandard(vs: seq<nat>)
    requires AreScalars(vs) && forall k :: 0 <= k < |vs| ==> vs[k] < 0x10000
    ensures Encode(Utf16(vs)) == Utf8(vs)
  {
    if vs != [] {
      TextIsStandard(vs[1..]);
      ScalarIsStandard(vs[0]);
      EncodeJoins(vs[0], Utf16(vs[1..]));
    }
  }

  /** A surrogate, paired or not, takes three bytes of its own. */
  lemma SurrogateBytes(u: CodeUnit)
    requires 0xd800 <= u <= 0xdfff
    ensures Encode([u]) == [0xed, 0x80 + u / 0x40 % 0x40, 0x80 + u % 0x40] && u / 0x40 % 0x40 >= 0x20
  {
    BytesOfUnit(u);
  }

  lemma HighDigits(d: nat)
    requires d < 0x100000
    ensures (0xd800 + d / 0x400) / 0x40 % 0x40 == 0x20 + d / 0x10000
    ensures (0xd800 + d / 0x400) % 0x40 == d / 0x400 % 0x40
  {
  }

  lemma LowDigits(d: nat)
    requires d < 0x100000
    ensures (0xdc00 + d % 0x400) / 0x40 % 0x40 == 0x30 + d / 0x40 % 0x10
    ensures (0xdc00 + d % 0x400) % 0x40 == d % 0x40
  {
  }

  lemma OffsetHigh(d: nat)
    ensures (d + 0x10000) / 0x10000 == d / 0x10000 + 1
    ensures (d + 0x10000) / 0x400 == d / 0x400 + 0x40
  {
  }

  lemma OffsetLow(d: nat)
    ensures (d + 0x10000) / 0x40 == d / 0x40 + 0x400
    ensures (d + 0x10000) % 0x40 == d % 0x40
  {
  }

  lemma PeriodOf64(x: nat)
    ensures (x + 0x40) % 0x40 == x % 0x40
  {
  }

  lemma PeriodOf16(x: nat)
    ensures (x + 0x400) % 0x10 == x % 0x10
  {
    assert x + 0x400 == (x / 0x10 + 0x40) * 0x10 + x % 0x10;
  }

  /** The six bytes of section 4.4.7 of the Java Virtual Machine Specification. */
  lemma SixBytes(v: nat)
    requires IsScalar(v) && v >= 0x10000
    ensures Encode(Utf16Char(v)) ==
            [0xed, 0xa0 + (v / 0x10000 - 1), 0x80 + v / 0x400 % 0x40, 0xed, 0xb0 + v / 0x40 % 0x10, 0x80 + v % 0x40]
  {
    var d := v - 0x10000;
    OffsetHigh(d);
    OffsetLow(d);
    PeriodOf64(d / 0x400);
    PeriodOf16(d / 0x40);
    SixBytesOfOffset(d);
  }

  lemma SixBytesOfOffset(d: nat)
    requires d < 0x100000
    ensures Encode(Utf16Char(d + 0x10000)) ==
            [0xed, 0xa0 + d / 0x10000, 0x80 + d / 0x400 % 0x40, 0xed, 0xb0 + d / 0x40 % 0x10, 0x80 + d % 0x40]
  {
    var u: CodeUnit, w: CodeUnit := 0xd800 + d / 0x400, 0xdc00 + d % 0x400;
    assert Utf16Char(d + 0x10000) == [u] + [w];
    EncodeJoins(u, [w]);
    SurrogateBytes(u);
    SurrogateBytes(w);
    HighDigits(d);
    LowDigits(d);
  }

  /** How many units lie in a range. */
  function CountIn(us: seq<CodeUnit>, low: nat, high: nat): nat {
    if us == [] then 0 else (if low <= us[0] <= high then 1 else 0) + CountIn(us[1..], low, high)
  }

  lemma LengthOfUnit(u: CodeUnit)
    ensures |EncodeUnit(u)| == if 1 <= u <= 0x7f then 1 else if u <= 0x7ff then 2 else 3
  {
    BytesOfUnit(u);
    EncodeCons([u]);
  }

  /** The exact length of an encoding, by the ranges of the units. */
  lemma {:induction false} EncodedLength(us: seq<CodeUnit>)
    ensures |Encode(us)| ==
            CountIn(us, 1, 0x7f) + 2 * (CountIn(us, 0, 0) + CountIn(us, 0x80, 0x7ff)) + 3 * CountIn(us, 0x800, 0xffff)
  {
    if us != [] {
      EncodedLength(us[1..]);
      EncodeCons(us);
      LengthOfUnit(us[0]);
    }
  }
}
