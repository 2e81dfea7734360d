/**
 * The two conversions together: round trips, and what the decoder makes of standard UTF-8.
 */
module StringRoundTrip {
  import opened Wrappers
  import opened Utf16To8
  import opened Utf8To16

  // ---------------------------------------------------------------------------------------------
  // Decoding does not look back
  // ---------------------------------------------------------------------------------------------

  function Moved(d: Decoded, n: nat): Decoded {
    Decoded(d.value, n + d.next)
  }

  lemma {:induction false} ExtendMoved(pre: seq<byte>, s: seq<byte>, i: nat, need: nat, ret: nat)
    requires i <= |s|
    ensures Extend(pre + s, |pre| + i, need, ret) == Moved(Extend(s, i, need, ret), |pre|)
    decreases need
  {
    assert At(pre + s, |pre| + i) == At(s, i);
    if need > 0 && IsExtension(At(s, i)) {
      ExtendMoved(pre, s, i + 1, need - 1, ret * 64 + At(s, i) % 64);
    }
  }

  lemma NextMoved(pre: seq<byte>, s: seq<byte>, i: nat)
    requires i < |s|
    ensures Next(pre + s, |pre| + i) == Moved(Next(s, i), |pre|)
  {
    if !IsExtension(s[i]) {
      ExtendMoved(pre, s, i + 1, SeqLength(s[i]) - 1, LeaderBits(s[i]));
    }
  }

  lemma {:induction false} DecodeMoved(pre: seq<byte>, s: seq<byte>, i: nat)
    requires i <= |s|
    ensures DecodeFrom(pre + s, |pre| + i) == DecodeFrom(s, i)
    decreases |s| - i
  {
    if i < |s| {
      NextMoved(pre, s, i);
      DecodeMoved(pre, s, Next(s, i).next);
    }
  }

  /** A string that starts with the complete bytes of one value decodes to its units and the rest. */
  lemma DecodeCons(bytes: seq<byte>, rest: seq<byte>, value: nat)
    requires bytes != [] && Next(bytes + rest, 0) == Decoded(value, |bytes|)
    ensures Decode(bytes + rest) == Units(value) + Decode(rest)
  {
    DecodeMoved(bytes, rest, 0);
  }

  // ---------------------------------------------------------------------------------------------
  // UTF-16 to modified UTF-8 and back
  // ---------------------------------------------------------------------------------------------

  lemma {:induction false} EncodeFirstCons(us: seq<CodeUnit>, n: nat)
    requires 1 <= n <= |us|
    ensures EncodeFirst(us, n) == EncodeUnit(us[0]) + EncodeFirst(us[1..], n - 1)
  {
    if n > 1 {
      EncodeFirstCons(us, n - 1);
    }
  }

  lemma EncodeCons(us: seq<CodeUnit>)
    requires us != []
    ensures Encode(us) == EncodeUnit(us[0]) + Encode(us[1..])
  {
    EncodeFirstCons(us, |us|);
  }

  /** The digits of a value to the base 64. */
  lemma Digits(v: nat)
    ensures v == v / 64 * 64 + v % 64
    ensures v / 64 == v / 4096 * 64 + v / 64 % 64
    ensures v / 4096 == v / 262144 * 64 + v / 4096 % 64
  {
  }

  predicate IsDigit(s: seq<byte>, i: nat, digit: nat) {
    i < |s| && digit < 64 && s[i] == 0x80 + digit
  }

  lemma ExtendMore(s: seq<byte>, i: nat, need: nat, ret: nat, digit: nat)
    requires IsDigit(s, i, digit) && need > 0
    ensures Extend(s, i, need, ret) == Extend(s, i + 1, need - 1, ret * 64 + digit)
  {
  }

  lemma TwoBytes(s: seq<byte>, a: nat, b: nat)
    requires a < 32 && |s| >= 2 && s[0] == 0xc0 + a && IsDigit(s, 1, b)
    ensures Next(s, 0) == Decoded(a * 64 + b, 2)
  {
    ExtendMore(s, 1, 1, a, b);
  }

  lemma ThreeBytes(s: seq<byte>, a: nat, b: nat, c: nat)
    requires a < 16 && |s| >= 3 && s[0] == 0xe0 + a && IsDigit(s, 1, b) && IsDigit(s, 2, c)
    ensures Next(s, 0) == Decoded((a * 64 + b) * 64 + c, 3)
  {
    ExtendMore(s, 1, 2, a, b);
    ExtendMore(s, 2, 1, a * 64 + b, c);
  }

  lemma FourBytes(s: seq<byte>, a: nat, b: nat, c: nat, d: nat)
    requires a < 8 && |s| >= 4 && s[0] == 0xf0 + a && IsDigit(s, 1, b) && IsDigit(s, 2, c) && IsDigit(s, 3, d)
    ensures Next(s, 0) == Decoded(((a * 64 + b) * 64 + c) * 64 + d, 4)
  {
    ExtendMore(s, 1, 3, a, b);
    ExtendMore(s, 2, 2, a * 64 + b, c);
    ExtendMore(s, 3, 1, (a * 64 + b) * 64 + c, d);
  }

  lemma DecodeUnit(u: CodeUnit, rest: seq<byte>)
    ensures Next(EncodeUnit(u) + rest, 0) == Decoded(u, |EncodeUnit(u)|)
  {
    var s := EncodeUnit(u) + rest;
    Digits(u);
    if u > 0x07ff {
      ThreeBytes(s, u / 4096, u / 64 % 64, u % 64);
    } else if u > 0x7f || u == 0 {
      TwoBytes(s, u / 64, u % 64);
    }
  }

  /** Every sequence of units, with zeros and unpaired surrogates too, comes back unchanged. */
  lemma {:induction false} RoundTrip(us: seq<CodeUnit>)
    ensures Decode(Encode(us)) == us
  {
    if us != [] {
      EncodeCons(us);
      DecodeUnit(us[0], Encode(us[1..]));
      DecodeCons(EncodeUnit(us[0]), Encode(us[1..]), us[0]);
      RoundTrip(us[1..]);
    }
  }

  lemma EncodeInjective(us: seq<CodeUnit>, vs: seq<CodeUnit>)
    requires Encode(us) == Encode(vs)
    ensures us == vs
  {
    RoundTrip(us);
    RoundTrip(vs);
  }

  lemma {:induction false} EncodeHasNoFourByteLeader(us: seq<CodeUnit>, n: nat)
    requires n <= |us|
    ensures forall k :: 0 <= k < |EncodeFirst(us, n)| ==> EncodeFirst(us, n)[k] < 0xf0
  {
    if n > 0 {
      EncodeHasNoFourByteLeader(us, n - 1);
    }
  }

  /** The encoding is a C string, and both lengths are exact on it. */
  lemma EncodeLengthsAgree(us: seq<CodeUnit>)
    ensures IsCString(Encode(us))
    ensures LengthFrom(Encode(us), 0, 0) == |us|
  {
    EncodeFirstBytes(us, |us|);
    EncodeHasNoFourByteLeader(us, |us|);
    RoundTrip(us);
    LengthFits(Encode(us));
  }

  // ---------------------------------------------------------------------------------------------
  // Standard UTF-8
  // ---------------------------------------------------------------------------------------------

  /** A Unicode scalar value other than the terminator. */
  predicate IsScalar(v: nat) {
    1 <= v <= 0x10ffff && !(0xd800 <= v <= 0xdfff)
  }

  /** Section 3 of RFC 3629. */
  function Utf8Char(v: nat): (bytes: seq<byte>)
    requires IsScalar(v)
    ensures bytes != [] && IsCString(bytes)
  {
    if v < 0x80 then [v]
    else if v < 0x800 then [0xc0 + v / 0x40, 0x80 + v % 0x40]
    else if v < 0x10000 then [0xe0 + v / 0x1000, 0x80 + v / 0x40 % 0x40, 0x80 + v % 0x40]
    else [0xf0 + v / 0x40000, 0x80 + v / 0x1000 % 0x40, 0x80 + v / 0x40 % 0x40, 0x80 + v % 0x40]
  }

  /** Section 2.1 of RFC 2781. */
  function Utf16Char(v: nat): (us: seq<CodeUnit>)
    requires IsScalar(v)
    ensures |us| == if v < 0x10000 then 1 else 2
  {
    if v < 0x10000 then [v] else [0xd800 + (v - 0x10000) / 0x400, 0xdc00 + (v - 0x10000) % 0x400]
  }

  predicate AreScalars(vs: seq<nat>) {
    forall k :: 0 <= k < |vs| ==> IsScalar(vs[k])
  }

  function Utf8(vs: seq<nat>): (s: seq<byte>)
    requires AreScalars(vs)
    ensures IsCString(s)
  {
    if vs == [] then [] else Utf8Char(vs[0]) + Utf8(vs[1..])
  }

  function Utf16(vs: seq<nat>): (us: seq<CodeUnit>)
    requires AreScalars(vs)
  {
    if vs == [] then [] else Utf16Char(vs[0]) + Utf16(vs[1..])
  }

  lemma DecodeScalar(v: nat, rest: seq<byte>)
    requires IsScalar(v)
    ensures Next(Utf8Char(v) + rest, 0) == Decoded(v, |Utf8Char(v)|)
  {
    var s := Utf8Char(v) + rest;
    Digits(v);
    if v >= 0x10000 {
      FourBytes(s, v / 0x40000, v / 0x1000 % 0x40, v / 0x40 % 0x40, v % 0x40);
    } else if v >= 0x800 {
      ThreeBytes(s, v / 0x1000, v / 0x40 % 0x40, v % 0x40);
    } else if v >= 0x80 {
      TwoBytes(s, v / 0x40, v % 0x40);
    }
  }

  /** How many values of a string lie above the decoder's limit. */
  function AboveLimit(vs: seq<nat>): (n: nat)
    ensures n == 0 <==> forall k :: 0 <= k < |vs| ==> vs[k] <= UNICODE_UPPER_LIMIT
  {
    if vs == [] then 0 else (if vs[0] > UNICODE_UPPER_LIMIT then 1 else 0) + AboveLimit(vs[1..])
  }

  lemma {:induction false} DecodeUtf8(vs: seq<nat>)
    requires AreScalars(vs)
    ensures |Decode(Utf8(vs))| + AboveLimit(vs) == |Utf16(vs)|
    ensures AboveLimit(vs) == 0 ==> Decode(Utf8(vs)) == Utf16(vs)
  {
    if vs != [] {
      DecodeScalar(vs[0], Utf8(vs[1..]));
      DecodeCons(Utf8Char(vs[0]), Utf8(vs[1..]), vs[0]);
      DecodeUtf8(vs[1..]);
    }
  }

  lemma {:induction false} LengthMoved(pre: seq<byte>, s: seq<byte>, i: nat, expected: int)
    requires i <= |s|
    ensures LengthFrom(pre + s, |pre| + i, expected) == LengthFrom(s, i, expected)
    decreases |s| - i
  {
    if i < |s| {
      LengthMoved(pre, s, i + 1, if IsExtension(s[i]) then expected - 1 else SeqLength(s[i]) - 1);
    }
  }

  /** Expected extension bytes cost nothing. */
  lemma {:induction false} LengthSkips(s: seq<byte>, i: nat, n: nat)
    requires i + n <= |s| && forall k :: i <= k < i + n ==> IsExtension(s[k])
    ensures LengthFrom(s, i, n) == LengthFrom(s, i + n, 0)
    decreases n
  {
    if n > 0 {
      LengthSkips(s, i + 1, n - 1);
    }
  }

  /** The length pass is exact on standard UTF-8, whatever values it holds. */
  lemma {:induction false} LengthOfUtf8(vs: seq<nat>)
    requires AreScalars(vs)
    ensures LengthFrom(Utf8(vs), 0, 0) == |Utf16(vs)|
  {
    if vs != [] {
      var bytes, rest := Utf8Char(vs[0]), Utf8(vs[1..]);
      LengthOfUtf8(vs[1..]);
      LengthSkips(bytes + rest, 1, |bytes| - 1);
      LengthMoved(bytes, rest, 0, 0);
    }
  }

  /**
   * Standard UTF-8 decodes to standard UTF-16 exactly when it holds neither U+10FFFE nor U+10FFFF: the
   * upper limit of the source is two too low.
   */
  lemma StandardUtf8(vs: seq<nat>)
    requires AreScalars(vs)
    ensures Decode(Utf8(vs)) == Utf16(vs) <==> forall k :: 0 <= k < |vs| ==> vs[k] <= UNICODE_UPPER_LIMIT
  {
    DecodeUtf8(vs);
  }

  /** The six-byte form, two encoded surrogates for one value, decodes to the same units without exception. */
  lemma SixByteForm(vs: seq<nat>)
    requires AreScalars(vs)
    ensures Decode(Encode(Utf16(vs))) == Utf16(vs)
    ensures (forall k :: 0 <= k < |vs| ==> vs[k] <= UNICODE_UPPER_LIMIT) ==> Decode(Encode(Utf16(vs))) == Decode(Utf8(vs))
  {
    RoundTrip(Utf16(vs));
    StandardUtf8(vs);
  }
}
