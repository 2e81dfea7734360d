/**
 * The shifts and masks of the string conversions, as they stand in the C sources, and the same values in
 * integer arithmetic. The loops compute with the methods at the end; the specifications are arithmetic.
 */
module BitOps {
  import opened Wrappers

  lemma Quotient64(x: int, q: int, r: int)
    requires 0 <= r < 64 && x == q * 64 + r
    ensures x / 64 == q && x % 64 == r
  {
  }

  lemma Quotient1024(x: int, q: int, r: int)
    requires 0 <= r < 1024 && x == q * 1024 + r
    ensures x / 1024 == q && x % 1024 == r
  {
  }

  lemma Quotient4096(x: int, q: int, r: int)
    requires 0 <= r < 4096 && x == q * 4096 + r
    ensures x / 4096 == q && x % 4096 == r
  {
  }

  // ---------------------------------------------------------------------------------------------
  // Encoder: bytes of a 16-bit unit
  // ---------------------------------------------------------------------------------------------

  lemma Split12(x: bv32)
    requires x < 0x10000
    ensures x as int == ((x >> 12) as int) * 4096 + (x & 0xfff) as int
    ensures (x & 0xfff) as int < 4096 && (x >> 12) as int < 16
    ensures ((x >> 12) | 0xe0) as int == (x >> 12) as int + 0xe0
  {
  }

  lemma Split6(x: bv32)
    requires x < 0x10000
    ensures x as int == ((x >> 6) as int) * 64 + (x & 0x3f) as int
    ensures (x & 0x3f) as int < 64 && (x >> 6) < 0x400
  {
  }

  lemma Tag(r: bv32)
    requires r < 64
    ensures (r | 0x80) as int == r as int + 0x80
    ensures r < 32 ==> (r | 0xc0) as int == r as int + 0xc0
  {
  }

  lemma MiddleBits(q: bv32)
    requires q < 0x400
    ensures q as int == ((q >> 6) as int) * 64 + (q & 0x3f) as int
    ensures (q & 0x3f) as int < 64
  {
  }

  lemma LeadOfThree(x: bv32)
    requires x < 0x10000
    ensures ((x >> 12) | 0xe0) as int == (x as int) / 4096 + 0xe0
  {
    Split12(x);
    Quotient4096(x as int, (x >> 12) as int, (x & 0xfff) as int);
  }

  lemma MiddleOfThree(x: bv32)
    requires x < 0x10000
    ensures (((x >> 6) & 0x3f) | 0x80) as int == (x as int) / 64 % 64 + 0x80
  {
    Split6(x);
    var q := x >> 6;
    Quotient64(x as int, q as int, (x & 0x3f) as int);
    MiddleBits(q);
    Quotient64(q as int, (q >> 6) as int, (q & 0x3f) as int);
    Tag(q & 0x3f);
  }

  lemma LastByte(x: bv32)
    requires x < 0x10000
    ensures ((x & 0x3f) | 0x80) as int == (x as int) % 64 + 0x80
  {
    Split6(x);
    Quotient64(x as int, (x >> 6) as int, (x & 0x3f) as int);
    Tag(x & 0x3f);
  }

  lemma LeadOfTwo(x: bv32)
    requires x < 0x800
    ensures ((x >> 6) | 0xc0) as int == (x as int) / 64 + 0xc0
  {
    Split6(x);
    Quotient64(x as int, (x >> 6) as int, (x & 0x3f) as int);
    Tag(x >> 6);
  }

  // ---------------------------------------------------------------------------------------------
  // Decoder: leader and extension bytes
  // ---------------------------------------------------------------------------------------------

  /** Bytes that start with bits "10". */
  lemma ExtensionByte(ch: bv8)
    ensures (ch & 0xc0) == 0x80 <==> 0x80 <= ch < 0xc0
  {
  }

  /** UTF8_SEQ_LENGTH is a table of lengths by leading bits, packed into 0xe5000000. */
  lemma SequenceLength(ch: bv8)
    ensures ((((0xe5000000 as bv32) >> ((ch >> 3) & 0x1e)) & 3) + 1) ==
            if ch < 0xc0 then 1 else if ch < 0xe0 then 2 else if ch < 0xf0 then 3 else 4
  {
  }

  /** What the leader masks 0xff, 0x1f, 0x0f and 0x07 leave of a byte. */
  lemma LeaderMask(ch: bv8)
    ensures (ch & 0xff) == ch
    ensures 0xc0 <= ch < 0xe0 ==> (ch & 0x1f) as int == ch as int - 0xc0
    ensures 0xe0 <= ch < 0xf0 ==> (ch & 0x0f) as int == ch as int - 0xe0
    ensures 0xf0 <= ch < 0xf8 ==> (ch & 0x07) as int == ch as int - 0xf0
    ensures 0xf8 <= ch ==> (ch & 0x07) as int == ch as int - 0xf8
  {
  }

  /** UTF8_SHIFT_AND_MASK: the accumulator never exceeds 21 bits. */
  lemma ShiftAndMask(ret: bv32, ch: bv8)
    requires ret < 0x8000 && 0x80 <= ch < 0xc0
    ensures ((ret << 6) | (0x3f & ch) as bv32) as int == (ret as int) * 64 + (ch as int - 0x80)
  {
  }

  lemma Split10(d: bv32)
    requires d < 0x100000
    ensures d as int == ((d >> 10) as int) * 1024 + (d & 0x3ff) as int
    ensures (d & 0x3ff) as int < 1024
    ensures (0xd800 | (d >> 10)) as int == 0xd800 + (d >> 10) as int
    ensures (0xdc00 | (d & 0x3ff)) as int == 0xdc00 + (d & 0x3ff) as int
  {
  }

  /** The offset of a value above 0xffff. */
  lemma Offset(ret: bv32)
    requires 0x10000 <= ret <= 0x10fffd
    ensures (ret - 0x10000) as int == ret as int - 0x10000 && ret - 0x10000 < 0x100000
  {
  }

  /** The surrogate pair of an offset. */
  lemma SurrogatePair(d: bv32)
    requires d < 0x100000
    ensures (0xd800 | (d >> 10)) as int == 0xd800 + (d as int) / 1024
    ensures (0xdc00 | (d & 0x3ff)) as int == 0xdc00 + (d as int) % 1024
  {
    Split10(d);
    Quotient1024(d as int, (d >> 10) as int, (d & 0x3ff) as int);
  }

  // ---------------------------------------------------------------------------------------------
  // Loading a byte and a unit into registers
  // ---------------------------------------------------------------------------------------------

  lemma Nibble(x: nat)
    requires x < 0x10
    ensures (x as bv8) as int == x && x as bv8 < 16
  {
  }

  lemma JoinNibbles(hi: bv8, lo: bv8)
    requires hi < 16 && lo < 16
    ensures ((hi << 4) | lo) as int == (hi as int) * 16 + lo as int
  {
  }

  lemma JoinBytes(hi: bv8, lo: bv8)
    ensures (((hi as bv32) << 8) | lo as bv32) as int == (hi as int) * 256 + lo as int
    ensures ((hi as bv32) << 8) | lo as bv32 < 0x10000
  {
  }

  method LoadByte(b: byte) returns (ch: bv8)
    ensures ch as int == b
  {
    Nibble(b / 16);
    Nibble(b % 16);
    JoinNibbles((b / 16) as bv8, (b % 16) as bv8);
    ch := (((b / 16) as bv8) << 4) | (b % 16) as bv8;
  }

  method LoadUnit(u: CodeUnit) returns (x: bv32)
    ensures x as int == u && x < 0x10000
  {
    var hi := LoadByte(u / 256);
    var lo := LoadByte(u % 256);
    JoinBytes(hi, lo);
    x := ((hi as bv32) << 8) | lo as bv32;
  }

  // ---------------------------------------------------------------------------------------------
  // The expressions, as the loops evaluate them
  // ---------------------------------------------------------------------------------------------

  method FirstOfThree(u: CodeUnit) returns (b: byte)
    ensures b == u / 4096 + 0xe0
  {
    var uic := LoadUnit(u);
    LeadOfThree(uic);
    b := ((uic >> 12) | 0xe0) as int;
  }

  method SecondOfThree(u: CodeUnit) returns (b: byte)
    ensures b == u / 64 % 64 + 0x80
  {
    var uic := LoadUnit(u);
    MiddleOfThree(uic);
    b := (((uic >> 6) & 0x3f) | 0x80) as int;
  }

  method LastOfAny(u: CodeUnit) returns (b: byte)
    ensures b == u % 64 + 0x80
  {
    var uic := LoadUnit(u);
    LastByte(uic);
    b := ((uic & 0x3f) | 0x80) as int;
  }

  lemma BelowTwoBytes(x: bv32)
    requires x as int < 0x800
    ensures x < 0x800
  {
  }

  method FirstOfTwo(u: CodeUnit) returns (b: byte)
    requires u < 0x800
    ensures b == u / 64 + 0xc0
  {
    var uic := LoadUnit(u);
    BelowTwoBytes(uic);
    LeadOfTwo(uic);
    b := ((uic >> 6) | 0xc0) as int;
  }

  method TestExtension(b: byte) returns (extension: bool)
    ensures extension <==> 0x80 <= b < 0xc0
  {
    var ch := LoadByte(b);
    ExtensionByte(ch);
    extension := (ch & 0xc0) == 0x80;
  }

  /** UTF8_SEQ_LENGTH. */
  method LookUpLength(b: byte) returns (seqLen: nat)
    ensures seqLen == if b < 0xc0 then 1 else if b < 0xe0 then 2 else if b < 0xf0 then 3 else 4
  {
    var ch := LoadByte(b);
    SequenceLength(ch);
    seqLen := ((((0xe5000000 as bv32) >> ((ch >> 3) & 0x1e)) & 3) + 1) as int;
  }

  const LEADER_MASK: seq<bv8> := [0xff, 0x1f, 0x0f, 0x07]

  lemma LeaderRemainder(ch: bv8)
    ensures 0xc0 <= ch as int < 0xe0 ==> (ch & 0x1f) as int == ch as int % 32
    ensures 0xe0 <= ch as int < 0xf0 ==> (ch & 0x0f) as int == ch as int % 16
    ensures 0xf0 <= ch as int ==> (ch & 0x07) as int == ch as int % 8
  {
    LeaderMask(ch);
  }

  method MaskLeader(b: byte, seqLen: nat) returns (ret: nat)
    requires seqLen == if b < 0xc0 then 1 else if b < 0xe0 then 2 else if b < 0xf0 then 3 else 4
    ensures ret == if seqLen == 1 then b else if seqLen == 2 then b % 32 else if seqLen == 3 then b % 16 else b % 8
  {
    var ch := LoadByte(b);
    LeaderMask(ch);
    LeaderRemainder(ch);
    ret := (ch & LEADER_MASK[seqLen - 1]) as int;
  }

  lemma ExtensionDigit(ret: bv32, ch: bv8)
    requires ret as int < 0x8000 && 0x80 <= ch as int < 0xc0
    ensures ret < 0x8000 && 0x80 <= ch < 0xc0 && ch as int % 64 == ch as int - 0x80
  {
  }

  /** UTF8_SHIFT_AND_MASK. */
  method AppendByte(ret: nat, b: byte) returns (next: nat)
    requires ret < 0x8000 && 0x80 <= b < 0xc0
    ensures next == ret * 64 + b % 64
  {
    var r := LoadUnit(ret);
    var ch := LoadByte(b);
    ExtensionDigit(r, ch);
    ShiftAndMask(r, ch);
    next := ((r << 6) | (0x3f & ch) as bv32) as int;
  }

  lemma JoinUnit(hi: bv8, lo: bv32)
    requires hi < 0x20 && lo < 0x10000
    ensures (((hi as bv32) << 16) | lo) as int == (hi as int) * 0x10000 + lo as int
    ensures hi as int >= 1 ==> ((hi as bv32) << 16) | lo >= 0x10000
  {
  }

  lemma BelowHex20(hi: bv8)
    requires hi as int < 0x20
    ensures hi < 0x20
  {
  }

  method LoadValue(ret: nat) returns (x: bv32)
    requires ret < 0x200000
    ensures x as int == ret && (ret >= 0x10000 ==> x >= 0x10000)
  {
    var hi := LoadByte(ret / 0x10000);
    var lo := LoadUnit(ret % 0x10000);
    BelowHex20(hi);
    JoinUnit(hi, lo);
    x := ((hi as bv32) << 16) | lo;
  }

  lemma ValueInRange(x: bv32)
    requires x as int <= 0x10fffd
    ensures x <= 0x10fffd
  {
  }

  /** The value above 0xffff that a surrogate pair holds. */
  method LoadOffset(ret: nat) returns (d: bv32)
    requires 0x10000 <= ret <= 0x10fffd
    ensures d as int == ret - 0x10000 && d < 0x100000
  {
    var x := LoadValue(ret);
    ValueInRange(x);
    Offset(x);
    d := x - 0x10000;
  }

  method HighSurrogate(ret: nat) returns (u: CodeUnit)
    requires 0x10000 <= ret <= 0x10fffd
    ensures u == 0xd800 + (ret - 0x10000) / 1024
  {
    var d := LoadOffset(ret);
    SurrogatePair(d);
    u := (0xd800 | (d >> 10)) as int;
  }

  method LowSurrogate(ret: nat) returns (u: CodeUnit)
    requires 0x10000 <= ret <= 0x10fffd
    ensures u == 0xdc00 + (ret - 0x10000) % 1024
  {
    var d := LoadOffset(ret);
    SurrogatePair(d);
    u := (0xdc00 | (d & 0x3ff)) as int;
  }
}
