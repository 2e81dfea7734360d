/** The satellite blacklist: lists of satellites, one bit mask per constellation, and the way between them. */
module SvBlacklist {

  // ---------------------------------------------------------------------------------------------
  // Bits
  // ---------------------------------------------------------------------------------------------

  predicate Bit(m: nat, i: nat) {
    if i == 0 then m % 2 == 1 else Bit(m / 2, i - 1)
  }

  /** The bitwise or. */
  function Or(a: nat, b: nat): nat {
    if a == 0 then b
    else if b == 0 then a
    else 2 * Or(a / 2, b / 2) + if a % 2 == 1 || b % 2 == 1 then 1 else 0
  }

  function Shl(m: nat, k: nat): nat {
    if k == 0 then m else 2 * Shl(m, k - 1)
  }

  function Ones(k: nat): nat {
    if k == 0 then 0 else 2 * Ones(k - 1) + 1
  }

  lemma {:induction false} ZeroHasNoBit(i: nat)
    ensures !Bit(0, i)
  {
    if i > 0 {
      ZeroHasNoBit(i - 1);
    }
  }

  lemma {:induction false} OrBit(a: nat, b: nat, i: nat)
    ensures Bit(Or(a, b), i) <==> Bit(a, i) || Bit(b, i)
  {
    ZeroHasNoBit(i);
    if a != 0 && b != 0 && i > 0 {
      OrBit(a / 2, b / 2, i - 1);
      assert Or(a, b) / 2 == Or(a / 2, b / 2);
    }
  }

  lemma {:induction false} ShlBit(m: nat, k: nat, i: nat)
    ensures Bit(Shl(m, k), i) <==> i >= k && Bit(m, i - k)
  {
    if k > 0 && i > 0 {
      ShlBit(m, k - 1, i - 1);
      assert Shl(m, k) / 2 == Shl(m, k - 1);
    }
  }

  lemma {:induction false} OnesBit(k: nat, i: nat)
    ensures Bit(Ones(k), i) <==> i < k
  {
    if k == 0 {
      ZeroHasNoBit(i);
    } else if i > 0 {
      OnesBit(k - 1, i - 1);
      assert Ones(k) / 2 == Ones(k - 1);
    }
  }

  /** A mask is its set of bits. */
  lemma {:induction false} BitsDetermine(a: nat, b: nat)
    requires forall i: nat :: Bit(a, i) <==> Bit(b, i)
    ensures a == b
    decreases a + b
  {
    if a != b {
      assert Bit(a, 0) <==> Bit(b, 0);
      forall i: nat ensures Bit(a / 2, i) <==> Bit(b / 2, i) {
        assert Bit(a, i + 1) <==> Bit(b, i + 1);
      }
      BitsDetermine(a / 2, b / 2);
    }
  }

  lemma {:induction false} NarrowBits(m: nat, k: nat, i: nat)
    requires m <= Ones(k) && Bit(m, i)
    ensures i < k
  {
    if k == 0 {
      ZeroHasNoBit(i);
    } else if i > 0 {
      NarrowBits(m / 2, k - 1, i - 1);
    }
  }

  lemma {:induction false} SomeBit(m: nat) returns (i: nat)
    requires m > 0
    ensures Bit(m, i)
  {
    if m % 2 == 1 {
      i := 0;
    } else {
      var j := SomeBit(m / 2);
      i := j + 1;
    }
  }

  lemma {:induction false} OrFits(a: nat, b: nat, k: nat)
    requires a <= Ones(k) && b <= Ones(k)
    ensures Or(a, b) <= Ones(k)
  {
    if a != 0 && b != 0 {
      OrFits(a / 2, b / 2, k - 1);
    }
  }

  // ---------------------------------------------------------------------------------------------
  // Satellites and masks
  // ---------------------------------------------------------------------------------------------

  const ALL_BITS := 0xFFFF_FFFF_FFFF_FFFF

  /** `Unlisted` stands for the constellations that have no mask. */
  datatype Constellation = Glonass | Beidou | Qzss | Galileo | Unlisted

  function Initial(c: Constellation): nat {
    match c
    case Glonass => 65
    case Beidou => 201
    case Qzss => 193
    case Galileo => 301
    case Unlisted => 0
  }

  datatype Sv = Sv(constellation: Constellation, id: nat)

  datatype Masks = Masks(glo: nat, bds: nat, qzss: nat, gal: nat) {
    function At(c: Constellation): nat {
      match c
      case Glonass => glo
      case Beidou => bds
      case Qzss => qzss
      case Galileo => gal
      case Unlisted => 0
    }

    function Put(c: Constellation, m: nat): Masks {
      match c
      case Glonass => Masks(m, bds, qzss, gal)
      case Beidou => Masks(glo, m, qzss, gal)
      case Qzss => Masks(glo, bds, m, gal)
      case Galileo => Masks(glo, bds, qzss, m)
      case Unlisted => this
    }

    predicate Fits() {
      glo <= ALL_BITS && bds <= ALL_BITS && qzss <= ALL_BITS && gal <= ALL_BITS
    }
  }

  const NO_MASKS := Masks(0, 0, 0, 0)

  /** Identifier 0 stands for all satellites of a constellation. */
  predicate IsValid(s: Sv) {
    s.constellation != Unlisted && (s.id == 0 || Initial(s.constellation) <= s.id < Initial(s.constellation) + 64)
  }

  /**
   * `1 << n` as an int, converted to 64 bits: 31 reaches the sign bit, which is extended. For 32 and more
   * the shift is not defined.
   */
  function IntShift(n: nat): nat
    requires n < 32
  {
    if n < 31 then Shl(1, n) else 0xFFFF_FFFF_8000_0000
  }

  lemma EightBits(m: nat, k: nat)
    ensures Shl(m, k + 8) == 256 * Shl(m, k) && Ones(k + 8) == 256 * Ones(k) + 255
  {
    assert Shl(m, k + 8) == 16 * Shl(m, k + 4) by { assert Shl(m, k + 6) == 4 * Shl(m, k + 4); }
    assert Shl(m, k + 4) == 16 * Shl(m, k) by { assert Shl(m, k + 2) == 4 * Shl(m, k); }
    assert Ones(k + 8) == 16 * Ones(k + 4) + 15 by { assert Ones(k + 6) == 4 * Ones(k + 4) + 3; }
    assert Ones(k + 4) == 16 * Ones(k) + 15 by { assert Ones(k + 2) == 4 * Ones(k) + 3; }
  }

  /** The constants of the source, as bits; the widths are counted from a variable zero. */
  lemma AllBits(z: nat)
    requires z == 0
    ensures Ones(z + 64) == ALL_BITS
  {
    EightBits(0, z); EightBits(0, z + 8); EightBits(0, z + 16); EightBits(0, z + 24);
    EightBits(0, z + 32); EightBits(0, z + 40); EightBits(0, z + 48); EightBits(0, z + 56);
  }

  lemma SignBits(z: nat)
    requires z == 0
    ensures Shl(Ones(z + 33), z + 31) == 0xFFFF_FFFF_8000_0000
  {
    EightBits(0, z + 1); EightBits(0, z + 9); EightBits(0, z + 17); EightBits(0, z + 25);
    assert Ones(z + 1) == 1;
    var m := Ones(z + 33);
    EightBits(m, z + 7); EightBits(m, z + 15); EightBits(m, z + 23);
    assert Shl(m, z + 1) == 2 * m;
    assert Shl(m, z + 3) == 8 * m;
    assert Shl(m, z + 5) == 32 * m;
    assert Shl(m, z + 7) == 128 * m;
  }

  lemma {:induction false} ShlNarrow(n: nat, k: nat)
    requires n < k
    ensures Shl(1, n) <= Ones(k)
  {
    if n > 0 {
      ShlNarrow(n - 1, k - 1);
    }
  }

  lemma IntShiftBit(n: nat, i: nat)
    requires n < 32
    ensures Bit(IntShift(n), i) <==> i == n || (n == 31 && 31 <= i < 64)
    ensures IntShift(n) <= ALL_BITS
  {
    var z := 0;
    AllBits(z);
    if n < 31 {
      ShlBit(1, n, i);
      ShlNarrow(n, z + 64);
      if i > n {
        ZeroHasNoBit(i - n - 1);
      }
    } else {
      SignBits(z);
      ShlBit(Ones(z + 33), z + 31, i);
      if i >= 31 {
        OnesBit(z + 33, i - 31);
      }
    }
  }

  /** What the compiled code has for any shift: `wide` stands for its values where the language defines none. */
  function Shift(wide: nat -> nat, n: nat): nat {
    if n < 32 then IntShift(n) else wide(n)
  }

  /** The shift for a satellite is defined. */
  predicate IsDefined(s: Sv) {
    IsValid(s) && s.id != 0 ==> s.id - Initial(s.constellation) < 32
  }

  predicate AllDefined(ss: seq<Sv>) {
    forall k :: 0 <= k < |ss| ==> IsDefined(ss[k])
  }

  /** One satellite enters its mask; an invalid one enters none. */
  function Enter(wide: nat -> nat, m: Masks, s: Sv): Masks {
    var c := s.constellation;
    if !IsValid(s) then m
    else if s.id == 0 then m.Put(c, ALL_BITS)
    else m.Put(c, Or(m.At(c), Shift(wide, s.id - Initial(c))))
  }

  /** The masks after the first n satellites. */
  function MasksOf(wide: nat -> nat, m: Masks, ss: seq<Sv>, n: nat): Masks
    requires n <= |ss|
  {
    if n == 0 then m else Enter(wide, MasksOf(wide, m, ss, n - 1), ss[n - 1])
  }

  /** An empty list clears the masks; any other one is added to what they hold. */
  function ToMasks(wide: nat -> nat, m: Masks, ss: seq<Sv>): Masks {
    if ss == [] then NO_MASKS else MasksOf(wide, m, ss, |ss|)
  }

  // ---------------------------------------------------------------------------------------------
  // From a mask to a list
  // ---------------------------------------------------------------------------------------------

  function BitsFrom(mask: nat, bit: nat, c: Constellation): seq<Sv> {
    if mask == 0 then []
    else (if mask % 2 == 1 then [Sv(c, bit + Initial(c))] else []) + BitsFrom(mask / 2, bit + 1, c)
  }

  function ListOf(mask: nat, c: Constellation): seq<Sv> {
    if mask == ALL_BITS then [Sv(c, 0)] else BitsFrom(mask, 0, c)
  }

  /** The four lists in the order in which they are made. */
  function ToList(m: Masks): seq<Sv> {
    ListOf(m.bds, Beidou) + ListOf(m.gal, Galileo) + ListOf(m.glo, Glonass) + ListOf(m.qzss, Qzss)
  }

  // ---------------------------------------------------------------------------------------------
  // The loops
  // ---------------------------------------------------------------------------------------------

  method ConvertToGnssSvIdConfig(blacklisted: seq<Sv>, config: Masks, wide: nat -> nat) returns (retVal: bool, masks: Masks)
    ensures masks == ToMasks(wide, config, blacklisted)
    ensures retVal <==> blacklisted == [] || masks != NO_MASKS
  {
    masks, retVal := config, false;
    if |blacklisted| == 0 {
      masks, retVal := NO_MASKS, true;
    } else {
      for i := 0 to |blacklisted|
        invariant masks == MasksOf(wide, config, blacklisted, i)
      {
        var source := blacklisted[i];
        var c := source.constellation;
        if c != Unlisted {
          if source.id == 0 {
            masks := masks.Put(c, ALL_BITS);
          } else if source.id < Initial(c) || source.id >= Initial(c) + 64 {
          } else {
            masks := masks.Put(c, Or(masks.At(c), Shift(wide, source.id - Initial(c))));
          }
        }
      }
      if masks.glo != 0 || masks.bds != 0 || masks.gal != 0 || masks.qzss != 0 {
        retVal := true;
      }
    }
  }

  method ConvertGnssSvIdMaskToList(svIdMask: nat, svIds: seq<Sv>, c: Constellation) returns (r: seq<Sv>)
    ensures r == svIds + ListOf(svIdMask, c)
  {
    r := svIds;
    if svIdMask == ALL_BITS {
      return r + [Sv(c, 0)];
    }
    var mask, bitNumber := svIdMask, 0;
    while mask > 0
      invariant r + BitsFrom(mask, bitNumber, c) == svIds + BitsFrom(svIdMask, 0, c)
    {
      if mask % 2 == 1 {
        r := r + [Sv(c, bitNumber + Initial(c))];
      }
      bitNumber := bitNumber + 1;
      mask := mask / 2;
    }
  }

  /** One constellation, when it has a bit set. */
  method AppendMask(svIdMask: nat, svIds: seq<Sv>, flag: bool, c: Constellation) returns (r: seq<Sv>, raised: bool)
    ensures r == svIds + ListOf(svIdMask, c)
    ensures raised <==> flag || svIdMask != 0
  {
    r, raised := svIds, flag;
    if svIdMask != 0 {
      r := ConvertGnssSvIdMaskToList(svIdMask, svIds, c);
      raised := true;
    }
  }

  /** The flag is raised when some satellite is listed. */
  method ConvertFromGnssSvIdConfig(m: Masks, svIds: seq<Sv>, flag: bool) returns (r: seq<Sv>, raised: bool)
    ensures r == svIds + ToList(m)
    ensures raised <==> flag || m != NO_MASKS
  {
    var r1, f1 := AppendMask(m.bds, svIds, flag, Beidou);
    var r2, f2 := AppendMask(m.gal, r1, f1, Galileo);
    var r3, f3 := AppendMask(m.glo, r2, f2, Glonass);
    r, raised := AppendMask(m.qzss, r3, f3, Qzss);
  }
}
