/** Lists and masks of the satellite blacklist mean the same satellites, and exactly when. */
module SvRoundTrip {
  import opened SvBlacklist

  // ---------------------------------------------------------------------------------------------
  // What lists mean
  // ---------------------------------------------------------------------------------------------

  /** An entry for the satellite at an offset, or for the whole constellation. */
  predicate Names(s: Sv, c: Constellation, o: nat) {
    s.constellation == c && (s.id == 0 || s.id == Initial(c) + o)
  }

  /** One of the first n entries names the satellite. */
  predicate NamedIn(ss: seq<Sv>, n: nat, c: Constellation, o: nat)
    requires n <= |ss|
  {
    exists k :: 0 <= k < n && Names(ss[k], c, o)
  }

  predicate Blocked(ss: seq<Sv>, c: Constellation, o: nat) {
    NamedIn(ss, |ss|, c, o)
  }

  /** A satellite with a mask. */
  predicate IsSatellite(c: Constellation, o: nat) {
    c != Unlisted && o < 64
  }

  /** The list names the satellite at the sign bit of the shift, and not the whole constellation. */
  predicate Spills(ss: seq<Sv>, c: Constellation) {
    c != Unlisted && Sv(c, Initial(c) + 31) in ss && Sv(c, 0) !in ss
  }

  // ---------------------------------------------------------------------------------------------
  // From a list to masks
  // ---------------------------------------------------------------------------------------------

  lemma AllBit(o: nat)
    ensures Bit(ALL_BITS, o) <==> o < 64
  {
    var z := 0;
    AllBits(z);
    OnesBit(z + 64, o);
  }

  lemma EnterBit(wide: nat -> nat, m: Masks, s: Sv, c: Constellation, o: nat)
    requires IsDefined(s) && IsSatellite(c, o)
    ensures Bit(Enter(wide, m, s).At(c), o) <==>
            Bit(m.At(c), o) || Names(s, c, o) || (s == Sv(c, Initial(c) + 31) && 31 <= o)
  {
    AllBit(o);
    if IsValid(s) && s.id != 0 && s.constellation == c {
      var n := s.id - Initial(c);
      OrBit(m.At(c), IntShift(n), o);
      IntShiftBit(n, o);
    }
  }

  /** The masks hold the named satellites, what was there before, and what the sign bit spills. */
  lemma {:induction false} MasksBit(wide: nat -> nat, m: Masks, ss: seq<Sv>, n: nat, c: Constellation, o: nat)
    requires n <= |ss| && AllDefined(ss) && IsSatellite(c, o)
    ensures Bit(MasksOf(wide, m, ss, n).At(c), o) <==>
            Bit(m.At(c), o) || NamedIn(ss, n, c, o) || (31 <= o && Sv(c, Initial(c) + 31) in ss[..n])
  {
    if n > 0 {
      MasksBit(wide, m, ss, n - 1, c, o);
      EnterBit(wide, MasksOf(wide, m, ss, n - 1), ss[n - 1], c, o);
      assert ss[..n] == ss[..n - 1] + [ss[n - 1]];
    }
  }

  lemma EnterFits(wide: nat -> nat, m: Masks, s: Sv)
    requires m.Fits() && IsDefined(s)
    ensures Enter(wide, m, s).Fits()
  {
    if IsValid(s) && s.id != 0 {
      var c, z := s.constellation, 0;
      AllBits(z);
      IntShiftBit(s.id - Initial(c), 0);
      OrFits(m.At(c), IntShift(s.id - Initial(c)), z + 64);
    }
  }

  lemma {:induction false} MasksFit(wide: nat -> nat, m: Masks, ss: seq<Sv>, n: nat)
    requires n <= |ss| && AllDefined(ss) && m.Fits()
    ensures MasksOf(wide, m, ss, n).Fits()
  {
    if n > 0 {
      MasksFit(wide, m, ss, n - 1);
      EnterFits(wide, MasksOf(wide, m, ss, n - 1), ss[n - 1]);
    }
  }

  /** The masks of a list, for callers that clear the masks first. */
  lemma ToMasksBit(wide: nat -> nat, ss: seq<Sv>, c: Constellation, o: nat)
    requires AllDefined(ss) && IsSatellite(c, o)
    ensures ToMasks(wide, NO_MASKS, ss).Fits()
    ensures Bit(ToMasks(wide, NO_MASKS, ss).At(c), o) <==> Blocked(ss, c, o) || (31 <= o && Sv(c, Initial(c) + 31) in ss)
  {
    MasksBit(wide, NO_MASKS, ss, |ss|, c, o);
    MasksFit(wide, NO_MASKS, ss, |ss|);
    ZeroHasNoBit(o);
    assert ss[..|ss|] == ss;
  }

  // ---------------------------------------------------------------------------------------------
  // From masks to a list
  // ---------------------------------------------------------------------------------------------

  lemma {:induction false} BitsFromHas(mask: nat, bit: nat, c: Constellation, s: Sv)
    ensures s in BitsFrom(mask, bit, c) <==>
            s.constellation == c && s.id >= bit + Initial(c) && Bit(mask, s.id - bit - Initial(c))
  {
    if mask == 0 {
      if s.id >= bit + Initial(c) {
        ZeroHasNoBit(s.id - bit - Initial(c));
      }
    } else {
      BitsFromHas(mask / 2, bit + 1, c, s);
    }
  }

  /** In the order of the constellations, and ascending in each. */
  function Rank(c: Constellation): nat {
    match c
    case Beidou => 0
    case Galileo => 1
    case Glonass => 2
    case Qzss => 3
    case Unlisted => 4
  }

  predicate Below(a: Sv, b: Sv) {
    Rank(a.constellation) < Rank(b.constellation) || (a.constellation == b.constellation && a.id < b.id)
  }

  predicate Ascending(ss: seq<Sv>) {
    forall i, j :: 0 <= i < j < |ss| ==> Below(ss[i], ss[j])
  }

  lemma JoinAscending(a: seq<Sv>, b: seq<Sv>)
    requires Ascending(a) && Ascending(b)
    requires forall s, t :: s in a && t in b ==> Below(s, t)
    ensures Ascending(a + b)
  {
    forall i, j | 0 <= i < j < |a + b| ensures Below((a + b)[i], (a + b)[j]) {
      if i < |a| <= j {
        assert (a + b)[i] in a && (a + b)[j] in b;
      }
    }
  }

  lemma {:induction false} BitsAscend(mask: nat, bit: nat, c: Constellation)
    ensures Ascending(BitsFrom(mask, bit, c))
  {
    if mask > 0 {
      BitsAscend(mask / 2, bit + 1, c);
      var first := if mask % 2 == 1 then [Sv(c, bit + Initial(c))] else [];
      forall s, t | s in first && t in BitsFrom(mask / 2, bit + 1, c) ensures Below(s, t) {
        BitsFromHas(mask / 2, bit + 1, c, t);
      }
      JoinAscending(first, BitsFrom(mask / 2, bit + 1, c));
    }
  }

  lemma {:induction false} ListHas(mask: nat, c: Constellation, s: Sv)
    ensures s in ListOf(mask, c) <==>
            s.constellation == c &&
            if mask == ALL_BITS then s.id == 0 else s.id >= Initial(c) && Bit(mask, s.id - Initial(c))
  {
    if mask != ALL_BITS {
      BitsFromHas(mask, 0, c, s);
    }
  }

  lemma {:induction false} ListAscends(mask: nat, c: Constellation)
    ensures Ascending(ListOf(mask, c))
  {
    if mask != ALL_BITS {
      BitsAscend(mask, 0, c);
    }
  }

  lemma ToListHas(m: Masks, s: Sv)
    ensures s in ToList(m) <==> s.constellation != Unlisted && s in ListOf(m.At(s.constellation), s.constellation)
  {
    ListHas(m.bds, Beidou, s);
    ListHas(m.gal, Galileo, s);
    ListHas(m.glo, Glonass, s);
    ListHas(m.qzss, Qzss, s);
  }

  lemma ToListAscends(m: Masks)
    ensures Ascending(ToList(m))
  {
    var a, b, c, d := ListOf(m.bds, Beidou), ListOf(m.gal, Galileo), ListOf(m.glo, Glonass), ListOf(m.qzss, Qzss);
    forall s
      ensures (s in a ==> s.constellation == Beidou) && (s in b ==> s.constellation == Galileo)
      ensures (s in c ==> s.constellation == Glonass) && (s in d ==> s.constellation == Qzss)
    {
      ListHas(m.bds, Beidou, s);
      ListHas(m.gal, Galileo, s);
      ListHas(m.glo, Glonass, s);
      ListHas(m.qzss, Qzss, s);
    }
    ListAscends(m.bds, Beidou);
    ListAscends(m.gal, Galileo);
    ListAscends(m.glo, Glonass);
    ListAscends(m.qzss, Qzss);
    JoinAscending(a, b);
    JoinAscending(a + b, c);
    JoinAscending(a + b + c, d);
  }

  /** The list names exactly the satellites whose bits are set. */
  lemma ToListBlocks(m: Masks, c: Constellation, o: nat)
    requires m.Fits() && IsSatellite(c, o)
    ensures Blocked(ToList(m), c, o) <==> Bit(m.At(c), o)
  {
    var out, whole, one := ToList(m), Sv(c, 0), Sv(c, Initial(c) + o);
    AllBit(o);
    ToListHas(m, whole);
    ToListHas(m, one);
    ListHas(m.At(c), c, whole);
    ListHas(m.At(c), c, one);
    if whole in out {
      var k :| 0 <= k < |out| && out[k] == whole;
      assert Names(out[k], c, o);
    }
    if one in out {
      var k :| 0 <= k < |out| && out[k] == one;
      assert Names(out[k], c, o);
    }
    if Blocked(out, c, o) {
      var k :| 0 <= k < |out| && Names(out[k], c, o);
      assert out[k] == whole || out[k] == one;
    }
  }

  // ---------------------------------------------------------------------------------------------
  // The numbers of the satellites
  // ---------------------------------------------------------------------------------------------

  /** The masks name a satellite by its number, the first of which is 65, 201, 193 or 301. */
  lemma ListNumbers(m: Masks, id: nat)
    requires m.Fits()
    ensures Sv(Glonass, id) in ToList(m) <==> if Full(m.glo) then id == 0 else id >= 65 && Bit(m.glo, id - 65)
    ensures Sv(Beidou, id) in ToList(m) <==> if Full(m.bds) then id == 0 else id >= 201 && Bit(m.bds, id - 201)
    ensures Sv(Qzss, id) in ToList(m) <==> if Full(m.qzss) then id == 0 else id >= 193 && Bit(m.qzss, id - 193)
    ensures Sv(Galileo, id) in ToList(m) <==> if Full(m.gal) then id == 0 else id >= 301 && Bit(m.gal, id - 301)
    ensures Sv(Unlisted, id) !in ToList(m)
  {
    NumberOf(m, Sv(Glonass, id));
    NumberOf(m, Sv(Beidou, id));
    NumberOf(m, Sv(Qzss, id));
    NumberOf(m, Sv(Galileo, id));
    ToListHas(m, Sv(Unlisted, id));
  }

  predicate Full(mask: nat) {
    mask == 0xFFFF_FFFF_FFFF_FFFF
  }

  lemma NumberOf(m: Masks, s: Sv)
    requires s.constellation != Unlisted
    ensures var c := s.constellation;
            s in ToList(m) <==> if Full(m.At(c)) then s.id == 0 else s.id >= Initial(c) && Bit(m.At(c), s.id - Initial(c))
  {
    ToListHas(m, s);
    ListHas(m.At(s.constellation), s.constellation, s);
  }

  /** And they are found by it: what was in the masks remains, and the sign bit spills. */
  lemma MaskNumbers(wide: nat -> nat, m: Masks, ss: seq<Sv>, o: nat)
    requires AllDefined(ss) && ss != [] && o < 64
    ensures var n := ToMasks(wide, m, ss);
            && (Bit(n.glo, o) <==> Bit(m.glo, o) || Numbered(ss, Glonass, 65, o))
            && (Bit(n.bds, o) <==> Bit(m.bds, o) || Numbered(ss, Beidou, 201, o))
            && (Bit(n.qzss, o) <==> Bit(m.qzss, o) || Numbered(ss, Qzss, 193, o))
            && (Bit(n.gal, o) <==> Bit(m.gal, o) || Numbered(ss, Galileo, 301, o))
  {
    BitOfList(wide, m, ss, Glonass, o);
    BitOfList(wide, m, ss, Beidou, o);
    BitOfList(wide, m, ss, Qzss, o);
    BitOfList(wide, m, ss, Galileo, o);
  }

  /** A list names the satellite at an offset by number or as one of all, or the sign bit of its constellation. */
  predicate Numbered(ss: seq<Sv>, c: Constellation, first: nat, o: nat) {
    Sv(c, 0) in ss || Sv(c, first + o) in ss || (31 <= o && Sv(c, first + 31) in ss)
  }

  lemma BitOfList(wide: nat -> nat, m: Masks, ss: seq<Sv>, c: Constellation, o: nat)
    requires AllDefined(ss) && ss != [] && IsSatellite(c, o)
    ensures Bit(ToMasks(wide, m, ss).At(c), o) <==> Bit(m.At(c), o) || Numbered(ss, c, Initial(c), o)
  {
    MasksBit(wide, m, ss, |ss|, c, o);
    assert ss[..|ss|] == ss;
    if Sv(c, 0) in ss {
      var k :| 0 <= k < |ss| && ss[k] == Sv(c, 0);
      assert Names(ss[k], c, o);
    }
    if Sv(c, Initial(c) + o) in ss {
      var k :| 0 <= k < |ss| && ss[k] == Sv(c, Initial(c) + o);
      assert Names(ss[k], c, o);
    }
    if NamedIn(ss, |ss|, c, o) {
      var k :| 0 <= k < |ss| && Names(ss[k], c, o);
      assert ss[k] == Sv(c, 0) || ss[k] == Sv(c, Initial(c) + o);
    }
  }

  /** An empty list clears the masks, whatever they hold. */
  lemma EmptyListClears(wide: nat -> nat, m: Masks, c: Constellation, o: nat)
    ensures ToMasks(wide, m, []) == Masks(0, 0, 0, 0) && !Bit(ToMasks(wide, m, []).At(c), o)
  {
    ZeroHasNoBit(o);
  }

  // ---------------------------------------------------------------------------------------------
  // There and back
  // ---------------------------------------------------------------------------------------------

  /** For one constellation: list to masks to list loses nothing, and adds the spill and nothing else. */
  lemma BackAndForth(wide: nat -> nat, ss: seq<Sv>, c: Constellation, o: nat)
    requires AllDefined(ss) && IsSatellite(c, o)
    ensures Blocked(ToList(ToMasks(wide, NO_MASKS, ss)), c, o) <==> Blocked(ss, c, o) || (31 <= o && Spills(ss, c))
  {
    ToMasksBit(wide, ss, c, o);
    ToListBlocks(ToMasks(wide, NO_MASKS, ss), c, o);
    if Sv(c, 0) in ss {
      var k :| 0 <= k < |ss| && ss[k] == Sv(c, 0);
      assert Names(ss[k], c, o);
    }
  }

  ghost predicate SameSatellites(ss: seq<Sv>, tt: seq<Sv>) {
    forall c, o: nat {:trigger Blocked(ss, c, o)} {:trigger Blocked(tt, c, o)} ::
      IsSatellite(c, o) ==> (Blocked(ss, c, o) <==> Blocked(tt, c, o))
  }

  /**
   * A list comes back as the same satellites, in ascending order for each constellation, exactly when no
   * satellite at the sign bit is named without its whole constellation.
   */
  lemma ListRoundTrip(wide: nat -> nat, ss: seq<Sv>)
    requires AllDefined(ss)
    ensures var out := ToList(ToMasks(wide, NO_MASKS, ss));
            && (SameSatellites(out, ss) <==> forall c :: !Spills(ss, c))
            && Ascending(out)
  {
    var out := ToList(ToMasks(wide, NO_MASKS, ss));
    ToListAscends(ToMasks(wide, NO_MASKS, ss));
    forall c, o: nat | IsSatellite(c, o)
      ensures Blocked(out, c, o) <==> Blocked(ss, c, o) || (31 <= o && Spills(ss, c))
    {
      BackAndForth(wide, ss, c, o);
    }
    forall c | Spills(ss, c) ensures !SameSatellites(out, ss) {
      SpillIsNew(ss, c);
      assert IsSatellite(c, 32) && Blocked(out, c, 32);
    }
  }

  lemma SpillIsNew(ss: seq<Sv>, c: Constellation)
    requires AllDefined(ss) && Spills(ss, c)
    ensures !Blocked(ss, c, 32)
  {
    forall k | 0 <= k < |ss| ensures !Names(ss[k], c, 32) {
      assert IsDefined(ss[k]);
    }
  }

  /** Identifier 0 absorbs its constellation: it alone comes back. */
  lemma ZeroAbsorbs(wide: nat -> nat, ss: seq<Sv>, c: Constellation, s: Sv)
    requires AllDefined(ss) && c != Unlisted && Sv(c, 0) in ss && s.constellation == c
    ensures s in ToList(ToMasks(wide, NO_MASKS, ss)) <==> s.id == 0
  {
    var m := ToMasks(wide, NO_MASKS, ss);
    var k :| 0 <= k < |ss| && ss[k] == Sv(c, 0);
    forall o: nat ensures Bit(m.At(c), o) <==> Bit(ALL_BITS, o) {
      AllBit(o);
      if o < 64 {
        assert Names(ss[k], c, o);
        ToMasksBit(wide, ss, c, o);
      } else {
        ToMasksBit(wide, ss, c, 0);
        WideHasNoBit(m, c, o);
      }
    }
    BitsDetermine(m.At(c), ALL_BITS);
    ToListHas(m, s);
    ListHas(m.At(c), c, s);
  }

  lemma WideHasNoBit(m: Masks, c: Constellation, o: nat)
    requires m.Fits() && o >= 64
    ensures !Bit(m.At(c), o)
  {
    var z := 0;
    AllBits(z);
    if Bit(m.At(c), o) {
      NarrowBits(m.At(c), z + 64, o);
    }
  }

  /** Masks that agree on every satellite are equal. */
  lemma SatellitesDetermine(m: Masks, n: Masks)
    requires m.Fits() && n.Fits()
    requires forall c, o: nat {:trigger IsSatellite(c, o)} :: IsSatellite(c, o) ==> (Bit(m.At(c), o) <==> Bit(n.At(c), o))
    ensures m == n
  {
    forall c | c != Unlisted ensures m.At(c) == n.At(c) {
      forall o: nat ensures Bit(m.At(c), o) <==> Bit(n.At(c), o) {
        if o < 64 {
          assert IsSatellite(c, o);
        } else {
          WideHasNoBit(m, c, o);
          WideHasNoBit(n, c, o);
        }
      }
      BitsDetermine(m.At(c), n.At(c));
    }
    assert m.At(Glonass) == n.At(Glonass) && m.At(Beidou) == n.At(Beidou);
    assert m.At(Qzss) == n.At(Qzss) && m.At(Galileo) == n.At(Galileo);
  }

  /** The masks, and so the list that comes back, depend on the named satellites only. */
  lemma CanonicalForm(wide: nat -> nat, ss: seq<Sv>, tt: seq<Sv>)
    requires AllDefined(ss) && AllDefined(tt) && SameSatellites(ss, tt)
    requires forall c :: !Spills(ss, c) && !Spills(tt, c)
    ensures ToMasks(wide, NO_MASKS, ss) == ToMasks(wide, NO_MASKS, tt)
  {
    var m, n := ToMasks(wide, NO_MASKS, ss), ToMasks(wide, NO_MASKS, tt);
    ToMasksBit(wide, ss, Beidou, 0);
    ToMasksBit(wide, tt, Beidou, 0);
    forall c, o: nat | IsSatellite(c, o) ensures Bit(m.At(c), o) <==> Bit(n.At(c), o) {
      BackAndForth(wide, ss, c, o);
      BackAndForth(wide, tt, c, o);
      ToListBlocks(m, c, o);
      ToListBlocks(n, c, o);
      assert !Spills(ss, c) && !Spills(tt, c);
    }
    SatellitesDetermine(m, n);
  }

  /** Some constellation is not blocked as a whole, and the satellite at its sign bit is. */
  predicate SignBitSet(m: Masks) {
    exists c :: c != Unlisted && m.At(c) != ALL_BITS && Bit(m.At(c), 31)
  }

  lemma SpillsIsSignBit(m: Masks, c: Constellation)
    ensures Spills(ToList(m), c) <==> c != Unlisted && m.At(c) != ALL_BITS && Bit(m.At(c), 31)
  {
    ToListHas(m, Sv(c, 0));
    ToListHas(m, Sv(c, Initial(c) + 31));
    ListHas(m.At(c), c, Sv(c, 0));
    ListHas(m.At(c), c, Sv(c, Initial(c) + 31));
  }

  /** Masks come back unchanged exactly when no constellation has the sign bit alone. */
  lemma MaskRoundTrip(wide: nat -> nat, m: Masks)
    requires m.Fits() && AllDefined(ToList(m))
    ensures ToMasks(wide, NO_MASKS, ToList(m)) == m <==> !SignBitSet(m)
  {
    var out := ToList(m);
    var n := ToMasks(wide, NO_MASKS, out);
    ToMasksBit(wide, out, Beidou, 0);
    forall c, o: nat | IsSatellite(c, o)
      ensures Bit(n.At(c), o) <==> Bit(m.At(c), o) || (31 <= o && Spills(out, c))
    {
      BackAndForth(wide, out, c, o);
      ToListBlocks(n, c, o);
      ToListBlocks(m, c, o);
    }
    if SignBitSet(m) {
      var c :| c != Unlisted && m.At(c) != ALL_BITS && Bit(m.At(c), 31);
      SpillsIsSignBit(m, c);
      SpillIsNew(out, c);
      ToListBlocks(m, c, 32);
      assert IsSatellite(c, 32);
    } else {
      forall c ensures !Spills(out, c) {
        SpillsIsSignBit(m, c);
      }
      SatellitesDetermine(n, m);
    }
  }

  /** The masks stay empty exactly when no entry is valid: the conversion of a list reports just that. */
  lemma SomeValid(wide: nat -> nat, ss: seq<Sv>)
    requires AllDefined(ss)
    ensures ToMasks(wide, NO_MASKS, ss) != NO_MASKS <==> exists k :: 0 <= k < |ss| && IsValid(ss[k])
  {
    if k :| 0 <= k < |ss| && IsValid(ss[k]) {
      var c := ss[k].constellation;
      var o := if ss[k].id == 0 then 0 else ss[k].id - Initial(c);
      assert Names(ss[k], c, o);
      ToMasksBit(wide, ss, c, o);
      ZeroHasNoBit(o);
    } else {
      NoneValid(wide, ss, |ss|);
    }
  }

  lemma {:induction false} NoneValid(wide: nat -> nat, ss: seq<Sv>, n: nat)
    requires n <= |ss| && AllDefined(ss) && forall k :: 0 <= k < |ss| ==> !IsValid(ss[k])
    ensures MasksOf(wide, NO_MASKS, ss, n) == NO_MASKS
  {
    if n > 0 {
      NoneValid(wide, ss, n - 1);
    }
  }

  /**
   * A single satellite, at any offset, comes back as itself if and only if the shift yields its bit alone;
   * from offset 32 on that is up to the compiled code.
   */
  lemma LoneSatellite(wide: nat -> nat, c: Constellation, n: nat)
    requires c != Unlisted && n < 64 && Shift(wide, n) <= ALL_BITS
    ensures var ss := [Sv(c, Initial(c) + n)];
            SameSatellites(ToList(ToMasks(wide, NO_MASKS, ss)), ss) <==>
            forall o: nat :: o < 64 ==> (Bit(Shift(wide, n), o) <==> o == n)
  {
    var ss := [Sv(c, Initial(c) + n)];
    var m := ToMasks(wide, NO_MASKS, ss);
    assert MasksOf(wide, NO_MASKS, ss, 0) == NO_MASKS;
    assert m == NO_MASKS.Put(c, Shift(wide, n)) by {
      assert m == Enter(wide, NO_MASKS, ss[0]);
    }
    forall d, o: nat | IsSatellite(d, o)
      ensures Blocked(ToList(m), d, o) <==> d == c && Bit(Shift(wide, n), o)
      ensures Blocked(ss, d, o) <==> d == c && o == n
    {
      ToListBlocks(m, d, o);
      ZeroHasNoBit(o);
      assert Names(ss[0], d, o) <==> d == c && o == n;
    }
    if SameSatellites(ToList(m), ss) {
      forall o: nat | o < 64 ensures Bit(Shift(wide, n), o) <==> o == n {
        assert IsSatellite(c, o) && (Blocked(ToList(m), c, o) <==> Blocked(ss, c, o));
      }
    } else {
      var d, o: nat :| IsSatellite(d, o) && !(Blocked(ToList(m), d, o) <==> Blocked(ss, d, o));
      assert o < 64 && !(Bit(Shift(wide, n), o) <==> o == n);
    }
  }

  /** Where the shift count is taken modulo 32, a satellite from offset 32 on is lost. */
  lemma ModuloShiftLoses(wide: nat -> nat, c: Constellation, n: nat)
    requires c != Unlisted && 32 <= n < 64 && wide(n) == IntShift(n - 32)
    ensures var ss := [Sv(c, Initial(c) + n)];
            !SameSatellites(ToList(ToMasks(wide, NO_MASKS, ss)), ss)
  {
    IntShiftBit(n - 32, n - 32);
    LoneSatellite(wide, c, n);
  }
}
