/** UTF-16 to the modified UTF-8 of section 4.4.7 of the Java Virtual Machine Specification. */
module Utf16To8 {
  import opened Wrappers
  import BitOps

  // ---------------------------------------------------------------------------------------------
  // The encoding
  // ---------------------------------------------------------------------------------------------

  /**
   * One 16-bit unit as one to three bytes, none of them zero, in arithmetic; the loop below computes
   * them with the shifts and masks of the source.
   */
  function EncodeUnit(u: CodeUnit): (bytes: seq<byte>)
    ensures 1 <= |bytes| <= 3
    ensures forall k :: 0 <= k < |bytes| ==> bytes[k] != 0
  {
    if u > 0x07ff then [u / 4096 + 0xe0, u / 64 % 64 + 0x80, u % 64 + 0x80]
    else if u > 0x7f || u == 0 then [u / 64 + 0xc0, u % 64 + 0x80]
    else [u]
  }

  /** The encoding of the first `n` units. */
  function EncodeFirst(us: seq<CodeUnit>, n: nat): (bytes: seq<byte>)
    requires n <= |us|
  {
    if n == 0 then [] else EncodeFirst(us, n - 1) + EncodeUnit(us[n - 1])
  }

  function Encode(us: seq<CodeUnit>): (bytes: seq<byte>) {
    EncodeFirst(us, |us|)
  }

  /** A C string: the terminator is the only zero. And between one and three bytes are spent on a unit. */
  lemma {:induction false} EncodeFirstBytes(us: seq<CodeUnit>, n: nat)
    requires n <= |us|
    ensures n <= |EncodeFirst(us, n)| <= 3 * n
    ensures forall k :: 0 <= k < |EncodeFirst(us, n)| ==> EncodeFirst(us, n)[k] != 0
  {
    if n > 0 {
      EncodeFirstBytes(us, n - 1);
    }
  }

  lemma {:induction false} EncodeFirstGrows(us: seq<CodeUnit>, i: nat, n: nat)
    requires i <= n <= |us|
    ensures |EncodeFirst(us, i)| <= |EncodeFirst(us, n)|
    decreases n - i
  {
    if i < n {
      EncodeFirstGrows(us, i, n - 1);
    }
  }

  // ---------------------------------------------------------------------------------------------
  // strnlen16to8, strncpy16to8, strndup16to8
  // ---------------------------------------------------------------------------------------------

  /** How many bytes the length pass adds for one unit. */
  function Cost(u: CodeUnit): (n: nat)
    ensures n == |EncodeUnit(u)|
  {
    if u > 0x07ff then 3 else if u > 0x7f || u == 0 then 2 else 1
  }

  /** One round of either length loop. */
  lemma LengthStep(us: seq<CodeUnit>, i: nat)
    requires i < |us|
    ensures |EncodeFirst(us, i + 1)| == |EncodeFirst(us, i)| + Cost(us[i])
    ensures |EncodeFirst(us, i + 1)| <= |Encode(us)| <= 3 * |us|
  {
    EncodeFirstGrows(us, i + 1, |us|);
    EncodeFirstBytes(us, |us|);
  }

  /** Fast path: no overflow is possible. */
  method FastLength(us: seq<CodeUnit>, sizeMax: nat) returns (utf8Len: nat)
    requires sizeMax >= 0xffff && |us| < (sizeMax - 1) / 3
    ensures utf8Len == |Encode(us)| < sizeMax - 1
  {
    utf8Len := 0;
    var i, len := 0, |us|;
    EncodeFirstBytes(us, |us|);
    while len != 0
      invariant 0 <= i <= |us| && i + len == |us| && utf8Len == |EncodeFirst(us, i)|
      decreases len
    {
      len := len - 1;
      LengthStep(us, i);
      utf8Len := WrappingAdd(utf8Len, Cost(us[i]), sizeMax);
      i := i + 1;
    }
  }

  /** The slower but paranoid version. */
  method ParanoidLength(us: seq<CodeUnit>, sizeMax: nat) returns (utf8Len: nat)
    requires sizeMax >= 0xffff && |us| <= sizeMax
    ensures utf8Len == Min(|Encode(us)|, sizeMax - 1)
  {
    utf8Len := 0;
    var i, len := 0, |us|;
    while len != 0
      invariant 0 <= i <= |us| && i + len == |us| && utf8Len == |EncodeFirst(us, i)| <= sizeMax
      decreases len
    {
      len := len - 1;
      LengthStep(us, i);
      var utf8Cur := utf8Len;
      utf8Len := WrappingAdd(utf8Len, Cost(us[i]), sizeMax);
      i := i + 1;
      if utf8Len < utf8Cur {
        return sizeMax - 1;
      }
    }
    if utf8Len == sizeMax {
      utf8Len := sizeMax - 1;
    }
  }

  /**
   * `strnlen16to8`: the length of the encoding, or SIZE_MAX - 1 if it is longer than that. A `size_t`
   * is a number modulo `sizeMax + 1`.
   */
  method StrNLen16to8(us: seq<CodeUnit>, sizeMax: nat) returns (utf8Len: nat)
    requires sizeMax >= 0xffff && |us| <= sizeMax
    ensures utf8Len == Min(|Encode(us)|, sizeMax - 1)
  {
    if |us| < (sizeMax - 1) / 3 {
      utf8Len := FastLength(us, sizeMax);
    } else {
      utf8Len := ParanoidLength(us, sizeMax);
    }
  }

  /** One round of the writing loop: the bytes of one unit at `cur`. */
  method PutUnit(utf8Str: array<byte>, cur: nat, uic: CodeUnit) returns (next: nat)
    requires cur + |EncodeUnit(uic)| <= utf8Str.Length
    modifies utf8Str
    ensures next == cur + |EncodeUnit(uic)|
    ensures forall k {:trigger utf8Str[k]} :: 0 <= k < utf8Str.Length ==>
              utf8Str[k] == if cur <= k < next then EncodeUnit(uic)[k - cur] else old(utf8Str[k])
  {
    if uic > 0x07ff {
      var b0 := BitOps.FirstOfThree(uic);
      var b1 := BitOps.SecondOfThree(uic);
      var b2 := BitOps.LastOfAny(uic);
      utf8Str[cur] := b0;
      utf8Str[cur + 1] := b1;
      utf8Str[cur + 2] := b2;
      next := cur + 3;
    } else if uic > 0x7f || uic == 0 {
      var b0 := BitOps.FirstOfTwo(uic);
      var b1 := BitOps.LastOfAny(uic);
      utf8Str[cur] := b0;
      utf8Str[cur + 1] := b1;
      next := cur + 2;
    } else {
      utf8Str[cur] := uic;
      next := cur + 1;
    }
  }

  /** One more unit behind those already written. */
  method AppendUnit(utf8Str: array<byte>, cur: nat, us: seq<CodeUnit>, i: nat, ghost before: seq<byte>) returns (next: nat)
    requires i < |us| && Written(utf8Str, EncodeFirst(us, i), before) && cur == |EncodeFirst(us, i)|
    requires |EncodeFirst(us, i + 1)| <= utf8Str.Length
    modifies utf8Str
    ensures Written(utf8Str, EncodeFirst(us, i + 1), before) && next == |EncodeFirst(us, i + 1)|
  {
    next := PutUnit(utf8Str, cur, us[i]);
  }

  /** `strncpy16to8`: the encoding and one terminator, nothing else. */
  method StrNCpy16to8(utf8Str: array<byte>, us: seq<CodeUnit>)
    requires utf8Str.Length >= |Encode(us)| + 1
    modifies utf8Str
    ensures utf8Str[..|Encode(us)| + 1] == Encode(us) + [0]
    ensures forall k :: |Encode(us)| < k < utf8Str.Length ==> utf8Str[k] == old(utf8Str[k])
  {
    var cur, i, len := 0, 0, |us|;
    ghost var before := utf8Str[..];
    while len != 0
      invariant 0 <= i <= |us| && i + len == |us| && cur == |EncodeFirst(us, i)|
      invariant Written(utf8Str, EncodeFirst(us, i), before)
      decreases len
    {
      len := len - 1;
      EncodeFirstGrows(us, i + 1, |us|);
      cur := AppendUnit(utf8Str, cur, us, i, before);
      i := i + 1;
    }
    WrittenAll(utf8Str, Encode(us), before);
    utf8Str[cur] := 0;
    assert utf8Str[..cur] == Encode(us);
  }

  /**
   * `strndup16to8`: None when the string does not fit in memory, otherwise the encoding in a buffer of
   * exactly the right size. `mallocOk` says whether the allocation succeeds.
   */
  method StrNDup16to8(s: Option<seq<CodeUnit>>, sizeMax: nat, mallocOk: bool) returns (r: array?<byte>)
    requires sizeMax >= 0xffff && (s.Some? ==> |s.value| <= sizeMax)
    ensures r != null <==> s.Some? && |Encode(s.value)| < sizeMax - 1 && mallocOk
    ensures r != null ==> fresh(r) && r[..] == Encode(s.value) + [0]
  {
    if s.None? {
      return null;
    }
    var len := StrNLen16to8(s.value, sizeMax);
    if len >= sizeMax - 1 {
      return null;
    }
    if !mallocOk {
      return null;
    }
    var ret := new byte[len + 1];
    StrNCpy16to8(ret, s.value);
    assert ret[..] == ret[..len + 1];
    return ret;
  }
}
