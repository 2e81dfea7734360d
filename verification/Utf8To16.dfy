/** The tolerant decoder from (modified) UTF-8 to UTF-16, and the length pass that sizes its buffer. */
module Utf8To16 {
  import opened Wrappers
  import BitOps

  const UTF16_REPLACEMENT_CHAR := 0xfffd
  const UNICODE_UPPER_LIMIT := 0x10fffd

  // ---------------------------------------------------------------------------------------------
  // Strings and bytes
  // ---------------------------------------------------------------------------------------------

  /** The bytes of a C string before its terminator. */
  predicate IsCString(s: seq<byte>) {
    forall k :: 0 <= k < |s| ==> s[k] != 0
  }

  /** The byte a pointer sees `i` places into the string; nothing behind the terminator is ever read. */
  function At(s: seq<byte>, i: nat): (b: byte)
    requires i <= |s|
  {
    if i == |s| then 0 else s[i]
  }

  /** Bytes of the form 10xxxxxx. */
  predicate IsExtension(b: byte) {
    0x80 <= b < 0xc0
  }

  /** UTF8_SEQ_LENGTH of a byte that is not an extension byte; 11111xxx is tolerated. */
  function SeqLength(b: byte): (n: nat)
    ensures 1 <= n <= 4
  {
    if b < 0xc0 then 1 else if b < 0xe0 then 2 else if b < 0xf0 then 3 else 4
  }

  /** What the leader mask leaves of a byte that is not an extension byte. */
  function LeaderBits(b: byte): nat {
    match SeqLength(b)
    case 1 => b
    case 2 => b % 32
    case 3 => b % 16
    case _ => b % 8
  }

  // ---------------------------------------------------------------------------------------------
  // The decoder as a function
  // ---------------------------------------------------------------------------------------------

  /** A decoded value and the position behind it. */
  datatype Decoded = Decoded(value: nat, next: nat)

  /** The loop over extension bytes: `need` more of them at `i`, `ret` accumulated so far. */
  function Extend(s: seq<byte>, i: nat, need: nat, ret: nat): (d: Decoded)
    requires i <= |s|
    ensures i <= d.next <= |s|
    decreases need
  {
    if need == 0 then Decoded(ret, i)
    else if !IsExtension(At(s, i)) then Decoded(UTF16_REPLACEMENT_CHAR, i)
    else Extend(s, i + 1, need - 1, ret * 64 + At(s, i) % 64)
  }

  /** One call of `getUtf32FromUtf8` that does not stand on the terminator. */
  function Next(s: seq<byte>, i: nat): (d: Decoded)
    requires i < |s|
    ensures i < d.next <= |s|
  {
    if IsExtension(s[i]) then Decoded(UTF16_REPLACEMENT_CHAR, i + 1)
    else Extend(s, i + 1, SeqLength(s[i]) - 1, LeaderBits(s[i]))
  }

  /** The value lies where it takes a surrogate pair. */
  predicate TakesPair(value: nat) {
    0xffff < value <= UNICODE_UPPER_LIMIT
  }

  /** The units written for a decoded value. */
  function Units(value: nat): (us: seq<CodeUnit>)
    ensures |us| == if TakesPair(value) then 2 else 1
  {
    if value <= 0xffff then [value]
    else if value <= UNICODE_UPPER_LIMIT then
      [0xd800 + (value - 0x10000) / 1024, 0xdc00 + (value - 0x10000) % 1024]
    else [UTF16_REPLACEMENT_CHAR]
  }

  /** The units decoded from position `i` on, for characters that start before `end`. */
  function DecodeUntil(s: seq<byte>, i: nat, end: int): (us: seq<CodeUnit>)
    requires i <= |s| && end <= |s|
    decreases |s| - i
  {
    if i >= end then [] else Units(Next(s, i).value) + DecodeUntil(s, Next(s, i).next, end)
  }

  /** The units decoded from position `i` to the end of the string. */
  function DecodeFrom(s: seq<byte>, i: nat): (us: seq<CodeUnit>)
    requires i <= |s|
  {
    DecodeUntil(s, i, |s|)
  }

  function Decode(s: seq<byte>): (us: seq<CodeUnit>) {
    DecodeFrom(s, 0)
  }

  // ---------------------------------------------------------------------------------------------
  // The length pass
  // ---------------------------------------------------------------------------------------------

  /** What `strlen8to16` counts from position `i` on when `expected` extension bytes are still covered. */
  function LengthFrom(s: seq<byte>, i: nat, expected: int): (len: nat)
    requires i <= |s|
    decreases |s| - i
  {
    if i == |s| then 0
    else if IsExtension(s[i]) then
      (if expected - 1 < 0 then 1 else 0) + LengthFrom(s, i + 1, expected - 1)
    else
      (if SeqLength(s[i]) == 4 then 2 else 1) + LengthFrom(s, i + 1, SeqLength(s[i]) - 1)
  }

  /** A leader of four bytes whose sequence does not decode to a value that takes a surrogate pair. */
  predicate FailsToPair(s: seq<byte>, i: nat)
    requires i < |s|
  {
    s[i] >= 0xf0 && !TakesPair(Next(s, i).value)
  }

  /** How many such leaders there are from position `i` on. */
  function FailedLeaders(s: seq<byte>, i: nat): (n: nat)
    requires i <= |s|
    decreases |s| - i
  {
    if i == |s| then 0 else (if FailsToPair(s, i) then 1 else 0) + FailedLeaders(s, i + 1)
  }

  /** Where the decoder can stand while the counter holds `expected`. */
  predicate AtBoundary(s: seq<byte>, i: nat, expected: int)
    requires i <= |s|
  {
    !IsExtension(At(s, i)) || expected <= 0
  }

  /** The counter and the decoder walk over a sequence together and meet at a boundary. */
  lemma {:induction false} ExtendMeetsCounter(s: seq<byte>, i: nat, need: nat, ret: nat) returns (expected: int)
    requires i <= |s|
    ensures var d := Extend(s, i, need, ret);
            && AtBoundary(s, d.next, expected)
            && LengthFrom(s, i, need) == LengthFrom(s, d.next, expected)
            && FailedLeaders(s, i) == FailedLeaders(s, d.next)
    decreases need
  {
    if need == 0 || !IsExtension(At(s, i)) {
      expected := need;
    } else {
      expected := ExtendMeetsCounter(s, i + 1, need - 1, ret * 64 + At(s, i) % 64);
    }
  }

  /** The accumulated value of at most three bytes stays far below a surrogate pair. */
  lemma {:induction false} ExtendBound(s: seq<byte>, i: nat, need: nat, ret: nat, bound: nat)
    requires i <= |s| && ret < bound
    ensures need <= 1 ==> Extend(s, i, need, ret).value < 64 * bound || Extend(s, i, need, ret).value == 0xfffd
    ensures need == 2 ==> Extend(s, i, need, ret).value < 4096 * bound || Extend(s, i, need, ret).value == 0xfffd
    decreases need
  {
    if need > 0 && IsExtension(At(s, i)) {
      ExtendBound(s, i + 1, need - 1, ret * 64 + At(s, i) % 64, bound * 64);
    }
  }

  /** Only a leader of four bytes can give a surrogate pair. */
  lemma PairNeedsFour(s: seq<byte>, i: nat)
    requires i < |s| && TakesPair(Next(s, i).value)
    ensures s[i] >= 0xf0
  {
    if !IsExtension(s[i]) && s[i] < 0xf0 {
      ExtendBound(s, i + 1, SeqLength(s[i]) - 1, LeaderBits(s[i]), if s[i] < 0x80 then 128 else if s[i] < 0xe0 then 32 else 16);
    }
  }

  /**
   * For every string, malformed or not, what the length pass counts exceeds what the decoder writes by
   * exactly the number of four-byte leaders that do not decode to a surrogate pair.
   */
  lemma {:induction false} LengthExceedsByFailedLeaders(s: seq<byte>, i: nat, expected: int)
    requires i <= |s| && AtBoundary(s, i, expected)
    ensures LengthFrom(s, i, expected) == |DecodeFrom(s, i)| + FailedLeaders(s, i)
    decreases |s| - i
  {
    if i < |s| {
      var d := Next(s, i);
      if TakesPair(d.value) {
        PairNeedsFour(s, i);
      }
      if IsExtension(s[i]) {
        LengthExceedsByFailedLeaders(s, i + 1, expected - 1);
      } else {
        var e := ExtendMeetsCounter(s, i + 1, SeqLength(s[i]) - 1, LeaderBits(s[i]));
        LengthExceedsByFailedLeaders(s, d.next, e);
      }
    }
  }

  /** A buffer of `strlen8to16` units is large enough, and exactly filled when every leader decodes. */
  lemma LengthFits(s: seq<byte>)
    ensures |Decode(s)| <= LengthFrom(s, 0, 0)
    ensures |Decode(s)| == LengthFrom(s, 0, 0) <==> forall k :: 0 <= k < |s| ==> !FailsToPair(s, k)
  {
    LengthExceedsByFailedLeaders(s, 0, 0);
    NoFailedLeaders(s, 0);
  }

  lemma {:induction false} NoFailedLeaders(s: seq<byte>, i: nat)
    requires i <= |s|
    ensures FailedLeaders(s, i) == 0 <==> forall k :: i <= k < |s| ==> !FailsToPair(s, k)
    decreases |s| - i
  {
    if i < |s| {
      NoFailedLeaders(s, i + 1);
    }
  }

  // ---------------------------------------------------------------------------------------------
  // The machine integers of the length pass
  // ---------------------------------------------------------------------------------------------

  /** The `int` that counts expected extension bytes never falls below its least value. */
  predicate CounterDefined(s: seq<byte>, i: nat, expected: int)
    requires i <= |s|
    decreases |s| - i
  {
    i == |s| ||
    if IsExtension(s[i]) then expected > -0x8000_0000 && CounterDefined(s, i + 1, expected - 1)
    else CounterDefined(s, i + 1, SeqLength(s[i]) - 1)
  }

  /** No string of at most 2^31 bytes brings it there. */
  lemma {:induction false} ShortStringsCount(s: seq<byte>, i: nat, expected: int)
    requires i <= |s| <= 0x8000_0000 && expected >= 0 - i
    ensures CounterDefined(s, i, expected)
    decreases |s| - i
  {
    if i < |s| {
      ShortStringsCount(s, i + 1, if IsExtension(s[i]) then expected - 1 else SeqLength(s[i]) - 1);
    }
  }

  /** Any longer string of stray extension bytes does. */
  lemma {:induction false} LongRunsDoNotCount(s: seq<byte>, i: nat)
    requires i <= 0x8000_0000 < |s| && forall k :: 0 <= k < |s| ==> IsExtension(s[k])
    ensures !CounterDefined(s, i, 0 - i)
    decreases |s| - i
  {
    if i < 0x8000_0000 {
      LongRunsDoNotCount(s, i + 1);
    }
  }

  /** A number in `size_t`. */
  function Wrapped(n: nat, sizeMax: nat): (r: nat)
    ensures r <= sizeMax
  {
    if n <= sizeMax then n else Wrapped(n - (sizeMax + 1), sizeMax)
  }

  lemma {:induction false} CountStep(n: nat, sizeMax: nat)
    requires sizeMax >= 1
    ensures Wrapped(n + 1, sizeMax) == WrappingAdd(Wrapped(n, sizeMax), 1, sizeMax)
  {
    if n > sizeMax {
      CountStep(n - (sizeMax + 1), sizeMax);
    }
  }

  lemma WrappedOnce(n: nat, sizeMax: nat)
    requires n < 2 * (sizeMax + 1)
    ensures Wrapped(n, sizeMax) == if n <= sizeMax then n else n - (sizeMax + 1)
  {
  }

  /** What `strlen8to16` returns: the count in `size_t`. */
  function Counted(s: seq<byte>, sizeMax: nat): (len: nat) {
    Wrapped(LengthFrom(s, 0, 0), sizeMax)
  }

  lemma {:induction false} LengthBounds(s: seq<byte>, i: nat, expected: int)
    requires i <= |s|
    ensures LengthFrom(s, i, expected) <= 2 * (|s| - i) && FailedLeaders(s, i) <= |s| - i
    decreases |s| - i
  {
    if i < |s| {
      LengthBounds(s, i + 1, if IsExtension(s[i]) then expected - 1 else SeqLength(s[i]) - 1);
    }
  }

  /** For a string that fits in memory the count is enough if and only if it does not wrap. */
  lemma CountSufficesExactly(s: seq<byte>, sizeMax: nat)
    requires |s| <= sizeMax
    ensures Counted(s, sizeMax) >= |Decode(s)| <==> LengthFrom(s, 0, 0) <= sizeMax
  {
    LengthBounds(s, 0, 0);
    LengthExceedsByFailedLeaders(s, 0, 0);
    WrappedOnce(LengthFrom(s, 0, 0), sizeMax);
  }

  /** The count wraps, and stays small enough to pass the overflow test. */
  predicate Overruns(s: seq<byte>, sizeMax: nat) {
    2 * Counted(s, sizeMax) <= sizeMax && Counted(s, sizeMax) < |Decode(s)|
  }

  /** When the duplicate runs past its buffer. */
  lemma OverrunsExactly(s: seq<byte>, sizeMax: nat)
    requires |s| <= sizeMax
    ensures Overruns(s, sizeMax) <==> sizeMax < LengthFrom(s, 0, 0) && 2 * (LengthFrom(s, 0, 0) - (sizeMax + 1)) <= sizeMax
  {
    CountSufficesExactly(s, sizeMax);
    LengthBounds(s, 0, 0);
    WrappedOnce(LengthFrom(s, 0, 0), sizeMax);
  }

  /** A caller is safe with strings of at most half the size range. */
  lemma HalfRangeIsSafe(s: seq<byte>, sizeMax: nat)
    requires 2 * |s| <= sizeMax
    ensures !Overruns(s, sizeMax) && Counted(s, sizeMax) == LengthFrom(s, 0, 0)
  {
    LengthBounds(s, 0, 0);
    OverrunsExactly(s, sizeMax);
  }

  function Leaders(n: nat): (s: seq<byte>)
    ensures |s| == n && forall k :: 0 <= k < n ==> s[k] == 0xf0
  {
    seq(n, _ => 0xf0)
  }

  lemma {:induction false} LeadersLength(s: seq<byte>, i: nat, expected: int)
    requires i <= |s| && forall k :: 0 <= k < |s| ==> s[k] == 0xf0
    ensures LengthFrom(s, i, expected) == 2 * (|s| - i) && CounterDefined(s, i, expected)
    decreases |s| - i
  {
    if i < |s| {
      LeadersLength(s, i + 1, 3);
    }
  }

  /** One byte more than half the size range, all four-byte leaders: the count is 0, the buffer is empty. */
  lemma LeadersOverrun(n: nat)
    requires n >= 0x8000
    ensures Counted(Leaders(n), 2 * n - 1) == 0 && Overruns(Leaders(n), 2 * n - 1) && IsCString(Leaders(n))
  {
    var s := Leaders(n);
    LeadersLength(s, 0, 0);
    WrappedOnce(2 * n, 2 * n - 1);
    OverrunsExactly(s, 2 * n - 1);
  }

  /** A length-limited decode is the part of the full one up to the last character that starts before the limit. */
  lemma {:induction false} DecodeUntilIsPrefix(s: seq<byte>, i: nat, end: int) returns (last: nat, stop: nat)
    requires i <= |s| && end <= |s|
    ensures stop <= |s| && if i < end then i <= last < end <= stop == Next(s, last).next else stop == i
    ensures DecodeFrom(s, i) == DecodeUntil(s, i, end) + DecodeFrom(s, stop)
    decreases |s| - i
  {
    if i >= end {
      last, stop := i, i;
    } else {
      last, stop := DecodeUntilIsPrefix(s, Next(s, i).next, end);
      if Next(s, i).next >= end {
        last := i;
      }
    }
  }

  // ---------------------------------------------------------------------------------------------
  // strlen8to16, getUtf32FromUtf8, strcpy8to16, strcpylen8to16, strdup8to16
  // ---------------------------------------------------------------------------------------------

  /** `strlen8to16`, where the counter of expected bytes stays an `int`; the count may wrap. */
  method StrLen8to16(s: seq<byte>, sizeMax: nat) returns (len: nat)
    requires IsCString(s) && CounterDefined(s, 0, 0) && sizeMax >= 0xffff
    ensures len == Counted(s, sizeMax)
  {
    len := 0;
    var i := 0;
    var expected: int32 := 0;
    ghost var total := 0;
    while At(s, i) != 0
      invariant 0 <= i <= |s| && CounterDefined(s, i, expected)
      invariant LengthFrom(s, 0, 0) == total + LengthFrom(s, i, expected)
      invariant len == Wrapped(total, sizeMax)
      decreases |s| - i
    {
      var ic := At(s, i);
      i := i + 1;
      var extension := BitOps.TestExtension(ic);
      if extension {
        expected := expected - 1;
        if expected < 0 {
          CountStep(total, sizeMax);
          len, total := WrappingAdd(len, 1, sizeMax), total + 1;
        }
      } else {
        CountStep(total, sizeMax);
        len, total := WrappingAdd(len, 1, sizeMax), total + 1;
        var seqLen := BitOps.LookUpLength(ic);
        expected := seqLen - 1;
        if expected == 3 {
          CountStep(total, sizeMax);
          len, total := WrappingAdd(len, 1, sizeMax), total + 1;
        }
      }
    }
  }

  /** What the accumulator may hold before `need` more bytes are appended. */
  predicate Accumulates(ret: nat, need: int) {
    (need == 3 ==> ret < 8) && (need == 2 ==> ret < 512) && (need == 1 ==> ret < 0x8000)
  }

  /** The loop over the extension bytes of a sequence. */
  method GetExtensions(s: seq<byte>, pos: nat, seqLen: nat, leader: nat) returns (ret: nat, next: nat)
    requires IsCString(s) && pos <= |s| && 1 <= seqLen <= 4 && Accumulates(leader, seqLen - 1)
    ensures Decoded(ret, next) == Extend(s, pos, seqLen - 1, leader)
  {
    ret, next := leader, pos;
    var i := 1;
    while i < seqLen
      invariant 1 <= i <= seqLen && next <= |s|
      invariant Extend(s, pos, seqLen - 1, leader) == Extend(s, next, seqLen - i, ret)
      invariant Accumulates(ret, seqLen - i)
    {
      if At(s, next) == 0 {
        return UTF16_REPLACEMENT_CHAR, next;
      }
      var extension := BitOps.TestExtension(At(s, next));
      if !extension {
        return UTF16_REPLACEMENT_CHAR, next;
      }
      ret := BitOps.AppendByte(ret, At(s, next));
      i := i + 1;
      next := next + 1;
    }
  }

  lemma LeaderAccumulates(b: byte)
    ensures Accumulates(LeaderBits(b), SeqLength(b) - 1)
  {
  }

  /** `getUtf32FromUtf8`: stands still on the terminator and moves on everywhere else. */
  method GetUtf32FromUtf8(s: seq<byte>, pos: nat) returns (ret: nat, next: nat)
    requires IsCString(s) && pos <= |s|
    ensures pos == |s| ==> ret == 0 && next == pos
    ensures pos < |s| ==> Decoded(ret, next) == Next(s, pos)
  {
    next := pos;
    var extension := BitOps.TestExtension(At(s, next));
    if extension {
      return UTF16_REPLACEMENT_CHAR, next + 1;
    }
    var seqLen := BitOps.LookUpLength(At(s, next));
    ret := BitOps.MaskLeader(At(s, next), seqLen);
    if At(s, next) == 0 {
      return;
    }
    LeaderAccumulates(At(s, next));
    ret, next := GetExtensions(s, next + 1, seqLen, ret);
  }

  /** The body shared by the two copy loops: writes the units of one value at `dest`. */
  method PutUnits(utf16Str: array<CodeUnit>, dest: nat, ret: nat) returns (next: nat)
    requires dest + |Units(ret)| <= utf16Str.Length
    modifies utf16Str
    ensures next == dest + |Units(ret)|
    ensures forall k {:trigger utf16Str[k]} :: 0 <= k < utf16Str.Length ==>
              utf16Str[k] == if dest <= k < next then Units(ret)[k - dest] else old(utf16Str[k])
  {
    if ret <= 0xffff {
      utf16Str[dest] := ret;
      next := dest + 1;
    } else if ret <= UNICODE_UPPER_LIMIT {
      var high := BitOps.HighSurrogate(ret);
      var low := BitOps.LowSurrogate(ret);
      utf16Str[dest] := high;
      utf16Str[dest + 1] := low;
      next := dest + 2;
    } else {
      utf16Str[dest] := UTF16_REPLACEMENT_CHAR;
      next := dest + 1;
    }
  }

  /** What was written and what is still to be written, together. */
  predicate Parts(s: seq<byte>, i: nat, end: int, done: seq<CodeUnit>, all: seq<CodeUnit>)
    requires i <= |s| && end <= |s|
  {
    done + DecodeUntil(s, i, end) == all
  }

  lemma PartsStep(s: seq<byte>, i: nat, end: int, done: seq<CodeUnit>, all: seq<CodeUnit>)
    requires i <= |s| && end <= |s| && i < end && Parts(s, i, end, done, all)
    ensures Parts(s, Next(s, i).next, end, done + Units(Next(s, i).value), all)
    ensures |done + Units(Next(s, i).value)| <= |all|
  {
    var us, rest := Units(Next(s, i).value), DecodeUntil(s, Next(s, i).next, end);
    assert done + (us + rest) == (done + us) + rest;
  }

  lemma PartsEnd(s: seq<byte>, i: nat, end: int, done: seq<CodeUnit>, all: seq<CodeUnit>)
    requires i <= |s| && end <= |s| && i >= end && Parts(s, i, end, done, all)
    ensures done == all
  {
  }

  /** One round of either copy loop. */
  method CopyOne(a: array<CodeUnit>, dest: nat, s: seq<byte>, i: nat, ghost done: seq<CodeUnit>, ghost before: seq<CodeUnit>)
    returns (dest': nat, i': nat)
    requires IsCString(s) && i < |s| && Written(a, done, before) && dest == |done|
    requires |done| + |Units(Next(s, i).value)| <= a.Length
    modifies a
    ensures i' == Next(s, i).next && dest' == |done + Units(Next(s, i).value)|
    ensures Written(a, done + Units(Next(s, i).value), before)
  {
    var ret;
    ret, i' := GetUtf32FromUtf8(s, i);
    dest' := PutUnits(a, dest, ret);
  }

  method StrCpy8to16(utf16Str: array<CodeUnit>, s: seq<byte>) returns (outLen: nat)
    requires IsCString(s) && utf16Str.Length >= |Decode(s)|
    modifies utf16Str
    ensures outLen == |Decode(s)| && utf16Str[..outLen] == Decode(s)
    ensures forall k :: outLen <= k < utf16Str.Length ==> utf16Str[k] == old(utf16Str[k])
  {
    var dest, i := 0, 0;
    ghost var done: seq<CodeUnit>, before, all := [], utf16Str[..], Decode(s);
    while At(s, i) != 0
      invariant 0 <= i <= |s| && dest == |done| && Parts(s, i, |s|, done, all)
      invariant Written(utf16Str, done, before)
      decreases |s| - i
    {
      ghost var us := Units(Next(s, i).value);
      PartsStep(s, i, |s|, done, all);
      dest, i := CopyOne(utf16Str, dest, s, i, done, before);
      done := done + us;
    }
    PartsEnd(s, i, |s|, done, all);
    WrittenAll(utf16Str, done, before);
    outLen := dest;
  }

  /** Where the length-limited loop stands after n rounds. */
  function Position(s: seq<byte>, n: nat): (p: nat)
    ensures p <= |s|
  {
    if n == 0 then 0
    else
      var p := Position(s, n - 1);
      if p == |s| then p else Next(s, p).next
  }

  lemma {:induction false} PositionGrows(s: seq<byte>, n: nat)
    requires n <= |s|
    ensures Position(s, n) >= n
  {
    if n > 0 {
      PositionGrows(s, n - 1);
    }
  }

  /** The loop ends if and only if no terminator stands before the length; on one it stands still for ever. */
  lemma LoopEndsExactly(s: seq<byte>, length: int)
    ensures (exists n: nat :: Position(s, n) >= length) <==> length <= |s|
  {
    PositionGrows(s, |s|);
    assert Position(s, |s|) == |s|;
  }

  /**
   * `strcpylen8to16`, for the lengths for which it ends; characters that straddle `length` are decoded
   * whole.
   */
  method StrCpyLen8to16(utf16Str: array<CodeUnit>, s: seq<byte>, length: int32) returns (outLen: nat)
    requires IsCString(s) && length <= |s| && utf16Str.Length >= |DecodeUntil(s, 0, length)|
    modifies utf16Str
    ensures outLen == |DecodeUntil(s, 0, length)| && utf16Str[..outLen] == DecodeUntil(s, 0, length)
    ensures forall k :: outLen <= k < utf16Str.Length ==> utf16Str[k] == old(utf16Str[k])
    ensures length == |s| ==> utf16Str[..outLen] == Decode(s)
  {
    var dest, i := 0, 0;
    ghost var done: seq<CodeUnit>, before, all := [], utf16Str[..], DecodeUntil(s, 0, length);
    while i < length
      invariant 0 <= i <= |s| && dest == |done| && Parts(s, i, length, done, all)
      invariant Written(utf16Str, done, before)
      decreases |s| - i
    {
      ghost var us := Units(Next(s, i).value);
      PartsStep(s, i, length, done, all);
      dest, i := CopyOne(utf16Str, dest, s, i, done, before);
      done := done + us;
    }
    PartsEnd(s, i, length, done, all);
    WrittenAll(utf16Str, done, before);
    outLen := dest;
  }

  /** The test that twice the length does not fit in `size_t`. */
  method OverflowTest(len: nat, sizeMax: nat) returns (overflow: bool)
    ensures overflow <==> 2 * len > sizeMax
  {
    overflow := len != 0 && sizeMax / len < 2;
    if len != 0 {
      QuotientBelowTwo(sizeMax, len);
    }
  }

  lemma QuotientBelowTwo(n: nat, d: nat)
    requires d > 0
    ensures n / d < 2 <==> n < 2 * d
  {
    assert n == n / d * d + n % d;
    if n / d >= 2 {
      assert n / d * d >= 2 * d;
    } else {
      assert n / d * d <= d;
    }
  }

  /**
   * `strdup8to16`: None for a null string or when twice the count overflows `size_t`. When the count itself
   * has wrapped the copy would run past the buffer, which is reported instead.
   */
  method StrDup8to16(s: Option<seq<byte>>, sizeMax: nat) returns (r: array?<CodeUnit>, outLen: nat, overrun: bool)
    requires sizeMax >= 0xffff && (s.Some? ==> IsCString(s.value) && CounterDefined(s.value, 0, 0))
    ensures overrun <==> s.Some? && Overruns(s.value, sizeMax)
    ensures r != null <==> s.Some? && 2 * Counted(s.value, sizeMax) <= sizeMax && !overrun
    ensures r != null ==> fresh(r) && outLen <= r.Length == Counted(s.value, sizeMax) && r[..outLen] == Decode(s.value)
  {
    if s.None? {
      return null, 0, false;
    }
    var len := StrLen8to16(s.value, sizeMax);
    var overflow := OverflowTest(len, sizeMax);
    if overflow {
      return null, 0, false;
    }
    if len < |Decode(s.value)| {
      return null, 0, true;
    }
    var ret := new CodeUnit[len];
    outLen := StrCpy8to16(ret, s.value);
    r, overrun := ret, false;
  }
}
