/** What the decoder makes of every sequence of bytes, well formed or not, in terms of the bytes alone. */
module TolerantDecoder {
  import opened Wrappers
  import opened Utf8To16
  import opened StringRoundTrip

  /** A byte of the form 10xxxxxx stands at a place. */
  predicate Continues(s: seq<byte>, k: nat) {
    k < |s| && 0x80 <= s[k] < 0xc0
  }

  /** How many continuing bytes a leading byte asks for. */
  function Wanted(b: byte): nat {
    if b < 0xc0 then 0 else if b < 0xe0 then 1 else if b < 0xf0 then 2 else 3
  }

  /** What a leading byte holds; 0xf8 to 0xff count as 0xf0 to 0xf7. */
  function Lead(b: byte): nat
    requires b >= 0xc0
  {
    if b < 0xe0 then b - 0xc0 else if b < 0xf0 then b - 0xe0 else if b < 0xf8 then b - 0xf0 else b - 0xf8
  }

  /** What a continuing byte holds. */
  function Six(s: seq<byte>, k: nat): nat
    requires Continues(s, k)
  {
    s[k] - 0x80
  }

  lemma DecodeStep(s: seq<byte>, i: nat, value: nat, next: nat)
    requires i < |s| && Next(s, i) == Decoded(value, next)
    ensures DecodeFrom(s, i) == Units(value) + DecodeFrom(s, next)
  {
  }

  lemma NothingLeft(s: seq<byte>)
    ensures DecodeFrom(s, |s|) == []
  {
  }

  lemma Ascii(s: seq<byte>, i: nat)
    requires i < |s| && s[i] < 0x80
    ensures DecodeFrom(s, i) == [s[i]] + DecodeFrom(s, i + 1)
  {
    assert Next(s, i) == Decoded(s[i], i + 1);
    DecodeStep(s, i, s[i], i + 1);
  }

  /** A continuing byte where a character should begin is one replacement character. */
  lemma StrayByte(s: seq<byte>, i: nat)
    requires Continues(s, i)
    ensures DecodeFrom(s, i) == [0xfffd] + DecodeFrom(s, i + 1)
  {
    assert Next(s, i) == Decoded(0xfffd, i + 1);
    DecodeStep(s, i, 0xfffd, i + 1);
  }

  lemma {:induction false} ExtendBreaks(s: seq<byte>, i: nat, need: nat, ret: nat, j: nat)
    requires i <= j <= |s| && j - i < need
    requires !Continues(s, j) && forall k :: i <= k < j ==> Continues(s, k)
    ensures Extend(s, i, need, ret) == Decoded(0xfffd, j)
    decreases need
  {
    if i < j {
      assert Continues(s, i);
      ExtendBreaks(s, i + 1, need - 1, ret * 64 + s[i] % 64, j);
    }
  }

  /**
   * A leading byte that is followed by fewer continuing bytes than it asks for is, together with them, one
   * replacement character; decoding goes on with the byte that broke the sequence.
   */
  lemma BrokenSequence(s: seq<byte>, i: nat, j: nat)
    requires i < j <= |s| && s[i] >= 0xc0 && j - i - 1 < Wanted(s[i])
    requires !Continues(s, j) && forall k :: i < k < j ==> Continues(s, k)
    ensures DecodeFrom(s, i) == [0xfffd] + DecodeFrom(s, j)
  {
    ExtendBreaks(s, i + 1, Wanted(s[i]), LeaderBits(s[i]), j);
    DecodeStep(s, i, 0xfffd, j);
  }

  lemma ExtendOne(s: seq<byte>, i: nat, need: nat, ret: nat)
    requires Continues(s, i) && need > 0
    ensures Extend(s, i, need, ret) == Extend(s, i + 1, need - 1, ret * 0x40 + Six(s, i))
  {
  }

  lemma LeadIsMasked(b: byte)
    requires b >= 0xc0
    ensures LeaderBits(b) == Lead(b) && SeqLength(b) == Wanted(b) + 1
  {
  }

  /** Complete sequences stand for their value, overlong ones and surrogates too. */
  lemma TwoByteSequence(s: seq<byte>, i: nat)
    requires i < |s| && 0xc0 <= s[i] < 0xe0 && Continues(s, i + 1)
    ensures DecodeFrom(s, i) == [Lead(s[i]) * 0x40 + Six(s, i + 1)] + DecodeFrom(s, i + 2)
  {
    LeadIsMasked(s[i]);
    ExtendOne(s, i + 1, 1, Lead(s[i]));
    DecodeStep(s, i, Lead(s[i]) * 0x40 + Six(s, i + 1), i + 2);
  }

  lemma ThreeByteSequence(s: seq<byte>, i: nat)
    requires i < |s| && 0xe0 <= s[i] < 0xf0 && Continues(s, i + 1) && Continues(s, i + 2)
    ensures DecodeFrom(s, i) == [Lead(s[i]) * 0x1000 + Six(s, i + 1) * 0x40 + Six(s, i + 2)] + DecodeFrom(s, i + 3)
  {
    LeadIsMasked(s[i]);
    ExtendOne(s, i + 1, 2, Lead(s[i]));
    ExtendOne(s, i + 2, 1, Lead(s[i]) * 0x40 + Six(s, i + 1));
    DecodeStep(s, i, Lead(s[i]) * 0x1000 + Six(s, i + 1) * 0x40 + Six(s, i + 2), i + 3);
  }

  lemma ExtendThree(s: seq<byte>, i: nat, ret: nat)
    requires Continues(s, i) && Continues(s, i + 1) && Continues(s, i + 2)
    ensures Extend(s, i, 3, ret)
         == Decoded(ret * 0x40000 + Six(s, i) * 0x1000 + Six(s, i + 1) * 0x40 + Six(s, i + 2), i + 3)
  {
    ExtendOne(s, i, 3, ret);
    ExtendOne(s, i + 1, 2, ret * 0x40 + Six(s, i));
    ExtendOne(s, i + 2, 1, (ret * 0x40 + Six(s, i)) * 0x40 + Six(s, i + 1));
  }

  /**
   * A complete four-byte sequence is one unit, a surrogate pair, or above 0x10fffd one replacement
   * character.
   */
  lemma FourByteSequence(s: seq<byte>, i: nat)
    requires i < |s| && 0xf0 <= s[i] && Continues(s, i + 1) && Continues(s, i + 2) && Continues(s, i + 3)
    ensures var v := Lead(s[i]) * 0x40000 + Six(s, i + 1) * 0x1000 + Six(s, i + 2) * 0x40 + Six(s, i + 3);
            DecodeFrom(s, i)
            == (if v < 0x10000 then [v]
                else if v <= 0x10fffd then [0xd800 + (v - 0x10000) / 0x400, 0xdc00 + (v - 0x10000) % 0x400]
                else [0xfffd])
               + DecodeFrom(s, i + 4)
  {
    var v := Lead(s[i]) * 0x40000 + Six(s, i + 1) * 0x1000 + Six(s, i + 2) * 0x40 + Six(s, i + 3);
    LeadIsMasked(s[i]);
    ExtendThree(s, i + 1, Lead(s[i]));
    DecodeStep(s, i, v, i + 4);
  }

  /** The Latin-1 byte of an e with acute accent, at the end of a text. */
  lemma Latin1End()
    ensures Decode([0xe9]) == [0xfffd]
  {
    BrokenSequence([0xe9], 0, 1);
    NothingLeft([0xe9]);
  }
}
