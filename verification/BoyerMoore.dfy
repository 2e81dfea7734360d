/** The Boyer-Moore search that finds the modem's time stamp in its firmware image. */
module BoyerMoore {
  import opened Wrappers

  const ALPHABET_LEN := 256

  function Max(a: int, b: int): int {
    if a > b then a else b
  }

  // ---------------------------------------------------------------------------------------------
  // What a search is supposed to find
  // ---------------------------------------------------------------------------------------------

  /** Character `k` of the pattern placed at `w` agrees with the text. */
  predicate Hits(str: seq<byte>, pat: seq<byte>, w: nat, k: nat)
    requires k < |pat| && w + |pat| <= |str|
  {
    str[w + k] == pat[k]
  }

  /** `pat` stands in `str` at offset `at`. */
  predicate Occurs(str: seq<byte>, pat: seq<byte>, at: int) {
    0 <= at && at + |pat| <= |str| && forall k :: 0 <= k < |pat| ==> Hits(str, pat, at, k)
  }

  lemma OccursIsSlice(str: seq<byte>, pat: seq<byte>, at: nat)
    requires at + |pat| <= |str|
    ensures Occurs(str, pat, at) <==> str[at..at + |pat|] == pat
  {
    if str[at..at + |pat|] == pat {
      forall k | 0 <= k < |pat| ensures Hits(str, pat, at, k) {
        assert str[at..at + |pat|][k] == pat[k];
      }
    }
    if Occurs(str, pat, at) {
      forall k | 0 <= k < |pat| ensures str[at..at + |pat|][k] == pat[k] {
        assert Hits(str, pat, at, k);
      }
    }
  }

  /** `r` is the offset of the leftmost occurrence, or None when there is none. */
  ghost predicate IsLeftmost(str: seq<byte>, pat: seq<byte>, r: Option<nat>) {
    match r
    case Some(at) => Occurs(str, pat, at) && forall k :: 0 <= k < at ==> !Occurs(str, pat, k)
    case None => forall k :: 0 <= k <= |str| ==> !Occurs(str, pat, k)
  }

  /** The pattern moved right by `s` agrees with itself at index `k`, or has not reached it. */
  predicate AgreesAt(pat: seq<byte>, s: nat, k: nat)
    requires k < |pat|
  {
    s <= k ==> pat[k - s] == pat[k]
  }

  /** The pattern moved right by `s` agrees with itself from index `from` on. */
  predicate TailMatches(pat: seq<byte>, s: nat, from: nat) {
    forall k :: from <= k < |pat| ==> AgreesAt(pat, s, k)
  }

  /** A border starting at `q`: the suffix from `q` on is also a prefix. */
  predicate BorderAt(pat: seq<byte>, q: nat) {
    TailMatches(pat, q, q)
  }

  lemma BorderIsSlice(pat: seq<byte>, q: nat)
    requires q <= |pat|
    ensures BorderAt(pat, q) <==> pat[q..] == pat[..|pat| - q]
  {
    if BorderAt(pat, q) {
      forall i | 0 <= i < |pat| - q ensures pat[q..][i] == pat[..|pat| - q][i] {
        assert AgreesAt(pat, q, q + i);
      }
    }
    if pat[q..] == pat[..|pat| - q] {
      forall k | q <= k < |pat| ensures AgreesAt(pat, q, k) {
        assert pat[q..][k - q] == pat[..|pat| - q][k - q];
      }
    }
  }

  /** No non-empty proper border. */
  predicate Unbordered(pat: seq<byte>) {
    forall q :: 1 <= q < |pat| ==> !BorderAt(pat, q)
  }

  /** One character repeated. */
  predicate Constant(pat: seq<byte>) {
    forall k :: 0 <= k < |pat| ==> pat[k] == pat[0]
  }

  predicate NulFree(s: seq<byte>) {
    forall k :: 0 <= k < |s| ==> s[k] != 0
  }

  /** `strncmp(pat + p, pat, pat_len - p) == 0` from index `i` on; it stops at the first common NUL. */
  predicate StrnEq(pat: seq<byte>, p: nat, i: nat)
    decreases |pat| - i
  {
    p + i >= |pat| || (pat[p + i] == pat[i] && (pat[i] == 0 || StrnEq(pat, p, i + 1)))
  }

  // ---------------------------------------------------------------------------------------------
  // The tables, as functions of the pattern
  // ---------------------------------------------------------------------------------------------

  /** Distance from the end of `pat` to the last `c` before its last character. */
  function BadChar(pat: seq<byte>, c: byte): (d: nat)
    requires |pat| >= 1
    ensures 1 <= d <= |pat|
  {
    BadCharBelow(pat, c, |pat| - 1)
  }

  /** The entry for `c` when only pat[..n] has been looked at. */
  function BadCharBelow(pat: seq<byte>, c: byte, n: nat): (d: nat)
    requires n < |pat|
    ensures |pat| - n <= d <= |pat|
  {
    if n == 0 then |pat|
    else if pat[n - 1] == c then |pat| - n
    else BadCharBelow(pat, c, n - 1)
  }

  /** The entry points at a `c` in pat[..n], and no `c` stands further right. */
  lemma {:induction false} BadCharIsLast(pat: seq<byte>, c: byte, n: nat, k: nat)
    requires k < n < |pat| && pat[k] == c
    ensures var d := BadCharBelow(pat, c, n);
            k <= |pat| - 1 - d < n && pat[|pat| - 1 - d] == c
  {
    if pat[n - 1] != c {
      BadCharIsLast(pat, c, n - 1, k);
    }
  }

  /** Without one, the entry is the length of the pattern. */
  lemma {:induction false} BadCharAbsent(pat: seq<byte>, c: byte, n: nat)
    requires n < |pat| && forall k :: 0 <= k < n ==> pat[k] != c
    ensures BadCharBelow(pat, c, n) == |pat|
  {
    if n > 0 {
      BadCharAbsent(pat, c, n - 1);
    }
  }

  /**
   * Moving the pattern right by `s` is consistent with a window whose characters after index `j`
   * matched and whose character at `j` did not.
   */
  predicate Aligns(pat: seq<byte>, j: nat, s: nat)
    requires j < |pat|
  {
    TailMatches(pat, s, j + 1) && (s <= j ==> pat[j - s] != pat[j])
  }

  /** The value of `last_prefix` once the descending loop has treated index `p`. */
  function LastPrefix(pat: seq<byte>, p: nat): (q: nat)
    requires p < |pat|
    ensures q <= |pat|
    decreases |pat| - p
  {
    if StrnEq(pat, p, 0) then p + 1
    else if p == |pat| - 1 then |pat| - 1
    else LastPrefix(pat, p + 1)
  }

  /**
   * The shift in delta2[j]: the least consistent shift from `s` up to `j`, and the value left by the
   * descending loop when there is none.
   */
  function GoodSuffix(pat: seq<byte>, j: nat, s: nat): (d: nat)
    requires j < |pat|
    ensures d <= |pat|
    decreases j + 1 - s
  {
    if s > j then LastPrefix(pat, j)
    else if Aligns(pat, j, s) then s
    else GoodSuffix(pat, j, s + 1)
  }

  /** Whenever some shift up to `j` is consistent, the table holds the smallest of them. */
  lemma {:induction false} GoodSuffixIsLeast(pat: seq<byte>, j: nat, s: nat, t: nat)
    requires j < |pat| && s <= t <= j && Aligns(pat, j, t)
    ensures s <= GoodSuffix(pat, j, s) <= t
    ensures Aligns(pat, j, GoodSuffix(pat, j, s))
    ensures forall k :: s <= k < GoodSuffix(pat, j, s) ==> !Aligns(pat, j, k)
    decreases t - s
  {
    if !Aligns(pat, j, s) {
      GoodSuffixIsLeast(pat, j, s + 1, t);
    }
  }

  lemma {:induction false} GoodSuffixNone(pat: seq<byte>, j: nat, s: nat)
    requires j < |pat|
    requires forall t :: s <= t <= j ==> !Aligns(pat, j, t)
    ensures GoodSuffix(pat, j, s) == LastPrefix(pat, j)
    decreases j + 1 - s
  {
    if s <= j {
      GoodSuffixNone(pat, j, s + 1);
    }
  }

  lemma {:induction false} StrnEqOfBorder(pat: seq<byte>, p: nat, i: nat)
    requires BorderAt(pat, p)
    ensures StrnEq(pat, p, i)
    decreases |pat| - i
  {
    if p + i < |pat| {
      assert AgreesAt(pat, p, p + i);
      StrnEqOfBorder(pat, p, i + 1);
    }
  }

  lemma {:induction false} StrnEqNulFree(pat: seq<byte>, p: nat, i: nat)
    requires NulFree(pat) && StrnEq(pat, p, i)
    ensures TailMatches(pat, p, p + i)
    decreases |pat| - i
  {
    if p + i < |pat| {
      StrnEqNulFree(pat, p, i + 1);
      assert AgreesAt(pat, p, p + i);
    }
  }

  /** One more than the first index from p on whose suffix is found at the start, or else the last index. */
  lemma {:induction false} LastPrefixIsFirst(pat: seq<byte>, p: nat)
    requires p < |pat|
    ensures var q := LastPrefix(pat, p);
            if exists k :: p <= k < |pat| && StrnEq(pat, k, 0)
            then p < q <= |pat| && StrnEq(pat, q - 1, 0) && forall k :: p <= k < q - 1 ==> !StrnEq(pat, k, 0)
            else q == |pat| - 1
    decreases |pat| - p
  {
    if p < |pat| - 1 {
      LastPrefixIsFirst(pat, p + 1);
    }
  }

  /** At index 0 the whole pattern is compared with itself, so the descending loop ends with 1. */
  lemma LastPrefixAtZero(pat: seq<byte>)
    requires |pat| >= 1
    ensures LastPrefix(pat, 0) == 1
  {
    StrnEqOfBorder(pat, 0, 0);
  }

  lemma {:induction false} LastPrefixPositive(pat: seq<byte>, p: nat)
    requires p < |pat|
    ensures LastPrefix(pat, p) >= 1
    decreases |pat| - p
  {
    if |pat| == 1 {
      LastPrefixAtZero(pat);
    } else if p < |pat| - 1 {
      LastPrefixPositive(pat, p + 1);
    }
  }

  /** Every entry moves the window forward. */
  lemma {:induction false} GoodSuffixPositive(pat: seq<byte>, j: nat, s: nat)
    requires j < |pat| && s >= 1
    ensures GoodSuffix(pat, j, s) >= 1
    decreases j + 1 - s
  {
    if s > j {
      LastPrefixPositive(pat, j);
    } else if !Aligns(pat, j, s) {
      GoodSuffixPositive(pat, j, s + 1);
    }
  }

  // ---------------------------------------------------------------------------------------------
  // Filling the tables
  // ---------------------------------------------------------------------------------------------

  /** delta1 of a pattern. */
  function Delta1(pat: seq<byte>): (d: seq<int>)
    requires |pat| >= 1
    ensures |d| == ALPHABET_LEN && forall c: byte :: d[c] == BadChar(pat, c)
  {
    seq(ALPHABET_LEN, c requires 0 <= c < ALPHABET_LEN => BadChar(pat, c))
  }

  method MakeDelta1(delta1: array<int>, pat: seq<byte>)
    requires delta1.Length == ALPHABET_LEN && 1 <= |pat| <= INT32_MAX
    modifies delta1
    ensures delta1[..] == Delta1(pat)
  {
    var i: uint32 := 0;
    while i < ALPHABET_LEN
      invariant i <= ALPHABET_LEN
      invariant forall k :: 0 <= k < i ==> delta1[k] == |pat|
    {
      var entry: int32 := |pat|;
      delta1[i] := entry;
      i := i + 1;
    }
    i := 0;
    while i < |pat| - 1
      invariant i <= |pat| - 1
      invariant forall c: byte :: delta1[c] == BadCharBelow(pat, c, i)
    {
      var idx := pat[i];
      var entry: int32 := |pat| - 1 - i;
      delta1[idx] := entry;
      i := i + 1;
    }
  }

  /** `i` is the length of the longest common suffix of pat[..p + 1] and `pat`, counted up to `p` only. */
  predicate IsSuffixLen(pat: seq<byte>, p: nat, i: nat)
    requires p < |pat|
  {
    i <= p && TailMatches(pat, |pat| - 1 - p, |pat| - i) && (i == p || pat[p - i] != pat[|pat| - 1 - i])
  }

  method MaxSuffixLen(pat: seq<byte>, p: nat) returns (i: uint32)
    requires p < |pat| <= INT32_MAX
    ensures IsSuffixLen(pat, p, i)
  {
    i := 0;
    while pat[p - i] == pat[|pat| - 1 - i] && i < p
      invariant i <= p && TailMatches(pat, |pat| - 1 - p, |pat| - i)
    {
      i := i + 1;
    }
  }

  /** What the ascending loop finds at `p` concerns exactly one index, and the shift |pat| - 1 - p. */
  lemma SuffixWritesEntry(pat: seq<byte>, p: nat, suf: nat, j: nat)
    requires p < |pat| - 1 && j < |pat| && IsSuffixLen(pat, p, suf)
    ensures (|pat| - 1 - p <= j && Aligns(pat, j, |pat| - 1 - p)) <==>
            (pat[p - suf] != pat[|pat| - 1 - suf] && j == |pat| - 1 - suf)
  {
    var m, s := |pat|, |pat| - 1 - p;
    if s <= j && Aligns(pat, j, s) {
      assert j < m - 1 - suf ==> AgreesAt(pat, s, m - 1 - suf);
      assert j > m - 1 - suf ==> AgreesAt(pat, s, j);
    }
  }

  /** delta2 when the shifts from `s` up have been entered; delta2 of the pattern is Delta2(pat, 1). */
  function Delta2(pat: seq<byte>, s: nat): (d: seq<int>)
    ensures |d| == |pat|
  {
    seq(|pat|, j requires 0 <= j < |pat| => GoodSuffix(pat, j, s) + |pat| - 1 - j)
  }

  /** What the ascending loop does to delta2 at `p`. */
  function Delta2Written(d: seq<int>, pat: seq<byte>, p: nat, suf: nat): seq<int>
    requires |d| == |pat| && suf <= p < |pat| - 1
  {
    if pat[p - suf] != pat[|pat| - 1 - suf] then d[|pat| - 1 - suf := |pat| - 1 - p + suf] else d
  }

  lemma Delta2Step(pat: seq<byte>, p: nat, suf: nat, s: nat)
    requires p < |pat| - 1 && IsSuffixLen(pat, p, suf) && s == |pat| - p
    ensures Delta2Written(Delta2(pat, s), pat, p, suf) == Delta2(pat, s - 1)
  {
    var d, d' := Delta2Written(Delta2(pat, s), pat, p, suf), Delta2(pat, s - 1);
    forall j | 0 <= j < |pat| ensures d[j] == d'[j] {
      SuffixWritesEntry(pat, p, suf, j);
    }
  }

  /** The descending loop: where the next border could start. */
  method PrefixPass(delta2: array<int>, pat: seq<byte>)
    requires 1 <= |pat| && delta2.Length == |pat| && 2 * |pat| <= INT32_MAX
    modifies delta2
    ensures delta2[..] == Delta2(pat, |pat|)
  {
    var m := |pat|;
    var lastPrefix: uint32 := m - 1;
    var p: int32 := m - 1;
    while p >= 0
      invariant -1 <= p < m
      invariant lastPrefix == if p == m - 1 then m - 1 else LastPrefix(pat, p + 1)
      invariant forall j {:trigger delta2[j]} :: p < j < m ==> delta2[j] == LastPrefix(pat, j) + m - 1 - j
    {
      if StrnEq(pat, p, 0) {
        lastPrefix := p + 1;
      }
      var entry: int32 := lastPrefix + (m - 1 - p);
      delta2[p] := entry;
      p := p - 1;
    }
  }

  /** The ascending loop: entries are overwritten, later and so smaller shifts last. */
  method SuffixPass(delta2: array<int>, pat: seq<byte>)
    requires 1 <= |pat| && delta2.Length == |pat| && 2 * |pat| <= INT32_MAX
    requires delta2[..] == Delta2(pat, |pat|)
    modifies delta2
    ensures delta2[..] == Delta2(pat, 1)
  {
    var m := |pat|;
    var p: int32 := 0;
    ghost var s := m;
    while p < m - 1
      invariant 0 <= p <= m - 1 && s == m - p
      invariant delta2[..] == Delta2(pat, s)
    {
      ghost var table := Delta2(pat, s);
      var suf := MaxSuffixLen(pat, p);
      if pat[p - suf] != pat[m - 1 - suf] {
        var entry: int32 := m - 1 - p + suf;
        delta2[m - 1 - suf] := entry;
        assert delta2[..] == table[m - 1 - suf := entry];
      }
      Delta2Step(pat, p, suf, s);
      assert delta2[..] == Delta2Written(table, pat, p, suf);
      p := p + 1;
      s := s - 1;
    }
  }

  method MakeDelta2(delta2: array<int>, pat: seq<byte>)
    requires 1 <= |pat| && delta2.Length == |pat| && 2 * |pat| <= INT32_MAX
    modifies delta2
    ensures delta2[..] == Delta2(pat, 1)
  {
    PrefixPass(delta2, pat);
    SuffixPass(delta2, pat);
  }

  // ---------------------------------------------------------------------------------------------
  // The scan
  // ---------------------------------------------------------------------------------------------

  /** The largest index below `n` at which the pattern placed at `w` differs from the text, or -1. */
  function Mismatch(str: seq<byte>, pat: seq<byte>, w: nat, n: nat): (j: int)
    requires n <= |pat| && w + |pat| <= |str|
    ensures -1 <= j < n
  {
    if n == 0 then -1
    else if !Hits(str, pat, w, n - 1) then n - 1
    else Mismatch(str, pat, w, n - 1)
  }

  lemma {:induction false} MismatchIsLast(str: seq<byte>, pat: seq<byte>, w: nat, n: nat)
    requires n <= |pat| && w + |pat| <= |str|
    ensures var j := Mismatch(str, pat, w, n);
            (j >= 0 ==> !Hits(str, pat, w, j)) && forall k :: j < k < n ==> Hits(str, pat, w, k)
  {
    if n > 0 && Hits(str, pat, w, n - 1) {
      MismatchIsLast(str, pat, w, n - 1);
    }
  }

  lemma {:induction false} MismatchUnique(str: seq<byte>, pat: seq<byte>, w: nat, n: nat, j: nat)
    requires j < n <= |pat| && w + |pat| <= |str|
    requires !Hits(str, pat, w, j) && forall k :: j < k < n ==> Hits(str, pat, w, k)
    ensures Mismatch(str, pat, w, n) == j
  {
    if n > j + 1 {
      MismatchUnique(str, pat, w, n - 1, j);
    }
  }

  /** The two tables of a pattern. */
  datatype Tables = Tables(delta1: seq<int>, delta2: seq<int>)

  /** Entries are such that every mismatch moves the window forward, by at most the pattern's length. */
  ghost predicate Advances(t: Tables, m: nat) {
    |t.delta1| == ALPHABET_LEN && |t.delta2| == m &&
    (forall c: byte :: 1 <= t.delta1[c] <= m) &&
    (forall j :: 0 <= j < m ==> m - j <= t.delta2[j] <= 2 * m - 1 - j)
  }

  /** The tables of `pat`. */
  function TablesOf(pat: seq<byte>): (t: Tables)
    requires |pat| >= 1
    ensures t == Tables(Delta1(pat), Delta2(pat, 1)) && Advances(t, |pat|)
  {
    var t := Tables(Delta1(pat), Delta2(pat, 1));
    assert Advances(t, |pat|) by {
      forall j | 0 <= j < |pat| ensures |pat| - j <= t.delta2[j] <= 2 * |pat| - 1 - j {
        GoodSuffixPositive(pat, j, 1);
      }
    }
    t
  }

  /** What is added to the text position after its character `c` mismatched pat[j]. */
  function Skip(t: Tables, m: nat, c: byte, j: nat): (d: nat)
    requires Advances(t, m) && j < m
    ensures m - j <= d <= 2 * m - 1 - j
  {
    Max(t.delta1[c], t.delta2[j])
  }

  /** The answer of the search that starts with the window at `w`. */
  function Scan(str: seq<byte>, pat: seq<byte>, t: Tables, w: nat): (r: Option<nat>)
    requires |pat| >= 1 && Advances(t, |pat|)
    decreases |str| - w
  {
    if w + |pat| > |str| then None
    else
      var j := Mismatch(str, pat, w, |pat|);
      if j < 0 then Some(w) else Scan(str, pat, t, w + j + Skip(t, |pat|, str[w + j], j) - (|pat| - 1))
  }

  /** The answer of the search. */
  function Find(str: seq<byte>, pat: seq<byte>): (r: Option<nat>)
    requires |pat| >= 1
  {
    Scan(str, pat, TablesOf(pat), 0)
  }

  /** A window that mismatches at `j` is followed by the one that the skip leads to. */
  lemma ScanSkips(str: seq<byte>, pat: seq<byte>, t: Tables, w: nat, j: nat)
    requires |pat| >= 1 && Advances(t, |pat|) && j < |pat| && w + |pat| <= |str|
    requires Mismatch(str, pat, w, |pat|) == j
    ensures var w' := w + j + Skip(t, |pat|, str[w + j], j) - (|pat| - 1);
            w < w' <= w + |pat| && Scan(str, pat, t, w) == Scan(str, pat, t, w')
  {
  }

  method SkipFrom(delta1: array<int>, delta2: array<int>, c: byte, j: nat, ghost t: Tables, ghost m: nat) returns (d: nat)
    requires Advances(t, m) && j < m && delta1[..] == t.delta1 && delta2[..] == t.delta2
    ensures d == Skip(t, m, c, j)
  {
    d := Max(delta1[c], delta2[j]);
  }

  /** The two nested loops of `bm_search`, for any tables that advance. */
  method ScanLoop(str: seq<byte>, pat: seq<byte>, delta1: array<int>, delta2: array<int>, ghost t: Tables)
    returns (r: Option<nat>)
    requires 1 <= |pat| && |str| + 2 * |pat| <= INT32_MAX
    requires Advances(t, |pat|) && delta1[..] == t.delta1 && delta2[..] == t.delta2
    ensures r == Scan(str, pat, t, 0)
  {
    var i: int32 := |pat| - 1;
    ghost var w := 0;
    while i < |str|
      invariant 0 <= w <= |str| && i == w + |pat| - 1
      invariant Scan(str, pat, t, 0) == Scan(str, pat, t, w)
      decreases |str| - i
    {
      var j: int32 := |pat| - 1;
      while j >= 0 && str[i] == pat[j]
        invariant -1 <= j < |pat| && i == w + j
        invariant Mismatch(str, pat, w, |pat|) == Mismatch(str, pat, w, j + 1)
      {
        assert Hits(str, pat, w, j);
        i := i - 1;
        j := j - 1;
      }
      if j < 0 {
        return Some(i + 1);
      }
      assert !Hits(str, pat, w, j);
      ScanSkips(str, pat, t, w, j);
      var skip := SkipFrom(delta1, delta2, str[i], j, t, |pat|);
      w := w + j + skip - (|pat| - 1);
      i := i + skip;
    }
    return None;
  }

  /**
   * `bm_search`, for any pattern the C++ function can be called with. Offsets stand for pointers into
   * `str`. Every index is in bounds and no `int` overflows.
   */
  method Search(str: seq<byte>, pat: seq<byte>) returns (r: Option<nat>)
    requires 1 <= |pat| && |str| + 2 * |pat| <= INT32_MAX
    ensures r == Find(str, pat)
    ensures r.Some? ==> Occurs(str, pat, r.value)
    ensures SkipSafe(pat) ==> IsLeftmost(str, pat, r)
  {
    var delta1 := new int[ALPHABET_LEN];
    var delta2 := new int[|pat|];
    MakeDelta1(delta1, pat);
    MakeDelta2(delta2, pat);
    r := ScanLoop(str, pat, delta1, delta2, TablesOf(pat));
    FindIsCorrect(str, pat);
  }

  lemma {:induction false} ScanIsSound(str: seq<byte>, pat: seq<byte>, t: Tables, w: nat)
    requires |pat| >= 1 && Advances(t, |pat|)
    ensures var r := Scan(str, pat, t, w); r.Some? ==> Occurs(str, pat, r.value)
    decreases |str| - w
  {
    if w + |pat| <= |str| {
      var j := Mismatch(str, pat, w, |pat|);
      MismatchIsLast(str, pat, w, |pat|);
      if j >= 0 {
        ScanIsSound(str, pat, t, w + j + Skip(t, |pat|, str[w + j], j) - (|pat| - 1));
      }
    }
  }

  // ---------------------------------------------------------------------------------------------
  // When the skips are safe
  // ---------------------------------------------------------------------------------------------

  /** No entry of delta2 is larger than a consistent shift. */
  ghost predicate SkipSafe(pat: seq<byte>) {
    forall j, s :: 0 <= j < |pat| && 1 <= s < GoodSuffix(pat, j, 1) ==> !Aligns(pat, j, s)
  }

  /** An occurrence `s` places after a window that mismatched at `j` is a consistent shift. */
  lemma OccurrenceAligns(str: seq<byte>, pat: seq<byte>, w: nat, j: nat, s: nat)
    requires j < |pat| && w + |pat| <= |str| && s >= 1
    requires Mismatch(str, pat, w, |pat|) == j
    requires Occurs(str, pat, w + s)
    ensures Aligns(pat, j, s)
    ensures s <= j ==> pat[j - s] == str[w + j]
  {
    MismatchIsLast(str, pat, w, |pat|);
    forall k | j < k < |pat| ensures AgreesAt(pat, s, k) {
      assert Hits(str, pat, w, k);
      assert s <= k ==> Hits(str, pat, w + s, k - s);
    }
    assert s <= j ==> Hits(str, pat, w + s, j - s);
  }

  /** The bad-character table never moves the pattern past a place where pat[j - s] is `c`. */
  lemma BadCharIsSafe(pat: seq<byte>, c: byte, j: nat, s: nat)
    requires 1 <= s && j < |pat| && (s <= j ==> pat[j - s] == c)
    ensures BadChar(pat, c) <= s + |pat| - 1 - j
  {
    if s <= j {
      BadCharIsLast(pat, c, |pat| - 1, j - s);
    }
  }

  lemma SkippedWindow(str: seq<byte>, pat: seq<byte>, t: Tables, w: nat, j: nat, k: nat)
    requires j < |pat| && w + |pat| <= |str| && SkipSafe(pat) && t == TablesOf(pat)
    requires Mismatch(str, pat, w, |pat|) == j
    requires w <= k < w + j + Skip(t, |pat|, str[w + j], j) - (|pat| - 1)
    ensures !Occurs(str, pat, k)
  {
    if k == w {
      MismatchIsLast(str, pat, w, |pat|);
    } else if Occurs(str, pat, k) {
      OccurrenceAligns(str, pat, w, j, k - w);
      BadCharIsSafe(pat, str[w + j], j, k - w);
    }
  }

  lemma {:induction false} ScanIsLeftmost(str: seq<byte>, pat: seq<byte>, t: Tables, w: nat)
    requires |pat| >= 1 && SkipSafe(pat) && t == TablesOf(pat)
    requires forall k :: 0 <= k < w ==> !Occurs(str, pat, k)
    ensures IsLeftmost(str, pat, Scan(str, pat, t, w))
    decreases |str| - w
  {
    if w + |pat| <= |str| {
      var j := Mismatch(str, pat, w, |pat|);
      if j < 0 {
        MismatchIsLast(str, pat, w, |pat|);
      } else {
        var w' := w + j + Skip(t, |pat|, str[w + j], j) - (|pat| - 1);
        forall k | w <= k < w' ensures !Occurs(str, pat, k) {
          SkippedWindow(str, pat, t, w, j, k);
        }
        ScanIsLeftmost(str, pat, t, w');
      }
    }
  }

  /** Whatever the pattern, an answer is an occurrence; with safe skips it is the leftmost one. */
  lemma FindIsCorrect(str: seq<byte>, pat: seq<byte>)
    requires |pat| >= 1
    ensures Find(str, pat).Some? ==> Occurs(str, pat, Find(str, pat).value)
    ensures SkipSafe(pat) ==> IsLeftmost(str, pat, Find(str, pat))
  {
    ScanIsSound(str, pat, TablesOf(pat), 0);
    if SkipSafe(pat) {
      ScanIsLeftmost(str, pat, TablesOf(pat), 0);
    }
  }

  /** A text on which an unsafe entry makes the search run past the only window that matches. */
  lemma UnsafeSkipMisses(pat: seq<byte>, j: nat, s: nat) returns (str: seq<byte>)
    requires j < |pat| && 1 <= s < GoodSuffix(pat, j, 1) && Aligns(pat, j, s)
    ensures Find(str, pat) == None && Occurs(str, pat, s)
    ensures |str| < 2 * |pat|
  {
    var m := |pat|;
    if s <= j {
      GoodSuffixIsLeast(pat, j, 1, s);
      assert false;
    }
    var c: byte := if pat[j] == 0 then 1 else 0;
    str := pat[j := c] + pat[m - s..];
    forall k | 0 <= k < m ensures Hits(str, pat, s, k) {
      if s + k < m {
        assert AgreesAt(pat, s, s + k);
      }
    }
    MismatchUnique(str, pat, 0, m, j);
    var w' := 0 + j + Skip(TablesOf(pat), m, str[0 + j], j) - (m - 1);
    assert w' > s;
    assert Scan(str, pat, TablesOf(pat), w') == None;
  }

  /** The search finds the leftmost occurrence in every text exactly when the skips are safe. */
  lemma CompleteExactlyWhenSkipSafe(pat: seq<byte>)
    requires |pat| >= 1
    ensures SkipSafe(pat) <==> forall str :: IsLeftmost(str, pat, Find(str, pat))
  {
    if SkipSafe(pat) {
      forall str ensures IsLeftmost(str, pat, Find(str, pat)) {
        FindIsCorrect(str, pat);
      }
    } else {
      var j, s :| 0 <= j < |pat| && 1 <= s < GoodSuffix(pat, j, 1) && Aligns(pat, j, s);
      var str := UnsafeSkipMisses(pat, j, s);
      assert !IsLeftmost(str, pat, Find(str, pat));
    }
  }

  // ---------------------------------------------------------------------------------------------
  // The same condition in terms of the pattern alone
  // ---------------------------------------------------------------------------------------------

  lemma {:induction false} PeriodOneIsConstant(pat: seq<byte>, k: nat)
    requires k < |pat| && BorderAt(pat, 1)
    ensures pat[k] == pat[0]
  {
    if k > 0 {
      PeriodOneIsConstant(pat, k - 1);
      assert AgreesAt(pat, 1, k);
    }
  }

  lemma {:induction false} LastPrefixFindsBorder(pat: seq<byte>, p: nat, q: nat)
    requires 1 <= p <= q < |pat| && BorderAt(pat, q) && NulFree(pat)
    ensures p < LastPrefix(pat, p) <= q + 1
    ensures BorderAt(pat, LastPrefix(pat, p) - 1)
    decreases |pat| - p
  {
    if StrnEq(pat, p, 0) {
      StrnEqNulFree(pat, p, 0);
    } else {
      if p == q {
        StrnEqOfBorder(pat, p, 0);
      }
      LastPrefixFindsBorder(pat, p + 1, q);
    }
  }

  lemma UnborderedIsSkipSafe(pat: seq<byte>)
    requires Unbordered(pat)
    ensures SkipSafe(pat)
  {
    forall j, s | 0 <= j < |pat| && 1 <= s < GoodSuffix(pat, j, 1)
      ensures !Aligns(pat, j, s)
    {
      if s > j {
        assert Aligns(pat, j, s) ==> BorderAt(pat, s);
      } else if Aligns(pat, j, s) {
        GoodSuffixIsLeast(pat, j, 1, s);
      }
    }
  }

  lemma ConstantIsSkipSafe(pat: seq<byte>)
    requires Constant(pat)
    ensures SkipSafe(pat)
  {
    forall j, s | 0 <= j < |pat| && 1 <= s < GoodSuffix(pat, j, 1)
      ensures !Aligns(pat, j, s)
    {
      if Aligns(pat, j, s) {
        assert s > j;
        GoodSuffixNone(pat, j, 1);
        assert BorderAt(pat, j);
        StrnEqOfBorder(pat, j, 0);
      }
    }
  }

  /** Index 1 has an unsafe entry in every bordered pattern that is not one repeated character. */
  lemma BorderedIsUnsafe(pat: seq<byte>, q: nat)
    requires 1 <= q < |pat| && BorderAt(pat, q) && NulFree(pat) && !Constant(pat)
    ensures !SkipSafe(pat)
  {
    if BorderAt(pat, 1) {
      forall k | 0 <= k < |pat| ensures pat[k] == pat[0] {
        PeriodOneIsConstant(pat, k);
      }
    }
    assert AgreesAt(pat, q, q);
    if Aligns(pat, 1, 1) {
      AlignedTail(pat, q);
      assert false;
    }
    GoodSuffixNone(pat, 1, 1);
    LastPrefixFindsBorder(pat, 1, q);
    var s := LastPrefix(pat, 1) - 1;
    assert Aligns(pat, 1, s);
  }

  /** Shift 1 at index 1 makes all characters from the second on equal. */
  lemma {:induction false} AlignedTail(pat: seq<byte>, k: nat)
    requires 1 <= k < |pat| && Aligns(pat, 1, 1)
    ensures pat[k] == pat[1]
  {
    if k > 1 {
      AlignedTail(pat, k - 1);
      assert AgreesAt(pat, 1, k);
    }
  }

  /**
   * For a pattern without NULs the search is right on every text if and only if the pattern has no
   * non-empty proper border or repeats a single character.
   */
  lemma CompleteExactlyWhenUnborderedOrConstant(pat: seq<byte>)
    requires |pat| >= 1 && NulFree(pat)
    ensures (Unbordered(pat) || Constant(pat)) <==> forall str :: IsLeftmost(str, pat, Find(str, pat))
  {
    CompleteExactlyWhenSkipSafe(pat);
    if Unbordered(pat) {
      UnborderedIsSkipSafe(pat);
    } else if Constant(pat) {
      ConstantIsSkipSafe(pat);
    } else {
      var q :| 1 <= q < |pat| && BorderAt(pat, q);
      BorderedIsUnsafe(pat, q);
    }
  }

  // ---------------------------------------------------------------------------------------------
  // The pattern the updater ships with, and the smallest pattern that fails
  // ---------------------------------------------------------------------------------------------

  /** `Time_Stamp": "` */
  const MODEM_VER_STR: seq<byte> := [84, 105, 109, 101, 95, 83, 116, 97, 109, 112, 34, 58, 32, 34]
  const MODEM_VER_STR_LEN := 14

  lemma ShippedPatternIsComplete(str: seq<byte>)
    ensures |MODEM_VER_STR| == MODEM_VER_STR_LEN && NulFree(MODEM_VER_STR)
    ensures IsLeftmost(str, MODEM_VER_STR, Find(str, MODEM_VER_STR))
  {
    var pat := MODEM_VER_STR;
    forall q | 1 <= q < |pat| ensures !BorderAt(pat, q) {
      assert !AgreesAt(pat, q, q);
    }
    UnborderedIsSkipSafe(pat);
    FindIsCorrect(str, pat);
  }

  /** "aba" stands in "acaba" and is not found. */
  lemma BorderedPatternCanBeMissed()
    ensures var str, pat: seq<byte> := [97, 99, 97, 98, 97], [97, 98, 97];
            Occurs(str, pat, 2) && Find(str, pat) == None
  {
    var pat: seq<byte> := [97, 98, 97];
    assert BorderAt(pat, 2);
    assert !Aligns(pat, 1, 1) by { assert !AgreesAt(pat, 1, 2); }
    assert NulFree(pat);
    GoodSuffixNone(pat, 1, 1);
    LastPrefixFindsBorder(pat, 1, 2);
    assert GoodSuffix(pat, 1, 1) == 3;
    var str := [97, 99, 97, 98, 97];
    MismatchUnique(str, pat, 0, 3, 1);
  }
}
