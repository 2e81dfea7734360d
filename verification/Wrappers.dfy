/** Values shared by the models: an optional result and the integer ranges of the C++ types. */
module Wrappers {
  datatype Option<+T> = None | Some(value: T)

  const INT32_MAX := 0x7fff_ffff

  /** A C++ `int`: every assignment to a variable of this type is checked for overflow. */
  type int32 = x: int | -0x8000_0000 <= x <= INT32_MAX

  type uint32 = x: int | 0 <= x < 0x1_0000_0000

  /** One octet, as an unsigned char. */
  type byte = x: int | 0 <= x < 256

  /** A `char16_t`. */
  type CodeUnit = x: int | 0 <= x < 0x10000

  function Min(a: nat, b: nat): nat {
    if a < b then a else b
  }

  /** `a + b` in `size_t`, a number modulo `sizeMax + 1`. */
  function WrappingAdd(a: nat, b: nat, sizeMax: nat): (s: nat)
    requires a <= sizeMax && b <= sizeMax
    ensures s <= sizeMax && (s == a + b || s + sizeMax + 1 == a + b)
    ensures s < a <==> a + b > sizeMax
  {
    if a + b > sizeMax then a + b - (sizeMax + 1) else a + b
  }

  /** A buffer into which `done` has been written, and that holds what was there before behind it. */
  ghost predicate Written<T>(a: array<T>, done: seq<T>, before: seq<T>)
    reads a
  {
    && |before| == a.Length && |done| <= a.Length
    && forall k {:trigger a[k]} :: 0 <= k < a.Length ==> a[k] == if k < |done| then done[k] else before[k]
  }

  lemma WrittenAll<T>(a: array<T>, done: seq<T>, before: seq<T>)
    requires Written(a, done, before)
    ensures a[..|done|] == done
    ensures forall k :: |done| <= k < a.Length ==> a[k] == before[k]
  {
  }
}
