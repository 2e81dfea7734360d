/** The adapter table as an array that changes in place, and the event mask of its adapters. */
module AdapterMachine {
  import opened Wrappers
  import opened AdapterTable

  /** A set of event bits. */
  type EventMask = bv64

  class LocAdapter {
    var evtMask: EventMask

    constructor (mask: EventMask)
      ensures evtMask == mask
    {
      evtMask := mask;
    }
  }

  // ---------------------------------------------------------------------------------------------
  // Masks
  // ---------------------------------------------------------------------------------------------

  /** Every bit of one mask is in the other. */
  predicate Within(a: EventMask, b: EventMask) {
    a & !b == 0
  }

  /** The union of the first n masks. */
  function Union(ms: seq<LocAdapter>, n: nat): EventMask
    requires n <= |ms|
    reads ms
  {
    if n == 0 then 0 else Union(ms, n - 1) | ms[n - 1].evtMask
  }

  lemma OrWithin(a: EventMask, b: EventMask, x: EventMask)
    requires Within(a, x) && Within(b, x)
    ensures Within(a | b, x)
  {
  }

  lemma WithinOr(a: EventMask, b: EventMask)
    ensures Within(a, a | b) && Within(b, a | b)
  {
  }

  lemma WithinThrough(a: EventMask, b: EventMask, c: EventMask)
    requires Within(a, b) && Within(b, c)
    ensures Within(a, c)
  {
  }

  lemma WithinBoth(a: EventMask, b: EventMask)
    requires Within(a, b) && Within(b, a)
    ensures a == b
  {
  }

  /** The union has every adapter's bits. */
  lemma {:induction false} UnionHasEach(ms: seq<LocAdapter>, n: nat, k: nat)
    requires k < n <= |ms|
    ensures Within(ms[k].evtMask, Union(ms, n))
  {
    WithinOr(Union(ms, n - 1), ms[n - 1].evtMask);
    if k < n - 1 {
      UnionHasEach(ms, n - 1, k);
      WithinThrough(ms[k].evtMask, Union(ms, n - 1), Union(ms, n));
    }
  }

  /** It is within any mask that has them. */
  lemma {:induction false} UnionIsLeast(ms: seq<LocAdapter>, n: nat, x: EventMask)
    requires n <= |ms| && forall k :: 0 <= k < n ==> Within(ms[k].evtMask, x)
    ensures Within(Union(ms, n), x)
  {
    if n > 0 {
      UnionIsLeast(ms, n - 1, x);
      OrWithin(Union(ms, n - 1), ms[n - 1].evtMask, x);
    }
  }

  lemma UnionGrows(ms: seq<LocAdapter>, ns: seq<LocAdapter>)
    requires forall a :: a in ms ==> a in ns
    ensures Within(Union(ms, |ms|), Union(ns, |ns|))
  {
    forall k | 0 <= k < |ms| ensures Within(ms[k].evtMask, Union(ns, |ns|)) {
      assert ms[k] in ns;
      var j :| 0 <= j < |ns| && ns[j] == ms[k];
      UnionHasEach(ns, |ns|, j);
    }
    UnionIsLeast(ms, |ms|, Union(ns, |ns|));
  }

  /** The event mask depends on which adapters there are, in whatever order removals have left them. */
  lemma OrderIsIrrelevant(ms: seq<LocAdapter>, ns: seq<LocAdapter>)
    requires Members(ms) == Members(ns)
    ensures Union(ms, |ms|) == Union(ns, |ns|)
  {
    forall a ensures a in ms <==> a in ns {
      assert a in Members(ms) <==> a in Members(ns);
    }
    UnionGrows(ms, ns);
    UnionGrows(ns, ms);
    WithinBoth(Union(ms, |ms|), Union(ns, |ns|));
  }

  /** A bit of an adapter is in the event mask unless it is excluded. */
  lemma BitIsReported(ms: seq<LocAdapter>, excluded: EventMask, k: nat, bit: EventMask)
    requires k < |ms| && Within(bit, ms[k].evtMask) && bit & excluded == 0
    ensures Within(bit, Union(ms, |ms|) & !excluded)
  {
    UnionHasEach(ms, |ms|, k);
    WithinThrough(bit, ms[k].evtMask, Union(ms, |ms|));
    NotExcluded(bit, Union(ms, |ms|), excluded);
  }

  lemma NotExcluded(bit: EventMask, m: EventMask, excluded: EventMask)
    requires Within(bit, m) && bit & excluded == 0
    ensures Within(bit, m & !excluded)
  {
  }

  /** A bit that no adapter has, or that is excluded, is not. */
  lemma BitIsNotReported(ms: seq<LocAdapter>, excluded: EventMask, bit: EventMask)
    requires (forall k :: 0 <= k < |ms| ==> Within(ms[k].evtMask, !bit)) || Within(bit, excluded)
    ensures bit & (Union(ms, |ms|) & !excluded) == 0
  {
    if forall k :: 0 <= k < |ms| ==> Within(ms[k].evtMask, !bit) {
      UnionIsLeast(ms, |ms|, !bit);
      Separate(bit, Union(ms, |ms|), excluded);
    } else {
      Excluded(bit, Union(ms, |ms|), excluded);
    }
  }

  lemma Separate(bit: EventMask, m: EventMask, excluded: EventMask)
    requires Within(m, !bit)
    ensures bit & (m & !excluded) == 0
  {
  }

  lemma Excluded(bit: EventMask, m: EventMask, excluded: EventMask)
    requires Within(bit, excluded)
    ensures bit & (m & !excluded) == 0
  {
  }

  // ---------------------------------------------------------------------------------------------
  // The table
  // ---------------------------------------------------------------------------------------------

  class LocApi {
    const mLocAdapters: array<LocAdapter?>
    const excludedMask: EventMask
    ghost var members: seq<LocAdapter>
    ghost var log: seq<Message<LocAdapter>>

    /** The members, and then nothing. */
    ghost predicate Holds(ms: seq<LocAdapter>)
      reads mLocAdapters
    {
      && mLocAdapters.Length == MAX_ADAPTERS && |ms| <= MAX_ADAPTERS
      && (forall k {:trigger mLocAdapters[k]} :: 0 <= k < |ms| ==> mLocAdapters[k] == ms[k])
      && (forall k {:trigger mLocAdapters[k]} :: |ms| <= k < MAX_ADAPTERS ==> mLocAdapters[k] == null)
    }

    ghost predicate Valid()
      reads this, mLocAdapters
    {
      Holds(members) && Distinct(members)
    }

    ghost function Abs(): Table<LocAdapter>
      reads this
    {
      Table(members, log)
    }

    constructor (excluded: EventMask)
      ensures Valid() && Abs() == Table([], []) && fresh(mLocAdapters)
    {
      mLocAdapters := new LocAdapter?[MAX_ADAPTERS](_ => null);
      excludedMask, members, log := excluded, [], [];
    }

    /** Nothing happens for null: the loop ends at the first free place. */
    method AddAdapter(adapter: LocAdapter?)
      requires Valid()
      modifies mLocAdapters, this`members, this`log
      ensures Valid() && Abs() == if adapter == null then old(Abs()) else Add(old(Abs()), adapter)
    {
      var i := 0;
      while i < MAX_ADAPTERS && mLocAdapters[i] != adapter
        invariant 0 <= i <= |members| && Valid() && Abs() == old(Abs())
        invariant forall k :: 0 <= k < i ==> members[k] != adapter
      {
        if mLocAdapters[i] == null {
          mLocAdapters[i] := adapter;
          members := members + [adapter];
          log := log + [Open(Some(adapter))];
          return;
        }
        i := i + 1;
      }
    }

    /** Take one out at i, move the last one there, and stop at the last place. */
    method Compact(first: nat, ghost adapter: LocAdapter) returns (i: nat)
      requires Valid() && first < |members| && members[first] == adapter
      modifies mLocAdapters, this`members
      ensures Valid() && members == Hole(old(members), first) && i == |members|
    {
      mLocAdapters[first] := null;
      i := first + 1;
      while i < MAX_ADAPTERS && mLocAdapters[i] != null
        invariant first < i <= |members|
        invariant forall k {:trigger mLocAdapters[k]} :: 0 <= k < |members| && k != first ==> mLocAdapters[k] == members[k]
        invariant forall k {:trigger mLocAdapters[k]} :: |members| <= k < MAX_ADAPTERS ==> mLocAdapters[k] == null
      {
        i := i + 1;
      }
      i := i - 1;
      mLocAdapters[first] := mLocAdapters[i];
      mLocAdapters[i] := null;
      HoleRemoves(members, first);
      members := Hole(members, first);
    }

    method RemoveAdapter(adapter: LocAdapter?)
      requires Valid()
      modifies mLocAdapters, this`members, this`log
      ensures Valid() && Abs() == if adapter == null then old(Abs()) else Remove(old(Abs()), adapter)
    {
      var i := 0;
      while i < MAX_ADAPTERS && mLocAdapters[i] != null
        invariant 0 <= i <= |members| + 1
        invariant Valid()
        invariant i <= |members| ==> Abs() == old(Abs()) && forall k :: 0 <= k < i ==> members[k] != adapter
        invariant i == |members| + 1 ==> adapter != null && Abs() == Remove(old(Abs()), adapter) && (i < MAX_ADAPTERS ==> mLocAdapters[i] == null)
      {
        if mLocAdapters[i] == adapter {
          i := Compact(i, adapter);
          if i == 0 {
            log := log + [Close];
          } else {
            log := log + [Open(None)];
          }
        }
        i := i + 1;
      }
    }

    /** One more adapter's bits. */
    method OrMask(mask: EventMask, i: nat) returns (r: EventMask)
      requires Valid() && i < |members| && mask == Union(members, i)
      ensures r == Union(members, i + 1)
    {
      var adapter := mLocAdapters[i];
      r := mask | adapter.evtMask;
    }

    method AllMasks() returns (mask: EventMask)
      requires Valid()
      ensures mask == Union(members, |members|)
    {
      mask := 0;
      var i := 0;
      while i < MAX_ADAPTERS && mLocAdapters[i] != null
        invariant 0 <= i <= |members| && mask == Union(members, i)
      {
        mask := OrMask(mask, i);
        i := i + 1;
      }
    }

    method GetEvtMask() returns (r: EventMask)
      requires Valid()
      ensures r == Union(members, |members|) & !excludedMask
    {
      var mask := AllMasks();
      r := mask & !excludedMask;
    }
  }
}
