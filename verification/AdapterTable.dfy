/** The fixed table of location adapters, kept without holes by a loop that reuses its own index. */
module AdapterTable {
  import opened Wrappers

  const MAX_ADAPTERS := 10

  /** Messages to the engine: open, for one adapter or for the table as it is, and close. */
  datatype Message<T> = Open(adapter: Option<T>) | Close

  datatype Table<T> = Table(members: seq<T>, log: seq<Message<T>>)

  predicate Distinct<T(==)>(ms: seq<T>) {
    forall i, j :: 0 <= i < j < |ms| ==> ms[i] != ms[j]
  }

  function IndexOf<T(==)>(ms: seq<T>, a: T): (i: nat)
    requires a in ms
    ensures i < |ms| && ms[i] == a
    ensures forall k :: 0 <= k < i ==> ms[k] != a
  {
    if a in ms[..|ms| - 1] then IndexOf(ms[..|ms| - 1], a) else |ms| - 1
  }

  /** A new adapter goes to the end, if there is room. */
  function Add<T(==)>(t: Table<T>, a: T): Table<T> {
    if a in t.members || |t.members| >= MAX_ADAPTERS then t
    else Table(t.members + [a], t.log + [Open(Some(a))])
  }

  /** The last one moves into the hole. */
  function Hole<T>(ms: seq<T>, j: nat): (r: seq<T>)
    requires j < |ms|
    ensures |r| == |ms| - 1
  {
    ms[j := ms[|ms| - 1]][..|ms| - 1]
  }

  function Remove<T(==)>(t: Table<T>, a: T): Table<T> {
    if a !in t.members then t
    else Table(Hole(t.members, IndexOf(t.members, a)), t.log + [if |t.members| == 1 then Close else Open(None)])
  }

  datatype Op<T> = AddAdapter(adapter: T) | RemoveAdapter(adapter: T)

  function Step<T(==)>(t: Table<T>, op: Op<T>): Table<T> {
    match op
    case AddAdapter(a) => Add(t, a)
    case RemoveAdapter(a) => Remove(t, a)
  }

  function Run<T(==)>(ops: seq<Op<T>>): Table<T> {
    if ops == [] then Table([], []) else Step(Run(ops[..|ops| - 1]), ops[|ops| - 1])
  }

  // ---------------------------------------------------------------------------------------------
  // The table is a set of bounded size
  // ---------------------------------------------------------------------------------------------

  function Members<T>(ms: seq<T>): set<T> {
    set a | a in ms
  }

  lemma MembersMore<T>(ms: seq<T>, a: T)
    ensures Members(ms + [a]) == Members(ms) + {a}
  {
    forall b ensures b in Members(ms + [a]) <==> b in Members(ms) + {a} {
      assert b in ms + [a] <==> b in ms || b == a;
    }
  }

  lemma {:induction false} MembersCount<T>(ms: seq<T>)
    requires Distinct(ms)
    ensures |Members(ms)| == |ms|
  {
    if ms != [] {
      var front, last := ms[..|ms| - 1], ms[|ms| - 1];
      MembersCount(front);
      MembersMore(front, last);
      assert ms == front + [last];
      assert last !in front;
    }
  }

  /** The simple set that the table stands for. */
  function SetStep<T(==)>(s: set<T>, op: Op<T>): set<T> {
    match op
    case AddAdapter(a) => if |s| < MAX_ADAPTERS then s + {a} else s
    case RemoveAdapter(a) => s - {a}
  }

  function SetRun<T(==)>(ops: seq<Op<T>>): set<T> {
    if ops == [] then {} else SetStep(SetRun(ops[..|ops| - 1]), ops[|ops| - 1])
  }

  /** Moving the last one into the hole loses and doubles nothing. */
  lemma HoleRemoves<T>(ms: seq<T>, j: nat)
    requires Distinct(ms) && j < |ms|
    ensures Distinct(Hole(ms, j))
    ensures Members(Hole(ms, j)) == Members(ms) - {ms[j]}
  {
    var r, last := Hole(ms, j), |ms| - 1;
    forall a | a in ms && a != ms[j] ensures a in r {
      var k :| 0 <= k < |ms| && ms[k] == a;
      assert if k == last then r[j] == a else r[k] == a;
    }
    forall k | 0 <= k < |r| ensures r[k] in ms && r[k] != ms[j] {
      assert r[k] == if k == j then ms[last] else ms[k];
    }
  }

  /** What the engine was told last: whether it is to be open. */
  predicate IsOpen<T>(log: seq<Message<T>>) {
    log != [] && log[|log| - 1].Open?
  }

  predicate Sound<T(==)>(t: Table<T>) {
    Distinct(t.members) && |t.members| <= MAX_ADAPTERS && (IsOpen(t.log) <==> t.members != [])
  }

  lemma AddSound<T>(t: Table<T>, a: T)
    requires Sound(t)
    ensures Sound(Add(t, a))
    ensures Members(Add(t, a).members) == SetStep(Members(t.members), AddAdapter(a))
  {
    MembersCount(t.members);
    MembersMore(t.members, a);
    assert a in t.members <==> a in Members(t.members);
  }

  lemma RemoveSound<T>(t: Table<T>, a: T)
    requires Sound(t)
    ensures Sound(Remove(t, a))
    ensures Members(Remove(t, a).members) == Members(t.members) - {a}
  {
    if a in t.members {
      HoleRemoves(t.members, IndexOf(t.members, a));
    }
  }

  lemma StepSound<T>(t: Table<T>, op: Op<T>)
    requires Sound(t)
    ensures Sound(Step(t, op))
    ensures Members(Step(t, op).members) == SetStep(Members(t.members), op)
  {
    match op
    case AddAdapter(a) => AddSound(t, a);
    case RemoveAdapter(a) => RemoveSound(t, a);
  }

  /**
   * After any sequence of additions and removals the table holds no adapter twice and is the set of bounded
   * size that the same operations give; and the engine was last told to open exactly when it is not empty.
   */
  lemma {:induction false} RunRefinesSet<T>(ops: seq<Op<T>>)
    ensures Sound(Run(ops))
    ensures Members(Run(ops).members) == SetRun(ops)
  {
    if ops != [] {
      RunRefinesSet(ops[..|ops| - 1]);
      StepSound(Run(ops[..|ops| - 1]), ops[|ops| - 1]);
    } else {
      assert Members<T>([]) == {};
    }
  }

  /** The engine is told to close exactly when the last adapter goes, and to open for an adapter exactly when it enters. */
  lemma MessageExactly<T>(ops: seq<Op<T>>, op: Op<T>)
    ensures var s, s', log, log' := SetRun(ops), SetRun(ops + [op]), Run(ops).log, Run(ops + [op]).log;
            if s' == s then log' == log
            else log' == log + [if s' == {} then Close else if s < s' then Open(Some(op.adapter)) else Open(None)]
  {
    assert (ops + [op])[..|ops|] == ops;
    var t, s := Run(ops), SetRun(ops);
    RunRefinesSet(ops);
    RunRefinesSet(ops + [op]);
    MembersCount(t.members);
    MembersCount(Run(ops + [op]).members);
    match op
    case AddAdapter(a) => assert a in t.members <==> a in s;
    case RemoveAdapter(a) => assert a in t.members <==> a in s;
  }
}
