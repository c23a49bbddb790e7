/** The adapter table of `LocApiBase` in gps/core/LocApiBase.cpp: a fixed array kept free of
    gaps, so that broadcasts may stop at the first empty slot. */
module LocAdapters {

  const MAX_ADAPTERS := 10

  /** A bit of the event mask. */
  datatype EventBit = EventBit(code: nat)

  class LocAdapterBase {
    var mEvtMask: set<EventBit>

    constructor (mask: set<EventBit>)
      ensures mEvtMask == mask
    {
      mEvtMask := mask;
    }
  }

  /** Messages to the location API's own task. */
  datatype Msg = OpenMsg | CloseMsg

  /** A new adapter goes behind the others, if there is room. */
  function Joined<T(==)>(list: seq<T>, a: T): seq<T> {
    if a in list || |list| >= MAX_ADAPTERS then list else list + [a]
  }

  function PositionOf<T(==)>(list: seq<T>, a: T): (i: nat)
    ensures i <= |list|
    ensures i < |list| ==> list[i] == a
    ensures forall j | 0 <= j < i :: list[j] != a
    ensures a in list <==> i < |list|
  {
    if list == [] || list[0] == a then 0 else 1 + PositionOf(list[1..], a)
  }

  /** The last adapter moves into the gap. */
  function Left<T(==)>(list: seq<T>, a: T): seq<T> {
    var i, n := PositionOf(list, a), |list| - 1;
    if i > n then list else list[i := list[n]][..n]
  }

  ghost function Masks(list: seq<LocAdapterBase>): set<EventBit>
    reads list
  {
    set a, b | a in list && b in a.mEvtMask :: b
  }

  class LocApiBase {
    const mLocAdapters: array<LocAdapterBase?>
    const mExcludedMask: set<EventBit>
    var messages: seq<Msg>
    ghost var adapters: seq<LocAdapterBase>

    /** The array is `adapters`, each once, followed by nothing but empty slots. */
    ghost predicate Valid()
      reads this, mLocAdapters
    {
      && mLocAdapters.Length == MAX_ADAPTERS && |adapters| <= MAX_ADAPTERS
      && (forall i | 0 <= i < |adapters| :: mLocAdapters[i] == adapters[i])
      && (forall i | |adapters| <= i < MAX_ADAPTERS :: mLocAdapters[i] == null)
      && (forall i, j | 0 <= i < j < |adapters| :: adapters[i] != adapters[j])
    }

    constructor (excludedMask: set<EventBit>)
      ensures Valid() && adapters == [] && messages == [] && fresh(mLocAdapters)
      ensures mExcludedMask == excludedMask
    {
      mLocAdapters := new LocAdapterBase?[MAX_ADAPTERS](_ => null);
      mExcludedMask, messages, adapters := excludedMask, [], [];
    }

    method AddAdapter(adapter: LocAdapterBase?)
      requires Valid()
      modifies this, mLocAdapters
      ensures Valid()
      ensures adapters == if adapter == null then old(adapters) else Joined(old(adapters), adapter)
      ensures messages == old(messages) + (if adapters != old(adapters) then [OpenMsg] else [])
    {
      var i := 0;
      while i < MAX_ADAPTERS && mLocAdapters[i] != adapter
        invariant 0 <= i <= |adapters| && Valid() && adapters == old(adapters) && messages == old(messages)
        invariant adapter != null ==> forall j | 0 <= j < i :: adapters[j] != adapter
      {
        if mLocAdapters[i] == null {
          mLocAdapters[i] := adapter;
          adapters := adapters + [adapter];
          messages := messages + [OpenMsg];
          break;
        }
        i := i + 1;
      }
    }

    /** The API is closed when its last adapter leaves, otherwise opened anew. */
    method RemoveAdapter(adapter: LocAdapterBase?)
      requires Valid()
      modifies this, mLocAdapters
      ensures Valid()
      ensures adapters == if adapter == null then old(adapters) else Left(old(adapters), adapter)
      ensures messages == old(messages)
        + (if adapters == old(adapters) then [] else if adapters == [] then [CloseMsg] else [OpenMsg])
    {
      ghost var was := adapters;
      var i := 0;
      while i < MAX_ADAPTERS && mLocAdapters[i] != null
        invariant Valid() && 0 <= i <= MAX_ADAPTERS
        invariant adapters == was ==>
          i <= |was| && messages == old(messages) && forall j | 0 <= j < i :: was[j] != adapter
        invariant adapters != was ==>
          && i == |adapters| + 1 && adapter != null && adapter in was && adapters == Left(was, adapter)
          && messages == old(messages) + [if adapters == [] then CloseMsg else OpenMsg]
        decreases MAX_ADAPTERS - i
      {
        if mLocAdapters[i] == adapter {
          var j := i;
          i := CloseGap(j);
          messages := messages + [if i == 0 then CloseMsg else OpenMsg];
        }
        i := i + 1;
      }
    }

    /** Takes out slot `j` and returns the index of the slot that is empty instead. */
    method CloseGap(j: nat) returns (i: nat)
      requires Valid() && j < |adapters|
      modifies this`adapters, mLocAdapters
      ensures Valid() && i == |adapters| && adapters == Left(old(adapters), old(adapters[j]))
    {
      ghost var n := |adapters| - 1;
      assert PositionOf(adapters, adapters[j]) == j;
      mLocAdapters[j] := null;
      i := j + 1;
      while i < MAX_ADAPTERS && mLocAdapters[i] != null
        invariant j < i <= |adapters|
      {
        i := i + 1;
      }
      i := i - 1;
      mLocAdapters[j] := mLocAdapters[i];
      mLocAdapters[i] := null;
      adapters := adapters[j := adapters[n]][..n];
    }

    /** A broadcast: every adapter is called, each once, in the order of the array. */
    method ToAllAdapters() returns (called: seq<LocAdapterBase>)
      requires Valid()
      ensures called == adapters
    {
      called := [];
      var i := 0;
      while i < MAX_ADAPTERS && mLocAdapters[i] != null
        invariant 0 <= i <= |adapters| && called == adapters[..i]
      {
        called := called + [mLocAdapters[i]];
        i := i + 1;
      }
    }

    /** A call that stops with the first adapter that handles it. */
    method ToFirstHandlingAdapter(handles: set<LocAdapterBase>) returns (called: seq<LocAdapterBase>, handled: bool)
      requires Valid()
      ensures called <= adapters
      ensures handled <==> exists a <- adapters :: a in handles
      ensures handled ==> called != [] && called[|called| - 1] in handles
                          && forall a <- called[..|called| - 1] :: a !in handles
      ensures !handled ==> called == adapters
    {
      called, handled := [], false;
      var i := 0;
      while i < MAX_ADAPTERS && mLocAdapters[i] != null && !handled
        invariant 0 <= i <= |adapters| && called == adapters[..i]
        invariant handled ==> i > 0 && called[i - 1] in handles && forall a <- called[..i - 1] :: a !in handles
        invariant !handled ==> forall a <- called :: a !in handles
        decreases MAX_ADAPTERS - i
      {
        assert adapters[..i + 1][..i] == adapters[..i];
        called := called + [mLocAdapters[i]];
        handled := mLocAdapters[i] in handles;
        i := i + 1;
      }
      assert handled ==> called[i - 1] in adapters;
    }

    /** A broadcast that collects: every adapter's mask counts, the excluded bits do not. */
    method GetEvtMask() returns (mask: set<EventBit>)
      requires Valid()
      ensures mask == Masks(adapters) - mExcludedMask
    {
      mask := {};
      var i := 0;
      while i < MAX_ADAPTERS && mLocAdapters[i] != null
        invariant 0 <= i <= |adapters|
        invariant mask == Masks(adapters[..i])
      {
        assert adapters[..i + 1] == adapters[..i] + [adapters[i]];
        mask := mask + mLocAdapters[i].mEvtMask;
        i := i + 1;
      }
      assert adapters[..i] == adapters;
      mask := mask - mExcludedMask;
    }
  }

  ghost predicate Distinct<T>(list: seq<T>) {
    forall i, j | 0 <= i < j < |list| :: list[i] != list[j]
  }

  /** Joining takes in that adapter, if there is room, and no other. */
  lemma JoinedSet<T>(list: seq<T>, a: T)
    requires Distinct(list)
    ensures Distinct(Joined(list, a))
    ensures forall x :: x in Joined(list, a) <==> x in list || (x == a && |list| < MAX_ADAPTERS)
  {
  }

  /** Leaving takes out that adapter and no other. */
  lemma LeftSet<T>(list: seq<T>, a: T)
    requires Distinct(list)
    ensures Distinct(Left(list, a))
    ensures forall x :: x in Left(list, a) <==> x in list && x != a
    ensures |Left(list, a)| == |list| - if a in list then 1 else 0
  {
    var n, i, left := |list| - 1, PositionOf(list, a), Left(list, a);
    if i <= n {
      forall x | x in list && x != a
        ensures x in left
      {
        var j :| 0 <= j < |list| && list[j] == x;
        assert left[if j == n then i else j] == x;
      }
    }
  }

  // ---------- whole runs ----------

  datatype Op<T> = Join(adapter: T) | Leave(adapter: T)

  function Applied<T(==)>(list: seq<T>, op: Op<T>): seq<T> {
    match op
    case Join(a) => Joined(list, a)
    case Leave(a) => Left(list, a)
  }

  /** The array's adapters after a run. */
  function ListAfter<T(==)>(ops: seq<Op<T>>): seq<T> {
    if ops == [] then [] else Applied(ListAfter(ops[..|ops| - 1]), ops[|ops| - 1])
  }

  /** Registering, as a set with room for so many. */
  ghost function Registers<T>(reg: set<T>, op: Op<T>): set<T> {
    match op
    case Join(a) => if |reg| < MAX_ADAPTERS then reg + {a} else reg
    case Leave(a) => reg - {a}
  }

  ghost function Registered<T>(ops: seq<Op<T>>): set<T> {
    if ops == [] then {} else Registers(Registered(ops[..|ops| - 1]), ops[|ops| - 1])
  }

  ghost predicate Holds<T>(list: seq<T>, reg: set<T>) {
    Distinct(list) && |list| <= MAX_ADAPTERS && (set x | x in list) == reg
  }

  lemma HoldsStep<T>(list: seq<T>, reg: set<T>, op: Op<T>)
    requires Holds(list, reg)
    ensures Holds(Applied(list, op), Registers(reg, op))
  {
    DistinctCount(list);
    match op
    case Join(a) => JoinedSet(list, a);
    case Leave(a) => LeftSet(list, a);
  }

  lemma {:induction false} DistinctCount<T>(list: seq<T>)
    requires Distinct(list)
    ensures |set x | x in list| == |list|
  {
    if list != [] {
      var n := |list| - 1;
      DistinctCount(list[..n]);
      assert list == list[..n] + [list[n]];
      assert (set x | x in list) == (set x | x in list[..n]) + {list[n]};
    }
  }

  /** After any run of joining and leaving, for any order and any repetition, the array holds
      exactly the registered adapters, each once. */
  lemma {:induction false} RunHoldsRegistered<T>(ops: seq<Op<T>>)
    ensures Holds(ListAfter(ops), Registered(ops))
  {
    if ops != [] {
      RunHoldsRegistered(ops[..|ops| - 1]);
      HoldsStep(ListAfter(ops[..|ops| - 1]), Registered(ops[..|ops| - 1]), ops[|ops| - 1]);
    }
  }
}
