/** The value-level view of the rank-ordered heap of gps/utils/LocHeap.cpp.

    A `Tree` is what a client can learn by walking the nodes from the root.  `Push`,
    `PopTree` and `Remove` say how each operation changes that view; the classes in
    LocHeap.dfy are proved to change their nodes in exactly this way, and the lemmas
    here say what that means for order, contents, size bookkeeping and height. */
module HeapTree {

  /** An object managed by the client.  Two rankables are the same object only if they
      are the same reference; `rank` stands for the total preorder that `ranks` defines. */
  class Rankable {
    const rank: int

    constructor (rank: int)
      ensures this.rank == rank
    {
      this.rank := rank;
    }

    /** Positive if this object ranks higher, zero if equal, negative if lower. */
    function Ranks(other: Rankable): int {
      rank - other.rank
    }

    predicate OutRanks(other: Rankable) {
      Ranks(other) > 0
    }
  }

  datatype Tree = Empty | Node(size: int, left: Tree, right: Tree, data: Rankable)

  function Leaf(x: Rankable): Tree {
    Node(1, Empty, Empty, x)
  }

  /** The size a parent reads from a child pointer. */
  function Size(t: Tree): int {
    if t.Empty? then 0 else t.size
  }

  // ---------- the operations ----------

  function Push(t: Tree, x: Rankable): (t': Tree)
    ensures t'.Node?
    decreases t, 1
  {
    if t.Empty? then Leaf(x)
    else if x.OutRanks(t.data) then Sink(t, x, t.data)
    else Sink(t, t.data, x)
  }

  /** Keeps `top` at the root and drops `down` into the smaller subtree. */
  function Sink(t: Tree, top: Rankable, down: Rankable): (t': Tree)
    requires t.Node?
    ensures t'.Node?
    decreases t, 0
  {
    if t.left.Empty? || (t.right.Node? && t.left.size <= t.right.size) then
      Node(t.size + 1, Push(t.left, down), t.right, top)
    else
      Node(t.size + 1, t.left, Push(t.right, down), top)
  }

  /** The tree left behind when the data of the root has been sifted to a leaf and that
      leaf unlinked. */
  function PopTree(t: Tree): Tree
    requires t.Node?
    decreases t, 1
  {
    if t.left.Empty? && t.right.Empty? then
      Empty
    else
      PopStep(t, t.left.Empty? || (t.right.Node? && !t.left.data.OutRanks(t.right.data)))
  }

  /** The root takes the data of one child, which is popped in turn. */
  function PopStep(t: Tree, goRight: bool): (t': Tree)
    requires t.Node? && (if goRight then t.right.Node? else t.left.Node?)
    ensures t'.Node?
    decreases t, 0
  {
    if goRight then
      Node(t.size - 1, t.left, PopTree(t.right), t.right.data)
    else
      Node(t.size - 1, PopTree(t.left), t.right, t.left.data)
  }

  /** Whether the pruned search comes across `x`. */
  predicate Finds(t: Tree, x: Rankable) {
    t.Node? && (t.data == x || (!x.OutRanks(t.data) && (Finds(t.left, x) || Finds(t.right, x))))
  }

  function Remove(t: Tree, x: Rankable): Tree
    decreases t, 1
  {
    if t.Empty? then t
    else if t.data == x then PopTree(t)
    else if !x.OutRanks(t.data) then RemoveStep(t, x)
    else t
  }

  /** The left subtree is searched first, the right one only if that failed. */
  function RemoveStep(t: Tree, x: Rankable): (t': Tree)
    requires t.Node?
    ensures t'.Node?
    decreases t, 0
  {
    if Finds(t.left, x) then
      Node(t.size - 1, Remove(t.left, x), t.right, t.data)
    else if Finds(t.right, x) then
      Node(t.size - 1, t.left, Remove(t.right, x), t.data)
    else
      t
  }

  /** `checkNodes`: the self-check the nodes run on themselves. */
  predicate CheckNodes(t: Tree) {
    t.Node? ==>
      && (t.left.Node? ==> !t.left.data.OutRanks(t.data) && CheckNodes(t.left))
      && (t.right.Node? ==> !t.right.data.OutRanks(t.data) && CheckNodes(t.right))
      && t.size - Size(t.left) - Size(t.right) == 1
  }

  // ---------- what the operations are about ----------

  ghost function Elements(t: Tree): multiset<Rankable> {
    match t
    case Empty => multiset{}
    case Node(_, left, right, data) => Elements(left) + Elements(right) + multiset{data}
  }

  function Height(t: Tree): nat {
    match t
    case Empty => 0
    case Node(_, left, right, _) =>
      1 + if Height(left) < Height(right) then Height(right) else Height(left)
  }

  /** Every left subtree has the size of the right one, or one node more. */
  predicate Balanced(t: Tree) {
    t.Node? ==>
      && 0 <= Size(t.left) - Size(t.right) <= 1
      && Balanced(t.left)
      && Balanced(t.right)
  }

  function Pow2(n: nat): nat {
    if n == 0 then 1 else 2 * Pow2(n - 1)
  }

  /** No element of `s` has a higher rank than `x`. */
  ghost predicate Tops(x: Rankable, s: multiset<Rankable>) {
    forall y <- s :: y.rank <= x.rank
  }

  // ---------- order and contents ----------

  /** A tree that passes its self-check has a maximum at its root, and its root's size
      field is the number of stored objects. */
  lemma {:induction false} CheckNodesMeaning(t: Tree)
    requires CheckNodes(t)
    ensures Size(t) == |Elements(t)|
    ensures t.Node? ==> Tops(t.data, Elements(t))
  {
    if t.Node? {
      CheckNodesMeaning(t.left);
      CheckNodesMeaning(t.right);
    }
  }

  /** Trading `down` for `top` at a node does not change the total. */
  lemma Regroup(l: multiset<Rankable>, r: multiset<Rankable>, top: Rankable, down: Rankable, d: Rankable, x: Rankable)
    requires (top == x && down == d) || (top == d && down == x)
    ensures (l + multiset{down}) + r + multiset{top} == (l + r + multiset{d}) + multiset{x}
    ensures l + (r + multiset{down}) + multiset{top} == (l + r + multiset{d}) + multiset{x}
  {
  }

  lemma {:induction false} PushElements(t: Tree, x: Rankable)
    ensures Elements(Push(t, x)) == Elements(t) + multiset{x}
  {
    if t.Node? {
      var top := if x.OutRanks(t.data) then x else t.data;
      var down := if x.OutRanks(t.data) then t.data else x;
      Regroup(Elements(t.left), Elements(t.right), top, down, t.data, x);
      assert Push(t, x) == Sink(t, top, down);
      if t.left.Empty? || (t.right.Node? && t.left.size <= t.right.size) {
        PushElements(t.left, down);
      } else {
        PushElements(t.right, down);
      }
    }
  }

  lemma {:induction false} PushKeeps(t: Tree, x: Rankable)
    requires CheckNodes(t)
    ensures CheckNodes(Push(t, x))
    ensures Push(t, x).size == Size(t) + 1
    ensures Push(t, x).data == if t.Empty? || x.OutRanks(t.data) then x else t.data
  {
    if t.Node? {
      var down := if x.OutRanks(t.data) then t.data else x;
      if t.left.Empty? || (t.right.Node? && t.left.size <= t.right.size) {
        PushKeeps(t.left, down);
      } else {
        PushKeeps(t.right, down);
      }
    }
  }

  /** Sifting down does not look at the data of the root. */
  lemma PopIgnoresRoot(t: Tree, x: Rankable)
    requires t.Node?
    ensures PopTree(t.(data := x)) == PopTree(t)
  {
  }

  lemma {:induction false} PopElements(t: Tree)
    requires t.Node?
    ensures Elements(t) == Elements(PopTree(t)) + multiset{t.data}
  {
    if t.left.Empty? && t.right.Empty? {
    } else if t.left.Empty? || (t.right.Node? && !t.left.data.OutRanks(t.right.data)) {
      PopElements(t.right);
    } else {
      PopElements(t.left);
    }
  }

  lemma {:induction false} PopKeeps(t: Tree)
    requires t.Node? && CheckNodes(t)
    ensures CheckNodes(PopTree(t))
    ensures PopTree(t).Node? ==> !PopTree(t).data.OutRanks(t.data)
    ensures Size(PopTree(t)) == t.size - 1
  {
    if t.left.Empty? && t.right.Empty? {
    } else if t.left.Empty? || (t.right.Node? && !t.left.data.OutRanks(t.right.data)) {
      PopKeeps(t.right);
    } else {
      PopKeeps(t.left);
    }
  }

  /** The pruning test never cuts off the object: the search succeeds exactly when the
      object itself, not merely one of its rank, is stored. */
  lemma {:induction false} FindsIffStored(t: Tree, x: Rankable)
    requires CheckNodes(t)
    ensures Finds(t, x) <==> x in Elements(t)
  {
    if t.Node? {
      CheckNodesMeaning(t);
      FindsIffStored(t.left, x);
      FindsIffStored(t.right, x);
    }
  }

  /** A search that fails leaves the tree as it was. */
  lemma RemoveMiss(t: Tree, x: Rankable)
    ensures !Finds(t, x) ==> Remove(t, x) == t
  {
  }

  lemma {:induction false} RemoveElements(t: Tree, x: Rankable)
    ensures Elements(t) == Elements(Remove(t, x)) + if Finds(t, x) then multiset{x} else multiset{}
  {
    if Finds(t, x) {
      if t.data == x {
        PopElements(t);
      } else if Finds(t.left, x) {
        RemoveElements(t.left, x);
      } else {
        RemoveElements(t.right, x);
      }
    }
  }

  lemma {:induction false} RemoveKeeps(t: Tree, x: Rankable)
    requires CheckNodes(t)
    ensures CheckNodes(Remove(t, x))
    ensures Remove(t, x).Node? ==> t.Node? && !Remove(t, x).data.OutRanks(t.data)
    ensures Size(Remove(t, x)) == Size(t) - if Finds(t, x) then 1 else 0
  {
    if Finds(t, x) {
      if t.data == x {
        PopKeeps(t);
      } else if Finds(t.left, x) {
        RemoveKeeps(t.left, x);
      } else {
        RemoveKeeps(t.right, x);
      }
    }
  }

  // ---------- what a client sees ----------

  ghost predicate Pushes(was: Tree, now: Tree, x: Rankable) {
    now == Push(was, x) && Elements(now) == Elements(was) + multiset{x}
  }

  /** Null from an empty heap, otherwise the root's object, which is stored and which nothing
      stored outranks. */
  ghost predicate Peeks(t: Tree, top: Rankable?) {
    if t.Empty? then top == null
    else top == t.data && t.data in Elements(t) && Tops(t.data, Elements(t))
  }

  /** What `peek` would have shown, and that object alone is gone. */
  ghost predicate Pops(was: Tree, now: Tree, data: Rankable?) {
    && Peeks(was, data)
    && now == (if was.Empty? then was else PopTree(was))
    && Elements(now) == Elements(was) - (if data == null then multiset{} else multiset{data})
  }

  /** The object itself, by address, if it is stored; otherwise null and no change. */
  ghost predicate Removes(was: Tree, now: Tree, data: Rankable, removed: Rankable?) {
    && removed == (if data in Elements(was) then data else null)
    && now == Remove(was, data)
    && Elements(now) == Elements(was) - multiset{data}
  }

  lemma PushContract(t: Tree, x: Rankable)
    requires CheckNodes(t)
    ensures CheckNodes(Push(t, x)) && Pushes(t, Push(t, x), x)
  {
    PushKeeps(t, x);
    PushElements(t, x);
  }

  lemma PopContract(t: Tree)
    requires CheckNodes(t)
    ensures t.Node? ==> CheckNodes(PopTree(t)) && Pops(t, PopTree(t), t.data)
    ensures t.Empty? ==> Pops(t, t, null)
  {
    CheckNodesMeaning(t);
    if t.Node? {
      PopKeeps(t);
      PopElements(t);
    }
  }

  lemma RemoveContract(t: Tree, x: Rankable)
    requires CheckNodes(t)
    ensures CheckNodes(Remove(t, x))
    ensures Removes(t, Remove(t, x), x, if Finds(t, x) then x else null)
  {
    FindsIffStored(t, x);
    RemoveKeeps(t, x);
    RemoveElements(t, x);
    TakeOut(Elements(t), Elements(Remove(t, x)), x, Finds(t, x));
  }

  lemma TakeOut(was: multiset<Rankable>, now: multiset<Rankable>, x: Rankable, found: bool)
    requires was == now + (if found then multiset{x} else multiset{}) && (found <==> x in was)
    ensures now == was - multiset{x}
  {
  }

  // ---------- shape ----------

  lemma {:induction false} PushKeepsBalance(t: Tree, x: Rankable)
    requires CheckNodes(t) && Balanced(t)
    ensures Balanced(Push(t, x))
    ensures Size(Push(t, x)) == Size(t) + 1
  {
    PushKeeps(t, x);
    if t.Node? {
      CheckNodesMeaning(t.left);
      CheckNodesMeaning(t.right);
      var down := if x.OutRanks(t.data) then t.data else x;
      if t.left.Empty? || (t.right.Node? && t.left.size <= t.right.size) {
        PushKeepsBalance(t.left, down);
      } else {
        PushKeepsBalance(t.right, down);
      }
    }
  }

  /** The height of a balanced tree of n > 0 nodes is exactly floor(log2 n) + 1. */
  lemma {:induction false} BalancedHeight(t: Tree)
    requires CheckNodes(t) && Balanced(t)
    ensures t.Node? ==> Height(t) > 0 && Pow2(Height(t) - 1) <= Size(t)
    ensures 0 <= Size(t) < Pow2(Height(t))
  {
    if t.Node? {
      BalancedHeight(t.left);
      BalancedHeight(t.right);
      Pow2Monotone(Height(t.right), Height(t) - 1);
      Pow2Monotone(Height(t.left), Height(t) - 1);
    }
  }

  lemma {:induction false} Pow2Monotone(m: nat, n: nat)
    requires m <= n
    ensures Pow2(m) <= Pow2(n)
  {
    if m < n {
      Pow2Monotone(m, n - 1);
    }
  }

  /** `now` is `was` with one leaf cut off: along the path to it only data may differ, and
      everything beside that path is untouched. */
  ghost predicate CutsLeaf(was: Tree, now: Tree) {
    was.Node? &&
    if now.Empty? then
      was.left.Empty? && was.right.Empty?
    else
      || (CutsLeaf(was.left, now.left) && now.right == was.right)
      || (now.left == was.left && CutsLeaf(was.right, now.right))
  }

  lemma {:induction false} PushAddsLeaf(t: Tree, x: Rankable)
    ensures CutsLeaf(Push(t, x), t)
  {
    if t.Node? {
      var down := if x.OutRanks(t.data) then t.data else x;
      PushAddsLeaf(t.left, down);
      PushAddsLeaf(t.right, down);
    }
  }

  lemma {:induction false} PopCutsLeaf(t: Tree)
    requires t.Node?
    ensures CutsLeaf(t, PopTree(t))
  {
    if t.left.Node? {
      PopCutsLeaf(t.left);
    }
    if t.right.Node? {
      PopCutsLeaf(t.right);
    }
  }

  lemma {:induction false} RemoveCutsLeaf(t: Tree, x: Rankable)
    ensures if Finds(t, x) then CutsLeaf(t, Remove(t, x)) else Remove(t, x) == t
  {
    RemoveMiss(t, x);
    if Finds(t, x) {
      if t.data == x {
        PopCutsLeaf(t);
      } else {
        RemoveCutsLeaf(t.left, x);
        RemoveCutsLeaf(t.right, x);
      }
    }
  }

  lemma {:induction false} CuttingKeepsHeight(was: Tree, now: Tree)
    requires CutsLeaf(was, now)
    ensures Height(now) <= Height(was)
  {
    if now.Node? {
      if CutsLeaf(was.left, now.left) && now.right == was.right {
        CuttingKeepsHeight(was.left, now.left);
      } else {
        CuttingKeepsHeight(was.right, now.right);
      }
    }
  }

  // ---------- whole runs ----------

  datatype Op = PushOp(x: Rankable) | PopOp | RemoveOp(x: Rankable)

  function Apply(t: Tree, op: Op): Tree {
    match op
    case PushOp(x) => Push(t, x)
    case PopOp => if t.Empty? then t else PopTree(t)
    case RemoveOp(x) => Remove(t, x)
  }

  function Run(t: Tree, ops: seq<Op>): Tree
    decreases |ops|
  {
    if ops == [] then t else Run(Apply(t, ops[0]), ops[1..])
  }

  /** What one operation brings into the heap and what it hands back to the client. */
  ghost function In(op: Op): multiset<Rankable> {
    if op.PushOp? then multiset{op.x} else multiset{}
  }

  ghost function Out(t: Tree, op: Op): multiset<Rankable> {
    match op
    case PushOp(_) => multiset{}
    case PopOp => if t.Empty? then multiset{} else multiset{t.data}
    case RemoveOp(x) => if Finds(t, x) then multiset{x} else multiset{}
  }

  ghost function AllIn(ops: seq<Op>): multiset<Rankable> {
    if ops == [] then multiset{} else In(ops[0]) + AllIn(ops[1..])
  }

  ghost function AllOut(t: Tree, ops: seq<Op>): multiset<Rankable>
    decreases |ops|
  {
    if ops == [] then multiset{} else Out(t, ops[0]) + AllOut(Apply(t, ops[0]), ops[1..])
  }

  /** One operation: what was stored plus what came in is what is stored plus what went out. */
  lemma StepConserves(t: Tree, op: Op)
    requires CheckNodes(t)
    ensures CheckNodes(Apply(t, op))
    ensures Elements(t) + In(op) == Elements(Apply(t, op)) + Out(t, op)
  {
    match op
    case PushOp(x) => PushKeeps(t, x); PushElements(t, x);
    case PopOp => if t.Node? { PopKeeps(t); PopElements(t); }
    case RemoveOp(x) => RemoveKeeps(t, x); RemoveElements(t, x);
  }

  lemma Chain(a: multiset<Rankable>, b: multiset<Rankable>, c: multiset<Rankable>,
              in1: multiset<Rankable>, out1: multiset<Rankable>, in2: multiset<Rankable>, out2: multiset<Rankable>)
    requires a + in1 == b + out1
    requires b + in2 == c + out2
    ensures a + (in1 + in2) == c + (out1 + out2)
  {
    calc {
      a + (in1 + in2);
      (a + in1) + in2;
      (b + in2) + out1;
      c + (out1 + out2);
    }
  }

  /** Over any run nothing is lost or made up, and the nodes keep passing their self-check. */
  lemma {:induction false} RunConserves(t: Tree, ops: seq<Op>)
    requires CheckNodes(t)
    ensures CheckNodes(Run(t, ops))
    ensures Elements(t) + AllIn(ops) == Elements(Run(t, ops)) + AllOut(t, ops)
    decreases |ops|
  {
    if ops != [] {
      StepConserves(t, ops[0]);
      var t' := Apply(t, ops[0]);
      RunConserves(t', ops[1..]);
      Chain(Elements(t), Elements(t'), Elements(Run(t', ops[1..])),
            In(ops[0]), Out(t, ops[0]), AllIn(ops[1..]), AllOut(t', ops[1..]));
    }
  }

  predicate OnlyPushes(ops: seq<Op>) {
    forall op <- ops :: op.PushOp?
  }

  predicate NoPushes(ops: seq<Op>) {
    forall op <- ops :: !op.PushOp?
  }

  lemma {:induction false} PushesBalance(t: Tree, ops: seq<Op>)
    requires CheckNodes(t) && Balanced(t) && OnlyPushes(ops)
    ensures CheckNodes(Run(t, ops)) && Balanced(Run(t, ops))
    ensures Size(Run(t, ops)) == Size(t) + |ops|
    decreases |ops|
  {
    if ops != [] {
      PushKeeps(t, ops[0].x);
      PushKeepsBalance(t, ops[0].x);
      PushesBalance(Apply(t, ops[0]), ops[1..]);
    }
  }

  lemma {:induction false} TakingKeepsHeight(t: Tree, ops: seq<Op>)
    requires NoPushes(ops)
    ensures Height(Run(t, ops)) <= Height(t)
    decreases |ops|
  {
    if ops != [] {
      if ops[0].PopOp? && t.Node? {
        PopCutsLeaf(t);
        CuttingKeepsHeight(t, PopTree(t));
      } else if ops[0].RemoveOp? {
        RemoveCutsLeaf(t, ops[0].x);
        if Finds(t, ops[0].x) {
          CuttingKeepsHeight(t, Remove(t, ops[0].x));
        }
      }
      TakingKeepsHeight(Apply(t, ops[0]), ops[1..]);
    }
  }

  /** Filling an empty heap and then only taking from it: the height never exceeds
      floor(log2 n) + 1, where n is the number of objects pushed. */
  lemma {:induction false} FilledHeight(pushes: seq<Op>, takes: seq<Op>)
    requires pushes != [] && OnlyPushes(pushes) && NoPushes(takes)
    ensures Balanced(Run(Empty, pushes))
    ensures var h := Height(Run(Empty, pushes));
            h > 0 && Pow2(h - 1) <= |pushes| < Pow2(h) && Height(Run(Run(Empty, pushes), takes)) <= h
  {
    PushesBalance(Empty, pushes);
    BalancedHeight(Run(Empty, pushes));
    TakingKeepsHeight(Run(Empty, pushes), takes);
  }

  // ---------- draining ----------

  function Drain(t: Tree): seq<Rankable>
    requires CheckNodes(t)
    decreases Size(t)
  {
    if t.Empty? then []
    else
      PopKeeps(t);
      CheckNodesMeaning(t);
      [t.data] + Drain(PopTree(t))
  }

  ghost predicate NonIncreasing(s: seq<Rankable>) {
    forall i, j | 0 <= i < j < |s| :: s[i].rank >= s[j].rank
  }

  lemma {:induction false} DrainElements(t: Tree)
    requires CheckNodes(t)
    ensures multiset(Drain(t)) == Elements(t)
    decreases Size(t)
  {
    CheckNodesMeaning(t);
    if t.Node? {
      PopKeeps(t);
      PopElements(t);
      DrainElements(PopTree(t));
    }
  }

  lemma ConsNonIncreasing(x: Rankable, s: seq<Rankable>)
    requires NonIncreasing(s)
    requires Tops(x, multiset(s))
    ensures NonIncreasing([x] + s)
  {
    forall i, j | 0 <= i < j < |s| + 1
      ensures ([x] + s)[i].rank >= ([x] + s)[j].rank
    {
      assert s[j - 1] in multiset(s);
    }
  }

  /** Popping until empty yields every stored object once, in non-increasing rank. */
  lemma {:induction false} DrainSorts(t: Tree)
    requires CheckNodes(t)
    ensures multiset(Drain(t)) == Elements(t)
    ensures NonIncreasing(Drain(t))
    decreases Size(t)
  {
    DrainElements(t);
    if t.Node? {
      PopKeeps(t);
      PopElements(t);
      CheckNodesMeaning(t);
      DrainSorts(PopTree(t));
      ConsNonIncreasing(t.data, Drain(PopTree(t)));
    }
  }
}
