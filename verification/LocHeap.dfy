/** The pointer structure of gps/utils/LocHeap.cpp: container nodes whose links stay put
    while the data moves through them.  Every operation is proved to change the tree a
    client can see exactly as its counterpart in HeapTree.dfy does. */
module LocHeap {
  import opened HeapTree

  /** What a link holds: no tree, or the tree rooted at a node. */
  ghost predicate ShowsAt(link: LocHeapNode?, t: Tree)
    reads link, if link == null then {} else link.Repr
  {
    if link == null then t == Empty else link.Shows(t)
  }

  class LocHeapNode {
    var mSize: int
    var mLeft: LocHeapNode?
    var mRight: LocHeapNode?
    var mData: Rankable
    ghost var Repr: set<LocHeapNode>

    constructor (data: Rankable)
      ensures IsNew() && mData == data
    {
      mSize, mLeft, mRight, mData := 1, null, null, data;
      Repr := {this};
    }

    ghost predicate IsNew()
      reads this
    {
      mSize == 1 && mLeft == null && mRight == null && Repr == {this}
    }

    /** The subtree rooted here is made of distinct nodes of `Repr` and shows as `t`. */
    ghost predicate Shows(t: Tree)
      reads this, Repr
      decreases t
    {
      && this in Repr
      && t.Node? && t.size == mSize && t.data == mData
      && (mLeft == null ==> t.left == Empty)
      && (mLeft != null ==> mLeft in Repr && mLeft.Repr <= Repr && this !in mLeft.Repr && mLeft.Shows(t.left))
      && (mRight == null ==> t.right == Empty)
      && (mRight != null ==> mRight in Repr && mRight.Repr <= Repr && this !in mRight.Repr && mRight.Shows(t.right))
      && (mLeft != null && mRight != null ==> mLeft.Repr !! mRight.Repr)
    }

    method Push(node: LocHeapNode, ghost t: Tree)
      requires Shows(t)
      requires node.IsNew() && node !in Repr
      modifies Repr, node`mData
      ensures Repr == old(Repr) + {node}
      ensures Shows(HeapTree.Push(t, old(node.mData)))
      decreases Repr, 1
    {
      ghost var x := node.mData;
      if node.mData.OutRanks(mData) {
        mData, node.mData := node.mData, mData;  // the two nodes swap their data
      }
      assert HeapTree.Push(t, x) == Sink(t.(data := mData), mData, node.mData);
      PushBelow(node, t.(data := mData));
    }

    /** Passes the node on to the smaller subtree, or links it where there is none. */
    method PushBelow(node: LocHeapNode, ghost t: Tree)
      requires Shows(t)
      requires node.IsNew() && node !in Repr
      modifies Repr, node`mData
      ensures Repr == old(Repr) + {node}
      ensures Shows(Sink(t, t.data, old(node.mData)))
      decreases Repr, 0
    {
      assert node.Shows(HeapTree.Push(Empty, node.mData));
      mSize := mSize + 1;
      Repr := Repr + {node};
      if mLeft == null {
        mLeft := node;
      } else if mRight == null {
        mRight := node;
      } else if mLeft.mSize <= mRight.mSize {
        mLeft.Push(node, t.left);
      } else {
        mRight.Push(node, t.right);
      }
    }

    /** Sifts the data of `top` down to a leaf and unlinks that leaf.  `newTop` is what the
        link that held `top` holds afterwards. */
    static method Pop(top: LocHeapNode, ghost t: Tree) returns (popped: LocHeapNode, newTop: LocHeapNode?)
      requires top.Shows(t)
      modifies top.Repr
      ensures popped in old(top.Repr) && popped.mData == t.data
      ensures newTop == if popped == top then null else top
      ensures ShowsAt(newTop, PopTree(t))
      ensures newTop != null ==> top.Repr == old(top.Repr) - {popped}
      decreases top.Repr, 1
    {
      newTop := top;
      if top.mLeft != null || top.mRight != null {
        var goRight := top.mLeft == null || (top.mRight != null && !top.mLeft.mData.OutRanks(top.mRight.mData));
        if goRight {
          popped := top.SiftRight(t);
        } else {
          popped := top.SiftLeft(t);
        }
      } else {
        popped, newTop := top, null;
        top.mSize := top.mSize - 1;
      }
    }

    /** Takes over the right child's data and sifts its own down there. */
    method SiftRight(ghost t: Tree) returns (popped: LocHeapNode)
      requires Shows(t) && t.right.Node?
      modifies Repr
      ensures popped in old(Repr) && popped != this && popped.mData == t.data
      ensures Shows(PopStep(t, true)) && Repr == old(Repr) - {popped}
      decreases Repr, 0
    {
      mSize := mSize - 1;
      PopIgnoresRoot(t.right, mData);
      mData, mRight.mData := mRight.mData, mData;  // the two nodes swap their data
      var link;
      popped, link := Pop(mRight, t.right.(data := t.data));
      mRight := link;
      Repr := Repr - {popped};
    }

    /** Takes over the left child's data and sifts its own down there. */
    method SiftLeft(ghost t: Tree) returns (popped: LocHeapNode)
      requires Shows(t) && t.left.Node?
      modifies Repr
      ensures popped in old(Repr) && popped != this && popped.mData == t.data
      ensures Shows(PopStep(t, false)) && Repr == old(Repr) - {popped}
      decreases Repr, 0
    {
      mSize := mSize - 1;
      PopIgnoresRoot(t.left, mData);
      mData, mLeft.mData := mLeft.mData, mData;  // the two nodes swap their data
      var link;
      popped, link := Pop(mLeft, t.left.(data := t.data));
      mLeft := link;
      Repr := Repr - {popped};
    }

    /** Pruned linear search by address.  `removed` is the unlinked node, or null. */
    static method Remove(top: LocHeapNode, data: Rankable, ghost t: Tree)
      returns (removed: LocHeapNode?, newTop: LocHeapNode?)
      requires top.Shows(t)
      modifies top.Repr
      ensures removed != null <==> Finds(t, data)
      ensures removed != null ==> removed in old(top.Repr) && removed.mData == data
      ensures newTop == if removed == top then null else top
      ensures ShowsAt(newTop, HeapTree.Remove(t, data))
      ensures newTop != null ==> top.Repr == old(top.Repr) - {removed}
      decreases top.Repr, 1
    {
      removed := null;
      newTop := top;
      if top.mData == data {
        removed, newTop := Pop(top, t);
      } else if !data.OutRanks(top.mData) {
        removed := top.RemoveBelow(data, t);
      }
    }

    /** Searches the left subtree and, only if that failed, the right one. */
    method RemoveBelow(data: Rankable, ghost t: Tree) returns (removed: LocHeapNode?)
      requires Shows(t)
      modifies Repr
      ensures removed != null <==> Finds(t.left, data) || Finds(t.right, data)
      ensures removed != null ==> removed in old(Repr) && removed != this && removed.mData == data
      ensures Shows(RemoveStep(t, data)) && Repr == old(Repr) - {removed}
      decreases Repr, 0
    {
      RemoveMiss(t.left, data);
      RemoveMiss(t.right, data);
      removed := null;
      if mLeft != null {
        var link;
        removed, link := Remove(mLeft, data, t.left);
        mLeft := link;
      }
      if removed == null && mRight != null {
        var link;
        removed, link := Remove(mRight, data, t.right);
        mRight := link;
      }
      if removed != null {
        mSize := mSize - 1;
        Repr := Repr - {removed};
      }
    }

    method CheckNodes(ghost t: Tree) returns (ok: bool)
      requires Shows(t)
      ensures ok <==> HeapTree.CheckNodes(t)
      decreases t
    {
      var totalSize := mSize;
      if mLeft != null {
        if mLeft.mData.OutRanks(mData) {
          return false;
        }
        var leftOk := mLeft.CheckNodes(t.left);
        if !leftOk {
          return false;
        }
        totalSize := totalSize - mLeft.mSize;
      }
      if mRight != null {
        if mRight.mData.OutRanks(mData) {
          return false;
        }
        var rightOk := mRight.CheckNodes(t.right);
        if !rightOk {
          return false;
        }
        totalSize := totalSize - mRight.mSize;
      }
      return totalSize == 1;
    }
  }

  class LocHeap {
    var mTree: LocHeapNode?
    ghost var nodes: set<LocHeapNode>
    ghost var model: Tree

    constructor ()
      ensures Valid() && nodes == {} && model == Empty
    {
      mTree, nodes, model := null, {}, Empty;
    }

    ghost predicate Valid()
      reads this, nodes
    {
      && (mTree != null ==> mTree in nodes && mTree.Repr <= nodes)
      && ShowsAt(mTree, model)
      && HeapTree.CheckNodes(model)
    }

    method Push(data: Rankable)
      requires Valid()
      modifies this, nodes
      ensures Valid() && fresh(nodes - old(nodes))
      ensures Pushes(old(model), model, data)
    {
      PushContract(model, data);
      var heapNode := new LocHeapNode(data);
      if mTree == null {
        mTree := heapNode;
      } else {
        mTree.Push(heapNode, model);
      }
      nodes := nodes + {heapNode};
      model := HeapTree.Push(model, data);
    }

    method Peek() returns (top: Rankable?)
      requires Valid()
      ensures Peeks(model, top)
    {
      CheckNodesMeaning(model);
      top := null;
      if mTree != null {
        top := mTree.mData;
      }
    }

    method Pop() returns (data: Rankable?)
      requires Valid()
      modifies this, nodes
      ensures Valid() && nodes == old(nodes)
      ensures Pops(old(model), model, data)
    {
      ghost var was := model;
      data := null;
      if mTree != null {
        var heapNode, top := LocHeapNode.Pop(mTree, model);
        mTree, model := top, PopTree(model);
        data := heapNode.mData;
      }
      PopContract(was);
    }

    method Remove(data: Rankable) returns (removed: Rankable?)
      requires Valid()
      modifies this, nodes
      ensures Valid() && nodes == old(nodes)
      ensures Removes(old(model), model, data, removed)
    {
      RemoveContract(model, data);
      removed := Search(data);
    }

    method Search(data: Rankable) returns (removed: Rankable?)
      requires Valid()
      modifies this, nodes
      ensures Valid() && nodes == old(nodes) && model == HeapTree.Remove(old(model), data)
      ensures removed == if Finds(old(model), data) then data else null
    {
      RemoveKeeps(model, data);
      removed := null;
      if mTree != null {
        var heapNode, top := LocHeapNode.Remove(mTree, data, model);
        mTree, model := top, HeapTree.Remove(model, data);
        if heapNode != null {
          removed := heapNode.mData;
        }
      }
    }
  }
}
