/**
 * uhal::HwInterface (uhal/uhal/src/common/HwInterface.cpp): the handle that owns a node tree and
 * the client that talks to the hardware, and stamps itself as the owner of every node of its tree.
 *
 * Node keeps only what claimNode touches: the mHw owner and the mChildren deque, as a sequence.
 * The ghost set Repr is the footprint of a node's subtree; Valid() says the tree is acyclic and
 * that distinct children own disjoint subtrees, so no node is reached twice.
 */
module HwInterfaces {
  import opened Wrappers

  /** The client a hardware interface dispatches through; its behaviour is not part of this model. */
  class ClientInterface {
    const uri: string

    constructor(uri: string)
      ensures this.uri == uri
    {
      this.uri := uri;
    }
  }

  class Node {
    var hw: HwInterface?
    var children: seq<Node>
    ghost var Repr: set<Node>

    /** The subtree is a tree: acyclic, children own disjoint subtrees inside this node's footprint. */
    ghost predicate Valid()
      reads this`children, this`Repr, Repr`children, Repr`Repr
      decreases Repr
    {
      && this in Repr
      && (forall c :: c in children ==> c in Repr && c.Repr <= Repr && this !in c.Repr && c.Valid())
      && (forall i, j :: 0 <= i < j < |children| ==> children[i].Repr !! children[j].Repr)
    }

    /** Every node of the subtree has owner h. */
    ghost predicate OwnedBy(h: HwInterface?)
      reads this`children, this`Repr, Repr`children, Repr`Repr, Repr`hw
      requires Valid()
      decreases Repr
    {
      hw == h && forall c :: c in children ==> c.OwnedBy(h)
    }

    /** The node reached from this one by following the given child indices, if they exist. */
    ghost function Descend(path: seq<nat>): (r: Option<Node>)
      reads this`children, this`Repr, Repr`children, Repr`Repr
      requires Valid()
      ensures r.Some? ==> r.value in Repr && r.value.Valid()
      decreases Repr
    {
      if path == [] then Some(this)
      else if path[0] < |children| then
        var c := children[path[0]];
        assert c in children;
        c.Descend(path[1..])
      else None
    }
  }

  /** Ownership of a subtree reaches every node along every path of child links. */
  lemma {:induction false} OwnedByEveryDescendant(n: Node, h: HwInterface?, path: seq<nat>)
    requires n.Valid() && n.OwnedBy(h) && n.Descend(path).Some?
    ensures n.Descend(path).value.hw == h
    decreases |path|
  {
    if path != [] {
      var c := n.children[path[0]];
      assert c in n.children;
      OwnedByEveryDescendant(c, h, path[1..]);
    }
  }

  /** Conversely, a subtree whose every reachable node has owner h is owned by h. */
  lemma {:induction false} DescendantsOwnedBy(n: Node, h: HwInterface?)
    requires n.Valid()
    requires forall path :: n.Descend(path).Some? ==> n.Descend(path).value.hw == h
    ensures n.OwnedBy(h)
    decreases n.Repr
  {
    assert n.Descend([]) == Some(n);
    forall c | c in n.children ensures c.OwnedBy(h) {
      var i :| 0 <= i < |n.children| && n.children[i] == c;
      forall path | c.Descend(path).Some? ensures c.Descend(path).value.hw == h {
        assert ([i as nat] + path)[1..] == path;
        assert n.Descend([i as nat] + path) == c.Descend(path);
      }
      DescendantsOwnedBy(c, h);
    }
  }

  class HwInterface {
    var clientInterface: ClientInterface
    var node: Node

    /** HwInterface.cpp:49-54: store the client and the root, then claim the whole tree. */
    constructor(aClientInterface: ClientInterface, aNode: Node)
      requires aNode.Valid()
      modifies aNode.Repr`hw
      ensures clientInterface == aClientInterface && node == aNode
      ensures aNode.Valid() && aNode.OwnedBy(this)
    {
      clientInterface := aClientInterface;
      node := aNode;
      new;
      ClaimNode(node);
    }

    /**
     * HwInterface.cpp:57-62: share the other interface's client and claim `clone`, the tree that
     * otherHw.mNode->clone() returns, which shares no node with the other tree.
     */
    constructor Copy(otherHw: HwInterface, clone: Node)
      requires clone.Valid() && otherHw.node.Valid() && clone.Repr !! otherHw.node.Repr
      modifies clone.Repr`hw
      ensures clientInterface == otherHw.clientInterface && node == clone
      ensures clone.Valid() && clone.OwnedBy(this)
      ensures forall m :: m in otherHw.node.Repr ==> m.hw == old(m.hw)
    {
      clientInterface := otherHw.clientInterface;
      node := clone;
      new;
      ClaimNode(node);
    }

    /**
     * HwInterface.cpp:69-77: set the owner of aNode, then of each child's subtree in deque order.
     * Only owner fields inside the subtree change; child lists and all other nodes stay as they were.
     */
    method ClaimNode(aNode: Node)
      requires aNode.Valid()
      modifies aNode.Repr`hw
      ensures aNode.Valid() && aNode.OwnedBy(this) && aNode.hw == this
      ensures forall path :: aNode.Descend(path).Some? ==> aNode.Descend(path).value.hw == this
      ensures forall m :: m in aNode.Repr ==> m.children == old(m.children) && m.Repr == old(m.Repr)
      decreases aNode.Repr
    {
      aNode.hw := this;
      var kids := aNode.children;
      for i := 0 to |kids|
        invariant aNode.children == kids && aNode.Valid()
        invariant aNode.hw == this
        invariant forall j :: 0 <= j < i ==> kids[j].OwnedBy(this)
      {
        assert kids[i] in kids;
        ClaimNode(kids[i]);
      }
      assert forall c :: c in kids ==> c.OwnedBy(this);
      forall path | aNode.Descend(path).Some? ensures aNode.Descend(path).value.hw == this {
        OwnedByEveryDescendant(aNode, this, path);
      }
    }

    /** HwInterface.cpp:79-82. */
    method GetClient() returns (c: ClientInterface)
      ensures c == clientInterface
    {
      c := clientInterface;
    }

    /** HwInterface.cpp:129-132. */
    method GetNode() returns (n: Node)
      ensures n == node
    {
      n := node;
    }
  }
}
