/** The external data tree that node shapes mirror. It is the source of
    truth for structure and is never changed by the shapes, so it is a
    value: each node's parent, its ordered children and its depth. */
module DataTrees {
  import opened Util

  type Node = nat

  /** Identifier of one visualisation context (Graphics.getUID). */
  type UID = nat

  datatype DataTree = DataTree(
    nodes: set<Node>,
    parentOf: map<Node, Node>,
    kids: map<Node, seq<Node>>,
    depth: map<Node, nat>,
    height: nat)
  {
    /** A finite tree: parent and children agree, children lists have no
        duplicates, and depth grows by one from parent to child. */
    ghost predicate WellFormed() {
      && kids.Keys == nodes
      && depth.Keys == nodes
      && parentOf.Keys <= nodes
      && (forall m | m in parentOf ::
            parentOf[m] in nodes && m in kids[parentOf[m]] && depth[m] == depth[parentOf[m]] + 1)
      && (forall n, i | n in kids && 0 <= i < |kids[n]| ::
            kids[n][i] in parentOf && parentOf[kids[n][i]] == n)
      && (forall n | n in kids :: Distinct(kids[n]))
      && (forall n | n in depth :: depth[n] <= height)
    }

    /** node.getChildren() */
    function Children(n: Node): seq<Node> {
      if n in kids then kids[n] else []
    }

    /** node.getParent() */
    function Parent(n: Node): Option<Node> {
      if n in parentOf then Some(parentOf[n]) else None
    }

    /** node.getDepth() */
    function Rank(n: Node): nat {
      if n in depth then depth[n] else 0
    }

    /** n is a or lies below a. */
    ghost predicate Under(a: Node, n: Node)
      decreases Rank(n)
    {
      n == a || (n in parentOf && Rank(parentOf[n]) < Rank(n) && Under(a, parentOf[n]))
    }

    /** A child of a node below a lies below a. */
    lemma UnderStep(a: Node, n: Node)
      requires WellFormed() && n in parentOf && Under(a, parentOf[n])
      ensures Under(a, n)
    {
    }

    /** Lying below a node means lying deeper than it, or being it. */
    lemma {:induction false} UnderRank(a: Node, n: Node)
      requires WellFormed() && Under(a, n)
      ensures n == a || Rank(a) < Rank(n)
      decreases Rank(n)
    {
      if n != a {
        UnderRank(a, parentOf[n]);
      }
    }

    lemma {:induction false} UnderTrans(a: Node, b: Node, n: Node)
      requires WellFormed() && Under(a, b) && Under(b, n)
      ensures Under(a, n)
      decreases Rank(n)
    {
      if n != b {
        UnderTrans(a, b, parentOf[n]);
      }
    }

    /** A node has one ancestor on each level: two nodes of equal depth
        that both lie above n are the same node. */
    lemma {:induction false} UnderUnique(a: Node, b: Node, n: Node)
      requires WellFormed() && Under(a, n) && Under(b, n) && Rank(a) == Rank(b)
      ensures a == b
      decreases Rank(n)
    {
      if n == a {
        UnderRank(b, n);
      } else if n == b {
        UnderRank(a, n);
      } else {
        UnderUnique(a, b, parentOf[n]);
      }
    }

    lemma ChildFacts(n: Node, m: Node)
      requires WellFormed() && m in Children(n)
      ensures Parent(m) == Some(n) && m in nodes && n in nodes
      ensures Rank(m) == Rank(n) + 1 && Rank(m) <= height
    {
      var i :| 0 <= i < |kids[n]| && kids[n][i] == m;
    }

    lemma ParentFacts(m: Node)
      requires WellFormed() && Parent(m).Some?
      ensures m in Children(Parent(m).value) && Rank(m) == Rank(Parent(m).value) + 1
    {
    }
  }
}
