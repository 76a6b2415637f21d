/** The read-only queries of a node shape: whether it is a root or a leaf,
    its node's position among its siblings, and the shapes above and below
    it up to a depth. They read the links and never change them. */
module NodeQueries {
  import opened Util
  import opened DataTrees
  import opened NodeLinks
  import opened LinkGrow

  /** A depth argument: a number of levels, or no limit (a missing depth,
      which the shape turns into Infinity). */
  datatype Depth = Levels(n: int) | Unlimited
  {
    /** The depth still allows one more level. */
    predicate Positive() {
      Unlimited? || n > 0
    }

    /** The depth one level further down (Infinity stays Infinity). */
    function Less(): Depth {
      if Unlimited? then Unlimited else Levels(n - 1)
    }

    /** k levels lie within the depth. */
    predicate Covers(k: int) {
      Unlimited? || k <= n
    }
  }

  // --------------------------------------------------------------------
  // Root, leaf and index.

  /** The shape has no parent shape. */
  predicate IsRoot(r: Links, s: ShapeId)
    requires s in r.parent
  {
    r.parent[s].None?
  }

  /** The shape has no child shapes. */
  predicate IsLeave(r: Links, s: ShapeId)
    requires s in r.children
  {
    |r.children[s]| == 0
  }

  /** For a rendered shape the two questions agree with the registries the
      context keeps of roots and leaves. */
  lemma RegistryQueries(t: DataTree, r: Links, s: ShapeId)
    requires Valid(t, r) && s in r.rendered
    ensures IsRoot(r, s) <==> s in r.roots
    ensures IsLeave(r, s) <==> s in r.leaves
  {
  }

  /** The position of a node among its data parent's children; -1 when the
      parent does not list it, and 0 for a node without a parent. */
  function GetIndex(t: DataTree, n: Node): int {
    match t.Parent(n)
    case None => 0
    case Some(p) =>
      var k := IndexOf(t.Children(p), n);
      if k == |t.Children(p)| then -1 else k
  }

  /** In a well-formed tree the index of a node with a parent is a real
      position, and that position holds the node. */
  lemma GetIndexSpec(t: DataTree, n: Node)
    requires t.WellFormed()
    ensures t.Parent(n).None? ==> GetIndex(t, n) == 0
    ensures t.Parent(n).Some? ==>
      var cs := t.Children(t.Parent(n).value);
      0 <= GetIndex(t, n) < |cs| && cs[GetIndex(t, n)] == n
  {
    if t.Parent(n).Some? {
      t.ParentFacts(n);
    }
  }

  // --------------------------------------------------------------------
  // Ancestors and descendants.

  /** The part of the link invariant the walks up and down need: parent and
      children links agree, and each step changes the node depth by one. */
  ghost predicate Ranked(t: DataTree, r: Links) {
    && (forall s | s in r.nodeOf :: s in r.parent && s in r.children)
    && (forall s | s in r.nodeOf :: t.Rank(r.nodeOf[s]) <= t.height)
    && (forall s | s in r.nodeOf && r.parent[s].Some? ::
          && r.parent[s].value in r.nodeOf && s in r.children[r.parent[s].value]
          && t.Rank(r.nodeOf[r.parent[s].value]) + 1 == t.Rank(r.nodeOf[s]))
    && (forall s, c | s in r.nodeOf && c in r.children[s] :: c in r.nodeOf && r.parent[c] == Some(s))
  }

  /** Valid links are ranked. */
  lemma ValidRanked(t: DataTree, r: Links)
    requires Valid(t, r)
    ensures Ranked(t, r)
  {
    forall s | s in r.nodeOf && r.parent[s].Some?
      ensures r.parent[s].value in r.nodeOf && s in r.children[r.parent[s].value]
      ensures t.Rank(r.nodeOf[r.parent[s].value]) + 1 == t.Rank(r.nodeOf[s])
    {
    }
    forall s, c | s in r.nodeOf && c in r.children[s]
      ensures c in r.nodeOf && r.parent[c] == Some(s)
    {
    }
  }

  /** The shape k parent links above s, when the links reach that far. */
  function AncestorAt(r: Links, s: ShapeId, k: nat): Option<ShapeId> {
    if k == 0 then Some(s)
    else match AncestorAt(r, s, k - 1)
      case None => None
      case Some(y) => if y in r.nodeOf && y in r.parent then r.parent[y] else None
  }

  /** One step up followed by k steps is k + 1 steps. */
  lemma {:induction false} AncestorAtFirst(r: Links, s: ShapeId, k: nat)
    requires s in r.nodeOf && s in r.parent
    ensures AncestorAt(r, s, k + 1) ==
      match r.parent[s]
      case None => None
      case Some(p) => AncestorAt(r, p, k)
  {
    if k > 0 {
      AncestorAtFirst(r, s, k - 1);
    }
  }

  /** The descendants of s down to depth d: its children, then each child's
      own descendants one level less deep. */
  function Descendants(t: DataTree, r: Links, s: ShapeId, d: Depth): seq<ShapeId>
    requires Ranked(t, r) && s in r.nodeOf
    decreases t.height - t.Rank(r.nodeOf[s]), 1
  {
    if !d.Positive() then []
    else r.children[s] + DescendantsOf(t, r, s, r.children[s], d.Less())
  }

  /** The descendants of the listed children of s, one child after the
      other. */
  function DescendantsOf(t: DataTree, r: Links, s: ShapeId, cs: seq<ShapeId>, d: Depth): seq<ShapeId>
    requires Ranked(t, r) && s in r.nodeOf && (forall c | c in cs :: c in r.children[s])
    decreases t.height - t.Rank(r.nodeOf[s]), 0, |cs|
  {
    if cs == [] then []
    else
      Descendants(t, r, cs[0], d) + DescendantsOf(t, r, s, cs[1..], d)
  }

  /** A shape is among the descendants of some listed children exactly
      when it is among the descendants of one of them. */
  lemma {:induction false} DescendantsOfIn(t: DataTree, r: Links, s: ShapeId, cs: seq<ShapeId>, d: Depth, x: ShapeId)
    requires Ranked(t, r) && s in r.nodeOf && (forall c | c in cs :: c in r.children[s])
    ensures x in DescendantsOf(t, r, s, cs, d) <==>
      exists c :: c in cs && c in r.nodeOf && x in Descendants(t, r, c, d)
    decreases |cs|
  {
    if cs != [] {
      assert cs[0] in cs && forall c | c in cs[1..] :: c in cs;
      DescendantsOfIn(t, r, s, cs[1..], d, x);
      if x in DescendantsOf(t, r, s, cs[1..], d) {
        var c :| c in cs[1..] && c in r.nodeOf && x in Descendants(t, r, c, d);
        assert c in cs;
      }
      if exists c :: c in cs && c in r.nodeOf && x in Descendants(t, r, c, d) {
        var c :| c in cs && c in r.nodeOf && x in Descendants(t, r, c, d);
        if c != cs[0] {
          assert c in cs[1..];
        }
      }
    }
  }

  /** Every descendant of s within depth d lies between one and d parent
      links below s. */
  lemma {:induction false} DescendantsBelow(t: DataTree, r: Links, s: ShapeId, d: Depth, x: ShapeId)
    requires Ranked(t, r) && s in r.nodeOf && x in Descendants(t, r, s, d)
    ensures exists k: nat :: 1 <= k && d.Covers(k) && AncestorAt(r, x, k) == Some(s)
    decreases t.height - t.Rank(r.nodeOf[s])
  {
    if x in r.children[s] {
      assert AncestorAt(r, x, 1) == Some(s);
    } else {
      DescendantsOfIn(t, r, s, r.children[s], d.Less(), x);
      var c :| c in r.children[s] && c in r.nodeOf && x in Descendants(t, r, c, d.Less());
      assert r.parent[c] == Some(s) && t.Rank(r.nodeOf[s]) + 1 == t.Rank(r.nodeOf[c]);
      DescendantsBelow(t, r, c, d.Less(), x);
      var k: nat :| 1 <= k && d.Less().Covers(k) && AncestorAt(r, x, k) == Some(c);
      assert AncestorAt(r, x, k + 1) == Some(s);
    }
  }

  /** Every shape between one and d parent links below s is a descendant
      of s within depth d. */
  lemma {:induction false} BelowDescendants(t: DataTree, r: Links, s: ShapeId, d: Depth, x: ShapeId, k: nat)
    requires Ranked(t, r) && s in r.nodeOf
    requires 1 <= k && d.Covers(k) && AncestorAt(r, x, k) == Some(s)
    ensures x in Descendants(t, r, s, d)
    decreases k
  {
    var y := AncestorAt(r, x, k - 1).value;
    assert y in r.nodeOf && r.parent[y] == Some(s);
    assert y in r.children[s];
    if k > 1 {
      BelowDescendants(t, r, y, d.Less(), x, k - 1);
      DescendantsOfIn(t, r, s, r.children[s], d.Less(), x);
    }
  }

  /** x is a descendant of s within depth d exactly when s lies between one
      and d parent links above x. */
  lemma DescendantsSpec(t: DataTree, r: Links, s: ShapeId, d: Depth, x: ShapeId)
    requires Ranked(t, r) && s in r.nodeOf
    ensures x in Descendants(t, r, s, d) <==>
      exists k: nat :: 1 <= k && d.Covers(k) && AncestorAt(r, x, k) == Some(s)
  {
    if x in Descendants(t, r, s, d) {
      DescendantsBelow(t, r, s, d, x);
    }
    if exists k: nat :: 1 <= k && d.Covers(k) && AncestorAt(r, x, k) == Some(s) {
      var k: nat :| 1 <= k && d.Covers(k) && AncestorAt(r, x, k) == Some(s);
      BelowDescendants(t, r, s, d, x, k);
    }
  }

  /** The ancestors of s up to depth d, nearest first: its parent, the
      parent's parent and so on. This is the chain the recursion is evidently
      meant to collect; AncestorsAsWritten is what the source returns. */
  function Ancestors(t: DataTree, r: Links, s: ShapeId, d: Depth): seq<ShapeId>
    requires Ranked(t, r) && s in r.nodeOf
    decreases t.Rank(r.nodeOf[s])
  {
    if !d.Positive() then []
    else match r.parent[s]
      case None => []
      case Some(p) =>
        [p] + Ancestors(t, r, p, d.Less())
  }

  /** Every ancestor of s within depth d lies between one and d parent
      links above s. */
  lemma {:induction false} AncestorsAbove(t: DataTree, r: Links, s: ShapeId, d: Depth, x: ShapeId)
    requires Ranked(t, r) && s in r.nodeOf && x in Ancestors(t, r, s, d)
    ensures exists k: nat :: 1 <= k && d.Covers(k) && AncestorAt(r, s, k) == Some(x)
    decreases t.Rank(r.nodeOf[s])
  {
    var p := r.parent[s].value;
    if x == p {
      assert AncestorAt(r, s, 1) == Some(x);
    } else {
      AncestorsAbove(t, r, p, d.Less(), x);
      var k: nat :| 1 <= k && d.Less().Covers(k) && AncestorAt(r, p, k) == Some(x);
      AncestorAtFirst(r, s, k);
      assert AncestorAt(r, s, k + 1) == Some(x);
    }
  }

  /** Every shape between one and d parent links above s is an ancestor of
      s within depth d. */
  lemma {:induction false} AboveAncestors(t: DataTree, r: Links, s: ShapeId, d: Depth, x: ShapeId, k: nat)
    requires Ranked(t, r) && s in r.nodeOf
    requires 1 <= k && d.Covers(k) && AncestorAt(r, s, k) == Some(x)
    ensures x in Ancestors(t, r, s, d)
    decreases k
  {
    AncestorAtFirst(r, s, k - 1);
    var p := r.parent[s].value;
    if k > 1 {
      AboveAncestors(t, r, p, d.Less(), x, k - 1);
    }
  }

  /** x is an ancestor of s within depth d exactly when it lies between one
      and d parent links above s. */
  lemma AncestorsSpec(t: DataTree, r: Links, s: ShapeId, d: Depth, x: ShapeId)
    requires Ranked(t, r) && s in r.nodeOf
    ensures x in Ancestors(t, r, s, d) <==>
      exists k: nat :: 1 <= k && d.Covers(k) && AncestorAt(r, s, k) == Some(x)
  {
    if x in Ancestors(t, r, s, d) {
      AncestorsAbove(t, r, s, d, x);
    }
    if exists k: nat :: 1 <= k && d.Covers(k) && AncestorAt(r, s, k) == Some(x) {
      var k: nat :| 1 <= k && d.Covers(k) && AncestorAt(r, s, k) == Some(x);
      AboveAncestors(t, r, s, d, x, k);
    }
  }

  /** Ancestors and descendants are the two directions of one relation. */
  lemma AncestorsDescendants(t: DataTree, r: Links, s: ShapeId, d: Depth, x: ShapeId)
    requires Ranked(t, r) && s in r.nodeOf && x in r.nodeOf
    ensures x in Descendants(t, r, s, d) <==> s in Ancestors(t, r, x, d)
  {
    DescendantsSpec(t, r, s, d, x);
    AncestorsSpec(t, r, x, d, s);
  }

  /** The ancestor query as the source writes it: the recursive result is
      pushed onto the parent object rather than onto the returned array, so
      the answer holds the parent at most. */
  function AncestorsAsWritten(r: Links, s: ShapeId, d: Depth): seq<ShapeId>
    requires s in r.parent
  {
    if !d.Positive() then []
    else match r.parent[s]
      case None => []
      case Some(p) => [p]
  }

  /** The written answer is always the first entry of the intended chain,
      and with a grandparent and two levels to go it misses the grandparent. */
  lemma AncestorsAsWrittenStops(t: DataTree, r: Links, s: ShapeId, d: Depth)
    requires Ranked(t, r) && s in r.nodeOf
    ensures AncestorsAsWritten(r, s, d) <= Ancestors(t, r, s, d)
    ensures |AncestorsAsWritten(r, s, d)| <= 1
    ensures d.Covers(2) && d.Less().Positive() && r.parent[s].Some? &&
            r.parent[r.parent[s].value].Some? ==>
      var g := r.parent[r.parent[s].value].value;
      g in Ancestors(t, r, s, d) && g !in AncestorsAsWritten(r, s, d)
  {
    if r.parent[s].Some? {
      var p := r.parent[s].value;
      if d.Less().Positive() && r.parent[p].Some? {
        assert Ancestors(t, r, p, d.Less())[0] == r.parent[p].value;
      }
    }
  }

  /** The ancestors up to, and not including, a given shape, as the source
      writes it: the recursive call names a `depth` that is not in scope, so
      the call throws as soon as the parent exists and is not that shape. */
  function AncestorsToAsWritten(r: Links, s: ShapeId, shape: ShapeId): Outcome<seq<ShapeId>>
    requires s in r.parent
  {
    match r.parent[s]
    case None => Returned([])
    case Some(p) => if p == shape then Returned([]) else Thrown
  }

  /** The ancestors up to, and not including, a given shape, nearest first;
      all of them when the shape is not an ancestor. */
  function AncestorsTo(t: DataTree, r: Links, s: ShapeId, shape: ShapeId): seq<ShapeId>
    requires Ranked(t, r) && s in r.nodeOf
    decreases t.Rank(r.nodeOf[s])
  {
    match r.parent[s]
    case None => []
    case Some(p) =>
      if p == shape then []
      else
        [p] + AncestorsTo(t, r, p, shape)
  }

  /** The chain up to a shape is a prefix of all the ancestors that leaves
      the shape out; when the shape is an ancestor, it is exactly the next
      entry of the full chain. */
  lemma {:induction false} AncestorsToSpec(t: DataTree, r: Links, s: ShapeId, shape: ShapeId)
    requires Ranked(t, r) && s in r.nodeOf
    ensures AncestorsTo(t, r, s, shape) <= Ancestors(t, r, s, Unlimited)
    ensures shape !in AncestorsTo(t, r, s, shape)
    ensures shape in Ancestors(t, r, s, Unlimited) ==>
      AncestorsTo(t, r, s, shape) + [shape] <= Ancestors(t, r, s, Unlimited)
    decreases t.Rank(r.nodeOf[s])
  {
    if r.parent[s].Some? {
      var p := r.parent[s].value;
      if p != shape {
        AncestorsToSpec(t, r, p, shape);
        if shape in Ancestors(t, r, s, Unlimited) {
          assert shape in Ancestors(t, r, p, Unlimited);
        }
      }
    }
  }

  /** The written chain throws exactly when the intended one is not empty. */
  lemma AncestorsToThrows(t: DataTree, r: Links, s: ShapeId, shape: ShapeId)
    requires Ranked(t, r) && s in r.nodeOf
    ensures AncestorsToAsWritten(r, s, shape).Thrown? <==> AncestorsTo(t, r, s, shape) != []
    ensures AncestorsToAsWritten(r, s, shape).Returned? ==>
      AncestorsToAsWritten(r, s, shape).value == AncestorsTo(t, r, s, shape)
  {
  }
}
