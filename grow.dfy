/** Materialising shapes: `createParent`, `createChild(ren)`,
    `createAncestors` and `createDescendants` only ever add rendered shapes
    and fill empty slots, so whatever data node had a rendered shape keeps
    it. This module states that growth and what "shown" means for the data
    nodes above and below a shape. */
module LinkGrow {
  import opened Util
  import opened DataTrees
  import opened NodeLinks

  /** r' only adds shapes, rendered shapes and slots to r. */
  ghost predicate Grows(r: Links, r': Links) {
    && r.rendered <= r'.rendered
    && (forall k | k in r.slot :: k in r'.slot && r'.slot[k] == r.slot[k])
    && (forall x | x in r.nodeOf :: x in r'.nodeOf && r'.nodeOf[x] == r.nodeOf[x])
    && (forall x | x in r.uidOf :: x in r'.uidOf && r'.uidOf[x] == r.uidOf[x])
  }

  /** Adding rendered shapes alone is growth. */
  lemma GrowsByRendering(r: Links, r': Links)
    requires r'.slot == r.slot && r'.nodeOf == r.nodeOf && r'.uidOf == r.uidOf && r.rendered <= r'.rendered
    ensures Grows(r, r')
  {
  }

  lemma GrowsTrans(r: Links, r1: Links, r2: Links)
    requires Grows(r, r1) && Grows(r1, r2)
    ensures Grows(r, r2)
  {
  }

  /** A data node that has a rendered shape keeps that shape. */
  lemma RenderedShapeGrows(r: Links, r': Links, n: Node, u: UID)
    requires Grows(r, r') && RenderedShape(r, n, u).Some?
    ensures RenderedShape(r', n, u) == RenderedShape(r, n, u)
  {
  }

  /** Every data node below n, down to d levels, has a rendered shape in
      context u. */
  ghost predicate ShownBelow(t: DataTree, r: Links, n: Node, u: UID, d: int)
    decreases if d < 0 then 0 else d
  {
    d <= 0 || forall m | m in t.Children(n) :: RenderedShape(r, m, u).Some? && ShownBelow(t, r, m, u, d - 1)
  }

  lemma {:induction false} ShownBelowGrows(t: DataTree, r: Links, r': Links, n: Node, u: UID, d: int)
    requires Grows(r, r') && ShownBelow(t, r, n, u, d)
    ensures ShownBelow(t, r', n, u, d)
    decreases if d < 0 then 0 else d
  {
    if d > 0 {
      forall m | m in t.Children(n) ensures RenderedShape(r', m, u).Some? && ShownBelow(t, r', m, u, d - 1) {
        ShownBelowGrows(t, r, r', m, u, d - 1);
      }
    }
  }

  /** The data ancestors of n, up to d levels, have rendered shapes in
      context u. */
  ghost predicate ShownAbove(t: DataTree, r: Links, n: Node, u: UID, d: int)
    decreases t.Rank(n)
  {
    d <= 0 || match t.Parent(n)
      case None => true
      case Some(pn) => RenderedShape(r, pn, u).Some? && (t.Rank(pn) < t.Rank(n) ==> ShownAbove(t, r, pn, u, d - 1))
  }

  lemma {:induction false} ShownAboveGrows(t: DataTree, r: Links, r': Links, n: Node, u: UID, d: int)
    requires Grows(r, r') && ShownAbove(t, r, n, u, d)
    ensures ShownAbove(t, r', n, u, d)
    decreases t.Rank(n)
  {
    if d > 0 && t.Parent(n).Some? {
      var pn := t.Parent(n).value;
      if t.Rank(pn) < t.Rank(n) {
        ShownAboveGrows(t, r, r', pn, u, d - 1);
      }
    }
  }

  /** When every node of ms has a rendered shape, none is missing. */
  lemma {:induction false} NoneMissing(r: Links, ms: seq<Node>, u: UID)
    requires forall m | m in ms :: RenderedShape(r, m, u).Some?
    ensures MissingOf(r, ms, u) == []
  {
    if ms != [] {
      NoneMissing(r, ms[1..], u);
    }
  }

  /** A rendered shape none of whose data children is missing shows all of
      them: it lists as many children as its node has, so it is not in the
      collapsed registry. */
  lemma ShowsAll(t: DataTree, r: Links, s: ShapeId)
    requires Valid(t, r) && s in r.rendered && Missing(t, r, s) == []
    ensures |r.children[s]| == |t.Children(r.nodeOf[s])| && s !in r.collapsed
  {
    var n, u := r.nodeOf[s], r.uidOf[s];
    var kin := Kin(t, r, s);
    Partition(r, t.Children(n), u);
    RenderedOfDistinct(r, t.Children(n), u);
    forall c | c in kin ensures c in r.children[s] {
      var m :| m in t.Children(n) && RenderedShape(r, m, u) == Some(c);
      t.ChildFacts(n, m);
      assert RenderedParent(t, r, c) == Some(s);
    }
    DistinctSubBound(kin, r.children[s]);
    ChildCountBound(t, r, s);
  }

  /** In a valid scene a shape's parent, if any, is the shape its data
      parent's slot holds in the shape's context. */
  lemma ParentIsSlot(t: DataTree, r: Links, s: ShapeId, pn: Node, p: ShapeId)
    requires Valid(t, r) && s in r.nodeOf && t.Parent(r.nodeOf[s]) == Some(pn)
    requires (pn, r.uidOf[s]) in r.slot && r.slot[(pn, r.uidOf[s])] == p
    ensures r.parent[s] == None || r.parent[s] == Some(p)
  {
  }

  /** The parent of a rendered shape is the rendered shape of its data
      parent: one level up in the data tree. */
  lemma ParentRank(t: DataTree, r: Links, s: ShapeId)
    requires Valid(t, r) && s in r.nodeOf && r.parent[s].Some?
    ensures r.parent[s].value in r.nodeOf && r.parent[s].value in r.rendered
    ensures t.Parent(r.nodeOf[s]) == Some(r.nodeOf[r.parent[s].value])
    ensures r.uidOf[r.parent[s].value] == r.uidOf[s]
    ensures t.Rank(r.nodeOf[r.parent[s].value]) + 1 == t.Rank(r.nodeOf[s])
  {
    var pn := t.Parent(r.nodeOf[s]).value;
    t.ParentFacts(r.nodeOf[s]);
  }

  /** The rendered shape of a shape's data parent sits one level up. */
  lemma RenderedParentRank(t: DataTree, r: Links, s: ShapeId)
    requires Domain(t, r) && s in r.nodeOf && RenderedParent(t, r, s).Some?
    ensures RenderedParent(t, r, s).value in r.nodeOf
    ensures t.Rank(r.nodeOf[RenderedParent(t, r, s).value]) + 1 == t.Rank(r.nodeOf[s])
  {
    t.ParentFacts(r.nodeOf[s]);
  }

  /** The children of a shape sit one level down in the data tree. */
  lemma ChildRank(t: DataTree, r: Links, s: ShapeId, c: ShapeId)
    requires Valid(t, r) && s in r.nodeOf && c in r.children[s]
    ensures c in r.nodeOf && c in r.rendered && r.parent[c] == Some(s) && s in r.rendered
    ensures t.Rank(r.nodeOf[c]) == t.Rank(r.nodeOf[s]) + 1 <= t.height
  {
    var i :| 0 <= i < |r.children[s]| && r.children[s][i] == c;
    t.ParentFacts(r.nodeOf[c]);
    t.ChildFacts(r.nodeOf[s], r.nodeOf[c]);
  }

  /** Rendering shape x for node m in context u, with x taking m's slot,
      gives m a rendered shape and leaves every other node's alone. */
  lemma RenderOne(t: DataTree, r: Links, r': Links, m: Node, u: UID, x: ShapeId)
    requires Keys(r') && Slots(t, r')
    requires r'.slot == r.slot[(m, u) := x] && r'.rendered == r.rendered + {x}
    ensures RenderedShape(r', m, u) == Some(x)
    ensures forall m' | m' != m :: RenderedShape(r', m', u) == RenderedShape(r, m', u)
  {
    forall m' | m' != m ensures RenderedShape(r', m', u) == RenderedShape(r, m', u) {
      if (m', u) in r.slot {
        assert r'.slot[(m', u)] == r.slot[(m', u)];
        assert r'.nodeOf[r'.slot[(m', u)]] == m';
        assert r'.nodeOf[x] == m;
      }
    }
  }

  /** The missing-node filter only looks at whether each node has a
      rendered shape. */
  lemma {:induction false} MissingOfFrame(r: Links, r': Links, ms: seq<Node>, u: UID)
    requires forall m | m in ms :: RenderedShape(r', m, u).None? == RenderedShape(r, m, u).None?
    ensures MissingOf(r', ms, u) == MissingOf(r, ms, u)
  {
    if ms != [] {
      MissingOfFrame(r, r', ms[1..], u);
    }
  }

  /** Giving the first missing node a rendered shape, and changing nothing
      else, drops exactly that node from the front of the missing nodes. */
  lemma {:induction false} MissingAfterOne(r: Links, r': Links, ms: seq<Node>, u: UID, m: Node)
    requires Distinct(ms) && MissingOf(r, ms, u) != [] && m == MissingOf(r, ms, u)[0]
    requires RenderedShape(r', m, u).Some?
    requires forall m' | m' != m :: RenderedShape(r', m', u) == RenderedShape(r, m', u)
    ensures MissingOf(r', ms, u) == MissingOf(r, ms, u)[1..]
  {
    DistinctTail(ms);
    Partition(r, ms[1..], u);
    if ms[0] == m {
      assert RenderedShape(r, m, u).None?;
      MissingOfFrame(r, r', ms[1..], u);
    } else {
      MissingAfterOne(r, r', ms[1..], u, m);
    }
  }

  /** In a valid scene a rendered shape whose data parent's node holds a
      rendered shape s of the same context is a child of s. */
  lemma LinkedToParentShape(t: DataTree, r: Links, s: ShapeId, x: ShapeId)
    requires Valid(t, r) && s in r.rendered && x in r.rendered
    requires t.Parent(r.nodeOf[x]) == Some(r.nodeOf[s]) && r.uidOf[x] == r.uidOf[s]
    ensures r.parent[x] == Some(s) && x in r.children[s]
  {
    assert RenderedParent(t, r, x) == Some(s);
  }

  /** Every shape of r whose node lies above level k keeps its child list
      in r'. */
  ghost predicate KeepsChildren(t: DataTree, r: Links, r': Links, k: int) {
    forall y | y in r.nodeOf && y in r.children && t.Rank(r.nodeOf[y]) < k ::
      y in r'.children && r'.children[y] == r.children[y]
  }

  lemma KeepsChildrenTrans(t: DataTree, r: Links, r1: Links, r2: Links, k: int)
    requires Grows(r, r1) && KeepsChildren(t, r, r1, k) && KeepsChildren(t, r1, r2, k)
    ensures KeepsChildren(t, r, r2, k)
  {
  }

  lemma KeepsChildrenLower(t: DataTree, r: Links, r': Links, k: int, k': int)
    requires KeepsChildren(t, r, r', k) && k' <= k
    ensures KeepsChildren(t, r, r', k')
  {
  }
}
