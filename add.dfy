/** The structural effect of `add()` on a shape that is not rendered yet:
    register it, link it to the rendered shape of its data parent, then
    link every rendered shape of its data children to it. */
module LinkAdd {
  import opened Util
  import opened DataTrees
  import opened NodeLinks
  import opened LinkAttach
  import opened LinkRegister

  /** `__setParent(__getParentFromNode())` on a shape without a parent. */
  function AttachToParent(t: DataTree, r: Links, s: ShapeId): Links
    requires s in r.nodeOf && s in r.uidOf
  {
    match RenderedParent(t, r, s)
    case Some(p) => if p in r.children && p in r.nodeOf then Attach(t, r, p, s) else r
    case None => r
  }

  /** The links after `add()` on a shape that is not rendered. */
  function AddLinks(t: DataTree, r: Links, s: ShapeId): Links
    requires Keys(r) && s in r.nodeOf
  {
    var r1 := Register(t, r, s);
    AttachAll(t, AttachToParent(t, r1, s), s, Kin(t, r1, s))
  }

  /** A shape may be added when it is the shape its node's slot holds for
      its context: `__init` has bound it. */
  ghost predicate Bound(r: Links, s: ShapeId)
    requires Keys(r)
  {
    s in r.nodeOf && (r.nodeOf[s], r.uidOf[s]) in r.slot && r.slot[(r.nodeOf[s], r.uidOf[s])] == s
  }

  /** After registration, linking the shape to its parent shape resolves it
      and leaves exactly its kin pending. */
  lemma ParentStep(t: DataTree, r: Links, s: ShapeId)
    requires Valid(t, r) && Bound(r, s) && s !in r.rendered
    ensures var r1 := Register(t, r, s); var r2 := AttachToParent(t, r1, s);
      && Keys(r1) && Sound(t, r2) && CompleteBut(t, r2, set c | c in Kin(t, r1, s))
      && r2.nodeOf == r.nodeOf && r2.uidOf == r.uidOf && r2.slot == r.slot && r2.rendered == r.rendered + {s}
      && s in r2.children
  {
    var r1 := Register(t, r, s);
    RegisterSound(t, r, s);
    RegisterPending(t, r, s);
    RegisterKin(t, r, s);
    var pending := {s} + set c | c in Kin(t, r1, s);
    assert pending - {s} == set c | c in Kin(t, r1, s);
    match RenderedParent(t, r1, s)
    case Some(p) =>
      AttachSound(t, r1, p, s, pending);
    case None =>
      Resolve(t, r1, pending, s);
  }

  /** The kin of a freshly registered shape are ready to be attached to it. */
  lemma KinReady(t: DataTree, r: Links, s: ShapeId)
    requires Valid(t, r) && Bound(r, s) && s !in r.rendered
    ensures var r1 := Register(t, r, s); var r2 := AttachToParent(t, r1, s);
      && Keys(r1) && Keys(r2) && Distinct(Kin(t, r1, s))
      && forall c | c in Kin(t, r1, s) :: c in r2.rendered && r2.parent[c].None? && RenderedParent(t, r2, c) == Some(s)
  {
    var r1 := Register(t, r, s);
    var r2 := AttachToParent(t, r1, s);
    ParentStep(t, r, s);
    RegisterKin(t, r, s);
    forall c | c in Kin(t, r1, s)
      ensures c in r2.rendered && r2.parent[c].None? && RenderedParent(t, r2, c) == Some(s)
    {
      assert c in set c | c in Kin(t, r1, s);
      assert RenderedParent(t, r2, c) == RenderedParent(t, r1, c);
    }
  }

  /** Adding a bound shape that is not rendered keeps the scene valid. */
  lemma AddSound(t: DataTree, r: Links, s: ShapeId, r': Links)
    requires Valid(t, r) && Bound(r, s) && s !in r.rendered && r' == AddLinks(t, r, s)
    ensures Valid(t, r')
  {
    var r1 := Register(t, r, s);
    var r2 := AttachToParent(t, r1, s);
    var kin := Kin(t, r1, s);
    ParentStep(t, r, s);
    KinReady(t, r, s);
    AttachAllSound(t, r2, s, kin, set c | c in kin, {});
  }

  /** The premises of `add()`'s effect: a bound shape that is not
      rendered, and therefore has no links. */
  ghost predicate Fresh(t: DataTree, r: Links, s: ShapeId) {
    && Domain(t, r) && Detached(r) && DownLinked(t, r) && CompleteBut(t, r, {})
    && Bound(r, s) && s !in r.rendered
  }

  /** A bound shape that is not rendered and has no links. */
  ghost predicate Blank(t: DataTree, r: Links, s: ShapeId) {
    Domain(t, r) && Bound(r, s) && s !in r.rendered && r.parent[s].None? && r.children[s] == []
  }

  lemma ValidFresh(t: DataTree, r: Links, s: ShapeId)
    requires Valid(t, r) && Bound(r, s) && s !in r.rendered
    ensures Fresh(t, r, s) && Blank(t, r, s)
  {
  }

  /** Registering and linking to the parent shape: only the parent shape's
      child list and the new shape's parent change among the links. */
  lemma ParentEffect(t: DataTree, r: Links, s: ShapeId)
    requires Blank(t, r, s)
    ensures var r1 := Register(t, r, s); var r2 := AttachToParent(t, r1, s);
      && Keys(r1) && Keys(r2)
      && r2.nodeOf == r.nodeOf && r2.uidOf == r.uidOf && r2.slot == r.slot && r2.nextId == r.nextId
      && r2.rendered == r.rendered + {s} && r1.slot == r.slot && r1.rendered == r2.rendered
      && r2.parent.Keys == r.parent.Keys
      && r2.parent[s] == RenderedParent(t, r, s)
      && (forall x | x in r.parent && x != s :: r2.parent[x] == r.parent[x])
      && r2.children[s] == []
      && (forall x | x in r.children && Some(x) != RenderedParent(t, r, s) :: r2.children[x] == r.children[x])
      && (RenderedParent(t, r, s).Some? ==> var p := RenderedParent(t, r, s).value;
            p != s && r2.children[p] == r.children[p] + [s])
  {
    var r1 := Register(t, r, s);
    if t.Parent(r.nodeOf[s]).Some? {
      t.ParentFacts(r.nodeOf[s]);
    }
    assert RenderedParent(t, r, s) == RenderedParent(t, r1, s);
  }

  /** What `add()` does to the links of a shape that is not rendered: it
      becomes rendered and is linked to the rendered shape of its data
      parent. Nodes, contexts and slots do not change. */
  lemma AddEffect(t: DataTree, r: Links, s: ShapeId)
    requires Blank(t, r, s)
    ensures var r' := AddLinks(t, r, s);
      && Keys(r')
      && r'.nodeOf == r.nodeOf && r'.uidOf == r.uidOf && r'.slot == r.slot && r'.nextId == r.nextId
      && r'.rendered == r.rendered + {s}
      && r'.parent[s] == RenderedParent(t, r, s)
  {
    var r1 := Register(t, r, s);
    var r2 := AttachToParent(t, r1, s);
    var kin := Kin(t, r1, s);
    assert AddLinks(t, r, s) == AttachAll(t, r2, s, kin);
    ParentEffect(t, r, s);
    RegisterKin(t, r, s);
    AttachAllChildren(t, r2, s, kin);
    AttachAllParents(t, r2, s, kin);
  }

  /** After `add()` the shape shows, in data order, the rendered shapes of
      all its node's children. */
  lemma AddShowsKin(t: DataTree, r: Links, s: ShapeId)
    requires Blank(t, r, s)
    ensures var r' := AddLinks(t, r, s);
      s in r'.children && s in r'.nodeOf && s in r'.uidOf && r'.children[s] == Kin(t, r', s)
  {
    var r1 := Register(t, r, s);
    var r2 := AttachToParent(t, r1, s);
    var kin := Kin(t, r1, s);
    var r' := AddLinks(t, r, s);
    assert r' == AttachAll(t, r2, s, kin);
    ParentEffect(t, r, s);
    AttachAllChildren(t, r2, s, kin);
    RenderedOfFrame(r1, r', t.Children(r.nodeOf[s]), r.uidOf[s]);
  }

  /** Besides the new shape's own list, only the child list of its parent
      shape changes, and it gains the new shape at its end. */
  lemma AddSiblings(t: DataTree, r: Links, s: ShapeId)
    requires Blank(t, r, s)
    ensures var r' := AddLinks(t, r, s);
      && r.children.Keys <= r'.children.Keys
      && (forall x | x in r.children && x != s && Some(x) != RenderedParent(t, r, s) :: r'.children[x] == r.children[x])
      && (RenderedParent(t, r, s).Some? ==> var p := RenderedParent(t, r, s).value;
            r'.children[p] == r.children[p] + [s])
  {
    var r1 := Register(t, r, s);
    var r2 := AttachToParent(t, r1, s);
    var kin := Kin(t, r1, s);
    assert AddLinks(t, r, s) == AttachAll(t, r2, s, kin);
    ParentEffect(t, r, s);
    AttachAllChildren(t, r2, s, kin);
  }

  /** The facts the parent step of `add()` needs on a shape that is not
      rendered: registration leaves it without a parent, and it is not yet
      among its parent shape's children. */
  lemma FreshParentStep(t: DataTree, r: Links, s: ShapeId)
    requires Fresh(t, r, s) && Blank(t, r, s)
    ensures var r1 := Register(t, r, s);
      && Keys(r1) && r1.parent[s].None? && r1.children == r.children
      && RenderedParent(t, r1, s) == RenderedParent(t, r, s)
      && (RenderedParent(t, r, s).Some? ==> s !in r.children[RenderedParent(t, r, s).value])
  {
    ParentEffect(t, r, s);
    match RenderedParent(t, r, s)
    case None =>
    case Some(p) =>
      assert p in r.rendered;
  }

  /** ... and the kin step: the kin are the same after the parent step,
      and can be appended one by one. */
  lemma FreshKinStep(t: DataTree, r: Links, s: ShapeId)
    requires Fresh(t, r, s) && Blank(t, r, s)
    ensures var r1 := Register(t, r, s); var r2 := AttachToParent(t, r1, s); var kin := Kin(t, r1, s);
      && Keys(r1) && Keys(r2) && r2.nodeOf == r.nodeOf
      && Kin(t, r2, s) == kin && r2.children[s] == []
      && Distinct(kin) && (set c | c in kin) <= r2.parent.Keys
      && (forall c | c in kin :: c !in r2.children[s] && r2.parent[c].None?)
      && |kin| <= |t.Children(r.nodeOf[s])|
  {
    var r1 := Register(t, r, s);
    var r2 := AttachToParent(t, r1, s);
    var kin := Kin(t, r1, s);
    ParentEffect(t, r, s);
    RegisterKin(t, r, s);
    RenderedOfFrame(r1, r2, t.Children(r.nodeOf[s]), r.uidOf[s]);
    Partition(r1, t.Children(r.nodeOf[s]), r.uidOf[s]);
    forall c | c in kin ensures r2.parent[c].None? {
      assert c in r.rendered && c != s;
      assert RenderedParent(t, r, c) == None;
    }
  }

  /** On a shape that is already rendered every step of `add()` finds its
      work done: registration changes nothing, the parent link is the one
      `__getParentFromNode` finds, and every rendered shape of a data child
      is already a child. */
  lemma RenderedSteps(t: DataTree, r: Links, s: ShapeId)
    requires Valid(t, r) && s in r.rendered
    ensures Settled(t, r, s)
  {
    RegisterRendered(t, r, s);
    var n, u := r.nodeOf[s], r.uidOf[s];
    Partition(r, t.Children(n), u);
    forall c | c in Kin(t, r, s) ensures c in r.children[s] {
      var m :| m in t.Children(n) && RenderedShape(r, m, u) == Some(c);
      t.ChildFacts(n, m);
      assert RenderedParent(t, r, c) == Some(s);
    }
  }

  /** s has no parent and is not among the children of the rendered shape
      of its data parent: the parent step will attach it. */
  ghost predicate Orphan(t: DataTree, r: Links, s: ShapeId)
    requires Keys(r) && s in r.nodeOf
  {
    r.parent[s].None? && (RenderedParent(t, r, s).Some? ==> s !in r.children[RenderedParent(t, r, s).value])
  }

  /** The distinct shapes kin have no parent and are not children of s, and
      s's node has room for all of them: the kin step will attach them. */
  ghost predicate Appendable(t: DataTree, r: Links, s: ShapeId, kin: seq<ShapeId>)
    requires Keys(r) && s in r.nodeOf
  {
    && Distinct(kin)
    && (forall c | c in kin :: c in r.nodeOf && c !in r.children[s] && r.parent[c].None?)
    && |r.children[s]| + |kin| <= |t.Children(r.nodeOf[s])|
  }

  /** Attaching s to its parent shape completes the parent's children. */
  function ParentFilled(t: DataTree, r: Links, s: ShapeId): bool
    requires Keys(r) && s in r.nodeOf
  {
    match RenderedParent(t, r, s)
    case None => false
    case Some(p) => p in r.nodeOf && |r.children[p]| + 1 == |t.Children(r.nodeOf[p])|
  }

  /** Appending kin to s completes s's children. */
  function KinFilled(t: DataTree, r: Links, s: ShapeId, kin: seq<ShapeId>): bool
    requires Keys(r) && s in r.nodeOf
  {
    kin != [] && |r.children[s]| + |kin| == |t.Children(r.nodeOf[s])|
  }

  /** Everything the steps of `add()` rely on when the shape is not
      rendered yet (see FreshParentStep and FreshKinStep). */
  ghost predicate Ready(t: DataTree, r: Links, s: ShapeId)
    requires Keys(r) && s in r.nodeOf
  {
    var r1 := Register(t, r, s);
    var kin := Kin(t, r1, s);
    && Keys(r1) && Orphan(t, r1, s)
    && RenderedParent(t, r1, s) == RenderedParent(t, r, s) && ParentFilled(t, r1, s) == ParentFilled(t, r, s)
    && var r2 := AttachToParent(t, r1, s);
    && Keys(r2) && s in r2.nodeOf && Kin(t, r2, s) == kin && Appendable(t, r2, s, kin)
    && KinFilled(t, r2, s, kin) == (kin != [] && |kin| == |t.Children(r.nodeOf[s])|)
  }

  lemma FreshReady(t: DataTree, r: Links, s: ShapeId)
    requires Valid(t, r) && Bound(r, s) && s !in r.rendered
    ensures Ready(t, r, s)
  {
    ValidFresh(t, r, s);
    FreshParentStep(t, r, s);
    FreshKinStep(t, r, s);
  }

  /** Everything the steps of `add()` rely on when the shape is rendered
      (see RenderedSteps). */
  ghost predicate Settled(t: DataTree, r: Links, s: ShapeId)
    requires Keys(r) && s in r.nodeOf
  {
    && Register(t, r, s) == r && r.parent[s] == RenderedParent(t, r, s)
    && (forall c | c in Kin(t, r, s) :: c in r.nodeOf && c in r.children[s])
  }
}
