/** The parent lookup of `add()` (`__getParentFromNode`) as the source
    writes it. When the data parent holds no shape at all for the context,
    the source calls a method on the missing shape and throws. The rest of
    the model uses `NodeLinks.RenderedParent`, which answers "no rendered
    parent shape" in that case, as the surrounding guards intend. */
module ParentLookup {
  import opened Util
  import opened DataTrees
  import opened NodeLinks
  import opened LinkBind
  import opened LinkRegister
  import opened LinkAdd

  /** `__getParentFromNode()` as written: no data parent gives undefined; a
      data parent whose slot is empty for the context throws; otherwise the
      slot's shape when it is rendered. */
  function ParentFromNodeAsWritten(t: DataTree, r: Links, c: ShapeId): Outcome<Option<ShapeId>>
    requires c in r.nodeOf && c in r.uidOf
  {
    match t.Parent(r.nodeOf[c])
    case None => Returned(None)
    case Some(pn) =>
      if (pn, r.uidOf[c]) !in r.slot then Thrown
      else if r.slot[(pn, r.uidOf[c])] in r.rendered then Returned(Some(r.slot[(pn, r.uidOf[c])]))
      else Returned(None)
  }

  /** The lookup as written throws exactly when the data parent exists and
      holds no shape for the context; otherwise it agrees with the lookup
      the model uses. */
  lemma ParentFromNodeThrows(t: DataTree, r: Links, c: ShapeId)
    requires c in r.nodeOf && c in r.uidOf
    ensures ParentFromNodeAsWritten(t, r, c).Thrown? <==>
      t.Parent(r.nodeOf[c]).Some? && (t.Parent(r.nodeOf[c]).value, r.uidOf[c]) !in r.slot
    ensures ParentFromNodeAsWritten(t, r, c).Returned? ==>
      ParentFromNodeAsWritten(t, r, c).value == RenderedParent(t, r, c)
  {
  }

  /** The chain 0 → 1 → 2. */
  function Chain(): DataTree {
    DataTree({0, 1, 2}, map[1 := 0, 2 := 1], map[0 := [1], 1 := [2], 2 := []], map[0 := 0, 1 := 1, 2 := 2], 2)
  }

  lemma ChainWellFormed()
    ensures Chain().WellFormed()
  {
    var t := Chain();
    assert forall n, i | n in t.kids && 0 <= i < |t.kids[n]| :: t.kids[n][i] in t.parentOf && t.parentOf[t.kids[n][i]] == n;
  }

  /** Shape 0 of context 0 made for node 2 of the chain in a scene with
      no shapes, and bound to it, as the constructor and `__init` leave it. */
  function LeafShape(): Links {
    Bind(LinkBind.Fresh(NoShapes(), 2, 0), 0)
  }

  /** The constructor and `__init` on a scene with no shapes leave a
      consistent scene. */
  lemma LeafShapeValid()
    ensures Valid(Chain(), LeafShape()) && Bound(LeafShape(), 0) && 0 !in LeafShape().rendered
  {
    var t := Chain();
    ChainWellFormed();
    NoShapesValid(t);
    var e := NoShapes();
    FreshSound(t, e, 2, 0);
    BindSound(t, LinkBind.Fresh(e, 2, 0), 0);
  }

  /** The first `add()` of shape 0 throws in its parent lookup, as node 1
      holds no shape; with the model's lookup it keeps the scene
      consistent. */
  lemma FirstAddThrows()
    ensures ParentFromNodeAsWritten(Chain(), Register(Chain(), LeafShape(), 0), 0) == Thrown
    ensures Valid(Chain(), AddLinks(Chain(), LeafShape(), 0))
  {
    LeafShapeValid();
    AddSound(Chain(), LeafShape(), 0, AddLinks(Chain(), LeafShape(), 0));
  }

  /** `createParent()` on shape 0, not rendered yet: node 1 holds no
      shape, so shape 1 is made for it and bound, and that shape's `add()`
      throws in its parent lookup, as node 0 holds no shape either. With
      the model's lookup the same `add()` keeps the scene consistent. */
  lemma CreateParentAsWrittenThrows()
    ensures var r := Bind(LinkBind.Fresh(LeafShape(), 1, 0), 1);
      && r.nodeOf[1] == 1 && Bound(r, 1) && 1 !in r.rendered
      && ParentFromNodeAsWritten(Chain(), Register(Chain(), r, 1), 1) == Thrown
      && RenderedParent(Chain(), Register(Chain(), r, 1), 1) == None
      && Valid(Chain(), AddLinks(Chain(), r, 1))
  {
    var t, r0 := Chain(), LeafShape();
    LeafShapeValid();
    var r1 := LinkBind.Fresh(r0, 1, 0);
    FreshSound(t, r0, 1, 0);
    var r := Bind(r1, 1);
    BindSound(t, r1, 1);
    AddSound(t, r, 1, AddLinks(t, r, 1));
  }
}
