/** Creating a shape and binding it to its node: the constructor hands out
    a fresh shape with no links, and `__init` makes it the one shape the
    node holds for the context (`node.addShape(UID, this)`). */
module LinkBind {
  import opened Util
  import opened DataTrees
  import opened NodeLinks
  import opened LinkRemove

  /** A new shape for node n in context u, with no parent and no children,
      not rendered and not yet bound to the node. */
  function Fresh(r: Links, n: Node, u: UID): Links {
    var id := r.nextId;
    r.(nodeOf := r.nodeOf[id := n], uidOf := r.uidOf[id := u],
       parent := r.parent[id := None], children := r.children[id := []],
       nextId := id + 1)
  }

  lemma FreshSlots(t: DataTree, r: Links, n: Node, u: UID)
    requires Keys(r) && Slots(t, r) && n in t.nodes
    ensures r.nextId !in r.nodeOf
    ensures Keys(Fresh(r, n, u)) && Slots(t, Fresh(r, n, u))
  {
  }

  lemma FreshLinked(t: DataTree, r: Links, n: Node, u: UID)
    requires Keys(r) && Linked(t, r) && r.nextId !in r.nodeOf
    ensures Keys(Fresh(r, n, u)) && Linked(t, Fresh(r, n, u))
  {
    var r' := Fresh(r, n, u);
    assert Detached(r') && UpLinked(r') && DownLinked(t, r');
  }

  lemma FreshRegistries(t: DataTree, r: Links, n: Node, u: UID)
    requires Keys(r) && Registries(t, r) && r.nextId !in r.nodeOf
    ensures Keys(Fresh(r, n, u)) && Registries(t, Fresh(r, n, u))
  {
    var r' := Fresh(r, n, u);
    assert forall x :: x in r'.roots <==> x in r'.rendered && r'.parent[x].None?;
    assert forall x :: x in r'.leaves <==> x in r'.rendered && r'.children[x] == [];
    assert forall x :: x in r'.collapsed <==> x in r'.rendered && |r'.children[x]| != |t.Children(r'.nodeOf[x])|;
  }

  lemma FreshComplete(t: DataTree, r: Links, n: Node, u: UID)
    requires Keys(r) && CompleteBut(t, r, {}) && r.nextId !in r.nodeOf
    ensures Keys(Fresh(r, n, u)) && CompleteBut(t, Fresh(r, n, u), {})
  {
    var r' := Fresh(r, n, u);
    forall x | x in r'.rendered ensures r'.parent[x] == RenderedParent(t, r', x) {
      assert RenderedParent(t, r', x) == RenderedParent(t, r, x);
    }
  }

  /** Creating a shape keeps every invariant. */
  lemma FreshSound(t: DataTree, r: Links, n: Node, u: UID)
    requires Valid(t, r) && n in t.nodes
    ensures r.nextId !in r.nodeOf
    ensures Valid(t, Fresh(r, n, u))
  {
    FreshSlots(t, r, n, u);
    FreshLinked(t, r, n, u);
    FreshRegistries(t, r, n, u);
    FreshComplete(t, r, n, u);
  }

  /** `node.addShape(UID, s)`: s becomes the shape its node holds for its
      context. */
  function Bind(r: Links, s: ShapeId): Links
    requires s in r.nodeOf && s in r.uidOf
  {
    r.(slot := r.slot[(r.nodeOf[s], r.uidOf[s]) := s])
  }

  lemma BindSlots(t: DataTree, r: Links, s: ShapeId)
    requires Keys(r) && Slots(t, r) && s in r.nodeOf
    requires RenderedShape(r, r.nodeOf[s], r.uidOf[s]).None?
    ensures Keys(Bind(r, s)) && Slots(t, Bind(r, s))
  {
    var r' := Bind(r, s);
    forall x | x in r'.rendered
      ensures (r'.nodeOf[x], r'.uidOf[x]) in r'.slot && r'.slot[(r'.nodeOf[x], r'.uidOf[x])] == x
    {
    }
  }

  lemma BindStructure(t: DataTree, r: Links, s: ShapeId)
    requires Keys(r) && Linked(t, r) && Registries(t, r) && s in r.nodeOf
    ensures Keys(Bind(r, s)) && Linked(t, Bind(r, s)) && Registries(t, Bind(r, s))
  {
    var r' := Bind(r, s);
    assert Detached(r') && UpLinked(r') && DownLinked(t, r') && NoDuplicates(r');
    assert RootsExact(r') && LeavesExact(r') && CollapsedExact(t, r');
  }

  lemma BindComplete(t: DataTree, r: Links, s: ShapeId)
    requires Keys(r) && CompleteBut(t, r, {}) && s in r.nodeOf && s !in r.rendered
    requires RenderedShape(r, r.nodeOf[s], r.uidOf[s]).None?
    ensures Keys(Bind(r, s)) && CompleteBut(t, Bind(r, s), {})
    ensures RenderedShape(Bind(r, s), r.nodeOf[s], r.uidOf[s]).None?
  {
    var r' := Bind(r, s);
    forall x | x in r'.rendered ensures r'.parent[x] == RenderedParent(t, r', x) {
      assert RenderedParent(t, r', x) == RenderedParent(t, r, x);
    }
  }

  /** Binding a shape that is not rendered, once no rendered shape holds its
      node's slot, keeps every invariant. */
  lemma BindSound(t: DataTree, r: Links, s: ShapeId)
    requires Valid(t, r) && s in r.nodeOf && s !in r.rendered
    requires RenderedShape(r, r.nodeOf[s], r.uidOf[s]).None?
    ensures Valid(t, Bind(r, s))
    ensures RenderedShape(Bind(r, s), r.nodeOf[s], r.uidOf[s]).None?
  {
    BindSlots(t, r, s);
    BindStructure(t, r, s);
    BindComplete(t, r, s);
  }

  /** `__init()` on s: nothing when s already holds its node's slot;
      otherwise the shape holding the slot, if any, is removed and s takes
      the slot. */
  function InitLinks(t: DataTree, r: Links, s: ShapeId): Links
    requires Keys(r) && s in r.nodeOf
  {
    var key := (r.nodeOf[s], r.uidOf[s]);
    if key in r.slot && r.slot[key] == s then r
    else if key in r.slot && r.slot[key] in r.nodeOf then Bind(RemoveLinks(t, r, r.slot[key]), s)
    else Bind(r, s)
  }

  /** Replacing the shape that holds s's slot: the old holder is removed,
      then s is bound. */
  lemma InitReplace(t: DataTree, r: Links, s: ShapeId, prev: ShapeId)
    requires Valid(t, r) && s in r.nodeOf
    requires (r.nodeOf[s], r.uidOf[s]) in r.slot && r.slot[(r.nodeOf[s], r.uidOf[s])] == prev && prev != s
    ensures var r1 := RemoveLinks(t, r, prev);
      && Valid(t, r1) && s in r1.nodeOf && s !in r1.rendered
      && RenderedShape(r1, r.nodeOf[s], r.uidOf[s]).None?
      && r1.nodeOf == r.nodeOf && r1.uidOf == r.uidOf && r1.slot == r.slot
      && prev !in r1.rendered && r1.parent[prev] == None && r1.children[prev] == []
  {
    RemoveSound(t, r, prev);
    ValidLinkedUp(t, r, prev);
    RemoveLinksFields(t, r, prev);
    assert s !in r.rendered;
  }

  /** `__init` keeps every invariant and leaves s as the one shape of its
      node and context. */
  lemma InitSound(t: DataTree, r: Links, s: ShapeId)
    requires Valid(t, r) && s in r.nodeOf
    ensures var r' := InitLinks(t, r, s);
      && Valid(t, r')
      && r'.nodeOf == r.nodeOf && r'.uidOf == r.uidOf
      && (r.nodeOf[s], r.uidOf[s]) in r'.slot && r'.slot[(r.nodeOf[s], r.uidOf[s])] == s
  {
    var key := (r.nodeOf[s], r.uidOf[s]);
    if key in r.slot && r.slot[key] != s {
      var prev := r.slot[key];
      InitReplace(t, r, s, prev);
      var r1 := RemoveLinks(t, r, prev);
      BindSound(t, r1, s);
      assert InitLinks(t, r, s) == Bind(r1, s);
    } else if key !in r.slot {
      BindSound(t, r, s);
    }
  }

  /** `__init` moves no other slot, and a different shape that held s's
      slot is no longer rendered and has no links. */
  lemma InitEffect(t: DataTree, r: Links, s: ShapeId)
    requires Valid(t, r) && s in r.nodeOf
    ensures var r' := InitLinks(t, r, s); var key := (r.nodeOf[s], r.uidOf[s]);
      && (forall k | k in r.slot && k != key :: k in r'.slot && r'.slot[k] == r.slot[k])
      && (key in r.slot && r.slot[key] != s ==>
            var prev := r.slot[key];
            prev in r'.parent && prev in r'.children &&
            prev !in r'.rendered && r'.parent[prev] == None && r'.children[prev] == [])
  {
    var key := (r.nodeOf[s], r.uidOf[s]);
    if key in r.slot && r.slot[key] != s {
      var prev := r.slot[key];
      InitReplace(t, r, s, prev);
      var r1 := RemoveLinks(t, r, prev);
      assert InitLinks(t, r, s) == r1.(slot := r1.slot[key := s]);
    }
  }
}
