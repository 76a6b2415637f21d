/** The registration step at the start of `add()`: the shape becomes
    rendered and is entered into the root, leaf and collapsed registries.
    The source registers root and leaf unconditionally; that is right for a
    shape that is not rendered yet and wrong for one that already is. */
module LinkRegister {
  import opened Util
  import opened DataTrees
  import opened NodeLinks

  /** Registration as written: root and leaf always, collapsed when the
      shape shows fewer children than its node has. */
  function RegisterAsWritten(t: DataTree, r: Links, s: ShapeId): Links
    requires s in r.children && s in r.nodeOf
  {
    r.(rendered := r.rendered + {s},
       roots := r.roots + {s},
       leaves := r.leaves + {s},
       collapsed := if |t.Children(r.nodeOf[s])| != |r.children[s]| then r.collapsed + {s} else r.collapsed)
  }

  /** Registration as intended: each registry is entered only when the
      structure says so. It agrees with the source on every shape that is
      not rendered yet; `createParent` can re-add a rendered shape, where
      the two differ. */
  function Register(t: DataTree, r: Links, s: ShapeId): Links
    requires s in r.parent && s in r.children && s in r.nodeOf
  {
    r.(rendered := r.rendered + {s},
       roots := if r.parent[s].None? then r.roots + {s} else r.roots,
       leaves := if r.children[s] == [] then r.leaves + {s} else r.leaves,
       collapsed := if |t.Children(r.nodeOf[s])| != |r.children[s]| then r.collapsed + {s} else r.collapsed)
  }

  /** On a shape that is not rendered the two registrations coincide. */
  lemma RegisterAgrees(t: DataTree, r: Links, s: ShapeId)
    requires Keys(r) && Detached(r) && s in r.nodeOf && s !in r.rendered
    ensures Register(t, r, s) == RegisterAsWritten(t, r, s)
  {
  }

  /** Re-registering a rendered shape changes nothing. */
  lemma RegisterRendered(t: DataTree, r: Links, s: ShapeId)
    requires Sound(t, r) && s in r.rendered
    ensures Register(t, r, s) == r
  {
    ChildCountBound(t, r, s);
  }

  /** The source's registration of a rendered shape that has a parent puts
      it into the root registry, so the registries no longer match. */
  lemma RegisterAsWrittenBreaksRoots(t: DataTree, r: Links, s: ShapeId)
    requires Sound(t, r) && s in r.rendered && r.parent[s].Some?
    ensures var r' := RegisterAsWritten(t, r, s); Keys(r') && !RootsExact(r')
  {
    var r' := RegisterAsWritten(t, r, s);
    assert s in r'.roots;
    assert s !in (set x | x in r'.rendered && r'.parent[x].None?);
  }

  /** Likewise a rendered shape with children lands in the leaf registry. */
  lemma RegisterAsWrittenBreaksLeaves(t: DataTree, r: Links, s: ShapeId)
    requires Sound(t, r) && s in r.rendered && r.children[s] != []
    ensures var r' := RegisterAsWritten(t, r, s); Keys(r') && !LeavesExact(r')
  {
    var r' := RegisterAsWritten(t, r, s);
    assert s in r'.leaves;
    assert s !in (set x | x in r'.rendered && r'.children[x] == []);
  }

  lemma RegisterSlots(t: DataTree, r: Links, s: ShapeId)
    requires Keys(r) && Slots(t, r) && s in r.nodeOf
    requires (r.nodeOf[s], r.uidOf[s]) in r.slot && r.slot[(r.nodeOf[s], r.uidOf[s])] == s
    ensures Keys(Register(t, r, s)) && Slots(t, Register(t, r, s))
  {
  }

  lemma RegisterLinked(t: DataTree, r: Links, s: ShapeId)
    requires Keys(r) && Linked(t, r) && s in r.nodeOf && s !in r.rendered
    ensures Keys(Register(t, r, s)) && Linked(t, Register(t, r, s))
  {
    var r' := Register(t, r, s);
    assert Detached(r');
    assert UpLinked(r');
    assert DownLinked(t, r');
  }

  lemma RegisterRegistries(t: DataTree, r: Links, s: ShapeId)
    requires Keys(r) && Registries(t, r) && s in r.nodeOf && s !in r.rendered
    ensures Keys(Register(t, r, s)) && Registries(t, Register(t, r, s))
  {
    var r' := Register(t, r, s);
    assert forall x :: x in r'.roots <==> x in r'.rendered && r'.parent[x].None?;
    assert forall x :: x in r'.leaves <==> x in r'.rendered && r'.children[x] == [];
    assert forall x :: x in r'.collapsed <==> x in r'.rendered && |r'.children[x]| != |t.Children(r'.nodeOf[x])|;
  }

  /** Registering a shape that was not rendered keeps the structure sound. */
  lemma RegisterSound(t: DataTree, r: Links, s: ShapeId)
    requires Sound(t, r) && s in r.nodeOf && s !in r.rendered
    requires (r.nodeOf[s], r.uidOf[s]) in r.slot && r.slot[(r.nodeOf[s], r.uidOf[s])] == s
    ensures Sound(t, Register(t, r, s))
  {
    RegisterSlots(t, r, s);
    RegisterLinked(t, r, s);
    RegisterRegistries(t, r, s);
  }

  /** The rendered shapes of s's data children, once s is registered, are
      shapes that were rendered before, listed once each, and s is now the
      rendered shape of their data parent. */
  lemma RegisterKin(t: DataTree, r: Links, s: ShapeId)
    requires t.WellFormed() && Keys(r) && Slots(t, r) && s in r.nodeOf && s !in r.rendered
    requires (r.nodeOf[s], r.uidOf[s]) in r.slot && r.slot[(r.nodeOf[s], r.uidOf[s])] == s
    ensures var r' := Register(t, r, s);
      && Keys(r')
      && (forall c | c in Kin(t, r', s) :: c in r.rendered && RenderedParent(t, r', c) == Some(s))
      && Distinct(Kin(t, r', s))
      && s !in Kin(t, r', s)
  {
    var r' := Register(t, r, s);
    var n, u := r.nodeOf[s], r.uidOf[s];
    Partition(r', t.Children(n), u);
    RenderedOfDistinct(r', t.Children(n), u);
    forall c | c in Kin(t, r', s)
      ensures c in r.rendered && RenderedParent(t, r', c) == Some(s)
    {
      var m :| m in t.Children(n) && RenderedShape(r', m, u) == Some(c);
      t.ChildFacts(n, m);
    }
  }

  /** After registering s, s itself and the rendered shapes of its data
      children are the pending roots; every other rendered shape keeps its
      complete link. */
  lemma RegisterPending(t: DataTree, r: Links, s: ShapeId)
    requires t.WellFormed() && Keys(r) && Slots(t, r) && CompleteBut(t, r, {})
    requires s in r.nodeOf && s !in r.rendered && r.parent[s].None?
    requires (r.nodeOf[s], r.uidOf[s]) in r.slot && r.slot[(r.nodeOf[s], r.uidOf[s])] == s
    ensures var r' := Register(t, r, s);
      && Keys(r')
      && CompleteBut(t, r', {s} + set c | c in Kin(t, r', s))
  {
    var r' := Register(t, r, s);
    var n, u := r.nodeOf[s], r.uidOf[s];
    Partition(r', t.Children(n), u);
    forall c | c in r'.rendered
      ensures if c in {s} + set c | c in Kin(t, r', s) then r'.parent[c].None? else r'.parent[c] == RenderedParent(t, r', c)
    {
      if c != s {
        if t.Parent(r.nodeOf[c]) == Some(n) && r.uidOf[c] == u {
          t.ParentFacts(r.nodeOf[c]);
          assert RenderedShape(r', r.nodeOf[c], u) == Some(c);
          assert RenderedParent(t, r, c) == None;
        } else {
          assert RenderedParent(t, r', c) == RenderedParent(t, r, c);
        }
      }
    }
  }
}
