/** Tearing a shape down: `remove()` detaches it from its parent (through
    `__removeChild`), makes each of its children a root (through
    `__setParent(null)`), clears its own links and then `__delete()` drops
    it from every registry and stops rendering it. */
module LinkRemove {
  import opened Util
  import opened DataTrees
  import opened NodeLinks

  /** `__removeChild(c)` on p when p lists c: c is spliced out of p's
      children (c's own parent field is left alone), p becomes collapsed if
      it was showing all of its node's children, and a leaf if no child
      is left. */
  function Detach(t: DataTree, r: Links, p: ShapeId, c: ShapeId): Links
    requires p in r.children && p in r.nodeOf
  {
    var rest := Without(r.children[p], c);
    r.(children := r.children[p := rest],
       collapsed := if |t.Children(r.nodeOf[p])| == |r.children[p]| then r.collapsed + {p} else r.collapsed,
       leaves := if rest == [] then r.leaves + {p} else r.leaves)
  }

  /** The parent map after `__setParent(null)` on each shape of cs in
      turn. */
  function Orphaned(parent: map<ShapeId, Option<ShapeId>>, cs: seq<ShapeId>): map<ShapeId, Option<ShapeId>>
    decreases |cs|
  {
    if cs == [] then parent
    else Orphaned(if cs[0] in parent then parent[cs[0] := None] else parent, cs[1..])
  }

  /** Exactly the shapes of cs lose their parent. */
  lemma {:induction false} OrphanedSpec(parent: map<ShapeId, Option<ShapeId>>, cs: seq<ShapeId>)
    ensures Orphaned(parent, cs).Keys == parent.Keys
    ensures forall x | x in parent :: Orphaned(parent, cs)[x] == if x in cs then None else parent[x]
    decreases |cs|
  {
    if cs != [] {
      var p1 := if cs[0] in parent then parent[cs[0] := None] else parent;
      OrphanedSpec(p1, cs[1..]);
      assert forall x :: x in cs <==> x == cs[0] || x in cs[1..];
    }
  }

  /** The links after `remove()` on s, which ends in `__delete()`. */
  function RemoveLinks(t: DataTree, r: Links, s: ShapeId): Links
    requires Keys(r) && s in r.nodeOf
  {
    var r1 := if r.parent[s].Some? && r.parent[s].value in r.nodeOf && s in r.children[r.parent[s].value]
              then Detach(t, r, r.parent[s].value, s) else r;
    var cs := r1.children[s];
    r1.(parent := Orphaned(r1.parent, cs)[s := None],
        children := r1.children[s := []],
        rendered := r1.rendered - {s},
        roots := (r1.roots + set x | x in cs) - {s},
        leaves := r1.leaves - {s},
        collapsed := r1.collapsed - {s})
  }

  /** The facts about s's upward link that the proofs below rely on. */
  ghost predicate LinkedUp(r: Links, s: ShapeId)
    requires Keys(r) && s in r.nodeOf
  {
    r.parent[s].Some? ==>
      r.parent[s].value in r.rendered && r.parent[s].value != s && s in r.children[r.parent[s].value]
  }

  /** r' is what `remove()` on s leaves of r, field by field, for a shape
      whose parent lists it: the fields that stay or simply lose s, ... */
  ghost predicate RemovedFields(r: Links, s: ShapeId, r': Links) {
    && Keys(r')
    && r'.nodeOf == r.nodeOf && r'.uidOf == r.uidOf && r'.slot == r.slot && r'.nextId == r.nextId
    && r'.rendered == r.rendered - {s}
  }

  /** ... the parent links: s and its former children lose theirs, ... */
  ghost predicate RemovedParents(r: Links, s: ShapeId, r': Links)
    requires Keys(r) && RemovedFields(r, s, r') && s in r.nodeOf
  {
    forall x | x in r.parent :: r'.parent[x] == if x == s || x in r.children[s] then None else r.parent[x]
  }

  /** ... the child lists: s's is emptied and its parent's loses s, ... */
  ghost predicate RemovedChildren(r: Links, s: ShapeId, r': Links)
    requires Keys(r) && RemovedFields(r, s, r') && s in r.nodeOf && LinkedUp(r, s)
  {
    && r'.children[s] == []
    && (forall x | x in r.children && x != s && r.parent[s] != Some(x) :: r'.children[x] == r.children[x])
    && (r.parent[s].Some? ==> r'.children[r.parent[s].value] == Without(r.children[r.parent[s].value], s))
  }

  /** ... and the registries. */
  ghost predicate RemovedRegistries(t: DataTree, r: Links, s: ShapeId, r': Links)
    requires Keys(r) && s in r.nodeOf && LinkedUp(r, s)
  {
    var full := r.parent[s].Some? &&
      |r.children[r.parent[s].value]| == |t.Children(r.nodeOf[r.parent[s].value])|;
    var emptied := r.parent[s].Some? && Without(r.children[r.parent[s].value], s) == [];
    && r'.roots == (r.roots + set x | x in r.children[s]) - {s}
    && r'.leaves == (if emptied then r.leaves + {r.parent[s].value} else r.leaves) - {s}
    && r'.collapsed == (if full then r.collapsed + {r.parent[s].value} else r.collapsed) - {s}
  }

  ghost predicate RemovedFrom(t: DataTree, r: Links, s: ShapeId, r': Links)
    requires Keys(r) && s in r.nodeOf && LinkedUp(r, s)
  {
    && RemovedFields(r, s, r')
    && RemovedParents(r, s, r') && RemovedChildren(r, s, r') && RemovedRegistries(t, r, s, r')
  }

  lemma RemoveLinksFields(t: DataTree, r: Links, s: ShapeId)
    requires Keys(r) && s in r.nodeOf && LinkedUp(r, s)
    ensures RemovedFrom(t, r, s, RemoveLinks(t, r, s))
  {
    var r1 := if r.parent[s].Some? && r.parent[s].value in r.nodeOf && s in r.children[r.parent[s].value]
              then Detach(t, r, r.parent[s].value, s) else r;
    OrphanedSpec(r1.parent, r1.children[s]);
  }

  lemma RemoveDetached(t: DataTree, r: Links, s: ShapeId, r': Links)
    requires Keys(r) && Detached(r) && s in r.rendered && LinkedUp(r, s)
    requires RemovedFields(r, s, r') && RemovedParents(r, s, r') && RemovedChildren(r, s, r')
    ensures Detached(r')
  {
  }

  lemma RemoveUp(t: DataTree, r: Links, s: ShapeId, r': Links)
    requires Keys(r) && UpLinked(r) && s in r.rendered && LinkedUp(r, s)
    requires RemovedFields(r, s, r') && RemovedParents(r, s, r') && RemovedChildren(r, s, r')
    ensures UpLinked(r')
  {
    forall x | x in r'.rendered && r'.parent[x].Some?
      ensures r'.parent[x].value in r'.rendered && x in r'.children[r'.parent[x].value]
    {
      var y := r.parent[x].value;
      assert x in r.children[y];
      if r.parent[s] == Some(y) {
        WithoutSpec(r.children[y], s);
      }
    }
  }

  /** A child listed by a rendered shape points back to it. */
  lemma ChildPointsBack(t: DataTree, r: Links, y: ShapeId, z: ShapeId)
    requires Keys(r) && DownLinked(t, r) && y in r.rendered && z in r.children[y]
    ensures z in r.rendered && r.parent[z] == Some(y) && r.uidOf[z] == r.uidOf[y]
    ensures t.Parent(r.nodeOf[z]) == Some(r.nodeOf[y])
  {
    var j :| 0 <= j < |r.children[y]| && r.children[y][j] == z;
  }

  lemma RemoveDown(t: DataTree, r: Links, s: ShapeId, r': Links)
    requires Keys(r) && DownLinked(t, r) && NoDuplicates(r) && s in r.rendered && LinkedUp(r, s)
    requires RemovedFields(r, s, r') && RemovedParents(r, s, r') && RemovedChildren(r, s, r')
    ensures DownLinked(t, r')
  {
    forall y, i | y in r'.rendered && 0 <= i < |r'.children[y]|
      ensures && r'.children[y][i] in r'.rendered && r'.parent[r'.children[y][i]] == Some(y)
              && r'.uidOf[r'.children[y][i]] == r'.uidOf[y]
              && t.Parent(r'.nodeOf[r'.children[y][i]]) == Some(r'.nodeOf[y])
    {
      var z := r'.children[y][i];
      if r.parent[s] == Some(y) {
        WithoutSpec(r.children[y], s);
        WithoutDistinct(r.children[y], s);
      }
      assert y != s;
      assert z in r.children[y] && z != s;
      ChildPointsBack(t, r, y, z);
      if z in r.children[s] {
        ChildPointsBack(t, r, s, z);
      }
    }
  }

  lemma RemoveNoDuplicates(t: DataTree, r: Links, s: ShapeId, r': Links)
    requires Keys(r) && NoDuplicates(r) && s in r.rendered && LinkedUp(r, s)
    requires RemovedFields(r, s, r') && RemovedChildren(r, s, r')
    ensures NoDuplicates(r')
  {
    if r.parent[s].Some? {
      WithoutDistinct(r.children[r.parent[s].value], s);
    }
  }

  lemma RemoveRoots(t: DataTree, r: Links, s: ShapeId, r': Links)
    requires Keys(r) && RootsExact(r) && DownLinked(t, r) && s in r.rendered && LinkedUp(r, s)
    requires RemovedFields(r, s, r') && RemovedParents(r, s, r') && RemovedRegistries(t, r, s, r')
    ensures RootsExact(r')
  {
    forall x | x in r.children[s] ensures x in r.rendered && x != s {
      ChildPointsBack(t, r, s, x);
    }
    assert forall x :: x in r'.roots <==> x in r'.rendered && r'.parent[x].None?;
  }

  lemma RemoveLeaves(t: DataTree, r: Links, s: ShapeId, r': Links)
    requires Keys(r) && LeavesExact(r) && s in r.rendered && LinkedUp(r, s)
    requires RemovedFields(r, s, r') && RemovedChildren(r, s, r') && RemovedRegistries(t, r, s, r')
    ensures LeavesExact(r')
  {
    assert forall x :: x in r'.leaves <==> x in r'.rendered && r'.children[x] == [];
  }

  lemma RemoveCollapsed(t: DataTree, r: Links, s: ShapeId, r': Links)
    requires Keys(r) && CollapsedExact(t, r) && s in r.rendered && LinkedUp(r, s)
    requires RemovedFields(r, s, r') && RemovedChildren(r, s, r') && RemovedRegistries(t, r, s, r')
    requires r.parent[s].Some? ==>
      |r.children[r.parent[s].value]| <= |t.Children(r.nodeOf[r.parent[s].value])|
    ensures CollapsedExact(t, r')
  {
    if r.parent[s].Some? {
      WithoutSpec(r.children[r.parent[s].value], s);
    }
    assert forall x :: x in r'.collapsed <==> x in r'.rendered && |r'.children[x]| != |t.Children(r'.nodeOf[x])|;
  }

  lemma RemoveComplete(t: DataTree, r: Links, s: ShapeId, r': Links)
    requires Keys(r) && Slots(t, r) && UpLinked(r) && DownLinked(t, r) && CompleteBut(t, r, {})
    requires s in r.rendered && LinkedUp(r, s) && RemovedFields(r, s, r') && RemovedParents(r, s, r')
    ensures CompleteBut(t, r', {})
  {
    forall x | x in r'.rendered ensures r'.parent[x] == RenderedParent(t, r', x) {
      if RenderedParent(t, r, x) == Some(s) {
        assert x in r.children[s];
      } else {
        assert RenderedParent(t, r', x) == RenderedParent(t, r, x);
        if x in r.children[s] {
          ChildPointsBack(t, r, s, x);
        }
      }
    }
  }

  /** A shape that is not rendered has no links and no registry entries,
      so removing it changes nothing. */
  lemma RemoveUnrendered(t: DataTree, r: Links, s: ShapeId)
    requires Keys(r) && Detached(r) && Registries(t, r) && s in r.nodeOf && s !in r.rendered
    ensures RemoveLinks(t, r, s) == r
  {
    var r' := RemoveLinks(t, r, s);
    assert r'.parent == r.parent;
  }

  /** The parent link of a rendered shape in a valid structure. */
  lemma ValidLinkedUp(t: DataTree, r: Links, s: ShapeId)
    requires Valid(t, r) && s in r.nodeOf
    ensures LinkedUp(r, s)
    ensures r.parent[s].Some? ==>
      |r.children[r.parent[s].value]| <= |t.Children(r.nodeOf[r.parent[s].value])|
  {
    if r.parent[s].Some? {
      var q := r.parent[s].value;
      var k :| 0 <= k < |r.children[q]| && r.children[q][k] == s;
      t.ParentFacts(r.nodeOf[s]);
      ChildCountBound(t, r, q);
    }
  }

  /** `remove()` keeps every invariant. */
  lemma RemoveSound(t: DataTree, r: Links, s: ShapeId)
    requires Valid(t, r) && s in r.nodeOf
    ensures Valid(t, RemoveLinks(t, r, s))
  {
    if s !in r.rendered {
      RemoveUnrendered(t, r, s);
    } else {
      var r' := RemoveLinks(t, r, s);
      ValidLinkedUp(t, r, s);
      RemoveLinksFields(t, r, s);
      SlotsFrame(t, r, r');
      RemoveDetached(t, r, s, r');
      RemoveUp(t, r, s, r');
      RemoveDown(t, r, s, r');
      RemoveNoDuplicates(t, r, s, r');
      RemoveRoots(t, r, s, r');
      RemoveLeaves(t, r, s, r');
      RemoveCollapsed(t, r, s, r');
      RemoveComplete(t, r, s, r');
    }
  }

  /** What `remove()` promises: the former parent no longer lists the
      shape, every former child has no parent, the shape has no links, is
      not rendered and is in no registry; every other shape keeps its
      parent, and every shape other than the two involved keeps its
      children. */
  lemma RemoveEffect(t: DataTree, r: Links, s: ShapeId)
    requires Valid(t, r) && s in r.nodeOf
    ensures var r' := RemoveLinks(t, r, s);
      && Keys(r')
      && r'.parent[s] == None && r'.children[s] == []
      && s !in r'.rendered && s !in r'.roots && s !in r'.leaves && s !in r'.collapsed
      && (r.parent[s].Some? ==> s !in r'.children[r.parent[s].value])
      && (forall c | c in r.children[s] :: r'.parent[c] == None)
      && (forall x | x in r.nodeOf && x != s && x !in r.children[s] :: r'.parent[x] == r.parent[x])
      && (forall x | x in r.nodeOf && x != s && r.parent[s] != Some(x) :: r'.children[x] == r.children[x])
  {
    ValidLinkedUp(t, r, s);
    RemoveLinksFields(t, r, s);
    if r.parent[s].Some? {
      WithoutDistinct(r.children[r.parent[s].value], s);
    }
  }

  /** The field-by-field description pins the result down: whatever
      satisfies it is `RemoveLinks`. */
  lemma RemovedFromDetermines(t: DataTree, r: Links, s: ShapeId, r': Links)
    requires Keys(r) && s in r.nodeOf && LinkedUp(r, s) && RemovedFrom(t, r, s, r')
    ensures r' == RemoveLinks(t, r, s)
  {
    var r2 := RemoveLinks(t, r, s);
    RemoveLinksFields(t, r, s);
    assert r'.parent == r2.parent by {
      assert r'.parent.Keys == r2.parent.Keys;
      forall x | x in r'.parent ensures r'.parent[x] == r2.parent[x] {
        assert x in r.parent;
      }
    }
    assert r'.children == r2.children by {
      assert r'.children.Keys == r2.children.Keys;
      forall x | x in r'.children ensures r'.children[x] == r2.children[x] {
        assert x in r.children;
      }
    }
  }

  /** The same description with the child list and registry updates
      written as map and set updates, as `remove()` performs them. */
  ghost predicate Unlinked(t: DataTree, r: Links, s: ShapeId, r': Links)
    requires Keys(r) && s in r.nodeOf && LinkedUp(r, s)
  {
    && r'.nodeOf == r.nodeOf && r'.uidOf == r.uidOf && r'.slot == r.slot && r'.nextId == r.nextId
    && r'.rendered == r.rendered - {s}
    && r'.parent.Keys == r.parent.Keys
    && (forall x | x in r'.parent :: r'.parent[x] == if x == s || x in r.children[s] then None else r.parent[x])
    && (r.parent[s].None? ==> r'.children == r.children[s := []])
    && (r.parent[s].Some? ==> var q := r.parent[s].value;
         r'.children == r.children[q := Without(r.children[q], s)][s := []])
    && r'.roots == (r.roots + set x | x in r.children[s]) - {s}
    && (r.parent[s].None? ==> r'.leaves == r.leaves - {s} && r'.collapsed == r.collapsed - {s})
    && (r.parent[s].Some? ==> var q := r.parent[s].value;
         && r'.leaves == (if Without(r.children[q], s) == [] then r.leaves + {q} else r.leaves) - {s}
         && r'.collapsed == (if |r.children[q]| == |t.Children(r.nodeOf[q])| then r.collapsed + {q} else r.collapsed) - {s})
  }

  lemma UpdatesRemove(t: DataTree, r: Links, s: ShapeId, r': Links)
    requires Keys(r) && s in r.nodeOf && LinkedUp(r, s) && Unlinked(t, r, s, r')
    ensures r' == RemoveLinks(t, r, s)
  {
    assert RemovedFrom(t, r, s, r');
    RemovedFromDetermines(t, r, s, r');
  }

  /** `remove()` keeps every invariant, stated for its field-by-field
      description. */
  lemma UnlinkedSound(t: DataTree, r: Links, s: ShapeId, r': Links)
    requires Valid(t, r) && s in r.nodeOf && LinkedUp(r, s) && Unlinked(t, r, s, r')
    ensures Valid(t, r')
  {
    UpdatesRemove(t, r, s, r');
    RemoveSound(t, r, s);
  }

  /** What a valid structure guarantees about s's links, stated on the
      fields. */
  lemma ValidUnlinkable(t: DataTree, r: Links, s: ShapeId)
    requires Valid(t, r) && s in r.nodeOf
    ensures LinkedUp(r, s)
    ensures r.parent[s].Some? ==> r.parent[s].value != s && r.parent[s].value in r.parent && s in r.children[r.parent[s].value]
    ensures forall c | c in r.children[s] :: c in r.parent && r.parent[c].Some?
  {
    ValidLinkedUp(t, r, s);
    forall c | c in r.children[s] ensures c in r.parent && r.parent[c].Some? {
      ChildPointsBack(t, r, s, c);
    }
  }
}
