/** Linking a child shape to its parent shape: the net effect of the
    `__setParent(p)` / `__addChild(c)` pair when neither half of the link
    exists yet, and the proof that it keeps the invariants. */
module LinkAttach {
  import opened Util
  import opened DataTrees
  import opened NodeLinks

  /** c gets p as its parent and is appended to p's children; c stops being
      a root, p stops being a leaf if it was one, and p stops being
      collapsed when it now shows all of its node's children. */
  function Attach(t: DataTree, r: Links, p: ShapeId, c: ShapeId): Links
    requires p in r.children && p in r.nodeOf
  {
    var full := |r.children[p]| + 1 == |t.Children(r.nodeOf[p])|;
    r.(parent := r.parent[c := Some(p)],
       children := r.children[p := r.children[p] + [c]],
       roots := r.roots - {c},
       leaves := if r.children[p] == [] then r.leaves - {p} else r.leaves,
       collapsed := if full then r.collapsed - {p} else r.collapsed)
  }

  lemma AttachDown(t: DataTree, r: Links, p: ShapeId, c: ShapeId)
    requires Keys(r) && DownLinked(t, r)
    requires p in r.rendered && c in r.rendered && r.parent[c].None?
    requires r.uidOf[c] == r.uidOf[p] && t.Parent(r.nodeOf[c]) == Some(r.nodeOf[p])
    ensures Keys(Attach(t, r, p, c)) && DownLinked(t, Attach(t, r, p, c))
  {
    var r' := Attach(t, r, p, c);
    forall x, i | x in r'.rendered && 0 <= i < |r'.children[x]|
      ensures && r'.children[x][i] in r'.rendered && r'.parent[r'.children[x][i]] == Some(x)
              && r'.uidOf[r'.children[x][i]] == r'.uidOf[x]
              && t.Parent(r'.nodeOf[r'.children[x][i]]) == Some(r'.nodeOf[x])
    {
      if x == p && i == |r.children[p]| {
        assert r'.children[x][i] == c;
      } else {
        assert r'.children[x][i] == r.children[x][i];
      }
    }
  }

  lemma AttachUp(t: DataTree, r: Links, p: ShapeId, c: ShapeId)
    requires Keys(r) && UpLinked(r)
    requires p in r.rendered && c in r.nodeOf
    ensures Keys(Attach(t, r, p, c)) && UpLinked(Attach(t, r, p, c))
  {
    var r' := Attach(t, r, p, c);
    forall x | x in r'.rendered && r'.parent[x].Some?
      ensures r'.parent[x].value in r'.rendered && x in r'.children[r'.parent[x].value]
    {
      if x != c {
        var y := r.parent[x].value;
        assert x in r.children[y];
        if y == p { assert r'.children[y] == r.children[y] + [c]; }
      }
    }
  }

  lemma AttachDetached(t: DataTree, r: Links, p: ShapeId, c: ShapeId)
    requires Keys(r) && Detached(r)
    requires p in r.rendered && c in r.rendered
    ensures Keys(Attach(t, r, p, c)) && Detached(Attach(t, r, p, c))
  {
  }

  lemma AttachNoDuplicates(t: DataTree, r: Links, p: ShapeId, c: ShapeId)
    requires Keys(r) && NoDuplicates(r)
    requires p in r.rendered && c in r.nodeOf && c !in r.children[p]
    ensures Keys(Attach(t, r, p, c)) && NoDuplicates(Attach(t, r, p, c))
  {
    DistinctAppend(r.children[p], c);
  }

  lemma AttachRoots(t: DataTree, r: Links, p: ShapeId, c: ShapeId)
    requires Keys(r) && RootsExact(r)
    requires p in r.rendered && c in r.rendered
    ensures Keys(Attach(t, r, p, c)) && RootsExact(Attach(t, r, p, c))
  {
    var r' := Attach(t, r, p, c);
    assert forall x :: x in r'.roots <==> x in r'.rendered && r'.parent[x].None?;
  }

  lemma AttachLeaves(t: DataTree, r: Links, p: ShapeId, c: ShapeId)
    requires Keys(r) && LeavesExact(r)
    requires p in r.rendered && c in r.nodeOf
    ensures Keys(Attach(t, r, p, c)) && LeavesExact(Attach(t, r, p, c))
  {
    var r' := Attach(t, r, p, c);
    assert forall x :: x in r'.leaves <==> x in r'.rendered && r'.children[x] == [];
  }

  lemma AttachCollapsed(t: DataTree, r: Links, p: ShapeId, c: ShapeId)
    requires Keys(r) && CollapsedExact(t, r)
    requires p in r.rendered && c in r.nodeOf
    requires |r.children[p]| < |t.Children(r.nodeOf[p])|
    ensures Keys(Attach(t, r, p, c)) && CollapsedExact(t, Attach(t, r, p, c))
  {
    var r' := Attach(t, r, p, c);
    assert forall x :: x in r'.collapsed <==> x in r'.rendered && |r'.children[x]| != |t.Children(r'.nodeOf[x])|;
  }

  lemma AttachComplete(t: DataTree, r: Links, p: ShapeId, c: ShapeId, pending: set<ShapeId>)
    requires Keys(r) && CompleteBut(t, r, pending)
    requires p in r.rendered && c in r.rendered && c in pending
    requires RenderedParent(t, r, c) == Some(p)
    ensures Keys(Attach(t, r, p, c)) && CompleteBut(t, Attach(t, r, p, c), pending - {c})
  {
    var r' := Attach(t, r, p, c);
    forall x | x in r'.rendered
      ensures if x in pending - {c} then r'.parent[x].None? else r'.parent[x] == RenderedParent(t, r', x)
    {
      assert RenderedParent(t, r', x) == RenderedParent(t, r, x);
    }
  }

  /** Linking a pending shape to the rendered shape of its data parent keeps
      the structure sound and resolves that shape; the link was missing on
      both sides beforehand. */
  lemma AttachSound(t: DataTree, r: Links, p: ShapeId, c: ShapeId, pending: set<ShapeId>)
    requires Sound(t, r) && CompleteBut(t, r, pending)
    requires c in r.rendered && c in pending && r.parent[c].None?
    requires RenderedParent(t, r, c) == Some(p)
    ensures p in r.rendered && p != c && c !in r.children[p]
    ensures Sound(t, Attach(t, r, p, c)) && CompleteBut(t, Attach(t, r, p, c), pending - {c})
  {
    var n, u := r.nodeOf[c], r.uidOf[c];
    var pn := t.Parent(n).value;
    assert r.slot[(pn, u)] == p;
    t.ParentFacts(n);
    var r' := Attach(t, r, p, c);
    AttachDown(t, r, p, c);
    AttachUp(t, r, p, c);
    AttachDetached(t, r, p, c);
    AttachNoDuplicates(t, r, p, c);
    SlotsFrame(t, r, r');
    ChildCountBound(t, r', p);
    AttachRoots(t, r, p, c);
    AttachLeaves(t, r, p, c);
    AttachCollapsed(t, r, p, c);
    AttachComplete(t, r, p, c, pending);
  }

  /** `__addChild(c)` on p for each c of cs in turn. */
  function AttachAll(t: DataTree, r: Links, p: ShapeId, cs: seq<ShapeId>): (r': Links)
    requires p in r.children && p in r.nodeOf
    ensures p in r'.children && r'.nodeOf == r.nodeOf
    decreases |cs|
  {
    if cs == [] then r
    else AttachAll(t, Attach(t, r, p, cs[0]), p, cs[1..])
  }

  /** Attaching cs leaves the nodes, contexts, slots and rendered shapes
      alone, and p's child list grows by cs. */
  lemma {:induction false} AttachAllChildren(t: DataTree, r: Links, p: ShapeId, cs: seq<ShapeId>)
    requires p in r.children && p in r.nodeOf
    ensures var r' := AttachAll(t, r, p, cs);
      && r'.nodeOf == r.nodeOf && r'.uidOf == r.uidOf && r'.slot == r.slot
      && r'.rendered == r.rendered && r'.nextId == r.nextId
      && r'.children == r.children[p := r.children[p] + cs]
    decreases |cs|
  {
    if cs == [] {
      assert r.children[p] + cs == r.children[p];
    } else {
      AttachAllChildren(t, Attach(t, r, p, cs[0]), p, cs[1..]);
      assert (r.children[p] + [cs[0]]) + cs[1..] == r.children[p] + cs;
    }
  }

  /** Attaching cs gives each of them p as parent, takes them out of the
      root registry and changes no other parent link. */
  lemma {:induction false} AttachAllParents(t: DataTree, r: Links, p: ShapeId, cs: seq<ShapeId>)
    requires p in r.children && p in r.nodeOf && (set c | c in cs) <= r.parent.Keys
    ensures var r' := AttachAll(t, r, p, cs);
      && r'.parent.Keys == r.parent.Keys
      && (forall x | x in r.parent :: r'.parent[x] == if x in cs then Some(p) else r.parent[x])
      && r'.roots == r.roots - set c | c in cs
    decreases |cs|
  {
    if cs != [] {
      assert forall x :: x in cs <==> x == cs[0] || x in cs[1..];
      AttachAllParents(t, Attach(t, r, p, cs[0]), p, cs[1..]);
    }
  }

  /** Attaching cs takes p out of the leaf registry when it had no children
      and out of the collapsed registry when the last child is the last
      one its node was missing. */
  lemma {:induction false} AttachAllMarks(t: DataTree, r: Links, p: ShapeId, cs: seq<ShapeId>)
    requires p in r.children && p in r.nodeOf && |r.children[p]| + |cs| <= |t.Children(r.nodeOf[p])|
    ensures var r' := AttachAll(t, r, p, cs);
      && r'.leaves == (if cs != [] && r.children[p] == [] then r.leaves - {p} else r.leaves)
      && r'.collapsed == (if cs != [] && |r.children[p]| + |cs| == |t.Children(r.nodeOf[p])| then r.collapsed - {p} else r.collapsed)
    decreases |cs|
  {
    if cs != [] {
      AttachAllMarks(t, Attach(t, r, p, cs[0]), p, cs[1..]);
    }
  }

  /** Attaching cs and then c is attaching cs + [c]. */
  lemma {:induction false} AttachAllSnoc(t: DataTree, r: Links, p: ShapeId, cs: seq<ShapeId>, c: ShapeId)
    requires p in r.children && p in r.nodeOf
    ensures var a := AttachAll(t, r, p, cs); p in a.children && p in a.nodeOf
    ensures AttachAll(t, r, p, cs + [c]) == Attach(t, AttachAll(t, r, p, cs), p, c)
    decreases |cs|
  {
    if cs == [] {
      assert AttachAll(t, r, p, [c]) == AttachAll(t, Attach(t, r, p, c), p, []);
    } else {
      assert (cs + [c])[0] == cs[0] && (cs + [c])[1..] == cs[1..] + [c];
      AttachAllSnoc(t, Attach(t, r, p, cs[0]), p, cs[1..], c);
    }
  }

  /** Attaching the distinct shapes cs one by one, each of which is not a
      child of p and has no parent beforehand, meets each of them still
      unattached. */
  lemma AttachAllNext(t: DataTree, r: Links, p: ShapeId, cs: seq<ShapeId>, i: nat)
    requires p in r.children && p in r.nodeOf && i < |cs| && Distinct(cs) && (set c | c in cs) <= r.parent.Keys
    requires cs[i] !in r.children[p] && r.parent[cs[i]].None?
    ensures var a := AttachAll(t, r, p, cs[..i]);
      && p in a.children && p in a.nodeOf
      && a.children[p] == r.children[p] + cs[..i]
      && a.parent.Keys == r.parent.Keys && cs[i] !in a.children[p] && a.parent[cs[i]].None?
      && AttachAll(t, r, p, cs[..i + 1]) == Attach(t, a, p, cs[i])
  {
    assert cs[..i + 1] == cs[..i] + [cs[i]];
    AttachAllSnoc(t, r, p, cs[..i], cs[i]);
    AttachAllChildren(t, r, p, cs[..i]);
    AttachAllParents(t, r, p, cs[..i]);
    assert cs[i] !in cs[..i];
  }

  /** Attaching c leaves every other shape of cs rendered, without a
      parent and with the same data parent's rendered shape. */
  lemma AttachKeeps(t: DataTree, r: Links, p: ShapeId, c: ShapeId, cs: seq<ShapeId>)
    requires Keys(r) && p in r.nodeOf && c !in cs
    requires forall x | x in cs :: x in r.rendered && r.parent[x].None? && RenderedParent(t, r, x) == Some(p)
    ensures var r' := Attach(t, r, p, c);
      forall x | x in cs :: (x in r'.rendered && r'.parent[x].None? && RenderedParent(t, r', x) == Some(p))
  {
  }

  /** The first attachment of AttachAllSound's sequence keeps the
      structure sound and resolves that shape. */
  lemma AttachHead(t: DataTree, r: Links, p: ShapeId, cs: seq<ShapeId>,
                   pending: set<ShapeId>, rest: set<ShapeId>)
    requires Sound(t, r) && CompleteBut(t, r, pending) && cs != []
    requires forall x :: x in pending <==> x in rest || x in cs
    requires forall c | c in cs :: c in r.rendered && r.parent[c].None? && RenderedParent(t, r, c) == Some(p)
    ensures p in r.children && p in r.nodeOf
    ensures Sound(t, Attach(t, r, p, cs[0])) && CompleteBut(t, Attach(t, r, p, cs[0]), pending - {cs[0]})
  {
    AttachSound(t, r, p, cs[0], pending);
  }

  /** ... and leaves the remaining shapes ready for the rest of it. */
  lemma AttachTail(t: DataTree, r: Links, p: ShapeId, cs: seq<ShapeId>,
                   pending: set<ShapeId>, rest: set<ShapeId>)
    requires Keys(r) && p in r.nodeOf && cs != []
    requires Distinct(cs) && forall x :: x in pending <==> x in rest || x in cs
    requires forall c | c in cs :: c !in rest && c in r.rendered && r.parent[c].None? && RenderedParent(t, r, c) == Some(p)
    ensures var r1 := Attach(t, r, p, cs[0]);
      && Distinct(cs[1..]) && (forall x :: x in pending - {cs[0]} <==> x in rest || x in cs[1..])
      && (forall c | c in cs[1..] :: c !in rest && c in r1.rendered && r1.parent[c].None? && RenderedParent(t, r1, c) == Some(p))
  {
    DistinctTail(cs);
    AttachKeeps(t, r, p, cs[0], cs[1..]);
  }

  /** Attaching, one after the other, distinct pending shapes whose data
      parent's rendered shape is p keeps the structure sound and resolves
      each of them: of the pending shapes, only `rest` are left. */
  lemma {:induction false} AttachAllSound(t: DataTree, r: Links, p: ShapeId, cs: seq<ShapeId>,
                                          pending: set<ShapeId>, rest: set<ShapeId>)
    requires Sound(t, r) && CompleteBut(t, r, pending) && p in r.nodeOf
    requires Distinct(cs) && forall x :: x in pending <==> x in rest || x in cs
    requires forall c | c in cs :: c !in rest && c in r.rendered && r.parent[c].None? && RenderedParent(t, r, c) == Some(p)
    ensures Sound(t, AttachAll(t, r, p, cs)) && CompleteBut(t, AttachAll(t, r, p, cs), rest)
    decreases |cs|
  {
    if cs == [] {
      assert pending == rest;
    } else {
      AttachHead(t, r, p, cs, pending, rest);
      AttachTail(t, r, p, cs, pending, rest);
      AttachAllSound(t, Attach(t, r, p, cs[0]), p, cs[1..], pending - {cs[0]}, rest);
    }
  }
}
