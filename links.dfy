/** The structural part of the node-shape state as a value: which node and
    context each shape mirrors, the data nodes' shape slots, the parent and
    child links, the rendered flags and the three context registries. The
    invariants of the synchronisation engine are stated here, together with
    the effect of each structural step and the proof that it keeps them. */
module NodeLinks {
  import opened Util
  import opened DataTrees

  type ShapeId = nat

  datatype Links = Links(
    nodeOf: map<ShapeId, Node>,
    uidOf: map<ShapeId, UID>,
    slot: map<(Node, UID), ShapeId>,
    parent: map<ShapeId, Option<ShapeId>>,
    children: map<ShapeId, seq<ShapeId>>,
    rendered: set<ShapeId>,
    roots: set<ShapeId>,
    leaves: set<ShapeId>,
    collapsed: set<ShapeId>,
    nextId: ShapeId)

  // --------------------------------------------------------------------
  // The invariants, one small predicate per concern.

  /** Every shape has all of its per-shape fields. */
  ghost predicate Keys(r: Links) {
    && r.uidOf.Keys == r.nodeOf.Keys && r.parent.Keys == r.nodeOf.Keys && r.children.Keys == r.nodeOf.Keys
    && r.rendered <= r.nodeOf.Keys
  }

  /** Every shape's node is in the tree and its id was handed out; every
      slot holds a shape of that node and context; a rendered shape is the
      one its node's slot holds, so one rendered shape per node and UID. */
  ghost predicate Slots(t: DataTree, r: Links)
    requires Keys(r)
  {
    && (forall s | s in r.nodeOf :: r.nodeOf[s] in t.nodes && s < r.nextId)
    && (forall k | k in r.slot :: r.slot[k] in r.nodeOf && r.nodeOf[r.slot[k]] == k.0 && r.uidOf[r.slot[k]] == k.1)
    && (forall s | s in r.rendered :: (r.nodeOf[s], r.uidOf[s]) in r.slot && r.slot[(r.nodeOf[s], r.uidOf[s])] == s)
  }

  ghost predicate Domain(t: DataTree, r: Links) {
    t.WellFormed() && Keys(r) && Slots(t, r)
  }

  /** A shape that is not rendered has no links. */
  ghost predicate Detached(r: Links)
    requires Keys(r)
  {
    forall s | s in r.nodeOf && s !in r.rendered :: r.parent[s] == None && r.children[s] == []
  }

  /** A rendered shape's parent is rendered and lists it. */
  ghost predicate UpLinked(r: Links)
    requires Keys(r)
  {
    forall s | s in r.rendered && r.parent[s].Some? ::
      r.parent[s].value in r.rendered && s in r.children[r.parent[s].value]
  }

  /** A rendered shape's children are rendered shapes of its context that
      point back to it and whose nodes are children of its node. */
  ghost predicate DownLinked(t: DataTree, r: Links)
    requires Keys(r)
  {
    forall p, i | p in r.rendered && 0 <= i < |r.children[p]| ::
      && r.children[p][i] in r.rendered && r.parent[r.children[p][i]] == Some(p)
      && r.uidOf[r.children[p][i]] == r.uidOf[p]
      && t.Parent(r.nodeOf[r.children[p][i]]) == Some(r.nodeOf[p])
  }

  /** No child is listed twice. */
  ghost predicate NoDuplicates(r: Links)
    requires Keys(r)
  {
    forall p | p in r.children :: Distinct(r.children[p])
  }

  ghost predicate Linked(t: DataTree, r: Links)
    requires Keys(r)
  {
    Detached(r) && UpLinked(r) && DownLinked(t, r) && NoDuplicates(r)
  }

  /** The root registry holds exactly the rendered shapes without a parent. */
  ghost predicate RootsExact(r: Links)
    requires Keys(r)
  {
    r.roots == set s | s in r.rendered && r.parent[s].None?
  }

  /** The leaf registry holds exactly the rendered shapes without children. */
  ghost predicate LeavesExact(r: Links)
    requires Keys(r)
  {
    r.leaves == set s | s in r.rendered && r.children[s] == []
  }

  /** The collapsed registry holds exactly the rendered shapes showing fewer
      children than their node has. */
  ghost predicate CollapsedExact(t: DataTree, r: Links)
    requires Keys(r)
  {
    r.collapsed == set s | s in r.rendered && |r.children[s]| != |t.Children(r.nodeOf[s])|
  }

  ghost predicate Registries(t: DataTree, r: Links)
    requires Keys(r)
  {
    RootsExact(r) && LeavesExact(r) && CollapsedExact(t, r)
  }

  ghost predicate Sound(t: DataTree, r: Links) {
    Domain(t, r) && Linked(t, r) && Registries(t, r)
  }

  /** Every rendered shape outside `pending` is linked to the rendered shape
      of its data parent when there is one, and is a root otherwise; the
      pending shapes are roots still waiting for their links. */
  ghost predicate CompleteBut(t: DataTree, r: Links, pending: set<ShapeId>)
    requires Keys(r)
  {
    forall c | c in r.rendered ::
      if c in pending then r.parent[c].None? else r.parent[c] == RenderedParent(t, r, c)
  }

  /** The invariant every public node-shape operation keeps. */
  ghost predicate Valid(t: DataTree, r: Links) {
    Sound(t, r) && CompleteBut(t, r, {})
  }

  /** No shapes at all. */
  function NoShapes(): Links {
    Links(map[], map[], map[], map[], map[], {}, {}, {}, {}, 0)
  }

  /** A scene with no shapes is valid over any well-formed tree. */
  lemma NoShapesValid(t: DataTree)
    requires t.WellFormed()
    ensures Valid(t, NoShapes())
  {
  }

  // --------------------------------------------------------------------
  // Queries through the data tree.

  /** The rendered shape for node n in context u, if any. */
  function RenderedShape(r: Links, n: Node, u: UID): Option<ShapeId> {
    if (n, u) in r.slot && r.slot[(n, u)] in r.rendered then Some(r.slot[(n, u)]) else None
  }

  /** `__getParentFromNode`: the rendered shape of c's data parent in c's
      context, if any. */
  function RenderedParent(t: DataTree, r: Links, c: ShapeId): Option<ShapeId>
    requires c in r.nodeOf && c in r.uidOf
  {
    match t.Parent(r.nodeOf[c])
    case None => None
    case Some(pn) => RenderedShape(r, pn, r.uidOf[c])
  }

  /** Rendered shapes of the nodes ms, in the order of ms. */
  function RenderedOf(r: Links, ms: seq<Node>, u: UID): seq<ShapeId> {
    if ms == [] then []
    else (match RenderedShape(r, ms[0], u) case Some(s) => [s] case None => []) + RenderedOf(r, ms[1..], u)
  }

  /** Nodes of ms without a rendered shape, in the order of ms. */
  function MissingOf(r: Links, ms: seq<Node>, u: UID): seq<Node> {
    if ms == [] then []
    else (if RenderedShape(r, ms[0], u).None? then [ms[0]] else []) + MissingOf(r, ms[1..], u)
  }

  /** `__getChildrenFromNode`: the rendered shapes of s's data children. */
  function Kin(t: DataTree, r: Links, s: ShapeId): seq<ShapeId>
    requires s in r.nodeOf && s in r.uidOf
  {
    RenderedOf(r, t.Children(r.nodeOf[s]), r.uidOf[s])
  }

  /** `__getMissingChildNodes`: s's data children without a rendered shape. */
  function Missing(t: DataTree, r: Links, s: ShapeId): seq<Node>
    requires s in r.nodeOf && s in r.uidOf
  {
    MissingOf(r, t.Children(r.nodeOf[s]), r.uidOf[s])
  }

  /** The two filters split ms: each node is either missing or contributes
      its rendered shape, never both, and the lengths add up. */
  lemma {:induction false} Partition(r: Links, ms: seq<Node>, u: UID)
    ensures |RenderedOf(r, ms, u)| + |MissingOf(r, ms, u)| == |ms|
    ensures forall m :: m in MissingOf(r, ms, u) <==> m in ms && RenderedShape(r, m, u).None?
    ensures forall x :: x in RenderedOf(r, ms, u) <==> exists m :: m in ms && RenderedShape(r, m, u) == Some(x)
  {
    if ms != [] {
      Partition(r, ms[1..], u);
      assert forall m :: m in ms <==> m == ms[0] || m in ms[1..];
    }
  }

  /** Distinct nodes have distinct rendered shapes. */
  lemma {:induction false} RenderedOfDistinct(r: Links, ms: seq<Node>, u: UID)
    requires Keys(r) && Distinct(ms)
    requires forall k | k in r.slot :: r.slot[k] in r.nodeOf && r.nodeOf[r.slot[k]] == k.0
    ensures Distinct(RenderedOf(r, ms, u))
  {
    if ms != [] {
      var tail := ms[1..];
      assert Distinct(tail) by {
        forall i, j | 0 <= i < j < |tail| ensures tail[i] != tail[j] {
          assert tail[i] == ms[i + 1] && tail[j] == ms[j + 1];
        }
      }
      RenderedOfDistinct(r, tail, u);
      Partition(r, tail, u);
      match RenderedShape(r, ms[0], u)
      case None =>
      case Some(s) =>
        assert s !in RenderedOf(r, tail, u);
        var w := RenderedOf(r, tail, u);
        assert RenderedOf(r, ms, u) == [s] + w;
        forall i, j | 0 <= i < j < |[s] + w| ensures ([s] + w)[i] != ([s] + w)[j] {
          if i == 0 { assert ([s] + w)[j] == w[j - 1]; }
        }
    }
  }

  /** A rendered shape never lists more children than its node has. */
  lemma ChildCountBound(t: DataTree, r: Links, p: ShapeId)
    requires t.WellFormed() && Keys(r) && Slots(t, r) && DownLinked(t, r) && NoDuplicates(r)
    requires p in r.rendered
    ensures |r.children[p]| <= |t.Children(r.nodeOf[p])|
  {
    var cs := r.children[p];
    var ns := seq(|cs|, i requires 0 <= i < |cs| && cs[i] in r.nodeOf => r.nodeOf[cs[i]]);
    forall i, j | 0 <= i < j < |ns| ensures ns[i] != ns[j] {
      assert r.slot[(r.nodeOf[cs[i]], r.uidOf[cs[i]])] == cs[i];
      assert r.slot[(r.nodeOf[cs[j]], r.uidOf[cs[j]])] == cs[j];
    }
    forall x | x in ns ensures x in t.Children(r.nodeOf[p]) {
      var i :| 0 <= i < |ns| && ns[i] == x;
      t.ParentFacts(x);
    }
    DistinctSubBound(ns, t.Children(r.nodeOf[p]));
  }

  /** The slot invariant only reads the node, context, slot and id fields
      and the rendered set, and survives un-rendering. */
  lemma SlotsFrame(t: DataTree, r: Links, r': Links)
    requires Keys(r) && Slots(t, r) && Keys(r')
    requires r'.nodeOf == r.nodeOf && r'.uidOf == r.uidOf && r'.slot == r.slot && r'.nextId == r.nextId
    requires r'.rendered <= r.rendered
    ensures Slots(t, r')
  {
  }

  /** A pending shape whose link is already the right one is resolved. */
  lemma Resolve(t: DataTree, r: Links, pending: set<ShapeId>, c: ShapeId)
    requires Keys(r) && CompleteBut(t, r, pending) && c in r.nodeOf
    requires r.parent[c] == RenderedParent(t, r, c)
    ensures CompleteBut(t, r, pending - {c})
  {
  }

  /** No rendered shape lists itself as a child. */
  lemma NotOwnChild(t: DataTree, r: Links, s: ShapeId)
    requires t.WellFormed() && Keys(r) && DownLinked(t, r) && s in r.rendered
    ensures s !in r.children[s]
  {
    forall i | 0 <= i < |r.children[s]| ensures r.children[s][i] != s {
      t.ParentFacts(r.nodeOf[r.children[s][i]]);
    }
  }

  /** The data-child queries read only the slots and the rendered set. */
  lemma {:induction false} RenderedOfFrame(r: Links, r': Links, ms: seq<Node>, u: UID)
    requires r'.slot == r.slot && r'.rendered == r.rendered
    ensures RenderedOf(r', ms, u) == RenderedOf(r, ms, u) && MissingOf(r', ms, u) == MissingOf(r, ms, u)
  {
    if ms != [] {
      RenderedOfFrame(r, r', ms[1..], u);
    }
  }
}
