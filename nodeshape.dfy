/** NodeShape2d: the synchronisation engine that keeps a sparse, lazily
    materialised mirror of the data tree. All node shapes of all
    visualisation contexts live in one `Scene`, addressed by integer ids;
    each shape records the data node it wraps and the UID of its context.
    The context registries (`roots`, `leaves`, `collapsed`) hold shapes of
    every context, and a context's own registry is the part of it whose
    shapes carry its UID. The data tree is a constant.

    The fields are updated step by step, as the source does; `Snap()`
    reads the structural fields as a `Links` value, and each operation is
    proved to leave `Snap()` equal to the effect described in the modules
    NodeLinks, LinkAttach, LinkRegister, LinkRemove and LinkBind. */
module NodeShapes {
  import opened Util
  import opened DataTrees
  import opened NodeStates
  import opened NodeLinks
  import opened LinkAttach
  import opened LinkRegister
  import opened LinkRemove
  import opened LinkBind
  import opened LinkAdd
  import opened LinkGrow
  import opened LinkPrune
  import opened Teardown
  import opened NodeQueries
  import opened Razing

  /** A call into the owning context's `selectShape` / `focusShape`. */
  datatype Notice = SelectShape(uid: UID, shape: Option<ShapeId>) | FocusShape(uid: UID, shape: Option<ShapeId>)

  /** The call a shape of context uid makes when its flag f (selected or
      focused) is to become `on`: it names itself, or null to clear. */
  function NoticeFor(f: Field, on: bool, uid: UID, p: ShapeId): Notice {
    var who := if on then Some(p) else None;
    if f == Selected then SelectShape(uid, who) else FocusShape(uid, who)
  }

  /** The notices the listed shapes send, in order; uid gives each shape's
      context. */
  function Notices(uid: map<ShapeId, UID>, order: seq<ShapeId>, f: Field, on: bool): seq<Notice>
    requires forall p | p in order :: p in uid
  {
    if order == [] then []
    else Notices(uid, order[..|order| - 1], f, on) + [NoticeFor(f, on, uid[order[|order| - 1]], order[|order| - 1])]
  }

  /** One more shape notifying adds its notice at the end. */
  lemma NoticesAppend(uid: map<ShapeId, UID>, order: seq<ShapeId>, more: seq<ShapeId>, f: Field, on: bool)
    requires (forall p | p in order :: p in uid) && |more| <= 1 && forall p | p in more :: p in uid
    ensures Notices(uid, order + more, f, on) ==
      Notices(uid, order, f, on) + (if more == [] then [] else [NoticeFor(f, on, uid[more[0]], more[0])])
  {
    if more != [] {
      assert (order + more)[..|order + more| - 1] == order;
    } else {
      assert order + more == order;
    }
  }

  /** A single shape notifying sends its one notice. */
  lemma NoticesOne(uid: map<ShapeId, UID>, p: ShapeId, f: Field, on: bool)
    requires p in uid
    ensures Notices(uid, [p], f, on) == [NoticeFor(f, on, uid[p], p)]
  {
    assert [p][..0] == [];
  }

  /** Forwarding from s has reached the peers in `done` (the others are in
      `rest`): the shapes that have notified are s and the reached peers
      whose flag f differs from `on`, each once, in `order`. */
  ghost predicate Reached(st: map<ShapeId, State>, uid: map<ShapeId, UID>, s: ShapeId, f: Field, on: bool,
                          peers: set<ShapeId>, rest: set<ShapeId>, done: set<ShapeId>, order: seq<ShapeId>)
  {
    && s in st && s !in peers && peers <= st.Keys && peers <= uid.Keys && rest + done == peers && rest !! done
    && Distinct(order) && (forall p | p in order :: p in uid)
    && (forall p :: p in order <==> p == s || (p in done && Get(st[p], f) != on))
  }

  /** Reaching one more peer p adds p to the shapes that notified exactly
      when its flag differs. */
  lemma ReachedStep(st: map<ShapeId, State>, uid: map<ShapeId, UID>, s: ShapeId, f: Field, on: bool, p: ShapeId,
                    peers: set<ShapeId>, rest: set<ShapeId>, done: set<ShapeId>, order: seq<ShapeId>, more: bool)
    requires Reached(st, uid, s, f, on, peers, rest, done, order) && p in rest && more == (Get(st[p], f) != on)
    ensures Reached(st, uid, s, f, on, peers, rest - {p}, done + {p}, if more then order + [p] else order)
  {
    if more {
      DistinctAppend(order, p);
    }
  }

  /** The peers whose flag f differs from `on`. */
  function Differing(st: map<ShapeId, State>, peers: set<ShapeId>, f: Field, on: bool): set<ShapeId> {
    set p | p in peers && p in st && Get(st[p], f) != on
  }

  /** Once every peer is reached, the shapes that notified are s and the
      peers whose flag differs, each once. */
  lemma ReachedAll(st: map<ShapeId, State>, uid: map<ShapeId, UID>, s: ShapeId, f: Field, on: bool,
                   peers: set<ShapeId>, order: seq<ShapeId>)
    requires Reached(st, uid, s, f, on, peers, {}, peers, order)
    ensures Distinct(order) && |order| == |{s} + Differing(st, peers, f, on)|
    ensures forall p :: p in order <==> p in {s} + Differing(st, peers, f, on)
  {
    DistinctCardOf(order, {s} + Differing(st, peers, f, on));
  }

  /** The shapes that notify when s's flag f is asked to become `on`, given
      the peers of s: see Scene.Targets. */
  function TargetsOf(st: map<ShapeId, State>, s: ShapeId, f: Field, on: bool, forwarded: bool,
                     peers: set<ShapeId>): set<ShapeId>
    requires s in st
  {
    if Get(st[s], f) == on then {}
    else {s} + (if forwarded then {} else Differing(st, peers, f, on))
  }

  /** Whichever way a call went, the shapes that notified are its targets,
      each once, and the log gained their notices in that order. */
  lemma Notified(st: map<ShapeId, State>, uid: map<ShapeId, UID>, s: ShapeId, f: Field, on: bool, forwarded: bool,
                 peers: set<ShapeId>, order: seq<ShapeId>, log0: seq<Notice>, log: seq<Notice>)
    requires s in st && s in uid
    requires Get(st[s], f) == on ==> order == [] && log == log0
    requires Get(st[s], f) != on && forwarded ==> order == [s] && log == log0 + [NoticeFor(f, on, uid[s], s)]
    requires Get(st[s], f) != on && !forwarded ==>
      Reached(st, uid, s, f, on, peers, {}, peers, order) && log == log0 + Notices(uid, order, f, on)
    ensures Distinct(order) && |order| == |TargetsOf(st, s, f, on, forwarded, peers)|
    ensures forall p :: p in order <==> p in TargetsOf(st, s, f, on, forwarded, peers)
    ensures (forall p | p in order :: p in uid) && log == log0 + Notices(uid, order, f, on)
  {
    if Get(st[s], f) != on && !forwarded {
      ReachedAll(st, uid, s, f, on, peers, order);
    } else {
      DistinctCardOf(order, TargetsOf(st, s, f, on, forwarded, peers));
      if order == [] {
        assert log0 + [] == log0;
      } else {
        NoticesOne(uid, s, f, on);
      }
    }
  }

  /** `__removeChild(s)` on s's parent sets the parent's `expanded` to false. */
  function Collapse(st: map<ShapeId, State>, parent: map<ShapeId, Option<ShapeId>>, s: ShapeId): map<ShapeId, State>
    requires s in parent
  {
    match parent[s]
    case Some(q) => Shut(st, q)
    case None => st
  }

  /** Removing a shape clears at most its parent's `expanded` flag. */
  lemma CollapseOnlyShut(st: map<ShapeId, State>, parent: map<ShapeId, Option<ShapeId>>, s: ShapeId)
    requires s in parent
    ensures OnlyShut(st, Collapse(st, parent, s))
  {
  }

  /** Every state is the old one or the old one with `expanded` set. */
  ghost predicate OnlyExpanded(st: map<ShapeId, State>, st': map<ShapeId, State>) {
    st'.Keys == st.Keys && forall x | x in st :: st'[x] == st[x] || st'[x] == st[x].(expanded := true)
  }

  /** `__changeState("expanded", true)` on the shape x, when `when` holds. */
  function Expand(st: map<ShapeId, State>, x: Option<ShapeId>, when: bool): map<ShapeId, State> {
    if when && x.Some? && x.value in st then st[x.value := st[x.value].(expanded := true)] else st
  }

  /** The states after `__init()` on s: when a different shape held s's
      slot, its removal marks its parent not expanded. */
  ghost function Evicted(r: Links, st: map<ShapeId, State>, s: ShapeId): map<ShapeId, State>
    requires s in r.nodeOf && s in r.uidOf
  {
    var key := (r.nodeOf[s], r.uidOf[s]);
    if key in r.slot && r.slot[key] != s && r.slot[key] in r.parent then Collapse(st, r.parent, r.slot[key]) else st
  }

  /** r' and st' are what `add()` on s leaves of the links r and the
      states st: nothing changes when s is rendered already; otherwise the
      links are LinkAdd.AddLinks and the states AddedState. */
  ghost predicate Added(t: DataTree, r: Links, st: map<ShapeId, State>, s: ShapeId, r': Links, st': map<ShapeId, State>)
    requires Keys(r) && s in r.nodeOf
  {
    && (s in r.rendered ==> r' == r && st' == st)
    && (s !in r.rendered ==> r' == AddLinks(t, r, s) && st' == AddedState(t, r, st, s))
  }

  /** The states after `add()` on a shape s that is not rendered: its parent
      shape is marked expanded when s was the last child it was missing,
      and s when its node's children are all rendered and there is one. */
  ghost function AddedState(t: DataTree, r: Links, st: map<ShapeId, State>, s: ShapeId): map<ShapeId, State>
    requires Keys(r) && s in r.nodeOf
  {
    var kin := Kin(t, Register(t, r, s), s);
    Expand(Expand(st, RenderedParent(t, r, s), ParentFilled(t, r, s)), Some(s), kin != [] && |kin| == |t.Children(r.nodeOf[s])|)
  }

  class Scene {
    const tree: DataTree
    var nodeOf: map<ShapeId, Node>               // this.node
    var uidOf: map<ShapeId, UID>                 // this.graphics.getUID()
    var slot: map<(Node, UID), ShapeId>          // node.getShape(UID) / node.addShape(UID, shape)
    var parent: map<ShapeId, Option<ShapeId>>    // this.parent
    var children: map<ShapeId, seq<ShapeId>>     // this.children
    var state: map<ShapeId, State>               // this.state
    var connected: map<ShapeId, bool>            // this.connectionHasBeenSetup
    var rendered: set<ShapeId>                   // this.isRendered
    var roots: set<ShapeId>                      // context root registry
    var leaves: set<ShapeId>                     // context leaf registry
    var collapsed: set<ShapeId>                  // context collapsed registry
    var log: seq<Notice>                         // calls made to selectShape / focusShape
    var nextId: ShapeId                          // next fresh shape id

    /** A scene over a well-formed data tree before any shape exists: it
        is valid, so every operation starts from the invariant. */
    constructor(tree: DataTree)
      requires tree.WellFormed()
      ensures Valid() && this.tree == tree && log == []
      ensures nodeOf == map[] && slot == map[] && rendered == {} && nextId == 0
      ensures roots == {} && leaves == {} && collapsed == {}
    {
      this.tree := tree;
      nodeOf, uidOf, slot, parent, children := map[], map[], map[], map[], map[];
      state, connected := map[], map[];
      rendered, roots, leaves, collapsed := {}, {}, {}, {};
      log, nextId := [], 0;
      new;
      NoShapesValid(tree);
    }

    /** The structural fields as a value. */
    function Snap(): Links
      reads this`nodeOf, this`uidOf, this`slot, this`parent, this`children, this`rendered
      reads this`roots, this`leaves, this`collapsed, this`nextId
    {
      Links(nodeOf, uidOf, slot, parent, children, rendered, roots, leaves, collapsed, nextId)
    }

    /** The links are valid (see NodeLinks.Valid) and every shape has a
        state and a connection flag. */
    ghost predicate Valid()
      reads this`nodeOf, this`uidOf, this`slot, this`parent, this`children, this`rendered
      reads this`roots, this`leaves, this`collapsed, this`nextId, this`state, this`connected
    {
      NodeLinks.Valid(tree, Snap()) && state.Keys == nodeOf.Keys && connected.Keys == nodeOf.Keys
    }

    /** How many halves of the link c -> p are still missing; it bounds the
        bounce between `__setParent` and `__addChild`. */
    function LinkMeasure(c: ShapeId, p: ShapeId): nat
      reads this
      requires c in parent && p in children
    {
      (if parent[c] == Some(p) then 0 else 1) + (if c in children[p] then 0 else 1)
    }

    // ------------------------------------------------------------------
    // Relation mutators. They work on the raw fields, as the source does;
    // the operations below prove that they keep the scene valid.

    /** `__setParent(parentShape)` */
    method SetParent(c: ShapeId, p: Option<ShapeId>)
      requires c in parent && c in children
      requires p.Some? ==> p.value in children && p.value in nodeOf && p.value in state
      modifies this`parent, this`children, this`roots, this`leaves, this`collapsed, this`state
      decreases if p.Some? then 2 * LinkMeasure(c, p.value) else 0
      ensures old(parent[c]) == p ==>
        parent == old(parent) && children == old(children) && roots == old(roots)
        && leaves == old(leaves) && collapsed == old(collapsed) && state == old(state)
      ensures old(parent[c]) != p && p.None? ==>
        parent == old(parent)[c := None] && roots == old(roots) + {c}
        && children == old(children) && leaves == old(leaves) && collapsed == old(collapsed) && state == old(state)
      ensures old(parent[c]) != p && p.Some? ==>
        var q := p.value;
        var had := c in old(children[q]);
        var full := |old(children[q])| + 1 == |tree.Children(old(nodeOf[q]))|;
        && parent == old(parent)[c := p]
        && roots == old(roots) - {c}
        && children == (if had then old(children) else old(children)[q := old(children[q]) + [c]])
        && leaves == (if !had && old(children[q]) == [] then old(leaves) - {q} else old(leaves))
        && collapsed == (if !had && full then old(collapsed) - {q} else old(collapsed))
        && state == (if !had && full then old(state)[q := old(state[q]).(expanded := true)] else old(state))
    {
      if parent[c] != p {
        parent := parent[c := p];
        if p.Some? {
          AddChild(p.value, c);
          roots := roots - {c};
        } else {
          roots := roots + {c};
        }
      }
    }

    /** `__addChild(childShape)` */
    method AddChild(p: ShapeId, c: ShapeId)
      requires c in parent && c in children
      requires p in children && p in nodeOf && p in state
      modifies this`parent, this`children, this`roots, this`leaves, this`collapsed, this`state
      decreases 2 * LinkMeasure(c, p) + 1
      ensures c in old(children[p]) ==>
        parent == old(parent) && children == old(children) && roots == old(roots)
        && leaves == old(leaves) && collapsed == old(collapsed) && state == old(state)
      ensures c !in old(children[p]) ==>
        var full := |old(children[p])| + 1 == |tree.Children(old(nodeOf[p]))|;
        && children == old(children)[p := old(children[p]) + [c]]
        && parent == old(parent)[c := Some(p)]
        && roots == (if old(parent[c]) == Some(p) then old(roots) else old(roots) - {c})
        && leaves == (if old(children[p]) == [] then old(leaves) - {p} else old(leaves))
        && collapsed == (if full then old(collapsed) - {p} else old(collapsed))
        && state == (if full then old(state)[p := old(state[p]).(expanded := true)] else old(state))
    {
      if c !in children[p] {
        children := children[p := children[p] + [c]];
        SetParent(c, Some(p));
        if |children[p]| == 1 {
          leaves := leaves - {p};
        }
        if |tree.Children(nodeOf[p])| == |children[p]| {
          collapsed := collapsed - {p};
          state := state[p := ChangeState(state[p], Expanded, true).0];
        }
      }
    }

    /** `__removeChild(childShape)`; the child's own parent field is left
        as it is, exactly as in the source. */
    method RemoveChild(p: ShapeId, c: ShapeId)
      requires p in children && p in nodeOf && p in state
      modifies this`children, this`leaves, this`collapsed, this`state
      ensures c !in old(children[p]) ==>
        children == old(children) && leaves == old(leaves) && collapsed == old(collapsed) && state == old(state)
      ensures c in old(children[p]) ==>
        && children == old(children)[p := Without(old(children[p]), c)]
        && collapsed == (if |tree.Children(nodeOf[p])| == |old(children[p])| then old(collapsed) + {p} else old(collapsed))
        && leaves == (if Without(old(children[p]), c) == [] then old(leaves) + {p} else old(leaves))
        && state == old(state)[p := old(state[p]).(expanded := false)]
    {
      if c in children[p] {
        if |tree.Children(nodeOf[p])| == |children[p]| {
          collapsed := collapsed + {p};
        }
        children := children[p := Without(children[p], c)];
        if children[p] == [] {
          leaves := leaves + {p};
        }
        state := state[p := ChangeState(state[p], Expanded, false).0];
      }
    }

    /** `__delete`: drop the shape from every registry, then the base
        class stops rendering it. */
    method Delete(s: ShapeId)
      modifies this`roots, this`leaves, this`collapsed, this`rendered
      ensures roots == old(roots) - {s} && leaves == old(leaves) - {s}
      ensures collapsed == old(collapsed) - {s} && rendered == old(rendered) - {s}
    {
      roots := roots - {s};
      collapsed := collapsed - {s};
      leaves := leaves - {s};
      rendered := rendered - {s};
    }

    // ------------------------------------------------------------------
    // Lifecycle

    /** The loop of `remove()` that calls `__setParent(null)` on each child
        in cs: they lose their parent and become roots. */
    method OrphanChildren(s: ShapeId, cs: seq<ShapeId>)
      requires forall c | c in cs :: c in parent && c in children && parent[c].Some?
      modifies this`parent, this`children, this`roots, this`leaves, this`collapsed, this`state
      ensures parent.Keys == old(parent).Keys
      ensures forall x | x in parent :: parent[x] == if x in cs then None else old(parent[x])
      ensures roots == old(roots) + set x | x in cs
      ensures children == old(children) && leaves == old(leaves) && collapsed == old(collapsed) && state == old(state)
    {
      var i := 0;
      while i < |cs|
        invariant 0 <= i <= |cs|
        invariant parent.Keys == old(parent).Keys
        invariant forall x | x in parent :: parent[x] == if x in cs[..i] then None else old(parent[x])
        invariant roots == old(roots) + set x | x in cs[..i]
        invariant children == old(children) && leaves == old(leaves) && collapsed == old(collapsed) && state == old(state)
      {
        SetParent(cs[i], None);
        assert cs[..i + 1] == cs[..i] + [cs[i]];
        i := i + 1;
      }
      assert cs[..i] == cs;
    }

    /** The part of `remove()` after the parent is told: every child and
        then the shape itself lose their parent and become roots, the
        shape's child list is emptied and `__delete()` unregisters it. */
    method ClearLinks(s: ShapeId)
      requires s in parent && s in children && parent.Keys <= children.Keys
      requires forall c | c in children[s] :: c in parent && parent[c].Some?
      modifies this`parent, this`children, this`roots, this`leaves, this`collapsed, this`state, this`rendered
      ensures rendered == old(rendered) - {s}
      ensures parent.Keys == old(parent).Keys
      ensures forall x | x in parent :: parent[x] == if x == s || x in old(children[s]) then None else old(parent[x])
      ensures children == old(children)[s := []]
      ensures roots == (old(roots) + set x | x in old(children[s])) - {s}
      ensures leaves == old(leaves) - {s} && collapsed == old(collapsed) - {s} && state == old(state)
    {
      var cs := children[s];
      OrphanChildren(s, cs);
      SetParent(s, None);
      children := children[s := []];
      Delete(s);
    }

    /** The body of `remove()` before the base class takes over: detach
        from the parent, orphan the children, clear the own links, then
        `__delete()`. Stated on the raw fields. */
    method Unlink(s: ShapeId)
      requires s in parent && s in children && parent.Keys <= state.Keys && parent.Keys <= children.Keys
      requires parent.Keys <= nodeOf.Keys
      requires parent[s].Some? ==> parent[s].value != s && parent[s].value in parent && s in children[parent[s].value]
      requires forall c | c in children[s] :: c in parent && parent[c].Some?
      modifies this`parent, this`children, this`roots, this`leaves, this`collapsed, this`state, this`rendered
      ensures rendered == old(rendered) - {s}
      ensures parent.Keys == old(parent).Keys
      ensures forall x | x in parent :: parent[x] == if x == s || x in old(children[s]) then None else old(parent[x])
      ensures old(parent[s]).None? ==> children == old(children)[s := []]
      ensures old(parent[s]).Some? ==> var q := old(parent[s]).value;
        children == old(children)[q := Without(old(children[q]), s)][s := []]
      ensures roots == (old(roots) + set x | x in old(children[s])) - {s}
      ensures old(parent[s]).None? ==> leaves == old(leaves) - {s} && collapsed == old(collapsed) - {s}
      ensures old(parent[s]).Some? ==> var q := old(parent[s]).value;
        && leaves == (if Without(old(children[q]), s) == [] then old(leaves) + {q} else old(leaves)) - {s}
        && collapsed == (if |old(children[q])| == |tree.Children(nodeOf[q])| then old(collapsed) + {q} else old(collapsed)) - {s}
      ensures state == Collapse(old(state), old(parent), s) && state.Keys == old(state).Keys
    {
      var p := parent[s];
      if p.Some? {
        RemoveChild(p.value, s);
      }
      ClearLinks(s);
    }
    /** `remove()`: detach from the parent (which becomes collapsed and not
        expanded again), make every child a root, clear the shape's own
        links and `__delete()` it. */
    method Remove(s: ShapeId)
      requires Valid() && s in nodeOf
      modifies this`parent, this`children, this`roots, this`leaves, this`collapsed, this`state, this`rendered
      ensures Valid()
      ensures LinkedUp(old(Snap()), s) && Unlinked(tree, old(Snap()), s, Snap())
      ensures state == Collapse(old(state), old(parent), s) && state.Keys == old(state).Keys
    {
      ghost var r0 := Snap();
      RemoveSteps(s);
      UnlinkedSound(tree, r0, s, Snap());
    }

    /** The steps of `remove()` on a valid scene, summed up as `Unlinked`. */
    method RemoveSteps(s: ShapeId)
      requires Valid() && s in nodeOf
      modifies this`parent, this`children, this`roots, this`leaves, this`collapsed, this`state, this`rendered
      ensures LinkedUp(old(Snap()), s) && Unlinked(tree, old(Snap()), s, Snap())
      ensures state == Collapse(old(state), old(parent), s) && state.Keys == old(state).Keys
    {
      ghost var r0 := Snap();
      ValidUnlinkable(tree, r0, s);
      UnlinkSummed(s);
    }

    /** `Unlink` summed up as `Unlinked`. */
    method UnlinkSummed(s: ShapeId)
      requires Keys(Snap()) && s in nodeOf && LinkedUp(Snap(), s) && parent.Keys <= state.Keys
      requires forall c | c in children[s] :: c in parent && parent[c].Some?
      modifies this`parent, this`children, this`roots, this`leaves, this`collapsed, this`state, this`rendered
      ensures Unlinked(tree, old(Snap()), s, Snap())
      ensures state == Collapse(old(state), old(parent), s) && state.Keys == old(state).Keys
    {
      Unlink(s);
    }


    /** The registration in `add()`: `super.add()` marks the shape rendered,
        then it enters the leaf, root and collapsed registries, each only
        when the structure says so (see LinkRegister). */
    method RegisterShape(s: ShapeId)
      requires s in parent && s in children && s in nodeOf
      modifies this`rendered, this`roots, this`leaves, this`collapsed
      ensures Snap() == Register(tree, old(Snap()), s)
    {
      rendered := rendered + {s};
      if children[s] == [] {
        leaves := leaves + {s};
      }
      if parent[s].None? {
        roots := roots + {s};
      }
      if |tree.Children(nodeOf[s])| != |children[s]| {
        collapsed := collapsed + {s};
      }
    }

    /** `var parent = this.__getParentFromNode(); if(parent) this.__setParent(parent);` */
    method LinkParent(s: ShapeId)
      requires Keys(Snap()) && s in nodeOf && state.Keys == nodeOf.Keys
      modifies this`parent, this`children, this`roots, this`leaves, this`collapsed, this`state
      ensures old(parent[s]) == RenderedParent(tree, old(Snap()), s) ==> Snap() == old(Snap()) && state == old(state)
      ensures Orphan(tree, old(Snap()), s) ==>
        && Snap() == AttachToParent(tree, old(Snap()), s)
        && state == Expand(old(state), RenderedParent(tree, old(Snap()), s), ParentFilled(tree, old(Snap()), s))
      ensures state.Keys == old(state).Keys
    {
      var p := RenderedParent(tree, Snap(), s);
      if p.Some? {
        SetParent(s, p);
      }
    }

    /** `__addChild(c)` on s, summed up on the links: nothing changes when
        c is a child already; a child without a parent is attached. */
    method AddKinChild(s: ShapeId, c: ShapeId)
      requires Keys(Snap()) && s in nodeOf && c in nodeOf && state.Keys == nodeOf.Keys
      modifies this`parent, this`children, this`roots, this`leaves, this`collapsed, this`state
      ensures c in old(children[s]) ==> Snap() == old(Snap()) && state == old(state)
      ensures c !in old(children[s]) && old(parent[c]).None? ==>
        && Snap() == Attach(tree, old(Snap()), s, c)
        && state == Expand(old(state), Some(s), |old(children[s])| + 1 == |tree.Children(nodeOf[s])|)
      ensures Keys(Snap()) && nodeOf == old(nodeOf) && state.Keys == old(state).Keys
    {
      AddChild(s, c);
    }

    /** The `__addChild` loop of `add()` over the shapes kin. When they are
        all children already it changes nothing; when none is, and none has
        a parent, it attaches them one by one. */
    method LinkKin(s: ShapeId, kin: seq<ShapeId>)
      requires Keys(Snap()) && s in nodeOf && state.Keys == nodeOf.Keys
      requires forall c | c in kin :: c in nodeOf
      modifies this`parent, this`children, this`roots, this`leaves, this`collapsed, this`state
      ensures (forall c | c in kin :: c in old(children[s])) ==> Snap() == old(Snap()) && state == old(state)
      ensures Appendable(tree, old(Snap()), s, kin) ==>
        && Snap() == AttachAll(tree, old(Snap()), s, kin)
        && state == Expand(old(state), Some(s), KinFilled(tree, old(Snap()), s, kin))
      ensures state.Keys == old(state).Keys
    {
      ghost var r0, st0 := Snap(), state;
      ghost var again := forall c | c in kin :: c in children[s];
      ghost var appending := Appendable(tree, r0, s, kin);
      ghost var n := |tree.Children(nodeOf[s])|;
      for i := 0 to |kin|
        invariant Keys(Snap()) && nodeOf == r0.nodeOf && state.Keys == nodeOf.Keys
        invariant again ==> Snap() == r0 && state == st0
        invariant appending ==> Snap() == AttachAll(tree, r0, s, kin[..i])
        invariant appending ==> state == Expand(st0, Some(s), i > 0 && |r0.children[s]| + i == n)
      {
        if appending {
          AttachAllNext(tree, r0, s, kin, i);
        }
        AddKinChild(s, kin[i]);
      }
      assert kin[..|kin|] == kin;
    }

    /** The link steps of `add()`: register, link to the parent shape,
        then link the rendered shapes of the data children. */
    method AddSteps(s: ShapeId)
      requires Keys(Snap()) && s in nodeOf && state.Keys == nodeOf.Keys
      requires s in rendered ==> Settled(tree, Snap(), s)
      requires s !in rendered ==> Ready(tree, Snap(), s)
      modifies this`parent, this`children, this`roots, this`leaves, this`collapsed, this`state, this`rendered
      ensures old(s in rendered) ==> Snap() == old(Snap()) && state == old(state)
      ensures old(s !in rendered) ==>
        Snap() == AddLinks(tree, old(Snap()), s) && state == AddedState(tree, old(Snap()), old(state), s)
      ensures state.Keys == old(state).Keys
    {
      ghost var r0, st0, was := Snap(), state, s in rendered;
      RegisterShape(s);
      ghost var r1 := Snap();
      LinkParent(s);
      ghost var r2 := Snap();
      var kin := Kin(tree, Snap(), s);
      if was {
        assert r2 == r0 && state == st0;
      } else {
        assert r2 == AttachToParent(tree, r1, s) && kin == Kin(tree, r1, s);
      }
      LinkKin(s, kin);
    }

    /** The end of `add()`: the hook `__setupConnection` answered
        hookResult, and a falsy answer records that the connection was set
        up. */
    method SetUpConnection(s: ShapeId, hookResult: bool)
      requires Valid() && s in nodeOf
      modifies this`connected
      ensures Valid()
      ensures connected == if hookResult then old(connected) else old(connected)[s := true]
    {
      if !hookResult {
        connected := connected[s := true];
      }
    }

    /** The link steps of `add()` on a valid scene: they keep the links
        valid. */
    method AddCore(s: ShapeId)
      requires NodeLinks.Valid(tree, Snap()) && state.Keys == nodeOf.Keys && Bound(Snap(), s)
      modifies this`parent, this`children, this`roots, this`leaves, this`collapsed, this`state, this`rendered
      ensures NodeLinks.Valid(tree, Snap()) && state.Keys == nodeOf.Keys && rendered == old(rendered) + {s}
      ensures Added(tree, old(Snap()), old(state), s, Snap(), state)
    {
      ghost var r0, was := Snap(), s in rendered;
      if was {
        RenderedSteps(tree, r0, s);
      } else {
        FreshReady(tree, r0, s);
      }
      AddSteps(s);
      if !was {
        AddSound(tree, r0, s, Snap());
        ValidFresh(tree, r0, s);
        AddEffect(tree, r0, s);
      }
    }

    /** The same, stated with the whole invariant. */
    method AddValid(s: ShapeId)
      requires Valid() && Bound(Snap(), s)
      modifies this`parent, this`children, this`roots, this`leaves, this`collapsed, this`state, this`rendered
      ensures Valid() && rendered == old(rendered) + {s}
      ensures Added(tree, old(Snap()), old(state), s, Snap(), state)
    {
      AddCore(s);
    }

    /** `add()` on a bound shape keeps the scene valid. On a shape that is
        not rendered it has the effect LinkAdd.AddLinks describes (see
        LinkAdd.AddEffect); on one that is rendered it changes nothing. */
    method Add(s: ShapeId, hookResult: bool)
      requires Valid() && Bound(Snap(), s)
      modifies this`parent, this`children, this`roots, this`leaves, this`collapsed, this`state, this`rendered, this`connected
      ensures Valid() && rendered == old(rendered) + {s}
      ensures Added(tree, old(Snap()), old(state), s, Snap(), state)
      ensures connected == if hookResult then old(connected) else old(connected)[s := true]
    {
      SetUpConnection(s, hookResult);
      AddValid(s);
    }
  

    // ------------------------------------------------------------------
    // Construction

    /** `remove()` on the shape holding a slot that another shape claims,
        summed up as LinkRemove.RemoveLinks. */
    method Evict(prev: ShapeId)
      requires Valid() && prev in nodeOf
      modifies this`parent, this`children, this`roots, this`leaves, this`collapsed, this`state, this`rendered
      ensures Valid() && Snap() == RemoveLinks(tree, old(Snap()), prev)
      ensures state == Collapse(old(state), old(parent), prev)
    {
      ghost var r0 := Snap();
      Remove(prev);
      UpdatesRemove(tree, r0, prev, Snap());
    }

    /** `node.addShape(UID, s)` */
    method BindSlot(s: ShapeId)
      requires s in nodeOf && s in uidOf
      modifies this`slot
      ensures slot == old(slot)[(nodeOf[s], uidOf[s]) := s]
    {
      slot := slot[(nodeOf[s], uidOf[s]) := s];
    }

    /** `__init()`: s becomes the shape its node holds for its context. If
        s holds the slot already nothing happens; a different shape holding
        it is removed first. */
    method Init(s: ShapeId)
      requires Valid() && s in nodeOf
      modifies this`slot, this`parent, this`children, this`roots, this`leaves, this`collapsed, this`state, this`rendered
      ensures Valid()
      ensures Snap() == InitLinks(tree, old(Snap()), s)
      ensures state == Evicted(old(Snap()), old(state), s)
    {
      var key := (nodeOf[s], uidOf[s]);
      if key in slot && slot[key] == s {
        Unevicted(tree, Snap(), state, s);
        return;
      }
      if key in slot {
        Replace(s);
      } else {
        Unevicted(tree, Snap(), state, s);
        Claim(s);
      }
    }

    /** `__init()` on a shape whose slot another shape holds. */
    method Replace(s: ShapeId)
      requires Valid() && s in nodeOf
      requires (nodeOf[s], uidOf[s]) in slot && slot[(nodeOf[s], uidOf[s])] != s
      modifies this`slot, this`parent, this`children, this`roots, this`leaves, this`collapsed, this`state, this`rendered
      ensures Valid()
      ensures Snap() == InitLinks(tree, old(Snap()), s)
      ensures state == Evicted(old(Snap()), old(state), s)
    {
      ghost var r0 := Snap();
      var prev := slot[(nodeOf[s], uidOf[s])];
      InitReplace(tree, r0, s, prev);
      Evict(prev);
      ghost var r1 := Snap();
      Rebind(s);
      assert InitLinks(tree, r0, s) == Bind(r1, s);
    }

    /** `__init()` on a shape whose slot is free. */
    method Claim(s: ShapeId)
      requires Valid() && s in nodeOf && (nodeOf[s], uidOf[s]) !in slot
      modifies this`slot
      ensures Valid() && Snap() == Bind(old(Snap()), s)
    {
      Rebind(s);
    }

    /** `node.addShape(UID, s)` for a shape that is not rendered, on a node
        that has no rendered shape for s's context. */
    method Rebind(s: ShapeId)
      requires Valid() && s in nodeOf && s !in rendered
      requires RenderedShape(Snap(), nodeOf[s], uidOf[s]).None?
      modifies this`slot
      ensures Valid() && Snap() == Bind(old(Snap()), s)
    {
      BindSound(tree, Snap(), s);
      BindSlot(s);
    }

    /** The part of construction that only sets fields: a fresh id with no
        links, its initial state and no connection set up. */
    method MakeShape(n: Node, u: UID) returns (s: ShapeId)
      requires state.Keys == nodeOf.Keys && connected.Keys == nodeOf.Keys
      modifies this`nodeOf, this`uidOf, this`parent, this`children, this`state, this`connected, this`nextId
      ensures s == old(nextId) && Snap() == LinkBind.Fresh(old(Snap()), n, u)
      ensures state == old(state)[s := Initial(|tree.Children(n)|)] && connected == old(connected)[s := false]
      ensures state.Keys == nodeOf.Keys && connected.Keys == nodeOf.Keys
    {
      s := nextId;
      ghost var before := nodeOf;
      AllocateLinks(n, u);
      connected := connected[s := false];
      state := state[s := Initial(|tree.Children(n)|)];
      KeysUpdate(old(state), before, s, Initial(|tree.Children(n)|), n);
      KeysUpdate(old(connected), before, s, false, n);
    }

    /** The link fields of a new shape: the next id, bound to n and u, with
        no parent and no children. */
    method AllocateLinks(n: Node, u: UID)
      modifies this`nodeOf, this`uidOf, this`parent, this`children, this`nextId
      ensures Snap() == LinkBind.Fresh(old(Snap()), n, u) && nodeOf == old(nodeOf)[old(nextId) := n]
    {
      var s := nextId;
      nodeOf, uidOf := nodeOf[s := n], uidOf[s := u];
      parent, children := parent[s := None], children[s := []];
      nextId := nextId + 1;
    }

    /** `new NodeShape2d(graphics, node)` for a node that holds no shape for
        context u, as `getShape` falls back on it: a shape with no parent
        and no children, not rendered, whose state shows it expanded
        exactly when the node has no children and whose connection was
        never set up; its `__init()` then binds it to the free slot. */
    method Create(n: Node, u: UID) returns (s: ShapeId)
      requires Valid() && n in tree.nodes && (n, u) !in slot
      modifies this`nodeOf, this`uidOf, this`slot, this`parent, this`children, this`state, this`connected, this`nextId
      ensures Valid() && s == old(nextId)
      ensures Snap() == Bind(LinkBind.Fresh(old(Snap()), n, u), s)
      ensures state == old(state)[s := Initial(|tree.Children(n)|)] && connected == old(connected)[s := false]
    {
      s := MakeValid(n, u);
      Claim(s);
    }

    /** The fields of a new shape, in a valid scene. */
    method MakeValid(n: Node, u: UID) returns (s: ShapeId)
      requires Valid() && n in tree.nodes
      modifies this`nodeOf, this`uidOf, this`parent, this`children, this`state, this`connected, this`nextId
      ensures Valid() && s == old(nextId) && s in nodeOf && s !in old(nodeOf) && nodeOf[s] == n && uidOf[s] == u
      ensures Snap() == LinkBind.Fresh(old(Snap()), n, u)
      ensures state == old(state)[s := Initial(|tree.Children(n)|)] && connected == old(connected)[s := false]
    {
      ghost var r0 := Snap();
      FreshSound(tree, r0, n, u);
      s := MakeShape(n, u);
    }

    // ------------------------------------------------------------------
    // Materialisation

    /** The shape node n holds for context u, constructed (and bound to
        n) when n holds none. */
    method ShapeFor(n: Node, u: UID) returns (x: ShapeId)
      requires Valid() && n in tree.nodes
      modifies this`nodeOf, this`uidOf, this`slot, this`parent, this`children, this`roots, this`leaves
      modifies this`collapsed, this`state, this`rendered, this`connected, this`nextId
      ensures Valid() && Bound(Snap(), x) && nodeOf[x] == n && uidOf[x] == u
      ensures Grows(old(Snap()), Snap()) && rendered == old(rendered) && slot == old(slot)[(n, u) := x]
      ensures (n, u) in old(slot) ==>
        x == old(slot)[(n, u)] && Snap() == old(Snap()) && state == old(state) && connected == old(connected)
      ensures (n, u) !in old(slot) ==> x !in old(nodeOf)
      ensures KeepsChildren(tree, old(Snap()), Snap(), tree.Rank(n))
    {
      var key := (n, u);
      if key in slot {
        x := slot[key];
      } else {
        ghost var r0 := Snap();
        ConstructedGrows(tree, r0, n, u);
        x := Create(n, u);
      }
    }

    /** `shape.add()` on the shape node n holds for context u, made first
        when there is none: afterwards n has a rendered shape, and no other
        node's rendered shape changes. */
    method Materialise(n: Node, u: UID) returns (x: ShapeId)
      requires Valid() && n in tree.nodes
      modifies this`nodeOf, this`uidOf, this`slot, this`parent, this`children, this`roots, this`leaves
      modifies this`collapsed, this`state, this`rendered, this`connected, this`nextId
      ensures Valid() && Grows(old(Snap()), Snap())
      ensures slot == old(slot)[(n, u) := x] && rendered == old(rendered) + {x}
      ensures nodeOf[x] == n && uidOf[x] == u
      ensures RenderedShape(old(Snap()), n, u).None? ==> x !in old(rendered)
      ensures RenderedShape(Snap(), n, u) == Some(x)
      ensures forall m | m != n :: RenderedShape(Snap(), m, u) == RenderedShape(old(Snap()), m, u)
      ensures KeepsChildren(tree, old(Snap()), Snap(), tree.Rank(n) - 1)
    {
      ghost var r0 := Snap();
      x := ShapeFor(n, u);
      ghost var r1, st1 := Snap(), state;
      Add(x, false);
      ghost var r2 := Snap();
      AddedGrows(tree, r1, st1, x, r2, state);
      AddKeepsChildren(tree, r1, st1, x, r2, state);
      GrowsTrans(r0, r1, r2);
      KeepsChildrenLower(tree, r0, r1, tree.Rank(n), tree.Rank(n) - 1);
      KeepsChildrenTrans(tree, r0, r1, r2, tree.Rank(n) - 1);
      RenderOne(tree, r0, r2, n, u, x);
    }

    /** `createChild()`: the first data child of s's node without a rendered
        shape in s's context gets one, which is returned; the remaining
        missing children are the rest of the list. Nothing happens when no
        data child is missing. */
    method CreateChild(s: ShapeId) returns (made: Option<ShapeId>)
      requires Valid() && s in nodeOf
      modifies this`nodeOf, this`uidOf, this`slot, this`parent, this`children, this`roots, this`leaves
      modifies this`collapsed, this`state, this`rendered, this`connected, this`nextId
      ensures Valid() && Grows(old(Snap()), Snap())
      ensures old(Missing(tree, Snap(), s)) == [] ==>
        made == None && Snap() == old(Snap()) && state == old(state) && connected == old(connected)
      ensures old(Missing(tree, Snap(), s)) != [] ==>
        && made.Some? && made.value !in old(rendered)
        && RenderedShape(Snap(), old(Missing(tree, Snap(), s))[0], uidOf[s]) == made
        && Missing(tree, Snap(), s) == old(Missing(tree, Snap(), s))[1..]
      ensures made.Some? && s in old(rendered) ==> made.value in children[s] && parent[made.value] == Some(s)
    {
      ghost var r0 := Snap();
      var missing := Missing(tree, Snap(), s);
      made := None;
      if missing != [] {
        var n, u := nodeOf[s], uidOf[s];
        Partition(r0, tree.Children(n), u);
        tree.ChildFacts(n, missing[0]);
        var x := Materialise(missing[0], u);
        made := Some(x);
        assert tree.WellFormed();
        MissingAfterOne(r0, Snap(), tree.Children(n), u, missing[0]);
        if s in r0.rendered {
          LinkedToParentShape(tree, Snap(), s, x);
        }
      }
    }

    /** `createChildren()`: every data child of s's node without a rendered
        shape in s's context gets one, in data order; the new shapes are
        returned. Afterwards no data child is missing, so a rendered s shows
        all of them and is not collapsed. */
    method CreateChildren(s: ShapeId) returns (made: seq<ShapeId>)
      requires Valid() && s in nodeOf
      modifies this`nodeOf, this`uidOf, this`slot, this`parent, this`children, this`roots, this`leaves
      modifies this`collapsed, this`state, this`rendered, this`connected, this`nextId
      ensures Valid() && Grows(old(Snap()), Snap())
      ensures Made(Snap(), old(Missing(tree, Snap(), s)), uidOf[s], made, old(rendered))
      ensures Extends(made, old(rendered), rendered)
      ensures Missing(tree, Snap(), s) == []
      ensures KeepsChildren(tree, old(Snap()), Snap(), tree.Rank(nodeOf[s]))
      ensures s in old(rendered) ==> |children[s]| == |tree.Children(nodeOf[s])| && s !in collapsed
    {
      ghost var r0 := Snap();
      made := CreateMissing(s);
      if s in r0.rendered {
        ShowsAll(tree, Snap(), s);
      }
    }

    /** `createAncestors(depth)`: below depth 1 nothing happens; otherwise
        the parent shape is created when missing, and the parent shape (new
        or old) creates its own ancestors one level less high. A shape that
        was rendered ends up under `depth` levels of rendered ancestors. */
    method CreateAncestors(s: ShapeId, depth: int) returns (made: seq<ShapeId>)
      requires Valid() && s in nodeOf
      modifies this`nodeOf, this`uidOf, this`slot, this`parent, this`children, this`roots, this`leaves
      modifies this`collapsed, this`state, this`rendered, this`connected, this`nextId
      decreases depth, 2
      ensures Valid() && Grows(old(Snap()), Snap())
      ensures s in old(rendered) ==> ShownAbove(tree, Snap(), nodeOf[s], uidOf[s], depth)
      ensures Extends(made, old(rendered), rendered)
      ensures s in old(rendered) ==> NewIn(made, old(rendered), rendered)
      ensures depth < 1 ==> made == [] && Snap() == old(Snap())
    {
      made := [];
      ExtendsNone(rendered);
      if depth >= 1 {
        made := CreateAbove(s, depth);
      }
    }

    /** The body of `createAncestors(depth)` for depth at least 1. */
    method CreateAbove(s: ShapeId, depth: int) returns (made: seq<ShapeId>)
      requires Valid() && s in nodeOf && depth >= 1
      modifies this`nodeOf, this`uidOf, this`slot, this`parent, this`children, this`roots, this`leaves
      modifies this`collapsed, this`state, this`rendered, this`connected, this`nextId
      decreases depth, 1
      ensures Valid() && Grows(old(Snap()), Snap())
      ensures s in old(rendered) ==> ShownAbove(tree, Snap(), nodeOf[s], uidOf[s], depth)
      ensures Extends(made, old(rendered), rendered)
      ensures s in old(rendered) ==> NewIn(made, old(rendered), rendered)
    {
      ghost var r0 := Snap();
      made := ParentFor(s);
      ghost var r1, shown := Snap(), rendered;
      var more := CreateFromParent(s, depth);
      GrowsTrans(r0, r1, Snap());
      ExtendsAppend(made, more, r0.rendered, shown, rendered);
      if s in r0.rendered {
        AppendNewIn(made, more, r0.rendered, shown, rendered);
      }
      made := made + more;
    }

    /** `createParent()` as `createAncestors` collects it: the shape it
        returns, if any, as a list. */
    method ParentFor(s: ShapeId) returns (made: seq<ShapeId>)
      requires Valid() && s in nodeOf
      modifies this`nodeOf, this`uidOf, this`slot, this`parent, this`children, this`roots, this`leaves
      modifies this`collapsed, this`state, this`rendered, this`connected, this`nextId
      ensures Valid() && Grows(old(Snap()), Snap())
      ensures s in old(rendered) ==> s in rendered && (tree.Parent(nodeOf[s]).Some? ==> parent[s].Some?)
      ensures Extends(made, old(rendered), rendered)
      ensures s in old(rendered) ==> NewIn(made, old(rendered), rendered)
    {
      ghost var before := rendered;
      var p := CreateParent(s);
      made := [];
      if p.Some? {
        ExtendsOne(p.value, before);
        made := [p.value];
      } else {
        ExtendsNone(before);
      }
    }

    /** The recursive step of `createAncestors(depth)`: the parent shape, if
        there is one, creates its own ancestors one level less high. */
    method CreateFromParent(s: ShapeId, depth: int) returns (made: seq<ShapeId>)
      requires Valid() && s in nodeOf && depth >= 1
      modifies this`nodeOf, this`uidOf, this`slot, this`parent, this`children, this`roots, this`leaves
      modifies this`collapsed, this`state, this`rendered, this`connected, this`nextId
      decreases depth, 0
      ensures Valid() && Grows(old(Snap()), Snap())
      ensures s in old(rendered) && (tree.Parent(old(nodeOf[s])).Some? ==> old(parent[s]).Some?) ==>
        ShownAbove(tree, Snap(), nodeOf[s], uidOf[s], depth)
      ensures AddsNew(made, old(rendered), rendered)
    {
      made := [];
      ExtendsNone(rendered);
      var q := parent[s];
      if q.Some? {
        ghost var r1 := Snap();
        assert s in r1.rendered && q.value in r1.rendered;
        ParentRank(tree, r1, s);
        made := CreateAncestors(q.value, depth - 1);
        if s in r1.rendered {
          ShownAboveFromParent(tree, r1, Snap(), s, depth);
        }
      }
    }

    /** `createDescendants(depth)`: below depth 1 nothing happens; otherwise
        the missing data children get shapes, and every child shape then
        creates its own descendants one level less deep. A shape that was
        rendered ends up showing its data subtree `depth` levels down. */
    method CreateDescendants(s: ShapeId, depth: int) returns (made: seq<ShapeId>)
      requires Valid() && s in nodeOf
      modifies this`nodeOf, this`uidOf, this`slot, this`parent, this`children, this`roots, this`leaves
      modifies this`collapsed, this`state, this`rendered, this`connected, this`nextId
      decreases depth, 1
      ensures Valid() && Grows(old(Snap()), Snap())
      ensures KeepsChildren(tree, old(Snap()), Snap(), tree.Rank(nodeOf[s]))
      ensures s in old(rendered) ==> ShownBelow(tree, Snap(), nodeOf[s], uidOf[s], depth)
      ensures AddsNew(made, old(rendered), rendered)
      ensures depth < 1 ==> made == [] && Snap() == old(Snap())
    {
      made := [];
      ExtendsNone(rendered);
      if depth >= 1 {
        ghost var r0 := Snap();
        ghost var ms, u := Missing(tree, r0, s), uidOf[s];
        made := CreateChildren(s);
        ghost var r1, shown := Snap(), rendered;
        MadeRendered(r1, r1, ms, u, made, r0.rendered);
        var more := CreateEach(s, depth);
        ghost var r2 := Snap();
        CreatingEnd(tree, r1, r2, s, r1.children[s], tree.Rank(r1.nodeOf[s]) + 1, depth, more);
        GrowsTrans(r0, r1, r2);
        AddsNewAppend(made, more, r0.rendered, shown, rendered);
        KeepsChildrenLower(tree, r1, r2, tree.Rank(nodeOf[s]) + 1, tree.Rank(nodeOf[s]));
        KeepsChildrenTrans(tree, r0, r1, r2, tree.Rank(nodeOf[s]));
        made := made + more;
      }
    }

    /** The loop of `createDescendants()` over the child shapes, read from
        the live child list (which the recursive calls do not change). */
    method CreateEach(s: ShapeId, depth: int) returns (made: seq<ShapeId>)
      requires Valid() && s in nodeOf && depth >= 1
      modifies this`nodeOf, this`uidOf, this`slot, this`parent, this`children, this`roots, this`leaves
      modifies this`collapsed, this`state, this`rendered, this`connected, this`nextId
      decreases depth, 0
      ensures Valid() && Creating(tree, old(Snap()), Snap(), s, old(children[s]), old(tree.Rank(nodeOf[s])) + 1, depth - 1,
                                  |old(children[s])|, made)
    {
      ghost var r0 := Snap();
      ghost var cs := children[s];
      ghost var k := tree.Rank(nodeOf[s]) + 1;
      made := [];
      CreatingStart(tree, r0, s, k, depth - 1);
      for i := 0 to |children[s]|
        invariant Valid() && Creating(tree, r0, Snap(), s, cs, k, depth - 1, i, made)
      {
        ghost var r1 := Snap();
        var c := children[s][i];
        ChildRank(tree, r1, s, c);
        var more := CreateDescendants(c, depth - 1);
        CreatingStep(tree, r0, r1, Snap(), s, cs, k, depth - 1, i, made, c, more);
        made := made + more;
      }
    }

    /** The loop of `createChildren()` over the missing data children. */
    method CreateMissing(s: ShapeId) returns (made: seq<ShapeId>)
      requires Valid() && s in nodeOf
      modifies this`nodeOf, this`uidOf, this`slot, this`parent, this`children, this`roots, this`leaves
      modifies this`collapsed, this`state, this`rendered, this`connected, this`nextId
      ensures Valid() && Grows(old(Snap()), Snap())
      ensures Made(Snap(), old(Missing(tree, Snap(), s)), uidOf[s], made, old(rendered))
      ensures Extends(made, old(rendered), rendered)
      ensures Missing(tree, Snap(), s) == []
      ensures KeepsChildren(tree, old(Snap()), Snap(), tree.Rank(nodeOf[s]))
    {
      ghost var r0 := Snap();
      ExtendsNone(r0.rendered);
      var n, u := nodeOf[s], uidOf[s];
      var missing := Missing(tree, Snap(), s);
      made := [];
      for i := 0 to |missing|
        invariant Valid() && Grows(r0, Snap()) && nodeOf[s] == n && uidOf[s] == u
        invariant Missing(tree, Snap(), s) == missing[i..]
        invariant Made(Snap(), missing[..i], u, made, r0.rendered)
        invariant Extends(made, r0.rendered, rendered)
        invariant KeepsChildren(tree, r0, Snap(), tree.Rank(n))
      {
        ghost var r1 := Snap();
        var x := CreateNext(s, missing[i..]);
        ghost var r2 := Snap();
        GrowsTrans(r0, r1, r2);
        KeepsChildrenTrans(tree, r0, r1, r2, tree.Rank(n));
        Slices(missing, i);
        MadeStep(r1, r2, missing[..i], u, made, r0.rendered, missing[i], x);
        ExtendsStep(made, x, r0.rendered, r1.rendered, rendered);
        made := made + [x];
      }
      assert missing[..|missing|] == missing;
    }

    /** One turn of the `createChildren()` loop: the first of the data
        children still missing gets a rendered shape. */
    method CreateNext(s: ShapeId, missing: seq<Node>) returns (x: ShapeId)
      requires Valid() && s in nodeOf && missing != [] && Missing(tree, Snap(), s) == missing
      modifies this`nodeOf, this`uidOf, this`slot, this`parent, this`children, this`roots, this`leaves
      modifies this`collapsed, this`state, this`rendered, this`connected, this`nextId
      ensures Valid() && Grows(old(Snap()), Snap())
      ensures nodeOf[s] == old(nodeOf[s]) && uidOf[s] == old(uidOf[s])
      ensures Missing(tree, Snap(), s) == missing[1..]
      ensures x !in old(rendered) && RenderedShape(Snap(), missing[0], uidOf[s]) == Some(x)
      ensures rendered == old(rendered) + {x}
      ensures KeepsChildren(tree, old(Snap()), Snap(), tree.Rank(nodeOf[s]))
    {
      ghost var r0 := Snap();
      var n, u := nodeOf[s], uidOf[s];
      Partition(r0, tree.Children(n), u);
      tree.ChildFacts(n, missing[0]);
      x := Materialise(missing[0], u);
      assert tree.WellFormed();
      assert tree.Rank(missing[0]) == tree.Rank(n) + 1;
      MissingAfterOne(r0, Snap(), tree.Children(n), u, missing[0]);
    }

    /** `createParent()`: when s has no parent shape and its node has a data
        parent, the shape that node holds for s's context (a new one if it
        holds none) is added and returned. */
    method CreateParent(s: ShapeId) returns (made: Option<ShapeId>)
      requires Valid() && s in nodeOf
      modifies this`nodeOf, this`uidOf, this`slot, this`parent, this`children, this`roots, this`leaves
      modifies this`collapsed, this`state, this`rendered, this`connected, this`nextId
      ensures Valid() && Grows(old(Snap()), Snap())
      ensures old(parent[s]).Some? || tree.Parent(old(nodeOf[s])).None? ==>
        made == None && Snap() == old(Snap()) && state == old(state) && connected == old(connected)
      ensures old(parent[s]).None? && tree.Parent(old(nodeOf[s])).Some? ==>
        made.Some? && RenderedShape(Snap(), tree.Parent(old(nodeOf[s])).value, old(uidOf[s])) == made
      ensures s in old(rendered) && tree.Parent(old(nodeOf[s])).Some? ==> parent[s].Some?
      ensures made.Some? ==> rendered == old(rendered) + {made.value}
      ensures s in old(rendered) && made.Some? ==> made.value !in old(rendered)
    {
      made := None;
      if parent[s].None? {
        var pn := tree.Parent(nodeOf[s]);
        if pn.Some? {
          tree.ParentFacts(nodeOf[s]);
          ghost var r0 := Snap();
          if s in r0.rendered {
            assert RenderedParent(tree, r0, s).None?;
          }
          var x := ShapeFor(pn.value, uidOf[s]);
          ghost var r1, st1 := Snap(), state;
          Add(x, false);
          AddedGrows(tree, r1, st1, x, Snap(), state);
          made := Some(x);
        }
      }
    }

    // ------------------------------------------------------------------
    // Teardown. Each operation works on the part of one context below one
    // node of the data tree and proves that nothing outside it changes.

    /** `child.remove()` on a child c of s, as `destroyChildren()` calls it:
        c is no longer rendered and has no children, s loses c and is not
        expanded, and nothing outside the part below s, nor in the part of
        any other child of s, changes. */
    method PruneChild(s: ShapeId, c: ShapeId)
      requires Valid() && s in nodeOf && c in children[s]
      modifies this`parent, this`children, this`roots, this`leaves, this`collapsed, this`state, this`rendered
      ensures Valid() && Shrinks(old(Snap()), Snap()) && rendered == old(rendered) - {c}
      ensures children == old(children)[s := Without(old(children[s]), c)][c := []]
      ensures Outside(tree, old(Snap()), Snap(), nodeOf[s], uidOf[s], s)
      ensures Siblings(tree, old(Snap()), Snap(), s, c)
      ensures state == Shut(old(state), s)
    {
      ghost var r0 := Snap();
      ChildRank(tree, r0, s, c);
      Remove(c);
      RemoveChildOutside(tree, r0, s, c, Snap());
    }

    /** `destroyChildren(keep)`: from the last child to the first, every
        child of s not in keep is removed. What is left of s's child list,
        the kept children in their order, is returned. The removed children
        are no longer rendered and have no children, the kept ones keep
        their parts, nothing outside the part below s changes, and s is
        not expanded once a child went. */
    method DestroyChildren(s: ShapeId, keep: seq<ShapeId>) returns (kept: seq<ShapeId>)
      requires Valid() && s in nodeOf
      modifies this`parent, this`children, this`roots, this`leaves, this`collapsed, this`state, this`rendered
      ensures Valid() && Destroyed(tree, old(Snap()), old(state), Snap(), state, s, keep) && kept == children[s]
    {
      ghost var r0, st0 := Snap(), state;
      ChildrenIn(tree, r0, s);
      PrunedStart(tree, r0, st0, s, keep);
      PruneBack(s, keep, |children[s]|, children[s], r0, st0);
      PrunedEnd(tree, r0, st0, Snap(), state, s, keep);
      kept := children[s];
    }

    /** The loop of `destroyChildren()`, from the last child of s to the
        first. */
    method PruneBack(s: ShapeId, keep: seq<ShapeId>, n: int, ghost cs: seq<ShapeId>, ghost r0: Links,
                     ghost st0: map<ShapeId, State>)
      requires 0 <= n && Pruning(r0, st0, s, cs, keep, n)
      modifies this`parent, this`children, this`roots, this`leaves, this`collapsed, this`state, this`rendered
      ensures Pruning(r0, st0, s, cs, keep, 0)
    {
      for i := n downto 0
        invariant Pruning(r0, st0, s, cs, keep, i)
      {
        PruneTurn(s, keep, i + 1, cs, r0, st0);
      }
    }

    /** The loop of `destroyChildren()` has done the children of s from
        index i on. */
    ghost predicate Pruning(r0: Links, st0: map<ShapeId, State>, s: ShapeId, cs: seq<ShapeId>, keep: seq<ShapeId>, i: int)
      reads this
    {
      PruneState(tree, r0, st0, Snap(), state, connected, s, cs, keep, i)
    }

    /** One turn of the loop of `destroyChildren()`: the child at index
        i - 1 is removed unless it is in keep. */
    method PruneTurn(s: ShapeId, keep: seq<ShapeId>, i: int, ghost cs: seq<ShapeId>, ghost r0: Links,
                     ghost st0: map<ShapeId, State>)
      requires 0 < i && Pruning(r0, st0, s, cs, keep, i)
      modifies this`parent, this`children, this`roots, this`leaves, this`collapsed, this`state, this`rendered
      ensures Pruning(r0, st0, s, cs, keep, i - 1)
    {
      ghost var r1, st1 := Snap(), state;
      assert children[s][i - 1] == cs[i - 1];
      var c := children[s][i - 1];
      if c !in keep {
        assert Distinct(children[s]);
        PruneChild(s, c);
        PrunedStep(tree, r0, st0, r1, st1, Snap(), state, s, cs, keep, i);
      } else {
        PrunedSkip(tree, r0, st0, r1, st1, s, cs, keep, i);
      }
    }

    /** `destroyDescendants(depth, keep)`: every child of s not in keep
        destroys its own descendants one level less deep; then, when depth
        is at most 0, s destroys its children not in keep. The shapes
        returned are those `destroyChildren` left, all of them in keep. */
    method DestroyDescendants(s: ShapeId, depth: int, keep: seq<ShapeId>) returns (ret: seq<ShapeId>)
      requires Valid() && s in nodeOf
      modifies this`parent, this`children, this`roots, this`leaves, this`collapsed, this`state, this`rendered
      decreases tree.height - tree.Rank(nodeOf[s]), 1
      ensures Valid() && Shrinks(old(Snap()), Snap())
      ensures Outside(tree, old(Snap()), Snap(), nodeOf[s], uidOf[s], s)
      ensures Pending(tree, old(Snap()), Snap(), old(children[s]), keep, |old(children[s])|)
      ensures children[s] == if depth <= 0 then Kept(old(children[s]), keep) else old(children[s])
      ensures depth <= 0 ==> Gone(Snap(), old(children[s]), keep, 0)
      ensures depth > 0 ==> Done(old(Snap()), Snap(), old(children[s]), keep, |old(children[s])|, depth - 1)
      ensures OnlyShut(old(state), state)
      ensures forall x | x in ret :: x in keep
      ensures Ranked(tree, old(Snap())) && rendered == old(rendered) - Razed(tree, old(Snap()), s, depth, keep)
      ensures ret == Survivors(tree, old(Snap()), s, depth, keep)
    {
      ghost var r0, st0 := Snap(), state;
      ret := DestroyEach(s, depth, keep);
      if depth <= 0 {
        ghost var r1, st1 := Snap(), state;
        var more := DestroyChildren(s, keep);
        ghost var r2 := Snap();
        PendingTrans(tree, r0, r1, r2, r1.children[s], keep, |r1.children[s]|);
        OutsideTrans(tree, r0, r1, r2, r0.nodeOf[s], r0.uidOf[s], s);
        ShutUnlessOnly(st1, s, Dropped(r1.children[s], keep));
        OnlyShutTrans(st0, st1, state);
        KeptSpec(r1.children[s], keep);
        RazedFinish(tree, r0, r1, r2, s, depth, keep, ret, more);
        ret := ret + more;
      } else {
        RazedFinish(tree, r0, Snap(), Snap(), s, depth, keep, ret, []);
      }
    }

    /** The loop of `destroyDescendants()` over s's children, read from the
        live child list (which the recursive calls do not change): each
        child not in keep destroys its descendants depth - 1 levels down. */
    method DestroyEach(s: ShapeId, depth: int, keep: seq<ShapeId>) returns (ret: seq<ShapeId>)
      requires Valid() && s in nodeOf
      modifies this`parent, this`children, this`roots, this`leaves, this`collapsed, this`state, this`rendered
      decreases tree.height - tree.Rank(nodeOf[s]), 0
      ensures Valid() && Shrinks(old(Snap()), Snap())
      ensures Outside(tree, old(Snap()), Snap(), nodeOf[s], uidOf[s], s) && children[s] == old(children[s])
      ensures Pending(tree, old(Snap()), Snap(), old(children[s]), keep, |old(children[s])|)
      ensures Done(old(Snap()), Snap(), old(children[s]), keep, |old(children[s])|, depth - 1)
      ensures OnlyShut(old(state), state)
      ensures forall x | x in ret :: x in keep
      ensures Ranked(tree, old(Snap()))
      ensures rendered == old(rendered) - RazedOf(tree, old(Snap()), s, old(children[s]), depth - 1, keep)
      ensures ret == SurvivorsOf(tree, old(Snap()), s, old(children[s]), depth - 1, keep)
    {
      ghost var r0, st0 := Snap(), state;
      ghost var cs := children[s];
      SweepingStart(tree, r0, st0, s, keep, depth - 1);
      ret := [];
      for i := 0 to |children[s]|
        invariant Valid() && Sweeping(tree, r0, st0, Snap(), state, s, cs, keep, depth - 1, i, ret)
      {
        ghost var r1, st1 := Snap(), state;
        var c := children[s][i];
        if c !in keep {
          ChildRank(tree, r1, s, c);
          var more := DestroyDescendants(c, depth - 1, keep);
          SweepingCall(tree, r0, st0, r1, st1, Snap(), state, s, cs, keep, depth - 1, i, ret, more);
          ret := ret + more;
        } else {
          SweepingSkip(tree, r0, st0, r1, st1, s, cs, keep, depth - 1, i, ret);
        }
      }
      SweepingEnd(tree, r0, st0, Snap(), state, s, cs, keep, depth - 1, ret);
    }

    /** `destroyParent()`: s's parent shape, if there is one, is removed
        and returned. */
    method DestroyParent(s: ShapeId) returns (p: Option<ShapeId>)
      requires Valid() && s in nodeOf
      modifies this`parent, this`children, this`roots, this`leaves, this`collapsed, this`state, this`rendered
      ensures Valid() && p == old(parent[s]) && OnlyShut(old(state), state)
      ensures p.None? ==> Snap() == old(Snap()) && state == old(state)
      ensures p.Some? ==> p.value in old(nodeOf) && LinkedUp(old(Snap()), p.value)
      ensures p.Some? ==> Unlinked(tree, old(Snap()), p.value, Snap())
      ensures p.Some? ==> Intact(tree, old(Snap()), Snap(), nodeOf[s], uidOf[s]) && parent[s] == None
    {
      p := parent[s];
      if p.Some? {
        ghost var r0, st0 := Snap(), state;
        ParentRank(tree, r0, s);
        Remove(p.value);
        RemoveParentIntact(tree, r0, s, p.value, Snap());
        CollapseOnlyShut(st0, r0.parent, p.value);
      }
    }

    /** `destroyAncestors(depth, fully)`: when s has a parent q, q first
        destroys all its descendants but s (when fully), then q's own
        ancestors one level less deep, and q itself is removed when depth
        is at most 0. The part of the tree at and below s stays as it was;
        the shapes returned are rendered ones, the removed parent last. */
    method DestroyAncestors(s: ShapeId, depth: int, fully: bool) returns (ret: seq<ShapeId>)
      requires Valid() && s in nodeOf
      modifies this`parent, this`children, this`roots, this`leaves, this`collapsed, this`state, this`rendered
      decreases tree.Rank(nodeOf[s]), 1
      ensures Valid() && AncestorsGone(tree, old(Snap()), old(state), Snap(), state, s, depth, fully, ret)
    {
      ret := [];
      var p := parent[s];
      if p.Some? {
        ghost var r0, st0 := Snap(), state;
        ParentRank(tree, r0, s);
        ret := Ascend(s, p.value, depth, fully);
        ghost var r1, st1 := Snap(), state;
        if depth <= 0 {
          var gone := DestroyParent(s);
          GoneParent(tree, r0, st0, r1, st1, Snap(), state, s, p.value, depth, fully, ret);
          ret := ret + [gone.value];
        } else {
          GoneKept(tree, r0, st0, r1, st1, s, p.value, depth, fully, ret);
        }
      } else {
        GoneNone(tree, Snap(), state, s, depth, fully);
      }
    }

    /** The part of `destroyAncestors()` before the parent q's removal. */
    method Ascend(s: ShapeId, q: ShapeId, depth: int, fully: bool) returns (ret: seq<ShapeId>)
      requires Valid() && s in nodeOf && parent[s] == Some(q)
      modifies this`parent, this`children, this`roots, this`leaves, this`collapsed, this`state, this`rendered
      decreases tree.Rank(nodeOf[s]), 0
      ensures AscendedAt(old(Snap()), old(state), s, q, depth, fully, ret)
    {
      ghost var r0, st0 := Snap(), state;
      ParentRank(tree, r0, s);
      ret := ClearIf(s, q, fully);
      ghost var r1, st1 := Snap(), state;
      ParentRank(tree, r1, s);
      var more := DestroyAncestors(q, depth - 1, fully);
      ClearedAscent(tree, r0, r1, s, q, fully, depth - 1);
      IntactBelow(tree, r1, Snap(), s, q);
      IntactTrans(tree, r0, r1, Snap(), r0.nodeOf[s], r0.uidOf[s]);
      OnlyShutTrans(st0, st1, state);
      WithinMore(more, r1.rendered, r0.rendered);
      AppendWithin(ret, more, r0.rendered, r0.rendered);
      ret := ret + more;
    }

    /** What the part of `destroyAncestors()` on s before the removal of
        its parent q leaves, from links r0 and states st0: the part at and
        below s is intact and s is still q's child, its only one when
        fully; q is still rendered; when fully, every shape q's
        `destroyDescendants(0, [s])` removed stays removed; the list
        returned is s when fully, then q's own list. */
    ghost predicate AscendedAt(r0: Links, st0: map<ShapeId, State>, s: ShapeId, q: ShapeId, depth: int, fully: bool,
                               ret: seq<ShapeId>)
      reads this
    {
      && Valid() && Keys(r0) && s in r0.nodeOf && Shrinks(r0, Snap())
      && Intact(tree, r0, Snap(), r0.nodeOf[s], r0.uidOf[s])
      && parent[s] == Some(q) && q in rendered && q in r0.children
      && children[q] == (if fully then [s] else r0.children[q])
      && OnlyShut(st0, state) && Within(ret, r0.rendered)
      && Ranked(tree, r0) && q in r0.nodeOf
      && ret == (if fully then [s] else []) + Ascent(tree, r0, q, depth - 1, fully)
      && (fully ==> Razed(tree, r0, q, 0, [s]) !! rendered)
    }

    ghost predicate ClearedAt(r0: Links, st0: map<ShapeId, State>, s: ShapeId, q: ShapeId, fully: bool, ret: seq<ShapeId>)
      reads this
    {
      && Valid() && Keys(r0) && s in r0.nodeOf && Cleared(tree, r0, Snap(), s, q, fully) && OnlyShut(st0, state)
      && Within(ret, r0.rendered) && ret == if fully then [s] else []
    }

    /** The `fully` step of `destroyAncestors()`, when fully holds. */
    method ClearIf(s: ShapeId, q: ShapeId, fully: bool) returns (ret: seq<ShapeId>)
      requires Valid() && s in nodeOf && parent[s] == Some(q) && q in rendered
      modifies this`parent, this`children, this`roots, this`leaves, this`collapsed, this`state, this`rendered
      ensures ClearedAt(old(Snap()), old(state), s, q, fully, ret)
    {
      ghost var r0 := Snap();
      if fully {
        ret := ClearSiblings(s, q);
      } else {
        ret := [];
        ClearedNot(tree, r0, s, q);
      }
    }

    /** The `fully` step of `destroyAncestors()`: s's parent q destroys all
        its descendants except s, which stays its only child. */
    method ClearSiblings(s: ShapeId, q: ShapeId) returns (ret: seq<ShapeId>)
      requires Valid() && s in nodeOf && parent[s] == Some(q)
      modifies this`parent, this`children, this`roots, this`leaves, this`collapsed, this`state, this`rendered
      ensures ClearedAt(old(Snap()), old(state), s, q, true, ret) && s in old(rendered)
    {
      ghost var r0 := Snap();
      ParentRank(tree, r0, s);
      ParentLists(tree, r0, s);
      ChildrenIn(tree, r0, q);
      ret := DestroyDescendants(q, 0, [s]);
      SiblingsSurvivors(tree, r0, q, s);
      SiblingsCleared(tree, r0, Snap(), s, q);
      ChildRank(tree, Snap(), q, s);
      ClearedFully(tree, r0, Snap(), s, q);
      OneWithin(s, r0.rendered);
    }

    // ------------------------------------------------------------------
    // Selection and focus, forwarded once to the other contexts.

    /** The shapes of s's data node in the other contexts: the ones the
        node's `forwardToShapes` reaches from s. */
    function Peers(s: ShapeId): set<ShapeId>
      reads this`nodeOf, this`slot
      requires s in nodeOf
    {
      set k | k in slot && k.0 == nodeOf[s] && slot[k] != s :: slot[k]
    }

    /** What notifying needs of the scene: every shape has a context and a
        state, and every slot holds a known shape. */
    ghost predicate Forwardable()
      reads this`nodeOf, this`uidOf, this`slot, this`state
    {
      && (forall x | x in nodeOf :: x in uidOf && x in state)
      && forall k | k in slot :: slot[k] in nodeOf
    }

    /** A valid scene can notify. */
    lemma ValidForwardable()
      requires Valid()
      ensures Forwardable()
    {
    }

    /** The shapes that notify their context when s's flag f is asked to
        become `on`: none when s's flag has that value already; otherwise
        s, and, unless the call was itself forwarded, each peer whose flag
        differs. */
    ghost function Targets(s: ShapeId, f: Field, on: bool, forwarded: bool): set<ShapeId>
      reads this`nodeOf, this`uidOf, this`slot, this`state
      requires Forwardable() && s in nodeOf
    {
      TargetsOf(state, s, f, on, forwarded, Peers(s))
    }

    /** The part of `select(true)` (and of the other three) that every
        call does: notify the own context when the flag differs. */
    method NotifyOwn(p: ShapeId, f: Field, on: bool) returns (sent: bool)
      requires p in state && p in uidOf
      modifies this`log
      ensures sent <==> Get(state[p], f) != on
      ensures log == if sent then old(log) + [NoticeFor(f, on, uidOf[p], p)] else old(log)
    {
      sent := Get(state[p], f) != on;
      if sent {
        log := log + [NoticeFor(f, on, uidOf[p], p)];
      }
    }

    /** `select`, `deselect`, `focus` and `defocus` (f is selected or
        focused, `on` the value asked for). The flag itself is set by the
        context in answer to the notice, which is not part of this model;
        what the shapes do is send each notice once: `order` lists the
        shapes that notified, each once, and they are exactly Targets. A
        forwarded call on a peer is NotifyOwn, as it forwards no further. */
    method Notify(s: ShapeId, f: Field, on: bool, forwarded: bool) returns (ghost order: seq<ShapeId>)
      requires Forwardable() && s in nodeOf && (f == Selected || f == Focused)
      modifies this`log
      ensures Distinct(order) && |order| == |old(Targets(s, f, on, forwarded))|
      ensures forall p :: p in order <==> p in old(Targets(s, f, on, forwarded))
      ensures (forall p | p in order :: p in uidOf) && log == old(log) + Notices(uidOf, order, f, on)
    {
      var peers := Peers(s);
      PeersKnown(s);
      ghost var st, uid := state, uidOf;
      order := [];
      var sent := NotifyOwn(s, f, on);
      if sent {
        order := [s];
        if !forwarded {
          NoticesOne(uidOf, s, f, on);
          order := ForwardPeers(s, f, on, peers, order, old(log));
        }
      }
      Notified(st, uid, s, f, on, forwarded, peers, order, old(log), log);
    }

    /** The peers of a shape are known shapes other than itself. */
    lemma PeersKnown(s: ShapeId)
      requires Forwardable() && s in nodeOf
      ensures s !in Peers(s) && Peers(s) <= state.Keys && Peers(s) <= uidOf.Keys
    {
    }

    /** The forwarding of `select(false)` and the others: each peer of s
        gets the forwarded call once. */
    method ForwardPeers(s: ShapeId, f: Field, on: bool, peers: set<ShapeId>, ghost order0: seq<ShapeId>,
                        ghost log0: seq<Notice>) returns (ghost order: seq<ShapeId>)
      requires Reached(state, uidOf, s, f, on, peers, peers, {}, order0) && log == log0 + Notices(uidOf, order0, f, on)
      modifies this`log
      ensures Reached(state, uidOf, s, f, on, peers, {}, peers, order) && log == log0 + Notices(uidOf, order, f, on)
    {
      order := order0;
      var rest := peers;
      ghost var done: set<ShapeId> := {};
      while rest != {}
        invariant Reached(state, uidOf, s, f, on, peers, rest, done, order) && log == log0 + Notices(uidOf, order, f, on)
        decreases rest
      {
        var p :| p in rest;
        order := ForwardOne(s, f, on, p, peers, rest, done, order, log0);
        rest, done := rest - {p}, done + {p};
      }
    }

    /** One forwarded call, on the peer p. */
    method ForwardOne(s: ShapeId, f: Field, on: bool, p: ShapeId, ghost peers: set<ShapeId>, ghost rest: set<ShapeId>,
                      ghost done: set<ShapeId>, ghost order0: seq<ShapeId>, ghost log0: seq<Notice>)
      returns (ghost order: seq<ShapeId>)
      requires Reached(state, uidOf, s, f, on, peers, rest, done, order0) && p in rest
      requires log == log0 + Notices(uidOf, order0, f, on)
      modifies this`log
      ensures Reached(state, uidOf, s, f, on, peers, rest - {p}, done + {p}, order)
      ensures log == log0 + Notices(uidOf, order, f, on)
    {
      order := order0;
      ReachedStep(state, uidOf, s, f, on, p, peers, rest, done, order, Get(state[p], f) != on);
      ghost var before := Notices(uidOf, order, f, on);
      var more := NotifyOwn(p, f, on);
      if more {
        NoticesAppend(uidOf, order, [p], f, on);
        assert log == log0 + (before + [NoticeFor(f, on, uidOf[p], p)]);
        order := order + [p];
      }
    }

    /** `select(forwarded)` */
    method Select(s: ShapeId, forwarded: bool) returns (ghost order: seq<ShapeId>)
      requires Valid() && s in nodeOf
      modifies this`log
      ensures Valid() && Distinct(order) && |order| == |Targets(s, Selected, true, forwarded)|
      ensures forall p :: p in order <==> p in Targets(s, Selected, true, forwarded)
      ensures (forall p | p in order :: p in uidOf) && log == old(log) + Notices(uidOf, order, Selected, true)
    {
      ValidForwardable();
      order := Notify(s, Selected, true, forwarded);
    }

    /** `deselect(forwarded)` */
    method Deselect(s: ShapeId, forwarded: bool) returns (ghost order: seq<ShapeId>)
      requires Valid() && s in nodeOf
      modifies this`log
      ensures Valid() && Distinct(order) && |order| == |Targets(s, Selected, false, forwarded)|
      ensures forall p :: p in order <==> p in Targets(s, Selected, false, forwarded)
      ensures (forall p | p in order :: p in uidOf) && log == old(log) + Notices(uidOf, order, Selected, false)
    {
      ValidForwardable();
      order := Notify(s, Selected, false, forwarded);
    }

    /** `focus(forwarded)` */
    method Focus(s: ShapeId, forwarded: bool) returns (ghost order: seq<ShapeId>)
      requires Valid() && s in nodeOf
      modifies this`log
      ensures Valid() && Distinct(order) && |order| == |Targets(s, Focused, true, forwarded)|
      ensures forall p :: p in order <==> p in Targets(s, Focused, true, forwarded)
      ensures (forall p | p in order :: p in uidOf) && log == old(log) + Notices(uidOf, order, Focused, true)
    {
      ValidForwardable();
      order := Notify(s, Focused, true, forwarded);
    }

    /** `defocus(forwarded)` */
    method Defocus(s: ShapeId, forwarded: bool) returns (ghost order: seq<ShapeId>)
      requires Valid() && s in nodeOf
      modifies this`log
      ensures Valid() && Distinct(order) && |order| == |Targets(s, Focused, false, forwarded)|
      ensures forall p :: p in order <==> p in Targets(s, Focused, false, forwarded)
      ensures (forall p | p in order :: p in uidOf) && log == old(log) + Notices(uidOf, order, Focused, false)
    {
      ValidForwardable();
      order := Notify(s, Focused, false, forwarded);
    }
  }

  /** The shapes xs are new (not in `before`) and are the rendered shapes
      of the nodes ms, one for one. */
  ghost predicate Made(r: Links, ms: seq<Node>, u: UID, xs: seq<ShapeId>, before: set<ShapeId>) {
    |xs| == |ms| && forall j | 0 <= j < |xs| :: xs[j] !in before && RenderedShape(r, ms[j], u) == Some(xs[j])
  }

  /** A shape whose parent shape shows d - 1 levels of ancestors shows d
      levels of them itself. */
  lemma ShownAboveFromParent(t: DataTree, r: Links, r': Links, s: ShapeId, d: int)
    requires Valid(t, r) && s in r.nodeOf && r.parent[s].Some? && Grows(r, r') && d >= 1
    requires ShownAbove(t, r', r.nodeOf[r.parent[s].value], r.uidOf[s], d - 1)
    ensures ShownAbove(t, r', r.nodeOf[s], r.uidOf[s], d)
  {
    ParentRank(t, r, s);
    RenderedShapeGrows(r, r', r.nodeOf[r.parent[s].value], r.uidOf[s]);
  }

  /** The shapes recorded as made stay rendered as the scene grows. */
  lemma MadeRendered(r: Links, r': Links, ms: seq<Node>, u: UID, xs: seq<ShapeId>, before: set<ShapeId>)
    requires Made(r, ms, u, xs, before) && Grows(r, r')
    ensures NewIn(xs, before, r'.rendered)
  {
  }

  /** A rendered shape none of whose data children is missing shows its
      subtree d levels down once each of its child shapes shows its own
      d - 1 levels down. */
  lemma ShownBelowFromChildren(t: DataTree, r: Links, r': Links, s: ShapeId, cs: seq<ShapeId>, d: int)
    requires Valid(t, r) && s in r.rendered && Missing(t, r, s) == [] && Grows(r, r') && d >= 1
    requires r.children[s] == cs && forall c | c in cs :: c in r'.nodeOf && c in r'.uidOf
    requires forall j | 0 <= j < |cs| :: ShownBelow(t, r', r'.nodeOf[cs[j]], r'.uidOf[cs[j]], d - 1)
    ensures ShownBelow(t, r', r.nodeOf[s], r.uidOf[s], d)
  {
    var n, u := r.nodeOf[s], r.uidOf[s];
    Partition(r, t.Children(n), u);
    forall m | m in t.Children(n) ensures RenderedShape(r', m, u).Some? && ShownBelow(t, r', m, u, d - 1) {
      assert m !in MissingOf(r, t.Children(n), u);
      var c := RenderedShape(r, m, u).value;
      t.ChildFacts(n, m);
      LinkedToParentShape(t, r, s, c);
      var j :| 0 <= j < |cs| && cs[j] == c;
      RenderedShapeGrows(r, r', m, u);
    }
  }

  /** One more child shape visited: the earlier ones stay shown. */
  lemma ShownBelowEach(t: DataTree, r: Links, r': Links, cs: seq<ShapeId>, i: nat, d: int)
    requires Grows(r, r') && i < |cs| && forall c | c in cs :: c in r.nodeOf && c in r.uidOf
    requires forall j | 0 <= j < i :: ShownBelow(t, r, r.nodeOf[cs[j]], r.uidOf[cs[j]], d)
    requires ShownBelow(t, r', r'.nodeOf[cs[i]], r'.uidOf[cs[i]], d)
    ensures forall j | 0 <= j <= i :: ShownBelow(t, r', r'.nodeOf[cs[j]], r'.uidOf[cs[j]], d)
  {
    forall j | 0 <= j < i ensures ShownBelow(t, r', r'.nodeOf[cs[j]], r'.uidOf[cs[j]], d) {
      ShownBelowGrows(t, r, r', r.nodeOf[cs[j]], r.uidOf[cs[j]], d);
    }
  }

  /** The loop of `createDescendants()` over s's child shapes cs has
      visited cs[..i]: from the links r0 before the loop, the links r have
      grown, kept the children of every shape above level k, and show d
      levels below each child visited; made holds exactly the new shapes. */
  ghost predicate Creating(t: DataTree, r0: Links, r: Links, s: ShapeId, cs: seq<ShapeId>, k: int, d: int,
                           i: int, made: seq<ShapeId>)
  {
    && Grows(r0, r) && KeepsChildren(t, r0, r, k)
    && s in r0.nodeOf && k == t.Rank(r0.nodeOf[s]) + 1 && s in r.nodeOf && r.nodeOf[s] == r0.nodeOf[s] && s in r.children && r.children[s] == cs
    && 0 <= i <= |cs| && (forall c | c in cs :: c in r.nodeOf && c in r.uidOf)
    && (forall j | 0 <= j < i :: ShownBelow(t, r, r.nodeOf[cs[j]], r.uidOf[cs[j]], d))
    && AddsNew(made, r0.rendered, r.rendered)
  }

  lemma CreatingStart(t: DataTree, r0: Links, s: ShapeId, k: int, d: int)
    requires Valid(t, r0) && s in r0.nodeOf && k == t.Rank(r0.nodeOf[s]) + 1
    ensures Creating(t, r0, r0, s, r0.children[s], k, d, 0, [])
  {
    ExtendsNone(r0.rendered);
    forall c | c in r0.children[s] ensures c in r0.nodeOf && c in r0.uidOf {
      ChildRank(t, r0, s, c);
    }
  }

  /** The call on the child cs[i], one level below s, keeps what the
      earlier calls did and adds its own shapes. */
  lemma CreatingStep(t: DataTree, r0: Links, r1: Links, r2: Links, s: ShapeId, cs: seq<ShapeId>, k: int, d: int,
                     i: int, made: seq<ShapeId>, c: ShapeId, more: seq<ShapeId>)
    requires Valid(t, r1) && Creating(t, r0, r1, s, cs, k, d, i, made) && i < |cs| && c == cs[i]
    requires Grows(r1, r2) && c in r2.nodeOf && KeepsChildren(t, r1, r2, t.Rank(r2.nodeOf[c]))
    requires c in r1.rendered ==> ShownBelow(t, r2, r2.nodeOf[c], r2.uidOf[c], d)
    requires AddsNew(more, r1.rendered, r2.rendered)
    ensures Creating(t, r0, r2, s, cs, k, d, i + 1, made + more)
  {
    ChildRank(t, r1, s, c);
    CreatingGrow(t, r0, r1, r2, s, cs, k, d, i, made, c, more);
  }

  lemma CreatingGrow(t: DataTree, r0: Links, r1: Links, r2: Links, s: ShapeId, cs: seq<ShapeId>, k: int, d: int,
                     i: int, made: seq<ShapeId>, c: ShapeId, more: seq<ShapeId>)
    requires Creating(t, r0, r1, s, cs, k, d, i, made) && i < |cs| && c == cs[i]
    requires c in r1.nodeOf && c in r1.rendered && t.Rank(r1.nodeOf[c]) == t.Rank(r1.nodeOf[s]) + 1
    requires Grows(r1, r2) && c in r2.nodeOf && KeepsChildren(t, r1, r2, t.Rank(r2.nodeOf[c]))
    requires ShownBelow(t, r2, r2.nodeOf[c], r2.uidOf[c], d)
    requires AddsNew(more, r1.rendered, r2.rendered)
    ensures Creating(t, r0, r2, s, cs, k, d, i + 1, made + more)
  {
    GrowsTrans(r0, r1, r2);
    KeepsChildrenTrans(t, r0, r1, r2, k);
    ShownBelowEach(t, r1, r2, cs, i, d);
    AddsNewAppend(made, more, r0.rendered, r1.rendered, r2.rendered);
  }

  /** What the loop of `createDescendants()` over s's child shapes leaves,
      from the links r0 before it to the links r after it: the links have
      grown and kept the children of every shape at s's level or above; if s was
      rendered and none of its data children was missing, s shows its data
      subtree d levels down; made holds exactly the new shapes. */
  ghost predicate EachDone(t: DataTree, r0: Links, r: Links, s: ShapeId, d: int, made: seq<ShapeId>)
    requires Valid(t, r0) && s in r0.nodeOf
  {
    && Grows(r0, r) && KeepsChildren(t, r0, r, t.Rank(r0.nodeOf[s]) + 1)
    && (s in r0.rendered && Missing(t, r0, s) == [] ==> ShownBelow(t, r, r.nodeOf[s], r.uidOf[s], d))
    && AddsNew(made, r0.rendered, r.rendered)
  }

  /** After the loop, a rendered shape none of whose data children was
      missing shows its subtree d levels down. */
  lemma CreatingEnd(t: DataTree, r0: Links, r: Links, s: ShapeId, cs: seq<ShapeId>, k: int, d: int, made: seq<ShapeId>)
    requires Valid(t, r0) && s in r0.nodeOf && r0.children[s] == cs && d >= 1
    requires Creating(t, r0, r, s, cs, k, d - 1, |cs|, made)
    ensures EachDone(t, r0, r, s, d, made)
  {
    if s in r0.rendered && Missing(t, r0, s) == [] {
      ShownBelowFromChildren(t, r0, r, s, cs, d);
    }
  }

  lemma MadeStep(r: Links, r': Links, ms: seq<Node>, u: UID, xs: seq<ShapeId>, before: set<ShapeId>, m: Node, x: ShapeId)
    requires Made(r, ms, u, xs, before) && Grows(r, r')
    requires x !in before && RenderedShape(r', m, u) == Some(x)
    ensures Made(r', ms + [m], u, xs + [x], before)
  {
    forall j | 0 <= j < |xs| ensures RenderedShape(r', ms[j], u) == Some(xs[j]) {
      RenderedShapeGrows(r, r', ms[j], u);
    }
  }

  /** `add()` changes no child list above the level of the added shape's
      data parent. */
  lemma AddKeepsChildren(t: DataTree, r: Links, st: map<ShapeId, State>, s: ShapeId, r': Links, st': map<ShapeId, State>)
    requires Valid(t, r) && Bound(r, s) && Added(t, r, st, s, r', st')
    ensures KeepsChildren(t, r, r', t.Rank(r.nodeOf[s]) - 1)
  {
    if s !in r.rendered {
      ValidFresh(t, r, s);
      AddSiblings(t, r, s);
      assert r' == AddLinks(t, r, s);
      var rp := RenderedParent(t, r, s);
      if rp.Some? {
        RenderedParentRank(t, r, s);
      }
      forall y | y in r.nodeOf && y in r.children && t.Rank(r.nodeOf[y]) < t.Rank(r.nodeOf[s]) - 1
        ensures y in r'.children && r'.children[y] == r.children[y]
      {
        assert y != s && rp != Some(y);
      }
    }
  }

  /** `__init()` evicts nothing when s's slot is free or s holds it. */
  lemma Unevicted(t: DataTree, r: Links, st: map<ShapeId, State>, s: ShapeId)
    requires Keys(r) && s in r.nodeOf
    requires (r.nodeOf[s], r.uidOf[s]) in r.slot ==> r.slot[(r.nodeOf[s], r.uidOf[s])] == s
    ensures Evicted(r, st, s) == st
    ensures InitLinks(t, r, s) == if (r.nodeOf[s], r.uidOf[s]) in r.slot then r else Bind(r, s)
  {
  }

  /** A shape constructed for a node that holds no shape for the context
      only adds to the scene, and it is bound and not rendered. */
  lemma ConstructedGrows(t: DataTree, r: Links, n: Node, u: UID)
    requires Keys(r) && Slots(t, r) && (n, u) !in r.slot
    ensures var r' := Bind(LinkBind.Fresh(r, n, u), r.nextId);
      && Keys(r') && Grows(r, r') && r'.rendered == r.rendered && Bound(r', r.nextId)
      && r'.nodeOf[r.nextId] == n && r'.uidOf[r.nextId] == u
      && r'.slot == r.slot[(n, u) := r.nextId] && r.nextId !in r.nodeOf
      && r'.children == r.children[r.nextId := []] && KeepsChildren(t, r, r', t.Rank(n))

  {
    var id := r.nextId;
    assert id !in r.nodeOf;
    var f := LinkBind.Fresh(r, n, u);
    assert Keys(f) && f.slot == r.slot;
    assert f.nodeOf[id] == n && f.uidOf[id] == u;
  }

  /** `add()` only adds to the scene: nodes, contexts and slots stay, and
      the shape becomes rendered. */
  lemma AddedGrows(t: DataTree, r: Links, st: map<ShapeId, State>, s: ShapeId, r': Links, st': map<ShapeId, State>)
    requires Valid(t, r) && Bound(r, s) && Added(t, r, st, s, r', st')
    ensures Grows(r, r') && r'.slot == r.slot && r'.nodeOf == r.nodeOf && r'.uidOf == r.uidOf
  {
    if s !in r.rendered {
      ValidFresh(t, r, s);
      AddEffect(t, r, s);
    }
  }
}
