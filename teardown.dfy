/** The bookkeeping of teardown: `expanded` flags that removals clear,
    and the state of the backwards loop of `destroyChildren()`. */
module Teardown {
  import opened Util
  import opened DataTrees
  import opened NodeStates
  import opened NodeLinks
  import opened LinkRemove
  import opened LinkPrune
  import opened LinkGrow
  import opened NodeQueries
  import opened Razing

  /** `__changeState("expanded", false)` on the shape q. */
  function Shut(st: map<ShapeId, State>, q: ShapeId): map<ShapeId, State> {
    if q in st then st[q := st[q].(expanded := false)] else st
  }

  /** Every state is the old one or the old one with `expanded` cleared. */
  ghost predicate OnlyShut(st: map<ShapeId, State>, st': map<ShapeId, State>) {
    st'.Keys == st.Keys && forall x | x in st :: st'[x] == st[x] || st'[x] == st[x].(expanded := false)
  }

  lemma OnlyShutTrans(st: map<ShapeId, State>, st1: map<ShapeId, State>, st2: map<ShapeId, State>)
    requires OnlyShut(st, st1) && OnlyShut(st1, st2)
    ensures OnlyShut(st, st2)
  {
  }

  /** Shutting a shape clears one flag only. */
  lemma ShutOnly(st: map<ShapeId, State>, q: ShapeId)
    ensures OnlyShut(st, Shut(st, q))
  {
  }

  /** One turn of the loop of `destroyChildren()` on the child cs[i - 1]:
      the rendered set loses it and its parent is shut when it is removed. */
  lemma DropTurn(st0: map<ShapeId, State>, st1: map<ShapeId, State>, st2: map<ShapeId, State>,
                 rs0: set<ShapeId>, rs1: set<ShapeId>, rs2: set<ShapeId>,
                 s: ShapeId, cs: seq<ShapeId>, keep: seq<ShapeId>, i: int)
    requires 0 < i <= |cs|
    requires rs1 == rs0 - Dropped(cs[i..], keep)
    requires st1 == ShutUnless(st0, s, Dropped(cs[i..], keep))
    requires cs[i - 1] in keep ==> rs2 == rs1 && st2 == st1
    requires cs[i - 1] !in keep ==> rs2 == rs1 - {cs[i - 1]} && st2 == Shut(st1, s)
    ensures rs2 == rs0 - Dropped(cs[i - 1..], keep)
    ensures st2 == ShutUnless(st0, s, Dropped(cs[i - 1..], keep))
  {
    DroppedStep(cs, keep, i);
  }

  /** The state of the loop of `destroyChildren()` over s's former
      children cs, from links r0 and states st0, when the children from
      index i on are done. */
  ghost predicate Pruned(t: DataTree, r0: Links, st0: map<ShapeId, State>, r: Links, st: map<ShapeId, State>,
                         s: ShapeId, cs: seq<ShapeId>, keep: seq<ShapeId>, i: int)
    requires Keys(r0) && Keys(r) && s in r0.nodeOf
  {
    && 0 <= i <= |cs| && Shrinks(r0, r) && Distinct(cs) && s !in cs
    && r.children[s] == cs[..i] + Kept(cs[i..], keep)
    && r.rendered == r0.rendered - Dropped(cs[i..], keep)
    && Outside(t, r0, r, r0.nodeOf[s], r0.uidOf[s], s)
    && Pending(t, r0, r, cs, keep, |cs|) && Gone(r, cs, keep, i)
    && st == ShutUnless(st0, s, Dropped(cs[i..], keep))
  }

  /** The loop state of `destroyChildren()`: the links r are valid, every
      shape has a state in st and a connection flag in conn, and the
      children of s from index i on are done. */
  ghost predicate PruneState(t: DataTree, r0: Links, st0: map<ShapeId, State>, r: Links, st: map<ShapeId, State>,
                             conn: map<ShapeId, bool>, s: ShapeId, cs: seq<ShapeId>, keep: seq<ShapeId>, i: int)
  {
    && Valid(t, r) && Keys(r) && st.Keys == r.nodeOf.Keys && conn.Keys == r.nodeOf.Keys
    && Keys(r0) && s in r0.nodeOf && Pruned(t, r0, st0, r, st, s, cs, keep, i)
  }

  /** The states after removing the children in gone from s: s is shut
      once one of them went. */
  function ShutUnless(st: map<ShapeId, State>, s: ShapeId, gone: set<ShapeId>): map<ShapeId, State> {
    if gone == {} then st else Shut(st, s)
  }

  lemma PrunedStart(t: DataTree, r: Links, st: map<ShapeId, State>, s: ShapeId, keep: seq<ShapeId>)
    requires Keys(r) && s in r.nodeOf && Distinct(r.children[s]) && s !in r.children[s]
    requires forall x | x in r.children[s] :: x in r.nodeOf
    ensures Pruned(t, r, st, r, st, s, r.children[s], keep, |r.children[s]|)
  {
    var cs := r.children[s];
    PendingStart(t, r, cs, keep, |cs|);
    OutsideRefl(t, r, r.nodeOf[s], r.uidOf[s], s);
    assert cs[..|cs|] == cs;
  }

  /** A turn of the loop on a child in keep changes nothing. */
  lemma PrunedSkip(t: DataTree, r0: Links, st0: map<ShapeId, State>, r: Links, st: map<ShapeId, State>,
                   s: ShapeId, cs: seq<ShapeId>, keep: seq<ShapeId>, i: int)
    requires Keys(r0) && Keys(r) && s in r0.nodeOf && 0 < i
    requires Pruned(t, r0, st0, r, st, s, cs, keep, i) && cs[i - 1] in keep
    ensures Pruned(t, r0, st0, r, st, s, cs, keep, i - 1)
  {
    KeptStep(cs, keep, i);
    DroppedStep(cs, keep, i);
    assert Dropped(cs[i - 1..], keep) == Dropped(cs[i..], keep);
    assert r.children[s] == cs[..i - 1] + Kept(cs[i - 1..], keep);
  }

  /** A turn of the loop on a child c = cs[i - 1] not in keep, whose
      `remove()` took it out of s's children and changed nothing outside
      the part below s, nor in the parts of s's other children. */
  lemma PrunedStep(t: DataTree, r0: Links, st0: map<ShapeId, State>, r1: Links, st1: map<ShapeId, State>,
                   r2: Links, st2: map<ShapeId, State>, s: ShapeId, cs: seq<ShapeId>, keep: seq<ShapeId>, i: int)
    requires Keys(r0) && Keys(r1) && Keys(r2) && s in r0.nodeOf && 0 < i
    requires Pruned(t, r0, st0, r1, st1, s, cs, keep, i) && cs[i - 1] !in keep && Distinct(r1.children[s])
    requires Shrinks(r1, r2) && r2.rendered == r1.rendered - {cs[i - 1]}
    requires r2.children == r1.children[s := Without(r1.children[s], cs[i - 1])][cs[i - 1] := []]
    requires Outside(t, r1, r2, r0.nodeOf[s], r0.uidOf[s], s) && Siblings(t, r1, r2, s, cs[i - 1])
    requires st2 == Shut(st1, s)
    ensures Pruned(t, r0, st0, r2, st2, s, cs, keep, i - 1)
  {
    PruneStep(t, r0, r1, r2, s, cs, keep, i);
    OutsideTrans(t, r0, r1, r2, r0.nodeOf[s], r0.uidOf[s], s);
    DropTurn(st0, st1, st2, r0.rendered, r1.rendered, r2.rendered, s, cs, keep, i);
  }

  /** What `destroyChildren(keep)` on s leaves of the links r and the
      states st: s's children are its kept children, in their order; the
      others are no longer rendered and have no children; the kept ones
      keep their parts; nothing outside the part below s changes; and s is
      not expanded once a child went. */
  ghost predicate Destroyed(t: DataTree, r: Links, st: map<ShapeId, State>, r': Links, st': map<ShapeId, State>,
                            s: ShapeId, keep: seq<ShapeId>)
    requires Keys(r) && Keys(r') && s in r.nodeOf
  {
    && Shrinks(r, r') && r'.children[s] == Kept(r.children[s], keep)
    && r'.rendered == r.rendered - Dropped(r.children[s], keep)
    && Outside(t, r, r', r.nodeOf[s], r.uidOf[s], s)
    && Pending(t, r, r', r.children[s], keep, |r.children[s]|)
    && Gone(r', r.children[s], keep, 0)
    && st' == ShutUnless(st, s, Dropped(r.children[s], keep))
  }

  lemma PrunedEnd(t: DataTree, r0: Links, st0: map<ShapeId, State>, r: Links, st: map<ShapeId, State>,
                  s: ShapeId, keep: seq<ShapeId>)
    requires Keys(r0) && Keys(r) && s in r0.nodeOf && Pruned(t, r0, st0, r, st, s, r0.children[s], keep, 0)
    ensures Destroyed(t, r0, st0, r, st, s, keep)
  {
    assert r0.children[s][0..] == r0.children[s];
  }

  lemma ShutUnlessOnly(st: map<ShapeId, State>, s: ShapeId, gone: set<ShapeId>)
    ensures OnlyShut(st, ShutUnless(st, s, gone))
  {
  }

  /** What `destroyAncestors(depth, fully)` on s leaves of s's parent q in
      r: with depth > 0, q stays rendered and s's parent, with s as its
      only child when fully; otherwise q is gone and s has no parent. When
      fully, every shape q's `destroyDescendants(0, [s])` removed, all of
      q's descendants outside s's part (see Razing.SiblingsRazed), stays
      removed. */
  ghost predicate Ascended(t: DataTree, r: Links, r': Links, s: ShapeId, q: ShapeId, depth: int, fully: bool)
    requires Keys(r) && Keys(r') && s in r.nodeOf && q in r.nodeOf && s in r'.nodeOf && q in r'.nodeOf
  {
    && r'.parent[s] == (if depth <= 0 then None else Some(q))
    && (q in r'.rendered <==> depth > 0)
    && (depth > 0 ==> r'.children[q] == if fully then [s] else r.children[q])
    && (fully ==> Ranked(t, r) && Razed(t, r, q, 0, [s]) !! r'.rendered)
  }

  /** Removing s's parent q after the first steps of `destroyAncestors()`
      leaves q gone and s without a parent. */
  lemma ParentGone(t: DataTree, r0: Links, r1: Links, r2: Links, s: ShapeId, q: ShapeId, depth: int, fully: bool)
    requires Keys(r0) && Keys(r1) && Keys(r2) && s in r0.nodeOf && q in r0.nodeOf && depth <= 0
    requires Shrinks(r0, r1) && Intact(t, r0, r1, r0.nodeOf[s], r0.uidOf[s])
    requires fully ==> Ranked(t, r0) && Razed(t, r0, q, 0, [s]) !! r1.rendered
    requires LinkedUp(r1, q) && Unlinked(t, r1, q, r2)
    requires Intact(t, r1, r2, r1.nodeOf[s], r1.uidOf[s]) && r2.parent[s] == None
    ensures Shrinks(r0, r2) && Intact(t, r0, r2, r0.nodeOf[s], r0.uidOf[s])
    ensures Ascended(t, r0, r2, s, q, depth, fully)
  {
    IntactTrans(t, r0, r1, r2, r0.nodeOf[s], r0.uidOf[s]);
  }

  /** With depth > 0, s's parent q stays after the first steps of
      `destroyAncestors()`. */
  lemma ParentKept(t: DataTree, r0: Links, r1: Links, s: ShapeId, q: ShapeId, depth: int, fully: bool)
    requires Keys(r0) && Keys(r1) && s in r0.nodeOf && q in r0.nodeOf && depth > 0 && Shrinks(r0, r1)
    requires r1.parent[s] == Some(q) && q in r1.rendered
    requires r1.children[q] == if fully then [s] else r0.children[q]
    requires fully ==> Ranked(t, r0) && Razed(t, r0, q, 0, [s]) !! r1.rendered
    ensures Ascended(t, r0, r1, s, q, depth, fully)
  {
  }

  /** What `destroyAncestors(depth, fully)` on s leaves of r0 and states
      st0 in r and st: the part at and below s is intact and only
      `expanded` flags were cleared; without a parent nothing changes; with
      a parent q, q is left as `Ascended` says and is the last shape
      returned when it is removed; the list returned is s's `Ascent`. */
  ghost predicate AncestorsGone(t: DataTree, r0: Links, st0: map<ShapeId, State>, r: Links, st: map<ShapeId, State>,
                       s: ShapeId, depth: int, fully: bool, ret: seq<ShapeId>)
  {
    && Keys(r0) && Keys(r) && s in r0.nodeOf && Shrinks(r0, r)
    && Intact(t, r0, r, r0.nodeOf[s], r0.uidOf[s])
    && OnlyShut(st0, st) && Within(ret, r0.rendered)
    && (r0.parent[s].None? ==> ret == [] && r == r0 && st == st0)
    && (r0.parent[s].Some? ==>
          r0.parent[s].value in r0.nodeOf && Ascended(t, r0, r, s, r0.parent[s].value, depth, fully))
    && (r0.parent[s].Some? && depth <= 0 ==> ret != [] && ret[|ret| - 1] == r0.parent[s].value)
    && Ranked(t, r0) && ret == Ascent(t, r0, s, depth, fully)
  }

  /** A shape without a parent: nothing happens and nothing is returned. */
  lemma GoneNone(t: DataTree, r: Links, st: map<ShapeId, State>, s: ShapeId, depth: int, fully: bool)
    requires Valid(t, r) && s in r.nodeOf && r.parent[s].None?
    ensures AncestorsGone(t, r, st, r, st, s, depth, fully, [])
  {
    ValidRanked(t, r);
    IntactRefl(t, r, r.nodeOf[s], r.uidOf[s]);
  }

  /** With depth > 0 the list is what the steps before the parent's
      removal returned. */
  lemma GoneKept(t: DataTree, r0: Links, st0: map<ShapeId, State>, r1: Links, st1: map<ShapeId, State>,
                 s: ShapeId, q: ShapeId, depth: int, fully: bool, ret: seq<ShapeId>)
    requires Keys(r0) && Keys(r1) && s in r0.nodeOf && q in r0.nodeOf && r0.parent[s] == Some(q) && depth > 0
    requires Shrinks(r0, r1) && Intact(t, r0, r1, r0.nodeOf[s], r0.uidOf[s])
    requires r1.parent[s] == Some(q) && q in r1.rendered
    requires r1.children[q] == if fully then [s] else r0.children[q]
    requires OnlyShut(st0, st1) && Within(ret, r0.rendered)
    requires Ranked(t, r0) && ret == (if fully then [s] else []) + Ascent(t, r0, q, depth - 1, fully)
    requires fully ==> Razed(t, r0, q, 0, [s]) !! r1.rendered
    ensures AncestorsGone(t, r0, st0, r1, st1, s, depth, fully, ret)
  {
    ParentKept(t, r0, r1, s, q, depth, fully);
    AscentStep(t, r0, s, depth, fully, q);
  }

  /** With depth at most 0 the removed parent q ends the list. */
  lemma GoneParent(t: DataTree, r0: Links, st0: map<ShapeId, State>, r1: Links, st1: map<ShapeId, State>,
                   r2: Links, st2: map<ShapeId, State>,
                   s: ShapeId, q: ShapeId, depth: int, fully: bool, ret: seq<ShapeId>)
    requires Keys(r0) && Keys(r1) && Keys(r2) && s in r0.nodeOf && q in r0.nodeOf && r0.parent[s] == Some(q)
    requires depth <= 0 && q in r1.rendered
    requires Shrinks(r0, r1) && Intact(t, r0, r1, r0.nodeOf[s], r0.uidOf[s])
    requires OnlyShut(st0, st1) && Within(ret, r0.rendered)
    requires Ranked(t, r0) && ret == (if fully then [s] else []) + Ascent(t, r0, q, depth - 1, fully)
    requires fully ==> Razed(t, r0, q, 0, [s]) !! r1.rendered
    requires LinkedUp(r1, q) && Unlinked(t, r1, q, r2) && OnlyShut(st1, st2)
    requires Intact(t, r1, r2, r1.nodeOf[s], r1.uidOf[s]) && r2.parent[s] == None
    ensures AncestorsGone(t, r0, st0, r2, st2, s, depth, fully, ret + [q])
  {
    ParentGone(t, r0, r1, r2, s, q, depth, fully);
    AscentStep(t, r0, s, depth, fully, q);
    OnlyShutTrans(st0, st1, st2);
    OneWithin(q, r0.rendered);
    AppendWithin(ret, [q], r0.rendered, r0.rendered);
  }

  /** After s's parent q destroyed its descendants keeping only s, s is
      q's only child and the part at and below s is intact. */
  lemma SiblingsCleared(t: DataTree, r0: Links, r1: Links, s: ShapeId, q: ShapeId)
    requires Keys(r0) && Keys(r1) && s in r0.nodeOf && q in r0.nodeOf && q in r0.rendered
    requires s in r0.children[q] && Distinct(r0.children[q])
    requires Outside(t, r0, r1, r0.nodeOf[q], r0.uidOf[q], q)
    requires Pending(t, r0, r1, r0.children[q], [s], |r0.children[q]|)
    requires r1.children[q] == Kept(r0.children[q], [s])
    ensures Intact(t, r0, r1, r0.nodeOf[s], r0.uidOf[s]) && r1.children[q] == [s] && q in r1.rendered
  {
    var cs := r0.children[q];
    var j :| 0 <= j < |cs| && cs[j] == s;
    KeptOne(cs, s);
    assert cs[j] in [s];
  }

  /** What the `fully` step of `destroyAncestors()` on s, whose parent is
      q, leaves of r: the part at and below s is intact and s is still q's
      child, its only one when fully; nothing outside the part below q
      changed; when fully, exactly the shapes q's
      `destroyDescendants(0, [s])` removes are gone, and otherwise
      nothing. */
  ghost predicate Cleared(t: DataTree, r: Links, r': Links, s: ShapeId, q: ShapeId, fully: bool)
    requires Keys(r) && Keys(r') && s in r.nodeOf
  {
    && Shrinks(r, r') && Intact(t, r, r', r.nodeOf[s], r.uidOf[s])
    && r'.parent[s] == Some(q) && q in r'.rendered && q in r.children
    && r'.children[q] == (if fully then [s] else r.children[q])
    && q in r.nodeOf && Outside(t, r, r', r.nodeOf[q], r.uidOf[q], q)
    && Ranked(t, r)
    && r'.rendered == r.rendered - (if fully then Razed(t, r, q, 0, [s]) else {})
  }

  lemma ClearedFully(t: DataTree, r: Links, r': Links, s: ShapeId, q: ShapeId)
    requires Keys(r) && Keys(r') && s in r.nodeOf && q in r.nodeOf
    requires Shrinks(r, r') && Intact(t, r, r', r.nodeOf[s], r.uidOf[s])
    requires r'.parent[s] == Some(q) && q in r'.rendered && r'.children[q] == [s]
    requires Outside(t, r, r', r.nodeOf[q], r.uidOf[q], q)
    requires Ranked(t, r) && r'.rendered == r.rendered - Razed(t, r, q, 0, [s])
    ensures Cleared(t, r, r', s, q, true)
  {
  }

  /** The `fully` step leaves the list the walk up from q returns as it
      was: it changes nothing on q's level or above. */
  lemma ClearedAscent(t: DataTree, r: Links, r': Links, s: ShapeId, q: ShapeId, fully: bool, d: int)
    requires Valid(t, r) && Keys(r') && s in r.nodeOf && Cleared(t, r, r', s, q, fully) && Ranked(t, r')
    ensures q in r'.nodeOf && Ascent(t, r', q, d, fully) == Ascent(t, r, q, d, fully)
  {
    OutsideLevels(t, r, r', r.nodeOf[q], r.uidOf[q], q);
    AscentFrame(t, r, r', q, d, fully, t.Rank(r.nodeOf[q]));
  }

  lemma ClearedNot(t: DataTree, r: Links, s: ShapeId, q: ShapeId)
    requires Valid(t, r) && s in r.nodeOf && r.parent[s] == Some(q) && q in r.rendered
    ensures Cleared(t, r, r, s, q, false)
  {
    IntactRefl(t, r, r.nodeOf[s], r.uidOf[s]);
    OutsideRefl(t, r, r.nodeOf[q], r.uidOf[q], q);
    ValidRanked(t, r);
  }

  // --------------------------------------------------------------------
  // The loop of destroyDescendants().

  /** The state of the loop of `destroyDescendants()` over s's children cs,
      from links r0 and states st0, when cs[..i] are done: nothing outside
      the part below s changed, the parts of the children still to do are
      intact, the children done are still rendered, what was removed and
      returned is what the calls on cs[..i] do on r0, and only `expanded`
      flags were cleared. */
  ghost predicate Sweeping(t: DataTree, r0: Links, st0: map<ShapeId, State>, r: Links, st: map<ShapeId, State>,
                           s: ShapeId, cs: seq<ShapeId>, keep: seq<ShapeId>, d: int, i: int, ret: seq<ShapeId>)
  {
    && Valid(t, r0) && Keys(r) && Shrinks(r0, r) && s in r0.nodeOf && r.children[s] == cs
    && Outside(t, r0, r, r0.nodeOf[s], r0.uidOf[s], s)
    && Pending(t, r0, r, cs, keep, i) && Done(r0, r, cs, keep, i, d)
    && OnlyShut(st0, st) && (forall x | x in ret :: x in keep)
    && Swept(t, r0, r, s, cs, keep, d, i, ret)
  }

  lemma SweepingStart(t: DataTree, r0: Links, st0: map<ShapeId, State>, s: ShapeId, keep: seq<ShapeId>, d: int)
    requires Valid(t, r0) && s in r0.nodeOf
    ensures Sweeping(t, r0, st0, r0, st0, s, r0.children[s], keep, d, 0, [])
  {
    var cs := r0.children[s];
    forall x | x in cs ensures x in r0.nodeOf {
      ChildRank(t, r0, s, x);
    }
    PendingStart(t, r0, cs, keep, 0);
    OutsideRefl(t, r0, r0.nodeOf[s], r0.uidOf[s], s);
    ValidRanked(t, r0);
    SweptStart(t, r0, s, keep, d);
  }

  /** A turn for a child cs[i] not in keep, whose call took the links from
      r1 to r2 and the states from st1 to st2. */
  lemma SweepingCall(t: DataTree, r0: Links, st0: map<ShapeId, State>, r1: Links, st1: map<ShapeId, State>,
                     r2: Links, st2: map<ShapeId, State>, s: ShapeId, cs: seq<ShapeId>, keep: seq<ShapeId>,
                     d: int, i: int, ret: seq<ShapeId>, more: seq<ShapeId>)
    requires Valid(t, r1) && Keys(r2) && Sweeping(t, r0, st0, r1, st1, s, cs, keep, d, i, ret)
    requires i < |cs| && cs[i] !in keep && cs[i] in r1.nodeOf
    requires Shrinks(r1, r2) && Outside(t, r1, r2, r1.nodeOf[cs[i]], r1.uidOf[cs[i]], cs[i])
    requires r2.children[cs[i]] == if d <= 0 then Kept(r1.children[cs[i]], keep) else r1.children[cs[i]]
    requires OnlyShut(st1, st2) && forall x | x in more :: x in keep
    requires Ranked(t, r1) && r2.rendered == r1.rendered - Razed(t, r1, cs[i], d, keep)
    requires more == Survivors(t, r1, cs[i], d, keep)
    ensures Sweeping(t, r0, st0, r2, st2, s, cs, keep, d, i + 1, ret + more)
  {
    SweptCall(t, r0, r1, r2, s, cs, keep, d, i, ret, more);
    EachStep(t, r0, r1, r2, s, cs, keep, i, d);
    OutsideTrans(t, r0, r1, r2, r0.nodeOf[s], r0.uidOf[s], s);
    OnlyShutTrans(st0, st1, st2);
  }

  /** A turn for a child in keep changes nothing. */
  lemma SweepingSkip(t: DataTree, r0: Links, st0: map<ShapeId, State>, r: Links, st: map<ShapeId, State>,
                     s: ShapeId, cs: seq<ShapeId>, keep: seq<ShapeId>, d: int, i: int, ret: seq<ShapeId>)
    requires Sweeping(t, r0, st0, r, st, s, cs, keep, d, i, ret) && i < |cs| && cs[i] in keep
    ensures Sweeping(t, r0, st0, r, st, s, cs, keep, d, i + 1, ret)
  {
    EachSkip(t, r0, r, cs, keep, i, d);
    SweptSkip(t, r0, r, s, cs, keep, d, i, ret);
  }

  lemma SweepingEnd(t: DataTree, r0: Links, st0: map<ShapeId, State>, r: Links, st: map<ShapeId, State>,
                    s: ShapeId, cs: seq<ShapeId>, keep: seq<ShapeId>, d: int, ret: seq<ShapeId>)
    requires Sweeping(t, r0, st0, r, st, s, cs, keep, d, |cs|, ret)
    ensures Ranked(t, r0) && r0.children[s] == cs
    ensures r.rendered == r0.rendered - RazedOf(t, r0, s, cs, d, keep)
    ensures ret == SurvivorsOf(t, r0, s, cs, d, keep)
  {
    SweptEnd(t, r0, r, s, cs, keep, d, ret);
  }
}
