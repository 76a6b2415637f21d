/** Tearing down parts of the mirror: `destroyChildren`,
    `destroyDescendants` and `destroyAncestors` are sequences of
    `remove()` calls. This module states what survives them: the children
    named in `keep`, in their original order, and every shape at or above
    a given level of the data tree. */
module LinkPrune {
  import opened Util
  import opened DataTrees
  import opened NodeLinks
  import opened LinkRemove
  import opened LinkGrow

  /** The shapes of cs that are in keep, in the order of cs. */
  function Kept(cs: seq<ShapeId>, keep: seq<ShapeId>): seq<ShapeId> {
    if cs == [] then [] else (if cs[0] in keep then [cs[0]] else []) + Kept(cs[1..], keep)
  }

  /** Kept holds exactly the shapes of cs that are in keep, and no more of
      them than cs has. */
  lemma {:induction false} KeptSpec(cs: seq<ShapeId>, keep: seq<ShapeId>)
    ensures forall x :: x in Kept(cs, keep) <==> x in cs && x in keep
    ensures |Kept(cs, keep)| <= |cs|
    ensures Distinct(cs) ==> Distinct(Kept(cs, keep))
    ensures (forall x | x in cs :: x in keep) ==> Kept(cs, keep) == cs
  {
    if cs != [] {
      KeptSpec(cs[1..], keep);
      assert forall x :: x in cs <==> x == cs[0] || x in cs[1..];
      if Distinct(cs) {
        DistinctTail(cs);
        if cs[0] in keep {
          var k := Kept(cs[1..], keep);
          forall i, j | 0 <= i < j < |[cs[0]] + k| ensures ([cs[0]] + k)[i] != ([cs[0]] + k)[j] {
            if i == 0 {
              assert ([cs[0]] + k)[j] == k[j - 1];
              assert cs[0] !in cs[1..];
            }
          }
        }
      }
    }
  }

  /** Going one step back in the backwards loop of `destroyChildren`: the
      child at i - 1 is kept or spliced out. */
  lemma KeptStep(cs: seq<ShapeId>, keep: seq<ShapeId>, i: nat)
    requires 0 < i <= |cs| && (cs[i - 1] !in keep ==> Distinct(cs[..i] + Kept(cs[i..], keep)))
    ensures cs[i - 1] in keep ==> cs[..i] + Kept(cs[i..], keep) == cs[..i - 1] + Kept(cs[i - 1..], keep)
    ensures cs[i - 1] !in keep ==> Without(cs[..i] + Kept(cs[i..], keep), cs[i - 1]) == cs[..i - 1] + Kept(cs[i - 1..], keep)
  {
    assert cs[i - 1..][1..] == cs[i..];
    assert cs[..i] == cs[..i - 1] + [cs[i - 1]];
    if cs[i - 1] !in keep {
      WithoutLastOfPrefix(cs, i, Kept(cs[i..], keep));
    }
  }

  lemma {:induction false} KeptNone(cs: seq<ShapeId>, keep: seq<ShapeId>)
    requires forall x | x in cs :: x !in keep
    ensures Kept(cs, keep) == []
  {
    if cs != [] {
      KeptNone(cs[1..], keep);
    }
  }

  /** Kept with a one-shape keep list leaves just that shape. */
  lemma {:induction false} KeptOne(cs: seq<ShapeId>, s: ShapeId)
    requires s in cs && Distinct(cs)
    ensures Kept(cs, [s]) == [s]
  {
    DistinctTail(cs);
    if cs[0] == s {
      assert s !in cs[1..];
      KeptNone(cs[1..], [s]);
    } else {
      KeptOne(cs[1..], s);
    }
  }

  /** The shapes of cs that are not in keep. */
  ghost function Dropped(cs: seq<ShapeId>, keep: seq<ShapeId>): set<ShapeId> {
    set x | x in cs && x !in keep
  }

  lemma DroppedStep(cs: seq<ShapeId>, keep: seq<ShapeId>, i: nat)
    requires 0 < i <= |cs|
    ensures Dropped(cs[i - 1..], keep) == Dropped(cs[i..], keep) + (if cs[i - 1] in keep then {} else {cs[i - 1]})
  {
    assert forall x :: x in cs[i - 1..] <==> x == cs[i - 1] || x in cs[i..];
  }

  // --------------------------------------------------------------------
  // Frames for teardown. Each removal touches one part of one context:
  // the shapes whose nodes lie below some node of the data tree.

  /** y belongs to context u and its node lies strictly below node a. */
  ghost predicate Beneath(t: DataTree, r: Links, y: ShapeId, a: Node, u: UID)
    requires y in r.nodeOf && y in r.uidOf
  {
    r.uidOf[y] == u && r.nodeOf[y] != a && t.Under(a, r.nodeOf[y])
  }

  /** r' has the shapes, bindings and slots of r and renders no new shape. */
  ghost predicate Shrinks(r: Links, r': Links) {
    r'.nodeOf == r.nodeOf && r'.uidOf == r.uidOf && r'.slot == r.slot && r'.rendered <= r.rendered
  }

  /** Outside the part of context u strictly below node a nothing changes:
      every other shape keeps its rendered flag, its parent and, except c,
      its children. */
  ghost predicate Outside(t: DataTree, r: Links, r': Links, a: Node, u: UID, c: ShapeId)
    requires Keys(r) && Keys(r')
  {
    && Shrinks(r, r')
    && forall y | y in r.nodeOf && !Beneath(t, r, y, a, u) ::
         && (y in r'.rendered <==> y in r.rendered)
         && r'.parent[y] == r.parent[y]
         && (y != c ==> r'.children[y] == r.children[y])
  }

  /** At and below node a in context u nothing changes, except the parent
      of the shapes of a itself. */
  ghost predicate Intact(t: DataTree, r: Links, r': Links, a: Node, u: UID)
    requires Keys(r) && Keys(r')
  {
    && Shrinks(r, r')
    && forall y | y in r.nodeOf && r.uidOf[y] == u && t.Under(a, r.nodeOf[y]) ::
         && (y in r'.rendered <==> y in r.rendered)
         && r'.children[y] == r.children[y]
         && (r.nodeOf[y] != a ==> r'.parent[y] == r.parent[y])
  }

  lemma OutsideRefl(t: DataTree, r: Links, a: Node, u: UID, c: ShapeId)
    requires Keys(r)
    ensures Outside(t, r, r, a, u, c)
  {
  }

  lemma OutsideTrans(t: DataTree, r: Links, r1: Links, r2: Links, a: Node, u: UID, c: ShapeId)
    requires Keys(r) && Keys(r1) && Keys(r2)
    requires Outside(t, r, r1, a, u, c) && Outside(t, r1, r2, a, u, c)
    ensures Outside(t, r, r2, a, u, c)
  {
  }

  lemma IntactRefl(t: DataTree, r: Links, a: Node, u: UID)
    requires Keys(r)
    ensures Intact(t, r, r, a, u)
  {
  }

  lemma IntactTrans(t: DataTree, r: Links, r1: Links, r2: Links, a: Node, u: UID)
    requires Keys(r) && Keys(r1) && Keys(r2)
    requires Intact(t, r, r1, a, u) && Intact(t, r1, r2, a, u)
    ensures Intact(t, r, r2, a, u)
  {
  }

  /** Two rendered shapes of one node and context are one shape. */
  lemma RenderedSame(t: DataTree, r: Links, x: ShapeId, y: ShapeId)
    requires Valid(t, r) && x in r.rendered && y in r.rendered
    requires r.nodeOf[x] == r.nodeOf[y] && r.uidOf[x] == r.uidOf[y]
    ensures x == y
  {
  }

  /** A child of a shape at or below node a lies strictly below a. */
  lemma BeneathChild(t: DataTree, r: Links, p: ShapeId, c: ShapeId, a: Node, u: UID)
    requires Valid(t, r) && p in r.nodeOf && c in r.children[p]
    requires r.uidOf[p] == u && t.Under(a, r.nodeOf[p])
    ensures c in r.nodeOf && Beneath(t, r, c, a, u)
  {
    ChildRank(t, r, p, c);
    ParentRank(t, r, c);
    t.UnderStep(a, r.nodeOf[c]);
    t.UnderRank(a, r.nodeOf[p]);
  }

  /** Two children of one shape lie below each other only if they are the
      same shape, and then only at their own node. */
  lemma SiblingApart(t: DataTree, r: Links, s: ShapeId, x: ShapeId, y: ShapeId, z: ShapeId)
    requires Valid(t, r) && s in r.nodeOf && x in r.children[s] && y in r.children[s] && x != y
    requires z in r.nodeOf && r.uidOf[z] == r.uidOf[s] && t.Under(r.nodeOf[y], r.nodeOf[z])
    ensures x in r.nodeOf && !t.Under(r.nodeOf[x], r.nodeOf[z])
  {
    ChildRank(t, r, s, x);
    ChildRank(t, r, s, y);
    if t.Under(r.nodeOf[x], r.nodeOf[z]) {
      t.UnderUnique(r.nodeOf[x], r.nodeOf[y], r.nodeOf[z]);
      RenderedSame(t, r, x, y);
    }
  }

  /** Every child of s other than x keeps its part of the tree. */
  ghost predicate Siblings(t: DataTree, r: Links, r': Links, s: ShapeId, x: ShapeId)
    requires Keys(r) && Keys(r') && s in r.nodeOf
  {
    forall y | y in r.children[s] && y != x :: y in r.nodeOf && Intact(t, r, r', r.nodeOf[y], r.uidOf[y])
  }

  /** `remove()` on a child x of s changes nothing outside the part below
      s, and leaves every other child's part alone. */
  lemma RemoveChildOutside(t: DataTree, r: Links, s: ShapeId, x: ShapeId, r': Links)
    requires Valid(t, r) && s in r.nodeOf && x in r.children[s]
    requires x in r.nodeOf && LinkedUp(r, x) && Unlinked(t, r, x, r')
    ensures Keys(r') && Outside(t, r, r', r.nodeOf[s], r.uidOf[s], s) && Siblings(t, r, r', s, x)
  {
    UpdatesRemove(t, r, x, r');
    RemoveEffect(t, r, x);
    ChildRank(t, r, s, x);
    var a, u := r.nodeOf[s], r.uidOf[s];
    BeneathChild(t, r, s, x, a, u);
    forall y | y in r.nodeOf && !Beneath(t, r, y, a, u)
      ensures (y in r'.rendered <==> y in r.rendered) && r'.parent[y] == r.parent[y]
      ensures y != s ==> r'.children[y] == r.children[y]
    {
      if y in r.children[x] {
        BeneathChild(t, r, x, y, a, u);
      }
    }
    forall y | y in r.children[s] && y != x
      ensures y in r.nodeOf && Intact(t, r, r', r.nodeOf[y], r.uidOf[y])
    {
      ChildRank(t, r, s, y);
      forall z | z in r.nodeOf && r.uidOf[z] == r.uidOf[y] && t.Under(r.nodeOf[y], r.nodeOf[z])
        ensures (z in r'.rendered <==> z in r.rendered) && r'.children[z] == r.children[z]
        ensures r'.parent[z] == r.parent[z]
      {
        SiblingApart(t, r, s, x, y, z);
        t.UnderRank(r.nodeOf[y], r.nodeOf[z]);
        if z in r.children[x] {
          BeneathChild(t, r, x, z, r.nodeOf[x], u);
        }
      }
    }
  }

  /** A call that changes nothing outside the part below the child cs[i]
      of s, except that child's own children, changes nothing outside the
      part below s, keeps s's children and leaves every other child's part
      alone. */
  lemma ChildCallOutside(t: DataTree, r: Links, r': Links, s: ShapeId, i: int)
    requires Valid(t, r) && Keys(r') && s in r.nodeOf && 0 <= i < |r.children[s]|
    requires r.children[s][i] in r.nodeOf
    requires Outside(t, r, r', r.nodeOf[r.children[s][i]], r.uidOf[r.children[s][i]], r.children[s][i])
    ensures Outside(t, r, r', r.nodeOf[s], r.uidOf[s], s) && r'.children[s] == r.children[s]
    ensures forall j | 0 <= j < |r.children[s]| && j != i ::
      r.children[s][j] in r.nodeOf && Intact(t, r, r', r.nodeOf[r.children[s][j]], r.uidOf[r.children[s][j]])
  {
    var cs, c := r.children[s], r.children[s][i];
    var a, ac, u := r.nodeOf[s], r.nodeOf[c], r.uidOf[s];
    ChildRank(t, r, s, c);
    BeneathChild(t, r, s, c, a, u);
    forall y | y in r.nodeOf && !Beneath(t, r, y, a, u)
      ensures !Beneath(t, r, y, ac, u) && y != c
    {
      if Beneath(t, r, y, ac, u) {
        t.UnderTrans(a, ac, r.nodeOf[y]);
        t.UnderRank(ac, r.nodeOf[y]);
      }
    }
    forall j | 0 <= j < |cs| && j != i
      ensures cs[j] in r.nodeOf && Intact(t, r, r', r.nodeOf[cs[j]], r.uidOf[cs[j]])
    {
      var y := cs[j];
      assert y != c;
      ChildRank(t, r, s, y);
      forall z | z in r.nodeOf && r.uidOf[z] == r.uidOf[y] && t.Under(r.nodeOf[y], r.nodeOf[z])
        ensures !Beneath(t, r, z, ac, u) && z != c
      {
        SiblingApart(t, r, s, c, y, z);
      }
    }
  }

  /** A shape's children are shapes, listed once each. */
  lemma ChildrenIn(t: DataTree, r: Links, s: ShapeId)
    requires Valid(t, r) && s in r.nodeOf
    ensures Distinct(r.children[s]) && s !in r.children[s] && forall x | x in r.children[s] :: x in r.nodeOf
  {
    if s in r.rendered {
      NotOwnChild(t, r, s);
    }
    forall x | x in r.children[s] ensures x in r.nodeOf {
      ChildRank(t, r, s, x);
    }
  }

  /** Every shape of cs that is in keep or comes at or after lo keeps its
      part of the tree. */
  ghost predicate Pending(t: DataTree, r: Links, r': Links, cs: seq<ShapeId>, keep: seq<ShapeId>, lo: int)
    requires Keys(r) && Keys(r')
  {
    forall j | 0 <= j < |cs| && (lo <= j || cs[j] in keep) ::
      cs[j] in r.nodeOf && Intact(t, r, r', r.nodeOf[cs[j]], r.uidOf[cs[j]])
  }

  /** Every shape of cs before hi that is not in keep is still rendered,
      and lists the kept part of its former children when d <= 0, all of
      them otherwise. */
  ghost predicate Done(r: Links, r': Links, cs: seq<ShapeId>, keep: seq<ShapeId>, hi: int, d: int) {
    forall j | 0 <= j < hi && j < |cs| && cs[j] !in keep ::
      && cs[j] in r.children && cs[j] in r'.children && cs[j] in r'.rendered
      && r'.children[cs[j]] == if d <= 0 then Kept(r.children[cs[j]], keep) else r.children[cs[j]]
  }

  /** Every shape of cs from lo on that is not in keep is no longer
      rendered and has no children. */
  ghost predicate Gone(r': Links, cs: seq<ShapeId>, keep: seq<ShapeId>, lo: int) {
    forall j | 0 <= lo <= j < |cs| && cs[j] !in keep ::
      cs[j] !in r'.rendered && cs[j] in r'.children && r'.children[cs[j]] == []
  }

  lemma PendingStart(t: DataTree, r: Links, cs: seq<ShapeId>, keep: seq<ShapeId>, lo: int)
    requires Keys(r) && forall x | x in cs :: x in r.nodeOf
    ensures Pending(t, r, r, cs, keep, lo)
  {
  }

  lemma PendingTrans(t: DataTree, r: Links, r1: Links, r2: Links, cs: seq<ShapeId>, keep: seq<ShapeId>, lo: int)
    requires Keys(r) && Keys(r1) && Keys(r2) && r1.nodeOf == r.nodeOf && r1.uidOf == r.uidOf
    requires Pending(t, r, r1, cs, keep, lo) && Pending(t, r1, r2, cs, keep, lo)
    ensures Pending(t, r, r2, cs, keep, lo)
  {
    forall j | 0 <= j < |cs| && (lo <= j || cs[j] in keep)
      ensures Intact(t, r, r2, r.nodeOf[cs[j]], r.uidOf[cs[j]])
    {
      IntactTrans(t, r, r1, r2, r.nodeOf[cs[j]], r.uidOf[cs[j]]);
    }
  }

  /** One turn of the loop of `destroyDescendants` over s's children cs,
      for a child cs[i] not in keep whose call changed nothing outside its
      own part and left it the children d says. */
  lemma EachStep(t: DataTree, r0: Links, r1: Links, r2: Links, s: ShapeId, cs: seq<ShapeId>,
                 keep: seq<ShapeId>, i: int, d: int)
    requires Valid(t, r1) && Keys(r0) && Keys(r2) && Shrinks(r0, r1)
    requires s in r1.nodeOf && r1.children[s] == cs && 0 <= i < |cs| && cs[i] !in keep
    requires Pending(t, r0, r1, cs, keep, i) && Done(r0, r1, cs, keep, i, d)
    requires cs[i] in r1.nodeOf && Outside(t, r1, r2, r1.nodeOf[cs[i]], r1.uidOf[cs[i]], cs[i])
    requires r2.children[cs[i]] == if d <= 0 then Kept(r1.children[cs[i]], keep) else r1.children[cs[i]]
    ensures Pending(t, r0, r2, cs, keep, i + 1) && Done(r0, r2, cs, keep, i + 1, d)
    ensures Outside(t, r1, r2, r1.nodeOf[s], r1.uidOf[s], s) && r2.children[s] == cs
  {
    ChildCallOutside(t, r1, r2, s, i);
    ChildRank(t, r1, s, cs[i]);
    forall j | 0 <= j < |cs| && (i + 1 <= j || cs[j] in keep)
      ensures Intact(t, r0, r2, r0.nodeOf[cs[j]], r0.uidOf[cs[j]])
    {
      IntactTrans(t, r0, r1, r2, r0.nodeOf[cs[j]], r0.uidOf[cs[j]]);
    }
    forall j | 0 <= j < i + 1 && j < |cs| && cs[j] !in keep
      ensures cs[j] in r2.rendered && r2.children[cs[j]] == if d <= 0 then Kept(r0.children[cs[j]], keep) else r0.children[cs[j]]
    {
      if j == i {
        assert t.Under(r0.nodeOf[cs[i]], r0.nodeOf[cs[i]]);
      }
    }
  }

  /** A child in keep is skipped by the loop of `destroyDescendants`. */
  lemma EachSkip(t: DataTree, r0: Links, r1: Links, cs: seq<ShapeId>, keep: seq<ShapeId>, i: int, d: int)
    requires Keys(r0) && Keys(r1) && 0 <= i < |cs| && cs[i] in keep
    requires Pending(t, r0, r1, cs, keep, i) && Done(r0, r1, cs, keep, i, d)
    ensures Pending(t, r0, r1, cs, keep, i + 1) && Done(r0, r1, cs, keep, i + 1, d)
  {
  }

  /** One turn of the backwards loop of `destroyChildren` over s's former
      children cs, for a child cs[i - 1] not in keep that `remove()` took
      out of s's children. */
  lemma PruneStep(t: DataTree, r0: Links, r1: Links, r2: Links, s: ShapeId, cs: seq<ShapeId>,
                  keep: seq<ShapeId>, i: int)
    requires Keys(r0) && Keys(r1) && Keys(r2) && Shrinks(r0, r1) && Shrinks(r1, r2)
    requires s in r1.nodeOf && 0 < i <= |cs| && cs[i - 1] !in keep && Distinct(cs) && s !in cs
    requires r1.children[s] == cs[..i] + Kept(cs[i..], keep) && Distinct(r1.children[s])
    requires Pending(t, r0, r1, cs, keep, |cs|) && Gone(r1, cs, keep, i)
    requires Siblings(t, r1, r2, s, cs[i - 1]) && r2.rendered == r1.rendered - {cs[i - 1]}
    requires r2.children == r1.children[s := Without(r1.children[s], cs[i - 1])][cs[i - 1] := []]
    ensures Pending(t, r0, r2, cs, keep, |cs|) && Gone(r2, cs, keep, i - 1)
    ensures r2.children[s] == cs[..i - 1] + Kept(cs[i - 1..], keep)
  {
    KeptStep(cs, keep, i);
    PruneKeeps(t, r0, r1, r2, s, cs, keep, i);
    KeptSpec(cs[i..], keep);
    PruneGone(r1, r2, s, cs, keep, i);
  }

  lemma PruneKeeps(t: DataTree, r0: Links, r1: Links, r2: Links, s: ShapeId, cs: seq<ShapeId>,
                   keep: seq<ShapeId>, i: int)
    requires Keys(r0) && Keys(r1) && Keys(r2) && Shrinks(r0, r1)
    requires s in r1.children && 0 < i <= |cs| && cs[i - 1] !in keep
    requires r1.children[s] == cs[..i] + Kept(cs[i..], keep)
    requires Pending(t, r0, r1, cs, keep, |cs|) && Siblings(t, r1, r2, s, cs[i - 1])
    ensures Pending(t, r0, r2, cs, keep, |cs|)
  {
    forall j | 0 <= j < |cs| && cs[j] in keep
      ensures Intact(t, r0, r2, r0.nodeOf[cs[j]], r0.uidOf[cs[j]])
    {
      KeptIn(cs, keep, i, j);
      IntactTrans(t, r0, r1, r2, r0.nodeOf[cs[j]], r0.uidOf[cs[j]]);
    }
  }

  lemma KeptIn(cs: seq<ShapeId>, keep: seq<ShapeId>, i: int, j: int)
    requires 0 <= i <= |cs| && 0 <= j < |cs| && cs[j] in keep
    ensures cs[j] in cs[..i] + Kept(cs[i..], keep)
  {
    KeptSpec(cs[i..], keep);
    if j < i {
      assert cs[j] == cs[..i][j];
    } else {
      assert cs[j] == cs[i..][j - i];
    }
  }

  lemma PruneGone(r1: Links, r2: Links, s: ShapeId, cs: seq<ShapeId>, keep: seq<ShapeId>, i: int)
    requires s in r1.children && 0 < i <= |cs| && cs[i - 1] !in keep && Distinct(cs)
    requires s !in r1.children[s] && r1.children[s] == cs[..i] + Kept(cs[i..], keep)
    requires Gone(r1, cs, keep, i) && r2.rendered == r1.rendered - {cs[i - 1]}
    requires r2.children == r1.children[s := Without(r1.children[s], cs[i - 1])][cs[i - 1] := []]
    ensures Gone(r2, cs, keep, i - 1)
  {
    assert cs[i - 1] in r1.children[s] by {
      assert cs[i - 1] == cs[..i][i - 1];
    }
    forall j | 0 <= i - 1 <= j < |cs| && cs[j] !in keep
      ensures cs[j] !in r2.rendered && cs[j] in r2.children && r2.children[cs[j]] == []
    {
    }
  }

  /** What keeps the part at and below the node of s's parent q keeps the
      part at and below s's node, s's parent included. */
  lemma IntactBelow(t: DataTree, r: Links, r': Links, s: ShapeId, q: ShapeId)
    requires Valid(t, r) && Keys(r') && s in r.nodeOf && r.parent[s] == Some(q)
    requires q in r.nodeOf && Intact(t, r, r', r.nodeOf[q], r.uidOf[q])
    ensures Intact(t, r, r', r.nodeOf[s], r.uidOf[s]) && r'.parent[s] == r.parent[s]
    ensures (q in r'.rendered <==> q in r.rendered) && r'.children[q] == r.children[q]
  {
    ParentRank(t, r, s);
    var nq, ns := r.nodeOf[q], r.nodeOf[s];
    t.ParentFacts(ns);
    t.UnderStep(nq, ns);
    assert t.Under(nq, nq);
    forall y | y in r.nodeOf && r.uidOf[y] == r.uidOf[s] && t.Under(ns, r.nodeOf[y])
      ensures t.Under(nq, r.nodeOf[y]) && r.nodeOf[y] != nq
    {
      t.UnderTrans(nq, ns, r.nodeOf[y]);
      t.UnderRank(ns, r.nodeOf[y]);
    }
  }

  /** `remove()` on s's parent q leaves s without a parent and changes
      nothing else at or below s's node. */
  lemma RemoveParentIntact(t: DataTree, r: Links, s: ShapeId, q: ShapeId, r': Links)
    requires Valid(t, r) && s in r.nodeOf && r.parent[s] == Some(q)
    requires q in r.nodeOf && LinkedUp(r, q) && Unlinked(t, r, q, r')
    ensures Shrinks(r, r') && Intact(t, r, r', r.nodeOf[s], r.uidOf[s]) && r'.parent[s] == None
  {
    ParentRank(t, r, s);
    forall y | y in r.nodeOf && r.uidOf[y] == r.uidOf[s] && t.Under(r.nodeOf[s], r.nodeOf[y])
      ensures y != q && (r.parent[q].Some? ==> y != r.parent[q].value)
      ensures y in r.children[q] ==> r.nodeOf[y] == r.nodeOf[s]
    {
      BelowParent(t, r, s, q, y);
    }
    UnlinkedAbove(t, r, s, q, r');
  }

  lemma UnlinkedAbove(t: DataTree, r: Links, s: ShapeId, q: ShapeId, r': Links)
    requires Keys(r) && s in r.nodeOf && q in r.nodeOf && s in r.children[q]
    requires LinkedUp(r, q) && Unlinked(t, r, q, r')
    requires forall y | y in r.nodeOf && r.uidOf[y] == r.uidOf[s] && t.Under(r.nodeOf[s], r.nodeOf[y]) ::
      && y != q && (r.parent[q].Some? ==> y != r.parent[q].value)
      && (y in r.children[q] ==> r.nodeOf[y] == r.nodeOf[s])
    ensures Shrinks(r, r') && Intact(t, r, r', r.nodeOf[s], r.uidOf[s]) && r'.parent[s] == None
  {
  }

  /** A shape y at or below s's node is neither s's parent q nor q's
      parent, and is a child of q only at s's own node. */
  lemma BelowParent(t: DataTree, r: Links, s: ShapeId, q: ShapeId, y: ShapeId)
    requires Valid(t, r) && s in r.nodeOf && r.parent[s] == Some(q)
    requires y in r.nodeOf && t.Under(r.nodeOf[s], r.nodeOf[y])
    ensures y != q && (r.parent[q].Some? ==> y != r.parent[q].value)
    ensures y in r.children[q] ==> r.nodeOf[y] == r.nodeOf[s]
  {
    ParentRank(t, r, s);
    t.UnderRank(r.nodeOf[s], r.nodeOf[y]);
    if r.parent[q].Some? {
      ParentRank(t, r, q);
    }
    if y in r.children[q] {
      ChildRank(t, r, q, y);
    }
  }

  /** A shape with a parent shape is rendered and listed by its parent. */
  lemma ParentLists(t: DataTree, r: Links, s: ShapeId)
    requires Valid(t, r) && s in r.nodeOf && r.parent[s].Some?
    ensures s in r.rendered && s in r.children[r.parent[s].value]
  {
  }
}
