/** What the recursive teardowns remove and return, read off the links
    before the call. `destroyDescendants(depth, keep)` on a shape s walks
    down every child not in keep, one level less deep each time, and
    every shape it reaches with a depth at most 0 removes its children not
    in keep and returns the others. `destroyAncestors(depth, fully)` walks
    up the parent links. */
module Razing {
  import opened Util
  import opened DataTrees
  import opened NodeLinks
  import opened LinkGrow
  import opened LinkPrune
  import opened NodeQueries

  /** The shapes `destroyDescendants(d, keep)` on s removes. */
  ghost function Razed(t: DataTree, r: Links, s: ShapeId, d: int, keep: seq<ShapeId>): set<ShapeId>
    requires Ranked(t, r) && s in r.nodeOf
    decreases t.height - t.Rank(r.nodeOf[s]), 1
  {
    RazedOf(t, r, s, r.children[s], d - 1, keep) + (if d <= 0 then Dropped(r.children[s], keep) else {})
  }

  /** The shapes the calls on the listed children of s not in keep remove. */
  ghost function RazedOf(t: DataTree, r: Links, s: ShapeId, cs: seq<ShapeId>, d: int, keep: seq<ShapeId>): set<ShapeId>
    requires Ranked(t, r) && s in r.nodeOf && forall c | c in cs :: c in r.children[s]
    decreases t.height - t.Rank(r.nodeOf[s]), 0, |cs|
  {
    if cs == [] then {}
    else RazedOf(t, r, s, cs[..|cs| - 1], d, keep) + (if cs[|cs| - 1] in keep then {} else Razed(t, r, cs[|cs| - 1], d, keep))
  }

  /** The list `destroyDescendants(d, keep)` on s returns: the lists of the
      calls on its children not in keep, then, at depth at most 0, what
      `destroyChildren(keep)` leaves. */
  ghost function Survivors(t: DataTree, r: Links, s: ShapeId, d: int, keep: seq<ShapeId>): seq<ShapeId>
    requires Ranked(t, r) && s in r.nodeOf
    decreases t.height - t.Rank(r.nodeOf[s]), 1
  {
    SurvivorsOf(t, r, s, r.children[s], d - 1, keep) + (if d <= 0 then Kept(r.children[s], keep) else [])
  }

  /** The concatenated lists of the calls on the listed children of s not
      in keep. */
  ghost function SurvivorsOf(t: DataTree, r: Links, s: ShapeId, cs: seq<ShapeId>, d: int, keep: seq<ShapeId>): seq<ShapeId>
    requires Ranked(t, r) && s in r.nodeOf && forall c | c in cs :: c in r.children[s]
    decreases t.height - t.Rank(r.nodeOf[s]), 0, |cs|
  {
    if cs == [] then []
    else SurvivorsOf(t, r, s, cs[..|cs| - 1], d, keep) + (if cs[|cs| - 1] in keep then [] else Survivors(t, r, cs[|cs| - 1], d, keep))
  }

  /** s lies k parent links above x, and no shape strictly between the two
      is in keep. */
  ghost predicate OpenPath(r: Links, x: ShapeId, k: nat, s: ShapeId, keep: seq<ShapeId>) {
    && AncestorAt(r, x, k) == Some(s)
    && forall j | 1 <= j < k :: AncestorAt(r, x, j).Some? && AncestorAt(r, x, j).value !in keep
  }

  /** s lies more than d levels above x, with no shape in keep between
      them. */
  ghost predicate Deeper(r: Links, x: ShapeId, d: int, s: ShapeId, keep: seq<ShapeId>) {
    exists k: nat :: 1 <= k && d < k && OpenPath(r, x, k, s, keep)
  }

  // --------------------------------------------------------------------
  // Walking up the parent links.

  lemma {:induction false} AncestorAtSome(r: Links, x: ShapeId, k: nat)
    requires AncestorAt(r, x, k).Some?
    ensures forall j | 0 <= j <= k :: AncestorAt(r, x, j).Some?
    ensures 1 <= k ==> x in r.nodeOf
    decreases k
  {
    if k > 0 {
      AncestorAtSome(r, x, k - 1);
    }
  }

  /** k parent links up is k levels up in the data tree. */
  lemma {:induction false} AncestorAtRank(t: DataTree, r: Links, x: ShapeId, k: nat)
    requires Ranked(t, r) && x in r.nodeOf && AncestorAt(r, x, k).Some?
    ensures AncestorAt(r, x, k).value in r.nodeOf
    ensures t.Rank(r.nodeOf[AncestorAt(r, x, k).value]) + k == t.Rank(r.nodeOf[x])
    decreases k
  {
    if k > 0 {
      AncestorAtRank(t, r, x, k - 1);
    }
  }

  /** An ancestor lies on a higher level. */
  lemma {:induction false} AncestorsLower(t: DataTree, r: Links, s: ShapeId, d: Depth, x: ShapeId)
    requires Ranked(t, r) && s in r.nodeOf && x in Ancestors(t, r, s, d)
    ensures x in r.nodeOf && t.Rank(r.nodeOf[x]) < t.Rank(r.nodeOf[s])
    decreases t.Rank(r.nodeOf[s])
  {
    var p := r.parent[s].value;
    if x != p {
      AncestorsLower(t, r, p, d.Less(), x);
    }
  }

  /** A shape reached from a child c of s not in keep is reached from s
      one level further up. */
  lemma PathUp(r: Links, x: ShapeId, k: nat, c: ShapeId, s: ShapeId, keep: seq<ShapeId>)
    requires OpenPath(r, x, k, c, keep) && c !in keep && c in r.nodeOf && c in r.parent && r.parent[c] == Some(s)
    ensures OpenPath(r, x, k + 1, s, keep)
  {
    assert AncestorAt(r, x, k + 1) == Some(s);
  }

  /** A shape deeper than d - 1 below a child c of s not in keep is
      deeper than d below s. */
  lemma DeeperUp(r: Links, x: ShapeId, d: int, c: ShapeId, s: ShapeId, keep: seq<ShapeId>)
    requires Deeper(r, x, d - 1, c, keep) && c !in keep && c in r.nodeOf && c in r.parent && r.parent[c] == Some(s)
    ensures Deeper(r, x, d, s, keep)
  {
    var k: nat :| 1 <= k && d - 1 < k && OpenPath(r, x, k, c, keep);
    PathUp(r, x, k, c, s, keep);
  }

  /** A child of s is reached from s in one step. */
  lemma PathChild(t: DataTree, r: Links, x: ShapeId, s: ShapeId, keep: seq<ShapeId>)
    requires Ranked(t, r) && s in r.nodeOf && x in r.children[s]
    ensures OpenPath(r, x, 1, s, keep)
  {
    assert AncestorAt(r, x, 1) == Some(s);
  }

  /** The first step down an open path from s: a child y of s, which is
      x itself at the end of the path and otherwise a shape not in keep
      with the rest of the path below it. */
  lemma PathDown(t: DataTree, r: Links, x: ShapeId, k: nat, s: ShapeId, keep: seq<ShapeId>) returns (y: ShapeId)
    requires Ranked(t, r) && s in r.nodeOf && 1 <= k && OpenPath(r, x, k, s, keep)
    ensures y in r.children[s] && y in r.nodeOf
    ensures k == 1 ==> y == x
    ensures k > 1 ==> y !in keep && OpenPath(r, x, k - 1, y, keep)
  {
    AncestorAtSome(r, x, k);
    y := AncestorAt(r, x, k - 1).value;
    assert y in r.nodeOf && r.parent[y] == Some(s);
  }

  // --------------------------------------------------------------------
  // What destroyDescendants removes and returns.

  /** A shape removed by the calls on cs is removed by the call on one of
      them not in keep. */
  lemma {:induction false} RazedOfPick(t: DataTree, r: Links, s: ShapeId, cs: seq<ShapeId>, d: int, keep: seq<ShapeId>,
                                       x: ShapeId) returns (c: ShapeId)
    requires Ranked(t, r) && s in r.nodeOf && forall c | c in cs :: c in r.children[s]
    requires x in RazedOf(t, r, s, cs, d, keep)
    ensures c in cs && c in r.nodeOf && c !in keep && x in Razed(t, r, c, d, keep)
    decreases |cs|
  {
    var last := cs[|cs| - 1];
    if last in keep || x !in Razed(t, r, last, d, keep) {
      c := RazedOfPick(t, r, s, cs[..|cs| - 1], d, keep, x);
    } else {
      c := last;
    }
  }

  /** A shape removed by the call on one of cs not in keep is removed by
      the calls on cs. */
  lemma {:induction false} RazedOfHas(t: DataTree, r: Links, s: ShapeId, cs: seq<ShapeId>, d: int, keep: seq<ShapeId>,
                                      x: ShapeId, c: ShapeId)
    requires Ranked(t, r) && s in r.nodeOf && forall c | c in cs :: c in r.children[s]
    requires c in cs && c in r.nodeOf && c !in keep && x in Razed(t, r, c, d, keep)
    ensures x in RazedOf(t, r, s, cs, d, keep)
    decreases |cs|
  {
    if c != cs[|cs| - 1] {
      assert c in cs[..|cs| - 1];
      RazedOfHas(t, r, s, cs[..|cs| - 1], d, keep, x, c);
    }
  }

  /** A shape returned by the calls on cs is returned by the call on one
      of them not in keep. */
  lemma {:induction false} SurvivorsOfPick(t: DataTree, r: Links, s: ShapeId, cs: seq<ShapeId>, d: int, keep: seq<ShapeId>,
                                           x: ShapeId) returns (c: ShapeId)
    requires Ranked(t, r) && s in r.nodeOf && forall c | c in cs :: c in r.children[s]
    requires x in SurvivorsOf(t, r, s, cs, d, keep)
    ensures c in cs && c in r.nodeOf && c !in keep && x in Survivors(t, r, c, d, keep)
    decreases |cs|
  {
    var last := cs[|cs| - 1];
    if last in keep || x !in Survivors(t, r, last, d, keep) {
      c := SurvivorsOfPick(t, r, s, cs[..|cs| - 1], d, keep, x);
    } else {
      c := last;
    }
  }

  /** A shape returned by the call on one of cs not in keep is returned by
      the calls on cs. */
  lemma {:induction false} SurvivorsOfHas(t: DataTree, r: Links, s: ShapeId, cs: seq<ShapeId>, d: int, keep: seq<ShapeId>,
                                          x: ShapeId, c: ShapeId)
    requires Ranked(t, r) && s in r.nodeOf && forall c | c in cs :: c in r.children[s]
    requires c in cs && c in r.nodeOf && c !in keep && x in Survivors(t, r, c, d, keep)
    ensures x in SurvivorsOf(t, r, s, cs, d, keep)
    decreases |cs|
  {
    if c != cs[|cs| - 1] {
      assert c in cs[..|cs| - 1];
      SurvivorsOfHas(t, r, s, cs[..|cs| - 1], d, keep, x, c);
    }
  }

  /** A removed shape is not in keep and lies more than d levels below s,
      with no shape in keep between them. */
  lemma {:induction false} RazedBelow(t: DataTree, r: Links, s: ShapeId, d: int, keep: seq<ShapeId>, x: ShapeId)
    requires Ranked(t, r) && s in r.nodeOf && x in Razed(t, r, s, d, keep)
    ensures x !in keep && Deeper(r, x, d, s, keep)
    decreases t.height - t.Rank(r.nodeOf[s])
  {
    var cs := r.children[s];
    if x in RazedOf(t, r, s, cs, d - 1, keep) {
      var c := RazedOfPick(t, r, s, cs, d - 1, keep, x);
      RazedBelow(t, r, c, d - 1, keep, x);
      DeeperUp(r, x, d, c, s, keep);
    } else {
      PathChild(t, r, x, s, keep);
      assert 1 <= 1 && d < 1;
    }
  }

  /** A shape not in keep that lies more than d levels below s, with no
      shape in keep between them, is removed. */
  lemma {:induction false} BelowRazed(t: DataTree, r: Links, s: ShapeId, d: int, keep: seq<ShapeId>, x: ShapeId, k: nat)
    requires Ranked(t, r) && s in r.nodeOf && x !in keep && 1 <= k && d < k && OpenPath(r, x, k, s, keep)
    ensures x in Razed(t, r, s, d, keep)
    decreases k
  {
    var y := PathDown(t, r, x, k, s, keep);
    if k > 1 {
      BelowRazed(t, r, y, d - 1, keep, x, k - 1);
      RazedOfHas(t, r, s, r.children[s], d - 1, keep, x, y);
    }
  }

  /** x is removed exactly when it is not in keep and lies more than d
      levels below s with no shape in keep between them. */
  lemma RazedSpec(t: DataTree, r: Links, s: ShapeId, d: int, keep: seq<ShapeId>, x: ShapeId)
    requires Ranked(t, r) && s in r.nodeOf
    ensures x in Razed(t, r, s, d, keep) <==>
      x !in keep && exists k: nat :: 1 <= k && d < k && OpenPath(r, x, k, s, keep)
  {
    if x in Razed(t, r, s, d, keep) {
      RazedBelow(t, r, s, d, keep, x);
    }
    if x !in keep && exists k: nat :: 1 <= k && d < k && OpenPath(r, x, k, s, keep) {
      var k: nat :| 1 <= k && d < k && OpenPath(r, x, k, s, keep);
      BelowRazed(t, r, s, d, keep, x, k);
    }
  }

  /** With nothing kept, the shapes removed are exactly the descendants of
      s below the d levels it keeps. */
  lemma RazedEverything(t: DataTree, r: Links, s: ShapeId, d: int, x: ShapeId)
    requires Ranked(t, r) && s in r.nodeOf
    ensures x in Razed(t, r, s, d, []) <==>
      x in Descendants(t, r, s, Unlimited) && x !in Descendants(t, r, s, Levels(d))
  {
    RazedSpec(t, r, s, d, [], x);
    DescendantsSpec(t, r, s, Unlimited, x);
    DescendantsSpec(t, r, s, Levels(d), x);
    if x in Razed(t, r, s, d, []) {
      var k: nat :| 1 <= k && d < k && OpenPath(r, x, k, s, []);
      assert AncestorAt(r, x, k) == Some(s) && Unlimited.Covers(k);
      if x in Descendants(t, r, s, Levels(d)) {
        var k': nat :| 1 <= k' && Levels(d).Covers(k') && AncestorAt(r, x, k') == Some(s);
        AncestorAtSome(r, x, k);
        AncestorAtRank(t, r, x, k);
        AncestorAtRank(t, r, x, k');
        assert false;
      }
    }
    if x in Descendants(t, r, s, Unlimited) && x !in Descendants(t, r, s, Levels(d)) {
      var k: nat :| 1 <= k && Unlimited.Covers(k) && AncestorAt(r, x, k) == Some(s);
      AncestorAtSome(r, x, k);
      assert OpenPath(r, x, k, s, []);
      BelowRazed(t, r, s, d, [], x, k);
    }
  }

  /** A shape returned comes from a call on a child or is a child kept. */
  lemma SurvivorsSplit(t: DataTree, r: Links, s: ShapeId, d: int, keep: seq<ShapeId>, x: ShapeId)
    requires Ranked(t, r) && s in r.nodeOf && x in Survivors(t, r, s, d, keep)
    ensures x in SurvivorsOf(t, r, s, r.children[s], d - 1, keep) || (d <= 0 && x in Kept(r.children[s], keep))
  {
  }

  /** A shape returned is in keep and lies more than d levels below s,
      with no shape in keep between them. */
  lemma {:induction false} SurvivorsBelow(t: DataTree, r: Links, s: ShapeId, d: int, keep: seq<ShapeId>, x: ShapeId)
    requires Ranked(t, r) && s in r.nodeOf && x in Survivors(t, r, s, d, keep)
    ensures x in keep && Deeper(r, x, d, s, keep)
    decreases t.height - t.Rank(r.nodeOf[s])
  {
    var cs := r.children[s];
    SurvivorsSplit(t, r, s, d, keep, x);
    if x in SurvivorsOf(t, r, s, cs, d - 1, keep) {
      var c := SurvivorsOfPick(t, r, s, cs, d - 1, keep, x);
      SurvivorsBelow(t, r, c, d - 1, keep, x);
      DeeperUp(r, x, d, c, s, keep);
    } else {
      KeptChild(t, r, s, keep, x);
      assert 1 <= 1 && d < 1;
    }
  }

  /** A child kept is reached from its parent in one step. */
  lemma KeptChild(t: DataTree, r: Links, s: ShapeId, keep: seq<ShapeId>, x: ShapeId)
    requires Ranked(t, r) && s in r.nodeOf && x in Kept(r.children[s], keep)
    ensures x in keep && OpenPath(r, x, 1, s, keep)
  {
    KeptSpec(r.children[s], keep);
    PathChild(t, r, x, s, keep);
  }

  /** A shape in keep that lies more than d levels below s, with no shape
      in keep between them, is returned. */
  lemma {:induction false} BelowSurvivors(t: DataTree, r: Links, s: ShapeId, d: int, keep: seq<ShapeId>, x: ShapeId, k: nat)
    requires Ranked(t, r) && s in r.nodeOf && x in keep && 1 <= k && d < k && OpenPath(r, x, k, s, keep)
    ensures x in Survivors(t, r, s, d, keep)
    decreases k
  {
    var y := PathDown(t, r, x, k, s, keep);
    if k > 1 {
      BelowSurvivors(t, r, y, d - 1, keep, x, k - 1);
      SurvivorsOfHas(t, r, s, r.children[s], d - 1, keep, x, y);
    } else {
      KeptSpec(r.children[s], keep);
    }
    SurvivorsJoin(t, r, s, d, keep, x);
  }

  /** A shape returned by a call on a child, or a child kept at depth at
      most 0, is returned. */
  lemma SurvivorsJoin(t: DataTree, r: Links, s: ShapeId, d: int, keep: seq<ShapeId>, x: ShapeId)
    requires Ranked(t, r) && s in r.nodeOf
    requires x in SurvivorsOf(t, r, s, r.children[s], d - 1, keep) || (d <= 0 && x in Kept(r.children[s], keep))
    ensures x in Survivors(t, r, s, d, keep)
  {
  }

  /** x is returned exactly when it is in keep and lies more than d levels
      below s with no shape in keep between them: the shapes reached split
      into the removed ones and the returned ones by keep. */
  lemma SurvivorsSpec(t: DataTree, r: Links, s: ShapeId, d: int, keep: seq<ShapeId>, x: ShapeId)
    requires Ranked(t, r) && s in r.nodeOf
    ensures x in Survivors(t, r, s, d, keep) <==>
      x in keep && exists k: nat :: 1 <= k && d < k && OpenPath(r, x, k, s, keep)
  {
    if x in Survivors(t, r, s, d, keep) {
      SurvivorsBelow(t, r, s, d, keep, x);
    }
    if x in keep && exists k: nat :: 1 <= k && d < k && OpenPath(r, x, k, s, keep) {
      var k: nat :| 1 <= k && d < k && OpenPath(r, x, k, s, keep);
      BelowSurvivors(t, r, s, d, keep, x, k);
    }
  }

  /** With nothing kept nothing is returned. */
  lemma SurvivorsNone(t: DataTree, r: Links, s: ShapeId, d: int)
    requires Ranked(t, r) && s in r.nodeOf
    ensures Survivors(t, r, s, d, []) == []
  {
    var ret := Survivors(t, r, s, d, []);
    if ret != [] {
      SurvivorsSpec(t, r, s, d, [], ret[0]);
    }
  }

  /** What a parent q destroying its descendants but its child s removes
      lies below q and outside s's subtree. */
  lemma SiblingsRazedOutside(t: DataTree, r: Links, q: ShapeId, s: ShapeId, x: ShapeId)
    requires Ranked(t, r) && q in r.nodeOf && s in r.children[q] && x in Razed(t, r, q, 0, [s])
    ensures x in Descendants(t, r, q, Unlimited) && x != s && x !in Descendants(t, r, s, Unlimited)
  {
    RazedBelow(t, r, q, 0, [s], x);
    var k: nat :| 1 <= k && 0 < k && OpenPath(r, x, k, q, [s]);
    BelowDescendants(t, r, q, Unlimited, x, k);
    if x in Descendants(t, r, s, Unlimited) {
      DescendantsBelow(t, r, s, Unlimited, x);
      var k': nat :| 1 <= k' && Unlimited.Covers(k') && AncestorAt(r, x, k') == Some(s);
      AncestorAtSome(r, x, k);
      AncestorAtRank(t, r, x, k);
      AncestorAtRank(t, r, x, k');
      assert false;
    }
  }

  /** Every descendant of q outside s's subtree is removed. */
  lemma SiblingsOutsideRazed(t: DataTree, r: Links, q: ShapeId, s: ShapeId, x: ShapeId)
    requires Ranked(t, r) && q in r.nodeOf && s in r.children[q]
    requires x in Descendants(t, r, q, Unlimited) && x != s && x !in Descendants(t, r, s, Unlimited)
    ensures x in Razed(t, r, q, 0, [s])
  {
    DescendantsBelow(t, r, q, Unlimited, x);
    var k: nat :| 1 <= k && Unlimited.Covers(k) && AncestorAt(r, x, k) == Some(q);
    AncestorAtSome(r, x, k);
    forall j | 1 <= j < k
      ensures AncestorAt(r, x, j).Some? && AncestorAt(r, x, j).value !in [s]
    {
      if AncestorAt(r, x, j) == Some(s) {
        BelowDescendants(t, r, s, Unlimited, x, j);
      }
    }
    BelowRazed(t, r, q, 0, [s], x, k);
  }

  /** A parent q destroying its descendants but its child s removes
      exactly its descendants outside s's subtree. */
  lemma SiblingsRazed(t: DataTree, r: Links, q: ShapeId, s: ShapeId, x: ShapeId)
    requires Ranked(t, r) && q in r.nodeOf && s in r.children[q]
    ensures s in r.nodeOf
    ensures x in Razed(t, r, q, 0, [s]) <==>
      x in Descendants(t, r, q, Unlimited) && x != s && x !in Descendants(t, r, s, Unlimited)
  {
    if x in Razed(t, r, q, 0, [s]) {
      SiblingsRazedOutside(t, r, q, s, x);
    }
    if x in Descendants(t, r, q, Unlimited) && x != s && x !in Descendants(t, r, s, Unlimited) {
      SiblingsOutsideRazed(t, r, q, s, x);
    }
  }

  /** A shape returned is in keep and on a lower level. */
  lemma SurvivorsRank(t: DataTree, r: Links, c: ShapeId, d: int, keep: seq<ShapeId>, x: ShapeId)
    requires Ranked(t, r) && c in r.nodeOf && x in Survivors(t, r, c, d, keep)
    ensures x in keep && x in r.nodeOf && t.Rank(r.nodeOf[c]) < t.Rank(r.nodeOf[x])
  {
    SurvivorsBelow(t, r, c, d, keep, x);
    var k: nat :| 1 <= k && d < k && OpenPath(r, x, k, c, keep);
    AncestorAtSome(r, x, k);
    AncestorAtRank(t, r, x, k);
  }

  /** No shape below a child of q other than s is s. */
  lemma SiblingsReturnNothing(t: DataTree, r: Links, q: ShapeId, s: ShapeId)
    requires Ranked(t, r) && q in r.nodeOf && s in r.children[q]
    ensures SurvivorsOf(t, r, q, r.children[q], -1, [s]) == []
  {
    var cs := r.children[q];
    var before := SurvivorsOf(t, r, q, cs, -1, [s]);
    if before != [] {
      var x := before[0];
      var c := SurvivorsOfPick(t, r, q, cs, -1, [s], x);
      assert r.parent[c] == Some(q) && r.parent[s] == Some(q);
      assert t.Rank(r.nodeOf[c]) == t.Rank(r.nodeOf[s]);
      SurvivorsRank(t, r, c, -1, [s], x);
      assert false;
    }
  }

  /** A parent q destroying its descendants but its child s returns just
      s. */
  lemma SiblingsSurvivors(t: DataTree, r: Links, q: ShapeId, s: ShapeId)
    requires Ranked(t, r) && q in r.nodeOf && s in r.children[q] && Distinct(r.children[q])
    ensures Survivors(t, r, q, 0, [s]) == [s]
  {
    SiblingsReturnNothing(t, r, q, s);
    KeptOne(r.children[q], s);
  }

  // --------------------------------------------------------------------
  // Frames: the walks read only the part below the shape.

  /** The part of context u at and below node a is closed under children. */
  ghost predicate Closed(t: DataTree, r: Links, a: Node, u: UID)
    requires Keys(r)
  {
    forall y, c | y in r.nodeOf && r.uidOf[y] == u && t.Under(a, r.nodeOf[y]) && c in r.children[y] ::
      c in r.nodeOf && r.uidOf[c] == u && t.Under(a, r.nodeOf[c])
  }

  lemma ValidClosed(t: DataTree, r: Links, a: Node, u: UID)
    requires Valid(t, r)
    ensures Closed(t, r, a, u)
  {
    forall y, c | y in r.nodeOf && r.uidOf[y] == u && t.Under(a, r.nodeOf[y]) && c in r.children[y]
      ensures c in r.nodeOf && r.uidOf[c] == u && t.Under(a, r.nodeOf[c])
    {
      BeneathChild(t, r, y, c, a, u);
    }
  }

  /** A child of a shape of the closed part lies in that part, one level
      lower. */
  lemma ClosedChild(t: DataTree, r: Links, a: Node, u: UID, s: ShapeId, c: ShapeId)
    requires Ranked(t, r) && Keys(r) && Closed(t, r, a, u)
    requires s in r.nodeOf && r.uidOf[s] == u && t.Under(a, r.nodeOf[s]) && c in r.children[s]
    ensures c in r.nodeOf && r.uidOf[c] == u && t.Under(a, r.nodeOf[c])
    ensures t.Rank(r.nodeOf[c]) == t.Rank(r.nodeOf[s]) + 1
  {
    assert r.parent[c] == Some(s);
  }

  /** Two link states have the same shapes and agree on the children of
      every shape of context u at and below node a. */
  ghost predicate Agree(t: DataTree, r0: Links, r1: Links, a: Node, u: UID)
    requires Keys(r0)
  {
    && r1.nodeOf == r0.nodeOf
    && forall y | y in r0.nodeOf && r0.uidOf[y] == u && t.Under(a, r0.nodeOf[y]) :: y in r1.children && r1.children[y] == r0.children[y]
  }

  /** A change that keeps the part intact agrees on it. */
  lemma IntactAgree(t: DataTree, r0: Links, r1: Links, a: Node, u: UID)
    requires Keys(r0) && Keys(r1) && Intact(t, r0, r1, a, u)
    ensures Agree(t, r0, r1, a, u)
  {
  }

  /** The walk down from a shape of the part of context u below node a
      removes the same shapes in two link states that agree on that part. */
  lemma {:induction false} RazedIntact(t: DataTree, r0: Links, r1: Links, a: Node, u: UID, s: ShapeId, d: int, keep: seq<ShapeId>)
    requires Ranked(t, r0) && Ranked(t, r1) && Keys(r0) && Closed(t, r0, a, u) && Agree(t, r0, r1, a, u)
    requires s in r0.nodeOf && r0.uidOf[s] == u && t.Under(a, r0.nodeOf[s])
    ensures s in r1.nodeOf
    ensures Razed(t, r0, s, d, keep) == Razed(t, r1, s, d, keep)
    decreases t.height - t.Rank(r0.nodeOf[s]), 1
  {
    assert r1.children[s] == r0.children[s];
    RazedOfIntact(t, r0, r1, a, u, s, r0.children[s], d - 1, keep);
  }

  lemma {:induction false} RazedOfIntact(t: DataTree, r0: Links, r1: Links, a: Node, u: UID, s: ShapeId,
                                         cs: seq<ShapeId>, d: int, keep: seq<ShapeId>)
    requires Ranked(t, r0) && Ranked(t, r1) && Keys(r0) && Closed(t, r0, a, u) && Agree(t, r0, r1, a, u)
    requires s in r0.nodeOf && r0.uidOf[s] == u && t.Under(a, r0.nodeOf[s])
    requires forall c | c in cs :: c in r0.children[s]
    ensures s in r1.nodeOf && forall c | c in cs :: c in r1.children[s]
    ensures RazedOf(t, r0, s, cs, d, keep) == RazedOf(t, r1, s, cs, d, keep)
    decreases t.height - t.Rank(r0.nodeOf[s]), 0, |cs|
  {
    assert r1.children[s] == r0.children[s];
    if cs != [] {
      var c := cs[|cs| - 1];
      assert c in cs && forall y | y in cs[..|cs| - 1] :: y in cs;
      if c !in keep {
        ClosedChild(t, r0, a, u, s, c);
        RazedIntact(t, r0, r1, a, u, c, d, keep);
      }
      RazedOfIntact(t, r0, r1, a, u, s, cs[..|cs| - 1], d, keep);
    }
  }

  /** The walk down from a shape of the part of context u below node a
      returns the same list in two link states that agree on that part. */
  lemma {:induction false} SurvivorsIntact(t: DataTree, r0: Links, r1: Links, a: Node, u: UID, s: ShapeId, d: int, keep: seq<ShapeId>)
    requires Ranked(t, r0) && Ranked(t, r1) && Keys(r0) && Closed(t, r0, a, u) && Agree(t, r0, r1, a, u)
    requires s in r0.nodeOf && r0.uidOf[s] == u && t.Under(a, r0.nodeOf[s])
    ensures s in r1.nodeOf
    ensures Survivors(t, r0, s, d, keep) == Survivors(t, r1, s, d, keep)
    decreases t.height - t.Rank(r0.nodeOf[s]), 1
  {
    assert r1.children[s] == r0.children[s];
    SurvivorsOfIntact(t, r0, r1, a, u, s, r0.children[s], d - 1, keep);
  }

  lemma {:induction false} SurvivorsOfIntact(t: DataTree, r0: Links, r1: Links, a: Node, u: UID, s: ShapeId,
                                             cs: seq<ShapeId>, d: int, keep: seq<ShapeId>)
    requires Ranked(t, r0) && Ranked(t, r1) && Keys(r0) && Closed(t, r0, a, u) && Agree(t, r0, r1, a, u)
    requires s in r0.nodeOf && r0.uidOf[s] == u && t.Under(a, r0.nodeOf[s])
    requires forall c | c in cs :: c in r0.children[s]
    ensures s in r1.nodeOf && forall c | c in cs :: c in r1.children[s]
    ensures SurvivorsOf(t, r0, s, cs, d, keep) == SurvivorsOf(t, r1, s, cs, d, keep)
    decreases t.height - t.Rank(r0.nodeOf[s]), 0, |cs|
  {
    assert r1.children[s] == r0.children[s];
    if cs != [] {
      var c := cs[|cs| - 1];
      assert c in cs && forall y | y in cs[..|cs| - 1] :: y in cs;
      if c !in keep {
        ClosedChild(t, r0, a, u, s, c);
        SurvivorsIntact(t, r0, r1, a, u, c, d, keep);
      }
      SurvivorsOfIntact(t, r0, r1, a, u, s, cs[..|cs| - 1], d, keep);
    }
  }

  /** A call on a shape c whose part the earlier changes left intact
      removes and returns what it would have before them. */
  lemma CallIntact(t: DataTree, r0: Links, r1: Links, c: ShapeId, d: int, keep: seq<ShapeId>)
    requires Valid(t, r0) && Ranked(t, r0) && Ranked(t, r1) && Keys(r1)
    requires c in r0.nodeOf && Intact(t, r0, r1, r0.nodeOf[c], r0.uidOf[c])
    ensures c in r1.nodeOf
    ensures Razed(t, r1, c, d, keep) == Razed(t, r0, c, d, keep)
    ensures Survivors(t, r1, c, d, keep) == Survivors(t, r0, c, d, keep)
  {
    var a, u := r0.nodeOf[c], r0.uidOf[c];
    ValidClosed(t, r0, a, u);
    IntactAgree(t, r0, r1, a, u);
    RazedIntact(t, r0, r1, a, u, c, d, keep);
    SurvivorsIntact(t, r0, r1, a, u, c, d, keep);
  }

  /** `destroyDescendants(d, keep)` on s removes what its loop over the
      children removes and, at depth at most 0, the children not in keep;
      it returns what the loop returns, then the children kept. */
  lemma RazedFinish(t: DataTree, r0: Links, r1: Links, r2: Links, s: ShapeId, d: int, keep: seq<ShapeId>,
                    ret: seq<ShapeId>, more: seq<ShapeId>)
    requires Ranked(t, r0) && s in r0.nodeOf
    requires r1.rendered == r0.rendered - RazedOf(t, r0, s, r0.children[s], d - 1, keep)
    requires ret == SurvivorsOf(t, r0, s, r0.children[s], d - 1, keep)
    requires d <= 0 ==> r2.rendered == r1.rendered - Dropped(r0.children[s], keep) && more == Kept(r0.children[s], keep)
    requires d > 0 ==> r2.rendered == r1.rendered && more == []
    ensures r2.rendered == r0.rendered - Razed(t, r0, s, d, keep)
    ensures ret + more == Survivors(t, r0, s, d, keep)
  {
  }

  /** One turn of the loop of `destroyDescendants()` over s's children
      cs adds what the call on cs[i] removes and returns, unless cs[i] is
      in keep. */
  lemma EachTurn(t: DataTree, r: Links, s: ShapeId, cs: seq<ShapeId>, keep: seq<ShapeId>, i: int, d: int)
    requires Ranked(t, r) && s in r.nodeOf && r.children[s] == cs && 0 <= i < |cs|
    ensures cs[i] in r.nodeOf && (forall c | c in cs[..i] :: c in cs) && forall c | c in cs[..i + 1] :: c in cs
    ensures RazedOf(t, r, s, cs[..i + 1], d, keep) ==
      RazedOf(t, r, s, cs[..i], d, keep) + (if cs[i] in keep then {} else Razed(t, r, cs[i], d, keep))
    ensures SurvivorsOf(t, r, s, cs[..i + 1], d, keep) ==
      SurvivorsOf(t, r, s, cs[..i], d, keep) + (if cs[i] in keep then [] else Survivors(t, r, cs[i], d, keep))
  {
    assert cs[..i + 1][..i] == cs[..i] && cs[..i + 1][i] == cs[i];
  }

  /** The loop of `destroyDescendants()` over s's children cs has done
      cs[..i] and, from the links r0 before the loop to the links r now,
      removed and returned what the calls on those children would have
      on r0. */
  ghost predicate Swept(t: DataTree, r0: Links, r: Links, s: ShapeId, cs: seq<ShapeId>, keep: seq<ShapeId>,
                        d: int, i: int, ret: seq<ShapeId>)
  {
    && Ranked(t, r0) && s in r0.nodeOf && r0.children[s] == cs && 0 <= i <= |cs|
    && (forall c | c in cs[..i] :: c in cs)
    && r.rendered == r0.rendered - RazedOf(t, r0, s, cs[..i], d, keep)
    && ret == SurvivorsOf(t, r0, s, cs[..i], d, keep)
  }

  lemma SweptStart(t: DataTree, r0: Links, s: ShapeId, keep: seq<ShapeId>, d: int)
    requires Ranked(t, r0) && s in r0.nodeOf
    ensures Swept(t, r0, r0, s, r0.children[s], keep, d, 0, [])
  {
    assert r0.children[s][..0] == [];
  }

  lemma SweptEnd(t: DataTree, r0: Links, r: Links, s: ShapeId, cs: seq<ShapeId>, keep: seq<ShapeId>,
                 d: int, ret: seq<ShapeId>)
    requires Swept(t, r0, r, s, cs, keep, d, |cs|, ret)
    ensures r.rendered == r0.rendered - RazedOf(t, r0, s, r0.children[s], d, keep)
    ensures ret == SurvivorsOf(t, r0, s, r0.children[s], d, keep)
  {
    assert cs[..|cs|] == cs;
  }

  /** The call on a child cs[i] not in keep, made on the links r1 the
      earlier turns left with cs[i]'s part intact, removes and returns what
      it would have on r0. */
  lemma SweptCall(t: DataTree, r0: Links, r1: Links, r2: Links, s: ShapeId, cs: seq<ShapeId>, keep: seq<ShapeId>,
                  d: int, i: int, ret: seq<ShapeId>, more: seq<ShapeId>)
    requires Valid(t, r0) && Swept(t, r0, r1, s, cs, keep, d, i, ret) && i < |cs| && cs[i] !in keep
    requires Ranked(t, r1) && Keys(r1) && Pending(t, r0, r1, cs, keep, i) && cs[i] in r1.nodeOf
    requires r2.rendered == r1.rendered - Razed(t, r1, cs[i], d, keep) && more == Survivors(t, r1, cs[i], d, keep)
    ensures Swept(t, r0, r2, s, cs, keep, d, i + 1, ret + more)
  {
    assert cs[i] in r0.nodeOf && Intact(t, r0, r1, r0.nodeOf[cs[i]], r0.uidOf[cs[i]]);
    CallIntact(t, r0, r1, cs[i], d, keep);
    SweptAdd(t, r0, r1, r2, s, cs, keep, d, i, ret, more);
  }

  /** A child not in keep adds what its call removes and returns on r0. */
  lemma SweptAdd(t: DataTree, r0: Links, r1: Links, r2: Links, s: ShapeId, cs: seq<ShapeId>, keep: seq<ShapeId>,
                 d: int, i: int, ret: seq<ShapeId>, more: seq<ShapeId>)
    requires Swept(t, r0, r1, s, cs, keep, d, i, ret) && i < |cs| && cs[i] !in keep && cs[i] in r0.nodeOf
    requires r2.rendered == r1.rendered - Razed(t, r0, cs[i], d, keep) && more == Survivors(t, r0, cs[i], d, keep)
    ensures Swept(t, r0, r2, s, cs, keep, d, i + 1, ret + more)
  {
    EachTurn(t, r0, s, cs, keep, i, d);
  }

  /** A child in keep adds nothing. */
  lemma SweptSkip(t: DataTree, r0: Links, r: Links, s: ShapeId, cs: seq<ShapeId>, keep: seq<ShapeId>,
                  d: int, i: int, ret: seq<ShapeId>)
    requires Swept(t, r0, r, s, cs, keep, d, i, ret) && i < |cs| && cs[i] in keep
    ensures Swept(t, r0, r, s, cs, keep, d, i + 1, ret)
  {
    EachTurn(t, r0, s, cs, keep, i, d);
  }

  // --------------------------------------------------------------------
  // What destroyAncestors returns.

  /** The list `destroyAncestors(d, fully)` on s returns: nothing without
      a parent q; otherwise s when fully (q keeps it and returns it), then
      q's own list one level less deep, then q when it goes. */
  ghost function Ascent(t: DataTree, r: Links, s: ShapeId, d: int, fully: bool): seq<ShapeId>
    requires Ranked(t, r) && s in r.nodeOf
    decreases t.Rank(r.nodeOf[s])
  {
    match r.parent[s]
    case None => []
    case Some(q) =>
      (if fully then [s] else []) + Ascent(t, r, q, d - 1, fully) + (if d <= 0 then [q] else [])
  }

  /** `destroyAncestors(d, fully)` on s with a parent returns what q's
      `fully` step and q's own call return, then q when it goes. */
  lemma AscentStep(t: DataTree, r: Links, s: ShapeId, d: int, fully: bool, q: ShapeId)
    requires Ranked(t, r) && s in r.nodeOf && r.parent[s] == Some(q)
    ensures q in r.nodeOf
    ensures Ascent(t, r, s, d, fully) == (if fully then [s] else []) + Ascent(t, r, q, d - 1, fully) + (if d <= 0 then [q] else [])
  {
  }

  /** The list holds the ancestors of s above the d levels kept and, when
      fully, every shape from s up that has a parent. */
  lemma {:induction false} AscentSpec(t: DataTree, r: Links, s: ShapeId, d: int, fully: bool, x: ShapeId)
    requires Ranked(t, r) && s in r.nodeOf
    ensures x in Ascent(t, r, s, d, fully) <==>
      || (x in Ancestors(t, r, s, Unlimited) && x !in Ancestors(t, r, s, Levels(d)))
      || (fully && (x == s || x in Ancestors(t, r, s, Unlimited)) && x in r.nodeOf && r.parent[x].Some?)
    decreases t.Rank(r.nodeOf[s])
  {
    if r.parent[s].Some? {
      var q := r.parent[s].value;
      AscentSpec(t, r, q, d - 1, fully, x);
      if x in Ancestors(t, r, q, Unlimited) {
        AncestorsLower(t, r, q, Unlimited, x);
      }
    }
  }

  /** The walk up from s sees the same list in two link states that agree
      on the parents of every shape at s's level or above. */
  lemma {:induction false} AscentFrame(t: DataTree, r0: Links, r1: Links, s: ShapeId, d: int, fully: bool, h: nat)
    requires Ranked(t, r0) && Ranked(t, r1) && r1.nodeOf == r0.nodeOf
    requires s in r0.nodeOf && t.Rank(r0.nodeOf[s]) <= h
    requires forall z | z in r0.nodeOf && t.Rank(r0.nodeOf[z]) <= h :: r1.parent[z] == r0.parent[z]
    ensures Ascent(t, r0, s, d, fully) == Ascent(t, r1, s, d, fully)
    decreases t.Rank(r0.nodeOf[s])
  {
    if r0.parent[s].Some? {
      AscentFrame(t, r0, r1, r0.parent[s].value, d - 1, fully, h);
    }
  }

  /** A change outside the part below node a keeps the parents of every
      shape on a's level or above. */
  lemma OutsideLevels(t: DataTree, r0: Links, r1: Links, a: Node, u: UID, c: ShapeId)
    requires t.WellFormed() && Keys(r0) && Keys(r1) && Outside(t, r0, r1, a, u, c)
    ensures forall z | z in r0.nodeOf && t.Rank(r0.nodeOf[z]) <= t.Rank(a) :: r1.parent[z] == r0.parent[z]
  {
    forall z | z in r0.nodeOf && t.Rank(r0.nodeOf[z]) <= t.Rank(a)
      ensures r1.parent[z] == r0.parent[z]
    {
      if t.Under(a, r0.nodeOf[z]) {
        t.UnderRank(a, r0.nodeOf[z]);
      }
      assert !Beneath(t, r0, z, a, u);
    }
  }
}
