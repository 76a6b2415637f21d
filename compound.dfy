/** CompoundShape2d: a shape drawn as the union of sub-shapes. It keeps the
    sub-shapes in a list, sets their parent shape when they join and clears
    it when they leave, and after every change folds their extents into a
    bounding box from which it takes its size and its pivot. Each
    sub-shape's extent (`__getMinX` and the others) is given as a function
    of the sub-shape. */
module CompoundShapes {
  import opened Util
  import opened AbstractShapes

  /** A real or one of the infinities the fold starts from. */
  datatype Ext = NegInf | Fin(v: real) | PosInf
  {
    /** this < o */
    predicate Less(o: Ext) {
      match this
      case NegInf => !o.NegInf?
      case Fin(a) => o.PosInf? || (o.Fin? && a < o.v)
      case PosInf => false
    }

    /** -this */
    function Neg(): Ext {
      match this
      case NegInf => PosInf
      case Fin(a) => Fin(-a)
      case PosInf => NegInf
    }

    /** Math.max(this, o) */
    function Max(o: Ext): Ext {
      if this.Less(o) then o else this
    }

    /** this * 2 */
    function Twice(): Ext {
      if Fin? then Fin(2.0 * v) else this
    }
  }

  /** The extent of a sub-shape. */
  datatype Rect = Rect(minX: real, maxX: real, minY: real, maxY: real)

  datatype Side = MinX | MaxX | MinY | MaxY

  function Coord(r: Rect, side: Side): real {
    match side
    case MinX => r.minX
    case MaxX => r.maxX
    case MinY => r.minY
    case MaxY => r.maxY
  }

  /** The extents of the sub-shapes, in list order. */
  function Extents(shapes: seq<Shape>, extent: Shape -> Rect): (rs: seq<Rect>)
    ensures |rs| == |shapes| && forall i | 0 <= i < |shapes| :: rs[i] == extent(shapes[i])
  {
    seq(|shapes|, i requires 0 <= i < |shapes| => extent(shapes[i]))
  }

  /** The fold towards the minimum: start at +Infinity and take each value
      below the current one. */
  function Least(rs: seq<Rect>, side: Side): Ext {
    if rs == [] then PosInf
    else
      var lo := Least(rs[..|rs| - 1], side);
      var x := Coord(rs[|rs| - 1], side);
      if Fin(x).Less(lo) then Fin(x) else lo
  }

  /** The fold towards the maximum: start at -Infinity and take each value
      above the current one. */
  function Greatest(rs: seq<Rect>, side: Side): Ext {
    if rs == [] then NegInf
    else
      var hi := Greatest(rs[..|rs| - 1], side);
      var x := Coord(rs[|rs| - 1], side);
      if hi.Less(Fin(x)) then Fin(x) else hi
  }

  /** The minimum fold is +Infinity for no sub-shapes, and otherwise a
      lower bound of the coordinates that one of them attains. */
  lemma {:induction false} LeastSpec(rs: seq<Rect>, side: Side)
    ensures rs == [] <==> Least(rs, side).PosInf?
    ensures rs != [] ==> Least(rs, side).Fin?
    ensures rs != [] ==> forall i | 0 <= i < |rs| :: Least(rs, side).v <= Coord(rs[i], side)
    ensures rs != [] ==> exists i :: 0 <= i < |rs| && Least(rs, side).v == Coord(rs[i], side)
  {
    if rs != [] {
      var init := rs[..|rs| - 1];
      LeastSpec(init, side);
      if init != [] {
        var j :| 0 <= j < |init| && Least(init, side).v == Coord(init[j], side);
        assert rs[j] == init[j];
      }
      forall i | 0 <= i < |rs| - 1 ensures Least(rs, side).v <= Coord(rs[i], side) {
        assert rs[i] == init[i];
      }
    }
  }

  /** The maximum fold is -Infinity for no sub-shapes, and otherwise an
      upper bound of the coordinates that one of them attains. */
  lemma {:induction false} GreatestSpec(rs: seq<Rect>, side: Side)
    ensures rs == [] <==> Greatest(rs, side).NegInf?
    ensures rs != [] ==> Greatest(rs, side).Fin?
    ensures rs != [] ==> forall i | 0 <= i < |rs| :: Coord(rs[i], side) <= Greatest(rs, side).v
    ensures rs != [] ==> exists i :: 0 <= i < |rs| && Greatest(rs, side).v == Coord(rs[i], side)
  {
    if rs != [] {
      var init := rs[..|rs| - 1];
      GreatestSpec(init, side);
      if init != [] {
        var j :| 0 <= j < |init| && Greatest(init, side).v == Coord(init[j], side);
        assert rs[j] == init[j];
      }
      forall i | 0 <= i < |rs| - 1 ensures Coord(rs[i], side) <= Greatest(rs, side).v {
        assert rs[i] == init[i];
      }
    }
  }

  /** The size along one axis: twice the larger distance of the box's
      sides from the origin. */
  function Span(lo: Ext, hi: Ext): Ext {
    lo.Neg().Max(hi).Twice()
  }

  /** For at least one sub-shape, the size along an axis is finite, covers
      the box's extent and is symmetric about the origin: it is at least
      twice each side's distance from it. */
  lemma SpanCovers(rs: seq<Rect>, lo: Side, hi: Side)
    requires rs != []
    ensures var w := Span(Least(rs, lo), Greatest(rs, hi));
      && w.Fin?
      && w.v >= Greatest(rs, hi).v - Least(rs, lo).v
      && w.v >= 2.0 * Greatest(rs, hi).v && w.v >= -2.0 * Least(rs, lo).v
  {
    LeastSpec(rs, lo);
    GreatestSpec(rs, hi);
  }

  /** For no sub-shapes, the size is -Infinity. */
  lemma SpanEmpty(lo: Side, hi: Side)
    ensures Span(Least([], lo), Greatest([], hi)) == NegInf
  {
  }

  class Compound {
    const base: Shape                // the compound's own shape part
    var shapes: seq<Shape>
    var width: Ext                   // size.width
    var height: Ext                  // size.height
    var pivotX: Ext                  // gfx.pivot.x
    var pivotY: Ext                  // gfx.pivot.y

    /** Size and pivot are what the fold over the current sub-shapes
        gives. */
    ghost predicate Drawn(extent: Shape -> Rect)
      reads this`shapes, this`width, this`height, this`pivotX, this`pivotY
    {
      var rs := Extents(shapes, extent);
      && width == Span(Least(rs, MinX), Greatest(rs, MaxX))
      && height == Span(Least(rs, MinY), Greatest(rs, MaxY))
      && pivotX == Least(rs, MinX).Neg() && pivotY == Least(rs, MinY).Neg()
    }

    /** A compound starts with no sub-shapes; its size and pivot are set
        by the first redraw. */
    constructor(base: Shape)
      ensures this.base == base && shapes == []
    {
      this.base := base;
      shapes := [];
    }

    /** `addShape(s1, ..., sn)`: append each argument, in order, and make
        this compound its parent shape; then redraw. */
    method AddShape(args: seq<Shape>, extent: Shape -> Rect)
      modifies this`shapes, this`width, this`height, this`pivotX, this`pivotY
      modifies (set x | x in args)`parentShape
      ensures shapes == old(shapes) + args
      ensures forall x | x in args :: x.parentShape == Some(base.id)
      ensures Drawn(extent)
    {
      for i := 0 to |args|
        invariant shapes == old(shapes) + args[..i]
        invariant forall j | 0 <= j < i :: args[j].parentShape == Some(base.id)
      {
        shapes := shapes + [args[i]];
        args[i].SetParentShape(Some(base.id));
      }
      Redraw(extent);
    }

    /** `removeShape(s1, ..., sn)`: take the first occurrence of each
        argument out of the list and clear its parent shape; arguments not
        in the list are skipped. Then redraw. */
    method RemoveShape(args: seq<Shape>, extent: Shape -> Rect)
      modifies this`shapes, this`width, this`height, this`pivotX, this`pivotY
      modifies (set x | x in args)`parentShape
      ensures shapes == Removed(old(shapes), args)
      ensures forall x | x in args && x in old(shapes) :: x.parentShape == None
      ensures forall x | x in args && x !in old(shapes) :: x.parentShape == old(x.parentShape)
      ensures Drawn(extent)
    {
      for i := 0 to |args|
        invariant shapes == Removed(old(shapes), args[..i])
        invariant forall x | x in args[..i] && x in old(shapes) :: x.parentShape == None
        invariant forall x | x in args && x !in old(shapes) :: x.parentShape == old(x.parentShape)
      {
        RemoveNext(old(shapes), args, i, args[i]);
      }
      assert args[..|args|] == args;
      Redraw(extent);
    }

    /** One turn of the `removeShape` loop: the i-th argument leaves the list
        built from the first i removals. */
    method RemoveNext(ghost s0: seq<Shape>, args: seq<Shape>, i: nat, x: Shape)
      requires i < |args| && x == args[i] && shapes == Removed(s0, args[..i])
      requires forall x | x in args[..i] && x in s0 :: x.parentShape == None
      modifies this`shapes, x`parentShape
      ensures shapes == Removed(s0, args[..i + 1])
      ensures forall y | y in args[..i + 1] && y in s0 :: y.parentShape == None
      ensures x !in s0 ==> x.parentShape == old(x.parentShape)
    {
      if x in s0 && x !in shapes {
        RemovedGone(s0, args[..i], x);
      }
      RemovedShrinks(s0, args[..i]);
      RemoveOne(x);
      assert args[..i + 1] == args[..i] + [x];
    }

    /** One argument of `removeShape`: splice out its first occurrence and,
        when it was there, clear its parent shape. */
    method RemoveOne(x: Shape)
      modifies this`shapes, x`parentShape
      ensures shapes == Without(old(shapes), x)
      ensures x in old(shapes) ==> x.parentShape == None
      ensures x !in old(shapes) ==> x.parentShape == old(x.parentShape)
    {
      var index := IndexOf(shapes, x);
      if index != |shapes| {
        shapes := shapes[..index] + shapes[index + 1..];
        x.SetParentShape(None);
      }
    }

    /** The bounding fold of `__redraw()` and the size and pivot it sets. */
    method Redraw(extent: Shape -> Rect)
      modifies this`width, this`height, this`pivotX, this`pivotY
      ensures Drawn(extent)
    {
      ghost var rs := Extents(shapes, extent);
      var minX, maxX, minY, maxY := PosInf, NegInf, PosInf, NegInf;
      for i := 0 to |shapes|
        invariant minX == Least(rs[..i], MinX) && maxX == Greatest(rs[..i], MaxX)
        invariant minY == Least(rs[..i], MinY) && maxY == Greatest(rs[..i], MaxY)
      {
        assert rs[..i + 1][..i] == rs[..i];
        var r := extent(shapes[i]);
        if maxX.Less(Fin(r.maxX)) {
          maxX := Fin(r.maxX);
        }
        if Fin(r.minX).Less(minX) {
          minX := Fin(r.minX);
        }
        if maxY.Less(Fin(r.maxY)) {
          maxY := Fin(r.maxY);
        }
        if Fin(r.minY).Less(minY) {
          minY := Fin(r.minY);
        }
      }
      assert rs[..|shapes|] == rs;
      width := minX.Neg().Max(maxX).Twice();
      height := minY.Neg().Max(maxY).Twice();
      pivotX := minX.Neg();
      pivotY := minY.Neg();
    }
  }

  /** The list after removing the first occurrence of each argument in
      turn. */
  function Removed(s: seq<Shape>, args: seq<Shape>): seq<Shape> {
    if args == [] then s else Without(Removed(s, args[..|args| - 1]), args[|args| - 1])
  }

  /** Removal only takes elements away. */
  lemma {:induction false} RemovedShrinks(s: seq<Shape>, args: seq<Shape>)
    ensures forall x | x in Removed(s, args) :: x in s
  {
    if args != [] {
      RemovedShrinks(s, args[..|args| - 1]);
      WithoutSpec(Removed(s, args[..|args| - 1]), args[|args| - 1]);
    }
  }

  /** A shape that was in the list and is no longer was an argument. */
  lemma RemovedGone(s: seq<Shape>, args: seq<Shape>, x: Shape)
    requires x in s && x !in Removed(s, args)
    ensures x in args
  {
    RemovedMultiset(s, args);
    assert multiset(Removed(s, args))[x] == 0 && multiset(s)[x] > 0;
  }

  /** Removing the arguments one by one takes out as many occurrences of
      each shape as it is passed, as far as the list has them: a multiset
      difference. */
  lemma {:induction false} RemovedMultiset(s: seq<Shape>, args: seq<Shape>)
    ensures multiset(Removed(s, args)) == multiset(s) - multiset(args)
  {
    if args != [] {
      var init := args[..|args| - 1];
      var x := args[|args| - 1];
      assert args == init + [x];
      assert multiset(args) == multiset(init) + multiset{x};
      RemovedMultiset(s, init);
      WithoutSpec(Removed(s, init), x);
      DiffStep(multiset(s), multiset(init), x);
    }
  }
}
