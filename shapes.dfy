/** AbstractShape: the bookkeeping every shape of a visualisation does on
    top of drawing. A shape keeps duplicate-free listener lists, asks its
    context to tick it while it has update listeners, keeps targets it is
    moving towards with a callback that fires once on arrival, and keeps a
    loose bounding box under which it is stored in the context's spatial
    tree.

    The context is a `Context` object with the sets its calls maintain:
    the registered shapes, the active (ticked) shapes and the shapes stored
    in the spatial tree. Coordinates are reals. */
module AbstractShapes {
  import opened Util

  type ShapeId = nat

  /** A listener, known only by its identity. */
  type Listener = nat

  /** A JavaScript argument of a target setter: null or undefined, a
      number, some other object (a location or rotation vector), or a
      function. */
  datatype Arg = Null | Num(v: real) | Obj(handle: nat) | Fn(handle: nat)
  {
    /** The argument counts as true in a condition. */
    predicate Truthy() {
      match this
      case Null => false
      case Num(v) => v != 0.0
      case Obj(_) => true
      case Fn(_) => true
    }
  }

  /** One of the three targets (location, rotation, scale): the value moved
      towards, the friction and speed of the approach, and the callback
      waiting for arrival. */
  datatype Target = Target(value: Arg, friction: Arg, speed: Arg, callback: Arg)

  datatype Vec3 = Vec3(x: real, y: real, z: real)

  /** An axis-aligned box. */
  datatype Box = Box(minX: real, maxX: real, minY: real, maxY: real, minZ: real, maxZ: real)

  // --------------------------------------------------------------------
  // Listener lists.

  /** The list after `on*(l)`: l is pushed unless already present. */
  function Adjoin(s: seq<Listener>, l: Listener): (r: seq<Listener>)
    ensures l in r && s <= r && |r| <= |s| + 1
    ensures forall x :: x in r <==> x in s || x == l
    ensures l in s ==> r == s
    ensures Distinct(s) ==> Distinct(r)
  {
    if l in s then s else s + [l]
  }

  /** `off*(l)` undoes `on*(l)` for a listener that was not registered. */
  lemma OffUndoesOn(s: seq<Listener>, l: Listener)
    requires l !in s
    ensures Without(Adjoin(s, l), l) == s
  {
    assert IndexOf(s + [l], l) == |s| by {
      assert forall j :: 0 <= j < |s| ==> (s + [l])[j] != l;
    }
    assert (s + [l])[..|s|] == s;
  }

  /** `on*(l)` after `off*(l)` on a duplicate-free list holding l gives the
      same elements back, with l moved to the end. */
  lemma OnAfterOff(s: seq<Listener>, l: Listener)
    requires Distinct(s) && l in s
    ensures Distinct(Adjoin(Without(s, l), l))
    ensures forall x :: x in Adjoin(Without(s, l), l) <==> x in s
    ensures Adjoin(Without(s, l), l)[|s| - 1] == l
  {
    WithoutSpec(s, l);
    WithoutDistinct(s, l);
  }

  // --------------------------------------------------------------------
  // Targets.

  /** The argument shifting of `setTargetLoc`, `setTargetRot` and
      `setTargetScale`: a function passed as friction, or else as speed, is
      the arrival callback, and that slot counts as not given. Gives the
      friction, speed and callback to use. */
  function Shift(friction: Arg, speed: Arg, onReach: Arg): (Arg, Arg, Arg) {
    if friction.Fn? then (Null, speed, friction)
    else if speed.Fn? then (friction, Null, speed)
    else (friction, speed, onReach)
  }

  /** A function passed as friction, or else as speed, becomes the
      waiting callback whatever onReach says, and the slot it came from
      keeps its previous setting; a friction that was never a function
      does not become one. */
  lemma ShiftedCallback(t: Target, value: Arg, friction: Arg, speed: Arg, onReach: Arg)
    ensures var r := Retarget(t, value, friction, speed, onReach);
      friction.Fn? ==> r.callback == friction && r.friction == t.friction
    ensures var r := Retarget(t, value, friction, speed, onReach);
      !friction.Fn? && speed.Fn? ==> r.callback == speed && r.speed == t.speed
    ensures !t.friction.Fn? ==> !Retarget(t, value, friction, speed, onReach).friction.Fn?
  {
  }

  /** The target after a setter call: the value is always replaced; the
      friction only by a given one, the speed only by a truthy one and the
      callback only by a truthy one, after shifting. */
  function Retarget(t: Target, value: Arg, friction: Arg, speed: Arg, onReach: Arg): Target {
    var (f, s, cb) := Shift(friction, speed, onReach);
    Target(value,
           if f != Null then f else t.friction,
           if s.Truthy() then s else t.speed,
           if cb.Truthy() then cb else t.callback)
  }

  /** A setter call with only the value keeps every other setting. */
  lemma RetargetValueOnly(t: Target, value: Arg)
    ensures Retarget(t, value, Null, Null, Null) == t.(value := value)
  {
  }

  /** Repeating a setter call changes nothing more. */
  lemma RetargetIdempotent(t: Target, value: Arg, friction: Arg, speed: Arg, onReach: Arg)
    ensures var r := Retarget(t, value, friction, speed, onReach);
      Retarget(r, value, friction, speed, onReach) == r
  {
  }

  /** One tick's arrival check on a target: when there is a target value,
      the shape has arrived (the numeric test, given as `arrived`) and a
      callback waits, the callback fires and is cleared. Gives the new
      target and whether the callback fired. */
  function Arrive(t: Target, arrived: bool): (Target, bool) {
    if t.value.Truthy() && arrived && t.callback.Truthy() then (t.(callback := Null), true)
    else (t, false)
  }

  /** Arrival never touches the target value, and a callback that fired is
      cleared, so it cannot fire on a later tick. */
  lemma ArriveOnce(t: Target, arrived: bool, later: bool)
    ensures Arrive(t, arrived).0.value == t.value
    ensures Arrive(t, arrived).1 <==> t.value.Truthy() && arrived && t.callback.Truthy()
    ensures Arrive(t, arrived).1 ==> !Arrive(Arrive(t, arrived).0, later).1
    ensures !Arrive(t, arrived).1 ==> Arrive(t, arrived).0 == t
  {
  }

  /** A setter call that passes no function and no truthy onReach keeps a
      callback that is still waiting, and that callback then fires on
      arrival at the new target, once. */
  lemma WaitingCallbackMoves(t: Target, value: Arg, friction: Arg, speed: Arg, onReach: Arg)
    requires !friction.Fn? && !speed.Fn? && !onReach.Truthy()
    requires value.Truthy() && t.callback.Truthy()
    ensures var r := Retarget(t, value, friction, speed, onReach);
      && r.callback == t.callback && r.value == value
      && Arrive(r, true) == (r.(callback := Null), true)
  {
  }

  // --------------------------------------------------------------------
  // Boxes.

  /** `__getRadiusPadding()`: half the radius. */
  function RadiusPadding(radius: real): real {
    radius / 2.0
  }

  /** The box loc ± r. */
  function Around(loc: Vec3, r: real): Box {
    Box(loc.x - r, loc.x + r, loc.y - r, loc.y + r, loc.z - r, loc.z + r)
  }

  /** The box b holds the tight box loc ± r, so `__updateAABB` leaves it. */
  predicate Encloses(b: Box, loc: Vec3, r: real) {
    && b.minX <= loc.x - r && b.minY <= loc.y - r && b.minZ <= loc.z - r
    && b.maxX >= loc.x + r && b.maxY >= loc.y + r && b.maxZ >= loc.z + r
  }

  /** The loose box `__updateAABB` stores: loc ± (radius + padding). */
  function Loose(loc: Vec3, radius: real): Box {
    Around(loc, radius + RadiusPadding(radius))
  }

  /** A loose box holds the tight box for any move of at most half the
      radius on each axis, so such moves do not touch the spatial tree. */
  lemma LooseTolerance(loc: Vec3, radius: real, moved: Vec3)
    requires radius >= 0.0
    requires -radius / 2.0 <= moved.x - loc.x <= radius / 2.0
    requires -radius / 2.0 <= moved.y - loc.y <= radius / 2.0
    requires -radius / 2.0 <= moved.z - loc.z <= radius / 2.0
    ensures Encloses(Loose(loc, radius), moved, radius)
  {
  }

  /** A loose box is no longer valid once the shape has moved more than
      half the radius on some axis. */
  lemma LooseEscape(loc: Vec3, radius: real, moved: Vec3)
    requires moved.x - loc.x > radius / 2.0
    ensures !Encloses(Loose(loc, radius), moved, radius)
  {
  }

  // --------------------------------------------------------------------
  // Search.

  /** `search(radius, filter)`: `found` is what the spatial tree answers
      for the box Around(loc, radius) (none when there is no tree); the
      result is that answer without the shape itself and, when a filter is
      given, without what the filter rejects, in the tree's order. */
  function Search(hasTree: bool, found: seq<ShapeId>, self: ShapeId, filter: Option<ShapeId -> bool>): (r: seq<ShapeId>)
    ensures !hasTree ==> r == []
    ensures |r| <= |found| && self !in r
    ensures forall x | x in r :: x in found && (filter.Some? ==> filter.value(x))
    ensures hasTree ==> forall x | x in found && x != self && (filter.None? || filter.value(x)) :: x in r
    ensures Subsequence(r, found)
  {
    if !hasTree || found == [] then []
    else
      var rest := Search(hasTree, found[1..], self, filter);
      assert forall x | x in found[1..] :: x in found;
      if found[0] != self && (filter.None? || filter.value(found[0])) then
        assert ([found[0]] + rest)[1..] == rest;
        [found[0]] + rest
      else rest
  }

  // --------------------------------------------------------------------
  // The context and the shape.

  /** The visualisation context, as far as shapes use it. */
  class Context {
    var registered: set<ShapeId>   // __registerShape / __deregisterShape
    var active: set<ShapeId>       // activateShape / deactivateShape: ticked shapes
    const hasTree: bool            // getSpatialTree() gives a tree
    var stored: set<ShapeId>       // the spatial tree's contents

    constructor(hasTree: bool)
      ensures this.hasTree == hasTree
      ensures registered == {} && active == {} && stored == {}
    {
      this.hasTree := hasTree;
      registered, active, stored := {}, {}, {};
    }
  }

  class Shape {
    const id: ShapeId
    const ctx: Context
    const storeInSpatialTree: bool
    var radius: real                 // __getRadius()
    var loc: Vec3                    // transform.loc, also the world location
    var veloLoc: Vec3                // velo.loc
    var veloRot: Vec3                // velo.rot
    var veloScale: real              // velo.scale
    var aabb: Box                    // the loose bounding box
    var isRendered: bool
    var hover: seq<Listener>
    var click: seq<Listener>
    var mouse: seq<Listener>
    var update: seq<Listener>
    var updatesDisabled: bool
    var parentShape: Option<ShapeId>
    var targetLoc: Target
    var targetRot: Target
    var targetScale: Target

    /** Every listener list is duplicate-free. */
    ghost predicate ListenersDistinct()
      reads this`hover, this`click, this`mouse, this`update
    {
      Distinct(hover) && Distinct(click) && Distinct(mouse) && Distinct(update)
    }

    /** Unless updates are disabled, the context ticks the shape exactly
        while it has update listeners. */
    ghost predicate Ticking()
      reads this`updatesDisabled, this`update, ctx`active
    {
      !updatesDisabled ==> (id in ctx.active <==> |update| > 0)
    }

    /** The constructor: empty lists, no targets, the default frictions and
        speeds, and a first `__updateAABB()` from the origin. */
    constructor(id: ShapeId, ctx: Context, storeInSpatialTree: bool, radius: real)
      modifies ctx`stored
      ensures this.id == id && this.ctx == ctx && this.storeInSpatialTree == storeInSpatialTree
      ensures this.radius == radius && loc == Vec3(0.0, 0.0, 0.0) && !isRendered && !updatesDisabled
      ensures hover == [] && click == [] && mouse == [] && update == [] && ListenersDistinct()
      ensures targetLoc == Target(Null, Num(0.8), Num(1.0), Null)
      ensures targetRot == Target(Null, Num(0.8), Num(1.0), Null)
      ensures targetScale == Target(Null, Num(0.7), Num(2.0), Null)
      ensures storeInSpatialTree && radius >= 0.0 ==> Encloses(aabb, loc, radius)
      ensures !storeInSpatialTree || radius <= 0.0 ==>
        aabb == Box(0.0, 0.0, 0.0, 0.0, 0.0, 0.0) && ctx.stored == old(ctx.stored)
      ensures storeInSpatialTree && radius > 0.0 ==>
        && aabb == Loose(loc, radius)
        && ctx.stored == if ctx.hasTree then old(ctx.stored) + {id} else old(ctx.stored)
    {
      this.id, this.ctx, this.storeInSpatialTree, this.radius := id, ctx, storeInSpatialTree, radius;
      loc, veloLoc, veloRot, veloScale := Vec3(0.0, 0.0, 0.0), Vec3(0.0, 0.0, 0.0), Vec3(0.0, 0.0, 0.0), 0.0;
      aabb := Box(0.0, 0.0, 0.0, 0.0, 0.0, 0.0);
      isRendered, updatesDisabled, parentShape := false, false, None;
      hover, click, mouse, update := [], [], [], [];
      targetLoc := Target(Null, Num(0.8), Num(1.0), Null);
      targetRot := Target(Null, Num(0.8), Num(1.0), Null);
      targetScale := Target(Null, Num(0.7), Num(2.0), Null);
      new;
      UpdateAABB();
    }

    // ------------------------------------------------------------------
    // Listeners.

    /** `onHover(l)` */
    method OnHover(l: Listener)
      modifies this`hover
      ensures hover == Adjoin(old(hover), l)
    {
      if l !in hover {
        hover := hover + [l];
      }
    }

    /** `offHover(l)` */
    method OffHover(l: Listener)
      modifies this`hover
      ensures hover == Without(old(hover), l)
    {
      var index := IndexOf(hover, l);
      if index != |hover| {
        hover := hover[..index] + hover[index + 1..];
      }
    }

    /** `onClick(l)` */
    method OnClick(l: Listener)
      modifies this`click
      ensures click == Adjoin(old(click), l)
    {
      if l !in click {
        click := click + [l];
      }
    }

    /** `offClick(l)` */
    method OffClick(l: Listener)
      modifies this`click
      ensures click == Without(old(click), l)
    {
      var index := IndexOf(click, l);
      if index != |click| {
        click := click[..index] + click[index + 1..];
      }
    }

    /** `onMouseEvent(l)` */
    method OnMouseEvent(l: Listener)
      modifies this`mouse
      ensures mouse == Adjoin(old(mouse), l)
    {
      if l !in mouse {
        mouse := mouse + [l];
      }
    }

    /** `offMouseEvent(l)` */
    method OffMouseEvent(l: Listener)
      modifies this`mouse
      ensures mouse == Without(old(mouse), l)
    {
      var index := IndexOf(mouse, l);
      if index != |mouse| {
        mouse := mouse[..index] + mouse[index + 1..];
      }
    }

    /** `onUpdate(l)`: register, then let the context tick the shape. */
    method OnUpdate(l: Listener)
      modifies this`update, this`updatesDisabled, ctx`active
      ensures update == Adjoin(old(update), l) && updatesDisabled == old(updatesDisabled) && Ticking()
      ensures updatesDisabled ==> ctx.active == old(ctx.active)
      ensures !updatesDisabled ==> ctx.active == old(ctx.active) + {id}
    {
      if l !in update {
        update := update + [l];
      }
      UpdateUpdates();
    }

    /** `offUpdate(l)`: deregister, then stop the ticking when no update
        listener is left. */
    method OffUpdate(l: Listener)
      modifies this`update, this`updatesDisabled, ctx`active
      ensures update == Without(old(update), l) && updatesDisabled == old(updatesDisabled) && Ticking()
      ensures updatesDisabled ==> ctx.active == old(ctx.active)
      ensures !updatesDisabled && update != [] ==> ctx.active == old(ctx.active) + {id}
      ensures !updatesDisabled && update == [] ==> ctx.active == old(ctx.active) - {id}
    {
      var index := IndexOf(update, l);
      if index != |update| {
        update := update[..index] + update[index + 1..];
      }
      UpdateUpdates();
    }

    // ------------------------------------------------------------------
    // Ticking.

    /** `__updateUpdates()`: unless updates are disabled, ask the context
        to tick the shape exactly when it has update listeners. */
    method UpdateUpdates()
      modifies this`updatesDisabled, ctx`active
      ensures updatesDisabled == old(updatesDisabled) && Ticking()
      ensures updatesDisabled ==> ctx.active == old(ctx.active)
      ensures !updatesDisabled && update != [] ==> ctx.active == old(ctx.active) + {id}
      ensures !updatesDisabled && update == [] ==> ctx.active == old(ctx.active) - {id}
    {
      if !updatesDisabled {
        if |update| == 0 {
          DisableUpdates(true);
        } else {
          EnableUpdates(true);
        }
      }
    }

    /** `enableUpdates(internally)`: only a call from outside clears the
        disabled flag; the context ticks the shape either way. */
    method EnableUpdates(internally: bool)
      modifies this`updatesDisabled, ctx`active
      ensures updatesDisabled == (internally && old(updatesDisabled))
      ensures ctx.active == old(ctx.active) + {id}
    {
      if !internally {
        updatesDisabled := false;
      }
      ctx.active := ctx.active + {id};
    }

    /** `disableUpdates(internally)`: only a call from outside sets the
        disabled flag; the context stops ticking the shape either way. */
    method DisableUpdates(internally: bool)
      modifies this`updatesDisabled, ctx`active
      ensures updatesDisabled == (!internally || old(updatesDisabled))
      ensures ctx.active == old(ctx.active) - {id}
    {
      if !internally {
        updatesDisabled := true;
      }
      ctx.active := ctx.active - {id};
    }

    // ------------------------------------------------------------------
    // Targets.

    /** `setTargetLoc(loc, friction, speed, onReach)`: also stops the
        shape's movement. */
    method SetTargetLoc(value: Arg, friction: Arg, speed: Arg, onReach: Arg)
      modifies this`targetLoc, this`veloLoc
      ensures targetLoc == Retarget(old(targetLoc), value, friction, speed, onReach)
      ensures veloLoc == Vec3(0.0, 0.0, 0.0)
    {
      var (f, s, cb) := Shift(friction, speed, onReach);
      veloLoc := Vec3(0.0, 0.0, 0.0);
      targetLoc := targetLoc.(value := value);
      if f != Null {
        targetLoc := targetLoc.(friction := f);
      }
      if s.Truthy() {
        targetLoc := targetLoc.(speed := s);
      }
      if cb.Truthy() {
        targetLoc := targetLoc.(callback := cb);
      }
    }

    /** `setTargetRot(rot, friction, speed, onReach)`: velocities stay. */
    method SetTargetRot(value: Arg, friction: Arg, speed: Arg, onReach: Arg)
      modifies this`targetRot
      ensures targetRot == Retarget(old(targetRot), value, friction, speed, onReach)
    {
      var (f, s, cb) := Shift(friction, speed, onReach);
      targetRot := targetRot.(value := value);
      if f != Null {
        targetRot := targetRot.(friction := f);
      }
      if s.Truthy() {
        targetRot := targetRot.(speed := s);
      }
      if cb.Truthy() {
        targetRot := targetRot.(callback := cb);
      }
    }

    /** `setTargetScale(scale, friction, speed, onReach)`: velocities stay. */
    method SetTargetScale(value: Arg, friction: Arg, speed: Arg, onReach: Arg)
      modifies this`targetScale
      ensures targetScale == Retarget(old(targetScale), value, friction, speed, onReach)
    {
      var (f, s, cb) := Shift(friction, speed, onReach);
      targetScale := targetScale.(value := value);
      if f != Null {
        targetScale := targetScale.(friction := f);
      }
      if s.Truthy() {
        targetScale := targetScale.(speed := s);
      }
      if cb.Truthy() {
        targetScale := targetScale.(callback := cb);
      }
    }

    /** The arrival part of `__onUpdate(deltaTime)`: each target whose
        arrival test holds (given, as the test is numeric) fires its
        callback and clears it. Gives the callbacks fired, in the order
        location, rotation, scale. */
    method Tick(atLoc: bool, atRot: bool, atScale: bool) returns (fired: seq<Arg>)
      modifies this`targetLoc, this`targetRot, this`targetScale
      ensures targetLoc == Arrive(old(targetLoc), atLoc).0
      ensures targetRot == Arrive(old(targetRot), atRot).0
      ensures targetScale == Arrive(old(targetScale), atScale).0
      ensures fired == (if Arrive(old(targetLoc), atLoc).1 then [old(targetLoc).callback] else [])
                     + (if Arrive(old(targetRot), atRot).1 then [old(targetRot).callback] else [])
                     + (if Arrive(old(targetScale), atScale).1 then [old(targetScale).callback] else [])
    {
      fired := [];
      if targetLoc.value.Truthy() && atLoc && targetLoc.callback.Truthy() {
        fired := fired + [targetLoc.callback];
        targetLoc := targetLoc.(callback := Null);
      }
      if targetRot.value.Truthy() && atRot && targetRot.callback.Truthy() {
        fired := fired + [targetRot.callback];
        targetRot := targetRot.(callback := Null);
      }
      if targetScale.value.Truthy() && atScale && targetScale.callback.Truthy() {
        fired := fired + [targetScale.callback];
        targetScale := targetScale.(callback := Null);
      }
    }

    // ------------------------------------------------------------------
    // Rendering and the spatial tree.

    /** `__setParentShape(parent)` */
    method SetParentShape(parent: Option<ShapeId>)
      modifies this`parentShape
      ensures parentShape == parent
    {
      parentShape := parent;
    }

    /** `add()`: register with the context, tick while there are update
        listeners, enter the spatial tree when stored there, and render. */
    method Add()
      modifies ctx`registered, ctx`active, ctx`stored, this`isRendered, this`updatesDisabled
      ensures isRendered && ctx.registered == old(ctx.registered) + {id}
      ensures updatesDisabled == old(updatesDisabled) && Ticking()
      ensures ctx.stored == if ctx.hasTree && storeInSpatialTree then old(ctx.stored) + {id} else old(ctx.stored)
      ensures updatesDisabled ==> ctx.active == old(ctx.active)
      ensures !updatesDisabled && update != [] ==> ctx.active == old(ctx.active) + {id}
      ensures !updatesDisabled && update == [] ==> ctx.active == old(ctx.active) - {id}
    {
      ctx.registered := ctx.registered + {id};
      UpdateUpdates();
      if ctx.hasTree && storeInSpatialTree {
        ctx.stored := ctx.stored + {id};
      }
      isRendered := true;
    }

    /** `remove(dontDelete)`: deregister; unless told not to, delete. */
    method Remove(dontDelete: bool)
      modifies ctx`registered, ctx`active, ctx`stored, this`isRendered, this`updatesDisabled
      ensures updatesDisabled == old(updatesDisabled) && ctx.registered == old(ctx.registered) - {id}
      ensures dontDelete ==> ctx.active == old(ctx.active) && ctx.stored == old(ctx.stored) && isRendered == old(isRendered)
      ensures !dontDelete ==> !isRendered && id !in ctx.active
      ensures !dontDelete ==> ctx.active == old(ctx.active) - {id}
      ensures !dontDelete ==> ctx.stored == if ctx.hasTree && storeInSpatialTree then old(ctx.stored) - {id} else old(ctx.stored)
    {
      ctx.registered := ctx.registered - {id};
      if !dontDelete {
        Delete();
      }
    }

    /** `__delete()`: deregister entirely, stop ticking without touching
        the disabled flag, leave the spatial tree and stop rendering. */
    method Delete()
      modifies ctx`registered, ctx`active, ctx`stored, this`isRendered, this`updatesDisabled
      ensures updatesDisabled == old(updatesDisabled) && !isRendered && ctx.registered == old(ctx.registered) - {id}
      ensures ctx.active == old(ctx.active) - {id}
      ensures ctx.stored == if ctx.hasTree && storeInSpatialTree then old(ctx.stored) - {id} else old(ctx.stored)
    {
      ctx.registered := ctx.registered - {id};
      DisableUpdates(true);
      if ctx.hasTree && storeInSpatialTree {
        ctx.stored := ctx.stored - {id};
      }
      isRendered := false;
    }

    /** `__updateAABB()`: for a shape stored in the spatial tree, when the
        tight box loc ± radius has left the loose box, take a new loose box
        around loc and re-enter the tree under it. */
    method UpdateAABB()
      modifies this`aabb, ctx`stored
      ensures !storeInSpatialTree || Encloses(old(aabb), loc, radius) ==>
        aabb == old(aabb) && ctx.stored == old(ctx.stored)
      ensures storeInSpatialTree && !Encloses(old(aabb), loc, radius) ==>
        && aabb == Loose(loc, radius)
        && ctx.stored == if ctx.hasTree then old(ctx.stored) + {id} else old(ctx.stored)
      ensures storeInSpatialTree && radius >= 0.0 ==> Encloses(aabb, loc, radius)
    {
      if storeInSpatialTree {
        var minRad := radius;
        if || aabb.minX > loc.x - minRad || aabb.minY > loc.y - minRad || aabb.minZ > loc.z - minRad
           || aabb.maxX < loc.x + minRad || aabb.maxY < loc.y + minRad || aabb.maxZ < loc.z + minRad
        {
          if ctx.hasTree {
            ctx.stored := ctx.stored - {id};
          }
          var maxRad := radius + RadiusPadding(radius);
          aabb := Box(loc.x - maxRad, loc.x + maxRad, loc.y - maxRad, loc.y + maxRad, loc.z - maxRad, loc.z + maxRad);
          if ctx.hasTree {
            ctx.stored := ctx.stored + {id};
          }
        }
      }
    }
  }
}
