/** The game's objects: the base entity (a shape with a pose, a speed and a
    direction), the player's ship with its bullets, and the asteroids. */
module Entities {
  import opened Utils
  import opened Shapes
  import opened Lists

  // ---------------------------------------------------------------------
  // Screen wrap

  /** `_reflect_across_screen` on one coordinate: x against a window extent
      size, with len the entity's effective length. Past the low edge by more
      than len it reappears beyond the high edge; past the high edge, beyond
      the low one. */
  function Reflect(x: real, len: real, size: real): real
  {
    if x + len < 0.0 then size + Abs(0.0 - (x + len))
    else if x - len > size then -Abs((x - len) - size)
    else x
  }

  /** The two coordinates are reflected independently, x against the window
      width and y against the window height. */
  function ReflectPos(p: Vector, len: real): Vector
  {
    Vector(Reflect(p.x, len, WindowWidth as real), Reflect(p.y, len, WindowHeight as real))
  }

  /** The window padded by len on every side. */
  predicate InPlay(p: Vector, len: real)
  {
    -len <= p.x <= WindowWidth as real + len && -len <= p.y <= WindowHeight as real + len
  }

  /** A coordinate inside the padded range is left alone; one that left it
      reappears on the far side, as far beyond the far edge as it was past
      the near one. */
  lemma ReflectCases(x: real, len: real, size: real)
    ensures x + len >= 0.0 && x - len <= size ==> Reflect(x, len, size) == x
    ensures x + len < 0.0 ==> Reflect(x, len, size) == size - (x + len) > size
    ensures x + len >= 0.0 && x - len > size ==>
              Reflect(x, len, size) == size - (x - len) && Reflect(x, len, size) < 0.0
  {
  }

  /** A position inside the padded window is unchanged. */
  lemma ReflectInPlay(p: Vector, len: real)
    requires InPlay(p, len)
    ensures ReflectPos(p, len) == p
  {
    ReflectCases(p.x, len, WindowWidth as real);
    ReflectCases(p.y, len, WindowHeight as real);
  }

  /** A coordinate that starts inside the padded range and moves by at most
      len is inside it again after the reflection: entities never drift off
      for good. */
  lemma ReflectKeepsInPlay(x: real, d: real, len: real, size: real)
    requires len >= 0.0 && size >= 0.0
    requires -len <= x <= size + len
    requires Abs(d) <= len
    ensures -len <= Reflect(x + d, len, size) <= size + len
  {
    ReflectCases(x + d, len, size);
  }

  // ---------------------------------------------------------------------
  // Entity

  /** Everything an entity's update reads or writes: its own pose, speeds and
      direction, its shape's pose, and its shape's effective length (reach). */
  datatype EntityState = EntityState(pos: Vector, rot: real, scale: real,
                                     linSpeed: real, rotSpeed: real, direction: Vector,
                                     shapePos: Vector, shapeRot: real, shapeScale: real,
                                     reach: real)

  /** The state of a new entity. */
  function Spawned(m: MathLib, verts: seq<real>, direction: Vector, linSpeed: real,
                   rotSpeed: real, pos: Vector, rot: real, scale: real): EntityState
    requires |verts| >= 2
  {
    EntityState(pos, rot, scale, linSpeed, rotSpeed, Normalize(m, direction),
                pos, rot, scale, EffectiveLength(m, VectorsOf(verts), scale))
  }

  /** `Entity.update`: move by direction times speed, turn by the rotation
      speed and wrap the angle, give the shape the unreflected pose, and then
      reflect across the screen. The frame time does not enter: speeds are
      per update. */
  function Moved(s: EntityState, wrap: real -> real): EntityState
  {
    var p := Add(s.pos, Scale(s.direction, s.linSpeed));
    var r := wrap(s.rot + s.rotSpeed);
    s.(pos := ReflectPos(p, s.reach), rot := r, shapePos := p, shapeRot := r, shapeScale := s.scale)
  }

  /** The states of a list of entities after the first i of them have moved. */
  function MovedUpTo(ss: seq<EntityState>, wrap: real -> real, i: nat): (r: seq<EntityState>)
    ensures |r| == |ss|
  {
    seq(|ss|, k requires 0 <= k < |ss| => if k < i then Moved(ss[k], wrap) else ss[k])
  }

  /** Moving element i next extends the moved prefix by one. */
  lemma MovedUpToStep(ss: seq<EntityState>, wrap: real -> real, i: nat)
    requires i < |ss|
    ensures MovedUpTo(ss, wrap, i)[i := Moved(ss[i], wrap)] == MovedUpTo(ss, wrap, i + 1)
  {
  }

  /** An entity with a direction of length at most 1 and a speed no larger
      than its effective length stays inside the padded window from one
      update to the next; the shape keeps the position before the wrap. */
  lemma MovedInPlay(s: EntityState, wrap: real -> real)
    requires WindowWidth >= 0 && WindowHeight >= 0
    requires 0.0 <= s.linSpeed <= s.reach
    requires SquaredLength(s.direction) <= 1.0
    requires InPlay(s.pos, s.reach)
    ensures InPlay(Moved(s, wrap).pos, s.reach)
    ensures Moved(s, wrap).shapePos == Add(s.pos, Scale(s.direction, s.linSpeed))
    ensures InPlay(Moved(s, wrap).shapePos, s.reach) ==> Moved(s, wrap).pos == Moved(s, wrap).shapePos
  {
    var p := Add(s.pos, Scale(s.direction, s.linSpeed));
    StepInPlay(s.pos, s.direction, s.linSpeed, s.reach);
    assert Moved(s, wrap).pos == ReflectPos(p, s.reach);
    if InPlay(p, s.reach) {
      ReflectInPlay(p, s.reach);
    }
  }

  /** A step of length at most len from inside the window padded by len
      ends, after the reflection, inside it again. */
  lemma StepInPlay(pos: Vector, d: Vector, k: real, len: real)
    requires WindowWidth >= 0 && WindowHeight >= 0
    requires 0.0 <= k <= len && SquaredLength(d) <= 1.0 && InPlay(pos, len)
    ensures InPlay(ReflectPos(Add(pos, Scale(d, k)), len), len)
  {
    var p := Add(pos, Scale(d, k));
    assert p.x == pos.x + d.x * k && p.y == pos.y + d.y * k;
    UnitBound(d.x, d.y);
    UnitBound(d.y, d.x);
    CoordinateInPlay(pos.x, d.x, k, p.x, len, WindowWidth as real);
    CoordinateInPlay(pos.y, d.y, k, p.y, len, WindowHeight as real);
  }

  /** One coordinate of MovedInPlay. */
  lemma CoordinateInPlay(x: real, a: real, k: real, y: real, len: real, size: real)
    requires Abs(a) <= 1.0 && 0.0 <= k <= len && size >= 0.0
    requires -len <= x <= size + len
    requires y == x + a * k
    ensures -len <= Reflect(y, len, size) <= size + len
  {
    StepBound(a, k);
    ReflectKeepsInPlay(x, a * k, len, size);
  }

  lemma UnitBound(x: real, y: real)
    requires SquaredNorm(x, y) <= 1.0
    ensures Abs(x) <= 1.0
  {
    SquareSign(y);
    AbsSquare(x);
    if Abs(x) > 1.0 {
      SquareMonotone(1.0, Abs(x));
    }
  }

  lemma StepBound(a: real, k: real)
    requires Abs(a) <= 1.0 && k >= 0.0
    ensures Abs(a * k) <= k
  {
    if a >= 0.0 {
      assert a * k <= 1.0 * k;
    } else {
      assert -a * k <= 1.0 * k;
    }
  }

  class Entity {
    const shape: Shape
    var pos: Vector
    /** In degrees. */
    var rot: real
    var scale: real
    var linSpeed: real
    var rotSpeed: real
    /** Kept normalised by its setter. */
    var direction: Vector

    ghost predicate Valid() { shape.Valid() }

    ghost function State(): EntityState
      reads this, shape
    {
      EntityState(pos, rot, scale, linSpeed, rotSpeed, direction,
                  shape.pos, shape.rot, shape.scale, shape.effectiveLength)
    }

    /** `Entity(verts, direction, lin_speed, rot_speed, pos, rot, scale)`;
        the direction is stored normalised. */
    constructor (m: MathLib, verts: seq<real>, direction: Vector, linSpeed: real,
                 rotSpeed: real, pos: Vector, rot: real, scale: real)
      requires |verts| >= 2
      ensures Valid() && fresh(shape) && shape.verts == verts
      ensures State() == Spawned(m, verts, direction, linSpeed, rotSpeed, pos, rot, scale)
    {
      var sh := new Shape(m, verts, pos, rot, scale);
      shape := sh;
      this.pos := pos;
      this.rot := rot;
      this.scale := scale;
      this.linSpeed := linSpeed;
      this.rotSpeed := rotSpeed;
      this.direction := Normalize(m, direction);
    }

    /** `update`; wrap is `wrap_angle`. */
    method Update(wrap: real -> real)
      requires Valid()
      modifies this, shape
      ensures Valid()
      ensures State() == Moved(old(State()), wrap)
    {
      pos := Add(pos, Scale(direction, linSpeed));
      rot := rot + rotSpeed;
      rot := wrap(rot);
      shape.Update(pos, rot, scale);
      ReflectAcrossScreen();
    }

    /** `_reflect_across_screen`. */
    method ReflectAcrossScreen()
      modifies this`pos
      ensures pos == ReflectPos(old(pos), shape.effectiveLength)
    {
      var len := shape.effectiveLength;
      var newPos := pos;
      if pos.x + len < 0.0 {
        var dist := Abs(0.0 - (pos.x + len));
        newPos := newPos.(x := WindowWidth as real + dist);
      } else if pos.x - len > WindowWidth as real {
        var dist := Abs((pos.x - len) - WindowWidth as real);
        newPos := newPos.(x := -dist);
      }
      if pos.y + len < 0.0 {
        var dist := Abs(0.0 - (pos.y + len));
        newPos := newPos.(y := WindowHeight as real + dist);
      } else if pos.y - len > WindowHeight as real {
        var dist := Abs((pos.y - len) - WindowHeight as real);
        newPos := newPos.(y := -dist);
      }
      pos := newPos;
    }

    /** The `direction` setter: the direction is stored normalised. */
    method SetDirection(m: MathLib, value: Vector)
      modifies this`direction
      ensures direction == Normalize(m, value)
    {
      direction := Normalize(m, value);
    }

    /** `collides`: the shapes decide. */
    method Collides(m: MathLib, other: Entity) returns (hit: bool)
      requires Valid() && other.Valid()
      ensures hit == NoSeparatingAxis(m, WorldVerts(m, shape.Vectors(), shape.pos, shape.rot, shape.scale),
                                      WorldVerts(m, other.shape.Vectors(), other.shape.pos,
                                                 other.shape.rot, other.shape.scale))
    {
      hit := shape.Collides(m, other.shape);
    }
  }

  // ---------------------------------------------------------------------
  // Bullet

  const MaxLifespan: real := 3.0
  const BulletVerts: seq<real> := [10.0, 10.0, 10.0, -10.0, -10.0, -10.0, -10.0, 10.0]

  datatype BulletState = BulletState(body: EntityState, lifespan: real, expired: bool)

  /** `Bullet.update`: the entity moves, the lifespan grows by dt, and the
      bullet is expired once its lifespan reaches the maximum. */
  function Aged(s: BulletState, dt: real, wrap: real -> real): BulletState
  {
    var life := s.lifespan + dt;
    BulletState(Moved(s.body, wrap), life, s.expired || life >= MaxLifespan)
  }

  /** A bullet is expired exactly when its lifespan has reached the maximum. */
  predicate LifeConsistent(s: BulletState)
  {
    s.expired == (s.lifespan >= MaxLifespan)
  }

  /** An expired bullet stays expired; with non-negative frame times the
      expired flag keeps telling whether the lifespan reached the maximum. */
  lemma AgedKeepsExpiry(s: BulletState, dt: real, wrap: real -> real)
    ensures s.expired ==> Aged(s, dt, wrap).expired
    ensures LifeConsistent(s) && dt >= 0.0 ==> LifeConsistent(Aged(s, dt, wrap))
    ensures Aged(s, dt, wrap).lifespan == s.lifespan + dt
  {
  }

  /** The bullet after a run of updates with the given frame times. */
  function AgedBy(s: BulletState, dts: seq<real>, wrap: real -> real): BulletState
    decreases |dts|
  {
    if dts == [] then s else AgedBy(Aged(s, dts[0], wrap), dts[1..], wrap)
  }

  function Sum(xs: seq<real>): real
  {
    if xs == [] then 0.0 else xs[0] + Sum(xs[1..])
  }

  /** After a run of updates with non-negative frame times, a new bullet's
      lifespan is the total time, and it is expired exactly when that total
      reaches the maximum. */
  lemma {:induction false} AgedByExpiry(s: BulletState, dts: seq<real>, wrap: real -> real)
    requires LifeConsistent(s)
    requires forall i :: 0 <= i < |dts| ==> dts[i] >= 0.0
    ensures AgedBy(s, dts, wrap).lifespan == s.lifespan + Sum(dts)
    ensures AgedBy(s, dts, wrap).expired == (s.lifespan + Sum(dts) >= MaxLifespan)
    decreases |dts|
  {
    if dts != [] {
      AgedKeepsExpiry(s, dts[0], wrap);
      AgedByExpiry(Aged(s, dts[0], wrap), dts[1..], wrap);
    }
  }

  class Bullet {
    const body: Entity
    var expired: bool
    var lifespan: real

    ghost predicate Valid() { body.Valid() }

    ghost function State(): BulletState
      reads this, body, body.shape
    {
      BulletState(body.State(), lifespan, expired)
    }

    /** `Bullet(pos, rot, direction)`: speed 3, no rotation, scale 0.25. */
    constructor (m: MathLib, pos: Vector, rot: real, direction: Vector)
      ensures Valid() && fresh(body) && fresh(body.shape) && body.shape.verts == BulletVerts
      ensures State() == BulletState(Spawned(m, BulletVerts, direction, 3.0, 0.0, pos, rot, 0.25), 0.0, false)
    {
      expired := false;
      lifespan := 0.0;
      body := new Entity(m, BulletVerts, direction, 3.0, 0.0, pos, rot, 0.25);
    }

    /** `update`. */
    method Update(dt: real, wrap: real -> real)
      requires Valid()
      modifies this, body, body.shape
      ensures Valid()
      ensures State() == Aged(old(State()), dt, wrap)
    {
      body.Update(wrap);
      lifespan := lifespan + dt;
      if lifespan >= MaxLifespan {
        expired := true;
      }
    }
  }

  /** Bullets i and j of bs are different objects with different entities
      and shapes. */
  ghost predicate Apart(bs: seq<Bullet>, i: nat, j: nat)
    requires i < |bs| && j < |bs|
  {
    Separate(bs[i], bs[j])
  }

  /** No object of bullet a (itself, its entity, its shape) is an object
      of bullet b. */
  ghost predicate Separate(a: Bullet, b: Bullet)
  {
    a != b && a as object != b.body && a as object != b.body.shape
    && a.body as object != b && a.body != b.body && a.body as object != b.body.shape
    && a.body.shape as object != b && a.body.shape as object != b.body && a.body.shape != b.body.shape
  }

  /** Distinct bullets with distinct entities and shapes, so that updating
      one leaves the others alone. */
  ghost predicate BulletsApart(bs: seq<Bullet>)
  {
    (forall i, j :: 0 <= i < |bs| && 0 <= j < |bs| && i != j ==> Apart(bs, i, j))
    && forall i :: 0 <= i < |bs| ==> bs[i].Valid()
  }

  /** The ship's bullets are apart, and none shares the ship's entity or
      shape. */
  ghost predicate Fleet(ship: Entity, bs: seq<Bullet>)
  {
    BulletsApart(bs) && forall i :: 0 <= i < |bs| ==> bs[i].body != ship && bs[i].body.shape != ship.shape
  }

  /** A subsequence of the bullets is apart too. */
  lemma FleetWithin(ship: Entity, bs: seq<Bullet>, done: seq<Bullet>, j: nat)
    requires j <= |bs| && Fleet(ship, bs) && Subseq(done, bs, j)
    ensures Fleet(ship, done)
  {
    SubWithin(done, bs, j);
    var idx :| Within(bs, done, idx, j);
    forall p, q | 0 <= p < |done| && 0 <= q < |done| && p != q
      ensures Apart(done, p, q)
    {
      assert done[p] == bs[idx[p]] && done[q] == bs[idx[q]];
      assert idx[p] != idx[q];
      assert Apart(bs, idx[p], idx[q]);
    }
    forall p | 0 <= p < |done| ensures done[p] == bs[idx[p]] { }
  }

  /** A bullet that the loop has not reached yet is not among those it
      has already kept, and the others are apart from it. */
  lemma NotKept(orig: seq<Bullet>, done: seq<Bullet>, j: nat)
    requires BulletsApart(orig) && j < |orig| && Subseq(done, orig, j)
    ensures orig[j] !in done
    ensures forall k :: 0 <= k < |orig| && k != j ==> Separate(orig[k], orig[j])
  {
    SubWithin(done, orig, j);
    var idx :| Within(orig, done, idx, j);
    forall p | 0 <= p < |done| ensures done[p] != orig[j] {
      assert Apart(orig, idx[p], j);
    }
    forall k | 0 <= k < |orig| && k != j
      ensures Separate(orig[k], orig[j])
    {
      assert Apart(orig, k, j);
    }
  }

  /** The objects that updating the bullets may change. */
  ghost function Parts(bs: seq<Bullet>): set<object>
  {
    if bs == [] then {} else {bs[0], bs[0].body, bs[0].body.shape} + Parts(bs[1..])
  }

  /** A bullet, its entity and its shape are among the parts. */
  lemma {:induction false} InParts(bs: seq<Bullet>, k: nat)
    requires k < |bs|
    ensures bs[k] in Parts(bs) && bs[k].body in Parts(bs) && bs[k].body.shape in Parts(bs)
  {
    if k > 0 {
      InParts(bs[1..], k - 1);
    }
  }

  /** Firing adds the new bullet's objects to the parts. */
  lemma {:induction false} PartsAppend(bs: seq<Bullet>, b: Bullet)
    ensures Parts(bs + [b]) == Parts(bs) + {b, b.body, b.body.shape}
  {
    if bs == [] {
      assert [b][1..] == [];
    } else {
      assert (bs + [b])[1..] == bs[1..] + [b];
      PartsAppend(bs[1..], b);
    }
  }

  /** The ship, its list, its entity and its entity's shape are not among
      its bullets' parts. */
  lemma {:induction false} PartsAvoid(ship: Ship, bs: seq<Bullet>)
    requires forall i :: 0 <= i < |bs| ==> bs[i].body != ship.body && bs[i].body.shape != ship.body.shape
    ensures ship !in Parts(bs) && ship.bullets !in Parts(bs)
    ensures ship.body !in Parts(bs) && ship.body.shape !in Parts(bs)
  {
    if bs != [] {
      assert bs[0].body != ship.body && bs[0].body.shape != ship.body.shape;
      PartsAvoid(ship, bs[1..]);
    }
  }

  /** Bullet b and its entity and shape are none of the ship's objects. */
  ghost predicate Away(ship: Ship, b: Bullet)
  {
    b as object != ship && b as object != ship.bullets && b as object != ship.body
    && b as object != ship.body.shape
    && b.body as object != ship && b.body as object != ship.bullets && b.body != ship.body
    && b.body as object != ship.body.shape
    && b.body.shape as object != ship && b.body.shape as object != ship.bullets
    && b.body.shape as object != ship.body && b.body.shape != ship.body.shape
  }

  /** A ship's bullets are away from it. */
  lemma AllAway(ship: Ship, bs: seq<Bullet>)
    requires forall i :: 0 <= i < |bs| ==> bs[i].body != ship.body && bs[i].body.shape != ship.body.shape
    ensures forall k :: 0 <= k < |bs| ==> Away(ship, bs[k])
  {
  }

  /** A new bullet, apart from the fleet and the ship, joins the fleet. */
  lemma FleetAppend(ship: Entity, bs: seq<Bullet>, b: Bullet)
    requires Fleet(ship, bs) && b.Valid()
    requires b.body != ship && b.body.shape != ship.shape
    requires forall i :: 0 <= i < |bs| ==> Separate(bs[i], b) && Separate(b, bs[i])
    ensures Fleet(ship, bs + [b])
  {
    var cs := bs + [b];
    forall i, j | 0 <= i < |cs| && 0 <= j < |cs| && i != j ensures Apart(cs, i, j) {
      if i < |bs| && j < |bs| {
        assert Apart(bs, i, j);
      } else if i < |bs| {
        assert Separate(bs[i], b);
      } else {
        assert Separate(b, bs[j]);
      }
    }
  }

  /** The states of a list of bullets. */
  ghost function States(bs: seq<Bullet>): (r: seq<BulletState>)
    reads Parts(bs)
    ensures |r| == |bs|
    ensures forall k :: 0 <= k < |bs| ==> r[k] == bs[k].State()
  {
    if bs == [] then [] else [bs[0].State()] + States(bs[1..])
  }

  /** The states of a list with a bullet appended. */
  lemma StatesAppend(bs: seq<Bullet>, b: Bullet)
    ensures States(bs + [b]) == States(bs) + [b.State()]
  {
    assert forall k :: 0 <= k < |bs| ==> (bs + [b])[k] == bs[k];
  }

  /** Which bullets, in states ss, the removal loop drops once it has
      updated them: those expired already or whose lifespan reaches the
      maximum this frame. */
  function Expiring(ss: seq<BulletState>, dt: real): (d: seq<bool>)
    ensures |d| == |ss|
  {
    seq(|ss|, k requires 0 <= k < |ss| => ss[k].expired || ss[k].lifespan + dt >= MaxLifespan)
  }

  /** A bullet is dropped exactly when it is expired after its update. */
  lemma ExpiringMeansExpired(ss: seq<BulletState>, dt: real, wrap: real -> real, k: nat)
    requires k < |ss|
    ensures Expiring(ss, dt)[k] == Aged(ss[k], dt, wrap).expired
  {
  }

  /** A bullet fired this frame is dropped at the end of it exactly when
      the frame lasts the whole lifespan. */
  lemma ExpiringFired(ss: seq<BulletState>, s: BulletState, dt: real)
    requires !s.expired && s.lifespan == 0.0
    ensures Expiring(ss + [s], dt) == Expiring(ss, dt) + [dt >= MaxLifespan]
  {
    assert forall k :: 0 <= k < |ss| ==> (ss + [s])[k] == ss[k];
  }

  /** The bullets' states now, while the removal loop runs: those it has
      visited before index j are updated, the others are as they started. */
  ghost predicate Progress(now: seq<BulletState>, start: seq<BulletState>, dt: real, wrap: real -> real, j: nat)
  {
    |now| == |start|
    && forall k :: 0 <= k < |start| ==>
         now[k] == if k < j && Visited(Expiring(start, dt), k) then Aged(start[k], dt, wrap) else start[k]
  }

  /** Visiting index j, then moving on to j', keeps the progress. */
  lemma ProgressStep(now: seq<BulletState>, start: seq<BulletState>, dt: real, wrap: real -> real, j: nat, j': nat)
    requires Progress(now, start, dt, wrap, j) && j < |start|
    requires Visited(Expiring(start, dt), j)
    requires forall k :: 0 <= k < |start| ==>
               (k < j' && Visited(Expiring(start, dt), k) <==> k <= j && Visited(Expiring(start, dt), k))
    ensures Progress(now[j := Aged(now[j], dt, wrap)], start, dt, wrap, j')
  {
  }

  /** The states of bullets in states ss after the removal loop: those it
      visits are updated, those it steps over are left as they were. */
  function AfterLoop(ss: seq<BulletState>, dt: real, wrap: real -> real): (r: seq<BulletState>)
    ensures |r| == |ss|
  {
    var drop := Expiring(ss, dt);
    seq(|ss|, k requires 0 <= k < |ss| => if Visited(drop, k) then Aged(ss[k], dt, wrap) else ss[k])
  }

  // ---------------------------------------------------------------------
  // Ship

  const MaxSpeed: real := 1.5
  const ShootDelay: real := 0.4
  const ShipVerts: seq<real> := [20.0, 0.0, -30.0, 20.0, -30.0, -20.0]
  /** A bullet appears this far ahead of the ship, along its direction. */
  const Muzzle: real := 3.0

  /** The keys the ship reads: W thrusts, A and D turn, SPACE shoots. */
  datatype Keys = Keys(w: bool, a: bool, d: bool, space: bool)

  /** The movement after thrust: W adds direction times speed times dt. */
  function Thrust(movement: Vector, direction: Vector, linSpeed: real, dt: real, w: bool): Vector
  {
    if w then Add(movement, Scale(Scale(direction, linSpeed), dt)) else movement
  }

  /** The speed limit: the movement normalised and scaled by its clamped
      length. */
  function CapSpeed(m: MathLib, v: Vector): Vector
  {
    Scale(Normalize(m, v), Clamp(Length(m, v), -MaxSpeed, MaxSpeed))
  }

  /** The capped movement is never longer than the maximum speed; a movement
      within the limit is kept exactly, one beyond it keeps its direction at
      the maximum length, and no movement stays no movement. */
  lemma CapSpeedProperties(m: MathLib, v: Vector)
    requires m.Sound()
    ensures Length(m, CapSpeed(m, v)) <= MaxSpeed
    ensures Length(m, v) <= MaxSpeed ==> CapSpeed(m, v) == v
    ensures Length(m, v) > MaxSpeed ==>
              Length(m, CapSpeed(m, v)) == MaxSpeed
              && CapSpeed(m, v) == Scale(v, MaxSpeed / Length(m, v))
    ensures v == Zero() ==> CapSpeed(m, v) == Zero()
  {
    LengthZero(m, v);
    var len := Length(m, v);
    var k := Clamp(len, -MaxSpeed, MaxSpeed);
    NormalizeProperties(m, v);
    if v == Zero() {
      assert Normalize(m, v) == Zero();
      LengthZero(m, Zero());
    } else {
      var n := Normalize(m, v);
      LengthScale(m, n, k);
      assert Length(m, CapSpeed(m, v)) == k;
      ScaleTwice(v.x, 1.0 / len, k);
      ScaleTwice(v.y, 1.0 / len, k);
      assert CapSpeed(m, v) == Scale(v, (1.0 / len) * k);
      if len <= MaxSpeed {
        InverseTimes(len);
      } else {
        DivideAsScale(MaxSpeed, len);
      }
    }
  }

  lemma ScaleTwice(x: real, a: real, b: real)
    ensures x * a * b == x * (a * b)
  {
  }

  lemma InverseTimes(k: real)
    requires k != 0.0
    ensures (1.0 / k) * k == 1.0
  {
  }

  /** What the ship's update reads and writes besides its bullets. */
  datatype ShipState = ShipState(body: EntityState, movement: Vector, lastShoot: real)

  /** SPACE is held and the delay since the last shot has passed. */
  predicate Shoots(s: ShipState, keys: Keys)
  {
    keys.space && s.lastShoot >= ShootDelay
  }

  /** The `rot` setter on an entity's state: the direction follows. */
  function Turned(m: MathLib, b: EntityState, r: real): EntityState
  {
    b.(rot := r, direction := Vector(m.cos(r), m.sin(r)))
  }

  /** `__handle_input` on the ship's state: thrust and the speed limit,
      turning (A wins over D), and the shot timer, reset by a shot and
      otherwise advanced by dt. */
  function Steered(m: MathLib, s: ShipState, keys: Keys, dt: real): ShipState
  {
    var b := s.body;
    ShipState(Turning(m, b, keys), CapSpeed(m, Thrust(s.movement, b.direction, b.linSpeed, dt, keys.w)),
              if Shoots(s, keys) then 0.0 else s.lastShoot + dt)
  }

  /** The entity after the turning keys: A wins over D. */
  function Turning(m: MathLib, b: EntityState, keys: Keys): EntityState
  {
    if keys.a then Turned(m, b, b.rot + b.rotSpeed)
    else if keys.d then Turned(m, b, b.rot - b.rotSpeed)
    else b
  }

  /** The bullet a ship in state s fires: at the muzzle, ahead of the ship
      along its direction, with the ship's rotation. */
  function Shot(m: MathLib, s: ShipState): BulletState
  {
    BulletState(Spawned(m, BulletVerts, s.body.direction, 3.0, 0.0,
                        Add(s.body.pos, Scale(s.body.direction, Muzzle)), s.body.rot, 0.25),
                0.0, false)
  }

  /** The rest of `update` before the bullets: move by the movement, give
      the shape the pose, reflect across the screen. */
  function Placed(s: ShipState): ShipState
  {
    var p := Add(s.body.pos, s.movement);
    s.(body := s.body.(pos := ReflectPos(p, s.body.reach), shapePos := p,
                       shapeRot := s.body.rot, shapeScale := s.body.scale))
  }

  /** Reading the input never leaves the ship faster than the maximum
      speed; A turns left by the rotation speed, D (without A) right, and
      the direction follows; with neither the entity is unchanged; a shot
      resets the timer and otherwise it advances by dt. */
  lemma SteeredProperties(m: MathLib, s: ShipState, keys: Keys, dt: real)
    requires m.Sound()
    ensures Length(m, Steered(m, s, keys, dt).movement) <= MaxSpeed
    ensures keys.a ==> Steered(m, s, keys, dt).body.rot == s.body.rot + s.body.rotSpeed
    ensures !keys.a && keys.d ==> Steered(m, s, keys, dt).body.rot == s.body.rot - s.body.rotSpeed
    ensures keys.a || keys.d ==>
              Steered(m, s, keys, dt).body.direction
              == Vector(m.cos(Steered(m, s, keys, dt).body.rot), m.sin(Steered(m, s, keys, dt).body.rot))
    ensures !keys.a && !keys.d ==> Steered(m, s, keys, dt).body == s.body
    ensures Steered(m, s, keys, dt).body.pos == s.body.pos
    ensures Steered(m, s, keys, dt).lastShoot == if Shoots(s, keys) then 0.0 else s.lastShoot + dt
  {
    CapSpeedProperties(m, Thrust(s.movement, s.body.direction, s.body.linSpeed, dt, keys.w));
  }

  /** The shot delay: right after a shot the ship cannot shoot again, and
      it needs frames adding up to the delay before it can. */
  lemma ShotCooldown(m: MathLib, s: ShipState, keys: Keys, keys': Keys, dt: real)
    requires Shoots(s, keys)
    ensures !Shoots(Steered(m, s, keys, dt), keys')
    ensures Shoots(Steered(m, Steered(m, s, keys, dt), keys', dt), keys') ==> keys'.space && dt >= ShootDelay
  {
  }

  /** A ship inside the padded window that moves by at most its effective
      length on each axis is inside it again after the move and the
      reflection; its shape keeps the unreflected position. */
  lemma PlacedInPlay(s: ShipState)
    requires WindowWidth >= 0 && WindowHeight >= 0 && s.body.reach >= 0.0
    requires InPlay(s.body.pos, s.body.reach)
    requires Abs(s.movement.x) <= s.body.reach && Abs(s.movement.y) <= s.body.reach
    ensures InPlay(Placed(s).body.pos, s.body.reach)
    ensures Placed(s).body.shapePos == Add(s.body.pos, s.movement)
  {
    ReflectKeepsInPlay(s.body.pos.x, s.movement.x, s.body.reach, WindowWidth as real);
    ReflectKeepsInPlay(s.body.pos.y, s.movement.y, s.body.reach, WindowHeight as real);
  }

  class BulletList {
    var items: seq<Bullet>

    constructor ()
      ensures items == []
    {
      items := [];
    }
  }

  class Ship {
    const body: Entity
    /** The list the player holds too. */
    const bullets: BulletList
    var movement: Vector
    var lastShoot: real

    ghost predicate Valid()
      reads this, bullets
    {
      body.Valid() && Fleet(body, bullets.items)
    }

    /** `Ship(pos, rot)`: not moving, no bullets, ready to shoot, speed 1,
        rotation speed 1.8, scale 0.5, facing along its rotation. */
    constructor (m: MathLib, pos: Vector, rot: real)
      ensures Valid() && fresh(body) && fresh(body.shape) && fresh(bullets) && body.shape.verts == ShipVerts
      ensures body.State() == Spawned(m, ShipVerts, Vector(m.cos(rot), m.sin(rot)), 1.0, 1.8, pos, rot, 0.5)
      ensures movement == Zero() && bullets.items == [] && lastShoot == ShootDelay
    {
      movement := Zero();
      var bl := new BulletList();
      bullets := bl;
      lastShoot := ShootDelay;
      body := new Entity(m, ShipVerts, Vector(m.cos(rot), m.sin(rot)), 1.0, 1.8, pos, rot, 0.5);
    }

    /** The `rot` setter: the direction follows the rotation. */
    method SetRot(m: MathLib, value: real)
      modifies body`rot, body`direction
      ensures body.rot == value && body.direction == Vector(m.cos(value), m.sin(value))
    {
      body.rot := value;
      body.direction := Vector(m.cos(value), m.sin(value));
    }

    /** Everything the ship's update reads and writes besides the bullets. */
    ghost function Pose(): ShipState
      reads this, body, body.shape
    {
      ShipState(body.State(), movement, lastShoot)
    }

    /** `__handle_input`. The bullet it fires, if any, is returned for the
        contracts only. */
    method HandleInput(m: MathLib, keys: Keys, dt: real) returns (ghost fired: seq<Bullet>)
      requires Valid()
      modifies this, body`rot, body`direction, bullets
      ensures Valid()
      ensures Pose() == Steered(m, old(Pose()), keys, dt)
      ensures Shoots(old(Pose()), keys) ==>
                |fired| == 1 && fresh(fired[0]) && fresh(fired[0].body) && fresh(fired[0].body.shape)
                && fired[0].State() == Shot(m, Pose())
      ensures !Shoots(old(Pose()), keys) ==> fired == []
      ensures fresh(Parts(fired))
      ensures bullets.items == old(bullets.items) + fired
      ensures forall k :: 0 <= k < |old(bullets.items)| ==>
                unchanged(old(bullets.items)[k], old(bullets.items)[k].body, old(bullets.items)[k].body.shape)
    {
      AllAway(this, bullets.items);
      Steer(m, keys, dt);
      fired := [];
      if keys.space && lastShoot >= ShootDelay {
        var b := Fire(m);
        fired := [b];
        lastShoot := 0.0;
      } else {
        lastShoot := lastShoot + dt;
      }
    }

    /** The thrust, the speed cap and the turning of `__handle_input`. */
    method Steer(m: MathLib, keys: Keys, dt: real)
      modifies this`movement, body`rot, body`direction
      ensures movement == CapSpeed(m, Thrust(old(movement), old(body.direction), body.linSpeed, dt, keys.w))
      ensures body.State() == Turning(m, old(body.State()), keys)
    {
      if keys.w {
        movement := Add(movement, Scale(Scale(body.direction, body.linSpeed), dt));
      }
      var newLength := Clamp(Length(m, movement), -MaxSpeed, MaxSpeed);
      movement := Normalize(m, movement);
      movement := Scale(movement, newLength);

      if keys.a {
        SetRot(m, body.rot + body.rotSpeed);
      } else if keys.d {
        SetRot(m, body.rot - body.rotSpeed);
      }
    }

    /** A shot: a bullet at the muzzle, ahead of the ship along its
        direction, with the ship's rotation, appended to the list. */
    method Fire(m: MathLib) returns (b: Bullet)
      requires Valid()
      modifies bullets
      ensures Valid()
      ensures fresh(b) && fresh(b.body) && fresh(b.body.shape) && fresh(Parts([b]))
      ensures b.State() == Shot(m, Pose())
      ensures bullets.items == old(bullets.items) + [b]
    {
      var bulletPos := Add(body.pos, Scale(body.direction, Muzzle));
      b := new Bullet(m, bulletPos, body.rot, body.direction);
      FleetAppend(body, bullets.items, b);
      PartsAppend([], b);
      bullets.items := bullets.items + [b];
    }

    /** `update`'s loop over the bullets: update each one and remove it
        when it has expired. Removing while iterating makes Python step
        over the bullet after each removed one, and a skipped bullet is
        not updated this frame. */
    method UpdateBullets(dt: real, wrap: real -> real)
      requires Valid()
      modifies bullets, Parts(bullets.items)
      ensures Valid()
      ensures bullets.items == Sweep(old(bullets.items), Expiring(old(States(bullets.items)), dt))
      ensures States(old(bullets.items)) == AfterLoop(old(States(bullets.items)), dt, wrap)
      ensures unchanged(this, body, body.shape)
    {
      ghost var orig := bullets.items;
      var items := SweepBullets(body, bullets.items, dt, wrap);
      ghost var after := States(orig);
      PartsAvoid(this, orig);
      bullets.items := items;
      assert States(orig) == after;
    }

    /** `update`: move the ship (see Move), then update the bullets and
        remove the expired ones; a bullet fired this frame joins the list
        first. */
    method Update(m: MathLib, keys: Keys, dt: real, wrap: real -> real) returns (ghost fired: seq<Bullet>)
      requires Valid()
      modifies this, body, body.shape, bullets, Parts(bullets.items)
      ensures Valid()
      ensures Pose() == Placed(Steered(m, old(Pose()), keys, dt))
      ensures Shoots(old(Pose()), keys) ==> |fired| == 1 && fresh(fired[0])
      ensures !Shoots(old(Pose()), keys) ==> fired == []
      ensures fresh(Parts(fired))
      ensures bullets.items == Sweep(old(bullets.items) + fired, Expiring(Entering(m, old(Pose()), old(States(bullets.items)), keys, dt), dt))
      ensures States(old(bullets.items) + fired)
              == AfterLoop(Entering(m, old(Pose()), old(States(bullets.items)), keys, dt), dt, wrap)
    {
      ghost var before := States(bullets.items);
      ghost var olds := bullets.items;
      ghost var s := Pose();
      fired := Move(m, keys, dt);
      assert forall k :: 0 <= k < |olds| ==> olds[k].State() == before[k];
      EnteringStates(m, s, keys, dt, olds, fired, before);
      UpdateBullets(dt, wrap);
    }

    /** The first part of `update`: read the input, move by the movement,
        give the shape the pose and reflect across the screen. The bullets
        already fired are left alone. */
    method Move(m: MathLib, keys: Keys, dt: real) returns (ghost fired: seq<Bullet>)
      requires Valid()
      modifies this, body, body.shape, bullets
      ensures Valid()
      ensures Pose() == Placed(Steered(m, old(Pose()), keys, dt))
      ensures Shoots(old(Pose()), keys) ==>
                |fired| == 1 && fresh(fired[0]) && fresh(fired[0].body) && fresh(fired[0].body.shape)
                && fired[0].State() == Shot(m, Steered(m, old(Pose()), keys, dt))
      ensures !Shoots(old(Pose()), keys) ==> fired == []
      ensures fresh(Parts(fired))
      ensures bullets.items == old(bullets.items) + fired
      ensures forall k :: 0 <= k < |old(bullets.items)| ==>
                unchanged(old(bullets.items)[k], old(bullets.items)[k].body, old(bullets.items)[k].body.shape)
    {
      fired := HandleInput(m, keys, dt);
      Place();
    }

    /** Move the entity by the movement, give the shape the entity's pose,
        then reflect across the screen. */
    method Place()
      requires Valid()
      modifies body`pos, body.shape`pos, body.shape`rot, body.shape`scale
      ensures Valid()
      ensures Pose() == Placed(old(Pose()))
      ensures forall k :: 0 <= k < |bullets.items| ==>
                unchanged(bullets.items[k], bullets.items[k].body, bullets.items[k].body.shape)
    {
      AllAway(this, bullets.items);
      body.pos := Add(body.pos, movement);
      body.shape.pos := body.pos;
      body.shape.rot := body.rot;
      body.shape.scale := body.scale;
      body.ReflectAcrossScreen();
    }
  }

  /** The states of a ship's bullets when its update reaches the loop: those
      it had, and the one it fires, if it fires. */
  function Entering(m: MathLib, s: ShipState, ss: seq<BulletState>, keys: Keys, dt: real): seq<BulletState>
  {
    if Shoots(s, keys) then ss + [Shot(m, Steered(m, s, keys, dt))] else ss
  }

  /** The bullets entering the loop of `Ship.update`: those the ship had,
      in their states before, and the one it fired, if it fired. */
  lemma EnteringStates(m: MathLib, s: ShipState, keys: Keys, dt: real,
                       olds: seq<Bullet>, fired: seq<Bullet>, before: seq<BulletState>)
    requires |before| == |olds| && forall k :: 0 <= k < |olds| ==> olds[k].State() == before[k]
    requires Shoots(s, keys) ==> |fired| == 1 && fired[0].State() == Shot(m, Steered(m, s, keys, dt))
    requires !Shoots(s, keys) ==> fired == []
    ensures States(olds + fired) == Entering(m, s, before, keys, dt)
    ensures Parts(olds + fired) == Parts(olds) + Parts(fired)
  {
    if fired != [] {
      assert fired == [fired[0]];
      PartsAppend(olds, fired[0]);
      PartsAppend([], fired[0]);
      StatesAppend(olds, fired[0]);
    } else {
      assert olds + fired == olds;
    }
  }

  /** The loop of `Ship.update` on the list bs of a ship's bullets, the
      list itself passed along and the kept bullets returned; nothing else
      reads the list while the loop runs. */
  method SweepBullets(ship: Entity, bs: seq<Bullet>, dt: real, wrap: real -> real) returns (kept: seq<Bullet>)
    requires Fleet(ship, bs)
    modifies Parts(bs)
    ensures Fleet(ship, kept)
    ensures kept == Sweep(bs, Expiring(old(States(bs)), dt))
    ensures States(bs) == AfterLoop(old(States(bs)), dt, wrap)
  {
    ghost var start := States(bs);
    ghost var drop := Expiring(start, dt);
    ghost var done: seq<Bullet> := [];
    ghost var j := 0;
    SweepingStart(bs, drop);
    kept := bs;
    var i := 0;
    while i < |kept|
      invariant Sweeping(bs, drop, kept, done, i, j)
      invariant Progress(States(bs), start, dt, wrap, j)
      decreases |bs| - j
    {
      kept, done, j := VisitBullet(kept, i, dt, wrap, bs, start, done, j);
      i := i + 1;
    }
    SweepEnd(ship, bs, start, States(bs), dt, wrap, kept, done, i, j);
  }

  /** When the loop stops it has kept what the sweep keeps and aged every
      bullet it visited. */
  lemma SweepEnd(ship: Entity, bs: seq<Bullet>, start: seq<BulletState>, now: seq<BulletState>,
                 dt: real, wrap: real -> real, kept: seq<Bullet>, done: seq<Bullet>, i: nat, j: nat)
    requires Fleet(ship, bs) && i >= |kept|
    requires Sweeping(bs, Expiring(start, dt), kept, done, i, j)
    requires Progress(now, start, dt, wrap, j)
    ensures Fleet(ship, kept) && kept == Sweep(bs, Expiring(start, dt))
    ensures now == AfterLoop(start, dt, wrap)
  {
    SweepingDone(bs, Expiring(start, dt), kept, done, i, j);
    FleetWithin(ship, bs, done, j);
  }

  /** One pass of that loop, on the bullet at index i of the list, which
      is orig[j]: update it, and remove it when it has expired. */
  method VisitBullet(items: seq<Bullet>, i: nat, dt: real, wrap: real -> real, ghost orig: seq<Bullet>,
                     ghost start: seq<BulletState>, ghost done: seq<Bullet>, ghost j: nat)
    returns (items': seq<Bullet>, ghost done': seq<Bullet>, ghost j': nat)
    requires |start| == |orig|
    requires Sweeping(orig, Expiring(start, dt), items, done, i, j) && i < |items|
    requires BulletsApart(orig)
    requires Progress(States(orig), start, dt, wrap, j)
    modifies Parts(orig)
    ensures Sweeping(orig, Expiring(start, dt), items', done', i + 1, j')
    ensures Progress(States(orig), start, dt, wrap, j')
    ensures j < j'
  {
    ghost var now := States(orig);
    done', j' := VisitStep(orig, start, items, done, now, i, j, dt, wrap);
    NotKept(orig, done, j);
    var b := items[i];
    InParts(orig, j);
    AgeBullet(b, orig, j, dt, wrap);
    assert b.State() == Aged(now[j], dt, wrap);
    items' := items;
    if b.expired {
      items' := RemoveFirst(items, b);
    }
  }

  /** The bookkeeping of one pass: the bullet at index i is orig[j], not
      yet updated; it is dropped exactly when it is expired after its
      update; afterwards the loop has visited it and moves on to j'. */
  lemma VisitStep(orig: seq<Bullet>, start: seq<BulletState>, items: seq<Bullet>, done: seq<Bullet>,
                  now: seq<BulletState>, i: nat, j: nat, dt: real, wrap: real -> real)
    returns (done': seq<Bullet>, j': nat)
    requires |start| == |orig|
    requires Sweeping(orig, Expiring(start, dt), items, done, i, j) && i < |items|
    requires BulletsApart(orig)
    requires Progress(now, start, dt, wrap, j)
    ensures j < |orig| && items[i] == orig[j] && now[j] == start[j]
    ensures Expiring(start, dt)[j] == Aged(start[j], dt, wrap).expired
    ensures Sweeping(orig, Expiring(start, dt),
                     if Expiring(start, dt)[j] then RemoveFirst(items, orig[j]) else items, done', i + 1, j')
    ensures Progress(now[j := Aged(now[j], dt, wrap)], start, dt, wrap, j')
    ensures j < j'
  {
    var drop := Expiring(start, dt);
    SweepingAt(orig, drop, items, done, i, j);
    NotKept(orig, done, j);
    done', j' := SweepingStep(orig, drop, items, done, i, j);
    ProgressStep(now, start, dt, wrap, j, j');
    ExpiringMeansExpired(start, dt, wrap, j);
  }

  /** `bullet.update(dt)` on b, which is bs[j]: only b's state changes. */
  method AgeBullet(b: Bullet, ghost bs: seq<Bullet>, ghost j: nat, dt: real, wrap: real -> real)
    requires j < |bs| && bs[j] == b && b.Valid()
    requires forall k :: 0 <= k < |bs| && k != j ==> Separate(bs[k], bs[j])
    modifies b, b.body, b.body.shape
    ensures b.Valid()
    ensures States(bs) == old(States(bs))[j := Aged(old(States(bs))[j], dt, wrap)]
  {
    ghost var before := States(bs);
    b.Update(dt, wrap);
    assert forall k :: 0 <= k < |bs| && k != j ==> bs[k].State() == before[k];
    StatesAt(bs, before, j);
  }

  /** The states of bs, when all but bullet j have the states listed in
      before. */
  lemma StatesAt(bs: seq<Bullet>, before: seq<BulletState>, j: nat)
    requires j < |bs| == |before|
    requires forall k :: 0 <= k < |bs| && k != j ==> bs[k].State() == before[k]
    ensures States(bs) == before[j := bs[j].State()]
  {
  }

  // ---------------------------------------------------------------------
  // Asteroid

  datatype Size = Small | Medium | Large | Huge

  /** The number Python gives each size. */
  function Rank(size: Size): nat
  {
    match size
    case Small => 0
    case Medium => 1
    case Large => 2
    case Huge => 3
  }

  /** The factor on top of a shape's default scale. */
  function ScaleFactor(size: Size): real
  {
    match size
    case Small => 0.7
    case Medium => 1.0
    case Large => 1.2
    case Huge => 1.5
  }

  /** The scale of an asteroid of the given size whose shape has the given
      default scale. */
  function AsteroidScale(defaultScale: real, size: Size): real
  {
    defaultScale * ScaleFactor(size)
  }

  /** A medium asteroid has its shape's default scale, and the larger the
      size, the larger the factor. */
  lemma ScaleFactorOrder(a: Size, b: Size)
    ensures ScaleFactor(Medium) == 1.0
    ensures Rank(a) < Rank(b) <==> ScaleFactor(a) < ScaleFactor(b)
    ensures a == b <==> ScaleFactor(a) == ScaleFactor(b)
  {
  }

  /** The scale of a medium asteroid is its shape's default scale, and for
      a positive default scale the larger size has the larger scale. */
  lemma AsteroidScaleOrder(defaultScale: real, a: Size, b: Size)
    requires defaultScale > 0.0
    ensures AsteroidScale(defaultScale, Medium) == defaultScale
    ensures Rank(a) < Rank(b) <==> AsteroidScale(defaultScale, a) < AsteroidScale(defaultScale, b)
  {
    ScaleFactorOrder(a, b);
    if Rank(a) < Rank(b) {
      ScaleLess(defaultScale, ScaleFactor(a), ScaleFactor(b));
    } else {
      ScaleLess(defaultScale, ScaleFactor(b), ScaleFactor(a));
    }
  }

  lemma ScaleLess(k: real, x: real, y: real)
    requires k > 0.0
    ensures x < y <==> k * x < k * y
    ensures x == y ==> k * x == k * y
  {
    if x < y {
      assert k * y - k * x == k * (y - x);
    } else {
      assert k * x - k * y == k * (x - y);
    }
  }

  /** The sizes of the pieces `destroy` breaks an asteroid into. */
  function PieceSizes(size: Size): (r: seq<Size>)
  {
    match size
    case Small => []
    case Medium => [Small, Small]
    case Large => [Medium, Medium]
    case Huge => [Medium, Medium, Medium]
  }

  /** Every piece is smaller than the asteroid, so breaking asteroids up
      ends; only a small one leaves nothing. */
  lemma PiecesSmaller(size: Size)
    ensures forall i :: 0 <= i < |PieceSizes(size)| ==> Rank(PieceSizes(size)[i]) < Rank(size)
    ensures PieceSizes(size) == [] <==> size == Small
  {
  }

  /** One line of the shape table: the vertices and the default scale. */
  datatype ShapeEntry = ShapeEntry(verts: seq<real>, defaultScale: real)

  /** Every shape in the table has at least one vertex. */
  predicate ShapeTable(shapes: seq<ShapeEntry>)
  {
    forall i :: 0 <= i < |shapes| ==> |shapes[i].verts| >= 2
  }

  const MinLinSpeed: real := 0.5
  const MaxLinSpeed: real := 2.5
  const MaxRotSpeed: real := 2.5

  /** The random draws of one `__get_random_asteroid`: the direction from
      `rand_direction`, and the two speeds from `rand.uniform`. */
  datatype Motion = Motion(direction: Vector, linSpeed: real, rotSpeed: real)

  /** The ranges `rand.uniform` draws the speeds from. */
  predicate PieceMotion(mo: Motion)
  {
    MinLinSpeed <= mo.linSpeed <= MaxLinSpeed && 0.0 <= mo.rotSpeed <= MaxRotSpeed
  }

  class Asteroid {
    const body: Entity
    const size: Size
    /** The shape table, read once from the game's resources. */
    const shapes: seq<ShapeEntry>
    const shapeIndex: nat

    ghost predicate Valid()
    {
      body.Valid() && ShapeTable(shapes) && shapeIndex < |shapes| && body.shape.verts == shapes[shapeIndex].verts
    }

    /** `Asteroid(size, direction, lin_speed, rot_speed, shape_index, pos,
        rot)`: the shape's vertices at its default scale times the size's
        factor. A missing shape index is drawn at random by the caller. */
    constructor (m: MathLib, shapes: seq<ShapeEntry>, size: Size, direction: Vector, linSpeed: real,
                 rotSpeed: real, shapeIndex: nat, pos: Vector, rot: real)
      requires ShapeTable(shapes) && shapeIndex < |shapes|
      ensures Valid() && fresh(body) && fresh(body.shape) && body.shape.verts == shapes[shapeIndex].verts
      ensures this.size == size && this.shapes == shapes && this.shapeIndex == shapeIndex
      ensures body.State()
              == Spawned(m, shapes[shapeIndex].verts, direction, linSpeed, rotSpeed, pos, rot,
                         AsteroidScale(shapes[shapeIndex].defaultScale, size))
    {
      this.size := size;
      this.shapes := shapes;
      this.shapeIndex := shapeIndex;
      var entry := shapes[shapeIndex];
      body := new Entity(m, entry.verts, direction, linSpeed, rotSpeed, pos, rot,
                         AsteroidScale(entry.defaultScale, size));
    }

    /** Asteroid a is a piece of this one, of size sz, moving by motion d:
        a new entity of this asteroid's shape at its position, with d's
        speeds and direction, no rotation and the scale of its size. Its
        polygon is placed there too, with the effective length of that
        scale. */
    ghost predicate PieceOf(m: MathLib, a: Asteroid, sz: Size, d: Motion)
      reads this, body, a, a.body, a.body.shape
    {
      a.Valid() && a.size == sz && a.shapes == shapes && a.shapeIndex == shapeIndex
      && a.body.State()
         == Spawned(m, shapes[shapeIndex].verts, d.direction, d.linSpeed, d.rotSpeed, body.pos, 0.0,
                    AsteroidScale(shapes[shapeIndex].defaultScale, sz))
    }

    /** `__get_random_asteroid`: a piece of the given size, with this
        asteroid's shape and position, no rotation, and the drawn motion. */
    method RandomPiece(m: MathLib, size: Size, motion: Motion) returns (a: Asteroid)
      requires Valid() && PieceMotion(motion)
      ensures fresh(a) && fresh(a.body) && fresh(a.body.shape)
      ensures PieceOf(m, a, size, motion)
    {
      a := new Asteroid(m, shapes, size, motion.direction, motion.linSpeed, motion.rotSpeed,
                        shapeIndex, body.pos, 0.0);
    }

    /** `destroy`: the pieces, one per draw, of the sizes PieceSizes gives,
        each with this asteroid's shape and position. */
    method Destroy(m: MathLib, motions: seq<Motion>) returns (pieces: seq<Asteroid>)
      requires Valid()
      requires |motions| == |PieceSizes(size)|
      requires forall i :: 0 <= i < |motions| ==> PieceMotion(motions[i])
      ensures |pieces| == |PieceSizes(size)|
      ensures forall i :: 0 <= i < |pieces| ==> fresh(pieces[i]) && fresh(pieces[i].body)
      ensures forall i :: 0 <= i < |pieces| ==> PieceOf(m, pieces[i], PieceSizes(size)[i], motions[i])
    {
      match size
      case Small =>
        pieces := [];
      case Medium =>
        pieces := RandomPieces(m, Small, motions);
      case Large =>
        pieces := RandomPieces(m, Medium, motions);
      case Huge =>
        pieces := RandomPieces(m, Medium, motions);
    }

    /** Two or three random pieces of one size, one per draw. */
    method RandomPieces(m: MathLib, sz: Size, motions: seq<Motion>) returns (pieces: seq<Asteroid>)
      requires Valid() && 2 <= |motions| <= 3
      requires forall i :: 0 <= i < |motions| ==> PieceMotion(motions[i])
      ensures |pieces| == |motions|
      ensures forall i :: 0 <= i < |pieces| ==> fresh(pieces[i]) && fresh(pieces[i].body)
      ensures forall i :: 0 <= i < |pieces| ==> PieceOf(m, pieces[i], sz, motions[i])
    {
      var a := RandomPiece(m, sz, motions[0]);
      var b := RandomPiece(m, sz, motions[1]);
      if |motions| == 2 {
        pieces := [a, b];
      } else {
        var c := RandomPiece(m, sz, motions[2]);
        pieces := [a, b, c];
      }
    }
  }
}
