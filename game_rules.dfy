/** The rules that decide which asteroids appear and how often, and the
    manager that moves the asteroids and spawns new ones each frame. */
module GameRules {
  import opened Utils
  import opened Entities

  // ---------------------------------------------------------------------
  // GameRules

  /** A set of rules: the size weights as (size, weight) pairs, the cap on
      the number of generated asteroids, and the bounds of the delay
      between two spawns. */
  datatype Rules = Rules(sizeWeights: seq<(Size, int)>, maxTotal: int, minTime: int, maxTime: int)

  /** `GameRules(small_weight, medium_weight, large_weight, huge_weight,
      max_total, min_time, max_time)`. */
  function NewRules(small: int, medium: int, large: int, huge: int,
                    maxTotal: int, minTime: int, maxTime: int): Rules
  {
    Rules([(Small, small), (Medium, medium), (Large, large), (Huge, huge)], maxTotal, minTime, maxTime)
  }

  /** The weight a table of pairs gives a size: that of its first pair. */
  function WeightOf(table: seq<(Size, int)>, size: Size): Option<int>
  {
    if table == [] then None
    else if table[0].0 == size then Some(table[0].1)
    else WeightOf(table[1..], size)
  }

  /** The table lists the four sizes once each, smallest first, and gives
      each size the weight passed for it; the other rules are kept. */
  lemma NewRulesTable(small: int, medium: int, large: int, huge: int,
                      maxTotal: int, minTime: int, maxTime: int)
    ensures var r := NewRules(small, medium, large, huge, maxTotal, minTime, maxTime);
      && |r.sizeWeights| == 4
      && (forall i :: 0 <= i < 4 ==> Rank(r.sizeWeights[i].0) == i)
      && WeightOf(r.sizeWeights, Small) == Some(small)
      && WeightOf(r.sizeWeights, Medium) == Some(medium)
      && WeightOf(r.sizeWeights, Large) == Some(large)
      && WeightOf(r.sizeWeights, Huge) == Some(huge)
      && r.maxTotal == maxTotal && r.minTime == minTime && r.maxTime == maxTime
  {
    var t := NewRules(small, medium, large, huge, maxTotal, minTime, maxTime).sizeWeights;
    assert t[1..] == [(Medium, medium), (Large, large), (Huge, huge)];
    assert t[1..][1..] == [(Large, large), (Huge, huge)];
    assert t[1..][1..][1..] == [(Huge, huge)];
    assert WeightOf(t[1..][1..][1..], Huge) == Some(huge);
    assert WeightOf(t[1..][1..], Large) == Some(large);
    assert WeightOf(t[1..][1..], Huge) == Some(huge);
    assert WeightOf(t[1..], Medium) == Some(medium);
    assert WeightOf(t[1..], Large) == Some(large);
    assert WeightOf(t[1..], Huge) == Some(huge);
  }

  // ---------------------------------------------------------------------
  // Spawn positions

  /** Python 2's `range(lo, hi, step)` for a positive step: lo, lo + step,
      and so on while below hi. */
  function Range(lo: int, hi: int, step: nat): seq<int>
    requires step > 0
    decreases hi - lo
  {
    if lo >= hi then [] else [lo] + Range(lo + step, hi, step)
  }

  /** Element k of a range is lo + k * step, below hi. */
  lemma {:induction false} RangeElements(lo: int, hi: int, step: nat)
    requires step > 0
    ensures forall k :: 0 <= k < |Range(lo, hi, step)| ==>
              Range(lo, hi, step)[k] == lo + k * step && lo <= Range(lo, hi, step)[k] < hi
    decreases hi - lo
  {
    if lo < hi {
      RangeElements(lo + step, hi, step);
      var r := Range(lo, hi, step);
      forall k | 0 < k < |r|
        ensures r[k] == lo + k * step
      {
        assert r[k] == Range(lo + step, hi, step)[k - 1];
        assert (lo + step) + (k - 1) * step == lo + k * step;
      }
    }
  }

  /** The coordinates `__gen_asteroid` picks from along an axis of the
      given extent: 10 to 60 beyond either edge, in steps of 10. */
  function SpawnCoords(extent: int): seq<int>
  {
    Range(-60, -10, 10) + Range(extent + 20, extent + 70, 10)
  }

  /** There are ten of them: -60, -50, -40, -30, -20, and extent + 20 to
      extent + 60. */
  lemma SpawnCoordsValues(extent: int)
    ensures SpawnCoords(extent)
            == [-60, -50, -40, -30, -20, extent + 20, extent + 30, extent + 40, extent + 50, extent + 60]
  {
    assert Range(-20, -10, 10) == [-20];
    assert Range(-30, -10, 10) == [-30, -20];
    assert Range(-40, -10, 10) == [-40, -30, -20];
    assert Range(-50, -10, 10) == [-50, -40, -30, -20];
    assert Range(extent + 60, extent + 70, 10) == [extent + 60];
    assert Range(extent + 50, extent + 70, 10) == [extent + 50, extent + 60];
    assert Range(extent + 40, extent + 70, 10) == [extent + 40, extent + 50, extent + 60];
    assert Range(extent + 30, extent + 70, 10) == [extent + 30, extent + 40, extent + 50, extent + 60];
  }

  /** Every coordinate picked lies at least 20 outside the edges and at
      most 60 beyond them. */
  lemma SpawnCoordsOutside(extent: int, k: nat)
    requires k < |SpawnCoords(extent)|
    ensures SpawnCoords(extent)[k] <= -20 || extent + 20 <= SpawnCoords(extent)[k]
    ensures -60 <= SpawnCoords(extent)[k] <= -20 || extent + 20 <= SpawnCoords(extent)[k] <= extent + 60
  {
    SpawnCoordsValues(extent);
  }

  // ---------------------------------------------------------------------
  // The speed bounds `__gen_asteroid` reads

  /** The speed bounds class Asteroid declares, under the names Python
      stores them by: inside a class body an identifier that starts with
      two underscores (and does not end with two) is stored as
      `_Asteroid__name`. */
  function AsteroidClassAttributes(): map<string, real>
  {
    map["_Asteroid__max_lin_speed" := MaxLinSpeed,
        "_Asteroid__max_rot_speed" := MaxRotSpeed,
        "_Asteroid__min_lin_speed" := MinLinSpeed]
  }

  /** `Asteroid.<name>` read from outside the class; None stands for
      AttributeError. */
  function AsteroidAttribute(name: string): Option<real>
  {
    if name in AsteroidClassAttributes() then Some(AsteroidClassAttributes()[name]) else None
  }

  /** The bounds (min linear, max linear, max rotational speed) as
      `__gen_asteroid` writes them; None when a lookup fails. */
  function SpawnSpeedBoundsAsWritten(): Option<(real, real, real)>
  {
    SpeedBounds("min_lin_speed", "max_lin_speed", "max_rot_speed")
  }

  /** The three lookups, failing if any fails. */
  function SpeedBounds(lo: string, hi: string, rot: string): Option<(real, real, real)>
  {
    var a, b, c := AsteroidAttribute(lo), AsteroidAttribute(hi), AsteroidAttribute(rot);
    if a.Some? && b.Some? && c.Some? then Some((a.value, b.value, c.value)) else None
  }

  /** As written, the first lookup already fails: the class stores its
      bounds under the longer private names, so every spawn raises
      AttributeError. */
  lemma SpawnSpeedBoundsFail()
    ensures AsteroidAttribute("min_lin_speed") == None
    ensures SpawnSpeedBoundsAsWritten() == None
  {
    assert |"min_lin_speed"| == 13;
    assert |"_Asteroid__max_lin_speed"| == 24 && |"_Asteroid__max_rot_speed"| == 24;
    assert |"_Asteroid__min_lin_speed"| == 24;
  }

  /** The bounds read under the stored names, as `__get_random_asteroid`
      reads them from inside the class. */
  function SpawnSpeedBounds(): Option<(real, real, real)>
  {
    SpeedBounds("_Asteroid__min_lin_speed", "_Asteroid__max_lin_speed", "_Asteroid__max_rot_speed")
  }

  /** Read that way the lookups succeed and give the bounds pieces use. */
  lemma SpawnSpeedBoundsFound()
    ensures SpawnSpeedBounds() == Some((MinLinSpeed, MaxLinSpeed, MaxRotSpeed))
  {
  }

  // ---------------------------------------------------------------------
  // Spawn timing

  /** The manager's counters: the asteroids generated so far, the delay
      before the next spawn and the time since the last one. */
  datatype Counters = Counters(count: int, nextGen: int, lastGen: real)

  /** A spawn is due when the delay has passed and the cap is not reached. */
  predicate Due(rules: Rules, c: Counters)
  {
    c.lastGen >= c.nextGen as real && c.count < rules.maxTotal
  }

  /** The counters after one `update` of dt: on a spawn the count goes up,
      delay becomes the next delay and the clock restarts; the clock then
      advances by dt either way. */
  function Tick(rules: Rules, c: Counters, dt: real, delay: int): Counters
  {
    if Due(rules, c) then Counters(c.count + 1, delay, 0.0 + dt)
    else c.(lastGen := c.lastGen + dt)
  }

  /** One update spawns at most once, exactly when due; a drawn delay lies
      in the rules' bounds; the cap is never passed. */
  lemma TickProperties(rules: Rules, c: Counters, dt: real, delay: int)
    requires Due(rules, c) ==> rules.minTime <= delay <= rules.maxTime
    ensures Tick(rules, c, dt, delay).count == if Due(rules, c) then c.count + 1 else c.count
    ensures c.count <= rules.maxTotal ==> Tick(rules, c, dt, delay).count <= rules.maxTotal
    ensures Due(rules, c) ==> rules.minTime <= Tick(rules, c, dt, delay).nextGen <= rules.maxTime
    ensures Due(rules, c) ==> Tick(rules, c, dt, delay).lastGen == dt
    ensures !Due(rules, c) ==> Tick(rules, c, dt, delay) == c.(lastGen := c.lastGen + dt)
  {
  }

  /** The counters after a run of updates, with the frame times dts and
      the delays drawn on them. */
  function Ticks(rules: Rules, c: Counters, dts: seq<real>, delays: seq<int>): Counters
    requires |delays| == |dts|
    decreases |dts|
  {
    if dts == [] then c else Ticks(rules, Tick(rules, c, dts[0], delays[0]), dts[1..], delays[1..])
  }

  /** Over any run the count rises by at most one per update, and it never
      passes the cap if it started within it. */
  lemma {:induction false} TicksCount(rules: Rules, c: Counters, dts: seq<real>, delays: seq<int>)
    requires |delays| == |dts|
    decreases |dts|
    ensures c.count <= Ticks(rules, c, dts, delays).count <= c.count + |dts|
    ensures c.count <= rules.maxTotal ==> Ticks(rules, c, dts, delays).count <= rules.maxTotal
  {
    if dts != [] {
      TicksCount(rules, Tick(rules, c, dts[0], delays[0]), dts[1..], delays[1..]);
    }
  }

  /** After a spawn with a given delay, the next update spawns again only
      if its own frame time reaches that delay. */
  lemma SpawnWaits(rules: Rules, c: Counters, dt: real, delay: int)
    requires Due(rules, c)
    ensures Due(rules, Tick(rules, c, dt, delay)) ==> dt >= delay as real
  {
  }

  // ---------------------------------------------------------------------
  // The asteroids in play

  /** The entities and shapes of the asteroids: what their updates change. */
  ghost function Bodies(asteroids: seq<Asteroid>): set<object>
  {
    if asteroids == [] then {}
    else {asteroids[0].body as object, asteroids[0].body.shape} + Bodies(asteroids[1..])
  }

  lemma {:induction false} InBodies(asteroids: seq<Asteroid>, k: nat)
    requires k < |asteroids|
    ensures asteroids[k].body in Bodies(asteroids) && asteroids[k].body.shape in Bodies(asteroids)
  {
    if k > 0 {
      InBodies(asteroids[1..], k - 1);
    }
  }

  lemma {:induction false} BodiesAppend(asteroids: seq<Asteroid>, a: Asteroid)
    ensures Bodies(asteroids + [a]) == Bodies(asteroids) + {a.body, a.body.shape}
  {
    if asteroids != [] {
      assert (asteroids + [a])[1..] == asteroids[1..] + [a];
      BodiesAppend(asteroids[1..], a);
    } else {
      assert ([] + [a])[1..] == [];
    }
  }

  lemma {:induction false} BodiesOutside(asteroids: seq<Asteroid>, a: Asteroid)
    requires forall k :: 0 <= k < |asteroids| ==> Disjoint(asteroids[k], a)
    ensures a.body !in Bodies(asteroids) && a.body.shape !in Bodies(asteroids)
  {
    if asteroids != [] {
      BodiesOutside(asteroids[1..], a);
    }
  }

  /** The manager is none of them. */
  lemma {:induction false} BodiesAvoid(mgr: AsteroidManager, asteroids: seq<Asteroid>)
    ensures mgr !in Bodies(asteroids)
  {
    if asteroids != [] {
      BodiesAvoid(mgr, asteroids[1..]);
    }
  }

  /** Asteroids a and b share no entity and no shape. */
  ghost predicate Disjoint(a: Asteroid, b: Asteroid)
  {
    a.body != b.body && a.body.shape != b.body.shape
    && a.body as object != b.body.shape && a.body.shape as object != b.body
  }

  /** Valid asteroids, no two sharing an entity or a shape. */
  ghost predicate Spread(asteroids: seq<Asteroid>)
  {
    (forall i, j :: 0 <= i < |asteroids| && 0 <= j < |asteroids| && i != j ==> Disjoint(asteroids[i], asteroids[j]))
    && forall i :: 0 <= i < |asteroids| ==> asteroids[i].Valid()
  }

  /** A fresh asteroid joins the list apart from the others. */
  lemma SpreadAppend(asteroids: seq<Asteroid>, a: Asteroid)
    requires Spread(asteroids) && a.Valid()
    requires forall k :: 0 <= k < |asteroids| ==> Disjoint(asteroids[k], a) && Disjoint(a, asteroids[k])
    ensures Spread(asteroids + [a])
  {
    var t := asteroids + [a];
    forall i, j | 0 <= i < |t| && 0 <= j < |t| && i != j
      ensures Disjoint(t[i], t[j])
    {
      if i < |asteroids| && j < |asteroids| {
        assert Disjoint(asteroids[i], asteroids[j]);
      } else if i < |asteroids| {
        assert Disjoint(asteroids[i], a);
      } else {
        assert Disjoint(a, asteroids[j]);
      }
    }
  }

  /** The entity states of the asteroids, in list order. */
  ghost function StatesOf(asteroids: seq<Asteroid>): (r: seq<EntityState>)
    reads Bodies(asteroids)
    ensures |r| == |asteroids|
    ensures forall k :: 0 <= k < |asteroids| ==> r[k] == asteroids[k].body.State()
  {
    if asteroids == [] then [] else [asteroids[0].body.State()] + StatesOf(asteroids[1..])
  }

  /** The states of the asteroids when all but asteroid j have the states
      listed in before. */
  lemma StatesOfAt(asteroids: seq<Asteroid>, before: seq<EntityState>, j: nat)
    requires j < |asteroids| == |before|
    requires forall k :: 0 <= k < |asteroids| && k != j ==> asteroids[k].body.State() == before[k]
    ensures StatesOf(asteroids) == before[j := asteroids[j].body.State()]
  {
  }

  /** The loop `for ast in self.asteroids: ast.update(dt)`: every asteroid
      moves once, in list order. */
  method MoveAsteroids(asteroids: seq<Asteroid>, wrap: real -> real)
    requires Spread(asteroids)
    modifies Bodies(asteroids)
    ensures StatesOf(asteroids) == MovedUpTo(old(StatesOf(asteroids)), wrap, |asteroids|)
  {
    ghost var start := StatesOf(asteroids);
    var i := 0;
    while i < |asteroids|
      invariant 0 <= i <= |asteroids|
      invariant StatesOf(asteroids) == MovedUpTo(start, wrap, i)
    {
      MoveAsteroid(asteroids, i, wrap);
      MovedUpToStep(start, wrap, i);
      i := i + 1;
    }
  }

  /** `ast.update(dt)` on asteroid i: only its state changes. */
  method MoveAsteroid(asteroids: seq<Asteroid>, i: nat, wrap: real -> real)
    requires i < |asteroids| && Spread(asteroids)
    modifies Bodies(asteroids)
    ensures StatesOf(asteroids) == old(StatesOf(asteroids))[i := Moved(old(StatesOf(asteroids))[i], wrap)]
  {
    ghost var before := StatesOf(asteroids);
    var a := asteroids[i];
    InBodies(asteroids, i);
    assert forall k :: 0 <= k < |asteroids| && k != i ==> Disjoint(asteroids[k], a);
    a.body.Update(wrap);
    assert forall k :: 0 <= k < |asteroids| && k != i ==> asteroids[k].body.State() == before[k];
    StatesOfAt(asteroids, before, i);
  }

  // ---------------------------------------------------------------------
  // AsteroidManager

  /** The random draws of one spawn: `weighted_choice`'s size, the indices
      `rand.choice` picks from the coordinates, `rand_direction`'s
      direction, the two speeds from `rand.uniform`, the shape index from
      `rand.randrange` and the next delay from `rand.randint`. */
  datatype SpawnDraw = SpawnDraw(size: Size, xIndex: nat, yIndex: nat, direction: Vector,
                                 linSpeed: real, rotSpeed: real, shapeIndex: nat, delay: int)

  /** What the random functions can return: indices inside the lists they
      pick from, speeds inside the bounds read under the names the class
      stores (SpawnSpeedBounds) and a delay inside the rules' bounds
      (randint includes both ends). */
  predicate Drawn(rules: Rules, shapes: seq<ShapeEntry>, d: SpawnDraw)
  {
    d.xIndex < |SpawnCoords(WindowWidth)| && d.yIndex < |SpawnCoords(WindowHeight)|
    && SpawnSpeedBounds().Some?
    && SpawnSpeedBounds().value.0 <= d.linSpeed <= SpawnSpeedBounds().value.1
    && 0.0 <= d.rotSpeed <= SpawnSpeedBounds().value.2
    && d.shapeIndex < |shapes| && rules.minTime <= d.delay <= rules.maxTime
  }

  /** The position a draw picks. */
  function SpawnPosition(d: SpawnDraw): Vector
    requires d.xIndex < |SpawnCoords(WindowWidth)| && d.yIndex < |SpawnCoords(WindowHeight)|
  {
    Vector(SpawnCoords(WindowWidth)[d.xIndex] as real, SpawnCoords(WindowHeight)[d.yIndex] as real)
  }

  /** A spawn position is outside the window on both axes, by 20 to 60. */
  lemma SpawnPositionOutside(d: SpawnDraw)
    requires d.xIndex < |SpawnCoords(WindowWidth)| && d.yIndex < |SpawnCoords(WindowHeight)|
    ensures var p := SpawnPosition(d);
      && (-60.0 <= p.x <= -20.0 || WindowWidth as real + 20.0 <= p.x <= WindowWidth as real + 60.0)
      && (-60.0 <= p.y <= -20.0 || WindowHeight as real + 20.0 <= p.y <= WindowHeight as real + 60.0)
  {
    SpawnCoordsOutside(WindowWidth, d.xIndex);
    SpawnCoordsOutside(WindowHeight, d.yIndex);
  }

  class AsteroidManager {
    var asteroids: seq<Asteroid>
    /** Generated asteroids so far. */
    var count: int
    const rules: Rules
    /** The shape table asteroids are drawn from. */
    const shapes: seq<ShapeEntry>
    var nextGen: int
    var lastGen: real

    ghost predicate Valid()
      reads this
    {
      ShapeTable(shapes) && Spread(asteroids)
    }

    ghost function Clock(): Counters
      reads this
    {
      Counters(count, nextGen, lastGen)
    }

    /** `AsteroidManager(game_rules)`: no asteroids, nothing generated,
        and a spawn due exactly when max_total allows one. */
    constructor (rules: Rules, shapes: seq<ShapeEntry>)
      requires ShapeTable(shapes)
      ensures Valid() && this.rules == rules && this.shapes == shapes
      ensures asteroids == [] && Clock() == Counters(0, 0, 0.0)
      ensures Due(rules, Clock()) <==> rules.maxTotal > 0
    {
      asteroids := [];
      count := 0;
      this.rules := rules;
      this.shapes := shapes;
      nextGen := 0;
      lastGen := 0.0;
    }

    /** `__gen_asteroid`: a new asteroid of the drawn size and shape at
        the drawn position outside the window, not rotated. */
    method GenAsteroid(m: MathLib, d: SpawnDraw) returns (a: Asteroid)
      requires Valid() && Drawn(rules, shapes, d)
      ensures fresh(a) && fresh(a.body) && fresh(a.body.shape) && a.Valid() && a.size == d.size
      ensures a.body.State()
              == Spawned(m, shapes[d.shapeIndex].verts, d.direction, d.linSpeed, d.rotSpeed,
                         SpawnPosition(d), 0.0, AsteroidScale(shapes[d.shapeIndex].defaultScale, d.size))
    {
      a := new Asteroid(m, shapes, d.size, d.direction, d.linSpeed, d.rotSpeed, d.shapeIndex,
                        SpawnPosition(d), 0.0);
    }

    /** `update(dt)`: move every asteroid, then spawn one if due; the new
        asteroid is not moved until the next update. */
    method Update(m: MathLib, dt: real, wrap: real -> real, d: SpawnDraw) returns (ghost spawned: seq<Asteroid>)
      requires Valid()
      requires Due(rules, Clock()) ==> Drawn(rules, shapes, d)
      modifies this, Bodies(asteroids)
      ensures Valid()
      ensures Clock() == Tick(rules, old(Clock()), dt, d.delay)
      ensures asteroids == old(asteroids) + spawned
      ensures StatesOf(old(asteroids)) == MovedUpTo(old(StatesOf(asteroids)), wrap, |old(asteroids)|)
      ensures Due(rules, old(Clock())) ==>
                |spawned| == 1 && fresh(spawned[0]) && spawned[0].size == d.size
                && spawned[0].body.State()
                   == Spawned(m, shapes[d.shapeIndex].verts, d.direction, d.linSpeed, d.rotSpeed,
                              SpawnPosition(d), 0.0, AsteroidScale(shapes[d.shapeIndex].defaultScale, d.size))
      ensures !Due(rules, old(Clock())) ==> spawned == []
    {
      BodiesAvoid(this, asteroids);
      MoveAsteroids(asteroids, wrap);
      spawned := Spawn(m, dt, d);
    }

    /** The spawning half of `update`: when due, generate an asteroid, add
        it, count it and restart the timer with the drawn delay; then let
        dt pass on the timer. */
    method Spawn(m: MathLib, dt: real, d: SpawnDraw) returns (ghost spawned: seq<Asteroid>)
      requires Valid()
      requires Due(rules, Clock()) ==> Drawn(rules, shapes, d)
      modifies this
      ensures Valid() && asteroids == old(asteroids) + spawned
      ensures Clock() == Tick(rules, old(Clock()), dt, d.delay)
      ensures Due(rules, old(Clock())) ==>
                |spawned| == 1 && fresh(spawned[0]) && spawned[0].size == d.size
                && spawned[0].body.State()
                   == Spawned(m, shapes[d.shapeIndex].verts, d.direction, d.linSpeed, d.rotSpeed,
                              SpawnPosition(d), 0.0, AsteroidScale(shapes[d.shapeIndex].defaultScale, d.size))
      ensures !Due(rules, old(Clock())) ==> spawned == []
    {
      spawned := [];
      if lastGen >= nextGen as real && count < rules.maxTotal {
        var a := GenAsteroid(m, d);
        Join(a);
        spawned := [a];
        count := count + 1;
        nextGen := d.delay;
        lastGen := 0.0;
      }
      lastGen := lastGen + dt;
    }

    /** `self.asteroids.append(...)` of a new asteroid. */
    method Join(a: Asteroid)
      requires Valid() && a.Valid()
      requires forall k :: 0 <= k < |asteroids| ==> Disjoint(asteroids[k], a) && Disjoint(a, asteroids[k])
      modifies this`asteroids
      ensures Valid() && asteroids == old(asteroids) + [a]
    {
      SpreadAppend(asteroids, a);
      asteroids := asteroids + [a];
    }
  }
}
