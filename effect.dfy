/** Visual effects: animations made of particle entities, played at a
    position for a fixed time, and the effect player that keeps the
    animations by name and updates the ones playing. The random choices of
    the particle generator (a direction and a speed per particle) are
    parameters. */
module Effects {
  import opened Utils
  import opened Lists
  import opened Entities

  /** The square every PLAYER_DEAD fragment is drawn as. */
  const FragmentVerts: seq<real> := [-1.0, 1.0, 1.0, 1.0, 1.0, -1.0, -1.0, -1.0]
  /** `range(1, 41)`: forty fragments. */
  const FragmentCount: nat := 40
  const PlayerDead: string := "PLAYER_DEAD"
  const PlayerDeadLifespan: real := 2.0

  /** One fragment's draws: `rand_direction`'s direction and
      `rand.uniform(0.5, 1.5)`'s speed. No property proved here depends on
      the speed's range, so any value is accepted. */
  datatype FragmentDraw = FragmentDraw(direction: Vector, linSpeed: real)

  /** A new fragment: a unit square at the origin, not turning, scale 1,
      with the drawn direction and speed. */
  function FragmentState(m: MathLib, d: FragmentDraw): EntityState
  {
    Spawned(m, FragmentVerts, d.direction, d.linSpeed, 0.0, Vector(0.0, 0.0), 0.0, 1.0)
  }

  // ---------------------------------------------------------------------
  // Particle lists

  /** The objects a list of particles occupies. */
  ghost function Footprint(ps: seq<Entity>): set<object>
  {
    if ps == [] then {} else {ps[0] as object, ps[0].shape} + Footprint(ps[1..])
  }

  lemma {:induction false} InFootprint(ps: seq<Entity>, k: nat)
    requires k < |ps|
    ensures ps[k] in Footprint(ps) && ps[k].shape in Footprint(ps)
  {
    if k > 0 {
      InFootprint(ps[1..], k - 1);
    }
  }

  lemma {:induction false} FootprintMembers(ps: seq<Entity>)
    ensures forall o :: o in Footprint(ps) ==> exists k :: 0 <= k < |ps| && (o == ps[k] || o == ps[k].shape)
  {
    if ps != [] {
      FootprintMembers(ps[1..]);
      forall o | o in Footprint(ps)
        ensures exists k :: 0 <= k < |ps| && (o == ps[k] || o == ps[k].shape)
      {
        if o != ps[0] && o != ps[0].shape {
          assert o in Footprint(ps[1..]);
          var k :| 0 <= k < |ps[1..]| && (o == ps[1..][k] || o == ps[1..][k].shape);
          assert ps[k + 1] == ps[1..][k];
        }
      }
    }
  }

  /** An object that is neither a particle nor a particle's shape (an
      animation or the effect player, say) is none of the particles'
      objects. */
  lemma {:induction false} NotParticle(a: object, ps: seq<Entity>)
    requires forall k :: 0 <= k < |ps| ==> a != ps[k] && a != ps[k].shape
    ensures a !in Footprint(ps)
  {
    if ps != [] {
      assert forall k :: 0 <= k < |ps[1..]| ==> ps[1..][k] == ps[k + 1];
      NotParticle(a, ps[1..]);
    }
  }

  /** No animation of a set is one of the particles' objects. */
  lemma NoneParticle(anims: set<Animation>, ps: seq<Entity>)
    ensures forall a | a in anims :: a !in Footprint(ps)
  {
    forall a | a in anims ensures a !in Footprint(ps) {
      NotParticle(a, ps);
    }
  }

  /** Valid particles, no two sharing an entity or a shape. */
  ghost predicate Scattered(ps: seq<Entity>)
  {
    ps == [] || (ps[0].Valid() && Apart(ps[0], ps[1..]) && Scattered(ps[1..]))
  }

  /** None of ps is p or has p's shape (ApartAll). */
  ghost predicate Apart(p: Entity, ps: seq<Entity>)
  {
    ps == [] || (ps[0] != p && ps[0].shape != p.shape && Apart(p, ps[1..]))
  }

  lemma {:induction false} ApartAll(p: Entity, ps: seq<Entity>)
    ensures Apart(p, ps) <==> forall k :: 0 <= k < |ps| ==> ps[k] != p && ps[k].shape != p.shape
  {
    if ps != [] {
      ApartAll(p, ps[1..]);
      assert forall k :: 1 <= k < |ps| ==> ps[k] == ps[1..][k - 1];
    }
  }

  lemma {:induction false} ApartAppend(p: Entity, ps: seq<Entity>, q: Entity)
    requires Apart(p, ps) && q != p && q.shape != p.shape
    ensures Apart(p, ps + [q])
  {
    if ps != [] {
      assert (ps + [q])[1..] == ps[1..] + [q];
      ApartAppend(p, ps[1..], q);
    } else {
      assert ([] + [q])[1..] == [];
    }
  }

  /** Scattered, pair by pair. */
  lemma {:induction false} ScatteredPairwise(ps: seq<Entity>)
    requires Scattered(ps)
    ensures forall i, j :: 0 <= i < |ps| && 0 <= j < |ps| && i != j ==> ps[i] != ps[j] && ps[i].shape != ps[j].shape
    ensures forall i :: 0 <= i < |ps| ==> ps[i].Valid()
  {
    if ps != [] {
      ScatteredPairwise(ps[1..]);
      ApartAll(ps[0], ps[1..]);
      assert forall i :: 1 <= i < |ps| ==> ps[i] == ps[1..][i - 1];
    }
  }

  /** A new particle joins the list apart from the others. */
  lemma {:induction false} ScatteredAppend(ps: seq<Entity>, p: Entity)
    requires Scattered(ps) && p.Valid() && Apart(p, ps)
    ensures Scattered(ps + [p])
  {
    if ps != [] {
      assert (ps + [p])[1..] == ps[1..] + [p];
      ApartAppend(ps[0], ps[1..], p);
      ScatteredAppend(ps[1..], p);
    } else {
      assert ([] + [p])[1..] == [];
    }
  }

  ghost function ParticleStates(ps: seq<Entity>): (r: seq<EntityState>)
    reads Footprint(ps)
    ensures |r| == |ps|
    ensures forall k :: 0 <= k < |ps| ==> r[k] == ps[k].State()
  {
    if ps == [] then [] else [ps[0].State()] + ParticleStates(ps[1..])
  }

  /** The states of the particles when all but particle j have the
      states listed in before. */
  lemma ParticleStatesAt(ps: seq<Entity>, before: seq<EntityState>, j: nat)
    requires j < |ps| == |before|
    requires forall k :: 0 <= k < |ps| && k != j ==> ps[k].State() == before[k]
    ensures ParticleStates(ps) == before[j := ps[j].State()]
  {
  }

  /** `particle.pos = pos`: the entity moves to pos, its shape stays
      where it was until the next update. */
  function PutAt(s: EntityState, pos: Vector): (r: EntityState)
    ensures r.pos == pos && r.(pos := s.pos) == s
  {
    s.(pos := pos)
  }

  /** The states after the first i particles were put at pos. */
  function PutUpTo(ss: seq<EntityState>, pos: Vector, i: nat): (r: seq<EntityState>)
    ensures |r| == |ss|
  {
    seq(|ss|, k requires 0 <= k < |ss| => if k < i then PutAt(ss[k], pos) else ss[k])
  }

  lemma PutUpToStep(ss: seq<EntityState>, pos: Vector, i: nat)
    requires i < |ss|
    ensures PutUpTo(ss, pos, i)[i := PutAt(ss[i], pos)] == PutUpTo(ss, pos, i + 1)
  {
  }

  /** `for particle in self.particles: particle.update(dt)`. */
  method MoveParticles(ps: seq<Entity>, wrap: real -> real)
    requires Scattered(ps)
    modifies Footprint(ps)
    ensures ParticleStates(ps) == MovedUpTo(old(ParticleStates(ps)), wrap, |ps|)
  {
    ghost var start := ParticleStates(ps);
    var i := 0;
    while i < |ps|
      invariant 0 <= i <= |ps|
      invariant ParticleStates(ps) == MovedUpTo(start, wrap, i)
    {
      MoveParticle(ps, i, wrap);
      MovedUpToStep(start, wrap, i);
      i := i + 1;
    }
  }

  method MoveParticle(ps: seq<Entity>, i: nat, wrap: real -> real)
    requires i < |ps| && Scattered(ps)
    modifies Footprint(ps)
    ensures ParticleStates(ps) == old(ParticleStates(ps))[i := Moved(old(ParticleStates(ps))[i], wrap)]
  {
    ghost var before := ParticleStates(ps);
    var p := ps[i];
    InFootprint(ps, i);
    ScatteredPairwise(ps);
    p.Update(wrap);
    assert forall k :: 0 <= k < |ps| && k != i ==> ps[k].State() == before[k];
    ParticleStatesAt(ps, before, i);
  }

  /** `for particle in self.particles: particle.pos = pos`. */
  method PlaceParticles(ps: seq<Entity>, pos: Vector)
    requires Scattered(ps)
    modifies Footprint(ps)
    ensures ParticleStates(ps) == PutUpTo(old(ParticleStates(ps)), pos, |ps|)
  {
    ghost var start := ParticleStates(ps);
    var i := 0;
    while i < |ps|
      invariant 0 <= i <= |ps|
      invariant ParticleStates(ps) == PutUpTo(start, pos, i)
    {
      PlaceParticle(ps, i, pos);
      PutUpToStep(start, pos, i);
      i := i + 1;
    }
  }

  method PlaceParticle(ps: seq<Entity>, i: nat, pos: Vector)
    requires i < |ps| && Scattered(ps)
    modifies Footprint(ps)
    ensures ParticleStates(ps) == old(ParticleStates(ps))[i := PutAt(old(ParticleStates(ps))[i], pos)]
  {
    ghost var before := ParticleStates(ps);
    var p := ps[i];
    InFootprint(ps, i);
    ScatteredPairwise(ps);
    p.pos := pos;
    assert p.State() == PutAt(before[i], pos);
    assert forall k :: 0 <= k < |ps| && k != i ==> ps[k].State() == before[k];
    ParticleStatesAt(ps, before, i);
  }

  /** `pd_gen_particles`: forty new fragments, one per draw. */
  method GenerateFragments(m: MathLib, draws: seq<FragmentDraw>) returns (ps: seq<Entity>)
    requires |draws| == FragmentCount
    ensures |ps| == FragmentCount && Scattered(ps) && fresh(Footprint(ps))
    ensures forall k :: 0 <= k < |ps| ==> ps[k].State() == FragmentState(m, draws[k])
  {
    ps := [];
    for i := 0 to FragmentCount
      invariant |ps| == i && Scattered(ps)
      invariant forall k :: 0 <= k < i ==> fresh(ps[k]) && fresh(ps[k].shape) && ps[k].State() == FragmentState(m, draws[k])
    {
      var f := AppendFragment(m, ps, draws[i]);
      ps := ps + [f];
    }
    FootprintMembers(ps);
  }

  /** `particles.append(Entity(...))`: a new fragment at the end of ps. */
  method AppendFragment(m: MathLib, ps: seq<Entity>, d: FragmentDraw) returns (f: Entity)
    requires Scattered(ps)
    ensures Scattered(ps + [f]) && fresh(f) && fresh(f.shape)
    ensures f.State() == FragmentState(m, d)
  {
    f := NewFragment(m, d, ps);
    ScatteredAppend(ps, f);
  }

  /** `Entity((-1, 1, 1, 1, 1, -1, -1, -1), direction, lin_speed)`, apart
      from the particles ps made before. */
  method NewFragment(m: MathLib, d: FragmentDraw, ghost ps: seq<Entity>) returns (f: Entity)
    ensures fresh(f) && fresh(f.shape) && f.Valid() && Apart(f, ps) && f.shape.verts == FragmentVerts
    ensures f.State() == FragmentState(m, d)
  {
    f := new Entity(m, FragmentVerts, d.direction, d.linSpeed, 0.0, Vector(0.0, 0.0), 0.0, 1.0);
    ApartAll(f, ps);
  }

  // ---------------------------------------------------------------------
  // Animation lifetime

  /** How long an animation has played, whether it is playing, and how
      long it plays for. */
  datatype Life = Life(current: real, active: bool, span: real)

  /** Whether an update by dt ends the animation. */
  predicate Expires(l: Life, dt: real)
  {
    l.current + dt >= l.span
  }

  /** An update by dt: the time grows by dt; once it reaches the lifespan
      it goes back to 0 and the animation stops. */
  function Advanced(l: Life, dt: real): (r: Life)
    ensures r.span == l.span
    ensures Expires(l, dt) ==> r.current == 0.0 && !r.active
    ensures !Expires(l, dt) ==> r.current == l.current + dt && r.active == l.active
  {
    if Expires(l, dt) then Life(0.0, false, l.span) else l.(current := l.current + dt)
  }

  /** With a positive lifespan and a non-negative frame time, the time
      played stays in [0, lifespan). */
  lemma LifeBounds(l: Life, dt: real)
    requires l.span > 0.0 && l.current >= 0.0 && dt >= 0.0
    ensures 0.0 <= Advanced(l, dt).current < l.span
  {
  }

  /** k updates by dt. */
  function AdvancedTimes(l: Life, dt: real, k: nat): Life
  {
    if k == 0 then l else Advanced(AdvancedTimes(l, dt, k - 1), dt)
  }

  /** Played from the start with a fixed frame time, an animation is still
      playing after k frames as long as k frames do not reach the
      lifespan, having played for k frames' time. */
  lemma {:induction false} PlayingWhileYoung(span: real, dt: real, k: nat)
    requires dt >= 0.0 && (k as real) * dt < span
    ensures AdvancedTimes(Life(0.0, true, span), dt, k) == Life((k as real) * dt, true, span)
  {
    if k > 0 {
      OneFrameMore(dt, k);
      PlayingWhileYoung(span, dt, k - 1);
    }
  }

  /** k frames are k - 1 frames and one more. */
  lemma OneFrameMore(dt: real, k: nat)
    requires k > 0
    ensures ((k - 1) as real) * dt + dt == (k as real) * dt
  {
  }

  /** It stops on the first frame that reaches the lifespan. */
  lemma StopsOnTime(span: real, dt: real, k: nat)
    requires dt >= 0.0 && k > 0 && ((k - 1) as real) * dt < span <= (k as real) * dt
    ensures AdvancedTimes(Life(0.0, true, span), dt, k) == Life(0.0, false, span)
  {
    PlayingWhileYoung(span, dt, k - 1);
    OneFrameMore(dt, k);
  }

  // ---------------------------------------------------------------------
  // Animation

  class Animation {
    const name: string
    var particles: seq<Entity>
    const lifespan: real
    var currentLife: real
    var isActive: bool
    /** A RandomAnimation: new particles from the generator each time it
        expires. */
    const regenerates: bool

    ghost predicate Valid()
      reads this`particles
    {
      Scattered(particles)
    }

    ghost function Lifetime(): Life
      reads this
    {
      Life(currentLife, isActive, lifespan)
    }

    /** `Animation(name, particles, lifespan)`: not playing, no time
        played. */
    constructor (name: string, particles: seq<Entity>, lifespan: real)
      requires Scattered(particles)
      ensures Valid() && this.name == name && this.particles == particles && !regenerates
      ensures Lifetime() == Life(0.0, false, lifespan)
    {
      this.name := name;
      this.particles := particles;
      this.lifespan := lifespan;
      currentLife := 0.0;
      isActive := false;
      regenerates := false;
    }

    /** `RandomAnimation(name, lifespan, pd_gen_particles)`: as above, with
        a first set of fragments from the generator. */
    constructor Random(m: MathLib, name: string, lifespan: real, draws: seq<FragmentDraw>)
      requires |draws| == FragmentCount
      ensures Valid() && this.name == name && regenerates
      ensures Lifetime() == Life(0.0, false, lifespan)
      ensures |particles| == FragmentCount && fresh(Footprint(particles))
      ensures forall k :: 0 <= k < |particles| ==> particles[k].State() == FragmentState(m, draws[k])
    {
      this.name := name;
      this.lifespan := lifespan;
      currentLife := 0.0;
      isActive := false;
      regenerates := true;
      var ps := GenerateFragments(m, draws);
      particles := ps;
    }

    /** `play(pos)`: playing, every particle at pos; the time played is not
        reset. */
    method Play(pos: Vector)
      requires Valid()
      modifies this`isActive, Footprint(particles)
      ensures Valid()
      ensures Lifetime() == old(Lifetime()).(active := true)
      ensures ParticleStates(particles) == PutUpTo(old(ParticleStates(particles)), pos, |particles|)
    {
      isActive := true;
      NotParticle(this, particles);
      PlaceParticles(particles, pos);
    }

    /** `update(dt)`: every particle moves, the time grows by dt, and on
        reaching the lifespan the animation stops and, for a random one,
        draws new particles. */
    method Update(m: MathLib, dt: real, wrap: real -> real, draws: seq<FragmentDraw>)
      requires Valid() && (regenerates ==> |draws| == FragmentCount)
      modifies this, Footprint(particles)
      ensures Valid()
      ensures Lifetime() == Advanced(old(Lifetime()), dt)
      ensures ParticleStates(old(particles)) == MovedUpTo(old(ParticleStates(particles)), wrap, |old(particles)|)
      ensures regenerates && Expires(old(Lifetime()), dt) ==>
                |particles| == FragmentCount && fresh(Footprint(particles))
                && forall k :: 0 <= k < |particles| ==> particles[k].State() == FragmentState(m, draws[k])
      ensures !(regenerates && Expires(old(Lifetime()), dt)) ==> particles == old(particles)
    {
      NotParticle(this, particles);
      MoveParticles(particles, wrap);
      Age(m, dt, draws);
    }

    /** The second half of `update`: the clock, and the new particles of a
        random animation that expires. */
    method Age(m: MathLib, dt: real, draws: seq<FragmentDraw>)
      requires Valid() && (regenerates ==> |draws| == FragmentCount)
      modifies this
      ensures Valid()
      ensures Lifetime() == Advanced(old(Lifetime()), dt)
      ensures regenerates && Expires(old(Lifetime()), dt) ==>
                |particles| == FragmentCount && fresh(Footprint(particles))
                && forall k :: 0 <= k < |particles| ==> particles[k].State() == FragmentState(m, draws[k])
      ensures !(regenerates && Expires(old(Lifetime()), dt)) ==> particles == old(particles)
    {
      currentLife := currentLife + dt;
      if currentLife >= lifespan {
        currentLife := 0.0;
        isActive := false;
        if regenerates {
          var ps := GenerateFragments(m, draws);
          NotParticle(this, ps);
          particles := ps;
        }
      }
    }
  }

  // ---------------------------------------------------------------------
  // The removal loop over the playing animations

  /** The lifetimes of a list of animations, in list order. */
  ghost function Lifetimes(xs: seq<Animation>): (r: seq<Life>)
    reads xs
    ensures |r| == |xs|
  {
    if xs == [] then [] else [xs[0].Lifetime()] + Lifetimes(xs[1..])
  }

  lemma {:induction false} LifetimesIndex(xs: seq<Animation>)
    ensures forall k :: 0 <= k < |xs| ==> Lifetimes(xs)[k] == xs[k].Lifetime()
  {
    if xs != [] {
      LifetimesIndex(xs[1..]);
      assert forall k :: 0 < k < |xs| ==> xs[k] == xs[1..][k - 1];
    }
  }

  lemma LifetimesAt(xs: seq<Animation>, before: seq<Life>, j: nat)
    requires j < |xs| == |before|
    requires forall k :: 0 <= k < |xs| && k != j ==> xs[k].Lifetime() == before[k]
    ensures Lifetimes(xs) == before[j := xs[j].Lifetime()]
  {
    LifetimesIndex(xs);
  }

  /** Which animations, with lifetimes ls, the loop removes once it has
      updated them: those not playing after the update. */
  function Ending(ls: seq<Life>, dt: real): (d: seq<bool>)
    ensures |d| == |ls|
  {
    seq(|ls|, k requires 0 <= k < |ls| => !Advanced(ls[k], dt).active)
  }

  /** An animation is removed when it expires this frame, or when it had
      stopped already and stayed in the list because the loop stepped over
      it. */
  lemma EndingMeans(ls: seq<Life>, dt: real, k: nat)
    requires k < |ls|
    ensures Ending(ls, dt)[k] <==> Expires(ls[k], dt) || !ls[k].active
  {
  }

  /** The lifetimes while the loop runs: those visited before index j are
      advanced, the others are as they started. */
  ghost predicate LifeProgress(now: seq<Life>, start: seq<Life>, dt: real, j: nat)
  {
    now == Progress(start, dt, j)
  }

  ghost function Progress(start: seq<Life>, dt: real, j: nat): (r: seq<Life>)
    ensures |r| == |start|
  {
    var drop := Ending(start, dt);
    seq(|start|, k requires 0 <= k < |start| => if k < j && Visited(drop, k) then Advanced(start[k], dt) else start[k])
  }

  /** The lifetimes after the loop: those it visits advance, those it
      steps over stay as they were. */
  function AfterSweep(ls: seq<Life>, dt: real): (r: seq<Life>)
    ensures |r| == |ls|
  {
    var drop := Ending(ls, dt);
    seq(|ls|, k requires 0 <= k < |ls| => if Visited(drop, k) then Advanced(ls[k], dt) else ls[k])
  }

  /** The list bookkeeping of one pass of the loop over distinct
      animations. */
  lemma LifeVisitStep(orig: seq<Animation>, start: seq<Life>, items: seq<Animation>, done: seq<Animation>,
                      now: seq<Life>, i: nat, j: nat, dt: real)
    returns (done': seq<Animation>, j': nat)
    requires |start| == |orig| && Distinct(orig)
    requires Sweeping(orig, Ending(start, dt), items, done, i, j) && i < |items|
    requires LifeProgress(now, start, dt, j)
    ensures j < |orig| && items[i] == orig[j] && now[j] == start[j]
    ensures Sweeping(orig, Ending(start, dt),
                     if Ending(start, dt)[j] then RemoveFirst(items, orig[j]) else items, done', i + 1, j')
    ensures LifeProgress(now[j := Advanced(now[j], dt)], start, dt, j')
    ensures j < j'
  {
    var drop := Ending(start, dt);
    SweepingAt(orig, drop, items, done, i, j);
    DistinctNotKept(orig, done, j);
    done', j' := SweepingStep(orig, drop, items, done, i, j);
    ProgressStep(start, dt, j, j');
  }

  /** Moving the loop from j to j' advances the lifetime at j only. */
  lemma ProgressStep(start: seq<Life>, dt: real, j: nat, j': nat)
    requires j < |start| && Visited(Ending(start, dt), j)
    requires forall k :: 0 <= k < |start| ==>
               (k < j' && Visited(Ending(start, dt), k) <==> k <= j && Visited(Ending(start, dt), k))
    ensures Progress(start, dt, j)[j] == start[j]
    ensures Progress(start, dt, j') == Progress(start, dt, j)[j := Advanced(start[j], dt)]
  {
  }

  /** Where the loop is in xs when it reaches index i of the list, and
      its bookkeeping after the visit when no animation is listed twice. */
  lemma NextVisit(orig: seq<Animation>, start: seq<Life>, drop: seq<bool>, distinct: bool,
                  items: seq<Animation>, done: seq<Animation>, now: seq<Life>, i: nat, j: nat, dt: real)
    returns (at: nat, done': seq<Animation>, j': nat)
    requires |start| == |orig| && drop == Ending(start, dt) && i < |items|
    requires multiset(items) <= multiset(orig)
    requires distinct ==> Distinct(orig) && Sweeping(orig, drop, items, done, i, j) && LifeProgress(now, start, dt, j)
    ensures at < |orig| && orig[at] == items[i]
    ensures distinct ==>
              && Sweeping(orig, drop, if Advanced(now[at], dt).active then items else RemoveFirst(items, items[i]),
                          done', i + 1, j')
              && LifeProgress(now[at := Advanced(now[at], dt)], start, dt, j')
  {
    if distinct {
      at := j;
      done', j' := LifeVisitStep(orig, start, items, done, now, i, j, dt);
    } else {
      at := SourceIndex(items, orig, i);
      done', j' := done, j;
    }
  }

  /** When the loop over distinct animations leaves the list, it holds
      what Sweep keeps and the lifetimes are AfterSweep's. */
  lemma LifeSweepEnd(orig: seq<Animation>, start: seq<Life>, now: seq<Life>, dt: real,
                     items: seq<Animation>, done: seq<Animation>, i: nat, j: nat)
    requires Sweeping(orig, Ending(start, dt), items, done, i, j) && i >= |items|
    requires LifeProgress(now, start, dt, j)
    ensures items == Sweep(orig, Ending(start, dt))
    ensures now == AfterSweep(start, dt)
  {
    SweepingDone(orig, Ending(start, dt), items, done, i, j);
  }

  /** The objects an update of the animations xs may change: the
      animations and their particles. */
  ghost function Frame(xs: seq<Animation>): set<object>
    reads xs
  {
    if xs == [] then {} else {xs[0] as object} + Footprint(xs[0].particles) + Frame(xs[1..])
  }

  lemma {:induction false} InFrame(xs: seq<Animation>, k: nat)
    requires k < |xs|
    ensures xs[k] in Frame(xs) && Footprint(xs[k].particles) <= Frame(xs)
  {
    if k > 0 {
      InFrame(xs[1..], k - 1);
    }
  }

  lemma InFrameAll(xs: seq<Animation>)
    ensures forall k :: 0 <= k < |xs| ==> xs[k] in Frame(xs) && Footprint(xs[k].particles) <= Frame(xs)
  {
    forall k | 0 <= k < |xs| ensures xs[k] in Frame(xs) && Footprint(xs[k].particles) <= Frame(xs) {
      InFrame(xs, k);
    }
  }

  /** The only animations in the frame are those listed. */
  lemma {:induction false} FrameAnimation(xs: seq<Animation>, a: Animation)
    ensures a in Frame(xs) ==> a in xs
  {
    if xs != [] {
      NotParticle(a, xs[0].particles);
      FrameAnimation(xs[1..], a);
    }
  }

  lemma {:induction false} OwnerNotInFrame(e: EffectPlayer, xs: seq<Animation>)
    ensures e !in Frame(xs)
  {
    if xs != [] {
      NotParticle(e, xs[0].particles);
      OwnerNotInFrame(e, xs[1..]);
    }
  }

  // ---------------------------------------------------------------------
  // EffectPlayer

  /** `generate_animations`: PLAYER_DEAD, a random animation of forty
      fragments playing for two seconds. */
  method GenerateAnimations(m: MathLib, draws: seq<FragmentDraw>) returns (r: map<string, Animation>)
    requires |draws| == FragmentCount
    ensures r.Keys == {PlayerDead}
    ensures fresh(r[PlayerDead]) && fresh(Footprint(r[PlayerDead].particles))
    ensures r[PlayerDead].Valid() && r[PlayerDead].name == PlayerDead && r[PlayerDead].regenerates
    ensures r[PlayerDead].Lifetime() == Life(0.0, false, PlayerDeadLifespan)
    ensures |r[PlayerDead].particles| == FragmentCount
    ensures forall k :: 0 <= k < FragmentCount ==> r[PlayerDead].particles[k].State() == FragmentState(m, draws[k])
  {
    var a := new Animation.Random(m, PlayerDead, PlayerDeadLifespan, draws);
    r := map[PlayerDead := a];
  }

  class EffectPlayer {
    /** The animations playing, in the order they were started; the same
        animation is listed once per `play_animation`. */
    var activeAnimations: seq<Animation>
    var animations: map<string, Animation>

    /** The stored animations are valid and every playing one is stored. */
    ghost predicate Valid()
      reads this, animations.Values
    {
      (forall a | a in animations.Values :: a.Valid())
      && forall k :: 0 <= k < |activeAnimations| ==> activeAnimations[k] in animations.Values
    }

    /** `EffectPlayer()`: nothing playing, PLAYER_DEAD stored as
        `generate_animations` makes it. */
    constructor (m: MathLib, draws: seq<FragmentDraw>)
      requires |draws| == FragmentCount
      ensures Valid() && activeAnimations == [] && animations.Keys == {PlayerDead}
      ensures fresh(animations[PlayerDead]) && fresh(Footprint(animations[PlayerDead].particles))
      ensures animations[PlayerDead].name == PlayerDead && animations[PlayerDead].regenerates
      ensures animations[PlayerDead].Lifetime() == Life(0.0, false, PlayerDeadLifespan)
      ensures |animations[PlayerDead].particles| == FragmentCount
      ensures forall k :: 0 <= k < FragmentCount ==>
                animations[PlayerDead].particles[k].State() == FragmentState(m, draws[k])
    {
      activeAnimations := [];
      var r := GenerateAnimations(m, draws);
      animations := r;
    }

    /** `play_animation(name, pos)`: the stored animation starts playing at
        pos and is listed once more. A missing name raises KeyError in
        the game; here ok is false and nothing changes. */
    method PlayAnimation(name: string, pos: Vector) returns (ok: bool)
      requires Valid()
      modifies this, if name in animations then {animations[name] as object} + Footprint(animations[name].particles) else {}
      ensures Valid() && animations == old(animations)
      ensures ok <==> name in animations
      ensures !ok ==> activeAnimations == old(activeAnimations) && unchanged(animations.Values)
      ensures ok ==>
                var a := animations[name];
                && activeAnimations == old(activeAnimations) + [a]
                && a.Lifetime() == old(a.Lifetime()).(active := true)
                && a.particles == old(a.particles)
                && ParticleStates(a.particles) == PutUpTo(old(ParticleStates(a.particles)), pos, |a.particles|)
    {
      ok := name in animations;
      if ok {
        var a := animations[name];
        NotParticle(this, a.particles);
        Start(a, pos, animations.Values);
        activeAnimations := activeAnimations + [a];
      }
    }

    /** `update(dt)`: every listed animation it reaches is updated, and
        removed when it is not playing afterwards (see UpdateAll). */
    method Update(m: MathLib, dt: real, wrap: real -> real, draws: seq<seq<FragmentDraw>>)
      requires Valid()
      requires |draws| == |activeAnimations|
      requires forall k :: 0 <= k < |draws| ==> |draws[k]| == FragmentCount
      modifies this, Frame(activeAnimations)
      ensures Valid() && animations == old(animations)
      ensures multiset(activeAnimations) <= multiset(old(activeAnimations))
      ensures Distinct(old(activeAnimations)) ==>
                activeAnimations == Sweep(old(activeAnimations), Ending(old(Lifetimes(activeAnimations)), dt))
                && Lifetimes(old(activeAnimations)) == AfterSweep(old(Lifetimes(activeAnimations)), dt)
    {
      ghost var orig := activeAnimations;
      ghost var frame := Frame(orig);
      OwnerNotInFrame(this, orig);
      forall a | a in animations.Values ensures a in frame ==> a in orig {
        FrameAnimation(orig, a);
      }
      var items := UpdateAll(m, activeAnimations, dt, wrap, draws);
      forall a | a in animations.Values ensures a.Valid() {
        if a in orig {
          var k :| 0 <= k < |orig| && orig[k] == a;
        } else {
          assert a !in frame;
        }
      }
      activeAnimations := items;
    }
  }

  /** `play(pos)` on one of the stored animations vals, which all stay
      valid. */
  method Start(a: Animation, pos: Vector, ghost vals: set<Animation>)
    requires a.Valid() && forall b | b in vals :: b.Valid()
    modifies a`isActive, Footprint(a.particles)
    ensures forall b | b in vals :: b.Valid()
    ensures a.Lifetime() == old(a.Lifetime()).(active := true) && a.particles == old(a.particles)
    ensures ParticleStates(a.particles) == PutUpTo(old(ParticleStates(a.particles)), pos, |a.particles|)
  {
    NotParticle(a, a.particles);
    NoneParticle(vals, a.particles);
    a.Play(pos);
  }

  /** The loop of `EffectPlayer.update` over the list xs: as it removes
      from the list it walks, the one after each removed animation is
      stepped over. draws[i] are the generator's draws should the animation
      the loop reaches at index i expire. The list left holds what Sweep
      keeps of xs, and those visited advance their lifetimes, when no
      animation is listed twice. */
  method UpdateAll(m: MathLib, xs: seq<Animation>, dt: real, wrap: real -> real, draws: seq<seq<FragmentDraw>>)
    returns (items: seq<Animation>)
    requires forall k :: 0 <= k < |xs| ==> xs[k].Valid()
    requires |draws| == |xs|
    requires forall k :: 0 <= k < |draws| ==> |draws[k]| == FragmentCount
    modifies Frame(xs)
    ensures forall k :: 0 <= k < |xs| ==> xs[k].Valid()
    ensures multiset(items) <= multiset(xs) && forall k :: 0 <= k < |items| ==> items[k] in xs
    ensures Distinct(xs) ==>
              items == Sweep(xs, Ending(old(Lifetimes(xs)), dt))
              && Lifetimes(xs) == AfterSweep(old(Lifetimes(xs)), dt)
  {
    ghost var start := Lifetimes(xs);
    ghost var drop := Ending(start, dt);
    ghost var distinct := Distinct(xs);
    ghost var frame := Frame(xs);
    ghost var grown: set<object> := {};
    ghost var done: seq<Animation> := [];
    ghost var j := 0;
    ghost var now := start;
    SweepingStart(xs, drop);
    InFrameAll(xs);
    items := xs;
    var i := 0;
    while i < |items|
      invariant |items| <= |xs| == |draws|
      invariant multiset(items) <= multiset(xs)
      invariant forall o | o in grown :: !old(allocated(o))
      invariant forall k :: 0 <= k < |xs| ==> xs[k].Valid() && Footprint(xs[k].particles) <= frame + grown
      invariant Lifetimes(xs) == now
      invariant distinct ==> Sweeping(xs, drop, items, done, i, j) && LifeProgress(now, start, dt, j)
      decreases |items| - i
    {
      ghost var at := SourceIndex(items, xs, i);
      ghost var added;
      items, done, j, now, added := VisitAnimation(m, items, i, dt, wrap, draws[i], xs, start, drop, distinct, done, j, now, frame + grown);
      grown := grown + added;
      i := i + 1;
    }
    SubMultisetWithin(items, xs);
    if distinct {
      LifeSweepEnd(xs, start, now, dt, items, done, i, j);
    }
  }

  /** One pass of that loop, on the animation at index i of the list:
      the animation is updated and removed from the list when it is no
      longer playing. For a list without repeats the loop's bookkeeping
      moves on by one visit. The objects it allocates are added. */
  method VisitAnimation(m: MathLib, items: seq<Animation>, i: nat, dt: real, wrap: real -> real,
                        d: seq<FragmentDraw>, ghost orig: seq<Animation>, ghost start: seq<Life>,
                        ghost drop: seq<bool>, ghost distinct: bool, ghost done: seq<Animation>, ghost j: nat,
                        ghost now: seq<Life>, ghost allowed: set<object>)
    returns (items': seq<Animation>, ghost done': seq<Animation>, ghost j': nat, ghost now': seq<Life>,
             ghost added: set<object>)
    requires i < |items| && |d| == FragmentCount
    requires |start| == |orig| && drop == Ending(start, dt) && multiset(items) <= multiset(orig)
    requires Lifetimes(orig) == now
    requires distinct ==> Distinct(orig) && Sweeping(orig, drop, items, done, i, j) && LifeProgress(now, start, dt, j)
    requires forall k :: 0 <= k < |orig| ==> orig[k].Valid() && Footprint(orig[k].particles) <= allowed
    modifies items[i], Footprint(items[i].particles)
    ensures fresh(added)
    ensures forall k :: 0 <= k < |orig| ==> orig[k].Valid() && Footprint(orig[k].particles) <= allowed + added
    ensures |items'| <= |items| && multiset(items') <= multiset(items)
    ensures Lifetimes(orig) == now'
    ensures distinct ==> Sweeping(orig, drop, items', done', i + 1, j') && LifeProgress(now', start, dt, j')
    ensures ParticleStates(old(items[i].particles))
              == MovedUpTo(old(ParticleStates(items[i].particles)), wrap, |old(items[i].particles)|)
    ensures items[i].regenerates && Expires(old(items[i].Lifetime()), dt) ==>
              |items[i].particles| == FragmentCount
              && forall k :: 0 <= k < |items[i].particles| ==> items[i].particles[k].State() == FragmentState(m, d[k])
    ensures !(items[i].regenerates && Expires(old(items[i].Lifetime()), dt)) ==> items[i].particles == old(items[i].particles)
  {
    var a := items[i];
    LifetimesIndex(orig);
    ghost var at;
    at, done', j' := NextVisit(orig, start, drop, distinct, items, done, now, i, j, dt);
    added := Advance(m, a, dt, wrap, d, orig, allowed);
    if distinct {
      DistinctPairwise(orig);
      assert forall k :: 0 <= k < |orig| && k != at ==> orig[k].Lifetime() == now[k];
      LifetimesAt(orig, now, at);
    }
    now' := Lifetimes(orig);
    items' := items;
    if !a.isActive {
      items' := RemoveFirst(items, a);
      RemoveFirstCount(items, a);
    }
  }

  /** An animation's update, seen from the effect player: it stays valid,
      its time advances, its particles are either kept or new, and the
      other animations of orig do not change. */
  method Advance(m: MathLib, a: Animation, dt: real, wrap: real -> real, d: seq<FragmentDraw>,
                 ghost orig: seq<Animation>, ghost allowed: set<object>)
    returns (ghost added: set<object>)
    requires a.Valid() && |d| == FragmentCount
    requires forall k :: 0 <= k < |orig| ==> orig[k].Valid() && Footprint(orig[k].particles) <= allowed
    modifies a, Footprint(a.particles)
    ensures fresh(added)
    ensures a.Lifetime() == Advanced(old(a.Lifetime()), dt)
    ensures forall k :: 0 <= k < |orig| ==> orig[k].Valid() && Footprint(orig[k].particles) <= allowed + added
    ensures forall k :: 0 <= k < |orig| && orig[k] != a ==> orig[k].Lifetime() == old(orig[k].Lifetime())
    ensures ParticleStates(old(a.particles)) == MovedUpTo(old(ParticleStates(a.particles)), wrap, |old(a.particles)|)
    ensures a.regenerates && Expires(old(a.Lifetime()), dt) ==>
              |a.particles| == FragmentCount
              && forall k :: 0 <= k < |a.particles| ==> a.particles[k].State() == FragmentState(m, d[k])
    ensures !(a.regenerates && Expires(old(a.Lifetime()), dt)) ==> a.particles == old(a.particles)
  {
    ghost var ps := a.particles;
    NotParticle(a, a.particles);
    forall k | 0 <= k < |orig| ensures orig[k] !in Footprint(a.particles) {
      NotParticle(orig[k], a.particles);
    }
    a.Update(m, dt, wrap, d);
    added := if a.particles == ps then {} else Footprint(a.particles);
  }
}
