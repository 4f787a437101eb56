# pysteroids in Dafny

A model of the game logic of pysteroids, an Asteroids clone written in
Python on top of pyglet. The model covers:

- the geometry: clamping, 2D vectors, 1D projections and the Separating Axis
  Theorem collision test;
- the closed polygon `Shape`: its line indices, local and world vertices and
  effective length;
- the entities: the base `Entity`, which moves, turns and is reflected
  across the window; the `Ship`, which reads the keys, thrusts under a
  speed cap, turns and shoots `Bullet`s; and the `Asteroid`, which breaks
  into smaller pieces;
- the `AsteroidManager` and its `GameRules`, which spawn asteroids outside
  the window at random delays up to a cap;
- the `Player`, with lives, death, respawn and a short protection;
- the `EffectPlayer` and its `Animation`s. The only animation the game
  defines is PLAYER_DEAD: forty square fragments flying apart for two
  seconds.

Files and modules:

| File | Module | What it holds |
|---|---|---|
| `utils.dfy` | `Utils` | Pure functions and lemmas |
| `transform.dfy` | `Transform` | The model-view matrix as affine algebra |
| `lists.dfy` | `Lists` | `list.remove` and the remove-while-iterating loop |
| `shape.dfy` | `Shapes` | The shape |
| `entities.dfy` | `Entities` | The entities |
| `game_rules.dfy` | `GameRules` | The asteroid manager and its rules |
| `player.dfy` | `Players` | The player |
| `effect.dfy` | `Effects` | The effect player and animations |

Objects the game changes in place are Dafny classes whose methods state the
new state. Each method's state is written as a ghost function (`State()`,
`Pose()`, `Flags()`, `Clock()`, `Lifetime()`) and tied to a pure
specification function of the old state (`Moved`, `Steered`, `Placed`,
`Aged`, `Tick`, `Killed`, `Advanced`, ...). The properties are then proved
about those functions.

### Inheritance and shared objects

- Python's inheritance is modelled by composition. A `Ship`, `Bullet` or
  `Asteroid` holds its `Entity` as `body`.
- The list of bullets that the player and its ship share is the class
  `BulletList`.

### Randomness, the clock, `math` and fixed constants

- Randomness and the keyboard become parameters:
  - the keys are a `Keys` value;
  - the random draws are `SpawnDraw`, `Motion` and `FragmentDraw` values;
  - the predicates `Drawn` and `PieceMotion` state what Python's random
    functions can return. `AsteroidManager.GenAsteroid` requires `Drawn` of
    its draw, and `Update` and `Spawn` require it whenever a spawn is due;
    `Asteroid.RandomPiece`, `Destroy` and
    `RandomPieces` require `PieceMotion` of each piece's draw.
- The pyglet clock is not modelled. `Player.Kill` and `Player.Respawn`
  return the callback they schedule as a `Scheduled` value, and the caller
  invokes it.
- Python's `math` module is the parameter `MathLib` (`sqrt`, and `cos`/`sin`
  of degrees). The predicates `Sound` and `TrigSound` state what the lemmas
  assume of it:
  - `sqrt` is the non-negative square root;
  - `cos² + sin² = 1`;
  - `cos 0 = 1` and `sin 0 = 0`.
- `wrap_angle`, `rand_direction`, `weighted_choice` and the window size are
  defined in a `utils` module that is not part of this model (see "Left
  out"). The
  window size is therefore a pair of uninitialised constants, and
  `wrap_angle` is a parameter.

### Behaviour the model keeps that readers may not expect

- **The update loops skip elements.** `Ship.update` and `EffectPlayer.update`
  remove from the list they iterate over. Python then steps over the element
  that slides into the removed one's place. That element stays in the list
  that frame and is not updated either. `Lists.Sweep`, `Lists.Removed` and
  `Lists.Visited` model this exactly. `Lists.SweepAdjacent` shows that of
  two adjacent expired bullets only the first goes.
- **An entity's shape keeps the pre-reflection position.** `Entity.update`
  gives its shape the position before `_reflect_across_screen` runs, so after
  a reflection the shape lags one frame. `Entities.MovedInPlay` states this.
- **Two Shape classes.** `lib/utils.py` carries an older copy of the `Shape` class. The
  entities import the one in `lib/geometry/shape.py`, which is the one
  modelled.

## Model

| member | source | states |
|---|---|---|
| Utils.Clamp | lib/utils.py:11-26 | Below low gives low, above high gives high, otherwise x; with low <= high the result lies in [low, high] |
| Utils.VectorAlgebra | lib/utils.py:112-178 | Vector addition commutes, a - a is zero, (a - b) + b is a, zero is neutral, the dot product is symmetric and linear in scaling |
| Utils.LengthZero | lib/utils.py:216-223 | A length is never negative, and it is zero exactly for the zero vector |
| Utils.LengthScale | lib/utils.py:216-223 | Scaling a vector by k scales its length by abs(k) |
| Utils.NormalizeProperties | lib/utils.py:225-241 | The zero vector is returned as is; any other vector becomes the positive multiple 1/length of itself, and has length 1 |
| Utils.NormalizeUnit | lib/utils.py:225-241 | A vector of length 1 is left unchanged by normalize |
| Utils.OverlapsMeaning | lib/utils.py:287-296 | For proper intervals, overlap is symmetric, touching ends count, and two projections overlap exactly when they share a point |
| Utils.ProjectionOf | lib/utils.py:29-55 | The projection is a proper interval holding axis . v for every vertex, and both ends are attained by some vertex |
| Utils.ProjectionStep | lib/utils.py:46-53 | One loop step widens the projection of the first i vertices by vertex i |
| Utils.Project | lib/utils.py:29-55 | The loop computes the minimum and maximum of axis . v over the vertices, both attained |
| Utils.GenerateAxes | lib/utils.py:58-85 | The loop yields one axis per vertex: the normalized normal of the edge from vertex i to the next, the last edge closing the polygon |
| Utils.AxisProperties | lib/utils.py:71-84 | Axis i is perpendicular to edge i before and after normalizing, and has length 1 when the edge is not degenerate |
| Utils.AxesProperties | lib/utils.py:58-85 | There are as many axes as vertices, the last edge runs from the last vertex back to the first, and every axis is a unit normal of its edge |
| Utils.NoSeparatingAxisSymmetric | lib/geometry/shape.py:79-102 | The collision verdict does not depend on which polygon comes first |
| Utils.SeparatingAxisTest | lib/geometry/shape.py:86-102 | The two loops report a hit exactly when no axis of either polygon separates the two projections |
| Transform.ApplyCompose | lib/geometry/shape.py:128-131 | Multiplying matrices composes their actions, the last matrix applied first |
| Transform.ModelViewApply | lib/geometry/shape.py:128-131 | Identity, translate, rotate, scale maps a local vertex to pos plus the vertex scaled, then rotated |
| Transform.IdentityPose | lib/geometry/shape.py:128-131 | With no rotation and scale 1, the world vertex is the local vertex moved by pos |
| Transform.RotatePreservesLength | lib/geometry/shape.py:130 | A rotation keeps lengths |
| Transform.WorldDistance | lib/geometry/shape.py:163-170 | A world vertex lies abs(scale) times as far from pos as the local vertex lies from the origin |
| Transform.ScaleOnlyApply | lib/geometry/shape.py:187-188 | The effective-length matrix only scales the vertex |
| Shapes.EdgesPattern | lib/geometry/shape.py:58-66 | The first m edges are 2m indices, edge k joining vertex k to vertex (k + 1) mod n |
| Shapes.IndicesPattern | lib/geometry/shape.py:44-66 | For n >= 2 there are 2n indices, pair k being (k, (k + 1) mod n); for n < 2, n indices; every index names a vertex |
| Shapes.GenIndices | lib/geometry/shape.py:44-66 | The loop yields exactly the closed-polygon index list |
| Shapes.GetVectors | lib/geometry/shape.py:104-117 | The loop over the index list pairs the flat tuple into vertices: vertex k is (verts[2k], verts[2k + 1]) |
| Shapes.WorldVertex | lib/geometry/shape.py:148-170 | World vertex i is the model view applied to local vertex i; at rotation 0 and scale 1 it is the local vertex moved by pos, and it lies abs(scale) times the local distance from pos |
| Shapes.MaxOfIsMax | lib/geometry/shape.py:219 | max bounds every element and is one of them |
| Shapes.GetEffectiveLength | lib/geometry/shape.py:172-219 | The loop computes 20 plus the largest length of the scaled vertices |
| Shapes.EffectiveLengthBounds | lib/geometry/shape.py:206-219 | The effective length is at least 20 more than the length of every scaled vertex and exactly 20 more than one of them, hence at least 20 |
| Shapes.Shape.constructor | lib/geometry/shape.py:26-42 | The shape holds the vertices and pose given, and its effective length is fixed from the scale it is made with |
| Shapes.Shape.TransformedVerts | lib/geometry/shape.py:148-170 | One world vertex per local vertex, in order, at the shape's current pose |
| Shapes.Shape.Update | lib/geometry/shape.py:221-224 | The pose becomes the one given; the vertices and the effective length stay |
| Shapes.Shape.Collides | lib/geometry/shape.py:68-102 | Two shapes collide exactly when no edge normal of either, at their current poses, separates them |
| Lists.RemoveFirst | lib/entities.py:250-251 | list.remove drops one element, the first occurrence |
| Lists.RemoveFirstCount | lib/entities.py:250-251 | Exactly one occurrence of the removed value leaves the list |
| Lists.RemoveFirstAt | lib/entities.py:250-251 | Removing a value whose first occurrence is at i cuts out index i |
| Lists.SweepShrinks | lib/entities.py:247-251 | The remove-while-iterating loop only removes: no element is added or duplicated |
| Lists.SweepIsKeep | lib/entities.py:247-251 | The loop keeps exactly the elements it does not remove, in order |
| Lists.RemovedNotTwice | lib/entities.py:247-251 | The element after a removed one is never removed in the same pass |
| Lists.SparseDropsRemoved | lib/entities.py:247-251 | When no two adjacent elements are to go, the loop removes exactly those to go |
| Lists.SweepSparse | lib/entities.py:247-251 | Then the loop agrees with a clean filter |
| Lists.SweepNoDrops | lib/entities.py:247-251 | When nothing is to go the list is unchanged |
| Lists.SweepAdjacent | lib/entities.py:247-251 | Of two adjacent elements both to go, only the first leaves |
| Lists.SweepingStep | lib/entities.py:247-251 | One iteration removes the current element when flagged, else moves on; either way the loop state is kept |
| Lists.SweepingDone | lib/entities.py:247-251 | When the iteration ends, the list holds what Sweep keeps |
| Entities.ReflectCases | lib/entities.py:108-126 | A coordinate in the padded window is kept; one left of it is placed the same distance beyond the far edge; one right of it the same distance before 0 |
| Entities.ReflectInPlay | lib/entities.py:96-130 | A position inside the padded window is not moved |
| Entities.ReflectKeepsInPlay | lib/entities.py:108-126 | A coordinate that moves at most the padding from inside the padded window is back inside it after reflection |
| Entities.MovedInPlay | lib/entities.py:61-77 | An entity inside the padded window, moving at most its effective length, stays inside it; its shape gets the position before reflection |
| Entities.Entity.constructor | lib/entities.py:37-59 | The entity holds the pose and speeds given, a normalized direction, and a shape at the same pose |
| Entities.Entity.Update | lib/entities.py:61-77 | Move by direction times speed, turn by the rotational speed through wrap_angle, give the shape the new pose, then reflect |
| Entities.Entity.ReflectAcrossScreen | lib/entities.py:96-130 | The position becomes its reflection against the window padded by the effective length |
| Entities.Entity.SetDirection | lib/entities.py:137-139 | The direction is stored normalized |
| Entities.Entity.Collides | lib/entities.py:86-94 | Two entities collide exactly when their shapes do |
| Entities.AgedKeepsExpiry | lib/entities.py:432-436 | An expired bullet stays expired, its lifespan grows by dt, and with dt >= 0 expiry stays equivalent to lifespan >= 3 |
| Entities.AgedByExpiry | lib/entities.py:432-436 | After any run of non-negative frame times, a bullet's lifespan is the sum and it is expired exactly when that reaches 3 |
| Entities.Bullet.constructor | lib/entities.py:424-430 | A bullet: the bullet polygon, speed 3, no turning, scale 0.25, lifespan 0, not expired |
| Entities.Bullet.Update | lib/entities.py:432-436 | The entity update, the lifespan grows by dt, and the bullet expires on reaching the maximum |
| Entities.ExpiringMeansExpired | lib/entities.py:247-251 | A bullet is flagged for removal exactly when it is expired after its update |
| Entities.ExpiringFired | lib/entities.py:219-251 | A bullet fired this frame is flagged for removal at the end of it exactly when dt >= 3; it is removed only if the loop reaches it, which it does not when the bullet before it is removed |
| Entities.CapSpeedProperties | lib/entities.py:206-209 | The capped movement is never longer than 1.5; a slower one is kept unchanged, a faster one keeps its direction at length 1.5, and zero stays zero |
| Entities.SteeredProperties | lib/entities.py:183-225 | Input never leaves the ship faster than 1.5; A turns by +rot_speed, else D by -rot_speed, else the entity is unchanged; the position is untouched; the shot timer resets on a shot and otherwise grows by dt |
| Entities.ShotCooldown | lib/entities.py:219-225 | Right after a shot the ship cannot shoot, and the next shot needs SPACE and a frame time of at least 0.4 |
| Entities.PlacedInPlay | lib/entities.py:235-244 | A ship moving by at most its effective length from inside the padded window stays inside it, and its shape gets the moved position |
| Entities.Ship.constructor | lib/entities.py:158-181 | A ship with the ship polygon at the given pose with the direction of its rotation, not moving, no bullets, ready to shoot, speed 1, rotational speed 1.8, scale 0.5 |
| Entities.Ship.SetRot | lib/entities.py:268-273 | Setting the rotation sets the direction to (cos, sin) of it |
| Entities.Ship.HandleInput | lib/entities.py:183-225 | Thrust under the speed cap, turning, and on a shot one fresh bullet appended at the muzzle; the old bullets are untouched |
| Entities.Ship.Steer | lib/entities.py:200-215 | The movement becomes the capped thrust, and the entity turns as the keys say |
| Entities.Ship.Fire | lib/entities.py:219-223 | A fresh bullet 3 units ahead of the ship along its direction, with its rotation, is appended |
| Entities.Ship.Move | lib/entities.py:235-244 | Read the input, move by the movement, give the shape the pose and reflect across the screen |
| Entities.Ship.Place | lib/entities.py:236-244 | Move by the movement, give the shape the pose, reflect; the bullets are untouched |
| Entities.Ship.UpdateBullets | lib/entities.py:247-251 | The list left is what the skipping removal loop keeps of the expired bullets, and the bullets it visits are aged |
| Entities.Ship.Update | lib/entities.py:227-251 | The ship's pose is the steered and placed pose; the bullet list is the sweep of the old bullets plus the one fired, each visited bullet aged |
| Entities.SweepBullets | lib/entities.py:247-251 | The loop over a ship's bullets keeps what Sweep keeps and ages exactly the bullets it visits |
| Entities.VisitBullet | lib/entities.py:248-251 | One iteration ages the bullet reached and removes it when expired, keeping the loop state |
| Entities.AgeBullet | lib/entities.py:248 | Updating one bullet changes that bullet's state only |
| Entities.ScaleFactorOrder | lib/entities.py:372-379 | Medium has factor 1, and the factors order strictly as the sizes do |
| Entities.AsteroidScaleOrder | lib/entities.py:372-383 | A medium asteroid has its shape's default scale, and larger sizes have strictly larger scales |
| Entities.PiecesSmaller | lib/entities.py:394-407 | Every piece is of a smaller size than the asteroid, and only a small asteroid leaves no piece |
| Entities.Asteroid.constructor | lib/entities.py:332-383 | The entity's polygon is the table's vertices for the chosen shape, at its default scale times the size factor, with the given pose and speeds |
| Entities.Asteroid.RandomPiece | lib/entities.py:409-418 | A fresh piece of the given size with this asteroid's shape: the full new-entity state at this asteroid's position, no rotation, the drawn speeds and normalized direction, the piece's scale, and its polygon placed there with that scale's effective length |
| Entities.Asteroid.Destroy | lib/entities.py:385-407 | None for small, two smalls for medium, two mediums for large, three mediums for huge, each a piece of this asteroid in the full sense of RandomPiece (entity and polygon state) |
| Entities.Asteroid.RandomPieces | lib/entities.py:398-407 | Two or three fresh pieces of one size, one per draw, each with the full entity and polygon state of RandomPiece |
| GameRules.NewRulesTable | lib/game_rules.py:116-124 | The table lists the four sizes once each, smallest first, each with the weight passed for it; the other rules are kept |
| GameRules.RangeElements | lib/game_rules.py:48-51 | Element k of range(lo, hi, step) is lo + k * step and lies in [lo, hi) |
| GameRules.SpawnCoordsValues | lib/game_rules.py:48-51 | The candidate coordinates are -60 to -20 and extent + 20 to extent + 60, in steps of 10 |
| GameRules.SpawnCoordsOutside | lib/game_rules.py:48-51 | Every candidate lies 20 to 60 beyond an edge |
| GameRules.SpawnPositionOutside | lib/game_rules.py:48-52 | A spawn position is outside the window on both axes by 20 to 60 |
| GameRules.SpawnSpeedBoundsFail | lib/game_rules.py:56-58 | As written, `Asteroid.min_lin_speed` is not found, so the speed bounds cannot be read |
| GameRules.SpawnSpeedBoundsFound | lib/game_rules.py:56-58 | Under the names Python stores, the lookups give 0.5, 2.5 and 2.5 |
| GameRules.TickProperties | lib/game_rules.py:75-86 | One update spawns at most once, exactly when due; the cap is kept; a spawn restarts the timer at dt with the drawn delay; otherwise only dt passes |
| GameRules.TicksCount | lib/game_rules.py:62-86 | Over any run the count rises by at most one per update and never passes the cap |
| GameRules.SpawnWaits | lib/game_rules.py:75-86 | After a spawn, the next update spawns again only if dt reaches the drawn delay |
| GameRules.MoveAsteroids | lib/game_rules.py:69-70 | Every asteroid is moved once, in order, and nothing else changes |
| GameRules.MoveAsteroid | lib/game_rules.py:70 | Updating one asteroid changes that asteroid's state only |
| GameRules.AsteroidManager.constructor | lib/game_rules.py:22-34 | No asteroids, nothing generated, and a spawn is due from the start exactly when max_total is positive |
| GameRules.AsteroidManager.GenAsteroid | lib/game_rules.py:36-60 | A fresh asteroid of the drawn size and shape at the drawn position outside the window, not rotated, with the drawn speeds |
| GameRules.AsteroidManager.Update | lib/game_rules.py:62-86 | Every asteroid moves, then one new asteroid is appended exactly when due, and the counters follow Tick |
| GameRules.AsteroidManager.Spawn | lib/game_rules.py:75-86 | When due, one asteroid is generated, appended and counted, and the timer restarts; then dt passes |
| GameRules.AsteroidManager.Join | lib/game_rules.py:77 | The new asteroid is appended and the list stays free of shared entities |
| Players.Killed | lib/player.py:51-60 | Dead, one life fewer, and the game is over once the last life went |
| Players.AfterKill | lib/player.py:57-63 | A respawn in 3 seconds is scheduled exactly when the kill does not bring the lives to 0, that is when lives is not 1 (a kill at 0 lives also schedules one) |
| Players.Respawned | lib/player.py:65-81 | Alive again but not vulnerable; lives, score and game over untouched |
| Players.Vulnerable | lib/player.py:83-89 | Vulnerable, nothing else changed |
| Players.GameOverAfterThree | lib/player.py:51-63 | Starting from three lives, each death takes one life and the game is over exactly from the third death on |
| Players.RespawnUnlessOver | lib/player.py:51-63 | A death schedules a respawn exactly when it does not end the game |
| Players.Player.constructor | lib/player.py:21-36 | A ship with the ship polygon in the middle of the window facing up, three lives, vulnerable, alive, score 0, sharing the ship's bullet list; the ship is not moving and ready to shoot |
| Players.Player.Update | lib/player.py:38-45 | The ship's update: the steered and placed pose, at most one fresh bullet, the bullet list the skipping loop keeps, and each visited bullet aged while a skipped one keeps its state; the player's own fields stay |
| Players.Player.Kill | lib/player.py:51-63 | The flags become Killed of the old flags, and the respawn is returned unless the game is over |
| Players.Player.Respawn | lib/player.py:65-81 | A new ship with the ship polygon in the middle whose empty bullet list the player shares; protected, with the end of protection scheduled in 2 seconds; the ship is not moving and ready to shoot |
| Players.Player.SetVulnerable | lib/player.py:83-89 | The player becomes vulnerable |
| Effects.PutAt | lib/effect.py:87-88 | Setting a particle's position changes its position and nothing else |
| Effects.MoveParticles | lib/effect.py:96-97 | Every particle is updated once, in order |
| Effects.MoveParticle | lib/effect.py:97 | Updating one particle changes that particle's state only |
| Effects.PlaceParticles | lib/effect.py:87-88 | Every particle is put at pos |
| Effects.PlaceParticle | lib/effect.py:88 | Putting one particle at pos changes that particle's state only |
| Effects.GenerateFragments | lib/effect.py:153-165 | Forty fresh fragments with distinct entities and shapes, fragment k made from draw k |
| Effects.AppendFragment | lib/effect.py:161-164 | A fresh fragment made from the draw joins the list apart from the others |
| Effects.NewFragment | lib/effect.py:161-163 | A fresh unit-square entity moving in the drawn direction at the drawn speed |
| Effects.Advanced | lib/effect.py:98-103 | The time grows by dt; once it reaches the lifespan it is reset to 0 and the animation stops |
| Effects.LifeBounds | lib/effect.py:98-103 | With a positive lifespan the time played stays in [0, lifespan) |
| Effects.PlayingWhileYoung | lib/effect.py:90-103 | Played from the start with a fixed frame time, an animation is still playing after k frames while k * dt < lifespan |
| Effects.StopsOnTime | lib/effect.py:98-103 | It stops on the first frame that reaches the lifespan |
| Effects.Animation.constructor | lib/effect.py:70-76 | The given name and particles, not playing, no time played |
| Effects.Animation.Random | lib/effect.py:117-126 | A random animation, not playing, with forty fresh particles from the generator |
| Effects.Animation.Play | lib/effect.py:78-88 | Playing, every particle at pos, time played kept |
| Effects.Animation.Update | lib/effect.py:128-144 | Every particle moves, the lifetime advances, and a random animation that expires draws forty fresh particles; otherwise the particles stay |
| Effects.Animation.Age | lib/effect.py:136-144 | The lifetime advances, and on expiry a random animation draws new particles |
| Effects.EndingMeans | lib/effect.py:33-38 | An animation is flagged for removal exactly when it expires this frame or was not playing; it is removed only if the loop reaches it, which it does not when the one before it is removed |
| Effects.GenerateAnimations | lib/effect.py:146-168 | The table holds PLAYER_DEAD only: a random animation of forty fragments with lifespan 2, not playing |
| Effects.EffectPlayer.constructor | lib/effect.py:21-24 | Nothing playing; exactly PLAYER_DEAD stored, as generate_animations makes it: named PLAYER_DEAD, random, lifespan 2, not playing, forty fresh fragments of which fragment k is made from draw k |
| Effects.EffectPlayer.PlayAnimation | lib/effect.py:45-54 | A stored name starts its animation at pos and appends it to the playing list; an unknown name changes nothing and reports failure |
| Effects.EffectPlayer.Update | lib/effect.py:26-38 | The playing list only loses animations; with no animation listed twice, it keeps what the skipping loop keeps and the visited animations advance their lifetimes |
| Effects.Start | lib/effect.py:53 | Playing one stored animation keeps every stored animation valid |
| Effects.UpdateAll | lib/effect.py:33-38 | The loop only removes; with distinct animations it keeps what Sweep keeps, and exactly the visited ones advance |
| Effects.VisitAnimation | lib/effect.py:34-38 | One iteration advances the animation reached, moves its particles (or draws new ones when a random animation expires), and removes it when not playing, keeping the loop state |
| Effects.Advance | lib/effect.py:34 | Updating one animation advances its lifetime, moves each of its particles, replaces them by freshly drawn fragments when a random animation expires and keeps them otherwise; the other listed animations keep their lifetimes and all stay valid |

## Left out

- Drawing is not modelled: `draw` and `draw_animations`, the GL matrix stack
  and the GL/numpy read-back of the model view. The matrix stack is modelled
  as the affine products it computes.
- `Asteroid.__get_shapes` is not modelled; it reads `res/asteroids.txt`, which is file I/O. The
  shape table is a parameter, and `ShapeTable` says what it must hold.
- `pysteroids.py` and `setup.py` are not part of this model. They are the
  window, the event loop, scoring and the calls into the model.
- `lib/geometry/vector.py` is not part of this model. `Vector` follows the
  `Vector` of `lib/utils.py`.
- `wrap_angle`, `rand_direction`, `weighted_choice`, `WINDOW_WIDTH` and
  `WINDOW_HEIGHT` are imported from a `utils` module whose definitions are
  not part of this model. They are parameters, random draws or unset
  constants.
- The `Singleton` that `lib/effect.py` imports is not part of this model.
  Each `EffectPlayer` constructed is a separate object.
- The random draws are parameters, so their distribution is not modelled.
  Nothing models the weights of `weighted_choice` or the uniformity of
  `rand.uniform`.
- The pyglet clock is not modelled. A scheduled callback is returned, not
  invoked after its delay.
- Floating point is not modelled: arithmetic is on exact reals. `sqrt`,
  `cos`, `sin` and `radians` are abstract functions with the properties
  stated in `MathLib`.
- `Vector.__repr__`, `__str__`, `to_tuple`, `to_list` and `toMatrix` are
  not modelled beyond their use in the products. The `TypeError` raised
  for a non-number factor cannot happen in the typed model.
- The `Shape` class of `lib/utils.py` is not modelled separately: it is an
  older copy of the one in `lib/geometry/shape.py`.
- The animation table holds PLAYER_DEAD only, as the game defines. The
  particle generator is fixed to PLAYER_DEAD's.
- A `RandomAnimation` is an `Animation` with the flag `regenerates`.
- Effects.EffectPlayer.PlayAnimation: an unknown name raises `KeyError`. The
  model returns `ok == false` and changes nothing.
- Effects.Animation.Play: the particles share the `pos` object in Python.
  Vectors are values here, so the aliasing shows only as equal positions.
- Effects.EffectPlayer.Update: the resulting list and lifetimes are stated
  only when no animation is listed twice. The list can hold an animation
  twice if it is played again while it is still playing; the model then
  states only that the list loses elements.
- Effects.UpdateAll: the same restriction to lists without repeats as
  `EffectPlayer.Update`. Its contract also states only the lifetimes of the
  visited animations, not their particles' motion or regeneration, which
  `Effects.VisitAnimation` and `Effects.Advance` state for each visit.
- Effects.EffectPlayer.Update: likewise states the lifetimes of the visited
  animations and not the motion or regeneration of their particles.
- GameRules.AsteroidManager.GenAsteroid, GameRules.AsteroidManager.Update
  and GameRules.AsteroidManager.Spawn follow the corrected speed lookup: the
  bounds are the ones the class declares, read as `SpawnSpeedBounds`
  finds them. As written, lib/game_rules.py:56-58 raises AttributeError on
  every spawn (see "Findings"), and `Drawn` requires that lookup to succeed.
- GameRules.AsteroidManager.GenAsteroid, GameRules.AsteroidManager.Update
  and GameRules.AsteroidManager.Spawn require `Drawn` of a due spawn's draw,
  which cannot hold in two cases where the game raises ValueError instead:
  an empty shape table, where `rand.randrange(0, 0)` fails
  (lib/entities.py:359), and `min_time > max_time`, where `rand.randint`
  fails (lib/game_rules.py:82-83) after the asteroid is already appended
  and counted. Neither error is modelled.
- Shapes.Shape.constructor requires at least one vertex (two coordinates),
  and so do Entities.Entity.constructor and Entities.Spawned. With no
  vertex, `max([])` at lib/geometry/shape.py:219 raises ValueError; that
  error is not modelled.
- `range` follows Python 2, where it returns a list and `+` concatenates
  two of them (lib/game_rules.py:48-51); `GameRules.Range` models that.
  Under Python 3 the `+` of two ranges raises TypeError.
- Effects.GenerateFragments accepts any speed in a fragment draw. The game
  draws it with `rand.uniform(0.5, 1.5)`; no property here depends on
  that range, so it is not constrained.
- Python's integer widths are unbounded like Dafny's, so no wrap-around is
  modelled.

## Findings

| source | as written | input that shows it | evidently intended | confidence | as-written member | corrected member |
|---|---|---|---|---|---|---|
| lib/game_rules.py:56-58 | `__gen_asteroid` reads `Asteroid.min_lin_speed`, `Asteroid.max_lin_speed` and `Asteroid.max_rot_speed`. The class declares them as `__min_lin_speed` and so on, which Python stores as `_Asteroid__min_lin_speed`, so the lookup raises AttributeError | any spawn, for example the first `update` of a new manager, where a spawn is due | read the bounds the class declares (0.5, 2.5, 2.5), as `__get_random_asteroid` does from inside the class | not executed | GameRules.SpawnSpeedBoundsFail | GameRules.SpawnSpeedBoundsFound |
