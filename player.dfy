/** The player: the ship, the lives and the flags the game reads, and the
    two timed callbacks a death sets off (respawn after three seconds,
    vulnerability two seconds after that). The clock is not modelled: a
    method that schedules a callback returns it, and the caller runs the
    callback's method when the delay has passed. */
module Players {
  import opened Utils
  import opened Lists
  import opened Entities

  /** Lives a new player starts with. */
  const StartingLives := 3

  /** Seconds from a death that leaves lives to the respawn. */
  const RespawnDelay := 3.0

  /** Seconds from a respawn to the end of the protection. */
  const ProtectionDelay := 2.0

  /** Where a ship starts: the middle of the window, rounded down to whole
      pixels, facing up. */
  function Centre(): Vector
  {
    Vector((WindowWidth / 2) as real, (WindowHeight / 2) as real)
  }

  const StartRot := 90.0

  /** The callbacks a player hands the clock. */
  datatype Callback = CallRespawn | CallSetVulnerable

  datatype Scheduled = Scheduled(callback: Callback, delay: real)

  /** The player's flags and counters. */
  datatype Status = Status(vulnerable: bool, dead: bool, lives: int, gameOver: bool, score: int)

  function Initial(): Status
  {
    Status(true, false, StartingLives, false, 0)
  }

  /** `kill`: dead, one life fewer, and over once none are left. */
  function Killed(s: Status): (r: Status)
    ensures r.dead && r.lives == s.lives - 1
    ensures r.gameOver <==> s.gameOver || s.lives == 1
    ensures r.vulnerable == s.vulnerable && r.score == s.score
  {
    var lives := s.lives - 1;
    s.(dead := true, lives := lives, gameOver := if lives == 0 then true else s.gameOver)
  }

  /** The callback `kill` schedules: a respawn unless the last life went. */
  function AfterKill(s: Status): (r: Option<Scheduled>)
    ensures r.Some? <==> s.lives != 1
    ensures r.Some? ==> r.value == Scheduled(CallRespawn, RespawnDelay)
  {
    if s.lives - 1 == 0 then None else Some(Scheduled(CallRespawn, RespawnDelay))
  }

  /** `__respawn`: alive again but protected; lives and score untouched. */
  function Respawned(s: Status): (r: Status)
    ensures !r.dead && !r.vulnerable
    ensures r.lives == s.lives && r.gameOver == s.gameOver && r.score == s.score
  {
    s.(dead := false, vulnerable := false)
  }

  /** `__set_vulnerable`. */
  function Vulnerable(s: Status): (r: Status)
    ensures r.vulnerable
    ensures r.(vulnerable := s.vulnerable) == s
  {
    s.(vulnerable := true)
  }

  /** The status after n deaths, each but the last followed by its respawn
      and the end of the protection. */
  function Lived(s: Status, n: nat): Status
  {
    if n == 0 then s else Killed(if n == 1 then s else Vulnerable(Respawned(Lived(s, n - 1))))
  }

  /** Starting with three lives, the game is over exactly from the third
      death on, and each death takes one life. */
  lemma {:induction false} GameOverAfterThree(n: nat)
    ensures Lived(Initial(), n).lives == StartingLives - n
    ensures Lived(Initial(), n).gameOver <==> n >= StartingLives
    ensures Lived(Initial(), n).score == 0
  {
    if n > 1 {
      GameOverAfterThree(n - 1);
    }
  }

  /** A death schedules a respawn exactly when it does not end the game,
      provided the game was not over before. */
  lemma RespawnUnlessOver(s: Status)
    requires !s.gameOver
    ensures AfterKill(s).Some? <==> !Killed(s).gameOver
  {
  }

  /** A player is none of the objects that make up the bullets. */
  lemma {:induction false} PlayerNotPart(p: Player, bs: seq<Bullet>)
    ensures p !in Parts(bs)
  {
    if bs != [] {
      PlayerNotPart(p, bs[1..]);
    }
  }

  class Player {
    var ship: Ship
    /** The ship's bullet list, under a second name. */
    var bullets: BulletList
    var isVulnerable: bool
    var isDead: bool
    var livesLeft: int
    var gameOver: bool
    var score: int

    ghost predicate Valid()
      reads this, ship, ship.bullets
    {
      ship.Valid() && bullets == ship.bullets
    }

    ghost function Flags(): Status
      reads this
    {
      Status(isVulnerable, isDead, livesLeft, gameOver, score)
    }

    /** `Player()`: a new ship in the middle facing up, three lives,
        vulnerable, alive, score 0. */
    constructor (m: MathLib)
      ensures Valid() && fresh(ship) && fresh(ship.body) && fresh(ship.bullets)
      ensures Flags() == Initial()
      ensures ship.body.State() == Spawned(m, ShipVerts, Vector(m.cos(StartRot), m.sin(StartRot)), 1.0, 1.8, Centre(), StartRot, 0.5)
      ensures ship.body.shape.verts == ShipVerts
      ensures ship.movement == Zero() && ship.lastShoot == ShootDelay && ship.bullets.items == []
    {
      isVulnerable := true;
      isDead := false;
      livesLeft := StartingLives;
      gameOver := false;
      score := 0;
      var s := new Ship(m, Centre(), StartRot);
      ship := s;
      bullets := s.bullets;
    }

    /** `update`: the ship's update; the player's own fields stay. */
    method Update(m: MathLib, keys: Keys, dt: real, wrap: real -> real) returns (ghost fired: seq<Bullet>)
      requires Valid()
      modifies ship, ship.body, ship.body.shape, ship.bullets, Parts(ship.bullets.items)
      ensures Valid() && ship == old(ship) && Flags() == old(Flags())
      ensures ship.Pose() == Placed(Steered(m, old(ship.Pose()), keys, dt))
      ensures Shoots(old(ship.Pose()), keys) ==> |fired| == 1 && fresh(fired[0])
      ensures !Shoots(old(ship.Pose()), keys) ==> fired == []
      ensures fresh(Parts(fired))
      ensures bullets.items
              == Sweep(old(bullets.items) + fired,
                       Expiring(Entering(m, old(ship.Pose()), old(States(bullets.items)), keys, dt), dt))
      ensures States(old(bullets.items) + fired)
              == AfterLoop(Entering(m, old(ship.Pose()), old(States(bullets.items)), keys, dt), dt, wrap)
    {
      PlayerNotPart(this, ship.bullets.items);
      fired := ship.Update(m, keys, dt, wrap);
    }

    /** `kill`: returns the respawn it schedules, if any. */
    method Kill() returns (scheduled: Option<Scheduled>)
      modifies this
      ensures Flags() == Killed(old(Flags()))
      ensures scheduled == AfterKill(old(Flags()))
      ensures ship == old(ship) && bullets == old(bullets)
    {
      isDead := true;
      livesLeft := livesLeft - 1;
      if livesLeft == 0 {
        gameOver := true;
        return None;
      }
      return Some(Scheduled(CallRespawn, RespawnDelay));
    }

    /** `__respawn`: a new ship in the middle, the player's bullet list
        becoming the new ship's (empty) one; protected for two seconds. */
    method Respawn(m: MathLib) returns (scheduled: Scheduled)
      modifies this
      ensures Valid() && fresh(ship) && fresh(ship.body) && fresh(ship.bullets)
      ensures Flags() == Respawned(old(Flags()))
      ensures ship.body.State() == Spawned(m, ShipVerts, Vector(m.cos(StartRot), m.sin(StartRot)), 1.0, 1.8, Centre(), StartRot, 0.5)
      ensures ship.body.shape.verts == ShipVerts
      ensures ship.movement == Zero() && ship.lastShoot == ShootDelay && bullets.items == []
      ensures scheduled == Scheduled(CallSetVulnerable, ProtectionDelay)
    {
      isDead := false;
      isVulnerable := false;
      ship := new Ship(m, Centre(), StartRot);
      bullets := ship.bullets;
      scheduled := Scheduled(CallSetVulnerable, ProtectionDelay);
    }

    /** `__set_vulnerable`. */
    method SetVulnerable()
      modifies this`isVulnerable
      ensures Flags() == Vulnerable(old(Flags()))
    {
      isVulnerable := true;
    }
  }
}
