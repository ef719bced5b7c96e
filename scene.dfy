/** The game scene: how keys become flipper presses, how a planet's physics
    becomes the world's gravity and contact material, when the ball counts
    as lost and where it comes back, and how collisions with the table's
    bodies reach the game's handlers. */
module Scene {
  import opened GameTypes
  import opened TableObjects
  import GameRules
  import Flippers

  // ------------------------------------------------------------------ keys

  /** Which flipper keys are held. */
  datatype Keys = Keys(left: bool, right: bool)

  predicate IsLeftKey(key: string)
  {
    key == "ArrowLeft" || key == "a"
  }

  predicate IsRightKey(key: string)
  {
    key == "ArrowRight" || key == "d"
  }

  /** A key going down sets the flag of its side and leaves the other. */
  function KeyDown(k: Keys, key: string): (r: Keys)
    ensures r.left == (k.left || IsLeftKey(key))
    ensures r.right == (k.right || IsRightKey(key))
  {
    var k1 := if IsLeftKey(key) then k.(left := true) else k;
    if IsRightKey(key) then k1.(right := true) else k1
  }

  /** A key coming up clears the flag of its side and leaves the other. */
  function KeyUp(k: Keys, key: string): (r: Keys)
    ensures r.left == (k.left && !IsLeftKey(key))
    ensures r.right == (k.right && !IsRightKey(key))
  {
    var k1 := if IsLeftKey(key) then k.(left := false) else k;
    if IsRightKey(key) then k1.(right := false) else k1
  }

  /** Each flipper is held exactly while its side's flag is set. */
  function FlipperPressed(k: Keys, side: Flippers.Side): (pressed: bool)
    ensures side == Flippers.Left ==> pressed == k.left
    ensures side == Flippers.Right ==> pressed == k.right
  {
    if side == Flippers.Left then k.left else k.right
  }

  /** No key belongs to both sides, so a key touches one flag at most, and
      every other key leaves both alone. */
  lemma KeysTouchOneSide(k: Keys, key: string)
    ensures IsLeftKey(key) ==> KeyDown(k, key) == k.(left := true) && KeyUp(k, key) == k.(left := false)
    ensures IsRightKey(key) ==> KeyDown(k, key) == k.(right := true) && KeyUp(k, key) == k.(right := false)
    ensures !IsLeftKey(key) && !IsRightKey(key) ==> KeyDown(k, key) == k && KeyUp(k, key) == k
  {
  }

  /** Holding `a` (or the left arrow) sends the left flipper up; letting go
      sends it back to rest, and the right flipper's target is untouched by
      either. */
  lemma LeftKeyDrivesLeftFlipper(k: Keys, key: string)
    requires IsLeftKey(key)
    ensures Flippers.Target(Flippers.Left, FlipperPressed(KeyDown(k, key), Flippers.Left)) == 0.5
    ensures Flippers.Target(Flippers.Left, FlipperPressed(KeyUp(k, key), Flippers.Left)) == -0.4
    ensures FlipperPressed(KeyDown(k, key), Flippers.Right) == FlipperPressed(k, Flippers.Right)
    ensures FlipperPressed(KeyUp(k, key), Flippers.Right) == FlipperPressed(k, Flippers.Right)
  {
  }

  // --------------------------------------------------------------- physics

  datatype Material = Material(restitution: real, friction: real)

  /** What the physics world is configured with. */
  datatype WorldConfig = WorldConfig(gravity: Vec3, contact: Material)

  /** The world a planet calls for: its gravity pulls down the vertical axis,
      its slope pulls the ball down the table, and every contact bounces and
      rubs as the planet says. */
  function World(planet: Planet): (w: WorldConfig)
    ensures w.gravity.x == 0.0
    ensures w.gravity.y == planet.physics.gravity && w.gravity.z == planet.physics.slope
    ensures w.contact.restitution == planet.physics.restitution
    ensures w.contact.friction == planet.physics.friction
  {
    WorldConfig(
      Vec3(0.0, planet.physics.gravity, planet.physics.slope),
      Material(planet.physics.restitution, planet.physics.friction))
  }

  /** The world configuration changes only when a warp completes, and then
      all of it at once: after any run of events it is exactly the world of
      the last planet warped to. */
  lemma WorldFollowsWarps(s: GameState, events: seq<GameRules.Event>)
    ensures World(GameRules.Run(s, events).currentPlanet) == World(GameRules.LastPlanet(s.currentPlanet, events))
    ensures (forall i :: 0 <= i < |events| ==> !events[i].WarpComplete?) ==>
              World(GameRules.Run(s, events).currentPlanet) == World(s.currentPlanet)
  {
    GameRules.RunPlanet(s, events);
    if forall i :: 0 <= i < |events| ==> !events[i].WarpComplete? {
      NoWarpKeepsPlanet(s.currentPlanet, events);
    }
  }

  lemma {:induction false} NoWarpKeepsPlanet(p: Planet, events: seq<GameRules.Event>)
    requires forall i :: 0 <= i < |events| ==> !events[i].WarpComplete?
    ensures GameRules.LastPlanet(p, events) == p
    decreases |events|
  {
    if events != [] {
      assert !events[0].WarpComplete?;
      assert forall i :: 0 <= i < |events[1..]| ==> !events[1..][i].WarpComplete? by {
        forall i | 0 <= i < |events[1..]| ensures !events[1..][i].WarpComplete? {
          assert events[1..][i] == events[i + 1];
        }
      }
      NoWarpKeepsPlanet(p, events[1..]);
    }
  }

  // ------------------------------------------------------------------ ball

  /** Where the ball is placed at the start and after every loss. */
  const START_POS: Vec3 := Vec3(4.0, 1.0, 8.0)

  /** Past this depth along the table the ball has fallen out. */
  const LOSS_Z: real := 12.0

  const ZERO: Vec3 := Vec3(0.0, 0.0, 0.0)

  datatype BallState = BallState(position: Vec3, velocity: Vec3, angularVelocity: Vec3)

  /** What one frame of the ball's check does: whether the loss handler is
      called, and the ball it leaves. */
  datatype BallFrameResult = BallFrameResult(ball: BallState, lost: bool)

  /** The per-frame check: a ball past the bottom edge is reported lost and
      put back, at rest, at the start position; any other ball is left to the
      physics engine. */
  function BallFrame(b: BallState, startPos: Vec3): (r: BallFrameResult)
    ensures r.lost <==> b.position.z > LOSS_Z
    ensures r.lost ==> r.ball.position == startPos
    ensures r.lost ==> r.ball.velocity == ZERO && r.ball.angularVelocity == ZERO
    ensures !r.lost ==> r.ball == b
  {
    if b.position.z > LOSS_Z then BallFrameResult(BallState(startPos, ZERO, ZERO), true)
    else BallFrameResult(b, false)
  }

  /** A ball put back at the start position is inside the table, so the next
      frame does not report it lost again and leaves it where it is. */
  lemma RespawnDoesNotRetrigger(b: BallState)
    ensures var r := BallFrame(b, START_POS);
      !BallFrame(r.ball, START_POS).lost && BallFrame(r.ball, START_POS).ball == r.ball
  {
  }

  /** The handler calls one ball frame makes: the loss handler, once, when
      the ball has fallen out, and nothing otherwise. */
  function LossEvents(r: BallFrameResult): (events: seq<GameRules.Event>)
    ensures r.lost ==> events == [GameRules.BallLost]
    ensures !r.lost ==> events == []
  {
    if r.lost then [GameRules.BallLost] else []
  }

  /** A ball past the bottom edge while playing costs exactly one life, or
      ends the game when none is left, and comes back at the start position;
      a ball still on the table changes nothing. */
  lemma BallLossCostsLife(s: GameState, b: BallState)
    requires s.status == Playing
    ensures var r := BallFrame(b, START_POS);
      var t := GameRules.Run(s, LossEvents(r));
      && (b.position.z > LOSS_Z ==> r.ball.position == START_POS)
      && (b.position.z > LOSS_Z && s.lives >= 1 ==> t == s.(lives := s.lives - 1) && t.status == Playing)
      && (b.position.z > LOSS_Z && s.lives < 1 ==> t == s.(status := GameOver))
      && (b.position.z <= LOSS_Z ==> t == s)
  {
    var r := BallFrame(b, START_POS);
    if b.position.z > LOSS_Z {
      assert GameRules.Run(s, [GameRules.BallLost]) == GameRules.Run(GameRules.HandleBallLost(s), []);
    } else {
      assert GameRules.Run(s, []) == s;
    }
  }

  /** The ball's body as the scene drives it. */
  class Ball {
    const startPos: Vec3
    var mounted: bool
    var name: string
    var position: Vec3
    var velocity: Vec3
    var angularVelocity: Vec3

    function State(): BallState
      reads this
    {
      BallState(position, velocity, angularVelocity)
    }

    /** The body is created at rest at the start position; its mesh is not
        attached yet and it has no name. */
    constructor (startPos: Vec3)
      ensures this.startPos == startPos && !mounted && name == ""
      ensures State() == BallState(startPos, ZERO, ZERO)
    {
      this.startPos := startPos;
      mounted := false;
      name := "";
      position := startPos;
      velocity := ZERO;
      angularVelocity := ZERO;
    }

    /** The mesh is attached and the body is named, so that the warp gate can
        tell the ball from other bodies. */
    method Mount()
      modifies this
      ensures mounted && name == BALL_NAME
      ensures State() == old(State())
    {
      mounted := true;
      name := BALL_NAME;
    }

    /** One rendered frame. `lost` reports whether the loss handler was called
        in it: once, when the mounted ball is past the bottom edge. */
    method Frame() returns (lost: bool)
      modifies this
      ensures lost == (old(mounted) && old(position).z > LOSS_Z)
      ensures old(mounted) ==> State() == BallFrame(old(State()), startPos).ball
      ensures !old(mounted) ==> State() == old(State())
      ensures mounted == old(mounted) && name == old(name)
    {
      lost := false;
      if !mounted {
        return;
      }
      if position.z > LOSS_Z {
        lost := true;
        position := startPos;
        velocity := ZERO;
        angularVelocity := ZERO;
      }
    }
  }

  // --------------------------------------------------------------- scoring

  /** The bumpers of the table, and the points each reports per hit. */
  const BUMPER_POSITIONS: seq<Vec3> := [Vec3(0.0, 0.5, -4.0), Vec3(-2.5, 0.5, -2.0), Vec3(2.5, 0.5, -2.0)]
  const BUMPER_POINTS: seq<real> := [100.0, 100.0, 100.0]

  /** A collision the physics engine reports against one of the table's
      bodies: bumper number `index`, the warp gate or a wall. */
  datatype Contact =
    | BumperContact(index: nat, other: Body)
    | GateContact(other: Body)
    | WallContact(other: Body)

  /** The handler calls a collision makes, given whether the gate is open:
      a bumper collision is the one hit `Bumper.OnCollide` counts, reported
      as its 100 points, and a gate collision is an entry exactly when
      `WarpGate.OnCollide` reports one. */
  function ContactEvents(c: Contact, gateOpen: bool): (events: seq<GameRules.Event>)
    ensures c.BumperContact? && c.index < |BUMPER_POSITIONS| ==> events == [GameRules.Scored(100.0)]
    ensures c.GateContact? ==> (events == [GameRules.WarpEnter] <==> gateOpen && c.other.name == BALL_NAME)
    ensures c.GateContact? ==> (events == [GameRules.WarpEnter] <==> GateAdmits(gateOpen, c.other))
    ensures c.GateContact? ==> events == [] || events == [GameRules.WarpEnter]
    ensures c.WallContact? ==> events == []
  {
    match c
    case BumperContact(i, _) =>
      if i < |BUMPER_POINTS| then [GameRules.Scored(BUMPER_POINTS[i])] else []
    case GateContact(other) =>
      if GateAdmits(gateOpen, other) then [GameRules.WarpEnter] else []
    case WallContact(_) => []
  }

  /** The game state after the collisions `contacts`, in order; the gate is
      open whenever the game is warp-ready at the time of the collision. */
  function Deliver(s: GameState, contacts: seq<Contact>): GameState
    decreases |contacts|
  {
    if contacts == [] then s
    else Deliver(GameRules.Run(s, ContactEvents(contacts[0], s.warpReady)), contacts[1..])
  }

  predicate AllBumpers(contacts: seq<Contact>)
  {
    forall i :: 0 <= i < |contacts| ==>
      contacts[i].BumperContact? && contacts[i].index < |BUMPER_POSITIONS|
  }

  function Hundreds(n: nat): seq<GameRules.Event>
  {
    seq(n, _ => GameRules.Scored(100.0))
  }

  /** Bumpers have no cool-down and check no identity: in every state, every
      bumper collision, by any body, is one report of 100 points (which the
      scoring handler then ignores outside play). */
  lemma {:induction false} BumperContactsScore(s: GameState, contacts: seq<Contact>)
    requires AllBumpers(contacts)
    ensures Deliver(s, contacts) == GameRules.Run(s, Hundreds(|contacts|))
    decreases |contacts|
  {
    if contacts != [] {
      assert contacts[0].BumperContact? && contacts[0].index < |BUMPER_POSITIONS|;
      var s1 := GameRules.Step(s, GameRules.Scored(100.0));
      assert GameRules.Run(s, [GameRules.Scored(100.0)]) == GameRules.Run(s1, []);
      assert Deliver(s, contacts) == Deliver(s1, contacts[1..]);
      assert AllBumpers(contacts[1..]) by {
        forall i | 0 <= i < |contacts[1..]|
          ensures contacts[1..][i].BumperContact? && contacts[1..][i].index < |BUMPER_POSITIONS|
        {
          assert contacts[1..][i] == contacts[i + 1];
        }
      }
      BumperContactsScore(s1, contacts[1..]);
      assert Hundreds(|contacts|)[1..] == Hundreds(|contacts| - 1);
    }
  }

  /** Hence `n` bumper collisions while playing add the multiplied total of
      `n` hundred-point reports to the score (`HundredsApplied` says that is
      `100 * n` times the multiplier), and fill the charge by the same amount
      up to its cap. */
  lemma BumperContactsTotal(s: GameState, contacts: seq<Contact>)
    requires s.status == Playing && AllBumpers(contacts)
    requires s.scoreMultiplier >= 0.0 && s.warpCharge <= 100.0
    ensures var total := GameRules.Applied(s.scoreMultiplier, Hundreds(|contacts|));
      && Deliver(s, contacts).score == s.score + total
      && Deliver(s, contacts).warpCharge == Min(s.warpCharge + GameRules.ChargeGain(total), 100.0)
      && Deliver(s, contacts).status == Playing && Deliver(s, contacts).lives == s.lives
  {
    BumperContactsScore(s, contacts);
    HundredsOnlyScoring(|contacts|);
    GameRules.ScoringRun(s, Hundreds(|contacts|));
  }

  lemma HundredsOnlyScoring(n: nat)
    ensures GameRules.OnlyScoring(Hundreds(n))
  {
  }

  /** The total of `n` hundred-point reports under multiplier `m`. */
  lemma HundredsApplied(m: real, n: nat)
    ensures GameRules.Applied(m, Hundreds(n)) == m * (100.0 * n as real)
  {
    GameRules.AppliedIsScaledSum(m, Hundreds(n));
    HundredsSum(n);
  }

  lemma {:induction false} HundredsSum(n: nat)
    ensures GameRules.PointsSum(Hundreds(n)) == 100.0 * n as real
  {
    if n > 0 {
      assert Hundreds(n)[1..] == Hundreds(n - 1);
      HundredsSum(n - 1);
    }
  }

  /** Walls report nothing: however many collisions with walls, the game
      state is as it was. */
  lemma {:induction false} WallsAreInert(s: GameState, contacts: seq<Contact>)
    requires forall i :: 0 <= i < |contacts| ==> contacts[i].WallContact?
    ensures Deliver(s, contacts) == s
    decreases |contacts|
  {
    if contacts != [] {
      assert contacts[0].WallContact?;
      assert GameRules.Run(s, []) == s;
      assert forall i :: 0 <= i < |contacts[1..]| ==> contacts[1..][i].WallContact? by {
        forall i | 0 <= i < |contacts[1..]| ensures contacts[1..][i].WallContact? {
          assert contacts[1..][i] == contacts[i + 1];
        }
      }
      WallsAreInert(s, contacts[1..]);
    }
  }

  /** The gate starts a warp only for the ball, only when open, and only
      once: a closed gate or a body other than the ball changes nothing, and
      a second entry finds the warp already under way. */
  lemma GateEntry(s: GameState, other: Body)
    ensures !s.warpReady ==> Deliver(s, [GateContact(other)]) == s
    ensures other.name != BALL_NAME ==> Deliver(s, [GateContact(other)]) == s
    ensures s.warpReady && other.name == BALL_NAME ==>
              Deliver(s, [GateContact(other)]).status == Warping
    ensures Deliver(s, [GateContact(other), GateContact(other)]) == Deliver(s, [GateContact(other)])
  {
    var c := GateContact(other);
    assert [c][1..] == [] && [c, c][1..] == [c];
    var s1 := GameRules.Run(s, ContactEvents(c, s.warpReady));
    assert Deliver(s, [c]) == Deliver(s1, []) == s1;
    assert Deliver(s, [c, c]) == Deliver(s1, [c]);
    if s.warpReady && other.name == BALL_NAME {
      assert GameRules.Run(s, [GameRules.WarpEnter]) == GameRules.Run(GameRules.HandleWarpEnter(s), []);
      assert s1.status == Warping && s1.warpReady;
      var s2 := GameRules.Run(s1, ContactEvents(c, s1.warpReady));
      assert GameRules.Run(s1, [GameRules.WarpEnter]) == GameRules.Run(GameRules.HandleWarpEnter(s1), []);
      assert Deliver(s1, [c]) == Deliver(s2, []) == s2 == s1;
    } else {
      assert ContactEvents(c, s.warpReady) == [];
      assert s1 == s;
    }
  }
}
