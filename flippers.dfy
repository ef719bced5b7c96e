/** The flipper the table uses: a kinematic paddle whose angle is moved, once
    per rendered frame, a fraction of the way towards a target chosen by the
    side and by whether its key is held. The fraction is `delta * speed`,
    capped at one, so the motion is an exponential approach that lands on
    the target exactly once a single frame is long enough. */
module Flippers {
  import opened GameTypes

  datatype Side = Left | Right

  /** Approach rate, per second, while the key is held and after release. */
  const PRESSED_SPEED: real := 20.0
  const RELEASED_SPEED: real := 10.0

  /** The range a flipper of `side` swings through: between its released and
      its held target. */
  predicate InSwing(side: Side, angle: real)
  {
    if side == Left then -0.4 <= angle <= 0.5 else -0.5 <= angle <= 0.4
  }

  /** The angle a flipper starts at. */
  function InitialAngle(side: Side): (a: real)
    ensures InSwing(side, a)
  {
    if side == Left then -0.4 else 0.4
  }

  /** The angle the flipper moves towards: up when held, down when released,
      mirrored between the two sides. */
  function Target(side: Side, pressed: bool): (t: real)
    ensures InSwing(side, t)
    ensures t > 0.0 <==> (pressed <==> side == Left)
  {
    if pressed then (if side == Left then 0.5 else -0.5)
    else (if side == Left then -0.4 else 0.4)
  }

  /** The flipper snaps up faster than it falls back. */
  function Speed(pressed: bool): (v: real)
    ensures v >= RELEASED_SPEED > 0.0
    ensures pressed <==> v > RELEASED_SPEED
  {
    if pressed then PRESSED_SPEED else RELEASED_SPEED
  }

  /** The fraction of the remaining distance covered in one frame. */
  function Blend(delta: real, speed: real): (k: real)
    ensures k <= 1.0
    ensures delta >= 0.0 && speed >= 0.0 ==> 0.0 <= k
    ensures delta * speed >= 1.0 ==> k == 1.0
  {
    Min(delta * speed, 1.0)
  }

  function Dist(a: real, b: real): (d: real)
    ensures d >= 0.0
    ensures d == 0.0 <==> a == b
  {
    if a >= b then a - b else b - a
  }

  predicate Between(x: real, a: real, b: real)
  {
    (a <= x <= b) || (b <= x <= a)
  }

  /** One frame of the flipper: the new angle after `delta` seconds. */
  function StepAngle(angle: real, side: Side, pressed: bool, delta: real): (r: real)
    ensures delta * Speed(pressed) >= 1.0 ==> r == Target(side, pressed)
    ensures angle == Target(side, pressed) ==> r == angle
  {
    angle + (Target(side, pressed) - angle) * Blend(delta, Speed(pressed))
  }

  /** A share `k` in [0, 1] of a non-negative `x` lies between 0 and `x`. */
  lemma ShareBounds(x: real, k: real)
    requires x >= 0.0 && 0.0 <= k <= 1.0
    ensures 0.0 <= x * k <= x
    ensures x * (1.0 - k) >= 0.0
    ensures x - x * k == x * (1.0 - k)
  {
  }

  /** Moving a fraction `k` in [0, 1] of the way from `a` to `t` lands
      between them and leaves `1 - k` of the distance to go. */
  lemma ApproachFacts(a: real, t: real, k: real)
    requires 0.0 <= k <= 1.0
    ensures Between(a + (t - a) * k, a, t)
    ensures Dist(a + (t - a) * k, t) == Dist(a, t) * (1.0 - k)
    ensures Dist(a + (t - a) * k, t) <= Dist(a, t)
  {
    if a <= t {
      ShareBounds(t - a, k);
    } else {
      ShareBounds(a - t, k);
      assert (t - a) * k == -((a - t) * k);
    }
  }

  /** The swing is an interval, so a point between two angles of the swing
      is in it. */
  lemma BetweenStaysInSwing(side: Side, x: real, a: real, t: real)
    requires Between(x, a, t) && InSwing(side, a) && InSwing(side, t)
    ensures InSwing(side, x)
  {
  }

  /** For a non-negative frame time the flipper never overshoots: the new
      angle lies between the old one and the target, the distance left is the
      old distance scaled by `1 - k`, and the angle stays within its swing. */
  lemma StepApproachesTarget(angle: real, side: Side, pressed: bool, delta: real)
    requires delta >= 0.0
    ensures var t, r := Target(side, pressed), StepAngle(angle, side, pressed, delta);
      && Between(r, angle, t)
      && Dist(r, t) == Dist(angle, t) * (1.0 - Blend(delta, Speed(pressed)))
      && Dist(r, t) <= Dist(angle, t)
      && (InSwing(side, angle) ==> InSwing(side, r))
  {
    var t, k := Target(side, pressed), Blend(delta, Speed(pressed));
    var r := StepAngle(angle, side, pressed, delta);
    assert r == angle + (t - angle) * k;
    BlendIsShare(delta, Speed(pressed));
    ApproachFacts(angle, t, k);
    if InSwing(side, angle) {
      BetweenStaysInSwing(side, r, angle, t);
    }
  }

  lemma BlendIsShare(delta: real, speed: real)
    requires delta >= 0.0 && speed >= 0.0
    ensures 0.0 <= Blend(delta, speed) <= 1.0
  {
    ShareBounds(delta, 0.0);
    assert delta * speed >= 0.0;
  }

  /** The released target is where a flipper starts, so an untouched flipper
      is already at rest. */
  lemma InitialAngleIsRest(side: Side)
    ensures InitialAngle(side) == Target(side, false)
  {
  }

  /** The right flipper's targets mirror the left's. */
  lemma TargetsMirrored(pressed: bool)
    ensures Target(Right, pressed) == -Target(Left, pressed)
  {
  }

  // ------------------------------------------------------- frame sequences

  /** What each frame sees: whether the key is held and the frame time. */
  datatype FrameInput = FrameInput(pressed: bool, delta: real)

  /** The angle after the frames `inputs`, one after the other. */
  function Frames(angle: real, side: Side, inputs: seq<FrameInput>): real
    decreases |inputs|
  {
    if inputs == [] then angle
    else Frames(StepAngle(angle, side, inputs[0].pressed, inputs[0].delta), side, inputs[1..])
  }

  predicate NonNegativeTimes(inputs: seq<FrameInput>)
  {
    forall i :: 0 <= i < |inputs| ==> inputs[i].delta >= 0.0
  }

  predicate HeldAs(pressed: bool, inputs: seq<FrameInput>)
  {
    forall i :: 0 <= i < |inputs| ==> inputs[i].pressed == pressed
  }

  /** Whatever the key does, a flipper that starts within its swing stays
      within it: pressing and releasing never overshoots either target. */
  lemma {:induction false} FramesStayInSwing(angle: real, side: Side, inputs: seq<FrameInput>)
    requires InSwing(side, angle) && NonNegativeTimes(inputs)
    ensures InSwing(side, Frames(angle, side, inputs))
    decreases |inputs|
  {
    if inputs != [] {
      assert inputs[0].delta >= 0.0;
      StepApproachesTarget(angle, side, inputs[0].pressed, inputs[0].delta);
      assert NonNegativeTimes(inputs[1..]) by {
        forall i | 0 <= i < |inputs[1..]| ensures inputs[1..][i].delta >= 0.0 {
          assert inputs[1..][i] == inputs[i + 1];
        }
      }
      FramesStayInSwing(StepAngle(angle, side, inputs[0].pressed, inputs[0].delta), side, inputs[1..]);
    }
  }

  /** An angle at the target stays there for as long as the key keeps its
      state, however long or short the frames. */
  lemma {:induction false} TargetIsFixedPoint(side: Side, pressed: bool, inputs: seq<FrameInput>)
    requires HeldAs(pressed, inputs)
    ensures Frames(Target(side, pressed), side, inputs) == Target(side, pressed)
    decreases |inputs|
  {
    if inputs != [] {
      assert inputs[0].pressed == pressed;
      assert HeldAs(pressed, inputs[1..]) by {
        forall i | 0 <= i < |inputs[1..]| ensures inputs[1..][i].pressed == pressed {
          assert inputs[1..][i] == inputs[i + 1];
        }
      }
      TargetIsFixedPoint(side, pressed, inputs[1..]);
    }
  }

  /** A flipper whose key is never pressed never moves from where it starts. */
  lemma ReleasedFlipperNeverMoves(side: Side, inputs: seq<FrameInput>)
    requires HeldAs(false, inputs)
    ensures Frames(InitialAngle(side), side, inputs) == InitialAngle(side)
  {
    TargetIsFixedPoint(side, false, inputs);
  }

  /** While the key keeps its state, the flipper closes in monotonically:
      after any number of frames it lies between where it started and the
      target, and no farther from the target than it started. */
  lemma {:induction false} HeldFlipperCloses(angle: real, side: Side, pressed: bool, inputs: seq<FrameInput>)
    requires HeldAs(pressed, inputs) && NonNegativeTimes(inputs)
    ensures var t, r := Target(side, pressed), Frames(angle, side, inputs);
      Between(r, angle, t) && Dist(r, t) <= Dist(angle, t)
    decreases |inputs|
  {
    if inputs != [] {
      var d0 := inputs[0].delta;
      var a1 := StepAngle(angle, side, pressed, d0);
      assert inputs[0].pressed == pressed && d0 >= 0.0;
      StepApproachesTarget(angle, side, pressed, d0);
      assert HeldAs(pressed, inputs[1..]) && NonNegativeTimes(inputs[1..]) by {
        forall i | 0 <= i < |inputs[1..]|
          ensures inputs[1..][i].pressed == pressed && inputs[1..][i].delta >= 0.0
        {
          assert inputs[1..][i] == inputs[i + 1];
        }
      }
      HeldFlipperCloses(a1, side, pressed, inputs[1..]);
    }
  }

  /** Held long enough, the flipper reaches its target exactly: one frame
      with `delta * speed >= 1` puts it there, and it stays. */
  lemma {:induction false} HeldFlipperReachesTarget(angle: real, side: Side, pressed: bool, inputs: seq<FrameInput>, j: nat)
    requires HeldAs(pressed, inputs)
    requires j < |inputs| && inputs[j].delta * Speed(pressed) >= 1.0
    ensures Frames(angle, side, inputs) == Target(side, pressed)
    decreases |inputs|
  {
    assert inputs[0].pressed == pressed;
    var a1 := StepAngle(angle, side, pressed, inputs[0].delta);
    assert HeldAs(pressed, inputs[1..]) by {
      forall i | 0 <= i < |inputs[1..]| ensures inputs[1..][i].pressed == pressed {
        assert inputs[1..][i] == inputs[i + 1];
      }
    }
    if j == 0 {
      assert a1 == Target(side, pressed);
      TargetIsFixedPoint(side, pressed, inputs[1..]);
    } else {
      assert inputs[1..][j - 1] == inputs[j];
      HeldFlipperReachesTarget(a1, side, pressed, inputs[1..], j - 1);
    }
  }

  // ------------------------------------------------------------ the paddle

  /** The kinematic paddle: the angle it keeps between frames and the
      rotation it last gave the physics body. */
  class SimpleFlipper {
    const side: Side
    var currentAngle: real
    var bodyRotation: Vec3

    ghost predicate Valid()
      reads this
    {
      InSwing(side, currentAngle)
    }

    /** The body is created without a rotation; the first frame sets it. */
    constructor (side: Side)
      ensures this.side == side && currentAngle == InitialAngle(side)
      ensures bodyRotation == Vec3(0.0, 0.0, 0.0)
      ensures Valid()
    {
      this.side := side;
      currentAngle := InitialAngle(side);
      bodyRotation := Vec3(0.0, 0.0, 0.0);
    }

    /** One rendered frame, `delta` seconds after the previous one: the
        angle moves towards the target and the body is turned to it about
        the vertical axis. */
    method Frame(isPressed: bool, delta: real)
      modifies this
      ensures currentAngle == StepAngle(old(currentAngle), side, isPressed, delta)
      ensures bodyRotation == Vec3(0.0, currentAngle, 0.0)
      ensures delta >= 0.0 ==>
                Dist(currentAngle, Target(side, isPressed)) <= Dist(old(currentAngle), Target(side, isPressed))
      ensures old(Valid()) && delta >= 0.0 ==> Valid()
    {
      var angle := currentAngle;
      var target := Target(side, isPressed);
      var speed := Speed(isPressed);
      var next := angle + (target - angle) * Min(delta * speed, 1.0);
      assert next == StepAngle(angle, side, isPressed, delta);
      if delta >= 0.0 {
        StepApproachesTarget(angle, side, isPressed, delta);
      }
      currentAngle := next;
      bodyRotation := Vec3(0.0, next, 0.0);
    }
  }
}
