/** The state updaters of the game's top-level component: each one is a total
    function from the previous game state to the next, built by copying the
    previous state and overriding a few fields. The handlers that guard them
    (scoring and ball loss only while playing, warp entry only when ready and
    not already warping) are functions too, and `Step`/`Run` replay a
    sequence of table and user events through them. */
module GameRules {
  import opened GameTypes

  /** Warp charge, in percent, earned by `applied` points of score. */
  function ChargeGain(applied: real): (g: real)
    ensures applied >= 0.0 ==> g >= 0.0
    ensures applied == WARP_THRESHOLD ==> g == 100.0
  {
    applied / WARP_THRESHOLD * 100.0
  }

  /** The invariant every reachable state keeps: charge within [0, 100] and
      the gate open exactly when it is full, lives within [0, MAX_LIVES],
      a non-negative score and a multiplier of at least one. */
  predicate Inv(s: GameState)
  {
    && 0.0 <= s.warpCharge <= 100.0
    && (s.warpReady <==> s.warpCharge >= 100.0)
    && 0 <= s.lives <= MAX_LIVES
    && 0.0 <= s.score
    && 1.0 <= s.scoreMultiplier
  }

  // ---------------------------------------------------------------- scoring

  /** The updater of the scoring handler. */
  function ScoreUpdate(prev: GameState, points: real): (r: GameState)
    ensures r.score == prev.score + points * prev.scoreMultiplier
    ensures r.warpCharge <= 100.0
    ensures r.warpCharge <= prev.warpCharge + ChargeGain(points * prev.scoreMultiplier)
    ensures r.warpCharge == 100.0 || r.warpCharge == prev.warpCharge + ChargeGain(points * prev.scoreMultiplier)
    ensures r.warpReady <==> r.warpCharge == 100.0
    ensures points >= 0.0 && prev.scoreMultiplier >= 0.0 && prev.warpCharge <= 100.0 ==>
              prev.score <= r.score && prev.warpCharge <= r.warpCharge
    ensures r == prev.(score := r.score, warpCharge := r.warpCharge, warpReady := r.warpReady)
  {
    var multiplied := points * prev.scoreMultiplier;
    var charge := Min(prev.warpCharge + ChargeGain(multiplied), 100.0);
    prev.(score := prev.score + multiplied, warpCharge := charge, warpReady := charge >= 100.0)
  }

  /** Scoring is ignored unless the game is being played. */
  function HandleScore(s: GameState, points: real): (r: GameState)
    ensures s.status != Playing ==> r == s
    ensures s.status == Playing ==> r == ScoreUpdate(s, points)
    ensures r.status == s.status && r.lives == s.lives
  {
    if s.status != Playing then s else ScoreUpdate(s, points)
  }

  // -------------------------------------------------------------- ball loss

  /** The updater of the ball-lost handler: one life fewer, or game over when
      none is left; the lives count itself never drops below zero. */
  function BallLostUpdate(prev: GameState): (r: GameState)
    ensures prev.lives >= 1 ==> r == prev.(lives := prev.lives - 1)
    ensures prev.lives < 1 ==> r == prev.(status := GameOver)
    ensures prev.lives >= 0 ==> r.lives >= 0
    ensures r.status == GameOver <==> prev.lives < 1 || prev.status == GameOver
  {
    var newLives := prev.lives - 1;
    if newLives < 0 then prev.(status := GameOver) else prev.(lives := newLives)
  }

  /** A lost ball is ignored unless the game is being played. */
  function HandleBallLost(s: GameState): (r: GameState)
    ensures s.status != Playing ==> r == s
    ensures s.status == Playing ==> r == BallLostUpdate(s)
    ensures s.status == Playing ==> r.status == Playing || r.status == GameOver
  {
    if s.status != Playing then s else BallLostUpdate(s)
  }

  // ------------------------------------------------------------------- warp

  /** Whether the warp handler goes on past its guard: the gate must be ready
      and no warp may already be under way. The game need not be playing. */
  predicate WarpStarts(s: GameState)
  {
    s.warpReady && s.status != Warping
  }

  /** The synchronous part of the warp handler: past the guard the status
      becomes WARPING, and nothing else changes. */
  function HandleWarpEnter(s: GameState): (r: GameState)
    ensures r.status == Warping <==> s.warpReady || s.status == Warping
    ensures !WarpStarts(s) ==> r == s
    ensures r == s.(status := r.status)
  {
    if !s.warpReady || s.status == Warping then s else s.(status := Warping)
  }

  /** The updater run when the warp timer fires: the new planet becomes
      current, play resumes with an empty gate, one bonus life (capped) and
      the planet's artifact, if any, appended to the collection. */
  function WarpCompleteUpdate(prev: GameState, planet: Planet): (r: GameState)
    ensures r.currentPlanet == planet && r.status == Playing
    ensures !r.warpReady && r.warpCharge == 0.0
    ensures r.lives <= MAX_LIVES
    ensures prev.lives < MAX_LIVES ==> r.lives == prev.lives + 1
    ensures prev.lives >= MAX_LIVES ==> r.lives == MAX_LIVES
    ensures planet.artifact.Some? ==> r.artifacts == prev.artifacts + [planet.artifact.value]
    ensures planet.artifact.None? ==> r.artifacts == prev.artifacts
    ensures r.score == prev.score && r.highScore == prev.highScore
    ensures r.scoreMultiplier == prev.scoreMultiplier && r.performanceReview == prev.performanceReview
  {
    prev.(
      currentPlanet := planet,
      status := Playing,
      warpReady := false,
      warpCharge := 0.0,
      lives := MinInt(prev.lives + 1, MAX_LIVES),
      artifacts := if planet.artifact.Some? then prev.artifacts + [planet.artifact.value] else prev.artifacts)
  }

  // ----------------------------------------------------------------- launch

  /** The updater of the LAUNCH button. */
  function LaunchUpdate(prev: GameState): (r: GameState)
    ensures r.status == Playing
    ensures r == prev.(status := r.status)
  {
    prev.(status := Playing)
  }

  /** The LAUNCH button is only on screen in the menu; elsewhere there is
      nothing to press. */
  function PressLaunch(s: GameState): (r: GameState)
    ensures s.status == Menu ==> r == LaunchUpdate(s)
    ensures s.status != Menu ==> r == s
  {
    if s.status == Menu then LaunchUpdate(s) else s
  }

  // ---------------------------------------------------------------- replays

  /** What reaches the state machine: a scoring report, a lost ball, a warp
      gate entry, the warp timer firing with the generated planet, and a
      press of the LAUNCH button. */
  datatype Event =
    | Scored(points: real)
    | BallLost
    | WarpEnter
    | WarpComplete(planet: Planet)
    | Launch

  /** Events the table can produce: score reports are never negative. */
  predicate ValidEvent(e: Event)
  {
    e.Scored? ==> e.points >= 0.0
  }

  function Step(s: GameState, e: Event): (r: GameState)
    ensures r.scoreMultiplier == s.scoreMultiplier && r.highScore == s.highScore
    ensures r.performanceReview == s.performanceReview
    ensures e.WarpComplete? ==> r.currentPlanet == e.planet
    ensures !e.WarpComplete? ==> r.currentPlanet == s.currentPlanet && r.artifacts == s.artifacts
    ensures ValidEvent(e) && s.scoreMultiplier >= 0.0 ==> s.score <= r.score
  {
    match e
    case Scored(points) => HandleScore(s, points)
    case BallLost => HandleBallLost(s)
    case WarpEnter => HandleWarpEnter(s)
    case WarpComplete(planet) => WarpCompleteUpdate(s, planet)
    case Launch => PressLaunch(s)
  }

  /** The state after handling `events` in order, one at a time. */
  function Run(s: GameState, events: seq<Event>): GameState
    decreases |events|
  {
    if events == [] then s else Run(Step(s, events[0]), events[1..])
  }

  function PointsSum(events: seq<Event>): real
    decreases |events|
  {
    if events == [] then 0.0
    else (if events[0].Scored? then events[0].points else 0.0) + PointsSum(events[1..])
  }

  predicate AllValid(events: seq<Event>)
  {
    forall i :: 0 <= i < |events| ==> ValidEvent(events[i])
  }

  /** The planet current after `events`: that of the last warp completion,
      or `p` when there is none. */
  function LastPlanet(p: Planet, events: seq<Event>): Planet
    decreases |events|
  {
    if events == [] then p
    else LastPlanet(if events[0].WarpComplete? then events[0].planet else p, events[1..])
  }

  // ---------------------------------------------------------------- lemmas

  lemma StepPreservesInv(s: GameState, e: Event)
    requires Inv(s) && ValidEvent(e)
    ensures Inv(Step(s, e))
  {
    match e
    case Scored(points) =>
      assert points * s.scoreMultiplier >= 0.0;
    case _ =>
  }

  lemma {:induction false} RunPreservesInv(s: GameState, events: seq<Event>)
    requires Inv(s) && AllValid(events)
    ensures Inv(Run(s, events))
    decreases |events|
  {
    if events != [] {
      assert ValidEvent(events[0]);
      StepPreservesInv(s, events[0]);
      assert AllValid(events[1..]) by {
        forall i | 0 <= i < |events[1..]| ensures ValidEvent(events[1..][i]) {
          assert events[1..][i] == events[i + 1];
        }
      }
      RunPreservesInv(Step(s, events[0]), events[1..]);
    }
  }

  /** No event changes the multiplier, the high score or the review. */
  lemma {:induction false} RunKeepsMultiplier(s: GameState, events: seq<Event>)
    ensures Run(s, events).scoreMultiplier == s.scoreMultiplier
    ensures Run(s, events).highScore == s.highScore
    ensures Run(s, events).performanceReview == s.performanceReview
    decreases |events|
  {
    if events != [] {
      RunKeepsMultiplier(Step(s, events[0]), events[1..]);
    }
  }

  /** The score never goes down while the table reports non-negative points. */
  lemma {:induction false} RunScoreNonDecreasing(s: GameState, events: seq<Event>)
    requires s.scoreMultiplier >= 0.0 && AllValid(events)
    ensures s.score <= Run(s, events).score
    decreases |events|
  {
    if events != [] {
      assert ValidEvent(events[0]);
      assert AllValid(events[1..]) by {
        forall i | 0 <= i < |events[1..]| ensures ValidEvent(events[1..][i]) {
          assert events[1..][i] == events[i + 1];
        }
      }
      RunScoreNonDecreasing(Step(s, events[0]), events[1..]);
    }
  }

  /** The physics and theme in force after a run are those of the last
      planet a warp completed to: the level changes nowhere else. */
  lemma {:induction false} RunPlanet(s: GameState, events: seq<Event>)
    ensures Run(s, events).currentPlanet == LastPlanet(s.currentPlanet, events)
    decreases |events|
  {
    if events != [] {
      RunPlanet(Step(s, events[0]), events[1..]);
    }
  }

  predicate OnlyScoring(events: seq<Event>)
  {
    forall i :: 0 <= i < |events| ==> events[i].Scored? && events[i].points >= 0.0
  }

  /** The score a run of reports is worth at multiplier `m`: each report's
      points times the multiplier, added up. */
  function Applied(m: real, events: seq<Event>): real
    decreases |events|
  {
    if events == [] then 0.0
    else (if events[0].Scored? then events[0].points * m else 0.0) + Applied(m, events[1..])
  }

  /** At a fixed multiplier, the score a run is worth is the multiplier times
      the sum of its points. */
  lemma {:induction false} AppliedIsScaledSum(m: real, events: seq<Event>)
    ensures Applied(m, events) == m * PointsSum(events)
    decreases |events|
  {
    if events != [] {
      AppliedIsScaledSum(m, events[1..]);
      var p := if events[0].Scored? then events[0].points else 0.0;
      assert p * m + m * PointsSum(events[1..]) == m * (p + PointsSum(events[1..]));
    }
  }

  /** While playing, a run of score reports adds exactly the score it is
      worth to the score, fills the charge by the same amount (capped at 100)
      and touches neither the status nor the lives. */
  lemma ScoringRun(s: GameState, events: seq<Event>)
    requires s.status == Playing && OnlyScoring(events)
    requires s.scoreMultiplier >= 0.0 && s.warpCharge <= 100.0
    ensures Run(s, events).score == s.score + Applied(s.scoreMultiplier, events)
    ensures Run(s, events).warpCharge == Min(s.warpCharge + ChargeGain(Applied(s.scoreMultiplier, events)), 100.0)
    ensures Run(s, events).status == Playing && Run(s, events).lives == s.lives
    ensures Applied(s.scoreMultiplier, events) >= 0.0
  {
    ScoringRunScore(s, events);
    ScoringRunStatus(s, events);
    ScoringRunCharge(s, events);
    AppliedNonNegative(s.scoreMultiplier, events);
    assert Run(s, events).score - s.score == Applied(s.scoreMultiplier, events);
  }

  /** The score part of `ScoringRun`. */
  lemma {:induction false} ScoringRunScore(s: GameState, events: seq<Event>)
    requires s.status == Playing && OnlyScoring(events)
    ensures Run(s, events).score == s.score + Applied(s.scoreMultiplier, events)
    decreases |events|
  {
    if events != [] {
      var p, m := events[0].points, s.scoreMultiplier;
      var tail := events[1..];
      var s1 := ScoreUpdate(s, p);
      assert Run(s, events) == Run(s1, tail) by {
        assert events[0] == Scored(p);
      }
      assert s1.status == Playing && s1.scoreMultiplier == m;
      OnlyScoringTail(events);
      ScoringRunScore(s1, tail);
    }
  }

  /** The status and lives part of `ScoringRun`. */
  lemma {:induction false} ScoringRunStatus(s: GameState, events: seq<Event>)
    requires s.status == Playing && OnlyScoring(events)
    ensures Run(s, events).status == Playing && Run(s, events).lives == s.lives
    decreases |events|
  {
    if events != [] {
      var s1 := Step(s, events[0]);
      assert s1.status == Playing && s1.lives == s.lives;
      OnlyScoringTail(events);
      ScoringRunStatus(s1, events[1..]);
    }
  }

  /** The charge half of `ScoringRun`: the charge grows by the gain of the
      score the run added, capped once at 100. */
  lemma {:induction false} ScoringRunCharge(s: GameState, events: seq<Event>)
    requires s.status == Playing && OnlyScoring(events)
    requires s.scoreMultiplier >= 0.0 && s.warpCharge <= 100.0
    ensures Run(s, events).warpCharge == Min(s.warpCharge + ChargeGain(Run(s, events).score - s.score), 100.0)
    ensures s.score <= Run(s, events).score
    decreases |events|
  {
    if events != [] {
      var p := events[0].points;
      var s1 := Step(s, Scored(p));
      assert Run(s, events) == Run(s1, events[1..]) by {
        assert events[0] == Scored(p);
      }
      assert s1.status == Playing && s1.scoreMultiplier >= 0.0 && s1.warpCharge <= 100.0
          && s1.warpCharge == Min(s.warpCharge + ChargeGain(s1.score - s.score), 100.0)
          && s.score <= s1.score by {
        assert p >= 0.0;
        ScoringStep(s, p);
      }
      OnlyScoringTail(events);
      ScoringRunCharge(s1, events[1..]);
      var r := Run(s1, events[1..]);
      ChargeChain(s.warpCharge, s1.score - s.score, r.score - s1.score);
      assert (s1.score - s.score) + (r.score - s1.score) == r.score - s.score;
    }
  }

  /** Capping after the first amount and again after the rest is the same
      as capping the charge earned by both. */
  lemma ChargeChain(c: real, a: real, rest: real)
    requires rest >= 0.0
    ensures Min(Min(c + ChargeGain(a), 100.0) + ChargeGain(rest), 100.0) == Min(c + ChargeGain(a + rest), 100.0)
  {
    ChargeGainAdds(a, rest);
    CapAbsorbs(c + ChargeGain(a), ChargeGain(rest));
    assert c + ChargeGain(a + rest) == (c + ChargeGain(a)) + ChargeGain(rest);
  }

  lemma {:induction false} AppliedNonNegative(m: real, events: seq<Event>)
    requires m >= 0.0 && OnlyScoring(events)
    ensures Applied(m, events) >= 0.0
    decreases |events|
  {
    if events != [] {
      ProductNonNegative(events[0].points, m);
      OnlyScoringTail(events);
      AppliedNonNegative(m, events[1..]);
    }
  }

  /** One score report while playing, in the terms `ScoringRun` needs. */
  lemma ScoringStep(s: GameState, p: real)
    requires s.status == Playing && p >= 0.0
    requires s.scoreMultiplier >= 0.0 && s.warpCharge <= 100.0
    ensures var r := Step(s, Scored(p));
      && r.score == s.score + p * s.scoreMultiplier
      && r.warpCharge == Min(s.warpCharge + ChargeGain(p * s.scoreMultiplier), 100.0)
      && r.status == Playing && r.lives == s.lives
      && r.scoreMultiplier == s.scoreMultiplier && r.warpCharge <= 100.0
      && p * s.scoreMultiplier >= 0.0
      && r.warpCharge == Min(s.warpCharge + ChargeGain(r.score - s.score), 100.0)
      && s.score <= r.score
  {
    ProductNonNegative(p, s.scoreMultiplier);
  }

  lemma ProductNonNegative(x: real, y: real)
    requires x >= 0.0 && y >= 0.0
    ensures x * y >= 0.0
  {
  }

  /** The charge earned by two amounts of score is the sum of their gains. */
  lemma ChargeGainAdds(a: real, b: real)
    ensures ChargeGain(a + b) == ChargeGain(a) + ChargeGain(b)
  {
  }

  lemma OnlyScoringTail(events: seq<Event>)
    requires events != [] && OnlyScoring(events)
    ensures OnlyScoring(events[1..])
  {
    forall i | 0 <= i < |events[1..]|
      ensures events[1..][i].Scored? && events[1..][i].points >= 0.0
    {
      assert events[1..][i] == events[i + 1];
    }
  }

  /** Capping at 100 once per report is the same as capping the total. */
  lemma CapAbsorbs(c: real, g: real)
    requires g >= 0.0
    ensures Min(Min(c, 100.0) + g, 100.0) == Min(c + g, 100.0)
  {
  }

  /** Entering the gate twice in a row starts one warp: the second entry
      finds the status already WARPING. */
  lemma WarpEnterIdempotent(s: GameState)
    ensures HandleWarpEnter(HandleWarpEnter(s)) == HandleWarpEnter(s)
  {
  }

  /** Once the game is over and the gate is closed, score reports, lost balls,
      gate entries and button presses change nothing. */
  lemma {:induction false} GameOverIsFinal(s: GameState, events: seq<Event>)
    requires s.status == GameOver && !s.warpReady
    requires forall i :: 0 <= i < |events| ==> !events[i].WarpComplete?
    ensures Run(s, events) == s
    decreases |events|
  {
    if events != [] {
      assert !events[0].WarpComplete?;
      assert Step(s, events[0]) == s;
      assert forall i :: 0 <= i < |events[1..]| ==> !events[1..][i].WarpComplete? by {
        forall i | 0 <= i < |events[1..]| ensures !events[1..][i].WarpComplete? {
          assert events[1..][i] == events[i + 1];
        }
      }
      GameOverIsFinal(s, events[1..]);
    }
  }

  /** The warp guard does not ask for PLAYING: a game that ended with the
      gate still open can be warped out of, and play resumes with one life. */
  lemma GameOverWithOpenGateResumes(s: GameState, planet: Planet)
    requires s.status == GameOver && s.warpReady && s.lives == 0
    ensures Run(s, [WarpEnter]).status == Warping
    ensures Run(s, [WarpEnter, WarpComplete(planet)]).status == Playing
    ensures Run(s, [WarpEnter, WarpComplete(planet)]).lives == 1
  {
    var s1 := HandleWarpEnter(s);
    assert Run(s, [WarpEnter]) == Run(s1, []);
    assert Run(s, [WarpEnter, WarpComplete(planet)]) == Run(s1, [WarpComplete(planet)]);
    assert Run(s1, [WarpComplete(planet)]) == Run(WarpCompleteUpdate(s1, planet), []);
  }

  /** Three bumper reports of 100 points at multiplier 1 from a fresh game:
      score 300 and a charge of 60 percent, so the gate stays shut. */
  lemma ThreeBumperHits(s: GameState)
    requires s.status == Playing && s.score == 0.0 && s.warpCharge == 0.0 && s.scoreMultiplier == 1.0
    ensures Run(s, [Scored(100.0), Scored(100.0), Scored(100.0)]).score == 300.0
    ensures Run(s, [Scored(100.0), Scored(100.0), Scored(100.0)]).warpCharge == 60.0
    ensures !Run(s, [Scored(100.0), Scored(100.0), Scored(100.0)]).warpReady
  {
    var events := [Scored(100.0), Scored(100.0), Scored(100.0)];
    ScoringRun(s, events);
    assert Applied(1.0, events) == 300.0 by {
      assert events[1..] == [Scored(100.0), Scored(100.0)];
      assert events[1..][1..] == [Scored(100.0)];
      assert events[1..][1..][1..] == [];
    }
  }

  /** A full warp cycle from an open gate while playing: the second gate
      entry is ignored, and the timer brings play back with an empty gate,
      the new planet and one more life (at most MAX_LIVES). */
  lemma WarpCycle(s: GameState, planet: Planet)
    requires Inv(s) && s.status == Playing && s.warpReady
    ensures Run(s, [WarpEnter, WarpEnter]).status == Warping
    ensures var r := Run(s, [WarpEnter, WarpEnter, WarpComplete(planet)]);
      && r.status == Playing && r.warpCharge == 0.0 && !r.warpReady
      && r.currentPlanet == planet && r.lives == MinInt(s.lives + 1, MAX_LIVES)
      && r.score == s.score && Inv(r)
  {
    var s1 := HandleWarpEnter(s);
    assert s1.status == Warping;
    assert HandleWarpEnter(s1) == s1;
    assert Run(s, [WarpEnter, WarpEnter]) == Run(s1, [WarpEnter]);
    assert Run(s1, [WarpEnter]) == Run(s1, []);
    assert Run(s, [WarpEnter, WarpEnter, WarpComplete(planet)]) == Run(s1, [WarpEnter, WarpComplete(planet)]);
    assert Run(s1, [WarpEnter, WarpComplete(planet)]) == Run(s1, [WarpComplete(planet)]);
    assert Run(s1, [WarpComplete(planet)]) == Run(WarpCompleteUpdate(s1, planet), []);
  }
}
