/** The top-level component's own state, changed in place by its handlers:
    the game state, the planet shown by the warp overlay while a warp is
    under way, and the counter the component bumps each time it wants the
    ball put back. Every handler checks its guard against the current state
    and then applies one of the pure updaters of `GameRules`.

    The warp handler is split at its two suspension points: `BeginWarp` is
    the part before the planet generator is awaited, `ReceivePlanet` the
    part after it answers, and `CompleteWarp` the callback of the six-second
    timer, which carries the generated planet. */
module GameApp {
  import opened GameTypes
  import opened GameRules

  class App {
    var gameState: GameState
    var nextPlanet: Option<Planet>
    var resetTrigger: nat

    ghost predicate Valid()
      reads this
    {
      Inv(gameState)
    }

    /** The initial game state is a parameter: the constant the component
        starts from is not part of this model. */
    constructor (initial: GameState)
      ensures gameState == initial && nextPlanet == None && resetTrigger == 0
      ensures Inv(initial) ==> Valid()
    {
      gameState := initial;
      nextPlanet := None;
      resetTrigger := 0;
    }

    method HandleScore(points: real)
      modifies this
      ensures gameState == GameRules.HandleScore(old(gameState), points)
      ensures old(gameState).status == Playing ==>
                gameState.score == old(gameState).score + points * old(gameState).scoreMultiplier
      ensures nextPlanet == old(nextPlanet) && resetTrigger == old(resetTrigger)
      ensures old(Valid()) && points >= 0.0 ==> Valid()
    {
      if gameState.status != Playing {
        return;
      }
      gameState := ScoreUpdate(gameState, points);
    }

    /** A lost ball costs a life (or ends the game) and asks the scene for a
        new ball; outside play it does nothing at all. */
    method HandleBallLost()
      modifies this
      ensures gameState == GameRules.HandleBallLost(old(gameState))
      ensures resetTrigger == old(resetTrigger) + (if old(gameState).status == Playing then 1 else 0)
      ensures nextPlanet == old(nextPlanet)
      ensures old(Valid()) ==> Valid()
    {
      if gameState.status != Playing {
        return;
      }
      gameState := BallLostUpdate(gameState);
      resetTrigger := resetTrigger + 1;
    }

    /** The warp handler up to the generator call: `started` tells whether it
        got past its guard, in which case the status is now WARPING. */
    method BeginWarp() returns (started: bool)
      modifies this
      ensures started == WarpStarts(old(gameState))
      ensures gameState == HandleWarpEnter(old(gameState))
      ensures started ==> gameState.status == Warping
      ensures nextPlanet == old(nextPlanet) && resetTrigger == old(resetTrigger)
      ensures old(Valid()) ==> Valid()
    {
      if !gameState.warpReady || gameState.status == Warping {
        return false;
      }
      gameState := gameState.(status := Warping);
      started := true;
    }

    /** The generator has answered: the overlay shows the coming planet. */
    method ReceivePlanet(planet: Planet)
      modifies this
      ensures nextPlanet == Some(planet)
      ensures gameState == old(gameState) && resetTrigger == old(resetTrigger)
    {
      nextPlanet := Some(planet);
    }

    /** The warp timer fires: the planet becomes current, the overlay is
        cleared and the scene is asked for a new ball. */
    method CompleteWarp(planet: Planet)
      modifies this
      ensures gameState == WarpCompleteUpdate(old(gameState), planet)
      ensures gameState.status == Playing && gameState.currentPlanet == planet
      ensures nextPlanet == None && resetTrigger == old(resetTrigger) + 1
      ensures old(Valid()) ==> Valid()
    {
      gameState := WarpCompleteUpdate(gameState, planet);
      nextPlanet := None;
      resetTrigger := resetTrigger + 1;
    }

    /** The LAUNCH button, which is only on screen in the menu. */
    method Launch() returns (pressed: bool)
      modifies this
      ensures pressed == (old(gameState).status == Menu)
      ensures gameState == PressLaunch(old(gameState))
      ensures nextPlanet == old(nextPlanet) && resetTrigger == old(resetTrigger)
      ensures old(Valid()) ==> Valid()
    {
      if gameState.status != Menu {
        return false;
      }
      gameState := LaunchUpdate(gameState);
      pressed := true;
    }

    /** The handlers as the scene receives them: each event reaches the
        handler it is wired to, and the state moves as `GameRules.Step` says.
        The warp event goes only as far as the generator call. */
    method Dispatch(e: Event)
      modifies this
      ensures gameState == Step(old(gameState), e)
      ensures nextPlanet == (if e.WarpComplete? then None else old(nextPlanet))
      ensures resetTrigger == old(resetTrigger) +
                (if e.WarpComplete? || (e.BallLost? && old(gameState).status == Playing) then 1 else 0)
      ensures old(Valid()) && ValidEvent(e) ==> Valid()
    {
      match e
      case Scored(points) => HandleScore(points);
      case BallLost => HandleBallLost();
      case WarpEnter => var _ := BeginWarp();
      case WarpComplete(planet) => CompleteWarp(planet);
      case Launch => var _ := Launch();
    }
  }
}
