# Void Cadet pinball — a verified model of the game rules

Void Cadet is a browser pinball game. The ball runs on a 3D table driven by a
physics engine. Bumpers score points, points fill a warp charge, and a full
charge opens a warp gate at the top of the table. Sending the ball through the
open gate warps the player to a newly generated planet, which brings its own
gravity, slope, bounce and friction. A ball that falls off the bottom costs a
life, and losing the last one ends the game.

This project models the deterministic rules of the game in Dafny:

- `GameTypes` (`game_types.dfy`): the records the game works on. These are a
  planet with its physics modifiers and theme, the artifact a planet may carry,
  and the game state.
- `GameRules` (`game_rules.dfy`): the state updaters of the top-level
  component, written as pure functions. There is one per transition: scoring,
  ball loss, warp entry, warp completion and the LAUNCH button. Each comes with
  the guard its handler checks first. `Step`/`Run` replay sequences of events
  through them, and the lemmas prove the invariant they keep and what whole
  runs do.
- `GameApp` (`game_app.dfy`): the component's state as a class with three
  fields, `gameState`, `nextPlanet` and `resetTrigger`. Each handler is a
  method tied to its updater. The asynchronous warp handler is split at its
  suspension points into three steps: `BeginWarp`, `ReceivePlanet` (the
  planet generator answers) and `CompleteWarp` (the six-second timer fires).
- `Flippers` (`flippers.dfy`): the flipper the scene uses. Each frame its angle
  moves the fraction `min(delta * speed, 1)` of the way to its target. The
  lemmas prove that it never overshoots, closes in monotonically, reaches the
  target exactly after one long enough frame and stays at a target.
- `TableObjects` (`table_objects.dfy`): the collision callbacks of the bumper
  and of the warp gate.
- `Scene` (`scene.dfy`): the key handlers and the physics world built from a
  planet. It also holds the per-frame ball loss and respawn rule, and the
  wiring of collisions to the game's handlers.

Numbers that the game keeps as JavaScript numbers are Dafny `real`s: score,
charge, multiplier, physics values and angles. Lives are `int`.

## Model

| member | source | states |
|---|---|---|
| GameRules.ChargeGain | App.tsx:160 | the charge earned by scored points is non-negative for non-negative points; `WARP_THRESHOLD` points earn exactly 100 percent |
| GameRules.ScoreUpdate | App.tsx:157-162 | score grows by exactly points × multiplier; the charge is the old charge plus the gain, capped at 100, so it never exceeds 100 and never falls for non-negative points; `warpReady` holds exactly when the charge is full; no other field changes |
| GameRules.HandleScore | App.tsx:155-163 | outside PLAYING the state is unchanged; while playing it is the scoring update; status and lives are never touched |
| GameRules.BallLostUpdate | App.tsx:167-170 | with at least one life, exactly one life is taken and nothing else changes; with none, the status becomes GAME_OVER and lives stay as they were, so they never go negative |
| GameRules.HandleBallLost | App.tsx:165-172 | outside PLAYING the state is unchanged; while playing the result is PLAYING or GAME_OVER |
| GameRules.HandleWarpEnter | App.tsx:174-176 | the status becomes WARPING exactly when the gate is ready or a warp is already under way; without the guard passing nothing changes; only the status ever changes; PLAYING is not required |
| GameRules.WarpCompleteUpdate | App.tsx:180-189 | the new planet is current, play resumes, the gate is closed and the charge is 0; lives grow by one up to 5; the planet's artifact is appended exactly when it has one; score, high score, multiplier and review are kept |
| GameRules.LaunchUpdate | App.tsx:212 | the status becomes PLAYING and nothing else changes |
| GameRules.PressLaunch | App.tsx:209-213 | the button only exists in the menu: there it launches, elsewhere nothing changes |
| GameRules.Step | App.tsx:155-213 | no transition changes the multiplier, the high score or the review; only warp completion changes the planet and the artifacts; the score never falls for a non-negative report |
| GameRules.StepPreservesInv | App.tsx:155-213 | every transition keeps the invariant: charge in [0, 100], gate open exactly when full, lives in [0, 5], score non-negative, multiplier at least 1 |
| GameRules.RunPreservesInv | App.tsx:155-213 | the invariant holds after any sequence of valid events |
| GameRules.RunKeepsMultiplier | App.tsx:161 | no sequence of events changes the multiplier or the high score |
| GameRules.RunScoreNonDecreasing | App.tsx:158-159 | the score never falls over any sequence of valid events |
| GameRules.RunPlanet | App.tsx:183 | the current planet after a run is the planet of the last warp completion in it, or the starting one |
| GameRules.AppliedIsScaledSum | App.tsx:158 | the score added by a run of reports is the multiplier times the sum of their points |
| GameRules.ScoringRun | App.tsx:157-162 | a run of reports while playing adds their multiplied total to the score and the same total to the charge, capped once at 100; status and lives are unchanged |
| GameRules.ScoringRunCharge | App.tsx:160-161 | over a run of reports while playing, the charge grows by the gain of exactly the score the run added, capped once at 100, and the score does not fall |
| GameRules.ScoringStep | App.tsx:157-162 | one report while playing adds points × multiplier to the score and its gain to the charge, capped at 100, keeping status, lives and multiplier |
| GameRules.ChargeGainAdds | App.tsx:160 | the charge gained by two amounts of score is the sum of their gains |
| GameRules.CapAbsorbs | App.tsx:160 | capping the charge after each report gives the same charge as capping once at the end |
| GameRules.WarpEnterIdempotent | App.tsx:175-176 | a second consecutive gate entry is ignored |
| GameRules.GameOverIsFinal | App.tsx:155-176 | once the game is over with the gate closed, no event other than a warp completion changes anything |
| GameRules.GameOverWithOpenGateResumes | App.tsx:175-187 | a game over with the gate still open can be warped out of, and play resumes with one life |
| GameRules.ThreeBumperHits | App.tsx:157-162 | three 100-point reports at multiplier 1 from zero give score 300 and charge 60, and the gate stays shut |
| GameRules.WarpCycle | App.tsx:174-192 | entering an open gate twice while playing starts one warp; completing it resumes play with the new planet, an empty gate, the same score and one more life up to 5, and keeps the invariant |
| GameApp.App.constructor | App.tsx:151-153 | the component starts from the given initial state, with no planet on the overlay and the reset counter at 0 |
| GameApp.App.HandleScore | App.tsx:155-163 | the state becomes `HandleScore` of the old one; the overlay and the reset counter are untouched; the invariant is kept for non-negative points |
| GameApp.App.HandleBallLost | App.tsx:165-172 | the state becomes `HandleBallLost` of the old one; the reset counter grows by one exactly when the game was being played |
| GameApp.App.BeginWarp | App.tsx:174-176 | reports whether the guard passed; the state becomes `HandleWarpEnter` of the old one, so WARPING when it started |
| GameApp.App.ReceivePlanet | App.tsx:177-178 | the generated planet is put on the overlay; the game state is untouched |
| GameApp.App.CompleteWarp | App.tsx:180-192 | the state becomes the warp-completion update; the overlay is cleared; the reset counter grows by one |
| GameApp.App.Launch | App.tsx:212 | reports whether the game was in the menu; the state becomes `PressLaunch` of the old one |
| GameApp.App.Dispatch | App.tsx:155-213 | each event reaches the handler it is wired to: the state moves as `GameRules.Step` says, the overlay is cleared exactly on warp completion, and the reset counter grows by one on warp completion and on a ball lost while playing |
| Flippers.InitialAngle | components/Flippers.tsx:168 | the starting angle lies within the flipper's swing |
| Flippers.Target | components/Flippers.tsx:171 | the target lies within the swing; it is positive exactly for a held left or a released right flipper |
| Flippers.Speed | components/Flippers.tsx:172 | the speed is positive, and faster exactly when the key is held |
| Flippers.Blend | components/Flippers.tsx:174 | the fraction is at most 1, non-negative for non-negative inputs, and exactly 1 once `delta * speed` reaches 1 |
| Flippers.StepAngle | components/Flippers.tsx:170-174 | a long enough frame lands exactly on the target; an angle at the target stays there |
| Flippers.StepApproachesTarget | components/Flippers.tsx:174 | for non-negative frame time the new angle lies between the old one and the target; the distance left is the old distance times `1 - min(delta * speed, 1)`; the angle stays within the swing |
| Flippers.InitialAngleIsRest | components/Flippers.tsx:168-171 | a flipper starts at its released target |
| Flippers.TargetsMirrored | components/Flippers.tsx:171 | the right flipper's targets are the negation of the left's |
| Flippers.FramesStayInSwing | components/Flippers.tsx:170-176 | over any sequence of frames, however the key is pressed and released, the angle stays within the swing |
| Flippers.TargetIsFixedPoint | components/Flippers.tsx:174 | an angle at the target stays there for as long as the key keeps its state |
| Flippers.ReleasedFlipperNeverMoves | components/Flippers.tsx:168-174 | a flipper whose key is never pressed never leaves its starting angle |
| Flippers.HeldFlipperCloses | components/Flippers.tsx:174 | while the key keeps its state, the angle after any number of frames lies between the start and the target, no farther from the target |
| Flippers.HeldFlipperReachesTarget | components/Flippers.tsx:174 | one long enough frame while the key keeps its state puts the flipper on the target for good |
| Flippers.SimpleFlipper.constructor | components/Flippers.tsx:160-168 | a new flipper is at its starting angle, within its swing |
| Flippers.SimpleFlipper.Frame | components/Flippers.tsx:170-176 | the angle takes one approach step and the body is turned to it about the vertical axis; the distance to the target never grows and the angle stays within the swing |
| TableObjects.Bumper.constructor | components/TableObjects.tsx:30-35 | the bumper body sits at its configured position and has reported no hits |
| TableObjects.Bumper.OnCollide | components/TableObjects.tsx:36-40 | every collision reports exactly one hit, whatever the other body; the body is put back at its configured position |
| TableObjects.WarpGate.constructor | components/TableObjects.tsx:51-60 | the gate is placed at its position, open or closed as the game says |
| TableObjects.WarpGate.OnCollide | components/TableObjects.tsx:61-65 | the gate reports an entry if and only if it is open and the other body is the ball, the same test `Scene.ContactEvents` uses |
| Scene.KeyDown | components/Scene.tsx:76-79 | the left flag is set by `ArrowLeft` or `a` and the right flag by `ArrowRight` or `d`; every other flag is kept |
| Scene.KeyUp | components/Scene.tsx:80-83 | the same keys clear only their own flag; every other flag is kept |
| Scene.FlipperPressed | components/Scene.tsx:136-137 | each flipper is held exactly while its side's flag is set |
| Scene.KeysTouchOneSide | components/Scene.tsx:76-83 | a flipper key changes only its own side's flag; any other key leaves the record unchanged |
| Scene.LeftKeyDrivesLeftFlipper | components/Scene.tsx:76-83 | the left keys send the left flipper's target to 0.5 and back to -0.4, and never change the right flipper |
| Scene.World | components/Scene.tsx:97-113 | the gravity is `(0, gravity, slope)` of the planet, and contacts take the planet's restitution and friction |
| Scene.WorldFollowsWarps | components/Scene.tsx:97-113 | after any run of events the world is that of the last planet warped to, and it is unchanged when no warp completes |
| Scene.NoWarpKeepsPlanet | App.tsx:183 | without a warp completion the current planet stays |
| Scene.BallFrame | components/Scene.tsx:26-35 | the ball is lost exactly when it is past depth 12; a lost ball is put back at the start position with zero linear and angular velocity; any other ball is left alone |
| Scene.RespawnDoesNotRetrigger | components/Scene.tsx:29-34 | a ball put back at the start position is not lost again in the next frame |
| Scene.LossEvents | components/Scene.tsx:29-30 | a ball frame calls the loss handler once when the ball has fallen out, and not otherwise |
| Scene.BallLossCostsLife | components/Scene.tsx:29-34 | a ball past depth 12 while playing costs exactly one life, or ends the game with none left, and comes back at the start position; a ball on the table changes nothing |
| Scene.Ball.constructor | components/Scene.tsx:12-18 | the body starts at rest at the start position, not yet mounted and unnamed |
| Scene.Ball.Mount | components/Scene.tsx:21-24 | the mounted body is named `ball`, and its motion is unchanged |
| Scene.Ball.Frame | components/Scene.tsx:26-35 | before mounting a frame does nothing; afterwards it reports a loss and respawns exactly as `BallFrame` says |
| Scene.ContactEvents | components/Scene.tsx:131-145 | each bumper collision is one 100-point report; a gate collision is a gate entry exactly when the gate is open and the body is the ball; walls report nothing |
| Scene.BumperContactsScore | components/Scene.tsx:131-133 | with no cool-down and no identity check, n bumper collisions in any state are exactly n reports of 100 points |
| Scene.BumperContactsTotal | components/Scene.tsx:131-133 | n bumper collisions while playing add their multiplied total to the score and to the charge, capped at 100, and keep status and lives |
| Scene.HundredsApplied | components/Scene.tsx:131-133 | the multiplied total of n hundred-point reports is 100 × n × the multiplier |
| Scene.HundredsSum | components/Scene.tsx:131-133 | n hundred-point reports total 100 × n points |
| Scene.WallsAreInert | components/TableObjects.tsx:13-20 | any number of wall collisions leaves the game state unchanged |
| Scene.GateEntry | components/TableObjects.tsx:61-65 | a closed gate or a body other than the ball changes nothing; the ball in an open gate starts a warp; a second entry changes nothing more |

## Behaviour that differs from the game's written design

The game's written design is not part of this project. Where the code behaves
differently from what that design describes, the model follows the code. The
differences are listed here so that a reader can tell which behaviour is
meant:

- Warp entry: the handler at `App.tsx:175` checks only `warpReady` and "not
  WARPING". The design is not consistent on this point: its rule for entering
  the gate asks for the same two conditions, but its list of properties also
  asks for PLAYING. As the code stands, a game that ended with the gate open
  can still warp (`GameRules.GameOverWithOpenGateResumes`).
- Bumpers: `components/TableObjects.tsx:36-40` has no cool-down and does not
  check that the other body is the ball, so every collision scores
  (`Scene.BumperContactsScore`). The design describes both checks.
- Flippers: `components/Flippers.tsx:174` moves the fraction
  `min(delta * speed, 1)` of the remaining distance each frame. This is an
  exponential approach, and `Flippers.StepAngle` models it. The design
  describes a step of bounded size instead.
- Artifacts: the code only appends an artifact to the collection
  (`App.tsx:188`). The multiplier therefore never changes, and the charge after
  a warp is always 0. The design applies the artifact's effect on arrival.
- The design describes slingshots, a boss target and a plunger. None of these
  is on the table in the code.

## Left out

- The planet generator, the image, video and speech services and their decoders: network and media I/O. A generated planet enters the model only as the argument of `ReceivePlanet` and `CompleteWarp`.
- The live voice assistant: a microphone and audio session, which is I/O and concurrency.
- Rendering: the HUD, news feed, crew message, warp overlay, menu and game-over screens, lights, stars and 3D text.
- The physics engine: contact detection, restitution, friction and the kinematic sweep. Collisions enter the model only as `Contact` values, and the engine's own motion of the ball between frames is not modelled.
- The unused flipper variants in `components/Flippers.tsx` (lines 13-157). Only `SimpleFlipper` is placed on the table.
- Timing and React scheduling: the six-second timer, batching of state updates, and handlers that read a stale copy of the state. Transitions are modelled as sequential steps over one state.
- The callback a physics body registers is the one of its first render. Later renders pass new `isOpen` or `onHit` values to the component, but the model assumes the callback sees the current ones.
- `resetTrigger` and `gameStatus` are passed to the scene, but the scene's props do not declare them. The model therefore keeps the counter in `App` and has no warp-triggered ball respawn.
- The initial game state constant is imported by the top-level component but not defined in the constants file. `App.constructor` takes the initial state as a parameter.
- IEEE-754 rounding: all non-integer quantities are exact reals.
- The REBOOT button, which reloads the page.
- The `imageUrl`, `videoUrl`, `audioBase64` and `sources` fields of a planet: media only, never read by the rules.
- The effects of artifacts: the code only appends an artifact to the collection. Nothing applies its multiplier, life or charge effect, so the multiplier never changes.
- The KEY_SELECTION status exists in the status type, but no transition of the modelled core enters or leaves it.
