/** The table's scoring bodies and their collision callbacks. A callback
    returns nothing: what it does is call the handler it was given (a
    bumper's `onHit`, the gate's `onEnter`) and, for a bumper, put its own
    body back where it was configured. Walls register no callback at all,
    so they appear here only as bodies that never report anything. */
module TableObjects {
  import opened GameTypes

  /** The other body in a collision; only its name is looked at. */
  datatype Body = Body(name: string)

  /** The name the ball's body is given once it is mounted. */
  const BALL_NAME: string := "ball"

  /** Whether the warp gate lets `other` in: only when it is open, and only
      the ball. */
  predicate GateAdmits(isOpen: bool, other: Body)
  {
    isOpen && other.name == BALL_NAME
  }

  /** A static bumper. `hits` counts the calls made to its `onHit` handler. */
  class Bumper {
    const position: Vec3
    var bodyPosition: Vec3
    var hits: nat

    constructor (position: Vec3)
      ensures this.position == position && bodyPosition == position && hits == 0
    {
      this.position := position;
      bodyPosition := position;
      hits := 0;
    }

    /** Every collision reports a hit, whatever the other body is and however
        soon after the previous one it comes; the body is then put back at
        its configured position. */
    method OnCollide(other: Body)
      modifies this
      ensures hits == old(hits) + 1
      ensures bodyPosition == position
    {
      hits := hits + 1;
      bodyPosition := position;
    }
  }

  /** The warp gate: a trigger volume that never obstructs the ball. `isOpen`
      follows the game's warp-ready flag. */
  class WarpGate {
    const position: Vec3
    var isOpen: bool

    constructor (position: Vec3, isOpen: bool)
      ensures this.position == position && this.isOpen == isOpen
    {
      this.position := position;
      this.isOpen := isOpen;
    }

    /** The gate calls `onEnter` (reported as `entered`) only when it is open
        and the body crossing it is the ball. */
    method OnCollide(other: Body) returns (entered: bool)
      ensures entered ==> isOpen
      ensures entered ==> other.name == BALL_NAME
      ensures isOpen && other.name == BALL_NAME ==> entered
      ensures entered == GateAdmits(isOpen, other)
    {
      entered := false;
      if isOpen && other.name == BALL_NAME {
        entered := true;
      }
    }
  }
}
