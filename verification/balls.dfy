/**
 * The ball record of src/Ball.js, reduced to its data.
 *
 * A JavaScript `Ball` wraps a physics body owned by the physics engine; here the
 * body is a plain value holding the engine's id for it, its position, velocity,
 * angle and angular velocity. Removing a ball from the world is deletion from the
 * list that holds it; `resetPosition` is `ResetPosition` below.
 */
module Balls {

  datatype Option<T> = None | Some(value: T)

  datatype Vec = Vec(x: real, y: real)

  function Sub(a: Vec, b: Vec): Vec { Vec(a.x - b.x, a.y - b.y) }

  /** Squared Euclidean length; the square root itself stays outside the model. */
  function SqLen(v: Vec): real { v.x * v.x + v.y * v.y }

  /** `'cue' | 'red' | 'color'`, the `type` field of a ball. */
  datatype Kind = CueBall | RedBall | ColourBall

  /** The string a ball's `type` holds, which opens the description of a pot. */
  function KindName(k: Kind): (s: string)
    ensures |s| > 0
    ensures s == "cue" <==> k == CueBall
    ensures s == "red" <==> k == RedBall
    ensures s == "color" <==> k == ColourBall
  {
    match k
    case CueBall => "cue"
    case RedBall => "red"
    case ColourBall => "color"
  }

  /** A physics body: the engine's id, and the state the engine integrates. */
  datatype Body = Body(id: nat, position: Vec, velocity: Vec, angle: real, angularVelocity: real)

  /**
   * `type`, `color`, `value` and the initial position are what the constructor
   * stores; `body` is what `Matter.Bodies.circle` returned (a ball whose body is
   * missing is `None`).
   */
  datatype Ball = Ball(kind: Kind, colour: string, value: int, initial: Vec, body: Option<Body>)

  /** `new Ball(x, y, type, color, value)` with the body id the engine hands out. */
  function NewBall(x: real, y: real, kind: Kind, colour: string, value: int, id: nat): (b: Ball)
    ensures b.body.Some? && b.body.value.id == id
    ensures b.body.value.position == b.initial == Vec(x, y)
    ensures b.body.value.velocity == Vec(0.0, 0.0)
  {
    Ball(kind, colour, value, Vec(x, y), Some(Body(id, Vec(x, y), Vec(0.0, 0.0), 0.0, 0.0)))
  }

  /**
   * `resetPosition`: the body goes back to the initial position with no linear or
   * angular velocity; everything else about the ball is kept.
   */
  function ResetPosition(b: Ball): (r: Ball)
    requires b.body.Some?
    ensures r.kind == b.kind && r.colour == b.colour && r.value == b.value && r.initial == b.initial
    ensures r.body.Some? && r.body.value.id == b.body.value.id && r.body.value.angle == b.body.value.angle
    ensures r.body.value.position == b.initial
    ensures r.body.value.velocity == Vec(0.0, 0.0) && r.body.value.angularVelocity == 0.0
  {
    b.(body := Some(b.body.value.(position := b.initial, velocity := Vec(0.0, 0.0), angularVelocity := 0.0)))
  }

  /** Every ball has a body whose id was handed out before `bound`. */
  ghost predicate BodiesBelow(balls: seq<Ball>, bound: nat)
  {
    forall k :: 0 <= k < |balls| ==> balls[k].body.Some? && balls[k].body.value.id < bound
  }
}
