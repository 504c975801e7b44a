/**
 * The aiming life cycle of src/Cue.js. The drag vector's length (`force.mag()`,
 * a square root) is supplied by the caller together with the promise that it is
 * that length; `setMag` is modelled exactly from it. Applying the force to the
 * cue ball's body belongs to the physics engine: `Shoot` returns the force it
 * would hand over, addressed to the body `cueBallId`.
 */
module Cue {
  import opened Balls
  import Utils

  /** The cue's maximum drag length and the factor turning drag length into force. */
  const MaxPower: real := 100.0
  const PowerScale: real := 0.005

  /**
   * The drag length clamped to [0, maxPower] and multiplied by the power scale
   * (p5's `constrain` computes what `clamp` does). Whatever the drag, the
   * magnitude lies in [0, maxPower * powerScale], and a drag no longer than
   * `maxPower` is scaled without clipping.
   */
  function ShotMagnitude(dragLength: real): (m: real)
    ensures 0.0 <= m <= MaxPower * PowerScale
    ensures 0.0 <= dragLength <= MaxPower ==> m == dragLength * PowerScale
  {
    Utils.Clamp(dragLength, 0.0, MaxPower) * PowerScale
  }

  /**
   * p5's `v.setMag(m)`: normalise (a zero vector is left alone) and scale. For a
   * non-zero `v` the result has squared length `m * m` and points along `v`.
   */
  function SetMag(v: Vec, length: real, m: real): (r: Vec)
    requires 0.0 <= length && length * length == SqLen(v)
    requires 0.0 <= m
    ensures length == 0.0 ==> r == v && SqLen(r) == 0.0
    ensures length != 0.0 ==> SqLen(r) == m * m
    ensures r.x * v.y == r.y * v.x && r.x * v.x + r.y * v.y >= 0.0
  {
    if length == 0.0 then
      v
    else
      ScaledTowards(v, length, m);
      Scale(v, m / length)
  }

  function Scale(v: Vec, k: real): Vec { Vec(v.x * k, v.y * k) }

  lemma SquareNonNegative(a: real)
    ensures a * a >= 0.0
  {
    if a < 0.0 {
      assert a * a == (-a) * (-a);
    }
  }

  /** Scaling a vector of length `length` by `m / length` gives length `m`, same direction. */
  lemma ScaledTowards(v: Vec, length: real, m: real)
    requires 0.0 < length && length * length == SqLen(v)
    requires 0.0 <= m
    ensures var r := Scale(v, m / length);
            SqLen(r) == m * m && r.x * v.y == r.y * v.x && r.x * v.x + r.y * v.y >= 0.0
  {
    var k := m / length;
    var r := Scale(v, k);
    assert SqLen(r) == k * k * SqLen(v);
    assert k * length == m;
    calc {
      k * k * SqLen(v);
      k * k * (length * length);
      (k * length) * (k * length);
      m * m;
    }
    assert k >= 0.0;
    SquareNonNegative(v.x);
    SquareNonNegative(v.y);
    assert r.x * v.x + r.y * v.y == k * SqLen(v);
  }

  /** The bound on `m` carries over to its square. */
  lemma SquareBound(m: real, bound: real)
    requires 0.0 <= m <= bound
    ensures m * m <= bound * bound
  {
    assert m * m <= m * bound;
    assert m * bound <= bound * bound;
  }

  class Cue {
    /** The body of the ball `this.cueBall` refers to. */
    const cueBallId: nat
    var aiming: bool
    var start: Option<Vec>
    var end: Option<Vec>

    /** `startAiming` always sets both points, `shoot` clears them together with `aiming`. */
    ghost predicate Valid()
      reads this
    {
      aiming ==> start.Some? && end.Some?
    }

    constructor (cueBallId: nat)
      ensures Valid()
      ensures this.cueBallId == cueBallId
      ensures !aiming && start == None && end == None
    {
      this.cueBallId := cueBallId;
      aiming := false;
      start := None;
      end := None;
    }

    /** `startAiming(p)`: aiming, with `start` and `end` both at `p`. */
    method StartAiming(mouse: Vec)
      modifies this`aiming, this`start, this`end
      ensures Valid()
      ensures aiming && start == Some(mouse) && end == Some(mouse)
    {
      aiming := true;
      start := Some(mouse);
      end := Some(mouse);
    }

    /** `updateAiming(p)`: moves only `end`, and only while aiming. */
    method UpdateAiming(mouse: Vec)
      requires Valid()
      modifies this`end
      ensures Valid()
      ensures end == if aiming then Some(mouse) else old(end)
    {
      if aiming {
        end := Some(mouse);
      }
    }

    /**
     * `shoot`: with aiming on and both points set, the force along start - end
     * with the clamped magnitude is returned and the aim is cleared; otherwise
     * nothing changes and no force is applied. `dragLength` is `force.mag()`.
     */
    method Shoot(dragLength: real) returns (force: Option<Vec>)
      requires Valid()
      requires 0.0 <= dragLength
      requires start.Some? && end.Some? ==> dragLength * dragLength == SqLen(Sub(start.value, end.value))
      modifies this`aiming, this`start, this`end
      ensures Valid()
      ensures old(aiming && end.Some? && start.Some?) ==>
                !aiming && start == None && end == None &&
                force == Some(SetMag(Sub(old(start).value, old(end).value), dragLength, ShotMagnitude(dragLength)))
      ensures !old(aiming && end.Some? && start.Some?) ==>
                force == None && aiming == old(aiming) && start == old(start) && end == old(end)
      ensures force.Some? ==> SqLen(force.value) <= MaxPower * PowerScale * (MaxPower * PowerScale)
    {
      if aiming && end.Some? && start.Some? {
        var drag := Sub(start.value, end.value);
        var magnitude := ShotMagnitude(dragLength);
        var f := SetMag(drag, dragLength, magnitude);
        SquareNonNegative(magnitude);
        SquareBound(magnitude, MaxPower * PowerScale);
        force := Some(f);
        aiming := false;
        start := None;
        end := None;
      } else {
        force := None;
      }
    }
  }
}
