/**
 * The two pure helpers of src/utils.js. JavaScript numbers are modelled as
 * `real`; NaN and the infinities are outside the model.
 */
module Utils {
  import opened Balls

  /** The default of `areBallsStationary`'s `threshold` parameter. */
  const DefaultThreshold: real := 0.15

  function Abs(x: real): (r: real)
    ensures r >= 0.0 && (r == x || r == -x)
  {
    if x < 0.0 then -x else x
  }

  /**
   * `clamp`: the value capped at `hi`, then raised to at least `lo`. The lower bound
   * always wins: when `min > max` the result is `min`.
   */
  function Clamp(val: real, lo: real, hi: real): (r: real)
    ensures r >= lo
    ensures lo <= hi ==> r <= hi
    ensures lo <= val <= hi ==> r == val
    ensures val <= lo || hi < lo ==> r == lo
    ensures lo <= hi <= val ==> r == hi
  {
    var inner := if hi < val then hi else val;
    if lo < inner then inner else lo
  }

  /** With a well-formed range, clamping a clamped value changes nothing. */
  lemma ClampIdempotent(val: real, lo: real, hi: real)
    requires lo <= hi
    ensures Clamp(Clamp(val, lo, hi), lo, hi) == Clamp(val, lo, hi)
  {
  }

  /** One ball passes the `every` callback: it has no body, or both speeds are strictly below `threshold`. */
  predicate IsStill(ball: Ball, threshold: real)
  {
    ball.body.None? ||
    (Abs(ball.body.value.velocity.x) < threshold && Abs(ball.body.value.velocity.y) < threshold)
  }

  /**
   * `areBallsStationary(balls, threshold = 0.15)`: `balls.every(...)`, walked from
   * the front as `every` does.
   */
  function AreBallsStationary(balls: seq<Ball>, threshold: real := DefaultThreshold): (r: bool)
    ensures r <==> forall k :: 0 <= k < |balls| && balls[k].body.Some? ==>
                      Abs(balls[k].body.value.velocity.x) < threshold &&
                      Abs(balls[k].body.value.velocity.y) < threshold
  {
    if balls == [] then true
    else IsStill(balls[0], threshold) && AreBallsStationary(balls[1..], threshold)
  }

  /** Raising the threshold never turns a stationary table into a moving one. */
  lemma {:induction false} StationaryMonotone(balls: seq<Ball>, t: real, t': real)
    requires t <= t'
    requires AreBallsStationary(balls, t)
    ensures AreBallsStationary(balls, t')
  {
    if balls != [] {
      StationaryMonotone(balls[1..], t, t');
    }
  }

  /** A ball without a body never holds the table up. */
  lemma {:induction false} BodilessIgnored(balls: seq<Ball>, k: nat, b: Ball, threshold: real)
    requires k <= |balls| && b.body.None?
    ensures AreBallsStationary(balls[..k] + [b] + balls[k..], threshold) == AreBallsStationary(balls, threshold)
  {
    var s := balls[..k] + [b] + balls[k..];
    if AreBallsStationary(balls, threshold) {
      forall j | 0 <= j < |s| && s[j].body.Some?
        ensures Abs(s[j].body.value.velocity.x) < threshold && Abs(s[j].body.value.velocity.y) < threshold
      {
        var i := if j < k then j else j - 1;
        assert s[j] == balls[i];
      }
    }
    if AreBallsStationary(s, threshold) {
      forall i | 0 <= i < |balls| && balls[i].body.Some?
        ensures Abs(balls[i].body.value.velocity.x) < threshold && Abs(balls[i].body.value.velocity.y) < threshold
      {
        var j := if i < k then i else i + 1;
        assert s[j] == balls[i];
      }
    }
  }
}
