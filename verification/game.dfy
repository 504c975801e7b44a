/**
 * The game state of src/GameManager.js: the ball list, the turn fields, and the
 * pot processing that feeds the score ledger.
 *
 * The physics engine is not modelled: ball positions and velocities are the
 * plain fields of each ball's body, and removing a ball from the world is
 * deleting it from `balls`. `nextBodyId` stands for the engine's counter of body
 * ids, so that every ball created gets an id no earlier ball had.
 */
module Game {
  import opened Balls
  import Utils
  import Scoring
  import Cue

  /**
   * The table configuration read by the game (src/Table.js): spot positions by
   * colour name, pocket centres and radius, the baulk line, the table's centre
   * line, the D radius, the snooker ball radius and the red triangle's row
   * spacing (the radius times the square root of 3, a configured constant here). Their values are
   * opaque to the model.
   */
  datatype Table = Table(
    spots: map<string, Vec>,
    pockets: seq<Vec>,
    pocketRadius: real,
    baulkLineX: real,
    y: real,
    dRadius: real,
    ballRadius: real,
    redRowStep: real)

  /** `spotConfig`: the six colours in the order they are racked, with their values. */
  const SpotConfig: seq<(string, int)> :=
    [("yellow", 2), ("green", 3), ("brown", 4), ("blue", 5), ("pink", 6), ("black", 7)]

  /** The triangle of reds: `rows = 5`, and the guard `count >= 15`. */
  const RedRowCount: nat := 5
  const MaxReds: nat := 15

  /** Every colour has a spot and pockets have a positive radius. */
  predicate TableValid(t: Table)
  {
    (forall k :: 0 <= k < |SpotConfig| ==> SpotConfig[k].0 in t.spots) &&
    "pink" in t.spots &&
    t.pocketRadius > 0.0
  }

  // ---------------------------------------------------------------------------
  // The rack built by setupBalls
  // ---------------------------------------------------------------------------

  /** Where the cue ball starts: in the D, a third of its radius below the centre line. */
  function CueStart(t: Table): Vec
  {
    Vec(t.baulkLineX, t.y + t.dRadius / 3.0)
  }

  function ColourBalls(t: Table, firstId: nat): seq<Ball>
    requires TableValid(t)
  {
    seq(|SpotConfig|, k requires 0 <= k < |SpotConfig| =>
      var s := t.spots[SpotConfig[k].0];
      NewBall(s.x, s.y, ColourBall, SpotConfig[k].0, SpotConfig[k].1, firstId + k))
  }

  /** The x of row `row` of the red triangle: `row` row-steps right of the pink spot. */
  function RowX(t: Table, row: nat): real
    requires TableValid(t)
  {
    t.spots["pink"].x + row as real * t.redRowStep
  }

  /**
   * The y of the first ball of row `row`: the apex sits a radius plus 2 below
   * the pink spot, and a row of `row + 1` balls starts `row` radii above it.
   */
  function RowTop(t: Table, row: nat): real
    requires TableValid(t)
  {
    var apexY := t.spots["pink"].y + t.ballRadius + 2.0;
    apexY - t.ballRadius * ((row + 1) - 1) as real
  }

  /** Ball `i` of row `row` of the red triangle: two radii below the one before it. */
  function RedAt(t: Table, row: nat, i: nat, id: nat): Ball
    requires TableValid(t)
  {
    NewBall(RowX(t, row), RowTop(t, row) + i as real * t.ballRadius * 2.0, RedBall, "red", 1, id)
  }

  function RedRow(t: Table, row: nat, firstId: nat): seq<Ball>
    requires TableValid(t)
  {
    seq(row + 1, i requires 0 <= i < row + 1 => RedAt(t, row, i, firstId + i))
  }

  /** `Tri(n)` balls fill the first `n` rows of a triangle. */
  function Tri(n: nat): nat
  {
    if n == 0 then 0 else Tri(n - 1) + n
  }

  function RedRows(t: Table, rows: nat, firstId: nat): seq<Ball>
    requires TableValid(t)
  {
    if rows == 0 then []
    else RedRows(t, rows - 1, firstId) + RedRow(t, rows - 1, firstId + Tri(rows - 1))
  }

  /** The 22 balls `setupBalls` appends, the first taking body id `firstId`. */
  function Rack(t: Table, firstId: nat): seq<Ball>
    requires TableValid(t)
  {
    [NewBall(CueStart(t).x, CueStart(t).y, CueBall, "white", 0, firstId)]
      + ColourBalls(t, firstId + 1)
      + RedRows(t, RedRowCount, firstId + 1 + |SpotConfig|)
  }

  lemma TriFive()
    ensures Tri(1) == 1 && Tri(2) == 3 && Tri(3) == 6 && Tri(4) == 10 && Tri(RedRowCount) == MaxReds
  {
    assert Tri(1) == 1;
    assert Tri(2) == 3;
    assert Tri(3) == 6;
  }

  /** Row `b` starts at least `b - a` places after row `a`: rows never overlap. */
  lemma {:induction false} TriMonotone(a: nat, b: nat)
    requires a <= b
    ensures Tri(a) + (b - a) <= Tri(b)
  {
    if a < b {
      TriMonotone(a, b - 1);
    }
  }

  /** Rows `0 .. rows-1` hold `Tri(rows)` reds of value 1, with consecutive body ids. */
  lemma {:induction false} RedRowsShape(t: Table, rows: nat, firstId: nat)
    requires TableValid(t)
    ensures |RedRows(t, rows, firstId)| == Tri(rows)
    ensures forall k :: 0 <= k < Tri(rows) ==>
              var b := RedRows(t, rows, firstId)[k];
              b.kind == RedBall && b.colour == "red" && b.value == 1 &&
              b.body.Some? && b.body.value.id == firstId + k
  {
    if rows > 0 {
      RedRowsShape(t, rows - 1, firstId);
      var front := RedRows(t, rows - 1, firstId);
      var row := RedRow(t, rows - 1, firstId + Tri(rows - 1));
      assert RedRows(t, rows, firstId) == front + row;
      forall k | 0 <= k < Tri(rows)
        ensures var b := RedRows(t, rows, firstId)[k];
                b.kind == RedBall && b.colour == "red" && b.value == 1 &&
                b.body.Some? && b.body.value.id == firstId + k
      {
        if k >= Tri(rows - 1) {
          var j := k - Tri(rows - 1);
          assert RedRows(t, rows, firstId)[k] == row[j];
          assert row[j] == RedAt(t, rows - 1, j, firstId + Tri(rows - 1) + j);
        } else {
          assert RedRows(t, rows, firstId)[k] == front[k];
        }
      }
    }
  }

  /** The rack holds the cue ball, six colours and fifteen reds. */
  lemma RackLength(t: Table, firstId: nat)
    requires TableValid(t)
    ensures |Rack(t, firstId)| == 1 + |SpotConfig| + MaxReds == 22
  {
    TriFive();
    RedRowsShape(t, RedRowCount, firstId + 1 + |SpotConfig|);
  }

  /**
   * What `setupBalls` racks: 22 balls, the cue ball (value 0) first, then the
   * six colours yellow to black with values 2 to 7 in that order, then fifteen
   * reds of value 1; every ball at rest on its own fresh body id, at the
   * position it will be reset to.
   */
  lemma RackShape(t: Table, firstId: nat)
    requires TableValid(t)
    ensures var rack := Rack(t, firstId);
      && |rack| == 22
      && rack[0].kind == CueBall && rack[0].value == 0
      && (forall k :: 1 <= k <= 6 ==>
            rack[k].kind == ColourBall && rack[k].colour == SpotConfig[k - 1].0 && rack[k].value == k + 1)
      && (forall k :: 7 <= k < 22 ==> rack[k].kind == RedBall && rack[k].value == 1)
      && (forall k :: 0 <= k < 22 ==>
            rack[k].body.Some? && rack[k].body.value.id == firstId + k)
  {
    var rack := Rack(t, firstId);
    TriFive();
    RedRowsShape(t, RedRowCount, firstId + 7);
    var reds := RedRows(t, RedRowCount, firstId + 7);
    assert rack == [rack[0]] + ColourBalls(t, firstId + 1) + reds;
    forall k | 7 <= k < 22
      ensures rack[k].kind == RedBall && rack[k].value == 1
      ensures rack[k].body.Some? && rack[k].body.value.id == firstId + k
    {
      assert rack[k] == reds[k - 7];
    }
  }

  /** The first ball of type cue in the list, if there is one (`Array.prototype.find`). */
  function FindCue(balls: seq<Ball>): (r: Option<Ball>)
    ensures r.Some? ==> r.value in balls && r.value.kind == CueBall
    ensures r.None? ==> forall k :: 0 <= k < |balls| ==> balls[k].kind != CueBall
    ensures r.Some? ==> exists k :: 0 <= k < |balls| && balls[k] == r.value &&
                          forall j :: 0 <= j < k ==> balls[j].kind != CueBall
  {
    if balls == [] then None
    else if balls[0].kind == CueBall then Some(balls[0])
    else
      var r := FindCue(balls[1..]);
      if r.Some? then
        var k :| 0 <= k < |balls[1..]| && balls[1..][k] == r.value &&
                 forall j :: 0 <= j < k ==> balls[1..][j].kind != CueBall;
        assert balls[k + 1] == r.value;
        r
      else r
  }

  // ---------------------------------------------------------------------------
  // Pocketing, as checkPockets sees it
  // ---------------------------------------------------------------------------

  /**
   * `distance(p, pocket) < pocketRadius`, squared: for a positive radius the
   * square root is below the radius exactly when the squared distance is below
   * the squared radius.
   */
  predicate NearPocket(p: Vec, pocket: Vec, radius: real)
  {
    SqLen(Sub(p, pocket)) < radius * radius
  }

  predicate InAnyPocket(t: Table, p: Vec)
  {
    exists q :: 0 <= q < |t.pockets| && NearPocket(p, t.pockets[q], t.pocketRadius)
  }

  /** The ball's body lies in some pocket. */
  predicate Potted(t: Table, b: Ball)
  {
    b.body.Some? && InAnyPocket(t, b.body.value.position)
  }

  /**
   * What one ball becomes: an object ball in a pocket is gone, a cue ball in a
   * pocket is back at its initial position, any other ball stays as it is.
   */
  function Settle(t: Table, b: Ball): seq<Ball>
  {
    if !Potted(t, b) then [b]
    else if b.kind == CueBall then [ResetPosition(b)]
    else []
  }

  /** The ball list after `checkPockets`. */
  function Settled(t: Table, balls: seq<Ball>): seq<Ball>
  {
    if balls == [] then [] else Settle(t, balls[0]) + Settled(t, balls[1..])
  }

  /** What one potted object ball earns the player at the table. */
  function BallPoints(t: Table, b: Ball): int
  {
    if Potted(t, b) && b.kind != CueBall then b.value else 0
  }

  /** One potted cue ball is one scratch. */
  function BallScratch(t: Table, b: Ball): nat
  {
    if Potted(t, b) && b.kind == CueBall then 1 else 0
  }

  /** The pot record one ball leaves: `${ball.type} potted`, for object balls only. */
  function BallPotLog(t: Table, b: Ball, player: nat, now: int): seq<Scoring.PotRecord>
  {
    if Potted(t, b) && b.kind != CueBall
    then [Scoring.PotRecord(player, b.value, KindName(b.kind) + " potted", now)]
    else []
  }

  /** The foul record one ball leaves: a 4-point foul against `player`, for the cue ball only. */
  function BallFoulLog(t: Table, b: Ball, player: nat, now: int): seq<Scoring.FoulRecord>
  {
    if Potted(t, b) && b.kind == CueBall
    then [Scoring.FoulRecord(player, Scoring.Opponent(player), 4, "Cue ball potted", now)]
    else []
  }

  /** The points credited to the current player: the value of every potted object ball. */
  function PotPoints(t: Table, balls: seq<Ball>): int
  {
    if balls == [] then 0 else BallPoints(t, balls[0]) + PotPoints(t, balls[1..])
  }

  /** How many cue balls were found in a pocket. */
  function Scratches(t: Table, balls: seq<Ball>): nat
  {
    if balls == [] then 0 else BallScratch(t, balls[0]) + Scratches(t, balls[1..])
  }

  /** The pot records, in the order the backward walk writes them (last ball first). */
  function PotLog(t: Table, balls: seq<Ball>, player: nat, now: int): seq<Scoring.PotRecord>
  {
    if balls == [] then [] else PotLog(t, balls[1..], player, now) + BallPotLog(t, balls[0], player, now)
  }

  /** The foul records: one 4-point foul against `player` per potted cue ball, last ball first. */
  function FoulLog(t: Table, balls: seq<Ball>, player: nat, now: int): seq<Scoring.FoulRecord>
  {
    if balls == [] then [] else FoulLog(t, balls[1..], player, now) + BallFoulLog(t, balls[0], player, now)
  }

  function TotalValue(balls: seq<Ball>): int
  {
    if balls == [] then 0 else balls[0].value + TotalValue(balls[1..])
  }

  function CueCount(balls: seq<Ball>): nat
  {
    if balls == [] then 0 else (if balls[0].kind == CueBall then 1 else 0) + CueCount(balls[1..])
  }

  lemma {:induction false} SettledKeepsBodies(t: Table, balls: seq<Ball>, bound: nat)
    requires BodiesBelow(balls, bound)
    ensures BodiesBelow(Settled(t, balls), bound)
  {
    if balls != [] {
      SettledKeepsBodies(t, balls[1..], bound);
    }
  }

  /** Settling works ball by ball: it distributes over concatenation, so relative order is kept. */
  lemma {:induction false} SettledAppend(t: Table, a: seq<Ball>, b: seq<Ball>)
    ensures Settled(t, a + b) == Settled(t, a) + Settled(t, b)
  {
    if a != [] {
      assert (a + b)[0] == a[0];
      assert (a + b)[1..] == a[1..] + b;
      SettledAppend(t, a[1..], b);
      calc {
        Settled(t, a + b);
        Settle(t, a[0]) + Settled(t, a[1..] + b);
        Settle(t, a[0]) + (Settled(t, a[1..]) + Settled(t, b));
        (Settle(t, a[0]) + Settled(t, a[1..])) + Settled(t, b);
        Settled(t, a) + Settled(t, b);
      }
    } else {
      assert a + b == b;
    }
  }

  /** A table with nothing in a pocket is left exactly as it was. */
  lemma {:induction false} SettledNothingPotted(t: Table, balls: seq<Ball>)
    requires forall k :: 0 <= k < |balls| ==> !Potted(t, balls[k])
    ensures Settled(t, balls) == balls
  {
    if balls != [] {
      SettledNothingPotted(t, balls[1..]);
    }
  }

  /**
   * No object ball in a pocket survives, every surviving object ball was on the
   * table before, and the cue balls are never removed.
   */
  lemma {:induction false} SettledRemovesPotted(t: Table, balls: seq<Ball>)
    ensures forall b :: b in Settled(t, balls) && b.kind != CueBall ==> b in balls && !Potted(t, b)
    ensures CueCount(Settled(t, balls)) == CueCount(balls)
    ensures Scratches(t, balls) <= CueCount(balls)
  {
    if balls != [] {
      SettledRemovesPotted(t, balls[1..]);
      assert Settled(t, balls) == Settle(t, balls[0]) + Settled(t, balls[1..]);
      CueCountAppend(Settle(t, balls[0]), Settled(t, balls[1..]));
      if Potted(t, balls[0]) && balls[0].kind == CueBall {
        assert CueCount([ResetPosition(balls[0])]) == 1;
      } else if !Potted(t, balls[0]) {
        assert CueCount([balls[0]]) == (if balls[0].kind == CueBall then 1 else 0);
      }
    }
  }

  /** The points credited are exactly the value that left the table: nothing is scored twice. */
  lemma {:induction false} PotPointsConserveValue(t: Table, balls: seq<Ball>)
    ensures TotalValue(Settled(t, balls)) + PotPoints(t, balls) == TotalValue(balls)
  {
    if balls != [] {
      PotPointsConserveValue(t, balls[1..]);
      TotalValueAppend(Settle(t, balls[0]), Settled(t, balls[1..]));
    }
  }

  lemma {:induction false} TotalValueAppend(a: seq<Ball>, b: seq<Ball>)
    ensures TotalValue(a + b) == TotalValue(a) + TotalValue(b)
  {
    if a != [] {
      assert (a + b)[0] == a[0];
      assert (a + b)[1..] == a[1..] + b;
      TotalValueAppend(a[1..], b);
    } else {
      assert a + b == b;
    }
  }

  lemma {:induction false} CueCountAppend(a: seq<Ball>, b: seq<Ball>)
    ensures CueCount(a + b) == CueCount(a) + CueCount(b)
  {
    if a != [] {
      assert (a + b)[0] == a[0];
      assert (a + b)[1..] == a[1..] + b;
      CueCountAppend(a[1..], b);
    } else {
      assert a + b == b;
    }
  }

  /**
   * Once the cue balls' start positions are clear of the pockets, a second pass
   * finds nothing more to do: `checkPockets` is idempotent.
   */
  lemma {:induction false} SettledIdempotent(t: Table, balls: seq<Ball>)
    requires forall k :: 0 <= k < |balls| && balls[k].kind == CueBall ==> !InAnyPocket(t, balls[k].initial)
    ensures Settled(t, Settled(t, balls)) == Settled(t, balls)
  {
    if balls != [] {
      SettledIdempotent(t, balls[1..]);
      var b := balls[0];
      SettledAppend(t, Settle(t, b), Settled(t, balls[1..]));
      if Potted(t, b) && b.kind == CueBall {
        assert Settled(t, [ResetPosition(b)]) == [ResetPosition(b)];
      } else if !Potted(t, b) {
        assert Settled(t, [b]) == [b];
      }
    }
  }

  /** One step of the backward walk: the ball at `i` is dealt with in front of those after it. */
  lemma CheckPocketsStep(t: Table, all: seq<Ball>, i: nat, player: nat, now: int)
    requires i < |all|
    ensures Settled(t, all[i..]) == Settle(t, all[i]) + Settled(t, all[i + 1..])
    ensures PotPoints(t, all[i..]) == BallPoints(t, all[i]) + PotPoints(t, all[i + 1..])
    ensures Scratches(t, all[i..]) == BallScratch(t, all[i]) + Scratches(t, all[i + 1..])
    ensures PotLog(t, all[i..], player, now) == PotLog(t, all[i + 1..], player, now) + BallPotLog(t, all[i], player, now)
    ensures FoulLog(t, all[i..], player, now) == FoulLog(t, all[i + 1..], player, now) + BallFoulLog(t, all[i], player, now)
  {
    assert all[i..][0] == all[i];
    assert all[i..][1..] == all[i + 1..];
  }

  /** Deleting the element at `|pre|` leaves the elements around it in order. */
  lemma SpliceOut<T>(pre: seq<T>, x: T, rest: seq<T>)
    ensures var s := pre + [x] + rest; s[..|pre|] + s[|pre| + 1..] == pre + rest
  {
    var s := pre + [x] + rest;
    assert s[..|pre|] == pre;
    assert s[|pre| + 1..] == rest;
  }

  lemma AppendAssoc<T>(a: seq<T>, b: seq<T>, c: seq<T>)
    ensures a + b + c == a + (b + c)
  {
  }

  /** Overwriting the element at `|pre|` leaves the elements around it in place. */
  lemma SpliceIn<T>(pre: seq<T>, x: T, y: T, rest: seq<T>)
    ensures (pre + [x] + rest)[|pre| := y] == pre + [y] + rest
  {
  }

  datatype InputEvent = MousePressed | MouseReleased | OtherEvent

  /** `1 - currentPlayer`. */
  function Switched(player: int): int
  {
    1 - player
  }

  /** Switching twice hands the turn back, and a foul always credits the player who plays next. */
  lemma SwitchedInvolutive(player: int)
    requires player == 0 || player == 1
    ensures Switched(player) == 0 || Switched(player) == 1
    ensures Switched(Switched(player)) == player
    ensures Scoring.Opponent(player) == Switched(player)
  {
  }

  class GameManager {
    const table: Table
    var balls: seq<Ball>
    var nextBodyId: nat
    /** The body of the ball `this.cueBall` points at. */
    var cueBallId: nat
    var cue: Cue.Cue?
    var scoring: Scoring.Scoring?
    var currentPlayer: int
    var gameOver: bool
    var turnInProgress: bool

    ghost predicate Valid()
      reads this, cue, scoring
    {
      && TableValid(table)
      && cue != null && scoring != null
      && scoring.scores.Length == 2
      && (currentPlayer == 0 || currentPlayer == 1)
      && BodiesBelow(balls, nextBodyId)
      && cueBallId < nextBodyId && cue.cueBallId == cueBallId
      && cue.Valid() && turnInProgress == cue.aiming
    }

    /**
     * The physics engine is not modelled; the game starts with the full rack,
     * the cue aimed at the rack's cue ball, a fresh two-player ledger, player 0
     * to play and the game not over.
     */
    constructor (table: Table, firstBodyId: nat)
      requires TableValid(table)
      ensures Valid()
      ensures fresh(cue) && fresh(scoring) && fresh(scoring.scores)
      ensures cue.start == None && cue.end == None
      ensures balls == Rack(table, firstBodyId) && cueBallId == firstBodyId
      ensures currentPlayer == 0 && !gameOver && !turnInProgress
      ensures forall i :: 0 <= i < scoring.scores.Length ==> scoring.scores[i] == 0
      ensures scoring.potHistory == [] && scoring.foulHistory == []
    {
      this.table := table;
      balls := [];
      nextBodyId := firstBodyId;
      cue := null;
      scoring := null;
      new;
      SetupBalls();
      RackShape(table, firstBodyId);
      var found := FindCue(balls);
      assert balls[0].kind == CueBall;
      cueBallId := found.value.body.value.id;
      cue := new Cue.Cue(cueBallId);
      scoring := new Scoring.Scoring(2);
      currentPlayer := 0;
      gameOver := false;
      turnInProgress := false;
    }

    /** `setupBalls`: pushes the cue ball, the six colours and the red triangle, in that order. */
    method SetupBalls()
      requires TableValid(table)
      modifies this`balls, this`nextBodyId
      ensures balls == old(balls) + Rack(table, old(nextBodyId))
      ensures nextBodyId == old(nextBodyId) + |Rack(table, old(nextBodyId))|
    {
      ghost var id0 := nextBodyId;
      ghost var before := balls;
      var dCenter := Vec(table.baulkLineX, table.y);
      var cueBall := NewBall(dCenter.x, dCenter.y + table.dRadius / 3.0, CueBall, "white", 0, nextBodyId);
      balls := balls + [cueBall];
      nextBodyId := nextBodyId + 1;
      PushColours();
      ghost var colours := ColourBalls(table, id0 + 1);
      PushReds();
      RackLength(table, id0);
      assert Rack(table, id0) == [cueBall] + colours + RedRows(table, RedRowCount, id0 + 7);
    }

    /** The colour loop of `setupBalls`: one ball per spot, in `spotConfig` order, each on a fresh body. */
    method PushColours()
      requires TableValid(table)
      modifies this`balls, this`nextBodyId
      ensures balls == old(balls) + ColourBalls(table, old(nextBodyId))
      ensures nextBodyId == old(nextBodyId) + |SpotConfig|
    {
      ghost var id0 := nextBodyId;
      ghost var before := balls;
      for k := 0 to |SpotConfig|
        invariant nextBodyId == id0 + k
        invariant balls == before + ColourBalls(table, id0)[..k]
      {
        var key := SpotConfig[k].0;
        var value := SpotConfig[k].1;
        var s := table.spots[key];
        assert ColourBalls(table, id0)[..k + 1] ==
               ColourBalls(table, id0)[..k] + [NewBall(s.x, s.y, ColourBall, key, value, nextBodyId)];
        balls := balls + [NewBall(s.x, s.y, ColourBall, key, value, nextBodyId)];
        nextBodyId := nextBodyId + 1;
      }
      assert ColourBalls(table, id0)[..|SpotConfig|] == ColourBalls(table, id0);
    }

    /**
     * The red triangle of `setupBalls`: five rows, stopping at fifteen reds,
     * appended row by row on fresh body ids.
     */
    method PushReds()
      requires TableValid(table)
      modifies this`balls, this`nextBodyId
      ensures balls == old(balls) + RedRows(table, RedRowCount, old(nextBodyId))
      ensures nextBodyId == old(nextBodyId) + MaxReds
    {
      ghost var id0 := nextBodyId;
      ghost var before := balls;
      var count := 0;
      var rows := RedRowCount;
      for row := 0 to rows
        invariant count == Tri(row) && nextBodyId == id0 + count
        invariant balls == before + RedRows(table, row, id0)
      {
        TriBound(row);
        count := PushRedRow(row, count);
      }
      TriFive();
    }

    /**
     * One row of the red triangle in `setupBalls`: `row + 1` reds, ball `i` made
     * as `RedAt` places it. The running `count` is `count` plus the row's
     * length, so the `count >= 15` guard has not fired when the row is short of
     * fifteen.
     */
    method PushRedRow(row: nat, count: nat) returns (count': nat)
      requires TableValid(table) && count + row < MaxReds
      modifies this`balls, this`nextBodyId
      ensures balls == old(balls) + RedRow(table, row, old(nextBodyId))
      ensures nextBodyId == old(nextBodyId) + row + 1 && count' == count + row + 1
    {
      ghost var id0 := nextBodyId;
      ghost var before := balls;
      ghost var redRow := RedRow(table, row, id0);
      count' := count;
      for i := 0 to row + 1
        invariant count' == count + i && nextBodyId == id0 + i
        invariant balls == before + redRow[..i]
      {
        if count' >= MaxReds {
          break;
        }
        var ball := RedAt(table, row, i, nextBodyId);
        assert redRow[..i + 1] == redRow[..i] + [ball];
        balls := balls + [ball];
        nextBodyId := nextBodyId + 1;
        count' := count' + 1;
      }
      assert redRow[..row + 1] == redRow;
    }

    /** The guard `count >= 15` never fires: row `row` of five ends at ball `Tri(row) + row < 15`. */
    static lemma TriBound(row: nat)
      requires row < RedRowCount
      ensures Tri(row) + row < MaxReds
    {
      TriFive();
      if row < 4 {
        TriMonotone(row, 4);
      }
    }

    /**
     * `checkPockets`: walks the list from the back; an object ball found in a
     * pocket is credited to the current player and spliced out, a cue ball found
     * in a pocket costs the current player a 4-point foul and goes back to its
     * start. The `break` after the first pocket that holds a ball means each
     * ball is dealt with at most once.
     */
    method CheckPockets(now: int)
      requires scoring != null && scoring.scores.Length == 2
      requires currentPlayer == 0 || currentPlayer == 1
      requires forall k :: 0 <= k < |balls| ==> balls[k].body.Some?
      modifies this`balls, scoring, scoring.scores
      ensures balls == Settled(table, old(balls))
      ensures scoring == old(scoring) && scoring.scores == old(scoring.scores)
      ensures scoring.scores[currentPlayer] == old(scoring.scores[currentPlayer]) + PotPoints(table, old(balls))
      ensures scoring.scores[Switched(currentPlayer)] ==
                old(scoring.scores[Switched(currentPlayer)]) + 4 * Scratches(table, old(balls))
      ensures scoring.potHistory == old(scoring.potHistory) + PotLog(table, old(balls), currentPlayer, now)
      ensures scoring.foulHistory == old(scoring.foulHistory) + FoulLog(table, old(balls), currentPlayer, now)
      ensures currentPlayer == old(currentPlayer) && gameOver == old(gameOver)
    {
      ghost var all := balls;
      ghost var scores := scoring.scores;
      ghost var own, other := scores[currentPlayer], scores[Switched(currentPlayer)];
      ghost var pots, fouls := scoring.potHistory, scoring.foulHistory;
      var i := |balls| - 1;
      assert all[..i + 1] == all && all[i + 1..] == [];
      assert pots + [] == pots && fouls + [] == fouls && all + [] == all;
      while i >= 0
        invariant Walked(all, i, scores, own, other, pots, fouls, now)
        decreases i
      {
        SettleNext(i, now, all, scores, own, other, pots, fouls);
        i := i - 1;
      }
      assert all[0..] == all;
    }

    /**
     * The state of `checkPockets`' backward walk over `all` once every ball after
     * `i` has been dealt with: those balls are settled, the balls up to `i` are
     * untouched, and the ledger holds exactly their points, fouls and records.
     */
    ghost predicate Walked(all: seq<Ball>, i: int, scores: array<int>, own: int, other: int,
                           pots: seq<Scoring.PotRecord>, fouls: seq<Scoring.FoulRecord>, now: int)
      reads this, scoring, scores
    {
      -1 <= i < |all| && scoring != null && scoring.scores == scores && scores.Length == 2 &&
      (currentPlayer == 0 || currentPlayer == 1) &&
      (forall k :: 0 <= k < |all| ==> all[k].body.Some?) &&
      balls == all[..i + 1] + Settled(table, all[i + 1..]) &&
      scores[currentPlayer] == own + PotPoints(table, all[i + 1..]) &&
      scores[Switched(currentPlayer)] == other + 4 * Scratches(table, all[i + 1..]) &&
      scoring.potHistory == pots + PotLog(table, all[i + 1..], currentPlayer, now) &&
      scoring.foulHistory == fouls + FoulLog(table, all[i + 1..], currentPlayer, now)
    }

    /** One turn of `checkPockets`' loop: the ball at `i` joins the settled suffix. */
    method SettleNext(i: nat, now: int, ghost all: seq<Ball>, ghost scores: array<int>, ghost own: int,
                      ghost other: int, ghost pots: seq<Scoring.PotRecord>, ghost fouls: seq<Scoring.FoulRecord>)
      requires Walked(all, i, scores, own, other, pots, fouls, now)
      modifies this`balls, scoring, scores
      ensures Walked(all, i - 1, scores, own, other, pots, fouls, now)
    {
      SwitchedInvolutive(currentPlayer);
      var player := currentPlayer;
      ghost var rest := all[i + 1..];
      assert balls[i] == all[i] && balls[..i] == all[..i] && balls[i + 1..] == Settled(table, rest);
      CheckPocketsStep(table, all, i, player, now);
      SettleBall(i, now);
      AppendAssoc(all[..i], Settle(table, all[i]), Settled(table, rest));
      AppendAssoc(pots, PotLog(table, rest, player, now), BallPotLog(table, all[i], player, now));
      AppendAssoc(fouls, FoulLog(table, rest, player, now), BallFoulLog(table, all[i], player, now));
      assert balls == all[..i] + Settled(table, all[i..]);
    }

    /** `update`: one frame of the game is one `checkPockets`, and the game stays well formed. */
    method Update(now: int)
      requires Valid()
      modifies this`balls, scoring, scoring.scores
      ensures Valid()
      ensures balls == Settled(table, old(balls))
      ensures scoring == old(scoring) && scoring.scores == old(scoring.scores)
      ensures scoring.scores[currentPlayer] == old(scoring.scores[currentPlayer]) + PotPoints(table, old(balls))
      ensures scoring.scores[Switched(currentPlayer)] ==
                old(scoring.scores[Switched(currentPlayer)]) + 4 * Scratches(table, old(balls))
      ensures scoring.potHistory == old(scoring.potHistory) + PotLog(table, old(balls), currentPlayer, now)
      ensures scoring.foulHistory == old(scoring.foulHistory) + FoulLog(table, old(balls), currentPlayer, now)
    {
      SettledKeepsBodies(table, balls, nextBodyId);
      CheckPockets(now);
    }

    /**
     * The body of `checkPockets`' loop, for the ball at `i`: the pocket test, and
     * then the pot with its points or the scratch with its foul.
     */
    method SettleBall(i: nat, now: int)
      requires scoring != null && scoring.scores.Length == 2
      requires currentPlayer == 0 || currentPlayer == 1
      requires i < |balls| && balls[i].body.Some?
      modifies this`balls, scoring, scoring.scores
      ensures balls == old(balls[..i]) + Settle(table, old(balls[i])) + old(balls[i + 1..])
      ensures scoring == old(scoring) && scoring.scores == old(scoring.scores)
      ensures scoring.scores[currentPlayer] == old(scoring.scores[currentPlayer]) + BallPoints(table, old(balls[i]))
      ensures scoring.scores[Switched(currentPlayer)] ==
                old(scoring.scores[Switched(currentPlayer)]) + 4 * BallScratch(table, old(balls[i]))
      ensures scoring.potHistory == old(scoring.potHistory) + BallPotLog(table, old(balls[i]), currentPlayer, now)
      ensures scoring.foulHistory == old(scoring.foulHistory) + BallFoulLog(table, old(balls[i]), currentPlayer, now)
    {
      var ball := balls[i];
      var hit := InPocket(ball.body.value.position);
      if hit {
        if ball.kind != CueBall {
          scoring.AddPoints(currentPlayer, ball.value, KindName(ball.kind) + " potted", now);
          SpliceOut(balls[..i], ball, balls[i + 1..]);
          assert balls == balls[..i] + [ball] + balls[i + 1..];
          balls := balls[..i] + balls[i + 1..];
        } else {
          scoring.AddFoul(currentPlayer, 4, "Cue ball potted", now);
          SpliceIn(balls[..i], ball, ResetPosition(ball), balls[i + 1..]);
          assert balls == balls[..i] + [ball] + balls[i + 1..];
          balls := balls[i := ResetPosition(ball)];
        }
      } else {
        assert balls == balls[..i] + [ball] + balls[i + 1..];
      }
    }

    /**
     * The inner loop of `checkPockets`: a search over the pockets that stops at
     * the first one within its radius of `pos`.
     */
    method InPocket(pos: Vec) returns (hit: bool)
      ensures hit <==> InAnyPocket(table, pos)
    {
      hit := false;
      var k := 0;
      while k < |table.pockets|
        invariant 0 <= k <= |table.pockets|
        invariant forall q :: 0 <= q < k ==> !NearPocket(pos, table.pockets[q], table.pocketRadius)
      {
        if NearPocket(pos, table.pockets[k], table.pocketRadius) {
          hit := true;
          break;
        }
        k := k + 1;
      }
    }

    /** `switchPlayer`: hands the turn to the other of the two players. */
    method SwitchPlayer()
      requires Valid()
      modifies this`currentPlayer
      ensures Valid()
      ensures currentPlayer == Switched(old(currentPlayer))
    {
      currentPlayer := 1 - currentPlayer;
    }

    /**
     * `handleInput`: after the game is over no event does anything. A press
     * starts aiming at the mouse and opens a turn only if the table is
     * stationary; a release during a turn moves the aim to the mouse, shoots and
     * closes the turn. `dragLength` is the length of the drag vector, which
     * `shoot` computes with a square root.
     */
    method HandleInput(event: InputEvent, mouse: Vec, dragLength: real) returns (force: Option<Vec>)
      requires Valid()
      requires 0.0 <= dragLength
      requires event == MouseReleased && turnInProgress && cue.start.Some? ==>
                 dragLength * dragLength == SqLen(Sub(cue.start.value, mouse))
      modifies this`turnInProgress, cue
      ensures Valid()
      ensures old(gameOver) || event == OtherEvent ==>
                force == None && turnInProgress == old(turnInProgress) &&
                cue.aiming == old(cue.aiming) && cue.start == old(cue.start) && cue.end == old(cue.end)
      ensures !old(gameOver) && event == MousePressed ==>
                force == None &&
                if Utils.AreBallsStationary(balls) then
                  turnInProgress && cue.aiming && cue.start == Some(mouse) && cue.end == Some(mouse)
                else
                  turnInProgress == old(turnInProgress) &&
                  cue.aiming == old(cue.aiming) && cue.start == old(cue.start) && cue.end == old(cue.end)
      ensures !old(gameOver) && event == MouseReleased ==>
                if old(turnInProgress) then
                  !turnInProgress && !cue.aiming && cue.start == None && cue.end == None &&
                  force == Some(Cue.SetMag(Sub(old(cue.start).value, mouse), dragLength, Cue.ShotMagnitude(dragLength)))
                else
                  force == None && !turnInProgress &&
                  cue.aiming == old(cue.aiming) && cue.start == old(cue.start) && cue.end == old(cue.end)
    {
      force := None;
      if gameOver {
        return;
      }
      if event == MousePressed {
        if Utils.AreBallsStationary(balls) {
          cue.StartAiming(mouse);
          turnInProgress := true;
        }
      } else if event == MouseReleased {
        if turnInProgress {
          cue.UpdateAiming(mouse);
          force := cue.Shoot(dragLength);
          turnInProgress := false;
        }
      }
    }

    /**
     * `reset`: a fresh rack, a cleared ledger, player 0 to play and the game not
     * over. `turnInProgress`, `cueBall` and `cue` are left alone, so the cue
     * still pushes the body of the old cue ball, which is no longer on the table.
     */
    method Reset()
      requires Valid()
      modifies this`balls, this`nextBodyId, this`currentPlayer, this`gameOver, scoring, scoring.scores
      ensures Valid()
      ensures balls == Rack(table, old(nextBodyId))
      ensures currentPlayer == 0 && !gameOver
      ensures scoring == old(scoring) && scoring.scores == old(scoring.scores)
      ensures forall i :: 0 <= i < scoring.scores.Length ==> scoring.scores[i] == 0
      ensures scoring.potHistory == [] && scoring.foulHistory == []
      ensures turnInProgress == old(turnInProgress) && cue == old(cue) && cueBallId == old(cueBallId)
      ensures forall k :: 0 <= k < |balls| ==> balls[k].body.Some? && balls[k].body.value.id != cue.cueBallId
    {
      ghost var id0 := nextBodyId;
      balls := [];
      SetupBalls();
      RackShape(table, id0);
      scoring.Reset();
      currentPlayer := 0;
      gameOver := false;
    }
  }
}
