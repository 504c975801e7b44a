/**
 * The shot recorder of src/ReplayManager.js: a three-state machine (idle,
 * recording, replaying) over a buffer of frames and a playback index. Drawing
 * and console messages are outside the model; the ghost fields are carried but
 * no transition touches them.
 */
module Replay {
  import opened Balls
  import Game

  datatype ReplayState = Idle | Recording | Replaying

  /** One entry of a recorded frame: `{ id, x, y, angle }` of a body. */
  datatype BallState = BallState(id: nat, x: real, y: real, angle: real)

  /** The entry a ball contributes to a frame: one if it has a body, none otherwise. */
  function Entry(b: Ball): seq<BallState>
  {
    if b.body.Some?
    then [BallState(b.body.value.id, b.body.value.position.x, b.body.value.position.y, b.body.value.angle)]
    else []
  }

  /** The frame `recordFrame` builds from a ball list, walking it from the front. */
  function Snapshot(balls: seq<Ball>): seq<BallState>
  {
    if balls == [] then [] else Snapshot(balls[..|balls| - 1]) + Entry(balls[|balls| - 1])
  }

  /** Frames are built ball by ball: the frame of a concatenation is the concatenation of frames. */
  lemma {:induction false} SnapshotAppend(a: seq<Ball>, b: seq<Ball>)
    ensures Snapshot(a + b) == Snapshot(a) + Snapshot(b)
    decreases |b|
  {
    if b == [] {
      assert a + b == a;
    } else {
      var front := b[..|b| - 1];
      assert (a + b)[..|a + b| - 1] == a + front;
      assert (a + b)[|a + b| - 1] == b[|b| - 1];
      SnapshotAppend(a, front);
    }
  }

  /** The frame of a single ball is that ball's entry. */
  lemma SnapshotSingle(b: Ball)
    ensures Snapshot([b]) == Entry(b)
  {
    assert [b][..0] == [];
  }

  /** A ball without a body leaves no trace in a frame, wherever it sits in the list. */
  lemma {:induction false} BodilessSkipped(balls: seq<Ball>, k: nat, b: Ball)
    requires k <= |balls| && b.body.None?
    ensures Snapshot(balls[..k] + [b] + balls[k..]) == Snapshot(balls)
  {
    var pre, post := balls[..k], balls[k..];
    calc {
      Snapshot(pre + [b] + post);
      { SnapshotAppend(pre + [b], post); }
      Snapshot(pre + [b]) + Snapshot(post);
      { SnapshotAppend(pre, [b]); SnapshotSingle(b); }
      Snapshot(pre) + Snapshot(post);
      { SnapshotAppend(pre, post); }
      Snapshot(pre + post);
      { assert pre + post == balls; }
      Snapshot(balls);
    }
  }

  /**
   * A frame never has more entries than there are balls, and when every ball
   * has a body it has exactly one entry per ball, in list order, carrying that
   * body's id, position and angle.
   */
  lemma {:induction false} SnapshotEntries(balls: seq<Ball>)
    ensures |Snapshot(balls)| <= |balls|
    ensures (forall k :: 0 <= k < |balls| ==> balls[k].body.Some?) ==>
              |Snapshot(balls)| == |balls| &&
              forall k :: 0 <= k < |balls| ==>
                Snapshot(balls)[k] == BallState(balls[k].body.value.id, balls[k].body.value.position.x,
                                                balls[k].body.value.position.y, balls[k].body.value.angle)
  {
    if balls != [] {
      var front, last := balls[..|balls| - 1], balls[|balls| - 1];
      SnapshotEntries(front);
      assert Snapshot(balls) == Snapshot(front) + Entry(last);
      if forall k :: 0 <= k < |balls| ==> balls[k].body.Some? {
        forall k | 0 <= k < |front|
          ensures front[k].body.Some?
        {
          assert front[k] == balls[k];
        }
      }
    }
  }

  class ReplayManager {
    const game: Game.GameManager
    var state: ReplayState
    var replayData: seq<seq<BallState>>
    var ghostData: Option<seq<seq<BallState>>>
    var replayFrameIndex: nat
    var ghostFrameIndex: nat

    /** While replaying the index points into the buffer; otherwise it rests at 0. */
    ghost predicate Valid()
      reads this
    {
      (state == Replaying ==> replayFrameIndex < |replayData|) &&
      (state != Replaying ==> replayFrameIndex == 0)
    }

    /** The calls to `update` left before playback ends. */
    ghost function TicksLeft(): nat
      reads this
      requires Valid()
    {
      if state == Replaying then |replayData| - replayFrameIndex else 0
    }

    constructor (game: Game.GameManager)
      ensures Valid()
      ensures this.game == game && state == Idle && replayData == [] && ghostData == None
      ensures replayFrameIndex == 0 && ghostFrameIndex == 0
    {
      this.game := game;
      state := Idle;
      replayData := [];
      ghostData := None;
      replayFrameIndex := 0;
      ghostFrameIndex := 0;
    }

    /**
     * `update`: while replaying, advance one frame, and go back to idle (index
     * 0) on running past the last one; in any other state nothing happens. A
     * replay therefore lasts exactly as many ticks as there are frames.
     */
    method Update()
      requires Valid()
      modifies this`state, this`replayFrameIndex
      ensures Valid()
      ensures old(state) != Replaying ==> state == old(state) && replayFrameIndex == old(replayFrameIndex)
      ensures old(state) == Replaying ==>
                if old(replayFrameIndex) + 1 < |replayData|
                then state == Replaying && replayFrameIndex == old(replayFrameIndex) + 1
                else state == Idle && replayFrameIndex == 0
      ensures TicksLeft() == if old(TicksLeft()) > 0 then old(TicksLeft()) - 1 else 0
    {
      if state == Replaying {
        replayFrameIndex := replayFrameIndex + 1;
        if replayFrameIndex >= |replayData| {
          StopReplay();
        }
      }
    }

    /** `startRecording`: only from idle; the buffer is emptied for the new shot. */
    method StartRecording()
      requires Valid()
      modifies this`state, this`replayData
      ensures Valid()
      ensures old(state) == Idle ==> state == Recording && replayData == []
      ensures old(state) != Idle ==> state == old(state) && replayData == old(replayData)
    {
      if state != Idle {
        return;
      }
      state := Recording;
      replayData := [];
    }

    /**
     * `recordFrame`: only while recording, appends exactly one frame holding an
     * entry for each ball of the game that has a body, in list order.
     */
    method RecordFrame()
      requires Valid()
      modifies this`replayData
      ensures Valid()
      ensures state == Recording ==> replayData == old(replayData) + [Snapshot(game.balls)]
      ensures state != Recording ==> replayData == old(replayData)
    {
      if state != Recording {
        return;
      }
      var balls := game.balls;
      var frame: seq<BallState> := [];
      for k := 0 to |balls|
        invariant frame == Snapshot(balls[..k])
      {
        var ball := balls[k];
        assert balls[..k + 1][..k] == balls[..k];
        if ball.body.Some? {
          frame := frame + [BallState(ball.body.value.id, ball.body.value.position.x,
                                      ball.body.value.position.y, ball.body.value.angle)];
        }
      }
      assert balls[..|balls|] == balls;
      replayData := replayData + [frame];
    }

    /** `stopRecording`: recording goes back to idle keeping every frame. */
    method StopRecording()
      requires Valid()
      modifies this`state
      ensures Valid()
      ensures old(state) == Recording ==> state == Idle
      ensures old(state) != Recording ==> state == old(state)
    {
      if state != Recording {
        return;
      }
      state := Idle;
    }

    /** `startReplay`: only from idle and with at least one frame; playback starts at frame 0. */
    method StartReplay()
      requires Valid()
      modifies this`state, this`replayFrameIndex
      ensures Valid()
      ensures old(state) == Idle && |replayData| > 0 ==> state == Replaying && replayFrameIndex == 0
      ensures !(old(state) == Idle && |replayData| > 0) ==>
                state == old(state) && replayFrameIndex == old(replayFrameIndex)
      ensures TicksLeft() == if old(state) == Idle then |replayData| else old(TicksLeft())
    {
      if state != Idle || |replayData| == 0 {
        return;
      }
      state := Replaying;
      replayFrameIndex := 0;
    }

    /** `stopReplay`: replaying goes back to idle with the index reset; otherwise nothing happens. */
    method StopReplay()
      requires state == Replaying || Valid()
      modifies this`state, this`replayFrameIndex
      ensures Valid()
      ensures old(state) == Replaying ==> state == Idle && replayFrameIndex == 0
      ensures old(state) != Replaying ==> state == old(state) && replayFrameIndex == old(replayFrameIndex)
    {
      if state != Replaying {
        return;
      }
      state := Idle;
      replayFrameIndex := 0;
    }
  }
}
