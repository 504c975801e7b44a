/**
 * The per-frame score ledger of src/Scoring.js: one score per player, a history of
 * pots and a history of fouls. `Date.now()` becomes the `now` parameter of each
 * method.
 */
module Scoring {

  datatype PotRecord = PotRecord(player: nat, points: int, desc: string, time: int)

  datatype FoulRecord = FoulRecord(foulingPlayer: int, awardedTo: nat, foulPoints: int, desc: string, time: int)

  /**
   * The player a foul is awarded to: 1 when player 0 fouls, 0 otherwise. It is
   * always a valid index of a two-player ledger, never the fouling player, and
   * for the two real players it is the other one.
   */
  function Opponent(fouler: int): (o: nat)
    ensures o <= 1
    ensures o != fouler
    ensures fouler == 0 || fouler == 1 ==> o == 1 - fouler
  {
    if fouler == 0 then 1 else 0
  }

  class Scoring {
    var scores: array<int>
    var foulHistory: seq<FoulRecord>
    var potHistory: seq<PotRecord>

    /** `new Scoring(numPlayers)`: every score 0 and both histories empty. */
    constructor (numPlayers: nat)
      ensures fresh(scores) && scores.Length == numPlayers
      ensures forall i :: 0 <= i < scores.Length ==> scores[i] == 0
      ensures foulHistory == [] && potHistory == []
    {
      scores := new int[numPlayers](_ => 0);
      foulHistory := [];
      potHistory := [];
    }

    /**
     * `addPoints`: only `scores[player]` moves, by exactly `points`; a history
     * entry is written exactly when the description is non-empty (truthy).
     */
    method AddPoints(player: nat, points: int, desc: string, now: int)
      requires player < scores.Length
      modifies scores, this`potHistory
      ensures scores[..] == old(scores[..])[player := old(scores[player]) + points]
      ensures potHistory == old(potHistory) + if desc != "" then [PotRecord(player, points, desc, now)] else []
      ensures foulHistory == old(foulHistory)
    {
      scores[player] := scores[player] + points;
      if desc != "" {
        potHistory := potHistory + [PotRecord(player, points, desc, now)];
      }
    }

    /**
     * `addFoul`: the opponent of the fouling player is credited, the fouling
     * player's own score never moves, and exactly one foul record naming the
     * opponent is appended. The documented range of a foul, 4 to 7 points, is
     * the caller's obligation.
     */
    method AddFoul(fouler: int, points: int, desc: string, now: int)
      requires 4 <= points <= 7
      requires Opponent(fouler) < scores.Length
      modifies scores, this`foulHistory
      ensures scores[..] == old(scores[..])[Opponent(fouler) := old(scores[Opponent(fouler)]) + points]
      ensures 0 <= fouler < scores.Length ==> scores[fouler] == old(scores[fouler])
      ensures foulHistory == old(foulHistory) + [FoulRecord(fouler, Opponent(fouler), points, desc, now)]
      ensures potHistory == old(potHistory)
    {
      var opponent := Opponent(fouler);
      scores[opponent] := scores[opponent] + points;
      foulHistory := foulHistory + [FoulRecord(fouler, opponent, points, desc, now)];
    }

    /** `getScore`: reads one score and changes nothing. */
    method GetScore(player: nat) returns (s: int)
      requires player < scores.Length
      ensures s == scores[player]
    {
      s := scores[player];
    }

    /**
     * `reset`: the same array, refilled with 0, and fresh empty histories. The
     * resulting state does not depend on the state before, so `reset` is
     * idempotent.
     */
    method Reset()
      modifies scores, this`foulHistory, this`potHistory
      ensures scores == old(scores)
      ensures forall i :: 0 <= i < scores.Length ==> scores[i] == 0
      ensures foulHistory == [] && potHistory == []
    {
      forall i | 0 <= i < scores.Length {
        scores[i] := 0;
      }
      foulHistory := [];
      potHistory := [];
    }
  }
}
