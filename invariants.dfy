/*
 * What every game played from the default record keeps: each player's seven
 * pieces are all accounted for (on the board, waiting at the gate, or borne
 * off and scored), the gate shows a piece exactly when some wait, and the
 * two players never share a cell of the middle lane.
 */
module UrInvariants {
  import opened UrState
  import opened UrRules
  import opened UrTurn

  /** One player's pieces add up to seven; the gate is marked iff pieces wait. */
  ghost predicate PlayerConsistent(board: seq<bool>, left: int, score: int)
  {
    |board| == Cells && left >= 0 && score >= 0 &&
    OnTrack(board) + left + score == PiecesPerPlayer &&
    (board[0] <==> left > 0)
  }

  /** No cell of the middle lane (5..12) holds a piece of both players. */
  ghost predicate LaneDisjoint(a: seq<bool>, b: seq<bool>)
    requires |a| == Cells && |b| == Cells
  {
    forall i :: 5 <= i <= 12 ==> !(a[i] && b[i])
  }

  ghost predicate Consistent(s: GameState)
  {
    WellFormed(s) &&
    PlayerConsistent(s.redPieces, s.redPiecesLeft, s.redScore) &&
    PlayerConsistent(s.bluePieces, s.bluePiecesLeft, s.blueScore) &&
    LaneDisjoint(s.redPieces, s.bluePieces)
  }

  /** Applying `Other` twice gives back the same player, and applying it once always changes the player. */
  lemma OtherInvolution(p: int)
    requires p == Red || p == Blue
    ensures Other(Other(p)) == p && Other(p) != p
  {
  }

  /** The default record is consistent. */
  lemma DefaultConsistent()
    ensures Consistent(DefaultState())
  {
    OnTrackZero(StartBoard());
  }

  /** A player whose score is seven has no piece left to move. */
  lemma WinnerCannotMove(s: GameState)
    requires Consistent(s) && MyScore(s) == PiecesPerPlayer
    ensures NoLegalMove(s)
  {
    OnTrackZero(Mine(s));
  }

  /** The mover's board after a legal move keeps the mover's pieces adding up to seven. */
  lemma {:induction false} MoverBoardCounts(m: seq<bool>, c: int, t: int, left: int, score: int)
    requires PlayerConsistent(m, left, score)
    requires 0 <= c < t <= Cells && t <= c + 4 && m[c] && (t < Cells ==> !m[t])
    ensures t == Cells ==> PlayerConsistent(MoverBoard(m, c, t, left), left, score + 1)
    ensures t < Cells ==>
      PlayerConsistent(MoverBoard(m, c, t, left), if c == 0 then left - 1 else left, score)
  {
    var m1 := m[c := false];
    OnTrackUpdate(m, c, false);
    if t < Cells {
      var m2 := m1[t := true];
      OnTrackUpdate(m1, t, true);
      if c == 0 && left != 1 {
        OnTrackUpdate(m2, 0, true);
      }
    }
  }

  /** Sending a captured piece back to its gate keeps its owner's pieces adding up to seven. */
  lemma {:induction false} CapturedBoardCounts(b: seq<bool>, t: int, left: int, score: int)
    requires PlayerConsistent(b, left, score)
    requires 1 <= t < Cells && b[t]
    ensures PlayerConsistent(b[t := false][0 := true], left + 1, score)
  {
    OnTrackUpdate(b, t, false);
    OnTrackUpdate(b[t := false], 0, true);
  }

  /** The mover's pieces still add up to seven, the bearing-off point still to be scored. */
  lemma MoverKeepsCount(s: GameState, c: int)
    requires Consistent(s) && 0 <= c < Cells && Movable(s, c)
    ensures var bonus := if c + s.diceNum == Cells then 1 else 0;
      PlayerConsistent(Mine(AfterMove(s, c)), MyLeft(AfterMove(s, c)), MyScore(s) + bonus)
  {
    var t := c + s.diceNum;
    assert PlayerConsistent(Mine(s), MyLeft(s), MyScore(s));
    assert Mine(AfterMove(s, c)) == MoverBoard(Mine(s), c, t, MyLeft(s));
    MoverBoardCounts(Mine(s), c, t, MyLeft(s), MyScore(s));
  }

  /** The opponent's pieces still add up to seven, a captured piece back at its gate. */
  lemma OpponentKeepsCount(s: GameState, c: int)
    requires Consistent(s) && 0 <= c < Cells && Movable(s, c)
    ensures PlayerConsistent(Theirs(AfterMove(s, c)), TheirLeft(AfterMove(s, c)), TheirScore(s))
  {
    var t := c + s.diceNum;
    assert PlayerConsistent(Theirs(s), TheirLeft(s), TheirScore(s));
    if t < Cells && Captures(s, c) {
      assert Theirs(AfterMove(s, c)) == Theirs(s)[t := false][0 := true];
      CapturedBoardCounts(Theirs(s), t, TheirLeft(s), TheirScore(s));
    }
  }

  /** After a legal move the two players still share no middle-lane cell. */
  lemma LaneStaysDisjoint(s: GameState, c: int)
    requires Consistent(s) && 0 <= c < Cells && Movable(s, c)
    ensures LaneDisjoint(Mine(AfterMove(s, c)), Theirs(AfterMove(s, c)))
  {
    var r := AfterMove(s, c);
    var t := c + s.diceNum;
    assert LaneDisjoint(Mine(s), Theirs(s));
    forall i | 5 <= i <= 12
      ensures !(Mine(r)[i] && Theirs(r)[i])
    {
      if i == t {
        assert !Theirs(r)[i];
      } else {
        assert Theirs(r)[i] == Theirs(s)[i];
        assert Mine(r)[i] ==> Mine(s)[i];
      }
    }
  }

  /**
   * A legal move keeps the mover's and the opponent's counts, seen from the
   * mover, with the point for bearing off still to be added to the score.
   */
  lemma MoveKeepsCounts(s: GameState, c: int)
    requires Consistent(s) && 0 <= c < Cells && Movable(s, c)
    ensures var r := AfterMove(s, c);
      var bonus := if c + s.diceNum == Cells then 1 else 0;
      PlayerConsistent(Mine(r), MyLeft(r), MyScore(s) + bonus) &&
      PlayerConsistent(Theirs(r), TheirLeft(r), TheirScore(s)) &&
      LaneDisjoint(Mine(r), Theirs(r))
  {
    MoverKeepsCount(s, c);
    OpponentKeepsCount(s, c);
    LaneStaysDisjoint(s, c);
  }

  /** A whole turn (the move, then its settlement) keeps the record consistent. */
  lemma MovePreservesConsistent(s: GameState, c: int)
    requires Consistent(s) && 0 <= c < Cells && Movable(s, c)
    ensures Consistent(AfterResolve(AfterMove(s, c), c + s.diceNum))
  {
    MoveKeepsCounts(s, c);
  }

  /** The things that happen to a game: roll, no-move check, skip, move, new game. */
  datatype Event = RollEvent(total: int) | NoMoveCheck | SkipEvent | MoveEvent(cell: int) | ResetEvent

  /** What the app allows: a roll of 0..4, and a move only of a marked cell after a roll. */
  predicate Enabled(s: GameState, e: Event)
    requires WellFormed(s)
  {
    match e
    case RollEvent(n) => 0 <= n <= 4
    case MoveEvent(c) => s.step == DiceRolled && 0 <= c < Cells && Movable(s, c)
    case _ => true
  }

  /** The record after event `e`; a move is followed by its settlement. */
  function Fire(s: GameState, e: Event): (r: GameState)
    requires WellFormed(s) && Enabled(s, e)
    ensures WellFormed(r)
  {
    match e
    case RollEvent(n) => Rolled(s, n)
    case NoMoveCheck => Detected(s)
    case SkipEvent => Skipped(s)
    case MoveEvent(c) => AfterResolve(AfterMove(s, c), c + s.diceNum)
    case ResetEvent => DefaultState()
  }

  /** Plays `events` from `s`; None when one of them is not allowed. */
  function Run(s: GameState, events: seq<Event>): Option<GameState>
    requires WellFormed(s)
    decreases |events|
  {
    if events == [] then Some(s)
    else if Enabled(s, events[0]) then Run(Fire(s, events[0]), events[1..])
    else None
  }

  /** Every event keeps the record consistent. */
  lemma FirePreservesConsistent(s: GameState, e: Event)
    requires Consistent(s) && Enabled(s, e)
    ensures Consistent(Fire(s, e))
  {
    match e
    case MoveEvent(c) => MovePreservesConsistent(s, c);
    case ResetEvent => DefaultConsistent();
    case _ =>
  }

  /** Any run of allowed events keeps the record consistent. */
  lemma {:induction false} RunPreservesConsistent(s: GameState, events: seq<Event>)
    requires Consistent(s)
    ensures Run(s, events).Some? ==> Consistent(Run(s, events).value)
    decreases |events|
  {
    if events != [] && Enabled(s, events[0]) {
      FirePreservesConsistent(s, events[0]);
      RunPreservesConsistent(Fire(s, events[0]), events[1..]);
    }
  }

  /**
   * Every record reached from a new game is consistent, so both scores stay
   * within 0..7.
   */
  lemma Reachable(events: seq<Event>)
    requires Run(DefaultState(), events).Some?
    ensures Consistent(Run(DefaultState(), events).value)
    ensures var r := Run(DefaultState(), events).value;
      0 <= r.redScore <= PiecesPerPlayer && 0 <= r.blueScore <= PiecesPerPlayer
  {
    DefaultConsistent();
    RunPreservesConsistent(DefaultState(), events);
  }

  /** A winner is only ever announced after the mover bears off its last piece. */
  lemma WinOnlyByBearingOff(s: GameState, c: int)
    requires Consistent(s) && 0 <= c < Cells && Movable(s, c)
    requires WinnerOf(s) == None
    ensures var r := AfterResolve(AfterMove(s, c), c + s.diceNum);
      WinnerOf(r).Some? ==>
        c + s.diceNum == Cells && WinnerOf(r) == Some(s.currentPlayer) &&
        MyLeft(AfterMove(s, c)) == 0 && OnTrack(Mine(AfterMove(s, c))) == 0
  {
    MoveKeepsCounts(s, c);
  }

  /** Opening of a game: a roll of 4 lets only a waiting piece move, onto rosette 4. */
  lemma OpeningOnRosette()
    ensures var s := Rolled(DefaultState(), 4);
      Movable(s, 0) && (forall i :: 1 <= i < Cells ==> !Movable(s, i)) &&
      var r := Fire(s, MoveEvent(0));
      r.redPieces[4] && r.redPieces[0] && r.redPiecesLeft == 6 &&
      r.currentPlayer == Red && r.step == GameStart && r.diceNum == 0
  {
  }
}
