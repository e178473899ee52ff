/*
 * The rules of a move: which pieces may move for the current dice value,
 * what a move does to both boards and counters, and how the turn is settled
 * afterwards (scoring, extra turn on a rosette, clearing the dice).
 */
module UrRules {
  import opened UrState
  import opened UrViewModel

  /** Cells 4, 8 and 14 are rosettes: landing there keeps the turn. */
  predicate IsRosette(cell: int)
  {
    cell == 4 || cell == 8 || cell == 14
  }

  /**
   * The piece of the player to move on cell `i` may move: it lands exactly on
   * 15 (borne off), or it stays on the track, does not land on one of the
   * mover's own pieces, and does not land on the shared rosette 8 while the
   * opponent holds it.
   */
  predicate Movable(s: GameState, i: int)
    requires WellFormed(s) && 0 <= i < Cells
    ensures Movable(s, i) ==> Mine(s)[i] && 1 <= s.diceNum && i + s.diceNum <= Cells
    ensures i + s.diceNum > Cells ==> !Movable(s, i)
  {
    var t := i + s.diceNum;
    Mine(s)[i] &&
    (t == Cells || (t < Cells && !Mine(s)[t] && !(t == 8 && Theirs(s)[8])))
  }

  /** The phase check of the app: nothing at all may move. */
  predicate NoLegalMove(s: GameState)
    requires WellFormed(s)
  {
    forall i :: 0 <= i < Cells ==> !Movable(s, i)
  }

  /** A roll of zero leaves every piece where it is: nothing may move. */
  lemma ZeroRollNoMove(s: GameState)
    requires WellFormed(s) && s.diceNum == 0
    ensures NoLegalMove(s)
  {
  }

  /**
   * Marks every cell whose piece may move this turn, by a pass over the
   * mover's board.
   */
  method HighlightPieces(s: GameState) returns (highlight: seq<bool>)
    requires WellFormed(s)
    ensures |highlight| == Cells
    ensures forall i :: 0 <= i < Cells ==> (highlight[i] <==> Movable(s, i))
    ensures forall i :: 0 <= i < Cells && highlight[i] ==> Mine(s)[i] && i + s.diceNum <= Cells
  {
    var marks := new bool[Cells](_ => false);
    var currentPlayerPieces := if s.currentPlayer == Red then s.redPieces else s.bluePieces;
    var opponentPieces := if s.currentPlayer == Red then s.bluePieces else s.redPieces;
    for index := 0 to Cells
      invariant forall i :: 0 <= i < index ==> (marks[i] <==> Movable(s, i))
      invariant forall i :: index <= i < Cells ==> !marks[i]
    {
      if currentPlayerPieces[index] {
        var target := index + s.diceNum;
        if target > Cells {
          continue;
        } else if target == Cells {
          marks[index] := true;
        } else if !currentPlayerPieces[target] {
          if !(target == 8 && opponentPieces[8]) {
            marks[index] := true;
          }
        }
      }
    }
    highlight := marks[..];
  }

  /** A move of the piece on `click` by the dice value captures an opposing piece. */
  predicate Captures(s: GameState, click: int)
    requires WellFormed(s) && 0 <= click < Cells
  {
    var t := click + s.diceNum;
    5 <= t <= 12 && Theirs(s)[t]
  }

  /**
   * The mover's board after the piece on `click` goes to `t`. Leaving the
   * gate clears cell 0 only when the last waiting piece leaves.
   */
  function MoverBoard(mine: seq<bool>, click: int, t: int, left: int): seq<bool>
    requires 0 <= click < |mine| && 0 <= t <= |mine|
  {
    if t == |mine| then mine[click := false]
    else
      var moved := mine[click := false][t := true];
      if click == 0 && left != 1 then moved[0 := true] else moved
  }

  /**
   * The record after the current player moves the piece on `click` by the
   * dice value, before the turn is settled.
   */
  function AfterMove(s: GameState, click: int): (r: GameState)
    requires WellFormed(s) && 0 <= click < Cells && Movable(s, click)
    ensures WellFormed(r) && r.step == Repainting
    ensures r.currentPlayer == s.currentPlayer && r.diceNum == s.diceNum
    ensures r.redScore == s.redScore && r.blueScore == s.blueScore
    // bearing off: only the source cell changes
    ensures click + s.diceNum == Cells ==>
      Mine(r) == Mine(s)[click := false] && MyLeft(r) == MyLeft(s) &&
      Theirs(r) == Theirs(s) && TheirLeft(r) == TheirLeft(s)
    // staying on the track: the source empties and the target fills
    ensures click + s.diceNum < Cells ==>
      Mine(r)[click + s.diceNum] &&
      (click != 0 ==> !Mine(r)[click] && Mine(r)[0] == Mine(s)[0] && MyLeft(r) == MyLeft(s)) &&
      (click == 0 ==> MyLeft(r) == MyLeft(s) - 1 && (Mine(r)[0] <==> MyLeft(s) != 1)) &&
      forall i :: 0 < i < Cells && i != click && i != click + s.diceNum ==> Mine(r)[i] == Mine(s)[i]
    // a capture sends the opposing piece back to its gate
    ensures click + s.diceNum < Cells && Captures(s, click) ==>
      !Theirs(r)[click + s.diceNum] && Theirs(r)[0] && TheirLeft(r) == TheirLeft(s) + 1 &&
      forall i :: 0 < i < Cells && i != click + s.diceNum ==> Theirs(r)[i] == Theirs(s)[i]
    ensures !Captures(s, click) ==> Theirs(r) == Theirs(s) && TheirLeft(r) == TheirLeft(s)
    // the shared rosette never captures
    ensures click + s.diceNum == 8 ==> Theirs(r) == Theirs(s) && TheirLeft(r) == TheirLeft(s)
  {
    var t := click + s.diceNum;
    var mine := MoverBoard(Mine(s), click, t, MyLeft(s));
    var myLeft := if t < Cells && click == 0 then MyLeft(s) - 1 else MyLeft(s);
    var captured := t < Cells && Captures(s, click);
    var theirs := if captured then Theirs(s)[t := false][0 := true] else Theirs(s);
    var theirLeft := if captured then TheirLeft(s) + 1 else TheirLeft(s);
    if s.currentPlayer == Red then
      s.(redPieces := mine, bluePieces := theirs,
         redPiecesLeft := myLeft, bluePiecesLeft := theirLeft, step := Repainting)
    else
      s.(redPieces := theirs, bluePieces := mine,
         redPiecesLeft := theirLeft, bluePiecesLeft := myLeft, step := Repainting)
  }

  /**
   * Moves the current player's piece on `clickIndex` by the dice value,
   * working on copies of the two boards and counters and writing them back.
   */
  method MovePiece(clickIndex: int, vm: GameViewModel)
    requires WellFormed(vm.state) && 0 <= clickIndex < Cells && Movable(vm.state, clickIndex)
    modifies vm
    ensures vm.state == AfterMove(old(vm.state), clickIndex)
  {
    var s := vm.state;
    var newPosition := clickIndex + s.diceNum;
    var currentPlayerPieces := if s.currentPlayer == Red then s.redPieces else s.bluePieces;
    var opponentPieces := if s.currentPlayer == Red then s.bluePieces else s.redPieces;
    var currentPlayerPiecesLeft := if s.currentPlayer == Red then s.redPiecesLeft else s.bluePiecesLeft;
    var opponentPiecesLeft := if s.currentPlayer == Red then s.bluePiecesLeft else s.redPiecesLeft;
    if newPosition == Cells && currentPlayerPieces[clickIndex] {
      currentPlayerPieces := currentPlayerPieces[clickIndex := false];
    } else {
      currentPlayerPieces := currentPlayerPieces[clickIndex := false];
      currentPlayerPieces := currentPlayerPieces[newPosition := true];
      if clickIndex == 0 {
        if currentPlayerPiecesLeft != 1 {
          currentPlayerPieces := currentPlayerPieces[0 := true];
        }
        currentPlayerPiecesLeft := currentPlayerPiecesLeft - 1;
      }
      if 5 <= newPosition <= 12 && opponentPieces[newPosition] {
        opponentPieces := opponentPieces[newPosition := false];
        opponentPiecesLeft := opponentPiecesLeft + 1;
        if !opponentPieces[0] {
          opponentPieces := opponentPieces[0 := true];
        }
      }
    }
    assert opponentPieces == if newPosition < Cells && Captures(s, clickIndex)
      then Theirs(s)[newPosition := false][0 := true] else Theirs(s);
    if s.currentPlayer == Red {
      vm.MovePiece(currentPlayerPieces, opponentPieces);
      vm.SetPiecesLeft(currentPlayerPiecesLeft, opponentPiecesLeft);
    } else {
      vm.MovePiece(opponentPieces, currentPlayerPieces);
      vm.SetPiecesLeft(opponentPiecesLeft, currentPlayerPiecesLeft);
    }
    vm.SetGameStep(Repainting);
  }

  /**
   * Settles the turn after a move that landed on `newPosition`: bearing off
   * scores a point for the mover, the turn passes unless the piece landed on
   * a rosette, and the dice is cleared for the next roll.
   */
  function AfterResolve(s: GameState, newPosition: int): (r: GameState)
    ensures r.step == GameStart && r.diceNum == 0
    ensures r.currentPlayer == if IsRosette(newPosition) then s.currentPlayer else Other(s.currentPlayer)
    ensures newPosition == Cells ==>
      (s.currentPlayer == Red ==> r.redScore == s.redScore + 1 && r.blueScore == s.blueScore) &&
      (s.currentPlayer != Red ==> r.blueScore == s.blueScore + 1 && r.redScore == s.redScore)
    ensures newPosition != Cells ==> r.redScore == s.redScore && r.blueScore == s.blueScore
    ensures r.redPieces == s.redPieces && r.bluePieces == s.bluePieces
    ensures r.redPiecesLeft == s.redPiecesLeft && r.bluePiecesLeft == s.bluePiecesLeft
  {
    var scored := if newPosition == Cells then ScoreAdded(s, 1, s.currentPlayer) else s;
    var switched := if !IsRosette(newPosition) then scored.(currentPlayer := Other(scored.currentPlayer)) else scored;
    switched.(diceNum := 0, step := GameStart)
  }

  /**
   * The settlement as the app runs it once the phase is `Repainting`;
   * returns the winner to announce, if any.
   */
  method Resolve(vm: GameViewModel, newPosition: int) returns (winner: Option<int>)
    modifies vm
    ensures old(vm.state).step == Repainting ==>
      vm.state == AfterResolve(old(vm.state), newPosition) && winner == WinnerOf(vm.state)
    ensures old(vm.state).step != Repainting ==> vm.state == old(vm.state) && winner == None
  {
    winner := None;
    if vm.state.step == Repainting {
      if newPosition == Cells {
        vm.AddScore(1, vm.state.currentPlayer);
      }
      if newPosition != 4 && newPosition != 8 && newPosition != 14 {
        vm.NextPlayer();
      }
      if vm.state.redScore == PiecesPerPlayer {
        winner := Some(Red);
      }
      if vm.state.blueScore == PiecesPerPlayer {
        winner := Some(Blue);
      }
      vm.RollDice(0);
      vm.SetGameStep(GameStart);
    }
  }
}
