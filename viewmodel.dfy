/*
 * The state holder of the app. It owns one `GameState` and every operation
 * replaces it by a copy in which one or two fields differ.
 */
module UrViewModel {
  import opened UrState

  class GameViewModel {
    var state: GameState

    /** A fresh holder starts from the default record. */
    constructor ()
      ensures state == DefaultState()
    {
      state := DefaultState();
    }

    /** Adds `points` to the score of `player` (red for 1, blue otherwise). */
    method AddScore(points: int, player: int)
      modifies this
      ensures state == ScoreAdded(old(state), points, player)
    {
      if player == Red {
        state := state.(redScore := state.redScore + points);
      } else {
        state := state.(blueScore := state.blueScore + points);
      }
    }

    /** Hands the turn to the other player. */
    method NextPlayer()
      modifies this
      ensures state == old(state).(currentPlayer := Other(old(state).currentPlayer))
    {
      state := state.(currentPlayer := if state.currentPlayer == Red then Blue else Red);
    }

    /** Replaces both boards. */
    method MovePiece(redNewPositions: seq<bool>, blueNewPositions: seq<bool>)
      modifies this
      ensures state == old(state).(redPieces := redNewPositions, bluePieces := blueNewPositions)
    {
      state := state.(redPieces := redNewPositions, bluePieces := blueNewPositions);
    }

    /** Records the dice value. */
    method RollDice(n: int)
      modifies this
      ensures state == old(state).(diceNum := n)
    {
      state := state.(diceNum := n);
    }

    /** Moves to phase `gs`. */
    method SetGameStep(gs: GameStep)
      modifies this
      ensures state == old(state).(step := gs)
    {
      state := state.(step := gs);
    }

    /** Replaces both counts of pieces waiting at the gate. */
    method SetPiecesLeft(r: int, b: int)
      modifies this
      ensures state == old(state).(redPiecesLeft := r, bluePiecesLeft := b)
    {
      state := state.(redPiecesLeft := r, bluePiecesLeft := b);
    }

    /** Starts a new game. */
    method ResetGame()
      modifies this
      ensures state == DefaultState()
    {
      state := DefaultState();
    }
  }
}
