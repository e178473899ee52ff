# Royal Game of Ur — rules engine model

A Dafny model of the rules engine of an Android app that plays the Royal Game
of Ur for two players, red (player 1) and blue (player 2). Each player has
seven pieces. Each has a track of 15 cells: cell 0 is the start gate and
cells 1..14 are on the board. Cells 5..12 are the middle lane the two players
share. Cells 4, 8 and 14 are rosettes. A piece that reaches position 15 is
borne off and scores a point. The first to seven points wins.

The app keeps the whole game in one immutable record (`GameState`), held by a
view model that replaces it on every operation. The model follows that split:

- `UrState` (`state.dfy`): the record as a datatype, the default record, the
  player toggle, scoring, the winner test and piece counting.
- `UrViewModel` (`viewmodel.dfy`): the `GameViewModel` class. It has one
  field, `state`, and each setter replaces one or two fields of it.
- `UrRules` (`rules.dfy`):
  - `Movable`, the legality of moving the piece on a cell, and
    `HighlightPieces`, the loop that marks the movable cells;
  - `AfterMove` and `MovePiece`, a move: bearing off, entering from the gate,
    capture;
  - `AfterResolve` and `Resolve`, settling the turn: the point for bearing
    off, the extra turn on a rosette, the winner, clearing the dice.
- `UrTurn` (`turn.dfy`): the rule code that the app keeps inside its screen
  code, lifted out as plain methods:
  - the roll, the sum of four 0/1 draws;
  - the check that nothing can move, and the skip of such a turn;
  - a click on a piece.
- `UrInvariants` (`invariants.dfy`): the conservation invariant. For each
  player, the pieces on cells 1..14, plus the pieces left, plus the score,
  equal 7. The gate is marked exactly when pieces are left. The two players
  never share a middle-lane cell. The module proves that the default record
  satisfies the invariant and that every allowed event keeps it, so every
  record reached from a new game satisfies it.

Every method that changes state is proved against a pure function of the old
record (`MovePiece` against `AfterMove`, `Roll` against `Rolled`, and so on).
The lemmas are stated about those functions.

Three points of the code's behaviour the model keeps as written:

- After a win, the code does not block further rolls or moves. It only
  opens a dialog whose button starts a new game. The model reports the winner
  (`Resolve` returns it) and freezes nothing.
- A click on a cell that is not marked is silently ignored. No error value
  is returned. `Click` then leaves the record unchanged.
- The gate is a boolean cell together with a counter. The model keeps both,
  as the code does, and proves that they agree: the gate is marked iff the
  counter is positive.

## Model

| member | source | states |
|---|---|---|
| `UrState.StartBoard` | app/src/main/java/com/guogua/ur/MainActivity.kt:86-87 | a new board has 15 cells and only the gate (cell 0) is occupied |
| `UrState.Other` | app/src/main/java/com/guogua/ur/MainActivity.kt:110-112 | the next player is always 1 or 2, and is red exactly when the current one is not red |
| `UrState.ScoreAdded` | app/src/main/java/com/guogua/ur/MainActivity.kt:101-107 | the total score grows by `points`, only the named player's score changes, and nothing else in the record changes |
| `UrState.DefaultState` | app/src/main/java/com/guogua/ur/MainActivity.kt:82-93 | the default record has scores 0, red to play, dice 0, the start phase, 7 pieces waiting for each player, and both boards with only the gate occupied |
| `UrState.WinnerOf` | app/src/main/java/com/guogua/ur/MainActivity.kt:460-467 | blue is reported iff blue's score is 7; red is reported iff red's score is 7 and blue's is not, since blue is tested last; no winner iff neither score is 7 |
| `UrViewModel.GameViewModel.constructor` | app/src/main/java/com/guogua/ur/MainActivity.kt:97 | a new holder holds the default record |
| `UrViewModel.GameViewModel.AddScore` | app/src/main/java/com/guogua/ur/MainActivity.kt:101-107 | the new record is the old one with `points` added to the player's score |
| `UrViewModel.GameViewModel.NextPlayer` | app/src/main/java/com/guogua/ur/MainActivity.kt:110-112 | only the current player changes, to the other player |
| `UrViewModel.GameViewModel.MovePiece` | app/src/main/java/com/guogua/ur/MainActivity.kt:115-117 | only the two boards change, to the given ones |
| `UrViewModel.GameViewModel.RollDice` | app/src/main/java/com/guogua/ur/MainActivity.kt:120-122 | only the dice value changes |
| `UrViewModel.GameViewModel.SetGameStep` | app/src/main/java/com/guogua/ur/MainActivity.kt:130-132 | only the phase changes |
| `UrViewModel.GameViewModel.SetPiecesLeft` | app/src/main/java/com/guogua/ur/MainActivity.kt:135-137 | only the two waiting-piece counters change |
| `UrViewModel.GameViewModel.ResetGame` | app/src/main/java/com/guogua/ur/MainActivity.kt:140-142 | the record becomes the default one, whatever it was |
| `UrRules.Movable` | app/src/main/java/com/guogua/ur/MainActivity.kt:504-516 | a piece may move only if it is the mover's own, the dice is at least 1 and it does not overshoot 15; a move past 15 is never legal |
| `UrRules.ZeroRollNoMove` | app/src/main/java/com/guogua/ur/MainActivity.kt:502-518 | with a dice of 0 no cell may move, since every target is the mover's own occupied cell |
| `UrRules.HighlightPieces` | app/src/main/java/com/guogua/ur/MainActivity.kt:494-521 | cell i is marked iff the mover occupies i and either i + dice = 15, or i + dice < 15, the mover does not occupy i + dice, and it is not the case that i + dice = 8 while the opponent holds 8; a marked cell is the mover's own and never overshoots 15 |
| `UrRules.AfterMove` | app/src/main/java/com/guogua/ur/MainActivity.kt:524-569 | bearing off clears only the source cell. Otherwise the source empties and the target fills. Leaving the gate takes one waiting piece, and the gate stays marked iff that was not the last one. A landing in 5..12 on an opposing piece sends it back to the opponent's gate with one more waiting piece; with no capture the opponent's board and counter are unchanged. A landing on 8 never captures. Scores, player and dice are unchanged, and the phase becomes repainting |
| `UrRules.MovePiece` | app/src/main/java/com/guogua/ur/MainActivity.kt:524-569 | working on copies and writing them back yields exactly `AfterMove` of the old record |
| `UrRules.AfterResolve` | app/src/main/java/com/guogua/ur/MainActivity.kt:450-471 | a landing on 15 adds exactly one point to the mover and none to the opponent. The turn passes iff the landing cell is not 4, 8 or 14, so bearing off passes it. The boards and counters are unchanged, and the dice ends at 0 in the start phase |
| `UrRules.Resolve` | app/src/main/java/com/guogua/ur/MainActivity.kt:450-471 | in the repainting phase the record becomes `AfterResolve` of the old one and the returned winner is the one the scores show. In any other phase nothing changes |
| `UrTurn.SumBounds` | app/src/main/java/com/guogua/ur/MainActivity.kt:308-312 | the total of n draws of 0 or 1 lies in 0..n |
| `UrTurn.SumDraws` | app/src/main/java/com/guogua/ur/MainActivity.kt:308-312 | the loop adds up all draws, giving a value between 0 and the number of draws |
| `UrTurn.Rolled` | app/src/main/java/com/guogua/ur/MainActivity.kt:307-316 | in the start phase a roll sets the dice and moves to the rolled phase; in any other phase it changes nothing; nothing else changes and a roll of 0..4 keeps the record well formed |
| `UrTurn.Roll` | app/src/main/java/com/guogua/ur/MainActivity.kt:307-316 | the record becomes `Rolled` with the sum of the four draws, a dice value in 0..4 |
| `UrTurn.Detected` | app/src/main/java/com/guogua/ur/MainActivity.kt:371-378 | the phase becomes no-move iff it was rolled and no cell may move; nothing else changes |
| `UrTurn.DetectNoMove` | app/src/main/java/com/guogua/ur/MainActivity.kt:370-378 | the record becomes `Detected` of the old one, and the marks returned are exactly the movable cells in the rolled phase and none otherwise; the extra zero-dice test agrees with the legality test |
| `UrTurn.Skipped` | app/src/main/java/com/guogua/ur/MainActivity.kt:328-335 | in the no-move phase the turn passes, the dice becomes 0 and the phase the start phase; boards, counters and scores are unchanged; in other phases nothing changes |
| `UrTurn.SkipTurn` | app/src/main/java/com/guogua/ur/MainActivity.kt:328-335 | the record becomes `Skipped` of the old one |
| `UrTurn.Click` | app/src/main/java/com/guogua/ur/MainActivity.kt:407-413 | a click moves the piece iff the phase is rolled and the cell may move, and then returns the landing position; otherwise nothing changes |
| `UrInvariants.OtherInvolution` | app/src/main/java/com/guogua/ur/MainActivity.kt:110-112 | toggling the player twice is the identity, and once always changes it |
| `UrInvariants.DefaultConsistent` | app/src/main/java/com/guogua/ur/MainActivity.kt:82-93 | the default record satisfies the conservation invariant for both players |
| `UrInvariants.WinnerCannotMove` | app/src/main/java/com/guogua/ur/MainActivity.kt:460-467 | in a consistent record, a mover whose score is 7 has no legal move |
| `UrInvariants.MoverKeepsCount` | app/src/main/java/com/guogua/ur/MainActivity.kt:535-549 | after a legal move the mover's pieces on cells 1..14, waiting pieces and score (with the pending point for bearing off) still add up to 7, and the gate is marked iff pieces wait |
| `UrInvariants.OpponentKeepsCount` | app/src/main/java/com/guogua/ur/MainActivity.kt:551-557 | after a legal move, with or without a capture, the opponent's pieces still add up to 7 and its gate is marked iff pieces wait |
| `UrInvariants.LaneStaysDisjoint` | app/src/main/java/com/guogua/ur/MainActivity.kt:551-557 | after a legal move no middle-lane cell (5..12) holds a piece of both players |
| `UrInvariants.MoveKeepsCounts` | app/src/main/java/com/guogua/ur/MainActivity.kt:524-569 | a legal move keeps both players' pieces adding up to 7, counting a borne-off piece as its pending point; it keeps the gate marking consistent and the middle lane unshared |
| `UrInvariants.MovePreservesConsistent` | app/src/main/java/com/guogua/ur/MainActivity.kt:450-471 | a legal move followed by its settlement keeps the invariant |
| `UrInvariants.Fire` | app/src/main/java/com/guogua/ur/MainActivity.kt:95-144 | every allowed event (roll, no-move check, skip, move with settlement, new game) yields a well-formed record |
| `UrInvariants.FirePreservesConsistent` | app/src/main/java/com/guogua/ur/MainActivity.kt:95-144 | every allowed event keeps the invariant |
| `UrInvariants.RunPreservesConsistent` | app/src/main/java/com/guogua/ur/MainActivity.kt:95-144 | any sequence of allowed events keeps the invariant |
| `UrInvariants.Reachable` | app/src/main/java/com/guogua/ur/MainActivity.kt:82-93 | every record reached from a new game is consistent, and both scores stay within 0..7 |
| `UrInvariants.WinOnlyByBearingOff` | app/src/main/java/com/guogua/ur/MainActivity.kt:450-467 | from a record with no winner, a move makes a winner only by bearing off the mover's last piece, and the winner is the mover |
| `UrInvariants.OpeningOnRosette` | app/src/main/java/com/guogua/ur/MainActivity.kt:494-569 | in a new game a roll of 4 lets only a waiting piece move; it lands on rosette 4 with 6 pieces still waiting, and red keeps the turn |

## Left out

- The drawing of the board, pieces, dice, and dialog; the board-to-track
  layout tables and the hit test. These are presentation only.
- The click handler's row test, which checks that the clicked row belongs to
  the mover. This is hit-testing too. `Click` takes a track index in 0..14.
  The screen's layout table holds -1 for one column, and a click there would
  index the mark list out of range. That is a fault of the screen layout,
  not of the rules, so it is not modelled.
- The random source: the four draws are a parameter of `Roll`. The binomial
  distribution of the dice is a property of that source and is not modelled.
- The 1.5-second pause before a no-move turn is skipped: `SkipTurn` is
  instantaneous.
- `cellSize` and `setCellSize`: a floating-point layout value with no role in
  the rules.
- Logging, the recomposition machinery and the activity lifecycle.
- The screen's remembered landing position, winner and dialog flag. The
  landing position is the result of `Click` and the parameter of `Resolve`.
  The winner is the result of `Resolve`. The dialog's button calls
  `ResetGame`.
- The repainting phase is a transient record in which a borne-off piece has
  left the board but not yet been scored. The invariant is stated for
  whole turns, a move followed by its settlement (`Fire` with `MoveEvent`),
  because the app settles the move at its very next recomposition.
- `Run` treats an event that the app would ignore, such as a click on an
  unmarked cell, as ending the run. The methods themselves model those
  clicks as no-ops (`Click`, `Roll`, `SkipTurn`, `Resolve`).
- Kotlin's 32-bit `Int`: scores and counters are unbounded integers.
  `Reachable` shows that they stay within 0..7, so wrap-around cannot arise.
