/*
 * The rule code of the app's screen, lifted out of the drawing code: the
 * roll button, the check that nothing can move, the timed skip of such a
 * turn, and a click on a piece.
 */
module UrTurn {
  import opened UrState
  import opened UrViewModel
  import opened UrRules

  /** One draw of the two-valued random source: 0 or 1. */
  type Bit = x: int | 0 <= x <= 1

  /** The total of a run of draws. */
  function Sum(draws: seq<Bit>): int
  {
    if draws == [] then 0 else draws[0] + Sum(draws[1..])
  }

  /** A total of `n` draws lies between 0 and `n`. */
  lemma {:induction false} SumBounds(draws: seq<Bit>)
    ensures 0 <= Sum(draws) <= |draws|
  {
    if draws != [] {
      SumBounds(draws[1..]);
    }
  }

  /** Adds up the draws one by one. */
  method SumDraws(draws: seq<Bit>) returns (randomNumber: int)
    ensures randomNumber == Sum(draws)
    ensures 0 <= randomNumber <= |draws|
  {
    randomNumber := 0;
    for i := 0 to |draws|
      invariant randomNumber + Sum(draws[i..]) == Sum(draws)
    {
      assert draws[i..][1..] == draws[i + 1..];
      randomNumber := randomNumber + draws[i];
    }
    assert draws[|draws|..] == [];
    SumBounds(draws);
  }

  /** The record after a roll of `n`; out of the start phase the roll is ignored. */
  function Rolled(s: GameState, n: int): (r: GameState)
    ensures s.step == GameStart ==> r.step == DiceRolled && r.diceNum == n
    ensures s.step != GameStart ==> r == s
    ensures r.(diceNum := s.diceNum, step := s.step) == s
    ensures WellFormed(s) && 0 <= n <= 4 ==> WellFormed(r)
  {
    if s.step == GameStart then s.(diceNum := n, step := DiceRolled) else s
  }

  /**
   * The roll button: in the start phase the dice shows the total of four
   * draws of 0 or 1, and the phase moves on.
   */
  method Roll(vm: GameViewModel, draws: seq<Bit>)
    requires |draws| == 4
    modifies vm
    ensures vm.state == Rolled(old(vm.state), Sum(draws))
    ensures old(vm.state).step == GameStart ==> 0 <= vm.state.diceNum <= 4
  {
    if vm.state.step == GameStart {
      var randomNumber := SumDraws(draws);
      vm.RollDice(randomNumber);
      vm.SetGameStep(DiceRolled);
    }
  }

  /** The record after the check for a turn in which nothing can move. */
  function Detected(s: GameState): (r: GameState)
    requires WellFormed(s)
    ensures r.step == NoMove <==> s.step == NoMove || (s.step == DiceRolled && NoLegalMove(s))
    ensures r.step != NoMove ==> r == s
    ensures r.(step := s.step) == s
  {
    if s.step == DiceRolled && NoLegalMove(s) then s.(step := NoMove) else s
  }

  /**
   * After a roll, computes the cells that may move and, when there are none
   * or the roll is zero, switches to the no-move phase. Returns the marks the
   * screen shows (none outside the rolled phase).
   */
  method DetectNoMove(vm: GameViewModel) returns (highlight: seq<bool>)
    requires WellFormed(vm.state)
    modifies vm
    ensures vm.state == Detected(old(vm.state))
    ensures |highlight| == Cells
    ensures forall i :: 0 <= i < Cells ==>
      (highlight[i] <==> old(vm.state).step == DiceRolled && Movable(old(vm.state), i))
  {
    highlight := seq(Cells, _ => false);
    if vm.state.step == DiceRolled {
      highlight := HighlightPieces(vm.state);
      if true !in highlight || vm.state.diceNum == 0 {
        if vm.state.diceNum == 0 {
          ZeroRollNoMove(vm.state);
        } else {
          assert forall i :: 0 <= i < Cells ==> !highlight[i];
        }
        vm.SetGameStep(NoMove);
      } else {
        var i :| 0 <= i < |highlight| && highlight[i];
        assert Movable(vm.state, i);
      }
    }
  }

  /** The record after a no-move turn is skipped. */
  function Skipped(s: GameState): (r: GameState)
    ensures s.step == NoMove ==>
      r.currentPlayer == Other(s.currentPlayer) && r.diceNum == 0 && r.step == GameStart
    ensures s.step != NoMove ==> r == s
    ensures r.(currentPlayer := s.currentPlayer, diceNum := s.diceNum, step := s.step) == s
  {
    if s.step == NoMove then s.(currentPlayer := Other(s.currentPlayer), diceNum := 0, step := GameStart)
    else s
  }

  /**
   * The skip the screen runs (after a pause) once the phase is no-move: the
   * other player is to roll.
   */
  method SkipTurn(vm: GameViewModel)
    modifies vm
    ensures vm.state == Skipped(old(vm.state))
  {
    if vm.state.step == NoMove {
      vm.NextPlayer();
      vm.RollDice(0);
      vm.SetGameStep(GameStart);
    }
  }

  /**
   * A click on cell `boardID` of the mover's track: the piece moves only when
   * the cell is marked, that is, in the rolled phase and when it may move.
   * Returns the landing position, or -1 when nothing moved.
   */
  method Click(vm: GameViewModel, boardID: int) returns (newPosition: int)
    requires WellFormed(vm.state) && 0 <= boardID < Cells
    modifies vm
    ensures old(vm.state).step == DiceRolled && Movable(old(vm.state), boardID) ==>
      newPosition == boardID + old(vm.state).diceNum && vm.state == AfterMove(old(vm.state), boardID)
    ensures !(old(vm.state).step == DiceRolled && Movable(old(vm.state), boardID)) ==>
      newPosition == -1 && vm.state == old(vm.state)
  {
    var highlight := seq(Cells, _ => false);
    if vm.state.step == DiceRolled {
      highlight := HighlightPieces(vm.state);
    }
    if highlight[boardID] {
      newPosition := boardID + vm.state.diceNum;
      MovePiece(boardID, vm);
    } else {
      newPosition := -1;
    }
  }
}
