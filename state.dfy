/*
 * The game record of the Royal Game of Ur app: an immutable value that every
 * view-model operation replaces by an updated copy.
 *
 * Each player has a track of 15 cells, indexed 0..14. Cell 0 is the start
 * gate, where the pieces not yet entered wait; cells 1..14 are on the board.
 * A piece that reaches position 15 is borne off: 15 is never an index, the
 * piece simply leaves the board and its owner scores one point.
 */
module UrState {

  /** Length of one player's track (cells 0..14). */
  const Cells := 15
  /** Pieces each player owns. */
  const PiecesPerPlayer := 7
  /** Player numbers as the app stores them. */
  const Red := 1
  const Blue := 2

  /** The phases the app walks through in one turn. */
  datatype GameStep = GameStart | DiceRolled | Repainting | NoMove

  /** The record the view model holds; the layout-only `cellSize` is not modelled. */
  datatype GameState = GameState(
    redScore: int,
    blueScore: int,
    currentPlayer: int,
    redPieces: seq<bool>,
    bluePieces: seq<bool>,
    diceNum: int,
    step: GameStep,
    redPiecesLeft: int,
    bluePiecesLeft: int)

  datatype Option<T> = None | Some(value: T)

  /** The board a player starts with: only the gate is occupied. */
  function StartBoard(): (b: seq<bool>)
    ensures |b| == Cells && b[0]
    ensures forall i :: 1 <= i < |b| ==> !b[i]
  {
    seq(Cells, i => i == 0)
  }

  /** The record built with every default value. */
  function DefaultState(): (s: GameState)
    ensures s.redScore == 0 && s.blueScore == 0 && s.currentPlayer == Red
    ensures s.redPieces == StartBoard() && s.bluePieces == StartBoard()
    ensures s.diceNum == 0 && s.step == GameStart
    ensures s.redPiecesLeft == PiecesPerPlayer && s.bluePiecesLeft == PiecesPerPlayer
  {
    GameState(0, 0, Red, StartBoard(), StartBoard(), 0, GameStart, PiecesPerPlayer, PiecesPerPlayer)
  }

  /** The player who moves after `p`; anything but red counts as blue. */
  function Other(p: int): (q: int)
    ensures q == Red || q == Blue
    ensures q == Red <==> p != Red
  {
    if p == Red then Blue else Red
  }

  /** The shape every reachable record has. */
  predicate WellFormed(s: GameState)
  {
    |s.redPieces| == Cells && |s.bluePieces| == Cells &&
    0 <= s.diceNum <= 4 &&
    (s.currentPlayer == Red || s.currentPlayer == Blue)
  }

  // The boards, counters and scores seen from the player to move.

  function Mine(s: GameState): seq<bool>
  {
    if s.currentPlayer == Red then s.redPieces else s.bluePieces
  }

  function Theirs(s: GameState): seq<bool>
  {
    if s.currentPlayer == Red then s.bluePieces else s.redPieces
  }

  function MyLeft(s: GameState): int
  {
    if s.currentPlayer == Red then s.redPiecesLeft else s.bluePiecesLeft
  }

  function TheirLeft(s: GameState): int
  {
    if s.currentPlayer == Red then s.bluePiecesLeft else s.redPiecesLeft
  }

  function MyScore(s: GameState): int
  {
    if s.currentPlayer == Red then s.redScore else s.blueScore
  }

  function TheirScore(s: GameState): int
  {
    if s.currentPlayer == Red then s.blueScore else s.redScore
  }

  /** `s` with `points` added to the score of `player` (any player but red is blue). */
  function ScoreAdded(s: GameState, points: int, player: int): (r: GameState)
    ensures r.redScore + r.blueScore == s.redScore + s.blueScore + points
    ensures player == Red ==> r.blueScore == s.blueScore
    ensures player != Red ==> r.redScore == s.redScore
    ensures r.(redScore := s.redScore, blueScore := s.blueScore) == s
  {
    if player == Red then s.(redScore := s.redScore + points)
    else s.(blueScore := s.blueScore + points)
  }

  /** The winner the app announces: blue is tested last, so it prevails. */
  function WinnerOf(s: GameState): (w: Option<int>)
    ensures w == Some(Blue) <==> s.blueScore == PiecesPerPlayer
    ensures w == Some(Red) <==> s.redScore == PiecesPerPlayer && s.blueScore != PiecesPerPlayer
    ensures w == None <==> s.redScore != PiecesPerPlayer && s.blueScore != PiecesPerPlayer
  {
    if s.blueScore == PiecesPerPlayer then Some(Blue)
    else if s.redScore == PiecesPerPlayer then Some(Red)
    else None
  }

  // Counting the pieces on a track.

  function Ord(b: bool): nat { if b then 1 else 0 }

  /** Number of occupied cells of `b`. */
  function CountTrue(b: seq<bool>): (n: nat)
    ensures n <= |b|
  {
    if b == [] then 0 else Ord(b[0]) + CountTrue(b[1..])
  }

  /** Number of pieces on the board proper (cells 1..14); the gate is not counted. */
  function OnTrack(b: seq<bool>): nat
    requires |b| >= 1
  {
    CountTrue(b[1..])
  }

  lemma {:induction false} CountUpdate(b: seq<bool>, i: int, v: bool)
    requires 0 <= i < |b|
    ensures CountTrue(b[i := v]) == CountTrue(b) - Ord(b[i]) + Ord(v)
  {
    if i == 0 {
      assert b[i := v][1..] == b[1..];
    } else {
      assert b[i := v][1..] == b[1..][i - 1 := v];
      CountUpdate(b[1..], i - 1, v);
    }
  }

  lemma {:induction false} CountZero(b: seq<bool>)
    ensures CountTrue(b) == 0 <==> forall i :: 0 <= i < |b| ==> !b[i]
  {
    if b != [] {
      CountZero(b[1..]);
      assert forall i :: 1 <= i < |b| ==> b[i] == b[1..][i - 1];
    }
  }

  /** Setting cell `i` of the board changes the piece count by the cell's change. */
  lemma OnTrackUpdate(b: seq<bool>, i: int, v: bool)
    requires 0 <= i < |b|
    ensures OnTrack(b[i := v]) == if i == 0 then OnTrack(b) else OnTrack(b) - Ord(b[i]) + Ord(v)
  {
    if i == 0 {
      assert b[i := v][1..] == b[1..];
    } else {
      assert b[i := v][1..] == b[1..][i - 1 := v];
      CountUpdate(b[1..], i - 1, v);
    }
  }

  /** No piece stands on the board proper exactly when the count is zero. */
  lemma OnTrackZero(b: seq<bool>)
    requires |b| >= 1
    ensures OnTrack(b) == 0 <==> forall i :: 1 <= i < |b| ==> !b[i]
  {
    CountZero(b[1..]);
    assert forall i :: 1 <= i < |b| ==> b[i] == b[1..][i - 1];
  }
}
