/**
 * The board as a value: one cell value per playable cell, with room for the largest
 * board. Moves, their application and the count of occupied cells.
 */
module Board {
  import opened Pieces

  /** board_t: MAX_BOARD_PLAYABLE_CELL_COUNT cell values, whatever the side in use. */
  predicate IsBoard(b: seq<int>) { |b| == MaxCells }

  /** move_info_t. For a move that is not a capture, `capture` is not read. */
  datatype Move = Move(isCapture: bool, capture: nat, source: nat, dest: nat)

  predicate MoveFitsBoard(m: Move)
  {
    m.source < MaxCells && m.dest < MaxCells && (m.isCapture ==> m.capture < MaxCells)
  }

  /** board_apply_move: the piece goes from source to destination, unchanged; a capture also empties its capture cell. */
  function ApplyMove(b: seq<int>, m: Move): (after: seq<int>)
    requires IsBoard(b) && MoveFitsBoard(m)
    ensures IsBoard(after)
    ensures after[m.source] == NoPiece
    ensures m.isCapture ==> after[m.capture] == NoPiece
    ensures m.dest != m.source && !(m.isCapture && m.capture == m.dest) ==> after[m.dest] == b[m.source]
    ensures forall i :: 0 <= i < |b| && i != m.source && i != m.dest && !(m.isCapture && i == m.capture) ==>
      after[i] == b[i]
  {
    var moved := b[m.dest := b[m.source]][m.source := NoPiece];
    if m.isCapture then moved[m.capture := NoPiece] else moved
  }

  /** board_apply_move on the board the game owns, written in place. */
  method ApplyMoveInPlace(cells: array<int>, m: Move)
    requires cells.Length == MaxCells && MoveFitsBoard(m)
    modifies cells
    ensures cells[..] == ApplyMove(old(cells[..]), m)
  {
    cells[m.dest] := cells[m.source];
    cells[m.source] := NoPiece;
    if !m.isCapture {
      return;
    }
    cells[m.capture] := NoPiece;
  }

  /** The number of occupied cells: the measure that every capture decreases. */
  function Occupied(b: seq<int>): (n: nat)
    ensures n <= |b|
  {
    if |b| == 0 then 0 else Occupied(b[..|b| - 1]) + (if b[|b| - 1] != NoPiece then 1 else 0)
  }

  function Occupancy(v: int): nat { if v != NoPiece then 1 else 0 }

  /** Writing one cell changes the count by what leaves and what arrives there. */
  lemma {:induction false} OccupiedUpdate(b: seq<int>, i: nat, v: int)
    requires i < |b|
    ensures Occupied(b[i := v]) + Occupancy(b[i]) == Occupied(b) + Occupancy(v)
    decreases |b|
  {
    var n := |b|;
    var c := b[i := v];
    if i == n - 1 {
      assert c[..n - 1] == b[..n - 1];
    } else {
      assert c[..n - 1] == b[..n - 1][i := v];
      OccupiedUpdate(b[..n - 1], i, v);
    }
  }

  /**
   * A capture whose three cells differ, whose landing cell is empty and whose capture
   * cell is occupied leaves exactly one piece fewer on the board.
   */
  lemma CaptureRemovesOnePiece(b: seq<int>, m: Move)
    requires IsBoard(b) && MoveFitsBoard(m) && m.isCapture
    requires m.source != m.dest && m.source != m.capture && m.dest != m.capture
    requires b[m.dest] == NoPiece && b[m.capture] != NoPiece
    ensures Occupied(ApplyMove(b, m)) + 1 == Occupied(b)
  {
    var b1 := b[m.dest := b[m.source]];
    var b2 := b1[m.source := NoPiece];
    var b3 := b2[m.capture := NoPiece];
    OccupiedUpdate(b, m.dest, b[m.source]);
    OccupiedUpdate(b1, m.source, NoPiece);
    OccupiedUpdate(b2, m.capture, NoPiece);
    assert ApplyMove(b, m) == b3;
  }
}
