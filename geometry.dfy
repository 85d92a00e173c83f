/**
 * The rule flags of a scenario, cell-id <-> board-position conversion, the four
 * diagonal directions and the forward test for peons.
 */
module Geometry {
  import opened Pieces

  /** The rule flags the engine reads; passed explicitly instead of read from a global. */
  datatype Rules = Rules(
    side: nat,
    doubleCornerOnRight: bool,
    flyingKings: bool,
    peonsCaptureBackwards: bool,
    whiteTopToBottom: bool,
    lawOfQuantity: bool,
    lawOfQuality: bool)

  predicate ValidSide(side: int) { side == 8 || side == 10 || side == 12 }

  /** PLAYABLE_CELL_COUNT_PER_LINE */
  function PerLine(side: nat): nat { side / 2 }

  /** PLAYABLE_CELL_COUNT */
  function CellCount(side: nat): nat { side * side / 2 }

  /** Every legal board size fits the fixed board capacity, with side/2 cells per line. */
  lemma CellCountFits(side: nat)
    requires ValidSide(side)
    ensures CellCount(side) <= MaxCells
    ensures CellCount(side) == PerLine(side) * side
    ensures PerLine(side) >= 4
  {
  }

  datatype Position = Position(x: int, y: int)

  predicate InBounds(side: nat, p: Position)
  {
    0 <= p.x < side && 0 <= p.y < side
  }

  /** On the rows where this holds, the first playable cell is in column 1 rather than 0. */
  predicate Shifted(doubleCornerOnRight: bool, y: int)
  {
    (!doubleCornerOnRight && y % 2 != 0) || (doubleCornerOnRight && y % 2 == 0)
  }

  /** A dark square: x+y is odd with the double corner on the right, even otherwise. */
  predicate Playable(r: Rules, p: Position)
  {
    InBounds(r.side, p) && (p.x + p.y) % 2 == (if r.doubleCornerOnRight then 1 else 0)
  }

  /** A multiple of a positive number that lies strictly between -per and per is zero. */
  lemma SmallMultipleIsZero(a: int, per: int)
    requires per > 0 && -per < a * per < per
    ensures a == 0
  {
    assert a >= 1 ==> a * per >= per;
    assert a <= -1 ==> a * per <= -per;
  }

  lemma DivModUnique(y: int, per: int, k: int)
    requires per > 0 && y >= 0 && 0 <= k < per
    ensures (y * per + k) / per == y
    ensures (y * per + k) % per == k
  {
    var n := y * per + k;
    var q, m := n / per, n % per;
    assert (q - y) * per == k - m;
    SmallMultipleIsZero(q - y, per);
  }

  /** A quotient below `bound` when the dividend is below bound * per. */
  lemma QuotientBelow(n: nat, per: nat, bound: nat)
    requires per > 0 && n < bound * per
    ensures n / per < bound
  {
    var q := n / per;
    assert q * per <= n;
    assert (q - bound) * per < 0 by {
      assert (q - bound) * per == q * per - bound * per;
    }
  }

  /** cell_id_to_cell_position */
  function CellToPosition(r: Rules, id: nat): (p: Position)
    requires ValidSide(r.side) && id < CellCount(r.side)
    ensures Playable(r, p)
  {
    var per := PerLine(r.side);
    var y := id / per;
    var x := (id % per) * 2 + (if Shifted(r.doubleCornerOnRight, y) then 1 else 0);
    CellCountFits(r.side);
    QuotientBelow(id, per, r.side);
    Position(x, y)
  }

  /** The id arithmetic of cell_position_to_cell_id, without its proof obligations. */
  function CellIdOf(r: Rules, p: Position): int
  {
    var s := if Shifted(r.doubleCornerOnRight, p.y) then 1 else 0;
    p.y * PerLine(r.side) + (p.x - s) / 2
  }

  lemma CellIdOfPlayable(r: Rules, p: Position)
    requires ValidSide(r.side) && Playable(r, p)
    ensures 0 <= CellIdOf(r, p) < CellCount(r.side)
    ensures CellIdOf(r, p) / PerLine(r.side) == p.y
    ensures CellIdOf(r, p) % PerLine(r.side) == (p.x - (if Shifted(r.doubleCornerOnRight, p.y) then 1 else 0)) / 2
  {
    var per := PerLine(r.side);
    var s := if Shifted(r.doubleCornerOnRight, p.y) then 1 else 0;
    var k := (p.x - s) / 2;
    CellCountFits(r.side);
    ColumnHalf(r, p);
    DivModUnique(p.y, per, k);
    RowStartBelow(p.y, per, r.side);
  }

  /** On a playable square the shift is the parity of the column, so half the rest is a column index within the line. */
  lemma ColumnHalf(r: Rules, p: Position)
    requires ValidSide(r.side) && Playable(r, p)
    ensures var s := if Shifted(r.doubleCornerOnRight, p.y) then 1 else 0;
      (p.x - s) % 2 == 0 && 0 <= (p.x - s) / 2 < PerLine(r.side)
  {
    var s := if Shifted(r.doubleCornerOnRight, p.y) then 1 else 0;
    assert p.x % 2 == s;
  }

  /** The first id of row y lies at least one line below the cell count. */
  lemma RowStartBelow(y: int, per: nat, side: nat)
    requires 0 <= y < side && per > 0
    ensures y * per + per <= side * per
  {
    assert side * per - (y * per + per) == (side - 1 - y) * per;
  }

  /** cell_position_to_cell_id, for playable positions only. */
  function PositionToCell(r: Rules, p: Position): (id: nat)
    requires ValidSide(r.side) && Playable(r, p)
    ensures id < CellCount(r.side)
    ensures CellToPosition(r, id) == p
  {
    CellIdOfInverse(r, p);
    CellIdOf(r, p)
  }

  /** The id arithmetic of a playable position converts back to that position. */
  lemma CellIdOfInverse(r: Rules, p: Position)
    requires ValidSide(r.side) && Playable(r, p)
    ensures 0 <= CellIdOf(r, p) < CellCount(r.side)
    ensures CellToPosition(r, CellIdOf(r, p)) == p
  {
    CellIdOfPlayable(r, p);
    ColumnHalf(r, p);
    var s := if Shifted(r.doubleCornerOnRight, p.y) then 1 else 0;
    assert (p.x - s) / 2 * 2 + s == p.x;
  }

  /** The cell-id round trip: every id names a playable position that converts back to it. */
  lemma CellIdRoundTrip(r: Rules, id: nat)
    requires ValidSide(r.side) && id < CellCount(r.side)
    ensures PositionToCell(r, CellToPosition(r, id)) == id
    ensures InBounds(r.side, CellToPosition(r, id))
    ensures r.doubleCornerOnRight ==> (CellToPosition(r, id).x + CellToPosition(r, id).y) % 2 == 1
    ensures !r.doubleCornerOnRight ==> (CellToPosition(r, id).x + CellToPosition(r, id).y) % 2 == 0
  {
    var per := PerLine(r.side);
    CellCountFits(r.side);
    var y, m := id / per, id % per;
    var p := CellToPosition(r, id);
    var s := if Shifted(r.doubleCornerOnRight, y) then 1 else 0;
    assert p.y == y && p.x == m * 2 + s;
    assert (p.x - s) / 2 == m;
    assert id == y * per + m;
    assert CellIdOf(r, p) == id;
  }

  /** Different playable positions have different cell ids. */
  lemma PositionToCellInjective(r: Rules, p: Position, q: Position)
    requires ValidSide(r.side) && Playable(r, p) && Playable(r, q)
    ensures PositionToCell(r, p) == PositionToCell(r, q) <==> p == q
  {
  }

  /** movement_directions, in the order the generators visit them. */
  const Directions: seq<Position> :=
    [Position(1, 1), Position(-1, 1), Position(1, -1), Position(-1, -1)]

  /** The position k diagonal steps away in direction d. */
  function Step(p: Position, d: nat, k: int): Position
    requires d < 4
  {
    Position(p.x + Directions[d].x * k, p.y + Directions[d].y * k)
  }

  /** Diagonal steps keep the colour of a square. */
  lemma StepPlayable(r: Rules, p: Position, d: nat, k: int)
    requires d < 4 && Playable(r, p) && InBounds(r.side, Step(p, d, k))
    ensures Playable(r, Step(p, d, k))
  {
    var q := Step(p, d, k);
    assert q.x + q.y == p.x + p.y + (Directions[d].x + Directions[d].y) * k;
    assert Directions[d].x + Directions[d].y in {2, 0, -2};
  }

  /** A diagonal walk from a square on the board stays on it for fewer than `side` steps. */
  lemma StepBound(side: nat, p: Position, d: nat, k: int)
    requires d < 4 && k >= 0 && InBounds(side, p) && InBounds(side, Step(p, d, k))
    ensures k < side
  {
  }

  /** The squares between two squares of a diagonal are on the board too. */
  lemma StepBetween(side: nat, p: Position, d: nat, k: int, i: int)
    requires d < 4 && 0 <= i <= k && InBounds(side, p) && InBounds(side, Step(p, d, k))
    ensures InBounds(side, Step(p, d, i))
  {
  }

  /** Different distances along one diagonal reach different squares. */
  lemma StepInjective(p: Position, d: nat, i: int, j: int)
    requires d < 4
    ensures Step(p, d, i) == Step(p, d, j) <==> i == j
  {
    assert Directions[d].x * i - Directions[d].x * j == Directions[d].x * (i - j);
  }

  /** The cell id of the square k steps away in direction d. */
  function StepCell(r: Rules, p: Position, d: nat, k: int): (id: nat)
    requires ValidSide(r.side) && Playable(r, p) && d < 4 && InBounds(r.side, Step(p, d, k))
    ensures id < CellCount(r.side) && CellToPosition(r, id) == Step(p, d, k)
  {
    StepPlayable(r, p, d, k);
    PositionToCell(r, Step(p, d, k))
  }

  /** The direction that reverses d. */
  function Opposite(d: nat): (e: nat)
    requires d < 4
    ensures e < 4
    ensures Directions[e] == Position(-Directions[d].x, -Directions[d].y)
    ensures 3 - e == d
  {
    3 - d
  }

  /** validation_is_peon_moving_forward: only peons have a forward direction. */
  predicate IsPeonMovingForward(r: Rules, piece: int, movement: Position)
  {
    if r.whiteTopToBottom then
      (piece == WhitePeon && movement.y > 0) || (piece == BlackPeon && movement.y < 0)
    else
      (piece == WhitePeon && movement.y < 0) || (piece == BlackPeon && movement.y > 0)
  }

  /** Forward is the sign of y chosen by the peon's colour and the orientation flag. */
  lemma ForwardCharacterised(r: Rules, piece: int, movement: Position)
    ensures IsPeonMovingForward(r, piece, movement) ==> IsPeon(piece)
    ensures piece == WhitePeon ==>
      (IsPeonMovingForward(r, piece, movement) <==> (if r.whiteTopToBottom then movement.y > 0 else movement.y < 0))
    ensures piece == BlackPeon ==>
      (IsPeonMovingForward(r, piece, movement) <==> (if r.whiteTopToBottom then movement.y < 0 else movement.y > 0))
  {
  }

  /** C's `/` on signed integers: the quotient truncated toward zero. */
  function CDiv(a: int, b: int): (q: int)
    requires b != 0
    ensures b > 0 && a >= 0 ==> q == a / b
  {
    var m := if a < 0 then -a else a;
    var n := if b < 0 then -b else b;
    if (a < 0) == (b < 0) then m / n else -(m / n)
  }
}
