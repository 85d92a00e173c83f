/**
 * Whether the side to move has any move at all (board_contains_any_valid_moves_for_team):
 * a piece with an empty neighbouring square it may step to, or a one-jump capture.
 */
module Mobility {
  import opened Common
  import opened Pieces
  import opened Geometry
  import opened Board
  import opened Captures
  import opened Validation
  import opened Quality

  /** Every cell holds one of the five cell values. */
  predicate CellsValid(b: seq<int>)
  {
    forall i :: 0 <= i < |b| ==> IsCellValue(b[i])
  }

  /** The piece may move without capturing toward d: a queen any way, a peon only forward. */
  predicate StepsToward(r: Rules, piece: int, d: nat)
    requires d < 4
  {
    IsQueen(piece) || (IsPeon(piece) && IsPeonMovingForward(r, piece, Directions[d]))
  }

  /** The square next to cell cid along d is on the board, the piece may step there, and it is empty. */
  predicate StepMoveAt(r: Rules, b: seq<int>, cid: nat, d: nat)
    requires Ready(r, b) && cid < CellCount(r.side) && d < 4
  {
    var p := CellToPosition(r, cid);
    InBounds(r.side, Step(p, d, 1)) && StepsToward(r, b[cid], d) && b[StepCell(r, p, d, 1)] == NoPiece
  }

  /** The jump test as written: the jumped square need only not hold a piece of the side to move, so an empty one passes. */
  predicate JumpAsWritten(r: Rules, b: seq<int>, team: int, cid: nat, d: nat)
    requires Ready(r, b) && cid < CellCount(r.side) && d < 4
  {
    var p := CellToPosition(r, cid);
    InBounds(r.side, Step(p, d, 1)) && InBounds(r.side, Step(p, d, 2)) &&
    (StepsToward(r, b[cid], d) || r.peonsCaptureBackwards) &&
    PieceTeam(b[StepCell(r, p, d, 1)]) != team && b[StepCell(r, p, d, 2)] == NoPiece
  }

  /** The jump test as intended: the jumped square holds a piece of another side. */
  predicate JumpCorrected(r: Rules, b: seq<int>, team: int, cid: nat, d: nat)
    requires Ready(r, b) && cid < CellCount(r.side) && d < 4
  {
    var p := CellToPosition(r, cid);
    InBounds(r.side, Step(p, d, 1)) && InBounds(r.side, Step(p, d, 2)) &&
    (StepsToward(r, b[cid], d) || r.peonsCaptureBackwards) &&
    b[StepCell(r, p, d, 1)] != NoPiece && PieceTeam(b[StepCell(r, p, d, 1)]) != team &&
    b[StepCell(r, p, d, 2)] == NoPiece
  }

  predicate MoveFromAsWritten(r: Rules, b: seq<int>, team: int, cid: nat, d: nat)
    requires Ready(r, b) && cid < CellCount(r.side) && d < 4
  {
    PieceTeam(b[cid]) == team && (StepMoveAt(r, b, cid, d) || JumpAsWritten(r, b, team, cid, d))
  }

  predicate MoveFrom(r: Rules, b: seq<int>, team: int, cid: nat, d: nat)
    requires Ready(r, b) && cid < CellCount(r.side) && d < 4
  {
    PieceTeam(b[cid]) == team && (StepMoveAt(r, b, cid, d) || JumpCorrected(r, b, team, cid, d))
  }

  /** board_contains_any_valid_moves_for_team as written. */
  predicate AnyMoveAsWritten(r: Rules, b: seq<int>, team: int)
    requires Ready(r, b)
  {
    exists cid: nat, d: nat :: cid < CellCount(r.side) && d < 4 && MoveFromAsWritten(r, b, team, cid, d)
  }

  /** board_contains_any_valid_moves_for_team with the jumped square required to hold an opponent. */
  predicate AnyMove(r: Rules, b: seq<int>, team: int)
    requires Ready(r, b)
  {
    exists cid: nat, d: nat :: cid < CellCount(r.side) && d < 4 && MoveFrom(r, b, team, cid, d)
  }

  /** The corrected jump test is exactly the one-jump capture generator's test, for a piece of the side to move. */
  lemma JumpCorrectedIsStepCapture(r: Rules, b: seq<int>, team: int, cid: nat, d: nat)
    requires Ready(r, b) && CellsValid(b) && cid < CellCount(r.side) && d < 4
    requires team != NoTeam && PieceTeam(b[cid]) == team
    ensures JumpCorrected(r, b, team, cid, d) <==> StepCapture(r, b, cid, d).Some?
  {
    var p := CellToPosition(r, cid);
    var piece := b[cid];
    ForwardCharacterised(r, piece, Directions[d]);
    if InBounds(r.side, Step(p, d, 2)) {
      StepBetween(r.side, p, d, 2, 1);
      var other := b[StepCell(r, p, d, 1)];
      if other != NoPiece {
        SameTeamIffSameOwner(piece, other);
      }
    }
  }

  /** A step move the mobility test counts is a free move that validation accepts. */
  lemma StepMoveIsValid(r: Rules, b: seq<int>, cursor: CaptureTree, cid: nat, d: nat)
    requires Ready(r, b) && cid < CellCount(r.side) && d < 4
    requires StepMoveAt(r, b, cid, d)
    ensures Validate(r, b, PieceTeam(b[cid]), false, cursor, cid, StepCell(r, CellToPosition(r, cid), d, 1)) == Legal(None)
  {
    var dest := StepCell(r, CellToPosition(r, cid), d, 1);
    assert DiagonalWalk(r, b, cid, dest, d, 1);
    WalkToFreeMove(r, b, cid, dest, d, 1);
  }

  /**
   * What the corrected test finds is real: a free move validation accepts, or a one-jump
   * capture the capture generator produces, for a piece of the side to move.
   */
  lemma AnyMoveSound(r: Rules, b: seq<int>, team: int, cursor: CaptureTree)
    requires Ready(r, b) && CellsValid(b) && team != NoTeam && AnyMove(r, b, team)
    ensures exists cid: nat, d: nat ::
      cid < CellCount(r.side) && d < 4 && PieceTeam(b[cid]) == team &&
      ((StepMoveAt(r, b, cid, d) &&
        Validate(r, b, team, false, cursor, cid, StepCell(r, CellToPosition(r, cid), d, 1)) == Legal(None)) ||
       (StepCapture(r, b, cid, d).Some? && LegalCapture(r, b, StepCapture(r, b, cid, d).value)))
  {
    var cid: nat, d: nat :| cid < CellCount(r.side) && d < 4 && MoveFrom(r, b, team, cid, d);
    if StepMoveAt(r, b, cid, d) {
      StepMoveIsValid(r, b, cursor, cid, d);
    } else {
      JumpCorrectedIsStepCapture(r, b, team, cid, d);
      var c := StepCapture(r, b, cid, d).value;
      assert CaptureAlong(r, b, c, d, 1, 2);
    }
  }

  /** Every one-jump capture open to a piece of the side to move makes the corrected test succeed. */
  lemma AnyMoveComplete(r: Rules, b: seq<int>, team: int, cid: nat, d: nat)
    requires Ready(r, b) && CellsValid(b) && team != NoTeam && cid < CellCount(r.side) && d < 4
    requires PieceTeam(b[cid]) == team && (StepMoveAt(r, b, cid, d) || StepCapture(r, b, cid, d).Some?)
    ensures AnyMove(r, b, team)
  {
    JumpCorrectedIsStepCapture(r, b, team, cid, d);
    assert MoveFrom(r, b, team, cid, d);
  }

  /** Rules with backward peon captures on: 8x8, double corner on the right, white moving down the board. */
  const BackwardRules := Rules(8, true, true, true, true, false, false)

  /** An 8x8 board whose only piece is a white peon on cell 28, the square (0, 7) on the last row. */
  const LonePeonBoard := seq(MaxCells, i => if i == 28 then WhitePeon else NoPiece)

  /**
   * With backward captures on, the test as written finds a "move" for a lone white peon on
   * its last row: jumping backward over an empty square. The peon has no move at all.
   */
  lemma AnyMoveAsWrittenAcceptsEmptyJump()
    ensures Ready(BackwardRules, LonePeonBoard)
    ensures AnyMoveAsWritten(BackwardRules, LonePeonBoard, WhiteTeam)
    ensures !AnyMove(BackwardRules, LonePeonBoard, WhiteTeam)
  {
    var r := BackwardRules;
    var b := LonePeonBoard;
    var p := CellToPosition(r, 28);
    assert p == Position(0, 7);
    StepBetween(r.side, p, 2, 2, 1);
    assert JumpAsWritten(r, b, WhiteTeam, 28, 2);
    assert MoveFromAsWritten(r, b, WhiteTeam, 28, 2);
    forall cid: nat, d: nat | cid < CellCount(r.side) && d < 4
      ensures !MoveFrom(r, b, WhiteTeam, cid, d)
    {
      if cid == 28 {
        if d == 2 {
          var q := Step(p, d, 1);
          StepPlayable(r, p, d, 1);
          PositionToCellInjective(r, q, p);
          CellIdRoundTrip(r, 28);
          assert StepCell(r, p, d, 1) != 28;
        }
      }
    }
  }

  /** A move the corrected test finds is also found as written: the written test only accepts more jumps. */
  lemma AnyMoveImpliesAsWritten(r: Rules, b: seq<int>, team: int)
    requires Ready(r, b) && AnyMove(r, b, team)
    ensures AnyMoveAsWritten(r, b, team)
  {
    var cid: nat, d: nat :| cid < CellCount(r.side) && d < 4 && MoveFrom(r, b, team, cid, d);
    assert MoveFromAsWritten(r, b, team, cid, d);
  }

  /**
   * Without backward peon captures the two tests agree: a jump over an empty square needs a
   * direction the piece may step in, and then the step onto that empty square is itself a move.
   */
  lemma AsWrittenAgreesWithoutBackwardCaptures(r: Rules, b: seq<int>, team: int)
    requires Ready(r, b) && !r.peonsCaptureBackwards
    ensures AnyMoveAsWritten(r, b, team) <==> AnyMove(r, b, team)
  {
    if AnyMoveAsWritten(r, b, team) {
      var cid: nat, d: nat :| cid < CellCount(r.side) && d < 4 && MoveFromAsWritten(r, b, team, cid, d);
      assert MoveFrom(r, b, team, cid, d);
    }
    if AnyMove(r, b, team) {
      AnyMoveImpliesAsWritten(r, b, team);
    }
  }

  /** board_contains_any_valid_moves_for_team as written: the same scan, with the jumped square only required not to hold a piece of the side. */
  method ContainsAnyMoveAsWritten(r: Rules, b: seq<int>, team: int) returns (found: bool)
    requires Ready(r, b)
    ensures found == AnyMoveAsWritten(r, b, team)
  {
    for cid := 0 to CellCount(r.side)
      invariant forall c: nat, d: nat :: c < cid && d < 4 ==> !MoveFromAsWritten(r, b, team, c, d)
    {
      if PieceTeam(b[cid]) != team {
        continue;
      }
      var piece := b[cid];
      var p := CellToPosition(r, cid);
      for d := 0 to 4
        invariant forall c: nat, e: nat :: (c < cid && e < 4) || (c == cid && e < d) ==> !MoveFromAsWritten(r, b, team, c, e)
      {
        if !InBounds(r.side, Step(p, d, 1)) {
          continue;
        }
        var validNonEat := StepsToward(r, piece, d);
        var pos1 := StepCell(r, p, d, 1);
        if validNonEat && b[pos1] == NoPiece {
          assert MoveFromAsWritten(r, b, team, cid, d);
          return true;
        }
        if !InBounds(r.side, Step(p, d, 2)) {
          continue;
        }
        var pos2 := StepCell(r, p, d, 2);
        if (validNonEat || r.peonsCaptureBackwards) && PieceTeam(b[pos1]) != team && b[pos2] == NoPiece {
          assert MoveFromAsWritten(r, b, team, cid, d);
          return true;
        }
      }
    }
    return false;
  }

  /** board_contains_any_valid_moves_for_team, with the corrected jump test: the scan over pieces and directions. */
  method ContainsAnyMove(r: Rules, b: seq<int>, team: int) returns (found: bool)
    requires Ready(r, b)
    ensures found == AnyMove(r, b, team)
  {
    for cid := 0 to CellCount(r.side)
      invariant forall c: nat, d: nat :: c < cid && d < 4 ==> !MoveFrom(r, b, team, c, d)
    {
      if PieceTeam(b[cid]) != team {
        continue;
      }
      var piece := b[cid];
      var p := CellToPosition(r, cid);
      for d := 0 to 4
        invariant forall c: nat, e: nat :: (c < cid && e < 4) || (c == cid && e < d) ==> !MoveFrom(r, b, team, c, e)
      {
        if !InBounds(r.side, Step(p, d, 1)) {
          continue;
        }
        var validNonEat := StepsToward(r, piece, d);
        var pos1 := StepCell(r, p, d, 1);
        if validNonEat && b[pos1] == NoPiece {
          assert MoveFrom(r, b, team, cid, d);
          return true;
        }
        if !InBounds(r.side, Step(p, d, 2)) {
          continue;
        }
        var pos2 := StepCell(r, p, d, 2);
        if (validNonEat || r.peonsCaptureBackwards) && b[pos1] != NoPiece && PieceTeam(b[pos1]) != team && b[pos2] == NoPiece {
          assert MoveFrom(r, b, team, cid, d);
          return true;
        }
      }
    }
    return false;
  }
}
