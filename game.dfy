/**
 * The state of a game in progress and the turn logic around it: the scenario record and
 * its defaults, selecting a piece, playing a move in a 1v1 game or a challenge, crowning,
 * switching sides, and detecting the end of the game.
 */
module Games {
  import opened Common
  import opened Pieces
  import opened Geometry
  import opened Board
  import opened Captures
  import opened Trees
  import opened Quality
  import opened CaptureTrees
  import opened Validation
  import opened Mobility

  const ModeOneVsOne: int := 0
  const ModeChallenge: int := 1

  /** scenario_t: the rule flags, the board, the starting side, the mode and the challenge's moves. */
  datatype Scenario = Scenario(rules: Rules, board: seq<int>, team: int, mode: int, challengeMoves: seq<Move>)

  /** The message the game-over panel shows. */
  datatype Outcome = ChallengeCompleted | WhiteWon | BlackWon

  /** scenario_set_default: every field but the challenge's moves gets its default; every cell is empty. */
  function SetDefault(s: Scenario): (d: Scenario)
    ensures d.mode == ModeOneVsOne && d.team == WhiteTeam && d.rules.side == 8
    ensures d.rules.flyingKings && !d.rules.peonsCaptureBackwards && d.rules.whiteTopToBottom
    ensures d.rules.lawOfQuantity && !d.rules.lawOfQuality && d.rules.doubleCornerOnRight
    ensures |d.board| == MaxCells && forall i :: 0 <= i < MaxCells ==> d.board[i] == NoPiece
    ensures d.challengeMoves == s.challengeMoves
  {
    Scenario(Rules(8, true, true, false, true, true, false), seq(MaxCells, i => NoPiece), WhiteTeam, ModeOneVsOne, s.challengeMoves)
  }

  /** The default scenario is a playable 8x8 game with no pieces, so the side to move has no move. */
  lemma DefaultScenarioIsEmpty(s: Scenario)
    ensures Ready(SetDefault(s).rules, SetDefault(s).board)
    ensures Occupied(SetDefault(s).board) == 0
    ensures !AnyMoveAsWritten(SetDefault(s).rules, SetDefault(s).board, WhiteTeam)
  {
    var d := SetDefault(s);
    EmptyBoardUnoccupied(d.board, |d.board|);
    assert d.board[..|d.board|] == d.board;
    forall cid: nat, dir: nat | cid < CellCount(d.rules.side) && dir < 4
      ensures !MoveFromAsWritten(d.rules, d.board, WhiteTeam, cid, dir)
    {
      assert d.board[cid] == NoPiece;
    }
  }

  lemma {:induction false} EmptyBoardUnoccupied(b: seq<int>, n: nat)
    requires n <= |b| && forall i :: 0 <= i < |b| ==> b[i] == NoPiece
    ensures Occupied(b[..n]) == 0
  {
    if n > 0 {
      EmptyBoardUnoccupied(b, n - 1);
      assert b[..n][..n - 1] == b[..n - 1];
    }
    if n == |b| {
      assert b[..n] == b;
    }
  }

  /** The opposing side. */
  function Other(team: int): (o: int)
    requires team == WhiteTeam || team == BlackTeam
    ensures o == WhiteTeam || o == BlackTeam
    ensures o != team
  {
    if team == WhiteTeam then BlackTeam else WhiteTeam
  }

  /** is_crowning_cell_of_team: the last line of ids or the first, by side and orientation. */
  predicate IsCrowningCell(r: Rules, team: int, cell: nat)
  {
    var count := CellCount(r.side);
    var per := PerLine(r.side);
    if r.whiteTopToBottom then
      (if team == WhiteTeam then count - per <= cell < count else cell < per)
    else
      (if team == WhiteTeam then cell < per else count - per <= cell < count)
  }

  /** The row a side's peons move toward. */
  function FarRow(r: Rules, team: int): int
  {
    if (team == WhiteTeam) == r.whiteTopToBottom then r.side - 1 else 0
  }

  /** A cell id is on the last line of ids exactly when its square is on the last row, and on the first line when on row 0. */
  lemma RowOfCell(r: Rules, cell: nat)
    requires ValidSide(r.side) && cell < CellCount(r.side)
    ensures CellCount(r.side) - PerLine(r.side) <= cell <==> CellToPosition(r, cell).y == r.side - 1
    ensures cell < PerLine(r.side) <==> CellToPosition(r, cell).y == 0
  {
    var per := PerLine(r.side);
    CellCountFits(r.side);
    assert CellCount(r.side) - per == (r.side - 1) * per;
    if cell >= (r.side - 1) * per {
      DivModUnique(r.side - 1, per, cell - (r.side - 1) * per);
    } else {
      QuotientBelow(cell, per, r.side - 1);
    }
    if cell < per {
      QuotientBelow(cell, per, 1);
    }
  }

  /** The crowning cells of a side are exactly the squares of the row its peons move toward. */
  lemma CrowningCellIsFarRow(r: Rules, team: int, cell: nat)
    requires ValidSide(r.side) && cell < CellCount(r.side) && (team == WhiteTeam || team == BlackTeam)
    ensures IsCrowningCell(r, team, cell) <==> CellToPosition(r, cell).y == FarRow(r, team)
  {
    RowOfCell(r, cell);
  }

  /** A peon on its crowning row has no forward step left on the board. */
  lemma NoForwardStepFromFarRow(r: Rules, peon: int, cell: nat, d: nat)
    requires ValidSide(r.side) && cell < CellCount(r.side) && IsPeon(peon) && d < 4
    requires IsCrowningCell(r, PieceTeam(peon), cell)
    requires IsPeonMovingForward(r, peon, Directions[d])
    ensures !InBounds(r.side, Step(CellToPosition(r, cell), d, 1))
  {
    CrowningCellIsFarRow(r, PieceTeam(peon), cell);
  }

  /** promote_to_queen_if_valid on a board value: a peon of `team` on its crowning cell becomes a queen. */
  function PromoteIfValid(r: Rules, b: seq<int>, team: int, cell: nat): seq<int>
    requires cell < |b|
  {
    if IsPeon(b[cell]) && IsCrowningCell(r, team, cell) then b[cell := Promote(b[cell])] else b
  }

  /** Only the given cell can change, only when it holds a peon on a crowning cell, and it keeps its colour. */
  lemma PromoteIfValidEffect(r: Rules, b: seq<int>, team: int, cell: nat)
    requires cell < |b|
    ensures |PromoteIfValid(r, b, team, cell)| == |b|
    ensures forall i :: 0 <= i < |b| && i != cell ==> PromoteIfValid(r, b, team, cell)[i] == b[i]
    ensures PromoteIfValid(r, b, team, cell)[cell] != b[cell] <==> IsPeon(b[cell]) && IsCrowningCell(r, team, cell)
    ensures IsPeon(b[cell]) && IsCrowningCell(r, team, cell) ==>
      IsQueen(PromoteIfValid(r, b, team, cell)[cell]) && PieceTeam(PromoteIfValid(r, b, team, cell)[cell]) == PieceTeam(b[cell])
  {
  }

  /** The move a validated move plays: the tree node's full capture when capture is forced, otherwise a plain step. */
  function ChosenMove(forceCapture: bool, verdict: Verdict, source: nat, dest: nat): Move
  {
    if forceCapture && verdict.Legal? && verdict.next.Some? && verdict.next.value.data.Some? then verdict.next.value.data.value
    else Move(false, 0, source, dest)
  }

  /** A forced move goes where it was asked to and captures; a free one does not capture. */
  lemma ChosenMoveMatches(r: Rules, b: seq<int>, team: int, forceCapture: bool, cursor: CaptureTree, source: nat, dest: nat)
    requires Ready(r, b) && source < CellCount(r.side) && dest < CellCount(r.side) && NodesFit(cursor)
    requires Validate(r, b, team, forceCapture, cursor, source, dest).Legal?
    ensures var m := ChosenMove(forceCapture, Validate(r, b, team, forceCapture, cursor, source, dest), source, dest);
      m.source == source && m.dest == dest && MoveFitsBoard(m) && m.isCapture == forceCapture
  {
    if forceCapture {
      var v := Validate(r, b, team, forceCapture, cursor, source, dest);
      var i := FirstMatch(cursor.children, source, dest).value;
      assert NodesFit(cursor.children[i]);
    }
  }

  /** The next capture of a chain is still to be played: the turn stays with the side that captured. */
  predicate ChainContinues(v: Verdict)
  {
    v.Legal? && v.next.Some? && |v.next.value.children| > 0
  }

  /** The node Validate moves the cursor to is one of the cursor's children, so its moves fit the board too. */
  lemma ValidateNextFits(r: Rules, b: seq<int>, team: int, forceCapture: bool, cursor: CaptureTree, source: nat, dest: nat)
    requires Ready(r, b) && source < CellCount(r.side) && dest < CellCount(r.side) && NodesFit(cursor)
    ensures var v := Validate(r, b, team, forceCapture, cursor, source, dest);
      v.Legal? && v.next.Some? ==> NodesFit(v.next.value) && v.next.value in cursor.children
  {
    var v := Validate(r, b, team, forceCapture, cursor, source, dest);
    if v.Legal? && v.next.Some? {
      var i := FirstMatch(cursor.children, source, dest).value;
      assert NodesFit(cursor.children[i]);
    }
  }

  /** The board after a validated 1v1 move, before any crowning. */
  function PlayedBoard(r: Rules, b: seq<int>, team: int, forceCapture: bool, cursor: CaptureTree, source: nat, dest: nat): (after: seq<int>)
    requires Ready(r, b) && source < CellCount(r.side) && dest < CellCount(r.side) && NodesFit(cursor)
    requires Validate(r, b, team, forceCapture, cursor, source, dest).Legal?
    ensures IsBoard(after) && after[source] == NoPiece
  {
    ChosenMoveMatches(r, b, team, forceCapture, cursor, source, dest);
    ApplyMove(b, ChosenMove(forceCapture, Validate(r, b, team, forceCapture, cursor, source, dest), source, dest))
  }

  /**
   * Every capture cell of the challenge moves lies in the 72-cell board array, so that playing
   * a move never writes outside it. Sources and destinations need no bound: a move whose cells
   * are off the board in use never matches the player's choice and is never played.
   */
  predicate CapturesInArray(moves: seq<Move>)
  {
    forall i :: 0 <= i < |moves| && moves[i].isCapture ==> moves[i].capture < MaxCells
  }

  /** The board and side to move after a turn. */
  datatype Turn = Turn(board: seq<int>, team: int)

  /** A move in a 1v1 game: an illegal one changes nothing, a capture chain that goes on keeps the side, any other legal move crowns and hands over. */
  function OneVsOneTurn(r: Rules, b: seq<int>, team: int, forceCapture: bool, cursor: CaptureTree, source: nat, dest: nat): (t: Turn)
    requires Ready(r, b) && source < CellCount(r.side) && dest < CellCount(r.side) && NodesFit(cursor)
    requires team == WhiteTeam || team == BlackTeam
    ensures Validate(r, b, team, forceCapture, cursor, source, dest).Illegal? <==> t == Turn(b, team)
    ensures t.team != team <==>
      (Validate(r, b, team, forceCapture, cursor, source, dest).Legal? &&
       !ChainContinues(Validate(r, b, team, forceCapture, cursor, source, dest)))
    ensures t.team == team || t.team == Other(team)
  {
    var v := Validate(r, b, team, forceCapture, cursor, source, dest);
    if v.Illegal? then Turn(b, team)
    else
      var played := PlayedBoard(r, b, team, forceCapture, cursor, source, dest);
      assert played != b by { assert played[source] == NoPiece && b[source] != NoPiece; }
      if ChainContinues(v) then Turn(played, team)
      else Turn(PromoteIfValid(r, played, team, dest), Other(team))
  }

  /**
   * A move in a challenge: only the expected move's source and destination are accepted; the
   * side keeps playing while the next expected move starts where this one ended.
   */
  function ChallengeTurn(r: Rules, b: seq<int>, team: int, moves: seq<Move>, index: nat, source: nat, dest: nat): (t: Turn)
    requires IsBoard(b) && CapturesInArray(moves) && index < |moves| && source < MaxCells && dest < MaxCells
    requires team == WhiteTeam || team == BlackTeam
    ensures !(source == moves[index].source && dest == moves[index].dest) ==> t == Turn(b, team)
    ensures t.team != team <==>
      (source == moves[index].source && dest == moves[index].dest && index + 1 < |moves| && moves[index + 1].source != dest)
    ensures t.team == team || t.team == Other(team)
  {
    var expected := moves[index];
    if !(source == expected.source && dest == expected.dest) then Turn(b, team)
    else if index + 1 == |moves| || moves[index + 1].source == expected.dest then Turn(ApplyMove(b, expected), team)
    else Turn(PromoteIfValid(r, ApplyMove(b, expected), team, expected.dest), Other(team))
  }

  class Game {
    const rules: Rules
    const mode: int
    const challengeMoves: seq<Move>
    const board: array<int>
    var team: int
    var captureTree: CaptureTree
    var cursor: CaptureTree
    var forceCapture: bool
    var pieceSelected: bool
    var selectedCell: nat
    var hasLastMove: bool
    var lastSource: nat
    var lastDest: nat
    var challengeIndex: nat
    var gameOver: bool
    var outcome: Option<Outcome>

    /** The fields keep to the board, the side to move is a real side, and the challenge index stays in range. */
    predicate Valid()
      reads this, board
    {
      board.Length == MaxCells && ValidSide(rules.side) && CellCount(rules.side) <= MaxCells &&
      (team == WhiteTeam || team == BlackTeam) &&
      challengeIndex <= |challengeMoves| &&
      (mode == ModeChallenge ==> CapturesInArray(challengeMoves)) &&
      NodesFit(captureTree) && NodesFit(cursor) &&
      selectedCell < CellCount(rules.side)
    }

    /** game_set_mode_scenario: a fresh game on the scenario, with its selection, forced capture, last move and game over reset. */
    constructor EnterScenario(s: Scenario)
      requires Ready(s.rules, s.board) && (s.team == WhiteTeam || s.team == BlackTeam)
      requires s.mode == ModeChallenge ==> CapturesInArray(s.challengeMoves)
      ensures Valid() && fresh(board)
      ensures rules == s.rules && mode == s.mode && challengeMoves == s.challengeMoves && board[..] == s.board
      ensures team == s.team && !gameOver && outcome.None? && !pieceSelected && !hasLastMove
      ensures mode == ModeOneVsOne ==>
        captureTree == CaptureTreeFor(rules, board[..], team) && cursor == captureTree &&
        (forceCapture <==> |captureTree.children| > 0)
      ensures mode != ModeOneVsOne ==> !forceCapture
      ensures mode == ModeChallenge ==> challengeIndex == 0
    {
      rules := s.rules;
      mode := s.mode;
      challengeMoves := s.challengeMoves;
      board := new int[MaxCells](i requires 0 <= i < MaxCells => s.board[i]);
      team := s.team;
      gameOver := false;
      outcome := None;
      forceCapture := false;
      pieceSelected := false;
      selectedCell := 0;
      hasLastMove := false;
      lastSource := 0;
      lastDest := 0;
      challengeIndex := 0;
      captureTree := NewTree(None);
      cursor := captureTree;
      new;
      assert board[..] == s.board;
      if mode == ModeOneVsOne {
        SetCaptureData();
      }
    }

    /** game_1v1_scenario_set_capture_data: build the tree for the side to move and start at its root. */
    method SetCaptureData()
      requires Valid()
      modifies this`captureTree, this`cursor, this`forceCapture
      ensures Valid()
      ensures captureTree == CaptureTreeFor(rules, board[..], team) && cursor == captureTree
      ensures forceCapture <==> |captureTree.children| > 0
    {
      CellCountFits(rules.side);
      captureTree := GenerateCaptureTree(rules, board[..], team);
      CaptureTreeFits(rules, board[..], team);
      cursor := captureTree;
      forceCapture := |captureTree.children| > 0;
    }

    /** select_hovered_piece: select the hovered cell if it holds a piece. */
    method SelectHoveredPiece(hovered: Option<nat>)
      requires Valid() && (hovered.Some? ==> hovered.value < CellCount(rules.side))
      modifies this`pieceSelected, this`selectedCell
      ensures Valid()
      ensures hovered.Some? && board[hovered.value] != NoPiece ==> pieceSelected && selectedCell == hovered.value
      ensures !(hovered.Some? && board[hovered.value] != NoPiece) ==>
        pieceSelected == old(pieceSelected) && selectedCell == old(selectedCell)
    {
      if hovered.None? {
        return;
      }
      if board[hovered.value] == NoPiece {
        return;
      }
      pieceSelected := true;
      selectedCell := hovered.value;
    }

    /** promote_to_queen_if_valid for the side to move. */
    method PromoteCellIfValid(cell: nat)
      requires Valid() && cell < board.Length
      modifies board
      ensures Valid()
      ensures board[..] == PromoteIfValid(rules, old(board[..]), team, cell)
    {
      var piece := board[cell];
      if IsPeon(piece) && IsCrowningCell(rules, team, cell) {
        board[cell] := Promote(piece);
      }
    }

    /** switch_teams: drop the selection, hand the turn over, and in 1v1 rebuild the capture tree for the new side. */
    method SwitchTeams()
      requires Valid()
      modifies this`team, this`pieceSelected, this`captureTree, this`cursor, this`forceCapture
      ensures Valid()
      ensures team == Other(old(team)) && !pieceSelected
      ensures mode == ModeOneVsOne ==>
        captureTree == CaptureTreeFor(rules, board[..], team) && cursor == captureTree &&
        (forceCapture <==> |captureTree.children| > 0)
      ensures mode != ModeOneVsOne ==>
        captureTree == old(captureTree) && cursor == old(cursor) && forceCapture == old(forceCapture)
    {
      pieceSelected := false;
      team := if team == WhiteTeam then BlackTeam else WhiteTeam;
      if mode == ModeOneVsOne {
        SetCaptureData();
      }
    }

    /** The close of a turn in either mode: crown the piece that moved, hand the turn over and record the move. */
    method EndTurn(source: nat, dest: nat)
      requires Valid() && dest < board.Length
      modifies board, this`team, this`pieceSelected, this`captureTree, this`cursor, this`forceCapture
      modifies this`hasLastMove, this`lastSource, this`lastDest
      ensures Valid()
      ensures board[..] == PromoteIfValid(rules, old(board[..]), old(team), dest)
      ensures team == Other(old(team)) && !pieceSelected
      ensures hasLastMove && lastSource == source && lastDest == dest
      ensures mode == ModeOneVsOne ==>
        captureTree == CaptureTreeFor(rules, board[..], team) && cursor == captureTree &&
        (forceCapture <==> |captureTree.children| > 0)
      ensures mode != ModeOneVsOne ==>
        captureTree == old(captureTree) && cursor == old(cursor) && forceCapture == old(forceCapture)
    {
      PromoteCellIfValid(dest);
      SwitchTeams();
      hasLastMove := true;
      lastSource := source;
      lastDest := dest;
    }

    /**
     * move_selected_piece_in_1v1_scenario: validate; play the tree node's move or a plain
     * step; keep the turn while the capture chain goes on, otherwise crown, switch sides
     * and record the last move.
     */
    method MoveInOneVsOne(source: nat, dest: nat)
      requires Valid() && source < CellCount(rules.side) && dest < CellCount(rules.side)
      modifies board, this`team, this`pieceSelected, this`selectedCell, this`captureTree, this`cursor
      modifies this`forceCapture, this`hasLastMove, this`lastSource, this`lastDest
      ensures Valid()
      ensures var v := Validate(rules, old(board[..]), old(team), old(forceCapture), old(cursor), source, dest);
        v.Illegal? ==>
          board[..] == old(board[..]) && team == old(team) && cursor == old(cursor) &&
          forceCapture == old(forceCapture) && pieceSelected == old(pieceSelected) && hasLastMove == old(hasLastMove)
      ensures var v := Validate(rules, old(board[..]), old(team), old(forceCapture), old(cursor), source, dest);
        ChainContinues(v) ==>
          board[..] == PlayedBoard(rules, old(board[..]), old(team), old(forceCapture), old(cursor), source, dest) &&
          team == old(team) && forceCapture && pieceSelected && selectedCell == dest &&
          cursor == v.next.value && hasLastMove == old(hasLastMove)
      ensures var v := Validate(rules, old(board[..]), old(team), old(forceCapture), old(cursor), source, dest);
        v.Legal? && !ChainContinues(v) ==>
          board[..] == PromoteIfValid(rules, PlayedBoard(rules, old(board[..]), old(team), old(forceCapture), old(cursor), source, dest), old(team), dest) &&
          team == Other(old(team)) && !pieceSelected && hasLastMove && lastSource == source && lastDest == dest &&
          (mode == ModeOneVsOne ==> captureTree == CaptureTreeFor(rules, board[..], team) && cursor == captureTree)
      ensures challengeIndex == old(challengeIndex) && gameOver == old(gameOver) && outcome == old(outcome)
    {
      CellCountFits(rules.side);
      var verdict := ValidateMove(rules, board[..], team, forceCapture, cursor, source, dest);
      if verdict.Illegal? {
        return;
      }
      PlayLegal(source, dest, verdict);
    }

    /** The legal half of move_selected_piece_in_1v1_scenario, once the verdict is known. */
    method PlayLegal(source: nat, dest: nat, verdict: Verdict)
      requires Valid() && source < CellCount(rules.side) && dest < CellCount(rules.side)
      requires verdict == Validate(rules, board[..], team, forceCapture, cursor, source, dest) && verdict.Legal?
      modifies board, this`team, this`pieceSelected, this`selectedCell, this`captureTree, this`cursor
      modifies this`forceCapture, this`hasLastMove, this`lastSource, this`lastDest
      ensures Valid()
      ensures ChainContinues(verdict) ==>
          board[..] == PlayedBoard(rules, old(board[..]), old(team), old(forceCapture), old(cursor), source, dest) &&
          team == old(team) && forceCapture && pieceSelected && selectedCell == dest &&
          cursor == verdict.next.value && hasLastMove == old(hasLastMove)
      ensures !ChainContinues(verdict) ==>
          board[..] == PromoteIfValid(rules, PlayedBoard(rules, old(board[..]), old(team), old(forceCapture), old(cursor), source, dest), old(team), dest) &&
          team == Other(old(team)) && !pieceSelected && hasLastMove && lastSource == source && lastDest == dest &&
          (mode == ModeOneVsOne ==> captureTree == CaptureTreeFor(rules, board[..], team) && cursor == captureTree)
    {
      CellCountFits(rules.side);
      ChosenMoveMatches(rules, board[..], team, forceCapture, cursor, source, dest);
      ValidateNextFits(rules, board[..], team, forceCapture, cursor, source, dest);
      var move := ChosenMove(forceCapture, verdict, source, dest);
      ApplyMoveInPlace(board, move);
      if ChainContinues(verdict) {
        ContinueChain(dest, verdict.next.value);
        return;
      }
      EndTurn(source, dest);
    }

    /** The capture chain goes on: the same piece stays selected and must capture again from node next. */
    method ContinueChain(dest: nat, next: CaptureTree)
      requires Valid() && dest < CellCount(rules.side) && NodesFit(next)
      modifies this`forceCapture, this`pieceSelected, this`selectedCell, this`cursor
      ensures Valid()
      ensures forceCapture && pieceSelected && selectedCell == dest && cursor == next
    {
      forceCapture := true;
      pieceSelected := true;
      selectedCell := dest;
      cursor := next;
    }

    /**
     * move_selected_piece_in_challenge_scenario: only the expected move is played; the
     * turn stays while the next expected move continues from where this one landed.
     */
    method MoveInChallenge(source: nat, dest: nat)
      requires Valid() && mode == ModeChallenge && challengeIndex < |challengeMoves|
      requires source < CellCount(rules.side) && dest < CellCount(rules.side)
      modifies this, board
      ensures Valid()
      ensures var expected := challengeMoves[old(challengeIndex)];
        !(source == expected.source && dest == expected.dest) ==>
          board[..] == old(board[..]) && challengeIndex == old(challengeIndex) && team == old(team) &&
          pieceSelected == old(pieceSelected) && hasLastMove == old(hasLastMove)
      ensures var expected := challengeMoves[old(challengeIndex)];
        source == expected.source && dest == expected.dest ==> challengeIndex == old(challengeIndex) + 1
      ensures var expected := challengeMoves[old(challengeIndex)];
        source == expected.source && dest == expected.dest && challengeIndex == |challengeMoves| ==>
          board[..] == ApplyMove(old(board[..]), expected) && team == old(team) &&
          pieceSelected == old(pieceSelected) && hasLastMove == old(hasLastMove)
      ensures var expected := challengeMoves[old(challengeIndex)];
        source == expected.source && dest == expected.dest && challengeIndex < |challengeMoves| &&
        challengeMoves[challengeIndex].source == expected.dest ==>
          board[..] == ApplyMove(old(board[..]), expected) && team == old(team) &&
          pieceSelected && selectedCell == expected.dest && hasLastMove == old(hasLastMove)
      ensures var expected := challengeMoves[old(challengeIndex)];
        source == expected.source && dest == expected.dest && challengeIndex < |challengeMoves| &&
        challengeMoves[challengeIndex].source != expected.dest ==>
          board[..] == PromoteIfValid(rules, ApplyMove(old(board[..]), expected), old(team), expected.dest) &&
          team == Other(old(team)) && !pieceSelected &&
          hasLastMove && lastSource == expected.source && lastDest == expected.dest
      ensures gameOver == old(gameOver) && outcome == old(outcome)
    {
      var expected := challengeMoves[challengeIndex];
      if source != expected.source || dest != expected.dest {
        return;
      }
      challengeIndex := challengeIndex + 1;
      ApplyMoveInPlace(board, expected);
      if |challengeMoves| == challengeIndex {
        return;
      }
      var next := challengeMoves[challengeIndex];
      if expected.dest == next.source {
        pieceSelected := true;
        selectedCell := expected.dest;
        return;
      }
      EndTurn(expected.source, expected.dest);
    }

    /** game_activate_game_over_panel: the first outcome sticks; later calls change nothing. */
    method ActivateGameOver(o: Outcome)
      requires Valid()
      modifies this`gameOver, this`outcome
      ensures Valid() && gameOver
      ensures old(gameOver) ==> outcome == old(outcome)
      ensures !old(gameOver) ==> outcome == Some(o)
    {
      if gameOver {
        return;
      }
      outcome := Some(o);
      gameOver := true;
    }

    /**
     * game_check_for_and_activate_victory: a challenge is won once all its moves are played;
     * otherwise the side to move loses when the mobility test as written finds no move for it.
     * A loss declared this way is always genuine: the corrected test finds no move either.
     */
    method CheckVictory()
      requires Valid()
      modifies this`gameOver, this`outcome
      ensures Valid()
      ensures mode == ModeChallenge && challengeIndex == |challengeMoves| ==>
        gameOver && (!old(gameOver) ==> outcome == Some(ChallengeCompleted))
      ensures !(mode == ModeChallenge && challengeIndex == |challengeMoves|) && !AnyMoveAsWritten(rules, board[..], team) ==>
        gameOver && (!old(gameOver) ==> outcome == Some(if team == WhiteTeam then BlackWon else WhiteWon))
      ensures !(mode == ModeChallenge && challengeIndex == |challengeMoves|) && AnyMoveAsWritten(rules, board[..], team) ==>
        gameOver == old(gameOver) && outcome == old(outcome)
      ensures old(gameOver) ==> gameOver && outcome == old(outcome)
      ensures !old(gameOver) && gameOver && outcome != Some(ChallengeCompleted) ==> !AnyMove(rules, board[..], team)
    {
      if mode == ModeChallenge && |challengeMoves| == challengeIndex {
        ActivateGameOver(ChallengeCompleted);
        return;
      }
      CellCountFits(rules.side);
      var any := ContainsAnyMoveAsWritten(rules, board[..], team);
      if !any {
        if AnyMove(rules, board[..], team) {
          AnyMoveImpliesAsWritten(rules, board[..], team);
        }
        if team == WhiteTeam {
          ActivateGameOver(BlackWon);
        } else if team == BlackTeam {
          ActivateGameOver(WhiteWon);
        }
      }
    }

    /** move_selected_piece_to_hovered_cell: with a piece selected and a cell hovered, play by the mode's rules, then check for victory. */
    method MoveSelectedPieceToHoveredCell(hovered: Option<nat>)
      requires Valid() && (hovered.Some? ==> hovered.value < CellCount(rules.side))
      requires mode == ModeChallenge ==> challengeIndex < |challengeMoves|
      modifies this, board
      ensures Valid()
      ensures !(old(pieceSelected) && hovered.Some?) ==>
        board[..] == old(board[..]) && team == old(team) && gameOver == old(gameOver) && outcome == old(outcome)
      ensures old(pieceSelected) && hovered.Some? && mode == ModeOneVsOne ==>
        Turn(board[..], team) ==
          OneVsOneTurn(rules, old(board[..]), old(team), old(forceCapture), old(cursor), old(selectedCell), hovered.value)
      ensures old(pieceSelected) && hovered.Some? && mode == ModeChallenge ==>
        Turn(board[..], team) ==
          ChallengeTurn(rules, old(board[..]), old(team), challengeMoves, old(challengeIndex), old(selectedCell), hovered.value) &&
        challengeIndex == old(challengeIndex) +
          (if old(selectedCell) == challengeMoves[old(challengeIndex)].source &&
              hovered.value == challengeMoves[old(challengeIndex)].dest then 1 else 0)
      ensures old(pieceSelected) && hovered.Some? && mode != ModeOneVsOne && mode != ModeChallenge ==>
        board[..] == old(board[..]) && team == old(team)
      ensures old(gameOver) ==> gameOver && outcome == old(outcome)
      ensures old(pieceSelected) && hovered.Some? && mode == ModeChallenge && challengeIndex == |challengeMoves| ==>
        gameOver && (!old(gameOver) ==> outcome == Some(ChallengeCompleted))
      ensures (old(pieceSelected) && hovered.Some? && !(mode == ModeChallenge && challengeIndex == |challengeMoves|) &&
               !AnyMoveAsWritten(rules, board[..], team)) ==>
          gameOver && (!old(gameOver) ==> outcome == Some(if team == WhiteTeam then BlackWon else WhiteWon))
      ensures (old(pieceSelected) && hovered.Some? && !(mode == ModeChallenge && challengeIndex == |challengeMoves|) &&
               AnyMoveAsWritten(rules, board[..], team)) ==>
          gameOver == old(gameOver) && outcome == old(outcome)
    {
      if !pieceSelected || hovered.None? {
        return;
      }
      if mode == ModeOneVsOne {
        MoveInOneVsOne(selectedCell, hovered.value);
      } else if mode == ModeChallenge {
        MoveInChallenge(selectedCell, hovered.value);
      }
      CheckVictory();
    }
  }
}
