/**
 * The scenario editor: the settings it toggles and the writer that saves a scenario in the
 * text format the loader reads. The writer is modelled by the tokens its lines consist of,
 * which is what the lexer reads back from them.
 */
module Editing {
  import opened Common
  import opened Pieces
  import opened Geometry
  import opened Board
  import opened Tokens
  import opened Games
  import opened ScenarioLoading

  /** scenario_mode_to_str: every mode other than 1v1 is written as a challenge. */
  function ModeToStr(mode: int): (s: string)
    ensures IdToScenarioType(s) == Some(if mode == ModeOneVsOne then ModeOneVsOne else ModeChallenge)
  {
    if mode == ModeOneVsOne then "SCENARIO_1V1" else "SCENARIO_CHALLENGE"
  }

  /** boolean_to_str. */
  function BooleanToStr(b: bool): (s: string)
    ensures IdToBoolean(s) == Some(b)
  {
    if b then "TRUE" else "FALSE"
  }

  /** team_to_str: every team other than white is written as black. */
  function TeamToStr(team: int): (s: string)
    ensures IdToTeam(s) == Some(if team == WhiteTeam then WhiteTeam else BlackTeam)
  {
    if team == WhiteTeam then "WHITE" else "BLACK"
  }

  /** peon_movement_to_str. */
  function PeonMovementToStr(whiteTopToBottom: bool): (s: string)
    ensures IdToPeonMovement(s) == Some(whiteTopToBottom)
  {
    if whiteTopToBottom then "WHITE_TOP_TO_BOTTOM" else "WHITE_BOTTOM_TO_TOP"
  }

  /** The name a cell value is saved under reads back as that value. */
  lemma PieceNameRoundTrip(p: int)
    requires IsCellValue(p)
    ensures IdToPieceType(PieceName(p)) == Some(p)
  {
  }

  /** One `NAME : value` line. */
  function Property(name: string, v: Token): seq<Token>
  {
    [Identifier(name), Symbol(':'), v]
  }

  predicate IsPiece(p: int)
  {
    p == WhitePeon || p == BlackPeon || p == WhiteQueen || p == BlackQueen
  }

  /**
   * save_single_cell_assignment and save_multi_cell_assignment: the cells start..end, 0-based,
   * written 1-based as `N : PIECE` or `[a;b] : PIECE`; an empty run writes nothing.
   */
  function AssignmentTokens(start: nat, end: nat, piece: int): (ts: seq<Token>)
    ensures !IsPiece(piece) ==> ts == []
    ensures IsPiece(piece) && start == end ==>
      ts == [Integer(start + 1), Symbol(':'), Identifier(PieceName(piece))]
    ensures IsPiece(piece) && start != end ==>
      ts == [Symbol('['), Integer(start + 1), Symbol(';'), Integer(end + 1), Symbol(']'), Symbol(':'), Identifier(PieceName(piece))]
  {
    if !IsPiece(piece) then []
    else if start == end then [Integer(start + 1), Symbol(':'), Identifier(PieceName(piece))]
    else [Symbol('['), Integer(start + 1), Symbol(';'), Integer(end + 1), Symbol(']'), Symbol(':'), Identifier(PieceName(piece))]
  }

  /** The last cell of the maximal run of equal values that starts at cell i, below n. */
  function RunEnd(b: seq<int>, i: nat, n: nat): (e: nat)
    requires i < n <= |b|
    ensures i <= e < n
    ensures forall k :: i <= k <= e ==> b[k] == b[i]
    ensures e + 1 == n || b[e + 1] != b[i]
    decreases n - i
  {
    if i + 1 < n && b[i + 1] == b[i] then RunEnd(b, i + 1, n) else i
  }

  /** The assignments for the cells i..n-1, one per maximal run, in increasing order. */
  function CellTokens(b: seq<int>, i: nat, n: nat): seq<Token>
    requires i <= n <= |b|
    decreases n - i
  {
    if i == n then []
    else
      var e := RunEnd(b, i, n);
      AssignmentTokens(i, e, b[i]) + CellTokens(b, e + 1, n)
  }

  /** The nine property lines, in the order save_scenario_as_sch_file writes them. */
  function HeaderTokens(sc: Scenario): seq<Token>
  {
    Property("SCENARIO_TYPE", Identifier(ModeToStr(sc.mode))) +
    Property("TEAM", Identifier(TeamToStr(sc.team))) +
    Property("BOARD", Integer(sc.rules.side)) +
    Property("FLYING_KINGS", Identifier(BooleanToStr(sc.rules.flyingKings))) +
    Property("PEONS_CAPTURE_BACKWARDS", Identifier(BooleanToStr(sc.rules.peonsCaptureBackwards))) +
    Property("PEONS_MOVEMENT", Identifier(PeonMovementToStr(sc.rules.whiteTopToBottom))) +
    Property("APPLY_LAW_OF_QUANTITY", Identifier(BooleanToStr(sc.rules.lawOfQuantity))) +
    Property("APPLY_LAW_OF_QUALITY", Identifier(BooleanToStr(sc.rules.lawOfQuality))) +
    Property("DOUBLE_CORNER_SIDE", Identifier(BooleanToStr(sc.rules.doubleCornerOnRight)))
  }

  /** The whole saved file: the properties, then the playable cells. No CHALLENGE block is written. */
  function SaveTokens(sc: Scenario): seq<Token>
    requires CellCount(sc.rules.side) <= |sc.board|
  {
    HeaderTokens(sc) + CellTokens(sc.board, 0, CellCount(sc.rules.side))
  }

  /** The board sb with the cells i..n-1 taken from b. */
  function Overlay(sb: seq<int>, b: seq<int>, i: nat, n: nat): (o: seq<int>)
    requires n <= |b|
    ensures |o| == |sb|
    ensures forall k :: 0 <= k < |sb| ==> o[k] == if i <= k < n then b[k] else sb[k]
  {
    seq(|sb|, k requires 0 <= k < |sb| => if i <= k < n then b[k] else sb[k])
  }

  /** A run of empty cells writes nothing. */
  lemma EmptyRunLoads(ts: seq<Token>, b: seq<int>, i: nat, e: nat, rest: seq<Token>, s: Scenario, s1: Scenario)
    requires i <= e < |b| && e < |s.board| && !IsPiece(b[i]) && IsCellValue(b[i])
    requires forall k :: i <= k <= e ==> b[k] == b[i] && s.board[k] == NoPiece
    requires ts == AssignmentTokens(i, e, b[i]) + rest && s1 == s.(board := Overlay(s.board, b, i, e + 1))
    ensures LoadAll(ts, s) == LoadAll(rest, s1)
  {
    assert ts == rest;
    assert Overlay(s.board, b, i, e + 1) == s.board;
  }

  /** A run of one piece loads as `N : PIECE`. */
  lemma SingleRunLoads(ts: seq<Token>, b: seq<int>, i: nat, rest: seq<Token>, s: Scenario, s1: Scenario)
    requires i < |b| && i < |s.board| && |s.board| <= IntegerModulus && IsPiece(b[i])
    requires ts == AssignmentTokens(i, i, b[i]) + rest && s1 == s.(board := Overlay(s.board, b, i, i + 1))
    ensures LoadAll(ts, s) == LoadAll(rest, s1)
  {
    PieceNameRoundTrip(b[i]);
    assert s.board[i := b[i]] == Overlay(s.board, b, i, i + 1);
    SingleCellThenRest(ts, i + 1, PieceName(b[i]), rest, s, s1.board);
  }

  /** A longer run of one piece loads as `[a;b] : PIECE`. */
  lemma RangeRunLoads(ts: seq<Token>, b: seq<int>, i: nat, e: nat, rest: seq<Token>, s: Scenario, s1: Scenario)
    requires i < e < |b| && e < |s.board| && |s.board| <= IntegerModulus && IsPiece(b[i])
    requires forall k :: i <= k <= e ==> b[k] == b[i]
    requires ts == AssignmentTokens(i, e, b[i]) + rest && s1 == s.(board := Overlay(s.board, b, i, e + 1))
    ensures LoadAll(ts, s) == LoadAll(rest, s1)
  {
    PieceNameRoundTrip(b[i]);
    assert FillRange(s.board, i, e, b[i]) == Overlay(s.board, b, i, e + 1);
    RangeThenRest(ts, i + 1, e + 1, PieceName(b[i]), rest, s, s1.board);
  }

  /** The first run's assignment, then the rest. */
  lemma CellTokensUnfold(b: seq<int>, i: nat, n: nat)
    requires i < n <= |b|
    ensures CellTokens(b, i, n) == AssignmentTokens(i, RunEnd(b, i, n), b[i]) + CellTokens(b, RunEnd(b, i, n) + 1, n)
  {
  }

  /** Overlaying nothing keeps the board. */
  lemma OverlayNothing(sb: seq<int>, b: seq<int>, i: nat)
    requires i <= |b|
    ensures Overlay(sb, b, i, i) == sb
  {
  }

  /** Overlaying the first run and then the cells after it is overlaying them all; the board stays empty after the run. */
  lemma OverlayStep(sb: seq<int>, b: seq<int>, i: nat, e: nat, n: nat, o: seq<int>)
    requires i <= e < n <= |b| && |sb| == MaxCells
    requires forall k :: i <= k < MaxCells ==> sb[k] == NoPiece
    requires o == Overlay(sb, b, i, e + 1)
    ensures |o| == MaxCells
    ensures forall k :: e + 1 <= k < MaxCells ==> o[k] == NoPiece
    ensures Overlay(o, b, e + 1, n) == Overlay(sb, b, i, n)
  {
  }

  /** The first run of cells i..n-1 loads, leaving the assignments after it and a board empty after it. */
  lemma CellTokensFirstRun(b: seq<int>, i: nat, n: nat, s: Scenario, e: nat, s1: Scenario, ts: seq<Token>, rest: seq<Token>)
    requires i < n <= |b| && n <= MaxCells && |s.board| == MaxCells
    requires forall k :: i <= k < n ==> IsCellValue(b[k])
    requires forall k :: i <= k < MaxCells ==> s.board[k] == NoPiece
    requires e == RunEnd(b, i, n) && s1 == s.(board := Overlay(s.board, b, i, e + 1))
    requires ts == CellTokens(b, i, n) && rest == CellTokens(b, e + 1, n)
    ensures LoadAll(ts, s) == LoadAll(rest, s1)
  {
    FirstRunTokens(b, i, n, e, ts, rest);
    if !IsPiece(b[i]) {
      EmptyRunLoads(ts, b, i, e, rest, s, s1);
    } else if i == e {
      SingleRunLoads(ts, b, i, rest, s, s1);
    } else {
      RangeRunLoads(ts, b, i, e, rest, s, s1);
    }
  }

  /** The assignments of cells i..n-1 are the first run's, then those after it. */
  lemma FirstRunTokens(b: seq<int>, i: nat, n: nat, e: nat, ts: seq<Token>, rest: seq<Token>)
    requires i < n <= |b| && e == RunEnd(b, i, n)
    requires ts == CellTokens(b, i, n) && rest == CellTokens(b, e + 1, n)
    ensures ts == AssignmentTokens(i, e, b[i]) + rest
  {
    CellTokensUnfold(b, i, n);
  }

  /** The cells after the first run load as the induction hypothesis says, so all of them do. */
  lemma CellTokensCompose(b: seq<int>, i: nat, n: nat, s: Scenario, e: nat, s1: Scenario)
    requires i < n <= |b| && n <= MaxCells && |s.board| == MaxCells
    requires forall k :: i <= k < n ==> IsCellValue(b[k])
    requires forall k :: i <= k < MaxCells ==> s.board[k] == NoPiece
    requires e == RunEnd(b, i, n) && s1 == s.(board := Overlay(s.board, b, i, e + 1))
    requires Overlay(s1.board, b, e + 1, n) == Overlay(s.board, b, i, n)
    requires LoadAll(CellTokens(b, e + 1, n), s1) == Ok(s1.(board := Overlay(s1.board, b, e + 1, n)))
    ensures LoadAll(CellTokens(b, i, n), s) == Ok(s.(board := Overlay(s.board, b, i, n)))
  {
    CellTokensFirstRun(b, i, n, s, e, s1, CellTokens(b, i, n), CellTokens(b, e + 1, n));
  }

  /** No cells, no assignments. */
  lemma CellTokensNone(b: seq<int>, i: nat, s: Scenario)
    requires i <= |b|
    ensures LoadAll(CellTokens(b, i, i), s) == Ok(s.(board := Overlay(s.board, b, i, i)))
  {
    OverlayNothing(s.board, b, i);
  }

  /** Loading the saved assignments of cells i..n-1 onto a board empty from cell i on reproduces those cells. */
  lemma {:induction false} CellTokensLoad(b: seq<int>, i: nat, n: nat, s: Scenario)
    requires i <= n <= |b| && n <= MaxCells && |s.board| == MaxCells
    requires forall k :: i <= k < n ==> IsCellValue(b[k])
    requires forall k :: i <= k < MaxCells ==> s.board[k] == NoPiece
    ensures LoadAll(CellTokens(b, i, n), s) == Ok(s.(board := Overlay(s.board, b, i, n)))
    decreases n - i
  {
    if i == n {
      CellTokensNone(b, i, s);
    } else {
      var e := RunEnd(b, i, n);
      var s1 := s.(board := Overlay(s.board, b, i, e + 1));
      OverlayStep(s.board, b, i, e, n, s1.board);
      CellTokensLoad(b, e + 1, n, s1);
      CellTokensCompose(b, i, n, s, e, s1);
    }
  }

  /** The header followed by the cells, one property line at a time. */
  lemma HeaderShape(sc: Scenario, cells: seq<Token>)
    ensures HeaderTokens(sc) + cells ==
      Property("SCENARIO_TYPE", Identifier(ModeToStr(sc.mode))) +
      (Property("TEAM", Identifier(TeamToStr(sc.team))) +
      (Property("BOARD", Integer(sc.rules.side)) +
      (Property("FLYING_KINGS", Identifier(BooleanToStr(sc.rules.flyingKings))) +
      (Property("PEONS_CAPTURE_BACKWARDS", Identifier(BooleanToStr(sc.rules.peonsCaptureBackwards))) +
      (Property("PEONS_MOVEMENT", Identifier(PeonMovementToStr(sc.rules.whiteTopToBottom))) +
      (Property("APPLY_LAW_OF_QUANTITY", Identifier(BooleanToStr(sc.rules.lawOfQuantity))) +
      (Property("APPLY_LAW_OF_QUALITY", Identifier(BooleanToStr(sc.rules.lawOfQuality))) +
      (Property("DOUBLE_CORNER_SIDE", Identifier(BooleanToStr(sc.rules.doubleCornerOnRight))) + cells))))))))
  {
  }

  /** The scenario p with the field of the k-th property line, 1-based, set as saved in sc. */
  function HeaderStep(sc: Scenario, p: Scenario, k: nat): Scenario
  {
    var r := sc.rules;
    if k == 1 then p.(mode := sc.mode)
    else if k == 2 then p.(team := sc.team)
    else if k == 3 then p.(rules := p.rules.(side := r.side))
    else if k == 4 then p.(rules := p.rules.(flyingKings := r.flyingKings))
    else if k == 5 then p.(rules := p.rules.(peonsCaptureBackwards := r.peonsCaptureBackwards))
    else if k == 6 then p.(rules := p.rules.(whiteTopToBottom := r.whiteTopToBottom))
    else if k == 7 then p.(rules := p.rules.(lawOfQuantity := r.lawOfQuantity))
    else if k == 8 then p.(rules := p.rules.(lawOfQuality := r.lawOfQuality))
    else p.(rules := p.rules.(doubleCornerOnRight := r.doubleCornerOnRight))
  }

  /** The scenario after the first k property lines, loaded onto d. */
  function AfterHeader(sc: Scenario, d: Scenario, k: nat): Scenario
    decreases k
  {
    if k == 0 then d else HeaderStep(sc, AfterHeader(sc, d, k - 1), k)
  }

  /** The k-th property line, 1-based, as its name and value. */
  function HeaderLine(sc: Scenario, k: nat): (string, Token)
    requires 1 <= k <= 9
  {
    var r := sc.rules;
    if k == 1 then ("SCENARIO_TYPE", Identifier(ModeToStr(sc.mode)))
    else if k == 2 then ("TEAM", Identifier(TeamToStr(sc.team)))
    else if k == 3 then ("BOARD", Integer(r.side))
    else if k == 4 then ("FLYING_KINGS", Identifier(BooleanToStr(r.flyingKings)))
    else if k == 5 then ("PEONS_CAPTURE_BACKWARDS", Identifier(BooleanToStr(r.peonsCaptureBackwards)))
    else if k == 6 then ("PEONS_MOVEMENT", Identifier(PeonMovementToStr(r.whiteTopToBottom)))
    else if k == 7 then ("APPLY_LAW_OF_QUANTITY", Identifier(BooleanToStr(r.lawOfQuantity)))
    else if k == 8 then ("APPLY_LAW_OF_QUALITY", Identifier(BooleanToStr(r.lawOfQuality)))
    else ("DOUBLE_CORNER_SIDE", Identifier(BooleanToStr(r.doubleCornerOnRight)))
  }

  /** The lines k..9 followed by the cells. */
  function HeaderFrom(sc: Scenario, k: nat, cells: seq<Token>): seq<Token>
    requires 1 <= k <= 10
    decreases 10 - k
  {
    if k == 10 then cells
    else Property(HeaderLine(sc, k).0, HeaderLine(sc, k).1) + HeaderFrom(sc, k + 1, cells)
  }

  /** Each saved property line is one the loader accepts, and it stores what was saved. */
  lemma HeaderLineApplies(sc: Scenario, p: Scenario, k: nat)
    requires 1 <= k <= 9
    requires sc.rules.side < 256
    requires sc.team == WhiteTeam || sc.team == BlackTeam
    requires sc.mode == ModeOneVsOne || sc.mode == ModeChallenge
    ensures var (name, v) := HeaderLine(sc, k);
      SettingOf(name).Some? && Kind(v) == ValueKind(SettingOf(name).value) &&
      ApplySetting(p, SettingOf(name).value, v) == Ok(HeaderStep(sc, p, k))
  {
    if k == 1 {
      assert SettingOf("SCENARIO_TYPE") == Some(TypeSetting);
    } else if k == 2 {
      assert SettingOf("TEAM") == Some(TeamSetting);
    } else if k == 3 {
      assert SettingOf("BOARD") == Some(SideSetting);
    } else if k == 6 {
      assert SettingOf("PEONS_MOVEMENT") == Some(MovementSetting);
    } else {
      FlagLineApplies(sc, p, k);
    }
  }

  /** The five flag lines. */
  lemma FlagLineApplies(sc: Scenario, p: Scenario, k: nat)
    requires k == 4 || k == 5 || k == 7 || k == 8 || k == 9
    ensures var (name, v) := HeaderLine(sc, k);
      SettingOf(name).Some? && Kind(v) == ValueKind(SettingOf(name).value) &&
      ApplySetting(p, SettingOf(name).value, v) == Ok(HeaderStep(sc, p, k))
  {
    if k == 4 {
      assert SettingOf("FLYING_KINGS") == Some(FlagSetting(FlyingKings));
    } else if k == 5 {
      assert SettingOf("PEONS_CAPTURE_BACKWARDS") == Some(FlagSetting(PeonsCaptureBackwards));
    } else if k == 7 {
      assert SettingOf("APPLY_LAW_OF_QUANTITY") == Some(FlagSetting(LawOfQuantity));
    } else if k == 8 {
      assert SettingOf("APPLY_LAW_OF_QUALITY") == Some(FlagSetting(LawOfQuality));
    } else {
      assert SettingOf("DOUBLE_CORNER_SIDE") == Some(FlagSetting(DoubleCornerOnRight));
    }
  }

  /** Loading the lines k..9 onto the scenario after the earlier lines. */
  lemma {:induction false} HeaderFromLoads(sc: Scenario, cells: seq<Token>, d: Scenario, k: nat)
    requires 1 <= k <= 10
    requires sc.rules.side < 256
    requires sc.team == WhiteTeam || sc.team == BlackTeam
    requires sc.mode == ModeOneVsOne || sc.mode == ModeChallenge
    ensures LoadAll(HeaderFrom(sc, k, cells), AfterHeader(sc, d, k - 1)) == LoadAll(cells, AfterHeader(sc, d, 9))
    decreases 10 - k
  {
    if k < 10 {
      var (name, v) := HeaderLine(sc, k);
      HeaderLineApplies(sc, AfterHeader(sc, d, k - 1), k);
      SettingThenRest(HeaderFrom(sc, k, cells), name, v, HeaderFrom(sc, k + 1, cells), AfterHeader(sc, d, k - 1), AfterHeader(sc, d, k));
      HeaderFromLoads(sc, cells, d, k + 1);
    }
  }

  /** The lines 1..9 are the header. */
  lemma HeaderFromStart(sc: Scenario, cells: seq<Token>)
    ensures HeaderFrom(sc, 1, cells) == HeaderTokens(sc) + cells
  {
    HeaderShape(sc, cells);
    assert HeaderFrom(sc, 9, cells) == Property(HeaderLine(sc, 9).0, HeaderLine(sc, 9).1) + cells;
    assert HeaderFrom(sc, 8, cells) == Property(HeaderLine(sc, 8).0, HeaderLine(sc, 8).1) + HeaderFrom(sc, 9, cells);
    assert HeaderFrom(sc, 7, cells) == Property(HeaderLine(sc, 7).0, HeaderLine(sc, 7).1) + HeaderFrom(sc, 8, cells);
    assert HeaderFrom(sc, 6, cells) == Property(HeaderLine(sc, 6).0, HeaderLine(sc, 6).1) + HeaderFrom(sc, 7, cells);
    assert HeaderFrom(sc, 5, cells) == Property(HeaderLine(sc, 5).0, HeaderLine(sc, 5).1) + HeaderFrom(sc, 6, cells);
    assert HeaderFrom(sc, 4, cells) == Property(HeaderLine(sc, 4).0, HeaderLine(sc, 4).1) + HeaderFrom(sc, 5, cells);
    assert HeaderFrom(sc, 3, cells) == Property(HeaderLine(sc, 3).0, HeaderLine(sc, 3).1) + HeaderFrom(sc, 4, cells);
    assert HeaderFrom(sc, 2, cells) == Property(HeaderLine(sc, 2).0, HeaderLine(sc, 2).1) + HeaderFrom(sc, 3, cells);
  }

  /** After the nine lines every saved field is in place. */
  lemma AfterWholeHeader(sc: Scenario, d: Scenario)
    ensures AfterHeader(sc, d, 9) == d.(rules := sc.rules, team := sc.team, mode := sc.mode)
  {
    AfterHeaderFields(sc, d, 9);
    var a := AfterHeader(sc, d, 9);
    assert a.rules == sc.rules;
  }

  /** After k property lines, the fields of the first k lines hold the saved values and the rest those of d. */
  lemma {:induction false} AfterHeaderFields(sc: Scenario, d: Scenario, k: nat)
    ensures var a := AfterHeader(sc, d, k);
      a.board == d.board && a.challengeMoves == d.challengeMoves &&
      a.mode == (if k >= 1 then sc.mode else d.mode) &&
      a.team == (if k >= 2 then sc.team else d.team) &&
      a.rules.side == (if k >= 3 then sc.rules.side else d.rules.side) &&
      a.rules.flyingKings == (if k >= 4 then sc.rules.flyingKings else d.rules.flyingKings) &&
      a.rules.peonsCaptureBackwards == (if k >= 5 then sc.rules.peonsCaptureBackwards else d.rules.peonsCaptureBackwards) &&
      a.rules.whiteTopToBottom == (if k >= 6 then sc.rules.whiteTopToBottom else d.rules.whiteTopToBottom) &&
      a.rules.lawOfQuantity == (if k >= 7 then sc.rules.lawOfQuantity else d.rules.lawOfQuantity) &&
      a.rules.lawOfQuality == (if k >= 8 then sc.rules.lawOfQuality else d.rules.lawOfQuality) &&
      a.rules.doubleCornerOnRight == (if k >= 9 then sc.rules.doubleCornerOnRight else d.rules.doubleCornerOnRight)
  {
    if k > 0 {
      AfterHeaderFields(sc, d, k - 1);
    }
  }

  /** Loading the saved properties stores the saved type, team and rules, whatever they were before. */
  lemma HeaderLoads(sc: Scenario, cells: seq<Token>, d: Scenario)
    requires sc.rules.side < 256
    requires sc.team == WhiteTeam || sc.team == BlackTeam
    requires sc.mode == ModeOneVsOne || sc.mode == ModeChallenge
    ensures LoadAll(HeaderTokens(sc) + cells, d) == LoadAll(cells, d.(rules := sc.rules, team := sc.team, mode := sc.mode))
  {
    HeaderFromStart(sc, cells);
    AfterWholeHeader(sc, d);
    HeaderFromLoads(sc, cells, d, 1);
  }

  /** What a saved scenario should read back as: its playable cells, and no piece beyond them. */
  function SavedBoard(b: seq<int>, n: nat): (o: seq<int>)
    requires n <= |b|
    ensures |o| == MaxCells
    ensures forall k :: 0 <= k < MaxCells ==> o[k] == if k < n then b[k] else NoPiece
  {
    Overlay(seq(MaxCells, k => NoPiece), b, 0, n)
  }

  /**
   * Saving and loading back: the type, the team, the rules and the playable cells come back as
   * saved, the cells beyond the playable ones are empty, and the challenge moves are those the
   * destination held, since no CHALLENGE block is written.
   */
  lemma SaveLoadRoundTrip(sc: Scenario, dest: Scenario)
    requires ValidSide(sc.rules.side) && |sc.board| == MaxCells
    requires sc.team == WhiteTeam || sc.team == BlackTeam
    requires sc.mode == ModeOneVsOne || sc.mode == ModeChallenge
    requires forall k :: 0 <= k < |sc.board| ==> IsCellValue(sc.board[k])
    ensures LoadScenario(SaveTokens(sc), dest)
         == Ok(Scenario(sc.rules, SavedBoard(sc.board, CellCount(sc.rules.side)), sc.team, sc.mode, dest.challengeMoves))
  {
    var n := CellCount(sc.rules.side);
    CellCountFits(sc.rules.side);
    var cells := CellTokens(sc.board, 0, n);
    var d0 := SetDefault(dest);
    var d1 := d0.(rules := sc.rules, team := sc.team, mode := sc.mode);
    HeaderLoads(sc, cells, d0);
    CellTokensLoad(sc.board, 0, n, d1);
    assert Overlay(d1.board, sc.board, 0, n) == SavedBoard(sc.board, n);
  }

  /** save_scenario_as_sch_file: the property lines, then one assignment per maximal run of equal cells. */
  method SaveScenario(sc: Scenario) returns (out: seq<Token>)
    requires CellCount(sc.rules.side) <= |sc.board|
    ensures out == SaveTokens(sc)
  {
    var header := SaveHeader(sc);
    var cells := SaveCells(sc.board, CellCount(sc.rules.side));
    out := header + cells;
  }

  /** The property lines of save_scenario_as_sch_file, one after the other. */
  method SaveHeader(sc: Scenario) returns (out: seq<Token>)
    ensures out == HeaderTokens(sc)
  {
    out := Property("SCENARIO_TYPE", Identifier(ModeToStr(sc.mode)));
    out := out + Property("TEAM", Identifier(TeamToStr(sc.team)));
    out := out + Property("BOARD", Integer(sc.rules.side));
    out := out + Property("FLYING_KINGS", Identifier(BooleanToStr(sc.rules.flyingKings)));
    out := out + Property("PEONS_CAPTURE_BACKWARDS", Identifier(BooleanToStr(sc.rules.peonsCaptureBackwards)));
    out := out + Property("PEONS_MOVEMENT", Identifier(PeonMovementToStr(sc.rules.whiteTopToBottom)));
    out := out + Property("APPLY_LAW_OF_QUANTITY", Identifier(BooleanToStr(sc.rules.lawOfQuantity)));
    out := out + Property("APPLY_LAW_OF_QUALITY", Identifier(BooleanToStr(sc.rules.lawOfQuality)));
    out := out + Property("DOUBLE_CORNER_SIDE", Identifier(BooleanToStr(sc.rules.doubleCornerOnRight)));
  }

  /** The board part of save_scenario_as_sch_file: scans the n cells run by run, writing one assignment per run. */
  method SaveCells(b: seq<int>, n: nat) returns (out: seq<Token>)
    requires n <= |b|
    ensures out == CellTokens(b, 0, n)
  {
    out := [];
    var cid := 0;
    while cid < n
      invariant cid <= n
      invariant out + CellTokens(b, cid, n) == CellTokens(b, 0, n)
      decreases n - cid
    {
      var e := FindRunEnd(b, cid, n);
      var written := AssignmentTokens(cid, e, b[cid]);
      CellTokensStep(out, b, cid, e, n, written, CellTokens(b, 0, n));
      out := out + written;
      cid := e + 1;
    }
    CellTokensDone(out, b, n);
  }

  /** Writing the run at i moves its assignment from the tokens still to write to those written. */
  lemma CellTokensStep(out: seq<Token>, b: seq<int>, i: nat, e: nat, n: nat, written: seq<Token>, total: seq<Token>)
    requires i < n <= |b| && e == RunEnd(b, i, n) && written == AssignmentTokens(i, e, b[i])
    requires out + CellTokens(b, i, n) == total
    ensures i <= e < n && (out + written) + CellTokens(b, e + 1, n) == total
  {
    FirstRunTokens(b, i, n, e, CellTokens(b, i, n), CellTokens(b, e + 1, n));
  }

  /** Past the last cell nothing is left to write. */
  lemma CellTokensDone(out: seq<Token>, b: seq<int>, n: nat)
    requires n <= |b|
    ensures out + CellTokens(b, n, n) == out
  {
  }

  /** The inner scan of save_scenario_as_sch_file: advances while the next cell holds the same value. */
  method FindRunEnd(b: seq<int>, start: nat, n: nat) returns (cid: nat)
    requires start < n <= |b|
    ensures cid == RunEnd(b, start, n)
  {
    var piece := b[start];
    cid := start;
    while cid + 1 < n && b[cid + 1] == piece
      invariant start <= cid < n && b[cid] == piece && piece == b[start]
      invariant RunEnd(b, start, n) == RunEnd(b, cid, n)
      decreases n - cid
    {
      cid := cid + 1;
    }
  }

  /** A scenario the editor can hold: well formed, with a legal board size. */
  predicate Editable(sc: Scenario)
  {
    WellFormed(sc) && ValidSide(sc.rules.side)
  }

  /** The editor starts from the default scenario, which it can hold. */
  lemma DefaultEditable(s: Scenario)
    ensures Editable(SetDefault(s))
  {
  }

  /** switch_board_size: 8, 10 and 12 follow each other in a cycle; any other size stays. */
  function NextBoardSize(side: nat): (next: nat)
    ensures ValidSide(side) ==> ValidSide(next) && next != side
    ensures !ValidSide(side) ==> next == side
  {
    if side == 8 then 10 else if side == 10 then 12 else if side == 12 then 8 else side
  }

  /** Three presses of the board size button give back the size. */
  lemma BoardSizeCycles(side: nat)
    ensures NextBoardSize(NextBoardSize(NextBoardSize(side))) == side
  {
  }

  /** The editor's state: the scenario being edited and the piece a click places. */
  class Editor {
    var scenario: Scenario
    var pieceToPlace: int

    predicate Valid()
      reads this
    {
      Editable(scenario) && IsCellValue(pieceToPlace)
    }

    /** game_set_mode_editor: the default scenario, and no piece to place. */
    constructor Enter(current: Scenario)
      ensures Valid()
      ensures scenario == SetDefault(current) && pieceToPlace == NoPiece
    {
      scenario := SetDefault(current);
      pieceToPlace := NoPiece;
      DefaultEditable(current);
    }

    /** clear_placeable_piece. */
    method ClearPlaceablePiece()
      requires Valid()
      modifies this
      ensures Valid() && pieceToPlace == NoPiece && scenario == old(scenario)
    {
      pieceToPlace := NoPiece;
    }

    /** set_placeable_white_peon, set_placeable_black_peon, set_placeable_white_queen and set_placeable_black_queen. */
    method SetPlaceablePiece(piece: int)
      requires Valid() && IsPiece(piece)
      modifies this
      ensures Valid() && pieceToPlace == piece && scenario == old(scenario)
    {
      pieceToPlace := piece;
    }

    /** switch_starting_team: white becomes black, anything else becomes white. */
    method SwitchStartingTeam()
      requires Valid()
      modifies this
      ensures Valid() && pieceToPlace == old(pieceToPlace)
      ensures scenario == old(scenario).(team := Other(old(scenario).team))
    {
      if scenario.team == WhiteTeam {
        scenario := scenario.(team := BlackTeam);
      } else {
        scenario := scenario.(team := WhiteTeam);
      }
    }

    /** switch_flying_kings, switch_law_of_quantity, switch_law_of_quality and switch_double_corner_side: one flag negated. */
    method SwitchFlag(f: Flag)
      requires Valid() && f != PeonsCaptureBackwards
      modifies this
      ensures Valid() && pieceToPlace == old(pieceToPlace)
      ensures scenario == old(scenario).(rules := SetFlag(old(scenario).rules, f, !FlagValue(old(scenario).rules, f)))
    {
      scenario := scenario.(rules := SetFlag(scenario.rules, f, !FlagValue(scenario.rules, f)));
    }

    /** switch_board_size. */
    method SwitchBoardSize()
      requires Valid()
      modifies this
      ensures Valid() && pieceToPlace == old(pieceToPlace)
      ensures scenario == old(scenario).(rules := old(scenario).rules.(side := NextBoardSize(old(scenario).rules.side)))
    {
      scenario := scenario.(rules := scenario.rules.(side := NextBoardSize(scenario.rules.side)));
    }

    /** The save button: the tokens of the file written for the scenario being edited. */
    method Save() returns (out: seq<Token>)
      requires Valid()
      ensures out == SaveTokens(scenario)
    {
      CellCountFits(scenario.rules.side);
      out := SaveScenario(scenario);
    }
  }
}
