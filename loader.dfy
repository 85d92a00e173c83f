/**
 * The scenario loader: reads a token sequence statement by statement into a scenario that
 * starts from the defaults. Every place where the C code logs and exits, or dereferences
 * the missing token after the last one, is an error result here; a statement that starts
 * with a token the loader never consumes (the C loop would spin forever) is `NoProgress`.
 * The specification works on the remaining tokens; the loader object below walks the same
 * tokens with an index, as the C loader does.
 */
module ScenarioLoading {
  import opened Common
  import opened Pieces
  import opened Geometry
  import opened Board
  import opened Tokens
  import opened Games

  datatype LoadError =
    | UnexpectedToken(found: Token)
    | UnexpectedEnd
    | UnknownIdentifier(name: string)
    | CellOutOfBoard(cell: nat)
    | NoProgress(found: Token)

  datatype Result<T> = Ok(value: T) | Err(error: LoadError)
  {
    predicate IsFailure() { Err? }
    function PropagateFailure<U>(): Result<U> requires Err? { Err(error) }
    function Extract(): T requires Ok? { value }
  }

  /** The tokens still to read and the scenario read so far. */
  datatype Loaded = Loaded(rest: seq<Token>, scenario: Scenario)

  /** What is left is a tail of what there was. */
  predicate IsSuffix(rest: seq<Token>, ts: seq<Token>)
  {
    |rest| <= |ts| && rest == ts[|ts| - |rest|..]
  }

  /** scenario_loader_eat_token: the current token must have the kind; it is consumed. */
  function Eat(ts: seq<Token>, kind: nat): (r: Result<seq<Token>>)
    ensures r.Ok? <==> |ts| > 0 && Kind(ts[0]) == kind
    ensures r.Ok? ==> r.value == ts[1..]
    ensures !r.Ok? ==> r.error == (if |ts| == 0 then UnexpectedEnd else UnexpectedToken(ts[0]))
  {
    if |ts| == 0 then Err(UnexpectedEnd)
    else if Kind(ts[0]) != kind then Err(UnexpectedToken(ts[0]))
    else Ok(ts[1..])
  }

  /** scenario_loader_eat_symbol: eat a symbol, then insist it is the one expected. */
  function EatSymbol(ts: seq<Token>, c: char): (r: Result<seq<Token>>)
    ensures r.Ok? <==> |ts| > 0 && ts[0] == Symbol(c)
    ensures r.Ok? ==> r.value == ts[1..]
  {
    var rest :- Eat(ts, KindSymbol);
    if ts[0].symbol != c then Err(UnexpectedToken(ts[0])) else Ok(rest)
  }

  /** scenario_loader_eat_property: an identifier, a colon and a value of the kind; the value and the tokens after it. */
  function EatProperty(ts: seq<Token>, kind: nat): (r: Result<(Token, seq<Token>)>)
    ensures r.Ok? <==> |ts| >= 3 && ts[0].Identifier? && ts[1] == Symbol(':') && Kind(ts[2]) == kind
    ensures r.Ok? ==> r.value == (ts[2], ts[3..])
  {
    var r1 :- Eat(ts, KindIdentifier);
    var r2 :- EatSymbol(r1, ':');
    var r3 :- Eat(r2, kind);
    Ok((r2[0], r3))
  }

  /** id_to_scenario_type. */
  function IdToScenarioType(id: string): (r: Option<int>)
    ensures r.Some? <==> id == "SCENARIO_1V1" || id == "SCENARIO_CHALLENGE"
    ensures r == Some(ModeOneVsOne) <==> id == "SCENARIO_1V1"
    ensures r == Some(ModeChallenge) <==> id == "SCENARIO_CHALLENGE"
  {
    if id == "SCENARIO_1V1" then Some(ModeOneVsOne)
    else if id == "SCENARIO_CHALLENGE" then Some(ModeChallenge)
    else None
  }

  /** id_to_peon_movement_option: true when white peons move from top to bottom. */
  function IdToPeonMovement(id: string): (r: Option<bool>)
    ensures r == Some(false) <==> id == "WHITE_BOTTOM_TO_TOP" || id == "BLACK_TOP_TO_BOTTOM"
    ensures r == Some(true) <==> id == "WHITE_TOP_TO_BOTTOM" || id == "BLACK_BOTTOM_TO_TOP"
  {
    if id == "WHITE_BOTTOM_TO_TOP" || id == "BLACK_TOP_TO_BOTTOM" then Some(false)
    else if id == "WHITE_TOP_TO_BOTTOM" || id == "BLACK_BOTTOM_TO_TOP" then Some(true)
    else None
  }

  /** id_to_boolean. */
  function IdToBoolean(id: string): (r: Option<bool>)
    ensures r == Some(true) <==> id == "TRUE"
    ensures r == Some(false) <==> id == "FALSE"
  {
    if id == "TRUE" then Some(true) else if id == "FALSE" then Some(false) else None
  }

  /** id_to_team. */
  function IdToTeam(id: string): (r: Option<int>)
    ensures r == Some(WhiteTeam) <==> id == "WHITE"
    ensures r == Some(BlackTeam) <==> id == "BLACK"
    ensures r.Some? ==> r.value == WhiteTeam || r.value == BlackTeam
  {
    if id == "WHITE" then Some(WhiteTeam) else if id == "BLACK" then Some(BlackTeam) else None
  }

  /** The identifiers of the four pieces. */
  function PieceName(p: int): string
  {
    if p == WhitePeon then "WHITE_PEON"
    else if p == WhiteQueen then "WHITE_QUEEN"
    else if p == BlackPeon then "BLACK_PEON"
    else if p == BlackQueen then "BLACK_QUEEN"
    else "EMPTY"
  }

  /** id_to_piece_type: the four pieces by name, and EMPTY for no piece. */
  function IdToPieceType(id: string): (r: Option<int>)
    ensures r.Some? ==> IsCellValue(r.value) && PieceName(r.value) == id
    ensures r.None? <==> forall p :: -2 <= p <= 2 ==> PieceName(p) != id
  {
    if id == "WHITE_PEON" then Some(WhitePeon)
    else if id == "WHITE_QUEEN" then Some(WhiteQueen)
    else if id == "BLACK_PEON" then Some(BlackPeon)
    else if id == "BLACK_QUEEN" then Some(BlackQueen)
    else if id == "EMPTY" then Some(NoPiece)
    else None
  }

  /** A 1-based number read into a 0-based cell_id_t: subtract one, keep 16 bits. */
  function CellIndexOf(v: nat): (id: nat)
    ensures id < IntegerModulus
    ensures 1 <= v <= IntegerModulus ==> id == v - 1
  {
    (v - 1) % IntegerModulus
  }

  /** board_unit_t is 8 bits wide. */
  function SideOf(v: nat): (side: nat)
    ensures side < 256
    ensures v < 256 ==> side == v
  {
    v % 256
  }

  /** The boolean rule properties. */
  datatype Flag = DoubleCornerOnRight | LawOfQuantity | LawOfQuality | FlyingKings | PeonsCaptureBackwards

  function FlagProperty(name: string): Option<Flag>
  {
    if name == "DOUBLE_CORNER_SIDE" then Some(DoubleCornerOnRight)
    else if name == "APPLY_LAW_OF_QUANTITY" then Some(LawOfQuantity)
    else if name == "APPLY_LAW_OF_QUALITY" then Some(LawOfQuality)
    else if name == "FLYING_KINGS" then Some(FlyingKings)
    else if name == "PEONS_CAPTURE_BACKWARDS" then Some(PeonsCaptureBackwards)
    else None
  }

  function FlagValue(r: Rules, f: Flag): bool
  {
    match f
    case DoubleCornerOnRight => r.doubleCornerOnRight
    case LawOfQuantity => r.lawOfQuantity
    case LawOfQuality => r.lawOfQuality
    case FlyingKings => r.flyingKings
    case PeonsCaptureBackwards => r.peonsCaptureBackwards
  }

  /** Set one rule flag; the side, the peon direction and every other flag stay. */
  function SetFlag(r: Rules, f: Flag, b: bool): (s: Rules)
    ensures FlagValue(s, f) == b
    ensures forall g :: g != f ==> FlagValue(s, g) == FlagValue(r, g)
    ensures s.side == r.side && s.whiteTopToBottom == r.whiteTopToBottom
  {
    match f
    case DoubleCornerOnRight => r.(doubleCornerOnRight := b)
    case LawOfQuantity => r.(lawOfQuantity := b)
    case LawOfQuality => r.(lawOfQuality := b)
    case FlyingKings => r.(flyingKings := b)
    case PeonsCaptureBackwards => r.(peonsCaptureBackwards := b)
  }

  /** The tokens between `{` and `}` when the mode is not a challenge: skipped up to the closing brace. */
  function SkipToClosingBrace(ts: seq<Token>): (r: Result<seq<Token>>)
    ensures r.Ok? ==> IsSuffix(r.value, ts) && |r.value| > 0 && r.value[0] == Symbol('}')
    ensures !r.Ok? ==> r.error == UnexpectedEnd
    decreases |ts|
  {
    if |ts| == 0 then Err(UnexpectedEnd)
    else if IsSymbol(ts[0], '}') then Ok(ts)
    else
      var r := SkipToClosingBrace(ts[1..]);
      SuffixOfTail(r, ts);
      r
  }

  /** A tail of the tail is a tail. */
  lemma SuffixOfTail(r: Result<seq<Token>>, ts: seq<Token>)
    requires |ts| > 0 && (r.Ok? ==> IsSuffix(r.value, ts[1..]))
    ensures r.Ok? ==> IsSuffix(r.value, ts)
  {
    if r.Ok? {
      assert ts[1..][|ts| - 1 - |r.value|..] == ts[|ts| - |r.value|..];
    }
  }

  /** The closing `)` of a challenge move. */
  function CloseMove(ts: seq<Token>, m: Move): (r: Result<(Move, seq<Token>)>)
  {
    var rest :- EatSymbol(ts, ')');
    Ok((m, rest))
  }

  /** parse_single_challenge_move: `(s, d)` or `(s, d, c)`, 1-based in the text, 0-based in the move. */
  function ParseMove(ts: seq<Token>): (r: Result<(Move, seq<Token>)>)
    ensures r.Ok? ==> IsSuffix(r.value.1, ts) && |r.value.1| < |ts|
  {
    var (source, dest, r4) :- MoveCells(ts);
    MoveEnd(r4, source, dest)
  }

  /** The head `(s, d` of a challenge move: both cells, 0-based, and the tokens after them. */
  function MoveCells(ts: seq<Token>): (r: Result<(nat, nat, seq<Token>)>)
    ensures r.Ok? ==> IsSuffix(r.value.2, ts) && |r.value.2| < |ts|
  {
    var r1 :- EatSymbol(ts, '(');
    var r2 :- Eat(r1, KindInteger);
    var r3 :- EatSymbol(r2, ',');
    var r4 :- Eat(r3, KindInteger);
    Ok((CellIndexOf(r1[0].value), CellIndexOf(r3[0].value), r4))
  }

  /** The rest of a challenge move: an optional `, c` giving the captured cell, then `)`. */
  function MoveEnd(r4: seq<Token>, source: nat, dest: nat): (r: Result<(Move, seq<Token>)>)
    ensures r.Ok? ==> IsSuffix(r.value.1, r4) && |r.value.1| < |r4|
  {
    if |r4| == 0 then Err(UnexpectedEnd)
    else if IsSymbol(r4[0], ',') then
      // eat_symbol(',') cannot fail on the comma just tested
      var r5 := r4[1..];
      var r6 :- Eat(r5, KindInteger);
      CloseMove(r6, Move(true, CellIndexOf(r5[0].value), source, dest))
    else CloseMove(r4, Move(false, 0, source, dest))
  }

  /** The challenge block's moves, appended in file order until the closing brace. */
  function ParseMoves(ts: seq<Token>, acc: seq<Move>): (r: Result<(seq<Move>, seq<Token>)>)
    ensures r.Ok? ==> IsSuffix(r.value.1, ts) && |r.value.1| > 0 && r.value.1[0] == Symbol('}')
    ensures r.Ok? ==> |acc| <= |r.value.0| && r.value.0[..|acc|] == acc
    decreases |ts|
  {
    if |ts| == 0 then Err(UnexpectedEnd)
    else if IsSymbol(ts[0], '}') then Ok((acc, ts))
    else
      var (m, rest) :- ParseMove(ts);
      var r := ParseMoves(rest, acc + [m]);
      MovesOfTail(r, ts, rest, acc, m);
      r
  }

  /** What the rest of the block parses to, seen from the whole block. */
  lemma MovesOfTail(r: Result<(seq<Move>, seq<Token>)>, ts: seq<Token>, rest: seq<Token>, acc: seq<Move>, m: Move)
    requires IsSuffix(rest, ts)
    requires r.Ok? ==> IsSuffix(r.value.1, rest) && |acc + [m]| <= |r.value.0| && r.value.0[..|acc + [m]|] == acc + [m]
    ensures r.Ok? ==> IsSuffix(r.value.1, ts) && |acc| <= |r.value.0| && r.value.0[..|acc|] == acc
  {
    if r.Ok? {
      assert ts[|ts| - |rest|..][|rest| - |r.value.1|..] == ts[|ts| - |r.value.1|..];
      assert r.value.0[..|acc + [m]|][..|acc|] == r.value.0[..|acc|];
    }
  }

  /** The block after `{`: skipped up to its `}` outside a challenge; inside, its moves replace the scenario's. */
  function ChallengeBlock(ts: seq<Token>, sc: Scenario): (r: Result<Loaded>)
    ensures r.Ok? ==> IsSuffix(r.value.rest, ts) && |r.value.rest| < |ts|
    ensures r.Ok? ==> r.value.scenario.(challengeMoves := sc.challengeMoves) == sc
    ensures r.Ok? && sc.mode != ModeChallenge ==> r.value.scenario == sc
  {
    if sc.mode != ModeChallenge then
      var r4 :- SkipToClosingBrace(ts);
      // eat_symbol('}') cannot fail on the brace the loop stopped at
      Ok(Loaded(r4[1..], sc))
    else
      var (moves, r4) :- ParseMoves(ts, []);
      Ok(Loaded(r4[1..], sc.(challengeMoves := moves)))
  }

  /** scenario_loader_load_challenge_moves: `CHALLENGE : {` and then the block. */
  function LoadChallenge(ts: seq<Token>, sc: Scenario): (r: Result<Loaded>)
    ensures r.Ok? ==> IsSuffix(r.value.rest, ts) && |r.value.rest| < |ts|
    ensures r.Ok? ==> r.value.scenario.(challengeMoves := sc.challengeMoves) == sc
    ensures r.Ok? && sc.mode != ModeChallenge ==> r.value.scenario == sc
  {
    var r3 :- ChallengeHead(ts);
    ChallengeBlock(r3, sc)
  }

  /** `CHALLENGE : {`: the tokens after the brace. */
  function ChallengeHead(ts: seq<Token>): (r: Result<seq<Token>>)
    ensures r.Ok? ==> IsSuffix(r.value, ts) && |r.value| < |ts|
  {
    var r1 :- Eat(ts, KindIdentifier);
    var r2 :- EatSymbol(r1, ':');
    EatSymbol(r2, '{')
  }

  /** The properties written `NAME : value`, each with the kind of its value token. */
  datatype Setting = TeamSetting | SideSetting | FlagSetting(flag: Flag) | MovementSetting | TypeSetting | TextSetting

  /** The property an identifier names, other than CHALLENGE. */
  function SettingOf(name: string): Option<Setting>
  {
    if name == "TEAM" then Some(TeamSetting)
    else if name == "BOARD" then Some(SideSetting)
    else if FlagProperty(name).Some? then Some(FlagSetting(FlagProperty(name).value))
    else if name == "PEONS_MOVEMENT" then Some(MovementSetting)
    else if name == "SCENARIO_TYPE" then Some(TypeSetting)
    else if name == "NAME" || name == "ICON" then Some(TextSetting)
    else None
  }

  function ValueKind(s: Setting): nat
  {
    match s
    case SideSetting => KindInteger
    case TextSetting => KindString
    case _ => KindIdentifier
  }

  /** The scenario with the property's value stored in its field; NAME and ICON store nothing. */
  function ApplySetting(sc: Scenario, s: Setting, v: Token): (r: Result<Scenario>)
    requires Kind(v) == ValueKind(s)
  {
    match s
    case TeamSetting =>
      (match IdToTeam(v.name)
       case None => Err(UnknownIdentifier(v.name))
       case Some(t) => Ok(sc.(team := t)))
    case SideSetting => Ok(sc.(rules := sc.rules.(side := SideOf(v.value))))
    case FlagSetting(f) =>
      (match IdToBoolean(v.name)
       case None => Err(UnknownIdentifier(v.name))
       case Some(b) => Ok(sc.(rules := SetFlag(sc.rules, f, b))))
    case MovementSetting =>
      (match IdToPeonMovement(v.name)
       case None => Err(UnknownIdentifier(v.name))
       case Some(b) => Ok(sc.(rules := sc.rules.(whiteTopToBottom := b))))
    case TypeSetting =>
      (match IdToScenarioType(v.name)
       case None => Err(UnknownIdentifier(v.name))
       case Some(m) => Ok(sc.(mode := m)))
    case TextSetting => Ok(sc)
  }

  /** scenario_loader_eat_property followed by storing the value. */
  function LoadSetting(ts: seq<Token>, sc: Scenario, s: Setting): (r: Result<Loaded>)
    ensures r.Ok? ==> IsSuffix(r.value.rest, ts) && |r.value.rest| < |ts|
  {
    var (v, rest) :- EatProperty(ts, ValueKind(s));
    var next :- ApplySetting(sc, s, v);
    Ok(Loaded(rest, next))
  }

  /** scenario_loader_load_id: a property statement, chosen by its identifier. */
  function LoadProperty(ts: seq<Token>, sc: Scenario): (r: Result<Loaded>)
    requires |ts| > 0 && ts[0].Identifier?
    ensures r.Ok? ==> IsSuffix(r.value.rest, ts) && |r.value.rest| < |ts|
  {
    var name := ts[0].name;
    if name == "CHALLENGE" then LoadChallenge(ts, sc)
    else match SettingOf(name)
      case None => Err(UnknownIdentifier(name))
      case Some(s) => LoadSetting(ts, sc, s)
  }

  /** scenario_loader_load_singlecell_piece_assignment: `N : PIECE` sets cell N-1. */
  function LoadSingleCell(ts: seq<Token>, sc: Scenario): (r: Result<Loaded>)
    requires |ts| > 0 && ts[0].Integer?
    ensures r.Ok? ==> IsSuffix(r.value.rest, ts) && |r.value.rest| < |ts|
  {
    var id := CellIndexOf(ts[0].value);
    // eat_token(INTEGER) cannot fail on the integer that chose this statement
    var r1 := ts[1..];
    var r2 :- EatSymbol(r1, ':');
    var r3 :- Eat(r2, KindIdentifier);
    match IdToPieceType(r2[0].name)
    case None => Err(UnknownIdentifier(r2[0].name))
    case Some(piece) =>
      if id >= |sc.board| then Err(CellOutOfBoard(id))
      else Ok(Loaded(r3, sc.(board := sc.board[id := piece])))
  }

  /** The cells lo..hi, both included, set to v. */
  function FillRange(b: seq<int>, lo: nat, hi: nat, v: int): (f: seq<int>)
    ensures |f| == |b|
    ensures forall k :: 0 <= k < |b| ==> f[k] == (if lo <= k <= hi then v else b[k])
  {
    seq(|b|, k requires 0 <= k < |b| => if lo <= k <= hi then v else b[k])
  }

  /** The head `[a;b] :` of a range assignment: the bounds, 0-based and in increasing order, and the tokens after the colon. */
  function RangeBounds(ts: seq<Token>): (r: Result<(nat, nat, seq<Token>)>)
    ensures r.Ok? ==> IsSuffix(r.value.2, ts) && |r.value.2| < |ts| && r.value.0 <= r.value.1
  {
    var r1 :- EatSymbol(ts, '[');
    var r2 :- Eat(r1, KindInteger);
    var r3 :- EatSymbol(r2, ';');
    var r4 :- Eat(r3, KindInteger);
    var r5 :- EatSymbol(r4, ']');
    var r6 :- EatSymbol(r5, ':');
    var a := CellIndexOf(r1[0].value);
    var b := CellIndexOf(r3[0].value);
    Ok((if a > b then b else a, if a > b then a else b, r6))
  }

  /** The piece name of a range assignment, then the cells lo..hi set to it. */
  function RangePiece(ts: seq<Token>, sc: Scenario, lo: nat, hi: nat): (r: Result<Loaded>)
    ensures r.Ok? ==> IsSuffix(r.value.rest, ts) && |r.value.rest| < |ts|
  {
    var r7 :- Eat(ts, KindIdentifier);
    match IdToPieceType(ts[0].name)
    case None => Err(UnknownIdentifier(ts[0].name))
    case Some(piece) =>
      if hi >= |sc.board| then Err(CellOutOfBoard(hi))
      else Ok(Loaded(r7, sc.(board := FillRange(sc.board, lo, hi, piece))))
  }

  /** scenario_loader_load_multicell_piece_assignment: `[a;b] : PIECE` sets cells a-1..b-1, whichever bound is larger. */
  function LoadRange(ts: seq<Token>, sc: Scenario): (r: Result<Loaded>)
    ensures r.Ok? ==> IsSuffix(r.value.rest, ts) && |r.value.rest| < |ts|
  {
    var (lo, hi, r6) :- RangeBounds(ts);
    RangePiece(r6, sc, lo, hi)
  }

  /** scenario_loader_load_statement: dispatch on the current token; anything else is never consumed. */
  function LoadStatement(ts: seq<Token>, sc: Scenario): (r: Result<Loaded>)
    requires |ts| > 0
    ensures r.Ok? ==> IsSuffix(r.value.rest, ts) && |r.value.rest| < |ts|
    ensures !(ts[0].Identifier? || ts[0].Integer? || ts[0] == Symbol('[')) ==> r == Err(NoProgress(ts[0]))
  {
    match ts[0]
    case Identifier(_) => LoadProperty(ts, sc)
    case Integer(_) => LoadSingleCell(ts, sc)
    case Symbol(c) => if c == '[' then LoadRange(ts, sc) else Err(NoProgress(ts[0]))
    case _ => Err(NoProgress(ts[0]))
  }

  /** A statement that starts with `[` is a range assignment. */
  lemma StatementIsRange(ts: seq<Token>, sc: Scenario)
    requires |ts| > 0 && ts[0] == Symbol('[')
    ensures LoadStatement(ts, sc) == LoadRange(ts, sc)
  {
  }

  /** A statement that starts with an integer is a single-cell assignment. */
  lemma StatementIsSingleCell(ts: seq<Token>, sc: Scenario)
    requires |ts| > 0 && ts[0].Integer?
    ensures LoadStatement(ts, sc) == LoadSingleCell(ts, sc)
  {
  }

  /** A statement that loads is followed by the loading of what it leaves. */
  lemma LoadAllStep(ts: seq<Token>, sc: Scenario, l: Loaded)
    requires |ts| > 0 && LoadStatement(ts, sc) == Ok(l)
    ensures LoadAll(ts, sc) == LoadAll(l.rest, l.scenario)
  {
  }

  /** Loading continues after a range assignment `[a;b] : PIECE`, a <= b, with the cells a-1..b-1 filled. */
  lemma RangeThenRest(ts: seq<Token>, a: nat, b: nat, name: string, rest: seq<Token>, sc: Scenario, filled: seq<int>)
    requires ts == [Symbol('['), Integer(a), Symbol(';'), Integer(b), Symbol(']'), Symbol(':'), Identifier(name)] + rest
    requires IdToPieceType(name).Some?
    requires 1 <= a <= b <= |sc.board| && b <= IntegerModulus
    requires filled == FillRange(sc.board, a - 1, b - 1, IdToPieceType(name).value)
    ensures LoadAll(ts, sc) == LoadAll(rest, sc.(board := filled))
  {
    RangeStatement(a, b, name, rest, sc);
    StatementIsRange(ts, sc);
    LoadAllStep(ts, sc, Loaded(rest, sc.(board := filled)));
  }

  /** Loading continues after a single-cell assignment `N : PIECE` with cell N-1 set. */
  lemma SingleCellThenRest(ts: seq<Token>, n: nat, name: string, rest: seq<Token>, sc: Scenario, updated: seq<int>)
    requires ts == [Integer(n), Symbol(':'), Identifier(name)] + rest
    requires IdToPieceType(name).Some?
    requires 1 <= n <= |sc.board| && n <= IntegerModulus
    requires updated == sc.board[n - 1 := IdToPieceType(name).value]
    ensures LoadAll(ts, sc) == LoadAll(rest, sc.(board := updated))
  {
    SingleCellStatement(n, name, rest, sc);
    StatementIsSingleCell(ts, sc);
    LoadAllStep(ts, sc, Loaded(rest, sc.(board := updated)));
  }

  /** A statement that starts with an identifier is a property statement. */
  lemma StatementIsProperty(ts: seq<Token>, sc: Scenario)
    requires |ts| > 0 && ts[0].Identifier?
    ensures LoadStatement(ts, sc) == LoadProperty(ts, sc)
  {
  }

  /** Loading continues after a property statement `NAME : value` with the value stored. */
  lemma SettingThenRest(ts: seq<Token>, name: string, v: Token, rest: seq<Token>, sc: Scenario, next: Scenario)
    requires ts == [Identifier(name), Symbol(':'), v] + rest
    requires SettingOf(name).Some? && Kind(v) == ValueKind(SettingOf(name).value)
    requires ApplySetting(sc, SettingOf(name).value, v) == Ok(next)
    ensures LoadAll(ts, sc) == LoadAll(rest, next)
  {
    assert ts[3..] == rest;
    assert LoadSetting(ts, sc, SettingOf(name).value) == Ok(Loaded(rest, next));
    StatementIsProperty(ts, sc);
    LoadAllStep(ts, sc, Loaded(rest, next));
  }

  /** The statement loop of load_scenario_from_token_array. */
  function LoadAll(ts: seq<Token>, sc: Scenario): Result<Scenario>
    decreases |ts|
  {
    if |ts| == 0 then Ok(sc)
    else
      var l :- LoadStatement(ts, sc);
      LoadAll(l.rest, l.scenario)
  }

  /** load_scenario_from_token_array: the defaults, then every statement. */
  function LoadScenario(ts: seq<Token>, dest: Scenario): Result<Scenario>
  {
    LoadAll(ts, SetDefault(dest))
  }

  /** A scenario as the loader leaves it: a full board of cell values, a team, a known type, an 8-bit side. */
  predicate WellFormed(sc: Scenario)
  {
    |sc.board| == MaxCells && (sc.team == WhiteTeam || sc.team == BlackTeam) &&
    (sc.mode == ModeOneVsOne || sc.mode == ModeChallenge) && sc.rules.side < 256 &&
    forall i :: 0 <= i < |sc.board| ==> IsCellValue(sc.board[i])
  }

  /** `N : PIECE` with a known piece sets cell N-1 when it is on the board, and nothing else. */
  lemma SingleCellStatement(n: nat, name: string, rest: seq<Token>, sc: Scenario)
    requires IdToPieceType(name).Some?
    ensures var r := LoadSingleCell([Integer(n), Symbol(':'), Identifier(name)] + rest, sc);
      (1 <= n <= |sc.board| && n <= IntegerModulus ==> r == Ok(Loaded(rest, sc.(board := sc.board[n - 1 := IdToPieceType(name).value])))) &&
      (|sc.board| < n <= IntegerModulus ==> r == Err(CellOutOfBoard(n - 1)))
  {
    var ts := [Integer(n), Symbol(':'), Identifier(name)] + rest;
    var r2 := ts[1..][1..];
    assert ts[1..][0] == Symbol(':');
    assert r2[0] == Identifier(name);
    assert r2[1..] == rest;
    if |sc.board| < n <= IntegerModulus {
      assert CellIndexOf(n) == n - 1;
      assert LoadSingleCell(ts, sc) == Err(CellOutOfBoard(n - 1));
    }
  }

  /** The head `[a;b] :` yields the smaller bound first, whichever was written first. */
  lemma RangeBoundsOf(a: nat, b: nat, tail: seq<Token>)
    ensures var lo := CellIndexOf(a); var hi := CellIndexOf(b);
      RangeBounds([Symbol('['), Integer(a), Symbol(';'), Integer(b), Symbol(']'), Symbol(':')] + tail)
        == Ok((if lo > hi then hi else lo, if lo > hi then lo else hi, tail))
  {
    var ts := [Symbol('['), Integer(a), Symbol(';'), Integer(b), Symbol(']'), Symbol(':')] + tail;
    assert ts[1..][1..][1..][1..][1..][1..] == tail;
  }

  /** `[a;b] : PIECE` with a known piece and both bounds on the board fills the cells between them, and nothing else. */
  lemma RangeStatement(a: nat, b: nat, name: string, rest: seq<Token>, sc: Scenario)
    requires IdToPieceType(name).Some?
    requires 1 <= a <= |sc.board| && 1 <= b <= |sc.board| && a <= IntegerModulus && b <= IntegerModulus
    ensures LoadRange([Symbol('['), Integer(a), Symbol(';'), Integer(b), Symbol(']'), Symbol(':'), Identifier(name)] + rest, sc)
         == Ok(Loaded(rest, sc.(board := FillRange(sc.board, if a > b then b - 1 else a - 1, if a > b then a - 1 else b - 1, IdToPieceType(name).value))))
  {
    var tail := [Identifier(name)] + rest;
    assert [Symbol('['), Integer(a), Symbol(';'), Integer(b), Symbol(']'), Symbol(':'), Identifier(name)] + rest
        == [Symbol('['), Integer(a), Symbol(';'), Integer(b), Symbol(']'), Symbol(':')] + tail;
    RangeBoundsOf(a, b, tail);
    assert tail[1..] == rest;
  }

  /** Swapping the bounds of `[a;b] : PIECE` loads the same cells. */
  lemma RangeOrderIrrelevant(a: nat, b: nat, name: string, rest: seq<Token>, sc: Scenario)
    ensures LoadRange([Symbol('['), Integer(a), Symbol(';'), Integer(b), Symbol(']'), Symbol(':'), Identifier(name)] + rest, sc)
         == LoadRange([Symbol('['), Integer(b), Symbol(';'), Integer(a), Symbol(']'), Symbol(':'), Identifier(name)] + rest, sc)
  {
    var tail := [Identifier(name)] + rest;
    assert [Symbol('['), Integer(a), Symbol(';'), Integer(b), Symbol(']'), Symbol(':'), Identifier(name)] + rest
        == [Symbol('['), Integer(a), Symbol(';'), Integer(b), Symbol(']'), Symbol(':')] + tail;
    assert [Symbol('['), Integer(b), Symbol(';'), Integer(a), Symbol(']'), Symbol(':'), Identifier(name)] + rest
        == [Symbol('['), Integer(b), Symbol(';'), Integer(a), Symbol(']'), Symbol(':')] + tail;
    RangeBoundsOf(a, b, tail);
    RangeBoundsOf(b, a, tail);
  }

  /** A range statement that loads sets exactly the cells between its bounds and leaves every other field. */
  lemma RangeStatementEffect(ts: seq<Token>, sc: Scenario)
    requires LoadRange(ts, sc).Ok?
    ensures var l := LoadRange(ts, sc).value;
      var a := CellIndexOf(ts[1].value);
      var b := CellIndexOf(ts[3].value);
      |ts| >= 7 && ts[1].Integer? && ts[3].Integer? && ts[6].Identifier? &&
      IdToPieceType(ts[6].name).Some? && a < |sc.board| && b < |sc.board| &&
      l.scenario.(board := sc.board) == sc && |l.scenario.board| == |sc.board| &&
      forall k :: 0 <= k < |sc.board| ==>
        l.scenario.board[k] == if (a <= k <= b || b <= k <= a) then IdToPieceType(ts[6].name).value else sc.board[k]
  {
    assert ts[1..][1..][1..][1..][1..][1..] == ts[6..];
  }

  /** A move `(s, d)` or `(s, d, c)`: a capture exactly when the third number is there; every cell is one less than written. */
  lemma ParseMoveShape(ts: seq<Token>)
    requires ParseMove(ts).Ok?
    ensures var m := ParseMove(ts).value.0;
      |ts| >= 5 && ts[0] == Symbol('(') && ts[1].Integer? && ts[2] == Symbol(',') && ts[3].Integer? &&
      m.source == CellIndexOf(ts[1].value) && m.dest == CellIndexOf(ts[3].value) &&
      (m.isCapture <==> ts[4] == Symbol(',')) &&
      (m.isCapture ==>
        |ts| >= 7 && ts[5].Integer? && m.capture == CellIndexOf(ts[5].value) &&
        ts[6] == Symbol(')') && ParseMove(ts).value.1 == ts[7..]) &&
      (!m.isCapture ==> ts[4] == Symbol(')') && ParseMove(ts).value.1 == ts[5..])
  {
    assert ts[1..][1..][1..][1..] == ts[4..];
    if ts[4] == Symbol(',') {
      assert ts[4..][1..][1..] == ts[6..];
      assert ts[6..][1..] == ts[7..];
    } else {
      assert ts[4..][1..] == ts[5..];
    }
  }

  /** A property statement never touches the board. */
  lemma PropertyKeepsBoard(ts: seq<Token>, sc: Scenario)
    requires |ts| > 0 && ts[0].Identifier? && LoadProperty(ts, sc).Ok?
    ensures LoadProperty(ts, sc).value.scenario.board == sc.board
  {
    var name := ts[0].name;
    if name != "CHALLENGE" {
      var v := EatProperty(ts, ValueKind(SettingOf(name).value)).value.0;
      assert ApplySetting(sc, SettingOf(name).value, v).Ok?;
    }
  }

  /** Every statement that loads keeps the scenario well formed. */
  lemma StatementKeepsWellFormed(ts: seq<Token>, sc: Scenario)
    requires |ts| > 0 && WellFormed(sc) && LoadStatement(ts, sc).Ok?
    ensures WellFormed(LoadStatement(ts, sc).value.scenario)
  {
    var l := LoadStatement(ts, sc).value;
    match ts[0]
    case Identifier(name) =>
      PropertyKeepsBoard(ts, sc);
      if name != "CHALLENGE" {
        var st := SettingOf(name).value;
        var v := EatProperty(ts, ValueKind(st)).value.0;
        assert l.scenario == ApplySetting(sc, st, v).value;
      }
    case Integer(_) =>
      assert l.scenario.board == sc.board[CellIndexOf(ts[0].value) := IdToPieceType(ts[2].name).value];
    case Symbol(_) =>
      RangeStatementEffect(ts, sc);
    case _ =>
  }

  /** Loading from a well-formed scenario gives a well-formed one. */
  lemma {:induction false} LoadAllKeepsWellFormed(ts: seq<Token>, sc: Scenario)
    requires WellFormed(sc) && LoadAll(ts, sc).Ok?
    ensures WellFormed(LoadAll(ts, sc).value)
    decreases |ts|
  {
    if |ts| > 0 {
      var l := LoadStatement(ts, sc).value;
      StatementKeepsWellFormed(ts, sc);
      LoadAllKeepsWellFormed(l.rest, l.scenario);
    }
  }

  /** A loaded scenario has a full board of cell values, a team, a known type and an 8-bit side. */
  lemma LoadedScenarioWellFormed(ts: seq<Token>, dest: Scenario)
    requires LoadScenario(ts, dest).Ok?
    ensures WellFormed(LoadScenario(ts, dest).value)
  {
    LoadAllKeepsWellFormed(ts, SetDefault(dest));
  }

  /** scenario_loader_t: the tokens, the index of the current one, and the scenario being filled in place. */
  class ScenarioLoader {
    const tokens: seq<Token>
    var position: nat
    var rules: Rules
    var team: int
    var mode: int
    var challengeMoves: seq<Move>
    const cells: array<int>

    predicate Valid()
      reads this
    {
      position <= |tokens| && cells.Length == MaxCells
    }

    /** The current token and those after it. */
    function Remaining(): seq<Token>
      reads this
      requires position <= |tokens|
    {
      tokens[position..]
    }

    /** The scenario as filled so far. */
    function Current(): Scenario
      reads this, cells
    {
      Scenario(rules, cells[..], team, mode, challengeMoves)
    }

    /** The loader at the first token, with the destination reset by scenario_set_default. */
    constructor (ts: seq<Token>, dest: Scenario)
      ensures Valid() && fresh(cells) && tokens == ts && position == 0
      ensures Current() == SetDefault(dest)
    {
      var d := SetDefault(dest);
      tokens := ts;
      position := 0;
      rules := d.rules;
      team := d.team;
      mode := d.mode;
      challengeMoves := d.challengeMoves;
      cells := new int[MaxCells](i => NoPiece);
      new;
      assert cells[..] == d.board;
    }

    /** scenario_loader_eat_token. */
    method EatToken(kind: nat) returns (err: Option<LoadError>)
      requires Valid()
      modifies this`position
      ensures Valid()
      ensures match Eat(old(Remaining()), kind)
        case Ok(rest) => err.None? && Remaining() == rest
        case Err(e) => err == Some(e)
    {
      if position >= |tokens| {
        return Some(UnexpectedEnd);
      }
      var t := tokens[position];
      if Kind(t) != kind {
        return Some(UnexpectedToken(t));
      }
      position := position + 1;
      return None;
    }

    /** scenario_loader_eat_symbol: the token just eaten must be the symbol. */
    method EatSymbolToken(c: char) returns (err: Option<LoadError>)
      requires Valid()
      modifies this`position
      ensures Valid()
      ensures match EatSymbol(old(Remaining()), c)
        case Ok(rest) => err.None? && Remaining() == rest
        case Err(e) => err == Some(e)
    {
      err := EatToken(KindSymbol);
      if err.Some? {
        return;
      }
      var prev := tokens[position - 1];
      if prev.symbol != c {
        return Some(UnexpectedToken(prev));
      }
    }

    /** scenario_loader_eat_property, then the value stored in its field. */
    method LoadSettingStatement(s: Setting) returns (err: Option<LoadError>)
      requires Valid()
      modifies this`position, this`rules, this`team, this`mode
      ensures Valid()
      ensures match LoadSetting(old(Remaining()), old(Current()), s)
        case Ok(l) => err.None? && Remaining() == l.rest && Current() == l.scenario
        case Err(e) => err == Some(e)
    {
      err := EatToken(KindIdentifier);
      if err.Some? {
        return;
      }
      err := EatSymbolToken(':');
      if err.Some? {
        return;
      }
      err := EatToken(ValueKind(s));
      if err.Some? {
        return;
      }
      var v := tokens[position - 1];
      match s {
        case TeamSetting =>
          var t := IdToTeam(v.name);
          if t.None? {
            return Some(UnknownIdentifier(v.name));
          }
          team := t.value;
        case SideSetting =>
          rules := rules.(side := SideOf(v.value));
        case FlagSetting(f) =>
          var b := IdToBoolean(v.name);
          if b.None? {
            return Some(UnknownIdentifier(v.name));
          }
          rules := SetFlag(rules, f, b.value);
        case MovementSetting =>
          var b := IdToPeonMovement(v.name);
          if b.None? {
            return Some(UnknownIdentifier(v.name));
          }
          rules := rules.(whiteTopToBottom := b.value);
        case TypeSetting =>
          var m := IdToScenarioType(v.name);
          if m.None? {
            return Some(UnknownIdentifier(v.name));
          }
          mode := m.value;
        case TextSetting =>
      }
    }

    /** parse_single_challenge_move: one move appended to the list. */
    method ParseChallengeMove(moves: seq<Move>) returns (moves': seq<Move>, err: Option<LoadError>)
      requires Valid()
      modifies this`position
      ensures Valid()
      ensures match ParseMove(old(Remaining()))
        case Ok((m, rest)) => err.None? && Remaining() == rest && moves' == moves + [m]
        case Err(e) => err == Some(e)
    {
      moves' := moves;
      var source, dest;
      source, dest, err := ReadMoveCells();
      if err.Some? {
        return;
      }
      var move;
      move, err := ReadMoveEnd(source, dest);
      if err.Some? {
        return;
      }
      moves' := moves + [move];
    }

    /** The `(s, d` of parse_single_challenge_move. */
    method ReadMoveCells() returns (source: nat, dest: nat, err: Option<LoadError>)
      requires Valid()
      modifies this`position
      ensures Valid()
      ensures match MoveCells(old(Remaining()))
        case Ok((s, d, rest)) => err.None? && Remaining() == rest && source == s && dest == d
        case Err(e) => err == Some(e)
    {
      source, dest := 0, 0;
      err := EatSymbolToken('(');
      if err.Some? {
        return;
      }
      err := EatToken(KindInteger);
      if err.Some? {
        return;
      }
      source := CellIndexOf(tokens[position - 1].value);
      err := EatSymbolToken(',');
      if err.Some? {
        return;
      }
      err := EatToken(KindInteger);
      if err.Some? {
        return;
      }
      dest := CellIndexOf(tokens[position - 1].value);
    }

    /** The optional captured cell and the closing parenthesis of parse_single_challenge_move. */
    method ReadMoveEnd(source: nat, dest: nat) returns (move: Move, err: Option<LoadError>)
      requires Valid()
      modifies this`position
      ensures Valid()
      ensures match MoveEnd(old(Remaining()), source, dest)
        case Ok((m, rest)) => err.None? && Remaining() == rest && move == m
        case Err(e) => err == Some(e)
    {
      move := Move(false, 0, source, dest);
      if position >= |tokens| {
        return move, Some(UnexpectedEnd);
      }
      if IsSymbol(tokens[position], ',') {
        position := position + 1;
        err := EatToken(KindInteger);
        if err.Some? {
          return;
        }
        move := Move(true, CellIndexOf(tokens[position - 1].value), source, dest);
      }
      err := EatSymbolToken(')');
    }

    /** The skipping loop of scenario_loader_load_challenge_moves, and the closing brace. */
    method SkipChallengeBlock() returns (err: Option<LoadError>)
      requires Valid()
      modifies this`position
      ensures Valid()
      ensures match SkipToClosingBrace(old(Remaining()))
        case Ok(r4) => err.None? && Remaining() == r4[1..]
        case Err(e) => err == Some(e)
    {
      ghost var block := Remaining();
      while position < |tokens| && !IsSymbol(tokens[position], '}')
        invariant Valid()
        invariant SkipToClosingBrace(Remaining()) == SkipToClosingBrace(block)
        decreases |tokens| - position
      {
        assert tokens[position + 1..] == Remaining()[1..];
        position := position + 1;
      }
      if position >= |tokens| {
        return Some(UnexpectedEnd);
      }
      position := position + 1;
      return None;
    }

    /** The parsing loop of scenario_loader_load_challenge_moves, and the closing brace. */
    method ParseChallengeBlock() returns (moves: seq<Move>, err: Option<LoadError>)
      requires Valid()
      modifies this`position
      ensures Valid()
      ensures match ParseMoves(old(Remaining()), [])
        case Ok((ms, r4)) => err.None? && Remaining() == r4[1..] && moves == ms
        case Err(e) => err == Some(e)
    {
      ghost var block := Remaining();
      moves := [];
      while position < |tokens| && !IsSymbol(tokens[position], '}')
        invariant Valid()
        invariant ParseMoves(Remaining(), moves) == ParseMoves(block, [])
        decreases |tokens| - position
      {
        moves, err := ParseChallengeMove(moves);
        if err.Some? {
          return;
        }
      }
      if position >= |tokens| {
        return moves, Some(UnexpectedEnd);
      }
      position := position + 1;
      err := None;
    }

    /** `CHALLENGE : {`. */
    method EatChallengeHead() returns (err: Option<LoadError>)
      requires Valid()
      modifies this`position
      ensures Valid()
      ensures match ChallengeHead(old(Remaining()))
        case Ok(rest) => err.None? && Remaining() == rest
        case Err(e) => err == Some(e)
    {
      err := EatToken(KindIdentifier);
      if err.Some? {
        return;
      }
      err := EatSymbolToken(':');
      if err.Some? {
        return;
      }
      err := EatSymbolToken('{');
    }

    /** The block after `{`, skipped or parsed according to the scenario type. */
    method LoadChallengeBlock() returns (err: Option<LoadError>)
      requires Valid()
      modifies this`position, this`challengeMoves
      ensures Valid()
      ensures match ChallengeBlock(old(Remaining()), old(Current()))
        case Ok(l) => err.None? && Remaining() == l.rest && Current() == l.scenario
        case Err(e) => err == Some(e)
    {
      if mode != ModeChallenge {
        err := SkipChallengeBlock();
        return;
      }
      var moves;
      moves, err := ParseChallengeBlock();
      if err.None? {
        challengeMoves := moves;
      }
    }

    /** scenario_loader_load_challenge_moves. */
    method LoadChallengeMoves() returns (err: Option<LoadError>)
      requires Valid()
      modifies this`position, this`challengeMoves
      ensures Valid()
      ensures match LoadChallenge(old(Remaining()), old(Current()))
        case Ok(l) => err.None? && Remaining() == l.rest && Current() == l.scenario
        case Err(e) => err == Some(e)
    {
      err := EatChallengeHead();
      if err.Some? {
        return;
      }
      err := LoadChallengeBlock();
    }

    /** scenario_loader_load_id. */
    method LoadId() returns (err: Option<LoadError>)
      requires Valid() && position < |tokens| && tokens[position].Identifier?
      modifies this`position, this`rules, this`team, this`mode, this`challengeMoves
      ensures Valid()
      ensures match LoadProperty(old(Remaining()), old(Current()))
        case Ok(l) => err.None? && Remaining() == l.rest && Current() == l.scenario
        case Err(e) => err == Some(e)
    {
      var name := tokens[position].name;
      if name == "CHALLENGE" {
        err := LoadChallengeMoves();
        return;
      }
      var s := SettingOf(name);
      if s.None? {
        return Some(UnknownIdentifier(name));
      }
      err := LoadSettingStatement(s.value);
    }

    /** scenario_loader_load_singlecell_piece_assignment. */
    method LoadSingleCellAssignment() returns (err: Option<LoadError>)
      requires Valid() && position < |tokens| && tokens[position].Integer?
      modifies this`position, cells
      ensures Valid()
      ensures match LoadSingleCell(old(Remaining()), old(Current()))
        case Ok(l) => err.None? && Remaining() == l.rest && Current() == l.scenario
        case Err(e) => err == Some(e)
    {
      var id := CellIndexOf(tokens[position].value);
      position := position + 1;
      err := EatSymbolToken(':');
      if err.Some? {
        return;
      }
      err := EatToken(KindIdentifier);
      if err.Some? {
        return;
      }
      var name := tokens[position - 1].name;
      var piece := IdToPieceType(name);
      if piece.None? {
        return Some(UnknownIdentifier(name));
      }
      if id >= cells.Length {
        return Some(CellOutOfBoard(id));
      }
      cells[id] := piece.value;
    }

    /** The loop of scenario_loader_load_multicell_piece_assignment: cells lo..hi receive the piece. */
    method FillCells(lo: nat, hi: nat, piece: int)
      requires Valid() && hi < cells.Length
      modifies cells
      ensures cells[..] == FillRange(old(cells[..]), lo, hi, piece)
    {
      var cid := lo;
      while cid <= hi
        invariant lo <= cid && (cid <= hi + 1 || cid == lo)
        invariant forall k :: 0 <= k < cells.Length ==> cells[k] == (if lo <= k < cid then piece else old(cells[k]))
        decreases hi + 1 - cid
      {
        cells[cid] := piece;
        cid := cid + 1;
      }
      assert cells[..] == FillRange(old(cells[..]), lo, hi, piece);
    }

    /** The head `[a;b] :` of a range assignment. */
    method ReadRangeBounds() returns (lo: nat, hi: nat, err: Option<LoadError>)
      requires Valid()
      modifies this`position
      ensures Valid()
      ensures match RangeBounds(old(Remaining()))
        case Ok((l, h, rest)) => err.None? && Remaining() == rest && lo == l && hi == h
        case Err(e) => err == Some(e)
    {
      lo, hi := 0, 0;
      err := EatSymbolToken('[');
      if err.Some? {
        return;
      }
      err := EatToken(KindInteger);
      if err.Some? {
        return;
      }
      var a := CellIndexOf(tokens[position - 1].value);
      err := EatSymbolToken(';');
      if err.Some? {
        return;
      }
      err := EatToken(KindInteger);
      if err.Some? {
        return;
      }
      var b := CellIndexOf(tokens[position - 1].value);
      err := EatSymbolToken(']');
      if err.Some? {
        return;
      }
      err := EatSymbolToken(':');
      if err.Some? {
        return;
      }
      lo, hi := a, b;
      if lo > hi {
        lo, hi := hi, lo;
      }
    }

    /** scenario_loader_load_multicell_piece_assignment. */
    method LoadRangeAssignment() returns (err: Option<LoadError>)
      requires Valid()
      modifies this`position, cells
      ensures Valid()
      ensures match LoadRange(old(Remaining()), old(Current()))
        case Ok(l) => err.None? && Remaining() == l.rest && Current() == l.scenario
        case Err(e) => err == Some(e)
    {
      var lo, hi;
      lo, hi, err := ReadRangeBounds();
      if err.Some? {
        return;
      }
      err := LoadRangePiece(lo, hi);
    }

    /** The piece name after `[a;b] :`, then the cells lo..hi filled with it. */
    method LoadRangePiece(lo: nat, hi: nat) returns (err: Option<LoadError>)
      requires Valid()
      modifies this`position, cells
      ensures Valid()
      ensures match RangePiece(old(Remaining()), old(Current()), lo, hi)
        case Ok(l) => err.None? && Remaining() == l.rest && Current() == l.scenario
        case Err(e) => err == Some(e)
    {
      err := EatToken(KindIdentifier);
      if err.Some? {
        return;
      }
      var name := tokens[position - 1].name;
      var piece := IdToPieceType(name);
      if piece.None? {
        return Some(UnknownIdentifier(name));
      }
      if hi >= cells.Length {
        return Some(CellOutOfBoard(hi));
      }
      FillCells(lo, hi, piece.value);
    }

    /** scenario_loader_load_statement. */
    method LoadStatementAt() returns (err: Option<LoadError>)
      requires Valid() && position < |tokens|
      modifies this`position, this`rules, this`team, this`mode, this`challengeMoves, cells
      ensures Valid()
      ensures match LoadStatement(old(Remaining()), old(Current()))
        case Ok(l) => err.None? && Remaining() == l.rest && Current() == l.scenario
        case Err(e) => err == Some(e)
    {
      var t := tokens[position];
      match t {
        case Identifier(_) =>
          err := LoadId();
        case Integer(_) =>
          err := LoadSingleCellAssignment();
        case Symbol(c) =>
          if c == '[' {
            err := LoadRangeAssignment();
          } else {
            err := Some(NoProgress(t));
          }
        case _ =>
          err := Some(NoProgress(t));
      }
    }
  }

  /** load_scenario_from_token_array: reset the destination, then load statements until the tokens run out. */
  method LoadScenarioFromTokenArray(ts: seq<Token>, dest: Scenario) returns (r: Result<Scenario>)
    ensures r == LoadScenario(ts, dest)
  {
    var loader := new ScenarioLoader(ts, dest);
    while loader.position < |ts|
      invariant loader.Valid() && loader.tokens == ts && fresh(loader.cells)
      invariant LoadAll(loader.Remaining(), loader.Current()) == LoadScenario(ts, dest)
      decreases |ts| - loader.position
    {
      var err := loader.LoadStatementAt();
      if err.Some? {
        return Err(err.value);
      }
    }
    return Ok(loader.Current());
  }
}
