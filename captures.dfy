/**
 * Capture generation: single jumps for peons and for kings when kings do not fly,
 * ray scans with a free landing square for flying kings, and the team-wide list of
 * captures in cell-id order.
 */
module Captures {
  import opened Common
  import opened Pieces
  import opened Geometry
  import opened Board

  /** A legal board side and a full-size board; every playable cell id indexes the board. */
  predicate Ready(r: Rules, b: seq<int>)
  {
    ValidSide(r.side) && IsBoard(b) && CellCount(r.side) <= |b|
  }

  /** Whether the piece may capture toward direction d: peons only forward unless backward captures are on. */
  predicate MayCaptureToward(r: Rules, piece: int, d: nat)
    requires d < 4
  {
    r.peonsCaptureBackwards || IsQueen(piece) || IsPeonMovingForward(r, piece, Directions[d])
  }

  /** A king that may land anywhere beyond the captured piece. */
  predicate Flies(r: Rules, piece: int)
  {
    r.flyingKings && IsQueen(piece)
  }

  /**
   * m jumps from its source along direction d over the piece j squares away and lands
   * k squares away; the jumped piece is an opponent and every other square passed or
   * landed on is empty.
   */
  predicate CaptureAlong(r: Rules, b: seq<int>, m: Move, d: nat, j: int, k: int)
    requires Ready(r, b) && d < 4
  {
    m.isCapture && m.source < CellCount(r.side) && 1 <= j < k &&
    (var p := CellToPosition(r, m.source);
     InBounds(r.side, Step(p, d, j)) && InBounds(r.side, Step(p, d, k)) &&
     m.capture == StepCell(r, p, d, j) && m.dest == StepCell(r, p, d, k) &&
     b[m.capture] != NoPiece && !SameTeam(b[m.source], b[m.capture]) &&
     b[m.dest] == NoPiece &&
     forall i :: 1 <= i < k && i != j ==> InBounds(r.side, Step(p, d, i)) && b[StepCell(r, p, d, i)] == NoPiece)
  }

  /** A capture the rules allow the piece on m's source: one jump, or a flying king's ray. */
  ghost predicate LegalCapture(r: Rules, b: seq<int>, m: Move)
    requires Ready(r, b)
  {
    exists d: nat, j: int, k: int ::
      d < 4 && CaptureAlong(r, b, m, d, j, k) &&
      MayCaptureToward(r, b[m.source], d) && (Flies(r, b[m.source]) || (j == 1 && k == 2))
  }

  /** The facts about a capture that tree building needs. */
  predicate CaptureShape(r: Rules, b: seq<int>, m: Move)
    requires Ready(r, b)
  {
    m.isCapture && m.source < CellCount(r.side) && m.capture < CellCount(r.side) && m.dest < CellCount(r.side) &&
    m.source != m.capture && m.source != m.dest && m.capture != m.dest &&
    b[m.dest] == NoPiece && b[m.capture] != NoPiece
  }

  lemma AlongHasShape(r: Rules, b: seq<int>, m: Move, d: nat, j: int, k: int)
    requires Ready(r, b) && d < 4 && CaptureAlong(r, b, m, d, j, k)
    ensures CaptureShape(r, b, m)
  {
    var p := CellToPosition(r, m.source);
    assert Step(p, d, 0) == p;
    StepInjective(p, d, 0, j);
    StepInjective(p, d, 0, k);
    StepInjective(p, d, j, k);
  }

  lemma LegalHasShape(r: Rules, b: seq<int>, m: Move)
    requires Ready(r, b) && LegalCapture(r, b, m)
    ensures CaptureShape(r, b, m)
  {
    var d: nat, j: int, k: int :| d < 4 && CaptureAlong(r, b, m, d, j, k);
    AlongHasShape(r, b, m, d, j, k);
  }

  /** One direction of the peon and non-flying-king branch of board_get_all_capture_moves_of_piece. */
  function StepCapture(r: Rules, b: seq<int>, id: nat, d: nat): (c: Option<Move>)
    requires Ready(r, b) && id < CellCount(r.side) && d < 4
    ensures c.Some? ==> c.value.source == id && MayCaptureToward(r, b[id], d) && CaptureAlong(r, b, c.value, d, 1, 2)
    ensures c.None? && MayCaptureToward(r, b[id], d) ==>
      forall m: Move :: m.source == id ==> !CaptureAlong(r, b, m, d, 1, 2)
  {
    var piece := b[id];
    var p := CellToPosition(r, id);
    if !r.peonsCaptureBackwards && !IsQueen(piece) && !IsPeonMovingForward(r, piece, Directions[d]) then None
    else if !InBounds(r.side, Step(p, d, 2)) then None
    else
      StepBetween(r.side, p, d, 2, 1);
      var dest := StepCell(r, p, d, 2);
      if b[dest] != NoPiece then None
      else
        var mid := StepCell(r, p, d, 1);
        if b[mid] != NoPiece && !SameTeam(piece, b[mid]) then Some(Move(true, mid, id, dest)) else None
  }

  /** The first distance from k on, along direction d, that leaves the board or meets a piece. */
  function Scan(r: Rules, b: seq<int>, p: Position, d: nat, k: nat): (e: nat)
    requires Ready(r, b) && Playable(r, p) && d < 4 && k >= 1
    ensures e >= k
    ensures forall i :: k <= i < e ==> InBounds(r.side, Step(p, d, i)) && b[StepCell(r, p, d, i)] == NoPiece
    ensures !InBounds(r.side, Step(p, d, e)) || b[StepCell(r, p, d, e)] != NoPiece
    decreases r.side - k
  {
    if !InBounds(r.side, Step(p, d, k)) || b[StepCell(r, p, d, k)] != NoPiece then k
    else
      StepBound(r.side, p, d, k);
      Scan(r, b, p, d, k + 1)
  }

  /** The landing moves at distances j+1 .. j+n, all capturing the same cell. */
  function Landings(r: Rules, p: Position, d: nat, capture: nat, id: nat, j: nat, n: nat): (ms: seq<Move>)
    requires ValidSide(r.side) && Playable(r, p) && d < 4
    requires forall i :: j < i <= j + n ==> InBounds(r.side, Step(p, d, i))
    ensures |ms| == n
    ensures forall t :: 0 <= t < n ==> ms[t] == Move(true, capture, id, StepCell(r, p, d, j + 1 + t))
  {
    if n == 0 then [] else Landings(r, p, d, capture, id, j, n - 1) + [Move(true, capture, id, StepCell(r, p, d, j + n))]
  }

  /** A list of n moves landing at distances j+1 .. j+n in turn is the landings list. */
  lemma LandingsAre(r: Rules, p: Position, d: nat, capture: nat, id: nat, j: nat, n: nat, ms: seq<Move>)
    requires ValidSide(r.side) && Playable(r, p) && d < 4
    requires forall i :: j < i <= j + n ==> InBounds(r.side, Step(p, d, i))
    requires |ms| == n
    requires forall t :: 0 <= t < n ==> ms[t] == Move(true, capture, id, StepCell(r, p, d, j + 1 + t))
    ensures ms == Landings(r, p, d, capture, id, j, n)
  {
  }

  /** The distance of the first piece a flying king meets along direction d. */
  function FirstPiece(r: Rules, b: seq<int>, id: nat, d: nat): nat
    requires Ready(r, b) && id < CellCount(r.side) && d < 4
  {
    Scan(r, b, CellToPosition(r, id), d, 1)
  }

  /** One direction of the flying-king branch of board_get_all_capture_moves_of_piece. */
  function FlyingCaptures(r: Rules, b: seq<int>, id: nat, d: nat): seq<Move>
    requires Ready(r, b) && id < CellCount(r.side) && d < 4
  {
    var p := CellToPosition(r, id);
    var j := Scan(r, b, p, d, 1);
    if !InBounds(r.side, Step(p, d, j)) || SameTeam(b[StepCell(r, p, d, j)], b[id]) then []
    else
      var e := Scan(r, b, p, d, j + 1);
      Landings(r, p, d, StepCell(r, p, d, j), id, j, e - j - 1)
  }

  /**
   * Along one direction a flying king captures the first piece it meets, if that is an
   * opponent, and lands on each empty square beyond it in turn, nearest first, up to the
   * next piece or the edge of the board.
   */
  lemma FlyingCapturesShape(r: Rules, b: seq<int>, id: nat, d: nat)
    requires Ready(r, b) && id < CellCount(r.side) && d < 4
    ensures var ms := FlyingCaptures(r, b, id, d);
      forall t :: 0 <= t < |ms| ==>
        ms[t].source == id && CaptureAlong(r, b, ms[t], d, FirstPiece(r, b, id, d), FirstPiece(r, b, id, d) + 1 + t)
  {
    var p := CellToPosition(r, id);
    var j := FirstPiece(r, b, id, d);
    var ms := FlyingCaptures(r, b, id, d);
    if ms != [] {
      FlyingCapturesCases(r, b, id, d);
      var c := StepCell(r, p, d, j);
      var e := Scan(r, b, p, d, j + 1);
      LandingsListed(r, b, id, d, p, j, c, e, ms);
      LandingsShaped(r, b, id, d, p, j, c, e, ms);
    }
  }

  /** FlyingCaptures, unfolded: nothing unless the first piece met is an opponent, then the landings beyond it. */
  lemma FlyingCapturesCases(r: Rules, b: seq<int>, id: nat, d: nat)
    requires Ready(r, b) && id < CellCount(r.side) && d < 4
    ensures var p := CellToPosition(r, id);
      var j := FirstPiece(r, b, id, d);
      FlyingCaptures(r, b, id, d) != [] ==>
        InBounds(r.side, Step(p, d, j)) && !SameTeam(b[StepCell(r, p, d, j)], b[id]) &&
        FlyingCaptures(r, b, id, d) == Landings(r, p, d, StepCell(r, p, d, j), id, j, Scan(r, b, p, d, j + 1) - j - 1)
  {
  }

  /** The landings list beyond the first piece j, before the next obstacle e, one move per distance. */
  lemma LandingsListed(r: Rules, b: seq<int>, id: nat, d: nat, p: Position, j: nat, c: nat, e: nat, ms: seq<Move>)
    requires Ready(r, b) && id < CellCount(r.side) && d < 4 && p == CellToPosition(r, id)
    requires j == Scan(r, b, p, d, 1) && e == Scan(r, b, p, d, j + 1)
    requires InBounds(r.side, Step(p, d, j)) && c == StepCell(r, p, d, j)
    requires ms == Landings(r, p, d, c, id, j, e - j - 1)
    ensures j + 1 + |ms| == e
    ensures forall t :: 0 <= t < |ms| ==> ms[t] == Move(true, c, id, StepCell(r, p, d, j + 1 + t))
  {
  }

  /** Every landing beyond the first piece j, before the next obstacle e, is a capture along d. */
  lemma LandingsShaped(r: Rules, b: seq<int>, id: nat, d: nat, p: Position, j: nat, c: nat, e: nat, ms: seq<Move>)
    requires Ready(r, b) && id < CellCount(r.side) && d < 4 && p == CellToPosition(r, id)
    requires j == Scan(r, b, p, d, 1) && e == Scan(r, b, p, d, j + 1)
    requires InBounds(r.side, Step(p, d, j)) && c == StepCell(r, p, d, j) && !SameTeam(b[c], b[id])
    requires j + 1 + |ms| == e
    requires forall t :: 0 <= t < |ms| ==> ms[t] == Move(true, c, id, StepCell(r, p, d, j + 1 + t))
    ensures forall t :: 0 <= t < |ms| ==> ms[t].source == id && CaptureAlong(r, b, ms[t], d, j, j + 1 + t)
  {
    forall t | 0 <= t < |ms|
      ensures ms[t].source == id && CaptureAlong(r, b, ms[t], d, j, j + 1 + t)
    {
      RayLanding(r, b, id, d, p, j, c, e, t);
    }
  }

  /** The landings of a flying king stop at the next piece beyond the captured one, or at the edge. */
  lemma FlyingCapturesEnd(r: Rules, b: seq<int>, id: nat, d: nat)
    requires Ready(r, b) && id < CellCount(r.side) && d < 4
    ensures var ms := FlyingCaptures(r, b, id, d);
      |ms| > 0 ==>
        var p := CellToPosition(r, id);
        var e := FirstPiece(r, b, id, d) + 1 + |ms|;
        !InBounds(r.side, Step(p, d, e)) || b[StepCell(r, p, d, e)] != NoPiece
  {
    var p := CellToPosition(r, id);
    var j := Scan(r, b, p, d, 1);
    var ms := FlyingCaptures(r, b, id, d);
    assert j == FirstPiece(r, b, id, d);
    if InBounds(r.side, Step(p, d, j)) && !SameTeam(b[StepCell(r, p, d, j)], b[id]) {
      var e := Scan(r, b, p, d, j + 1);
      assert ms == Landings(r, p, d, StepCell(r, p, d, j), id, j, e - j - 1);
      assert j + 1 + |ms| == e;
    }
  }

  /** The t-th landing beyond the first piece j, before the next obstacle e, is a capture along d. */
  lemma RayLanding(r: Rules, b: seq<int>, id: nat, d: nat, p: Position, j: nat, c: nat, e: nat, t: nat)
    requires Ready(r, b) && id < CellCount(r.side) && d < 4 && p == CellToPosition(r, id)
    requires j == Scan(r, b, p, d, 1) && e == Scan(r, b, p, d, j + 1)
    requires InBounds(r.side, Step(p, d, j)) && c == StepCell(r, p, d, j) && !SameTeam(b[c], b[id])
    requires j + 1 + t < e
    ensures CaptureAlong(r, b, Move(true, c, id, StepCell(r, p, d, j + 1 + t)), d, j, j + 1 + t)
  {
    forall i | 1 <= i < j + 1 + t && i != j
      ensures InBounds(r.side, Step(p, d, i)) && b[StepCell(r, p, d, i)] == NoPiece
    {
    }
  }

  /** A flying king misses no capture along direction d: every legal ray capture is generated. */
  lemma FlyingCapturesComplete(r: Rules, b: seq<int>, id: nat, d: nat, m: Move, j: int, k: int)
    requires Ready(r, b) && id < CellCount(r.side) && d < 4
    requires m.source == id && CaptureAlong(r, b, m, d, j, k)
    ensures m in FlyingCaptures(r, b, id, d)
  {
    var p := CellToPosition(r, id);
    var f := Scan(r, b, p, d, 1);
    assert j >= f;
    assert f >= j;
    var e := Scan(r, b, p, d, j + 1);
    assert k < e;
    var ms := FlyingCaptures(r, b, id, d);
    assert ms[k - j - 1] == m;
  }

  /** The peon and non-flying-king captures over directions 0 .. n-1, in direction order. */
  function StepCapturesUpTo(r: Rules, b: seq<int>, id: nat, n: nat): seq<Move>
    requires Ready(r, b) && id < CellCount(r.side) && n <= 4
  {
    if n == 0 then [] else
      StepCapturesUpTo(r, b, id, n - 1) +
      (match StepCapture(r, b, id, n - 1) case Some(m) => [m] case None => [])
  }

  /** The flying-king captures over directions 0 .. n-1, in direction order. */
  function FlyingCapturesUpTo(r: Rules, b: seq<int>, id: nat, n: nat): seq<Move>
    requires Ready(r, b) && id < CellCount(r.side) && n <= 4
  {
    if n == 0 then [] else FlyingCapturesUpTo(r, b, id, n - 1) + FlyingCaptures(r, b, id, n - 1)
  }

  /** board_get_all_capture_moves_of_piece, as the list it appends. */
  function PieceCaptures(r: Rules, b: seq<int>, id: nat): seq<Move>
    requires Ready(r, b) && id < CellCount(r.side)
  {
    var piece := b[id];
    if IsPeon(piece) || !r.flyingKings then StepCapturesUpTo(r, b, id, 4)
    else if IsQueen(piece) then FlyingCapturesUpTo(r, b, id, 4)
    else []
  }

  /** Without backward captures, the single-jump loop finds nothing from an empty cell. */
  lemma {:induction false} EmptyStepCapturesNothing(r: Rules, b: seq<int>, id: nat, n: nat)
    requires Ready(r, b) && id < CellCount(r.side) && n <= 4
    requires b[id] == NoPiece && !r.peonsCaptureBackwards
    ensures StepCapturesUpTo(r, b, id, n) == []
  {
    if n > 0 {
      EmptyStepCapturesNothing(r, b, id, n - 1);
      ForwardCharacterised(r, NoPiece, Directions[n - 1]);
      assert StepCapture(r, b, id, n - 1).None?;
    }
  }

  /**
   * An empty cell yields no capture when kings fly or backward captures are off; with
   * backward captures on and kings not flying, the jump loop does not look at the piece.
   */
  lemma EmptyCellCapturesNothing(r: Rules, b: seq<int>, id: nat)
    requires Ready(r, b) && id < CellCount(r.side) && b[id] == NoPiece
    requires r.flyingKings || !r.peonsCaptureBackwards
    ensures PieceCaptures(r, b, id) == []
  {
    if !r.flyingKings {
      EmptyStepCapturesNothing(r, b, id, 4);
    }
  }

  lemma {:induction false} StepCapturesUpToSound(r: Rules, b: seq<int>, id: nat, n: nat)
    requires Ready(r, b) && id < CellCount(r.side) && n <= 4
    ensures forall m :: m in StepCapturesUpTo(r, b, id, n) ==>
      m.source == id && exists d: nat :: d < n && MayCaptureToward(r, b[id], d) && CaptureAlong(r, b, m, d, 1, 2)
  {
    if n > 0 {
      StepCapturesUpToSound(r, b, id, n - 1);
    }
  }

  lemma FlyingCapturesSound(r: Rules, b: seq<int>, id: nat, d: nat)
    requires Ready(r, b) && id < CellCount(r.side) && d < 4
    ensures forall m :: m in FlyingCaptures(r, b, id, d) ==>
      m.source == id && exists j, k :: CaptureAlong(r, b, m, d, j, k)
  {
    var ms := FlyingCaptures(r, b, id, d);
    var f := FirstPiece(r, b, id, d);
    FlyingCapturesShape(r, b, id, d);
    forall m | m in ms
      ensures m.source == id && exists j, k :: CaptureAlong(r, b, m, d, j, k)
    {
      var t :| 0 <= t < |ms| && ms[t] == m;
      assert CaptureAlong(r, b, m, d, f, f + 1 + t);
    }
  }

  lemma {:induction false} FlyingCapturesUpToSound(r: Rules, b: seq<int>, id: nat, n: nat)
    requires Ready(r, b) && id < CellCount(r.side) && n <= 4
    ensures forall m :: m in FlyingCapturesUpTo(r, b, id, n) ==>
      m.source == id && exists d: nat, j, k :: d < n && CaptureAlong(r, b, m, d, j, k)
  {
    if n > 0 {
      FlyingCapturesUpToSound(r, b, id, n - 1);
      FlyingCapturesSound(r, b, id, n - 1);
    }
  }

  /** Every move the piece generator returns is a legal capture by the piece on `id`. */
  lemma PieceCapturesSound(r: Rules, b: seq<int>, id: nat)
    requires Ready(r, b) && id < CellCount(r.side)
    ensures forall m :: m in PieceCaptures(r, b, id) ==> m.source == id && LegalCapture(r, b, m)
  {
    var piece := b[id];
    if IsPeon(piece) || !r.flyingKings {
      StepCapturesUpToSound(r, b, id, 4);
      forall m | m in PieceCaptures(r, b, id)
        ensures LegalCapture(r, b, m)
      {
        var d: nat :| d < 4 && MayCaptureToward(r, b[id], d) && CaptureAlong(r, b, m, d, 1, 2);
        assert CaptureAlong(r, b, m, d, 1, 2);
      }
    } else if IsQueen(piece) {
      FlyingCapturesUpToSound(r, b, id, 4);
      forall m | m in PieceCaptures(r, b, id)
        ensures LegalCapture(r, b, m)
      {
        var d: nat, j, k :| d < 4 && CaptureAlong(r, b, m, d, j, k);
        assert MayCaptureToward(r, b[m.source], d);
      }
    }
  }

  lemma {:induction false} StepCapturesUpToComplete(r: Rules, b: seq<int>, id: nat, n: nat, m: Move, d: nat)
    requires Ready(r, b) && id < CellCount(r.side) && n <= 4
    requires d < n && m.source == id && MayCaptureToward(r, b[id], d) && CaptureAlong(r, b, m, d, 1, 2)
    ensures m in StepCapturesUpTo(r, b, id, n)
  {
    if d < n - 1 {
      StepCapturesUpToComplete(r, b, id, n - 1, m, d);
    } else {
      assert StepCapture(r, b, id, d) == Some(m);
    }
  }

  lemma {:induction false} FlyingCapturesUpToComplete(r: Rules, b: seq<int>, id: nat, n: nat, m: Move, d: nat, j: int, k: int)
    requires Ready(r, b) && id < CellCount(r.side) && n <= 4
    requires d < n && m.source == id && CaptureAlong(r, b, m, d, j, k)
    ensures m in FlyingCapturesUpTo(r, b, id, n)
  {
    if d < n - 1 {
      FlyingCapturesUpToComplete(r, b, id, n - 1, m, d, j, k);
    } else {
      FlyingCapturesComplete(r, b, id, d, m, j, k);
    }
  }

  /** The piece generator misses no legal capture of an actual piece. */
  lemma PieceCapturesComplete(r: Rules, b: seq<int>, m: Move)
    requires Ready(r, b) && m.source < CellCount(r.side) && (IsPeon(b[m.source]) || IsQueen(b[m.source]))
    requires LegalCapture(r, b, m)
    ensures m in PieceCaptures(r, b, m.source)
  {
    var d: nat, j: int, k: int :| d < 4 && CaptureAlong(r, b, m, d, j, k) &&
      MayCaptureToward(r, b[m.source], d) && (Flies(r, b[m.source]) || (j == 1 && k == 2));
    var piece := b[m.source];
    if IsPeon(piece) || !r.flyingKings {
      StepCapturesUpToComplete(r, b, m.source, 4, m, d);
    } else {
      FlyingCapturesUpToComplete(r, b, m.source, 4, m, d, j, k);
    }
  }

  /** The captures of every piece of `team` on cells 0 .. n-1, by increasing cell id. */
  function TeamCapturesUpTo(r: Rules, b: seq<int>, team: int, n: nat): seq<Move>
    requires Ready(r, b) && n <= CellCount(r.side)
  {
    if n == 0 then [] else
      TeamCapturesUpTo(r, b, team, n - 1) +
      (if PieceTeam(b[n - 1]) == team then PieceCaptures(r, b, n - 1) else [])
  }

  /** board_get_all_capture_moves_of_team, as the list it appends. */
  function TeamCaptures(r: Rules, b: seq<int>, team: int): seq<Move>
    requires Ready(r, b)
  {
    TeamCapturesUpTo(r, b, team, CellCount(r.side))
  }

  lemma {:induction false} TeamCapturesUpToProperties(r: Rules, b: seq<int>, team: int, n: nat)
    requires Ready(r, b) && n <= CellCount(r.side)
    ensures forall m :: m in TeamCapturesUpTo(r, b, team, n) ==>
      m.source < n && PieceTeam(b[m.source]) == team && LegalCapture(r, b, m)
    ensures forall i, i' :: 0 <= i < i' < |TeamCapturesUpTo(r, b, team, n)| ==>
      TeamCapturesUpTo(r, b, team, n)[i].source <= TeamCapturesUpTo(r, b, team, n)[i'].source
  {
    TeamCapturesUpToSound(r, b, team, n);
    TeamCapturesUpToOrdered(r, b, team, n);
  }

  /** The captures collected from the first n cells are legal captures of the team's pieces among them. */
  lemma TeamCapturesUpToSound(r: Rules, b: seq<int>, team: int, n: nat)
    requires Ready(r, b) && n <= CellCount(r.side)
    ensures forall m :: m in TeamCapturesUpTo(r, b, team, n) ==>
      m.source < n && PieceTeam(b[m.source]) == team && LegalCapture(r, b, m)
  {
    TeamCapturesUpToFrom(r, b, team, n);
    forall m | m in TeamCapturesUpTo(r, b, team, n)
      ensures LegalCapture(r, b, m)
    {
      PieceCapturesSound(r, b, m.source);
    }
  }

  /** Each capture collected from the first n cells is one of its own piece's captures, a piece of the team. */
  lemma {:induction false} TeamCapturesUpToFrom(r: Rules, b: seq<int>, team: int, n: nat)
    requires Ready(r, b) && n <= CellCount(r.side)
    ensures forall m :: m in TeamCapturesUpTo(r, b, team, n) ==>
      m.source < n && PieceTeam(b[m.source]) == team && m in PieceCaptures(r, b, m.source)
  {
    if n > 0 {
      TeamCapturesUpToFrom(r, b, team, n - 1);
      var prev := TeamCapturesUpTo(r, b, team, n - 1);
      var tail := if PieceTeam(b[n - 1]) == team then PieceCaptures(r, b, n - 1) else [];
      assert TeamCapturesUpTo(r, b, team, n) == prev + tail;
      PieceCapturesSources(r, b, n - 1);
      forall m: Move | m in prev + tail
        ensures m.source < n && PieceTeam(b[m.source]) == team && m in PieceCaptures(r, b, m.source)
      {
        if m !in prev {
          assert m in tail;
        }
      }
    }
  }

  /** The captures collected from the first n cells start below n. */
  lemma {:induction false} TeamCapturesUpToBelow(r: Rules, b: seq<int>, team: int, n: nat)
    requires Ready(r, b) && n <= CellCount(r.side)
    ensures forall m :: m in TeamCapturesUpTo(r, b, team, n) ==> m.source < n
  {
    if n > 0 {
      TeamCapturesUpToBelow(r, b, team, n - 1);
      var prev := TeamCapturesUpTo(r, b, team, n - 1);
      var tail := if PieceTeam(b[n - 1]) == team then PieceCaptures(r, b, n - 1) else [];
      assert TeamCapturesUpTo(r, b, team, n) == prev + tail;
      PieceCapturesSources(r, b, n - 1);
      forall m: Move | m in prev + tail
        ensures m.source < n
      {
        if m !in prev {
          assert m in tail;
        }
      }
    }
  }

  /** The captures of the piece on id all start at id. */
  lemma PieceCapturesSources(r: Rules, b: seq<int>, id: nat)
    requires Ready(r, b) && id < CellCount(r.side)
    ensures forall m :: m in PieceCaptures(r, b, id) ==> m.source == id
  {
    PieceCapturesSound(r, b, id);
  }

  /** The captures collected from the first n cells come in increasing order of source cell. */
  lemma {:induction false} TeamCapturesUpToOrdered(r: Rules, b: seq<int>, team: int, n: nat)
    requires Ready(r, b) && n <= CellCount(r.side)
    ensures forall i, i' :: 0 <= i < i' < |TeamCapturesUpTo(r, b, team, n)| ==>
      TeamCapturesUpTo(r, b, team, n)[i].source <= TeamCapturesUpTo(r, b, team, n)[i'].source
  {
    if n > 0 {
      TeamCapturesUpToOrdered(r, b, team, n - 1);
      TeamCapturesUpToBelow(r, b, team, n - 1);
      var prev := TeamCapturesUpTo(r, b, team, n - 1);
      var tail := if PieceTeam(b[n - 1]) == team then PieceCaptures(r, b, n - 1) else [];
      PieceCapturesSources(r, b, n - 1);
      var all := prev + tail;
      assert TeamCapturesUpTo(r, b, team, n) == all;
      forall i, i' | 0 <= i < i' < |all|
        ensures all[i].source <= all[i'].source
      {
        if i' >= |prev| {
          assert all[i'] == tail[i' - |prev|];
          assert tail[i' - |prev|] in tail;
          if i < |prev| {
            assert all[i] == prev[i];
            assert prev[i] in prev;
          } else {
            assert all[i] == tail[i - |prev|];
            assert tail[i - |prev|] in tail;
          }
        } else {
          assert all[i] == prev[i] && all[i'] == prev[i'];
        }
      }
    }
  }

  /**
   * The team-wide list holds exactly the legal captures of the team's pieces, ordered
   * by source cell id (and, for one piece, by direction index).
   */
  lemma TeamCapturesExact(r: Rules, b: seq<int>, team: int)
    requires Ready(r, b) && team != NoTeam
    ensures forall m :: m in TeamCaptures(r, b, team) ==>
      m.source < CellCount(r.side) && PieceTeam(b[m.source]) == team && LegalCapture(r, b, m)
    ensures forall m: Move :: m.source < CellCount(r.side) && PieceTeam(b[m.source]) == team && LegalCapture(r, b, m) ==>
      m in TeamCaptures(r, b, team)
    ensures forall i, i' :: 0 <= i < i' < |TeamCaptures(r, b, team)| ==>
      TeamCaptures(r, b, team)[i].source <= TeamCaptures(r, b, team)[i'].source
  {
    TeamCapturesUpToProperties(r, b, team, CellCount(r.side));
    forall m: Move | m.source < CellCount(r.side) && PieceTeam(b[m.source]) == team && LegalCapture(r, b, m)
      ensures m in TeamCaptures(r, b, team)
    {
      PieceCapturesComplete(r, b, m);
      TeamCapturesUpToHas(r, b, team, CellCount(r.side), m);
    }
  }

  lemma {:induction false} TeamCapturesUpToHas(r: Rules, b: seq<int>, team: int, n: nat, m: Move)
    requires Ready(r, b) && n <= CellCount(r.side) && m.source < n
    requires PieceTeam(b[m.source]) == team && m in PieceCaptures(r, b, m.source)
    ensures m in TeamCapturesUpTo(r, b, team, n)
  {
    if m.source < n - 1 {
      TeamCapturesUpToHas(r, b, team, n - 1, m);
    }
  }

  /** The direction loop of the peon and non-flying-king branch. */
  method CollectStepCaptures(r: Rules, b: seq<int>, id: nat) returns (moves: seq<Move>)
    requires Ready(r, b) && id < CellCount(r.side)
    ensures moves == StepCapturesUpTo(r, b, id, 4)
  {
    var piece := b[id];
    var p := CellToPosition(r, id);
    moves := [];
    for i := 0 to 4
      invariant moves == StepCapturesUpTo(r, b, id, i)
    {
      if !r.peonsCaptureBackwards && !IsQueen(piece) && !IsPeonMovingForward(r, piece, Directions[i]) {
        continue;
      }
      if !InBounds(r.side, Step(p, i, 2)) {
        continue;
      }
      var destination := StepCell(r, p, i, 2);
      if b[destination] != NoPiece {
        continue;
      }
      StepBetween(r.side, p, i, 2, 1);
      var captured := StepCell(r, p, i, 1);
      if b[captured] != NoPiece && !SameTeam(piece, b[captured]) {
        moves := moves + [Move(true, captured, id, destination)];
      }
    }
  }

  /** The first scan of a ray: the distance of the first piece, and whether it may be captured. */
  method FindRayTarget(r: Rules, b: seq<int>, p: Position, piece: int, i: nat) returns (distance: nat, found: bool, possibleCapture: nat)
    requires Ready(r, b) && Playable(r, p) && i < 4
    ensures distance == Scan(r, b, p, i, 1)
    ensures found ==> InBounds(r.side, Step(p, i, distance))
    ensures found ==> possibleCapture == StepCell(r, p, i, distance) && !SameTeam(b[possibleCapture], piece)
    ensures !found ==> !InBounds(r.side, Step(p, i, distance)) || SameTeam(b[StepCell(r, p, i, distance)], piece)
  {
    distance := 1;
    found := false;
    possibleCapture := 0;
    ghost var first := Scan(r, b, p, i, 1);
    while InBounds(r.side, Step(p, i, distance))
      invariant 1 <= distance && Scan(r, b, p, i, distance) == first && !found
      decreases r.side - distance
    {
      var current := StepCell(r, p, i, distance);
      if b[current] != NoPiece {
        possibleCapture := current;
        found := !SameTeam(b[current], piece);
        return;
      }
      StepBound(r.side, p, i, distance);
      distance := distance + 1;
    }
  }

  /** One direction of the flying-king branch: scan to the first piece, then collect the landings. */
  method CollectRayCaptures(r: Rules, b: seq<int>, id: nat, i: nat) returns (moves: seq<Move>)
    requires Ready(r, b) && id < CellCount(r.side) && i < 4
    ensures moves == FlyingCaptures(r, b, id, i)
  {
    var p := CellToPosition(r, id);
    moves := [];
    var distance, found, possibleCapture := FindRayTarget(r, b, p, b[id], i);
    if !found {
      return;
    }
    moves := CollectLandings(r, b, p, i, possibleCapture, id, distance);
  }

  /** The second scan of a ray: one landing move per empty square beyond the captured piece. */
  method CollectLandings(r: Rules, b: seq<int>, p: Position, i: nat, capture: nat, id: nat, first: nat)
    returns (moves: seq<Move>)
    requires Ready(r, b) && Playable(r, p) && i < 4 && 1 <= first
    ensures var end := Scan(r, b, p, i, first + 1);
      moves == Landings(r, p, i, capture, id, first, end - first - 1)
  {
    moves := [];
    var distance := first + 1;
    ghost var end := Scan(r, b, p, i, first + 1);
    while InBounds(r.side, Step(p, i, distance))
      invariant first + 1 <= distance <= end
      invariant |moves| == distance - first - 1
      invariant forall t :: 0 <= t < |moves| ==> moves[t] == Move(true, capture, id, StepCell(r, p, i, first + 1 + t))
      decreases r.side - distance
    {
      var current := StepCell(r, p, i, distance);
      if b[current] != NoPiece {
        break;
      }
      LandingSnoc(r, p, i, capture, id, first, distance, moves);
      moves := moves + [Move(true, capture, id, current)];
      StepBound(r.side, p, i, distance);
      distance := distance + 1;
    }
    LandingsAre(r, p, i, capture, id, first, end - first - 1, moves);
  }

  /** One more landing, at the next distance, keeps the landings in order of distance. */
  lemma LandingSnoc(r: Rules, p: Position, d: nat, capture: nat, id: nat, first: nat, distance: nat, moves: seq<Move>)
    requires ValidSide(r.side) && Playable(r, p) && d < 4 && InBounds(r.side, Step(p, d, distance))
    requires forall k :: first < k <= distance ==> InBounds(r.side, Step(p, d, k))
    requires |moves| + first + 1 == distance
    requires forall t :: 0 <= t < |moves| ==> moves[t] == Move(true, capture, id, StepCell(r, p, d, first + 1 + t))
    ensures var ext := moves + [Move(true, capture, id, StepCell(r, p, d, distance))];
      forall t :: 0 <= t < |ext| ==> ext[t] == Move(true, capture, id, StepCell(r, p, d, first + 1 + t))
  {
  }

  /** board_get_all_capture_moves_of_piece. */
  method CollectPieceCaptures(r: Rules, b: seq<int>, id: nat) returns (moves: seq<Move>)
    requires Ready(r, b) && id < CellCount(r.side)
    ensures moves == PieceCaptures(r, b, id)
  {
    var piece := b[id];
    moves := [];
    if IsPeon(piece) || !r.flyingKings {
      moves := CollectStepCaptures(r, b, id);
    } else if IsQueen(piece) {
      moves := CollectFlyingCaptures(r, b, id);
    }
  }

  /** The flying-king branch of board_get_all_capture_moves_of_piece: one ray per direction. */
  method CollectFlyingCaptures(r: Rules, b: seq<int>, id: nat) returns (moves: seq<Move>)
    requires Ready(r, b) && id < CellCount(r.side)
    ensures moves == FlyingCapturesUpTo(r, b, id, 4)
  {
    moves := [];
    for i := 0 to 4
      invariant moves == FlyingCapturesUpTo(r, b, id, i)
    {
      var ray := CollectRayCaptures(r, b, id, i);
      moves := moves + ray;
    }
  }

  /** board_get_all_capture_moves_of_team: the pieces of `team` in cell-id order. */
  method CollectTeamCaptures(r: Rules, b: seq<int>, team: int) returns (moves: seq<Move>)
    requires Ready(r, b)
    ensures moves == TeamCaptures(r, b, team)
  {
    moves := [];
    for cid := 0 to CellCount(r.side)
      invariant moves == TeamCapturesUpTo(r, b, team, cid)
    {
      if PieceTeam(b[cid]) != team {
        continue;
      }
      var pieceMoves := CollectPieceCaptures(r, b, cid);
      moves := moves + pieceMoves;
    }
  }
}
