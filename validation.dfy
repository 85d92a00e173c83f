/**
 * Move validation: whether the side to move may play a piece from one cell to another,
 * either as the next step of a forced capture or as a free (non-capturing) move.
 */
module Validation {
  import opened Common
  import opened Pieces
  import opened Geometry
  import opened Board
  import opened Captures
  import opened Trees
  import opened Quality
  import opened CaptureTrees

  /** The outcome of validation: refused, or accepted with the capture-tree child it follows (None for a free move). */
  datatype Verdict = Illegal | Legal(next: Option<CaptureTree>)

  /** IS_DIAGONAL: a vector along one of the two diagonals (the zero vector included). */
  predicate IsDiagonal(v: Position)
  {
    v.x == v.y || v.x == -v.y
  }

  /** The number of diagonal steps a vector spans: its horizontal length. */
  function Distance(v: Position): nat
  {
    if v.x < 0 then -v.x else v.x
  }

  /** The direction whose signs are those of v, with 0 counted as negative, as the queen walk computes it. */
  function SignDirection(v: Position): (d: nat)
    ensures d < 4
    ensures Directions[d] == Position(if v.x > 0 then 1 else -1, if v.y > 0 then 1 else -1)
  {
    if v.x > 0 then (if v.y > 0 then 0 else 2) else (if v.y > 0 then 1 else 3)
  }

  /** The vector from a move's source square to its destination square. */
  function MoveVector(r: Rules, source: nat, dest: nat): Position
    requires ValidSide(r.side) && source < CellCount(r.side) && dest < CellCount(r.side)
  {
    var s := CellToPosition(r, source);
    var e := CellToPosition(r, dest);
    Position(e.x - s.x, e.y - s.y)
  }

  /** Every square strictly between p and k steps along d is on the board and empty. */
  predicate PathClear(r: Rules, b: seq<int>, p: Position, d: nat, k: nat)
    requires Ready(r, b) && Playable(r, p) && d < 4
  {
    forall i :: 1 <= i < k ==> InBounds(r.side, Step(p, d, i)) && b[StepCell(r, p, d, i)] == NoPiece
  }

  /**
   * The free-move rule: a diagonal move; a queen moves one step, or any distance with
   * flying kings, over empty squares only; a peon moves one step forward.
   */
  predicate FreeMoveLegal(r: Rules, b: seq<int>, source: nat, dest: nat)
    requires Ready(r, b) && source < CellCount(r.side) && dest < CellCount(r.side)
  {
    var v := MoveVector(r, source, dest);
    var distance := Distance(v);
    IsDiagonal(v) &&
    if IsQueen(b[source]) then
      (distance <= 1 || r.flyingKings) && PathClear(r, b, CellToPosition(r, source), SignDirection(v), distance)
    else
      IsPeonMovingForward(r, b[source], v) && distance == 1
  }

  /** A capture-tree child whose move goes from `source` to `dest`. */
  predicate Matches(x: CaptureTree, source: nat, dest: nat)
  {
    x.data.Some? && x.data.value.source == source && x.data.value.dest == dest
  }

  /** The index of the first child matching the move, if any. */
  function FirstMatch(children: seq<CaptureTree>, source: nat, dest: nat): (o: Option<nat>)
    ensures o.Some? ==> o.value < |children| && Matches(children[o.value], source, dest)
    ensures o.Some? ==> forall k :: 0 <= k < o.value ==> !Matches(children[k], source, dest)
    ensures o.None? <==> forall k :: 0 <= k < |children| ==> !Matches(children[k], source, dest)
  {
    if |children| == 0 then None
    else
      match FirstMatch(children[..|children| - 1], source, dest)
      case Some(i) => Some(i)
      case None => if Matches(children[|children| - 1], source, dest) then Some(|children| - 1) else None
  }

  /** validate_move_based_on_rules on the board b, for the side `team`. */
  function Validate(r: Rules, b: seq<int>, team: int, forceCapture: bool, cursor: CaptureTree, source: nat, dest: nat): Verdict
    requires Ready(r, b) && source < CellCount(r.side) && dest < CellCount(r.side)
  {
    var piece := b[source];
    if piece == NoPiece || b[dest] != NoPiece then Illegal
    else if PieceTeam(piece) != team then Illegal
    else if forceCapture then
      match FirstMatch(cursor.children, source, dest)
      case Some(i) => Legal(Some(cursor.children[i]))
      case None => Illegal
    else if FreeMoveLegal(r, b, source, dest) then Legal(None)
    else Illegal
  }

  /**
   * The verdicts: an empty source, an occupied destination or a piece of the other side is
   * refused; under a forced capture the move is accepted exactly when some child of the
   * cursor goes from source to destination, and the first such child is returned; otherwise
   * the free-move rule decides.
   */
  lemma ValidateCases(r: Rules, b: seq<int>, team: int, forceCapture: bool, cursor: CaptureTree, source: nat, dest: nat)
    requires Ready(r, b) && source < CellCount(r.side) && dest < CellCount(r.side)
    ensures b[source] == NoPiece || b[dest] != NoPiece || PieceTeam(b[source]) != team ==>
      Validate(r, b, team, forceCapture, cursor, source, dest) == Illegal
    ensures b[source] != NoPiece && b[dest] == NoPiece && PieceTeam(b[source]) == team && forceCapture ==>
      (Validate(r, b, team, forceCapture, cursor, source, dest).Legal? <==>
       exists i :: 0 <= i < |cursor.children| && Matches(cursor.children[i], source, dest))
    ensures forceCapture && Validate(r, b, team, forceCapture, cursor, source, dest).Legal? ==>
      exists i :: 0 <= i < |cursor.children| &&
        Validate(r, b, team, forceCapture, cursor, source, dest).next == Some(cursor.children[i]) &&
        Matches(cursor.children[i], source, dest) &&
        forall k :: 0 <= k < i ==> !Matches(cursor.children[k], source, dest)
    ensures b[source] != NoPiece && b[dest] == NoPiece && PieceTeam(b[source]) == team && !forceCapture ==>
      Validate(r, b, team, forceCapture, cursor, source, dest) ==
        (if FreeMoveLegal(r, b, source, dest) then Legal(None) else Illegal)
  {
    var o := FirstMatch(cursor.children, source, dest);
    if o.Some? {
      assert Matches(cursor.children[o.value], source, dest);
    }
  }

  /** The square reached d steps along a direction is the destination exactly when the move vector is that many steps of it. */
  lemma StepReaches(r: Rules, source: nat, dest: nat, d: nat, k: nat)
    requires ValidSide(r.side) && source < CellCount(r.side) && dest < CellCount(r.side) && d < 4 && k >= 1
    ensures CellToPosition(r, dest) == Step(CellToPosition(r, source), d, k) <==>
      (MoveVector(r, source, dest) == Position(Directions[d].x * k, Directions[d].y * k))
  {
  }

  /** The move from source to dest is k steps along direction d, following the free-move rule for the piece at source. */
  predicate DiagonalWalk(r: Rules, b: seq<int>, source: nat, dest: nat, d: nat, k: nat)
    requires Ready(r, b) && source < CellCount(r.side) && dest < CellCount(r.side) && d < 4
  {
    var s := CellToPosition(r, source);
    k >= 1 && CellToPosition(r, dest) == Step(s, d, k) &&
    if IsQueen(b[source]) then (k == 1 || r.flyingKings) && PathClear(r, b, s, d, k)
    else IsPeonMovingForward(r, b[source], Directions[d]) && k == 1
  }

  /** Distinct cells lie on distinct squares. */
  lemma DistinctCellsDistinctSquares(r: Rules, source: nat, dest: nat)
    requires ValidSide(r.side) && source < CellCount(r.side) && dest < CellCount(r.side) && source != dest
    ensures CellToPosition(r, source) != CellToPosition(r, dest)
  {
    CellIdRoundTrip(r, source);
    CellIdRoundTrip(r, dest);
  }

  lemma FreeMoveToWalk(r: Rules, b: seq<int>, source: nat, dest: nat) returns (d: nat, k: nat)
    requires Ready(r, b) && source < CellCount(r.side) && dest < CellCount(r.side) && source != dest
    requires FreeMoveLegal(r, b, source, dest)
    ensures d < 4 && DiagonalWalk(r, b, source, dest, d, k)
  {
    var v := MoveVector(r, source, dest);
    DistinctCellsDistinctSquares(r, source, dest);
    d := SignDirection(v);
    k := Distance(v);
    StepReaches(r, source, dest, d, k);
  }

  lemma WalkToFreeMove(r: Rules, b: seq<int>, source: nat, dest: nat, d: nat, k: nat)
    requires Ready(r, b) && source < CellCount(r.side) && dest < CellCount(r.side) && d < 4
    requires DiagonalWalk(r, b, source, dest, d, k)
    ensures FreeMoveLegal(r, b, source, dest)
  {
    var v := MoveVector(r, source, dest);
    StepReaches(r, source, dest, d, k);
    assert SignDirection(v) == d;
    assert Distance(v) == k;
  }

  /**
   * A free move is exactly a walk along one diagonal: a peon one step in a forward
   * direction, a queen k steps (k = 1 unless kings fly) over empty squares.
   */
  lemma FreeMoveIsDiagonalWalk(r: Rules, b: seq<int>, source: nat, dest: nat)
    requires Ready(r, b) && source < CellCount(r.side) && dest < CellCount(r.side) && source != dest
    ensures FreeMoveLegal(r, b, source, dest) <==> exists d: nat, k: nat :: d < 4 && DiagonalWalk(r, b, source, dest, d, k)
  {
    if FreeMoveLegal(r, b, source, dest) {
      var d, k := FreeMoveToWalk(r, b, source, dest);
    }
    if exists d: nat, k: nat :: d < 4 && DiagonalWalk(r, b, source, dest, d, k) {
      var d: nat, k: nat :| d < 4 && DiagonalWalk(r, b, source, dest, d, k);
      WalkToFreeMove(r, b, source, dest, d, k);
    }
  }

  /** A diagonal vector is Distance(v) steps of its sign direction. */
  lemma DiagonalReach(v: Position)
    requires IsDiagonal(v)
    ensures Position(Directions[SignDirection(v)].x * Distance(v), Directions[SignDirection(v)].y * Distance(v)) == v
  {
  }

  /**
   * Under a forced capture the cursor is the node of the capture just played, built on the
   * current board; a move accepted there is one of that node's children: a legal capture
   * by the same piece, from where it landed, that does not go straight back.
   */
  lemma ForcedMoveIsLegalCapture(r: Rules, b: seq<int>, team: int, m: Move, source: nat, dest: nat)
    requires Ready(r, b) && m.source < CellCount(r.side) && m.dest < CellCount(r.side)
    requires source < CellCount(r.side) && dest < CellCount(r.side)
    requires Validate(r, b, team, true, BuildForMove(r, b, m), source, dest).Legal?
    ensures var x := Validate(r, b, team, true, BuildForMove(r, b, m), source, dest).next;
      x.Some? && x.value.data.Some? && CaptureShape(r, b, x.value.data.value) &&
      x.value.data.value.source == source == m.dest && x.value.data.value.dest == dest &&
      LegalCapture(r, b, x.value.data.value) && Continues(r, m, x.value.data.value)
  {
    BuildForMoveChildren(r, b, m);
  }

  /**
   * At the start of a turn the cursor is the root of the tree the game builds, pruned by
   * whichever laws are on; an accepted move is a legal capture by a piece of the side to move.
   */
  lemma ForcedFirstMoveIsLegalCapture(r: Rules, b: seq<int>, team: int, source: nat, dest: nat)
    requires Ready(r, b) && team != NoTeam
    requires source < CellCount(r.side) && dest < CellCount(r.side)
    requires Validate(r, b, team, true, CaptureTreeFor(r, b, team), source, dest).Legal?
    ensures var x := Validate(r, b, team, true, CaptureTreeFor(r, b, team), source, dest).next;
      x.Some? && x.value.data.Some? && CaptureShape(r, b, x.value.data.value) &&
      x.value.data.value.source == source && x.value.data.value.dest == dest &&
      PieceTeam(b[source]) == team && LegalCapture(r, b, x.value.data.value)
  {
    CaptureTreeDrawnFromUnpruned(r, b, team);
    UnprunedTreeRoot(r, b, team);
    var t := CaptureTreeFor(r, b, team);
    var u := UnprunedTree(r, b, team);
    var j := FirstMatch(t.children, source, dest).value;
    var i :| 0 <= i < |u.children| && t.children[j].data == u.children[i].data;
    ContinuationData(r, b, TeamCaptures(r, b, team)[i]);
  }

  /** The forced-capture search: the first child of the cursor whose move goes from source to dest. */
  method FindForcedChild(cursor: CaptureTree, source: nat, dest: nat) returns (found: Option<CaptureTree>)
    ensures found.None? <==> FirstMatch(cursor.children, source, dest).None?
    ensures found.Some? ==> found.value == cursor.children[FirstMatch(cursor.children, source, dest).value]
  {
    for i := 0 to |cursor.children|
      invariant forall k :: 0 <= k < i ==> !Matches(cursor.children[k], source, dest)
    {
      var child := cursor.children[i];
      if child.data.Some? && child.data.value.source == source && child.data.value.dest == dest {
        return Some(child);
      }
    }
    return None;
  }

  /** The queen's walk: every square strictly between the source square s and `distance` steps along d is empty. */
  method QueenPathClear(r: Rules, b: seq<int>, s: Position, d: nat, distance: nat) returns (clear: bool)
    requires Ready(r, b) && Playable(r, s) && d < 4 && InBounds(r.side, s) && InBounds(r.side, Step(s, d, distance))
    ensures clear == PathClear(r, b, s, d, distance)
  {
    var i := 1;
    while i < distance
      invariant 1 <= i && (distance >= 1 ==> i <= distance)
      invariant forall k :: 1 <= k < i ==> InBounds(r.side, Step(s, d, k)) && b[StepCell(r, s, d, k)] == NoPiece
    {
      var middle := Position(s.x + i * Directions[d].x, s.y + i * Directions[d].y);
      StepBetween(r.side, s, d, distance, i);
      StepPlayable(r, s, d, i);
      var cell := PositionToCell(r, middle);
      if b[cell] != NoPiece {
        return false;
      }
      i := i + 1;
    }
    return true;
  }

  /** validate_move_based_on_rules: the forced-capture search and the queen's path walk as loops. */
  method ValidateMove(r: Rules, b: seq<int>, team: int, forceCapture: bool, cursor: CaptureTree, source: nat, dest: nat)
    returns (verdict: Verdict)
    requires Ready(r, b) && source < CellCount(r.side) && dest < CellCount(r.side)
    ensures verdict == Validate(r, b, team, forceCapture, cursor, source, dest)
  {
    var piece := b[source];
    if piece == NoPiece || b[dest] != NoPiece {
      return Illegal;
    }
    if PieceTeam(piece) != team {
      return Illegal;
    }
    if forceCapture {
      var found := FindForcedChild(cursor, source, dest);
      if found.Some? {
        return Legal(found);
      }
      return Illegal;
    }
    var s := CellToPosition(r, source);
    var v := MoveVector(r, source, dest);
    if !IsDiagonal(v) {
      return Illegal;
    }
    var distance := Distance(v);
    if IsQueen(piece) {
      if distance > 1 && !r.flyingKings {
        return Illegal;
      }
      var d := SignDirection(v);
      DiagonalReach(v);
      CellIdRoundTrip(r, source);
      CellIdRoundTrip(r, dest);
      var clear := QueenPathClear(r, b, s, d, distance);
      if !clear {
        return Illegal;
      }
      return Legal(None);
    }
    if IsPeonMovingForward(r, piece, v) && distance == 1 {
      return Legal(None);
    }
    return Illegal;
  }
}
