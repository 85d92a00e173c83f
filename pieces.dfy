/** Piece values, teams and the piece-classification macros of the board header. */
module Pieces {

  const NoPiece: int := 0
  const BlackQueen: int := -2
  const WhiteQueen: int := -1
  const WhitePeon: int := 1
  const BlackPeon: int := 2

  const NoTeam: int := 0
  const WhiteTeam: int := 1
  const BlackTeam: int := 2

  const MaxSide: nat := 12
  /** Capacity of a board: 12*12/2 playable cells. */
  const MaxCells: nat := MaxSide * MaxSide / 2

  /** A value that the board may hold. */
  predicate IsCellValue(p: int) { -2 <= p <= 2 }

  predicate IsQueen(p: int) { p == WhiteQueen || p == BlackQueen }
  predicate IsPeon(p: int) { p == WhitePeon || p == BlackPeon }
  predicate IsWhite(p: int) { p == WhitePeon || p == WhiteQueen }
  predicate IsBlack(p: int) { p == BlackPeon || p == BlackQueen }

  /** piece_same_team: equal values, or one the promotion of the other. */
  predicate SameTeam(a: int, b: int) { a == b || a == -b }

  /** piece_promote_to_queen. */
  function Promote(p: int): (q: int)
    ensures IsPeon(p) ==> IsQueen(q) && (IsWhite(q) <==> IsWhite(p)) && (IsBlack(q) <==> IsBlack(p))
    ensures p == WhitePeon ==> q == WhiteQueen
    ensures p == BlackPeon ==> q == BlackQueen
    ensures SameTeam(p, q)
  {
    -p
  }

  /** piece_team: the team owning a cell value, NoTeam for anything that is not a piece. */
  function PieceTeam(p: int): (t: int)
    ensures t == WhiteTeam <==> IsWhite(p)
    ensures t == BlackTeam <==> IsBlack(p)
    ensures t == NoTeam <==> !IsWhite(p) && !IsBlack(p)
  {
    if p == WhitePeon || p == WhiteQueen then WhiteTeam
    else if p == BlackPeon || p == BlackQueen then BlackTeam
    else NoTeam
  }

  /** For every non-empty cell value, exactly one kind and exactly one colour hold. */
  lemma ClassificationIsExclusive(p: int)
    requires IsCellValue(p) && p != NoPiece
    ensures IsPeon(p) != IsQueen(p)
    ensures IsWhite(p) != IsBlack(p)
  {
  }

  /** Two pieces are of the same team exactly when piece_team agrees on them. */
  lemma SameTeamIffSameOwner(a: int, b: int)
    requires IsCellValue(a) && IsCellValue(b) && a != NoPiece && b != NoPiece
    ensures SameTeam(a, b) <==> PieceTeam(a) == PieceTeam(b)
  {
  }
}
