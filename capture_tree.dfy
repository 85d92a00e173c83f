/**
 * Capture-tree building: the root holds every capture of the side to move; below a
 * capture come the further captures of the same piece on the board after it, except a
 * capture straight back along the way it came. The laws of quantity and quality then
 * prune the tree.
 */
module CaptureTrees {
  import opened Common
  import opened Pieces
  import opened Geometry
  import opened Board
  import opened Captures
  import opened Trees
  import opened Quantity
  import opened Quality

  /** The unit direction from s to e: the vector divided by its horizontal length, with C's truncating division. */
  function UnitDirection(s: Position, e: Position): Position
  {
    var v := Position(e.x - s.x, e.y - s.y);
    var magnitude := if v.x < 0 then -v.x else v.x;
    if magnitude == 0 then Position(0, 0) else Position(CDiv(v.x, magnitude), CDiv(v.y, magnitude))
  }

  /** The direction of a move, from the positions of its two cells. */
  function MoveDirection(r: Rules, m: Move): Position
    requires ValidSide(r.side) && m.source < CellCount(r.side) && m.dest < CellCount(r.side)
  {
    UnitDirection(CellToPosition(r, m.source), CellToPosition(r, m.dest))
  }

  /** k >= 1 steps along a diagonal have that diagonal as their unit direction. */
  lemma UnitDirectionOfStep(s: Position, d: nat, k: int)
    requires d < 4 && k >= 1
    ensures UnitDirection(s, Step(s, d, k)) == Directions[d]
  {
    assert CDiv(k, k) == 1;
    assert CDiv(-k, k) == -1;
  }

  /** The child direction is the exact negation of the parent's. */
  predicate Reverses(parent: Position, child: Position)
  {
    parent.x == -child.x && parent.y == -child.y
  }

  /** The direction computed from a capture's cells is the diagonal it was generated along. */
  lemma MoveDirectionOfCapture(r: Rules, b: seq<int>, m: Move, d: nat, j: int, k: int)
    requires Ready(r, b) && d < 4 && CaptureAlong(r, b, m, d, j, k)
    ensures m.dest < CellCount(r.side)
    ensures MoveDirection(r, m) == Directions[d]
  {
    UnitDirectionOfStep(CellToPosition(r, m.source), d, k);
  }

  /** Two diagonals reverse each other exactly when one is the opposite of the other. */
  lemma DirectionsReverse(d: nat, d': nat)
    requires d < 4 && d' < 4
    ensures Reverses(Directions[d], Directions[d']) <==> d' == Opposite(d)
  {
  }

  /** For two captures, reversal means the second runs along the opposite diagonal of the first. */
  lemma ReversesIffOpposite(r: Rules, b: seq<int>, b': seq<int>, m: Move, d: nat, j: int, k: int, c: Move, d': nat, j': int, k': int)
    requires Ready(r, b) && d < 4 && CaptureAlong(r, b, m, d, j, k)
    requires Ready(r, b') && d' < 4 && CaptureAlong(r, b', c, d', j', k')
    ensures Reverses(MoveDirection(r, m), MoveDirection(r, c)) <==> d' == Opposite(d)
  {
    MoveDirectionOfCapture(r, b, m, d, j, k);
    MoveDirectionOfCapture(r, b', c, d', j', k');
    DirectionsReverse(d, d');
  }

  /** Every move of cs has the shape tree building relies on. */
  predicate AllShaped(r: Rules, b: seq<int>, cs: seq<Move>)
    requires Ready(r, b)
  {
    forall i :: 0 <= i < |cs| ==> CaptureShape(r, b, cs[i])
  }

  /** Every generated capture of a piece has the shape tree building relies on. */
  lemma PieceCapturesShaped(r: Rules, b: seq<int>, id: nat)
    requires Ready(r, b) && id < CellCount(r.side)
    ensures AllShaped(r, b, PieceCaptures(r, b, id))
  {
    PieceCapturesSound(r, b, id);
    forall c | c in PieceCaptures(r, b, id)
      ensures CaptureShape(r, b, c)
    {
      LegalHasShape(r, b, c);
    }
  }

  lemma TeamCapturesShaped(r: Rules, b: seq<int>, team: int)
    requires Ready(r, b) && team != NoTeam
    ensures AllShaped(r, b, TeamCaptures(r, b, team))
  {
    TeamCapturesExact(r, b, team);
    forall c | c in TeamCaptures(r, b, team)
      ensures CaptureShape(r, b, c)
    {
      LegalHasShape(r, b, c);
    }
  }

  /** The continuation filter: a capture that does not go straight back along the parent's diagonal. */
  predicate Continues(r: Rules, parent: Move, c: Move)
    requires ValidSide(r.side)
    requires parent.source < CellCount(r.side) && parent.dest < CellCount(r.side)
    requires c.source < CellCount(r.side) && c.dest < CellCount(r.side)
  {
    !Reverses(MoveDirection(r, parent), MoveDirection(r, c))
  }

  /** The elements of s that pass keep, in their order. */
  function Filter<T>(s: seq<T>, keep: T -> bool): (f: seq<T>)
    ensures forall x :: x in f ==> x in s && keep(x)
    ensures forall i :: 0 <= i < |s| && keep(s[i]) ==> s[i] in f
  {
    if |s| == 0 then [] else
      var rest := Filter(s[..|s| - 1], keep);
      assert forall i :: 0 <= i < |s| - 1 ==> s[i] == s[..|s| - 1][i];
      if keep(s[|s| - 1]) then rest + [s[|s| - 1]] else rest
  }

  /** Filtering one more element appends it exactly when it passes. */
  lemma FilterSnoc<T>(s: seq<T>, x: T, keep: T -> bool)
    ensures Filter(s + [x], keep) == if keep(x) then Filter(s, keep) + [x] else Filter(s, keep)
  {
    assert (s + [x])[..|s|] == s;
  }

  /** The continuation filter as a test on any move: its cells are on the board and it does not go straight back. */
  function ContinuesFrom(r: Rules, parent: Move): Move -> bool
    requires ValidSide(r.side) && parent.source < CellCount(r.side) && parent.dest < CellCount(r.side)
  {
    (c: Move) => c.source < CellCount(r.side) && c.dest < CellCount(r.side) && Continues(r, parent, c)
  }

  /** The continuations in cs that pass the filter, in their order: exactly the moves of cs that pass it. */
  function Kept(r: Rules, b: seq<int>, parent: Move, cs: seq<Move>): (kept: seq<Move>)
    requires Ready(r, b) && parent.source < CellCount(r.side) && parent.dest < CellCount(r.side)
    requires AllShaped(r, b, cs)
    ensures forall c :: c in kept ==> c in cs
    ensures AllShaped(r, b, kept)
    ensures forall i :: 0 <= i < |kept| ==> Continues(r, parent, kept[i])
    ensures forall i :: 0 <= i < |cs| && Continues(r, parent, cs[i]) ==> cs[i] in kept
  {
    var kept := Filter(cs, ContinuesFrom(r, parent));
    forall i | 0 <= i < |kept|
      ensures CaptureShape(r, b, kept[i]) && Continues(r, parent, kept[i])
    {
      assert kept[i] in kept;
      var j :| 0 <= j < |cs| && cs[j] == kept[i];
    }
    kept
  }

  /** board_generate_capture_tree_for_move: the node for move m, given the board after m. */
  function BuildForMove(r: Rules, b: seq<int>, m: Move): CaptureTree
    requires Ready(r, b) && m.source < CellCount(r.side) && m.dest < CellCount(r.side)
    decreases Occupied(b), 2, 0
  {
    PieceCapturesShaped(r, b, m.dest);
    Node(Some(m), Subtrees(r, b, Kept(r, b, m, PieceCaptures(r, b, m.dest))))
  }

  /** One subtree per capture of cs, in order, each built on its own copy of the board. */
  function Subtrees(r: Rules, b: seq<int>, cs: seq<Move>): seq<CaptureTree>
    requires Ready(r, b) && AllShaped(r, b, cs)
    decreases Occupied(b), 1, |cs|
  {
    if |cs| == 0 then [] else
      Subtrees(r, b, cs[..|cs| - 1]) + [Continuation(r, b, cs[|cs| - 1])]
  }

  /** The subtree for capture c, built on a copy of the board with c applied. */
  function Continuation(r: Rules, b: seq<int>, c: Move): CaptureTree
    requires Ready(r, b) && CaptureShape(r, b, c)
    decreases Occupied(b), 0, 0
  {
    CaptureRemovesOnePiece(b, c);
    BuildForMove(r, ApplyMove(b, c), c)
  }

  /** The tree before the capture laws, for the side `team`: the root carries no move. */
  function UnprunedTree(r: Rules, b: seq<int>, team: int): CaptureTree
    requires Ready(r, b) && team != NoTeam
  {
    TeamCapturesShaped(r, b, team);
    Node(None, Subtrees(r, b, TeamCaptures(r, b, team)))
  }

  /** A chain of captures is never longer than the number of pieces on the board. */
  lemma {:induction false} BuildForMoveHeight(r: Rules, b: seq<int>, m: Move)
    requires Ready(r, b) && m.source < CellCount(r.side) && m.dest < CellCount(r.side)
    ensures Height(BuildForMove(r, b, m)) <= Occupied(b)
    decreases Occupied(b), 1, 0
  {
    PieceCapturesShaped(r, b, m.dest);
    var t := BuildForMove(r, b, m);
    SubtreesHeight(r, b, Kept(r, b, m, PieceCaptures(r, b, m.dest)));
    HeightOfChildren(t);
    if |t.children| > 0 {
      var i :| 0 <= i < |t.children| && Height(t.children[i]) + 1 == Height(t);
    }
  }

  lemma {:induction false} SubtreesHeight(r: Rules, b: seq<int>, cs: seq<Move>)
    requires Ready(r, b) && AllShaped(r, b, cs)
    ensures forall i :: 0 <= i < |Subtrees(r, b, cs)| ==> Height(Subtrees(r, b, cs)[i]) + 1 <= Occupied(b)
    decreases Occupied(b), 0, |cs|
  {
    if |cs| > 0 {
      var c := cs[|cs| - 1];
      SubtreesHeight(r, b, cs[..|cs| - 1]);
      CaptureRemovesOnePiece(b, c);
      BuildForMoveHeight(r, ApplyMove(b, c), c);
    }
  }

  /** Tree building terminates: no path is longer than the number of occupied cells. */
  lemma UnprunedTreeHeight(r: Rules, b: seq<int>, team: int)
    requires Ready(r, b) && team != NoTeam
    ensures Height(UnprunedTree(r, b, team)) <= Occupied(b) <= MaxCells
  {
    TeamCapturesShaped(r, b, team);
    var t := UnprunedTree(r, b, team);
    SubtreesHeight(r, b, TeamCaptures(r, b, team));
    HeightOfChildren(t);
    if |t.children| > 0 {
      var i :| 0 <= i < |t.children| && Height(t.children[i]) + 1 == Height(t);
    }
  }

  /** A path is worth at most 2 per capture. */
  lemma {:induction false} MaxPointsAtMostTwicePerLevel(b: seq<int>, t: CaptureTree)
    ensures MaxPoints(b, t) <= 2 * Height(t)
    decreases t
  {
    MaxChildPointsIsMaximum(b, t.children);
    HeightOfChildren(t);
    if |t.children| > 0 {
      var i :| 0 <= i < |t.children| && Points(b, t.children[i]) + MaxPoints(b, t.children[i]) == MaxChildPoints(b, t.children);
      MaxPointsAtMostTwicePerLevel(b, t.children[i]);
    }
  }

  /** board_generate_capture_tree: the unpruned tree, then the laws the rules switch on. */
  function CaptureTreeFor(r: Rules, b: seq<int>, team: int): CaptureTree
    requires Ready(r, b) && team != NoTeam
  {
    var t := UnprunedTree(r, b, team);
    UnprunedTreeHeight(r, b, team);
    var q := if r.lawOfQuantity then LawOfQuantity(t) else t;
    LawOfQuantityProperties(t);
    MaxPointsAtMostTwicePerLevel(b, q);
    if r.lawOfQuality then LawOfQuality(b, q) else q
  }

  /** Pruning only removes: every child of the game's root carries the capture of a child of the unpruned root. */
  lemma CaptureTreeDrawnFromUnpruned(r: Rules, b: seq<int>, team: int)
    requires Ready(r, b) && team != NoTeam
    ensures CaptureTreeFor(r, b, team).data == None
    ensures DataDrawnFrom(CaptureTreeFor(r, b, team).children, UnprunedTree(r, b, team).children)
  {
    var t := UnprunedTree(r, b, team);
    UnprunedTreeRoot(r, b, team);
    UnprunedTreeHeight(r, b, team);
    LawOfQuantityProperties(t);
    var q := if r.lawOfQuantity then LawOfQuantity(t) else t;
    if r.lawOfQuantity {
      QuantityChildrenDrawnFrom(t.children, Height(t));
    } else {
      assert DataDrawnFrom(q.children, t.children) by {
        forall j | 0 <= j < |q.children|
          ensures exists i :: 0 <= i < |t.children| && q.children[j].data == t.children[i].data
        {
          assert q.children[j].data == t.children[j].data;
        }
      }
    }
    MaxPointsAtMostTwicePerLevel(b, q);
    if r.lawOfQuality {
      QualityChildrenDrawnFrom(b, q.children, MaxPoints(b, q));
      DataDrawnFromTransitive(LawOfQuality(b, q).children, q.children, t.children);
    }
  }

  /** The subtrees correspond one to one, in order, with the captures cs. */
  lemma {:induction false} SubtreesContents(r: Rules, b: seq<int>, cs: seq<Move>)
    requires Ready(r, b) && AllShaped(r, b, cs)
    ensures |Subtrees(r, b, cs)| == |cs|
    ensures forall i :: 0 <= i < |cs| ==> Subtrees(r, b, cs)[i] == Continuation(r, b, cs[i])
    decreases |cs|
  {
    if |cs| > 0 {
      var init := cs[..|cs| - 1];
      SubtreesContents(r, b, init);
      assert Subtrees(r, b, cs) == Subtrees(r, b, init) + [Continuation(r, b, cs[|cs| - 1])];
      forall i | 0 <= i < |cs|
        ensures Subtrees(r, b, cs)[i] == Continuation(r, b, cs[i])
      {
        if i < |cs| - 1 {
          assert cs[i] == init[i];
        }
      }
    }
  }

  /** The subtree of a capture carries that capture. */
  lemma ContinuationData(r: Rules, b: seq<int>, c: Move)
    requires Ready(r, b) && CaptureShape(r, b, c)
    ensures Continuation(r, b, c).data == Some(c)
  {
    assert Continuation(r, b, c) == BuildForMove(r, ApplyMove(b, c), c);
  }

  /**
   * The node for move m carries m, and its children are exactly the legal captures from
   * m's landing cell that do not go straight back, each with the subtree built on the board
   * after that capture.
   */
  lemma BuildForMoveChildren(r: Rules, b: seq<int>, m: Move)
    requires Ready(r, b) && m.source < CellCount(r.side) && m.dest < CellCount(r.side)
    ensures BuildForMove(r, b, m).data == Some(m)
    ensures forall i :: 0 <= i < |BuildForMove(r, b, m).children| ==>
      var x := BuildForMove(r, b, m).children[i];
      x.data.Some? && CaptureShape(r, b, x.data.value) &&
      x.data.value.source == m.dest && LegalCapture(r, b, x.data.value) &&
      Continues(r, m, x.data.value) && x == Continuation(r, b, x.data.value)
    ensures forall c: Move ::
      (c.source == m.dest && (IsPeon(b[m.dest]) || IsQueen(b[m.dest])) && LegalCapture(r, b, c) &&
       CaptureShape(r, b, c) && Continues(r, m, c)) ==>
      exists i :: 0 <= i < |BuildForMove(r, b, m).children| && BuildForMove(r, b, m).children[i].data == Some(c)
  {
    var cs := PieceCaptures(r, b, m.dest);
    PieceCapturesShaped(r, b, m.dest);
    var kept := Kept(r, b, m, cs);
    BuildForMoveUnfold(r, b, m);
    var kids := BuildForMove(r, b, m).children;
    ChildrenSound(r, b, m, cs, kept, kids);
    ChildrenComplete(r, b, m, cs, kept, kids);
  }

  /** Every child of the node for m is a legal continuing capture from m's landing cell, built on. */
  lemma ChildrenSound(r: Rules, b: seq<int>, m: Move, cs: seq<Move>, kept: seq<Move>, kids: seq<CaptureTree>)
    requires Ready(r, b) && m.source < CellCount(r.side) && m.dest < CellCount(r.side)
    requires cs == PieceCaptures(r, b, m.dest) && AllShaped(r, b, cs)
    requires kept == Kept(r, b, m, cs) && kids == Subtrees(r, b, kept)
    ensures forall i :: 0 <= i < |kids| ==>
      var x := kids[i];
      x.data.Some? && CaptureShape(r, b, x.data.value) &&
      x.data.value.source == m.dest && LegalCapture(r, b, x.data.value) &&
      Continues(r, m, x.data.value) && x == Continuation(r, b, x.data.value)
  {
    PieceCapturesSound(r, b, m.dest);
    SubtreesContents(r, b, kept);
    forall i | 0 <= i < |kids|
      ensures kids[i].data == Some(kept[i])
    {
      ContinuationData(r, b, kept[i]);
    }
  }

  /** Every legal continuing capture from m's landing cell has a child of the node for m. */
  lemma ChildrenComplete(r: Rules, b: seq<int>, m: Move, cs: seq<Move>, kept: seq<Move>, kids: seq<CaptureTree>)
    requires Ready(r, b) && m.source < CellCount(r.side) && m.dest < CellCount(r.side)
    requires cs == PieceCaptures(r, b, m.dest) && AllShaped(r, b, cs)
    requires kept == Kept(r, b, m, cs) && kids == Subtrees(r, b, kept)
    ensures forall c: Move ::
      (c.source == m.dest && (IsPeon(b[m.dest]) || IsQueen(b[m.dest])) && LegalCapture(r, b, c) &&
       CaptureShape(r, b, c) && Continues(r, m, c)) ==>
      exists i :: 0 <= i < |kids| && kids[i].data == Some(c)
  {
    SubtreesContents(r, b, kept);
    forall c: Move | c.source == m.dest && (IsPeon(b[m.dest]) || IsQueen(b[m.dest])) && LegalCapture(r, b, c) &&
      CaptureShape(r, b, c) && Continues(r, m, c)
      ensures exists i :: 0 <= i < |kids| && kids[i].data == Some(c)
    {
      PieceCapturesComplete(r, b, c);
      var i :| 0 <= i < |cs| && cs[i] == c;
      var i' :| 0 <= i' < |kept| && kept[i'] == c;
      ContinuationData(r, b, c);
      assert kids[i'].data == Some(c);
    }
  }

  /**
   * The unpruned tree's root carries no move and has one child per capture of the team,
   * in the order the captures were generated, each built on the board after that capture
   * with no direction filter.
   */
  lemma UnprunedTreeRoot(r: Rules, b: seq<int>, team: int)
    requires Ready(r, b) && team != NoTeam
    ensures UnprunedTree(r, b, team).data == None
    ensures |UnprunedTree(r, b, team).children| == |TeamCaptures(r, b, team)|
    ensures forall i :: 0 <= i < |TeamCaptures(r, b, team)| ==>
      var c := TeamCaptures(r, b, team)[i];
      CaptureShape(r, b, c) && PieceTeam(b[c.source]) == team && LegalCapture(r, b, c) &&
      UnprunedTree(r, b, team).children[i] == Continuation(r, b, c)
  {
    TeamCapturesShaped(r, b, team);
    TeamCapturesExact(r, b, team);
    SubtreesContents(r, b, TeamCaptures(r, b, team));
  }

  /** One more capture of cs: Kept grows by it exactly when it does not reverse the parent's direction. */
  lemma KeptStep(r: Rules, b: seq<int>, parent: Move, cs: seq<Move>, i: nat)
    requires Ready(r, b) && parent.source < CellCount(r.side) && parent.dest < CellCount(r.side)
    requires AllShaped(r, b, cs) && i < |cs|
    ensures AllShaped(r, b, cs[..i]) && AllShaped(r, b, cs[..i + 1]) && CaptureShape(r, b, cs[i])
    ensures Kept(r, b, parent, cs[..i + 1]) ==
      if !Reverses(MoveDirection(r, parent), MoveDirection(r, cs[i])) then Kept(r, b, parent, cs[..i]) + [cs[i]]
      else Kept(r, b, parent, cs[..i])
  {
    PrefixShaped(r, b, cs, i);
    var f := ContinuesFrom(r, parent);
    FilterSnoc(cs[..i], cs[i], f);
    assert f(cs[i]) == !Reverses(MoveDirection(r, parent), MoveDirection(r, cs[i]));
  }

  /** The first i and i + 1 captures of a shaped sequence are shaped, and so is its i-th. */
  lemma PrefixShaped(r: Rules, b: seq<int>, cs: seq<Move>, i: nat)
    requires Ready(r, b) && AllShaped(r, b, cs) && i < |cs|
    ensures AllShaped(r, b, cs[..i]) && AllShaped(r, b, cs[..i + 1]) && CaptureShape(r, b, cs[i])
    ensures cs[..i + 1] == cs[..i] + [cs[i]]
  {
    assert forall j :: 0 <= j <= i ==> cs[..i + 1][j] == cs[j];
  }

  /** Extending the captures by one appends that capture's subtree. */
  lemma SubtreesSnoc(r: Rules, b: seq<int>, cs: seq<Move>, c: Move)
    requires Ready(r, b) && AllShaped(r, b, cs) && CaptureShape(r, b, c)
    ensures AllShaped(r, b, cs + [c])
    ensures Subtrees(r, b, cs + [c]) == Subtrees(r, b, cs) + [BuildForMove(r, ApplyMove(b, c), c)]
  {
    assert (cs + [c])[..|cs|] == cs;
    assert Continuation(r, b, c) == BuildForMove(r, ApplyMove(b, c), c);
  }

  /** The node for m, unfolded one level. */
  lemma BuildForMoveUnfold(r: Rules, b: seq<int>, m: Move)
    requires Ready(r, b) && m.source < CellCount(r.side) && m.dest < CellCount(r.side)
    ensures AllShaped(r, b, PieceCaptures(r, b, m.dest))
    ensures AllShaped(r, b, Kept(r, b, m, PieceCaptures(r, b, m.dest)))
    ensures BuildForMove(r, b, m) == Node(Some(m), Subtrees(r, b, Kept(r, b, m, PieceCaptures(r, b, m.dest))))
  {
    PieceCapturesShaped(r, b, m.dest);
  }

  /** board_generate_capture_tree_for_move, recursively, on a copy of the board per continuation. */
  method BuildCaptureTreeForMove(r: Rules, b: seq<int>, m: Move) returns (t: CaptureTree)
    requires Ready(r, b) && m.source < CellCount(r.side) && m.dest < CellCount(r.side)
    ensures t == BuildForMove(r, b, m)
    decreases Occupied(b)
  {
    t := NewTree(Some(m));
    var direction := MoveDirection(r, m);
    var captures := CollectPieceCaptures(r, b, m.dest);
    BuildForMoveUnfold(r, b, m);
    for i := 0 to |captures|
      invariant t == Node(Some(m), Subtrees(r, b, Kept(r, b, m, captures[..i])))
    {
      var c := captures[i];
      KeptStep(r, b, m, captures, i);
      if !Reverses(direction, MoveDirection(r, c)) {
        var copy := ApplyMove(b, c);
        CaptureRemovesOnePiece(b, c);
        var subtree := BuildCaptureTreeForMove(r, copy, c);
        SubtreesSnoc(r, b, Kept(r, b, m, captures[..i]), c);
        t := InsertSubtree(t, subtree);
      }
    }
    assert captures[..|captures|] == captures;
  }

  /** board_generate_capture_tree: one subtree per capture of the team, then the enabled laws. */
  method GenerateCaptureTree(r: Rules, b: seq<int>, team: int) returns (t: CaptureTree)
    requires Ready(r, b) && team != NoTeam
    ensures t == CaptureTreeFor(r, b, team)
  {
    t := NewTree(None);
    var captures := CollectTeamCaptures(r, b, team);
    TeamCapturesShaped(r, b, team);
    for i := 0 to |captures|
      invariant t == Node(None, Subtrees(r, b, captures[..i]))
    {
      var c := captures[i];
      assert captures[..i + 1][..i] == captures[..i];
      var copy := ApplyMove(b, c);
      var subtree := BuildCaptureTreeForMove(r, copy, c);
      t := InsertSubtree(t, subtree);
    }
    assert captures[..|captures|] == captures;
    UnprunedTreeHeight(r, b, team);
    LawOfQuantityProperties(t);
    if r.lawOfQuantity {
      t := ApplyLawOfQuantity(t);
    }
    MaxPointsAtMostTwicePerLevel(b, t);
    if r.lawOfQuality {
      t := ApplyLawOfQuality(b, t);
    }
  }

  /** Every node below the root carries a capture move whose cells are all on the board. */
  predicate NodesFit(t: CaptureTree)
  {
    (t.data.Some? ==> t.data.value.isCapture && MoveFitsBoard(t.data.value)) &&
    forall i :: 0 <= i < |t.children| ==> NodesFit(t.children[i])
  }

  lemma {:induction false} BuildForMoveFits(r: Rules, b: seq<int>, m: Move)
    requires Ready(r, b) && m.source < CellCount(r.side) && m.dest < CellCount(r.side)
    requires m.isCapture && MoveFitsBoard(m)
    ensures NodesFit(BuildForMove(r, b, m))
    decreases Occupied(b), 1, 0
  {
    BuildForMoveUnfold(r, b, m);
    SubtreesFit(r, b, Kept(r, b, m, PieceCaptures(r, b, m.dest)));
  }

  lemma {:induction false} SubtreesFit(r: Rules, b: seq<int>, cs: seq<Move>)
    requires Ready(r, b) && AllShaped(r, b, cs)
    ensures forall i :: 0 <= i < |Subtrees(r, b, cs)| ==> NodesFit(Subtrees(r, b, cs)[i])
    decreases Occupied(b), 0, |cs|
  {
    if |cs| > 0 {
      var c := cs[|cs| - 1];
      SubtreesFit(r, b, cs[..|cs| - 1]);
      CaptureRemovesOnePiece(b, c);
      BuildForMoveFits(r, ApplyMove(b, c), c);
    }
  }

  lemma {:induction false} PruneQuantityFits(t: CaptureTree, value: nat)
    requires value < SizeModulus && NodesFit(t)
    ensures NodesFit(PruneQuantity(t, value))
    decreases t, 1
  {
    QuantityChildrenFit(t.children, value);
  }

  lemma {:induction false} QuantityChildrenFit(cs: seq<CaptureTree>, value: nat)
    requires value < SizeModulus && forall i :: 0 <= i < |cs| ==> NodesFit(cs[i])
    ensures forall i :: 0 <= i < |QuantityChildren(cs, value)| ==> NodesFit(QuantityChildren(cs, value)[i])
    decreases cs, 0
  {
    if |cs| > 0 {
      var last := cs[|cs| - 1];
      QuantityChildrenFit(cs[..|cs| - 1], value);
      PruneQuantityFits(last, SizeSub(value, 1));
    }
  }

  lemma {:induction false} PruneQualityFits(b: seq<int>, t: CaptureTree, value: nat)
    requires value < SizeModulus && NodesFit(t)
    ensures NodesFit(PruneQuality(b, t, value))
    decreases t, 1
  {
    QualityChildrenFit(b, t.children, value);
  }

  lemma {:induction false} QualityChildrenFit(b: seq<int>, cs: seq<CaptureTree>, value: nat)
    requires value < SizeModulus && forall i :: 0 <= i < |cs| ==> NodesFit(cs[i])
    ensures forall i :: 0 <= i < |QualityChildren(b, cs, value)| ==> NodesFit(QualityChildren(b, cs, value)[i])
    decreases cs, 0
  {
    if |cs| > 0 {
      var last := cs[|cs| - 1];
      QualityChildrenFit(b, cs[..|cs| - 1], value);
      PruneQualityFits(b, last, SizeSub(value, Points(b, last)));
    }
  }

  /** Every move in the tree the game plays from is a capture whose cells are on the board. */
  lemma CaptureTreeFits(r: Rules, b: seq<int>, team: int)
    requires Ready(r, b) && team != NoTeam
    ensures NodesFit(CaptureTreeFor(r, b, team))
    ensures CaptureTreeFor(r, b, team).data == None
  {
    var t := UnprunedTree(r, b, team);
    TeamCapturesShaped(r, b, team);
    SubtreesFit(r, b, TeamCaptures(r, b, team));
    UnprunedTreeHeight(r, b, team);
    LawOfQuantityProperties(t);
    PruneQuantityFits(t, Height(t));
    var q := if r.lawOfQuantity then LawOfQuantity(t) else t;
    MaxPointsAtMostTwicePerLevel(b, q);
    LawOfQualityProperties(b, q);
    PruneQualityFits(b, q, MaxPoints(b, q));
  }
}
