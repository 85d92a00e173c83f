# Checkers rules engine — a Dafny model

This project models the rules engine of a checkers (draughts) game written in C, together
with the scenario text format and the small data structures the game is built on.

- **Board and geometry.** The board holds up to 72 playable cells, indexed by a dense cell id.
  An id converts to an (x, y) position and back. Pieces are classified by value (peon or
  queen, white or black), and a move is applied to the board (`board.h`, `board.c`).
- **Capture generation.** There are single-jump captures for peons and non-flying kings, and
  ray scans for flying kings, which may land on any empty square beyond the captured piece
  (`board.c`).
- **Capture trees.** Every capture is chained with the captures the same piece can make next,
  each on its own copy of the board. A continuation that reverses the parent's direction is
  dropped (`board.c`).
- **Capture laws.** The law of quantity keeps only the longest chains. The law of quality
  keeps only the most valuable chains, where a queen counts 2 and a peon 1. Both are pruning
  loops over the tree, proved equal to pruning functions (`validation.c`, `dtstructs.h`).
- **Move validation and turns.** A move is checked against the capture tree or the free-move
  rules. The game then crowns pieces, switches teams, and detects the loss of a side that
  cannot move (`validation.c`, `interaction.c`, `game.c`).
- **Scenario text format.** The lexer, the tokens, the loader that fills a scenario from
  tokens, and the editor's run-length writer. Saving and loading back is proved to
  round-trip (`lexer.c`, `token.c`, `scenario_loader.c`, `editor.c`).
- **Utilities.** The generic tree, dynamic array and linked list (`dtstructs.h`), the
  browser pager (`pager.c`), the asset manager's chained hash table (`assetman.c`), and the
  NUL-terminated string helpers (`strplus.c`).

The rule flags, which the C code reads from a global scenario, are passed in as an explicit
`Rules` value. The current team and the board are passed as parameters too. The game state
that the C code updates in place is a `Game` class. The lexer, the loader, the pager, the
editor and the asset tables are classes in the same way. Each method is proved equal to a
specification function, and the properties are proved about those functions. C integer
widths are modelled where they matter:

- size_t wrap-around in the pruning budgets, the pager and the hash;
- the 16-bit integer token and cell id;
- the 8-bit board side;
- C's truncating division.

## Model

| member | source | states |
|---|---|---|
| `Pieces.Promote` | src/include/board.h:20 | promotion is negation: white peon 1 becomes white queen -1, black peon 2 becomes black queen -2, the colour is kept and the result is of the same team |
| `Pieces.PieceTeam` | src/board.c:21-34 | white peon/queen map to WHITE_TEAM, black peon/queen to BLACK_TEAM, every other value to NO_TEAM (each as an if-and-only-if) |
| `Pieces.ClassificationIsExclusive` | src/include/board.h:21-24 | for every non-empty cell value exactly one of peon/queen and exactly one of white/black holds |
| `Pieces.SameTeamIffSameOwner` | src/include/board.h:25 | `piece_same_team(a,b)` (a == b or a == -b) holds for two pieces exactly when `piece_team` gives them the same team; no white value is of the same team as a black one |
| `Board.ApplyMove` | src/board.c:60-68 | the source becomes empty, the destination receives the source's value unchanged (no promotion), the capture cell is emptied only for a capture, and every other cell keeps its value |
| `Board.ApplyMoveInPlace` | src/board.c:60-68 | writing the move into the board array in place leaves exactly the board `ApplyMove` describes |
| `Board.OccupiedUpdate` | src/board.c:62-67 | writing one cell changes the occupied count by what arrives minus what leaves |
| `Board.CaptureRemovesOnePiece` | src/board.c:60-68 | a capture onto an empty cell over an occupied one leaves exactly one occupied cell fewer: the termination measure of the tree builder |
| `Geometry.CellCountFits` | src/include/board.h:13-14 | for side 8, 10 or 12 the playable-cell count side*side/2 fits the 72-cell board, with side/2 cells on each line |
| `Geometry.CellToPosition` | src/board.c:36-49 | every id below side²/2 maps into [0,side)², on a playable square: x+y odd with the double corner on the right, even otherwise |
| `Geometry.PositionToCell` | src/board.c:51-58 | every playable position maps to an id below the cell count that converts back to that position |
| `Geometry.CellIdRoundTrip` | src/board.c:36-58 | `cell_position_to_cell_id(cell_id_to_cell_position(id)) == id` for every id below the cell count, with the position in bounds and of the parity the orientation demands |
| `Geometry.PositionToCellInjective` | src/board.c:51-58 | two playable positions have the same id exactly when they are equal |
| `Geometry.StepPlayable` | src/board.c:4-10 | a diagonal step from a playable square that stays on the board lands on a playable square |
| `Geometry.StepInjective` | src/board.c:4-10 | different distances along one direction reach different squares |
| `Geometry.StepCell` | src/board.c:173-186 | the id of the square k steps away converts back to that square |
| `Geometry.Opposite` | src/board.c:4-10 | direction 3-d is the exact negation of direction d |
| `Geometry.ForwardCharacterised` | src/validation.c:13-21 | when white moves top-to-bottom a white peon is forward iff y>0 and a black peon iff y<0, the signs are reversed otherwise, and the result is false for queens and empty cells |
| `Geometry.CDiv` | src/board.c:114-115 | C's truncating division agrees with Dafny's on a non-negative dividend and a positive divisor |
| `Trees.MaxHeightIsMaximum` | src/include/dtstructs.h:329-346 | the maximum over the children's heights bounds every child's height and is reached by one of them |
| `Trees.HeightOfChildren` | src/include/dtstructs.h:329-346 | a node is higher than each child, exactly one level above its tallest, and of height 0 iff it has no children |
| `Trees.NewTree` | src/include/dtstructs.h:401-410 | a new node carries the given data and has no children |
| `Trees.InsertSubtree` | src/include/dtstructs.h:364-369 | the subtree becomes the last child, the count rises by 1 and earlier children are unchanged |
| `Trees.RemoveSubtree` | src/include/dtstructs.h:371-382 | child i is dropped, later children move down one place in order, earlier ones stay, and the count falls by 1 |
| `Trees.GetSubtree` | src/include/dtstructs.h:384-389 | returns child i when i is below the count and NULL otherwise |
| `Trees.ShiftOut` | src/include/dtstructs.h:375-378 | the shifting loop leaves the first count-1 slots as the old array without slot i, and the slots beyond untouched |
| `Trees.MaxDepthInto` | src/include/dtstructs.h:329-337 | the running maximum ends as the larger of its start and the node's level plus its height |
| `Trees.MaxDepth` | src/include/dtstructs.h:339-346 | `tree_max_depth` is the height: 0 for a childless node, otherwise 1 + the maximum over its children |
| `Quantity.SizeSub` | src/validation.c:129 | `value - k` on size_t: the plain difference when it is not negative, wrapped by 2^64 otherwise |
| `Quantity.LeavesAtHeight` | src/validation.c:123-138 | a tree all of whose paths have length d has height d |
| `Quantity.PruneQuantityAtHeight` | src/validation.c:123-138 | pruning with the node's own height as budget leaves every root-to-leaf path of exactly that length and keeps a child when there was one |
| `Quantity.PruneQuantityFixed` | src/validation.c:123-138 | a tree whose paths already all have length d is unchanged by pruning with budget d |
| `Quantity.Payloads` | src/validation.c:123-138 | the payload list has one entry per subtree, the data of that subtree |
| `Quantity.QuantityKeepsOrder` | src/validation.c:125-136 | the surviving children appear among the original ones at strictly increasing positions: relative order is kept |
| `Quantity.QuantityChildrenDrawnFrom` | src/validation.c:125-136 | the law of quantity only removes children: each surviving child carries the capture of an original child |
| `Quantity.DataDrawnFromTransitive` | src/board.c:92-93 | removing children in two successive passes still leaves only original captures |
| `Quantity.LawOfQuantityProperties` | src/validation.c:87-90 | after the law of quantity every root-to-leaf path has the original max depth, the max depth is unchanged, the root keeps a child if it had one, and applying the law twice gives the same tree as once |
| `Quantity.QuantityBudgetNoWrap` | src/validation.c:129 | at a node with children the budget (its height) is at least 1, so `value - 1` does not wrap |
| `Quantity.ApplyQuantityAt` | src/validation.c:123-138 | the index loop that removes a child and steps back (`i--`) computes exactly the pruned tree of the specification |
| `Quantity.ApplyLawOfQuantity` | src/validation.c:87-90 | the law applied with `tree_max_depth` as budget yields `LawOfQuantity`, whose properties are proved above |
| `DynamicArrays.InitialCapacity` | src/include/dtstructs.h:144-147 | the initial capacity is a multiple of 8 strictly greater than the count and at most 8 more |
| `DynamicArrays.InitialCapacityIsLeast` | src/include/dtstructs.h:144-147 | no smaller multiple of 8 exceeds the count |
| `DynamicArrays.AddToEmptyAsWrittenHasNoSlot` | src/include/dtstructs.h:158-164 | as written, doubling an empty buffer gives 0 slots, so no size fits below the new capacity and the write of the element lands past the buffer |
| `DynamicArrays.GrownCapacity` | src/include/dtstructs.h:158-162 | the corrected growth never shrinks the buffer and agrees with the written doubling on every non-empty buffer |
| `DynamicArrays.GrownCapacityFits` | src/include/dtstructs.h:158-162 | after the corrected capacity check of an add there is a free slot, for every capacity including 0, and a multiple of 8 stays a multiple of 8 |
| `DynamicArrays.DynArray.New` | src/include/dtstructs.h:137-152 | size = count and capacity = the smallest multiple of 8 strictly greater than count |
| `DynamicArrays.DynArray.FromArray` | src/include/dtstructs.h:433-441 | the dynamic array takes the array's buffer, full, for every array including the empty one (size and capacity 0) |
| `DynamicArrays.DynArray.Size` | src/include/dtstructs.h:124-127 | the size never exceeds the capacity |
| `DynamicArrays.DynArray.Ele` | src/include/dtstructs.h:188-200 | returns the element at the index |
| `DynamicArrays.DynArray.Add` | src/include/dtstructs.h:154-174 | writes at index = old size and returns it, size rises by 1, earlier elements are unchanged, capacity grows exactly when full (doubled, or 8 slots for an empty buffer) so size ≤ capacity holds |
| `DynamicArrays.DynArray.Grow` | src/include/dtstructs.h:176-186 | appends `growth_factor` copies of the value, keeps earlier elements and returns the old size |
| `DynamicArrays.DynArray.ToArray` | src/include/dtstructs.h:443-449 | the array holds exactly the elements in use |
| `Lists.NodeAt` | src/include/dtstructs.h:242-256 | the node at an index exists iff the index is below the list size |
| `Lists.InsertedNodes` | src/include/dtstructs.h:296-311 | after inserting at k the element is at position k, earlier elements are where they were, later ones one place further on |
| `Lists.AppendIsInsertAtEnd` | src/include/dtstructs.h:284-294 | appending is inserting at the end |
| `Lists.LinkedList.constructor` | src/include/dtstructs.h:216 | a new list is empty |
| `Lists.LinkedList.Size` | src/include/dtstructs.h:228-240 | counts the nodes: the number of elements |
| `Lists.LinkedList.GetNode` | src/include/dtstructs.h:242-256 | returns the element at the index, or NULL iff the index is at least the list size |
| `Lists.LinkedList.Append` | src/include/dtstructs.h:284-294 | the element becomes the last, the others are kept in order |
| `Lists.LinkedList.Insert` | src/include/dtstructs.h:296-311 | the element is placed at position k, with the others kept in order around it |
| `Quality.Points` | src/validation.c:112-118 | a capture is worth 2 exactly when its capture cell holds a queen on the board, and 1 otherwise |
| `Quality.MaxChildPointsIsMaximum` | src/validation.c:104-121 | the best value over the children bounds each child's capture value plus its own best value, and is reached by one of them (0 for none) |
| `Quality.PathsWorthMax` | src/validation.c:104-121 | when every root-to-leaf path is worth v, the max-points of the tree is v |
| `Quality.PruneQualityAtMax` | src/validation.c:140-162 | pruning with the node's max points as budget leaves every root-to-leaf point sum equal to that budget and keeps a child when there was one |
| `Quality.PruneQualityFixed` | src/validation.c:140-162 | a tree whose paths are all worth v is unchanged by pruning with budget v |
| `Quality.QualityChildrenDrawnFrom` | src/validation.c:140-162 | the law of quality only removes children: each surviving child carries the capture of an original child |
| `Quality.LawOfQualityProperties` | src/validation.c:92-95 | after the law of quality every root-to-leaf point sum equals the original maximum, the maximum is unchanged, the root keeps a child if it had one, and applying the law twice gives the same tree as once |
| `Quality.QualityBudgetNoWrap` | src/validation.c:153 | below a node whose budget is its max points, `value - point_decrement` does not wrap |
| `Quality.MaxPointsInto` | src/validation.c:104-121 | the accumulator through `size_t*` ends as the larger of its start and the points so far plus the best value below the node |
| `Quality.MaxPointsOf` | src/validation.c:97-102 | `validation_capture_tree_max_points` is the best point sum of any root-to-leaf path |
| `Quality.ApplyQualityAt` | src/validation.c:140-162 | the index loop that removes a child and steps back (`i--`) computes exactly the pruned tree of the specification |
| `Quality.ApplyLawOfQuality` | src/validation.c:92-95 | the law applied with the max points as budget yields `LawOfQuality`, whose properties are proved above |
| `Captures.StepCapture` | src/board.c:167-199 | in direction i a single jump is emitted iff backward captures are on, the piece is a queen or i is forward for the peon, the 2-step landing is in bounds and empty, and the 1-step cell holds a piece of the other team; otherwise no jump in that direction exists |
| `Captures.Scan` | src/board.c:208-226 | the scan stops at the first distance that leaves the board or meets a piece, every square before it being on the board and empty |
| `Captures.Landings` | src/board.c:230-254 | the landing list has one move per distance, in increasing distance, all with the same source and capture cell |
| `Captures.AlongHasShape` | src/board.c:167-256 | a capture along a direction has three distinct cells within the board, an empty landing cell and an occupied capture cell |
| `Captures.FlyingCapturesShape` | src/board.c:200-256 | along one direction a flying king captures the first piece it meets, and its t-th move lands t+1 squares beyond it, every square passed being empty |
| `Captures.FlyingCapturesCases` | src/board.c:208-228 | there are flying captures in a direction only if the first non-empty cell met is an opponent, and then they are exactly the landings beyond it |
| `Captures.FlyingCapturesEnd` | src/board.c:237-254 | the landings stop just before the next occupied cell beyond the captured piece or at the edge |
| `Captures.FlyingCapturesComplete` | src/board.c:200-256 | every legal ray capture along a direction is among the generated moves |
| `Captures.PieceCapturesSound` | src/board.c:162-257 | every move the piece generator emits starts at the piece and is a legal capture under the rules (one jump, or a flying-king ray) |
| `Captures.PieceCapturesComplete` | src/board.c:162-257 | the piece generator misses no legal capture of a peon or queen |
| `Captures.TeamCapturesUpToProperties` | src/board.c:152-160 | the moves gathered from the first n cells are legal captures of the team's pieces on those cells, ordered by increasing source cell id |
| `Captures.TeamCapturesExact` | src/board.c:152-160 | the team-wide list holds exactly the legal captures of the team's pieces, ordered by increasing source cell id |
| `Captures.CollectStepCaptures` | src/board.c:167-199 | the direction loop appends exactly the single jumps of directions 0..3, in that order |
| `Captures.FindRayTarget` | src/board.c:204-228 | the first scan returns the distance of the first piece met and reports it capturable iff it is on the board and not of the mover's team |
| `Captures.CollectRayCaptures` | src/board.c:202-255 | one direction of the flying-king branch appends exactly that direction's ray captures |
| `Captures.CollectLandings` | src/board.c:230-254 | the second scan appends one move per empty square beyond the captured piece, up to the next piece or the edge |
| `Captures.CollectPieceCaptures` | src/board.c:162-257 | `board_get_all_capture_moves_of_piece` appends exactly the piece's captures: single jumps for peons or when kings do not fly, ray captures for flying queens |
| `Captures.EmptyCellCapturesNothing` | src/board.c:167-199 | an empty cell yields no capture when kings fly or backward captures are off; with backward captures on and kings not flying the jump loop never looks at the piece, but the team scan (board.c:156) only asks about cells holding its own pieces |
| `Captures.EmptyStepCapturesNothing` | src/board.c:171-173 | without backward captures the direction filter skips every direction for an empty cell, so the jump loop appends nothing |
| `Captures.CollectFlyingCaptures` | src/board.c:200-256 | the flying-king branch appends the ray captures of directions 0..3, in that order |
| `Captures.CollectTeamCaptures` | src/board.c:152-160 | `board_get_all_capture_moves_of_team` appends the captures of the team's pieces by increasing cell id |
| `CaptureTrees.UnitDirectionOfStep` | src/board.c:104-115 | a move of k ≥ 1 squares along a diagonal has that diagonal as its computed unit direction (vector divided by its horizontal magnitude, truncating) |
| `CaptureTrees.MoveDirectionOfCapture` | src/board.c:124-135 | the direction computed from a capture's two cells is the diagonal it was generated along, for jumps and flying captures alike |
| `CaptureTrees.DirectionsReverse` | src/board.c:137 | two diagonals are exact negations of each other iff one is the opposite of the other |
| `CaptureTrees.ReversesIffOpposite` | src/board.c:137-138 | a continuation is dropped iff it runs along the opposite diagonal of its immediate parent |
| `CaptureTrees.Filter` | src/board.c:119-145 | the kept moves are moves of the list that pass the test, and every move that passes is kept |
| `CaptureTrees.Kept` | src/board.c:137-138 | the continuations kept under a parent are exactly the generated ones that do not reverse the parent's direction |
| `CaptureTrees.BuildForMoveHeight` | src/board.c:98-150 | no chain below a move is longer than the number of occupied cells on the board |
| `CaptureTrees.UnprunedTreeHeight` | src/board.c:98-150 | tree building terminates: each capture empties an occupied cell, so no root-to-leaf path is longer than the occupied count, itself at most 72 |
| `CaptureTrees.MaxPointsAtMostTwicePerLevel` | src/validation.c:104-121 | a path is worth at most 2 points per capture, so the quality budget stays within size_t |
| `CaptureTrees.SubtreesContents` | src/board.c:119-145 | the subtrees correspond one to one and in order with the kept captures, each built on its own copy of the board with that capture applied |
| `CaptureTrees.ContinuationData` | src/board.c:101 | the subtree of a capture carries that capture |
| `CaptureTrees.BuildForMoveChildren` | src/board.c:98-150 | the node of move m carries m; its children are exactly the legal captures by the piece on m's destination that do not reverse m's direction, each built on the board after that capture |
| `CaptureTrees.UnprunedTreeRoot` | src/board.c:70-90 | the root has no payload and one child per team-wide capture, in generation order, with no direction filter, each built on its own board copy |
| `CaptureTrees.CaptureTreeDrawnFromUnpruned` | src/board.c:70-95 | the root the game starts a turn from has no payload, and each of its children, after whichever laws apply, carries the capture of a child of the unpruned root |
| `CaptureTrees.KeptStep` | src/board.c:137-138 | the kept list grows by a capture exactly when that capture does not reverse the parent's direction |
| `CaptureTrees.SubtreesSnoc` | src/board.c:140-144 | one more kept capture appends the subtree built on a copy of the board with that capture applied |
| `CaptureTrees.BuildCaptureTreeForMove` | src/board.c:98-150 | the recursive builder, copying the board for every branch, yields exactly the specified node of the move |
| `CaptureTrees.GenerateCaptureTree` | src/board.c:70-96 | `board_generate_capture_tree` yields the unpruned tree, then the law of quantity if enabled, then the law of quality if enabled |
| `CaptureTrees.CaptureTreeFits` | src/board.c:70-96 | the root of the final tree carries no move and every other node a capture whose cells are on the board |
| `Mobility.JumpCorrectedIsStepCapture` | src/board.c:286-291 | for a piece of the side to move, the corrected jump test holds exactly when the single-jump capture generator emits a capture in that direction |
| `Mobility.StepMoveIsValid` | src/board.c:278-284 | a one-square step the mobility test counts is a free move that move validation accepts |
| `Mobility.AnyMoveSound` | src/board.c:259-296 | when the corrected test succeeds, some piece of the side has a free step validation accepts or a legal one-jump capture |
| `Mobility.AnyMoveComplete` | src/board.c:259-296 | every free step or one-jump capture of a piece of the side makes the corrected test succeed |
| `Mobility.AnyMoveAsWrittenAcceptsEmptyJump` | src/board.c:290 | as written, with backward captures on, a lone white peon on its last row is reported as having a move (a backward jump over an empty square) although it has none |
| `Mobility.AnyMoveImpliesAsWritten` | src/board.c:259-296 | whenever the corrected test finds a move, the test as written finds one too |
| `Mobility.AsWrittenAgreesWithoutBackwardCaptures` | src/board.c:259-296 | with backward peon captures off, the test as written and the corrected test agree on every board |
| `Mobility.ContainsAnyMoveAsWritten` | src/board.c:259-296 | the program's nested scan with early return answers true exactly when some piece of the side has a forward/queen step to an empty square or a jump whose jumped square holds no piece of the side |
| `Mobility.ContainsAnyMove` | src/board.c:259-296 | the nested scan with early return answers true exactly when some piece of the side has a forward/queen step to an empty square or a one-jump capture over an opponent |
| `Validation.SignDirection` | src/validation.c:69-70 | the walk direction has the signs of the move vector, 0 counted as negative |
| `Validation.FirstMatch` | src/validation.c:36-47 | the index found is of a child whose move has the given source and destination, no earlier child matches, and none is found iff no child matches |
| `Validation.ValidateCases` | src/validation.c:23-85 | an empty source, occupied destination or piece of the other team is rejected; under forced capture the move is accepted iff some child of the cursor has the same source and destination, and the first such child is returned; otherwise the free-move rule decides |
| `Validation.StepReaches` | src/validation.c:52-57 | the square k steps along a direction is the destination iff the move vector is k times that direction |
| `Validation.DistinctCellsDistinctSquares` | src/board.c:36-49 | distinct cell ids lie on distinct squares |
| `Validation.FreeMoveToWalk` | src/validation.c:52-84 | a legal free move is a walk along one diagonal obeying the piece's rule |
| `Validation.WalkToFreeMove` | src/validation.c:52-84 | a walk along one diagonal obeying the piece's rule is a legal free move |
| `Validation.FreeMoveIsDiagonalWalk` | src/validation.c:52-84 | a free move is legal iff it is a diagonal walk: a peon one step forward; a queen k steps over empty squares, with k = 1 unless kings fly (non-diagonal vectors rejected) |
| `Validation.DiagonalReach` | src/include/interaction.h:8 | a diagonal vector is its distance times its sign direction |
| `Validation.ForcedMoveIsLegalCapture` | src/validation.c:34-50 | mid-chain, a move accepted at the node of the previous capture is a legal capture by the same piece from where it landed that does not reverse the previous direction |
| `Validation.ForcedFirstMoveIsLegalCapture` | src/validation.c:34-50 | at the root of the tree the game builds, pruned by whichever laws are on, a move accepted under forced capture is a legal capture by a piece of the side to move |
| `Validation.FindForcedChild` | src/validation.c:36-49 | the child loop returns the first child with the same source and destination, or nothing when there is none |
| `Validation.QueenPathClear` | src/validation.c:67-81 | the intermediate-cell loop answers true exactly when every square strictly between source and destination is empty |
| `Validation.ValidateMove` | src/validation.c:23-85 | `validate_move_based_on_rules`, with its loops, returns exactly the verdict characterised by `ValidateCases` and `FreeMoveIsDiagonalWalk` |
| `Games.SetDefault` | src/game.c:247-259 | mode 1V1, team WHITE, side 8, flying kings on, backward peon captures off, white moving top-to-bottom, law of quantity on, law of quality off, double corner on the right, every cell empty; challenge moves untouched |
| `Games.DefaultScenarioIsEmpty` | src/game.c:247-259 | the default scenario is a playable 8x8 board with no piece on it, on which the mobility test finds no move for white |
| `Games.Other` | src/interaction.c:249 | the other team of WHITE is BLACK and of BLACK is WHITE: always a real team different from the given one |
| `Games.RowOfCell` | src/interaction.c:148-160 | an id is in the last line of ids iff its square is on the last row, and in the first line iff on row 0 |
| `Games.CrowningCellIsFarRow` | src/interaction.c:148-160 | with white moving top-to-bottom white crowns on ids [COUNT−PER_LINE, COUNT) and black on [0, PER_LINE), swapped otherwise: exactly the row each side's peons move toward |
| `Games.NoForwardStepFromFarRow` | src/interaction.c:148-160 | a peon on its crowning cell has no forward step left on the board |
| `Games.PromoteIfValidEffect` | src/interaction.c:235-243 | only the given cell can change, it changes iff it holds a peon on a crowning cell of the side to move, and it then becomes a queen of the same team |
| `Games.ChosenMoveMatches` | src/interaction.c:170-179 | the move played has the requested source and destination, is a capture exactly when capture is forced (the tree node's full move), and fits the board |
| `Games.ValidateNextFits` | src/validation.c:36-47 | the node the cursor moves to is one of the cursor's children |
| `Games.PlayedBoard` | src/interaction.c:181 | after the move the source cell is empty |
| `Games.OneVsOneTurn` | src/interaction.c:162-198 | an illegal move leaves board and side unchanged, and only an illegal move does; the side changes exactly when the move is legal and ends the capture chain, and then passes to the other team |
| `Games.ChallengeTurn` | src/interaction.c:200-233 | any move other than the expected one leaves board and side unchanged; the side changes exactly when the expected move is played, moves remain, and the next one does not start at this destination |
| `Games.Game.EnterScenario` | src/game.c:94-143 | a scenario on a legal board with WHITE or BLACK to move is accepted: in 1v1 whatever challenge moves it carries, in a challenge when its capture cells lie in the board array. Entering a scenario resets game-over, forced capture, selection and last-move info, sets the side to move to the scenario's starting team, builds the capture tree in 1v1 and sets the challenge index to 0 in a challenge |
| `Games.Game.SetCaptureData` | src/game.c:145-150 | the tree is the capture tree of the side to move, the cursor is its root, and capture is forced iff the root has a child |
| `Games.Game.SelectHoveredPiece` | src/interaction.c:77-85 | a hovered occupied cell becomes the selection; otherwise the selection is unchanged |
| `Games.Game.PromoteCellIfValid` | src/interaction.c:235-243 | the board becomes `PromoteIfValid` of the old board, whose effect `PromoteIfValidEffect` states |
| `Games.Game.SwitchTeams` | src/interaction.c:245-257 | WHITE and BLACK swap, the selection is cleared, and in 1v1 the capture tree is rebuilt for the new side with the cursor at its root |
| `Games.Game.EndTurn` | src/interaction.c:192-197 | the piece is crowned if eligible, the team switches, and the last move is recorded as the given source and destination |
| `Games.Game.MoveInOneVsOne` | src/interaction.c:162-198 | an invalid move leaves board, team, cursor and selection unchanged; a move whose tree node still has children applies the move, keeps the team, does not crown, keeps the piece selected at its destination and moves the cursor there; any other valid move is applied, crowned if eligible, switches team and is recorded as last move |
| `Games.Game.PlayLegal` | src/interaction.c:170-197 | a validated move is applied as the tree node's full move or as a plain step, then the chain continues or the turn ends as `MoveInOneVsOne` states |
| `Games.Game.ContinueChain` | src/interaction.c:183-190 | capture stays forced, the piece stays selected at its destination and the cursor moves to the new subtree |
| `Games.Game.MoveInChallenge` | src/interaction.c:200-233 | a source or destination mismatch leaves board, index and team unchanged; a match applies the expected move and increments the index; the team then switches only if moves remain and the next move does not start at this destination, in which case the piece stays selected |
| `Games.Game.ActivateGameOver` | src/game.c:181-215 | once game over is reached later calls change nothing; otherwise it is set with the given outcome |
| `Games.Game.CheckVictory` | src/game.c:157-179 | a challenge is won when the move index equals the number of challenge moves; otherwise, if the mobility test as written finds no move for the side to move, the other side wins; otherwise nothing changes. A win declared this way is genuine: the corrected test finds no move either |
| `Games.Game.MoveSelectedPieceToHoveredCell` | src/interaction.c:87-108 | without a selected piece and a hovered cell nothing changes. Otherwise the board and side become OneVsOneTurn in 1v1 and ChallengeTurn in a challenge, where the index advances exactly on the expected move. Then the victory check runs: a finished challenge, or no move for the side to move under the as-written test, ends the game with that outcome unless it had already ended |
| `Tokens.Kind` | src/include/token.h:7-15 | each token kind has its own tag, in declaration order |
| `Tokens.TokenEquals` | src/token.c:22-37 | tokens are equal iff they have the same type and payload (symbols, chars and integers by value, identifiers and strings by content, empty tokens always): so the relation is reflexive and symmetric and false across types |
| `Tokens.IsSymbol` | src/token.c:39-42 | holds iff the token is the symbol c |
| `Tokens.IsNumber` | src/token.c:44-47 | holds iff the token is an integer |
| `Tokens.IsLiteral` | src/token.c:49-52 | holds iff the token is a char, a string or an integer |
| `Lexing.SkipSpaces` | src/lexer.c:7-16 | the result is the end of the run of blanks (space, tab, CR, LF) at p: everything skipped is blank and the character reached is not |
| `Lexing.IdEnd` | src/lexer.c:74-91 | the end of the maximal run of letters, digits and underscores at p |
| `Lexing.DigitsEnd` | src/lexer.c:131-141 | the end of the maximal run of decimal digits at p |
| `Lexing.ClosingQuote` | src/lexer.c:108-129 | the first double quote at or after p, or None exactly when the rest of the text has none |
| `Lexing.ParsedInteger` | src/lexer.c:131-141 | the value kept in the token's 16-bit field is below 2^16 and equals the digits' value whenever that fits |
| `Lexing.NextToken` | src/lexer.c:45-63 | a token always consumes at least one character and is never empty; a symbol is the character under the cursor and consumes exactly it; the lexer overruns the text exactly for a char literal with fewer than two characters after its quote or a string with no closing quote |
| `Lexing.TokenizeAfterSpaces` | src/lexer.c:29-43 | leading blanks do not change the collected tokens |
| `Lexing.TokenizeAt` | src/lexer.c:35-40 | at a non-blank character the collection takes the next token there and continues after it, or fails with it |
| `Lexing.TokenizeProperties` | src/lexer.c:29-43 | every collected token is non-empty and never a blank, and there are at most as many tokens as characters |
| `Lexing.FindToken` | src/lexer.c:158-174 | a successful search stops strictly after the cursor and within the text |
| `Lexing.FindTokenStopsAfterMatch` | src/lexer.c:158-174 | a successful search ends just after a token equal to the one sought |
| `Lexing.FindTokenExhaustedMeansAbsent` | src/lexer.c:158-174 | a search that reaches the terminator met no token equal to the one sought at any token start it passed |
| `Lexing.NextOfKind` | src/lexer.c:143-156 | the result is a token of the requested kind after the cursor, or the empty token at the terminator |
| `Lexing.Lexer.Init` | src/lexer.c:18-22 | the lexer holds the text with its cursor at the start |
| `Lexing.Lexer.Restart` | src/lexer.c:24-27 | the cursor returns to the start of the text |
| `Lexing.Lexer.SkipBlanks` | src/lexer.c:7-16 | the cursor moves to `SkipSpaces` of where it was |
| `Lexing.Lexer.CollectSymbol` | src/lexer.c:65-72 | the token is the character under the cursor, which advances by one |
| `Lexing.Lexer.CollectId` | src/lexer.c:74-91 | the token is the maximal identifier run at the cursor, which moves to `IdEnd` |
| `Lexing.Lexer.CollectChar` | src/lexer.c:93-106 | the token is the character after the quote and the cursor advances by three; at the end of the text it reports an overrun |
| `Lexing.Lexer.CollectString` | src/lexer.c:108-129 | the token is the text between the quotes and the cursor stops past the closing quote; with no closing quote it reports an overrun |
| `Lexing.Lexer.CollectNumber` | src/lexer.c:131-141 | the token is the value of the maximal digit run, kept in 16 bits, and the cursor moves to `DigitsEnd` |
| `Lexing.Lexer.CollectNextToken` | src/lexer.c:45-63 | the token and new cursor are those of `NextToken` |
| `Lexing.Lexer.CollectTokens` | src/lexer.c:29-43 | the tokens are exactly `Tokenize` of the text from the cursor, and the cursor ends at the terminator |
| `Lexing.Lexer.CollectNextTokenOfKind` | src/lexer.c:143-156 | the result and new cursor are those of `NextOfKind` |
| `Lexing.Lexer.GoToNextTokenEqualTo` | src/lexer.c:158-174 | true with the cursor just past the first equal token when `FindToken` finds one, false at the terminator otherwise |
| `ScenarioLoading.Eat` | src/scenario_loader.c:184-202 | succeeds exactly when the current token has the kind, and then consumes exactly it; otherwise reports that token, or the end of the tokens |
| `ScenarioLoading.EatSymbol` | src/scenario_loader.c:204-213 | succeeds exactly when the current token is the given symbol, consuming it |
| `ScenarioLoading.EatProperty` | src/scenario_loader.c:177-182 | succeeds exactly on an identifier, a colon and a value of the kind, and yields that value and the tokens after it |
| `ScenarioLoading.IdToScenarioType` | src/scenario_loader.c:215-222 | SCENARIO_1V1 and SCENARIO_CHALLENGE map to the two modes, iff; every other name is an error |
| `ScenarioLoading.IdToPeonMovement` | src/scenario_loader.c:224-231 | WHITE_BOTTOM_TO_TOP / BLACK_TOP_TO_BOTTOM give false and WHITE_TOP_TO_BOTTOM / BLACK_BOTTOM_TO_TOP give true, iff |
| `ScenarioLoading.IdToBoolean` | src/scenario_loader.c:233-240 | TRUE gives true and FALSE gives false, iff |
| `ScenarioLoading.IdToTeam` | src/scenario_loader.c:242-249 | WHITE and BLACK give the two teams, iff, and nothing else is a team |
| `ScenarioLoading.IdToPieceType` | src/scenario_loader.c:251-261 | a recognised name gives a cell value whose name it is; a name is refused iff no cell value has it |
| `ScenarioLoading.CellIndexOf` | src/scenario_loader.c:348 | the 1-based number becomes the 0-based cell id in 16 bits, exactly one less whenever it is between 1 and 2^16 |
| `ScenarioLoading.SideOf` | src/scenario_loader.c:272-277 | the board side is kept in 8 bits, unchanged when it fits |
| `ScenarioLoading.SetFlag` | src/scenario_loader.c:279-312 | the named rule flag takes the value and every other flag, the side and the peon direction stay |
| `ScenarioLoading.SkipToClosingBrace` | src/scenario_loader.c:419-420 | stops at the first closing brace, a tail of the block; runs out only at the end of the tokens |
| `ScenarioLoading.ParseMove` | src/scenario_loader.c:441-466 | a parsed move consumes at least one token and leaves a tail |
| `ScenarioLoading.ParseMoveShape` | src/scenario_loader.c:441-466 | a parsed move is `(s, d)` or `(s, d, c)`, a capture iff the third number is present, every cell one less than written, and it consumes exactly those tokens |
| `ScenarioLoading.ParseMoves` | src/scenario_loader.c:433-434 | moves are appended in file order after those already read and parsing stops at the closing brace |
| `ScenarioLoading.ChallengeBlock` | src/scenario_loader.c:409-439 | only the challenge moves may change, and outside a challenge scenario nothing changes |
| `ScenarioLoading.LoadChallenge` | src/scenario_loader.c:409-439 | the CHALLENGE statement changes nothing but the challenge moves, and nothing at all outside a challenge scenario |
| `ScenarioLoading.LoadSetting` | src/scenario_loader.c:263-326 | a property statement consumes tokens and leaves a tail |
| `ScenarioLoading.LoadProperty` | src/scenario_loader.c:263-342 | a property statement consumes tokens and leaves a tail; an unknown name is an error |
| `ScenarioLoading.PropertyKeepsBoard` | src/scenario_loader.c:263-342 | a property statement never changes the board |
| `ScenarioLoading.LoadSingleCell` | src/scenario_loader.c:344-356 | a single-cell assignment consumes tokens and leaves a tail |
| `ScenarioLoading.SingleCellStatement` | src/scenario_loader.c:344-356 | `N : PIECE` sets cell N-1 to the piece and nothing else; a cell beyond the board is an error |
| `ScenarioLoading.FillRange` | src/scenario_loader.c:384-387 | exactly the cells lo..hi receive the value; the others keep theirs |
| `ScenarioLoading.RangeBounds` | src/scenario_loader.c:360-378 | the bounds come out in increasing order |
| `ScenarioLoading.RangeBoundsOf` | src/scenario_loader.c:360-378 | `[a;b] :` yields the smaller 0-based bound first whichever was written first |
| `ScenarioLoading.RangePiece` | src/scenario_loader.c:380-387 | the piece name is consumed and the tokens after it are a tail |
| `ScenarioLoading.LoadRange` | src/scenario_loader.c:358-388 | a range assignment consumes tokens and leaves a tail |
| `ScenarioLoading.RangeStatement` | src/scenario_loader.c:358-388 | `[a;b] : PIECE` with both bounds on the board fills exactly the cells between them with the piece |
| `ScenarioLoading.RangeOrderIrrelevant` | src/scenario_loader.c:373-378 | `[a;b]` and `[b;a]` load the same cells |
| `ScenarioLoading.RangeStatementEffect` | src/scenario_loader.c:358-388 | a range statement that loads had the full `[a;b] : PIECE` shape with both bounds on the board, sets exactly the cells between the bounds and leaves every other field |
| `ScenarioLoading.LoadStatement` | src/scenario_loader.c:390-407 | each statement consumes at least one token; a statement that starts with anything but an identifier, an integer or `[` is never consumed (NoProgress) |
| `ScenarioLoading.StatementIsRange` | src/scenario_loader.c:400-403 | a statement that starts with `[` is a range assignment |
| `ScenarioLoading.StatementIsSingleCell` | src/scenario_loader.c:397-399 | a statement that starts with an integer is a single-cell assignment |
| `ScenarioLoading.StatementIsProperty` | src/scenario_loader.c:394-396 | a statement that starts with an identifier is a property statement |
| `ScenarioLoading.LoadAllStep` | src/scenario_loader.c:37-42 | loading continues from what a statement leaves, with the scenario it produced |
| `ScenarioLoading.RangeThenRest` | src/scenario_loader.c:37-42 | after `[a;b] : PIECE` loading continues with cells a-1..b-1 filled |
| `ScenarioLoading.SingleCellThenRest` | src/scenario_loader.c:37-42 | after `N : PIECE` loading continues with cell N-1 set |
| `ScenarioLoading.SettingThenRest` | src/scenario_loader.c:37-42 | after `NAME : value` loading continues with the value stored |
| `ScenarioLoading.StatementKeepsWellFormed` | src/scenario_loader.c:390-407 | every statement that loads keeps the scenario well formed: a full board of cell values, a team, a known type, an 8-bit side |
| `ScenarioLoading.LoadAllKeepsWellFormed` | src/scenario_loader.c:37-42 | the statement loop keeps the scenario well formed |
| `ScenarioLoading.LoadedScenarioWellFormed` | src/scenario_loader.c:26-43 | every scenario that loads is well formed |
| `ScenarioLoading.ScenarioLoader.constructor` | src/scenario_loader.c:26-35 | the loader starts at the first token with the destination reset to the defaults |
| `ScenarioLoading.ScenarioLoader.EatToken` | src/scenario_loader.c:184-202 | the index moves past the token exactly as `Eat` says, or the error is reported |
| `ScenarioLoading.ScenarioLoader.EatSymbolToken` | src/scenario_loader.c:204-213 | as `EatSymbol` |
| `ScenarioLoading.ScenarioLoader.LoadSettingStatement` | src/scenario_loader.c:263-326 | the index and the scenario become those of `LoadSetting` |
| `ScenarioLoading.ScenarioLoader.ParseChallengeMove` | src/scenario_loader.c:441-466 | the move of `ParseMove` is appended to the list |
| `ScenarioLoading.ScenarioLoader.ReadMoveCells` | src/scenario_loader.c:446-453 | the source and destination cells of `MoveCells` |
| `ScenarioLoading.ScenarioLoader.ReadMoveEnd` | src/scenario_loader.c:455-463 | the move of `MoveEnd`, a capture iff the third number is present |
| `ScenarioLoading.ScenarioLoader.SkipChallengeBlock` | src/scenario_loader.c:419-422 | the index moves past the first closing brace, as `SkipToClosingBrace` |
| `ScenarioLoading.ScenarioLoader.ParseChallengeBlock` | src/scenario_loader.c:431-436 | the moves and index are those of `ParseMoves` |
| `ScenarioLoading.ScenarioLoader.EatChallengeHead` | src/scenario_loader.c:427-429 | `CHALLENGE : {` is consumed, as `ChallengeHead` |
| `ScenarioLoading.ScenarioLoader.LoadChallengeBlock` | src/scenario_loader.c:411-438 | the index and scenario become those of `ChallengeBlock` |
| `ScenarioLoading.ScenarioLoader.LoadChallengeMoves` | src/scenario_loader.c:409-439 | the index and scenario become those of `LoadChallenge` |
| `ScenarioLoading.ScenarioLoader.LoadId` | src/scenario_loader.c:263-342 | the index and scenario become those of `LoadProperty` |
| `ScenarioLoading.ScenarioLoader.LoadSingleCellAssignment` | src/scenario_loader.c:344-356 | the index and board become those of `LoadSingleCell` |
| `ScenarioLoading.ScenarioLoader.FillCells` | src/scenario_loader.c:384-387 | the board array becomes `FillRange` of what it was |
| `ScenarioLoading.ScenarioLoader.ReadRangeBounds` | src/scenario_loader.c:360-378 | the ordered bounds of `RangeBounds` |
| `ScenarioLoading.ScenarioLoader.LoadRangeAssignment` | src/scenario_loader.c:358-388 | the index and board become those of `LoadRange` |
| `ScenarioLoading.ScenarioLoader.LoadRangePiece` | src/scenario_loader.c:380-387 | the index and board become those of `RangePiece` |
| `ScenarioLoading.ScenarioLoader.LoadStatementAt` | src/scenario_loader.c:390-407 | the index and scenario become those of `LoadStatement` |
| `ScenarioLoading.LoadScenarioFromTokenArray` | src/scenario_loader.c:26-43 | the result is `LoadScenario` of the tokens: the defaults, then every statement, and so well formed when it loads |
| `Editing.ModeToStr` | src/editor.c:453-456 | the written name reads back as the scenario type: 1v1 as 1v1, every other mode as a challenge |
| `Editing.BooleanToStr` | src/editor.c:458-461 | the written name reads back as the same boolean |
| `Editing.TeamToStr` | src/editor.c:463-466 | the written name reads back as white for white and black for every other team |
| `Editing.PeonMovementToStr` | src/editor.c:468-471 | the written name reads back as the same peon direction |
| `Editing.PieceNameRoundTrip` | src/editor.c:307-347 | the name a cell value is saved under reads back as that value |
| `Editing.AssignmentTokens` | src/editor.c:307-347 | a one-cell run is written `N : PIECE`, a longer run `[a;b] : PIECE`, both 1-based; an empty run writes nothing |
| `Editing.RunEnd` | src/editor.c:167 | the last cell of the maximal run of equal values that starts at the cell |
| `Editing.EmptyRunLoads` | src/editor.c:323-324 | a run of empty cells writes nothing and loads as nothing onto an empty board |
| `Editing.SingleRunLoads` | src/editor.c:169-170 | a one-cell run loads back as that cell |
| `Editing.RangeRunLoads` | src/editor.c:171-172 | a longer run loads back as all its cells |
| `Editing.CellTokensLoad` | src/editor.c:161-173 | loading the saved assignments onto a board empty from the first cell reproduces exactly the saved cells |
| `Editing.HeaderLineApplies` | src/editor.c:150-159 | every saved property line is accepted by the loader and stores the saved value |
| `Editing.HeaderLoads` | src/editor.c:150-159 | loading the nine saved property lines stores the saved type, team and rules whatever the scenario held before |
| `Editing.SavedBoard` | src/editor.c:161-173 | the board read back holds the playable cells as saved and no piece beyond them |
| `Editing.SaveLoadRoundTrip` | src/editor.c:142-176 | saving then loading gives back the type, the team, the rules and the playable cells; the challenge moves are the destination's, since none are written |
| `Editing.SaveScenario` | src/editor.c:142-176 | the written tokens are the property lines, then one assignment per maximal run of equal cells |
| `Editing.SaveHeader` | src/editor.c:150-159 | the nine property lines in the order written |
| `Editing.SaveCells` | src/editor.c:161-173 | the scan writes exactly one assignment per maximal run, in increasing cell order |
| `Editing.FindRunEnd` | src/editor.c:165-167 | the scan stops at the last cell of the run |
| `Editing.DefaultEditable` | src/editor.c:75 | the default scenario is well formed with a legal board size |
| `Editing.NextBoardSize` | src/editor.c:428-451 | a legal size moves to a different legal size; any other size stays |
| `Editing.BoardSizeCycles` | src/editor.c:428-451 | three presses give back the size: 8, 10, 12 cycle |
| `Editing.Editor.Enter` | src/editor.c:63-75 | the editor starts on the default scenario with no piece to place |
| `Editing.Editor.ClearPlaceablePiece` | src/editor.c:349-352 | no piece is to be placed; the scenario is unchanged |
| `Editing.Editor.SetPlaceablePiece` | src/editor.c:354-372 | the chosen piece is to be placed; the scenario is unchanged |
| `Editing.Editor.SwitchStartingTeam` | src/editor.c:374-388 | only the starting team changes, to the other team, and the scenario stays editable |
| `Editing.Editor.SwitchFlag` | src/editor.c:390-426 | only the chosen rule flag is negated, and the scenario stays editable |
| `Editing.Editor.SwitchBoardSize` | src/editor.c:428-451 | only the board side changes, to the next size of the cycle |
| `Editing.Editor.Save` | src/editor.c:142-176 | the tokens of the file written for the scenario being edited, which load back as `SaveLoadRoundTrip` says |
| `StringPlus.CLen` | src/strplus.c:16-28 | the index of the first NUL: no NUL before it |
| `StringPlus.Str` | src/include/strplus.h:8 | the text of a C string is the NUL-free prefix of its buffer, followed there by a NUL |
| `StringPlus.StringLength` | src/strplus.c:16-28 | the count of characters before the first NUL |
| `StringPlus.StringEquals` | src/strplus.c:30-45 | true iff the two texts are equal |
| `StringPlus.StringStartsWith` | src/strplus.c:47-62 | true iff the target's text is a prefix of the string's |
| `StringPlus.StringEndsWith` | src/strplus.c:64-81 | true iff the target's text is a suffix of the string's |
| `StringPlus.FindFromIsFirst` | src/strplus.c:83-96 | the search returns the first position where the target starts, and nothing only when there is none |
| `StringPlus.FindAsWrittenMissesNonEmpty` | src/strplus.c:87 | as written, the search finds nothing in any non-empty string |
| `StringPlus.FindAsWrittenCounterexample` | src/strplus.c:83-96 | "ab" contains "a" at 0, which the search as written misses and the corrected search finds |
| `StringPlus.StringFind` | src/strplus.c:83-96 | with the loop condition corrected: the offset of the first occurrence of the target, or none |
| `StringPlus.StartsWithAt` | src/strplus.c:89 | true iff the target's text starts at the offset |
| `StringPlus.CopyBytes` | src/strplus.c:6-14 | the destination range receives the source range as it was before the copy, also when source and destination are the same range, and nothing else changes |
| `StringPlus.StringHeapCopy` | src/strplus.c:98-107 | a fresh buffer holding the text and a NUL |
| `StringPlus.StringHeapConcat` | src/strplus.c:109-120 | a fresh buffer holding the first text, the second and a NUL |
| `StringPlus.StringCopyTo` | src/strplus.c:122-132 | succeeds iff the text and its NUL fit in the size, then writes exactly them at the start; on refusal nothing is written |
| `StringPlus.StringConcatTo` | src/strplus.c:134-146 | succeeds iff both texts and the NUL fit in the size, then writes them, also when the first text is the destination itself; the bytes after the NUL are unchanged; on refusal nothing is written |
| `StringPlus.ExtractView` | src/strplus.c:173-179 | the view starts at start and, for start <= end + 1, ends just after end; the length is a size_t |
| `StringPlus.ExtractViewCovers` | src/strplus.c:173-179 | the view of start..end covers exactly the characters at those indices, both included |
| `StringPlus.StringViewToHeapString` | src/strplus.c:153-161 | a fresh buffer holding the view's characters and a NUL |
| `StringPlus.StringViewToString` | src/strplus.c:163-171 | succeeds iff the characters and the NUL fit in the size, then writes them, and the bytes after the NUL are unchanged; on refusal nothing is written |
| `Paging.InitState` | src/pager.c:3-8 | total and page size are set and the end is 0; the start keeps whatever it held |
| `Paging.Next` | src/pager.c:10-23 | refuses, changing nothing, iff on the last page; otherwise the window moves forward and its end is clamped to the total |
| `Paging.Prev` | src/pager.c:25-33 | refuses, changing nothing, iff on the first page; otherwise the window moves back by a page size |
| `Paging.InitThenNext` | src/pager.c:3-23 | opening on a non-empty list and turning a page shows elements 0 up to the page size, in page shape |
| `Paging.NextKeepsPaged` | src/pager.c:10-23 | turning forward keeps pages aligned on the page size, full except the last, and within the total |
| `Paging.PrevKeepsPaged` | src/pager.c:25-33 | turning back keeps the same page shape and bounds |
| `Paging.PrevUndoesNext` | src/pager.c:10-33 | going forward then back returns to the same page |
| `Paging.NextUndoesPrev` | src/pager.c:10-33 | going back then forward returns to the same page |
| `Paging.PageBoundaries` | src/pager.c:35-43 | in page shape, the last page is the one whose page-size window reaches the total and the first the one starting before the page size |
| `Paging.Pager.State` | src/include/pager.h:7-13 | the value view of the pager's four fields |
| `Paging.Pager.constructor` | src/include/pager.h:7-13 | a pager in zero-initialised storage |
| `Paging.Pager.Init` | src/pager.c:3-8 | the fields become those of `InitState` |
| `Paging.Pager.NextPage` | src/pager.c:10-23 | the result and new fields are those of `Next`, with the end computed in size_t |
| `Paging.Pager.PrevPage` | src/pager.c:25-33 | the result and new fields are those of `Prev`, with the start computed in size_t |
| `Assets.Hash` | src/assetman.c:185-195 | djb2 over the key's characters, kept within size_t |
| `Assets.HashIsReducedPolynomial` | src/assetman.c:185-195 | the wrapping hash equals the unbounded djb2 polynomial reduced once modulo 2^64 |
| `Assets.Bucket` | src/assetman.c:113 | the bucket index is below the table size of 200 |
| `Assets.ChainFind` | src/assetman.c:148-158 | a key is absent iff no node of the chain has it |
| `Assets.ChainSetExisting` | src/assetman.c:117-123 | setting a key already in the chain replaces the value of its first node and changes nothing else |
| `Assets.ChainSetMissing` | src/assetman.c:128-141 | setting a key not in the chain adds one node at its end, keeping the safe-key flag |
| `Assets.ChainSetThenFind` | src/assetman.c:111-159 | after a set the key finds the new value |
| `Assets.ChainSetKeepsOthers` | src/assetman.c:111-159 | a set leaves every other key's lookup as it was |
| `Assets.SetThenFind` | src/assetman.c:111-159 | after a table set, get finds the value just set and every other key what it found before |
| `Assets.SetNodeCount` | src/assetman.c:111-142 | setting an existing key adds no node; setting a new one adds exactly one |
| `Assets.SetKeepsWellFormed` | src/assetman.c:111-142 | a set keeps every node in its key's bucket and each key once per chain |
| `Assets.Handled` | src/assetman.c:174-175 | the cleanup callback sees only assets of a handled type |
| `Assets.HandledCount` | src/assetman.c:161-180 | the callback is called once for every node of a handled type and for no other |
| `Assets.EmptyBuckets` | src/assetman.c:106-109 | 200 empty buckets |
| `Assets.AssetTable.constructor` | src/assetman.c:106-109 | a table with every bucket empty |
| `Assets.AssetTable.HashKey` | src/assetman.c:185-195 | the loop computes `Hash` of the key |
| `Assets.AssetTable.Set` | src/assetman.c:111-142 | the buckets become `TableSet` of what they were |
| `Assets.AssetTable.Get` | src/assetman.c:144-159 | the data of the node with the key, or NULL when there is none |
| `Assets.AssetTable.Clear` | src/assetman.c:161-183 | every handled asset goes to the cleanup callback, bucket by bucket in chain order, then every bucket is empty |
| `Assets.AssetTable.CollectAllHandled` | src/assetman.c:163-180 | the handled assets of every bucket, in order |
| `Assets.AssetTable.Reset` | src/assetman.c:182 | every bucket empty |
| `Assets.CollectHandled` | src/assetman.c:165-179 | the handled assets of one chain, in chain order |
| `Assets.AssetManager.constructor` | src/assetman.c:34 | zero-initialised: not initialised, both tables empty |
| `Assets.AssetManager.Init` | src/assetman.c:42-53 | refuses, changing nothing, iff already initialised; otherwise registers the callback and empties both tables |
| `Assets.AssetManager.SetAsset` | src/assetman.c:55-62 | an id starting with '$' is set in the static table and any other in the dynamic one; the other table is unchanged |
| `Assets.AssetManager.GetAsset` | src/assetman.c:64-71 | an id starting with '$' is looked up in the static table and any other in the dynamic one |
| `Assets.AssetManager.FreeStaticAssets` | src/assetman.c:73-80 | refuses, changing nothing, iff not initialised; otherwise the static table is cleared through the callback |
| `Assets.AssetManager.FreeDynamicAssets` | src/assetman.c:82-89 | refuses, changing nothing, iff not initialised; otherwise the dynamic table is cleared through the callback |
| `Assets.AssetManager.Finish` | src/assetman.c:91-104 | refuses iff not initialised; otherwise optionally clears the static then the dynamic table, and always leaves the manager uninitialised |
| `Assets.FindInEmpty` | src/assetman.c:144-183 | a table with every bucket empty finds no key, so get returns NULL after init and after a clear |

## Left out

- Rendering, windowing, fonts, textures and the event loop are not modelled. They are presentation and calls into SDL. Where the editor and game code update a label or a texture, the model does nothing.
- File I/O is not modelled. This covers `load_scenario_from_file`, `get_scenario_file_names_list`, `get_scenario_info_from_file` and the `fopen`/`fprintf` calls of `save_scenario_as_sch_file`. The writer is modelled as the token sequence its lines consist of, and the loader as consuming a token sequence. The lexing of the written text back into those tokens is not proved character by character.
- `challenge_auto_play` is not modelled. It is driven by a floating-point cooldown and reads the challenge move past the end of the list (src/interaction.c:28-33).
- `update_currently_hovered_cell` is not modelled: it converts pixels to cells.
- Memory management is not modelled: `free`, `realloc`, `tree_free`, `token_free`, `dynarray_free` and `array_free`. Trees, tokens and scenarios are values.
- Trees.InsertSubtree, Trees.RemoveSubtree: the capture tree is a value, so the aliasing of subtrees shared by reference and the in-place update of a node's child array are not captured. `Trees.ShiftOut` keeps the shifting loop on an array.
- Lists.LinkedList: modelled over a sequence of node values. The rewiring of `next` links and the node allocation are not captured, only the order and count they produce.
- `cell_position_to_cell_id` on positions off the board is not modelled. The C code computes such ids before its bounds test, relying on truncating `%` and 16-bit wrap. The model only computes ids of in-bounds positions, in the same order of tests.
- `board_apply_move` is modelled with the two-argument signature declared in src/include/board.h:73. Its three-argument calls in src/interaction.c are read as that function.
- `MODE_FILE_BROWSER` and the `file_browser_*` fields used in src/game.c are not part of this model. They are absent from src/include/game.h.
- `validate_move` (src/include/validation.h:9) and `string_contains` (src/include/strplus.h:18) are declared but never defined, so neither is modelled.
- `string_view_length` is not modelled as a member. It returns the view's length field, which the model reads directly.
- Logging macros and the user-interface label constants are not modelled.
- ScenarioLoading.LoadScenario: where the C loader logs and calls `exit`, or reads the missing token after the last one, the model returns an error. Where a statement starts with a token the loader never consumes, the C loop spins forever; the model returns the error `NoProgress` instead.
- ScenarioLoading.LoadSingleCell, ScenarioLoading.RangePiece: a cell id beyond the 72-cell board is an error (`CellOutOfBoard`) here. In C it is an out-of-bounds write.
- Lexing.NextToken: where the C lexer would read past the terminator, the model reports an overrun. That happens for a char literal at the end of the text and for a string with no closing quote.
- Assets.Hash: a key is a sequence of characters without its NUL. A character above 255 is hashed by its code point, where the C code hashes the bytes of its encoding. The program's asset ids are ASCII, on which the two agree.
- Games.Game.EnterScenario: a challenge scenario must have every capture cell below 72, the size of the board array. The C code writes out of bounds when such a move is played. Sources and destinations need no bound: a move whose cells are off the board never matches and is never played.
- Games.Game.MoveSelectedPieceToHoveredCell: requires the challenge index to be below the number of challenge moves in challenge mode. The C code reads the move at that index without a check.

## Findings

Victory detection (`Games.Game.CheckVictory`) keeps the program's own mobility test, the one src/game.c:166 calls as written. The corrected `Mobility.ContainsAnyMove` is the intended test. `Mobility.AnyMoveImpliesAsWritten` shows the written test never ends a game the corrected one would continue. It can only let a game continue that the corrected test would end, and `Mobility.AsWrittenAgreesWithoutBackwardCaptures` shows this needs backward peon captures.

| source | as written | input that shows it | evidently intended | confidence | as-written member | corrected member |
|---|---|---|---|---|---|---|
| src/board.c:290 | with backward captures on, the jump test accepts any jumped cell whose team is not the side's, including an empty cell | 8x8 board, double corner on the right, white moving top to bottom, flying kings and backward captures on; a lone white peon on cell 28, square (0, 7). It is reported as having a move: a jump over the empty square (1, 6) | a jump needs an opponent piece on the jumped cell, as in the capture generator at src/board.c:188 | not executed | `Mobility.AnyMoveAsWrittenAcceptsEmptyJump` | `Mobility.ContainsAnyMove` |
| src/include/dtstructs.h:160 | `rrr_dynarray_add` doubles a full buffer's capacity, and `rrr_array_to_dynarray` (src/include/dtstructs.h:433-441) makes a buffer of capacity 0 from an empty array | an empty array converted to a dynamic array, then one element added: the capacity stays 0 and the element is written past the buffer | a full empty buffer gets room for at least one element, as `rrr_dynarray_new` gives it 8 slots | not executed; no call site in the source converts an array to a dynamic array | `DynamicArrays.AddToEmptyAsWrittenHasNoSlot` | `DynamicArrays.GrownCapacity` |
| src/strplus.c:87 | `string_find` loops while the current character IS the terminator, so it never looks inside a non-empty string | string "ab", target "a": as written the result is NULL, although "a" starts at offset 0 | loop while the current character is not the terminator, returning the first occurrence | not executed | `StringPlus.FindAsWrittenCounterexample` | `StringPlus.StringFind` |
