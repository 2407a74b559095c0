# A model of a small Python chess engine and its board UI

The engine has these parts:
- a static evaluation (material, plus a knight-development term);
- a move-ordering heuristic (captures by victim value, promotions, checks);
- a transposition table keyed by FEN and depth;
- alpha-beta minimax with a one-ply check extension, a repetition penalty and a quiescence search;
- iterative deepening;
- a game controller that turns UI clicks into moves, asks the engine for its reply, and copies the position onto a UI board made of cells and pixel geometry.

The chess rules come from the python-chess library. Here they are an abstract `RulesEngine.Rules` value: total functions from a move history to legal moves, check and mate flags, the piece placement, the FEN and UCI parsing. This value satisfies three assumptions, written as `WellFormed`:
- a position that is not over has a legal move;
- a legal capture lowers the number of pieces on the board;
- equal FENs have equal legal moves.

The files and what they hold:
- `chess_types.dfy`: squares, pieces and moves.
- `rules_engine.dfy`: the rules oracle and the mutable `Board`, which has push and pop.
- `evaluation.dfy`: `evaluate`.
- `move_ordering.dfy`: `order_moves`.
- `transposition.dfy`: the cache.
- `search.dfy`: quiescence, minimax and iterative deepening. Each is a method proved equal to a pure function (`QValue`, `SearchOf`, `Deepen`), and the properties are lemmas about those functions.
- `pieces.dfy`: the glyph table.
- `chessboard.dfy`: the UI board.
- `game_controller.dfy`: the controller.

## Model

| member | source | states |
|---|---|---|
| RulesEngine.Board.Push | search.py:80 | making a move appends it to the history |
| RulesEngine.Board.Pop | search.py:101 | unmaking removes the last move and returns it; the history is non-empty |
| Evaluation.EvaluationOf | algorithms/evaluation.py:17-42 | the score function `evaluate` is proved equal to: the mate test first, then the draw tests, then material plus the knight term (no contract of its own; its properties are the lemmas below) |
| Evaluation.Evaluate | algorithms/evaluation.py:17-42 | with `ply` defaulting to 0, the score is `EvaluationOf`: a mate scores -100000 + ply, a stalemate or insufficient material scores 0, and otherwise the score is material plus the knight term, from White's side |
| Evaluation.MaterialLoop | algorithms/evaluation.py:26-29 | the loop over the piece types sums value × (white count − black count) |
| Evaluation.WhiteKnightLoop | algorithms/evaluation.py:31-35 | 40 is subtracted for each white knight still on b1 or g1 |
| Evaluation.BlackKnightLoop | algorithms/evaluation.py:37-40 | 40 is added for each black knight still on b8 or g8 |
| Evaluation.SquaresOfMembers | algorithms/evaluation.py:31 | `board.pieces(kind, color)` lists exactly the squares holding that piece, in ascending order |
| Evaluation.KnightTerm | algorithms/evaluation.py:31-40 | the knight-development term lies within ±2 × 40 = ±80 |
| Evaluation.CheckmateScore | algorithms/evaluation.py:18-19 | a mated position scores -MATE_SCORE + ply, whichever side is mated |
| Evaluation.DrawScore | algorithms/evaluation.py:21-22 | a stalemate or insufficient material scores 0 |
| Evaluation.PlyOnlyMatters | algorithms/evaluation.py:18-42 | ply changes only mate scores, and a later mate scores higher |
| Evaluation.MaterialTable | algorithms/evaluation.py:5-12 | material with the pawn 100, knight 320, bishop 330, rook 500, queen 900 and king 20000 weights, written out |
| Evaluation.PositionScoreMirror | algorithms/evaluation.py:24-40 | swapping the colours and flipping the ranks negates the non-terminal score |
| Evaluation.KnightTermMirror | algorithms/evaluation.py:31-40 | mirroring the board negates the knight term |
| Evaluation.StartScoresZero | algorithms/evaluation.py:24-40 | the initial position scores 0, and so does its knight term |
| MoveOrdering.MoveScore | move_ordering.py:4-23 | every ordering score lies between 0 and 10·6 + 900 + 50 |
| MoveOrdering.EnPassantEarnsNothing | move_ordering.py:8-11 | a capture onto an empty square (en passant) earns no capture bonus |
| MoveOrdering.CaptureScore | move_ordering.py:8-21 | a capture of a piece of type index k scores 10·k, plus 900 for a promotion and 50 for a check |
| MoveOrdering.ScoreMove | move_ordering.py:4-23 | the check test's push and pop restore the history; the result is `MoveScore` |
| MoveOrdering.SortByScore | move_ordering.py:25 | the sort keeps the length and the multiset, and sorts by score, highest first |
| MoveOrdering.SortIsStable | move_ordering.py:25 | among equal scores the sort keeps the input order |
| MoveOrdering.OrderedIsPermutation | move_ordering.py:25 | the ordered list is a permutation of the input moves |
| MoveOrdering.OrderedByScore | move_ordering.py:25 | every move scores at least as high as every move after it |
| MoveOrdering.OrderedIsStable | move_ordering.py:25 | moves of equal score keep their relative order (Python's sort is stable) |
| MoveOrdering.Ordered | move_ordering.py:25 | the order `sorted(moves, key=score, reverse=True)` produces: the stable sort of the scored moves, highest first (no contract of its own; see OrderedIsPermutation, OrderedByScore, OrderedIsStable) |
| MoveOrdering.OrderMoves | move_ordering.py:3-25 | the method leaves the board as it found it and returns `Ordered` |
| Transposition.Get | algorithms/transposition.py:3-5 | a lookup gives the stored entry exactly when the key is present, and None otherwise |
| Transposition.Put | algorithms/transposition.py:7-9 | a store makes the key map to the new entry; every other key is unchanged |
| Transposition.ReplayLastWriteWins | algorithms/transposition.py:7-9 | after a series of stores a key holds its last stored entry, and is absent when it was never stored |
| Transposition.DepthsAreIndependent | algorithms/transposition.py:4 | a store at one depth does not change the entry cached at another depth for the same FEN |
| Transposition.SecondStoreWins | algorithms/transposition.py:9 | storing twice under a key is the same as storing the second entry only |
| Transposition.TranspositionTable.Lookup | algorithms/transposition.py:3-5 | `lookup(board, depth)` is `Get` on the key (FEN of the current position, depth); Store's ensures says a Lookup after a Store returns the stored entry |
| Transposition.TranspositionTable.constructor | algorithms/transposition.py:1 | the cache starts empty |
| Transposition.TranspositionTable.Store | algorithms/transposition.py:7-9 | the table becomes `Put(old, (fen, depth), entry)`, a lookup returns the entry, and no key is lost |
| Search.QValue | search.py:13-47 | the quiescence value as a function: mate and stalemate scores, then stand-pat with the beta and alpha tests, then the capture loop `QLoop` (its bounds are QValueInWindow and QuietPositionStandsPat) |
| Search.QLoop | search.py:30-45 | the capture loop of quiescence as a function: each capture is searched with the window it has reached, and the loop stops at the first cutoff (bounded by QLoopInWindow) |
| Search.Quiescence | search.py:13-47 | the board is restored, and the value is the pure `QValue` |
| Search.QValueInWindow | search.py:19-47 | a non-terminal quiescence value lies in the window [alpha, beta] and is no worse for the side to move than the stand-pat score clamped to it |
| Search.QLoopInWindow | search.py:30-45 | the capture loop keeps its value inside [alpha, beta] |
| Search.QuietPositionStandsPat | search.py:19-28 | a capture-free position returns its static score clamped to the window, and the score itself when it is strictly inside the window |
| Search.ChildBudget | search.py:83-88 | a child gets one ply less when there is no check; a check leaves depth unchanged and spends the single extension |
| Search.SearchOf | search.py:53-143 | minimax as a function of the cache and the depth counter: the counter update, the cache hit, the repetition test, game over, depth 0, and otherwise the loop over the ordered moves followed by the store (its properties are SearchCache, SearchReach, SearchSound and the Sweep lemmas) |
| Search.Child | search.py:80-101 | one child: push the move, choose depth and extension by ChildBudget, search the opponent's side one ply deeper |
| Search.Sweep | search.py:77-140 | the move loop of either side as a function: strict improvement of the best, alpha or beta updated, stop once beta <= alpha (its properties are SweepKeepsBest, SweepFirstBest and SweepStopsAtFirstCutoff) |
| Search.Minimax | search.py:53-143 | the board is restored; value, move, cache and depth counter are those of the pure `SearchOf` |
| Search.SearchMoves | search.py:74-140 | both move loops equal the pure `Sweep` over the ordered moves |
| Search.SearchCache | search.py:58-143 | a search never changes an entry the cache held when it began; a node that returns early leaves the cache as it was, and a node that searches its moves ends with its answer stored under (FEN, depth) |
| Search.SearchReach | search.py:56 | the depth counter never falls, and rises to at most the node's ply plus its depth and extension |
| Search.SearchSound | search.py:53-143 | with a sound cache, the move returned is legal, the cache stays sound, and an interior node that is not game over and not a repetition always returns a move |
| Search.SweepKeepsBest | search.py:77-140 | the loop examines at least one child; its value is no worse than every child score it saw and than the best it started with |
| Search.SweepFirstBest | search.py:103-105 | the move kept is that of the first child reaching the final value, which strictly beat the earlier best; a later tie does not replace it |
| Search.SweepStopsAtFirstCutoff | search.py:107-109 | the window is open before each examined child after the first; children are skipped only once beta <= alpha |
| Search.AlphaRisesBetaFalls | search.py:107-109 | alpha only rises at maximizing nodes and beta only falls at minimizing nodes; the other bound is fixed |
| Search.DepthCounter.Reach | search.py:56 | the counter becomes the maximum of itself and the ply |
| Search.Deepen | search.py:149-172 | iterative deepening as a function: depths 1..n in turn, each a root search with window ±10^9 and a fresh depth counter over the cache so far, keeping the move and depth of the last iteration that found a move (see DeepenKeepsLastFound, DeepenSound) |
| Search.IterativeDeepening | search.py:149-172 | the board is restored; the move, the reported depth and the cache are the pure `Deepen` over depths 1..max_depth |
| Search.DeepenKeepsLastFound | search.py:167-169 | the move returned is the move of the deepest iteration that found one |
| Search.LastSomeIsLast | search.py:167-169 | "last found" is None exactly when no iteration found a move, and otherwise the move of an iteration after which none found one |
| Search.DeepenSound | search.py:149-172 | the move is legal at the root, the cache stays sound, and the reported depth lies in 0..max_depth + 1 |
| Search.RepeatedRootGetsNoMove | search.py:62-64 | as written: at a repeated root with no cached entry, every iteration returns no move, so the result is None |
| Search.RepetitionStallExample | search.py:62-64 | as written, a concrete root position gets None; in the corrected rule it gets its only legal move |
| Search.DeepenFindsMove | search.py:62-72 | with a sound cache, a position that is not over and whose root the repetition test does not hit gets a legal move from one iteration on |
| Search.BelowRootFindsMove | search.py:62-64 | corrected: with the repetition test only below the root, a position that is not over always gets a legal move |
| Pieces.Get | UI/pieces.py:19-28 | returns the table's glyph for a known piece and colour, and the fallback otherwise |
| Pieces.GlyphRoundTrip | UI/pieces.py:9-16 | every glyph is one character, never "?", and gives back its piece and colour |
| Pieces.GlyphsDistinct | UI/pieces.py:9-16 | no two table entries share a glyph |
| Pieces.AvailablePieces | UI/pieces.py:31-33 | the list holds exactly the table's piece names, each once, in sorted order |
| Chessboard.FloorDiv | UI/chessboard.py:150-151 | Python's `//` rounds toward minus infinity for either sign of the divisor |
| Chessboard.EmptyGrid | UI/chessboard.py:55 | the grid has `rows` empty rows of `cols` empty cells each (none when a count is not positive) |
| Chessboard.Geometry.PixelToSquare | UI/chessboard.py:144-154 | None left of or above the board; ZeroDivisionError only for square size 0; otherwise a square on the board is the floor division of the local offset |
| Chessboard.Geometry.Width | UI/chessboard.py:60-62 | the `width` property, cols × square size + 2 × margin; SquaresFitBoard states what it means for the drawing |
| Chessboard.Geometry.Height | UI/chessboard.py:64-66 | the `height` property, rows × square size + 2 × margin; SquaresFitBoard states what it means for the drawing |
| Chessboard.DefaultBoardSize | UI/chessboard.py:157-160 | the board `create_chessboard()` makes with the default 8 × 8 squares of 60 pixels and a 40-pixel margin is 560 × 560 pixels, and each square's top-left pixel maps back to it |
| Chessboard.SquaresFitBoard | UI/chessboard.py:60-80 | every square lies inside the margin frame, and the last one ends exactly a margin before width and height |
| Chessboard.PixelRoundTrip | UI/chessboard.py:75-80 | every pixel of the square drawn for (r, c) maps back to (r, c) |
| Chessboard.PixelInsideSquare | UI/chessboard.py:144-154 | a pixel that maps to a square lies inside that square's drawn rectangle |
| Chessboard.SquareColor | UI/chessboard.py:81 | the colour `draw` gives square (r, c); ColoursAlternate states its pattern |
| Chessboard.ColoursAlternate | UI/chessboard.py:81 | colours alternate along ranks and files and repeat along diagonals; a1 is dark and h1 light |
| Chessboard.Written | UI/chessboard.py:137-139 | writing a cell changes that cell only, and writing off the board changes nothing |
| Chessboard.ChessBoard.constructor | UI/chessboard.py:38-58 | the board keeps the given geometry and colours, starts with an empty grid and has no highlight |
| Chessboard.ChessBoard.SetPiece | UI/chessboard.py:130-139 | the grid becomes `Written(old grid, row, col, piece)`; the highlight is kept |
| Chessboard.ChessBoard.Clear | UI/chessboard.py:141-142 | the grid becomes empty again and keeps its shape; the highlight is kept |
| Controller.FileChar | UI/game_controller.py:37 | `chr(ord('a') + c)` gives that code point, and is defined exactly for the code points a Dafny char can hold |
| Controller.DecimalRoundTrip | UI/game_controller.py:38 | `str(rows - r)` reads back as the same integer, negative ones included |
| Controller.CoordsToSquareName | UI/game_controller.py:36-39 | the name exists exactly when the file character does; it starts with 'a' + c and has a rank part |
| Controller.SquareNameRoundTrip | UI/game_controller.py:36-39 | the name gives back the row and column it was built from |
| Controller.SquareNamesMatchSync | UI/game_controller.py:83-86 | for on-board (row, col), the square name given to a click is that of the square that sync draws at (row, col) |
| Controller.PromotionChoiceIsFirst | UI/game_controller.py:58-65 | the promotion loop returns the first legal suffix in the order q, r, b, n, and None when there is none |
| Controller.PlayerChoice | UI/game_controller.py:47-67 | the move try_player_move makes, as a function: the plain UCI move when it parses, is not the null move and is legal, else the first legal promotion (specified by PlayerChoiceSpec) |
| Controller.PlayerChoiceSpec | UI/game_controller.py:41-67 | a legal plain move wins; otherwise the first legal promotion is chosen; the chosen move is always legal; None exactly when neither exists |
| Controller.PieceTypeName | UI/game_controller.py:20-27 | every piece type maps to a name in the glyph table |
| Controller.CellRoundTrip | UI/game_controller.py:88-91 | the cell written for a piece gives back that piece and is never the fallback |
| Controller.CellOf | UI/game_controller.py:88-91 | the cell sync writes for a piece: `(glyph, colour key)`; CellRoundTrip is its inverse |
| Controller.SyncedCell | UI/game_controller.py:80-91 | the cell at (row, col) after sync: the cell of the piece on the square drawn there, or empty (specified by SyncShowsPlacement) |
| Controller.SyncShowsPlacement | UI/game_controller.py:78-91 | after sync, the UI cell at (7 − rank, file) shows exactly the piece on that square, or nothing |
| Controller.GameController.constructor | UI/game_controller.py:31-34 | a new game starts at the initial history with the given depth and side and an empty cache |
| Controller.GameController.TryPlayerMove | UI/game_controller.py:41-67 | the move made and reported is `PlayerChoice`, and nothing changes when it is None; a column whose code is a surrogate makes the attempt fail with nothing changed |
| Controller.GameController.EngineMove | UI/game_controller.py:69-76 | over the search as written: a finished game gets None and nothing changes; otherwise the reply and the cache are those of `Deepen` with the repetition test at every ply, and a reply is pushed; the reply is legal, present whenever max_depth >= 1 and the position is not a repetition, absent at a repetition with no cache entry for the root, and the cache stays sound |
| Controller.GameController.SyncToUi | UI/game_controller.py:78-91 | every UI cell becomes the cell sync computes from the current placement; the grid keeps its shape and the highlight |

## Left out

- The chess rules themselves (move generation, check, mate, repetition, FEN, UCI parsing) belong to python-chess and the `move_generation` module. They are the `Rules` oracle with its three assumptions. `generate_legal_moves(board)` and `board.legal_moves` are both `legalMoves`.
- The float scores -inf, +inf and ±1e9 are integers here. A running best of -inf / +inf is "no move yet" (`InitialBest` and `Improves`). The root window is `ROOT_WINDOW` = 10^9.
- The `print` of each iteration (search.py:171), `print_terminal`, the two `main` loops, the `input` of SAN moves and all pygame drawing, fonts and labels are I/O and are not modelled.
- The cache is a module-level dict shared by every search. Here it is a `TranspositionTable` object the caller passes in; the controller owns one for its game.
- Search.SearchReach: proves only bounds on the depth counter, not that it equals the deepest ply visited.
- Search.Minimax: does not prove that alpha-beta with the cache returns the plain minimax value. Cached values are reused as stored; the model does not relate them to a fresh search.
- Controller.FileChar: codes 0xD800..0xDFFF (lone surrogates, which Python's `chr` accepts) have no Dafny `char`. They, and codes outside Unicode, give None.
- Controller.GameController.TryPlayerMove: requires `chr(ord('a') + c)` to succeed for both columns (a code point in 0..0x10FFFF); outside that range Python raises an uncaught ValueError. For surrogate codes 0xD800..0xDFFF, which `chr` accepts but a Dafny `char` cannot hold, the model returns (false, None) without consulting the rules oracle: the UCI string then holds a character of no square name, so `from_uci` raises for it and for every promotion string, and Python returns (False, None) as well.
- `chess.Move.from_uci` is the oracle `fromUci`: None where Python raises. `Truthy` stands for `Move.__bool__`, which is false only for the null move.
- Python's Timsort is a stable insertion sort here. A stable sort by key has one possible result, so the orders agree.
- `depth_counter` (a one-element list) is the `DepthCounter` object.
- `sync_to_ui` visits squares in `piece_map()` order. The model visits them from h8 down to a1. Each square writes its own cell, so the order does not change the result.
- The UI board's rows, cols, square size and margin are grouped in `Geometry`. The highlight is only kept: UI/main.py toggles it, and that file is not part of this model.
- `PIECE_TYPE_MAP.get(..., None)` cannot miss for a python-chess piece type, so the `get(None, ...)` fallback path exists only in `Pieces.Get`.
- UI/chessboard.py's label and font helpers, `draw` and `_get_font` are not modelled. Only the colour rule of `draw` (line 81) and its square rectangles (lines 75-80) are.
- Controller.GameController.EngineMove follows the source: it calls the search with the repetition test at every ply. The corrected rule is the `BelowRoot` argument of `IterativeDeepening`, and Search.BelowRootFindsMove proves what it guarantees; no controller method uses it.
- Evaluation.Evaluate: it is split into three loop methods. The `board.pieces` set is an ascending list of squares.

## Findings

| source | as written | input that shows it | evidently intended | confidence | as-written member | corrected member |
|---|---|---|---|---|---|---|
| search.py:62-64 | The twofold-repetition test also runs at the root (ply 0). A root position that occurred before makes every iteration return (±20, None), so `iterative_deepening` returns None although the game is not over; `engine_move` then plays nothing, and the terminal loop in algorithms/main.py asks the engine again forever | any position that occurred before with the engine to move and no cache entry for the root (the FEN's move counters differ between the two occurrences, so none is hit), e.g. (a) the engine's king under perpetual check with a single legal reply each time, or (b) a GameController whose history was built by try_player_move for both sides, which UI/game_controller.py:41-67 allows because it does not check whose turn it is: 1. Nf3 Nf6 2. Ng1 Ng8 3. Nf3, then engine_move with the engine playing Black | apply the repetition penalty only below the root, so the engine always picks a legal move in a position that is not over | not executed | Search.RepeatedRootGetsNoMove, Controller.GameController.EngineMove | Search.BelowRootFindsMove |
