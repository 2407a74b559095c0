/*
 * The glue between the rules engine, the search and the UI board
 * (UI/game_controller.py): turning grid coordinates into square names,
 * accepting a player's move (retrying as a promotion), letting the engine
 * move, and copying the position into the UI grid.
 */
module Controller {
  import opened ChessTypes
  import opened RulesEngine
  import opened Transposition
  import opened Search
  import opened Pieces
  import opened Chessboard

  // ---------------------------------------------------------------------
  // Square names
  // ---------------------------------------------------------------------

  /** chr(ord('a') + c), or None where no character has that code. Python's chr
      raises ValueError outside 0 .. 0x10FFFF; within it, the surrogate codes
      are not Dafny characters either. */
  function FileChar(c: int): (f: Option<char>)
    ensures f.Some? ==> f.value as int == 'a' as int + c
    ensures f.Some? <==> (0 <= 'a' as int + c < 0xD800 || 0xE000 <= 'a' as int + c < 0x11_0000)
  {
    var code := 'a' as int + c;
    if 0 <= code < 0xD800 || 0xE000 <= code < 0x11_0000 then Some(code as char) else None
  }

  /** chr(ord('a') + c) does not raise: the code is a Unicode code point. */
  predicate ChrDefined(c: int) {
    0 <= 'a' as int + c < 0x11_0000
  }

  function DigitChar(d: int): (ch: char)
    requires 0 <= d < 10
    ensures '0' <= ch <= '9' && ch as int - '0' as int == d
  {
    "0123456789"[d]
  }

  predicate IsDigits(s: string) {
    forall i :: 0 <= i < |s| ==> '0' <= s[i] <= '9'
  }

  /** The decimal digits of n, most significant first. */
  function Digits(n: nat): (s: string)
    ensures |s| >= 1 && IsDigits(s)
    ensures s[0] == '0' <==> n == 0
  {
    if n < 10 then [DigitChar(n)] else Digits(n / 10) + [DigitChar(n % 10)]
  }

  /** str(n) for an int. */
  function DecimalString(n: int): (s: string)
    ensures |s| >= 1
  {
    if n < 0 then "-" + Digits(-n) else Digits(n)
  }

  /** The value of a string of decimal digits. */
  function DigitsValue(s: string): nat
    requires IsDigits(s)
  {
    if s == [] then 0 else DigitsValue(s[..|s| - 1]) * 10 + (s[|s| - 1] as int - '0' as int)
  }

  /** int(s) for the strings str produces: an optional minus sign and digits. */
  function ParseDecimal(s: string): Option<int> {
    if s != [] && s[0] == '-' && |s| > 1 && IsDigits(s[1..]) then Some(0 - DigitsValue(s[1..]))
    else if s != [] && IsDigits(s) then Some(DigitsValue(s))
    else None
  }

  lemma {:induction false} DigitsRoundTrip(n: nat)
    ensures DigitsValue(Digits(n)) == n
  {
    if n >= 10 {
      DigitsRoundTrip(n / 10);
      var s := Digits(n);
      assert s[..|s| - 1] == Digits(n / 10);
    }
  }

  lemma ParseSigned(d: string)
    requires |d| >= 1 && IsDigits(d)
    ensures ParseDecimal(d) == Some(DigitsValue(d) as int)
    ensures ParseDecimal("-" + d) == Some(0 - DigitsValue(d))
  {
    assert ("-" + d)[1..] == d;
  }

  /** str and int are inverse on integers. */
  lemma DecimalRoundTrip(n: int)
    ensures ParseDecimal(DecimalString(n)) == Some(n)
  {
    var m: nat := if n < 0 then -n else n;
    var d := Digits(m);
    DigitsRoundTrip(m);
    ParseSigned(d);
    assert DecimalString(n) == if n < 0 then "-" + d else d;
  }

  /** coords_to_square_name(r, c, rows): the file letter of column c, then the rank
      number rows - r; None where chr raises. */
  function CoordsToSquareName(r: int, c: int, rows: int := ROWS): (name: Option<string>)
    ensures name.Some? <==> FileChar(c).Some?
    ensures name.Some? ==> |name.value| >= 2 && name.value[0] as int == 'a' as int + c
  {
    var f := FileChar(c);
    if f.None? then None else Some([f.value] + DecimalString(rows - r))
  }

  /** The grid coordinates a square name stands for on a board of `rows` rows. */
  function SquareNameToCoords(name: string, rows: int): Option<(int, int)> {
    if |name| < 2 then None
    else
      match ParseDecimal(name[1..])
      case None => None
      case Some(rank) => Some((rows - rank, name[0] as int - 'a' as int))
  }

  /** A square name determines the coordinates it was made from. */
  lemma SquareNameRoundTrip(r: int, c: int, rows: int)
    requires FileChar(c).Some?
    ensures SquareNameToCoords(CoordsToSquareName(r, c, rows).value, rows) == Some((r, c))
  {
    var name := CoordsToSquareName(r, c, rows).value;
    assert name[1..] == DecimalString(rows - r);
    DecimalRoundTrip(rows - r);
  }

  /** python-chess's name of a square: file letter a-h, then rank digit 1-8. */
  function SquareName(sq: Square): string {
    [('a' as int + FileOf(sq)) as char, ('1' as int + RankOf(sq)) as char]
  }

  /** The row sync_to_ui puts a square's rank on, on a board of `rows` rows. */
  function SyncRow(rows: int, sq: Square): int { rows - 1 - RankOf(sq) }

  /** The column sync_to_ui puts a square's file on. */
  function SyncCol(sq: Square): int { FileOf(sq) }

  /** On the default board the name of grid cell (r, c) is the python-chess name of the
      square sync_to_ui draws there: row 0 is rank 8 and row 7 is rank 1. */
  lemma SquareNamesMatchSync(r: int, c: int)
    requires 0 <= r < ROWS && 0 <= c < COLS
    ensures var sq: Square := (ROWS - 1 - r) * 8 + c;
      && CoordsToSquareName(r, c) == Some(SquareName(sq))
      && SyncRow(ROWS, sq) == r && SyncCol(sq) == c
  {
    var sq: Square := (ROWS - 1 - r) * 8 + c;
    assert FileOf(sq) == c && RankOf(sq) == ROWS - 1 - r;
    var f := FileChar(c).value;
    var d := DigitChar(ROWS - r);
    assert DecimalString(ROWS - r) == [d];
    assert CoordsToSquareName(r, c) == Some([f] + [d]);
    assert f == SquareName(sq)[0] && d == SquareName(sq)[1];
    assert [f] + [d] == SquareName(sq);
  }

  // ---------------------------------------------------------------------
  // The player's move
  // ---------------------------------------------------------------------

  /** The promotion letters try_player_move appends, in the order it tries them. */
  const PROMOTION_SUFFIXES := ["q", "r", "b", "n"]

  /** python-chess's truth value of a move: false only for a move from a1 to a1
      without promotion (or drop). */
  predicate Truthy(m: Move) {
    m.from != 0 || m.to != 0 || m.promotion.Some?
  }

  /** The UCI string of a move between two grid cells. */
  function Uci(fromR: int, fromC: int, toR: int, toC: int): string
    requires FileChar(fromC).Some? && FileChar(toC).Some?
  {
    CoordsToSquareName(fromR, fromC).value + CoordsToSquareName(toR, toC).value
  }

  /** The k-th promotion suffix parses to a legal move. */
  predicate PromotionLegal(R: Rules, h: History, uci: string, k: int)
    requires 0 <= k < |PROMOTION_SUFFIXES|
  {
    var m := R.fromUci(uci + PROMOTION_SUFFIXES[k]);
    m.Some? && m.value in R.legalMoves(h)
  }

  /** The plain move parses, is truthy and is legal. */
  predicate PlainAccepted(R: Rules, h: History, uci: string) {
    var m := R.fromUci(uci);
    m.Some? && Truthy(m.value) && m.value in R.legalMoves(h)
  }

  /** The first legal move among the promotions from the k-th on. */
  function PromotionChoice(R: Rules, h: History, uci: string, k: nat): Option<Move>
    decreases |PROMOTION_SUFFIXES| - k
  {
    if k >= |PROMOTION_SUFFIXES| then None
    else if PromotionLegal(R, h, uci, k) then R.fromUci(uci + PROMOTION_SUFFIXES[k])
    else PromotionChoice(R, h, uci, k + 1)
  }

  /** The move try_player_move plays for `uci`, if any. */
  function PlayerChoice(R: Rules, h: History, uci: string): Option<Move> {
    if PlainAccepted(R, h, uci) then R.fromUci(uci) else PromotionChoice(R, h, uci, 0)
  }

  /** The k-th promotion is the first legal one at or after `from`. */
  predicate FirstLegalPromotion(R: Rules, h: History, uci: string, from: int, k: int) {
    && 0 <= from <= k < |PROMOTION_SUFFIXES|
    && PromotionLegal(R, h, uci, k)
    && forall j :: from <= j < k ==> !PromotionLegal(R, h, uci, j)
  }

  lemma {:induction false} PromotionChoiceIsFirst(R: Rules, h: History, uci: string, k: nat)
    requires k <= |PROMOTION_SUFFIXES|
    ensures PromotionChoice(R, h, uci, k).None? <==>
            forall j :: k <= j < |PROMOTION_SUFFIXES| ==> !PromotionLegal(R, h, uci, j)
    ensures PromotionChoice(R, h, uci, k).Some? ==>
            exists j :: FirstLegalPromotion(R, h, uci, k, j)
                     && PromotionChoice(R, h, uci, k) == R.fromUci(uci + PROMOTION_SUFFIXES[j])
    decreases |PROMOTION_SUFFIXES| - k
  {
    if k < |PROMOTION_SUFFIXES| {
      if PromotionLegal(R, h, uci, k) {
        assert FirstLegalPromotion(R, h, uci, k, k);
      } else {
        PromotionChoiceIsFirst(R, h, uci, k + 1);
        if PromotionChoice(R, h, uci, k).Some? {
          var j :| FirstLegalPromotion(R, h, uci, k + 1, j)
                && PromotionChoice(R, h, uci, k + 1) == R.fromUci(uci + PROMOTION_SUFFIXES[j]);
          assert FirstLegalPromotion(R, h, uci, k, j);
        }
      }
    }
  }

  /** What try_player_move promises: the plain move when it is accepted; otherwise the
      first legal promotion in the order q, r, b, n; nothing only when no candidate is
      legal; and whatever it plays is a legal move. */
  lemma PlayerChoiceSpec(R: Rules, h: History, uci: string)
    ensures var m := PlayerChoice(R, h, uci);
      && (PlainAccepted(R, h, uci) ==> m == R.fromUci(uci))
      && (m.Some? ==> m.value in R.legalMoves(h))
      && (m.None? <==> !PlainAccepted(R, h, uci)
                       && forall j :: 0 <= j < |PROMOTION_SUFFIXES| ==> !PromotionLegal(R, h, uci, j))
      && (!PlainAccepted(R, h, uci) && m.Some? ==>
            exists j :: FirstLegalPromotion(R, h, uci, 0, j) && m == R.fromUci(uci + PROMOTION_SUFFIXES[j]))
  {
    PromotionChoiceIsFirst(R, h, uci, 0);
    if !PlainAccepted(R, h, uci) && PlayerChoice(R, h, uci).Some? {
      var j :| FirstLegalPromotion(R, h, uci, 0, j)
            && PromotionChoice(R, h, uci, 0) == R.fromUci(uci + PROMOTION_SUFFIXES[j]);
      assert PromotionLegal(R, h, uci, j);
    }
  }

  // ---------------------------------------------------------------------
  // Copying the position into the UI grid
  // ---------------------------------------------------------------------

  /** PIECE_TYPE_MAP (UI/game_controller.py:20-27). */
  function PieceTypeName(k: PieceType): (name: string)
    ensures name in PIECES
  {
    match k
    case Pawn => PAWN
    case Knight => KNIGHT
    case Bishop => BISHOP
    case Rook => ROOK
    case Queen => QUEEN
    case King => KING
  }

  function ColorKey(c: Color): (key: string)
    ensures key in {WHITE_KEY, BLACK_KEY}
  {
    if c == White then WHITE_KEY else BLACK_KEY
  }

  /** The cell sync_to_ui writes for a piece: its glyph with its colour key. */
  function CellOf(p: Piece): Cell {
    Tagged(Pieces.Get(PieceTypeName(p.kind), ColorKey(p.color)), ColorKey(p.color))
  }

  /** The cell of grid (r, c) once the squares `lo` .. 63 have been copied. */
  function SyncedCellFrom(rows: int, p: Placement, r: int, c: int, lo: int): Cell {
    var rank := rows - 1 - r;
    if 0 <= c < 8 && 0 <= rank < 8 && rank * 8 + c >= lo && p[rank * 8 + c].Some?
    then CellOf(p[rank * 8 + c].value)
    else Empty
  }

  /** The cell of grid (r, c) after sync_to_ui. */
  function SyncedCell(rows: int, p: Placement, r: int, c: int): Cell {
    SyncedCellFrom(rows, p, r, c, 0)
  }

  /** The piece a UI cell shows, read back from its glyph. */
  function PieceOfCell(cell: Cell): Option<Piece> {
    match cell
    case Tagged(symbol, _) =>
      (match PieceOfGlyph(symbol)
       case None => None
       case Some(pair) => Some(Piece(KindOfName(pair.0), if pair.1 == WHITE_KEY then White else Black)))
    case _ => None
  }

  function KindOfName(name: string): PieceType {
    if name == PAWN then Pawn
    else if name == KNIGHT then Knight
    else if name == BISHOP then Bishop
    else if name == ROOK then Rook
    else if name == QUEEN then Queen
    else King
  }

  /** On the default board every square appears in the grid at (SyncRow, SyncCol), and
      the piece read back from that cell is the piece on the square (an empty square
      gives an empty cell): no glyph falls back to '?'. */
  lemma SyncShowsPlacement(p: Placement, sq: Square)
    ensures 0 <= SyncRow(ROWS, sq) < ROWS && 0 <= SyncCol(sq) < COLS
    ensures PieceOfCell(SyncedCell(ROWS, p, SyncRow(ROWS, sq), SyncCol(sq))) == p[sq]
    ensures p[sq].Some? ==> SyncedCell(ROWS, p, SyncRow(ROWS, sq), SyncCol(sq)).symbol != FALLBACK
  {
    assert RankOf(sq) * 8 + FileOf(sq) == sq;
    assert SyncedCell(ROWS, p, SyncRow(ROWS, sq), SyncCol(sq)) == if p[sq].Some? then CellOf(p[sq].value) else Empty;
    if p[sq].Some? {
      CellRoundTrip(p[sq].value);
    }
  }

  /** A piece's cell reads back as that piece, with a glyph from the table. */
  lemma CellRoundTrip(piece: Piece)
    ensures PieceOfCell(CellOf(piece)) == Some(piece)
    ensures CellOf(piece).symbol != FALLBACK
  {
    var name, key := PieceTypeName(piece.kind), ColorKey(piece.color);
    GlyphRoundTrip(name, key);
    assert KindOfName(name) == piece.kind;
  }

  // ---------------------------------------------------------------------
  // The controller
  // ---------------------------------------------------------------------

  /** GameController. The transposition cache, a module-level dict in the search,
      is the controller's own object here. */
  class GameController {
    const board: Board
    const maxDepth: int
    const engineIsBlack: bool
    const cache: TranspositionTable

    ghost predicate Valid()
      reads this, board, cache
    {
      WellFormed(board.rules) && TableSound(board.rules, cache.entries)
    }

    /** __init__ (UI/game_controller.py:31-34): a new game from the start position. */
    constructor (rules: Rules, maxDepth: int := 4, engineIsBlack: bool := true)
      requires WellFormed(rules)
      ensures board.rules == rules && board.history == [] && cache.entries == map[]
      ensures this.maxDepth == maxDepth && this.engineIsBlack == engineIsBlack
      ensures fresh(board) && fresh(cache) && Valid()
    {
      board := new Board(rules, []);
      this.maxDepth := maxDepth;
      this.engineIsBlack := engineIsBlack;
      cache := new TranspositionTable();
    }

    /** try_player_move (UI/game_controller.py:41-67). A column for which chr raises
        makes the source fail with an uncaught ValueError, so chr must succeed. A
        surrogate code gives a name no UCI string can contain, so from_uci rejects the
        plain string and every promotion string, and the attempt fails with nothing
        changed. */
    method TryPlayerMove(fromR: int, fromC: int, toR: int, toC: int) returns (ok: bool, move: Option<Move>)
      requires ChrDefined(fromC) && ChrDefined(toC)
      modifies board
      ensures FileChar(fromC).None? || FileChar(toC).None? ==>
        !ok && move == None && board.history == old(board.history)
      ensures FileChar(fromC).Some? && FileChar(toC).Some? ==>
        var choice := PlayerChoice(board.rules, old(board.history), Uci(fromR, fromC, toR, toC));
        && ok == choice.Some? && move == choice
        && board.history == if choice.Some? then old(board.history) + [choice.value] else old(board.history)
    {
      if FileChar(fromC).None? || FileChar(toC).None? {
        return false, None;
      }
      ghost var R, h := board.rules, board.history;
      var fromSq := CoordsToSquareName(fromR, fromC).value;
      var toSq := CoordsToSquareName(toR, toC).value;
      var uci := fromSq + toSq;
      move := board.rules.fromUci(uci);
      if move.Some? && Truthy(move.value) && move.value in board.LegalMoves() {
        board.Push(move.value);
        return true, move;
      }
      for k := 0 to |PROMOTION_SUFFIXES|
        invariant board.history == h
        invariant PromotionChoice(R, h, uci, k) == PromotionChoice(R, h, uci, 0)
      {
        var move2 := board.rules.fromUci(uci + PROMOTION_SUFFIXES[k]);
        if move2.None? {
          continue;
        }
        if move2.value in board.LegalMoves() {
          board.Push(move2.value);
          return true, move2;
        }
      }
      return false, None;
    }

    /** engine_move (UI/game_controller.py:69-76), over the search as written, whose
        repetition test also applies at the root. */
    method EngineMove() returns (move: Option<Move>)
      requires Valid()
      modifies board, cache
      ensures Valid()
      ensures var h := old(board.history);
        var d := Deepen(board.rules, EveryPly, h, old(cache.entries), Max(0, maxDepth), engineIsBlack);
        if board.rules.isGameOver(h) then move == None && board.history == h && cache.entries == old(cache.entries)
        else && move == d.move && cache.entries == d.table
             && board.history == if move.Some? then h + [move.value] else h
      ensures move.Some? ==> move.value in board.rules.legalMoves(old(board.history))
      ensures var h := old(board.history);
        maxDepth >= 1 && !board.rules.isGameOver(h) && !board.rules.isRepetition2(h) ==> move.Some?
      ensures var h := old(board.history);
        var cachedAtRoot := exists d :: 1 <= d <= maxDepth && (board.rules.fen(h), d) in old(cache.entries);
        board.rules.isRepetition2(h) && !cachedAtRoot ==> move == None && board.history == h
    {
      if board.IsGameOver() {
        return None;
      }
      ghost var R, h, t := board.rules, board.history, cache.entries;
      var best, _ := IterativeDeepening(board, maxDepth, engineIsBlack, cache, EveryPly);
      DeepenSound(R, EveryPly, h, t, Max(0, maxDepth), engineIsBlack);
      if maxDepth >= 1 && !R.isRepetition2(h) {
        DeepenFindsMove(R, EveryPly, h, t, maxDepth, engineIsBlack);
      }
      if R.isRepetition2(h) && (forall d :: 1 <= d <= maxDepth ==> (R.fen(h), d) !in t) {
        RepeatedRootGetsNoMove(R, h, t, Max(0, maxDepth), engineIsBlack);
      }
      if best.None? {
        return None;
      }
      board.Push(best.value);
      return best;
    }

    /** sync_to_ui (UI/game_controller.py:78-91): clear the UI grid, then write every
        occupied square's glyph at (rows - 1 - rank, file), visiting squares from h8
        down to a1 as piece_map does. */
    method SyncToUi(ui: ChessBoard)
      requires ui.Valid()
      modifies ui
      ensures ui.Valid() && ui.highlight == old(ui.highlight)
      ensures forall r, c :: 0 <= r < |ui.board| && 0 <= c < |ui.board[r]| ==>
                ui.board[r][c] == SyncedCell(ui.geometry.rows, board.PlacementNow(), r, c)
    {
      ui.Clear();
      var rows := ui.geometry.rows;
      var p := board.PlacementNow();
      var sq := 64;
      while sq > 0
        invariant 0 <= sq <= 64
        invariant ui.Valid() && ui.highlight == old(ui.highlight)
        invariant forall r, c :: 0 <= r < |ui.board| && 0 <= c < |ui.board[r]| ==>
                    ui.board[r][c] == SyncedCellFrom(rows, p, r, c, sq)
      {
        sq := sq - 1;
        if p[sq].Some? {
          var piece := p[sq].value;
          var col := FileOf(sq);
          var row := rows - 1 - RankOf(sq);
          var colorKey := ColorKey(piece.color);
          var symbol := Pieces.Get(PieceTypeName(piece.kind), colorKey);
          ghost var before := ui.board;
          ui.SetPiece(row, col, Tagged(symbol, colorKey));
          forall r, c | 0 <= r < |ui.board| && 0 <= c < |ui.board[r]|
            ensures ui.board[r][c] == SyncedCellFrom(rows, p, r, c, sq)
          {
            SyncStep(rows, p, r, c, sq);
          }
        } else {
          forall r, c | 0 <= r < |ui.board| && 0 <= c < |ui.board[r]|
            ensures ui.board[r][c] == SyncedCellFrom(rows, p, r, c, sq)
          {
            SyncStep(rows, p, r, c, sq);
          }
        }
      }
    }
  }

  /** Copying square `sq` changes only the cell it maps to. */
  lemma SyncStep(rows: int, p: Placement, r: int, c: int, sq: Square)
    ensures var here := 0 <= c < 8 && rows - 1 - r == RankOf(sq) && c == FileOf(sq);
      SyncedCellFrom(rows, p, r, c, sq)
        == if here && p[sq].Some? then CellOf(p[sq].value) else SyncedCellFrom(rows, p, r, c, sq + 1)
  {
    var rank := rows - 1 - r;
    if 0 <= c < 8 && 0 <= rank < 8 && rank * 8 + c == sq {
      assert RankOf(sq) == rank && FileOf(sq) == c;
    }
    if 0 <= c < 8 && rank == RankOf(sq) && c == FileOf(sq) {
      assert rank * 8 + c == sq;
    }
  }
}
