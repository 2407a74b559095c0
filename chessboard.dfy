/*
 * The UI's board model (UI/chessboard.py): fixed geometry (rows, columns,
 * square size and margin, in pixels), a grid of cells the UI writes pieces
 * into, and an optional highlighted square. Only the grid updates, the
 * geometry and the square-colour rule are modelled; the pygame drawing is not.
 */
module Chessboard {
  import opened ChessTypes

  // Defaults of UI/values.py.
  const ROWS := 8
  const COLS := 8
  const SQUARE_SIZE := 60
  const MARGIN := 40

  type Rgb = (int, int, int)

  const LIGHT_COLOR: Rgb := (167, 141, 97)
  const DARK_COLOR: Rgb := (91, 91, 91)

  /** What a cell holds: nothing, a bare symbol, or a symbol with its colour key. */
  datatype Cell = Empty | Glyph(symbol: string) | Tagged(symbol: string, colorKey: string)

  /** len(range(n)). */
  function RangeLen(n: int): nat { if n > 0 then n else 0 }

  /** Python's `a // b` (rounds toward minus infinity). */
  function FloorDiv(a: int, b: int): (q: int)
    requires b != 0
    ensures b > 0 ==> b * q <= a < b * q + b
    ensures b < 0 ==> b * q + b < a <= b * q
  {
    if b > 0 then a / b else (-a) / (-b)
  }

  /** A grid of `rows` lists of `cols` empty cells, as the constructor and `clear` build it. */
  function EmptyGrid(rows: int, cols: int): (g: seq<seq<Cell>>)
    ensures |g| == RangeLen(rows)
    ensures forall r :: 0 <= r < |g| ==> |g[r]| == RangeLen(cols)
    ensures forall r, c :: 0 <= r < |g| && 0 <= c < |g[r]| ==> g[r][c] == Empty
  {
    seq(RangeLen(rows), _ => seq(RangeLen(cols), _ => Empty))
  }

  /** The result of `pixel_to_square`; `ZeroSquareSize` is the ZeroDivisionError
      Python raises when the square size is 0. */
  datatype Hit = Miss | OnSquare(row: int, col: int) | ZeroSquareSize

  /** The board's dimensions (UI/chessboard.py:47-50). */
  datatype Geometry = Geometry(rows: int, cols: int, squareSize: int, margin: int) {

    /** The `width` property. */
    function Width(): int { cols * squareSize + 2 * margin }

    /** The `height` property. */
    function Height(): int { rows * squareSize + 2 * margin }

    /** The top-left pixel of square (r, c) when the board is drawn at (tx, ty). */
    function Origin(r: int, c: int, tx: int, ty: int): (int, int) {
      (tx + margin + c * squareSize, ty + margin + r * squareSize)
    }

    /** pixel_to_square(x, y, top_left=(tx, ty)). */
    function PixelToSquare(x: int, y: int, tx: int, ty: int): (h: Hit)
      ensures x - (tx + margin) < 0 || y - (ty + margin) < 0 ==> h == Miss
      ensures h.ZeroSquareSize? <==> x - (tx + margin) >= 0 && y - (ty + margin) >= 0 && squareSize == 0
      ensures h.OnSquare? ==> && 0 <= h.row < rows && 0 <= h.col < cols
                              && squareSize != 0
                              && h.row == FloorDiv(y - (ty + margin), squareSize)
                              && h.col == FloorDiv(x - (tx + margin), squareSize)
    {
      var localX := x - (tx + margin);
      var localY := y - (ty + margin);
      if localX < 0 || localY < 0 then Miss
      else if squareSize == 0 then ZeroSquareSize
      else
        var c := FloorDiv(localX, squareSize);
        var r := FloorDiv(localY, squareSize);
        if 0 <= r < rows && 0 <= c < cols then OnSquare(r, c) else Miss
    }
  }

  /** The board of the default configuration. */
  const DEFAULT_GEOMETRY := Geometry(ROWS, COLS, SQUARE_SIZE, MARGIN)

  /** The default board is 560 x 560 pixels, and a click at pixel (x, y) of the window
      lands on the square whose top-left corner is 40 + 60 * col, 40 + 60 * row. */
  lemma DefaultBoardSize(r: int, c: int)
    requires 0 <= r < ROWS && 0 <= c < COLS
    ensures DEFAULT_GEOMETRY.Width() == 560 && DEFAULT_GEOMETRY.Height() == 560
    ensures DEFAULT_GEOMETRY.Origin(r, c, 0, 0) == (40 + 60 * c, 40 + 60 * r)
    ensures DEFAULT_GEOMETRY.PixelToSquare(40 + 60 * c, 40 + 60 * r, 0, 0) == OnSquare(r, c)
  {
    PixelRoundTrip(DEFAULT_GEOMETRY, r, c, 0, 0, 0, 0);
  }

  /** The squares fill the drawing exactly inside a `margin`-wide frame: the first
      square starts `margin` pixels in and the last ends `margin` pixels before
      `width` and `height`. */
  lemma SquaresFitBoard(g: Geometry, r: int, c: int, tx: int, ty: int)
    requires g.squareSize > 0 && 0 <= r < g.rows && 0 <= c < g.cols
    ensures tx + g.margin <= g.Origin(r, c, tx, ty).0
    ensures g.Origin(r, c, tx, ty).0 + g.squareSize + g.margin <= tx + g.Width()
    ensures ty + g.margin <= g.Origin(r, c, tx, ty).1
    ensures g.Origin(r, c, tx, ty).1 + g.squareSize + g.margin <= ty + g.Height()
    ensures g.Origin(g.rows - 1, g.cols - 1, tx, ty).0 + g.squareSize + g.margin == tx + g.Width()
    ensures g.Origin(g.rows - 1, g.cols - 1, tx, ty).1 + g.squareSize + g.margin == ty + g.Height()
  {
    MulMonotone(c, g.cols - 1, g.squareSize);
    MulMonotone(r, g.rows - 1, g.squareSize);
  }

  lemma MulMonotone(a: int, b: int, k: int)
    requires a <= b && k > 0
    ensures a * k <= b * k
  {
  }

  /** Every pixel of the square `draw` paints for (r, c) maps back to (r, c). */
  lemma PixelRoundTrip(g: Geometry, r: int, c: int, dx: int, dy: int, tx: int, ty: int)
    requires g.squareSize > 0 && 0 <= r < g.rows && 0 <= c < g.cols
    requires 0 <= dx < g.squareSize && 0 <= dy < g.squareSize
    ensures var o := g.Origin(r, c, tx, ty);
            g.PixelToSquare(o.0 + dx, o.1 + dy, tx, ty) == OnSquare(r, c)
  {
    DivExact(c, dx, g.squareSize);
    DivExact(r, dy, g.squareSize);
  }

  lemma DivExact(q: int, d: int, k: int)
    requires k > 0 && 0 <= d < k && q >= 0
    ensures (q * k + d) / k == q
  {
    var x := q * k + d;
    var q' := x / k;
    if q' < q {
      MulMonotone(q' + 1, q, k);
    } else if q' > q {
      MulMonotone(q + 1, q', k);
    }
  }

  /** Conversely, a pixel that maps to (r, c) lies inside the square drawn for (r, c). */
  lemma PixelInsideSquare(g: Geometry, x: int, y: int, tx: int, ty: int)
    requires g.squareSize > 0
    requires g.PixelToSquare(x, y, tx, ty).OnSquare?
    ensures var h := g.PixelToSquare(x, y, tx, ty);
            var o := g.Origin(h.row, h.col, tx, ty);
            o.0 <= x < o.0 + g.squareSize && o.1 <= y < o.1 + g.squareSize
  {
  }

  /** The colour `draw` gives square (r, c) (UI/chessboard.py:81). */
  function SquareColor(r: int, c: int, light: Rgb, dark: Rgb): Rgb {
    if (r + c) % 2 == 0 then light else dark
  }

  /** The colours alternate along ranks and files and repeat along diagonals; in the
      default 8x8 board the bottom-left square is dark and the bottom-right light. */
  lemma ColoursAlternate(r: int, c: int, light: Rgb, dark: Rgb)
    requires light != dark
    ensures SquareColor(r, c, light, dark) == light <==> (r + c) % 2 == 0
    ensures SquareColor(r, c, light, dark) != SquareColor(r, c + 1, light, dark)
    ensures SquareColor(r, c, light, dark) != SquareColor(r + 1, c, light, dark)
    ensures SquareColor(r, c, light, dark) == SquareColor(r + 1, c + 1, light, dark)
    ensures SquareColor(ROWS - 1, 0, light, dark) == dark
    ensures SquareColor(ROWS - 1, COLS - 1, light, dark) == light
  {
  }

  /** `b` has `rows` rows of `cols` cells each. */
  predicate Shaped(b: seq<seq<Cell>>, g: Geometry) {
    && |b| == RangeLen(g.rows)
    && forall r :: 0 <= r < |b| ==> |b[r]| == RangeLen(g.cols)
  }

  /** The grid after set_piece(row, col, piece): the addressed cell holds `piece` when
      it is on the board, and every other cell (every cell, off the board) is as before. */
  function Written(b: seq<seq<Cell>>, g: Geometry, row: int, col: int, piece: Cell): (b': seq<seq<Cell>>)
    requires Shaped(b, g)
    ensures Shaped(b', g)
    ensures forall r, c :: 0 <= r < |b| && 0 <= c < |b[r]| ==>
              b'[r][c] == if r == row && c == col then piece else b[r][c]
    ensures !(0 <= row < g.rows && 0 <= col < g.cols) ==> b' == b
  {
    if 0 <= row < g.rows && 0 <= col < g.cols then b[row := b[row][col := piece]] else b
  }

  /** ChessBoard. */
  class ChessBoard {
    const geometry: Geometry
    const lightColor: Rgb
    const darkColor: Rgb
    var board: seq<seq<Cell>>
    var highlight: Option<(int, int)>

    /** The grid always has `rows` rows of `cols` cells. */
    ghost predicate Valid()
      reads this
    {
      Shaped(board, geometry)
    }

    /** ChessBoard(...) and create_chessboard(...) (UI/chessboard.py:38-58, 157-160). */
    constructor (rows: int := ROWS, cols: int := COLS, squareSize: int := SQUARE_SIZE, margin: int := MARGIN,
                 lightColor: Rgb := LIGHT_COLOR, darkColor: Rgb := DARK_COLOR)
      ensures geometry == Geometry(rows, cols, squareSize, margin)
      ensures this.lightColor == lightColor && this.darkColor == darkColor
      ensures board == EmptyGrid(rows, cols) && highlight == None
      ensures Valid()
    {
      geometry := Geometry(rows, cols, squareSize, margin);
      this.lightColor := lightColor;
      this.darkColor := darkColor;
      board := EmptyGrid(rows, cols);
      highlight := None;
    }

    /** set_piece(row, col, piece): writes the one cell when it is on the board. */
    method SetPiece(row: int, col: int, piece: Cell)
      requires Valid()
      modifies this
      ensures Valid() && highlight == old(highlight)
      ensures board == Written(old(board), geometry, row, col, piece)
    {
      if 0 <= row < geometry.rows && 0 <= col < geometry.cols {
        board := board[row := board[row][col := piece]];
      }
    }

    /** clear(). */
    method Clear()
      modifies this
      ensures board == EmptyGrid(geometry.rows, geometry.cols) && highlight == old(highlight)
      ensures Valid()
    {
      board := EmptyGrid(geometry.rows, geometry.cols);
    }
  }
}
