/*
 * The piece-glyph table of the UI (UI/pieces.py): piece name -> colour key ->
 * one Unicode chess glyph. The table gives the black pieces the outline glyphs
 * U+2654..U+2659 and the white pieces the solid glyphs U+265A..U+265F.
 */
module Pieces {
  import opened ChessTypes

  const KING := "king"
  const QUEEN := "queen"
  const ROOK := "rook"
  const BISHOP := "bishop"
  const KNIGHT := "knight"
  const PAWN := "pawn"

  const WHITE_KEY := "white"
  const BLACK_KEY := "black"

  /** The default `fallback` of `get`. */
  const FALLBACK := "?"

  /** PIECES (UI/pieces.py:9-16). */
  const PIECES: map<string, map<string, string>> := map[
    KING   := map[BLACK_KEY := "\U{2654}", WHITE_KEY := "\U{265A}"],
    QUEEN  := map[BLACK_KEY := "\U{2655}", WHITE_KEY := "\U{265B}"],
    ROOK   := map[BLACK_KEY := "\U{2656}", WHITE_KEY := "\U{265C}"],
    BISHOP := map[BLACK_KEY := "\U{2657}", WHITE_KEY := "\U{265D}"],
    KNIGHT := map[BLACK_KEY := "\U{2658}", WHITE_KEY := "\U{265E}"],
    PAWN   := map[BLACK_KEY := "\U{2659}", WHITE_KEY := "\U{265F}"]
  ]

  /** Both keys are in the table. */
  predicate Known(name: string, color: string) {
    name in PIECES && color in PIECES[name]
  }

  /** get(piece_name, color, fallback): the table entry, or `fallback` when either
      lookup fails; the lookup never fails outright. */
  function Get(name: string, color: string, fallback: string := FALLBACK): (g: string)
    ensures Known(name, color) ==> g == PIECES[name][color]
    ensures !Known(name, color) ==> g == fallback
  {
    if Known(name, color) then PIECES[name][color] else fallback
  }

  /** The piece a glyph stands for: the inverse of the table. */
  function PieceOfGlyph(g: string): (r: Option<(string, string)>)
    ensures r.Some? ==> Known(r.value.0, r.value.1)
  {
    if |g| != 1 || !('\U{2654}' <= g[0] <= '\U{265F}') then None
    else
      var n := g[0] as int - 0x2654;
      var color := if n < 6 then BLACK_KEY else WHITE_KEY;
      var name := [KING, QUEEN, ROOK, BISHOP, KNIGHT, PAWN][n % 6];
      Some((name, color))
  }

  /** Every glyph of the table is a single character from the chess block, so no
      entry equals the fallback, and the glyph determines the piece and colour. */
  lemma GlyphRoundTrip(name: string, color: string)
    requires Known(name, color)
    ensures |Get(name, color)| == 1 && Get(name, color) != FALLBACK
    ensures PieceOfGlyph(Get(name, color)) == Some((name, color))
  {
    var g := Get(name, color);
    assert name in {KING, QUEEN, ROOK, BISHOP, KNIGHT, PAWN};
    assert color in {WHITE_KEY, BLACK_KEY};
  }

  /** Different table entries have different glyphs. */
  lemma GlyphsDistinct(n1: string, c1: string, n2: string, c2: string)
    requires Known(n1, c1) && Known(n2, c2) && (n1, c1) != (n2, c2)
    ensures Get(n1, c1) != Get(n2, c2)
  {
    GlyphRoundTrip(n1, c1);
    GlyphRoundTrip(n2, c2);
  }

  /** Python's ordering of strings: lexicographic by code point. */
  predicate Below(a: string, b: string) {
    if a == [] then b != []
    else if b == [] then false
    else a[0] < b[0] || (a[0] == b[0] && Below(a[1..], b[1..]))
  }

  predicate StrictlySorted(s: seq<string>) {
    forall i, j :: 0 <= i < j < |s| ==> Below(s[i], s[j])
  }

  /** available_pieces(): the table's piece names in sorted order, each once. */
  function AvailablePieces(): (r: seq<string>)
    ensures StrictlySorted(r)
    ensures |r| == |PIECES.Keys|
    ensures forall i :: 0 <= i < |r| ==> r[i] in PIECES
    ensures forall name :: name in PIECES ==> name in r
  {
    [BISHOP, KING, KNIGHT, PAWN, QUEEN, ROOK]
  }
}
