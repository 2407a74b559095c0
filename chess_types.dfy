/*
 * Values shared by the search core and the UI: piece kinds, colours, squares,
 * moves and a 64-square piece placement, numbered the way python-chess numbers
 * them (a1 = 0, b1 = 1, ..., h1 = 7, a2 = 8, ..., h8 = 63).
 */
module ChessTypes {

  datatype Option<+T> = None | Some(value: T)

  /** The six piece kinds; `Index` is python-chess's numbering (PAWN = 1 .. KING = 6). */
  datatype PieceType = Pawn | Knight | Bishop | Rook | Queen | King {
    function Index(): (n: int)
      ensures 1 <= n <= 6
    {
      match this
      case Pawn => 1
      case Knight => 2
      case Bishop => 3
      case Rook => 4
      case Queen => 5
      case King => 6
    }
  }

  datatype Color = White | Black {
    function Opponent(): Color {
      if White? then Black else White
    }
  }

  datatype Piece = Piece(kind: PieceType, color: Color)

  type Square = s: int | 0 <= s < 64

  function FileOf(s: Square): int { s % 8 }
  function RankOf(s: Square): int { s / 8 }

  const B1: Square := 1
  const G1: Square := 6
  const B8: Square := 57
  const G8: Square := 62

  /** A move of python-chess: from-square, to-square and an optional promotion piece. */
  datatype Move = Move(from: Square, to: Square, promotion: Option<PieceType>)

  /** The move stack of a game; the rules engine derives everything else from it. */
  type History = seq<Move>

  /** What stands on each of the 64 squares (python-chess `piece_at`). */
  type Placement = p: seq<Option<Piece>> | |p| == 64 witness seq(64, _ => None)

  /** The number of occupied squares of a placement. */
  function Occupied(s: seq<Option<Piece>>): nat {
    if s == [] then 0 else (if s[0].Some? then 1 else 0) + Occupied(s[1..])
  }
}
