/*
 * The game-rules engine the search core consumes (python-chess and the
 * move-generation helper). It is not re-implemented: every query is an
 * arbitrary total function of the move history, and `WellFormed` names the
 * facts about those functions that the search relies on.
 */
module RulesEngine {
  import opened ChessTypes

  datatype Rules = Rules(
    legalMoves: History -> seq<Move>,        // board.legal_moves / generate_legal_moves
    isCheck: History -> bool,
    isCheckmate: History -> bool,
    isStalemate: History -> bool,
    isInsufficientMaterial: History -> bool,
    isGameOver: History -> bool,
    isRepetition2: History -> bool,          // board.is_repetition(2)
    isCapture: (History, Move) -> bool,
    placement: History -> Placement,         // piece_at / pieces / piece_map
    fen: History -> string,
    fromUci: string -> Option<Move>          // chess.Move.from_uci; None where it raises
  )

  /** The rules engine keeps its side of the contract: a position that is not
      over has a legal move, a legal capture removes a piece, and two histories
      with the same FEN have the same legal moves (FEN records the position). */
  ghost predicate WellFormed(R: Rules) {
    && (forall h :: !R.isGameOver(h) ==> |R.legalMoves(h)| > 0)
    && (forall h, m :: m in R.legalMoves(h) && R.isCapture(h, m) ==>
          Occupied(R.placement(h + [m])) < Occupied(R.placement(h)))
    && (forall h1, h2 :: R.fen(h1) == R.fen(h2) ==> R.legalMoves(h1) == R.legalMoves(h2))
  }

  /** A chess.Board: the rules plus the move stack that push and pop edit in place. */
  class Board {
    const rules: Rules
    var history: History

    constructor (rules: Rules, history: History)
      ensures this.rules == rules && this.history == history
    {
      this.rules := rules;
      this.history := history;
    }

    method Push(m: Move)
      modifies this
      ensures history == old(history) + [m]
    {
      history := history + [m];
    }

    method Pop() returns (m: Move)
      requires history != []
      modifies this
      ensures history == old(history)[..|old(history)| - 1]
      ensures m == old(history)[|old(history)| - 1]
    {
      m := history[|history| - 1];
      history := history[..|history| - 1];
    }

    function LegalMoves(): seq<Move> reads this { rules.legalMoves(history) }
    function IsCheck(): bool reads this { rules.isCheck(history) }
    function IsCheckmate(): bool reads this { rules.isCheckmate(history) }
    function IsStalemate(): bool reads this { rules.isStalemate(history) }
    function IsInsufficientMaterial(): bool reads this { rules.isInsufficientMaterial(history) }
    function IsGameOver(): bool reads this { rules.isGameOver(history) }
    function IsRepetition2(): bool reads this { rules.isRepetition2(history) }
    function IsCapture(m: Move): bool reads this { rules.isCapture(history, m) }
    function PlacementNow(): Placement reads this { rules.placement(history) }
    function Fen(): string reads this { rules.fen(history) }
  }
}
