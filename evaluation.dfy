/*
 * The static evaluator (algorithms/evaluation.py): White-positive integer
 * score made of a material table and an undeveloped-knight penalty, with
 * fixed scores for checkmate and for dead draws.
 */
module Evaluation {
  import opened ChessTypes
  import opened RulesEngine

  const MATE_SCORE := 100000
  const KNIGHT_DEVELOPMENT_PENALTY := 40

  /** The keys of PIECE_VALUES in the order the material loop visits them. */
  const PIECE_ORDER: seq<PieceType> := [Pawn, Knight, Bishop, Rook, Queen, King]

  /** PIECE_VALUES. */
  function PieceValue(t: PieceType): int {
    match t
    case Pawn => 100
    case Knight => 320
    case Bishop => 330
    case Rook => 500
    case Queen => 900
    case King => 20000
  }

  function Ind(b: bool): nat { if b then 1 else 0 }

  /** How many entries of `s` hold `pc`. */
  function Count(s: seq<Option<Piece>>, pc: Piece): nat {
    if s == [] then 0 else Ind(s[0] == Some(pc)) + Count(s[1..], pc)
  }

  lemma {:induction false} CountConcat(a: seq<Option<Piece>>, b: seq<Option<Piece>>, pc: Piece)
    ensures Count(a + b, pc) == Count(a, pc) + Count(b, pc)
  {
    if a == [] {
      assert a + b == b;
    } else {
      assert (a + b)[1..] == a[1..] + b;
      CountConcat(a[1..], b, pc);
    }
  }

  lemma CountSlices(s: seq<Option<Piece>>, i: nat, j: nat, k: nat, pc: Piece)
    requires i <= j <= k <= |s|
    ensures Count(s[i..k], pc) == Count(s[i..j], pc) + Count(s[j..k], pc)
  {
    assert s[i..k] == s[i..j] + s[j..k];
    CountConcat(s[i..j], s[j..k], pc);
  }

  /** board.pieces(pc.kind, pc.color): the squares from `from` on that hold `pc`, ascending. */
  function SquaresOf(p: Placement, pc: Piece, from: nat): (sqs: seq<Square>)
    requires from <= 64
    decreases 64 - from
    ensures |sqs| == Count(p[from..], pc)
  {
    if from == 64 then []
    else
      var rest := SquaresOf(p, pc, from + 1);
      assert p[from..][1..] == p[from + 1..];
      if p[from] == Some(pc) then [from] + rest else rest
  }

  /** The list holds exactly the squares from `from` on where `pc` stands, in ascending order. */
  lemma {:induction false} SquaresOfMembers(p: Placement, pc: Piece, from: nat)
    requires from <= 64
    decreases 64 - from
    ensures forall sq: Square :: sq in SquaresOf(p, pc, from) <==> from <= sq && p[sq] == Some(pc)
    ensures forall i, j :: 0 <= i < j < |SquaresOf(p, pc, from)| ==>
              SquaresOf(p, pc, from)[i] < SquaresOf(p, pc, from)[j]
  {
    if from < 64 {
      SquaresOfMembers(p, pc, from + 1);
      var rest := SquaresOf(p, pc, from + 1);
      forall k | 0 <= k < |rest|
        ensures from < rest[k]
      {
        var sq: Square := rest[k];
        assert sq in rest;
      }
    }
  }

  /** The material term over the piece kinds `ts`; the loop adds them in order. */
  function MaterialOver(p: Placement, ts: seq<PieceType>): int {
    if ts == [] then 0
    else
      var t := ts[|ts| - 1];
      MaterialOver(p, ts[..|ts| - 1])
        + Count(p, Piece(t, White)) * PieceValue(t)
        - Count(p, Piece(t, Black)) * PieceValue(t)
  }

  function Material(p: Placement): int {
    MaterialOver(p, PIECE_ORDER)
  }

  /** -40 per white knight on b1 or g1, +40 per black knight on b8 or g8. */
  function KnightTerm(p: Placement): (k: int)
    ensures -2 * KNIGHT_DEVELOPMENT_PENALTY <= k <= 2 * KNIGHT_DEVELOPMENT_PENALTY
  {
    var wn, bn := Some(Piece(Knight, White)), Some(Piece(Knight, Black));
    - KNIGHT_DEVELOPMENT_PENALTY * (Ind(p[B1] == wn) + Ind(p[G1] == wn))
    + KNIGHT_DEVELOPMENT_PENALTY * (Ind(p[B8] == bn) + Ind(p[G8] == bn))
  }

  /** The score of a position that is neither mate nor a dead draw. */
  function PositionScore(p: Placement): int {
    Material(p) + KnightTerm(p)
  }

  /** What evaluate(board, ply) returns. */
  function EvaluationOf(R: Rules, h: History, ply: int := 0): int {
    if R.isCheckmate(h) then -MATE_SCORE + ply
    else if R.isStalemate(h) || R.isInsufficientMaterial(h) then 0
    else PositionScore(R.placement(h))
  }

  /** How many entries of `sqs` are `a` or `b`. */
  function HomeCount(sqs: seq<Square>, a: Square, b: Square): nat {
    if sqs == [] then 0
    else HomeCount(sqs[..|sqs| - 1], a, b) + Ind(sqs[|sqs| - 1] == a || sqs[|sqs| - 1] == b)
  }

  lemma {:induction false} HomeCountCons(x: Square, s: seq<Square>, a: Square, b: Square)
    ensures HomeCount([x] + s, a, b) == Ind(x == a || x == b) + HomeCount(s, a, b)
    decreases |s|
  {
    if s != [] {
      assert ([x] + s)[..|s|] == [x] + s[..|s| - 1];
      HomeCountCons(x, s[..|s| - 1], a, b);
    }
  }

  lemma HomeCountPrefix(s: seq<Square>, i: int, a: Square, b: Square)
    requires 0 <= i < |s|
    ensures HomeCount(s[..i + 1], a, b) == HomeCount(s[..i], a, b) + Ind(s[i] == a || s[i] == b)
  {
    assert s[..i + 1][..i] == s[..i];
  }

  /** Counting the knights of the square list on two home squares reads those two squares. */
  lemma {:induction false} HomeCountOfSquares(p: Placement, pc: Piece, from: nat, a: Square, b: Square)
    requires from <= 64 && a != b
    ensures HomeCount(SquaresOf(p, pc, from), a, b)
            == Ind(from <= a && p[a] == Some(pc)) + Ind(from <= b && p[b] == Some(pc))
    decreases 64 - from
  {
    if from < 64 {
      HomeCountOfSquares(p, pc, from + 1, a, b);
      if p[from] == Some(pc) {
        HomeCountCons(from, SquaresOf(p, pc, from + 1), a, b);
      }
    }
  }

  /** evaluate(board, ply=0) (algorithms/evaluation.py:17-42). */
  method Evaluate(board: Board, ply: int := 0) returns (score: int)
    ensures score == EvaluationOf(board.rules, board.history, ply)
  {
    if board.IsCheckmate() {
      return -MATE_SCORE + ply;
    }
    if board.IsStalemate() || board.IsInsufficientMaterial() {
      return 0;
    }
    var p := board.PlacementNow();
    score := MaterialLoop(p);
    score := WhiteKnightLoop(p, score);
    score := BlackKnightLoop(p, score);
  }

  /** The material loop of evaluate (algorithms/evaluation.py:26-29). */
  method MaterialLoop(p: Placement) returns (score: int)
    ensures score == Material(p)
  {
    score := 0;
    for i := 0 to |PIECE_ORDER|
      invariant score == MaterialOver(p, PIECE_ORDER[..i])
    {
      var t := PIECE_ORDER[i];
      var value := PieceValue(t);
      var whites, blacks := SquaresOf(p, Piece(t, White), 0), SquaresOf(p, Piece(t, Black), 0);
      score := score + |whites| * value;
      score := score - |blacks| * value;
      assert PIECE_ORDER[..i + 1][..i] == PIECE_ORDER[..i];
    }
    assert PIECE_ORDER[..|PIECE_ORDER|] == PIECE_ORDER;
  }

  /** The white-knight loop of evaluate (algorithms/evaluation.py:31-35): 40 off per
      white knight still on b1 or g1. */
  method WhiteKnightLoop(p: Placement, score0: int) returns (score: int)
    ensures score == score0 - KNIGHT_DEVELOPMENT_PENALTY
                     * (Ind(p[B1] == Some(Piece(Knight, White))) + Ind(p[G1] == Some(Piece(Knight, White))))
  {
    score := score0;
    var knights := SquaresOf(p, Piece(Knight, White), 0);
    for i := 0 to |knights|
      invariant score == score0 - KNIGHT_DEVELOPMENT_PENALTY * HomeCount(knights[..i], B1, G1)
    {
      if knights[i] == B1 || knights[i] == G1 {
        score := score - KNIGHT_DEVELOPMENT_PENALTY;
      }
      HomeCountPrefix(knights, i, B1, G1);
    }
    assert knights[..|knights|] == knights;
    HomeCountOfSquares(p, Piece(Knight, White), 0, B1, G1);
  }

  /** The black-knight loop of evaluate (algorithms/evaluation.py:37-40): 40 on per
      black knight still on b8 or g8. */
  method BlackKnightLoop(p: Placement, score0: int) returns (score: int)
    ensures score == score0 + KNIGHT_DEVELOPMENT_PENALTY
                     * (Ind(p[B8] == Some(Piece(Knight, Black))) + Ind(p[G8] == Some(Piece(Knight, Black))))
  {
    score := score0;
    var knights := SquaresOf(p, Piece(Knight, Black), 0);
    for i := 0 to |knights|
      invariant score == score0 + KNIGHT_DEVELOPMENT_PENALTY * HomeCount(knights[..i], B8, G8)
    {
      if knights[i] == B8 || knights[i] == G8 {
        score := score + KNIGHT_DEVELOPMENT_PENALTY;
      }
      HomeCountPrefix(knights, i, B8, G8);
    }
    assert knights[..|knights|] == knights;
    HomeCountOfSquares(p, Piece(Knight, Black), 0, B8, G8);
  }

  // ---------------------------------------------------------------------
  // Properties of the score
  // ---------------------------------------------------------------------

  lemma CheckmateScore(R: Rules, h: History, ply: int)
    requires R.isCheckmate(h)
    ensures EvaluationOf(R, h, ply) == -100000 + ply
  {
  }

  lemma DrawScore(R: Rules, h: History, ply: int)
    requires !R.isCheckmate(h) && (R.isStalemate(h) || R.isInsufficientMaterial(h))
    ensures EvaluationOf(R, h, ply) == 0
  {
  }

  /** ply changes only the checkmate score: a mate found at a deeper ply scores higher. */
  lemma PlyOnlyMatters(R: Rules, h: History, ply1: int, ply2: int)
    ensures !R.isCheckmate(h) ==> EvaluationOf(R, h, ply1) == EvaluationOf(R, h, ply2)
    ensures R.isCheckmate(h) && ply1 < ply2 ==> EvaluationOf(R, h, ply1) < EvaluationOf(R, h, ply2)
  {
  }

  /** The material term written out with the table's values. */
  lemma MaterialTable(p: Placement)
    ensures Material(p) ==
        100 * (Count(p, Piece(Pawn, White)) - Count(p, Piece(Pawn, Black)))
      + 320 * (Count(p, Piece(Knight, White)) - Count(p, Piece(Knight, Black)))
      + 330 * (Count(p, Piece(Bishop, White)) - Count(p, Piece(Bishop, Black)))
      + 500 * (Count(p, Piece(Rook, White)) - Count(p, Piece(Rook, Black)))
      + 900 * (Count(p, Piece(Queen, White)) - Count(p, Piece(Queen, Black)))
      + 20000 * (Count(p, Piece(King, White)) - Count(p, Piece(King, Black)))
  {
    var W := (t: PieceType) => Count(p, Piece(t, White));
    var B := (t: PieceType) => Count(p, Piece(t, Black));
    assert [Pawn][..0] == [];
    assert MaterialOver(p, [Pawn]) == 100 * (W(Pawn) - B(Pawn));
    assert [Pawn, Knight][..1] == [Pawn];
    assert MaterialOver(p, [Pawn, Knight]) == MaterialOver(p, [Pawn]) + 320 * (W(Knight) - B(Knight));
    assert [Pawn, Knight, Bishop][..2] == [Pawn, Knight];
    assert MaterialOver(p, [Pawn, Knight, Bishop])
        == MaterialOver(p, [Pawn, Knight]) + 330 * (W(Bishop) - B(Bishop));
    assert [Pawn, Knight, Bishop, Rook][..3] == [Pawn, Knight, Bishop];
    assert MaterialOver(p, [Pawn, Knight, Bishop, Rook])
        == MaterialOver(p, [Pawn, Knight, Bishop]) + 500 * (W(Rook) - B(Rook));
    assert [Pawn, Knight, Bishop, Rook, Queen][..4] == [Pawn, Knight, Bishop, Rook];
    assert MaterialOver(p, [Pawn, Knight, Bishop, Rook, Queen])
        == MaterialOver(p, [Pawn, Knight, Bishop, Rook]) + 900 * (W(Queen) - B(Queen));
    assert PIECE_ORDER[..5] == [Pawn, Knight, Bishop, Rook, Queen];
    assert MaterialOver(p, PIECE_ORDER)
        == MaterialOver(p, [Pawn, Knight, Bishop, Rook, Queen]) + 20000 * (W(King) - B(King));
  }

  // ---------------------------------------------------------------------
  // Colour symmetry: swap the colours and mirror the ranks
  // ---------------------------------------------------------------------

  function SwapColor(x: Option<Piece>): Option<Piece> {
    match x
    case None => None
    case Some(pc) => Some(Piece(pc.kind, pc.color.Opponent()))
  }

  function SwapAll(s: seq<Option<Piece>>): (r: seq<Option<Piece>>)
    ensures |r| == |s|
    ensures forall i :: 0 <= i < |s| ==> r[i] == SwapColor(s[i])
  {
    if s == [] then [] else [SwapColor(s[0])] + SwapAll(s[1..])
  }

  /** The position seen from the other side: rank k becomes rank 7 - k, colours swapped. */
  function Mirror(p: Placement): Placement {
    SwapAll(p[56..64]) + SwapAll(p[48..56]) + SwapAll(p[40..48]) + SwapAll(p[32..40])
      + SwapAll(p[24..32]) + SwapAll(p[16..24]) + SwapAll(p[8..16]) + SwapAll(p[0..8])
  }

  lemma {:induction false} CountSwap(s: seq<Option<Piece>>, pc: Piece)
    ensures Count(SwapAll(s), pc) == Count(s, Piece(pc.kind, pc.color.Opponent()))
  {
    if s != [] {
      assert SwapAll(s)[1..] == SwapAll(s[1..]);
      CountSwap(s[1..], pc);
    }
  }

  /** A count read rank by rank. */
  lemma CountByRanks(p: Placement, pc: Piece)
    ensures Count(p, pc) ==
      Count(p[0..8], pc) + Count(p[8..16], pc) + Count(p[16..24], pc) + Count(p[24..32], pc)
      + Count(p[32..40], pc) + Count(p[40..48], pc) + Count(p[48..56], pc) + Count(p[56..64], pc)
  {
    assert p[0..64] == p;
    CountSlices(p, 0, 8, 64, pc);
    CountSlices(p, 8, 16, 64, pc);
    CountSlices(p, 16, 24, 64, pc);
    CountSlices(p, 24, 32, 64, pc);
    CountSlices(p, 32, 40, 64, pc);
    CountSlices(p, 40, 48, 64, pc);
    CountSlices(p, 48, 56, 64, pc);
  }

  /** Mirroring turns every `pc` into a piece of the other colour, and nothing else. */
  lemma CountMirror(p: Placement, pc: Piece)
    ensures Count(Mirror(p), pc) == Count(p, Piece(pc.kind, pc.color.Opponent()))
  {
    var q := Piece(pc.kind, pc.color.Opponent());
    var r0, r1, r2, r3 := SwapAll(p[56..64]), SwapAll(p[48..56]), SwapAll(p[40..48]), SwapAll(p[32..40]);
    var r4, r5, r6, r7 := SwapAll(p[24..32]), SwapAll(p[16..24]), SwapAll(p[8..16]), SwapAll(p[0..8]);
    CountConcat(r0, r1, pc);
    CountConcat(r0 + r1, r2, pc);
    CountConcat(r0 + r1 + r2, r3, pc);
    CountConcat(r0 + r1 + r2 + r3, r4, pc);
    CountConcat(r0 + r1 + r2 + r3 + r4, r5, pc);
    CountConcat(r0 + r1 + r2 + r3 + r4 + r5, r6, pc);
    CountConcat(r0 + r1 + r2 + r3 + r4 + r5 + r6, r7, pc);
    CountSwap(p[56..64], pc);
    CountSwap(p[48..56], pc);
    CountSwap(p[40..48], pc);
    CountSwap(p[32..40], pc);
    CountSwap(p[24..32], pc);
    CountSwap(p[16..24], pc);
    CountSwap(p[8..16], pc);
    CountSwap(p[0..8], pc);
    CountByRanks(p, q);
  }

  lemma {:induction false} MaterialOverMirror(p: Placement, ts: seq<PieceType>)
    ensures MaterialOver(Mirror(p), ts) == -MaterialOver(p, ts)
  {
    if ts != [] {
      var t := ts[|ts| - 1];
      MaterialOverMirror(p, ts[..|ts| - 1]);
      CountMirror(p, Piece(t, White));
      CountMirror(p, Piece(t, Black));
    }
  }

  lemma KnightTermMirror(p: Placement)
    ensures KnightTerm(Mirror(p)) == -KnightTerm(p)
  {
    var m := Mirror(p);
    assert m[B1] == SwapColor(p[B8]);
    assert m[G1] == SwapColor(p[G8]);
    assert m[B8] == SwapColor(p[B1]);
    assert m[G8] == SwapColor(p[G1]);
  }

  /** Swapping colours and mirroring ranks negates the score of a non-terminal position. */
  lemma PositionScoreMirror(p: Placement)
    ensures PositionScore(Mirror(p)) == -PositionScore(p)
  {
    MaterialOverMirror(p, PIECE_ORDER);
    KnightTermMirror(p);
  }

  // ---------------------------------------------------------------------
  // The standard starting position
  // ---------------------------------------------------------------------

  const BACK_RANK: seq<PieceType> := [Rook, Knight, Bishop, Queen, King, Bishop, Knight, Rook]

  function BackRank(c: Color): (r: seq<Option<Piece>>)
    ensures |r| == 8
  {
    seq(8, i requires 0 <= i < 8 => Some(Piece(BACK_RANK[i], c)))
  }

  function PawnRank(c: Color): (r: seq<Option<Piece>>)
    ensures |r| == 8
  {
    seq(8, _ => Some(Piece(Pawn, c)))
  }

  function EmptyRank(): (r: seq<Option<Piece>>)
    ensures |r| == 8
  {
    seq(8, _ => None)
  }

  function StartPlacement(): Placement {
    BackRank(White) + PawnRank(White) + EmptyRank() + EmptyRank()
      + EmptyRank() + EmptyRank() + PawnRank(Black) + BackRank(Black)
  }

  lemma StartRanks()
    ensures var s := StartPlacement();
      && s[56..64] == BackRank(Black) && s[48..56] == PawnRank(Black)
      && s[40..48] == EmptyRank() && s[32..40] == EmptyRank()
      && s[24..32] == EmptyRank() && s[16..24] == EmptyRank()
      && s[8..16] == PawnRank(White) && s[0..8] == BackRank(White)
  {
    var s := StartPlacement();
    assert s[56..64] == BackRank(Black);
    assert s[48..56] == PawnRank(Black);
    assert s[40..48] == EmptyRank();
    assert s[32..40] == EmptyRank();
    assert s[24..32] == EmptyRank();
    assert s[16..24] == EmptyRank();
    assert s[8..16] == PawnRank(White);
  }

  lemma SwapRanks(c: Color)
    ensures SwapAll(BackRank(c)) == BackRank(c.Opponent())
    ensures SwapAll(PawnRank(c)) == PawnRank(c.Opponent())
    ensures SwapAll(EmptyRank()) == EmptyRank()
  {
  }

  lemma StartIsSymmetric()
    ensures Mirror(StartPlacement()) == StartPlacement()
  {
    StartRanks();
    SwapRanks(White);
    SwapRanks(Black);
  }

  /** A position that is its own mirror image scores 0. */
  lemma SymmetricScoresZero(p: Placement)
    requires Mirror(p) == p
    ensures PositionScore(p) == 0 && KnightTerm(p) == 0
  {
    PositionScoreMirror(p);
    KnightTermMirror(p);
  }

  /** The starting position scores 0: material cancels and so do the two knight terms. */
  lemma StartScoresZero()
    ensures PositionScore(StartPlacement()) == 0
    ensures KnightTerm(StartPlacement()) == 0
  {
    StartIsSymmetric();
    SymmetricScoresZero(StartPlacement());
  }
}
