/*
 * Move ordering (move_ordering.py): each move gets an integer priority
 * (victim value for captures, a promotion bonus, a check bonus found by
 * pushing and popping the move), then the moves are stably sorted by
 * decreasing priority, as Python's sorted(..., key=score, reverse=True) does.
 */
module MoveOrdering {
  import opened ChessTypes
  import opened RulesEngine

  const CAPTURE_WEIGHT := 10
  const PROMOTION_BONUS := 900
  const CHECK_BONUS := 50

  /** 10 x the captured piece's type number, when a piece stands on the target square. */
  function CaptureBonus(R: Rules, h: History, m: Move): int {
    if R.isCapture(h, m) then
      match R.placement(h)[m.to]
      case Some(victim) => CAPTURE_WEIGHT * victim.kind.Index()
      case None => 0   // en passant: the captured pawn is not on to_square
    else 0
  }

  /** The priority the inner `score` computes for `m`. */
  function MoveScore(R: Rules, h: History, m: Move): (s: int)
    ensures 0 <= s <= 1010
  {
    CaptureBonus(R, h, m)
      + (if m.promotion.Some? then PROMOTION_BONUS else 0)
      + (if R.isCheck(h + [m]) then CHECK_BONUS else 0)
  }

  /** An en passant capture (nothing on the target square) earns no capture bonus. */
  lemma EnPassantEarnsNothing(R: Rules, h: History, m: Move)
    requires R.placement(h)[m.to].None?
    ensures MoveScore(R, h, m) == (if m.promotion.Some? then 900 else 0)
                                 + (if R.isCheck(h + [m]) then 50 else 0)
  {
  }

  /** A capture of a piece on the target square scores 10, 20, .., 60 on top of the rest. */
  lemma CaptureScore(R: Rules, h: History, m: Move, victim: Piece)
    requires R.isCapture(h, m) && R.placement(h)[m.to] == Some(victim)
    ensures MoveScore(R, h, m) == 10 * victim.kind.Index()
                                 + (if m.promotion.Some? then 900 else 0)
                                 + (if R.isCheck(h + [m]) then 50 else 0)
  {
  }

  /** score(move) (move_ordering.py:4-23): push, test for check, pop. */
  method ScoreMove(board: Board, m: Move) returns (s: int)
    modifies board
    ensures board.history == old(board.history)
    ensures s == MoveScore(board.rules, old(board.history), m)
  {
    s := 0;
    if board.IsCapture(m) {
      var captured := board.PlacementNow()[m.to];
      if captured.Some? {
        s := s + CAPTURE_WEIGHT * captured.value.kind.Index();
      }
    }
    if m.promotion.Some? {
      s := s + PROMOTION_BONUS;
    }
    board.Push(m);
    if board.IsCheck() {
      s := s + CHECK_BONUS;
    }
    var _ := board.Pop();
  }

  // ---------------------------------------------------------------------
  // The stable sort, on (move, score) pairs
  // ---------------------------------------------------------------------

  type Scored = (Move, int)

  ghost predicate NonIncreasing(s: seq<Scored>) {
    forall i, j :: 0 <= i < j < |s| ==> s[i].1 >= s[j].1
  }

  /** The pairs of `s` whose score is `k`, in their order in `s`. */
  function WithScore(s: seq<Scored>, k: int): seq<Scored> {
    if s == [] then []
    else (if s[0].1 == k then [s[0]] else []) + WithScore(s[1..], k)
  }

  function Moves(s: seq<Scored>): (ms: seq<Move>)
    ensures |ms| == |s|
  {
    if s == [] then [] else [s[0].0] + Moves(s[1..])
  }

  lemma {:induction false} MovesAt(s: seq<Scored>, i: int)
    requires 0 <= i < |s|
    ensures Moves(s)[i] == s[i].0
  {
    if i > 0 {
      MovesAt(s[1..], i - 1);
    }
  }

  /** Putting `a` in front of a non-increasing sequence headed by a pair of no larger score. */
  lemma ConsNonIncreasing(a: Scored, s: seq<Scored>)
    requires NonIncreasing(s)
    requires s == [] || a.1 >= s[0].1
    ensures NonIncreasing([a] + s)
  {
    forall i, j | 0 <= i < j < |[a] + s| ensures ([a] + s)[i].1 >= ([a] + s)[j].1 {
      if i > 0 {
        assert ([a] + s)[i] == s[i - 1];
      } else if j > 1 {
        assert s[0].1 >= s[j - 1].1;
      }
    }
  }

  lemma TailNonIncreasing(s: seq<Scored>)
    requires NonIncreasing(s) && s != []
    ensures NonIncreasing(s[1..])
    ensures |s| > 1 ==> s[0].1 >= s[1].1
  {
    forall i, j | 0 <= i < j < |s[1..]| ensures s[1..][i].1 >= s[1..][j].1 {
      assert s[1..][i] == s[i + 1] && s[1..][j] == s[j + 1];
    }
  }

  /** Place `x` in front of the first pair of `t` whose score is not larger. */
  function Insert(x: Scored, t: seq<Scored>): (r: seq<Scored>)
    requires NonIncreasing(t)
    ensures |r| == |t| + 1
    ensures r[0] == x || (t != [] && r[0] == t[0])
    ensures multiset(r) == multiset(t) + multiset{x}
    ensures NonIncreasing(r)
  {
    if t == [] || x.1 >= t[0].1 then
      ConsNonIncreasing(x, t);
      [x] + t
    else
      TailNonIncreasing(t);
      var rest := Insert(x, t[1..]);
      assert t == [t[0]] + t[1..];
      assert multiset(t) == multiset{t[0]} + multiset(t[1..]);
      ConsNonIncreasing(t[0], rest);
      [t[0]] + rest
  }

  /** sorted(pairs, key=score, reverse=True), written as an insertion sort. */
  function SortByScore(xs: seq<Scored>): (ys: seq<Scored>)
    ensures |ys| == |xs|
    ensures multiset(ys) == multiset(xs)
    ensures NonIncreasing(ys)
  {
    if xs == [] then []
    else
      assert xs == [xs[0]] + xs[1..];
      Insert(xs[0], SortByScore(xs[1..]))
  }

  lemma WithScoreCons(x: Scored, s: seq<Scored>, k: int)
    ensures WithScore([x] + s, k) == (if x.1 == k then [x] else []) + WithScore(s, k)
  {
    assert ([x] + s)[1..] == s;
  }

  lemma MovesCons(x: Scored, s: seq<Scored>)
    ensures Moves([x] + s) == [x.0] + Moves(s)
  {
    assert ([x] + s)[1..] == s;
  }

  /** Inserting keeps `x` ahead of every pair of equal score already in `t`. */
  lemma {:induction false} InsertIsStable(x: Scored, t: seq<Scored>, k: int)
    requires NonIncreasing(t)
    ensures WithScore(Insert(x, t), k) == WithScore([x] + t, k)
    decreases |t|
  {
    if !(t == [] || x.1 >= t[0].1) {
      var rest := Insert(x, t[1..]);
      InsertIsStable(x, t[1..], k);
      assert t == [t[0]] + t[1..];
      WithScoreCons(t[0], rest, k);
      WithScoreCons(x, t[1..], k);
      WithScoreCons(x, t, k);
      WithScoreCons(t[0], t[1..], k);
    }
  }

  /** Sorting keeps, for every score, the pairs of that score in their input order. */
  lemma {:induction false} SortIsStable(xs: seq<Scored>, k: int)
    ensures WithScore(SortByScore(xs), k) == WithScore(xs, k)
    decreases |xs|
  {
    if xs != [] {
      var rest := SortByScore(xs[1..]);
      SortIsStable(xs[1..], k);
      InsertIsStable(xs[0], rest, k);
      WithScoreCons(xs[0], rest, k);
      assert xs == [xs[0]] + xs[1..];
      WithScoreCons(xs[0], xs[1..], k);
    }
  }

  lemma {:induction false} InsertKeepsMoves(x: Scored, t: seq<Scored>)
    requires NonIncreasing(t)
    ensures multiset(Moves(Insert(x, t))) == multiset(Moves(t)) + multiset{x.0}
    decreases |t|
  {
    if t == [] || x.1 >= t[0].1 {
      MovesCons(x, t);
    } else {
      TailNonIncreasing(t);
      var rest := Insert(x, t[1..]);
      InsertKeepsMoves(x, t[1..]);
      MovesCons(t[0], rest);
      assert Insert(x, t) == [t[0]] + rest;
      assert multiset(Moves(Insert(x, t))) == multiset{t[0].0} + multiset(Moves(rest));
    }
  }

  lemma {:induction false} SortKeepsMoves(xs: seq<Scored>)
    ensures multiset(Moves(SortByScore(xs))) == multiset(Moves(xs))
    decreases |xs|
  {
    if xs != [] {
      var rest := SortByScore(xs[1..]);
      SortKeepsMoves(xs[1..]);
      InsertKeepsMoves(xs[0], rest);
      calc {
        multiset(Moves(SortByScore(xs)));
        multiset(Moves(Insert(xs[0], rest)));
        multiset(Moves(rest)) + multiset{xs[0].0};
        multiset(Moves(xs[1..])) + multiset{xs[0].0};
        multiset([xs[0].0] + Moves(xs[1..]));
        multiset(Moves(xs));
      }
    }
  }

  /** The moves paired with the score of each. */
  function ScoreAll(R: Rules, h: History, moves: seq<Move>): (s: seq<Scored>)
    ensures |s| == |moves|
    ensures forall i :: 0 <= i < |moves| ==> s[i] == (moves[i], MoveScore(R, h, moves[i]))
  {
    if moves == [] then [] else [(moves[0], MoveScore(R, h, moves[0]))] + ScoreAll(R, h, moves[1..])
  }

  /** What order_moves(board, moves) returns. */
  function Ordered(R: Rules, h: History, moves: seq<Move>): seq<Move> {
    Moves(SortByScore(ScoreAll(R, h, moves)))
  }

  /** The moves scoring `k`, in their order in `ms`. */
  function MovesScoring(R: Rules, h: History, ms: seq<Move>, k: int): seq<Move> {
    if ms == [] then []
    else (if MoveScore(R, h, ms[0]) == k then [ms[0]] else []) + MovesScoring(R, h, ms[1..], k)
  }

  /** Every pair carries the score of its move. */
  ghost predicate Consistent(R: Rules, h: History, s: seq<Scored>) {
    forall i :: 0 <= i < |s| ==> s[i].1 == MoveScore(R, h, s[i].0)
  }

  lemma {:induction false} WithScoreMoves(R: Rules, h: History, s: seq<Scored>, k: int)
    requires Consistent(R, h, s)
    ensures Moves(WithScore(s, k)) == MovesScoring(R, h, Moves(s), k)
  {
    if s != [] {
      var tail := WithScore(s[1..], k);
      assert Consistent(R, h, s[1..]) by {
        forall i | 0 <= i < |s[1..]| ensures s[1..][i].1 == MoveScore(R, h, s[1..][i].0) {
          assert s[1..][i] == s[i + 1];
        }
      }
      WithScoreMoves(R, h, s[1..], k);
      assert Moves(s)[0] == s[0].0 && Moves(s)[1..] == Moves(s[1..]);
      if s[0].1 == k {
        MovesCons(s[0], tail);
      } else {
        assert WithScore(s, k) == tail;
      }
    }
  }

  lemma SortedIsConsistent(R: Rules, h: History, moves: seq<Move>)
    ensures Consistent(R, h, SortByScore(ScoreAll(R, h, moves)))
  {
    var xs := ScoreAll(R, h, moves);
    var ys := SortByScore(xs);
    forall i | 0 <= i < |ys|
      ensures ys[i].1 == MoveScore(R, h, ys[i].0)
    {
      assert ys[i] in multiset(ys);
      assert ys[i] in xs;
    }
  }

  lemma {:induction false} MovesOfScoreAll(R: Rules, h: History, moves: seq<Move>)
    ensures Moves(ScoreAll(R, h, moves)) == moves
  {
    if moves != [] {
      MovesOfScoreAll(R, h, moves[1..]);
      MovesCons((moves[0], MoveScore(R, h, moves[0])), ScoreAll(R, h, moves[1..]));
      assert moves == [moves[0]] + moves[1..];
    }
  }

  /** order_moves drops no move and adds none. */
  lemma OrderedIsPermutation(R: Rules, h: History, moves: seq<Move>)
    ensures multiset(Ordered(R, h, moves)) == multiset(moves)
  {
    SortKeepsMoves(ScoreAll(R, h, moves));
    MovesOfScoreAll(R, h, moves);
  }

  /** The priorities do not increase along the ordered moves. */
  lemma OrderedByScore(R: Rules, h: History, moves: seq<Move>)
    ensures |Ordered(R, h, moves)| == |moves|
    ensures forall i, j :: 0 <= i < j < |moves| ==>
              MoveScore(R, h, Ordered(R, h, moves)[i]) >= MoveScore(R, h, Ordered(R, h, moves)[j])
  {
    var ys := SortByScore(ScoreAll(R, h, moves));
    SortedIsConsistent(R, h, moves);
    forall i, j | 0 <= i < j < |moves|
      ensures MoveScore(R, h, Ordered(R, h, moves)[i]) >= MoveScore(R, h, Ordered(R, h, moves)[j])
    {
      MovesAt(ys, i);
      MovesAt(ys, j);
    }
  }

  /** Moves of equal priority keep their input order (Python's sort is stable). */
  lemma OrderedIsStable(R: Rules, h: History, moves: seq<Move>, k: int)
    ensures MovesScoring(R, h, Ordered(R, h, moves), k) == MovesScoring(R, h, moves, k)
  {
    var xs := ScoreAll(R, h, moves);
    var ys := SortByScore(xs);
    SortedIsConsistent(R, h, moves);
    SortIsStable(xs, k);
    WithScoreMoves(R, h, ys, k);
    WithScoreMoves(R, h, xs, k);
    MovesOfScoreAll(R, h, moves);
  }

  /** order_moves (move_ordering.py:3-25). */
  method OrderMoves(board: Board, moves: seq<Move>) returns (ordered: seq<Move>)
    modifies board
    ensures board.history == old(board.history)
    ensures ordered == Ordered(board.rules, old(board.history), moves)
  {
    var scored: seq<Scored> := [];
    for i := 0 to |moves|
      invariant board.history == old(board.history)
      invariant scored == ScoreAll(board.rules, board.history, moves[..i])
    {
      var s := ScoreMove(board, moves[i]);
      scored := scored + [(moves[i], s)];
    }
    assert moves[..|moves|] == moves;
    ordered := Moves(SortByScore(scored));
  }
}
