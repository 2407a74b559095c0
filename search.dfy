/*
 * The search (search.py): a capture-only quiescence search, a depth-limited
 * minimax with alpha-beta pruning, a transposition cache, a repetition
 * penalty and one check extension, and iterative deepening at the root.
 * Each searching method is proved equal to a pure function of the
 * position, the window and the state it threads (the cache and the deepest
 * ply reached); the properties of the search are lemmas about those
 * functions.
 */
module Search {
  import opened ChessTypes
  import opened RulesEngine
  import opened Evaluation
  import opened MoveOrdering
  import opened Transposition

  const REPETITION_PENALTY := 20
  const CHECK_EXTENSION := 1
  /** Stands for float('inf'): larger than any score the evaluator can give. */
  const INFINITY := 1_000_000_000_000
  /** The root window, -1e9 .. 1e9. */
  const ROOT_WINDOW := 1_000_000_000

  function Max(a: int, b: int): int { if a >= b then a else b }
  function Min(a: int, b: int): int { if a <= b then a else b }

  /** `x` forced into [lo, hi]. */
  function Clamp(x: int, lo: int, hi: int): int { Min(Max(x, lo), hi) }

  // ---------------------------------------------------------------------
  // Quiescence search
  // ---------------------------------------------------------------------

  /** What quiescence(board, alpha, beta, ply, maximizing) returns. */
  function QValue(R: Rules, h: History, alpha: int, beta: int, ply: int, maximizing: bool): int
    requires WellFormed(R)
    decreases Occupied(R.placement(h)), 1, 0
  {
    if R.isCheckmate(h) then -MATE_SCORE + ply
    else if R.isStalemate(h) then 0
    else
      var standPat := EvaluationOf(R, h, ply);
      if maximizing then
        if standPat >= beta then beta
        else QLoop(R, h, R.legalMoves(h), 0, Max(alpha, standPat), beta, ply, maximizing)
      else
        if standPat <= alpha then alpha
        else QLoop(R, h, R.legalMoves(h), 0, alpha, Min(beta, standPat), ply, maximizing)
  }

  /** The capture loop of quiescence, from the `i`-th legal move on. */
  function QLoop(R: Rules, h: History, moves: seq<Move>, i: nat, alpha: int, beta: int,
                 ply: int, maximizing: bool): int
    requires WellFormed(R) && moves == R.legalMoves(h) && i <= |moves|
    decreases Occupied(R.placement(h)), 0, |moves| - i
  {
    if i == |moves| then (if maximizing then alpha else beta)
    else if !R.isCapture(h, moves[i]) then QLoop(R, h, moves, i + 1, alpha, beta, ply, maximizing)
    else
      var score := QValue(R, h + [moves[i]], alpha, beta, ply + 1, !maximizing);
      if maximizing then
        if score >= beta then beta
        else QLoop(R, h, moves, i + 1, Max(alpha, score), beta, ply, maximizing)
      else
        if score <= alpha then alpha
        else QLoop(R, h, moves, i + 1, alpha, Min(beta, score), ply, maximizing)
  }

  /** With a window that is not inverted the capture loop answers inside it,
      no higher than where beta started and, for the maximizer, no lower than alpha
      (for the minimizer: no higher than beta, no lower than alpha). */
  lemma {:induction false} QLoopInWindow(R: Rules, h: History, moves: seq<Move>, i: nat,
                                         alpha: int, beta: int, ply: int, maximizing: bool)
    requires WellFormed(R) && moves == R.legalMoves(h) && i <= |moves|
    requires alpha <= beta
    ensures alpha <= QLoop(R, h, moves, i, alpha, beta, ply, maximizing) <= beta
    decreases |moves| - i
  {
    if i < |moves| {
      if !R.isCapture(h, moves[i]) {
        QLoopInWindow(R, h, moves, i + 1, alpha, beta, ply, maximizing);
      } else {
        var score := QValue(R, h + [moves[i]], alpha, beta, ply + 1, !maximizing);
        if maximizing && score < beta {
          QLoopInWindow(R, h, moves, i + 1, Max(alpha, score), beta, ply, maximizing);
        } else if !maximizing && score > alpha {
          QLoopInWindow(R, h, moves, i + 1, alpha, Min(beta, score), ply, maximizing);
        }
      }
    }
  }

  /** Quiescence answers inside the window, and the static score is a bound
      the side to move can always reach by standing pat (fail-hard). */
  lemma QValueInWindow(R: Rules, h: History, alpha: int, beta: int, ply: int, maximizing: bool)
    requires WellFormed(R) && alpha <= beta
    requires !R.isCheckmate(h) && !R.isStalemate(h)
    ensures alpha <= QValue(R, h, alpha, beta, ply, maximizing) <= beta
    ensures maximizing ==>
      QValue(R, h, alpha, beta, ply, maximizing) >= Clamp(EvaluationOf(R, h, ply), alpha, beta)
    ensures !maximizing ==>
      QValue(R, h, alpha, beta, ply, maximizing) <= Clamp(EvaluationOf(R, h, ply), alpha, beta)
  {
    var sp := EvaluationOf(R, h, ply);
    if maximizing && sp < beta {
      QLoopInWindow(R, h, R.legalMoves(h), 0, Max(alpha, sp), beta, ply, maximizing);
    } else if !maximizing && sp > alpha {
      QLoopInWindow(R, h, R.legalMoves(h), 0, alpha, Min(beta, sp), ply, maximizing);
    }
  }

  /** Without a legal capture from `i` on, the loop returns the bound it holds. */
  lemma {:induction false} QLoopNoCaptures(R: Rules, h: History, moves: seq<Move>, i: nat,
                                           alpha: int, beta: int, ply: int, maximizing: bool)
    requires WellFormed(R) && moves == R.legalMoves(h) && i <= |moves|
    requires forall j :: i <= j < |moves| ==> !R.isCapture(h, moves[j])
    ensures QLoop(R, h, moves, i, alpha, beta, ply, maximizing) == if maximizing then alpha else beta
    decreases |moves| - i
  {
    if i < |moves| {
      QLoopNoCaptures(R, h, moves, i + 1, alpha, beta, ply, maximizing);
    }
  }

  /** A quiet position (no legal capture) is scored by its static evaluation,
      clamped to the window. */
  lemma QuietPositionStandsPat(R: Rules, h: History, alpha: int, beta: int, ply: int, maximizing: bool)
    requires WellFormed(R) && alpha <= beta
    requires !R.isCheckmate(h) && !R.isStalemate(h)
    requires forall m :: m in R.legalMoves(h) ==> !R.isCapture(h, m)
    ensures QValue(R, h, alpha, beta, ply, maximizing) == Clamp(EvaluationOf(R, h, ply), alpha, beta)
    ensures alpha < EvaluationOf(R, h, ply) < beta ==> QValue(R, h, alpha, beta, ply, maximizing) == EvaluationOf(R, h, ply)
  {
    var sp := EvaluationOf(R, h, ply);
    var moves := R.legalMoves(h);
    if maximizing {
      QLoopNoCaptures(R, h, moves, 0, Max(alpha, sp), beta, ply, maximizing);
    } else {
      QLoopNoCaptures(R, h, moves, 0, alpha, Min(beta, sp), ply, maximizing);
    }
  }

  /** quiescence (search.py:13-47). */
  method Quiescence(board: Board, alpha: int, beta: int, ply: int, maximizing: bool) returns (score: int)
    requires WellFormed(board.rules)
    modifies board
    decreases Occupied(board.rules.placement(board.history)), 1, 0
    ensures board.history == old(board.history)
    ensures score == QValue(board.rules, old(board.history), alpha, beta, ply, maximizing)
  {
    if board.IsCheckmate() {
      return -MATE_SCORE + ply;
    }
    if board.IsStalemate() {
      return 0;
    }
    var standPat := Evaluate(board, ply);
    var a, b := alpha, beta;
    if maximizing {
      if standPat >= b {
        return b;
      }
      a := Max(a, standPat);
    } else {
      if standPat <= a {
        return a;
      }
      b := Min(b, standPat);
    }
    ghost var R, h := board.rules, board.history;
    var moves := board.LegalMoves();
    var i := 0;
    while i < |moves|
      invariant 0 <= i <= |moves| && board.history == h
      invariant QLoop(R, h, moves, i, a, b, ply, maximizing) == QValue(R, h, alpha, beta, ply, maximizing)
    {
      var m := moves[i];
      if board.IsCapture(m) {
        board.Push(m);
        var s := Quiescence(board, a, b, ply + 1, !maximizing);
        var _ := board.Pop();
        assert (h + [m])[..|h|] == h;
        if maximizing {
          if s >= b {
            return b;
          }
          a := Max(a, s);
        } else {
          if s <= a {
            return a;
          }
          b := Min(b, s);
        }
      }
      i := i + 1;
    }
    score := if maximizing then a else b;
  }

  // ---------------------------------------------------------------------
  // Minimax with alpha-beta, the cache and the check extension
  // ---------------------------------------------------------------------

  /** The depth and extension budget of a child: one ply less, unless the move
      gives check and an extension is left, which keeps the depth and spends it. */
  function ChildBudget(depth: nat, ext: nat, givesCheck: bool): (b: (nat, nat))
    requires depth >= 1
    ensures b.0 + b.1 == depth + ext - 1
    ensures b.1 <= ext && b.0 <= depth
    ensures b.0 == depth <==> givesCheck && ext > 0
  {
    if givesCheck && ext > 0 then (depth, ext - 1) else (depth - 1, ext)
  }

  /** Where minimax applies its twofold-repetition test. */
  datatype RepetitionRule =
    | EveryPly    // as search.py is written: at every node, the root included
    | BelowRoot   // only below the root: the position to move from is always searched

  predicate RepetitionApplies(rule: RepetitionRule, ply: int) {
    rule.EveryPly? || ply > 0
  }

  /** A search's answer and the state it leaves: the cache and depth_counter[0]. */
  datatype Outcome = Outcome(value: int, move: Option<Move>, table: Table, deepest: int)

  /** The same for a sweep over the children, with the child scores it obtained, in order. */
  datatype Swept = Swept(value: int, move: Option<Move>, table: Table, deepest: int, values: seq<int>) {
    /** Everything but the trace of child scores. */
    function Result(): (int, Option<Move>, Table, int) {
      (value, move, table, deepest)
    }
  }

  /** best_value before the first child: -inf for the maximizer, +inf for the minimizer. */
  function InitialBest(maximizing: bool): int {
    if maximizing then -INFINITY else INFINITY
  }

  /** The node minimax searches move by move: not cached, not cut off by the repetition
      test, not over, and with depth left. */
  predicate Interior(R: Rules, rule: RepetitionRule, t: Table, h: History, depth: nat, ply: int) {
    && Get(t, (R.fen(h), depth)).None?
    && !(RepetitionApplies(rule, ply) && R.isRepetition2(h))
    && !R.isGameOver(h)
    && depth >= 1
  }

  /** What minimax(board, depth, alpha, beta, maximizing, ply, ext_left, depth_counter)
      returns, given the cache `t` and depth_counter[0] == `deepest` on entry. */
  function SearchOf(R: Rules, rule: RepetitionRule, t: Table, deepest: int, h: History, depth: nat,
                  alpha: int, beta: int, maximizing: bool, ply: int, ext: nat): Outcome
    requires WellFormed(R)
    decreases depth + ext, 1, 0
  {
    var reached := Max(deepest, ply);
    var key := (R.fen(h), depth);
    match Get(t, key)
    case Some(e) => Outcome(e.value, e.move, t, reached)
    case None =>
      if RepetitionApplies(rule, ply) && R.isRepetition2(h) then
        Outcome(if maximizing then -REPETITION_PENALTY else REPETITION_PENALTY, None, t, reached)
      else if R.isGameOver(h) then Outcome(EvaluationOf(R, h, ply), None, t, reached)
      else if depth == 0 then
        var v := if R.isCheck(h) then QValue(R, h, alpha, beta, ply, maximizing) else EvaluationOf(R, h, ply);
        Outcome(v, None, t, reached)
      else
        var s := Sweep(R, rule, h, Ordered(R, h, R.legalMoves(h)), 0, depth, ext, alpha, beta, maximizing, ply,
                       t, reached, InitialBest(maximizing), None);
        Outcome(s.value, s.move, Put(s.table, key, Entry(s.value, s.move)), s.deepest)
  }

  /** The search of the `i`-th child, with the depth and extension budget it gets. */
  function Child(R: Rules, rule: RepetitionRule, h: History, moves: seq<Move>, i: nat, depth: nat, ext: nat,
                 alpha: int, beta: int, maximizing: bool, ply: int, t: Table, deepest: int): Outcome
    requires WellFormed(R) && depth >= 1 && i < |moves|
    decreases depth + ext, 0, |moves| - i
  {
    var b := ChildBudget(depth, ext, R.isCheck(h + [moves[i]]));
    SearchOf(R, rule, t, deepest, h + [moves[i]], b.0, alpha, beta, !maximizing, ply + 1, b.1)
  }

  /** Does `v` replace the best score so far?  The first child always does,
      as any score beats the initial infinity. */
  predicate Improves(maximizing: bool, v: int, bestValue: int, best: Option<Move>) {
    best.None? || (if maximizing then v > bestValue else v < bestValue)
  }

  /** The window after a child scoring `v`: the maximizer raises alpha, the minimizer lowers beta. */
  function Raise(maximizing: bool, alpha: int, v: int): int { if maximizing then Max(alpha, v) else alpha }
  function Lower(maximizing: bool, beta: int, v: int): int { if maximizing then beta else Min(beta, v) }

  /** The loop over the ordered moves of an interior node, from the `i`-th on. */
  function Sweep(R: Rules, rule: RepetitionRule, h: History, moves: seq<Move>, i: nat, depth: nat, ext: nat,
                 alpha: int, beta: int, maximizing: bool, ply: int,
                 t: Table, deepest: int, bestValue: int, best: Option<Move>): Swept
    requires WellFormed(R) && depth >= 1 && i <= |moves|
    decreases depth + ext, 0, |moves| - i + 1
  {
    if i == |moves| then Swept(bestValue, best, t, deepest, [])
    else
      var c := Child(R, rule, h, moves, i, depth, ext, alpha, beta, maximizing, ply, t, deepest);
      var v := c.value;
      var better := Improves(maximizing, v, bestValue, best);
      var bv := if better then v else bestValue;
      var bm := if better then Some(moves[i]) else best;
      var a, bt := Raise(maximizing, alpha, v), Lower(maximizing, beta, v);
      if bt <= a then Swept(bv, bm, c.table, c.deepest, [v])
      else
        var rest := Sweep(R, rule, h, moves, i + 1, depth, ext, a, bt, maximizing, ply, c.table, c.deepest, bv, bm);
        Swept(rest.value, rest.move, rest.table, rest.deepest, [v] + rest.values)
  }

  // ---------------------------------------------------------------------
  // Properties of the search
  // ---------------------------------------------------------------------

  /** Every entry of `small` is in `big`, unchanged. */
  ghost predicate Extends(big: Table, small: Table) {
    forall k :: k in small ==> k in big && big[k] == small[k]
  }

  /** A search never rewrites an entry the cache held when it started; a leaf leaves the
      cache as it was, and an interior node ends by storing its answer under (FEN, depth). */
  lemma {:induction false} SearchCache(R: Rules, rule: RepetitionRule, t: Table, deepest: int, h: History,
                                       depth: nat, alpha: int, beta: int, maximizing: bool, ply: int, ext: nat)
    requires WellFormed(R)
    ensures var o := SearchOf(R, rule, t, deepest, h, depth, alpha, beta, maximizing, ply, ext);
      && Extends(o.table, t)
      && (Interior(R, rule, t, h, depth, ply) ==> Get(o.table, (R.fen(h), depth)) == Some(Entry(o.value, o.move)))
      && (!Interior(R, rule, t, h, depth, ply) ==> o.table == t)
    decreases depth + ext, 1, 0
  {
    if Interior(R, rule, t, h, depth, ply) {
      SweepCache(R, rule, h, Ordered(R, h, R.legalMoves(h)), 0, depth, ext, alpha, beta, maximizing, ply,
                 t, Max(deepest, ply), InitialBest(maximizing), None);
    }
  }

  lemma {:induction false} SweepCache(R: Rules, rule: RepetitionRule, h: History, moves: seq<Move>, i: nat,
                                      depth: nat, ext: nat, alpha: int, beta: int, maximizing: bool, ply: int,
                                      t: Table, deepest: int, bestValue: int, best: Option<Move>)
    requires WellFormed(R) && depth >= 1 && i <= |moves|
    ensures Extends(Sweep(R, rule, h, moves, i, depth, ext, alpha, beta, maximizing, ply, t, deepest, bestValue, best).table, t)
    decreases depth + ext, 0, |moves| - i + 1
  {
    if i < |moves| {
      var b := ChildBudget(depth, ext, R.isCheck(h + [moves[i]]));
      var c := Child(R, rule, h, moves, i, depth, ext, alpha, beta, maximizing, ply, t, deepest);
      SearchCache(R, rule, t, deepest, h + [moves[i]], b.0, alpha, beta, !maximizing, ply + 1, b.1);
      var v := c.value;
      var better := Improves(maximizing, v, bestValue, best);
      var bv := if better then v else bestValue;
      var bm := if better then Some(moves[i]) else best;
      var a, bt := Raise(maximizing, alpha, v), Lower(maximizing, beta, v);
      if bt > a {
        SweepCache(R, rule, h, moves, i + 1, depth, ext, a, bt, maximizing, ply, c.table, c.deepest, bv, bm);
      }
    }
  }

  /** depth_counter[0] ends at least at the node's ply and at most `depth + ext` plies
      below it: one check extension per path lengthens the search by at most one ply. */
  lemma {:induction false} SearchReach(R: Rules, rule: RepetitionRule, t: Table, deepest: int, h: History,
                                       depth: nat, alpha: int, beta: int, maximizing: bool, ply: int, ext: nat)
    requires WellFormed(R)
    ensures var o := SearchOf(R, rule, t, deepest, h, depth, alpha, beta, maximizing, ply, ext);
      Max(deepest, ply) <= o.deepest <= Max(deepest, ply + depth + ext)
    decreases depth + ext, 1, 0
  {
    if Interior(R, rule, t, h, depth, ply) {
      SweepReach(R, rule, h, Ordered(R, h, R.legalMoves(h)), 0, depth, ext, alpha, beta, maximizing, ply,
                 t, Max(deepest, ply), InitialBest(maximizing), None);
    }
  }

  lemma {:induction false} SweepReach(R: Rules, rule: RepetitionRule, h: History, moves: seq<Move>, i: nat,
                                      depth: nat, ext: nat, alpha: int, beta: int, maximizing: bool, ply: int,
                                      t: Table, deepest: int, bestValue: int, best: Option<Move>)
    requires WellFormed(R) && depth >= 1 && i <= |moves|
    ensures var r := Sweep(R, rule, h, moves, i, depth, ext, alpha, beta, maximizing, ply, t, deepest, bestValue, best);
      deepest <= r.deepest <= Max(deepest, ply + depth + ext)
    decreases depth + ext, 0, |moves| - i + 1
  {
    if i < |moves| {
      var b := ChildBudget(depth, ext, R.isCheck(h + [moves[i]]));
      var c := Child(R, rule, h, moves, i, depth, ext, alpha, beta, maximizing, ply, t, deepest);
      SearchReach(R, rule, t, deepest, h + [moves[i]], b.0, alpha, beta, !maximizing, ply + 1, b.1);
      var v := c.value;
      var better := Improves(maximizing, v, bestValue, best);
      var bv := if better then v else bestValue;
      var bm := if better then Some(moves[i]) else best;
      var a, bt := Raise(maximizing, alpha, v), Lower(maximizing, beta, v);
      if bt > a {
        SweepReach(R, rule, h, moves, i + 1, depth, ext, a, bt, maximizing, ply, c.table, c.deepest, bv, bm);
      }
    }
  }

  /** `m` is legal in every position whose FEN is `fen`. */
  ghost predicate FitsFen(R: Rules, fen: string, m: Move) {
    forall h :: R.fen(h) == fen ==> m in R.legalMoves(h)
  }

  /** Every cached entry holds a move, legal in the positions its key's FEN describes. */
  ghost predicate TableSound(R: Rules, t: Table) {
    forall k :: k in t ==> t[k].move.Some? && FitsFen(R, k.0, t[k].move.value)
  }

  lemma FitsOwnFen(R: Rules, h: History, m: Move)
    requires WellFormed(R) && m in R.legalMoves(h)
    ensures FitsFen(R, R.fen(h), m)
  {
    forall h' | R.fen(h') == R.fen(h) ensures m in R.legalMoves(h') {
      assert R.legalMoves(h') == R.legalMoves(h);
    }
  }

  /** The ordered moves of a position are its legal moves, and there is one unless the game is over. */
  lemma OrderedMovesAreLegal(R: Rules, h: History)
    requires WellFormed(R)
    ensures forall m :: m in Ordered(R, h, R.legalMoves(h)) ==> m in R.legalMoves(h)
    ensures !R.isGameOver(h) ==> |Ordered(R, h, R.legalMoves(h))| > 0
  {
    OrderedIsPermutation(R, h, R.legalMoves(h));
    OrderedByScore(R, h, R.legalMoves(h));
    forall m | m in Ordered(R, h, R.legalMoves(h)) ensures m in R.legalMoves(h) {
      assert m in multiset(Ordered(R, h, R.legalMoves(h)));
    }
  }

  /** With a sound cache, the move minimax answers is legal where it is asked, the cache
      stays sound, and a move is found whenever the node searches its moves or hits the cache. */
  lemma {:induction false} SearchSound(R: Rules, rule: RepetitionRule, t: Table, deepest: int, h: History,
                                       depth: nat, alpha: int, beta: int, maximizing: bool, ply: int, ext: nat)
    requires WellFormed(R) && TableSound(R, t)
    ensures var o := SearchOf(R, rule, t, deepest, h, depth, alpha, beta, maximizing, ply, ext);
      && TableSound(R, o.table)
      && (o.move.Some? ==> o.move.value in R.legalMoves(h))
      && (depth >= 1 && !R.isGameOver(h) && !(RepetitionApplies(rule, ply) && R.isRepetition2(h)) ==> o.move.Some?)
    decreases depth + ext, 1, 0
  {
    var key := (R.fen(h), depth);
    if key in t {
      assert R.fen(h) == key.0;
    } else if Interior(R, rule, t, h, depth, ply) {
      var moves := Ordered(R, h, R.legalMoves(h));
      OrderedMovesAreLegal(R, h);
      SweepSound(R, rule, h, moves, 0, depth, ext, alpha, beta, maximizing, ply,
                 t, Max(deepest, ply), InitialBest(maximizing), None);
      var s := Sweep(R, rule, h, moves, 0, depth, ext, alpha, beta, maximizing, ply,
                     t, Max(deepest, ply), InitialBest(maximizing), None);
      FitsOwnFen(R, h, s.move.value);
    }
  }

  lemma {:induction false} SweepSound(R: Rules, rule: RepetitionRule, h: History, moves: seq<Move>, i: nat,
                                      depth: nat, ext: nat, alpha: int, beta: int, maximizing: bool, ply: int,
                                      t: Table, deepest: int, bestValue: int, best: Option<Move>)
    requires WellFormed(R) && depth >= 1 && i <= |moves|
    requires TableSound(R, t)
    requires forall m :: m in moves ==> m in R.legalMoves(h)
    requires best.Some? ==> best.value in R.legalMoves(h)
    ensures var r := Sweep(R, rule, h, moves, i, depth, ext, alpha, beta, maximizing, ply, t, deepest, bestValue, best);
      && TableSound(R, r.table)
      && (r.move.Some? ==> r.move.value in R.legalMoves(h))
      && (i < |moves| || best.Some? ==> r.move.Some?)
    decreases depth + ext, 0, |moves| - i + 1
  {
    if i < |moves| {
      var b := ChildBudget(depth, ext, R.isCheck(h + [moves[i]]));
      var c := Child(R, rule, h, moves, i, depth, ext, alpha, beta, maximizing, ply, t, deepest);
      SearchSound(R, rule, t, deepest, h + [moves[i]], b.0, alpha, beta, !maximizing, ply + 1, b.1);
      var v := c.value;
      var better := Improves(maximizing, v, bestValue, best);
      var bv := if better then v else bestValue;
      var bm := if better then Some(moves[i]) else best;
      var a, bt := Raise(maximizing, alpha, v), Lower(maximizing, beta, v);
      if bt > a {
        SweepSound(R, rule, h, moves, i + 1, depth, ext, a, bt, maximizing, ply, c.table, c.deepest, bv, bm);
      }
    }
  }

  /** `x` is at least as good as `y` for the side to move. */
  predicate NoWorse(maximizing: bool, x: int, y: int) {
    if maximizing then x >= y else x <= y
  }

  /** The loop examines at least one child and at most the remaining ones; its answer is
      no worse than the best so far and than every child score it obtained. */
  lemma {:induction false} SweepKeepsBest(R: Rules, rule: RepetitionRule, h: History, moves: seq<Move>, i: nat,
                                          depth: nat, ext: nat, alpha: int, beta: int, maximizing: bool, ply: int,
                                          t: Table, deepest: int, bestValue: int, best: Option<Move>)
    requires WellFormed(R) && depth >= 1 && i <= |moves|
    ensures var r := Sweep(R, rule, h, moves, i, depth, ext, alpha, beta, maximizing, ply, t, deepest, bestValue, best);
      && |r.values| <= |moves| - i
      && (i < |moves| ==> |r.values| >= 1)
      && (best.Some? ==> NoWorse(maximizing, r.value, bestValue))
      && (forall j :: 0 <= j < |r.values| ==> NoWorse(maximizing, r.value, r.values[j]))
    decreases |moves| - i
  {
    if i < |moves| {
      var c := Child(R, rule, h, moves, i, depth, ext, alpha, beta, maximizing, ply, t, deepest);
      var v := c.value;
      var better := Improves(maximizing, v, bestValue, best);
      var bv := if better then v else bestValue;
      var bm := if better then Some(moves[i]) else best;
      var a, bt := Raise(maximizing, alpha, v), Lower(maximizing, beta, v);
      if bt > a {
        SweepKeepsBest(R, rule, h, moves, i + 1, depth, ext, a, bt, maximizing, ply, c.table, c.deepest, bv, bm);
        var rest := Sweep(R, rule, h, moves, i + 1, depth, ext, a, bt, maximizing, ply, c.table, c.deepest, bv, bm);
        forall j | 0 <= j < |rest.values| + 1
          ensures NoWorse(maximizing, rest.value, ([v] + rest.values)[j])
        {
          if j > 0 {
            assert ([v] + rest.values)[j] == rest.values[j - 1];
          }
        }
      }
    }
  }

  /** The `j`-th child score of the sweep from `i` is its answer, reached there first,
      strictly better than the best before the sweep, and that child's move is its move. */
  ghost predicate FirstBestAt(r: Swept, moves: seq<Move>, i: nat, j: int, maximizing: bool,
                              bestValue: int, best: Option<Move>) {
    && 0 <= j < |r.values| && i + j < |moves|
    && r.move == Some(moves[i + j]) && r.value == r.values[j]
    && Improves(maximizing, r.value, bestValue, best)
    && forall j' :: 0 <= j' < j ==> r.values[j'] != r.value
  }

  ghost predicate KeptOrFirstBest(r: Swept, moves: seq<Move>, i: nat, maximizing: bool,
                                  bestValue: int, best: Option<Move>) {
    || (r.move == best && r.value == bestValue && (best.Some? || i == |moves|))
    || (exists j :: FirstBestAt(r, moves, i, j, maximizing, bestValue, best))
  }

  /** The loop's move is the one it started with, or the move of the first child whose
      score equals the answer; that score strictly beat the best so far (a later child of
      equal score does not replace it). */
  lemma {:induction false} SweepFirstBest(R: Rules, rule: RepetitionRule, h: History, moves: seq<Move>, i: nat,
                                          depth: nat, ext: nat, alpha: int, beta: int, maximizing: bool, ply: int,
                                          t: Table, deepest: int, bestValue: int, best: Option<Move>)
    requires WellFormed(R) && depth >= 1 && i <= |moves|
    ensures KeptOrFirstBest(Sweep(R, rule, h, moves, i, depth, ext, alpha, beta, maximizing, ply, t, deepest, bestValue, best),
                            moves, i, maximizing, bestValue, best)
    decreases |moves| - i
  {
    if i < |moves| {
      var r := Sweep(R, rule, h, moves, i, depth, ext, alpha, beta, maximizing, ply, t, deepest, bestValue, best);
      var c := Child(R, rule, h, moves, i, depth, ext, alpha, beta, maximizing, ply, t, deepest);
      var v := c.value;
      var better := Improves(maximizing, v, bestValue, best);
      var bv := if better then v else bestValue;
      var bm := if better then Some(moves[i]) else best;
      var a, bt := Raise(maximizing, alpha, v), Lower(maximizing, beta, v);
      if bt <= a {
        assert r == Swept(bv, bm, c.table, c.deepest, [v]);
        if better {
          assert FirstBestAt(r, moves, i, 0, maximizing, bestValue, best);
        } else {
          assert best.Some? && r.move == best && r.value == bestValue;
        }
      } else {
        var rest := Sweep(R, rule, h, moves, i + 1, depth, ext, a, bt, maximizing, ply, c.table, c.deepest, bv, bm);
        SweepFirstBest(R, rule, h, moves, i + 1, depth, ext, a, bt, maximizing, ply, c.table, c.deepest, bv, bm);
        assert r.values == [v] + rest.values;
        assert KeptOrFirstBest(rest, moves, i + 1, maximizing, bv, bm);
        if rest.move == bm && rest.value == bv {
          if better {
            assert FirstBestAt(r, moves, i, 0, maximizing, bestValue, best);
          }
        } else {
          var j :| FirstBestAt(rest, moves, i + 1, j, maximizing, bv, bm);
          assert r.values[j + 1] == rest.values[j];
          assert v != r.value;
          forall j' | 0 <= j' < j + 1 ensures r.values[j'] != r.value {
            if j' > 0 {
              assert r.values[j'] == rest.values[j' - 1];
            }
          }
          assert FirstBestAt(r, moves, i, j + 1, maximizing, bestValue, best);
        }
      }
    }
  }

  /** The window after the child scores `vs`, starting from (alpha, beta). */
  function WindowAfter(maximizing: bool, alpha: int, beta: int, vs: seq<int>): (int, int)
    decreases |vs|
  {
    if vs == [] then (alpha, beta)
    else WindowAfter(maximizing, Raise(maximizing, alpha, vs[0]), Lower(maximizing, beta, vs[0]), vs[1..])
  }

  /** One child score at a time, the maximizer's alpha only rises and the minimizer's
      beta only falls; the other bound stays where it was. */
  lemma {:induction false} WindowMoves(maximizing: bool, alpha: int, beta: int, vs: seq<int>)
    ensures var w := WindowAfter(maximizing, alpha, beta, vs);
      if maximizing then alpha <= w.0 && w.1 == beta else w.0 == alpha && w.1 <= beta
    decreases |vs|
  {
    if vs != [] {
      WindowMoves(maximizing, Raise(maximizing, alpha, vs[0]), Lower(maximizing, beta, vs[0]), vs[1..]);
    }
  }

  lemma {:induction false} WindowAfterSplit(maximizing: bool, alpha: int, beta: int, vs: seq<int>, j: int)
    requires 0 <= j <= |vs|
    ensures var w := WindowAfter(maximizing, alpha, beta, vs[..j]);
      WindowAfter(maximizing, alpha, beta, vs) == WindowAfter(maximizing, w.0, w.1, vs[j..])
    decreases j
  {
    if j > 0 {
      WindowAfterSplit(maximizing, Raise(maximizing, alpha, vs[0]), Lower(maximizing, beta, vs[0]), vs[1..], j - 1);
      assert vs[..j][1..] == vs[1..][..j - 1];
      assert vs[j..] == vs[1..][j - 1..];
    }
  }

  /** Along the children a loop examines, alpha never falls at a maximizing node and beta
      never rises at a minimizing node. */
  lemma AlphaRisesBetaFalls(maximizing: bool, alpha: int, beta: int, vs: seq<int>, j: int, k: int)
    requires 0 <= j <= k <= |vs|
    ensures var wj := WindowAfter(maximizing, alpha, beta, vs[..j]);
            var wk := WindowAfter(maximizing, alpha, beta, vs[..k]);
      if maximizing then wj.0 <= wk.0 && wk.1 == beta else wk.1 <= wj.1 && wk.0 == alpha
  {
    var wj := WindowAfter(maximizing, alpha, beta, vs[..j]);
    WindowAfterSplit(maximizing, alpha, beta, vs[..k], j);
    assert vs[..k][..j] == vs[..j];
    WindowMoves(maximizing, wj.0, wj.1, vs[..k][j..]);
    WindowMoves(maximizing, alpha, beta, vs[..j]);
  }

  /** alpha-beta stops at the first cutoff: before every child after the first the window
      was still open, and when children are left unexamined it had closed (beta <= alpha). */
  lemma {:induction false} SweepStopsAtFirstCutoff(R: Rules, rule: RepetitionRule, h: History, moves: seq<Move>, i: nat,
                                          depth: nat, ext: nat, alpha: int, beta: int, maximizing: bool, ply: int,
                                          t: Table, deepest: int, bestValue: int, best: Option<Move>)
    requires WellFormed(R) && depth >= 1 && i <= |moves|
    ensures var r := Sweep(R, rule, h, moves, i, depth, ext, alpha, beta, maximizing, ply, t, deepest, bestValue, best);
      && (forall j :: 1 <= j < |r.values| ==>
            WindowAfter(maximizing, alpha, beta, r.values[..j]).0 < WindowAfter(maximizing, alpha, beta, r.values[..j]).1)
      && (|r.values| < |moves| - i ==>
            WindowAfter(maximizing, alpha, beta, r.values).1 <= WindowAfter(maximizing, alpha, beta, r.values).0)
    decreases |moves| - i
  {
    if i < |moves| {
      var r := Sweep(R, rule, h, moves, i, depth, ext, alpha, beta, maximizing, ply, t, deepest, bestValue, best);
      var c := Child(R, rule, h, moves, i, depth, ext, alpha, beta, maximizing, ply, t, deepest);
      var v := c.value;
      var better := Improves(maximizing, v, bestValue, best);
      var bv := if better then v else bestValue;
      var bm := if better then Some(moves[i]) else best;
      var a, bt := Raise(maximizing, alpha, v), Lower(maximizing, beta, v);
      if bt <= a {
        assert r.values == [v];
        assert WindowAfter(maximizing, alpha, beta, [v]) == WindowAfter(maximizing, a, bt, []);
      } else {
        var rest := Sweep(R, rule, h, moves, i + 1, depth, ext, a, bt, maximizing, ply, c.table, c.deepest, bv, bm);
        SweepStopsAtFirstCutoff(R, rule, h, moves, i + 1, depth, ext, a, bt, maximizing, ply, c.table, c.deepest, bv, bm);
        assert r.values == [v] + rest.values;
        forall j | 1 <= j <= |r.values|
          ensures WindowAfter(maximizing, alpha, beta, r.values[..j]) == WindowAfter(maximizing, a, bt, rest.values[..j - 1])
        {
          assert r.values[..j] == [v] + rest.values[..j - 1];
          assert (r.values[..j])[1..] == rest.values[..j - 1];
        }
        assert r.values[..|r.values|] == r.values;
        assert rest.values[..|rest.values|] == rest.values;
      }
    }
  }

  // ---------------------------------------------------------------------
  // The searching methods
  // ---------------------------------------------------------------------

  /** depth_counter: a one-element list holding the deepest ply reached. */
  class DepthCounter {
    var deepest: int

    constructor ()
      ensures deepest == 0
    {
      deepest := 0;
    }

    method Reach(ply: int)
      modifies this
      ensures deepest == Max(old(deepest), ply)
    {
      deepest := Max(deepest, ply);
    }
  }

  /** minimax (search.py:53-143); `rule` says where the repetition test applies
      (EveryPly is the code as written). */
  method Minimax(board: Board, depth: nat, alpha: int, beta: int, maximizing: bool, ply: int,
                 ext: nat, counter: DepthCounter, cache: TranspositionTable, rule: RepetitionRule)
    returns (value: int, move: Option<Move>)
    requires WellFormed(board.rules)
    modifies board, counter, cache
    decreases depth + ext, 1, 0
    ensures board.history == old(board.history)
    ensures Outcome(value, move, cache.entries, counter.deepest)
         == SearchOf(board.rules, rule, old(cache.entries), old(counter.deepest), old(board.history),
                   depth, alpha, beta, maximizing, ply, ext)
  {
    counter.Reach(ply);
    var cached := cache.Lookup(board, depth);
    if cached.Some? {
      return cached.value.value, cached.value.move;
    }
    if RepetitionApplies(rule, ply) && board.IsRepetition2() {
      value := if maximizing then -REPETITION_PENALTY else REPETITION_PENALTY;
      return value, None;
    }
    if board.IsGameOver() {
      value := Evaluate(board, ply);
      return value, None;
    }
    if depth == 0 {
      if board.IsCheck() {
        value := Quiescence(board, alpha, beta, ply, maximizing);
      } else {
        value := Evaluate(board, ply);
      }
      return value, None;
    }
    var moves := OrderMoves(board, board.LegalMoves());
    value, move := SearchMoves(board, moves, depth, alpha, beta, maximizing, ply, ext, counter, cache, rule);
    cache.Store(board, depth, value, move);
  }

  /** The two move loops of minimax (search.py:74-140), written once: the maximizer
      raises alpha, the minimizer lowers beta, and both stop once beta <= alpha. */
  method SearchMoves(board: Board, moves: seq<Move>, depth: nat, alpha: int, beta: int, maximizing: bool,
                     ply: int, ext: nat, counter: DepthCounter, cache: TranspositionTable, rule: RepetitionRule)
    returns (bestValue: int, best: Option<Move>)
    requires WellFormed(board.rules) && depth >= 1
    modifies board, counter, cache
    decreases depth + ext, 0, |moves| + 1
    ensures board.history == old(board.history)
    ensures var s := Sweep(board.rules, rule, old(board.history), moves, 0, depth, ext, alpha, beta, maximizing, ply,
                           old(cache.entries), old(counter.deepest), InitialBest(maximizing), None);
            bestValue == s.value && best == s.move && cache.entries == s.table && counter.deepest == s.deepest
  {
    ghost var R, h := board.rules, board.history;
    bestValue := InitialBest(maximizing);
    best := None;
    var a, b := alpha, beta;
    ghost var target := Sweep(R, rule, h, moves, 0, depth, ext, a, b, maximizing, ply,
                              cache.entries, counter.deepest, bestValue, best);
    var i := 0;
    while i < |moves|
      invariant 0 <= i <= |moves| && board.history == h
      invariant Sweep(R, rule, h, moves, i, depth, ext, a, b, maximizing, ply,
                      cache.entries, counter.deepest, bestValue, best).Result() == target.Result()
    {
      var m := moves[i];
      ghost var budget := ChildBudget(depth, ext, R.isCheck(h + [m]));
      ghost var child := Child(R, rule, h, moves, i, depth, ext, a, b, maximizing, ply, cache.entries, counter.deepest);
      board.Push(m);
      var newDepth, newExt := depth - 1, ext;
      if board.IsCheck() && ext > 0 {
        newDepth, newExt := depth, ext - 1;
      }
      assert newDepth == budget.0 && newExt == budget.1;
      var v, childMove := Minimax(board, newDepth, a, b, !maximizing, ply + 1, newExt, counter, cache, rule);
      var _ := board.Pop();
      assert (h + [m])[..|h|] == h;
      assert child == Outcome(v, childMove, cache.entries, counter.deepest);
      if Improves(maximizing, v, bestValue, best) {
        bestValue, best := v, Some(m);
      }
      a, b := Raise(maximizing, a, v), Lower(maximizing, b, v);
      if b <= a {
        break;
      }
      i := i + 1;
    }
  }

  // ---------------------------------------------------------------------
  // Iterative deepening
  // ---------------------------------------------------------------------

  /** The state of iterative deepening after some iterations: the move kept, the
      depth_counter of the iteration that found it, and the cache. */
  datatype Deepening = Deepening(move: Option<Move>, depthReached: int, table: Table)

  /** Iterations 1 .. n of iterative_deepening, each a root search of the full window
      with a fresh depth counter, one check extension and the engine's side maximizing
      when it plays white. */
  function Deepen(R: Rules, rule: RepetitionRule, h: History, t: Table, n: nat, engineIsBlack: bool): Deepening
    requires WellFormed(R)
  {
    if n == 0 then Deepening(None, 0, t)
    else
      var prev := Deepen(R, rule, h, t, n - 1, engineIsBlack);
      var o := SearchOf(R, rule, prev.table, 0, h, n, -ROOT_WINDOW, ROOT_WINDOW, !engineIsBlack, 0, CHECK_EXTENSION);
      if o.move.Some? then Deepening(o.move, o.deepest, o.table)
      else Deepening(prev.move, prev.depthReached, o.table)
  }

  /** iterative_deepening (search.py:149-172); the depth it prints is returned instead. */
  method IterativeDeepening(board: Board, maxDepth: int, engineIsBlack: bool, cache: TranspositionTable,
                            rule: RepetitionRule)
    returns (best: Option<Move>, depthReached: int)
    requires WellFormed(board.rules)
    modifies board, cache
    ensures board.history == old(board.history)
    ensures Deepening(best, depthReached, cache.entries)
         == Deepen(board.rules, rule, old(board.history), old(cache.entries), Max(0, maxDepth), engineIsBlack)
  {
    ghost var R, h, t := board.rules, board.history, cache.entries;
    best, depthReached := None, 0;
    var depth := 1;
    while depth <= maxDepth
      invariant 1 <= depth <= Max(0, maxDepth) + 1
      invariant board.history == h
      invariant Deepening(best, depthReached, cache.entries) == Deepen(R, rule, h, t, depth - 1, engineIsBlack)
    {
      ghost var prev := Deepening(best, depthReached, cache.entries);
      ghost var o := SearchOf(R, rule, prev.table, 0, h, depth, -ROOT_WINDOW, ROOT_WINDOW, !engineIsBlack, 0,
                            CHECK_EXTENSION);
      ghost var next := if o.move.Some? then Deepening(o.move, o.deepest, o.table)
                        else Deepening(prev.move, prev.depthReached, o.table);
      assert Deepen(R, rule, h, t, depth, engineIsBlack) == next;
      var counter := new DepthCounter();
      var _, move := Minimax(board, depth, -ROOT_WINDOW, ROOT_WINDOW, !engineIsBlack, 0, CHECK_EXTENSION,
                             counter, cache, rule);
      assert move == o.move && cache.entries == o.table && counter.deepest == o.deepest;
      if move.Some? {
        best, depthReached := move, counter.deepest;
      }
      assert Deepening(best, depthReached, cache.entries) == next;
      depth := depth + 1;
    }
  }

  /** The move the root search of iteration k (1-based) returns. */
  function IterationMove(R: Rules, rule: RepetitionRule, h: History, t: Table, k: nat, engineIsBlack: bool): Option<Move>
    requires WellFormed(R) && k >= 1
  {
    SearchOf(R, rule, Deepen(R, rule, h, t, k - 1, engineIsBlack).table, 0, h, k, -ROOT_WINDOW, ROOT_WINDOW,
           !engineIsBlack, 0, CHECK_EXTENSION).move
  }

  /** The moves iterations 1 .. n return, in order. */
  function IterationMoves(R: Rules, rule: RepetitionRule, h: History, t: Table, n: nat, engineIsBlack: bool)
    : (ms: seq<Option<Move>>)
    requires WellFormed(R)
    ensures |ms| == n
  {
    if n == 0 then [] else IterationMoves(R, rule, h, t, n - 1, engineIsBlack) + [IterationMove(R, rule, h, t, n, engineIsBlack)]
  }

  /** The last entry of `ms` that holds a move. */
  function LastSome(ms: seq<Option<Move>>): Option<Move> {
    if ms == [] then None
    else if ms[|ms| - 1].Some? then ms[|ms| - 1]
    else LastSome(ms[..|ms| - 1])
  }

  /** Entry k is the last one holding a move. */
  predicate LastSomeAt(ms: seq<Option<Move>>, k: int) {
    && 0 <= k < |ms| && ms[k].Some?
    && forall j :: k < j < |ms| ==> ms[j].None?
  }

  /** LastSome is nothing exactly when no entry holds a move, and otherwise the move of
      the last entry that does. */
  lemma {:induction false} LastSomeIsLast(ms: seq<Option<Move>>)
    ensures LastSome(ms).None? <==> forall k :: 0 <= k < |ms| ==> ms[k].None?
    ensures LastSome(ms).Some? ==> exists k :: LastSomeAt(ms, k) && LastSome(ms) == ms[k]
  {
    if ms != [] {
      var n := |ms| - 1;
      if ms[n].Some? {
        assert LastSomeAt(ms, n);
      } else {
        var init := ms[..n];
        LastSomeIsLast(init);
        assert forall k :: 0 <= k < n ==> init[k] == ms[k];
        if LastSome(init).Some? {
          var k :| LastSomeAt(init, k) && LastSome(init) == init[k];
          assert LastSomeAt(ms, k);
        }
      }
    }
  }

  lemma DeepenStep(R: Rules, rule: RepetitionRule, h: History, t: Table, n: nat, engineIsBlack: bool)
    requires WellFormed(R) && n >= 1
    ensures Deepen(R, rule, h, t, n, engineIsBlack).move
         == if IterationMove(R, rule, h, t, n, engineIsBlack).Some? then IterationMove(R, rule, h, t, n, engineIsBlack)
            else Deepen(R, rule, h, t, n - 1, engineIsBlack).move
  {
  }

  /** Iterative deepening answers the move of the last iteration that returned one, and
      nothing when no iteration did (in particular when there are none); see LastSomeIsLast. */
  lemma {:induction false} DeepenKeepsLastFound(R: Rules, rule: RepetitionRule, h: History, t: Table, n: nat,
                                                engineIsBlack: bool)
    requires WellFormed(R)
    ensures Deepen(R, rule, h, t, n, engineIsBlack).move == LastSome(IterationMoves(R, rule, h, t, n, engineIsBlack))
  {
    if n > 0 {
      DeepenKeepsLastFound(R, rule, h, t, n - 1, engineIsBlack);
      DeepenStep(R, rule, h, t, n, engineIsBlack);
      var prev := IterationMoves(R, rule, h, t, n - 1, engineIsBlack);
      var x := IterationMove(R, rule, h, t, n, engineIsBlack);
      assert IterationMoves(R, rule, h, t, n, engineIsBlack) == prev + [x];
      LastSomeSnoc(prev, x);
    }
  }

  /** Appending an entry: it is the last move when it holds one. */
  lemma LastSomeSnoc(ms: seq<Option<Move>>, x: Option<Move>)
    ensures LastSome(ms + [x]) == if x.Some? then x else LastSome(ms)
  {
    assert (ms + [x])[..|ms|] == ms;
  }

  /** With a sound cache, the move iterative deepening keeps is legal at the root, the
      cache stays sound, and the depth reported is at most the last depth plus the one
      check extension. */
  lemma {:induction false} DeepenSound(R: Rules, rule: RepetitionRule, h: History, t: Table, n: nat, engineIsBlack: bool)
    requires WellFormed(R) && TableSound(R, t)
    ensures var d := Deepen(R, rule, h, t, n, engineIsBlack);
      && TableSound(R, d.table)
      && (d.move.Some? ==> d.move.value in R.legalMoves(h))
      && 0 <= d.depthReached <= n + CHECK_EXTENSION
  {
    if n > 0 {
      var prev := Deepen(R, rule, h, t, n - 1, engineIsBlack);
      DeepenSound(R, rule, h, t, n - 1, engineIsBlack);
      SearchSound(R, rule, prev.table, 0, h, n, -ROOT_WINDOW, ROOT_WINDOW, !engineIsBlack, 0, CHECK_EXTENSION);
      SearchReach(R, rule, prev.table, 0, h, n, -ROOT_WINDOW, ROOT_WINDOW, !engineIsBlack, 0, CHECK_EXTENSION);
    }
  }

  /** A position that is not over, and whose root the repetition test leaves alone, gets
      a legal move from one iteration on. */
  lemma DeepenFindsMove(R: Rules, rule: RepetitionRule, h: History, t: Table, n: nat, engineIsBlack: bool)
    requires WellFormed(R) && TableSound(R, t) && n >= 1 && !R.isGameOver(h)
    requires !(RepetitionApplies(rule, 0) && R.isRepetition2(h))
    ensures var d := Deepen(R, rule, h, t, n, engineIsBlack);
      d.move.Some? && d.move.value in R.legalMoves(h)
  {
    var prev := Deepen(R, rule, h, t, n - 1, engineIsBlack);
    DeepenSound(R, rule, h, t, n - 1, engineIsBlack);
    var o := SearchOf(R, rule, prev.table, 0, h, n, -ROOT_WINDOW, ROOT_WINDOW, !engineIsBlack, 0, CHECK_EXTENSION);
    SearchSound(R, rule, prev.table, 0, h, n, -ROOT_WINDOW, ROOT_WINDOW, !engineIsBlack, 0, CHECK_EXTENSION);
    assert o.move.Some?;
    assert Deepen(R, rule, h, t, n, engineIsBlack) == Deepening(o.move, o.deepest, o.table);
  }

  /** When the repetition test is kept below the root, every position that is not over
      gets a legal move from one iteration on, repeated or not. */
  lemma BelowRootFindsMove(R: Rules, h: History, t: Table, n: nat, engineIsBlack: bool)
    requires WellFormed(R) && TableSound(R, t) && n >= 1 && !R.isGameOver(h)
    ensures var d := Deepen(R, BelowRoot, h, t, n, engineIsBlack);
      d.move.Some? && d.move.value in R.legalMoves(h)
  {
    DeepenFindsMove(R, BelowRoot, h, t, n, engineIsBlack);
  }

  /** As written, a root position that has occurred before is answered with no move at
      every depth (and nothing is cached), whether or not the game is over. */
  lemma {:induction false} RepeatedRootGetsNoMove(R: Rules, h: History, t: Table, n: nat, engineIsBlack: bool)
    requires WellFormed(R) && R.isRepetition2(h)
    requires forall d :: 1 <= d <= n ==> (R.fen(h), d) !in t
    ensures Deepen(R, EveryPly, h, t, n, engineIsBlack).move.None?
    ensures Deepen(R, EveryPly, h, t, n, engineIsBlack).table == t
  {
    if n > 0 {
      RepeatedRootGetsNoMove(R, h, t, n - 1, engineIsBlack);
    }
  }

  /** A rules engine for which the difference shows: every position has the same single
      legal move, none is over, and every position counts as a twofold repetition. */
  const STALL_RULES: Rules := Rules(
    _ => [Move(12, 28, None)], _ => false, _ => false, _ => false, _ => false, _ => false, _ => true,
    (_, _) => false, _ => seq(64, _ => None), _ => "start", _ => None)

  /** With that engine and an empty cache the search as written finds no move at any depth,
      while the corrected search finds the legal move. */
  lemma RepetitionStallExample(n: nat)
    requires n >= 1
    ensures WellFormed(STALL_RULES)
    ensures Deepen(STALL_RULES, EveryPly, [], map[], n, true).move == None
    ensures Deepen(STALL_RULES, BelowRoot, [], map[], n, true).move == Some(Move(12, 28, None))
  {
    var R := STALL_RULES;
    assert WellFormed(R);
    RepeatedRootGetsNoMove(R, [], map[], n, true);
    BelowRootFindsMove(R, [], map[], n, true);
  }
}
