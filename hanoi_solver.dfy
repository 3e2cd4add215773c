/**
 * The automatic solver: the recursive `_move`, its cancellation flag, and what its moves do
 * to the pegs when `visualize_move` applies them one by one.
 */
module HanoiSolver {
  import opened HanoiRules

  type PegIndex = k: nat | k < 3

  /** One `visualize_move(from_peg, to_peg, disk_size)` call issued by the solver. */
  datatype Move = Move(from: PegIndex, to: PegIndex, disk: int)

  /** The pegs together with the game's `moves_count`. */
  datatype Board = Board(pegs: Pegs, moves: nat)

  function Pow2(n: nat): (r: nat)
    ensures r >= 1
  {
    if n == 0 then 1 else 2 * Pow2(n - 1)
  }

  /** The optimal move count shown by `update_optimal_moves` and `_check_victory`: 2^n - 1. */
  function OptimalMoves(n: nat): nat {
    Pow2(n) - 1
  }

  /** The moves `_move(n, from, to, aux)` issues when it is never cancelled. */
  function SolverMoves(n: nat, from: PegIndex, to: PegIndex, aux: PegIndex): seq<Move>
    requires n >= 1
  {
    if n == 1 then [Move(from, to, 1)]
    else SolverMoves(n - 1, from, aux, to) + [Move(from, to, n)] + SolverMoves(n - 1, aux, to, from)
  }

  /**
   * The moves `_move(n, from, to, aux)` issues when `issued` moves came before it and
   * `stop_solving` clears the flag right after move number `stopAt`: the flag is checked on
   * entry and again before the middle move, exactly where the source tests it.
   */
  function SolverRun(n: nat, from: PegIndex, to: PegIndex, aux: PegIndex, issued: nat, stopAt: nat): seq<Move>
    requires n >= 1
  {
    if issued >= stopAt then []
    else if n == 1 then [Move(from, to, 1)]
    else
      var first := SolverRun(n - 1, from, aux, to, issued, stopAt);
      var middle := if issued + |first| < stopAt then [Move(from, to, n)] else [];
      first + middle + SolverRun(n - 1, aux, to, from, issued + |first| + |middle|, stopAt)
  }

  /** `solve()`: `_move(num_disks, 0, 2, 1)`, stopped after `stopAt` moves. */
  function SolveMoves(n: nat, stopAt: nat): seq<Move>
    requires n >= 1
  {
    SolverRun(n, 0, 2, 1, 0, stopAt)
  }

  /** How many more moves may be issued before the flag is found cleared. */
  function Budget(issued: nat, stopAt: nat): nat {
    if stopAt > issued then stopAt - issued else 0
  }

  function Min(a: nat, b: nat): nat {
    if a < b then a else b
  }

  /** The uncancelled solver issues exactly the optimal number of moves, 2^n - 1. */
  lemma {:induction false} SolverMovesCount(n: nat, from: PegIndex, to: PegIndex, aux: PegIndex)
    requires n >= 1
    ensures |SolverMoves(n, from, to, aux)| == OptimalMoves(n)
    decreases n
  {
    if n > 1 {
      SolverMovesCount(n - 1, from, aux, to);
      SolverMovesCount(n - 1, aux, to, from);
    }
  }

  /**
   * A cancelled run is the uncancelled move list cut off where the flag is cleared: it issues
   * the first `stopAt - issued` moves (all of them if that many exist) and nothing after.
   */
  lemma {:induction false} SolverRunIsPrefix(n: nat, from: PegIndex, to: PegIndex, aux: PegIndex, issued: nat, stopAt: nat)
    requires n >= 1
    ensures |SolverMoves(n, from, to, aux)| == OptimalMoves(n)
    ensures SolverRun(n, from, to, aux, issued, stopAt)
         == SolverMoves(n, from, to, aux)[..Min(OptimalMoves(n), Budget(issued, stopAt))]
    decreases n
  {
    SolverMovesCount(n, from, to, aux);
    if issued < stopAt && n > 1 {
      var bud := Budget(issued, stopAt);
      var l := OptimalMoves(n - 1);
      var h1, h2 := SolverMoves(n - 1, from, aux, to), SolverMoves(n - 1, aux, to, from);
      var h := SolverMoves(n, from, to, aux);
      assert h == h1 + [Move(from, to, n)] + h2;
      SolverRunIsPrefix(n - 1, from, aux, to, issued, stopAt);
      var first := SolverRun(n - 1, from, aux, to, issued, stopAt);
      if bud <= l {
        assert first == h1[..bud];
        CutInFirstHalf(h1, Move(from, to, n), h2, bud);
      } else {
        assert first == h1;
        var next := issued + l + 1;
        SolverRunIsPrefix(n - 1, aux, to, from, next, stopAt);
        var k := Min(l, Budget(next, stopAt));
        CutPastFirstHalf(h1, Move(from, to, n), h2, k);
      }
    }
  }

  lemma CutInFirstHalf(h1: seq<Move>, m: Move, h2: seq<Move>, k: nat)
    requires k <= |h1|
    ensures (h1 + [m] + h2)[..k] == h1[..k]
  {
  }

  lemma CutPastFirstHalf(h1: seq<Move>, m: Move, h2: seq<Move>, k: nat)
    requires k <= |h2|
    ensures (h1 + [m] + h2)[..|h1| + 1 + k] == h1 + [m] + h2[..k]
  {
  }

  /** Never stopped, `solve()` issues every move of the solution: 2^n - 1 of them. */
  lemma UncancelledSolveIsComplete(n: nat, stopAt: nat)
    requires n >= 1 && stopAt >= OptimalMoves(n)
    ensures SolveMoves(n, stopAt) == SolverMoves(n, 0, 2, 1)
    ensures |SolveMoves(n, stopAt)| == OptimalMoves(n)
  {
    SolverRunIsPrefix(n, 0, 2, 1, 0, stopAt);
  }

  /** Once `stop_solving` has run (after move `stopAt`), no further move is issued. */
  lemma StoppedSolveIssuesNoMore(n: nat, stopAt: nat)
    requires n >= 1
    ensures |SolveMoves(n, stopAt)| <= stopAt
    ensures |SolveMoves(n, stopAt)| <= |SolverMoves(n, 0, 2, 1)|
    ensures SolveMoves(n, stopAt) == SolverMoves(n, 0, 2, 1)[..|SolveMoves(n, stopAt)|]
  {
    SolverRunIsPrefix(n, 0, 2, 1, 0, stopAt);
  }

  // ---------------------------------------------------------------- applying the moves

  /** The top disk of `from` is the disk the solver names. */
  predicate Accepts(p: Pegs, m: Move)
    requires |p| == 3
  {
    p[m.from] != [] && Top(p[m.from]) == m.disk
  }

  /**
   * The logical part of `visualize_move` during auto-solve: when the named disk is on top of
   * the source peg it moves and the counter goes up by one; otherwise nothing changes.
   */
  function Visualize(b: Board, m: Move): (r: Board)
    requires |b.pegs| == 3
    ensures |r.pegs| == 3
  {
    if Accepts(b.pegs, m) then Board(MoveTop(b.pegs, m.from, m.to), b.moves + 1) else b
  }

  /** The board after `visualize_move` has been called with each move in turn. */
  function Play(b: Board, ms: seq<Move>): (r: Board)
    requires |b.pegs| == 3
    ensures |r.pegs| == 3
    decreases |ms|
  {
    if ms == [] then b else Play(Visualize(b, ms[0]), ms[1..])
  }

  /** No move of `ms` hits the warning branch of `visualize_move`. */
  predicate AllAccepted(b: Board, ms: seq<Move>)
    requires |b.pegs| == 3
    decreases |ms|
  {
    ms == [] || (Accepts(b.pegs, ms[0]) && AllAccepted(Visualize(b, ms[0]), ms[1..]))
  }

  /** Every move of `ms` passes `is_valid_move` on the board it is played on. */
  predicate AllLegal(b: Board, ms: seq<Move>)
    requires |b.pegs| == 3
    decreases |ms|
  {
    ms == [] || (IsValidMove(b.pegs, ms[0].from, ms[0].to) && AllLegal(Visualize(b, ms[0]), ms[1..]))
  }

  /** The pegs are stacked before the first move of `ms` and after each of its moves. */
  predicate StackedThroughout(b: Board, ms: seq<Move>)
    requires |b.pegs| == 3
    decreases |ms|
  {
    Stacked(b.pegs) && (ms == [] || StackedThroughout(Visualize(b, ms[0]), ms[1..]))
  }

  lemma {:induction false} PlayAppend(b: Board, xs: seq<Move>, ys: seq<Move>)
    requires |b.pegs| == 3
    ensures Play(b, xs + ys) == Play(Play(b, xs), ys)
    ensures AllAccepted(b, xs + ys) <==> AllAccepted(b, xs) && AllAccepted(Play(b, xs), ys)
    decreases |xs|
  {
    if xs == [] {
      assert xs + ys == ys;
    } else {
      assert (xs + ys)[0] == xs[0];
      assert (xs + ys)[1..] == xs[1..] + ys;
      PlayAppend(Visualize(b, xs[0]), xs[1..], ys);
    }
  }

  lemma {:induction false} LegalAppend(b: Board, xs: seq<Move>, ys: seq<Move>)
    requires |b.pegs| == 3
    ensures AllLegal(b, xs + ys) <==> AllLegal(b, xs) && AllLegal(Play(b, xs), ys)
    ensures StackedThroughout(b, xs + ys) <==> StackedThroughout(b, xs) && StackedThroughout(Play(b, xs), ys)
    decreases |xs|
  {
    if xs == [] {
      assert xs + ys == ys;
    } else {
      assert (xs + ys)[0] == xs[0];
      assert (xs + ys)[1..] == xs[1..] + ys;
      LegalAppend(Visualize(b, xs[0]), xs[1..], ys);
    }
  }

  /** Moves that are accepted and legal, played from stacked pegs, keep the pegs stacked. */
  lemma {:induction false} LegalRunStaysStacked(b: Board, ms: seq<Move>)
    requires |b.pegs| == 3 && Stacked(b.pegs)
    requires AllAccepted(b, ms) && AllLegal(b, ms)
    ensures StackedThroughout(b, ms)
    decreases |ms|
  {
    if ms != [] {
      ValidMoveKeepsStacked(b.pegs, ms[0].from, ms[0].to);
      LegalRunStaysStacked(Visualize(b, ms[0]), ms[1..]);
    }
  }

  lemma {:induction false} StackedAtEnd(b: Board, ms: seq<Move>)
    requires |b.pegs| == 3 && StackedThroughout(b, ms)
    ensures Stacked(Play(b, ms).pegs)
    decreases |ms|
  {
    if ms != [] {
      StackedAtEnd(Visualize(b, ms[0]), ms[1..]);
    }
  }

  /** Every disk left on a peg is larger than `n` (or the peg is empty). */
  predicate TopAbove(s: seq<int>, n: nat) {
    s == [] || Top(s) > n
  }

  /**
   * `_move(n, from, to, aux)` carries the `n` smallest disks, which sit on top of `from`,
   * over to the top of `to`: every move finds its disk on top of its source peg and passes
   * `is_valid_move` (it never lands on a smaller disk), the other disks stay where they are,
   * and the counter rises by 2^n - 1.
   */
  lemma {:induction false} SolverMovesTower(b: Board, n: nat, from: PegIndex, to: PegIndex, aux: PegIndex, rest: seq<int>)
    requires n >= 1 && |b.pegs| == 3
    requires from != to && to != aux && from != aux
    requires b.pegs[from] == rest + Down(n)
    requires TopAbove(rest, n) && TopAbove(b.pegs[to], n) && TopAbove(b.pegs[aux], n)
    ensures AllAccepted(b, SolverMoves(n, from, to, aux)) && AllLegal(b, SolverMoves(n, from, to, aux))
    ensures Play(b, SolverMoves(n, from, to, aux))
         == Board(b.pegs[from := rest][to := b.pegs[to] + Down(n)], b.moves + OptimalMoves(n))
    decreases n, 2
  {
    var p := b.pegs;
    var m := Move(from, to, n);
    if n == 1 {
      assert Down(1) == [1];
      MoveOnePlayed(b, m, rest, b.pegs[from := rest][to := p[to] + [1]]);
    } else {
      TowerInThreeParts(b, n, from, to, aux, rest);
    }
  }

  /** `_move` for two or more disks: the smaller tower aside, the largest disk, the tower back. */
  lemma {:induction false} TowerInThreeParts(b: Board, n: nat, from: PegIndex, to: PegIndex, aux: PegIndex, rest: seq<int>)
    requires n >= 2 && |b.pegs| == 3
    requires from != to && to != aux && from != aux
    requires b.pegs[from] == rest + Down(n)
    requires TopAbove(rest, n) && TopAbove(b.pegs[to], n) && TopAbove(b.pegs[aux], n)
    ensures AllAccepted(b, SolverMoves(n, from, to, aux)) && AllLegal(b, SolverMoves(n, from, to, aux))
    ensures Play(b, SolverMoves(n, from, to, aux))
         == Board(b.pegs[from := rest][to := b.pegs[to] + Down(n)], b.moves + OptimalMoves(n))
    decreases n, 1
  {
    var p := b.pegs;
    var m := Move(from, to, n);
    {
      var l := OptimalMoves(n - 1);
      var h1, h2 := SolverMoves(n - 1, from, aux, to), SolverMoves(n - 1, aux, to, from);
      assert Down(n) == [n] + Down(n - 1);
      var b1 := Board(p[from := rest + [n]][aux := p[aux] + Down(n - 1)], b.moves + l);
      TowerFirstHalf(b, n, from, to, aux, rest);
      var b2 := Board(p[from := rest][aux := p[aux] + Down(n - 1)][to := p[to] + [n]], b.moves + l + 1);
      MiddlePegs(p, n, from, to, aux, rest);
      assert b1.pegs[to] == p[to];
      MoveOnePlayed(b1, m, rest, b2.pegs);
      TowerSecondHalf(b, n, from, to, aux, rest, b2);
      assert SolverMoves(n, from, to, aux) == h1 + [m] + h2;
      ChainThree(b, h1, [m], h2, b1, b2, Play(b2, h2));
      ChainThreeLegal(b, h1, [m], h2);
    }
  }

  /** Three runs, each accepted from where the previous one ended, play as one. */
  lemma ChainThree(b: Board, xs: seq<Move>, ys: seq<Move>, zs: seq<Move>, b1: Board, b2: Board, b3: Board)
    requires |b.pegs| == 3 && |b1.pegs| == 3 && |b2.pegs| == 3
    requires AllAccepted(b, xs) && Play(b, xs) == b1
    requires AllAccepted(b1, ys) && Play(b1, ys) == b2
    requires AllAccepted(b2, zs) && Play(b2, zs) == b3
    ensures AllAccepted(b, xs + ys + zs) && Play(b, xs + ys + zs) == b3
  {
    PlayThree(b, xs, ys, zs);
  }

  lemma PlayThree(b: Board, xs: seq<Move>, ys: seq<Move>, zs: seq<Move>)
    requires |b.pegs| == 3
    requires AllAccepted(b, xs) && AllAccepted(Play(b, xs), ys) && AllAccepted(Play(Play(b, xs), ys), zs)
    ensures AllAccepted(b, xs + ys + zs)
    ensures Play(b, xs + ys + zs) == Play(Play(Play(b, xs), ys), zs)
  {
    PlayAppend(b, xs, ys);
    PlayAppend(b, xs + ys, zs);
  }

  /** Three runs, each legal from where the previous one ended, are legal as one. */
  lemma ChainThreeLegal(b: Board, xs: seq<Move>, ys: seq<Move>, zs: seq<Move>)
    requires |b.pegs| == 3
    requires AllLegal(b, xs) && AllLegal(Play(b, xs), ys) && AllLegal(Play(Play(b, xs), ys), zs)
    ensures AllLegal(b, xs + ys + zs)
  {
    PlayAppend(b, xs, ys);
    LegalAppend(b, xs, ys);
    LegalAppend(b, xs + ys, zs);
  }

  lemma {:induction false} TowerFirstHalf(b: Board, n: nat, from: PegIndex, to: PegIndex, aux: PegIndex, rest: seq<int>)
    requires n >= 2 && |b.pegs| == 3
    requires from != to && to != aux && from != aux
    requires b.pegs[from] == rest + Down(n)
    requires TopAbove(rest, n) && TopAbove(b.pegs[to], n) && TopAbove(b.pegs[aux], n)
    ensures AllAccepted(b, SolverMoves(n - 1, from, aux, to)) && AllLegal(b, SolverMoves(n - 1, from, aux, to))
    ensures Play(b, SolverMoves(n - 1, from, aux, to))
         == Board(b.pegs[from := rest + [n]][aux := b.pegs[aux] + Down(n - 1)], b.moves + OptimalMoves(n - 1))
    decreases n, 0
  {
    assert Down(n) == [n] + Down(n - 1);
    assert b.pegs[from] == (rest + [n]) + Down(n - 1);
    SolverMovesTower(b, n - 1, from, aux, to, rest + [n]);
  }

  lemma {:induction false} TowerSecondHalf(b: Board, n: nat, from: PegIndex, to: PegIndex, aux: PegIndex, rest: seq<int>, b2: Board)
    requires n >= 2 && |b.pegs| == 3
    requires from != to && to != aux && from != aux
    requires TopAbove(rest, n) && TopAbove(b.pegs[to], n) && TopAbove(b.pegs[aux], n)
    requires b2 == Board(b.pegs[from := rest][aux := b.pegs[aux] + Down(n - 1)][to := b.pegs[to] + [n]],
                         b.moves + OptimalMoves(n - 1) + 1)
    ensures AllAccepted(b2, SolverMoves(n - 1, aux, to, from)) && AllLegal(b2, SolverMoves(n - 1, aux, to, from))
    ensures Play(b2, SolverMoves(n - 1, aux, to, from))
         == Board(b.pegs[from := rest][to := b.pegs[to] + Down(n)], b.moves + OptimalMoves(n))
    decreases n, 0
  {
    var p, q := b.pegs, b2.pegs;
    assert q[aux] == p[aux] + Down(n - 1) && q[to] == p[to] + [n] && q[from] == rest;
    assert Top(q[to]) == n;
    SolverMovesTower(b2, n - 1, aux, to, from, p[aux]);
    SecondHalfPegs(p, n, from, to, aux, rest);
  }

  /** The pegs around the middle move of `_move`: disk `n` goes from `from` to `to`. */
  lemma MiddlePegs(p: Pegs, n: nat, from: PegIndex, to: PegIndex, aux: PegIndex, rest: seq<int>)
    requires n >= 1 && |p| == 3
    requires from != to && to != aux && from != aux
    ensures var q := p[from := rest + [n]][aux := p[aux] + Down(n - 1)];
      |q| == 3 && q[from] == rest + [n]
      && q[from := rest][to := q[to] + [n]] == p[from := rest][aux := p[aux] + Down(n - 1)][to := p[to] + [n]]
  {
    var q := p[from := rest + [n]][aux := p[aux] + Down(n - 1)];
    var done, want := q[from := rest][to := q[to] + [n]], p[from := rest][aux := p[aux] + Down(n - 1)][to := p[to] + [n]];
    assert done[from] == want[from] && done[to] == want[to] && done[aux] == want[aux];
  }

  /** The pegs after the second half of `_move`: the tower of `n` now sits on `to`. */
  lemma SecondHalfPegs(p: Pegs, n: nat, from: PegIndex, to: PegIndex, aux: PegIndex, rest: seq<int>)
    requires n >= 1 && |p| == 3
    requires from != to && to != aux && from != aux
    ensures var q := p[from := rest][aux := p[aux] + Down(n - 1)][to := p[to] + [n]];
      q[aux := p[aux]][to := q[to] + Down(n - 1)] == p[from := rest][to := p[to] + Down(n)]
  {
    var q := p[from := rest][aux := p[aux] + Down(n - 1)][to := p[to] + [n]];
    assert Down(n) == [n] + Down(n - 1);
    assert q[to] + Down(n - 1) == p[to] + Down(n);
    var done, want := q[aux := p[aux]][to := q[to] + Down(n - 1)], p[from := rest][to := p[to] + Down(n)];
    assert done[from] == want[from] && done[to] == want[to] && done[aux] == want[aux];
  }

  /** One solver move whose disk is on top of its source peg. */
  lemma MoveOnePlayed(b: Board, m: Move, rest: seq<int>, after: Pegs)
    requires |b.pegs| == 3 && m.from != m.to
    requires b.pegs[m.from] == rest + [m.disk]
    requires b.pegs[m.to] == [] || m.disk < Top(b.pegs[m.to])
    requires after == b.pegs[m.from := rest][m.to := b.pegs[m.to] + [m.disk]]
    ensures AllAccepted(b, [m]) && AllLegal(b, [m]) && Play(b, [m]) == Board(after, b.moves + 1)
  {
    assert Pop(rest + [m.disk]) == rest;
    assert Accepts(b.pegs, m);
    assert Visualize(b, m) == Board(after, b.moves + 1);
    assert [m][1..] == [];
  }

  /**
   * Started from the initial position, the solver never trips the guard in `visualize_move`,
   * makes only moves `is_valid_move` allows, so that no disk ever sits on a smaller one,
   * ends with all `n` disks on the third peg (so `_check_victory` fires) and counts 2^n - 1 moves.
   */
  lemma SolveFromInitialWins(n: nat)
    requires n >= 1
    ensures AllAccepted(Board(Initial(n), 0), SolverMoves(n, 0, 2, 1))
    ensures AllLegal(Board(Initial(n), 0), SolverMoves(n, 0, 2, 1))
    ensures StackedThroughout(Board(Initial(n), 0), SolverMoves(n, 0, 2, 1))
    ensures Play(Board(Initial(n), 0), SolverMoves(n, 0, 2, 1)) == Board([[], [], Down(n)], OptimalMoves(n))
    ensures |Play(Board(Initial(n), 0), SolverMoves(n, 0, 2, 1)).pegs[2]| == n
  {
    assert Initial(n)[0] == [] + Down(n);
    SolverMovesTower(Board(Initial(n), 0), n, 0, 2, 1, []);
    InitialStacked(n);
    LegalRunStaysStacked(Board(Initial(n), 0), SolverMoves(n, 0, 2, 1));
    assert Initial(n)[0 := []][2 := [] + Down(n)] == [[], [], Down(n)];
    DownLength(n);
  }

  /**
   * A solve cut short by `stop_solving` also makes only moves `is_valid_move` allows, leaves
   * every peg stacked after each of them, and counts each of them.
   */
  lemma CancelledSolveIsLegal(n: nat, stopAt: nat)
    requires n >= 1
    ensures AllAccepted(Board(Initial(n), 0), SolveMoves(n, stopAt))
    ensures AllLegal(Board(Initial(n), 0), SolveMoves(n, stopAt))
    ensures StackedThroughout(Board(Initial(n), 0), SolveMoves(n, stopAt))
    ensures Stacked(Play(Board(Initial(n), 0), SolveMoves(n, stopAt)).pegs)
    ensures Play(Board(Initial(n), 0), SolveMoves(n, stopAt)).moves == |SolveMoves(n, stopAt)|
  {
    var all := SolverMoves(n, 0, 2, 1);
    StoppedSolveIssuesNoMore(n, stopAt);
    var k := |SolveMoves(n, stopAt)|;
    SolveFromInitialWins(n);
    assert all == all[..k] + all[k..];
    PlayAppend(Board(Initial(n), 0), all[..k], all[k..]);
    LegalAppend(Board(Initial(n), 0), all[..k], all[k..]);
    AcceptedMovesCounted(Board(Initial(n), 0), all[..k]);
    StackedAtEnd(Board(Initial(n), 0), all[..k]);
  }

  /** Each accepted move adds exactly one to `moves_count`. */
  lemma {:induction false} AcceptedMovesCounted(b: Board, ms: seq<Move>)
    requires |b.pegs| == 3 && AllAccepted(b, ms)
    ensures Play(b, ms).moves == b.moves + |ms|
    decreases |ms|
  {
    if ms != [] {
      AcceptedMovesCounted(Visualize(b, ms[0]), ms[1..]);
    }
  }

  /** `HanoiSolver`: the cancellation flag around the recursive solver. */
  class Solver {
    const numDisks: nat
    var solving: bool

    constructor (numDisks: nat)
      ensures this.numDisks == numDisks && !solving
    {
      this.numDisks := numDisks;
      solving := false;
    }

    /**
     * `solve()`: raise the flag, run `_move(num_disks, 0, 2, 1)` until it finishes or the flag
     * is cleared after `stopAt` moves, then lower the flag. Returns the moves issued.
     */
    method Solve(stopAt: nat) returns (issued: seq<Move>)
      requires numDisks >= 1
      modifies this
      ensures issued == SolveMoves(numDisks, stopAt)
      ensures !solving
    {
      solving := true;
      issued := SolverRun(numDisks, 0, 2, 1, 0, stopAt);
      solving := false;
    }

    /** `stop_solving()`: clears the flag that `_move` tests. */
    method StopSolving()
      modifies this
      ensures !solving
    {
      solving := false;
    }
  }
}
