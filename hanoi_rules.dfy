/**
 * The logical state of the Towers of Hanoi game: three pegs, each a list of integer disk
 * sizes from bottom to top, the legality rule for a move, the peg picked by a canvas
 * x coordinate, and the single moves the game performs on the pegs.
 */
module HanoiRules {

  /** Three pegs; each lists its disk sizes from bottom to top. */
  type Pegs = seq<seq<int>>

  /** Central x coordinate of each peg on the canvas. */
  const PegX: seq<int> := [100, 300, 500]

  function Top(s: seq<int>): int
    requires s != []
  {
    s[|s| - 1]
  }

  function Pop(s: seq<int>): seq<int>
    requires s != []
  {
    s[..|s| - 1]
  }

  /** Disks n, n-1, ..., 1: the first peg after initialisation, bottom to top. */
  function Down(n: nat): seq<int> {
    if n == 0 then [] else [n] + Down(n - 1)
  }

  /** Every disk sits on a larger one. */
  predicate StrictlyDecreasing(s: seq<int>) {
    forall i, j :: 0 <= i < j < |s| ==> s[i] > s[j]
  }

  predicate Stacked(p: Pegs) {
    |p| == 3 && forall k :: 0 <= k < 3 ==> StrictlyDecreasing(p[k])
  }

  /** All disks on the three pegs. */
  function Disks(p: Pegs): multiset<int>
    requires |p| == 3
  {
    multiset(p[0]) + multiset(p[1]) + multiset(p[2])
  }

  /** The game's starting position for `n` disks. */
  function Initial(n: nat): Pegs {
    [Down(n), [], []]
  }

  /** `is_valid_move`: the top disk of `from` may go on top of `to`. */
  function IsValidMove(p: Pegs, from: nat, to: nat): bool
    requires |p| == 3 && from < 3 && to < 3
  {
    if p[from] == [] then false
    else if p[to] == [] then true
    else Top(p[from]) < Top(p[to])
  }

  /** `_get_tower_index_from_x`: the peg whose zone, split at the midpoints between pegs, holds `x`. */
  function TowerIndexFromX(x: int): (k: nat)
    ensures k < 3
    ensures k == 0 <==> x < 200
    ensures k == 1 <==> 200 <= x < 400
    ensures k == 2 <==> 400 <= x
  {
    if (x as real) < (PegX[0] + PegX[1]) as real / 2.0 then 0
    else if (x as real) < (PegX[1] + PegX[2]) as real / 2.0 then 1
    else 2
  }

  /** Pop the top disk of `from` and append it to `to` (the same list when `from == to`). */
  function MoveTop(p: Pegs, from: nat, to: nat): Pegs
    requires |p| == 3 && from < 3 && to < 3 && p[from] != []
  {
    var d := Top(p[from]);
    var q := p[from := Pop(p[from])];
    q[to := q[to] + [d]]
  }

  lemma MultisetOfPop(s: seq<int>)
    requires s != []
    ensures multiset(s) == multiset(Pop(s)) + multiset{Top(s)}
  {
    assert s == Pop(s) + [Top(s)];
  }

  /** Moving a top disk neither creates nor loses a disk. */
  lemma MoveTopKeepsDisks(p: Pegs, from: nat, to: nat)
    requires |p| == 3 && from < 3 && to < 3 && p[from] != []
    ensures |MoveTop(p, from, to)| == 3
    ensures Disks(MoveTop(p, from, to)) == Disks(p)
  {
    var d := Top(p[from]);
    var q := p[from := Pop(p[from])];
    MultisetOfPop(p[from]);
    assert Disks(q) + multiset{d} == Disks(p);
    assert multiset(q[to] + [d]) == multiset(q[to]) + multiset{d};
  }

  lemma AppendSmallerKeepsDecreasing(s: seq<int>, d: int)
    requires StrictlyDecreasing(s)
    requires s == [] || d < Top(s)
    ensures StrictlyDecreasing(s + [d])
  {
  }

  /** A legal move keeps every peg stacked largest to smallest. */
  lemma ValidMoveKeepsStacked(p: Pegs, from: nat, to: nat)
    requires Stacked(p) && from < 3 && to < 3 && IsValidMove(p, from, to)
    ensures from != to
    ensures Stacked(MoveTop(p, from, to))
  {
    var d := Top(p[from]);
    var q := p[from := Pop(p[from])];
    assert StrictlyDecreasing(q[from]);
    AppendSmallerKeepsDecreasing(q[to], d);
  }

  // ---------------------------------------------------------------- list.sort(reverse=True)

  predicate NonIncreasing(s: seq<int>) {
    forall i, j :: 0 <= i < j < |s| ==> s[i] >= s[j]
  }

  /** Insert `x` into a non-increasing list after every element larger than it. */
  function InsertDesc(xs: seq<int>, x: int): seq<int> {
    if xs == [] then [x]
    else if x >= xs[0] then [x] + xs
    else [xs[0]] + InsertDesc(xs[1..], x)
  }

  /** `sorted(s, reverse=True)`, by insertion. */
  function SortDesc(s: seq<int>): seq<int> {
    if s == [] then [] else InsertDesc(SortDesc(s[1..]), s[0])
  }

  /** Putting a head no smaller than every element in front keeps the order. */
  lemma ConsNonIncreasing(h: int, r: seq<int>)
    requires NonIncreasing(r)
    requires forall k :: 0 <= k < |r| ==> r[k] <= h
    ensures NonIncreasing([h] + r)
  {
    forall i, j | 0 <= i < j < |[h] + r| ensures ([h] + r)[i] >= ([h] + r)[j] {
      assert ([h] + r)[j] == r[j - 1];
      if i > 0 {
        assert ([h] + r)[i] == r[i - 1];
      }
    }
  }

  /** Inserting adds exactly the inserted disk. */
  lemma {:induction false} InsertDescMultiset(xs: seq<int>, x: int)
    ensures multiset(InsertDesc(xs, x)) == multiset(xs) + multiset{x}
    ensures |InsertDesc(xs, x)| == |xs| + 1
    decreases |xs|
  {
    if xs != [] && x < xs[0] {
      InsertDescMultiset(xs[1..], x);
      assert xs == [xs[0]] + xs[1..];
    }
  }

  /** Every element of a non-increasing list is at most its head. */
  lemma HeadIsLargest(xs: seq<int>, e: int)
    requires NonIncreasing(xs) && xs != []
    requires e in multiset(xs[1..])
    ensures e <= xs[0]
  {
    var k :| 0 <= k < |xs[1..]| && xs[1..][k] == e;
    assert xs[k + 1] == e;
  }

  lemma {:induction false} InsertDescCorrect(xs: seq<int>, x: int)
    requires NonIncreasing(xs)
    ensures multiset(InsertDesc(xs, x)) == multiset(xs) + multiset{x}
    ensures NonIncreasing(InsertDesc(xs, x))
    ensures |InsertDesc(xs, x)| == |xs| + 1
    decreases |xs|
  {
    InsertDescMultiset(xs, x);
    if xs != [] && x < xs[0] {
      var r := InsertDesc(xs[1..], x);
      InsertDescCorrect(xs[1..], x);
      forall k | 0 <= k < |r| ensures r[k] <= xs[0] {
        assert r[k] in multiset(r);
        if r[k] != x {
          HeadIsLargest(xs, r[k]);
        }
      }
      ConsNonIncreasing(xs[0], r);
    } else if xs != [] {
      forall k | 0 <= k < |xs| ensures xs[k] <= x {
        assert xs[0] >= xs[k] || k == 0;
      }
      ConsNonIncreasing(x, xs);
    }
  }

  /** The sort returns the same disks in non-increasing order. */
  lemma {:induction false} SortDescCorrect(s: seq<int>)
    ensures multiset(SortDesc(s)) == multiset(s)
    ensures NonIncreasing(SortDesc(s))
    decreases |s|
  {
    if s != [] {
      SortDescCorrect(s[1..]);
      InsertDescCorrect(SortDesc(s[1..]), s[0]);
      assert s == [s[0]] + s[1..];
    }
  }

  /** Sorting a list that is already in non-increasing order leaves it as it is. */
  lemma {:induction false} SortDescOfSorted(s: seq<int>)
    requires NonIncreasing(s)
    ensures SortDesc(s) == s
    decreases |s|
  {
    if s != [] {
      SortDescOfSorted(s[1..]);
      assert s == [s[0]] + s[1..];
    }
  }

  /**
   * `_deselect_disk(return_to_orig=True)` on the origin peg: the selected size goes back only
   * when the peg lacks it, and the peg is then re-sorted largest first.
   */
  function ReturnToPeg(s: seq<int>, x: int): seq<int> {
    if x in s then s else SortDesc(s + [x])
  }

  /** Putting a popped top disk back restores the peg it came from. */
  lemma ReturnUndoesPop(s: seq<int>)
    requires s != [] && StrictlyDecreasing(s)
    ensures ReturnToPeg(Pop(s), Top(s)) == s
  {
    assert s == Pop(s) + [Top(s)];
    assert Top(s) !in Pop(s);
    SortDescOfSorted(s);
  }

  // ---------------------------------------------------------------- the disk set

  lemma {:induction false} DownMembers(n: nat, x: int)
    ensures x in Down(n) <==> 1 <= x <= n
    decreases n
  {
    if n > 0 {
      DownMembers(n - 1, x);
    }
  }

  /** Each disk size occurs at most once among disks 1..n. */
  lemma {:induction false} DownDistinct(n: nat, x: int)
    ensures multiset(Down(n))[x] <= 1
    decreases n
  {
    if n > 0 {
      DownDistinct(n - 1, x);
      DownMembers(n - 1, n);
      assert multiset(Down(n)) == multiset{n} + multiset(Down(n - 1));
    }
  }

  lemma {:induction false} DownAt(n: nat, k: nat)
    requires k < n
    ensures |Down(n)| == n && Down(n)[k] == n - k
    decreases n
  {
    if k > 0 {
      DownAt(n - 1, k - 1);
    } else {
      DownLength(n);
    }
  }

  lemma {:induction false} DownLength(n: nat)
    ensures |Down(n)| == n
    decreases n
  {
    if n > 0 {
      DownLength(n - 1);
    }
  }

  /** The starting position is stacked: disks n..1 from bottom to top, the other pegs empty. */
  lemma InitialStacked(n: nat)
    ensures Stacked(Initial(n))
  {
    var d := Down(n);
    DownLength(n);
    forall i, j | 0 <= i < j < |d| ensures d[i] > d[j] {
      DownAt(n, i);
      DownAt(n, j);
    }
  }

  lemma DisksAppend(p: Pegs, k: nat, x: int)
    requires |p| == 3 && k < 3
    ensures Disks(p[k := p[k] + [x]]) == Disks(p) + multiset{x}
  {
    assert multiset(p[k] + [x]) == multiset(p[k]) + multiset{x};
  }

  lemma DisksPop(p: Pegs, k: nat)
    requires |p| == 3 && k < 3 && p[k] != []
    ensures Disks(p[k := Pop(p[k])]) + multiset{Top(p[k])} == Disks(p)
  {
    MultisetOfPop(p[k]);
  }

  lemma DisksReplace(p: Pegs, k: nat, s: seq<int>)
    requires |p| == 3 && k < 3
    ensures Disks(p[k := s]) == Disks(p) - multiset(p[k]) + multiset(s)
  {
  }
}
