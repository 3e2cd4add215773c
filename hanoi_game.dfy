/**
 * The logical side of the `HanoiGame` window: the pegs and the move counter that drag,
 * click-to-move and the automatic solver update in place. Canvas items, colours, timers
 * and message boxes are left out; a canvas disk is identified by its size, because the
 * game keeps exactly one canvas item per size.
 */
module HanoiGame {
  import opened Wrappers
  import opened HanoiRules
  import opened HanoiSolver

  /** A disk taken by the mouse: its size and the peg it was taken from. */
  datatype Held = Held(size: int, peg: PegIndex)

  /** The disk the click-to-move selection holds off the pegs, if any. */
  function HeldDisks(h: Option<Held>): multiset<int> {
    if h.Some? then multiset{h.value.size} else multiset{}
  }

  /** `x` may sit on top of peg `s`. */
  predicate Fits(s: seq<int>, x: int) {
    s == [] || x < Top(s)
  }

  /** The pegs with the held disk put back on top of the peg it came from. */
  function Restored(p: Pegs, h: Held): Pegs
    requires |p| == 3
  {
    p[h.peg := p[h.peg] + [h.size]]
  }

  /**
   * The peg found by the search loops of the click handlers: the first peg whose top disk
   * has the given size, or -1.
   */
  function PegWithTop(p: Pegs, size: int): (k: int)
    requires |p| == 3
    ensures -1 <= k < 3
    ensures k >= 0 ==> p[k] != [] && Top(p[k]) == size
    ensures k >= 0 ==> forall j :: 0 <= j < k ==> !(p[j] != [] && Top(p[j]) == size)
    ensures k == -1 <==> forall j :: 0 <= j < 3 ==> !(p[j] != [] && Top(p[j]) == size)
  {
    if p[0] != [] && Top(p[0]) == size then 0
    else if p[1] != [] && Top(p[1]) == size then 1
    else if p[2] != [] && Top(p[2]) == size then 2
    else -1
  }

  /** The `for peg_idx in range(3)` search of `_handle_disk_click_for_selection`. */
  method FindPegWithTop(p: Pegs, size: int) returns (k: int)
    requires |p| == 3
    ensures k == PegWithTop(p, size)
  {
    k := -1;
    var i := 0;
    while i < 3
      invariant 0 <= i <= 3
      invariant forall j :: 0 <= j < i ==> !(p[j] != [] && Top(p[j]) == size)
    {
      if p[i] != [] && Top(p[i]) == size {
        k := i;
        return;
      }
      i := i + 1;
    }
  }

  /** The loop of `_initialize_game` that appends sizes n down to 1 to the first peg. */
  method StackDisks(n: nat) returns (s: seq<int>)
    ensures s == Down(n)
  {
    DownLength(n);
    s := [];
    var i := n;
    while i > 0
      invariant 0 <= i <= n
      invariant s == Down(n)[..n - i]
    {
      DownAt(n, n - i);
      assert Down(n)[..n - i + 1] == Down(n)[..n - i] + [i];
      s := s + [i];
      i := i - 1;
    }
  }

  // ---------------------------------------------------------------- click-to-move drop

  /**
   * The pegs after `_try_move_selected_disk(target)` when the selected disk `h` is off the
   * pegs: `is_valid_move(orig, target)` runs on the pegs as they are, that is on the disk
   * that was under the selected one; if it passes, the selected size is appended to the
   * target, otherwise `_deselect_disk(return_to_orig=True)` puts it back.
   */
  function ClickDrop(p: Pegs, h: Held, target: PegIndex): (r: Pegs)
    requires |p| == 3
    ensures |r| == 3
  {
    if IsValidMove(p, h.peg, target) then p[target := p[target] + [h.size]]
    else p[h.peg := ReturnToPeg(p[h.peg], h.size)]
  }

  /** A drop neither loses nor creates a disk: the held disk ends up on a peg. */
  lemma ClickDropKeepsDisks(p: Pegs, h: Held, target: PegIndex)
    requires |p| == 3 && h.size !in p[h.peg]
    ensures Disks(ClickDrop(p, h, target)) == Disks(p) + multiset{h.size}
  {
    if IsValidMove(p, h.peg, target) {
      DisksAppend(p, target, h.size);
    } else {
      SortDescCorrect(p[h.peg] + [h.size]);
      DisksReplace(p, h.peg, ReturnToPeg(p[h.peg], h.size));
    }
  }

  /**
   * When the held disk was the top of its peg, a drop keeps every peg stacked, and a
   * rejected drop restores the position the disk was taken from.
   */
  lemma ClickDropKeepsStacked(p: Pegs, h: Held, target: PegIndex)
    requires Stacked(p) && Fits(p[h.peg], h.size)
    ensures Stacked(ClickDrop(p, h, target))
    ensures !IsValidMove(p, h.peg, target) ==> ClickDrop(p, h, target) == Restored(p, h)
  {
    AppendSmallerKeepsDecreasing(p[h.peg], h.size);
    if IsValidMove(p, h.peg, target) {
      AppendSmallerKeepsDecreasing(p[target], h.size);
    } else {
      assert h.size !in p[h.peg];
      SortDescOfSorted(p[h.peg] + [h.size]);
    }
  }

  /** Every drop the game accepts is a legal move of the held disk from its origin peg. */
  lemma ClickDropAcceptsOnlyLegal(p: Pegs, h: Held, target: PegIndex)
    requires |p| == 3 && Fits(p[h.peg], h.size) && IsValidMove(p, h.peg, target)
    ensures IsValidMove(Restored(p, h), h.peg, target)
    ensures target != h.peg
  {
  }

  /** A disk that was alone on its peg can never be moved by clicking: every drop returns it. */
  lemma ClickDropLoneDisk(p: Pegs, h: Held, target: PegIndex)
    requires |p| == 3 && p[h.peg] == []
    ensures ClickDrop(p, h, target) == Restored(p, h)
  {
    assert p[h.peg] + [h.size] == [h.size];
    assert [h.size][1..] == [];
    assert SortDesc([h.size]) == [h.size];
  }

  /**
   * A legal move that the click path refuses: disk 1 taken from [3, 1] cannot go on disk 2,
   * because the check compares disk 3, which stays under it, with disk 2.
   */
  lemma ClickDropRefusesLegalMove()
    ensures IsValidMove(Restored([[3], [2], []], Held(1, 0)), 0, 1)
    ensures ClickDrop([[3], [2], []], Held(1, 0), 1) == [[3, 1], [2], []]
  {
    var p: Pegs := [[3], [2], []];
    assert [3] + [1] == [3, 1];
    assert Restored(p, Held(1, 0))[0] == [3, 1];
    assert !IsValidMove(p, 0, 1);
    assert [3, 1][1..] == [1] && [1][1..] == [];
    assert SortDesc([1]) == [1];
    assert SortDesc([3, 1]) == [3, 1];
    assert ReturnToPeg(p[0], 1) == [3, 1];
  }

  // ---------------------------------------------------------------- invariants on values

  /** The disks on the pegs, with the selected one, are exactly 1..n. */
  ghost predicate Conserved(n: nat, p: Pegs, sel: Option<Held>) {
    |p| == 3 && Disks(p) + HeldDisks(sel) == multiset(Down(n))
  }

  /** Every peg is stacked, and a selected disk still fits on the peg it came from. */
  ghost predicate Tidy(p: Pegs, sel: Option<Held>) {
    Stacked(p) && (sel.Some? ==> Fits(p[sel.value.peg], sel.value.size))
  }

  /** `_initialize_game` leaves every disk 1..n on the pegs, largest at the bottom. */
  lemma InitialIsConservedAndTidy(n: nat)
    ensures Conserved(n, Initial(n), None) && Tidy(Initial(n), None)
  {
    InitialStacked(n);
  }

  /** A selected disk is on no peg. */
  lemma HeldIsOffPegs(n: nat, p: Pegs, h: Held)
    requires Conserved(n, p, Some(h))
    ensures h.size !in p[h.peg]
  {
    DownDistinct(n, h.size);
  }

  /** Selecting the top disk of peg `k` keeps the disk set, and a tidy position stays tidy. */
  lemma PickUpKeepsInvariants(n: nat, p: Pegs, k: PegIndex)
    requires Conserved(n, p, None) && p[k] != []
    ensures Conserved(n, p[k := Pop(p[k])], Some(Held(Top(p[k]), k)))
    ensures Tidy(p, None) ==> Tidy(p[k := Pop(p[k])], Some(Held(Top(p[k]), k)))
  {
    DisksPop(p, k);
    if Tidy(p, None) {
      var s := p[k];
      assert StrictlyDecreasing(s);
      if Pop(s) != [] {
        assert Top(Pop(s)) == s[|s| - 2];
      }
    }
  }

  /** Dropping the selected disk keeps the disk set and, from a tidy position, the stacking. */
  lemma DropKeepsInvariants(n: nat, p: Pegs, h: Held, target: PegIndex)
    requires Conserved(n, p, Some(h))
    ensures Conserved(n, ClickDrop(p, h, target), None)
    ensures Tidy(p, Some(h)) ==> Tidy(ClickDrop(p, h, target), None)
  {
    HeldIsOffPegs(n, p, h);
    ClickDropKeepsDisks(p, h, target);
    if Tidy(p, Some(h)) {
      ClickDropKeepsStacked(p, h, target);
    }
  }

  /** Moving a top disk, as `visualize_move` does without checking legality, keeps the disk set. */
  lemma MoveKeepsConserved(n: nat, p: Pegs, sel: Option<Held>, from: PegIndex, to: PegIndex)
    requires Conserved(n, p, sel) && p[from] != []
    ensures Conserved(n, MoveTop(p, from, to), sel)
  {
    MoveTopKeepsDisks(p, from, to);
  }

  /** A drag that `is_valid_move` allows keeps the disk set and, from a tidy position, the stacking. */
  lemma DragKeepsInvariants(n: nat, p: Pegs, from: PegIndex, to: PegIndex)
    requires Conserved(n, p, None) && IsValidMove(p, from, to)
    ensures Conserved(n, MoveTop(p, from, to), None)
    ensures Tidy(p, None) ==> Tidy(MoveTop(p, from, to), None)
  {
    MoveTopKeepsDisks(p, from, to);
    if Tidy(p, None) {
      ValidMoveKeepsStacked(p, from, to);
    }
  }

  /** With all n disks on the first peg, no disk can be selected. */
  lemma InitialLayoutHoldsNoSelection(n: nat, p: Pegs, sel: Option<Held>)
    requires Conserved(n, p, sel) && |p[0]| == n && p[1] == [] && p[2] == []
    ensures sel.None?
  {
    DownLength(n);
    assert |Disks(p) + HeldDisks(sel)| == n;
  }

  /**
   * `_check_victory`'s test, `len(pegs[2]) == num_disks`, holds exactly when every disk is on
   * the third peg and none is selected.
   */
  lemma VictoryMeansAllOnLast(n: nat, p: Pegs, sel: Option<Held>)
    requires Conserved(n, p, sel)
    ensures |p[2]| == n <==> p[0] == [] && p[1] == [] && sel.None? && multiset(p[2]) == multiset(Down(n))
  {
    DownLength(n);
    assert |Disks(p) + HeldDisks(sel)| == n;
  }

  // ---------------------------------------------------------------- the game object

  class Game {
    const numDisks: nat
    var pegs: Pegs
    var movesCount: nat
    var autoSolving: bool
    /** `moving_disk_id` and `orig_tower_index`: the disk pressed for a drag. */
    var moving: Option<Held>
    /** `selected_disk_*`: the disk taken off its peg by click-to-move. */
    var selected: Option<Held>
    var solver: Solver

    ghost predicate Valid()
      reads this
    {
      |pegs| == 3 && solver.numDisks == numDisks
    }

    function Current(): Board
      reads this
    {
      Board(pegs, movesCount)
    }

    constructor (numDisks: nat)
      ensures Valid() && this.numDisks == numDisks
      ensures pegs == Initial(numDisks) && movesCount == 0
      ensures !autoSolving && moving.None? && selected.None?
      ensures fresh(solver) && !solver.solving
    {
      this.numDisks := numDisks;
      pegs := [[], [], []];
      movesCount := 0;
      autoSolving := false;
      moving := None;
      selected := None;
      solver := new Solver(numDisks);
      new;
      InitializeGame();
    }

    /** `_stop_auto_solve`: when auto-solve runs, clear the solver's flag and leave it. */
    method StopAutoSolve()
      modifies this, solver
      ensures !autoSolving && solver == old(solver)
      ensures old(autoSolving) ==> !solver.solving
      ensures !old(autoSolving) ==> solver.solving == old(solver.solving)
      ensures pegs == old(pegs) && movesCount == old(movesCount)
      ensures moving == old(moving) && selected == old(selected)
    {
      if autoSolving {
        solver.StopSolving();
        autoSolving := false;
      }
    }

    /**
     * `_initialize_game`, logical part: stop auto-solve, clear the drag and the selection,
     * reset the counter and stack disks n..1 on the first peg.
     */
    method InitializeGame()
      requires solver.numDisks == numDisks
      modifies this, solver
      ensures Valid()
      ensures pegs == Initial(numDisks) && movesCount == 0
      ensures !autoSolving && moving.None? && selected.None?
      ensures solver == old(solver)
      ensures old(autoSolving) ==> !solver.solving
      ensures !old(autoSolving) ==> solver.solving == old(solver.solving)
    {
      StopAutoSolve();
      pegs := [[], [], []];
      movesCount := 0;
      moving := None;
      selected := None;
      var first := StackDisks(numDisks);
      pegs := [first, [], []];
    }

    /**
     * `visualize_move`, logical part: during auto-solve, when the named disk is on top of the
     * source peg it moves to the target and the counter goes up by one; otherwise nothing
     * changes.
     */
    method VisualizeMove(m: Move)
      requires Valid()
      modifies this
      ensures Valid()
      ensures Current() == if old(autoSolving) then Visualize(old(Current()), m) else old(Current())
      ensures autoSolving == old(autoSolving) && moving == old(moving) && selected == old(selected)
      ensures solver == old(solver)
    {
      if !autoSolving {
        return;
      }
      if pegs[m.from] != [] && Top(pegs[m.from]) == m.disk {
        pegs := MoveTop(pegs, m.from, m.to);
        movesCount := movesCount + 1;
      }
    }

    /** The first peg holds all n disks and the other two are empty. */
    predicate InInitialLayout()
      reads this
      requires |pegs| == 3
    {
      |pegs[0]| == numDisks && pegs[1] == [] && pegs[2] == []
    }

    /**
     * `_auto_solve`, logical part: unless already solving, reset the game when the disks are
     * not all on the first peg, then raise the auto-solve flag.
     */
    method StartAutoSolve()
      requires Valid()
      modifies this, solver
      ensures Valid() && autoSolving && solver == old(solver)
      ensures old(autoSolving) || old(InInitialLayout()) ==>
                Current() == old(Current()) && selected == old(selected) && moving == old(moving)
      ensures !old(autoSolving) && !old(InInitialLayout()) ==>
                pegs == Initial(numDisks) && movesCount == 0 && selected.None? && moving.None?
    {
      if autoSolving {
        return;
      }
      if !InInitialLayout() {
        InitializeGame();
      }
      autoSolving := true;
    }

    /** `_auto_solve_finished`: lower the auto-solve flag. */
    method AutoSolveFinished()
      modifies this
      ensures !autoSolving
      ensures pegs == old(pegs) && movesCount == old(movesCount)
      ensures moving == old(moving) && selected == old(selected) && solver == old(solver)
    {
      autoSolving := false;
    }

    /**
     * The solver thread: `solver.solve()` hands each issued move to `visualize_move`, then
     * calls `_auto_solve_finished`. `stopAt` is the move after which `stop_solving` clears
     * the flag. Started from the initial layout, every move is counted and passes
     * `is_valid_move`, the pegs stay stacked after each move, and an uninterrupted run ends
     * with the whole tower on the third peg after 2^n - 1 moves.
     */
    method SolveAndShow(stopAt: nat)
      requires Valid() && autoSolving && numDisks >= 1
      modifies this, solver
      ensures Valid() && !autoSolving && solver == old(solver) && !solver.solving
      ensures Current() == Play(old(Current()), SolveMoves(numDisks, stopAt))
      ensures old(Current()) == Board(Initial(numDisks), 0) ==> movesCount == |SolveMoves(numDisks, stopAt)|
      ensures old(Current()) == Board(Initial(numDisks), 0) ==>
                AllLegal(old(Current()), SolveMoves(numDisks, stopAt))
                && StackedThroughout(old(Current()), SolveMoves(numDisks, stopAt)) && Stacked(pegs)
      ensures old(Current()) == Board(Initial(numDisks), 0) && stopAt >= OptimalMoves(numDisks) ==>
                pegs == [[], [], Down(numDisks)] && movesCount == OptimalMoves(numDisks)
    {
      var start := Current();
      var issued := solver.Solve(stopAt);
      var i := 0;
      while i < |issued|
        invariant 0 <= i <= |issued|
        invariant Valid() && autoSolving && solver == old(solver) && !solver.solving
        invariant Current() == Play(start, issued[..i])
      {
        VisualizeMove(issued[i]);
        PlayAppend(start, issued[..i], [issued[i]]);
        assert issued[..i + 1] == issued[..i] + [issued[i]];
        i := i + 1;
      }
      assert issued[..|issued|] == issued;
      AutoSolveFinished();
      if start == Board(Initial(numDisks), 0) {
        CancelledSolveIsLegal(numDisks, stopAt);
        if stopAt >= OptimalMoves(numDisks) {
          UncancelledSolveIsComplete(numDisks, stopAt);
          SolveFromInitialWins(numDisks);
        }
      }
    }

    /** `_check_victory`'s test: the third peg holds `num_disks` disks. */
    predicate CheckVictory()
      reads this
      requires Valid()
    {
      |pegs[2]| == numDisks
    }

    /** `_deselect_disk`: optionally put the selected disk back, then clear the selection. */
    method DeselectDisk(returnToOrig: bool)
      requires Valid()
      modifies this
      ensures Valid() && selected.None?
      ensures pegs == if old(selected).Some? && returnToOrig
                      then old(pegs)[old(selected).value.peg := ReturnToPeg(old(pegs)[old(selected).value.peg], old(selected).value.size)]
                      else old(pegs)
      ensures movesCount == old(movesCount) && autoSolving == old(autoSolving)
      ensures moving == old(moving) && solver == old(solver)
    {
      if selected.Some? {
        if returnToOrig {
          var h := selected.value;
          if h.size !in pegs[h.peg] {
            pegs := pegs[h.peg := SortDesc(pegs[h.peg] + [h.size])];
          }
        }
        selected := None;
      }
    }

    /**
     * `_try_move_selected_disk(target)`: with a disk selected, drop it on `target` when
     * `is_valid_move(orig, target)` holds on the pegs (counting one move), otherwise return
     * it to its peg; the selection is cleared either way.
     */
    method TryMoveSelectedDisk(target: PegIndex)
      requires Valid()
      modifies this
      ensures Valid()
      ensures old(selected).None? ==> Current() == old(Current()) && selected == old(selected)
      ensures old(selected).Some? ==>
                selected.None? && pegs == ClickDrop(old(pegs), old(selected).value, target)
                && movesCount == old(movesCount) + (if IsValidMove(old(pegs), old(selected).value.peg, target) then 1 else 0)
      ensures autoSolving == old(autoSolving) && moving == old(moving) && solver == old(solver)
    {
      if selected.None? {
        return;
      }
      var h := selected.value;
      if IsValidMove(pegs, h.peg, target) {
        pegs := pegs[target := pegs[target] + [h.size]];
        movesCount := movesCount + 1;
        DeselectDisk(false);
      } else {
        DeselectDisk(true);
      }
    }

    /**
     * `_handle_disk_click_for_selection` for a click on the disk of size `clickedSize`:
     * without a selection, the disk is selected and popped when it is the top of a peg;
     * with one, the selected disk is dropped on the peg whose top is the clicked disk.
     */
    method HandleDiskClickForSelection(clickedSize: int)
      requires Valid()
      modifies this
      ensures Valid()
      ensures PegWithTop(old(pegs), clickedSize) == -1 ==> Current() == old(Current()) && selected == old(selected)
      ensures old(selected).None? && PegWithTop(old(pegs), clickedSize) >= 0 ==>
                var k := PegWithTop(old(pegs), clickedSize);
                selected == Some(Held(clickedSize, k)) && pegs == old(pegs)[k := Pop(old(pegs)[k])]
                && movesCount == old(movesCount)
      ensures old(selected).Some? && PegWithTop(old(pegs), clickedSize) >= 0 ==>
                var h := old(selected).value;
                var k := PegWithTop(old(pegs), clickedSize);
                selected.None? && pegs == ClickDrop(old(pegs), h, k)
                && movesCount == old(movesCount) + (if IsValidMove(old(pegs), h.peg, k) then 1 else 0)
      ensures autoSolving == old(autoSolving) && moving == old(moving) && solver == old(solver)
    {
      var k := FindPegWithTop(pegs, clickedSize);
      if k == -1 {
        return;
      }
      if selected.None? {
        selected := Some(Held(clickedSize, k));
        pegs := pegs[k := Pop(pegs[k])];
      } else {
        TryMoveSelectedDisk(k);
      }
    }

    /**
     * `_handle_canvas_click_or_disk_press` on the disk of size `clickedSize` at canvas
     * abscissa `x`: with a selection, a press on the selected disk returns it to its peg and
     * a press on another disk drops the selection on the peg under `x`; without one, a press
     * on the top disk of a peg starts a drag.
     */
    method PressOnDisk(clickedSize: int, x: int)
      requires Valid()
      modifies this
      ensures Valid()
      ensures old(autoSolving) ==> Current() == old(Current()) && moving == old(moving) && selected == old(selected)
      ensures !old(autoSolving) && old(selected).Some? && clickedSize != old(selected).value.size ==>
                var h := old(selected).value;
                selected.None? && pegs == ClickDrop(old(pegs), h, TowerIndexFromX(x))
                && movesCount == old(movesCount) + (if IsValidMove(old(pegs), h.peg, TowerIndexFromX(x)) then 1 else 0)
      ensures !old(autoSolving) && old(selected).Some? && clickedSize == old(selected).value.size ==>
                selected.None? && movesCount == old(movesCount)
                && pegs == old(pegs)[old(selected).value.peg := ReturnToPeg(old(pegs)[old(selected).value.peg], clickedSize)]
      ensures !old(autoSolving) && old(selected).None? ==>
                Current() == old(Current()) && selected.None?
                && moving == (if PegWithTop(old(pegs), clickedSize) == -1 then old(moving)
                              else Some(Held(clickedSize, PegWithTop(old(pegs), clickedSize))))
      ensures autoSolving == old(autoSolving) && solver == old(solver)
    {
      if autoSolving {
        return;
      }
      if selected.Some? {
        if clickedSize == selected.value.size {
          DeselectDisk(true);
        } else {
          TryMoveSelectedDisk(TowerIndexFromX(x));
        }
      } else {
        var k := FindPegWithTop(pegs, clickedSize);
        if k == -1 {
          return;
        }
        moving := Some(Held(clickedSize, k));
      }
    }

    /** A press on empty canvas drops the selected disk, if any, on the peg under `x`. */
    method PressOnCanvas(x: int)
      requires Valid()
      modifies this
      ensures Valid()
      ensures old(autoSolving) || old(selected).None? ==> Current() == old(Current()) && selected == old(selected)
      ensures !old(autoSolving) && old(selected).Some? ==>
                var h := old(selected).value;
                selected.None? && pegs == ClickDrop(old(pegs), h, TowerIndexFromX(x))
                && movesCount == old(movesCount) + (if IsValidMove(old(pegs), h.peg, TowerIndexFromX(x)) then 1 else 0)
      ensures autoSolving == old(autoSolving) && moving == old(moving) && solver == old(solver)
    {
      if autoSolving {
        return;
      }
      if selected.Some? {
        TryMoveSelectedDisk(TowerIndexFromX(x));
      }
    }

    /**
     * `_end_drag` at canvas abscissa `x`, after a press recorded the disk in `moving`. A
     * release with no motion event since the press (`quickClick`: the click timer id was
     * never cleared, since only `_drag_disk` clears it, however long the button was held)
     * is a click on the pressed disk and goes to the selection handler. Otherwise, outside auto-solve, the pressed disk moves to
     * the peg under `x` when it is still the top of its peg and `is_valid_move` allows it,
     * counting one move; in every other case no peg changes.
     */
    method EndDrag(x: int, quickClick: bool)
      requires Valid() && moving.Some?
      modifies this
      ensures Valid()
      ensures autoSolving == old(autoSolving) && solver == old(solver)
      ensures quickClick ==>
                moving.None? && var h := old(moving).value;
                var k := PegWithTop(old(pegs), h.size);
                if k == -1 then Current() == old(Current()) && selected == old(selected)
                else if old(selected).None? then
                  selected == Some(Held(h.size, k)) && pegs == old(pegs)[k := Pop(old(pegs)[k])]
                  && movesCount == old(movesCount)
                else
                  selected.None? && pegs == ClickDrop(old(pegs), old(selected).value, k)
                  && movesCount == old(movesCount) + (if IsValidMove(old(pegs), old(selected).value.peg, k) then 1 else 0)
      ensures !quickClick && old(autoSolving) ==> Current() == old(Current()) && moving == old(moving) && selected == old(selected)
      ensures !quickClick && !old(autoSolving) ==>
                var h := old(moving).value;
                var dest := TowerIndexFromX(x);
                moving.None? && selected == old(selected)
                && if old(pegs)[h.peg] != [] && Top(old(pegs)[h.peg]) == h.size && IsValidMove(old(pegs), h.peg, dest)
                   then Current() == Board(MoveTop(old(pegs), h.peg, dest), old(movesCount) + 1)
                   else Current() == old(Current())
    {
      var h := moving.value;
      if quickClick {
        HandleDiskClickForSelection(h.size);
        moving := None;
        return;
      }
      if autoSolving {
        return;
      }
      var dest := TowerIndexFromX(x);
      var validStart := pegs[h.peg] != [] && Top(pegs[h.peg]) == h.size;
      if validStart && IsValidMove(pegs, h.peg, dest) {
        pegs := MoveTop(pegs, h.peg, dest);
        movesCount := movesCount + 1;
      }
      moving := None;
    }
  }
}
