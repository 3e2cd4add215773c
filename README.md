# visualphyton core, modelled in Dafny

This project models the small sequential logic found in the `visualphyton` folder of a
collection of Python exercises. It leaves out the Tkinter widgets around that logic.

- **Towers of Hanoi** (`practica03.py`):
  - The three pegs, the legality rule, the peg under a mouse position, and the initial layout.
  - The recursive solver with its cancellation flag, and the optimal move count.
  - The game window's in-place peg updates: drag, click-to-move, deselect, the automatic
    solve and the victory test.
- **Calculator key-entry machine** (`calculabastkinedr.py`): the entry string (or
  `"Error"`) and the pending expression, as every key handler changes them. `eval`, `float`,
  `math.sqrt` and `str` of a float are parameters.
- **PDF text helpers** (`tkinderpdf.py`, `tkindlectorpdf.py`, `tkinder2pdf.py`). A document
  is a sequence of page texts. The models cover:
  - extraction and its per-page cache;
  - the word summary and the page search;
  - page clamping and the search fragment window;
  - the next/previous navigator and the non-overlapping occurrence counter.
- **Bank accounts** (`jn.py`, `practic.py`): guarded deposit, withdraw and set on a balance.
- **Small records and formulas**:
  - the student's grade average and pass mark (`claseestudiante.py`);
  - the person's age setter and birthday (`emcapsulacion.py`);
  - the two-operand calculator (`calculabasic.py`);
  - validated figures and their areas (`calculadora.py`);
  - area, perimeter and description of figures (`practica02.py`);
  - polymorphic perimeters (`polimorfismo.py`);
  - vehicle descriptions and report delegation (`practica01.py`).

Where the Python changes an object's fields, the model is a Dafny `class` with those fields.
Its methods are proved against specification functions, and lemmas prove properties of those
functions. Pure code is modelled as datatypes, functions and lemmas. Shared helper modules
model Python's string behaviour:
- `Numerals`: `str` and `int` of integers;
- `Text`: `"\n"`-joined lines, ASCII `lower`, `find` and `in` on strings, non-overlapping
  occurrence counts;
- `Words`: `split()`, `" ".join` and the word summary.

Two behaviours of the click-to-move path in `practica03.py` are modelled exactly as written:
- The selected disk is popped from its peg when it is selected (line 565).
- `_try_move_selected_disk` then asks `is_valid_move` about the origin peg (line 595), so
  the check looks at the disk underneath the selected one, or at an empty peg.

Two consequences follow, and the model proves both:
- A lone disk can never be moved by clicking.
- A legal click-move can be refused. `HanoiGame.ClickDropRefusesLegalMove` gives a
  concrete case.

## Model

| member | source | states |
|---|---|---|
| HanoiRules.IsValidMove | visualphyton/practica03.py:708-732 | is_valid_move: an empty source peg is illegal, an empty target legal, otherwise the source top must be smaller than the target top; proved to keep the stacking invariant by ValidMoveKeepsStacked |
| HanoiRules.MoveTop | visualphyton/practica03.py:748-753 | pop the source peg's top and append it to the target; MoveTopKeepsDisks proves it conserves the disks |
| HanoiRules.TowerIndexFromX | visualphyton/practica03.py:367-381 | the peg under x is 0 exactly for x < 200, 1 exactly for 200 <= x < 400, 2 exactly for x >= 400 (midpoints of peg_x = [100, 300, 500]) |
| HanoiRules.MoveTopKeepsDisks | visualphyton/practica03.py:748-753 | popping a peg's top and appending it elsewhere keeps three pegs and the same multiset of disks |
| HanoiRules.ValidMoveKeepsStacked | visualphyton/practica03.py:708-732 | a move is_valid_move accepts is between different pegs and keeps every peg strictly decreasing bottom to top |
| HanoiRules.InsertDescCorrect | visualphyton/practica03.py:626-627 | inserting a disk into a descending peg gives a descending permutation of the peg plus that disk |
| HanoiRules.SortDescCorrect | visualphyton/practica03.py:627 | sort(reverse=True) returns a non-increasing permutation of its input |
| HanoiRules.SortDescOfSorted | visualphyton/practica03.py:627 | sorting an already descending peg leaves it unchanged |
| HanoiRules.ReturnUndoesPop | visualphyton/practica03.py:623-627 | putting a popped top disk back (append if absent, then sort descending) restores the stacked peg exactly |
| HanoiRules.DownMembers | visualphyton/practica03.py:293-295 | the initial tower holds exactly the disks 1..n |
| HanoiRules.DownDistinct | visualphyton/practica03.py:293-295 | no disk size occurs twice in the initial tower |
| HanoiRules.Initial | visualphyton/practica03.py:282-295 | the starting position: disks n..1 on peg 0, pegs 1 and 2 empty; InitialStacked and DownMembers state its properties |
| HanoiRules.Down | visualphyton/practica03.py:293-295 | the disks the initialisation loop appends, n down to 1; DownMembers, DownDistinct and DownAt state its contents |
| HanoiRules.InitialStacked | visualphyton/practica03.py:282-295 | the starting position is stacked: every peg strictly decreasing from bottom to top |
| HanoiRules.ReturnToPeg | visualphyton/practica03.py:623-627 | _deselect_disk's return to the origin: the size is appended only when absent, then the peg is sorted largest first; ReturnUndoesPop proves it restores a popped peg |
| HanoiRules.DownAt | visualphyton/practica03.py:293-295 | the initial tower has n disks and position k holds disk n - k (largest at the bottom) |
| HanoiSolver.SolverMoves | visualphyton/practica03.py:62-82 | the moves an uncancelled _move(n, from, to, aux) issues: n-1 disks to aux, disk n to the target, n-1 disks from aux; SolverMovesCount and SolverMovesTower give its length and effect |
| HanoiSolver.SolverRun | visualphyton/practica03.py:62-82 | _move with the flag checked where the source checks it, cleared after a given number of moves; SolverRunIsPrefix ties it to SolverMoves |
| HanoiSolver.SolverMovesCount | visualphyton/practica03.py:62-82 | an uncancelled _move(n, ...) issues exactly 2^n - 1 moves, the optimal count shown by update_optimal_moves |
| HanoiSolver.SolverRunIsPrefix | visualphyton/practica03.py:62-82 | when the flag is cleared after some number of moves, _move issues exactly the uncancelled move list cut at that number |
| HanoiSolver.UncancelledSolveIsComplete | visualphyton/practica03.py:52-60 | a solve that is not stopped before 2^n - 1 moves issues the whole optimal sequence from peg 0 to peg 2 |
| HanoiSolver.StoppedSolveIssuesNoMore | visualphyton/practica03.py:84-86 | after stop_solving no further move is issued: the moves issued are a prefix of the full solution and no more than the moves before the stop |
| HanoiSolver.OptimalMoves | visualphyton/practica03.py:131-134 | the optimal count 2^n - 1 shown by update_optimal_moves and _check_victory; SolverMovesCount proves the solver issues exactly that many moves |
| HanoiSolver.SolveMoves | visualphyton/practica03.py:52-56 | solve(): _move(num_disks, 0, 2, 1) stopped after stopAt moves; UncancelledSolveIsComplete and StoppedSolveIssuesNoMore relate it to SolverMoves |
| HanoiSolver.Visualize | visualphyton/practica03.py:748-761 | visualize_move during auto-solve: with the named disk on top of the source peg, pop, append and count one; otherwise nothing changes; AcceptedMovesCounted states the count |
| HanoiSolver.AllLegal | visualphyton/practica03.py:708-732 | every move of a run passes is_valid_move on the board it is played on; SolverMovesTower proves it for the solver's moves |
| HanoiSolver.StackedThroughout | visualphyton/practica03.py:748-753 | every peg is strictly decreasing before a run and after each of its moves; LegalRunStaysStacked proves it for legal runs |
| HanoiSolver.LegalRunStaysStacked | visualphyton/practica03.py:708-753 | moves that are accepted by visualize_move and pass is_valid_move, played from stacked pegs, leave the pegs stacked after each move |
| HanoiSolver.SolverMovesTower | visualphyton/practica03.py:62-82 | played through visualize_move when every other disk on the three pegs is larger than n, the moves for n disks are all accepted, each passes is_valid_move (no disk lands on a smaller one), and together they carry the top n disks from one peg to another, counting 2^n - 1 moves |
| HanoiSolver.SolveFromInitialWins | visualphyton/practica03.py:748-761 | from the initial layout every solver move finds its disk on top of the source peg and passes is_valid_move, the pegs are stacked after every move, and at the end all n disks are on peg 2 after 2^n - 1 moves |
| HanoiSolver.CancelledSolveIsLegal | visualphyton/practica03.py:748-761 | a cancelled solve is also accepted move by move, each move passes is_valid_move, the pegs are stacked after every move and at the stop, and moves_count equals the number of moves issued |
| HanoiSolver.AcceptedMovesCounted | visualphyton/practica03.py:748-761 | each accepted visualize_move raises moves_count by exactly one |
| HanoiSolver.Solver.constructor | visualphyton/practica03.py:47-50 | a new solver remembers the number of disks and is not solving |
| HanoiSolver.Solver.Solve | visualphyton/practica03.py:52-60 | solve issues exactly the moves of _move(n, 0, 2, 1) up to the stop, then is no longer solving |
| HanoiSolver.Solver.StopSolving | visualphyton/practica03.py:84-86 | stop_solving clears the flag |
| HanoiGame.PegWithTop | visualphyton/practica03.py:547-550 | the first peg whose top disk is the clicked one, or -1 exactly when no peg has it on top |
| HanoiGame.FindPegWithTop | visualphyton/practica03.py:547-550 | the search loop over the three pegs returns the peg PegWithTop names |
| HanoiGame.StackDisks | visualphyton/practica03.py:293-295 | the initialisation loop stacks disks n down to 1 |
| HanoiGame.ClickDrop | visualphyton/practica03.py:586-633 | _try_move_selected_disk after the pop: append to the target when is_valid_move(origin, target) holds on the popped pegs, otherwise return the disk to its origin; the ClickDrop lemmas below state its properties |
| HanoiGame.ClickDropKeepsDisks | visualphyton/practica03.py:586-610 | dropping the held disk, accepted or refused, puts it back on some peg: the disks on the pegs gain exactly the held one |
| HanoiGame.ClickDropKeepsStacked | visualphyton/practica03.py:586-610 | dropping the held disk keeps every peg strictly decreasing, and a refused drop returns the disk to its origin |
| HanoiGame.ClickDropAcceptsOnlyLegal | visualphyton/practica03.py:595-600 | whenever the written check accepts a click-move, the move is legal for the pegs before the pick-up, and it targets another peg |
| HanoiGame.ClickDropLoneDisk | visualphyton/practica03.py:595-610 | a disk picked from a peg it was alone on is always returned, never moved, by click-to-move |
| HanoiGame.ClickDropRefusesLegalMove | visualphyton/practica03.py:565-610 | a concrete state where moving disk 1 onto disk 2 is legal yet the click-move is refused and disk 1 returns to its peg |
| HanoiGame.InitialIsConservedAndTidy | visualphyton/practica03.py:282-295 | the initial layout holds disks 1..n once each, stacked, with nothing selected |
| HanoiGame.PickUpKeepsInvariants | visualphyton/practica03.py:556-565 | selecting a top disk and popping it keeps every disk accounted for (pegs plus the held disk) and the pegs stacked |
| HanoiGame.DropKeepsInvariants | visualphyton/practica03.py:586-633 | dropping the held disk keeps every disk accounted for and the pegs stacked, with nothing held |
| HanoiGame.MoveKeepsConserved | visualphyton/practica03.py:748-753 | moving a top disk between pegs keeps every disk accounted for |
| HanoiGame.DragKeepsInvariants | visualphyton/practica03.py:507-516 | a valid drag keeps every disk accounted for and the pegs stacked |
| HanoiGame.InitialLayoutHoldsNoSelection | visualphyton/practica03.py:772 | when peg 0 holds n disks and pegs 1 and 2 are empty, no disk can be held |
| HanoiGame.Game.CheckVictory | visualphyton/practica03.py:816-818 | _check_victory's test: peg 2 holds num_disks disks; VictoryMeansAllOnLast proves that means every disk is on peg 2 and nothing is held |
| HanoiGame.VictoryMeansAllOnLast | visualphyton/practica03.py:816-823 | peg 2 holds n disks exactly when pegs 0 and 1 are empty, nothing is held and peg 2 holds disks 1..n |
| HanoiGame.Game.constructor | visualphyton/practica03.py:184-238 | a new game starts in the initial layout with no moves, no selection and a solver that is not solving |
| HanoiGame.Game.StopAutoSolve | visualphyton/practica03.py:788-794 | if auto-solving, the solver is stopped; the flag is cleared and the pegs, counter and selection are unchanged |
| HanoiGame.Game.InInitialLayout | visualphyton/practica03.py:771-772 | _auto_solve's test: peg 0 holds num_disks disks and pegs 1 and 2 are empty; InitialLayoutHoldsNoSelection states what it implies |
| HanoiGame.Game.InitializeGame | visualphyton/practica03.py:270-301 | stops any auto-solve and resets the pegs to the initial layout, the counter to 0 and all selection fields to none |
| HanoiGame.Game.VisualizeMove | visualphyton/practica03.py:734-765 | while auto-solving a move is applied as visualize_move applies it (pop, append, +1 only when the disk is on top of the source); otherwise nothing changes |
| HanoiGame.Game.StartAutoSolve | visualphyton/practica03.py:767-786 | does nothing while auto-solving; otherwise resets the game unless it is in the initial layout, then sets the auto-solving flag |
| HanoiGame.Game.AutoSolveFinished | visualphyton/practica03.py:796-800 | clears the auto-solving flag and changes nothing else |
| HanoiGame.Game.SolveAndShow | visualphyton/practica03.py:785-800 | the solver's moves are played on the board; from the initial layout the counter is the number issued, every move passes is_valid_move, the pegs are stacked after every move and at the end, and an unstopped run ends with all disks on peg 2 in 2^n - 1 moves |
| HanoiGame.Game.DeselectDisk | visualphyton/practica03.py:612-633 | clears the selection; with return_to_orig the held size goes back into its origin peg (appended if absent, sorted descending) |
| HanoiGame.Game.TryMoveSelectedDisk | visualphyton/practica03.py:586-610 | with a disk held: append it to the target and count one move if is_valid_move(origin, target) holds, else return it to its origin; nothing held: no change |
| HanoiGame.Game.HandleDiskClickForSelection | visualphyton/practica03.py:536-584 | with nothing held, a disk on top of a peg is selected and popped; with a disk held, the click drops it on the clicked disk's peg; a disk on no peg top changes nothing |
| HanoiGame.Game.PressOnDisk | visualphyton/practica03.py:383-449 | ignored while auto-solving; clicking the held disk returns it; clicking another disk drops the held one there; with nothing held, a top disk starts a drag |
| HanoiGame.Game.PressOnCanvas | visualphyton/practica03.py:383-449 | a click on empty canvas drops the held disk on the peg under the mouse; ignored while auto-solving or with nothing held |
| HanoiGame.Game.EndDrag | visualphyton/practica03.py:480-534 | a quick click becomes a selection click; a real drag moves the disk and counts one move exactly when it is on top of its peg and the move is valid, otherwise nothing changes |
| Calculator.DigitKey | visualphyton/calculabastkinedr.py:123-128 | a digit replaces an entry of "0" or "Error" and is appended otherwise; BackspaceUndoesDigit is its inverse |
| Calculator.PointKey | visualphyton/calculabastkinedr.py:130-133 | appends "." only when the entry has none; PointKeyIdempotent and EditingKeepsOnePoint state its properties |
| Calculator.SignKey | visualphyton/calculabastkinedr.py:207-213 | no change on "0" and "Error"; otherwise drops a leading '-' or adds one (an empty entry raises in the handler and is left unchanged); SignKeyInvolution and SignKeyStuck state when it is its own inverse |
| Calculator.BackspaceKey | visualphyton/calculabastkinedr.py:220-226 | no change on "Error"; drops the last character of a longer entry, otherwise gives "0"; BackspaceUndoesDigit and BackspaceShortEntry state its properties |
| Calculator.Format | visualphyton/calculabastkinedr.py:163-167 | an integral result is shown as str(int(r)), any other through str; IntegralResultReadsBack proves the integral case reads back |
| Calculator.Percent | visualphyton/calculabastkinedr.py:155-158 | the percent form: float of the expression without its '%' times float of the entry, over 100, failing when either does not parse; OperatorThenDigitThenEquals follows it |
| Calculator.Outcome | visualphyton/calculabastkinedr.py:152-161 | the value calcular_resultado computes: the percent form when the expression ends in '%', otherwise eval of expression + entry; EvaluateFailure and OperatorThenDigitThenEquals state its use |
| Calculator.SpecialValue | visualphyton/calculabastkinedr.py:183-194 | sqrt of a non-negative number, the square, or 1/num for a non-zero number, failing on the guarded cases; SpecialKeyErrors and SquareOfInteger state its properties |
| Calculator.Evaluate | visualphyton/calculabastkinedr.py:146-174 | no change with nothing pending or on "Error"; otherwise the outcome formatted with the expression cleared, or "Error" with the expression cleared on failure; EvaluateIdempotent and EvaluateFailure state its properties |
| Calculator.OperatorKey | visualphyton/calculabastkinedr.py:135-144 | on a non-"Error" entry: evaluate a pending expression first, then store entry + op and reset the entry to "0"; OperatorThenDigitThenEquals follows it to the result |
| Calculator.SpecialKey | visualphyton/calculabastkinedr.py:176-205 | sqrt, sqr or inv of the parsed entry, "Error" on the guarded failures, the expression kept; SpecialKeyErrors and SquareOfInteger state its properties |
| Calculator.KeyPress | visualphyton/calculabastkinedr.py:231-255 | presionar_tecla as written, with the substring digit test; NonCharacterKeyBlanksEntry shows the blanking it causes |
| Calculator.KeyPressFixed | visualphyton/calculabastkinedr.py:231-255 | presionar_tecla with the digit test meaning one digit character; FixedIgnoresNonCharacterKeys and FixedAgreesOnOneCharacter relate it to the written handler |
| Calculator.PointKeyIdempotent | visualphyton/calculabastkinedr.py:130-133 | after the point key the entry contains ".", pressing it twice equals pressing it once, and the expression is kept |
| Calculator.EditingKeepsOnePoint | visualphyton/calculabastkinedr.py:123-226 | point, digit, sign, backspace, operator and clear keep the entry holding at most one "." |
| Calculator.SignKeyInvolution | visualphyton/calculabastkinedr.py:207-213 | for an entry other than "0" and "Error" (and not one that the toggle turns into those), changing the sign twice restores the state |
| Calculator.SignKeyStuck | visualphyton/calculabastkinedr.py:207-213 | the exceptions to that: "-0" toggles to "0" and then stays, so two presses do not restore it |
| Calculator.BackspaceUndoesDigit | visualphyton/calculabastkinedr.py:220-226 | backspace after appending a digit restores the entry |
| Calculator.BackspaceShortEntry | visualphyton/calculabastkinedr.py:220-226 | backspace keeps "Error" and turns an entry of length at most 1 into "0" |
| Calculator.EvaluateIdempotent | visualphyton/calculabastkinedr.py:146-174 | evaluating twice equals evaluating once, and an evaluation that runs clears the pending expression |
| Calculator.EvaluateFailure | visualphyton/calculabastkinedr.py:171-174 | a failing evaluation sets the entry to "Error" and clears the expression; with nothing pending, evaluation is a no-op |
| Calculator.IntegralResultReadsBack | visualphyton/calculabastkinedr.py:163-168 | an integral result is shown as its str(int(...)) and reads back to the same integer |
| Calculator.OperatorThenDigitThenEquals | visualphyton/calculabastkinedr.py:135-161 | an operator stores entry + op and resets the entry; after a digit the outcome is eval of the whole expression, or num1 * num2 / 100 for % |
| Calculator.SpecialKeyErrors | visualphyton/calculabastkinedr.py:176-205 | the special keys keep the expression, and give "Error" on an unparsable entry, an unknown kind, a negative square root or the inverse of zero |
| Calculator.SquareOfInteger | visualphyton/calculabastkinedr.py:188-200 | squaring an integer entry shows the integer square, which reads back |
| Calculator.NonCharacterKeyBlanksEntry | visualphyton/calculabastkinedr.py:235 | as written, a key that types no character blanks an entry of "0" or "Error" |
| Calculator.OneCharDigitTest | visualphyton/calculabastkinedr.py:235 | for one typed character, `key in '0123456789'` holds exactly for a digit |
| Calculator.FixedIgnoresNonCharacterKeys | visualphyton/calculabastkinedr.py:231-255 | with the digit test meaning one digit, keys that type nothing and are not Return, BackSpace or Escape change nothing |
| Calculator.FixedAgreesOnOneCharacter | visualphyton/calculabastkinedr.py:231-255 | the corrected handler does what the written one does for every key that types one character |
| Calculator.CalculatorApp.constructor | visualphyton/calculabastkinedr.py:14-17 | the calculator starts with entry "0", no expression and the display showing the entry |
| Calculator.CalculatorApp.UpdateDisplay | visualphyton/calculabastkinedr.py:228-229 | the display shows the entry; the state is unchanged |
| Calculator.CalculatorApp.PressDigit | visualphyton/calculabastkinedr.py:123-128 | the new state is the digit key applied to the old one, and the display shows the entry |
| Calculator.CalculatorApp.PressPoint | visualphyton/calculabastkinedr.py:130-133 | the new state is the point key applied to the old one |
| Calculator.CalculatorApp.CalculateResult | visualphyton/calculabastkinedr.py:146-174 | the new state is the evaluation of the old one |
| Calculator.CalculatorApp.PressOperator | visualphyton/calculabastkinedr.py:135-144 | the new state is the operator key applied to the old one, evaluating a pending expression first |
| Calculator.CalculatorApp.SpecialOperation | visualphyton/calculabastkinedr.py:176-205 | the new state is the special key applied to the old one |
| Calculator.CalculatorApp.ChangeSign | visualphyton/calculabastkinedr.py:207-213 | the new state is the sign key applied to the old one |
| Calculator.CalculatorApp.Clear | visualphyton/calculabastkinedr.py:215-218 | the entry becomes "0" and the expression "" |
| Calculator.CalculatorApp.DeleteLast | visualphyton/calculabastkinedr.py:220-226 | the new state is the backspace key applied to the old one |
| PdfViewer.NextIndex | visualphyton/tkinder2pdf.py:77-80 | next_page's new index: one more only with a document and before the last page; NavigationStaysInRange and NavigationUndoes state its properties |
| PdfViewer.PrevIndex | visualphyton/tkinder2pdf.py:82-85 | prev_page's new index: one less only with a document and after the first page; NavigationUndoes proves it inverts NextIndex away from the ends |
| PdfViewer.MatchCount | visualphyton/tkinder2pdf.py:89-105 | the non-overlapping occurrences of the query in the shown text, case-folded unless case-sensitive; MatchCountMeaning states what it means |
| PdfViewer.NavigationStaysInRange | visualphyton/tkinder2pdf.py:77-85 | with a document, next and prev keep the page within 0..total-1 |
| PdfViewer.NavigationUndoes | visualphyton/tkinder2pdf.py:77-85 | prev undoes next and next undoes prev away from the ends; both stop at the ends and do nothing without a document |
| PdfViewer.PageLabel | visualphyton/tkinder2pdf.py:75 | the label text "current+1 / total"; PageLabelNumbers proves the page number reads back from it |
| PdfViewer.PageLabelNumbers | visualphyton/tkinder2pdf.py:73-75 | the label starts with the 1-based page number, which lies in 1..total |
| PdfViewer.MatchCountMeaning | visualphyton/tkinder2pdf.py:89-105 | the count is 0 exactly when the (case-folded) text does not contain the query, and count times the query length fits in the text |
| PdfViewer.CountMatches | visualphyton/tkinder2pdf.py:93-103 | the search loop counts the non-overlapping occurrences, each search resuming at the end of the previous match |
| PdfViewer.Viewer.constructor | visualphyton/tkinder2pdf.py:13-16 | no document, 0 pages, page 0 |
| PdfViewer.Viewer.ShowPage | visualphyton/tkinder2pdf.py:68-75 | with a document and the page in range, shows that page's text and "current+1 / total"; otherwise nothing changes |
| PdfViewer.Viewer.LoadPdf | visualphyton/tkinder2pdf.py:56-66 | loading sets the document, the page count and page 0, and shows the first page with the label "1 / total"; a document with no pages leaves the text and the label as they were; a cancelled dialog changes nothing |
| PdfViewer.Viewer.NextPage | visualphyton/tkinder2pdf.py:77-80 | the page advances only with a document and before the last page; a move shows the new page's text and its "current+1 / total" label, and no move leaves the text and the label as they were |
| PdfViewer.Viewer.PrevPage | visualphyton/tkinder2pdf.py:82-85 | the page goes back only with a document and after the first page; a move shows the new page's text and its "current+1 / total" label, and no move leaves the text and the label as they were |
| PdfViewer.Viewer.SearchText | visualphyton/tkinder2pdf.py:87-105 | an empty query does nothing; otherwise the count is the number of matches in the shown text and "not found" is reported exactly when it is 0 |
| PdfReader.Lookup | visualphyton/tkinderpdf.py:96-97 | a page number is missing from the cache exactly when no entry has that key |
| PdfReader.LookupAt | visualphyton/tkinderpdf.py:96-97 | in a cache with distinct keys every stored page is found with its text |
| PdfReader.ExtractedPageCached | visualphyton/tkinderpdf.py:78-82 | after extraction the cache maps page n to that page's text plus "\n" |
| PdfReader.ExtractedTextHoldsEachPage | visualphyton/tkinderpdf.py:78-82 | the extracted text holds each cached page's text, in page order, at its offset |
| PdfReader.FetchPage | visualphyton/tkinderpdf.py:93-106 | obtener_texto_pagina: the invalid-page message outside 1..total, the cached text when present, otherwise the page's text, cached; the Fetch lemmas state its properties |
| PdfReader.FetchPageRepeats | visualphyton/tkinderpdf.py:93-106 | fetching a page keeps the cache's keys distinct, only adds to the cache, and a repeat call returns the same text and cache |
| PdfReader.FetchInvalidPage | visualphyton/tkinderpdf.py:93-106 | a page outside 1..total returns the invalid-page message and leaves the cache untouched |
| PdfReader.FetchAfterExtraction | visualphyton/tkinderpdf.py:93-101 | after extraction a page is served from the cache (with its "\n"); with an empty cache it is extracted without "\n" and cached |
| PdfReader.Hit | visualphyton/tkinderpdf.py:126-132 | one page is a result when its content contains the query, both lowered unless the search is case-sensitive; CaseSensitiveHitIsHit relates the two modes |
| PdfReader.Matching | visualphyton/tkinderpdf.py:123-135 | the cached (page, content) pairs that are hits, in cache order; MatchingIff and MatchingAppend state its meaning |
| PdfReader.MatchingIff | visualphyton/tkinderpdf.py:125-135 | a (page, content) pair is a search result exactly when it is in the cache and its content contains the query |
| PdfReader.MatchingAppend | visualphyton/tkinderpdf.py:125-135 | results come in cache order: searching a + b gives a's results followed by b's |
| PdfReader.CaseSensitiveHitIsHit | visualphyton/tkinderpdf.py:127-133 | a case-sensitive match is also a case-insensitive match |
| PdfReader.Reader.constructor | visualphyton/tkinderpdf.py:52-57 | no document, no pages, empty text and empty cache |
| PdfReader.Reader.Open | visualphyton/tkinderpdf.py:59-68 | returns True exactly when a document was loaded, and keeps the previous one otherwise |
| PdfReader.Reader.TotalPages | visualphyton/tkinderpdf.py:108-109 | the number of pages of the loaded document, 0 without one |
| PdfReader.Reader.ExtractText | visualphyton/tkinderpdf.py:70-91 | without a document returns "" and changes nothing; otherwise the text is every page plus "\n" joined in order, and the cache maps each page number to its text plus "\n" |
| PdfReader.Reader.PageText | visualphyton/tkinderpdf.py:93-106 | returns and caches the page as FetchPage specifies |
| PdfReader.Reader.SimpleSummary | visualphyton/tkinderpdf.py:111-117 | extracts first when the text is empty, then returns the first k words and "..." exactly when there are more |
| PdfReader.Reader.Search | visualphyton/tkinderpdf.py:119-135 | extracts first when the text is empty, then returns exactly the cached pages containing the query, in cache order |
| PdfReader.ClampPage | visualphyton/tkinderpdf.py:467-472 | below 1 becomes 1, above total becomes total; ClampPageInRange states its properties |
| PdfReader.Fragment | visualphyton/tkinderpdf.py:530-539 | the window [max(0, i-30), min(len, i+len(q)+30)) around the first case-folded match i, with "..." before when the start is past 0 and always after; FragmentShowsMatch states its properties |
| PdfReader.ClampPageInRange | visualphyton/tkinderpdf.py:467-472 | the clamped page lies in 1..total, a page in range is kept, and clamping twice equals clamping once |
| PdfReader.ClampOnEmptyDocument | visualphyton/tkinderpdf.py:467-473 | on an empty document every request from page 1 up is clamped to 0, and a request below 1 becomes page 1; both are out of range and fetch the invalid-page message |
| PdfReader.FragmentShowsMatch | visualphyton/tkinderpdf.py:530-539 | the fragment contains the query (case-folded), is at most 66 characters longer than it, ends with "...", starts with "..." when the match is past index 30, and when the match is at index 30 or earlier the part before its final "..." is a prefix of the content |
| PdfReader.HitHasFragment | visualphyton/tkinderpdf.py:529-541 | every search result, case-sensitive or not, yields a fragment that shows the query |
| PdfReader.ReaderApp.constructor | visualphyton/tkinderpdf.py:149-152 | no document, empty cache, page 1, nothing shown |
| PdfReader.ReaderApp.ShowPage | visualphyton/tkinderpdf.py:463-476 | clamps the page into 1..total and shows what the reader returns for it |
| PdfReader.ReaderApp.PreviousPage | visualphyton/tkinderpdf.py:485-487 | the page becomes the previous page clamped into 1..total, and its text is fetched through the cache; the reader's document and search text are unchanged |
| PdfReader.ReaderApp.NextPage | visualphyton/tkinderpdf.py:489-491 | the page becomes the next page clamped into 1..total, and its text is fetched through the cache; the reader's document and search text are unchanged |
| PdfReader.ReaderApp.OpenDocument | visualphyton/tkinderpdf.py:402-422 | a cancelled dialog keeps the old reader, page and text; otherwise a new reader is created for the chosen file, and on success page 1 (clamped) is shown through the fresh cache, while a failed open leaves the page and the text as they were and the fresh reader's cache empty |
| PdfLector.NonEmptyPages | visualphyton/tkindlectorpdf.py:52-55 | the page texts extraer_texto keeps, in order: only the non-empty ones; NonEmptyPagesIff and ExtractionSkipsBlankPages state its meaning |
| PdfLector.NonEmptyPagesIff | visualphyton/tkindlectorpdf.py:52-55 | a page text is kept exactly when it is non-empty |
| PdfLector.ExtractionSkipsBlankPages | visualphyton/tkindlectorpdf.py:52-55 | the text extracted is shorter than joining every page by exactly one "\n" per blank page |
| PdfLector.NoBlankPagesKeepsAll | visualphyton/tkindlectorpdf.py:52-55 | without blank pages every page is kept, in order |
| PdfLector.Lector.constructor | visualphyton/tkindlectorpdf.py:35-39 | stores the file name and the document, with empty text |
| PdfLector.Lector.FileName | visualphyton/tkindlectorpdf.py:12-13 | returns the stored file name |
| PdfLector.Lector.SetFileName | visualphyton/tkindlectorpdf.py:15-16 | the file name becomes the new one and nothing else changes |
| PdfLector.Lector.ExtractText | visualphyton/tkindlectorpdf.py:47-58 | without a document returns "" and changes nothing; otherwise appends each non-empty page plus "\n", in order, to the text it already had |
| PdfLector.Lector.SimpleSummary | visualphyton/tkindlectorpdf.py:60-66 | extracts only when the text is empty, then returns the first k words with "..." exactly when there are more |
| PdfLector.ExtractTwiceDoubles | visualphyton/tkindlectorpdf.py:37-55 | a second extraction appends the pages again, so the word list is doubled |
| Words.Split | visualphyton/tkinderpdf.py:115 | str.split(): the maximal runs of non-whitespace, each a non-empty word without whitespace; SplitJoinWords inverts it |
| Words.Summary | visualphyton/tkinderpdf.py:115-117 | the words ws[:k] (a Python slice) joined by single spaces, "..." added when there are more than k words; SummaryKeepsFirstWords states its meaning |
| Words.JoinWords | visualphyton/tkinderpdf.py:116 | " ".join: the words with one space between each pair; SplitJoinWords proves Split inverts it |
| Words.SplitJoinWords | visualphyton/tkinderpdf.py:115-116 | splitting words joined by single spaces gives the words back |
| Words.SummaryKeepsFirstWords | visualphyton/tkinderpdf.py:115-117 | the summary's words are the first k words of the text, and "..." is added exactly when there are more than k |
| Text.SplitJoinedLines | visualphyton/tkinderpdf.py:78-82 | lines joined with "\n" after each are split back into the same lines |
| Text.OccurrencesFit | visualphyton/tkinder2pdf.py:93-103 | non-overlapping occurrences times the query length fit in the text searched |
| Text.OccurrencesZeroIffAbsent | visualphyton/tkinder2pdf.py:93-105 | there are no occurrences exactly when the query occurs nowhere |
| Text.Lower | visualphyton/tkinderpdf.py:127-128 | str.lower on ASCII letters: same length, each character lowered |
| Text.Contains | visualphyton/tkinderpdf.py:132 | the `in` test: the query occurs at some index; Find returns -1 exactly when it fails, and MatchingIff and FragmentShowsMatch state the searches through it |
| Text.Joined | visualphyton/tkinderpdf.py:78-82 | each page text followed by "\n", concatenated in order; SplitJoinedLines inverts it |
| Text.Find | visualphyton/tkinderpdf.py:531 | str.find: -1 exactly when absent, otherwise the first index where the query occurs |
| Numerals.IntToString | visualphyton/calculabastkinedr.py:164-165 | str(int(r)): never empty, with a leading '-' exactly for a negative value; IntToStringRoundTrip proves it reads back |
| Numerals.ParseInt | visualphyton/calculabastkinedr.py:181 | reading a decimal integer numeral back, as float() does on the entry; IntToStringRoundTrip proves it inverts IntToString |
| Numerals.IntToStringRoundTrip | visualphyton/calculabastkinedr.py:163-164 | int of str of an integer gives the integer back |
| BankAccount.AfterDeposit | visualphyton/jn.py:23-28 | the balance after depositar: plus the amount when it is positive, unchanged otherwise; GuardsDecide and OperationsKeepNonNegative state its properties |
| BankAccount.AfterWithdraw | visualphyton/jn.py:31-36 | the balance after retirar: minus the amount when 0 < amount <= balance, unchanged otherwise; GuardsDecide and DepositThenWithdraw state its properties |
| BankAccount.AfterSet | visualphyton/jn.py:12-16 | the balance after set_saldo: the value when it is >= 0, unchanged otherwise; GuardsDecide states its guard |
| BankAccount.GuardsDecide | visualphyton/jn.py:12-36 | a deposit changes the balance exactly when the amount is positive, a withdrawal exactly when 0 < amount <= balance, and a set only with a value >= 0 |
| BankAccount.OperationsKeepNonNegative | visualphyton/jn.py:12-36 | from a non-negative balance, deposit, withdraw and set keep it non-negative |
| BankAccount.DepositThenWithdraw | visualphyton/jn.py:23-36 | depositing and then withdrawing the same positive amount restores a non-negative balance |
| BankAccount.RunKeepsNonNegative | visualphyton/jn.py:12-36 | any sequence of operations from a non-negative balance keeps it non-negative |
| BankAccount.RunBoundedByDeposits | visualphyton/jn.py:23-36 | without sets, the balance never exceeds the opening balance plus the amounts deposited |
| BankAccount.Account.constructor | visualphyton/jn.py:2-5 | the holder and opening balance are stored |
| BankAccount.Account.GetBalance | visualphyton/jn.py:8-9 | returns the current balance |
| BankAccount.Account.SetTo | visualphyton/jn.py:12-16 | the balance becomes the value exactly when it is >= 0 |
| BankAccount.Account.Deposit | visualphyton/jn.py:23-28 | adds the amount exactly when it is positive |
| BankAccount.Account.Withdraw | visualphyton/jn.py:31-36 | subtracts the amount exactly when 0 < amount <= balance |
| CashAccount.Account.constructor | visualphyton/practic.py:21-23 | the holder and opening balance are stored, with no separate `_saldo` |
| CashAccount.Account.ConsultBalance | visualphyton/practic.py:24-25 | returns the balance |
| CashAccount.Account.NewBalance | visualphyton/practic.py:27-31 | writes only the separate `_saldo` attribute (when the value is >= 0); the balance is unchanged |
| CashAccount.Account.DepositCash | visualphyton/practic.py:33-38 | adds the amount exactly when it is positive |
| CashAccount.Account.Withdraw | visualphyton/practic.py:40-45 | subtracts the amount exactly when 0 < amount <= balance |
| CashAccount.AgreesWithBankAccount | visualphyton/practic.py:33-45 | deposits and withdrawals behave exactly as in the other bank account |
| CashAccount.ReportedKeepsNonNegative | visualphyton/practic.py:33-45 | a non-negative reported balance stays non-negative |
| CashAccount.NewBalanceIsInvisible | visualphyton/practic.py:27-31 | nuevo_saldo never changes the balance that is later reported |
| StudentRecord.Average | visualphyton/claseestudiante.py:11-14 | promedio_notas: 0 for no grades, otherwise the sum over the count; AverageBetween bounds it by the grades |
| StudentRecord.Passes | visualphyton/claseestudiante.py:16-20 | es_aprobado: the average is at least 11; PassesByGrades and PassingGradeKeepsPassing state its properties |
| StudentRecord.NoGradesFails | visualphyton/claseestudiante.py:11-20 | with no grades the average is 0 and the student does not pass |
| StudentRecord.AverageBetween | visualphyton/claseestudiante.py:11-14 | the average lies between the lowest and the highest bound of the grades |
| StudentRecord.PassesByGrades | visualphyton/claseestudiante.py:16-20 | all grades >= 11 pass, all grades < 11 fail |
| StudentRecord.PassingGradeKeepsPassing | visualphyton/claseestudiante.py:8-20 | adding a grade >= 11 to a passing record keeps it passing |
| StudentRecord.Student.constructor | visualphyton/claseestudiante.py:2-6 | stores name, age and career with no grades |
| StudentRecord.Student.AddGrade | visualphyton/claseestudiante.py:8-9 | appends the grade and keeps the earlier ones |
| StudentRecord.Student.GradeAverage | visualphyton/claseestudiante.py:11-14 | returns the average of the grades |
| StudentRecord.Student.IsPassing | visualphyton/claseestudiante.py:16-20 | true exactly when the average is at least 11 |
| PersonRecord.AfterSetAge | visualphyton/emcapsulacion.py:16-20 | the age after establecer_edad: the value when positive, unchanged otherwise; SetAgeGuard states its guard |
| PersonRecord.IsAdult | visualphyton/emcapsulacion.py:21-22 | es_mayor_de_edad: age at least 18; BirthdaysToAdulthood relates it to birthdays |
| PersonRecord.SetAgeGuard | visualphyton/emcapsulacion.py:16-20 | the age becomes the new value exactly when it is positive (or equal to the old one), and a positive age stays positive |
| PersonRecord.BirthdaysToAdulthood | visualphyton/emcapsulacion.py:21-29 | after n birthdays the person is of age exactly when age + n >= 18, and an adult stays one |
| PersonRecord.Person.constructor | visualphyton/emcapsulacion.py:2-4 | stores name and age |
| PersonRecord.Person.GetName | visualphyton/emcapsulacion.py:7-8 | returns the name given at construction |
| PersonRecord.Person.GetAge | visualphyton/emcapsulacion.py:11-12 | returns the age |
| PersonRecord.Person.SetAge | visualphyton/emcapsulacion.py:16-20 | updates the age only for a positive value |
| PersonRecord.Person.IsOfAge | visualphyton/emcapsulacion.py:21-22 | true exactly when the age is at least 18 |
| PersonRecord.Person.HaveBirthday | visualphyton/emcapsulacion.py:27-29 | the age grows by one |
| BasicCalculator.Divide | visualphyton/calculabasic.py:25-30 | the quotient when the divisor is non-zero, otherwise the message "error:division entre cero"; DivideMeaning states its meaning |
| BasicCalculator.DivideMeaning | visualphyton/calculabasic.py:25-30 | division fails exactly on a zero divisor with "error:division entre cero", and otherwise quotient times divisor is the dividend |
| BasicCalculator.Calculator.constructor | visualphyton/calculabasic.py:2-4 | stores both operands |
| BasicCalculator.Calculator.GetFirst | visualphyton/calculabasic.py:6-7 | returns the first operand |
| BasicCalculator.Calculator.GetSecond | visualphyton/calculabasic.py:8-9 | returns the second operand |
| BasicCalculator.Calculator.SetFirst | visualphyton/calculabasic.py:11-12 | changes only the first operand |
| BasicCalculator.Calculator.SetSecond | visualphyton/calculabasic.py:13-14 | changes only the second operand |
| BasicCalculator.Calculator.Add | visualphyton/calculabasic.py:16-17 | subtracting either operand from the sum gives the other |
| BasicCalculator.Calculator.Subtract | visualphyton/calculabasic.py:19-20 | the difference plus the second operand is the first |
| BasicCalculator.Calculator.Multiply | visualphyton/calculabasic.py:22-23 | dividing the product by a non-zero operand gives the other, and the product is zero exactly when an operand is |
| BasicCalculator.Calculator.Division | visualphyton/calculabasic.py:25-30 | returns the quotient or the division-by-zero message, as Divide specifies |
| ValidatedFigures.MakeSquare | visualphyton/calculadora.py:10-13 | Cuadrado(lado): raises "El lado debe ser mayor que cero" when lado <= 0; ConstructorsValidate states the guard |
| ValidatedFigures.MakeTriangle | visualphyton/calculadora.py:19-23 | Triangulo(base, altura): raises "Base y altura deben ser mayores que cero" when either is <= 0; ConstructorsValidate states the guard |
| ValidatedFigures.MakeRectangle | visualphyton/calculadora.py:29-33 | Rectangulo(base, altura): raises the same message when either is <= 0; ConstructorsValidate states the guard |
| ValidatedFigures.MakeCircle | visualphyton/calculadora.py:39-42 | Circulo(radio): raises "El radio debe ser mayor que cero" when radio <= 0; ConstructorsValidate states the guard |
| ValidatedFigures.Area | visualphyton/calculadora.py:15-45 | calcular_area: lado², base·altura/2, base·altura, pi·radio²; PositiveArea and RectangleIsTwoTriangles state its properties |
| ValidatedFigures.ConstructorsValidate | visualphyton/calculadora.py:9-45 | each constructor accepts exactly positive dimensions, builds that figure, and otherwise raises with its own message |
| ValidatedFigures.PositiveArea | visualphyton/calculadora.py:15-45 | every figure a constructor accepts has a positive area |
| ValidatedFigures.RectangleIsTwoTriangles | visualphyton/calculadora.py:25-36 | with the same base and height, the rectangle's area is twice the triangle's |
| ValidatedFigures.SquareIsRectangle | visualphyton/calculadora.py:15-36 | a square's area is that of the rectangle with equal sides, and grows with the side |
| GeometricFigures.Area | visualphyton/practica02.py:24-72 | area of each figure: pi·r², lado², base·altura, base·altura/2; SquareIsRectangle, TriangleMeasures and CirclePerimeterAndArea relate it |
| GeometricFigures.Perimeter | visualphyton/practica02.py:27-75 | perimetro of each figure: 2·pi·r, 4·lado, 2·(base+altura), lado1+lado2+lado3; the same lemmas relate it |
| GeometricFigures.Description | visualphyton/practica02.py:30-78 | descripcion: the figure's name followed by its measures as the f-strings print them; DescriptionNamesFigure and DescriptionsTellKindsApart state its properties |
| GeometricFigures.SquareIsRectangle | visualphyton/practica02.py:38-57 | Cuadrado(l) has the area and perimeter of Rectangulo(l, l) |
| GeometricFigures.TriangleMeasures | visualphyton/practica02.py:71-75 | the triangle's perimeter depends only on its sides and its area only on base and height |
| GeometricFigures.CirclePerimeterAndArea | visualphyton/practica02.py:24-28 | for any pi, the circle's perimeter times its radius is twice its area |
| GeometricFigures.DescriptionNamesFigure | visualphyton/practica02.py:30-78 | every description starts with the figure's name and a space |
| GeometricFigures.DescriptionsTellKindsApart | visualphyton/practica02.py:30-78 | figures of different kinds never share a description |
| Perimeters.Perimeter | visualphyton/polimorfismo.py:81-108 | calcular_figura by class: None for the base class, 4·lado, base+altura+root(base²+altura²), 2·base+2·altura, 3.1416·2·radio; the Perimeter lemmas state its properties |
| Perimeters.PerimeterCases | visualphyton/polimorfismo.py:81-108 | only the base class has no perimeter; a square's is the equal-sided rectangle's; a circle's is exactly 6.2832 times the radius |
| Perimeters.PositivePerimeter | visualphyton/polimorfismo.py:86-108 | positive dimensions give a positive perimeter (for the triangle, with a true square root) |
| Perimeters.ScalingPerimeter | visualphyton/polimorfismo.py:86-108 | scaling a square, rectangle or circle by k scales its perimeter by k |
| Vehicles.Description | visualphyton/practica01.py:21-55 | descripcion: a blank line, the title, Fabricante, Modelo, the kind's own lines and the closing rule, each ended by a line break; DescriptionLines and FieldsReadBack state its layout |
| Vehicles.Generate | visualphyton/practica01.py:66-82 | generar of each report: opening banner, description, closing banner, in that order; BannersAreNotDescriptions separates them |
| Vehicles.ProcessReport | visualphyton/practica01.py:90-91 | procesar_reporte: one call of the injected generator on the vehicle; ProcessReportDelegatesOnce states it |
| Vehicles.DescriptionLines | visualphyton/practica01.py:21-55 | a description reads as exactly its lines: empty line, title, Fabricante, Modelo, the vehicle's own lines, dashes |
| Vehicles.FieldsReadBack | visualphyton/practica01.py:21-55 | maker, model and cargo, and the numbers through int(), can be read back from their lines |
| Vehicles.ProcessReportDelegatesOnce | visualphyton/practica01.py:86-91 | procesar_reporte prints its own generator's output, in which the vehicle's description appears exactly once between that generator's opening and closing |
| Vehicles.BannersAreNotDescriptions | visualphyton/practica01.py:66-82 | no report banner reads as a vehicle description |
| Vehicles.HeadersTellKindsApart | visualphyton/practica01.py:16-55 | vehicles of different kinds never share a description |

## Left out

- Tkinter itself is not modelled:
  - drawing, animation and `time.sleep`;
  - message boxes, status labels, the timer window and styles;
  - highlight tags in the text widgets and the result tree.
- Threads are run sequentially:
  - The Hanoi solver thread is one sequential run. When `stop_solving` happens is a parameter,
    the number of moves issued before it.
  - PDF extraction, including its progress callback and percentage, runs sequentially.
  - The summary thread is left out.
- PyPDF2 and file handling are abstracted:
  - A document is a sequence of page texts.
  - Opening succeeds or fails as a parameter.
  - Exceptions raised while extracting a page are not modelled.
  - `abrir`, `cerrar` and `__del__` are left out.
- Floating point is exact `real` arithmetic:
  - Rounding is not modelled.
  - `math.pi`, `math.sqrt`, `** 0.5`, `eval`, `float()` and `str` of a float are
    parameters.
  - Float overflow is not modelled. In the calculator, an infinite or NaN result makes
    `int(resultado)` raise, and `num ** 2` can raise `OverflowError`
    (calculabastkinedr.py:163-200), so the source shows "Error". The exact-real model
    shows a value instead.
- The Tk text widget's content is modelled as the page text. The trailing newline that
  `get(1.0, END)` adds is not modelled.
- `str.lower` is modelled for ASCII letters only. `str.split()` uses Python's whitespace
  characters.
- Canvas item ids are replaced by disk sizes. The game keeps exactly one canvas item per
  size.
- The `ResolutionDetailsWindow` clock and its labels are left out. Only the optimal count
  2^n - 1 is modelled.
- Printed output is left out:
  - `print`/`input` menus and module-level scripts are not modelled.
  - The `ReporteCorreo` defined inside `practica01.py`'s main block is not modelled.
  - `print` in the PDF readers and `mostrar_informacion`/`mostrar_datos` are not modelled.
- The code inside the docstring at the top of `polimorfismo.py` is left out, because it
  never runs.
- The practica01 numeric fields are modelled as integers printed with `str`.
- The estudiante's name, age and career are constants, because the source never changes
  them.
- `modelos.py`, `analizador_estadistico.py`, `ptry.cpp` and the other exercise files are not
  part of this model.
- BankAccount.DepositThenWithdraw: the balance is restored only when it was non-negative. For
  a negative balance, the withdrawal guard `monto <= saldo` refuses the amount just
  deposited.

## Findings

| source | as written | input that shows it | evidently intended | confidence | as-written member | corrected member |
|---|---|---|---|---|---|---|
| visualphyton/calculabastkinedr.py:235 | `key in '0123456789'` is a substring test, and the empty string passes it | a key that types no character (Shift), so `evento.char == ""`, pressed while the entry is "0" or "Error": the entry becomes "" | only a single digit character counts as a digit key; other keys without a character change nothing | not executed | Calculator.NonCharacterKeyBlanksEntry | Calculator.FixedIgnoresNonCharacterKeys |
