# A verified model of the approximate PLA minimiser

The program approximates a multi-output Boolean function given as a PLA
(programmable logic array) file. It works on the function's minimized list of
product terms, one list per output. Each product term is a ternary cube over
the inputs. The program trades a bounded number of errors on the off-set for
fewer or larger terms. This project models the core of that engine in Dafny:

- **The priority queue** of candidate products (`Queue`, `queue.dfy`). It is a
  1-indexed binary max-heap over an array that doubles when full. `push`
  sifts up. `pop` sifts a hole down from the root. Both are proved against
  pure `SiftUp`/`SiftDown` functions. Heap order, "the live entries are the old
  ones plus or minus exactly one" and "the root is the maximum" are lemmas about
  those functions. Pushing a sequence and popping everything yields a
  permutation in non-increasing priority order.
- **Cubes** (`Cube`, `cube.dfy`). A literal is `Zero`, `One` or `DC`, with
  codes 0, 1 and 2. A cube's BDD is the set of minterms it contains, and a
  list's BDD is the union of its cubes' sets. `covers` is the three-way
  containment test.
- **The per-output lists** `CUBE_LIST` and counters `N_CUBES`
  (`PlaLists.CubeLists`, `cubelists.dfy`).
- **The heuristic** (`src/main.c:444-667`):
  - candidate generation (`Generation`) relaxes one defined literal of a term
    at a time and queues the relaxations whose off-set error fits the budget;
  - admission (`Admission`) takes candidates best first, charges each one's
    effective error against the per-output or global budget, and on
    acceptance invalidates redundant queue entries, removes the covered list
    products and appends the new cube;
  - the redundancy pass (`Redundancy`) drops every term contained in the OR
    of the others;
  - `Heuristic.Approximate` chains the three phases and proves the error bound;
  - `mergeToPLA` (`Merge`) builds the output matrix whose rows have distinct
    input parts.
- **The PLA reader** (`PlaParser`, `parser.dfy`): `read_product`,
  `build_bdd`, and `parse` as a header scan followed by a token state machine.
  Input and output fields may be split over several tokens.
- **The PLA text utilities** (`PlaText`, `libpla.dfy`; `PlaStats`, `plastats.dfy`):
  - the in-place don't-care rewrite `convertDCSetPLA`;
  - the matrix printer `printMatrixtoFile`;
  - the literal counter `getPLAFileData`;
  - the rule that chooses between the heuristic's PLA and espresso's.

BDDs are finite sets of minterms (`seq<bool>` of the input width).
`Cudd_CountMinterm` is set cardinality. `Cudd_bddOr`, `Cudd_bddAnd` and
`Cudd_Not` are union, intersection and complement. Files are texts
(`seq<char>`), or token sequences where the code reads them with
`fscanf("%s")`.

### Behaviour of the code that is easy to miss

- **Long tokens after a whole line.** Once the parser has read a whole
  `inputs|outputs` token, it stops reading short tokens. A later token longer
  than `num_in + num_out` is still read as a product, because the code tests
  the length before it tests the phase flags (`src/PLAparser.c:164-176`).
- **Header tokens.** Any token that starts with `.i` or `.o`, such as `.ilb`
  or `.ob`, reads a size when the next token starts with a number; when it
  does not, `fscanf("%d")` fails and the size stays as it was. A token that
  starts with `.o` ends the header scan either way (`src/PLAparser.c:106-140`).
  Without a `.o` token the on-sets keep whatever the structure held before
  the call.
- **The don't-care rewrite.** `convertDCSetPLA` rewrites every `~` and every
  `2` outside `.` lines, in input and output fields alike. On a `.` line it
  leaves the `.` and the at most 1023 characters that `fgets` consumes after
  it unchanged; the rest of a longer line is rewritten like any other text
  (`src/libpla.c:43-59`).
- **The admission abort.** `effective_minterms` is never negative for a
  well-formed candidate, so the abort at `src/main.c:556-561` is unreachable
  (`Admission.EffectiveIsAddedError`).
- **The counters.** `N_CUBES[o]` is an upper bound on the length of list o,
  not the length itself: generation adds one per queued candidate. The model
  keeps `N_CUBES[o] - |CUBE_LIST[o]|` constant from the end of generation on.

## Model

| member | source | states |
|---|---|---|
| Cube.Code | src/main.c:125-147 | a literal's code is 0, 1 or 2; it is 2 exactly for a don't-care and 1 exactly for a positive literal |
| Cube.CubeSet | src/main.c:125-147 | a minterm is in a cube's function iff it has the cube's width and agrees with every defined literal |
| Cube.AllMinterms | src/main.c:803-807 | the constant-one function of n inputs holds exactly the minterms of width n |
| Cube.Witness | src/main.c:125-147 | every cube has a minterm, so no cube's function is empty |
| Cube.UnionSetMembers | src/main.c:640-651 | a minterm is in the OR of a list iff some cube of the list contains it |
| Cube.UnionSetConcat | src/main.c:640-651 | the OR of two lists joined is the union of their ORs |
| Cube.CompareCubes | src/main.c:156-168 | the loop with its early return and flag computes the three-way relation `Covers` |
| Cube.CoversPointwise | src/main.c:156-168 | `covers(a,b) != 0` iff every literal of a is DC or equal to b's; `covers(a,b) == 2` iff a == b |
| Cube.CoversReflexive | src/main.c:156-168 | every cube is equal to itself under `covers` |
| Cube.CoversIffContains | src/main.c:156-168 | `covers(a,b) != 0` iff every minterm of b is a minterm of a |
| Cube.CoversStrictIff | src/main.c:156-168 | `covers(a,b) == 1` iff b's minterms are a strict subset of a's |
| Cube.CoversAsymmetric | src/main.c:156-168 | if a strictly covers b then b does not cover a |
| Cube.CoversExample | src/main.c:156-168 | `covers([DC,1],[0,1]) == 1` while `covers([0,1],[DC,1]) == 0` |
| Queue.NewSize | src/queue.c:16-18 | the new capacity is 20 from empty, doubled when `len+1 >= size`, and then exceeds `len+1` |
| Queue.Grow | src/queue.c:16-20 | realloc keeps every old slot and has the new capacity |
| Queue.Child | src/queue.c:49-55 | the slot the hole moves to is a child of i, or the last slot, and its priority is at least that of each child and of the last entry |
| Queue.ElementsCount | src/queue.h:39-44 | slots 1..len hold len live entries |
| Queue.ElementsMembers | src/queue.h:39-44 | the live entries are exactly the nodes in slots 1..len |
| Queue.SiftUpElements | src/queue.c:22-33 | sifting x up from slot i replaces the node in slot i by x in the live multiset |
| Queue.SiftUpOrdered | src/queue.c:25-30 | sifting up restores heap order with the strict `<` comparison |
| Queue.SiftDownElements | src/queue.c:46-59 | the hole-based sift-down loses exactly the node that sat in the start slot |
| Queue.DownStep | src/queue.c:49-58 | one move of the hole keeps the sift-down invariant |
| Queue.SiftDownOrdered | src/queue.c:46-59 | the sift-down leaves slots 1..len heap-ordered |
| Queue.RootIsMax | src/queue.c:40 | in a heap-ordered array slot 1 has a priority at least that of every live slot |
| Queue.GrowKeeps | src/queue.c:16-20 | growth leaves room for slot len+1 and keeps heap order and the live entries |
| Queue.InsertOrdered | src/queue.c:22-33 | inserting into slot len+1 and sifting up keeps heap order |
| Queue.InsertElements | src/queue.c:22-33 | the live multiset after insertion is the old one plus the new node |
| Queue.PushSpec | src/queue.c:13-34 | push keeps heap order, fits slot len+1 in bounds, and adds exactly the new node |
| Queue.PopElements | src/queue.c:40-59 | pop removes exactly the root node from the live multiset |
| Queue.PopOrdered | src/queue.c:42-59 | pop leaves the remaining len-1 entries heap-ordered |
| Queue.RemoveSpec | src/queue.c:36-60 | pop keeps heap order and removes exactly the root entry |
| Queue.RootSpec | src/queue.c:40 | the node pop returns is live and has the maximum priority |
| Queue.Reallocate | src/queue.c:16-20 | the grown array holds the old slots followed by filler, sized by the growth rule |
| Queue.SiftUpLoop | src/queue.c:22-32 | the `while` loop over i and j computes `SiftUp` |
| Queue.SiftDownLoop | src/queue.c:42-59 | the `while` loop over i, j and k computes `SiftDown` |
| Queue.PriorityQueue.constructor | src/queue.h:39-44 | an empty queue with no storage |
| Queue.PriorityQueue.Push | src/queue.c:13-34 | len grows by one and stays below size, size follows the growth rule, the array is the sifted-up grown array, and the contents gain exactly the new node |
| Queue.PriorityQueue.Pop | src/queue.c:36-60 | requires len >= 1; returns the root's data, whose priority is the maximum; len drops by one and the contents lose exactly the root |
| Queue.BagIsMultiset | src/queue.c:13-34 | the live nodes contributed by a sequence of pushes are its multiset |
| Queue.NonIncreasingPairwise | src/queue.c:36-60 | a sequence whose neighbouring priorities do not increase is non-increasing over every pair |
| Queue.PopAll | src/queue.c:36-60 | popping until empty yields the queue's contents in non-increasing priority order |
| Queue.PushThenPopAll | src/queue.c:13-60 | pushing N entries and popping N times returns a permutation of them in non-increasing priority order |
| PlaLists.CubeLists.constructor | src/libpla.c:15-21 | numOut empty lists and zeroed counters |
| PlaLists.CubeLists.Count | src/main.c:505 | `N_CUBES[o] += k`, every other counter unchanged |
| PlaLists.CubeLists.Append | src/main.c:580-581 | the cube goes to the tail of list o, `N_CUBES[o]` grows by one, nothing else changes |
| Generation.Inters | src/main.c:470-472 | the intersection of a relaxation with the off-set lies inside the off-set |
| Generation.IntersIsConjunction | src/main.c:470-472 | `offset_inters` is the cube's minterms intersected with the off-set |
| Generation.CountStrictIsCardinality | src/main.c:476-489 | the count of strictly covered siblings is the number of list indices the relaxation strictly covers |
| Generation.CountCovered | src/main.c:476-489 | `covered_prod` is -1 when the relaxation equals a list cube, otherwise the number of list cubes it strictly covers |
| Generation.CubeCandsMembers | src/main.c:464-513 | a node is queued for a term exactly when it is the relaxation of some position that qualifies |
| Generation.ListCandsMembers | src/main.c:456-514 | a node is queued for an output exactly when it relaxes some term of its list at some qualifying position |
| Generation.OutputCandidates | src/main.c:451-518 | a node is queued for an output iff it is `Generated` from that output's list |
| Generation.GeneratedFacts | src/main.c:474-505 | every queued candidate has its source's index, equals its source with exactly one 0/1 position set to DC, has `0 < compl_min <= ct`, records its off-set intersection, is valid, equals no list cube, and carries `covered_prod/compl_min` as priority |
| Generation.NoCandidatesWithoutBudget | src/main.c:474 | with ct = 0 nothing is queued |
| Generation.AllCandsFrom | src/main.c:451-518 | every queued candidate comes from an earlier output and was generated from that output's list |
| Generation.TryRelax | src/main.c:464-513 | relaxing one position pushes exactly the qualifying candidate, or nothing |
| Generation.GenerateForProduct | src/main.c:460-514 | the loop over positions pushes exactly the candidates of one term |
| Generation.GenerateForOutput | src/main.c:456-514 | the loop over list terms pushes exactly the candidates of one output |
| Generation.Counted | src/main.c:505 | the counters after generating for outputs below o: each of those counters is its starting value plus its output's number of queued candidates, the others are unchanged, and there are as many counters as before |
| Generation.GenerateCandidates | src/main.c:451-518 | the queue gains exactly the generated candidates and each `N_CUBES[o]` grows by the number of candidates of output o |
| Admission.EffectiveIsAddedError | src/main.c:551-561 | `effective_minterms` is the number of off-set minterms outside the dc-set that the candidate covers, so it is never negative and the abort cannot happen |
| Admission.Cleared | src/main.c:177-190 | a cleared entry keeps its priority and all its data, and is valid iff it was valid and is not redundant with the accepted candidate |
| Admission.SamePriorities | src/main.c:177-190 | clearing valid flags keeps the heap ordered |
| Admission.ClearedQueue | src/main.c:177-190 | the queue whose slots 1..len were cleared keeps its invariant, its entries stay well formed and no valid one is redundant with the accepted candidate |
| Admission.ClearedElements | src/main.c:177-190 | after clearing, the heap is still ordered, every live entry is well formed and no valid one is redundant with the accepted candidate |
| Admission.ClearSlots | src/main.c:182-189 | the loop over slots 1..len clears exactly those slots and leaves the others untouched |
| Admission.InvalidateRedundant | src/main.c:177-190 | every queued entry of the same output with the same product number or an equal cube loses its valid flag; priorities, len and the other entries are unchanged |
| Admission.UncoveredMembers | src/main.c:198-210 | the survivors are exactly the list cubes the new cube does not cover, in order, never the new cube, and duplicate-free if the list was |
| Admission.UncoveredUnion | src/main.c:198-210 | removing what the new cube covers changes nothing once the new cube's minterms are added |
| Admission.RemoveCovered | src/main.c:198-210 | list o becomes its uncovered cubes in their order, `N_CUBES[o]` drops by the number removed, nothing else changes |
| Admission.AcceptUnion | src/main.c:575-581 | after acceptance the output's minterms are exactly the old ones plus the new cube's |
| Admission.AcceptShape | src/main.c:575-581 | after acceptance the list keeps its width, and has no duplicate if the list before had none |
| Admission.ErrorGrowth | src/main.c:569-583 | adding a cube's minterms adds at most that cube's off-set error to a cover's error |
| Admission.AcceptKeeps | src/main.c:569-583 | accepting keeps the output's ledger: the starting minterms covered, no duplicates if the starting list had none, the error grown by the effective error, `N_CUBES[o]` minus the list length unchanged |
| Admission.LedgerUpdate | src/main.c:569-583 | accepting on output o keeps the ledger of every output |
| Admission.SumUpdate | src/main.c:570-571 | changing one counter changes the sum by the difference |
| Admission.ChargeStep | src/main.c:565-571 | charging an admitted candidate keeps every counter at most ct (per output) or the total at most ct (global) |
| Admission.Charge | src/main.c:570-571 | `current_errors[o]` grows by the effective error, nothing else changes |
| Admission.Extend | src/main.c:575-581 | list o loses exactly the products the cube covers and gains the cube at its end; `N_CUBES[o]` drops by one per removed product and grows by one; the other lists and counters are unchanged |
| Admission.Accept | src/main.c:569-583 | acceptance invalidates the redundant queued entries, removes the covered cubes, appends the new cube and charges its error (the list, counter and error of its output change as `AcceptedFrom` says, the others not at all), keeping the ledger and the budget |
| Admission.Consider | src/main.c:548-583 | a popped entry is accepted exactly when it is valid and its effective error fits the budget; a dropped entry leaves the lists, counters, errors, total and queue as they were; an accepted one changes them as `Accept` does and adds its effective error to the total |
| Admission.LedgerStart | src/main.c:535-541 | the ledger holds when admission starts, for any starting lists of the right width, and the calloc'd `current_errors`, all zero, sum to the initial `total_error` of 0 |
| Admission.Admit | src/main.c:541-602 | for any starting lists, admission keeps the ledger (starting minterms covered, error bounded, a duplicate-free list stays duplicate-free) and the budget; per output it empties the queue, globally it stops with an empty queue or `total_error >= ct` |
| Redundancy.PruneFromUnion | src/main.c:629-664 | the redundancy pass preserves each output's minterm union |
| Redundancy.PruneUnion | src/main.c:629-664 | a whole list keeps its minterm union through the pass |
| Redundancy.PruneFromMembers | src/main.c:655-659 | the pass only removes cubes, never adds any |
| Redundancy.VisitKeeps | src/main.c:640-659 | dropping a term the others cover, or keeping one they do not, keeps the kept part irredundant |
| Redundancy.PruneFromIrredundant | src/main.c:629-664 | after the pass no remaining cube is contained in the OR of the other remaining cubes |
| Redundancy.PruneIrredundant | src/main.c:629-664 | the list after the pass is irredundant |
| Redundancy.IrredundantNoDuplicates | src/main.c:629-664 | an irredundant list has no duplicate cube |
| Redundancy.IrredundantHead | src/main.c:640-651 | in an irredundant list the next term is not covered by the others |
| Redundancy.PruneIdentity | src/main.c:629-664 | the pass leaves an irredundant list unchanged |
| Redundancy.PruneIdempotent | src/main.c:629-664 | a second pass removes nothing |
| Redundancy.OrOthers | src/main.c:640-651 | the inner loop's OR is the union of every cube of the list but the current one |
| Redundancy.Visit | src/main.c:632-660 | a term is dropped iff the OR of the others contains it; the list loses exactly that term and the counter drops by one |
| Redundancy.VisitStep | src/main.c:632-660 | one visit advances the pass by one term of the specification `PruneFrom` |
| Redundancy.PruneOutput | src/main.c:632-660 | list o becomes `Prune` of itself and `N_CUBES[o]` drops by the number of removed terms |
| Redundancy.PruneAll | src/main.c:629-664 | every list becomes `Prune` of itself, with the counters adjusted |
| Heuristic.GeneratedWellFormed | src/main.c:451-518 | every generated candidate is well formed and valid |
| Heuristic.GeneratedQueueOk | src/main.c:451-518 | the queue after generation holds only well-formed candidates |
| Heuristic.PruneKeeps | src/main.c:629-664 | the redundancy pass keeps an output's ledger and leaves it irredundant |
| Heuristic.LedgerPrune | src/main.c:629-664 | the pass keeps the ledger of every output |
| Heuristic.Approximate | src/main.c:444-664 | generation, admission and redundancy keep the ledger and the budget, and every list ends irredundant |
| Heuristic.ErrorBound | src/main.c:803-807 | when the starting list's union is `Not(off-set)`, an output's true error is at most its error counter, the start's minterms are still covered, and `N_CUBES[o]` is at least the list length |
| Heuristic.OutputErrorBound | src/main.c:629-664 | each output's error after the heuristic is at most `current_errors[o]` |
| Heuristic.MultipleOutputBound | src/main.c:565-567 | in per-output mode each output's true error is at most ct |
| Heuristic.TotalErrorBound | src/main.c:565-571 | the sum of the true errors is at most the sum of the error counters |
| Heuristic.GlobalOutputBound | src/main.c:543-544 | in global mode the true errors of all outputs together are at most ct |
| Merge.Tagged | src/main.c:83-108 | a list's entries are its cubes in order, tagged with the output |
| Merge.EntriesMembers | src/main.c:83-108 | an entry of outputs below o is a cube of its output's list |
| Merge.EntriesGrow | src/main.c:73-75 | later outputs only add entries |
| Merge.FirstMatch | src/main.c:91-99 | the search stops at the first row whose input part equals the cube, or at the end |
| Merge.Inputs | src/main.c:91-99 | the input part of each row |
| Merge.NewRow | src/main.c:101-106 | a new row is the cube's codes followed by a 1 in column o and 0 elsewhere |
| Merge.MergeAll | src/main.c:83-108 | the merged rows have the input width plus one column per output |
| Merge.EntriesFit | src/main.c:83-108 | every entry belongs to an output and has the input width |
| Merge.Keys | src/main.c:91-99 | the code vectors of the entries in order |
| Merge.DedupFacts | src/main.c:91-107 | first occurrences keep every key, repeat none, and are no more than the keys |
| Merge.FirstMatchIn | src/main.c:91-99 | the search finds a row iff the cube's codes are one of the rows' input parts |
| Merge.MergeInputs | src/main.c:83-108 | the rows' input parts are the distinct cubes in order of first occurrence |
| Merge.ColumnsStep | src/main.c:88-107 | adding an entry keeps every column meaning "the input part occurs in that output's list" |
| Merge.MergeDistinct | src/main.c:83-108 | the rows' input parts are pairwise distinct, every entry has a row, and there are no more rows than entries |
| Merge.MergeColumns | src/main.c:83-108 | every output column of the merged rows means membership of the input part in that output's entries |
| Merge.ColumnOfList | src/main.c:83-108 | membership among an output's entries is membership in its list |
| Merge.ColumnsOfLists | src/main.c:83-108 | an output column is 0 or 1, and 1 iff the row's input part occurs in that output's list |
| Merge.MergedSpec | src/main.c:71-116 | the matrix rows have distinct input parts in order of first occurrence, column o is 1 iff the input part is in `CUBE_LIST[o]`, and the row count is at most the number of entries |
| Merge.SameInputs | src/main.c:91-99 | the inner comparison is true iff row i's input part equals the cube's codes |
| Merge.WriteRow | src/main.c:101-106 | the new row is written and no other row changes |
| Merge.FindRow | src/main.c:91-99 | the search over the matrix computes `FirstMatch` |
| Merge.Place | src/main.c:88-107 | placing one entry turns the matrix into `MergeStep` of its rows |
| Merge.MergeLength | src/main.c:73-75 | the rows are no more than the entries |
| Merge.MergeSnoc | src/main.c:83-108 | merging one more entry is one more `MergeStep` |
| Merge.RowBudget | src/main.c:73-75 | `max_matrix_row_size` is the sum of `N_CUBES` and at least the number of list entries |
| Merge.MergeOutput | src/main.c:83-108 | merging one output's list extends the matrix to the merge of the entries up to that output |
| Merge.MergeToMatrix | src/main.c:71-116 | the matrix has `sum N_CUBES` rows of width inputs plus outputs, and its first rows are exactly `Merged` |
| PlaText.LineRead | src/libpla.c:46 | fgets reads at most n characters and no further than the text |
| PlaText.LineReadStops | src/libpla.c:46 | fgets stops after the first newline, at the buffer limit, or at the end of the text |
| PlaText.LineReadLine | src/libpla.c:46 | a line shorter than the buffer is read up to and including its newline |
| PlaText.SkipLine | src/libpla.c:46 | the character loop skips exactly what `fgets(skip_buf, 1024)` consumes |
| PlaText.DcChars | src/libpla.c:47-58 | outside `.` lines `~` becomes `0`, `2` becomes `1`, and every other character stays |
| PlaText.ConvertedLength | src/libpla.c:43-59 | the rewrite preserves the length |
| PlaText.ConvertedChars | src/libpla.c:43-59 | each character either stays or becomes its rewrite |
| PlaText.ConvertedPlain | src/libpla.c:47-58 | a stretch without `.` is rewritten character by character |
| PlaText.ConvertedDotLine | src/libpla.c:45-46 | a `.` line that fits the skip buffer is left unchanged |
| PlaText.ConvertedDot | src/libpla.c:45-46 | what fgets skips after a `.` is left unchanged |
| PlaText.ConvertedIdempotent | src/libpla.c:43-59 | converting twice gives the same text as converting once |
| PlaText.SkipAt | src/libpla.c:45-46 | a `.` and what fgets consumes after it are passed over unchanged |
| PlaText.RewriteAt | src/libpla.c:47-58 | one character is rewritten in place |
| PlaText.ConvertDcSet | src/libpla.c:30-61 | the file after the in-place rewrite is `Converted` of the file before |
| PlaText.NatText | src/libpla.c:73 | the decimal rendering of a number is not empty |
| PlaText.NatTextDigits | src/libpla.c:73 | `%d` of a natural writes only decimal digits |
| PlaText.NatTextValue | src/libpla.c:73 | the digits `%d` writes read back as the number |
| PlaText.RowOf | src/libpla.c:76-94 | a row of M cut to the given width |
| PlaText.RowsOf | src/libpla.c:74-96 | the first len rows of M |
| PlaText.Symbols | src/libpla.c:83-92 | each code prints as one character: 2 as `-`, 1 as `1`, 0 as `0` |
| PlaText.CellOf | src/libpla.c:83-92 | a code 0, 1 or 2 prints as exactly one character |
| PlaText.InputCells | src/libpla.c:76-92 | the input part prints as one character per literal |
| PlaText.OutputCells | src/libpla.c:76-94 | a space separates the input part from the output characters |
| PlaText.RowLayout | src/libpla.c:74-96 | a row line is the input characters, one space, the output characters and a newline |
| PlaText.PrintRow | src/libpla.c:76-95 | the nested loop writes exactly `RowText` of the row |
| PlaText.PrintMatrix | src/libpla.c:63-99 | the file is the header `.i in` and `.o out` lines followed by one line per row |
| PlaText.OverflowSticky | src/libpla.c:136-144 | once an output index runs past `or_literals` the scan stays failed |
| PlaText.CountStep | src/libpla.c:120-144 | one character of the `fgetc` loop updates the counters as `CountChar` says |
| PlaText.SumArray | src/libpla.c:148-150 | `or_port` is the sum of `or_literals` |
| PlaText.GetPlaFileData | src/libpla.c:101-158 | the scan computes `FileData`: input literals, output literals, AND literals and OR ports |
| PlaText.CountBalance | src/libpla.c:136-153 | every output literal adds one to exactly one `or_literals` cell |
| PlaText.OrPortIsProdOut | src/libpla.c:136-153 | without an overflow `or_port` equals `prod_out` |
| PlaText.ChosenPla | src/main.c:860-863 | the chosen PLA is one of the two, has the fewest OR ports, the fewest AND literals on a tie, and is espresso's unless the heuristic's is strictly better |
| PlaStats.CountConcat | src/libpla.c:118-145 | a text without `.` is scanned piece by piece |
| PlaStats.DotLineSkipped | src/libpla.c:129-130 | a `.` line that fits the buffer adds nothing to the counters |
| PlaStats.InputPhase | src/libpla.c:131-135 | every `0`/`1` before the space is an input literal of the line |
| PlaStats.OutputPhase | src/libpla.c:136-144 | every `1` after the space is an output literal that adds the line's input literals to the AND count |
| PlaStats.RowScan | src/libpla.c:118-145 | one printed row adds its input literals, its output literals and their product |
| PlaStats.RowsScan | src/libpla.c:118-145 | the printed rows add the sums over the rows |
| PlaStats.HeaderSkipped | src/libpla.c:129-130 | the printed header adds nothing to the counters |
| PlaStats.PrintedStats | src/libpla.c:63-158 | `getPLAFileData` on a printed matrix counts its literals, and `or_port == prod_out` |
| PlaStats.MergedPrintable | src/main.c:71-116 | the merged matrix has input codes 0/1/2 and output bits 0/1 |
| PlaStats.MergedStats | src/main.c:666-667 | the statistics of the PLA the heuristic writes are the literal counts of the merged matrix |
| PlaParser.Decode | src/PLAparser.c:36-51 | position i becomes DC for `-`, `4` or `~`, 0 for `0`, and 1 for anything else |
| PlaParser.ReadProduct | src/PLAparser.c:25-58 | the global cube gets the decoded literals and the returned function is the cube's minterms |
| PlaParser.DecodePrinted | src/libpla.c:83-92 | reading back the printed input part of a row gives the original cube |
| PlaParser.OnSetsAfter | src/PLAparser.c:70-89 | `build_bdd` keeps the number of on-sets |
| PlaParser.AddProductConsistent | src/PLAparser.c:76-86 | in a minimized PLA each output's on-set stays the union of its list |
| PlaParser.SkipBars | src/PLAparser.c:166-170 | strtok skips the leading separators |
| PlaParser.FindBar | src/PLAparser.c:166-170 | strtok's field ends at the next bar or at the end |
| PlaParser.SplitLine | src/PLAparser.c:164-176 | a token of a, a bar and b splits into input part a and output part b |
| PlaParser.DigitsEnd | src/PLAparser.c:114 | `%d` reads the longest run of digits |
| PlaParser.ScanInt | src/PLAparser.c:114 | `%d` consumes at most the tokens it is given |
| PlaParser.StepReaderOk | src/PLAparser.c:161-212 | each token keeps the two phases apart and the counters equal to the buffers' lengths |
| PlaParser.RunConcat | src/PLAparser.c:161-212 | reading two token sequences in a row is reading their concatenation |
| PlaParser.RunConsistent | src/PLAparser.c:161-212 | in a minimized PLA the token loop keeps each on-set the union of its list |
| PlaParser.MinimizedConsistent | src/PLAparser.c:94-220 | after a successful minimized parse, the on-set of every output is the union of its list |
| PlaParser.RunShape | src/PLAparser.c:161-212 | the token loop keeps the number of on-sets |
| PlaParser.SplitInputField | src/PLAparser.c:177-194 | an input field split over two tokens parses as the unsplit field |
| PlaParser.SplitOutputField | src/PLAparser.c:195-211 | an output field split over two tokens parses as the unsplit field |
| PlaParser.AfterWholeLine | src/PLAparser.c:164-176 | after a whole-line token, short tokens change nothing and long ones still add a product |
| PlaParser.ReadLines | src/PLAparser.c:161-212 | lines with fields of the declared widths are read one product each, in order |
| PlaParser.ScanNat | src/PLAparser.c:114 | `%d` on the decimal rendering of n reads n |
| PlaParser.DigitsAll | src/PLAparser.c:114 | a token of digits is read whole |
| PlaParser.ScanPrintedHeader | src/PLAparser.c:106-142 | the header `.i n .o m` sets both sizes and ends the header scan |
| PlaParser.ParseWellFormed | src/PLAparser.c:94-220 | a well-formed PLA parses to the products of its lines, with the declared sizes |
| PlaParser.DistributeNext | src/PLAparser.c:70-89 | output i adds the product to its on-set, and for a minimized PLA to its list and counter, iff its character is `1` |
| PlaParser.ParsedPla.constructor | src/libpla.h:28-34 | the structure holds the caller's sizes and no on-sets |
| PlaParser.ParsedPla.BuildBdd | src/PLAparser.c:67-92 | each output marked `1` gets the product ORed into its on-set and, when minimized, a copy of the cube on its list with its counter incremented; other outputs are untouched |
| PlaParser.ParsedPla.ReadHeader | src/PLAparser.c:106-142 | the header loop sets the sizes `ScanHeader` reads, and `.o` allocates that many empty on-sets and ends the scan |
| PlaParser.ParsedPla.Parse | src/PLAparser.c:94-220 | parse returns -1 iff a size is not positive, otherwise 1 with the sizes, on-sets, lists and counters `ParseFile` describes |

## Left out

- CUDD is not modelled. BDDs are sets of minterms, `Cudd_CountMinterm` is cardinality, and reference counting and `init_manager` are absent.
- `construct_product` (src/main.c:125-147) is modelled by `Cube.CubeSet`, not by BDD calls.
- espresso calls, `andDecomposition` and the cube enumeration in `mergeBDDtoFile` are external programs or CUDD iteration.
- Priorities are exact reals `covered_prod/compl_min`. The model differs from `double` only where two different ratios round to the same double.
- Percentage budgets (`powl`) and gain percentages are floating point, and are left out.
- Command-line parsing, directories, `fopen`/`fclose`, `clock()` timing and verbose output are process plumbing. Files are texts or token sequences passed in.
- The file `mergeToPLA` writes is not modelled inside `Merge.MergeToMatrix`. Its text is `PlaText.PrintMatrix`, and `PlaStats.MergedStats` connects the two.
- Memory management is not modelled: `safe_malloc`/`safe_calloc` failure, the deliberate leaks of removed or rejected candidates, and the calloc failure in `parse` for a positive `num_out`.
- The `#ifdef DEBUG` block (src/main.c:585-601) is compiled out and reads freed memory.
- `src/dividi.c` is a separate file-splitting tool based on stream positioning. It is not part of this model.
- C `int` overflow of the counters (`N_CUBES`, `current_errors`, `prod_in`, `and_lit`) and of `%d` values beyond `int` is not modelled. The counters are unbounded integers.
- Buffer overflows are not modelled: the 512-byte token buffer `tmp` and the `strcat`/`strcpy` into the field buffers. Every token is taken to fit.
- Bytes past a C string's terminator read as `'\0'`. Stale bytes from earlier contents of a buffer are not modelled.
- PlaParser.ParsedPla.Parse: requires `BodySplits`. A whole-line token without a `|` field would make `strtok` return NULL and `strcpy` crash.
- PlaParser.ScanInt: a sign without digits, and leading whitespace within a token, are not modelled as separate `%d` behaviours. Tokens never contain whitespace.
- PlaText.GetPlaFileData: requires that no line overflows `or_literals`. Past `function_out` outputs the C code writes out of bounds.
- Merge.MergeToMatrix: requires every list to be no longer than its `N_CUBES` counter. Otherwise the C matrix is too small; the generation ledger (`Heuristic.ErrorBound`) establishes that precondition for the heuristic's lists.
- Queue.PriorityQueue.Pop: requires `len >= 1`, as the source has no empty check and its caller tests `len` first (src/main.c:541).
- Queue.PriorityQueue.Push: does not model `realloc` failure.
- The sorted output of `PushThenPopAll` is stated by priority, not by insertion order. The order among equal priorities follows from the array operations but is not stated as a lemma.
