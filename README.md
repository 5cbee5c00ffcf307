# Valentine image-picking puzzle — a Dafny model

The repository is a small browser widget in one file, `script.js`. It shows
nine images in a shuffled grid of nine slots. The player clicks the four images of
"their valentine" and presses a verify button. This project models the logic
behind that widget:

- **the round's layout**: the nine catalog entries `{file, originalIndex, isValentine}`,
  shuffled in place by a Fisher–Yates loop;
- **the selection**: a set of slot indices that each click toggles;
- **the verification**: a loop that counts the selected targets and the
  selected non-targets, and the rule that accepts only "all four targets and
  nothing else".

Modules, one per part of the program:

| file | module | what it holds |
|---|---|---|
| `images.dfy` | `Images` | the configuration (`totalImages`, `valentineIndices`, the nine file names), the `Entry` datatype, the catalog built from the files, slot and target-slot sets |
| `fisher_yates.dfy` | `FisherYates` | the swap, the loop as a function of its draws (`Steps`, `Shuffle`), and the loop itself on an `array` |
| `counting.dfy` | `Counting` | the two counters of the verification loop as a function over the walked slots |
| `layout.dfy` | `Layout` | the layouts a round can show, and what every one of them satisfies |
| `verdict.dfy` | `Verdict` | the acceptance rule and its meaning |
| `selection.dfy` | `Selection` | the effect of a click on the selection |
| `puzzle_round.dfy` | `Round` | class `PuzzleRound`: the `layout` array and the `selected` set the page keeps, with the operations behind its handlers |

The random draws of the shuffle are parameters. `draws[k]` is the index `j`
taken at step `k` of the loop, when the loop is at `i = n - 1 - k`. Each draw
must lie in `[0, i]`, which is the range `Math.floor(Math.random() * (i + 1))`
produces. `PuzzleRound.Valid()` states that the layout is the catalog after
some complete run of the loop (`Layout.IsLayout`), and that only grid slots
are selected. From that, the `Layout` lemmas derive the following facts:

- the layout is a permutation of the catalog;
- it shows every image exactly once;
- each slot's flag is the one its catalog index calls for;
- exactly four slots are targets.

Verification returns the two counters and the decision. The source keeps the
counters local and passes the decision to its feedback functions. `Verify`
changes nothing (it has no `modifies` clause), so after a failure the round
goes on with the same layout and selection.

`toggleImage` does not check that the clicked index lies in the grid. Its
only callers are the listeners of the nine grid slots (script.js:44-55), so
`PuzzleRound.Toggle` requires a grid index instead of modelling an
out-of-range error that the code never reports.

## Model

| member | source | states |
|---|---|---|
| `Images.BuildEntries` | script.js:31-35 | one entry per image file, in file order; entry k has file k, original index k, and the target flag that `valentineIndices.includes(k)` gives |
| `Images.CatalogShape` | script.js:2-35 | specifies `Catalog` (the `map` over the files) and `IsValentineIndex` (`valentineIndices.includes`): the catalog fills the 9-slot grid, its entries are pairwise distinct, and its target slots are exactly the configured indices {0,1,2,3}, so there are `valentineIndices.length` of them |
| `FisherYates.Swap` | script.js:40 | after the destructuring swap, slot i holds the old slot j, slot j the old slot i, and every other slot is unchanged |
| `FisherYates.SwapPermutes` | script.js:40 | a swap neither adds nor loses an entry (same multiset) |
| `FisherYates.Steps` | script.js:38-41 | with `DrawsFit` and `FullDraws` giving the range [0, i] of `Math.floor(Math.random() * (i + 1))` at script.js:39: any prefix of the loop keeps the length; it is defined for draws j in [0, i] at i = n-1-k >= 1, which keeps both swap indices in bounds |
| `FisherYates.StepsPermute` | script.js:38-41 | any prefix of the loop, and so `Shuffle` (the complete loop), leaves a permutation of the original entries (same multiset) |
| `FisherYates.SwapInPlace` | script.js:40 | the array after the in-place swap is `Swap` of the array before |
| `FisherYates.ShuffleInPlace` | script.js:38-41 | the in-place loop from i = n-1 down to 1 leaves the array equal to `Shuffle` of its old contents under the given draws, and a permutation of them; every array access is in bounds |
| `Counting.TallyCounts` | script.js:77-89 | specifies `Tally` and `Mark` (the `forEach` counters and their if/else-if): after walking the slots, each counter equals the number of selected slots whose target flag is the one it counts |
| `Layout.ShuffleKeepsTargetCount` | script.js:31-41 | shuffling moves target flags between slots but keeps the number of target slots |
| `Layout.ShuffleKeepsFlags` | script.js:31-41 | target flags travel with their entries: if every entry's flag matches its catalog index before the shuffle, it does after |
| `Layout.LayoutPermutesCatalog` | script.js:31-41 | every layout has 9 slots and is a permutation of the catalog |
| `Layout.LayoutFlagsAgree` | script.js:31-41 | in every layout, slot s is a target iff its original index is in {0,1,2,3} |
| `Layout.LayoutTargetCount` | script.js:31-41 | every layout has exactly `valentineIndices.length` (4) target slots |
| `Layout.LayoutSlotFromCatalog` | script.js:31-41 | each slot of a layout holds the catalog entry of its own original index |
| `Layout.LayoutShowsNoImageTwice` | script.js:38-41 | no two slots of a layout show the same image |
| `Layout.LayoutShowsEveryImage` | script.js:38-41 | the original indices shown by a layout are exactly 0..8 |
| `Verdict.TallySplit` | script.js:77-89 | for a selection of grid slots, `correctSelections` is the number of selected target slots, `wrongSelections` the number of selected non-target slots, and together they are the size of the selection |
| `Verdict.AcceptedSelectsTargets` | script.js:92 | counters that meet the rule (all targets counted, no wrong pick) force the selection to equal the target slots |
| `Verdict.AcceptedIffExact` | script.js:92 | on a layout, the rule `Accepted` (`correctSelections === totalValentines && wrongSelections === 0`) accepts a selection of grid slots iff it is exactly the set of target slots (both directions) |
| `Verdict.EmptySelectionRejected` | script.js:92 | selecting nothing fails |
| `Verdict.MissingTargetRejected` | script.js:92 | selecting all targets but one fails |
| `Verdict.ExtraSlotRejected` | script.js:92 | selecting all targets plus one non-target slot fails |
| `Verdict.TargetsAccepted` | script.js:92 | selecting exactly the target slots succeeds |
| `Verdict.Outcome` | script.js:72-92 | on a layout: the two counters are the numbers of selected targets and selected non-targets, `correctSelections` is at most 4, the two add up to the size of the selection, and the rule accepts iff the selection is the target set |
| `Selection.Toggled` | script.js:61-69 | a click flips the membership of the clicked slot and of no other slot |
| `Selection.ToggleTwice` | script.js:61-69 | two clicks on the same slot restore the selection |
| `Selection.ToggleStaysInGrid` | script.js:55-69 | clicking a grid slot keeps the selection within the grid |
| `Round.PuzzleRound.constructor` | script.js:8-14 | script load with an empty selection (script.js:8) followed by the first round, which the `DOMContentLoaded` listener at script.js:215 starts through `initCaptcha` (script.js:11-14): a valid round whose layout is the shuffled catalog and whose selection is empty |
| `Round.PuzzleRound.Start` | script.js:11-41 | `initCaptcha`: the selection is cleared, a fresh array holds the shuffled catalog, and the round invariant holds |
| `Round.PuzzleRound.Reset` | script.js:166-170 | the retry button starts a new round: fresh shuffled layout, empty selection |
| `Round.PuzzleRound.Refresh` | script.js:173-186 | the refresh button starts a new round: fresh shuffled layout, empty selection |
| `Round.PuzzleRound.Toggle` | script.js:61-69 | the clicked grid slot's membership flips, every other slot keeps its membership, the layout is untouched, and the selection stays within the grid |
| `Round.PuzzleRound.Verify` | script.js:72-92 | the counting loop returns the number of selected targets and of selected non-targets, at most 4 and summing to the selection's size, and succeeds iff the selection equals the set of target slots; layout and selection are left unchanged |

## Left out

- DOM work: emptying and filling the grid, `img.src` and `alt`, the `selected` CSS class, and the event-listener wiring (script.js:12-13, 44-56, 64, 67, 200-215). This is presentation; the model keeps only the slot index each listener passes on.
- `showSuccess`, `createHeartConfetti` and `showError` (script.js:102-152). They are visual feedback built from floating-point random positions and timers. `Verify` returns the decision that selects between them.
- The injected CSS keyframes (script.js:134-142, 155-163, 189-197), and the fade animations and 300 ms delay of `refreshImages` (script.js:174-185). These are styling and timers; `Refresh` is the round restart alone.
- The `alert` dialogs of the info and audio buttons (script.js:205-212). They are I/O.
- `Math.random`. The draws are a caller-supplied sequence with bounds preconditions, so the model says nothing about the uniformity of the shuffle. Uniformity is a probabilistic property.
- The string round-trip of the target flag through `dataset.isValentine` (script.js:48, 82). The flag is a `bool` field of `Entry`. The string `'true'` written at line 48 reads back as `true` at line 82, and `'false'` as `false`.
- Hiding the success message in `resetCaptcha` (script.js:167-168). This is presentation.
