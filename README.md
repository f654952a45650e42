# findr: the incremental search engine, in Dafny

findr is a terminal file finder. The user types a query, the list of files
under a root directory is re-ranked on every key, and the selected file is
shown in a syntax-highlighted preview. This project models the engine behind
that screen and proves its properties:

- **The scorer** (`fuzzy_logic.dfy`, module `FuzzyLogic`) is `fuzzy_matcher`.
  - It is a greedy, ASCII-case-insensitive subsequence matcher.
  - Every match adds `10 + 5*streak - i`, plus 15 at index 0, or else plus 10
    right after one of `_ - / . \`. The total is floored at 0.
  - The loop is a method proved against a recursive function of the candidate
    prefix. The lemmas prove:
    - it answers `Some` exactly for subsequences;
    - it is greedy and leftmost;
    - the score is the sum of the per-match gains;
    - it ignores case;
    - the empty query scores 0.
- **The ranker** (`ranking.dfy`, module `Ranking`) is `update_filtered_files`.
  - It is a `filter_map` over the paths followed by a stable sort on
    descending score.
  - The file-name lookup, Unicode lower-casing and nucleo's `fuzzy_indices`
    are parameters of the record `Env`.
  - Rust's `sort_by` is stable, so its result is unique. It is modelled as a
    stable insertion sort written as a function.
  - The lemmas prove:
    - every result is an accepted entry;
    - each matching path appears as often as in the input;
    - the order is non-increasing;
    - ties keep their input order.
  - With the repository's own scorer as matcher, the empty query lists every
    named file in input order.
- **Index arithmetic** (`navigation.dfy`, module `Navigation`).
  - Down and Up wrap around. Up on an empty list at index 0 is the `usize`
    underflow of `len() - 1`, and is returned as `None`.
  - The scroll reconciliation moves the window just far enough to show the
    selection.
- **The preview cache** (`preview.dfy`, module `Preview`) has two behaviours:
  - the guarded refresh of `src/ui.rs` and `src/ui/mod.rs`;
  - the unguarded refresh of `src/ui/appstate.rs`, whose cache guard is
    commented out, so it reads and overwrites on every call.

  The file reader and the highlighter are parameters: `read` returns `None`
  when the read fails, and `render` stands for the highlighter.
- **`AppState`** (`appstate.dfy`, module `State`) is a class with the struct's
  fields and the methods `new`, `update_filtered_files` and `update_preview`.
  - A ghost field `readLog` records every path handed to the file reader, so
    that cache coherency can be stated.
  - `Snapshot()` is the state as a `View` value. Each method's new state is
    given by a function or a value: a function on `View`, the ranking `Rank`,
    or the initial `View`.
  - Where `src/ui/appstate.rs:25-31` holds unresolved merge-conflict markers,
    the `impl<'a>` branch is modelled.
- **`handle_events`** (`event_handler.dfy`, module `EventHandler`) works in
  three steps:
  - it dispatches one key on the focus;
  - it re-ranks, and resets the selection and scroll when the query changed;
  - it refreshes the preview (unguarded) when the query or the selection
    changed.

  The function `Dispatch` gives the key's effect, and `Handle` the whole
  transition. `HandleEvents` is the in-place method proved against `Handle`.
  The Up underflow is the outcome `Panicked`.
- **The loop bodies of `run_app`**:
  - In `ui.dfy` (module `Ui`), a turn of `src/ui.rs` reconciles the scroll,
    dispatches the key, re-ranks and refreshes the guarded preview. Esc, and
    Enter on a listed row, leave the loop instead of returning an action.
  - In `ui_mod.dfy` (module `UiMod`), `src/ui/mod.rs` does the same. In
    addition, it records the preview pane size during the draw and
    highlights at that size.

Some behaviour of the code is easy to misread, and the model keeps it as
written:

- The cache guard of `update_preview` in `src/ui/appstate.rs` is commented out
  (`src/ui/appstate.rs:97,115`). That version reads the selected file and
  overwrites its entry on every refresh (`Preview.UnguardedAlwaysReads`). Only
  `src/ui.rs` and `src/ui/mod.rs` skip cached paths.
- Up at index 0 computes `len() - 1` on a `usize`
  (`src/ui/event_handler.rs:44`). On an empty list that underflows; the model
  gives it the effect `Underflow` (`EventHandler.Dispatch`).
- The results are re-ranked on every event, but the selection is reset only
  when the query changed (`src/ui/event_handler.rs:83-86`). An unchanged query
  gives the same list, so the bound `selected_idx < max(1, len)` still holds
  (`EventHandler.HandleKeepsSelectionInRange`).
- The scroll offset is reconciled after the frame is drawn and before the key
  is read (`src/ui.rs:100-104`, `src/ui/mod.rs:98-102`). A selection change
  made by a key is reconciled on the next turn. `handle_events` never
  reconciles it. The frame drawn after a key therefore still uses the old
  offset: with a one-row window, Down from row 0 of a two-row list shows a
  frame whose selection is off-screen until the next key
  (`Ui.DrawnFrameLagsSelection`).
- `max_visible` is `height.saturating_sub(6)`, so it is 0 on a terminal of at
  most 6 rows. With a window of no rows the reconciliation moves the offset to
  `sel + 1` and the next turn moves it back to `sel`; the offset alternates on
  every turn (`src/ui.rs:102-103`, `Navigation.ZeroWindowAlternates`).

## Model

| member | source | states |
|---|---|---|
| FuzzyLogic.LowerFoldsOnlyAsciiUpper | src/fuzzy_logic.rs:4 | ASCII lower-casing changes only the letters 'A'..'Z', leaves no upper-case ASCII letter behind, and is idempotent |
| FuzzyLogic.ScanPrefix | src/fuzzy_logic.rs:8-28 | the query cursor never passes the end of the query nor the number of candidate characters seen |
| FuzzyLogic.FuzzyMatch | src/fuzzy_logic.rs:30-34 | every `Some` score is at least 0 |
| FuzzyLogic.FuzzyMatcher | src/fuzzy_logic.rs:1-35 | the one-pass loop with mutable score, streak and cursor returns exactly `FuzzyMatch` |
| FuzzyLogic.MatchIffSubsequence | src/fuzzy_logic.rs:8-34 | `Some` exactly when the lower-cased query is a subsequence of the lower-cased candidate, both directions |
| FuzzyLogic.GreedyMatch | src/fuzzy_logic.rs:9-31 | match positions are increasing and on equal characters, each is the leftmost after the previous one, `Some` iff every query character was placed, and the score is the floored sum of the gains with the streak of the run before each match |
| FuzzyLogic.EmptyQueryScoresZero | src/fuzzy_logic.rs:2-6 | an empty query matches every candidate with score 0 and no positions |
| FuzzyLogic.CaseInsensitive | src/fuzzy_logic.rs:4-8 | changing the ASCII case of query or candidate does not change the result |
| FuzzyLogic.MatchOfLowered | src/fuzzy_logic.rs:4-8 | scoring the lower-cased strings gives the same result |
| FuzzyLogic.SeparatorIgnoresCase | src/fuzzy_logic.rs:15-16 | the separator test on the original candidate agrees with the test on its lower-cased form |
| FuzzyLogic.SingleCharPrefixScores25 | src/fuzzy_logic.rs:11-14 | a one-character query equal to the candidate's first character scores exactly 25 |
| FuzzyLogic.PrefixMatchGainsMost | src/fuzzy_logic.rs:11-19 | with equal streak, a match at index 0 gains more than a match at any later index |
| Ranking.ScoreFileAccepts | src/ui/appstate.rs:61-69 | the closure yields an entry exactly when the path has a file name and the matcher accepts its lower-cased name, with the matcher's score and indices |
| Ranking.SortIsOrdered | src/ui/appstate.rs:78 | the sort orders by non-increasing score |
| Ranking.SortIsPermutation | src/ui/appstate.rs:78 | the sort is a permutation of its input, and of the input's paths |
| Ranking.SortIsStable | src/ui/appstate.rs:78 | for every score, the entries with that score keep their relative order |
| Ranking.SortOfEqualScores | src/ui.rs:226-227 | when all scores tie, the sort returns its input unchanged |
| Ranking.CollectSound | src/ui/appstate.rs:59-75 | every collected entry has a path from `contents` and is accepted by the matcher |
| Ranking.CollectCounts | src/ui.rs:212-224 | each path is collected as often as it occurs in `contents` if it matches, else never |
| Ranking.RankIsSound | src/ui.rs:207-232 | every result entry comes from `contents`, has a file name, carries the lower-cased name and was accepted by the matcher with its score and indices |
| Ranking.RankCountsPaths | src/ui/appstate.rs:59-82 | every matching named path appears in the results exactly as often as in `contents`; no other path appears |
| Ranking.RankIsStableSort | src/ui.rs:226-231 | the results are a permutation of the collected entries, non-increasing in score, stable on ties |
| Ranking.EmptyQueryListsAllNamed | src/ui/appstate.rs:45 | with `fuzzy_matcher` as matcher, the empty-query ranking lists every named path in input order |
| Navigation.NextIndex | src/ui/event_handler.rs:47-53 | Down is `(idx + 1) mod len`, stays 0 on an empty list, and stays below `max(1, len)` |
| Navigation.PrevIndex | src/ui/event_handler.rs:40-46 | Up is `(idx + len - 1) mod len`, fails exactly at index 0 of an empty list, and keeps the `max(1, len)` bound |
| Navigation.ReconcileOffset | src/ui.rs:100-104 | with a window of at least one row the selection becomes visible; an already visible selection leaves the offset unchanged; no other visible offset is closer to the old one |
| Navigation.ReconcileIsIdempotent | src/ui/mod.rs:98-102 | with a window of at least one row, reconciling twice is reconciling once |
| Navigation.ZeroWindowAlternates | src/ui.rs:100-104 | with a window of no rows, an offset no greater than `sel` moves to `sel + 1` and the next reconciliation moves it back to `sel`, so the offset never settles |
| Preview.PaddedUnavailable | src/ui/appstate.rs:102-112 | the read-failure placeholder has `max(1, height)` lines: the grey message, then blank full-width lines |
| Preview.GuardedRefresh | src/ui.rs:182-204 | in range: the selected path is set, keys grow by that path only, old entries are unchanged, a read happens iff the path was not cached and its result or "No Preview available" is cached; out of range: no selection, empty cache, no read |
| Preview.UnguardedRefresh | src/ui/appstate.rs:85-120 | in range: the selected path is set and always read, keys grow by that path only, other entries are unchanged, and its entry is the highlighted text or the padded placeholder; out of range: no selection, empty cache, no read |
| Preview.BrowseReadsEachPathOnce | src/ui/mod.rs:188-201 | over any run of guarded refreshes inside the list, no path is read twice, no initially cached path is read, and no entry changes |
| Preview.UnguardedAlwaysReads | src/ui/appstate.rs:97-98 | the unguarded refresh reads a cached path where the guarded one does not |
| State.PaddedPlaceholder | src/ui/appstate.rs:102-112 | the padding loop builds exactly the padded placeholder |
| State.AppState.constructor | src/ui/appstate.rs:29-49 | empty query, focus on the search bar, index and offset 0, no selection, empty cache, size 0x0, results the empty-query ranking; when lower-casing keeps the empty string empty, the results are ranked and the selection bound holds |
| State.AppState.UpdateFilteredFiles | src/ui/appstate.rs:52-83 | the results become the ranking of the query, whatever they were before; nothing else changes |
| State.AppState.UpdatePreview | src/ui/appstate.rs:85-120 | the new selection, cache and read log are those of the unguarded refresh; nothing else changes |
| EventHandler.Pop | src/ui/event_handler.rs:29-31 | Backspace drops the last character, and leaves an empty query empty |
| EventHandler.Dispatch | src/ui/event_handler.rs:23-64 | Esc quits in either focus; Enter on a listed row opens its path; Up at index 0 of an empty list underflows; Char appends; only the search bar edits the query; only Tab and search-bar Enter change focus; only Up and Down move the selection; leaving keeps the state; the `max(1, len)` bound is kept |
| EventHandler.ApplyKey | src/ui/event_handler.rs:23-64 | the in-place dispatch leaves focus, query and selection as `Dispatch` gives them |
| EventHandler.HandleEvents | src/ui/event_handler.rs:14-94 | the outcome and new state are those of `Handle` on the old state |
| EventHandler.HandleLeavesEarly | src/ui/event_handler.rs:35-60 | Esc returns `Quit` and Enter on a listed row returns `EditFile`, both with the state untouched; the panic happens exactly at Up on an empty list at index 0 |
| EventHandler.HandleContinues | src/ui/event_handler.rs:66-93 | after `Continue` the results are the ranking of the lower-cased query; a query change resets selection and scroll; `update_preview` runs iff the query or selection changed, and then selects the refreshed path and logs its read, or forgets the selection and empties the cache when it is outside the list |
| EventHandler.HandleKeepsSelectionInRange | src/ui/event_handler.rs:40-86 | one event that continues keeps the results ranked and the selection below `max(1, len)` |
| EventHandler.HandleAllKeepsSelectionInRange | src/ui/event_handler.rs:14-94 | any sequence of events keeps the results ranked and the selection in range while the session continues |
| Ui.UpdatePreview | src/ui.rs:182-204 | the new selection, cache and read log are those of the guarded refresh; nothing else changes |
| Ui.ReconcileScroll | src/ui.rs:100-104 | the new scroll offset is the reconciled offset |
| Ui.LoopStep | src/ui.rs:98-173 | a turn of the loop ends and leaves the state as `Ui.Step` gives them |
| Ui.StepLeaves | src/ui.rs:140-147 | Esc leaves the loop; Enter on a listed row opens it and leaves; leaving changes nothing but the reconciled scroll |
| Ui.StepContinues | src/ui.rs:125-171 | a turn that keeps going leaves the ranking of the query; a query change resets selection and scroll to 0; with query and selection unchanged the preview, cache and read log are untouched; Down and Up in the results list move to the wrapped next and previous index |
| Ui.StepKeepsSelectionInRange | src/ui.rs:154-173 | a turn that keeps going keeps the results ranked and the selection in range |
| Ui.StepCacheIsCoherent | src/ui.rs:182-204 | a turn either clears the cache and the selection, or keeps every cached entry and reads at most one path that was not cached |
| Ui.DrawnFrameLagsSelection | src/ui.rs:69-138 | Down in the results list keeps the old offset for the next frame; with a one-row window, Down from row 0 of a two-row list ends the turn with selection 1 outside the window at offset 0 |
| Ui.FailedReadIsNotRetried | src/ui.rs:190-198 | a failed read is cached as the placeholder, and refreshing again reads nothing and changes nothing |
| UiMod.RecordPreviewSize | src/ui/mod.rs:78-79 | the state holds the drawn pane size |
| UiMod.UpdatePreview | src/ui/mod.rs:180-207 | the new selection, cache and read log are those of the guarded refresh with the highlighter at the recorded size |
| UiMod.LoopStep | src/ui/mod.rs:53-171 | a turn of the loop ends and leaves the state as `UiMod.Step` gives them |
| UiMod.StepHighlightsAtDrawnSize | src/ui/mod.rs:188-201 | a file read during a turn was not cached, and is cached highlighted at the pane size of that turn or as the placeholder |
| UiMod.StepContinues | src/ui/mod.rs:123-171 | the same for a turn of `src/ui/mod.rs`: ranked results, reset on a query change, no refresh when query and selection are unchanged, wrapped Down and Up |
| UiMod.StepCacheIsCoherent | src/ui/mod.rs:180-207 | a turn either clears the cache and the selection, or keeps every cached entry and reads at most one path that was not cached |
| UiMod.StepKeepsSelectionInRange | src/ui/mod.rs:104-171 | a turn that keeps going keeps the results ranked and the selection in range |

## Left out

- Rendering is not modelled: `src/ui/renderer.rs`, the `draw_*` functions and ratatui layout. Only the pane size written back by the draw closure is kept, as `UiMod.RecordPreviewSize`.
- Syntax highlighting (`src/highlight.rs`) is an opaque parameter `render` or `highlight`, because it is a foreign library with global state.
- File reading is not modelled. `std::fs::read_to_string` is a parameter returning `None` on failure.
- `edit::edit_file` is not modelled. Enter on a listed row becomes the action or control value that names the path, and a failed editor launch is not modelled.
- Terminal I/O is a parameter or is left out: raw mode, the alternate screen and `event::read`. The event of a turn is a parameter. `max_visible` is a `nat` parameter instead of `height.saturating_sub(6)` on a `u16`.
- nucleo's `fuzzy_indices` is a parameter. Its internal state and the matcher reset for an empty query (`src/ui/event_handler.rs:74-77`) are not modelled, because the matcher is a foreign library.
- `Path::file_name` and Unicode `to_lowercase` are parameters. `Utf32Str` conversion and its scratch buffers are not modelled.
- `update_filtered_files` sorts in place with a library sort. It is modelled as the function `Ranking.SortByScore`; a stable sort has only one possible result.
- Navigation.PrevIndex and the `Up` key: in a release build `0 - 1` would wrap to `usize::MAX` instead of panicking. The model treats it as the debug-build panic (`Panicked`/`Crashed`).
- FuzzyLogic.FuzzyMatch: does not model `i32` overflow of the score or of `i as i32`, because integers are unbounded. Queries and candidates of tens of thousands of characters can reach it: each match at index `i` subtracts `i`, so many late matches drive the sum below `i32::MIN`.
- State.AppState: `scroll_offset`, `curr_preview_height` and `curr_preview_width` are `nat` instead of `u16`. The reconciliation `scroll_offset + max_visible` cannot overflow here, and the truncating `selected_idx as u16` is not modelled.
- The `cache_key` string built and never used in `src/ui/appstate.rs:91-96` is not modelled.
- The `AppState` of `src/ui.rs` has no preview-size fields. Both loops use the one class of `src/ui/appstate.rs`, and the `src/ui.rs` steps never touch the size fields.
- The build errors are not modelled: `src/ui.rs` and `src/ui/mod.rs` coexist, `src/ui/mod.rs` lacks imports and calls a free `update_filtered_files` it does not define, and there are the merge-conflict markers. The ranker of `src/ui.rs` stands for `src/ui/mod.rs`'s call.
- The CLI of `src/main.rs` is not part of this model.
- The directory walk of `src/filesystem.rs` is not part of this model. The candidate list is a parameter.
