/**
 * `AppState` of src/ui/appstate.rs: the query, the ranked results, the focus,
 * the selection and scroll position, the selected path and the preview cache,
 * with the two operations the struct owns, `update_filtered_files` and the
 * unguarded `update_preview`.
 */
module State {
  import opened Wrappers
  import opened Ranking
  import opened Preview
  import Navigation

  datatype Focus = SearchBar | Results

  /** Every field of an `AppState`, and the log of the paths handed to the file reader so far. */
  datatype View = View(
    query: string,
    filteredFiles: seq<Entry>,
    focus: Focus,
    selectedIdx: nat,
    scrollOffset: nat,
    selectedPath: Option<Path>,
    previewCache: map<Path, Text>,
    previewHeight: nat,
    previewWidth: nat,
    readLog: seq<Path>)

  /** The results are the ranking of the lower-cased current query. */
  ghost predicate Ranked(v: View, env: Env, allFiles: seq<Path>) {
    v.filteredFiles == Rank(env, env.lowercase(v.query), allFiles)
  }

  /** `selected_idx < max(1, len)`: a row of the list, or 0 on an empty list. */
  predicate SelectionInRange(v: View) {
    v.selectedIdx < Navigation.Max1(|v.filteredFiles|)
  }

  /** The view after the guarded `update_preview` of src/ui.rs and src/ui/mod.rs. */
  function WithGuardedPreview(v: View, read: Path -> Option<string>, render: (Path, string) -> Text): View {
    var r := GuardedRefresh(v.filteredFiles, v.selectedIdx, v.previewCache, read, render);
    v.(selectedPath := r.selected, previewCache := r.cache, readLog := v.readLog + ToSeq(r.read))
  }

  /** The view after the unguarded `update_preview` of src/ui/appstate.rs. */
  function WithUnguardedPreview(v: View, read: Path -> Option<string>, render: (Path, string) -> Text): View {
    var r := UnguardedRefresh(v.filteredFiles, v.selectedIdx, v.previewCache, read, render, v.previewHeight, v.previewWidth);
    v.(selectedPath := r.selected, previewCache := r.cache, readLog := v.readLog + ToSeq(r.read))
  }

  /** The padding loop of the read-failure branch: the grey message, then blank lines up to `height`. */
  method PaddedPlaceholder(height: nat, width: nat) returns (lines: Text)
    ensures lines == PaddedUnavailable(height, width)
  {
    lines := [[Span(NoPreview, DarkGray)]];
    while |lines| < height
      invariant 1 <= |lines| <= Navigation.Max1(height)
      invariant lines[0] == [Span(NoPreview, DarkGray)]
      invariant forall i :: 1 <= i < |lines| ==> lines[i] == [Span(Spaces(width), Plain)]
    {
      lines := lines + [[Span(Spaces(width), Plain)]];
    }
    var expected := PaddedUnavailable(height, width);
    assert |lines| == |expected|;
    assert forall i :: 0 <= i < |lines| ==> lines[i] == expected[i];
  }

  class AppState {
    var query: string
    var filteredFiles: seq<Entry>
    var focus: Focus
    var selectedIdx: nat
    var scrollOffset: nat
    var selectedPath: Option<Path>
    var previewCache: map<Path, Text>
    var currPreviewHeight: nat
    var currPreviewWidth: nat
    /** Every path handed to the file reader, in order. */
    ghost var readLog: seq<Path>

    ghost function Snapshot(): View
      reads this
    {
      View(query, filteredFiles, focus, selectedIdx, scrollOffset, selectedPath, previewCache,
           currPreviewHeight, currPreviewWidth, readLog)
    }

    /** `AppState::new`: an empty query in the search bar, nothing selected or cached, every matching file listed. */
    constructor (allFiles: seq<Path>, env: Env)
      ensures Snapshot() == View([], Rank(env, [], allFiles), SearchBar, 0, 0, None, map[], 0, 0, [])
      ensures env.lowercase([]) == [] ==> Ranked(Snapshot(), env, allFiles) && SelectionInRange(Snapshot())
    {
      query := [];
      filteredFiles := [];
      focus := SearchBar;
      scrollOffset := 0;
      selectedIdx := 0;
      previewCache := map[];
      selectedPath := None;
      currPreviewHeight := 0;
      currPreviewWidth := 0;
      readLog := [];
      new;
      UpdateFilteredFiles([], allFiles, env);
    }

    /** `update_filtered_files`: the old results are discarded and replaced by the ranking of `query`. */
    method UpdateFilteredFiles(query: string, contents: seq<Path>, env: Env)
      modifies this`filteredFiles
      ensures filteredFiles == Rank(env, query, contents)
    {
      filteredFiles := [];
      var scoredFiles := Collect(env, query, contents);
      scoredFiles := SortByScore(scoredFiles);
      filteredFiles := Strip(scoredFiles);
    }

    /** `update_preview` with its cache guard commented out: the selected file is read and its entry overwritten every time. */
    method UpdatePreview(read: Path -> Option<string>, highlight: (Path, string) -> Text)
      modifies this`selectedPath, this`previewCache, this`readLog
      ensures Snapshot() == WithUnguardedPreview(old(Snapshot()), read, highlight)
    {
      if selectedIdx < |filteredFiles| {
        var path := filteredFiles[selectedIdx].path;
        if selectedPath != Some(path) || path !in previewCache {
          selectedPath := Some(path);
        }
        readLog := readLog + [path];
        match read(path) {
          case Some(content) =>
            previewCache := previewCache[path := highlight(path, content)];
          case None =>
            var lines := PaddedPlaceholder(currPreviewHeight, currPreviewWidth);
            previewCache := previewCache[path := lines];
        }
      } else {
        selectedPath := None;
        previewCache := map[];
      }
    }
  }
}
