/**
 * One turn of `run_app`'s loop in src/ui/mod.rs. It differs from src/ui.rs in
 * that drawing records the inner size of the preview pane in the state, and
 * the guarded `update_preview` hands that size to the highlighter.
 */
module UiMod {
  import opened Wrappers
  import opened Ranking
  import opened Preview
  import opened State
  import opened EventHandler
  import Ui
  import Navigation

  /** The highlighter of src/ui/mod.rs with the preview height and width fixed. */
  function Sized(highlight: (Path, string, nat, nat) -> Text, height: nat, width: nat): (Path, string) -> Text {
    (p: Path, c: string) => highlight(p, c, height, width)
  }

  /** The size of the preview pane's inner area, which the draw closure stores in the state. */
  method RecordPreviewSize(state: AppState, width: nat, height: nat)
    modifies state`currPreviewWidth, state`currPreviewHeight
    ensures state.currPreviewWidth == width && state.currPreviewHeight == height
  {
    state.currPreviewWidth := width;
    state.currPreviewHeight := height;
  }

  /** `update_preview` of src/ui/mod.rs: guarded like src/ui.rs, highlighting at the recorded size. */
  method UpdatePreview(state: AppState, read: Path -> Option<string>, highlight: (Path, string, nat, nat) -> Text)
    modifies state`selectedPath, state`previewCache, state`readLog
    ensures state.Snapshot() ==
      WithGuardedPreview(old(state.Snapshot()), read, Sized(highlight, state.currPreviewHeight, state.currPreviewWidth))
  {
    if state.selectedIdx < |state.filteredFiles| {
      var path := state.filteredFiles[state.selectedIdx].path;
      if state.selectedPath != Some(path) || path !in state.previewCache {
        state.selectedPath := Some(path);
      }
      state.selectedPath := Some(path);
      if path !in state.previewCache {
        state.readLog := state.readLog + [path];
        match read(path) {
          case Some(content) =>
            var highlighted := highlight(path, content, state.currPreviewHeight, state.currPreviewWidth);
            state.previewCache := state.previewCache[path := highlighted];
          case None =>
            state.previewCache := state.previewCache[path := Unavailable()];
        }
      }
    } else {
      state.selectedPath := None;
      state.previewCache := map[];
    }
  }

  /** One turn of the loop: the pane size from the draw, then the turn of src/ui.rs with the sized highlighter. */
  function Step(v: View, width: nat, height: nat, maxVisible: nat, ev: Event, allFiles: seq<Path>, env: Env,
                read: Path -> Option<string>, highlight: (Path, string, nat, nat) -> Text): Ui.Stepped
  {
    Ui.Step(v.(previewWidth := width, previewHeight := height), maxVisible, ev, allFiles, env, read,
            Sized(highlight, height, width))
  }

  /** The loop body of src/ui/mod.rs on the state in place. */
  method LoopStep(state: AppState, width: nat, height: nat, maxVisible: nat, ev: Event, allFiles: seq<Path>,
                  env: Env, read: Path -> Option<string>, highlight: (Path, string, nat, nat) -> Text)
    returns (c: Ui.Control)
    modifies state
    ensures Ui.Stepped(c, state.Snapshot()) ==
      Step(old(state.Snapshot()), width, height, maxVisible, ev, allFiles, env, read, highlight)
  {
    RecordPreviewSize(state, width, height);
    Ui.ReconcileScroll(state, maxVisible);
    ghost var u := state.Snapshot();
    ghost var d := Dispatch(u.focus, u.query, u.selectedIdx, u.filteredFiles, ev);
    var prevQuery := state.query;
    var prevSelected := state.selectedIdx;
    var e := ApplyKey(state, ev);
    match e {
      case Exit => return Ui.Leave;
      case Open(p) => return Ui.EditThenLeave(p);
      case Underflow => return Ui.Crashed;
      case Stay =>
    }
    state.filteredFiles := Rank(env, env.lowercase(state.query), allFiles);
    if state.query != prevQuery {
      state.filteredFiles := Rank(env, env.lowercase(state.query), allFiles);
      state.selectedIdx := 0;
      state.scrollOffset := 0;
    }
    assert state.Snapshot() == Requery(u, d, allFiles, env);
    if state.selectedIdx != prevSelected || state.query != prevQuery {
      UpdatePreview(state, read, highlight);
    }
    c := Ui.KeepGoing;
  }

  // ---------------------------------------------------------------------------
  // Properties of a turn

  /**
   * A file read during a turn is cached highlighted at the pane size drawn in
   * that turn, or as the placeholder when the read fails; a cached path is not read.
   */
  lemma StepHighlightsAtDrawnSize(v: View, width: nat, height: nat, maxVisible: nat, ev: Event,
                                  allFiles: seq<Path>, env: Env, read: Path -> Option<string>,
                                  highlight: (Path, string, nat, nat) -> Text)
    ensures var s := Step(v, width, height, maxVisible, ev, allFiles, env, read, highlight);
      && s.view.previewWidth == width && s.view.previewHeight == height
      && (|s.view.readLog| > |v.readLog| ==>
            var p := s.view.readLog[|s.view.readLog| - 1];
            && s.view.readLog == v.readLog + [p]
            && p !in v.previewCache
            && s.view.previewCache[p] ==
                 (match read(p) case Some(content) => highlight(p, content, height, width) case None => Unavailable()))
  {
  }

  /**
   * A turn of src/ui/mod.rs that keeps going: a changed query resets selection
   * and scroll to 0; with query and selection unchanged nothing is read and the
   * cache is untouched; Up and Down in the results list wrap the selection.
   */
  lemma StepContinues(v: View, width: nat, height: nat, maxVisible: nat, ev: Event,
                      allFiles: seq<Path>, env: Env, read: Path -> Option<string>,
                      highlight: (Path, string, nat, nat) -> Text)
    ensures var s := Step(v, width, height, maxVisible, ev, allFiles, env, read, highlight);
      var offset := Navigation.ReconcileOffset(v.selectedIdx, v.scrollOffset, maxVisible);
      s.control == Ui.KeepGoing ==>
        && s.view.filteredFiles == Rank(env, env.lowercase(s.view.query), allFiles)
        && (s.view.query != v.query ==> s.view.selectedIdx == 0 && s.view.scrollOffset == 0)
        && (s.view.query == v.query ==> s.view.scrollOffset == offset)
        && (s.view.query == v.query && s.view.selectedIdx == v.selectedIdx ==>
              && s.view.previewCache == v.previewCache
              && s.view.selectedPath == v.selectedPath
              && s.view.readLog == v.readLog)
        && (v.focus == Results && ev == KeyEvent(Down) ==>
              s.view.selectedIdx == Navigation.NextIndex(v.selectedIdx, |v.filteredFiles|))
        && (v.focus == Results && ev == KeyEvent(Up) ==>
              Navigation.PrevIndex(v.selectedIdx, |v.filteredFiles|) == Some(s.view.selectedIdx))
  {
    var v' := v.(previewWidth := width, previewHeight := height);
    Ui.StepContinues(v', maxVisible, ev, allFiles, env, read, Sized(highlight, height, width));
  }

  /**
   * The cache of src/ui/mod.rs only grows and keeps every entry it holds,
   * reading at most one uncached path per turn, except when the selection is
   * outside the list, which forgets the selected path and empties the cache.
   */
  lemma StepCacheIsCoherent(v: View, width: nat, height: nat, maxVisible: nat, ev: Event,
                            allFiles: seq<Path>, env: Env, read: Path -> Option<string>,
                            highlight: (Path, string, nat, nat) -> Text)
    ensures var s := Step(v, width, height, maxVisible, ev, allFiles, env, read, highlight);
      || (s.view.previewCache == map[] && s.view.selectedPath == None && s.view.readLog == v.readLog)
      || (&& v.previewCache.Keys <= s.view.previewCache.Keys
          && (forall p :: p in v.previewCache ==> s.view.previewCache[p] == v.previewCache[p])
          && (s.view.readLog == v.readLog
              || (exists p :: s.view.readLog == v.readLog + [p] && p !in v.previewCache && p in s.view.previewCache)))
  {
    Ui.StepCacheIsCoherent(v.(previewWidth := width, previewHeight := height), maxVisible, ev, allFiles, env, read,
                           Sized(highlight, height, width));
  }

  /** The selection bound and the ranking of the results hold for as long as the loop of src/ui/mod.rs runs. */
  lemma StepKeepsSelectionInRange(v: View, width: nat, height: nat, maxVisible: nat, ev: Event,
                                  allFiles: seq<Path>, env: Env, read: Path -> Option<string>,
                                  highlight: (Path, string, nat, nat) -> Text)
    requires Ranked(v, env, allFiles) && SelectionInRange(v)
    ensures var s := Step(v, width, height, maxVisible, ev, allFiles, env, read, highlight);
      s.control == Ui.KeepGoing ==> Ranked(s.view, env, allFiles) && SelectionInRange(s.view)
  {
    var v' := v.(previewWidth := width, previewHeight := height);
    Ui.StepKeepsSelectionInRange(v', maxVisible, ev, allFiles, env, read, Sized(highlight, height, width));
  }
}
