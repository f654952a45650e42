/**
 * One turn of `run_app`'s loop in src/ui.rs: the scroll offset is reconciled
 * with the selection, one event is dispatched, the results are re-ranked by
 * the free-function ranker, and the guarded `update_preview` refreshes the
 * preview. Drawing and reading the terminal are left to the caller; the event
 * and the window height arrive as parameters.
 */
module Ui {
  import opened Wrappers
  import opened Ranking
  import opened Preview
  import opened State
  import opened EventHandler
  import Navigation

  /** How a turn of the loop ends; `Crashed` is the `usize` underflow of Up on an empty list. */
  datatype Control = KeepGoing | Leave | EditThenLeave(path: Path) | Crashed

  datatype Stepped = Stepped(control: Control, view: View)

  /** `update_preview` of src/ui.rs: the selected file is read only when its path is not cached yet. */
  method UpdatePreview(state: AppState, read: Path -> Option<string>, highlight: (Path, string) -> Text)
    modifies state`selectedPath, state`previewCache, state`readLog
    ensures state.Snapshot() == WithGuardedPreview(old(state.Snapshot()), read, highlight)
  {
    if state.selectedIdx < |state.filteredFiles| {
      var path := state.filteredFiles[state.selectedIdx].path;
      if state.selectedPath != Some(path) || path !in state.previewCache {
        state.selectedPath := Some(path);
      }
      state.selectedPath := Some(path);
      if path !in state.previewCache {
        state.readLog := state.readLog + [path];
        match read(path) {
          case Some(content) =>
            state.previewCache := state.previewCache[path := highlight(path, content)];
          case None =>
            state.previewCache := state.previewCache[path := Unavailable()];
        }
      }
    } else {
      state.selectedPath := None;
      state.previewCache := map[];
    }
  }

  /** The scroll reconciliation before each key: the window is moved just far enough to show the selection. */
  method ReconcileScroll(state: AppState, maxVisible: nat)
    modifies state`scrollOffset
    ensures state.scrollOffset == Navigation.ReconcileOffset(state.selectedIdx, old(state.scrollOffset), maxVisible)
  {
    if state.selectedIdx < state.scrollOffset {
      state.scrollOffset := state.selectedIdx;
    } else if state.selectedIdx >= state.scrollOffset + maxVisible {
      state.scrollOffset := state.selectedIdx - maxVisible + 1;
    }
  }

  /** One turn of the loop, after the frame is drawn and `max_visible` is known. */
  function Step(v: View, maxVisible: nat, ev: Event, allFiles: seq<Path>, env: Env,
                read: Path -> Option<string>, render: (Path, string) -> Text): Stepped
  {
    var u := v.(scrollOffset := Navigation.ReconcileOffset(v.selectedIdx, v.scrollOffset, maxVisible));
    var d := Dispatch(u.focus, u.query, u.selectedIdx, u.filteredFiles, ev);
    match d.effect
    case Exit => Stepped(Leave, u)
    case Open(p) => Stepped(EditThenLeave(p), u)
    case Underflow => Stepped(Crashed, u)
    case Stay =>
      var w := Requery(u, d, allFiles, env);
      Stepped(KeepGoing, if NeedsPreview(u, w) then WithGuardedPreview(w, read, render) else w)
  }

  /** The loop body of src/ui.rs on the state in place. */
  method LoopStep(state: AppState, maxVisible: nat, ev: Event, allFiles: seq<Path>, env: Env,
                  read: Path -> Option<string>, highlight: (Path, string) -> Text)
    returns (c: Control)
    modifies state
    ensures Stepped(c, state.Snapshot()) == Step(old(state.Snapshot()), maxVisible, ev, allFiles, env, read, highlight)
  {
    ReconcileScroll(state, maxVisible);
    ghost var u := state.Snapshot();
    ghost var d := Dispatch(u.focus, u.query, u.selectedIdx, u.filteredFiles, ev);
    var prevQuery := state.query;
    var prevSelected := state.selectedIdx;
    var e := ApplyKey(state, ev);
    match e {
      case Exit => return Leave;
      case Open(p) => return EditThenLeave(p);
      case Underflow => return Crashed;
      case Stay =>
    }
    state.filteredFiles := Rank(env, env.lowercase(state.query), allFiles);
    if state.query != prevQuery {
      state.filteredFiles := Rank(env, env.lowercase(state.query), allFiles);
      state.selectedIdx := 0;
      state.scrollOffset := 0;
    }
    assert state.Snapshot() == Requery(u, d, allFiles, env);
    if state.selectedIdx != prevSelected || state.query != prevQuery {
      UpdatePreview(state, read, highlight);
    }
    c := KeepGoing;
  }

  // ---------------------------------------------------------------------------
  // Properties of a turn

  /** Esc leaves the loop, Enter on a listed row opens it and then leaves; neither re-ranks nor touches the preview. */
  lemma StepLeaves(v: View, maxVisible: nat, ev: Event, allFiles: seq<Path>, env: Env,
                   read: Path -> Option<string>, render: (Path, string) -> Text)
    ensures var s := Step(v, maxVisible, ev, allFiles, env, read, render);
      && (ev == KeyEvent(Esc) ==> s.control == Leave)
      && (v.focus == Results && ev == KeyEvent(Enter) && v.selectedIdx < |v.filteredFiles| ==>
            s.control == EditThenLeave(v.filteredFiles[v.selectedIdx].path))
      && (s.control != KeepGoing ==>
            s.view == v.(scrollOffset := Navigation.ReconcileOffset(v.selectedIdx, v.scrollOffset, maxVisible)))
  {
  }

  /**
   * A turn that keeps going: a changed query resets selection and scroll to 0;
   * with query and selection unchanged the preview, the cache and the read log
   * are untouched; Up and Down in the results list wrap the selection.
   */
  lemma StepContinues(v: View, maxVisible: nat, ev: Event, allFiles: seq<Path>, env: Env,
                      read: Path -> Option<string>, render: (Path, string) -> Text)
    ensures var s := Step(v, maxVisible, ev, allFiles, env, read, render);
      var offset := Navigation.ReconcileOffset(v.selectedIdx, v.scrollOffset, maxVisible);
      s.control == KeepGoing ==>
        && s.view.filteredFiles == Rank(env, env.lowercase(s.view.query), allFiles)
        && (s.view.query != v.query ==> s.view.selectedIdx == 0 && s.view.scrollOffset == 0)
        && (s.view.query == v.query ==> s.view.scrollOffset == offset)
        && (s.view.query == v.query && s.view.selectedIdx == v.selectedIdx ==>
              && s.view.previewCache == v.previewCache
              && s.view.selectedPath == v.selectedPath
              && s.view.readLog == v.readLog)
        && (v.focus == Results && ev == KeyEvent(Down) ==>
              s.view.selectedIdx == Navigation.NextIndex(v.selectedIdx, |v.filteredFiles|))
        && (v.focus == Results && ev == KeyEvent(Up) ==>
              Navigation.PrevIndex(v.selectedIdx, |v.filteredFiles|) == Some(s.view.selectedIdx))
  {
  }

  /** The results stay the ranking of the query and the selection stays in range for as long as the loop runs. */
  lemma StepKeepsSelectionInRange(v: View, maxVisible: nat, ev: Event, allFiles: seq<Path>, env: Env,
                                  read: Path -> Option<string>, render: (Path, string) -> Text)
    requires Ranked(v, env, allFiles) && SelectionInRange(v)
    ensures var s := Step(v, maxVisible, ev, allFiles, env, read, render);
      s.control == KeepGoing ==> Ranked(s.view, env, allFiles) && SelectionInRange(s.view)
  {
  }

  /**
   * The cache of src/ui.rs only grows, keeps every entry it holds, and reads a
   * file only when its path is not cached; the one exception is a selection
   * outside the list, which forgets the selected path and empties the cache.
   */
  lemma StepCacheIsCoherent(v: View, maxVisible: nat, ev: Event, allFiles: seq<Path>, env: Env,
                            read: Path -> Option<string>, render: (Path, string) -> Text)
    ensures var s := Step(v, maxVisible, ev, allFiles, env, read, render);
      || (s.view.previewCache == map[] && s.view.selectedPath == None && s.view.readLog == v.readLog)
      || (&& v.previewCache.Keys <= s.view.previewCache.Keys
          && (forall p :: p in v.previewCache ==> s.view.previewCache[p] == v.previewCache[p])
          && (s.view.readLog == v.readLog
              || (exists p :: s.view.readLog == v.readLog + [p] && p !in v.previewCache && p in s.view.previewCache)))
  {
  }

  /**
   * The frame is drawn before the reconciliation, so the frame after a key
   * still uses the old offset: Down in the results list keeps going with the
   * offset unchanged, and with a one-row window Down from row 0 of a two-row
   * list leaves the new selection outside that window until the next turn.
   */
  lemma DrawnFrameLagsSelection(v: View, maxVisible: nat, ev: Event, allFiles: seq<Path>, env: Env,
                                read: Path -> Option<string>, render: (Path, string) -> Text)
    requires v.focus == Results && ev == KeyEvent(Down)
    requires Navigation.Visible(v.scrollOffset, v.selectedIdx, maxVisible)
    ensures var s := Step(v, maxVisible, ev, allFiles, env, read, render);
      && s.control == KeepGoing
      && s.view.scrollOffset == v.scrollOffset
      && s.view.selectedIdx == Navigation.NextIndex(v.selectedIdx, |v.filteredFiles|)
      && (maxVisible == 1 && v.selectedIdx == 0 && |v.filteredFiles| == 2 ==>
            s.view.selectedIdx == 1 && s.view.scrollOffset == 0
            && !Navigation.Visible(s.view.scrollOffset, s.view.selectedIdx, maxVisible))
  {
  }

  /** A path that failed to read is cached as the placeholder, so selecting it again reads nothing. */
  lemma FailedReadIsNotRetried(v: View, read: Path -> Option<string>, render: (Path, string) -> Text)
    requires v.selectedIdx < |v.filteredFiles|
    requires read(v.filteredFiles[v.selectedIdx].path).None?
    ensures var w := WithGuardedPreview(v, read, render);
      && w.previewCache[v.filteredFiles[v.selectedIdx].path] ==
           (if v.filteredFiles[v.selectedIdx].path in v.previewCache
            then v.previewCache[v.filteredFiles[v.selectedIdx].path] else Unavailable())
      && WithGuardedPreview(w, read, render) == w
  {
  }
}
