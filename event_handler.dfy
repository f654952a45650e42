/**
 * `handle_events` of src/ui/event_handler.rs: one key is dispatched on the
 * current focus, the results are re-ranked, a query change resets selection
 * and scroll, and the preview is refreshed when the query or the selection
 * changed. The key dispatch is shared with the loops of src/ui.rs and
 * src/ui/mod.rs, which only differ in how they leave the loop.
 */
module EventHandler {
  import opened Wrappers
  import opened Ranking
  import opened Preview
  import opened State
  import Navigation

  datatype Key = Char(c: char) | Backspace | Tab | Esc | Enter | Up | Down | OtherKey
  datatype Event = KeyEvent(code: Key) | OtherEvent

  datatype AppAction = Quit | Continue | EditFile(path: Path)

  /** What `handle_events` ends with; `Panicked` is the `usize` underflow of Up on an empty list. */
  datatype Outcome = Returned(action: AppAction) | Panicked

  /** What the key itself asks for: stay in the loop, leave it, open a path, or the underflow. */
  datatype Effect = Stay | Exit | Open(path: Path) | Underflow

  /** The focus, query and selection after the key, and its effect. */
  datatype Dispatched = Dispatched(focus: Focus, query: string, idx: nat, effect: Effect)

  /** `String::pop`: the last character goes, an empty query stays empty. */
  function Pop(q: string): (r: string)
    ensures q == [] ==> r == []
    ensures q != [] ==> r + [q[|q| - 1]] == q
  {
    if q == [] then [] else q[..|q| - 1]
  }

  /** The `match state.focus` of the key dispatch. */
  function Dispatch(focus: Focus, query: string, idx: nat, files: seq<Entry>, ev: Event): (d: Dispatched)
    ensures d.effect.Exit? <==> ev == KeyEvent(Esc)
    ensures d.effect.Underflow? <==> focus == Results && ev == KeyEvent(Up) && idx == 0 && |files| == 0
    ensures d.effect.Open? <==> focus == Results && ev == KeyEvent(Enter) && idx < |files|
    ensures d.effect.Open? ==> d.effect.path == files[idx].path
    ensures !d.effect.Stay? ==> d.focus == focus && d.query == query && d.idx == idx
    ensures focus == SearchBar && ev.KeyEvent? && ev.code.Char? ==> d.query == query + [ev.code.c]
    ensures focus == SearchBar && ev == KeyEvent(Backspace) ==> d.query == Pop(query)
    ensures d.query != query ==> focus == SearchBar && ev.KeyEvent? && (ev.code.Char? || ev.code == Backspace)
    ensures d.focus != focus <==> ev == KeyEvent(Tab) || (focus == SearchBar && ev == KeyEvent(Enter))
    ensures d.idx != idx ==> focus == Results && (ev == KeyEvent(Up) || ev == KeyEvent(Down))
    ensures focus == Results && ev == KeyEvent(Down) ==> d.idx == Navigation.NextIndex(idx, |files|)
    ensures focus == Results && ev == KeyEvent(Up) && !d.effect.Underflow? ==>
      Navigation.PrevIndex(idx, |files|) == Some(d.idx)
    ensures idx < Navigation.Max1(|files|) && !d.effect.Underflow? ==> d.idx < Navigation.Max1(|files|)
  {
    match ev
    case OtherEvent => Dispatched(focus, query, idx, Stay)
    case KeyEvent(code) =>
      match focus
      case SearchBar =>
        (match code
         case Char(c) => Dispatched(focus, query + [c], idx, Stay)
         case Backspace => Dispatched(focus, Pop(query), idx, Stay)
         case Tab => Dispatched(Results, query, idx, Stay)
         case Esc => Dispatched(focus, query, idx, Exit)
         case Enter => Dispatched(Results, query, idx, Stay)
         case _ => Dispatched(focus, query, idx, Stay))
      case Results =>
        match code
        case Up =>
          (match Navigation.PrevIndex(idx, |files|)
           case None => Dispatched(focus, query, idx, Underflow)
           case Some(i) => Dispatched(focus, query, i, Stay))
        case Down => Dispatched(focus, query, Navigation.NextIndex(idx, |files|), Stay)
        case Tab => Dispatched(SearchBar, query, idx, Stay)
        case Esc => Dispatched(focus, query, idx, Exit)
        case Enter =>
          if idx < |files| then Dispatched(focus, query, idx, Open(files[idx].path))
          else Dispatched(focus, query, idx, Stay)
        case _ => Dispatched(focus, query, idx, Stay)
  }

  /** The key dispatch on the state itself. */
  method ApplyKey(state: AppState, ev: Event) returns (e: Effect)
    modifies state`query, state`focus, state`selectedIdx
    ensures var d := Dispatch(old(state.focus), old(state.query), old(state.selectedIdx), state.filteredFiles, ev);
      state.focus == d.focus && state.query == d.query && state.selectedIdx == d.idx && e == d.effect
  {
    e := Stay;
    if ev.KeyEvent? {
      match state.focus {
        case SearchBar =>
          match ev.code {
            case Char(c) => state.query := state.query + [c];
            case Backspace => state.query := Pop(state.query);
            case Tab => state.focus := Results;
            case Esc => return Exit;
            case Enter => state.focus := Results;
            case _ =>
          }
        case Results =>
          match ev.code {
            case Up =>
              if state.selectedIdx > 0 {
                state.selectedIdx := state.selectedIdx - 1;
              } else if |state.filteredFiles| >= 1 {
                state.selectedIdx := |state.filteredFiles| - 1;
              } else {
                return Underflow;
              }
            case Down =>
              if state.selectedIdx + 1 < |state.filteredFiles| {
                state.selectedIdx := state.selectedIdx + 1;
              } else {
                state.selectedIdx := 0;
              }
            case Tab => state.focus := SearchBar;
            case Esc => return Exit;
            case Enter =>
              if state.selectedIdx < |state.filteredFiles| {
                return Open(state.filteredFiles[state.selectedIdx].path);
              }
            case _ =>
          }
      }
    }
  }

  /**
   * After a key that stays in the loop: the results are the ranking of the
   * lower-cased query, and a changed query resets selection and scroll to 0.
   */
  function Requery(v: View, d: Dispatched, allFiles: seq<Path>, env: Env): View {
    var ranked := Rank(env, env.lowercase(d.query), allFiles);
    if d.query != v.query then
      v.(query := d.query, focus := d.focus, filteredFiles := ranked, selectedIdx := 0, scrollOffset := 0)
    else
      v.(focus := d.focus, filteredFiles := ranked, selectedIdx := d.idx)
  }

  /** `update_preview` runs when the query or the selection differs from its value before the key. */
  predicate NeedsPreview(before: View, after: View) {
    after.query != before.query || after.selectedIdx != before.selectedIdx
  }

  datatype Handled = Handled(outcome: Outcome, view: View)

  /** `handle_events` as a transition of the state. */
  function Handle(v: View, ev: Event, allFiles: seq<Path>, env: Env,
                  read: Path -> Option<string>, highlight: (Path, string) -> Text): Handled
  {
    var d := Dispatch(v.focus, v.query, v.selectedIdx, v.filteredFiles, ev);
    match d.effect
    case Exit => Handled(Returned(Quit), v)
    case Open(p) => Handled(Returned(EditFile(p)), v)
    case Underflow => Handled(Panicked, v)
    case Stay =>
      var w := Requery(v, d, allFiles, env);
      Handled(Returned(Continue), if NeedsPreview(v, w) then WithUnguardedPreview(w, read, highlight) else w)
  }

  /** `handle_events` as the source writes it, on the state in place. */
  method HandleEvents(ev: Event, allFiles: seq<Path>, env: Env,
                      read: Path -> Option<string>, highlight: (Path, string) -> Text, state: AppState)
    returns (o: Outcome)
    modifies state
    ensures Handled(o, state.Snapshot()) == Handle(old(state.Snapshot()), ev, allFiles, env, read, highlight)
  {
    var prevQuery := state.query;
    var prevSelected := state.selectedIdx;
    var e := ApplyKey(state, ev);
    match e {
      case Exit => return Returned(Quit);
      case Open(p) => return Returned(EditFile(p));
      case Underflow => return Panicked;
      case Stay =>
    }
    state.UpdateFilteredFiles(env.lowercase(state.query), allFiles, env);
    if state.query != prevQuery {
      state.UpdateFilteredFiles(env.lowercase(state.query), allFiles, env);
      state.selectedIdx := 0;
      state.scrollOffset := 0;
    }
    if state.selectedIdx != prevSelected || state.query != prevQuery {
      state.UpdatePreview(read, highlight);
    }
    o := Returned(Continue);
  }

  // ---------------------------------------------------------------------------
  // Properties of handle_events

  /** Esc quits, and Enter on a listed row opens it, both before any re-rank or preview update. */
  lemma HandleLeavesEarly(v: View, ev: Event, allFiles: seq<Path>, env: Env,
                          read: Path -> Option<string>, highlight: (Path, string) -> Text)
    ensures ev == KeyEvent(Esc) ==> Handle(v, ev, allFiles, env, read, highlight) == Handled(Returned(Quit), v)
    ensures v.focus == Results && ev == KeyEvent(Enter) && v.selectedIdx < |v.filteredFiles| ==>
      Handle(v, ev, allFiles, env, read, highlight) ==
        Handled(Returned(EditFile(v.filteredFiles[v.selectedIdx].path)), v)
    ensures Handle(v, ev, allFiles, env, read, highlight).outcome == Panicked <==>
      v.focus == Results && ev == KeyEvent(Up) && v.selectedIdx == 0 && |v.filteredFiles| == 0
  {
  }

  /**
   * After `Continue` the results are the ranking of the current query, a
   * changed query has reset selection and scroll, and the cache was touched only
   * when the query or the selection changed.
   */
  lemma HandleContinues(v: View, ev: Event, allFiles: seq<Path>, env: Env,
                        read: Path -> Option<string>, highlight: (Path, string) -> Text)
    ensures var h := Handle(v, ev, allFiles, env, read, highlight);
      h.outcome == Returned(Continue) ==>
        && Ranked(h.view, env, allFiles)
        && (h.view.query != v.query ==> h.view.selectedIdx == 0 && h.view.scrollOffset == 0)
        && (h.view.query == v.query ==> h.view.scrollOffset == v.scrollOffset)
        && (!NeedsPreview(v, h.view) ==>
              h.view.previewCache == v.previewCache && h.view.selectedPath == v.selectedPath && h.view.readLog == v.readLog)
        && (NeedsPreview(v, h.view) && h.view.selectedIdx < |h.view.filteredFiles| ==>
              h.view.selectedPath == Some(h.view.filteredFiles[h.view.selectedIdx].path)
              && h.view.readLog == v.readLog + [h.view.filteredFiles[h.view.selectedIdx].path])
        && (NeedsPreview(v, h.view) && h.view.selectedIdx >= |h.view.filteredFiles| ==>
              h.view.selectedPath == None && h.view.previewCache == map[])
  {
  }

  /** The selection bound `selected_idx < max(1, len)` holds across every event that keeps the loop going. */
  lemma HandleKeepsSelectionInRange(v: View, ev: Event, allFiles: seq<Path>, env: Env,
                                    read: Path -> Option<string>, highlight: (Path, string) -> Text)
    requires Ranked(v, env, allFiles) && SelectionInRange(v)
    ensures var h := Handle(v, ev, allFiles, env, read, highlight);
      h.outcome == Returned(Continue) ==> Ranked(h.view, env, allFiles) && SelectionInRange(h.view)
  {
  }

  /** `handle_events` applied to each event in turn, until one does not return `Continue`. */
  function HandleAll(v: View, evs: seq<Event>, allFiles: seq<Path>, env: Env,
                     read: Path -> Option<string>, highlight: (Path, string) -> Text): Handled
    decreases |evs|
  {
    if evs == [] then Handled(Returned(Continue), v)
    else
      var h := Handle(v, evs[0], allFiles, env, read, highlight);
      if h.outcome != Returned(Continue) then h
      else HandleAll(h.view, evs[1..], allFiles, env, read, highlight)
  }

  /** After any sequence of events, a session still running has its selection in range and its results ranked. */
  lemma {:induction false} HandleAllKeepsSelectionInRange(v: View, evs: seq<Event>, allFiles: seq<Path>, env: Env,
                                                          read: Path -> Option<string>, highlight: (Path, string) -> Text)
    requires Ranked(v, env, allFiles) && SelectionInRange(v)
    decreases |evs|
    ensures var h := HandleAll(v, evs, allFiles, env, read, highlight);
      h.outcome == Returned(Continue) ==> Ranked(h.view, env, allFiles) && SelectionInRange(h.view)
  {
    if evs != [] {
      var h := Handle(v, evs[0], allFiles, env, read, highlight);
      HandleKeepsSelectionInRange(v, evs[0], allFiles, env, read, highlight);
      if h.outcome == Returned(Continue) {
        HandleAllKeepsSelectionInRange(h.view, evs[1..], allFiles, env, read, highlight);
      }
    }
  }
}
