/**
 * The preview cache. `update_preview` exists in two behaviours: src/ui.rs and
 * src/ui/mod.rs read a file only when its path is not cached yet (guarded);
 * src/ui/appstate.rs has that guard commented out and reads and overwrites on
 * every call (unguarded). Both forget the selection and clear the cache when the
 * selection is outside the list. The file reader and the highlighter are
 * parameters.
 */
module Preview {
  import opened Wrappers
  import opened Ranking
  import Navigation

  datatype Style = Plain | DarkGray
  datatype Span = Span(content: string, style: Style)
  type Line = seq<Span>
  type Text = seq<Line>

  const NoPreview: string := "No Preview available"

  function Spaces(n: nat): string {
    seq(n, _ => ' ')
  }

  /** The placeholder of src/ui.rs and src/ui/mod.rs: `Text::from("No Preview available")`, one unstyled line. */
  function Unavailable(): Text {
    [[Span(NoPreview, Plain)]]
  }

  /** The placeholder of src/ui/appstate.rs: the grey message, padded with blank lines to the preview height. */
  function PaddedUnavailable(height: nat, width: nat): (t: Text)
    ensures |t| == Navigation.Max1(height)
    ensures t[0] == [Span(NoPreview, DarkGray)]
    ensures forall i :: 1 <= i < |t| ==> t[i] == [Span(Spaces(width), Plain)]
  {
    [[Span(NoPreview, DarkGray)]] + seq(Navigation.Max1(height) - 1, _ => [Span(Spaces(width), Plain)])
  }

  /** The outcome of one `update_preview`: the selected path, the cache, and the path read from disk, if any. */
  datatype Refresh = Refresh(selected: Option<Path>, cache: map<Path, Text>, read: Option<Path>)

  /** What a read of `path` caches: its highlighted text, or `placeholder` when the read fails. */
  function Load(path: Path, read: Path -> Option<string>, render: (Path, string) -> Text, placeholder: Text): Text {
    match read(path)
    case Some(content) => render(path, content)
    case None => placeholder
  }

  /** `update_preview` of src/ui.rs and src/ui/mod.rs. */
  function GuardedRefresh(files: seq<Entry>, idx: nat, cache: map<Path, Text>,
                          read: Path -> Option<string>, render: (Path, string) -> Text): (r: Refresh)
    ensures idx < |files| ==>
      && r.selected == Some(files[idx].path)
      && r.cache.Keys == cache.Keys + {files[idx].path}
      && (forall p :: p in cache ==> r.cache[p] == cache[p])
      && (r.read.Some? <==> files[idx].path !in cache)
      && (r.read.Some? ==> r.read.value == files[idx].path
                           && r.cache[files[idx].path] == Load(files[idx].path, read, render, Unavailable()))
    ensures idx >= |files| ==> r == Refresh(None, map[], None)
  {
    if idx < |files| then
      var path := files[idx].path;
      if path in cache then Refresh(Some(path), cache, None)
      else Refresh(Some(path), cache[path := Load(path, read, render, Unavailable())], Some(path))
    else
      Refresh(None, map[], None)
  }

  /** `update_preview` of src/ui/appstate.rs. */
  function UnguardedRefresh(files: seq<Entry>, idx: nat, cache: map<Path, Text>,
                            read: Path -> Option<string>, render: (Path, string) -> Text,
                            height: nat, width: nat): (r: Refresh)
    ensures idx < |files| ==>
      && r.selected == Some(files[idx].path)
      && r.read == Some(files[idx].path)
      && r.cache.Keys == cache.Keys + {files[idx].path}
      && (forall p :: p in cache && p != files[idx].path ==> r.cache[p] == cache[p])
      && r.cache[files[idx].path] == Load(files[idx].path, read, render, PaddedUnavailable(height, width))
    ensures idx >= |files| ==> r == Refresh(None, map[], None)
  {
    if idx < |files| then
      var path := files[idx].path;
      Refresh(Some(path), cache[path := Load(path, read, render, PaddedUnavailable(height, width))], Some(path))
    else
      Refresh(None, map[], None)
  }

  /** What a run of guarded refreshes leaves behind: the cache and every path read, in order. */
  datatype Session = Session(cache: map<Path, Text>, fetched: seq<Path>)

  /** The guarded `update_preview` applied for each selection in `idxs`, in turn. */
  function Browse(files: seq<Entry>, idxs: seq<nat>, cache: map<Path, Text>,
                  read: Path -> Option<string>, render: (Path, string) -> Text): Session
    decreases |idxs|
  {
    if idxs == [] then Session(cache, [])
    else
      var r := GuardedRefresh(files, idxs[0], cache, read, render);
      var rest := Browse(files, idxs[1..], r.cache, read, render);
      Session(rest.cache, ToSeq(r.read) + rest.fetched)
  }

  /**
   * Cache coherency of the guarded refresh: while the selection stays in the
   * list, no path is read twice, no cached path is read again, and no cached
   * entry ever changes.
   */
  lemma {:induction false} BrowseReadsEachPathOnce(files: seq<Entry>, idxs: seq<nat>, cache: map<Path, Text>,
                                                   read: Path -> Option<string>, render: (Path, string) -> Text)
    requires forall i :: 0 <= i < |idxs| ==> idxs[i] < |files|
    ensures var s := Browse(files, idxs, cache, read, render);
      && (forall i, j :: 0 <= i < j < |s.fetched| ==> s.fetched[i] != s.fetched[j])
      && (forall i :: 0 <= i < |s.fetched| ==> s.fetched[i] !in cache)
      && cache.Keys <= s.cache.Keys
      && (forall p :: p in cache ==> s.cache[p] == cache[p])
  {
    if idxs != [] {
      var r := GuardedRefresh(files, idxs[0], cache, read, render);
      BrowseReadsEachPathOnce(files, idxs[1..], r.cache, read, render);
      var rest := Browse(files, idxs[1..], r.cache, read, render);
      var got := ToSeq(r.read) + rest.fetched;
      forall i, j | 0 <= i < j < |got| ensures got[i] != got[j] {
        if i < |ToSeq(r.read)| {
          assert got[i] == r.read.value && got[j] == rest.fetched[j - 1];
          assert r.read.value in r.cache;
        }
      }
    }
  }

  /** The unguarded refresh reads the selected file on every call, cached or not. */
  lemma UnguardedAlwaysReads(files: seq<Entry>, idx: nat, cache: map<Path, Text>,
                             read: Path -> Option<string>, render: (Path, string) -> Text, height: nat, width: nat)
    requires idx < |files|
    ensures UnguardedRefresh(files, idx, cache, read, render, height, width).read == Some(files[idx].path)
    ensures files[idx].path in cache ==> GuardedRefresh(files, idx, cache, read, render).read == None
  {
  }
}
