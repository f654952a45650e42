/**
 * The ranker `update_filtered_files`: every path that has a file name is matched
 * by its lower-cased name against the query; paths the matcher rejects are
 * dropped and the survivors are stably sorted by descending score.
 *
 * The file-name lookup, the Unicode lower-casing and nucleo's `fuzzy_indices`
 * are foreign, so they are parameters (`Env`).
 */
module Ranking {
  import opened Wrappers
  import FuzzyLogic

  type Path = string

  /** What the matcher returns for an accepted name: its score and the matched character indices. */
  datatype Match = Match(score: int, indices: seq<nat>)

  /** A result entry `(path, lower-cased name, matched indices)`. */
  datatype Entry = Entry(path: Path, name: string, indices: seq<nat>)

  /** An entry together with its score, the tuple the sort orders. */
  datatype Scored = Scored(score: int, entry: Entry)

  /**
   * The foreign collaborators of the ranker: `Path::file_name`,
   * `str::to_lowercase` and the matcher, called as `matcher(name, query)`.
   */
  datatype Env = Env(
    fileName: Path -> Option<string>,
    lowercase: string -> string,
    matcher: (string, string) -> Option<Match>)

  /** The `filter_map` closure: a scored entry for `path`, or `None` when it has no file name or does not match. */
  function ScoreFile(env: Env, query: string, path: Path): Option<Scored> {
    match env.fileName(path)
    case None => None
    case Some(n) =>
      var name := env.lowercase(n);
      match env.matcher(name, query)
      case None => None
      case Some(m) => Some(Scored(m.score, Entry(path, name, m.indices)))
  }

  /** `s` is what the closure produces for its own path: the path has a file name, `s` carries its lower-cased form and the matcher accepted it with `s`'s score and indices. */
  ghost predicate Accepted(env: Env, query: string, s: Scored) {
    && env.fileName(s.entry.path).Some?
    && s.entry.name == env.lowercase(env.fileName(s.entry.path).value)
    && env.matcher(s.entry.name, query) == Some(Match(s.score, s.entry.indices))
  }

  lemma ScoreFileAccepts(env: Env, query: string, path: Path, s: Scored)
    ensures ScoreFile(env, query, path) == Some(s) <==> s.entry.path == path && Accepted(env, query, s)
  {
  }

  /** The collected `filter_map` over `contents`, in the order of `contents`. */
  function Collect(env: Env, query: string, contents: seq<Path>): seq<Scored> {
    if contents == [] then []
    else ToSeq(ScoreFile(env, query, contents[0])) + Collect(env, query, contents[1..])
  }

  /** Insert `x` in front of the first element whose score is not higher. */
  function Insert(x: Scored, t: seq<Scored>): seq<Scored> {
    if t == [] || t[0].score <= x.score then [x] + t
    else [t[0]] + Insert(x, t[1..])
  }

  /** `sort_by(|a, b| b.0.cmp(&a.0))`: a stable sort by descending score (a stable sort has only one possible result). */
  function SortByScore(s: seq<Scored>): seq<Scored> {
    if s == [] then [] else Insert(s[0], SortByScore(s[1..]))
  }

  /** The entries without their scores, in order. */
  function Strip(s: seq<Scored>): seq<Entry> {
    seq(|s|, i requires 0 <= i < |s| => s[i].entry)
  }

  /** The sorted, still scored results. */
  function RankScored(env: Env, query: string, contents: seq<Path>): seq<Scored> {
    SortByScore(Collect(env, query, contents))
  }

  /** The value of `update_filtered_files(query, contents, matcher)`. */
  function Rank(env: Env, query: string, contents: seq<Path>): seq<Entry> {
    Strip(RankScored(env, query, contents))
  }

  // ---------------------------------------------------------------------------
  // Properties of the sort

  ghost predicate NonIncreasing(s: seq<Scored>) {
    forall i, j :: 0 <= i < j < |s| ==> s[i].score >= s[j].score
  }

  /** The elements of `s` whose score is `k`, in order. */
  function WithScore(s: seq<Scored>, k: int): seq<Scored> {
    if s == [] then []
    else (if s[0].score == k then [s[0]] else []) + WithScore(s[1..], k)
  }

  function Paths(s: seq<Scored>): seq<Path> {
    if s == [] then [] else [s[0].entry.path] + Paths(s[1..])
  }

  lemma {:induction false} InsertMultiset(x: Scored, t: seq<Scored>)
    ensures multiset(Insert(x, t)) == multiset{x} + multiset(t)
  {
    if t != [] && t[0].score > x.score {
      InsertMultiset(x, t[1..]);
      assert t == [t[0]] + t[1..];
    }
  }

  lemma {:induction false} InsertSorted(x: Scored, t: seq<Scored>)
    requires NonIncreasing(t)
    ensures NonIncreasing(Insert(x, t))
  {
    if t != [] && t[0].score > x.score {
      InsertSorted(x, t[1..]);
      InsertMultiset(x, t[1..]);
      var r := Insert(x, t[1..]);
      forall i | 0 <= i < |r| ensures t[0].score >= r[i].score {
        assert r[i] in multiset(r);
      }
    }
  }

  lemma WithScoreCons(a: Scored, u: seq<Scored>, k: int)
    ensures WithScore([a] + u, k) == (if a.score == k then [a] else []) + WithScore(u, k)
  {
    assert ([a] + u)[1..] == u;
  }

  lemma {:induction false} InsertWithScore(x: Scored, t: seq<Scored>, k: int)
    ensures WithScore(Insert(x, t), k) == (if x.score == k then [x] else []) + WithScore(t, k)
  {
    if t == [] || t[0].score <= x.score {
      WithScoreCons(x, t, k);
    } else {
      var rest := Insert(x, t[1..]);
      InsertWithScore(x, t[1..], k);
      WithScoreCons(t[0], rest, k);
      WithScoreCons(t[0], t[1..], k);
      assert t == [t[0]] + t[1..];
      if x.score == k {
        assert t[0].score != k;
      }
    }
  }

  lemma {:induction false} InsertPaths(x: Scored, t: seq<Scored>)
    ensures multiset(Paths(Insert(x, t))) == multiset{x.entry.path} + multiset(Paths(t))
  {
    if t == [] || t[0].score <= x.score {
      assert ([x] + t)[1..] == t;
    } else {
      InsertPaths(x, t[1..]);
      assert ([t[0]] + Insert(x, t[1..]))[1..] == Insert(x, t[1..]);
    }
  }

  /** The sort orders by non-increasing score. */
  lemma {:induction false} SortIsOrdered(s: seq<Scored>)
    ensures NonIncreasing(SortByScore(s))
  {
    if s != [] {
      SortIsOrdered(s[1..]);
      InsertSorted(s[0], SortByScore(s[1..]));
    }
  }

  /** The sort is a permutation. */
  lemma {:induction false} SortIsPermutation(s: seq<Scored>)
    ensures multiset(SortByScore(s)) == multiset(s)
    ensures multiset(Paths(SortByScore(s))) == multiset(Paths(s))
  {
    if s != [] {
      SortIsPermutation(s[1..]);
      InsertMultiset(s[0], SortByScore(s[1..]));
      InsertPaths(s[0], SortByScore(s[1..]));
      assert s == [s[0]] + s[1..];
    }
  }

  /** The sort is stable: the elements of each score keep their relative order. */
  lemma {:induction false} SortIsStable(s: seq<Scored>, k: int)
    ensures WithScore(SortByScore(s), k) == WithScore(s, k)
  {
    if s != [] {
      SortIsStable(s[1..], k);
      InsertWithScore(s[0], SortByScore(s[1..]), k);
    }
  }

  /** When every score is the same, the sort keeps the input order. */
  lemma {:induction false} SortOfEqualScores(s: seq<Scored>, k: int)
    requires forall i :: 0 <= i < |s| ==> s[i].score == k
    ensures SortByScore(s) == s
  {
    if s != [] {
      SortOfEqualScores(s[1..], k);
      assert s == [s[0]] + s[1..];
    }
  }

  // ---------------------------------------------------------------------------
  // Properties of the ranking

  lemma {:induction false} CollectSound(env: Env, query: string, contents: seq<Path>)
    ensures forall s :: s in Collect(env, query, contents) ==> s.entry.path in contents && Accepted(env, query, s)
  {
    if contents != [] {
      CollectSound(env, query, contents[1..]);
    }
  }

  lemma {:induction false} CollectCounts(env: Env, query: string, contents: seq<Path>, p: Path)
    ensures multiset(Paths(Collect(env, query, contents)))[p] ==
      if ScoreFile(env, query, p).Some? then multiset(contents)[p] else 0
  {
    if contents != [] {
      CollectCounts(env, query, contents[1..], p);
      assert contents == [contents[0]] + contents[1..];
      var head := ToSeq(ScoreFile(env, query, contents[0]));
      var rest := Collect(env, query, contents[1..]);
      if head != [] {
        assert (head + rest)[0] == head[0] && (head + rest)[1..] == rest;
      } else {
        assert head + rest == rest;
      }
    }
  }

  /** Every result entry comes from `contents`, has a file name, carries the lower-cased name and was accepted by the matcher with its score. */
  lemma RankIsSound(env: Env, query: string, contents: seq<Path>)
    ensures var r := Rank(env, query, contents);
      var rs := RankScored(env, query, contents);
      && |r| == |rs|
      && forall i :: 0 <= i < |r| ==>
           r[i] == rs[i].entry && r[i].path in contents && Accepted(env, query, rs[i])
  {
    var c := Collect(env, query, contents);
    CollectSound(env, query, contents);
    SortIsPermutation(c);
    var rs := SortByScore(c);
    forall i | 0 <= i < |rs| ensures rs[i] in c {
      assert rs[i] in multiset(rs);
    }
  }

  /**
   * Every path of `contents` that has a file name and matches appears in the
   * result exactly as often as in `contents`; no other path appears.
   */
  lemma RankCountsPaths(env: Env, query: string, contents: seq<Path>, p: Path)
    ensures multiset(Paths(RankScored(env, query, contents)))[p] ==
      if ScoreFile(env, query, p).Some? then multiset(contents)[p] else 0
  {
    SortIsPermutation(Collect(env, query, contents));
    CollectCounts(env, query, contents, p);
  }

  /** The results are a permutation of the matching entries, ordered by non-increasing score, and stable on ties. */
  lemma RankIsStableSort(env: Env, query: string, contents: seq<Path>)
    ensures var rs := RankScored(env, query, contents);
      var c := Collect(env, query, contents);
      && multiset(rs) == multiset(c)
      && NonIncreasing(rs)
      && forall k :: WithScore(rs, k) == WithScore(c, k)
  {
    var c := Collect(env, query, contents);
    SortIsPermutation(c);
    SortIsOrdered(c);
    forall k ensures WithScore(SortByScore(c), k) == WithScore(c, k) {
      SortIsStable(c, k);
    }
  }

  // ---------------------------------------------------------------------------
  // The ranker with the repository's own scorer as matcher

  /** `fuzzy_matcher` in the matcher's place, with its greedy positions as indices. */
  function ScorerMatcher(name: string, query: string): Option<Match> {
    match FuzzyLogic.FuzzyMatch(query, name)
    case None => None
    case Some(score) => Some(Match(score, FuzzyLogic.GreedyPositions(query, name)))
  }

  /** Every path that has a file name, as an entry with no matched indices, in the order of `contents`. */
  function NamedEntries(env: Env, contents: seq<Path>): seq<Entry> {
    if contents == [] then []
    else
      match env.fileName(contents[0])
      case None => NamedEntries(env, contents[1..])
      case Some(n) => [Entry(contents[0], env.lowercase(n), [])] + NamedEntries(env, contents[1..])
  }

  lemma {:induction false} CollectEmptyQuery(env: Env, contents: seq<Path>)
    requires forall name, query :: env.matcher(name, query) == ScorerMatcher(name, query)
    ensures forall i :: 0 <= i < |Collect(env, [], contents)| ==> Collect(env, [], contents)[i].score == 0
    ensures Strip(Collect(env, [], contents)) == NamedEntries(env, contents)
  {
    if contents != [] {
      CollectEmptyQuery(env, contents[1..]);
      match env.fileName(contents[0])
      case None =>
      case Some(n) =>
        FuzzyLogic.EmptyQueryScoresZero(env.lowercase(n));
        var rest := Collect(env, [], contents[1..]);
        assert Collect(env, [], contents) == [Scored(0, Entry(contents[0], env.lowercase(n), []))] + rest;
    }
  }

  /** With the repository's scorer, the empty query lists every named path, in the order of `contents`. */
  lemma EmptyQueryListsAllNamed(env: Env, contents: seq<Path>)
    requires forall name, query :: env.matcher(name, query) == ScorerMatcher(name, query)
    ensures Rank(env, [], contents) == NamedEntries(env, contents)
  {
    CollectEmptyQuery(env, contents);
    SortOfEqualScores(Collect(env, [], contents), 0);
  }
}
