/**
 * The repository's own scorer `fuzzy_matcher`: a greedy, ASCII-case-insensitive
 * subsequence matcher with an additive score.
 *
 * A candidate is walked once, left to right. While query characters remain, a
 * candidate character equal to the next query character (after ASCII
 * lower-casing) is a match and adds `10 + 5 * streak - i`, plus 15 at index 0
 * or else 10 right after one of `_ - / . \`; any other character resets the
 * streak. The query matches when it has been used up; the total is floored at 0.
 */
module FuzzyLogic {
  import opened Wrappers

  /** `char::to_ascii_lowercase`: only 'A'..'Z' change. */
  function LowerChar(ch: char): char {
    if 'A' <= ch <= 'Z' then (ch as int + 32) as char else ch
  }

  /** `str::to_ascii_lowercase`, character by character. */
  function Lower(s: string): string {
    seq(|s|, i requires 0 <= i < |s| => LowerChar(s[i]))
  }

  /** ASCII lower-casing changes only the letters 'A'..'Z', leaves none of them behind, and a second pass changes nothing. */
  lemma LowerFoldsOnlyAsciiUpper(s: string)
    ensures forall i :: 0 <= i < |s| && Lower(s)[i] != s[i] ==> 'A' <= s[i] <= 'Z'
    ensures forall i :: 0 <= i < |s| ==> !('A' <= Lower(s)[i] <= 'Z')
    ensures Lower(Lower(s)) == Lower(s)
  {
  }

  predicate IsSeparator(ch: char) {
    ch == '_' || ch == '-' || ch == '/' || ch == '.' || ch == '\\'
  }

  /** The position bonus of a match at index `i`: the start bonus and the separator bonus exclude each other. */
  function Bonus(candidate: string, i: nat): (b: int)
    requires i < |candidate|
    ensures b == 15 <==> i == 0
    ensures b == 10 <==> i > 0 && IsSeparator(candidate[i - 1])
    ensures b == 0 <==> i > 0 && !IsSeparator(candidate[i - 1])
  {
    if i == 0 then 15 else if IsSeparator(candidate[i - 1]) then 10 else 0
  }

  /** What a match at index `i` adds to the score, after `streak` consecutive matches. */
  function Gain(candidate: string, i: nat, streak: nat): int
    requires i < |candidate|
  {
    10 + 5 * streak - i + Bonus(candidate, i)
  }

  /**
   * The loop state: the running score, the current streak and the index in the
   * lower-cased query of the next character to match (`|q|` once the query
   * iterator is exhausted).
   */
  datatype Scan = Scan(score: int, streak: nat, next: nat)

  /** One iteration of the loop, on the candidate character at index `i`. */
  function Step(q: string, candidate: string, st: Scan, i: nat): Scan
    requires i < |candidate| && st.next <= |q|
  {
    if st.next < |q| then
      if q[st.next] == LowerChar(candidate[i]) then
        Scan(st.score + Gain(candidate, i, st.streak), st.streak + 1, st.next + 1)
      else
        Scan(st.score, 0, st.next)
    else
      st
  }

  /** The loop state after the first `n` candidate characters. */
  function ScanPrefix(q: string, candidate: string, n: nat): (r: Scan)
    requires n <= |candidate|
    ensures r.next <= |q| && r.next <= n
  {
    if n == 0 then Scan(0, 0, 0)
    else Step(q, candidate, ScanPrefix(q, candidate, n - 1), n - 1)
  }

  /** The result of `fuzzy_matcher(query, candidate)`. */
  function FuzzyMatch(query: string, candidate: string): (r: Option<int>)
    ensures r.Some? ==> r.value >= 0
  {
    var q := Lower(query);
    var st := ScanPrefix(q, candidate, |candidate|);
    if st.next == |q| then Some(if st.score > 0 then st.score else 0) else None
  }

  /** `fuzzy_matcher` as the source writes it: one pass with mutable score, streak and query cursor. */
  method FuzzyMatcher(query: string, candidate: string) returns (r: Option<int>)
    ensures r == FuzzyMatch(query, candidate)
  {
    var score := 0;
    var streak: nat := 0;
    var q := Lower(query);
    var current: nat := 0;
    var lowered := Lower(candidate);
    for i := 0 to |lowered|
      invariant current <= |q|
      invariant ScanPrefix(q, candidate, i) == Scan(score, streak, current)
    {
      if current < |q| {
        if q[current] == lowered[i] {
          var tempScore := 10 + streak * 5 - i;
          if i == 0 {
            tempScore := tempScore + 15;
          } else if IsSeparator(candidate[i - 1]) {
            tempScore := tempScore + 10;
          }
          score := score + tempScore;
          streak := streak + 1;
          current := current + 1;
        } else {
          streak := 0;
        }
      }
    }
    if current == |q| {
      r := Some(if score > 0 then score else 0);
    } else {
      r := None;
    }
  }

  // ---------------------------------------------------------------------------
  // Acceptance is exactly "subsequence"

  /** `idx` places every character of `q`, in order, at strictly increasing positions of `t`. */
  ghost predicate Embeds(q: string, t: string, idx: seq<nat>) {
    && |idx| == |q|
    && (forall k :: 0 <= k < |idx| ==> idx[k] < |t| && t[idx[k]] == q[k])
    && (forall j, k :: 0 <= j < k < |idx| ==> idx[j] < idx[k])
  }

  ghost predicate IsSubsequence(q: string, t: string) {
    exists idx :: Embeds(q, t, idx)
  }

  /** The candidate positions the greedy loop matches among the first `n` characters. */
  function Positions(q: string, candidate: string, n: nat): seq<nat>
    requires n <= |candidate|
  {
    if n == 0 then []
    else
      var st := ScanPrefix(q, candidate, n - 1);
      if st.next < |q| && q[st.next] == LowerChar(candidate[n - 1]) then
        Positions(q, candidate, n - 1) + [n - 1]
      else
        Positions(q, candidate, n - 1)
  }

  /** The positions `fuzzy_matcher` matches the whole query at. */
  function GreedyPositions(query: string, candidate: string): seq<nat> {
    Positions(Lower(query), candidate, |candidate|)
  }

  /** Where the search for match `k` starts: just after match `k - 1`. */
  function Start(p: seq<nat>, k: nat): nat
    requires k <= |p|
  {
    if k == 0 then 0 else p[k - 1] + 1
  }

  /** The streak in force when match `k` is made: the consecutive matches right before it. */
  function StreakBefore(p: seq<nat>, k: nat): nat
    requires k < |p|
  {
    if k == 0 then 0
    else if p[k] == p[k - 1] + 1 then StreakBefore(p, k - 1) + 1
    else 0
  }

  /** The sum of the gains of the first `m` matches at positions `p`. */
  function ScoreUpTo(candidate: string, p: seq<nat>, m: nat): int
    requires m <= |p|
    requires forall k :: 0 <= k < |p| ==> p[k] < |candidate|
  {
    if m == 0 then 0
    else ScoreUpTo(candidate, p, m - 1) + Gain(candidate, p[m - 1], StreakBefore(p, m - 1))
  }

  lemma {:induction false} StreakBeforeExtend(p: seq<nat>, x: nat, k: nat)
    requires k < |p|
    ensures StreakBefore(p + [x], k) == StreakBefore(p, k)
  {
    if k > 0 {
      StreakBeforeExtend(p, x, k - 1);
    }
  }

  lemma {:induction false} ScoreUpToExtend(candidate: string, p: seq<nat>, x: nat, m: nat)
    requires m <= |p| && x < |candidate|
    requires forall k :: 0 <= k < |p| ==> p[k] < |candidate|
    ensures forall k :: 0 <= k < |p + [x]| ==> (p + [x])[k] < |candidate|
    ensures ScoreUpTo(candidate, p + [x], m) == ScoreUpTo(candidate, p, m)
  {
    assert forall k :: 0 <= k < |p + [x]| ==> (p + [x])[k] < |candidate|;
    if m > 0 {
      ScoreUpToExtend(candidate, p, x, m - 1);
      StreakBeforeExtend(p, x, m - 1);
    }
  }

  /** Match `k` sits on an equal character, before `n`, and matches come in increasing order. */
  ghost predicate Placed(q: string, candidate: string, p: seq<nat>, n: nat)
    requires n <= |candidate|
  {
    && |p| <= |q|
    && (forall k :: 0 <= k < |p| ==> p[k] < n && LowerChar(candidate[p[k]]) == q[k])
    && (forall j, k :: 0 <= j < k < |p| ==> p[j] < p[k])
  }

  /** No character between the previous match and match `k` could have served as match `k`. */
  ghost predicate Skipped(q: string, candidate: string, p: seq<nat>, k: nat)
    requires k < |p| && k < |q|
  {
    forall j :: Start(p, k) <= j < p[k] && j < |candidate| ==> LowerChar(candidate[j]) != q[k]
  }

  /** Every match is the leftmost one available after the previous match. */
  ghost predicate Leftmost(q: string, candidate: string, p: seq<nat>)
  {
    forall k :: 0 <= k < |p| && k < |q| ==> Skipped(q, candidate, p, k)
  }

  /** After the last match, up to `n`, nothing equals the next query character. */
  ghost predicate NothingSince(q: string, candidate: string, p: seq<nat>, n: nat)
  {
    |p| < |q| ==> forall j :: Start(p, |p|) <= j < n && j < |candidate| ==> LowerChar(candidate[j]) != q[|p|]
  }

  /** After `n` characters the loop has matched `next` query characters, at increasing positions. */
  lemma {:induction false} ScanPositions(q: string, candidate: string, n: nat)
    requires n <= |candidate|
    ensures |Positions(q, candidate, n)| == ScanPrefix(q, candidate, n).next
    ensures Placed(q, candidate, Positions(q, candidate, n), n)
  {
    if n > 0 {
      ScanPositions(q, candidate, n - 1);
    }
  }

  /** The positions the loop picks are leftmost, and nothing after the last one matches yet. */
  lemma {:induction false} ScanLeftmost(q: string, candidate: string, n: nat)
    requires n <= |candidate|
    ensures Leftmost(q, candidate, Positions(q, candidate, n))
    ensures NothingSince(q, candidate, Positions(q, candidate, n), n)
  {
    if n > 0 {
      ScanLeftmost(q, candidate, n - 1);
      ScanPositions(q, candidate, n - 1);
      var p := Positions(q, candidate, n - 1);
      var st := ScanPrefix(q, candidate, n - 1);
      if st.next < |q| && q[st.next] == LowerChar(candidate[n - 1]) {
        assert Positions(q, candidate, n) == p + [n - 1];
        LeftmostExtend(q, candidate, p, n - 1);
      } else {
        assert Positions(q, candidate, n) == p;
        NothingSinceExtend(q, candidate, p, n - 1);
      }
    }
  }

  lemma NothingSinceExtend(q: string, candidate: string, p: seq<nat>, m: nat)
    requires m < |candidate| && NothingSince(q, candidate, p, m)
    requires |p| < |q| ==> q[|p|] != LowerChar(candidate[m])
    ensures NothingSince(q, candidate, p, m + 1)
  {
  }

  lemma LeftmostExtend(q: string, candidate: string, p: seq<nat>, m: nat)
    requires m < |candidate| && |p| < |q|
    requires Leftmost(q, candidate, p) && NothingSince(q, candidate, p, m)
    requires forall k :: 0 <= k < |p| ==> p[k] < m
    ensures Leftmost(q, candidate, p + [m])
    ensures NothingSince(q, candidate, p + [m], m + 1)
  {
    var p' := p + [m];
    assert Start(p', |p|) == Start(p, |p|);
    assert Start(p', |p'|) == m + 1;
    forall k | 0 <= k < |p'| && k < |q|
      ensures Skipped(q, candidate, p', k)
    {
      if k < |p| {
        assert Start(p', k) == Start(p, k) && p'[k] == p[k];
        assert Skipped(q, candidate, p, k);
      }
    }
  }

  /** The loop's score is the sum of the gains at its positions, and its streak is the run ending at `n - 1`. */
  lemma {:induction false} ScanScore(q: string, candidate: string, n: nat)
    requires n <= |candidate|
    ensures forall k :: 0 <= k < |Positions(q, candidate, n)| ==> Positions(q, candidate, n)[k] < n
    ensures ScanPrefix(q, candidate, n).score == ScoreUpTo(candidate, Positions(q, candidate, n), |Positions(q, candidate, n)|)
    ensures ScanPrefix(q, candidate, n).next < |q| ==>
      ScanPrefix(q, candidate, n).streak == RunEndingAt(Positions(q, candidate, n), n)
  {
    if n > 0 {
      ScanScore(q, candidate, n - 1);
      var p := Positions(q, candidate, n - 1);
      var st := ScanPrefix(q, candidate, n - 1);
      if st.next < |q| && q[st.next] == LowerChar(candidate[n - 1]) {
        assert Positions(q, candidate, n) == p + [n - 1];
        assert ScanPrefix(q, candidate, n) == Scan(st.score + Gain(candidate, n - 1, st.streak), st.streak + 1, st.next + 1);
        GainStep(candidate, p, n - 1, st.streak);
      } else {
        assert Positions(q, candidate, n) == p;
        assert ScanPrefix(q, candidate, n) == if st.next < |q| then Scan(st.score, 0, st.next) else st;
        assert forall k :: 0 <= k < |p| ==> p[k] < n;
      }
    }
  }

  /** The streak the loop would carry into index `n`: the run of matches ending at `n - 1`. */
  function RunEndingAt(p: seq<nat>, n: nat): nat
    requires forall k :: 0 <= k < |p| ==> p[k] < n
  {
    if |p| > 0 && p[|p| - 1] + 1 == n then StreakBefore(p, |p| - 1) + 1 else 0
  }

  /** Appending a match at `m` adds its gain, with the run ending at `m` as its streak. */
  lemma GainStep(candidate: string, p: seq<nat>, m: nat, streak: nat)
    requires m < |candidate|
    requires forall k :: 0 <= k < |p| ==> p[k] < m
    requires streak == RunEndingAt(p, m)
    ensures forall k :: 0 <= k < |p + [m]| ==> (p + [m])[k] < m + 1
    ensures ScoreUpTo(candidate, p + [m], |p| + 1) == ScoreUpTo(candidate, p, |p|) + Gain(candidate, m, streak)
    ensures RunEndingAt(p + [m], m + 1) == streak + 1
  {
    var p' := p + [m];
    assert forall k :: 0 <= k < |p'| ==> p'[k] < m + 1;
    ScoreUpToExtend(candidate, p, m, |p|);
    if |p| > 0 {
      StreakBeforeExtend(p, m, |p| - 1);
    }
    assert StreakBefore(p', |p|) == streak;
  }

  /** Once the query is used up, the rest of the candidate changes nothing. */
  lemma {:induction false} ExhaustedScanIsFrozen(q: string, candidate: string, m: nat, n: nat)
    requires m <= n <= |candidate|
    requires ScanPrefix(q, candidate, m).next == |q|
    ensures ScanPrefix(q, candidate, n) == ScanPrefix(q, candidate, m)
  {
    if n > m {
      ExhaustedScanIsFrozen(q, candidate, m, n - 1);
    }
  }

  /** Greedy stays ahead: if some embedding has placed query character `k` before `n`, so has the loop. */
  lemma {:induction false} GreedyStaysAhead(q: string, candidate: string, idx: seq<nat>, n: nat, k: nat)
    requires Embeds(q, Lower(candidate), idx)
    requires n <= |candidate| && k < |q| && idx[k] < n
    ensures ScanPrefix(q, candidate, n).next > k
  {
    var st := ScanPrefix(q, candidate, n - 1);
    if idx[k] < n - 1 {
      GreedyStaysAhead(q, candidate, idx, n - 1, k);
    } else {
      if k > 0 {
        assert idx[k - 1] < idx[k];
        GreedyStaysAhead(q, candidate, idx, n - 1, k - 1);
      }
      assert st.next >= k;
      if st.next == k {
        assert q[k] == Lower(candidate)[idx[k]] == LowerChar(candidate[n - 1]);
      }
    }
  }

  /** `fuzzy_matcher` returns `Some` exactly when the lower-cased query is a subsequence of the lower-cased candidate. */
  lemma MatchIffSubsequence(query: string, candidate: string)
    ensures FuzzyMatch(query, candidate).Some? <==> IsSubsequence(Lower(query), Lower(candidate))
  {
    var q := Lower(query);
    var n := |candidate|;
    ScanPositions(q, candidate, n);
    var p := Positions(q, candidate, n);
    if FuzzyMatch(query, candidate).Some? {
      assert Embeds(q, Lower(candidate), p);
    }
    if IsSubsequence(q, Lower(candidate)) {
      var idx :| Embeds(q, Lower(candidate), idx);
      if |q| > 0 {
        GreedyStaysAhead(q, candidate, idx, n, |q| - 1);
      }
    }
  }

  /**
   * The greedy positions of a match: increasing, each on an equal character,
   * each the leftmost one after the previous match; and the score is the floored
   * sum of the per-match gains, the streak of each being the run of matches
   * immediately before it.
   */
  lemma GreedyMatch(query: string, candidate: string)
    ensures var p := GreedyPositions(query, candidate);
      && (FuzzyMatch(query, candidate).Some? <==> |p| == |query|)
      && |p| <= |query|
      && (forall k :: 0 <= k < |p| ==> p[k] < |candidate| && LowerChar(candidate[p[k]]) == LowerChar(query[k]))
      && (forall j, k :: 0 <= j < k < |p| ==> p[j] < p[k])
      && (forall k :: 0 <= k < |p| ==> Skipped(Lower(query), candidate, p, k))
      && (FuzzyMatch(query, candidate).Some? ==>
            var raw := ScoreUpTo(candidate, p, |p|);
            FuzzyMatch(query, candidate).value == if raw > 0 then raw else 0)
  {
    ScanPositions(Lower(query), candidate, |candidate|);
    ScanLeftmost(Lower(query), candidate, |candidate|);
    ScanScore(Lower(query), candidate, |candidate|);
  }

  lemma {:induction false} EmptyQueryScan(candidate: string, n: nat)
    requires n <= |candidate|
    ensures ScanPrefix([], candidate, n) == Scan(0, 0, 0)
  {
    if n > 0 {
      EmptyQueryScan(candidate, n - 1);
    }
  }

  /** An empty query matches every candidate with score 0 and no positions. */
  lemma EmptyQueryScoresZero(candidate: string)
    ensures FuzzyMatch([], candidate) == Some(0)
    ensures GreedyPositions([], candidate) == []
  {
    EmptyQueryScan(candidate, |candidate|);
    ScanPositions([], candidate, |candidate|);
  }

  lemma SeparatorIgnoresCase(ch: char)
    ensures IsSeparator(LowerChar(ch)) == IsSeparator(ch)
  {
  }

  lemma {:induction false} ScanIgnoresCandidateCase(q: string, c: string, c': string, n: nat)
    requires Lower(c) == Lower(c') && n <= |c|
    ensures |c'| == |c|
    ensures ScanPrefix(q, c, n) == ScanPrefix(q, c', n)
  {
    assert |Lower(c)| == |c|;
    if n > 0 {
      ScanIgnoresCandidateCase(q, c, c', n - 1);
      var i := n - 1;
      assert LowerChar(c[i]) == Lower(c)[i] == Lower(c')[i] == LowerChar(c'[i]);
      if i > 0 {
        assert LowerChar(c[i - 1]) == Lower(c)[i - 1] == Lower(c')[i - 1] == LowerChar(c'[i - 1]);
        SeparatorIgnoresCase(c[i - 1]);
        SeparatorIgnoresCase(c'[i - 1]);
      }
    }
  }

  /** Changing the ASCII case of the query or the candidate does not change the result. */
  lemma CaseInsensitive(query: string, query': string, candidate: string, candidate': string)
    requires Lower(query) == Lower(query') && Lower(candidate) == Lower(candidate')
    ensures FuzzyMatch(query, candidate) == FuzzyMatch(query', candidate')
  {
    ScanIgnoresCandidateCase(Lower(query), candidate, candidate', |candidate|);
  }

  /** Scoring the lower-cased strings gives the same answer. */
  lemma MatchOfLowered(query: string, candidate: string)
    ensures FuzzyMatch(query, candidate) == FuzzyMatch(Lower(query), Lower(candidate))
  {
    assert Lower(Lower(query)) == Lower(query);
    assert Lower(Lower(candidate)) == Lower(candidate);
    CaseInsensitive(query, Lower(query), candidate, Lower(candidate));
  }

  /** A one-character query equal to the candidate's first character scores 10 + 15. */
  lemma SingleCharPrefixScores25(x: char, candidate: string)
    requires |candidate| > 0 && LowerChar(candidate[0]) == LowerChar(x)
    ensures FuzzyMatch([x], candidate) == Some(25)
  {
    var q := Lower([x]);
    assert ScanPrefix(q, candidate, 1) == Scan(25, 1, 1);
    ExhaustedScanIsFrozen(q, candidate, 1, |candidate|);
  }

  /** A match at index 0 gains strictly more than a match at any later index with the same streak. */
  lemma PrefixMatchGainsMost(candidate: string, i: nat, streak: nat)
    requires 0 < i < |candidate|
    ensures Gain(candidate, 0, streak) > Gain(candidate, i, streak)
  {
  }
}
