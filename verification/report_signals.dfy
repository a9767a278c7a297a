/**
 * The signal extraction of the dashboard (app.py, lines 77-82): two
 * independent `re.search` calls with the patterns `(?i)Bias\s*:\s*(.+)` and
 * `(?i)Tone\s*:\s*(.+)`, each value being the stripped group 1 of the match or
 * the sentinel "Not Found", and the claim count `len(claims)`.
 *
 * The search is modelled as the scan Python's backtracking engine performs,
 * and proved equal to a declarative description: `IsMatch` says which
 * positions the pattern can match at all, `FoundNoLater` is the order in which
 * the engine tries them, and the search returns the first match in that order.
 */
module ReportSignals {
  import opened Options
  import opened Text

  const BiasKeyword: string := "Bias"
  const ToneKeyword: string := "Tone"
  const NotFound: string := "Not Found"

  /** One match of `(?i)<keyword>\s*:\s*(.+)`: where the keyword starts, where
      the colon is, and the span [capStart, capEnd) of group 1. */
  datatype Match = Match(start: nat, colon: nat, capStart: nat, capEnd: nat)

  /** `m` is a way for the pattern to match `s`: the keyword in any ASCII case,
      whitespace (line feeds included), a colon, whitespace again, then one or
      more characters other than a line feed. There is no word boundary. */
  predicate IsMatch(s: string, kw: string, m: Match)
  {
    && m.start + |kw| <= m.colon < m.capStart < m.capEnd <= |s|
    && EqualIgnoreCase(s[m.start..m.start + |kw|], kw)
    && (forall k :: m.start + |kw| <= k < m.colon ==> IsSpace(s[k]))
    && s[m.colon] == ':'
    && (forall k :: m.colon < k < m.capStart ==> IsSpace(s[k]))
    && (forall k :: m.capStart <= k < m.capEnd ==> s[k] != '\n')
  }

  /** The order in which the engine meets matches: start positions from the
      left; at one start, the longest `\s*` after the colon first; then the
      longest `.+`. (The `\s*` before the colon has one choice only.) */
  predicate FoundNoLater(m: Match, n: Match)
  {
    || m.start < n.start
    || (m.start == n.start && m.capStart > n.capStart)
    || (m.start == n.start && m.capStart == n.capStart && m.capEnd >= n.capEnd)
  }

  /** The match `re.search` returns: a match found no later than any other. */
  ghost predicate IsFirstMatch(s: string, kw: string, m: Match)
  {
    IsMatch(s, kw, m) && forall n :: IsMatch(s, kw, n) ==> FoundNoLater(m, n)
  }

  /** The colon of a match is where the whitespace after the keyword ends. */
  lemma ColonForced(s: string, kw: string, n: Match)
    requires IsMatch(s, kw, n)
    ensures n.colon == SpaceEnd(s, n.start + |kw|)
  {
    assert !IsSpace(s[n.colon]);
  }

  /** Group 1 starts on a character other than a line feed, and no later than
      the end of the whitespace that follows the colon. */
  lemma CaptureStartBound(s: string, kw: string, n: Match)
    requires IsMatch(s, kw, n)
    ensures n.capStart <= SpaceEnd(s, n.colon + 1)
    ensures n.capStart < |s| && s[n.capStart] != '\n'
  {
  }

  /** Two first matches are the same match. */
  lemma FirstMatchUnique(s: string, kw: string, m: Match, n: Match)
    requires IsFirstMatch(s, kw, m) && IsFirstMatch(s, kw, n)
    ensures m == n
  {
    ColonForced(s, kw, m);
    ColonForced(s, kw, n);
    assert FoundNoLater(m, n) && FoundNoLater(n, m);
  }

  /** The end of the line that starts at `i`: what a greedy `.+` consumes. */
  function LineEnd(s: string, i: nat): (j: nat)
    requires i <= |s|
    ensures i <= j <= |s|
    ensures forall k :: i <= k < j ==> s[k] != '\n'
    ensures j < |s| ==> s[j] == '\n'
    decreases |s| - i
  {
    if i < |s| && s[i] != '\n' then LineEnd(s, i + 1) else i
  }

  /** The line of `s` that starts at `i` ends at `j` when `j` is the first line
      feed (or the end) from `i` on. */
  lemma LineEndIs(s: string, i: nat, j: nat)
    requires i <= j <= |s|
    requires '\n' !in s[i..j]
    requires j < |s| ==> s[j] == '\n'
    ensures LineEnd(s, i) == j
  {
  }

  /** The backtracking of `\s*(.+)` after the colon: `\s*` has taken the
      whitespace up to `k` and gives it back one character at a time, down to
      `lo`, until `.+` stands on a character that is not a line feed. */
  function GiveBack(s: string, lo: nat, k: nat): (r: Option<nat>)
    requires lo <= k <= |s|
    ensures r.Some? ==> lo <= r.value <= k && r.value < |s| && s[r.value] != '\n'
    ensures r.Some? ==> forall j :: r.value < j <= k && j < |s| ==> s[j] == '\n'
    ensures r.None? ==> forall j :: lo <= j <= k && j < |s| ==> s[j] == '\n'
    decreases k
  {
    if k < |s| && s[k] != '\n' then Some(k)
    else if k == lo then None
    else GiveBack(s, lo, k - 1)
  }

  /** One attempt of the engine at start position `p`. */
  function MatchAt(s: string, kw: string, p: nat): (r: Option<Match>)
    requires p <= |s|
    ensures r.Some? ==> r.value.start == p && IsMatch(s, kw, r.value)
    ensures r.Some? ==> forall n :: IsMatch(s, kw, n) && n.start == p ==> FoundNoLater(r.value, n)
    ensures r.None? ==> forall n :: IsMatch(s, kw, n) ==> n.start != p
  {
    if p + |kw| > |s| || !EqualIgnoreCase(s[p..p + |kw|], kw) then None
    else
      var c := SpaceEnd(s, p + |kw|);
      if c == |s| || s[c] != ':' then
        NoColon(s, kw, p);
        None
      else
        var w := SpaceEnd(s, c + 1);
        match GiveBack(s, c + 1, w)
        case None =>
          NoCapture(s, kw, p);
          None
        case Some(k) =>
          var m := Match(p, c, k, LineEnd(s, k));
          FirstAt(s, kw, m);
          Some(m)
  }

  lemma NoColon(s: string, kw: string, p: nat)
    requires p + |kw| <= |s|
    requires var c := SpaceEnd(s, p + |kw|); c == |s| || s[c] != ':'
    ensures forall n :: IsMatch(s, kw, n) ==> n.start != p
  {
    forall n | IsMatch(s, kw, n) && n.start == p ensures false {
      ColonForced(s, kw, n);
    }
  }

  lemma NoCapture(s: string, kw: string, p: nat)
    requires p + |kw| <= |s|
    requires var c := SpaceEnd(s, p + |kw|);
      c < |s| && GiveBack(s, c + 1, SpaceEnd(s, c + 1)).None?
    ensures forall n :: IsMatch(s, kw, n) ==> n.start != p
  {
    forall n | IsMatch(s, kw, n) && n.start == p ensures false {
      ColonForced(s, kw, n);
      CaptureStartBound(s, kw, n);
    }
  }

  lemma FirstAt(s: string, kw: string, m: Match)
    requires m.start + |kw| <= |s| && EqualIgnoreCase(s[m.start..m.start + |kw|], kw)
    requires m.colon == SpaceEnd(s, m.start + |kw|) && m.colon < |s| && s[m.colon] == ':'
    requires GiveBack(s, m.colon + 1, SpaceEnd(s, m.colon + 1)) == Some(m.capStart)
    requires m.capEnd == LineEnd(s, m.capStart)
    ensures IsMatch(s, kw, m)
    ensures forall n :: IsMatch(s, kw, n) && n.start == m.start ==> FoundNoLater(m, n)
  {
    forall n | IsMatch(s, kw, n) && n.start == m.start ensures FoundNoLater(m, n) {
      ColonForced(s, kw, n);
      CaptureStartBound(s, kw, n);
      assert s[n.capStart] != '\n';
      assert n.capStart <= m.capStart;
    }
  }

  /** `re.search` from position `p` on: the engine tries `p`, `p + 1`, ...,
      up to and including the end of the string. */
  function SearchFrom(s: string, kw: string, p: nat): (r: Option<Match>)
    requires p <= |s|
    ensures r.Some? ==> IsMatch(s, kw, r.value) && p <= r.value.start
    ensures r.Some? ==> forall n :: IsMatch(s, kw, n) && p <= n.start ==> FoundNoLater(r.value, n)
    ensures r.None? ==> forall n :: IsMatch(s, kw, n) ==> n.start < p
    decreases |s| - p
  {
    match MatchAt(s, kw, p)
    case Some(m) => Some(m)
    case None => if p == |s| then None else SearchFrom(s, kw, p + 1)
  }

  /** `re.search(r"(?i)<kw>\s*:\s*(.+)", s)`: no match exactly when the pattern
      matches nowhere, otherwise the first match. */
  function Search(s: string, kw: string): (r: Option<Match>)
    ensures r.None? <==> forall n :: !IsMatch(s, kw, n)
    ensures r.Some? ==> IsFirstMatch(s, kw, r.value)
  {
    SearchFrom(s, kw, 0)
  }

  /** Some character of the keyword, at offset `j` or later, differs in every
      case from the text at position `q`. */
  predicate DiffersFrom(s: string, kw: string, q: nat, j: nat)
    requires q + |kw| <= |s|
    decreases |kw| - j
  {
    j < |kw| && (Lower(s[q + j]) != Lower(kw[j]) || DiffersFrom(s, kw, q, j + 1))
  }

  lemma {:induction false} DiffersMeansUnequal(s: string, kw: string, q: nat, j: nat)
    requires q + |kw| <= |s|
    requires DiffersFrom(s, kw, q, j)
    ensures !EqualIgnoreCase(s[q..q + |kw|], kw)
    decreases |kw| - j
  {
    EqualIgnoreCasePointwise(s[q..q + |kw|], kw);
    if Lower(s[q + j]) != Lower(kw[j]) {
      assert s[q..q + |kw|][j] == s[q + j];
    } else {
      DiffersMeansUnequal(s, kw, q, j + 1);
    }
  }

  /** The engine passes over a position where the keyword does not start. */
  lemma SkipPosition(s: string, kw: string, q: nat)
    requires q < |s|
    requires q + |kw| > |s| || DiffersFrom(s, kw, q, 0)
    ensures SearchFrom(s, kw, q) == SearchFrom(s, kw, q + 1)
  {
    if q + |kw| <= |s| {
      DiffersMeansUnequal(s, kw, q, 0);
    }
  }

  /** The engine passes over every position whose character is not, in any
      case, the first letter of the keyword. */
  lemma {:induction false} SkipRun(s: string, kw: string, p: nat, q: nat)
    requires p <= q <= |s| && |kw| > 0
    requires forall k :: p <= k < q ==> Lower(s[k]) != Lower(kw[0])
    ensures SearchFrom(s, kw, p) == SearchFrom(s, kw, q)
    decreases q - p
  {
    if p < q {
      if p + |kw| <= |s| {
        EqualIgnoreCasePointwise(s[p..p + |kw|], kw);
        assert s[p..p + |kw|][0] == s[p];
      }
      assert SearchFrom(s, kw, p) == SearchFrom(s, kw, p + 1);
      SkipRun(s, kw, p + 1, q);
    }
  }

  /** No match starts where the keyword no longer fits. */
  lemma {:induction false} NoRoomLeft(s: string, kw: string, q: nat)
    requires q <= |s| < q + |kw|
    ensures SearchFrom(s, kw, q) == None
    decreases |s| - q
  {
    if q < |s| {
      NoRoomLeft(s, kw, q + 1);
    }
  }

  lemma SameKeywordMatch(s: string, kw1: string, kw2: string, n: Match)
    requires EqualIgnoreCase(kw1, kw2)
    ensures IsMatch(s, kw1, n) <==> IsMatch(s, kw2, n)
  {
    EqualIgnoreCasePointwise(kw1, kw2);
    if n.start + |kw1| <= |s| {
      var t := s[n.start..n.start + |kw1|];
      EqualIgnoreCasePointwise(t, kw1);
      EqualIgnoreCasePointwise(t, kw2);
    }
  }

  /** Keywords equal up to ASCII case match the same places; with `(?i)` the
      case in which the pattern spells the keyword is irrelevant. */
  lemma KeywordCaseIrrelevant(s: string, kw1: string, kw2: string)
    requires EqualIgnoreCase(kw1, kw2)
    ensures Search(s, kw1) == Search(s, kw2)
    ensures SignalValue(s, kw1) == SignalValue(s, kw2)
  {
    forall n ensures IsMatch(s, kw1, n) <==> IsMatch(s, kw2, n) {
      SameKeywordMatch(s, kw1, kw2, n);
    }
    var r1, r2 := Search(s, kw1), Search(s, kw2);
    if r1.Some? && r2.Some? {
      assert IsFirstMatch(s, kw2, r1.value);
      FirstMatchUnique(s, kw2, r1.value, r2.value);
    }
  }

  /** `m.group(1).strip() if m else "Not Found"`. */
  function SignalValue(report: string, kw: string): (v: string)
    ensures (forall n :: !IsMatch(report, kw, n)) ==> v == NotFound
    ensures forall m :: IsFirstMatch(report, kw, m) ==> v == Strip(report[m.capStart..m.capEnd])
  {
    match Search(report, kw)
    case None => NotFound
    case Some(m) =>
      FirstCapture(report, kw, m);
      Strip(report[m.capStart..m.capEnd])
  }

  /** The first match is the only one. */
  lemma FirstCapture(s: string, kw: string, m: Match)
    requires IsFirstMatch(s, kw, m)
    ensures forall n :: IsFirstMatch(s, kw, n) ==> n == m
  {
    forall n | IsFirstMatch(s, kw, n) ensures n == m {
      FirstMatchUnique(s, kw, m, n);
    }
  }

  /** A value is a single line with no whitespace at either end. */
  lemma ValueIsClean(report: string, kw: string)
    ensures '\n' !in SignalValue(report, kw)
    ensures var v := SignalValue(report, kw); v != [] ==> !IsSpace(v[0]) && !IsSpace(v[|v| - 1])
  {
    var r := Search(report, kw);
    if r.Some? {
      CaptureSingleLine(report, kw, r.value);
    }
  }

  /** Group 1 lies within one line. */
  lemma CaptureSingleLine(s: string, kw: string, m: Match)
    requires IsMatch(s, kw, m)
    ensures '\n' !in s[m.capStart..m.capEnd]
  {
    var g := s[m.capStart..m.capEnd];
    assert forall k :: 0 <= k < |g| ==> g[k] == s[m.capStart + k];
  }

  /** What the dashboard shows: bias label, tone label, claim count. */
  datatype Signals = Signals(bias: string, tone: string, claimsCount: nat)

  /** The block of app.py, lines 77-82. Bias and tone are one function of the
      report with the keyword swapped; neither depends on the claims. The count
      is `len(claims)`, a number of characters. */
  function ExtractSignals(report: string, claims: string): (r: Signals)
    ensures (forall n :: !IsMatch(report, BiasKeyword, n)) ==> r.bias == NotFound
    ensures forall m :: IsFirstMatch(report, BiasKeyword, m) ==> r.bias == Strip(report[m.capStart..m.capEnd])
    ensures (forall n :: !IsMatch(report, ToneKeyword, n)) ==> r.tone == NotFound
    ensures forall m :: IsFirstMatch(report, ToneKeyword, m) ==> r.tone == Strip(report[m.capStart..m.capEnd])
    ensures r.claimsCount == |claims|
  {
    Signals(SignalValue(report, BiasKeyword), SignalValue(report, ToneKeyword), |claims|)
  }

  /** Bias and tone are read from the report alone, each by the same search
      with its own keyword. */
  lemma SignalsFromReportOnly(report: string, claims1: string, claims2: string)
    ensures ExtractSignals(report, claims1).bias == ExtractSignals(report, claims2).bias == SignalValue(report, BiasKeyword)
    ensures ExtractSignals(report, claims1).tone == ExtractSignals(report, claims2).tone == SignalValue(report, ToneKeyword)
  {
  }
}
