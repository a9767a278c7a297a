/**
 * The Python string operations the analyzer relies on, restricted to ASCII:
 * `str.isspace`, the `(?i)` comparison of `re`, `str.strip`, `str.join`,
 * `str.split` on one separator character and `str.replace` of one character.
 */
module Text {
  import opened Options

  /** Python's `str.isspace` on ASCII characters: tab, line feed, vertical tab,
      form feed, carriage return, the separators 0x1C-0x1F and space. The same
      set is what `\s` matches in a `str` pattern. */
  predicate IsSpace(c: char) {
    c == ' ' || ('\t' <= c <= '\r') || ('\U{1C}' <= c <= '\U{1F}')
  }

  predicate IsDigit(c: char) {
    '0' <= c <= '9'
  }

  predicate AllSpace(t: string) {
    forall k :: 0 <= k < |t| ==> IsSpace(t[k])
  }

  /** The code point of `c` lower-cased, the folding `(?i)` applies to ASCII
      letters: two characters match ignoring case when their folds are equal. */
  function Lower(c: char): int
  {
    if 'A' <= c <= 'Z' then c as int + 32 else c as int
  }

  /** Two strings that `(?i)` treats as equal: same length, equal after
      lower-casing position by position. */
  predicate EqualIgnoreCase(a: string, b: string)
  {
    |a| == |b| && (|a| == 0 || (Lower(a[0]) == Lower(b[0]) && EqualIgnoreCase(a[1..], b[1..])))
  }

  lemma {:induction false} EqualIgnoreCasePointwise(a: string, b: string)
    ensures EqualIgnoreCase(a, b) <==> |a| == |b| && forall k :: 0 <= k < |a| ==> Lower(a[k]) == Lower(b[k])
    decreases |a|
  {
    if |a| == |b| && |a| > 0 {
      EqualIgnoreCasePointwise(a[1..], b[1..]);
      if forall k :: 0 <= k < |a| ==> Lower(a[k]) == Lower(b[k]) {
        forall k | 0 <= k < |a| - 1
          ensures Lower(a[1..][k]) == Lower(b[1..][k])
        {
          assert a[1..][k] == a[k + 1] && b[1..][k] == b[k + 1];
        }
      }
      if EqualIgnoreCase(a, b) {
        forall k | 0 <= k < |a|
          ensures Lower(a[k]) == Lower(b[k])
        {
          if k > 0 {
            assert a[1..][k - 1] == a[k] && b[1..][k - 1] == b[k];
          }
        }
      }
    }
  }

  /** The end of the run of whitespace that starts at `i`: what a greedy `\s*`
      consumes from there. */
  function SpaceEnd(t: string, i: nat): (j: nat)
    requires i <= |t|
    ensures i <= j <= |t|
    ensures forall k :: i <= k < j ==> IsSpace(t[k])
    ensures j < |t| ==> !IsSpace(t[j])
    decreases |t| - i
  {
    if i < |t| && IsSpace(t[i]) then SpaceEnd(t, i + 1) else i
  }

  /** The run of whitespace from `i` ends at `j` when everything in between
      is whitespace and `j` is not. */
  lemma SpaceEndIs(t: string, i: nat, j: nat)
    requires i <= j <= |t|
    requires forall c :: c in t[i..j] ==> IsSpace(c)
    requires j < |t| ==> !IsSpace(t[j])
    ensures SpaceEnd(t, i) == j
  {
  }

  /** The start of the run of whitespace that ends at `j`, looking no further
      back than `lo`. */
  function SpaceStart(t: string, lo: nat, j: nat): (i: nat)
    requires lo <= j <= |t|
    ensures lo <= i <= j
    ensures forall k :: i <= k < j ==> IsSpace(t[k])
    ensures i > lo ==> !IsSpace(t[i - 1])
    decreases j
  {
    if j > lo && IsSpace(t[j - 1]) then SpaceStart(t, lo, j - 1) else j
  }

  /** Python's `str.strip()`: the text left between the leading and the
      trailing whitespace. */
  function Strip(t: string): (r: string)
    ensures r == [] <==> AllSpace(t)
    ensures r != [] ==> !IsSpace(r[0]) && !IsSpace(r[|r| - 1])
    ensures exists i :: 0 <= i <= |t| - |r| && r == t[i..i + |r|] && AllSpace(t[..i]) && AllSpace(t[i + |r|..])
    ensures forall c :: c in r ==> c in t
  {
    var i := SpaceEnd(t, 0);
    var j := SpaceStart(t, i, |t|);
    assert AllSpace(t[..i]);
    assert AllSpace(t[j..]);
    assert i < j ==> !AllSpace(t) by {
      if i < j { assert !IsSpace(t[i]); }
    }
    t[i..j]
  }

  /** Stripping text that has no surrounding whitespace leaves it as it is. */
  lemma StripTrimmed(r: string)
    requires r != [] ==> !IsSpace(r[0]) && !IsSpace(r[|r| - 1])
    ensures Strip(r) == r
  {
    if r != [] {
      assert SpaceEnd(r, 0) == 0;
      assert SpaceStart(r, 0, |r|) == |r|;
    }
  }

  lemma StripIdempotent(t: string)
    ensures Strip(Strip(t)) == Strip(t)
  {
    StripTrimmed(Strip(t));
  }

  /** The position of the first `c` in `s`, or `|s|` when there is none. */
  function IndexOf(s: string, c: char): (i: nat)
    ensures i <= |s|
    ensures forall k :: 0 <= k < i ==> s[k] != c
    ensures i < |s| ==> s[i] == c
  {
    if s == [] then 0
    else if s[0] == c then 0
    else 1 + IndexOf(s[1..], c)
  }

  /** Python's `sep.join(parts)` for a one-character separator. Splitting
      the result at the separator gives the parts back when none of them
      contains it. */
  function Join(parts: seq<string>, sep: char): (r: string)
    ensures |parts| >= 1 && (forall k :: 0 <= k < |parts| ==> sep !in parts[k]) ==> Split(r, sep) == parts
  {
    if |parts| == 0 then ""
    else if |parts| == 1 then
      SplitWhole(parts[0], sep);
      parts[0]
    else
      var rest := Join(parts[1..], sep);
      SplitAfter(parts[0], rest, sep);
      assert parts == [parts[0]] + parts[1..];
      parts[0] + [sep] + rest
  }

  /** A text without the separator splits into itself. */
  lemma SplitWhole(p: string, sep: char)
    ensures sep !in p ==> Split(p, sep) == [p]
  {
    if sep !in p {
      assert IndexOf(p, sep) == |p| by {
        assert forall k :: 0 <= k < |p| ==> p[k] in p;
      }
    }
  }

  /** The first piece of `p + [sep] + rest` is `p` when `p` has no separator. */
  lemma SplitAfter(p: string, rest: string, sep: char)
    ensures sep !in p ==> Split(p + [sep] + rest, sep) == [p] + Split(rest, sep)
  {
    if sep !in p {
      var s := p + [sep] + rest;
      assert IndexOf(s, sep) == |p| by {
        assert forall k :: 0 <= k < |p| ==> s[k] == p[k] && p[k] in p;
        assert s[|p|] == sep;
      }
      assert s[..|p|] == p;
      assert s[|p| + 1..] == rest;
    }
  }

  /** Python's `s.split(sep)` for a one-character separator: the pieces
      between separators, always at least one. */
  function Split(s: string, sep: char): (r: seq<string>)
    ensures |r| >= 1
    ensures forall k :: 0 <= k < |r| ==> sep !in r[k]
    decreases |s|
  {
    var i := IndexOf(s, sep);
    if i == |s| then
      assert s[..i] == s;
      [s]
    else [s[..i]] + Split(s[i + 1..], sep)
  }

  /** Joining the pieces of a split gives back the string. */
  lemma {:induction false} JoinSplit(s: string, sep: char)
    ensures Join(Split(s, sep), sep) == s
    decreases |s|
  {
    var i := IndexOf(s, sep);
    if i == |s| {
      assert s[..i] == s;
    } else {
      var rest := Split(s[i + 1..], sep);
      assert Split(s, sep) == [s[..i]] + rest;
      JoinSplit(s[i + 1..], sep);
      JoinCons(s[..i], rest, sep);
      Around(s, i);
    }
  }

  lemma JoinCons(p: string, rest: seq<string>, sep: char)
    requires |rest| >= 1
    ensures Join([p] + rest, sep) == p + [sep] + Join(rest, sep)
  {
    assert ([p] + rest)[1..] == rest;
  }

  lemma Around(s: string, i: nat)
    requires i < |s|
    ensures s == s[..i] + [s[i]] + s[i + 1..]
  {
  }

  /** The first occurrence of `c` in `t + rest` is where `rest` begins, when
      `t` has none and `rest` begins with one. */
  lemma IndexOfAfter(t: string, rest: string, c: char)
    requires c !in t && |rest| > 0 && rest[0] == c
    ensures IndexOf(t + rest, c) == |t|
  {
    var s := t + rest;
    assert forall k :: 0 <= k < |t| ==> s[k] == t[k];
    assert s[|t|] == c;
  }

  /** What follows `pre` in `p`, when `p` starts with `pre`. */
  function DropPrefix(p: string, pre: string): (r: Option<string>)
    ensures r.Some? <==> |pre| <= |p| && p[..|pre|] == pre
    ensures r.Some? ==> p == pre + r.value
  {
    if |pre| <= |p| && p[..|pre|] == pre then Some(p[|pre|..]) else None
  }

  lemma DropPrefixOf(pre: string, x: string)
    ensures DropPrefix(pre + x, pre) == Some(x)
  {
    assert (pre + x)[..|pre|] == pre;
    assert (pre + x)[|pre|..] == x;
  }

  /** What precedes `suf` in `p`, when `p` ends with `suf`. */
  function DropSuffix(p: string, suf: string): (r: Option<string>)
    ensures r.Some? <==> |suf| <= |p| && p[|p| - |suf|..] == suf
    ensures r.Some? ==> p == r.value + suf
  {
    if |suf| <= |p| && p[|p| - |suf|..] == suf then Some(p[..|p| - |suf|]) else None
  }

  lemma DropSuffixOf(x: string, suf: string)
    ensures DropSuffix(x + suf, suf) == Some(x)
  {
    assert (x + suf)[|x|..] == suf;
    assert (x + suf)[..|x|] == x;
  }

  /** Python's `t.replace(from, to)` for single characters. */
  function ReplaceChar(t: string, from: char, to: char): (r: string)
    ensures |r| == |t|
    ensures forall k :: 0 <= k < |t| ==> r[k] == (if t[k] == from then to else t[k])
  {
    if t == [] then []
    else [if t[0] == from then to else t[0]] + ReplaceChar(t[1..], from, to)
  }
}
