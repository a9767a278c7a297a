/**
 * The claim count shown on the dashboard (app.py, line 79) and the count it
 * evidently means.
 *
 * The claims text is what the first completion returns for a prompt asking
 * for "a numbered list". `len(claims)` counts its characters; the card is
 * labelled "Claims Found". `CountClaims` counts numbered lines instead: the
 * count is the number of claims whenever the text is a numbered list, which
 * `NumberedCount` proves and `CharacterCountDiffers` shows the written count
 * fails to do.
 */
module ClaimCount {
  import opened Text
  import opened ReportSignals

  /** The decimal digit for 0 <= d < 10. */
  function DigitChar(d: nat): (c: char)
    requires d < 10
    ensures IsDigit(c)
    ensures DigitValue(c) == d
  {
    ['0', '1', '2', '3', '4', '5', '6', '7', '8', '9'][d]
  }

  function DigitValue(c: char): nat
    requires IsDigit(c)
  {
    (c as int) - ('0' as int)
  }

  /** `str(n)` for a natural number: its decimal digits without leading zeros. */
  function Decimal(n: nat): (r: string)
    ensures |r| >= 1
    ensures forall k :: 0 <= k < |r| ==> IsDigit(r[k])
    ensures |r| > 1 ==> r[0] != '0'
  {
    if n < 10 then [DigitChar(n)] else Decimal(n / 10) + [DigitChar(n % 10)]
  }

  /** `int(s)` for a string of decimal digits. */
  function DecimalValue(s: string): nat
    requires forall k :: 0 <= k < |s| ==> IsDigit(s[k])
  {
    if s == [] then 0 else DecimalValue(s[..|s| - 1]) * 10 + DigitValue(s[|s| - 1])
  }

  /** Reading back the decimal rendering gives the number. */
  lemma {:induction false} DecimalRoundTrip(n: nat)
    ensures DecimalValue(Decimal(n)) == n
  {
    if n >= 10 {
      DecimalRoundTrip(n / 10);
      var r := Decimal(n);
      assert r[..|r| - 1] == Decimal(n / 10);
    }
  }

  /** The end of the run of digits that starts at `i`. */
  function DigitEnd(t: string, i: nat): (j: nat)
    requires i <= |t|
    ensures i <= j <= |t|
    ensures forall k :: i <= k < j ==> IsDigit(t[k])
    ensures j < |t| ==> !IsDigit(t[j])
    decreases |t| - i
  {
    if i < |t| && IsDigit(t[i]) then DigitEnd(t, i + 1) else i
  }

  /** A line is a list item when, after optional leading whitespace, it holds
      one or more digits followed by a full stop. */
  predicate IsNumberedItem(line: string)
  {
    var i := SpaceEnd(line, 0);
    var j := DigitEnd(line, i);
    i < j < |line| && line[j] == '.'
  }

  /** How many of `lines` are list items. */
  function CountItems(lines: seq<string>): (n: nat)
    ensures n <= |lines|
    ensures n == |lines| <==> forall k :: 0 <= k < |lines| ==> IsNumberedItem(lines[k])
  {
    if lines == [] then 0
    else
      var rest := CountItems(lines[1..]);
      assert forall k :: 1 <= k < |lines| ==> lines[k] == lines[1..][k - 1];
      (if IsNumberedItem(lines[0]) then 1 else 0) + rest
  }

  /** The number of claims in the claims text: its numbered lines. */
  function CountClaims(claims: string): (n: nat)
    ensures n <= |Split(claims, '\n')|
  {
    CountItems(Split(claims, '\n'))
  }

  /** Line `k` of a numbered list: `k. item`. */
  function NumberedLine(k: nat, item: string): string
  {
    Decimal(k) + ". " + item
  }

  /** The lines of a numbered list of `items`, numbered from `first`. */
  function NumberedLines(items: seq<string>, first: nat): (lines: seq<string>)
    ensures |lines| == |items|
    ensures forall k :: 0 <= k < |items| ==> lines[k] == NumberedLine(first + k, items[k])
  {
    if items == [] then []
    else [NumberedLine(first, items[0])] + NumberedLines(items[1..], first + 1)
  }

  /** The text of a numbered list of `items`, one per line, from 1. */
  function NumberedList(items: seq<string>): string
  {
    Join(NumberedLines(items, 1), '\n')
  }

  /** Every line of a numbered list is a list item. */
  lemma NumberedLineIsItem(k: nat, item: string)
    ensures IsNumberedItem(NumberedLine(k, item))
  {
    var line := NumberedLine(k, item);
    var d := Decimal(k);
    assert line[0] == d[0];
    SpaceEndIs(line, 0, 0);
    assert forall i :: 0 <= i < |d| ==> line[i] == d[i];
    assert line[|d|] == '.';
    assert DigitEnd(line, 0) == |d| by {
      DigitEndIs(line, 0, |d|);
    }
  }

  lemma {:induction false} DigitEndIs(t: string, i: nat, j: nat)
    requires i <= j <= |t|
    requires forall k :: i <= k < j ==> IsDigit(t[k])
    requires j < |t| ==> !IsDigit(t[j])
    ensures DigitEnd(t, i) == j
    decreases j - i
  {
    if i < j {
      DigitEndIs(t, i + 1, j);
    }
  }

  /** The lines of a numbered list are single lines and list items. */
  lemma NumberedLinesAreItems(items: seq<string>)
    requires forall k :: 0 <= k < |items| ==> '\n' !in items[k]
    ensures forall k :: 0 <= k < |items| ==>
      '\n' !in NumberedLines(items, 1)[k] && IsNumberedItem(NumberedLines(items, 1)[k])
  {
    var lines := NumberedLines(items, 1);
    forall k | 0 <= k < |lines| ensures '\n' !in lines[k] && IsNumberedItem(lines[k]) {
      NumberedLineIsItem(1 + k, items[k]);
      var d := Decimal(1 + k);
      assert lines[k] == d + ". " + items[k];
      assert '\n' !in d by {
        assert forall i :: 0 <= i < |d| ==> IsDigit(d[i]);
      }
    }
  }

  /** On a numbered list of claims, each on its own line, the count is the
      number of claims. */
  lemma NumberedCount(items: seq<string>)
    requires forall k :: 0 <= k < |items| ==> '\n' !in items[k]
    ensures CountClaims(NumberedList(items)) == |items|
  {
    if items == [] {
      NothingCounted();
    } else {
      NumberedLinesAreItems(items);
    }
  }

  /** The empty text is one empty line, which is not a list item. */
  lemma NothingCounted()
    ensures CountClaims("") == 0
  {
    SplitWhole("", '\n');
    assert !IsNumberedItem("");
  }

  /** Lines that are not list items (a preamble, a blank line) are not
      counted. */
  lemma PreambleNotCounted(preamble: string, items: seq<string>)
    requires '\n' !in preamble && !IsNumberedItem(preamble)
    requires forall k :: 0 <= k < |items| ==> '\n' !in items[k]
    ensures CountClaims(preamble + "\n" + NumberedList(items)) == |items|
  {
    if items == [] {
      SplitAfter(preamble, "", '\n');
      NothingCounted();
      assert Split(preamble + "\n" + NumberedList(items), '\n') == [preamble] + Split("", '\n');
      return;
    }
    var lines := NumberedLines(items, 1);
    NumberedLinesAreItems(items);
    var all := [preamble] + lines;
    assert all[1..] == lines;
    JoinCons(preamble, lines, '\n');
    forall k | 0 <= k < |all| ensures '\n' !in all[k] {
      if k > 0 { assert all[k] == lines[k - 1]; }
    }
    assert CountItems(all) == CountItems(lines);
  }

  /** The dashboard figures with the claim count corrected: bias and tone as
      before, the count being the number of numbered claims. */
  function CountedSignals(report: string, claims: string): (r: Signals)
    ensures r.bias == ExtractSignals(report, claims).bias
    ensures r.tone == ExtractSignals(report, claims).tone
    ensures forall items: seq<string> ::
      (forall k :: 0 <= k < |items| ==> '\n' !in items[k]) && claims == NumberedList(items)
      ==> r.claimsCount == |items|
  {
    forall items: seq<string> |
      (forall k :: 0 <= k < |items| ==> '\n' !in items[k]) && claims == NumberedList(items)
      ensures CountClaims(claims) == |items|
    {
      NumberedCount(items);
    }
    Signals(SignalValue(report, BiasKeyword), SignalValue(report, ToneKeyword), CountClaims(claims))
  }

  lemma TwoClaimLines(items: seq<string>)
    requires items == ["A", "B"]
    ensures NumberedLines(items, 1) == ["1. A", "2. B"]
  {
    assert Decimal(1) == "1" && Decimal(2) == "2";
    var lines := NumberedLines(items, 1);
    assert lines[0] == "1. A" && lines[1] == "2. B";
  }

  lemma TwoClaimText(items: seq<string>)
    requires items == ["A", "B"]
    ensures NumberedList(items) == "1. A\n2. B"
  {
    TwoClaimLines(items);
    var lines := NumberedLines(items, 1);
    assert lines[1..] == ["2. B"];
    assert Join(lines, '\n') == "1. A" + "\n" + "2. B";
  }

  /** As written, the count of a two-claim list is its nine characters. */
  lemma CharacterCountDiffers(items: seq<string>)
    requires items == ["A", "B"]
    ensures NumberedList(items) == "1. A\n2. B"
    ensures ExtractSignals("", NumberedList(items)).claimsCount == 9
    ensures CountedSignals("", NumberedList(items)).claimsCount == 2
  {
    TwoClaimText(items);
    NumberedCount(items);
  }
}
