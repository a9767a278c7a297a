/**
 * Worked reports for the signal extraction of app.py, lines 77-82:
 * case-insensitivity, whitespace on both sides of the colon, the leftmost
 * match winning, the missing word boundary, line feeds after the colon, and
 * the sentinel's ambiguity.
 *
 * Each proof walks the engine: the positions where the keyword cannot start
 * are passed over (`SkipRun`, `SkipPosition`), the attempt that decides is
 * computed step by step (the `...Attempt` lemmas), its capture is stripped
 * (the `...Capture` lemmas), and `ValueIs` puts the three together. The report
 * is a parameter fixed by the precondition, so that each step is evaluated on
 * demand.
 */
module SignalExamples {
  import opened Options
  import opened Text
  import opened ReportSignals

  /** When no attempt before `p` succeeds and the attempt at `p` does, the
      value is the stripped capture of that attempt. */
  lemma ValueIs(s: string, kw: string, p: nat, m: Match, v: string)
    requires p <= |s|
    requires SearchFrom(s, kw, 0) == SearchFrom(s, kw, p)
    requires MatchAt(s, kw, p) == Some(m)
    requires Strip(s[m.capStart..m.capEnd]) == v
    ensures SignalValue(s, kw) == v
  {
  }

  // ---------------------------------------------------------------------
  // One line, keyword at the start

  lemma PlainLineAttempt(s: string)
    requires s == "Bias: Hi"
    ensures MatchAt(s, BiasKeyword, 0) == Some(Match(0, 4, 6, 8))
    ensures Strip(s[6..8]) == "Hi"
  {
    EqualIgnoreCasePointwise(s[0..4], BiasKeyword);
    assert SpaceEnd(s, 4) == 4 && SpaceEnd(s, 5) == 6;
    assert GiveBack(s, 5, 6) == Some(6) && LineEnd(s, 6) == 8;
    assert s[6..8] == "Hi";
    StripTrimmed(s[6..8]);
  }

  /** The plain case: the value is the rest of the line after `Bias: `. */
  lemma PlainLine(s: string)
    requires s == "Bias: Hi"
    ensures SignalValue(s, BiasKeyword) == "Hi"
  {
    PlainLineAttempt(s);
    ValueIs(s, BiasKeyword, 0, Match(0, 4, 6, 8), "Hi");
  }

  lemma CaseAndSpacingAttempt(s: string)
    requires s == "bIAS :\tlow "
    ensures MatchAt(s, BiasKeyword, 0) == Some(Match(0, 5, 7, 11))
  {
    EqualIgnoreCasePointwise(s[0..4], BiasKeyword);
    assert SpaceEnd(s, 4) == 5 && SpaceEnd(s, 6) == 7;
    assert GiveBack(s, 6, 7) == Some(7);
    LineEndIs(s, 7, 11);
  }

  lemma CaseAndSpacingCapture(s: string)
    requires s == "bIAS :\tlow "
    ensures Strip(s[7..11]) == "low"
  {
    var g := s[7..11];
    assert g == "low ";
    assert SpaceEnd(g, 0) == 0 && SpaceStart(g, 0, 4) == 3;
    assert g[0..3] == "low";
  }

  /** Any ASCII case of the keyword, whitespace before the colon, a tab after
      it, and a trailing blank that `strip()` removes. */
  lemma CaseAndSpacing(s: string)
    requires s == "bIAS :\tlow "
    ensures SignalValue(s, BiasKeyword) == "low"
  {
    CaseAndSpacingAttempt(s);
    CaseAndSpacingCapture(s);
    ValueIs(s, BiasKeyword, 0, Match(0, 5, 7, 11), "low");
  }

  lemma ValueOnNextLineAttempt(s: string)
    requires s == "Bias:\n Hi"
    ensures MatchAt(s, BiasKeyword, 0) == Some(Match(0, 4, 7, 9))
    ensures Strip(s[7..9]) == "Hi"
  {
    EqualIgnoreCasePointwise(s[0..4], BiasKeyword);
    assert SpaceEnd(s, 6) == 7;
    assert SpaceEnd(s, 4) == 4 && SpaceEnd(s, 5) == 7;
    assert GiveBack(s, 5, 7) == Some(7) && LineEnd(s, 7) == 9;
    assert s[7..9] == "Hi";
    StripTrimmed(s[7..9]);
  }

  /** `\s*` after the colon crosses a line feed: the value is taken from the
      next line. */
  lemma ValueOnNextLine(s: string)
    requires s == "Bias:\n Hi"
    ensures SignalValue(s, BiasKeyword) == "Hi"
  {
    ValueOnNextLineAttempt(s);
    ValueIs(s, BiasKeyword, 0, Match(0, 4, 7, 9), "Hi");
  }

  lemma OnlyBlanksAttempt(s: string)
    requires s == "Bias:  "
    ensures MatchAt(s, BiasKeyword, 0) == Some(Match(0, 4, 6, 7))
    ensures Strip(s[6..7]) == ""
  {
    EqualIgnoreCasePointwise(s[0..4], BiasKeyword);
    assert SpaceEnd(s, 4) == 4 && SpaceEnd(s, 5) == 7;
    assert GiveBack(s, 5, 7) == Some(6) && LineEnd(s, 6) == 7;
    assert AllSpace(s[6..7]);
  }

  /** Only blanks after the colon: `\s*` gives the last blank back to `.+`,
      and the stripped value is empty rather than the sentinel. */
  lemma OnlyBlanksAfterColon(s: string)
    requires s == "Bias:  "
    ensures IsMatch(s, BiasKeyword, Match(0, 4, 6, 7))
    ensures SignalValue(s, BiasKeyword) == ""
  {
    OnlyBlanksAttempt(s);
    ValueIs(s, BiasKeyword, 0, Match(0, 4, 6, 7), "");
  }

  lemma OnlyLineFeedAttempt(s: string)
    requires s == "Bias:\n"
    ensures MatchAt(s, BiasKeyword, 0) == None
  {
    EqualIgnoreCasePointwise(s[0..4], BiasKeyword);
    assert SpaceEnd(s, 4) == 4 && SpaceEnd(s, 5) == 6;
    assert GiveBack(s, 5, 6) == None;
  }

  /** Only a line feed after the colon: `.+` finds nothing to stand on, so
      there is no match at all. */
  lemma OnlyLineFeedAfterColon(s: string)
    requires s == "Bias:\n"
    ensures forall n :: !IsMatch(s, BiasKeyword, n)
    ensures SignalValue(s, BiasKeyword) == NotFound
  {
    var kw := BiasKeyword;
    OnlyLineFeedAttempt(s);
    assert SearchFrom(s, kw, 0) == SearchFrom(s, kw, 1);
    SkipRun(s, kw, 1, 3);
    NoRoomLeft(s, kw, 3);
  }

  // ---------------------------------------------------------------------
  // The keyword further in

  lemma NoWordBoundaryAttempt(s: string)
    requires s == "Unbias: x"
    ensures MatchAt(s, BiasKeyword, 2) == Some(Match(2, 6, 8, 9))
    ensures Strip(s[8..9]) == "x"
  {
    EqualIgnoreCasePointwise(s[2..6], BiasKeyword);
    assert SpaceEnd(s, 6) == 6 && SpaceEnd(s, 7) == 8;
    assert GiveBack(s, 7, 8) == Some(8) && LineEnd(s, 8) == 9;
    assert s[8..9] == "x";
    StripTrimmed(s[8..9]);
  }

  /** The pattern has no word boundary: "Unbias" carries the keyword. */
  lemma NoWordBoundary(s: string)
    requires s == "Unbias: x"
    ensures SignalValue(s, BiasKeyword) == "x"
  {
    SkipRun(s, BiasKeyword, 0, 2);
    NoWordBoundaryAttempt(s);
    ValueIs(s, BiasKeyword, 2, Match(2, 6, 8, 9), "x");
  }

  lemma TwoLinesBiasAttempt(s: string)
    requires s == "Tone: a\nBias: b"
    ensures MatchAt(s, BiasKeyword, 8) == Some(Match(8, 12, 14, 15))
    ensures Strip(s[14..15]) == "b"
  {
    EqualIgnoreCasePointwise(s[8..12], BiasKeyword);
    assert SpaceEnd(s, 12) == 12 && SpaceEnd(s, 13) == 14;
    assert GiveBack(s, 13, 14) == Some(14) && LineEnd(s, 14) == 15;
    assert s[14..15] == "b";
    StripTrimmed(s[14..15]);
  }

  lemma TwoLinesToneAttempt(s: string)
    requires s == "Tone: a\nBias: b"
    ensures MatchAt(s, ToneKeyword, 0) == Some(Match(0, 4, 6, 7))
    ensures Strip(s[6..7]) == "a"
  {
    EqualIgnoreCasePointwise(s[0..4], ToneKeyword);
    assert SpaceEnd(s, 4) == 4 && SpaceEnd(s, 5) == 6;
    assert GiveBack(s, 5, 6) == Some(6) && LineEnd(s, 6) == 7;
    assert s[6..7] == "a";
    StripTrimmed(s[6..7]);
  }

  /** A report with both signals, one per line, tone first: each search finds
      its own line. */
  lemma TwoLines(s: string)
    requires s == "Tone: a\nBias: b"
    ensures SignalValue(s, BiasKeyword) == "b"
    ensures SignalValue(s, ToneKeyword) == "a"
  {
    SkipRun(s, BiasKeyword, 0, 8);
    TwoLinesBiasAttempt(s);
    ValueIs(s, BiasKeyword, 8, Match(8, 12, 14, 15), "b");
    TwoLinesToneAttempt(s);
    ValueIs(s, ToneKeyword, 0, Match(0, 4, 6, 7), "a");
  }

  lemma HeadingSkip(s: string)
    requires s == "Bias\nBias: b"
    ensures SearchFrom(s, BiasKeyword, 0) == SearchFrom(s, BiasKeyword, 5)
  {
    EqualIgnoreCasePointwise(s[0..4], BiasKeyword);
    assert SpaceEnd(s, 4) == 5;
    assert MatchAt(s, BiasKeyword, 0) == None;
    assert SearchFrom(s, BiasKeyword, 0) == SearchFrom(s, BiasKeyword, 1);
    SkipRun(s, BiasKeyword, 1, 5);
  }

  lemma HeadingAttempt(s: string)
    requires s == "Bias\nBias: b"
    ensures MatchAt(s, BiasKeyword, 5) == Some(Match(5, 9, 11, 12))
    ensures Strip(s[11..12]) == "b"
  {
    EqualIgnoreCasePointwise(s[5..9], BiasKeyword);
    assert SpaceEnd(s, 9) == 9 && SpaceEnd(s, 10) == 11;
    assert GiveBack(s, 10, 11) == Some(11) && LineEnd(s, 11) == 12;
    assert s[11..12] == "b";
    StripTrimmed(s[11..12]);
  }

  /** A heading that names the keyword without a colon is passed over; the
      labelled line below it supplies the value. */
  lemma HeadingSkipped(s: string)
    requires s == "Bias\nBias: b"
    ensures SignalValue(s, BiasKeyword) == "b"
  {
    var kw := BiasKeyword;
    HeadingSkip(s);
    HeadingAttempt(s);
    ValueIs(s, kw, 5, Match(5, 9, 11, 12), "b");
  }

  // ---------------------------------------------------------------------
  // The sentinel

  /** A report with neither keyword gets the sentinel for both signals. */
  lemma NeitherKeyword(s: string)
    requires s == "Neutral."
    ensures SignalValue(s, BiasKeyword) == NotFound
    ensures SignalValue(s, ToneKeyword) == NotFound
  {
    SkipRun(s, BiasKeyword, 0, 5);
    NoRoomLeft(s, BiasKeyword, 5);
    var kw := ToneKeyword;
    SkipRun(s, kw, 0, 3);
    SkipPosition(s, kw, 3);
    SkipRun(s, kw, 4, 5);
    NoRoomLeft(s, kw, 5);
  }

  lemma SentinelAttempt(s: string)
    requires s == "Bias: Not Found"
    ensures MatchAt(s, BiasKeyword, 0) == Some(Match(0, 4, 6, 15))
    ensures Strip(s[6..15]) == NotFound
  {
    EqualIgnoreCasePointwise(s[0..4], BiasKeyword);
    assert SpaceEnd(s, 4) == 4 && SpaceEnd(s, 5) == 6;
    assert GiveBack(s, 5, 6) == Some(6);
    assert s[6..15] == NotFound;
    LineEndIs(s, 6, 15);
    StripTrimmed(s[6..15]);
  }

  /** The sentinel is also a possible value: this report matches, yet its
      bias reads exactly as if it did not. */
  lemma SentinelIsAmbiguous(s: string)
    requires s == "Bias: Not Found"
    ensures exists n :: IsMatch(s, BiasKeyword, n)
    ensures SignalValue(s, BiasKeyword) == NotFound
  {
    SentinelAttempt(s);
    ValueIs(s, BiasKeyword, 0, Match(0, 4, 6, 15), NotFound);
  }

  // ---------------------------------------------------------------------
  // The report in the format the analysis prompt asks for

  lemma BulletedBiasAttempt(s: string)
    requires s == "- Bias: " + "Left leaning" + "\n- Tone: " + "Sarcastic"
    ensures MatchAt(s, BiasKeyword, 2) == Some(Match(2, 6, 8, 20))
    ensures Strip(s[8..20]) == "Left leaning"
  {
    EqualIgnoreCasePointwise(s[2..6], BiasKeyword);
    assert SpaceEnd(s, 6) == 6 && SpaceEnd(s, 7) == 8;
    assert GiveBack(s, 7, 8) == Some(8);
    assert s[8..20] == "Left leaning";
    LineEndIs(s, 8, 20);
    StripTrimmed(s[8..20]);
  }

  lemma BulletedToneAttempt(s: string)
    requires s == "- Bias: " + "Left leaning" + "\n- Tone: " + "Sarcastic"
    ensures MatchAt(s, ToneKeyword, 23) == Some(Match(23, 27, 29, 38))
    ensures Strip(s[29..38]) == "Sarcastic"
  {
    EqualIgnoreCasePointwise(s[23..27], ToneKeyword);
    assert SpaceEnd(s, 27) == 27 && SpaceEnd(s, 28) == 29;
    assert GiveBack(s, 28, 29) == Some(29);
    assert s[29..38] == "Sarcastic";
    LineEndIs(s, 29, 38);
    StripTrimmed(s[29..38]);
  }

  lemma BulletedBias(s: string)
    requires s == "- Bias: " + "Left leaning" + "\n- Tone: " + "Sarcastic"
    ensures SignalValue(s, BiasKeyword) == "Left leaning"
  {
    SkipRun(s, BiasKeyword, 0, 2);
    BulletedBiasAttempt(s);
    ValueIs(s, BiasKeyword, 2, Match(2, 6, 8, 20), "Left leaning");
  }

  /** The `t` of "Left" is the one place before the tone label where the
      tone keyword could start. */
  lemma BulletedToneSkips(s: string)
    requires s == "- Bias: " + "Left leaning" + "\n- Tone: " + "Sarcastic"
    ensures SearchFrom(s, ToneKeyword, 0) == SearchFrom(s, ToneKeyword, 12)
  {
    SkipRun(s, ToneKeyword, 0, 11);
    SkipPosition(s, ToneKeyword, 11);
  }

  lemma BulletedToneSkipsLater(s: string)
    requires s == "- Bias: " + "Left leaning" + "\n- Tone: " + "Sarcastic"
    ensures SearchFrom(s, ToneKeyword, 12) == SearchFrom(s, ToneKeyword, 23)
  {
    SkipRun(s, ToneKeyword, 12, 23);
  }

  lemma BulletedTone(s: string)
    requires s == "- Bias: " + "Left leaning" + "\n- Tone: " + "Sarcastic"
    ensures SignalValue(s, ToneKeyword) == "Sarcastic"
  {
    var kw := ToneKeyword;
    BulletedToneSkips(s);
    BulletedToneSkipsLater(s);
    BulletedToneAttempt(s);
    ValueIs(s, kw, 23, Match(23, 27, 29, 38), "Sarcastic");
  }

  /** A report with bulleted labels: each signal is the rest of its own
      line, the bias label coming first. */
  lemma BulletedReport(s: string)
    requires s == "- Bias: Left leaning\n- Tone: Sarcastic"
    ensures SignalValue(s, BiasKeyword) == "Left leaning"
    ensures SignalValue(s, ToneKeyword) == "Sarcastic"
  {
    var t := "- Bias: " + "Left leaning" + "\n- Tone: " + "Sarcastic";
    assert s == t;
    BulletedBias(t);
    BulletedTone(t);
  }
}
