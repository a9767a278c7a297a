# Skeptical News Analyzer: a verified model of the analysis core

The Skeptical News Analyzer fetches a news article and sends two prompts to a
language-model service. The first extracts the article's claims. The second
asks for a skeptical analysis of those claims. The dashboard then shows a bias
label, a tone label and a claim count read from the report. This project
models the deterministic logic around that I/O:

- `ReportSignals` (report_signals.dfy) models the dashboard's signal
  extraction (app.py, lines 77-82).
  - The searches `(?i)Bias\s*:\s*(.+)` and `(?i)Tone\s*:\s*(.+)` are modelled
    as the scan that Python's backtracking engine performs.
  - That scan is proved equal to a declarative description: the set of
    matches, the engine's preference order, and the first match in that
    order.
  - It also models the stripped value or the sentinel "Not Found", and the
    claim count `len(claims)`.
- `SignalExamples` (signal_examples.dfy) works the signal extraction through
  concrete reports.
- `ClaimCount` (claim_count.dfy) covers the claim count. It proves that the
  count as written counts characters. It also defines the count the
  "Claims Found" card evidently means, and proves it correct for numbered
  lists (see Findings).
- `Prompts` (prompts.dfy) models the two prompt templates of `extract_claims`
  and `skeptical_analysis`. Each has a parser as its inverse.
- `CrossReference` (cross_reference.dfy) models the Google News search link
  of `cross_reference_search`, with a parser as its inverse.
- `ArticleFetch` (article_fetch.dfy) models the pure tail of
  `fetch_article_text`: the title, the body joined from paragraphs, and the
  failure result.
- `Analyzer` (analyzer.py's `analyze_with_groq`, in analyzer.dfy) models the
  two-pass wrapper and its two fallback messages. The completion service is a
  function parameter.
- `Text` (text.dfy) holds the Python string operations these need:
  `str.isspace`, `strip`, `join`, `split`, `replace`, the `(?i)` comparison,
  and prefix/suffix removal. `Options` (options.dfy) holds the option type.

Three behaviours of the code may not be what its authors meant. The model
follows the code in each:

- The value need not sit on the keyword's line. The `\s*` after the colon in
  `(?i)Bias\s*:\s*(.+)` (app.py:77) also matches line feeds, so the value can
  come from the next line (`SignalExamples.ValueOnNextLine`).
- "Not Found" (app.py:81-82) is also an ordinary value. The report
  `Bias: Not Found` matches and yields the same text as a report with no
  match (`SignalExamples.SentinelIsAmbiguous`). So only one direction holds:
  no match gives "Not Found" (`ReportSignals.SignalValue`).
- The card labelled "Claims Found" (app.py:97) shows `len(claims)` (app.py:79).
  That is the number of characters of a text that the prompt asks to be "a
  numbered list" (analyzer.py:58), not the number of claims. This is the
  finding below.

Two further quirks of the code are followed, not corrected:
- A match whose remainder is only blanks captures one blank. That strips
  to "" (`SignalExamples.OnlyBlanksAfterColon`).
- A bare line feed after the colon does not match at all
  (`SignalExamples.OnlyLineFeedAfterColon`).

## Model

| member | source | states |
|---|---|---|
| Text.Strip | app.py:81-82 | the stripped text is empty exactly when the input is all whitespace; otherwise it neither starts nor ends with whitespace, and it is a contiguous piece of the input with only whitespace on each side |
| Text.StripIdempotent | app.py:81-82 | stripping a stripped value changes nothing |
| Text.JoinSplit | analyzer.py:26 | splitting a text at a separator and joining the pieces with it gives the text back |
| Text.Join | analyzer.py:26 | joining one or more pieces that do not contain the separator, then splitting, gives the pieces back |
| Text.ReplaceChar | analyzer.py:88 | replacing one character keeps the length, and changes exactly the positions that held that character |
| Text.DropPrefixOf | analyzer.py:56-62 | removing a prefix from a text that starts with it leaves the rest |
| Text.DropSuffixOf | analyzer.py:56-62 | removing a suffix from a text that ends with it leaves the rest |
| ReportSignals.ColonForced | app.py:77-78 | in any match, the colon sits where the whitespace after the keyword ends, so the `\s*` before the colon has a single choice |
| ReportSignals.FirstMatchUnique | app.py:77-78 | at most one match is found no later than every other match |
| ReportSignals.LineEnd | app.py:77-78 | the greedy `.+` runs to the first line feed or the end of the report |
| ReportSignals.GiveBack | app.py:77-78 | the backtracking of `\s*(.+)`: the capture starts at the last position before the whitespace's end that is not a line feed; if there is none, the attempt fails |
| ReportSignals.MatchAt | app.py:77-78 | an attempt at one position returns a match starting there that the engine prefers to every other match there; it returns nothing only when no match starts there |
| ReportSignals.SearchFrom | app.py:77-78 | a scan from a position returns the first match starting at or after it, or nothing when every match starts before it |
| ReportSignals.Search | app.py:77-78 | `re.search` returns nothing exactly when the pattern matches nowhere; otherwise it returns the first match in the engine's order |
| ReportSignals.SkipRun | app.py:77-78 | the scan passes over every position that does not hold the keyword's first letter in either case |
| ReportSignals.NoRoomLeft | app.py:77-78 | no match starts where the keyword no longer fits |
| ReportSignals.KeywordCaseIrrelevant | app.py:77-78 | keywords equal up to ASCII case give the same match and the same value |
| ReportSignals.SignalValue | app.py:77-82 | the value is "Not Found" when nothing matches; otherwise it is the stripped group 1 of the first match |
| ReportSignals.ValueIsClean | app.py:77-82 | a value holds no line feed and has no whitespace at either end |
| ReportSignals.CaptureSingleLine | app.py:77-78 | group 1 of any match lies within one line |
| ReportSignals.ExtractSignals | app.py:77-82 | bias and tone are "Not Found" without a match, and otherwise the stripped capture of the first match of their own keyword; the count is the length of the claims text |
| ReportSignals.SignalsFromReportOnly | app.py:77-82 | bias and tone do not depend on the claims, and they are the same search with the keyword swapped |
| SignalExamples.PlainLine | app.py:77-82 | "Bias: Hi" gives the bias "Hi" |
| SignalExamples.CaseAndSpacing | app.py:77-82 | the keyword matches in any case, with whitespace before and after the colon: "bIAS :\tlow " gives "low" |
| SignalExamples.ValueOnNextLine | app.py:77-82 | the `\s*` after the colon crosses a line feed: "Bias:\n Hi" gives "Hi" |
| SignalExamples.OnlyBlanksAfterColon | app.py:77-82 | "Bias:  " matches, capturing the last blank, and gives "" rather than "Not Found" |
| SignalExamples.OnlyLineFeedAfterColon | app.py:77-82 | "Bias:\n" does not match, because `.+` cannot start on a line feed, and gives "Not Found" |
| SignalExamples.NoWordBoundary | app.py:77-82 | the keyword needs no word boundary: "Unbias: x" gives "x" |
| SignalExamples.TwoLines | app.py:77-82 | in "Tone: a\nBias: b" each keyword finds its own line: bias "b", tone "a" |
| SignalExamples.HeadingSkipped | app.py:77-82 | a heading "Bias" without a colon is passed over, and the later "Bias: b" line is the value |
| SignalExamples.NeitherKeyword | app.py:77-82 | a report with neither keyword gives "Not Found" for both |
| SignalExamples.SentinelIsAmbiguous | app.py:77-82 | "Bias: Not Found" matches, yet its value is the sentinel |
| SignalExamples.BulletedReport | app.py:77-82 | "- Bias: Left leaning\n- Tone: Sarcastic" gives bias "Left leaning" and tone "Sarcastic" |
| ClaimCount.DecimalRoundTrip | analyzer.py:58 | reading the decimal numeral of a list number back gives the number |
| ClaimCount.CountItems | app.py:79 | the count of list items is at most the number of lines, and equals it exactly when every line is an item |
| ClaimCount.NumberedCount | app.py:79 | on a numbered list of single-line claims, the corrected count is the number of claims |
| ClaimCount.PreambleNotCounted | app.py:79 | a first line that is not a list item is not counted |
| ClaimCount.CountedSignals | app.py:77-82 | the corrected dashboard figures: bias and tone as before, and the count equals the number of items of any numbered list the claims text is |
| ClaimCount.CharacterCountDiffers | app.py:79 | for the two claims "A" and "B", the count as written is 9, while the corrected count is 2 |
| Prompts.Parse | analyzer.py:56-62 | whatever the parser reads from a prompt fills the template back into that prompt, with a single-line first value |
| Prompts.ParseFill | analyzer.py:56-62 | parsing a filled template gives back both values when the first is a single line |
| Prompts.FillInjective | analyzer.py:56-62 | with single-line first values, two fillings are equal exactly when both values are equal |
| Prompts.ClaimsPrompt | analyzer.py:56-62 | the parser reads title and content back out of the claims prompt when the title is a single line |
| Prompts.ClaimsPromptLayout | analyzer.py:56-62 | for any title and content, the claims prompt holds the title after "Title: " and the content after "Content: " on the next line, both verbatim |
| Prompts.AnalysisPrompt | analyzer.py:67-83 | the parser reads title and claims back out of the analysis prompt when the title is a single line |
| Prompts.AnalysisPromptLayout | analyzer.py:67-83 | for any title and claims, the analysis prompt holds the claims verbatim after a "Claims:" line, followed by the request for the sections |
| Prompts.BulletsAround | analyzer.py:76-82 | in a bullet list, each item's bullet comes after those of the items before it and before those after it |
| Prompts.AnalysisPromptListsSections | analyzer.py:76-82 | after the claims, the analysis prompt asks for each of the six sections as a bullet, in order, from Core Claims Analysis to Source Suggestions |
| Prompts.TitleCanHideContent | analyzer.py:56-62 | a title that spans lines can give two different articles the same claims prompt |
| CrossReference.Query | analyzer.py:88 | the query has the title's length and no spaces; every space became `+` and every other character stays in place |
| CrossReference.LinkQuery | analyzer.py:88-89 | a query read from a link is what the link wraps |
| CrossReference.SearchLink | analyzer.py:86-89 | the link of any title carries that title's query, and reading it back gives that query |
| CrossReference.SameLinkIff | analyzer.py:88-89 | two titles give the same link exactly when they have the same length and differ only by spaces against `+` signs |
| CrossReference.SpacesRestored | analyzer.py:88 | for a title without `+`, turning `+` back into spaces recovers the title |
| CrossReference.PlusLooksLikeSpace | analyzer.py:88-89 | "C++ news" and "C   news" share a link |
| CrossReference.TwoWordTitle | analyzer.py:88-89 | "Stocks rise" gives the query "Stocks+rise" inside the fixed link |
| ArticleFetch.NonEmpty | analyzer.py:25 | the kept paragraphs are non-empty paragraphs of the page, at most as many, and every non-empty paragraph is kept |
| ArticleFetch.NonEmptyAppend | analyzer.py:25 | filtering keeps document order: the kept paragraphs of two parts are those of the first, then those of the second |
| ArticleFetch.AssembleArticle | analyzer.py:18-29 | the result fails exactly when the fetch failed or the title element has no string; the title is "Untitled Article" without a title element, and otherwise the stripped title string |
| ArticleFetch.EmptyBodyIff | analyzer.py:24-26 | the body is empty exactly when no paragraph holds text, and that is still a successful fetch |
| ArticleFetch.BodyLines | analyzer.py:25-26 | splitting the body at line breaks gives the non-empty paragraphs in order, when none spans lines and some holds text |
| ArticleFetch.TitledPage | analyzer.py:24-26 | the title "  News  " and the paragraphs "One", "", "Two" give title "News" and body "One\nTwo" |
| Analyzer.AnalyzeWithGroq | analyzer.py:94-103 | the claims prompt is always sent first. A falsy claims reply (None or "") sends nothing more and gives "No claims could be extracted.". Otherwise the analysis prompt for those claims follows, and its reply is returned unchanged if truthy, else "Analysis could not be completed.". The result is never empty |
| Analyzer.OnlySentPromptsMatter | analyzer.py:94-103 | two services that reply alike to the prompts a run sent give the same run |
| Analyzer.ResultIsReplyOrMessage | analyzer.py:99-103 | the result is one of the two fixed messages or the unchanged reply to the last prompt sent |
| Analyzer.ServiceDown | analyzer.py:99-101 | a service that never replies gives "No claims could be extracted." after a single request |
| Analyzer.AnalysisDown | analyzer.py:99-103 | claims followed by a failed analysis give "Analysis could not be completed." after both prompts are sent |

## Left out

- The Streamlit page, its CSS, sidebar, cards and expanders (app.py:1-56, 84-114) are presentation only.
- The saved-URL list in the session state (app.py:47-48, 67-68) is UI bookkeeping.
- The HTTP GET and its headers and timeout (analyzer.py:21-22) are not modelled. A fetch is given by its outcome, `ArticleFetch.Fetch`.
- BeautifulSoup's parsing (analyzer.py:23-25) is not modelled. A page is given as its title element and each paragraph's stripped text. This includes `get_text(strip=True)` itself.
- `call_groq_api` (analyzer.py:31-49) is not modelled: the HTTP POST, its JSON payload, the model name, the temperature, the token limit and the decoding of the reply. The service is the parameter `complete` of `Analyzer.AnalyzeWithGroq`, and a failed request is `None`.
- Loading the API key from the environment (analyzer.py:7, 12-13) is configuration.
- The `st.error` messages (analyzer.py:28, 48) are side effects on the page. They do not change the results, which the model keeps.
- app.py, lines 61-75, the caller of the signal block, is not modelled:
  - It calls the second pass without the guard of `analyze_with_groq`.
  - With a `None` claims reply, `len(claims)` raises there.
  - With a `None` analysis, `re.search` raises.
  - The model takes the report and the claims as strings.
- The completion service's actual replies are external and not deterministic.
- ReportSignals.SignalValue: `\s` and the case folding of `(?i)` are modelled on ASCII only. Python also folds non-ASCII letters and treats Unicode separators as whitespace.
- ReportSignals.IsMatch: the same ASCII restriction applies.
- Text.Strip: `str.strip()` also removes Unicode whitespace, and the model removes ASCII whitespace only. The same holds for the title in `ArticleFetch.AssembleArticle`.
- ArticleFetch.AssembleArticle: only the exceptions the model can name end in `(None, None)`. These are a failed fetch and a title element without a single string. Other parser errors are part of the failed fetch.

## Findings

| source | as written | input that shows it | evidently intended | confidence | as-written member | corrected member |
|---|---|---|---|---|---|---|
| app.py:79 | the "Claims Found" card shows `len(claims)`, the number of characters of the claims text | the claims text "1. A\n2. B", a numbered list of two claims, gives 9 | the number of claims in the numbered list the first prompt asks for, here 2 | high; not executed | ClaimCount.CharacterCountDiffers | ClaimCount.CountedSignals |
