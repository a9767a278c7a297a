/**
 * The two prompts the analyzer sends to the completion service
 * (analyzer.py, lines 54-84). Each is a fixed template with two values
 * interpolated verbatim: the article title and then the article content, or
 * the title and then the extracted claims.
 *
 * A template is modelled once, as `Template`, together with its parser; the
 * parser is the partner that shows the filled prompt loses nothing: it
 * recovers both values whenever the title is a single line. When the title
 * spans lines the prompt is ambiguous (`TitleCanHideContent`).
 */
module Prompts {
  import opened Options
  import opened Text

  /** A prompt template: `head`, the first value, `mid`, the second value,
      `tail`. The first value ends at the first line break after `head`,
      which `mid` must start with. */
  datatype Template = Template(head: string, mid: string, tail: string)
  {
    predicate Valid()
    {
      |mid| > 0 && mid[0] == '\n'
    }
  }

  /** The f-string: the template with `first` and `second` interpolated. */
  function Fill(t: Template, first: string, second: string): string
  {
    t.head + first + t.mid + second + t.tail
  }

  /** Reads the two values back out of a prompt: the first runs from the end
      of the head to the next line break. */
  function Parse(t: Template, p: string): (r: Option<(string, string)>)
    ensures r.Some? ==> '\n' !in r.value.0 && Fill(t, r.value.0, r.value.1) == p
  {
    match DropPrefix(p, t.head)
    case None => None
    case Some(rest) =>
      var i := IndexOf(rest, '\n');
      match DropPrefix(rest[i..], t.mid)
      case None => None
      case Some(after) =>
        match DropSuffix(after, t.tail)
        case None => None
        case Some(second) =>
          FillOfParts(t, p, rest, i, after, second);
          Some((rest[..i], second))
  }

  /** A prompt cut into head, first value, `mid`, second value and tail is
      the filled template. */
  lemma FillOfParts(t: Template, p: string, rest: string, i: nat, after: string, second: string)
    requires i <= |rest|
    requires p == t.head + rest && rest[i..] == t.mid + after && after == second + t.tail
    ensures p == Fill(t, rest[..i], second)
  {
    var first := rest[..i];
    assert rest == first + rest[i..];
    assert rest == first + (t.mid + (second + t.tail));
    assert Fill(t, first, second) == t.head + (first + (t.mid + (second + t.tail)));
  }

  /** Parsing a filled prompt gives back the values, when the first is a
      single line. */
  lemma ParseFill(t: Template, first: string, second: string)
    requires t.Valid() && '\n' !in first
    ensures Parse(t, Fill(t, first, second)) == Some((first, second))
  {
    var after := second + t.tail;
    var later := t.mid + after;
    var rest := first + later;
    FillNested(t, first, second);
    DropPrefixOf(t.head, rest);
    IndexOfAfter(first, later, '\n');
    CutAt(first, later);
    DropPrefixOf(t.mid, after);
    DropSuffixOf(second, t.tail);
  }

  lemma FillNested(t: Template, first: string, second: string)
    ensures Fill(t, first, second) == t.head + (first + (t.mid + (second + t.tail)))
  {
  }

  lemma CutAt(a: string, b: string)
    ensures (a + b)[..|a|] == a && (a + b)[|a|..] == b
  {
  }

  /** Different single-line first values, or different second values, give
      different prompts. */
  lemma FillInjective(t: Template, a1: string, b1: string, a2: string, b2: string)
    requires t.Valid() && '\n' !in a1 && '\n' !in a2
    ensures Fill(t, a1, b1) == Fill(t, a2, b2) <==> a1 == a2 && b1 == b2
  {
    if Fill(t, a1, b1) == Fill(t, a2, b2) {
      ParseFill(t, a1, b1);
      ParseFill(t, a2, b2);
    }
  }

  /** The claim-extraction prompt of `extract_claims`, up to the title. */
  const ClaimsHead: string :=
    "\nExtract all factual claims from the following news article.\n"
    + "Return them in a numbered list without any additional commentary.\n\nTitle: "

  const ClaimsTemplate: Template := Template(ClaimsHead, "\nContent: ", "\n")

  /** The prompt `extract_claims` sends for an article. */
  /** Title and content can be read back out of it when the title is a
      single line. */
  function ClaimsPrompt(title: string, content: string): (p: string)
    ensures '\n' !in title ==> Parse(ClaimsTemplate, p) == Some((title, content))
  {
    if '\n' !in title then
      ParseFill(ClaimsTemplate, title, content);
      Fill(ClaimsTemplate, title, content)
    else
      Fill(ClaimsTemplate, title, content)
  }

  /** The six sections the analysis is asked for, in the order requested. */
  const Sections: seq<string> := [
    "Core Claims Analysis",
    "Language & Tone Analysis",
    "Potential Red Flags",
    "Verification Questions",
    "Bias Detection",
    "Source Suggestions (3+ reputable links)"
  ]

  /** A markdown bullet list, one item per line. */
  function Bullets(items: seq<string>): string
  {
    if items == [] then "" else "- " + items[0] + "\n" + Bullets(items[1..])
  }

  /** The analysis prompt of `skeptical_analysis`, up to the title. */
  const AnalysisHead: string :=
    "\nYou are a skeptical fact-checking assistant.\n"
    + "Analyze each claim below for credibility, possible bias, and verification steps.\n\nTitle: "

  /** The analysis prompt after the claims: the request for the sections,
      one bullet per line. */
  const AnalysisTail: string := SectionsIntro + Bullets(Sections)

  const SectionsIntro: string := "\n\nOutput in **Markdown** with these sections:\n"

  const AnalysisTemplate: Template := Template(AnalysisHead, "\n\nClaims:\n", AnalysisTail)

  /** The prompt `skeptical_analysis` sends for the claims of an article. */
  /** Title and claims can be read back out of it when the title is a single
      line. */
  function AnalysisPrompt(title: string, claims: string): (p: string)
    ensures '\n' !in title ==> Parse(AnalysisTemplate, p) == Some((title, claims))
  {
    if '\n' !in title then
      ParseFill(AnalysisTemplate, title, claims);
      Fill(AnalysisTemplate, title, claims)
    else
      Fill(AnalysisTemplate, title, claims)
  }

  /** The title follows "Title: " and the content follows "Content: " on the
      next line, both verbatim, whatever they hold. */
  lemma ClaimsPromptLayout(title: string, content: string)
    ensures ClaimsPrompt(title, content) == ClaimsHead + title + "\nContent: " + content + "\n"
  {
  }

  /** The claims follow "Claims:" on a line of their own, verbatim, whatever
      title and claims hold. */
  lemma AnalysisPromptLayout(title: string, claims: string)
    ensures AnalysisPrompt(title, claims) == AnalysisHead + title + "\n\nClaims:\n" + claims + AnalysisTail
  {
  }

  /** The bullet for item `k` sits between the bullets of the items before
      it and those after it. */
  lemma {:induction false} BulletsAround(items: seq<string>, k: nat)
    requires k < |items|
    ensures Bullets(items) == Bullets(items[..k]) + ("- " + items[k] + "\n") + Bullets(items[k + 1..])
    decreases k
  {
    if k > 0 {
      var rest := items[1..];
      BulletsAround(rest, k - 1);
      assert rest[..k - 1] == items[..k][1..];
      assert rest[k..] == items[k + 1..];
    } else {
      assert items[..0] == [];
      assert items[1..] == items[k + 1..];
    }
  }

  /** The analysis prompt asks for every section of `Sections`, each as a
      bullet after the claims, in the listed order. */
  lemma AnalysisPromptListsSections(title: string, claims: string, k: nat)
    requires k < |Sections|
    ensures AnalysisPrompt(title, claims) == AnalysisHead + title + "\n\nClaims:\n" + claims + SectionsIntro
      + Bullets(Sections[..k]) + ("- " + Sections[k] + "\n") + Bullets(Sections[k + 1..])
  {
    var front := AnalysisHead + title + "\n\nClaims:\n" + claims;
    BulletsAround(Sections, k);
    Reassociate(front, SectionsIntro, Bullets(Sections[..k]), "- " + Sections[k] + "\n", Bullets(Sections[k + 1..]));
  }

  lemma Reassociate(a: string, b: string, c: string, d: string, e: string)
    ensures a + (b + (c + d + e)) == a + b + c + d + e
  {
  }

  /** A title that spans lines can pass part of itself off as content: two
      different articles give the same claim-extraction prompt. */
  lemma TitleCanHideContent(t1: string, c1: string, t2: string, c2: string)
    requires t1 == "a\nContent: b" && c1 == "c"
    requires t2 == "a" && c2 == "b\nContent: c"
    ensures (t1, c1) != (t2, c2)
    ensures ClaimsPrompt(t1, c1) == ClaimsPrompt(t2, c2)
  {
    assert t1 + "\nContent: " + c1 == t2 + "\nContent: " + c2;
    assert Fill(ClaimsTemplate, t1, c1) == ClaimsHead + (t1 + "\nContent: " + c1) + "\n";
    assert Fill(ClaimsTemplate, t2, c2) == ClaimsHead + (t2 + "\nContent: " + c2) + "\n";
  }
}
