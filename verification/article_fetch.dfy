/**
 * What `fetch_article_text` (analyzer.py, lines 18-29) makes of a fetched
 * page: the title and the body text, or nothing when anything failed.
 *
 * The HTTP request and the HTML parser are not modelled: a fetch is given as
 * its outcome, and a parsed page as its `<title>` element and the stripped
 * text of each `<p>` element, in document order.
 */
module ArticleFetch {
  import opened Options
  import opened Text

  /** The page's `<title>` element: absent, or present with its `.string`,
      which is `None` when the element does not hold exactly one string. */
  datatype TitleTag = NoTitleTag | TitleTag(text: Option<string>)

  /** A parsed page: its title element and the text of each paragraph. */
  datatype Page = Page(title: TitleTag, paragraphs: seq<string>)

  /** The outcome of the request: a network error, a timeout or an error
      status all raise, and end in the same way. */
  datatype Fetch = Failed | Fetched(page: Page)

  datatype Article = Article(title: string, body: string)

  const UntitledArticle: string := "Untitled Article"

  /** The paragraphs that hold some text, in order. */
  function NonEmpty(ps: seq<string>): (r: seq<string>)
    ensures |r| <= |ps|
    ensures forall k :: 0 <= k < |r| ==> r[k] != "" && r[k] in ps
    ensures forall p :: p in ps && p != "" ==> p in r
  {
    if ps == [] then []
    else if ps[0] == "" then NonEmpty(ps[1..])
    else [ps[0]] + NonEmpty(ps[1..])
  }

  /** Keeping the non-empty paragraphs of a document keeps their order. */
  lemma {:induction false} NonEmptyAppend(a: seq<string>, b: seq<string>)
    ensures NonEmpty(a + b) == NonEmpty(a) + NonEmpty(b)
    decreases |a|
  {
    if a != [] {
      assert (a + b)[0] == a[0];
      assert (a + b)[1..] == a[1..] + b;
      NonEmptyAppend(a[1..], b);
      if a[0] != "" {
        assert NonEmpty(a + b) == [a[0]] + (NonEmpty(a[1..]) + NonEmpty(b));
      }
    } else {
      assert a + b == b;
    }
  }

  /** The result of `fetch_article_text`: `None` stands for `(None, None)`. */
  function AssembleArticle(fetch: Fetch): (r: Option<Article>)
    ensures r.None? <==> fetch.Failed? || fetch.page.title == TitleTag(None)
    ensures r.Some? && fetch.page.title.NoTitleTag? ==> r.value.title == UntitledArticle
    ensures r.Some? && fetch.page.title.TitleTag? ==> r.value.title == Strip(fetch.page.title.text.value)
  {
    match fetch
    case Failed => None
    case Fetched(Page(tag, paragraphs)) =>
      var body := Join(NonEmpty(paragraphs), '\n');
      match tag
      case NoTitleTag => Some(Article(UntitledArticle, body))
      case TitleTag(None) => None
      case TitleTag(Some(text)) => Some(Article(Strip(text), body))
  }

  /** The body is empty exactly when no paragraph holds text; that is still a
      successful fetch. */
  lemma EmptyBodyIff(page: Page)
    requires page.title != TitleTag(None)
    ensures AssembleArticle(Fetched(page)).Some?
    ensures AssembleArticle(Fetched(page)).value.body == "" <==> forall k :: 0 <= k < |page.paragraphs| ==> page.paragraphs[k] == ""
  {
    var kept := NonEmpty(page.paragraphs);
    if kept != [] {
      JoinNonEmpty(kept, '\n');
    } else {
      forall k | 0 <= k < |page.paragraphs| ensures page.paragraphs[k] == "" {
        assert page.paragraphs[k] in page.paragraphs;
      }
    }
    if exists k :: 0 <= k < |page.paragraphs| && page.paragraphs[k] != "" {
      var k :| 0 <= k < |page.paragraphs| && page.paragraphs[k] != "";
      assert page.paragraphs[k] in page.paragraphs;
    }
  }

  /** Joining a list whose first part is not empty gives a non-empty text. */
  lemma JoinNonEmpty(parts: seq<string>, sep: char)
    requires |parts| > 0 && parts[0] != ""
    ensures Join(parts, sep) != ""
  {
    if |parts| > 1 {
      assert |Join(parts, sep)| >= |parts[0]|;
    }
  }

  /** Splitting the body at line breaks gives back the non-empty paragraphs,
      when none of them spans lines and at least one holds text. */
  lemma BodyLines(page: Page)
    requires page.title != TitleTag(None)
    requires forall k :: 0 <= k < |page.paragraphs| ==> '\n' !in page.paragraphs[k]
    requires exists k :: 0 <= k < |page.paragraphs| && page.paragraphs[k] != ""
    ensures Split(AssembleArticle(Fetched(page)).value.body, '\n') == NonEmpty(page.paragraphs)
  {
    var kept := NonEmpty(page.paragraphs);
    var k :| 0 <= k < |page.paragraphs| && page.paragraphs[k] != "";
    assert page.paragraphs[k] in page.paragraphs;
    forall j | 0 <= j < |kept| ensures '\n' !in kept[j] {
      var i :| 0 <= i < |page.paragraphs| && page.paragraphs[i] == kept[j];
    }
  }

  /** A page with a title and two paragraphs around an empty one. */
  lemma TitledPage(page: Page)
    requires page == Page(TitleTag(Some("  News  ")), ["One", "", "Two"])
    ensures AssembleArticle(Fetched(page)) == Some(Article("News", "One\nTwo"))
  {
    KeptParagraphs(page.paragraphs);
    JoinTwo(NonEmpty(page.paragraphs));
    PaddedTitle(page.title.text.value);
  }

  lemma KeptParagraphs(ps: seq<string>)
    requires ps == ["One", "", "Two"]
    ensures NonEmpty(ps) == ["One", "Two"]
  {
    var rest := ps[1..][1..];
    assert rest == ["Two"] && rest[1..] == [];
    assert NonEmpty(rest) == ["Two"];
    assert ps[1] == [];
    assert NonEmpty(ps[1..]) == NonEmpty(rest);
  }

  lemma JoinTwo(parts: seq<string>)
    requires parts == ["One", "Two"]
    ensures Join(parts, '\n') == "One\nTwo"
  {
    assert parts[1..] == ["Two"];
  }

  lemma PaddedTitle(t: string)
    requires t == "  News  "
    ensures Strip(t) == "News"
  {
    SpaceEndIs(t, 0, 2);
    assert SpaceStart(t, 2, 8) == SpaceStart(t, 2, 6);
    assert t[2..6] == "News";
  }
}
