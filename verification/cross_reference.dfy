/**
 * The "search for the same story" link (analyzer.py, lines 86-89): a
 * markdown link to a Google News search whose query is the article title
 * with every space replaced by `+`. Nothing else in the title is encoded.
 */
module CrossReference {
  import opened Options
  import opened Text

  /** The markdown link text and the search URL up to the query. */
  const LinkHead: string := "[Click here to search on Google News](https://news.google.com/rss/search?q="

  /** The search query for a title: spaces become `+`, every other character
      stays where it is. */
  function Query(title: string): (q: string)
    ensures |q| == |title|
    ensures ' ' !in q
    ensures forall k :: 0 <= k < |title| && title[k] != ' ' ==> q[k] == title[k]
    ensures forall k :: 0 <= k < |title| && title[k] == ' ' ==> q[k] == '+'
  {
    ReplaceChar(title, ' ', '+')
  }

  /** The link `cross_reference_search` returns. Whatever the title holds,
      the title's query can be read back out of it. */
  function SearchLink(title: string): (r: string)
    ensures LinkQuery(r) == Some(Query(title))
  {
    var q := Query(title);
    DropPrefixOf(LinkHead, q + ")");
    DropSuffixOf(q, ")");
    assert LinkHead + q + ")" == LinkHead + (q + ")");
    LinkHead + q + ")"
  }

  /** The query of a link, read back. */
  function LinkQuery(link: string): (r: Option<string>)
    ensures r.Some? ==> link == LinkHead + r.value + ")"
  {
    match DropPrefix(link, LinkHead)
    case None => None
    case Some(rest) => DropSuffix(rest, ")")
  }

  /** Characters that the query cannot tell apart: a space and a `+`. */
  predicate SameInQuery(a: char, b: char)
  {
    a == b || (a == ' ' && b == '+') || (a == '+' && b == ' ')
  }

  /** Two titles give the same link exactly when they have the same length
      and differ only by spaces against `+` signs. */
  lemma SameLinkIff(t1: string, t2: string)
    ensures SearchLink(t1) == SearchLink(t2) <==>
      |t1| == |t2| && forall k :: 0 <= k < |t1| ==> SameInQuery(t1[k], t2[k])
  {
    var q1, q2 := Query(t1), Query(t2);
    if |t1| == |t2| && forall k :: 0 <= k < |t1| ==> SameInQuery(t1[k], t2[k]) {
      assert forall k :: 0 <= k < |q1| ==> q1[k] == q2[k];
    }
    if SearchLink(t1) == SearchLink(t2) {
      assert q1 == q2;
      forall k | 0 <= k < |t1| ensures SameInQuery(t1[k], t2[k]) {
        assert q1[k] == q2[k];
      }
    }
  }

  /** Turning `+` back into spaces recovers a title that had no `+`. */
  lemma SpacesRestored(title: string)
    requires '+' !in title
    ensures ReplaceChar(Query(title), '+', ' ') == title
  {
    var r := ReplaceChar(Query(title), '+', ' ');
    assert forall k :: 0 <= k < |title| ==> r[k] == title[k];
  }

  /** A title with a `+` in it shares its link with the title that has a
      space there instead. */
  lemma PlusLooksLikeSpace(t1: string, t2: string)
    requires t1 == "C++ news" && t2 == "C   news"
    ensures t1 != t2
    ensures SearchLink(t1) == SearchLink(t2)
  {
    assert t1[1] != t2[1];
    SameLinkIff(t1, t2);
  }

  /** A two-word title. */
  lemma TwoWordTitle(title: string)
    requires title == "Stocks rise"
    ensures SearchLink(title) == LinkHead + "Stocks+rise" + ")"
  {
    assert Query(title) == "Stocks+rise";
  }
}
