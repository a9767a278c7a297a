/**
 * The two-pass analysis of `analyze_with_groq` (analyzer.py, lines 94-103):
 * extract the claims of an article, then ask for a skeptical analysis of
 * them, with a fixed message when either pass yields nothing.
 *
 * The completion service is a parameter: `complete` maps a prompt to the
 * text of the reply, or `None` when the request failed. A run records the
 * prompts it sent, in order, so that what the wrapper asks for is part of
 * what it is specified to do.
 */
module Analyzer {
  import opened Options
  import opened Prompts

  const NoClaims: string := "No claims could be extracted."
  const AnalysisFailed: string := "Analysis could not be completed."

  /** Python truthiness of a reply: `None` and the empty text are false. */
  predicate Truthy(reply: Option<string>)
  {
    reply.Some? && reply.value != ""
  }

  /** What the wrapper returns, and the prompts it sent to get there. */
  datatype Run = Run(result: string, prompts: seq<string>)

  function AnalyzeWithGroq(title: string, content: string, complete: string -> Option<string>): (r: Run)
    ensures 1 <= |r.prompts| <= 2
    ensures r.prompts[0] == ClaimsPrompt(title, content)
    ensures |r.prompts| == 1 <==> !Truthy(complete(ClaimsPrompt(title, content)))
    ensures |r.prompts| == 1 ==> r.result == NoClaims
    ensures |r.prompts| == 2 ==> r.prompts[1] == AnalysisPrompt(title, complete(r.prompts[0]).value)
    ensures |r.prompts| == 2 && Truthy(complete(r.prompts[1])) ==> Some(r.result) == complete(r.prompts[1])
    ensures |r.prompts| == 2 && !Truthy(complete(r.prompts[1])) ==> r.result == AnalysisFailed
    ensures r.result != ""
  {
    var claimsPrompt := ClaimsPrompt(title, content);
    var claims := complete(claimsPrompt);
    if !Truthy(claims) then
      Run(NoClaims, [claimsPrompt])
    else
      var analysisPrompt := AnalysisPrompt(title, claims.value);
      var analysis := complete(analysisPrompt);
      Run(if Truthy(analysis) then analysis.value else AnalysisFailed, [claimsPrompt, analysisPrompt])
  }

  /** The result depends on the service only through its replies to the
      prompts the run sent: a service that answers those alike, whatever it
      answers elsewhere, gives the same run. */
  lemma OnlySentPromptsMatter(title: string, content: string, f: string -> Option<string>, g: string -> Option<string>)
    requires forall k :: 0 <= k < |AnalyzeWithGroq(title, content, f).prompts| ==>
      f(AnalyzeWithGroq(title, content, f).prompts[k]) == g(AnalyzeWithGroq(title, content, f).prompts[k])
    ensures AnalyzeWithGroq(title, content, g) == AnalyzeWithGroq(title, content, f)
  {
    var r := AnalyzeWithGroq(title, content, f);
    assert f(r.prompts[0]) == g(r.prompts[0]);
    if |r.prompts| == 2 {
      assert f(r.prompts[1]) == g(r.prompts[1]);
    }
  }

  /** The answer is either one of the two fixed messages or the reply to the
      last prompt sent, unchanged. */
  lemma ResultIsReplyOrMessage(title: string, content: string, complete: string -> Option<string>)
    ensures var r := AnalyzeWithGroq(title, content, complete);
      r.result == NoClaims || r.result == AnalysisFailed || complete(r.prompts[|r.prompts| - 1]) == Some(r.result)
  {
  }

  /** A service that never answers yields the first message after one
      request. */
  lemma ServiceDown(title: string, content: string, complete: string -> Option<string>)
    requires forall p :: complete(p) == None
    ensures AnalyzeWithGroq(title, content, complete) == Run(NoClaims, [ClaimsPrompt(title, content)])
  {
    assert complete(ClaimsPrompt(title, content)) == None;
  }

  /** A service that returns the claims and then fails yields the second
      message, after sending the claims on for analysis. */
  lemma AnalysisDown(title: string, content: string, claims: string, complete: string -> Option<string>)
    requires claims != ""
    requires complete(ClaimsPrompt(title, content)) == Some(claims)
    requires complete(AnalysisPrompt(title, claims)) == None
    ensures AnalyzeWithGroq(title, content, complete)
      == Run(AnalysisFailed, [ClaimsPrompt(title, content), AnalysisPrompt(title, claims)])
  {
  }
}
