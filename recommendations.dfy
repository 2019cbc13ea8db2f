/** `_generate_recommendations` (scene_validator/validator.py:295-340): no
    issues need no advice; otherwise a prompt is built and the analyzer is
    asked, and if the call, reading its text or decoding it goes wrong every
    issue gets the same stock advice, keyed by its position. Building the
    prompt stands outside the recovering `try`, so its failure escapes. */
module Recommendations {
  import opened Wrappers
  import opened PyText
  import opened Domain
  import opened ResponseParsing

  const FallbackText := "Review issue and consult technical documentation."

  /** The stock advice for `n` issues: entry `i` is for issue `i`, its
      `issue_id` being `str(i)`. */
  function FallbackRecommendations(n: nat): (r: seq<Recommendation>)
    ensures |r| == n
  {
    seq(n, i requires 0 <= i < n => Recommendation(IntToDecimal(i), FallbackText))
  }

  /** What the recovering `try` yields: the analyzer's decoded list, or the
      stock advice when the call, reading its text or decoding fails.
      `reply` is the analyzer's answer to the recommendation prompt;
      `decode` stands for `json.loads` on the extracted JSON text. */
  function AnalyzerRecommendations(issues: seq<Issue>, reply: Reply,
                                   decode: string -> Result<seq<Recommendation>, string>): seq<Recommendation> {
    match reply
    case CallFailed(_) => FallbackRecommendations(|issues|)
    case Answered(Failure(_)) => FallbackRecommendations(|issues|)
    case Answered(Success(text)) =>
      match decode(ExtractJson(text))
      case Failure(_) => FallbackRecommendations(|issues|)
      case Success(decoded) => decoded
  }

  /** The recommendations for `issues`. `promptError` is the exception
      raised while building the prompt (serialising the issues or the
      profile), if any. */
  function GenerateRecommendations(issues: seq<Issue>, promptError: Option<string>, reply: Reply,
                                   decode: string -> Result<seq<Recommendation>, string>)
    : Result<seq<Recommendation>, Fault>
  {
    if |issues| == 0 then Success([])
    else if promptError.Some? then Failure(External(promptError.value))
    else Success(AnalyzerRecommendations(issues, reply, decode))
  }

  /** The analyzer's recommendations were used: it answered and its JSON
      decoded. */
  predicate Decoded(reply: Reply, decode: string -> Result<seq<Recommendation>, string>) {
    reply.Answered? && reply.text.Success? && decode(ExtractJson(reply.text.value)).Success?
  }

  /** An empty issue list gives no recommendations, whatever the prompt or
      the analyzer would have done. */
  lemma NoIssuesNoRecommendations(promptError: Option<string>, reply: Reply,
                                  decode: string -> Result<seq<Recommendation>, string>)
    ensures GenerateRecommendations([], promptError, reply, decode) == Success([])
  {
  }

  /** Only a failure to build the prompt for a non-empty list escapes, and
      it is that exception which does. */
  lemma RecommendationsFailIff(issues: seq<Issue>, promptError: Option<string>, reply: Reply,
                               decode: string -> Result<seq<Recommendation>, string>)
    ensures GenerateRecommendations(issues, promptError, reply, decode).Failure? <==>
              |issues| > 0 && promptError.Some?
    ensures GenerateRecommendations(issues, promptError, reply, decode).Failure? ==>
              GenerateRecommendations(issues, promptError, reply, decode) == Failure(External(promptError.value))
  {
  }

  /** Once the prompt is built, any failure of the call, of reading its text
      or of decoding gives one stock recommendation per issue; the i-th is
      keyed by `str(i)`, which `int()` reads back as i. */
  lemma {:induction false} FallbackPositional(issues: seq<Issue>, reply: Reply,
                                               decode: string -> Result<seq<Recommendation>, string>)
    requires |issues| > 0 && !Decoded(reply, decode)
    ensures GenerateRecommendations(issues, None, reply, decode).Success?
    ensures var r := GenerateRecommendations(issues, None, reply, decode).value;
      && |r| == |issues|
      && (forall i :: 0 <= i < |r| ==>
            && r[i].text == FallbackText && r[i].issueId == IntToDecimal(i)
            && ParseInt(r[i].issueId) == Some(i))
  {
    var r := GenerateRecommendations(issues, None, reply, decode).value;
    assert r == FallbackRecommendations(|issues|);
    forall i | 0 <= i < |r|
      ensures r[i].text == FallbackText && r[i].issueId == IntToDecimal(i) && ParseInt(r[i].issueId) == Some(i)
    {
      ParseIntToDecimal(i);
    }
  }

  /** The stock keys are pairwise different, so each issue has its own. */
  lemma FallbackKeysDistinct(n: nat, i: nat, j: nat)
    requires i < j < n
    ensures FallbackRecommendations(n)[i].issueId != FallbackRecommendations(n)[j].issueId
  {
    ParseIntToDecimal(i);
    ParseIntToDecimal(j);
  }

  /** When the prompt was built and the analyzer answered with decodable
      JSON, its list is returned as decoded. */
  lemma DecodedRecommendations(issues: seq<Issue>, reply: Reply,
                               decode: string -> Result<seq<Recommendation>, string>)
    requires |issues| > 0 && Decoded(reply, decode)
    ensures GenerateRecommendations(issues, None, reply, decode)
              == Success(decode(ExtractJson(reply.text.value)).value)
  {
  }
}
