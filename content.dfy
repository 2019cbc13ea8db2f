/** The content check of `_validate_content` once the frames are in hand
    (scene_validator/validator.py:228-293): the analyzer's reply is turned
    into issues, and a reply that cannot be read or decoded becomes a single
    synthetic `validation_error` issue. Building the prompt and the analyzer
    call itself stand outside the recovering `try`, so their failures
    escape. */
module ContentValidation {
  import opened Wrappers
  import opened PyText
  import opened Domain
  import opened ResponseParsing

  const AnalysisFailureKind := "validation_error"
  const AnalysisFailurePrefix := "Failed to analyze content: "
  const NoTimecode := "N/A"

  /** The issue recorded when the reply could not be turned into issues;
      `message` is the text of the exception. */
  function AnalysisFailure(message: string): Issue {
    Issue(AnalysisFailureKind, AnalysisFailurePrefix + message, High, Timecode(NoTimecode))
  }

  /** The issues read from the analyzer's answer. `text` is the outcome of
      reading `response.text`; `decode` stands for `json.loads` on the
      extracted JSON text, giving the decoded issue list or the exception's
      message. */
  function ContentIssues(text: Result<string, string>, decode: string -> Result<seq<Issue>, string>): seq<Issue> {
    match text
    case Failure(e) => [AnalysisFailure(e)]
    case Success(t) =>
      match decode(ExtractJson(t))
      case Failure(e) => [AnalysisFailure(e)]
      case Success(decoded) => decoded
  }

  /** The content check for one analyzer reply: a failed call is a fault
      that leaves the validation; an answer always yields a check. */
  function ValidateContent(reply: Reply, decode: string -> Result<seq<Issue>, string>): (r: Result<Check, Fault>)
    ensures r.Success? ==> (r.value.passes <==> |r.value.issues| == 0)
  {
    match reply
    case CallFailed(e) => Failure(External(e))
    case Answered(text) => Success(CheckOf(ContentIssues(text, decode)))
  }

  /** The whole content step: fetch the media and its frames, build the
      prompt, then analyse. Failing to fetch either, or an exception while
      building the prompt (`promptError`: joining the metadata tags or
      serialising the profile's criteria), is a fault. */
  function ContentStep(media: MediaFetch<seq<Frame>>, promptError: Option<string>, reply: Reply,
                       decode: string -> Result<seq<Issue>, string>): (r: Result<Check, Fault>)
    ensures r.Success? ==> (r.value.passes <==> |r.value.issues| == 0)
  {
    var _ :- media.Outcome();
    if promptError.Some? then Failure(External(promptError.value))
    else ValidateContent(reply, decode)
  }

  /** A reply that decodes to N issues gives exactly those N issues, in
      order, and passes exactly when N is zero. */
  lemma ContentParsed(text: string, decode: string -> Result<seq<Issue>, string>)
    requires decode(ExtractJson(text)).Success?
    ensures var decoded := decode(ExtractJson(text)).value;
      && ValidateContent(Answered(Success(text)), decode).Success?
      && ValidateContent(Answered(Success(text)), decode).value.issues == decoded
      && (ValidateContent(Answered(Success(text)), decode).value.passes <==> |decoded| == 0)
  {
  }

  /** For the usual "prose ```json ... ``` prose" reply, it is the block's
      stripped body that is decoded. */
  lemma ContentParsedFromBlock(pre: string, body: string, post: string,
                               decode: string -> Result<seq<Issue>, string>)
    requires NoBacktick(pre) && NoBacktick(body) && NoBacktick(post)
    requires decode(Strip(body)).Success?
    ensures ValidateContent(Answered(Success(pre + JsonFence + body + Fence + post)), decode)
              == Success(CheckOf(decode(Strip(body)).value))
  {
    ExtractJsonBlock(pre, body, post);
  }

  /** A reply whose text cannot be read, or whose JSON cannot be decoded,
      gives exactly one issue: a high-severity `validation_error` at
      timecode "N/A" that carries the exception's message; the check fails. */
  lemma ContentFallback(reply: Reply, decode: string -> Result<seq<Issue>, string>)
    requires reply.Answered?
    requires reply.text.Failure? || decode(ExtractJson(reply.text.value)).Failure?
    ensures var c := ValidateContent(reply, decode);
      && c.Success? && !c.value.passes && |c.value.issues| == 1
      && c.value.issues[0].kind == "validation_error"
      && c.value.issues[0].severity == "high"
      && c.value.issues[0].location == Timecode("N/A")
      && c.value.issues[0].description == "Failed to analyze content: "
           + (if reply.text.Failure? then reply.text.error
              else decode(ExtractJson(reply.text.value)).error)
  {
  }

  /** The content check passes exactly when the reply was read and decoded
      to an empty list; a failure always leaves an issue behind. */
  lemma ContentPassesIff(reply: Reply, decode: string -> Result<seq<Issue>, string>)
    requires reply.Answered?
    ensures ValidateContent(reply, decode).Success?
    ensures ValidateContent(reply, decode).value.passes <==>
              reply.text.Success? && decode(ExtractJson(reply.text.value)) == Success([])
  {
  }

  /** Only the analyzer call can make the content check itself fail, and
      then its exception is what escapes. */
  lemma ContentFailsIff(reply: Reply, decode: string -> Result<seq<Issue>, string>)
    ensures ValidateContent(reply, decode).Failure? <==> reply.CallFailed?
    ensures reply.CallFailed? ==> ValidateContent(reply, decode) == Failure(External(reply.error))
  {
  }

  /** The content step fails exactly when fetching the media or its frames
      fails, building the prompt raises, or the analyzer call fails, with
      the first such error. */
  lemma ContentStepFailsIff(media: MediaFetch<seq<Frame>>, promptError: Option<string>, reply: Reply,
                            decode: string -> Result<seq<Issue>, string>)
    ensures ContentStep(media, promptError, reply, decode).Failure? <==>
              !media.Extracted? || promptError.Some? || reply.CallFailed?
    ensures !media.Extracted? ==> ContentStep(media, promptError, reply, decode) == Failure(External(media.error))
    ensures media.Extracted? && promptError.Some? ==>
              ContentStep(media, promptError, reply, decode) == Failure(External(promptError.value))
    ensures media.Extracted? && promptError.None? ==>
              ContentStep(media, promptError, reply, decode) == ValidateContent(reply, decode)
  {
  }
}
