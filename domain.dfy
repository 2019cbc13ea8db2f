/** The values that flow through a validation: issues, check outcomes,
    recommendations, and the failures that end a validation early. */
module Domain {
  import opened Wrappers
  import opened PyText

  /** The severity strings the validator writes and tests for. Issues decoded
      from the content analyzer may carry any string. */
  const High := "high"
  const Medium := "medium"

  /** Where an issue is: the requirement key for a technical issue, a frame or
      timecode for a content issue. */
  datatype Location = Property(name: string) | Timecode(code: string)

  /** A single detected deviation (`type`, `description`, `severity` and a
      locator). Issues are never changed after they are built. */
  datatype Issue = Issue(kind: string, description: string, severity: string, location: Location)

  /** The `{passes, issues}` outcome of the technical and the content check. */
  datatype Check = Check(passes: bool, issues: seq<Issue>)

  /** The outcome for an issue list: it passes exactly when there are none. */
  function CheckOf(issues: seq<Issue>): Check {
    Check(|issues| == 0, issues)
  }

  /** A remediation suggestion; `issueId` is the position of its issue in the
      concatenated issue list, written as a string. */
  datatype Recommendation = Recommendation(issueId: string, text: string)

  /** A Python number as probed or requested: its value and its `str()`
      rendering, which ends up in issue descriptions. */
  datatype Number = Number(value: real, text: string)

  /** One encoded still frame sampled from the media. */
  newtype byte = b: int | 0 <= b < 256
  type Frame = seq<byte>

  /** Why unpacking `map(int, resolution.split('x'))` into two names raised. */
  datatype ResolutionError =
    | InvalidLiteral(literal: string)   // int() rejected one of the pieces
    | NotEnoughValues(got: nat)         // fewer than two pieces
    | TooManyValues                     // more than two pieces, all numeric so far

  /** An exception that leaves the validation's `try` block. */
  datatype Fault =
    | ProfileNotFound(profileId: string)
    | BadResolution(cause: ResolutionError)
    | External(message: string)         // a collaborator raised; `message` is its str()

  /** `str(e)` for the exception a fault stands for. */
  function FaultText(f: Fault): string {
    match f
    case ProfileNotFound(id) => "Validation profile '" + id + "' not found"
    case BadResolution(InvalidLiteral(s)) => "invalid literal for int() with base 10: '" + s + "'"
    case BadResolution(NotEnoughValues(n)) =>
      "not enough values to unpack (expected 2, got " + IntToDecimal(n) + ")"
    case BadResolution(TooManyValues) => "too many values to unpack (expected 2)"
    case External(m) => m
  }

  /** The outcome of downloading a media file and then reading it. */
  datatype MediaFetch<T> =
    | DownloadFailed(error: string)                  // nothing was written locally
    | ExtractFailed(localPath: string, error: string) // the download stays on disk
    | Extracted(localPath: string, value: T)
  {
    function Outcome(): Result<T, Fault> {
      match this
      case DownloadFailed(e) => Failure(External(e))
      case ExtractFailed(_, e) => Failure(External(e))
      case Extracted(_, v) => Success(v)
    }
  }

  /** What a content-analyzer call produced: `generate_content` raised, or it
      answered and reading `response.text` either raised or gave the text. */
  datatype Reply = CallFailed(error: string) | Answered(text: Result<string, string>)
}
