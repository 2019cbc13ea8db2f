/** `SceneValidator.validate` and `_send_callback`
    (scene_validator/validator.py:49-164, 374-385): a validation is recorded
    as `in_progress`, the profile is loaded, the technical and content checks
    run, recommendations and a summary are made, and the record is closed
    with exactly one terminal update (`passed`, `failed` or `error`). A
    failure inside the `try` is recorded, reported to the callback and
    raised again; a failing callback is always swallowed.

    The store, the media source, the content analyzer and the callback
    endpoint are outside the model: what they answer is a `Collaborators`
    value, and what is done to them is kept in the validator's fields. */
module Orchestrator {
  import opened Wrappers
  import opened Domain
  import opened TechnicalSpecs
  import ContentValidation
  import Recommendations
  import opened Summary

  datatype Status = InProgress | Passed | Failed | Error {
    /** The string stored in the record's `status` field. */
    function Text(): string {
      match this
      case InProgress => "in_progress"
      case Passed => "passed"
      case Failed => "failed"
      case Error => "error"
    }
  }

  /** A JSON object: scene metadata or a validation profile. The model
      stores it without looking inside; what building the analyzer prompts
      does with it is summed up by whether that raised (the prompt errors
      in `Collaborators`). */
  type Document = map<string, string>

  /** The arguments of one `validate` call. */
  datatype Request = Request(
    sceneId: string, mediaUrl: string, validationProfile: string,
    metadata: Document, requirements: Requirements, callbackUrl: Option<string>)

  /** The result dictionary `validate` returns and stores. */
  datatype ValidationResult = ValidationResult(
    sceneId: string, validationId: string, timestamp: string, status: Status,
    summary: string, content: Check, technical: Check,
    recommendations: seq<Recommendation>)

  /** A validation record: the job document written first, with the fields
      the terminal update adds. */
  datatype Record = Record(
    validationId: string, timestamp: string, request: Request, status: Status,
    result: Option<ValidationResult>, error: Option<string>)

  /** What is posted to the callback endpoint. */
  datatype Payload =
    | ResultPayload(result: ValidationResult)
    | ErrorPayload(sceneId: string, validationId: string, timestamp: string, status: Status, error: string)

  /** One callback attempt; `delivered` is false when the post raised or
      the endpoint answered with an error status. */
  datatype Callback = Callback(url: string, payload: Payload, delivered: bool)

  /** An effect on the outside world, in the order they happen. */
  datatype Effect =
    | Stored(validationId: string, status: Status)   // a write to the validation record
    | Downloaded(url: string)                        // the media was fetched (or that was tried)
    | AnalyzedFrames(frames: seq<Frame>)             // the content analyzer was sent these frames
    | AskedRecommendations(issues: seq<Issue>)       // the analyzer was asked for advice on these issues
    | CleanedUp(path: string)                        // a downloaded file was removed
    | CalledBack(url: string)                        // the callback endpoint was posted to

  /** What the outside world answers during one validation. */
  datatype Collaborators = Collaborators(
    profileLookup: Result<Option<Document>, string>, // the profile document, if the store has it
    technicalMedia: MediaFetch<TechnicalMetadata>,   // download, then probe
    contentMedia: MediaFetch<seq<Frame>>,            // download, then key frames
    contentPromptError: Option<string>,              // raised joining the tags or serialising the criteria
    contentReply: Reply,
    recommendationPromptError: Option<string>,       // raised serialising the issues or the profile
    recommendationReply: Reply,
    decodeIssues: string -> Result<seq<Issue>, string>,
    decodeRecommendations: string -> Result<seq<Recommendation>, string>,
    callbackDelivered: bool)

  // ---------------------------------------------------------------------
  // The steps, as functions of what the collaborators answer

  /** `_get_validation_profile`: a profile the store does not have is a
      "not found" fault. */
  function GetValidationProfile(lookup: Result<Option<Document>, string>, profileId: string): Result<Document, Fault> {
    match lookup
    case Failure(e) => Failure(External(e))
    case Success(None) => Failure(ProfileNotFound(profileId))
    case Success(Some(profile)) => Success(profile)
  }

  /** `_validate_technical_specs`: fetch and probe, then compare. */
  function TechnicalStep(media: MediaFetch<TechnicalMetadata>, req: Requirements): (r: Result<Check, Fault>)
    ensures r.Success? ==> media.Extracted? && r == CheckTechnicalSpecs(media.value, req)
    ensures r.Success? ==> (r.value.passes <==> |r.value.issues| == 0)
  {
    var md :- media.Outcome();
    CheckTechnicalSpecs(md, req)
  }

  /** The files on disk after a download and a read: a download that
      succeeded leaves its file, whether or not it could be read. */
  function Downloads<T>(files: set<string>, media: MediaFetch<T>): set<string> {
    if media.DownloadFailed? then files else files + {media.localPath}
  }

  /** The technical step removes its download only when it returns. */
  function TechnicalCleansUp(media: MediaFetch<TechnicalMetadata>, req: Requirements): bool {
    media.Extracted? && CheckTechnicalSpecs(media.value, req).Success?
  }

  /** The content step removes its download only once the analyzer answered. */
  function ContentCleansUp(media: MediaFetch<seq<Frame>>, promptError: Option<string>, reply: Reply): bool {
    media.Extracted? && promptError.None? && reply.Answered?
  }

  /** The effects of the technical step: the download, then the removal
      of the file if the step returns. */
  function TechnicalEffects(url: string, media: MediaFetch<TechnicalMetadata>, req: Requirements): seq<Effect> {
    [Downloaded(url)] + (if TechnicalCleansUp(media, req) then [CleanedUp(media.localPath)] else [])
  }

  function TechnicalFiles(files: set<string>, media: MediaFetch<TechnicalMetadata>, req: Requirements): set<string> {
    if TechnicalCleansUp(media, req) then Downloads(files, media) - {media.localPath} else Downloads(files, media)
  }

  /** The effects of the content step: the download, the frames sent to
      the analyzer, then the removal of the file once it answered. */
  function ContentEffects(url: string, media: MediaFetch<seq<Frame>>, promptError: Option<string>,
                          reply: Reply): seq<Effect> {
    [Downloaded(url)] + (if media.Extracted? && promptError.None? then [AnalyzedFrames(media.value)] else [])
      + (if ContentCleansUp(media, promptError, reply) then [CleanedUp(media.localPath)] else [])
  }

  function ContentFiles(files: set<string>, media: MediaFetch<seq<Frame>>, promptError: Option<string>,
                        reply: Reply): set<string> {
    if ContentCleansUp(media, promptError, reply) then Downloads(files, media) - {media.localPath}
    else Downloads(files, media)
  }

  /** The analyzer is asked for recommendations only about a non-empty list. */
  function RecommendationEffects(issues: seq<Issue>): seq<Effect> {
    if |issues| > 0 then [AskedRecommendations(issues)] else []
  }

  /** What one whole validation does, short of the record writes and the
      callback: its outcome, its effects in order, and the files left. */
  datatype Run = Run(outcome: Result<ValidationResult, Fault>, effects: seq<Effect>, files: set<string>)

  /** The result made from the two checks and the recommendations. */
  function Compile(req: Request, validationId: string, timestamp: string,
                   technical: Check, content: Check, recommendations: seq<Recommendation>): ValidationResult {
    var status := if technical.passes && content.passes then Passed else Failed;
    ValidationResult(req.sceneId, validationId, timestamp, status,
                     GenerateSummary(technical, content, recommendations), content, technical, recommendations)
  }

  function Pipeline(req: Request, validationId: string, timestamp: string,
                    env: Collaborators, files: set<string>): Run {
    match GetValidationProfile(env.profileLookup, req.validationProfile)
    case Failure(f) => Run(Failure(f), [], files)
    case Success(_) =>
      var tEffects := TechnicalEffects(req.mediaUrl, env.technicalMedia, req.requirements);
      var tFiles := TechnicalFiles(files, env.technicalMedia, req.requirements);
      match TechnicalStep(env.technicalMedia, req.requirements)
      case Failure(f) => Run(Failure(f), tEffects, tFiles)
      case Success(technical) =>
        var cEffects := tEffects + ContentEffects(req.mediaUrl, env.contentMedia, env.contentPromptError,
                                                  env.contentReply);
        var cFiles := ContentFiles(tFiles, env.contentMedia, env.contentPromptError, env.contentReply);
        match ContentValidation.ContentStep(env.contentMedia, env.contentPromptError, env.contentReply,
                                            env.decodeIssues)
        case Failure(f) => Run(Failure(f), cEffects, cFiles)
        case Success(content) =>
          var issues := technical.issues + content.issues;
          match Recommendations.GenerateRecommendations(issues, env.recommendationPromptError,
                                                        env.recommendationReply, env.decodeRecommendations)
          case Failure(f) => Run(Failure(f), cEffects, cFiles)
          case Success(recommendations) =>
            Run(Success(Compile(req, validationId, timestamp, technical, content, recommendations)),
                cEffects + RecommendationEffects(issues), cFiles)
  }

  // ---------------------------------------------------------------------
  // The record and the callback

  function InitialRecord(req: Request, validationId: string, timestamp: string): Record {
    Record(validationId, timestamp, req, InProgress, None, None)
  }

  function ErrorMessage(f: Fault): string {
    "Validation failed: " + FaultText(f)
  }

  /** The record after the terminal update for `outcome`. */
  function Concluded(rec: Record, outcome: Result<ValidationResult, Fault>): Record {
    match outcome
    case Success(r) => rec.(status := r.status, result := Some(r))
    case Failure(f) => rec.(status := Error, error := Some(ErrorMessage(f)))
  }

  /** `if callback_url:` — an absent or empty URL sends nothing. */
  predicate HasCallback(req: Request) {
    req.callbackUrl.Some? && req.callbackUrl.value != ""
  }

  function PayloadFor(req: Request, validationId: string, timestamp: string,
                      outcome: Result<ValidationResult, Fault>): Payload {
    match outcome
    case Success(r) => ResultPayload(r)
    case Failure(f) => ErrorPayload(req.sceneId, validationId, timestamp, Error, ErrorMessage(f))
  }

  /** The trace entry of the callback, when there is one. */
  function CallbackEffects(req: Request): seq<Effect> {
    if HasCallback(req) then [CalledBack(req.callbackUrl.value)] else []
  }

  function CallbacksFor(req: Request, validationId: string, timestamp: string,
                        outcome: Result<ValidationResult, Fault>, delivered: bool): seq<Callback> {
    if HasCallback(req) then [Callback(req.callbackUrl.value, PayloadFor(req, validationId, timestamp, outcome), delivered)]
    else []
  }

  /** A stored record is consistent with its key and its status. */
  predicate WellFormed(id: string, rec: Record) {
    && rec.validationId == id
    && match rec.status
       case InProgress => rec.result.None? && rec.error.None?
       case Error => rec.result.None? && rec.error.Some?
       case _ => rec.error.None? && rec.result.Some?
                 && rec.result.value.status == rec.status && rec.result.value.validationId == id
  }

  // ---------------------------------------------------------------------
  // The validator

  class SceneValidator {
    /** The validation records, by validation id. */
    var records: map<string, Record>
    /** Every callback attempted, in order. */
    var callbacks: seq<Callback>
    /** The downloaded files still on disk. */
    var tempFiles: set<string>
    /** Every effect on the outside world, in order. */
    var trace: seq<Effect>

    predicate Valid()
      reads this
    {
      forall id :: id in records ==> WellFormed(id, records[id])
    }

    constructor ()
      ensures Valid()
      ensures records == map[] && callbacks == [] && tempFiles == {} && trace == []
    {
      records := map[];
      callbacks := [];
      tempFiles := {};
      trace := [];
    }

    /** `_validate_technical_specs`. The download is removed only when the
        comparison returns; a failure to probe or to parse the resolution
        leaves it on disk. */
    method ValidateTechnicalSpecs(mediaUrl: string, media: MediaFetch<TechnicalMetadata>, req: Requirements)
      returns (r: Result<Check, Fault>)
      modifies this
      ensures r == TechnicalStep(media, req)
      ensures trace == old(trace) + TechnicalEffects(mediaUrl, media, req)
      ensures tempFiles == TechnicalFiles(old(tempFiles), media, req)
      ensures records == old(records) && callbacks == old(callbacks)
    {
      trace := trace + [Downloaded(mediaUrl)];
      if media.DownloadFailed? {
        return Failure(External(media.error));
      }
      tempFiles := tempFiles + {media.localPath};
      if media.ExtractFailed? {
        return Failure(External(media.error));
      }
      r := CheckTechnicalSpecs(media.value, req);
      if r.Success? {
        tempFiles := tempFiles - {media.localPath};
        trace := trace + [CleanedUp(media.localPath)];
      }
    }

    /** `_validate_content`. Once the prompt is built the frames go to the
        analyzer; the download is removed once it answered, and left behind
        if building the prompt or the call raised. */
    method ValidateContent(mediaUrl: string, media: MediaFetch<seq<Frame>>, promptError: Option<string>,
                           reply: Reply, decode: string -> Result<seq<Issue>, string>)
      returns (r: Result<Check, Fault>)
      modifies this
      ensures r == ContentValidation.ContentStep(media, promptError, reply, decode)
      ensures trace == old(trace) + ContentEffects(mediaUrl, media, promptError, reply)
      ensures tempFiles == ContentFiles(old(tempFiles), media, promptError, reply)
      ensures records == old(records) && callbacks == old(callbacks)
    {
      trace := trace + [Downloaded(mediaUrl)];
      if media.DownloadFailed? {
        return Failure(External(media.error));
      }
      tempFiles := tempFiles + {media.localPath};
      if media.ExtractFailed? {
        return Failure(External(media.error));
      }
      if promptError.Some? {
        return Failure(External(promptError.value));
      }
      trace := trace + [AnalyzedFrames(media.value)];
      r := ContentValidation.ValidateContent(reply, decode);
      if r.Success? {
        tempFiles := tempFiles - {media.localPath};
        trace := trace + [CleanedUp(media.localPath)];
      }
    }

    /** `_generate_recommendations`. The analyzer is asked only when there
        is at least one issue and its prompt could be built. */
    method GenerateRecommendations(issues: seq<Issue>, promptError: Option<string>, reply: Reply,
                                   decode: string -> Result<seq<Recommendation>, string>)
      returns (r: Result<seq<Recommendation>, Fault>)
      modifies this
      ensures r == Recommendations.GenerateRecommendations(issues, promptError, reply, decode)
      ensures trace == old(trace) + (if r.Success? then RecommendationEffects(issues) else [])
      ensures records == old(records) && callbacks == old(callbacks) && tempFiles == old(tempFiles)
    {
      if |issues| == 0 {
        return Success([]);
      }
      if promptError.Some? {
        return Failure(External(promptError.value));
      }
      trace := trace + [AskedRecommendations(issues)];
      r := Success(Recommendations.AnalyzerRecommendations(issues, reply, decode));
    }

    /** `_send_callback`: one attempt, whose failure is only noted. */
    method SendCallback(url: string, payload: Payload, delivered: bool)
      modifies this
      ensures callbacks == old(callbacks) + [Callback(url, payload, delivered)]
      ensures trace == old(trace) + [CalledBack(url)]
      ensures records == old(records) && tempFiles == old(tempFiles)
    {
      callbacks := callbacks + [Callback(url, payload, delivered)];
      trace := trace + [CalledBack(url)];
    }

    /** The body of `validate`'s `try` up to the terminal update: the
        profile, the two checks, the recommendations and the summary. The
        first fault stops the run and is returned. */
    method RunChecks(req: Request, validationId: string, timestamp: string, env: Collaborators)
      returns (outcome: Result<ValidationResult, Fault>)
      modifies this
      ensures var run := Pipeline(req, validationId, timestamp, env, old(tempFiles));
        outcome == run.outcome && trace == old(trace) + run.effects && tempFiles == run.files
      ensures records == old(records) && callbacks == old(callbacks)
    {
      var profile := GetValidationProfile(env.profileLookup, req.validationProfile);
      if profile.Failure? {
        return Failure(profile.error);
      }
      ghost var trace0, files0 := trace, tempFiles;
      var technical := ValidateTechnicalSpecs(req.mediaUrl, env.technicalMedia, req.requirements);
      if technical.Failure? {
        return Failure(technical.error);
      }
      ghost var tEffects := TechnicalEffects(req.mediaUrl, env.technicalMedia, req.requirements);
      var content := ValidateContent(req.mediaUrl, env.contentMedia, env.contentPromptError,
                                     env.contentReply, env.decodeIssues);
      ghost var cEffects := tEffects + ContentEffects(req.mediaUrl, env.contentMedia, env.contentPromptError,
                                                      env.contentReply);
      assert trace == trace0 + cEffects;
      if content.Failure? {
        return Failure(content.error);
      }
      var t, c := technical.value, content.value;
      var recommendations := GenerateRecommendations(t.issues + c.issues, env.recommendationPromptError,
                                                     env.recommendationReply, env.decodeRecommendations);
      if recommendations.Failure? {
        return Failure(recommendations.error);
      }
      assert trace == trace0 + (cEffects + RecommendationEffects(t.issues + c.issues));
      var status := if t.passes && c.passes then Passed else Failed;
      var summary := GenerateSummary(t, c, recommendations.value);
      outcome := Success(ValidationResult(req.sceneId, validationId, timestamp, status, summary,
                                          c, t, recommendations.value));
    }

    /** The terminal update of record `validationId` (the `try` body's on
        success, the handler's on a fault), then the callback if a URL was
        given. */
    method Conclude(req: Request, validationId: string, timestamp: string,
                    outcome: Result<ValidationResult, Fault>, delivered: bool)
      requires Valid()
      requires outcome.Success? ==>
                 outcome.value.validationId == validationId && outcome.value.status in {Passed, Failed}
      modifies this
      ensures Valid()
      ensures records == old(records)[validationId :=
                Concluded(InitialRecord(req, validationId, timestamp), outcome)]
      ensures trace == old(trace) + [Stored(validationId, TerminalStatus(outcome))] + CallbackEffects(req)
      ensures callbacks == old(callbacks) + CallbacksFor(req, validationId, timestamp, outcome, delivered)
      ensures tempFiles == old(tempFiles)
    {
      var done := Concluded(InitialRecord(req, validationId, timestamp), outcome);
      records := records[validationId := done];
      trace := trace + [Stored(validationId, done.status)];
      if HasCallback(req) {
        SendCallback(req.callbackUrl.value, PayloadFor(req, validationId, timestamp, outcome), delivered);
      }
    }

    /** `validate`: the record is written as `in_progress` before anything
        else happens and closed with one terminal write; the outcome,
        including a fault that is raised again, is the pipeline's. */
    method Validate(req: Request, validationId: string, timestamp: string, env: Collaborators)
      returns (outcome: Result<ValidationResult, Fault>)
      requires Valid()
      modifies this
      ensures Valid()
      ensures var run := Pipeline(req, validationId, timestamp, env, old(tempFiles));
        && outcome == run.outcome
        && trace == old(trace) + [Stored(validationId, InProgress)] + run.effects
                    + [Stored(validationId, TerminalStatus(outcome))] + CallbackEffects(req)
        && tempFiles == run.files
      ensures records == old(records)[validationId :=
                Concluded(InitialRecord(req, validationId, timestamp), outcome)]
      ensures callbacks == old(callbacks) + CallbacksFor(req, validationId, timestamp, outcome, env.callbackDelivered)
    {
      records := records[validationId := InitialRecord(req, validationId, timestamp)];
      trace := trace + [Stored(validationId, InProgress)];
      ghost var trace0, files0 := trace, tempFiles;
      outcome := RunChecks(req, validationId, timestamp, env);
      ghost var run := Pipeline(req, validationId, timestamp, env, files0);
      PipelineResultShape(req, validationId, timestamp, env, files0);
      Conclude(req, validationId, timestamp, outcome, env.callbackDelivered);
      assert trace == trace0 + run.effects + [Stored(validationId, TerminalStatus(outcome))] + CallbackEffects(req);
    }
  }

  /** The status of the terminal write for an outcome. */
  function TerminalStatus(outcome: Result<ValidationResult, Fault>): Status {
    if outcome.Success? then outcome.value.status else Error
  }

  // ---------------------------------------------------------------------
  // Properties of a validation

  /** A returned result carries the request's scene, the given id and
      timestamp, and a status of `passed` or `failed`. */
  lemma PipelineResultShape(req: Request, validationId: string, timestamp: string,
                            env: Collaborators, files: set<string>)
    ensures var o := Pipeline(req, validationId, timestamp, env, files).outcome;
      o.Success? ==> && o.value.sceneId == req.sceneId && o.value.validationId == validationId
                     && o.value.timestamp == timestamp && o.value.status in {Passed, Failed}
  {
  }

  /** A validation that returns has status `passed` exactly when neither
      check found an issue; both prompts were built; its recommendations
      are over the technical issues followed by the content issues; a
      passed validation has no recommendations and the fixed "passed"
      summary. */
  lemma PipelineStatus(req: Request, validationId: string, timestamp: string,
                       env: Collaborators, files: set<string>)
    requires Pipeline(req, validationId, timestamp, env, files).outcome.Success?
    ensures var r := Pipeline(req, validationId, timestamp, env, files).outcome.value;
      && env.technicalMedia.Extracted? && env.contentMedia.Extracted? && env.contentPromptError.None?
      && Success(r.technical) == CheckTechnicalSpecs(env.technicalMedia.value, req.requirements)
      && Success(r.content) == ContentValidation.ValidateContent(env.contentReply, env.decodeIssues)
      && (r.status == Passed <==> r.technical.passes && r.content.passes)
      && (r.status == Passed <==> |r.technical.issues| + |r.content.issues| == 0)
      && Success(r.recommendations) == Recommendations.GenerateRecommendations(
           r.technical.issues + r.content.issues, env.recommendationPromptError,
           env.recommendationReply, env.decodeRecommendations)
      && (r.status == Passed ==> r.recommendations == [] && r.summary == PassedSentence)
  {
    var r := Pipeline(req, validationId, timestamp, env, files).outcome.value;
    SummaryPassedIff(r.technical, r.content, r.recommendations);
  }

  /** A validation fails exactly when loading the profile, the technical
      step, the content step or building the recommendation prompt fails,
      and the first of those faults is the one raised. */
  lemma PipelineFailsIff(req: Request, validationId: string, timestamp: string,
                         env: Collaborators, files: set<string>)
    ensures var o := Pipeline(req, validationId, timestamp, env, files).outcome;
      var p := GetValidationProfile(env.profileLookup, req.validationProfile);
      var t := TechnicalStep(env.technicalMedia, req.requirements);
      var c := ContentValidation.ContentStep(env.contentMedia, env.contentPromptError, env.contentReply,
                                             env.decodeIssues);
      var g := if t.Success? && c.Success?
               then Recommendations.GenerateRecommendations(t.value.issues + c.value.issues,
                      env.recommendationPromptError, env.recommendationReply, env.decodeRecommendations)
               else Success([]);
      && (o.Failure? <==> p.Failure? || t.Failure? || c.Failure? || g.Failure?)
      && (o.Failure? ==> o.error == if p.Failure? then p.error else if t.Failure? then t.error
                                    else if c.Failure? then c.error else g.error)
  {
  }

  /** A profile the store lacks stops the validation before any check or
      download, and is recorded as "Validation failed: Validation profile
      '<id>' not found". */
  lemma MissingProfile(req: Request, validationId: string, timestamp: string,
                       env: Collaborators, files: set<string>)
    requires env.profileLookup == Success(None)
    ensures Pipeline(req, validationId, timestamp, env, files)
              == Run(Failure(ProfileNotFound(req.validationProfile)), [], files)
    ensures Concluded(InitialRecord(req, validationId, timestamp), Failure(ProfileNotFound(req.validationProfile))).error
              == Some("Validation failed: Validation profile '" + req.validationProfile + "' not found")
  {
    var id := req.validationProfile;
    assert "Validation failed: " + ("Validation profile '" + id + "' not found")
        == "Validation failed: Validation profile '" + id + "' not found";
  }

  /** The terminal record agrees with what `validate` returns or raises: on
      success it stores that very result under its status, on a fault it
      stores status "error" and the message "Validation failed: " followed
      by the fault's text. Either way it is well formed. */
  lemma StoredMatchesOutcome(req: Request, validationId: string, timestamp: string,
                             env: Collaborators, files: set<string>)
    ensures var o := Pipeline(req, validationId, timestamp, env, files).outcome;
      var rec := Concluded(InitialRecord(req, validationId, timestamp), o);
      && WellFormed(validationId, rec) && rec.request == req && rec.timestamp == timestamp
      && (o.Success? ==> rec.result == Some(o.value) && rec.status == o.value.status
                         && rec.status.Text() in {"passed", "failed"})
      && (o.Failure? ==> rec.result.None? && rec.status.Text() == "error"
                         && rec.error == Some("Validation failed: " + FaultText(o.error)))
  {
    PipelineResultShape(req, validationId, timestamp, env, files);
  }

  /** Effects that neither write the store nor post to the callback. */
  predicate StepEffects(e: seq<Effect>) {
    forall i :: 0 <= i < |e| ==> !e[i].Stored? && !e[i].CalledBack?
  }

  lemma StepEffectsAppend(a: seq<Effect>, b: seq<Effect>)
    requires StepEffects(a) && StepEffects(b)
    ensures StepEffects(a + b)
  {
    forall i | 0 <= i < |a + b| ensures !(a + b)[i].Stored? && !(a + b)[i].CalledBack? {
      if i >= |a| {
        assert (a + b)[i] == b[i - |a|];
      }
    }
  }

  /** The steps between the two record writes write nothing to the store
      and post nothing to the callback. */
  lemma PipelineStoresNothing(req: Request, validationId: string, timestamp: string,
                              env: Collaborators, files: set<string>)
    ensures StepEffects(Pipeline(req, validationId, timestamp, env, files).effects)
  {
    var t := TechnicalEffects(req.mediaUrl, env.technicalMedia, req.requirements);
    var c := ContentEffects(req.mediaUrl, env.contentMedia, env.contentPromptError, env.contentReply);
    assert StepEffects(t);
    assert StepEffects(c);
    StepEffectsAppend(t, c);
    var run := Pipeline(req, validationId, timestamp, env, files);
    if run.outcome.Success? {
      var r := run.outcome.value;
      SuccessEffects(req, validationId, timestamp, env, files);
      var asked := RecommendationEffects(r.technical.issues + r.content.issues);
      assert StepEffects(asked);
      StepEffectsAppend(t + c, asked);
    } else {
      FailureEffects(req, validationId, timestamp, env, files);
    }
  }

  /** A run that fails stops after the profile lookup, the technical step or
      the content step, with the effects of the steps it ran. */
  lemma FailureEffects(req: Request, validationId: string, timestamp: string,
                       env: Collaborators, files: set<string>)
    requires Pipeline(req, validationId, timestamp, env, files).outcome.Failure?
    ensures var e := Pipeline(req, validationId, timestamp, env, files).effects;
      var t := TechnicalEffects(req.mediaUrl, env.technicalMedia, req.requirements);
      e == [] || e == t
      || e == t + ContentEffects(req.mediaUrl, env.contentMedia, env.contentPromptError, env.contentReply)
  {
  }

  /** `validate`'s whole trace: `in_progress` is written first, the single
      terminal write comes after every step, and the callback, when there
      is one, is posted after the terminal write and is the last effect. */
  lemma OneTerminalWrite(req: Request, validationId: string, timestamp: string,
                         env: Collaborators, files: set<string>)
    ensures var run := Pipeline(req, validationId, timestamp, env, files);
      var w := [Stored(validationId, InProgress)] + run.effects
               + [Stored(validationId, TerminalStatus(run.outcome))] + CallbackEffects(req);
      var k := |w| - |CallbackEffects(req)| - 1;
      && 0 < k && w[0] == Stored(validationId, InProgress)
      && w[k] == Stored(validationId, TerminalStatus(run.outcome)) && w[k].status != InProgress
      && (forall i :: 0 < i < |w| && i != k ==> !w[i].Stored?)
      && (forall i :: 0 <= i < k ==> !w[i].CalledBack?)
      && (forall i :: k < i < |w| ==> w[i] == CalledBack(req.callbackUrl.value))
      && (HasCallback(req) <==> k < |w| - 1)
  {
    var run := Pipeline(req, validationId, timestamp, env, files);
    PipelineResultShape(req, validationId, timestamp, env, files);
    PipelineStoresNothing(req, validationId, timestamp, env, files);
    var cb := CallbackEffects(req);
    var w := [Stored(validationId, InProgress)] + run.effects
             + [Stored(validationId, TerminalStatus(run.outcome))] + cb;
    var k := |w| - |cb| - 1;
    assert k == |run.effects| + 1;
    forall i | 0 < i < k ensures !w[i].Stored? && !w[i].CalledBack? {
      assert w[i] == run.effects[i - 1];
    }
    forall i | k < i < |w| ensures w[i] == CalledBack(req.callbackUrl.value) {
      assert w[i] == cb[i - k - 1];
    }
  }

  /** At most one callback is attempted, exactly when a non-empty URL was
      given; it carries the result on success and the error message on a
      fault. */
  lemma CallbackOnce(req: Request, validationId: string, timestamp: string,
                     outcome: Result<ValidationResult, Fault>, delivered: bool)
    ensures var cs := CallbacksFor(req, validationId, timestamp, outcome, delivered);
      && |cs| == (if req.callbackUrl.Some? && req.callbackUrl.value != "" then 1 else 0)
      && (|cs| == 1 ==> cs[0].url == req.callbackUrl.value)
      && (|cs| == 1 && outcome.Success? ==> cs[0].payload == ResultPayload(outcome.value))
      && (|cs| == 1 && outcome.Failure? ==>
            cs[0].payload == ErrorPayload(req.sceneId, validationId, timestamp, Error,
                                          "Validation failed: " + FaultText(outcome.error)))
  {
  }

  /** Whether the callback gets through changes nothing else. */
  lemma CallbackFailureSwallowed(req: Request, validationId: string, timestamp: string,
                                 env: Collaborators, files: set<string>, delivered: bool)
    ensures Pipeline(req, validationId, timestamp, env, files)
              == Pipeline(req, validationId, timestamp, env.(callbackDelivered := delivered), files)
  {
  }

  /** A validation that returns leaves neither of its downloads on disk and
      removes nothing else. */
  lemma SuccessCleansUp(req: Request, validationId: string, timestamp: string,
                        env: Collaborators, files: set<string>)
    requires Pipeline(req, validationId, timestamp, env, files).outcome.Success?
    ensures env.technicalMedia.Extracted? && env.contentMedia.Extracted?
    ensures Pipeline(req, validationId, timestamp, env, files).files
              == files - {env.technicalMedia.localPath, env.contentMedia.localPath}
  {
  }

  /** A resolution requirement that does not parse raises after the media
      was downloaded and probed, and the download stays on disk. */
  lemma BadResolutionLeaksDownload(req: Request, validationId: string, timestamp: string,
                                   env: Collaborators, files: set<string>)
    requires GetValidationProfile(env.profileLookup, req.validationProfile).Success?
    requires env.technicalMedia.Extracted?
    requires req.requirements.resolution.Some?
    requires ParseResolution(req.requirements.resolution.value).Failure?
    ensures var run := Pipeline(req, validationId, timestamp, env, files);
      && run.outcome == Failure(BadResolution(ParseResolution(req.requirements.resolution.value).error))
      && env.technicalMedia.localPath in run.files
      && run.effects == [Downloaded(req.mediaUrl)]
  {
    TechnicalFailsIff(env.technicalMedia.value, req.requirements);
  }

  /** An exception while building the content prompt raises before the
      analyzer sees any frame, and the content download stays on disk. */
  lemma ContentPromptFailureLeaksDownload(req: Request, validationId: string, timestamp: string,
                                          env: Collaborators, files: set<string>)
    requires GetValidationProfile(env.profileLookup, req.validationProfile).Success?
    requires TechnicalStep(env.technicalMedia, req.requirements).Success?
    requires env.contentMedia.Extracted? && env.contentPromptError.Some?
    ensures var run := Pipeline(req, validationId, timestamp, env, files);
      && run.outcome == Failure(External(env.contentPromptError.value))
      && env.contentMedia.localPath in run.files
      && run.effects == TechnicalEffects(req.mediaUrl, env.technicalMedia, req.requirements)
                        + [Downloaded(req.mediaUrl)]
  {
  }

  /** A failing content-analyzer call raises after the frames were sent,
      and the content download stays on disk. */
  lemma AnalyzerFailureLeaksDownload(req: Request, validationId: string, timestamp: string,
                                     env: Collaborators, files: set<string>)
    requires GetValidationProfile(env.profileLookup, req.validationProfile).Success?
    requires TechnicalStep(env.technicalMedia, req.requirements).Success?
    requires env.contentMedia.Extracted? && env.contentPromptError.None? && env.contentReply.CallFailed?
    ensures var run := Pipeline(req, validationId, timestamp, env, files);
      && run.outcome == Failure(External(env.contentReply.error))
      && env.contentMedia.localPath in run.files
      && run.effects[|run.effects| - 1] == AnalyzedFrames(env.contentMedia.value)
  {
  }

  /** An exception while building the recommendation prompt for a
      non-empty issue list raises after both checks, without asking the
      analyzer; both downloads are already removed. */
  lemma RecommendationPromptFailure(req: Request, validationId: string, timestamp: string,
                                    env: Collaborators, files: set<string>)
    requires GetValidationProfile(env.profileLookup, req.validationProfile).Success?
    requires TechnicalStep(env.technicalMedia, req.requirements).Success?
    requires ContentValidation.ContentStep(env.contentMedia, env.contentPromptError, env.contentReply,
                                           env.decodeIssues).Success?
    requires |TechnicalStep(env.technicalMedia, req.requirements).value.issues|
             + |ContentValidation.ContentStep(env.contentMedia, env.contentPromptError, env.contentReply,
                                              env.decodeIssues).value.issues| > 0
    requires env.recommendationPromptError.Some?
    ensures var run := Pipeline(req, validationId, timestamp, env, files);
      && run.outcome == Failure(External(env.recommendationPromptError.value))
      && run.effects == TechnicalEffects(req.mediaUrl, env.technicalMedia, req.requirements)
                        + ContentEffects(req.mediaUrl, env.contentMedia, env.contentPromptError, env.contentReply)
      && run.files == files - {env.technicalMedia.localPath, env.contentMedia.localPath}
  {
  }

  /** The effects of a returning validation: the technical step's, the
      content step's, then the recommendation request if any. */
  lemma SuccessEffects(req: Request, validationId: string, timestamp: string,
                       env: Collaborators, files: set<string>)
    requires Pipeline(req, validationId, timestamp, env, files).outcome.Success?
    ensures var run := Pipeline(req, validationId, timestamp, env, files);
      var r := run.outcome.value;
      run.effects == TechnicalEffects(req.mediaUrl, env.technicalMedia, req.requirements)
                     + ContentEffects(req.mediaUrl, env.contentMedia, env.contentPromptError, env.contentReply)
                     + RecommendationEffects(r.technical.issues + r.content.issues)
  {
  }

  /** The analyzer is asked for recommendations, as the last effect, exactly
      when a returning validation found some issue. */
  lemma RecommendationsAskedIff(req: Request, validationId: string, timestamp: string,
                                env: Collaborators, files: set<string>)
    requires Pipeline(req, validationId, timestamp, env, files).outcome.Success?
    ensures var run := Pipeline(req, validationId, timestamp, env, files);
      var r := run.outcome.value;
      && ((exists i :: 0 <= i < |run.effects| && run.effects[i].AskedRecommendations?)
            <==> |r.technical.issues| + |r.content.issues| > 0)
      && (|r.technical.issues| + |r.content.issues| > 0 ==>
            run.effects[|run.effects| - 1] == AskedRecommendations(r.technical.issues + r.content.issues))
  {
    var run := Pipeline(req, validationId, timestamp, env, files);
    var r := run.outcome.value;
    SuccessEffects(req, validationId, timestamp, env, files);
    StepsAskNothing(req.mediaUrl, env.technicalMedia, req.requirements, env.contentMedia,
                    env.contentPromptError, env.contentReply);
    AskedLast(TechnicalEffects(req.mediaUrl, env.technicalMedia, req.requirements)
                + ContentEffects(req.mediaUrl, env.contentMedia, env.contentPromptError, env.contentReply),
              r.technical.issues + r.content.issues);
  }

  lemma StepsAskNothing(url: string, tm: MediaFetch<TechnicalMetadata>, req: Requirements,
                        cm: MediaFetch<seq<Frame>>, promptError: Option<string>, reply: Reply)
    ensures var before := TechnicalEffects(url, tm, req) + ContentEffects(url, cm, promptError, reply);
      forall i :: 0 <= i < |before| ==> !before[i].AskedRecommendations?
  {
    var t, c := TechnicalEffects(url, tm, req), ContentEffects(url, cm, promptError, reply);
    assert forall i :: 0 <= i < |t| ==> !t[i].AskedRecommendations?;
    assert forall i :: 0 <= i < |c| ==> !c[i].AskedRecommendations?;
    forall i | 0 <= i < |t + c| ensures !(t + c)[i].AskedRecommendations? {
      if i < |t| {
        assert (t + c)[i] == t[i];
      } else {
        assert (t + c)[i] == c[i - |t|];
      }
    }
  }

  /** Effects that ask nothing, followed by the recommendation request. */
  lemma AskedLast(before: seq<Effect>, issues: seq<Issue>)
    requires forall i :: 0 <= i < |before| ==> !before[i].AskedRecommendations?
    ensures var e := before + RecommendationEffects(issues);
      && ((exists i :: 0 <= i < |e| && e[i].AskedRecommendations?) <==> |issues| > 0)
      && (|issues| > 0 ==> e[|e| - 1] == AskedRecommendations(issues))
  {
    var e := before + RecommendationEffects(issues);
    if |issues| == 0 {
      assert e == before;
    } else {
      assert e[|before|].AskedRecommendations?;
    }
  }
}
