/** The technical spec checker: compares the metadata probed from the media
    with the caller's technical requirements (scene_validator/validator.py,
    `_validate_technical_specs`, the comparison part). */
module TechnicalSpecs {
  import opened Wrappers
  import opened PyText
  import opened Domain

  /** What the media source reports about a file. */
  datatype TechnicalMetadata = TechnicalMetadata(
    width: int, height: int, duration: real, size: int, framerate: Number,
    codec: string, audioChannels: int, audioSampleRate: int, audioCodec: string)

  /** The recognised keys of `technical_requirements`; `None` for a key the
      caller left out, which expresses no constraint. */
  datatype Requirements = Requirements(
    resolution: Option<string>, framerate: Option<Number>,
    audioChannels: Option<int>, audioSampleRate: Option<int>)

  /** Absolute framerate difference that is still accepted. */
  const FramerateTolerance: real := 0.01

  /** The recognised requirement keys, in the order they are checked. */
  datatype Key = ResolutionKey | FramerateKey | AudioChannelsKey | AudioSampleRateKey {
    function Name(): string {
      match this
      case ResolutionKey => "resolution"
      case FramerateKey => "framerate"
      case AudioChannelsKey => "audio_channels"
      case AudioSampleRateKey => "audio_sample_rate"
    }

    function Rank(): nat {
      match this
      case ResolutionKey => 0
      case FramerateKey => 1
      case AudioChannelsKey => 2
      case AudioSampleRateKey => 3
    }

    function Severity(): string {
      match this
      case ResolutionKey => High
      case FramerateKey => High
      case AudioChannelsKey => Medium
      case AudioSampleRateKey => Medium
    }
  }

  const Keys: seq<Key> := [ResolutionKey, FramerateKey, AudioChannelsKey, AudioSampleRateKey]

  /** The position in `Keys` of the key an issue is about (4 for none). */
  function RankOf(issue: Issue): nat {
    match issue.location
    case Property("resolution") => 0
    case Property("framerate") => 1
    case Property("audio_channels") => 2
    case Property("audio_sample_rate") => 3
    case _ => 4
  }

  // ---------------------------------------------------------------------
  // Parsing the "WxH" requirement

  /** `req_width, req_height = map(int, text.split('x'))`, in CPython's
      evaluation order: the pieces are converted lazily while unpacking, so
      a bad piece is reported before a wrong piece count, and a third piece
      is converted before "too many values" is raised. */
  function ParseResolution(text: string): Result<(int, int), ResolutionError> {
    var parts := Split(text, "x");
    var w := ParseInt(parts[0]);
    if w.None? then Failure(InvalidLiteral(parts[0]))
    else if |parts| == 1 then Failure(NotEnoughValues(1))
    else
      var h := ParseInt(parts[1]);
      if h.None? then Failure(InvalidLiteral(parts[1]))
      else if |parts| == 2 then Success((w.value, h.value))
      else if ParseInt(parts[2]).None? then Failure(InvalidLiteral(parts[2]))
      else Failure(TooManyValues)
  }

  /** A resolution requirement parses exactly when it splits on "x" into two
      pieces that `int()` accepts, and then it yields those two integers. */
  lemma ResolutionParsesIff(text: string, w: int, h: int)
    ensures ParseResolution(text) == Success((w, h)) <==>
              var parts := Split(text, "x");
              |parts| == 2 && ParseInt(parts[0]) == Some(w) && ParseInt(parts[1]) == Some(h)
  {
    var parts := Split(text, "x");
    var pw := ParseInt(parts[0]);
    if pw.None? || |parts| == 1 {
      assert ParseResolution(text).Failure?;
    } else {
      var ph := ParseInt(parts[1]);
      if ph.None? || |parts| > 2 {
        assert ParseResolution(text).Failure?;
      } else {
        assert ParseResolution(text) == Success((pw.value, ph.value));
      }
    }
  }

  /** A resolution written as `f"{w}x{h}"` parses back to `(w, h)`. */
  lemma ResolutionRoundTrip(w: int, h: int)
    ensures ParseResolution(IntToDecimal(w) + "x" + IntToDecimal(h)) == Success((w, h))
  {
    var a, b := IntToDecimal(w), IntToDecimal(h);
    DecimalSplitsOnX(a, b);
    ParseIntToDecimal(w);
    ParseIntToDecimal(h);
  }

  /** Two decimal renderings joined by "x" split back into the two of them. */
  lemma DecimalSplitsOnX(a: string, b: string)
    requires forall i :: 0 <= i < |a| ==> a[i] != 'x'
    requires forall i :: 0 <= i < |b| ==> b[i] != 'x'
    ensures Split(a + "x" + b, "x") == [a, b]
  {
    forall j | 0 <= j < |a| ensures !At(a + "x" + b, "x", j) {
      CharAt(a + "x" + b, 'x', j);
      assert (a + "x" + b)[j] == a[j];
    }
    SplitAtFirst(a, "x", b);
    SplitWithoutChar(b, 'x');
  }

  // ---------------------------------------------------------------------
  // The issues

  function Abs(x: real): real {
    if x < 0.0 then -x else x
  }

  function ResolutionIssue(md: TechnicalMetadata, required: string): Issue {
    Issue("resolution_mismatch",
          "Resolution " + IntToDecimal(md.width) + "x" + IntToDecimal(md.height)
            + " does not match required " + required,
          High, Property("resolution"))
  }

  function FramerateIssue(md: TechnicalMetadata, required: Number): Issue {
    Issue("framerate_mismatch",
          "Framerate " + md.framerate.text + " does not match required " + required.text,
          High, Property("framerate"))
  }

  function AudioChannelsIssue(md: TechnicalMetadata, required: int): Issue {
    Issue("audio_channels_mismatch",
          "Audio channels " + IntToDecimal(md.audioChannels) + " does not match required "
            + IntToDecimal(required),
          Medium, Property("audio_channels"))
  }

  function AudioSampleRateIssue(md: TechnicalMetadata, required: int): Issue {
    Issue("audio_sample_rate_mismatch",
          "Audio sample rate " + IntToDecimal(md.audioSampleRate) + " does not match required "
            + IntToDecimal(required),
          Medium, Property("audio_sample_rate"))
  }

  /** The comparison: one conditional append per recognised key, in the
      order resolution, framerate, audio channels, audio sample rate. An
      unparsable resolution raises before anything else is compared. */
  function CheckTechnicalSpecs(md: TechnicalMetadata, req: Requirements): (r: Result<Check, Fault>)
    ensures r.Success? ==> (r.value.passes <==> |r.value.issues| == 0)
  {
    var resolution: Result<seq<Issue>, Fault> :=
      match req.resolution
      case None => Success([])
      case Some(text) =>
        match ParseResolution(text)
        case Failure(e) => Failure(BadResolution(e))
        case Success((w, h)) =>
          Success(if md.width != w || md.height != h then [ResolutionIssue(md, text)] else []);
    match resolution
    case Failure(f) => Failure(f)
    case Success(issues) =>
      var issues := issues +
        (if req.framerate.Some? && Abs(md.framerate.value - req.framerate.value.value) > FramerateTolerance
         then [FramerateIssue(md, req.framerate.value)] else []);
      var issues := issues +
        (if req.audioChannels.Some? && md.audioChannels != req.audioChannels.value
         then [AudioChannelsIssue(md, req.audioChannels.value)] else []);
      var issues := issues +
        (if req.audioSampleRate.Some? && md.audioSampleRate != req.audioSampleRate.value
         then [AudioSampleRateIssue(md, req.audioSampleRate.value)] else []);
      Success(CheckOf(issues))
  }

  // ---------------------------------------------------------------------
  // The reference: which keys are violated

  /** The requirement under `key` is present and the metadata breaks it.
      The framerate tolerance is strict: a difference of exactly 0.01 passes. */
  predicate Violated(md: TechnicalMetadata, req: Requirements, key: Key) {
    match key
    case ResolutionKey =>
      && req.resolution.Some?
      && var p := ParseResolution(req.resolution.value);
      && p.Success? && (md.width != p.value.0 || md.height != p.value.1)
    case FramerateKey =>
      req.framerate.Some? && Abs(md.framerate.value - req.framerate.value.value) > FramerateTolerance
    case AudioChannelsKey =>
      req.audioChannels.Some? && md.audioChannels != req.audioChannels.value
    case AudioSampleRateKey =>
      req.audioSampleRate.Some? && md.audioSampleRate != req.audioSampleRate.value
  }

  /** The issue reported for a violated key. */
  function IssueFor(md: TechnicalMetadata, req: Requirements, key: Key): (issue: Issue)
    requires Violated(md, req, key)
    ensures issue.location == Property(key.Name()) && issue.severity == key.Severity()
    ensures RankOf(issue) == key.Rank()
  {
    match key
    case ResolutionKey => ResolutionIssue(md, req.resolution.value)
    case FramerateKey => FramerateIssue(md, req.framerate.value)
    case AudioChannelsKey => AudioChannelsIssue(md, req.audioChannels.value)
    case AudioSampleRateKey => AudioSampleRateIssue(md, req.audioSampleRate.value)
  }

  /** The issue of `key` if it is violated, else nothing. */
  function Piece(md: TechnicalMetadata, req: Requirements, key: Key): seq<Issue> {
    if Violated(md, req, key) then [IssueFor(md, req, key)] else []
  }

  /** One issue for each violated key of `keys`, in the order of `keys`. */
  function ViolationsIn(md: TechnicalMetadata, req: Requirements, keys: seq<Key>): seq<Issue> {
    if keys == [] then [] else Piece(md, req, keys[0]) + ViolationsIn(md, req, keys[1..])
  }

  predicate RanksIncrease(keys: seq<Key>) {
    forall i, j :: 0 <= i < j < |keys| ==> keys[i].Rank() < keys[j].Rank()
  }

  /** `issue` is the issue of some violated key among `keys`. */
  predicate IssueOfViolatedKey(md: TechnicalMetadata, req: Requirements, keys: seq<Key>, issue: Issue) {
    exists k :: k in keys && Violated(md, req, k) && issue == IssueFor(md, req, k)
  }

  /** Every issue found over `keys` is the issue of a violated key among them. */
  lemma {:induction false} ViolationsInFrom(md: TechnicalMetadata, req: Requirements, keys: seq<Key>)
    ensures forall i :: 0 <= i < |ViolationsIn(md, req, keys)| ==>
              IssueOfViolatedKey(md, req, keys, ViolationsIn(md, req, keys)[i])
  {
    if keys != [] {
      ViolationsInFrom(md, req, keys[1..]);
      var head, tail := Piece(md, req, keys[0]), ViolationsIn(md, req, keys[1..]);
      forall i | 0 <= i < |head + tail| ensures IssueOfViolatedKey(md, req, keys, (head + tail)[i]) {
        if i < |head| {
          assert (head + tail)[i] == IssueFor(md, req, keys[0]);
        } else {
          assert (head + tail)[i] == tail[i - |head|];
          var k :| k in keys[1..] && Violated(md, req, k) && tail[i - |head|] == IssueFor(md, req, k);
          assert k in keys;
        }
      }
    }
  }

  /** Keys all ranked above `r` give issues all ranked above `r`. */
  lemma {:induction false} ViolationsInAbove(md: TechnicalMetadata, req: Requirements, keys: seq<Key>, r: int)
    requires forall k :: k in keys ==> r < k.Rank()
    ensures forall i :: 0 <= i < |ViolationsIn(md, req, keys)| ==> r < RankOf(ViolationsIn(md, req, keys)[i])
  {
    if keys != [] {
      ViolationsInAbove(md, req, keys[1..], r);
      assert keys[0] in keys;
      var head, tail := Piece(md, req, keys[0]), ViolationsIn(md, req, keys[1..]);
      forall i | 0 <= i < |head + tail| ensures r < RankOf((head + tail)[i]) {
        if i >= |head| {
          assert (head + tail)[i] == tail[i - |head|];
        }
      }
    }
  }

  /** Over keys of increasing rank the issues come in increasing rank, so
      there is at most one per key. */
  lemma {:induction false} ViolationsInRanks(md: TechnicalMetadata, req: Requirements, keys: seq<Key>)
    requires RanksIncrease(keys)
    ensures forall i, j :: 0 <= i < j < |ViolationsIn(md, req, keys)| ==>
              RankOf(ViolationsIn(md, req, keys)[i]) < RankOf(ViolationsIn(md, req, keys)[j])
  {
    if keys != [] {
      var rest := keys[1..];
      assert RanksIncrease(rest) by {
        forall i, j | 0 <= i < j < |rest| ensures rest[i].Rank() < rest[j].Rank() {
          assert rest[i] == keys[i + 1] && rest[j] == keys[j + 1];
        }
      }
      forall k | k in rest ensures keys[0].Rank() < k.Rank() {
        var m :| 0 <= m < |rest| && rest[m] == k;
        assert keys[m + 1] == k;
      }
      ViolationsInRanks(md, req, rest);
      ViolationsInAbove(md, req, rest, keys[0].Rank());
      var head, tail := Piece(md, req, keys[0]), ViolationsIn(md, req, rest);
      var issues := head + tail;
      forall i, j | 0 <= i < j < |issues| ensures RankOf(issues[i]) < RankOf(issues[j]) {
        assert issues[j] == tail[j - |head|];
        if i >= |head| {
          assert issues[i] == tail[i - |head|];
        }
      }
    }
  }

  /** A violated key among `keys` has its issue in the result. */
  lemma {:induction false} ViolationsInHas(md: TechnicalMetadata, req: Requirements, keys: seq<Key>, k: Key)
    requires k in keys && Violated(md, req, k)
    ensures IssueFor(md, req, k) in ViolationsIn(md, req, keys)
  {
    if keys[0] != k {
      ViolationsInHas(md, req, keys[1..], k);
    }
  }

  /** The checker fails exactly when a resolution requirement is present and
      does not parse, and then it is that parse error that escapes. */
  lemma TechnicalFailsIff(md: TechnicalMetadata, req: Requirements)
    ensures CheckTechnicalSpecs(md, req).Failure? <==>
              req.resolution.Some? && ParseResolution(req.resolution.value).Failure?
    ensures CheckTechnicalSpecs(md, req).Failure? ==>
              CheckTechnicalSpecs(md, req).error == BadResolution(ParseResolution(req.resolution.value).error)
  {
  }

  lemma TechnicalIssuesArePieces(md: TechnicalMetadata, req: Requirements)
    requires CheckTechnicalSpecs(md, req).Success?
    ensures CheckTechnicalSpecs(md, req).value.issues ==
              Piece(md, req, ResolutionKey) + Piece(md, req, FramerateKey)
              + Piece(md, req, AudioChannelsKey) + Piece(md, req, AudioSampleRateKey)
  {
    if req.resolution.Some? {
      var p := ParseResolution(req.resolution.value);
      assert p.Success?;
    }
  }

  /** When the checker returns, its issues are exactly one per violated key,
      in the fixed key order resolution, framerate, audio_channels,
      audio_sample_rate; keys absent from the requirements give nothing. */
  lemma TechnicalIssuesAreViolations(md: TechnicalMetadata, req: Requirements)
    requires CheckTechnicalSpecs(md, req).Success?
    ensures CheckTechnicalSpecs(md, req).value.issues == ViolationsIn(md, req, Keys)
  {
    TechnicalIssuesArePieces(md, req);
    KeysPieces(md, req);
  }

  lemma KeysPieces(md: TechnicalMetadata, req: Requirements)
    ensures ViolationsIn(md, req, Keys) ==
              Piece(md, req, ResolutionKey) + Piece(md, req, FramerateKey)
              + Piece(md, req, AudioChannelsKey) + Piece(md, req, AudioSampleRateKey)
  {
    var k1, k2, k3 := Keys[1..], Keys[2..], Keys[3..];
    assert k1[1..] == k2 && k2[1..] == k3 && k3[1..] == [];
    assert ViolationsIn(md, req, k3) == Piece(md, req, AudioSampleRateKey);
    assert ViolationsIn(md, req, k2) == Piece(md, req, AudioChannelsKey) + ViolationsIn(md, req, k3);
    assert ViolationsIn(md, req, k1) == Piece(md, req, FramerateKey) + ViolationsIn(md, req, k2);
  }

  /** The issues come in key order, at most one per key, each the issue of a
      violated key (and so carrying that key's severity). */
  lemma TechnicalIssuesOrdered(md: TechnicalMetadata, req: Requirements)
    requires CheckTechnicalSpecs(md, req).Success?
    ensures var c := CheckTechnicalSpecs(md, req).value;
      && (forall i, j :: 0 <= i < j < |c.issues| ==> RankOf(c.issues[i]) < RankOf(c.issues[j]))
      && (forall i :: 0 <= i < |c.issues| ==> IssueOfViolatedKey(md, req, Keys, c.issues[i]))
  {
    TechnicalIssuesAreViolations(md, req);
    assert RanksIncrease(Keys);
    ViolationsInRanks(md, req, Keys);
    ViolationsInFrom(md, req, Keys);
  }

  lemma NameInjective(k1: Key, k2: Key)
    requires k1.Name() == k2.Name()
    ensures k1 == k2
  {
    assert |k1.Name()| == |k2.Name()|;
  }

  /** Over all keys, a key has an issue exactly when it is violated. */
  lemma KeysIssueIff(md: TechnicalMetadata, req: Requirements, k: Key)
    ensures var issues := ViolationsIn(md, req, Keys);
      Violated(md, req, k) <==> exists i :: 0 <= i < |issues| && issues[i].location == Property(k.Name())
  {
    var issues := ViolationsIn(md, req, Keys);
    if Violated(md, req, k) {
      ViolatedHasIssue(md, req, k);
    }
    if exists i :: 0 <= i < |issues| && issues[i].location == Property(k.Name()) {
      var i :| 0 <= i < |issues| && issues[i].location == Property(k.Name());
      IssueHasViolation(md, req, k, i);
    }
  }

  lemma ViolatedHasIssue(md: TechnicalMetadata, req: Requirements, k: Key)
    requires Violated(md, req, k)
    ensures var issues := ViolationsIn(md, req, Keys);
      exists i :: 0 <= i < |issues| && issues[i].location == Property(k.Name())
  {
    var issues := ViolationsIn(md, req, Keys);
    assert k in Keys;
    ViolationsInHas(md, req, Keys, k);
    var i :| 0 <= i < |issues| && issues[i] == IssueFor(md, req, k);
    assert issues[i].location == Property(k.Name());
  }

  lemma IssueHasViolation(md: TechnicalMetadata, req: Requirements, k: Key, i: int)
    requires var issues := ViolationsIn(md, req, Keys);
      0 <= i < |issues| && issues[i].location == Property(k.Name())
    ensures Violated(md, req, k)
  {
    var issues := ViolationsIn(md, req, Keys);
    ViolationsInFrom(md, req, Keys);
    assert IssueOfViolatedKey(md, req, Keys, issues[i]);
    var k' :| k' in Keys && Violated(md, req, k') && issues[i] == IssueFor(md, req, k');
    NameInjective(k, k');
  }

  /** Over all keys, there are no issues exactly when no key is violated. */
  lemma KeysEmptyIff(md: TechnicalMetadata, req: Requirements)
    ensures |ViolationsIn(md, req, Keys)| == 0 <==> forall k: Key :: !Violated(md, req, k)
  {
    var issues := ViolationsIn(md, req, Keys);
    if exists k: Key :: Violated(md, req, k) {
      var k: Key :| Violated(md, req, k);
      assert k in Keys;
      ViolationsInHas(md, req, Keys, k);
    }
    if |issues| > 0 {
      ViolationsInFrom(md, req, Keys);
      assert IssueOfViolatedKey(md, req, Keys, issues[0]);
    }
  }

  /** An issue about a key is reported exactly when the requirement under
      that key is present and violated; the check passes exactly when no key
      is violated. */
  lemma TechnicalIssueIffViolated(md: TechnicalMetadata, req: Requirements, k: Key)
    requires CheckTechnicalSpecs(md, req).Success?
    ensures var c := CheckTechnicalSpecs(md, req).value;
      && (Violated(md, req, k) <==>
            exists i :: 0 <= i < |c.issues| && c.issues[i].location == Property(k.Name()))
      && (c.passes <==> forall k': Key :: !Violated(md, req, k'))
  {
    TechnicalIssuesAreViolations(md, req);
    KeysIssueIff(md, req, k);
    KeysEmptyIff(md, req);
  }

  /** The framerate tolerance is strict: a requirement exactly 0.01 away from
      the probed framerate passes, one 0.011 away is flagged. */
  lemma FramerateBoundary(md: TechnicalMetadata, t: string)
    ensures CheckTechnicalSpecs(md, Requirements(None, Some(Number(md.framerate.value + 0.01, t)), None, None))
              == Success(Check(true, []))
    ensures CheckTechnicalSpecs(md, Requirements(None, Some(Number(md.framerate.value - 0.011, t)), None, None))
              == Success(Check(false, [FramerateIssue(md, Number(md.framerate.value - 0.011, t))]))
  {
    var required := Number(md.framerate.value - 0.011, t);
    assert Abs(md.framerate.value - required.value) == 0.011;
    assert [] + [FramerateIssue(md, required)] + [] + [] == [FramerateIssue(md, required)];
  }
}
