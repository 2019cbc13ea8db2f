/** `_generate_summary` (scene_validator/validator.py:342-372): one
    human-readable sentence about the issue counts, then the types of the
    first few high-severity issues. */
module Summary {
  import opened PyText
  import opened Domain

  const PassedSentence := "Validation passed successfully. No issues found."
  const NoCriticalSentence := "No critical issues found."
  const CriticalPrefix := "Critical issues include: "
  /** How many critical issue types the summary names. */
  const CriticalShown: nat := 3

  /** The high-severity issues, in their original order. */
  function HighSeverity(issues: seq<Issue>): seq<Issue> {
    if issues == [] then []
    else (if issues[0].severity == High then [issues[0]] else []) + HighSeverity(issues[1..])
  }

  /** The `type` of each issue. */
  function Kinds(issues: seq<Issue>): seq<string> {
    seq(|issues|, i requires 0 <= i < |issues| => issues[i].kind)
  }

  function Min(a: nat, b: nat): nat {
    if a < b then a else b
  }

  /** The opening sentence: total, technical and content counts. */
  function CountsSentence(technical: nat, content: nat): string {
    "Validation found " + IntToDecimal(technical + content) + " issues ("
      + IntToDecimal(technical) + " technical, " + IntToDecimal(content) + " content). "
  }

  /** The sentence about the high-severity issues `high`. */
  function CriticalClause(high: seq<Issue>): string {
    if |high| == 0 then NoCriticalSentence
    else
      CriticalPrefix + Join(", ", Kinds(high[..Min(CriticalShown, |high|)]))
        + (if |high| > CriticalShown then " and " + IntToDecimal(|high| - CriticalShown) + " more." else ".")
  }

  /** The summary of a validation's two checks. The recommendations are
      handed over but not used. */
  function GenerateSummary(technical: Check, content: Check, recommendations: seq<Recommendation>): string {
    var total := |technical.issues| + |content.issues|;
    if total == 0 then PassedSentence
    else CountsSentence(|technical.issues|, |content.issues|)
           + CriticalClause(HighSeverity(technical.issues + content.issues))
  }

  // ---------------------------------------------------------------------
  // Reference definitions, by a single walk over the issues

  /** The number of high-severity issues. */
  function CountHigh(issues: seq<Issue>): nat {
    if issues == [] then 0 else (if issues[0].severity == High then 1 else 0) + CountHigh(issues[1..])
  }

  /** The types of the first `k` high-severity issues, met left to right. */
  function FirstHighKinds(issues: seq<Issue>, k: nat): seq<string> {
    if issues == [] || k == 0 then []
    else if issues[0].severity == High then [issues[0].kind] + FirstHighKinds(issues[1..], k - 1)
    else FirstHighKinds(issues[1..], k)
  }

  lemma {:induction false} FirstHighKindsLength(issues: seq<Issue>, k: nat)
    ensures |FirstHighKinds(issues, k)| == Min(k, CountHigh(issues))
  {
    if issues != [] && k != 0 {
      FirstHighKindsLength(issues[1..], if issues[0].severity == High then k - 1 else k);
    }
  }

  // ---------------------------------------------------------------------
  // The filter against the reference

  lemma {:induction false} HighSeverityCount(issues: seq<Issue>)
    ensures |HighSeverity(issues)| == CountHigh(issues)
  {
    if issues != [] {
      HighSeverityCount(issues[1..]);
    }
  }

  /** An issue is kept exactly when it is one of the issues and is high. */
  lemma {:induction false} HighSeverityMembers(issues: seq<Issue>, x: Issue)
    ensures x in HighSeverity(issues) <==> x in issues && x.severity == High
  {
    if issues != [] {
      HighSeverityMembers(issues[1..], x);
      assert issues == [issues[0]] + issues[1..];
    }
  }

  /** Filtering technical-then-content issues keeps technical ones first. */
  lemma {:induction false} HighSeverityAppend(a: seq<Issue>, b: seq<Issue>)
    ensures HighSeverity(a + b) == HighSeverity(a) + HighSeverity(b)
  {
    if a != [] {
      assert (a + b)[1..] == a[1..] + b;
      HighSeverityAppend(a[1..], b);
    } else {
      assert a + b == b;
    }
  }

  lemma {:induction false} KindsAppend(a: seq<Issue>, b: seq<Issue>)
    ensures Kinds(a + b) == Kinds(a) + Kinds(b)
  {
    assert |Kinds(a + b)| == |Kinds(a) + Kinds(b)|;
    forall i | 0 <= i < |a + b| ensures Kinds(a + b)[i] == (Kinds(a) + Kinds(b))[i] {
      if i >= |a| {
        assert (a + b)[i] == b[i - |a|];
      }
    }
  }

  /** The types named are those of the first `k` high issues. */
  lemma {:induction false} HighSeverityKinds(issues: seq<Issue>, k: nat)
    ensures Kinds(HighSeverity(issues)[..Min(k, |HighSeverity(issues)|)]) == FirstHighKinds(issues, k)
  {
    if issues == [] {
    } else if k == 0 {
    } else {
      var rest := HighSeverity(issues[1..]);
      HighSeverityKinds(issues[1..], if issues[0].severity == High then k - 1 else k);
      if issues[0].severity == High {
        var h := HighSeverity(issues);
        assert h == [issues[0]] + rest;
        assert h[..Min(k, |h|)] == [issues[0]] + rest[..Min(k - 1, |rest|)];
        KindsAppend([issues[0]], rest[..Min(k - 1, |rest|)]);
      } else {
        assert HighSeverity(issues) == rest;
      }
    }
  }

  // ---------------------------------------------------------------------
  // What the summary says

  /** The summary is the fixed "passed" sentence exactly when neither check
      found an issue. */
  lemma SummaryPassedIff(technical: Check, content: Check, recommendations: seq<Recommendation>)
    ensures (GenerateSummary(technical, content, recommendations) == PassedSentence)
              == (|technical.issues| + |content.issues| == 0)
  {
    if |technical.issues| + |content.issues| > 0 {
      var s := GenerateSummary(technical, content, recommendations);
      assert s[11] == 'f';
      assert PassedSentence[11] == 'p';
    }
  }

  /** With issues, the summary states the total, technical and content
      counts, then either that nothing is critical, or the types of the
      first three high-severity issues (technical before content) followed
      by how many more there are. */
  lemma SummaryStates(technical: Check, content: Check, recommendations: seq<Recommendation>)
    requires |technical.issues| + |content.issues| > 0
    ensures var all := technical.issues + content.issues;
      GenerateSummary(technical, content, recommendations)
        == CountsSentence(|technical.issues|, |content.issues|)
           + (if CountHigh(all) == 0 then "No critical issues found."
              else "Critical issues include: " + Join(", ", FirstHighKinds(all, 3))
                   + (if CountHigh(all) > 3 then " and " + IntToDecimal(CountHigh(all) - 3) + " more." else "."))
  {
    var all := technical.issues + content.issues;
    HighSeverityCount(all);
    HighSeverityKinds(all, CriticalShown);
  }

  /** Technical high-severity issues are named before content ones: with
      three or more of them, only technical types are named. */
  lemma SummaryTechnicalFirst(technical: Check, content: Check)
    requires CountHigh(technical.issues) >= 3
    ensures FirstHighKinds(technical.issues + content.issues, 3) == FirstHighKinds(technical.issues, 3)
  {
    var all := technical.issues + content.issues;
    HighSeverityAppend(technical.issues, content.issues);
    HighSeverityCount(technical.issues);
    HighSeverityKinds(all, 3);
    HighSeverityKinds(technical.issues, 3);
    var ht := HighSeverity(technical.issues);
    assert HighSeverity(all)[..3] == ht[..3];
  }

  /** Four high-severity issues, three technical and one content: the
      first three types are named, then "and 1 more.". */
  lemma FourCriticalIssues(a: Issue, b: Issue, c: Issue, d: Issue)
    requires a.severity == High && b.severity == High && c.severity == High && d.severity == High
    ensures GenerateSummary(Check(false, [a, b, c]), Check(false, [d]), [])
              == CountsSentence(3, 1)
                 + ("Critical issues include: " + (a.kind + ", " + b.kind + ", " + c.kind) + " and 1 more.")
  {
    var t, u := Check(false, [a, b, c]), Check(false, [d]);
    assert t.issues + u.issues == [a, b, c] + [d];
    AllHigh(a, b, c, d);
    FourCriticalClause(a, b, c, d);
  }

  lemma FourCriticalClause(a: Issue, b: Issue, c: Issue, d: Issue)
    ensures CriticalClause([a, b, c, d])
              == "Critical issues include: " + (a.kind + ", " + b.kind + ", " + c.kind) + " and 1 more."
  {
    var high := [a, b, c, d];
    assert Min(CriticalShown, |high|) == 3;
    assert high[..3] == [a, b, c];
    ThreeKinds(a, b, c);
    OneMore();
  }

  lemma OneMore()
    ensures " and " + IntToDecimal(1) + " more." == " and 1 more."
  {
    assert IntToDecimal(1) == "1";
  }

  lemma AllHigh(a: Issue, b: Issue, c: Issue, d: Issue)
    requires a.severity == High && b.severity == High && c.severity == High && d.severity == High
    ensures HighSeverity([a, b, c] + [d]) == [a, b, c, d]
  {
    assert [d][1..] == [];
    assert HighSeverity([d]) == [d];
    assert [c, d][1..] == [d];
    assert HighSeverity([c, d]) == [c, d];
    assert [b, c, d][1..] == [c, d];
    assert HighSeverity([b, c, d]) == [b, c, d];
    assert [a, b, c] + [d] == [a, b, c, d] && [a, b, c, d][1..] == [b, c, d];
  }

  lemma ThreeKinds(a: Issue, b: Issue, c: Issue)
    ensures Join(", ", Kinds([a, b, c])) == a.kind + ", " + b.kind + ", " + c.kind
  {
    assert Kinds([a, b, c]) == [a.kind, b.kind, c.kind];
    assert [a.kind, b.kind, c.kind][1..] == [b.kind, c.kind];
    assert [b.kind, c.kind][1..] == [c.kind];
  }
}
