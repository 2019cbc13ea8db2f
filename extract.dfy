/** Pulling the JSON text out of a free-form content-analyzer reply, as both
    `_validate_content` and `_generate_recommendations` do: a "```json" fence
    is looked for first, then a bare "```" fence, else the whole reply is
    used; the result is stripped of surrounding whitespace. */
module ResponseParsing {
  import opened PyText

  const Fence := "```"
  const JsonFence := "```json"

  /** `s.strip()` of a string without `sub` has no `sub` either. */
  lemma StripKeepsAbsence(s: string, sub: string)
    requires !Contains(s, sub)
    ensures !Contains(Strip(s), sub)
  {
    var lo := |s| - |StripStart(s)|;
    NotContainsSlice(s, sub, lo, lo + |Strip(s)|);
  }

  /** `text.split(open)[1].split('```')[0].strip()`, for a text that holds
      `open`. */
  function FencedBody(text: string, open: string): (r: string)
    requires |open| > 0 && Contains(text, open)
    ensures !Contains(r, Fence)
  {
    SplitSingleIff(text, open);
    var piece := Split(Split(text, open)[1], Fence)[0];
    SplitHeadClean(Split(text, open)[1], Fence);
    StripKeepsAbsence(piece, Fence);
    Strip(piece)
  }

  /** The JSON text taken from a reply. Whichever branch is taken, the
      result holds no fence and neither starts nor ends with whitespace. */
  function ExtractJson(text: string): (r: string)
    ensures !Contains(r, Fence)
    ensures r == [] || (!IsSpace(r[0]) && !IsSpace(r[|r| - 1]))
  {
    if Contains(text, JsonFence) then FencedBody(text, JsonFence)
    else if Contains(text, Fence) then FencedBody(text, Fence)
    else
      StripKeepsAbsence(text, Fence);
      Strip(text)
  }

  // ---------------------------------------------------------------------
  // What the result is

  /** The first piece of a split is a prefix of the text that ends at the
      end of the text or where a separator starts. */
  lemma SplitHead(s: string, sep: string)
    requires |sep| > 0
    ensures var p := Split(s, sep)[0];
      |p| <= |s| && p == s[..|p|] && (|p| == |s| || At(s, sep, |p|))
  {
  }

  /** A separator that starts with "```" starts a "```" too. */
  lemma FenceAtOpening(s: string, open: string, j: int)
    requires |open| >= 3 && open[..3] == Fence && At(s, open, j)
    ensures At(s, Fence, j)
  {
    assert s[j..j + 3] == s[j..j + |open|][..3];
  }

  /** The text that follows the first occurrence of `open`. */
  function AfterFirst(text: string, open: string): string
    requires |open| > 0 && Contains(text, open)
  {
    text[Find(text, open) + |open|..]
  }

  /** A fenced body is the stripped text that follows the first opening
      fence and runs to the end of the text or to the start of a closing
      "```", with no "```" inside it. */
  lemma FencedBodyShape(text: string, open: string)
    requires |open| >= 3 && open[..3] == Fence && Contains(text, open)
    ensures var rest := AfterFirst(text, open);
      exists n :: 0 <= n <= |rest| && (n == |rest| || At(rest, Fence, n))
        && !Contains(rest[..n], Fence) && FencedBody(text, open) == Strip(rest[..n])
  {
    var rest := AfterFirst(text, open);
    SplitStep(text, open);
    var piece1 := Split(rest, open)[0];
    assert Split(text, open)[1] == piece1;
    SplitHead(rest, open);
    if |piece1| < |rest| {
      FenceAtOpening(rest, open, |piece1|);
    }
    var piece2 := Split(piece1, Fence)[0];
    SplitHead(piece1, Fence);
    SplitHeadClean(piece1, Fence);
    var n := |piece2|;
    assert piece2 == rest[..n];
    if n < |piece1| {
      AtSlice(rest, Fence, 0, |piece1|, n);
    }
    assert FencedBody(text, open) == Strip(rest[..n]);
    assert 0 <= n <= |rest| && (n == |rest| || At(rest, Fence, n)) && !Contains(rest[..n], Fence);
  }

  /** With no fence in the reply, the whole reply is used, stripped. */
  lemma ExtractUnfenced(text: string)
    requires !Contains(text, Fence)
    ensures ExtractJson(text) == Strip(text)
  {
    if Contains(text, JsonFence) {
      var j :| 0 <= j <= |text| - |JsonFence| && At(text, JsonFence, j);
      assert At(text, Fence, j) by {
        assert text[j..j + 3] == text[j..j + 7][..3];
      }
      assert false;
    }
  }

  /** A "```json" fence wins over a bare one: the result is the fenced body
      after the first "```json". */
  lemma ExtractPrefersJsonFence(text: string)
    requires Contains(text, JsonFence)
    ensures var rest := AfterFirst(text, JsonFence);
      exists n :: 0 <= n <= |rest| && (n == |rest| || At(rest, Fence, n))
        && !Contains(rest[..n], Fence) && ExtractJson(text) == Strip(rest[..n])
  {
    FencedBodyShape(text, JsonFence);
  }

  /** Without a "```json" fence, the result is the stripped text between
      the first bare "```" and the next one, or the end of the text. */
  lemma ExtractBareFence(text: string)
    requires !Contains(text, JsonFence) && Contains(text, Fence)
    ensures var rest := AfterFirst(text, Fence);
      ExtractJson(text) == Strip(if Contains(rest, Fence) then rest[..Find(rest, Fence)] else rest)
  {
    var rest := AfterFirst(text, Fence);
    SplitStep(text, Fence);
    var piece := Split(rest, Fence)[0];
    assert Split(text, Fence)[1] == piece;
    assert piece == if Contains(rest, Fence) then rest[..Find(rest, Fence)] else rest;
    SplitHeadClean(rest, Fence);
    assert Split(piece, Fence) == [piece];
  }

  // ---------------------------------------------------------------------
  // The usual reply: prose, one fenced block, prose

  predicate NoBacktick(s: string) {
    forall i :: 0 <= i < |s| ==> s[i] != '`'
  }

  /** In `body + "```" + post` with no other backtick, the only place a
      "```" starts is right after `body`. */
  lemma OnlyClosingFence(body: string, post: string, n: int)
    requires NoBacktick(body) && NoBacktick(post)
    requires At(body + Fence + post, Fence, n)
    ensures n == |body|
  {
    var rest := body + Fence + post;
    assert rest[n] == rest[n..n + 3][0] == '`';
    assert rest[n + 2] == rest[n..n + 3][2] == '`';
  }

  /** The first `open` of `pre + open + more`, when `pre` has no backtick and
      `open` starts with one, is right after `pre`. */
  lemma FirstOpening(pre: string, open: string, more: string)
    requires |open| > 0 && open[0] == '`' && NoBacktick(pre)
    ensures Contains(pre + open + more, open)
    ensures AfterFirst(pre + open + more, open) == more
  {
    var text := pre + open + more;
    assert At(text, open, |pre|) by {
      assert text[|pre|..|pre| + |open|] == open;
    }
    forall j | 0 <= j < |pre| ensures !At(text, open, j) {
      assert text[j] == pre[j];
    }
    assert Find(text, open) == |pre|;
    assert text[|pre| + |open|..] == more;
  }

  /** The text between the fences of `rest == body + "```" + post`, as the
      fence extraction picks it, is `body`. */
  lemma ClosedBody(body: string, post: string, n: int)
    requires NoBacktick(body) && NoBacktick(post)
    requires var rest := body + Fence + post;
      0 <= n <= |rest| && (n == |rest| || At(rest, Fence, n)) && !Contains(rest[..n], Fence)
    ensures (body + Fence + post)[..n] == body
  {
    var rest := body + Fence + post;
    if n == |rest| {
      assert At(rest[..n], Fence, |body|) by {
        assert rest[..n] == rest;
        assert rest[|body|..|body| + 3] == Fence;
      }
      assert false;
    } else {
      OnlyClosingFence(body, post, n);
    }
  }

  /** For a reply "prose ```json body ``` prose" with no other backtick,
      the extracted text is the stripped body. */
  lemma ExtractJsonBlock(pre: string, body: string, post: string)
    requires NoBacktick(pre) && NoBacktick(body) && NoBacktick(post)
    ensures ExtractJson(pre + JsonFence + body + Fence + post) == Strip(body)
  {
    var text := pre + JsonFence + body + Fence + post;
    assert text == pre + JsonFence + (body + Fence + post);
    FirstOpening(pre, JsonFence, body + Fence + post);
    ExtractPrefersJsonFence(text);
    var rest := body + Fence + post;
    var n :| 0 <= n <= |rest| && (n == |rest| || At(rest, Fence, n))
      && !Contains(rest[..n], Fence) && ExtractJson(text) == Strip(rest[..n]);
    ClosedBody(body, post, n);
  }

  /** For a reply "prose ``` body ``` prose" with no other backtick and no
      "```json" anywhere, the extracted text is the stripped body. */
  lemma ExtractBareBlock(pre: string, body: string, post: string)
    requires NoBacktick(pre) && NoBacktick(body) && NoBacktick(post)
    requires !Contains(pre + Fence + body + Fence + post, JsonFence)
    ensures ExtractJson(pre + Fence + body + Fence + post) == Strip(body)
  {
    var text := pre + Fence + body + Fence + post;
    assert text == pre + Fence + (body + Fence + post);
    FirstOpening(pre, Fence, body + Fence + post);
    FencedBodyShape(text, Fence);
    var rest := body + Fence + post;
    var n :| 0 <= n <= |rest| && (n == |rest| || At(rest, Fence, n))
      && !Contains(rest[..n], Fence) && ExtractJson(text) == Strip(rest[..n]);
    ClosedBody(body, post, n);
  }
}
