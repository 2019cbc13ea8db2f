/** The handful of Python `str` operations the validator relies on, after
    CPython: `isspace`, `strip`, `in`, `split`, `join`, `str(int)` and
    `int(str)` in base 10 over ASCII digits. */
module PyText {
  import opened Wrappers

  // ---------------------------------------------------------------------
  // Whitespace and strip()

  /** `c.isspace()`: the characters CPython classes as whitespace
      (bidirectional class WS, B or S, or category Zs). */
  predicate IsSpace(c: char) {
    var n := c as int;
    (9 <= n <= 13) || (28 <= n <= 32) || n == 0x85 || n == 0xA0 || n == 0x1680
    || (0x2000 <= n <= 0x200A) || n == 0x2028 || n == 0x2029 || n == 0x202F
    || n == 0x205F || n == 0x3000
  }

  /** The two whitespace sets in play: `str.strip()` drops what `isspace`
      accepts, while `int()` skips only space, \t, \n, \v, \f and \r among
      the ASCII characters (so not U+001C to U+001F) and every non-ASCII
      character `isspace` accepts. */
  datatype Blanks = StrBlanks | IntBlanks

  predicate IsBlank(blanks: Blanks, c: char) {
    IsSpace(c) && (blanks == IntBlanks ==> !(28 <= c as int <= 31))
  }

  predicate NoSpace(s: string) {
    forall i :: 0 <= i < |s| ==> !IsSpace(s[i])
  }

  /** `s.lstrip()`: drops the leading whitespace and nothing else. */
  function StripStart(s: string, blanks: Blanks := StrBlanks): (r: string)
    ensures |r| <= |s| && r == s[|s| - |r|..]
    ensures forall i :: 0 <= i < |s| - |r| ==> IsBlank(blanks, s[i])
    ensures r == [] || !IsBlank(blanks, r[0])
  {
    if |s| > 0 && IsBlank(blanks, s[0]) then StripStart(s[1..], blanks) else s
  }

  /** `s.rstrip()`: drops the trailing whitespace and nothing else. */
  function StripEnd(s: string, blanks: Blanks := StrBlanks): (r: string)
    ensures |r| <= |s| && r == s[..|r|]
    ensures forall i :: |r| <= i < |s| ==> IsBlank(blanks, s[i])
    ensures r == [] || !IsBlank(blanks, r[|r| - 1])
  {
    if |s| > 0 && IsBlank(blanks, s[|s| - 1]) then StripEnd(s[..|s| - 1], blanks) else s
  }

  /** `s.strip()`: the slice of `s` left once whitespace is dropped at both
      ends; what is left neither starts nor ends with whitespace, and
      `StripDropsBlanks` shows that everything dropped is whitespace. */
  function Strip(s: string, blanks: Blanks := StrBlanks): (r: string)
    ensures var lo := |s| - |StripStart(s, blanks)|;
      lo + |r| <= |s| && r == s[lo..lo + |r|]
    ensures r == [] || (!IsBlank(blanks, r[0]) && !IsBlank(blanks, r[|r| - 1]))
  {
    var t := StripStart(s, blanks);
    var r := StripEnd(t, blanks);
    assert r == s[|s| - |t|..][..|r|];
    r
  }

  /** What `strip()` drops, before and after the slice it keeps, is all
      whitespace. */
  lemma StripDropsBlanks(s: string, blanks: Blanks)
    ensures var lo := |s| - |StripStart(s, blanks)|;
      && (forall i :: 0 <= i < lo ==> IsBlank(blanks, s[i]))
      && (forall i :: lo + |Strip(s, blanks)| <= i < |s| ==> IsBlank(blanks, s[i]))
  {
    var t := StripStart(s, blanks);
    var lo := |s| - |t|;
    var r := StripEnd(t, blanks);
    assert Strip(s, blanks) == r;
    ShiftBlanks(s, lo, |r|, blanks);
  }

  /** Blanks at the end of the suffix `s[lo..]` are blanks at the end of `s`. */
  lemma ShiftBlanks(s: string, lo: nat, n: nat, blanks: Blanks)
    requires lo + n <= |s|
    requires forall i :: n <= i < |s[lo..]| ==> IsBlank(blanks, s[lo..][i])
    ensures forall i :: lo + n <= i < |s| ==> IsBlank(blanks, s[i])
  {
    forall i | lo + n <= i < |s| ensures IsBlank(blanks, s[i]) {
      assert s[i] == s[lo..][i - lo];
    }
  }

  lemma StripIdentity(s: string, blanks: Blanks)
    requires NoSpace(s)
    ensures Strip(s, blanks) == s
  {
    if |s| > 0 {
      assert !IsSpace(s[0]) && !IsSpace(s[|s| - 1]);
    }
  }

  // ---------------------------------------------------------------------
  // Substring search: `sub in s` and `s.find(sub)`

  /** `sub` occurs in `s` starting at index `i`. */
  predicate At(s: string, sub: string, i: int) {
    0 <= i && i + |sub| <= |s| && s[i..i + |sub|] == sub
  }

  /** Python's `sub in s`. */
  predicate Contains(s: string, sub: string) {
    exists i :: 0 <= i <= |s| - |sub| && At(s, sub, i)
  }

  /** `s.find(sub, from)`: the first index at or after `from` where `sub`
      occurs, or -1. */
  function FindFrom(s: string, sub: string, from: nat): (r: int)
    requires |sub| > 0 && from <= |s|
    ensures r == -1 || (from <= r && At(s, sub, r))
    ensures r == -1 ==> forall j :: from <= j <= |s| ==> !At(s, sub, j)
    ensures r >= 0 ==> forall j :: from <= j < r ==> !At(s, sub, j)
    decreases |s| - from
  {
    if from + |sub| > |s| then -1
    else if s[from..from + |sub|] == sub then from
    else FindFrom(s, sub, from + 1)
  }

  /** `s.find(sub)`; it is non-negative exactly when `sub in s`. */
  function Find(s: string, sub: string): (r: int)
    requires |sub| > 0
    ensures r == -1 || At(s, sub, r)
    ensures r >= 0 ==> forall j :: 0 <= j < r ==> !At(s, sub, j)
    ensures r >= 0 <==> Contains(s, sub)
  {
    FindFrom(s, sub, 0)
  }

  /** An occurrence inside a slice is an occurrence in the whole string. */
  lemma AtSlice(s: string, sub: string, lo: nat, hi: nat, j: int)
    requires lo <= hi <= |s| && At(s[lo..hi], sub, j)
    ensures At(s, sub, lo + j)
  {
    forall k | 0 <= k < |sub| ensures s[lo + j + k] == sub[k] {
      assert s[lo..hi][j..j + |sub|][k] == sub[k];
    }
    assert s[lo + j..lo + j + |sub|] == sub;
  }

  /** A slice of a string without `sub` has no `sub` either. */
  lemma NotContainsSlice(s: string, sub: string, lo: nat, hi: nat)
    requires lo <= hi <= |s| && !Contains(s, sub)
    ensures !Contains(s[lo..hi], sub)
  {
    if Contains(s[lo..hi], sub) {
      var j :| 0 <= j <= |s[lo..hi]| - |sub| && At(s[lo..hi], sub, j);
      AtSlice(s, sub, lo, hi, j);
      assert false;
    }
  }

  // ---------------------------------------------------------------------
  // split() and join()

  /** `s.split(sep)` for a non-empty `sep`: the pieces between successive
      non-overlapping occurrences of `sep`, scanning left to right. */
  function Split(s: string, sep: string): (parts: seq<string>)
    requires |sep| > 0
    ensures |parts| >= 1
    decreases |s|
  {
    var k := Find(s, sep);
    if k < 0 then [s] else [s[..k]] + Split(s[k + |sep|..], sep)
  }

  /** The text before the first occurrence of `sep` holds no `sep`. */
  lemma FirstPieceClean(s: string, sep: string, k: int)
    requires |sep| > 0 && k == Find(s, sep) && k >= 0
    ensures !Contains(s[..k], sep)
  {
    if Contains(s[..k], sep) {
      var j :| 0 <= j <= |s[..k]| - |sep| && At(s[..k], sep, j);
      AtSlice(s, sep, 0, k, j);
      assert false;
    }
  }

  /** `split` gives a single piece exactly when `sep` does not occur. */
  lemma SplitSingleIff(s: string, sep: string)
    requires |sep| > 0
    ensures |Split(s, sep)| == 1 <==> !Contains(s, sep)
  {
    var k := Find(s, sep);
    if k >= 0 {
      assert |Split(s[k + |sep|..], sep)| >= 1;
    }
  }

  /** No piece of a split holds the separator. */
  lemma {:induction false} SplitPiecesClean(s: string, sep: string)
    requires |sep| > 0
    ensures forall i :: 0 <= i < |Split(s, sep)| ==> !Contains(Split(s, sep)[i], sep)
    decreases |s|
  {
    var k := Find(s, sep);
    if k >= 0 {
      var rest := s[k + |sep|..];
      FirstPieceClean(s, sep, k);
      SplitPiecesClean(rest, sep);
      var parts := Split(s, sep);
      assert parts == [s[..k]] + Split(rest, sep);
      forall i | 0 <= i < |parts| ensures !Contains(parts[i], sep) {
        if i > 0 {
          assert parts[i] == Split(rest, sep)[i - 1];
        }
      }
    }
  }

  /** The first piece of a split holds no separator. */
  lemma SplitHeadClean(s: string, sep: string)
    requires |sep| > 0
    ensures !Contains(Split(s, sep)[0], sep)
  {
    var k := Find(s, sep);
    if k >= 0 {
      FirstPieceClean(s, sep, k);
    }
  }

  /** `sep.join(xs)`. */
  function Join(sep: string, xs: seq<string>): (r: string)
    ensures |xs| == 1 ==> r == xs[0]
  {
    if |xs| == 0 then ""
    else if |xs| == 1 then xs[0]
    else xs[0] + sep + Join(sep, xs[1..])
  }

  /** One step of `split`: the first piece, then the split of the rest. */
  lemma SplitStep(s: string, sep: string)
    requires |sep| > 0 && Find(s, sep) >= 0
    ensures Split(s, sep) == [s[..Find(s, sep)]] + Split(s[Find(s, sep) + |sep|..], sep)
  {
  }

  lemma JoinCons(sep: string, x: string, ys: seq<string>)
    requires |ys| >= 1
    ensures Join(sep, [x] + ys) == x + sep + Join(sep, ys)
  {
    assert ([x] + ys)[1..] == ys;
  }

  /** Splitting and re-joining on the same separator gives back the
      original text: `sep.join(s.split(sep)) == s`. */
  lemma {:induction false} JoinSplit(s: string, sep: string)
    requires |sep| > 0
    ensures Join(sep, Split(s, sep)) == s
    decreases |s|
  {
    var k := Find(s, sep);
    if k >= 0 {
      var rest := s[k + |sep|..];
      JoinSplit(rest, sep);
      SplitStep(s, sep);
      JoinCons(sep, s[..k], Split(rest, sep));
      assert s == s[..k] + s[k..k + |sep|] + rest;
    }
  }

  /** Text with no `sep` in front of a single `sep` splits there first. */
  lemma SplitAtFirst(a: string, sep: string, b: string)
    requires |sep| > 0
    requires forall j :: 0 <= j < |a| ==> !At(a + sep + b, sep, j)
    ensures Split(a + sep + b, sep) == [a] + Split(b, sep)
  {
    var s := a + sep + b;
    assert At(s, sep, |a|) by { assert s[|a|..|a| + |sep|] == sep; }
    var k := Find(s, sep);
    assert k == |a|;
    assert s[..k] == a && s[k + |sep|..] == b;
  }

  /** A one-character `sub` occurs exactly where that character stands. */
  lemma CharAt(s: string, c: char, j: int)
    ensures At(s, [c], j) <==> 0 <= j < |s| && s[j] == c
  {
    if 0 <= j < |s| {
      assert s[j..j + 1] == [s[j]];
    }
  }

  /** Text without the character `c` is a single piece when split on it. */
  lemma SplitWithoutChar(s: string, c: char)
    requires forall i :: 0 <= i < |s| ==> s[i] != c
    ensures !Contains(s, [c]) && Split(s, [c]) == [s]
  {
    forall j | 0 <= j <= |s| - 1 ensures !At(s, [c], j) {
      CharAt(s, c, j);
    }
  }

  // ---------------------------------------------------------------------
  // str(n) and int(s)

  predicate IsDigit(c: char) {
    '0' <= c <= '9'
  }

  function DigitChar(d: nat): (c: char)
    requires d < 10
    ensures IsDigit(c) && (c as int) - ('0' as int) == d
  {
    (('0' as int) + d) as char
  }

  function DigitValue(c: char): (d: nat)
    requires IsDigit(c)
    ensures d < 10 && DigitChar(d) == c
  {
    (c as int) - ('0' as int)
  }

  /** Decimal digits of a natural number, most significant first, with no
      leading zero. */
  function NatToDecimal(n: nat): (s: string)
    ensures |s| >= 1
    ensures forall i :: 0 <= i < |s| ==> IsDigit(s[i])
    ensures |s| > 1 ==> s[0] != '0'
  {
    if n < 10 then [DigitChar(n)] else NatToDecimal(n / 10) + [DigitChar(n % 10)]
  }

  /** `str(n)` for a Python int. */
  function IntToDecimal(n: int): (s: string)
    ensures |s| >= 1
    ensures forall i :: 0 <= i < |s| ==> IsDigit(s[i]) || (i == 0 && n < 0 && s[i] == '-')
  {
    if n < 0 then "-" + NatToDecimal(-n) else NatToDecimal(n)
  }

  /** The body `int()` accepts after its sign: ASCII digits, optionally
      grouped by single underscores between digits. */
  predicate IsDigitRun(s: string) {
    && |s| > 0
    && IsDigit(s[0])
    && IsDigit(s[|s| - 1])
    && (forall i :: 0 <= i < |s| ==> IsDigit(s[i]) || s[i] == '_')
    && !Contains(s, "__")
  }

  /** The value of a run of digits, underscores ignored. */
  function DigitRunValue(s: string): nat
    requires forall i :: 0 <= i < |s| ==> IsDigit(s[i]) || s[i] == '_'
  {
    if |s| == 0 then 0
    else if s[|s| - 1] == '_' then DigitRunValue(s[..|s| - 1])
    else 10 * DigitRunValue(s[..|s| - 1]) + DigitValue(s[|s| - 1])
  }

  /** `int(s)` in base 10 over ASCII digits: `None` where CPython raises
      ValueError. Surrounding `int()` whitespace (`IntBlanks`) and one
      leading sign are allowed. */
  function ParseInt(s: string): (r: Option<int>)
    ensures r.Some? ==> |Strip(s, IntBlanks)| > 0
  {
    ParseStripped(Strip(s, IntBlanks))
  }

  /** The part of `int()` after the surrounding whitespace is gone: one
      optional sign, then a digit run. */
  function ParseStripped(t: string): Option<int> {
    if |t| > 0 && (t[0] == '+' || t[0] == '-') then
      match DigitRun(t[1..])
      case Some(v) => Some(if t[0] == '-' then -(v as int) else v)
      case None => None
    else DigitRun(t)
  }

  /** The value of `t` when it is a digit run. */
  function DigitRun(t: string): Option<nat> {
    if IsDigitRun(t) then Some(DigitRunValue(t)) else None
  }

  /** `int()` does not skip U+001C, which `strip()` drops: `int("\x1c1")`
      raises although `"\x1c1".strip()` is "1". */
  lemma FileSeparatorNotSkipped()
    ensures Strip("\U{1c}1") == "1"
    ensures ParseInt("\U{1c}1") == None
  {
    var s := "\U{1c}1";
    assert IsBlank(StrBlanks, s[0]) && !IsBlank(IntBlanks, s[0]);
    assert !IsBlank(StrBlanks, s[1]) && !IsBlank(IntBlanks, s[1]);
    StripFileSeparator(s);
    IntKeepsFileSeparator(s);
  }

  lemma StripFileSeparator(s: string)
    requires |s| == 2 && IsBlank(StrBlanks, s[0]) && !IsBlank(StrBlanks, s[1])
    ensures Strip(s) == s[1..]
  {
    assert StripStart(s[1..]) == s[1..];
    assert StripStart(s) == s[1..];
    assert StripEnd(s[1..]) == s[1..];
  }

  lemma IntKeepsFileSeparator(s: string)
    requires |s| == 2 && s[0] == '\U{1c}' && !IsBlank(IntBlanks, s[0]) && !IsBlank(IntBlanks, s[1])
    ensures ParseInt(s) == None
  {
    assert StripStart(s, IntBlanks) == s;
    assert StripEnd(s, IntBlanks) == s;
    assert Strip(s, IntBlanks) == s;
    assert !IsDigit(s[0]);
  }

  lemma {:induction false} NatToDecimalValue(n: nat)
    ensures IsDigitRun(NatToDecimal(n))
    ensures DigitRunValue(NatToDecimal(n)) == n
  {
    var s := NatToDecimal(n);
    if n >= 10 {
      NatToDecimalValue(n / 10);
      assert s[..|s| - 1] == NatToDecimal(n / 10);
    }
    DigitsNoDoubleUnderscore(s);
  }

  lemma DigitsNoDoubleUnderscore(s: string)
    requires forall i :: 0 <= i < |s| ==> IsDigit(s[i])
    ensures !Contains(s, "__")
  {
    forall j | 0 <= j <= |s| - 2 ensures !At(s, "__", j) {
      assert s[j..j + 2][0] == s[j];
    }
  }

  /** Digits and minus signs are not whitespace. */
  lemma SignedDigitsNoSpace(s: string)
    requires forall i :: 0 <= i < |s| ==> IsDigit(s[i]) || s[i] == '-'
    ensures NoSpace(s)
  {
    forall i | 0 <= i < |s| ensures !IsSpace(s[i]) {
      assert IsDigit(s[i]) || s[i] == '-';
    }
  }

  /** `int()` on text with no whitespace and no sign reads the digit run. */
  lemma ParseUnsigned(s: string)
    requires NoSpace(s) && IsDigitRun(s)
    ensures ParseInt(s) == Some(DigitRunValue(s))
  {
    StripIdentity(s, IntBlanks);
    UnsignedStripped(s);
  }

  lemma UnsignedStripped(t: string)
    requires IsDigitRun(t)
    ensures ParseStripped(t) == Some(DigitRunValue(t))
  {
    assert !(t[0] == '+' || t[0] == '-') by { assert IsDigit(t[0]); }
  }

  /** `int()` on text with no whitespace and a leading minus negates the
      digit run after it. */
  lemma ParseNegative(s: string)
    requires NoSpace(s) && |s| > 0 && s[0] == '-' && IsDigitRun(s[1..])
    ensures ParseInt(s) == Some(-(DigitRunValue(s[1..]) as int))
  {
    StripIdentity(s, IntBlanks);
    NegativeStripped(s);
  }

  lemma NegativeStripped(t: string)
    requires |t| > 0 && t[0] == '-' && IsDigitRun(t[1..])
    ensures ParseStripped(t) == Some(-(DigitRunValue(t[1..]) as int))
  {
    assert DigitRun(t[1..]) == Some(DigitRunValue(t[1..]));
  }

  lemma ParseNatToDecimal(n: int)
    requires n >= 0
    ensures ParseInt(IntToDecimal(n)) == Some(n)
  {
    var s := NatToDecimal(n);
    SignedDigitsNoSpace(s);
    NatToDecimalValue(n);
    ParseUnsigned(s);
  }

  lemma ParseNegativeToDecimal(n: int)
    requires n < 0
    ensures ParseInt(IntToDecimal(n)) == Some(n)
  {
    var d := NatToDecimal(-n);
    var s := "-" + d;
    SignedDigitsNoSpace(s);
    NatToDecimalValue(-n);
    assert s[1..] == d;
    assert DigitRunValue(s[1..]) == -n;
    ParseNegative(s);
    assert IntToDecimal(n) == s;
  }

  /** `int(str(n)) == n`: every decimal rendering parses back. */
  lemma ParseIntToDecimal(n: int)
    ensures ParseInt(IntToDecimal(n)) == Some(n)
  {
    if n < 0 {
      ParseNegativeToDecimal(n);
    } else {
      ParseNatToDecimal(n);
    }
  }
}
