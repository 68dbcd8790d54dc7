/** The parts of Python's `str` behaviour that the utilities rely on:
    `isspace`, `strip`, `startswith`, `split(sep)`, `sep.join`, `ljust`,
    `str(int)`, `int(str)`, `re.split(r'\s+', s)`, `splitlines()[0]` and a
    greedy `re.match(r'[\d.]+', s)`. Strings are sequences of code points. */
module PyStr {
  import opened Wrappers

  /** `c.isspace()`: the characters Python treats as white space. */
  predicate IsSpace(c: char) {
    var n := c as int;
    (9 <= n <= 13) || (28 <= n <= 32) || n == 0x85 || n == 0xA0 || n == 0x1680
    || (0x2000 <= n <= 0x200A) || n == 0x2028 || n == 0x2029 || n == 0x202F
    || n == 0x205F || n == 0x3000
  }

  predicate AllSpace(s: string) {
    forall k :: 0 <= k < |s| ==> IsSpace(s[k])
  }

  predicate NoSpace(s: string) {
    forall k :: 0 <= k < |s| ==> !IsSpace(s[k])
  }

  /** True when `s` neither starts nor ends with white space. */
  predicate Trimmed(s: string) {
    s == [] || (!IsSpace(s[0]) && !IsSpace(s[|s| - 1]))
  }

  /** Length of the run of white space at the front of `s`. */
  function LeadingSpaces(s: string): (n: nat)
    ensures n <= |s| && AllSpace(s[..n])
    ensures n == |s| || !IsSpace(s[n])
  {
    if s != [] && IsSpace(s[0]) then 1 + LeadingSpaces(s[1..]) else 0
  }

  /** Length of the run of white space at the back of `s`. */
  function TrailingSpaces(s: string): (n: nat)
    ensures n <= |s| && AllSpace(s[|s| - n..])
    ensures n == |s| || !IsSpace(s[|s| - n - 1])
  {
    if s != [] && IsSpace(s[|s| - 1]) then
      var m := TrailingSpaces(s[..|s| - 1]);
      TrailingStep(s, m);
      m + 1
    else 0
  }

  lemma {:induction false} TrailingStep(s: string, m: nat)
    requires s != [] && IsSpace(s[|s| - 1])
    requires var t := s[..|s| - 1]; m <= |t| && AllSpace(t[|t| - m..]) && (m == |t| || !IsSpace(t[|t| - m - 1]))
    ensures AllSpace(s[|s| - (m + 1)..])
    ensures m + 1 == |s| || !IsSpace(s[|s| - (m + 1) - 1])
  {
    var t := s[..|s| - 1];
    assert s[|s| - (m + 1)..] == t[|t| - m..] + [s[|s| - 1]];
    if m + 1 < |s| {
      assert s[|s| - (m + 1) - 1] == t[|t| - m - 1];
    }
  }

  /** `s.strip()`. */
  function Strip(s: string): (r: string)
    ensures Trimmed(r)
    ensures exists i :: 0 <= i <= |s| - |r| && s[i..i + |r|] == r
                        && AllSpace(s[..i]) && AllSpace(s[i + |r|..])
  {
    var i := LeadingSpaces(s);
    var t := s[i..];
    var j := TrailingSpaces(t);
    StripCore(s, i, t, j);
    t[..|t| - j]
  }

  /** The text between the leading and the trailing white space is
      trimmed and lies between two runs of white space. */
  lemma {:induction false} StripCore(s: string, i: nat, t: string, j: nat)
    requires i <= |s| && AllSpace(s[..i]) && (i == |s| || !IsSpace(s[i])) && t == s[i..]
    requires j <= |t| && AllSpace(t[|t| - j..]) && (j == |t| || !IsSpace(t[|t| - j - 1]))
    ensures var r := t[..|t| - j];
            Trimmed(r) && i + |r| <= |s| && s[i..i + |r|] == r && AllSpace(s[i + |r|..])
  {
    var r := t[..|t| - j];
    assert s[i..i + |r|] == r && s[i + |r|..] == t[|t| - j..];
    if r != [] {
      assert r[0] == s[i] && r[|r| - 1] == t[|t| - j - 1];
    }
  }

  /** Splitting a string around a trimmed core with white space on both
      sides: `strip` returns exactly that core. */
  lemma {:induction false} StripOf(a: string, r: string, b: string)
    requires AllSpace(a) && AllSpace(b) && Trimmed(r)
    ensures Strip(a + r + b) == r
  {
    var s := a + r + b;
    if r == [] {
      assert s == a + b;
      AllSpaceLeading(s);
    } else {
      assert s == a + (r + b);
      LeadingSpacesOf(a, r + b);
      var t := s[LeadingSpaces(s)..];
      assert t == r + b;
      TrailingSpacesOf(r, b);
      assert t[..|t| - TrailingSpaces(t)] == r;
    }
  }

  lemma {:induction false} AllSpaceLeading(s: string)
    requires AllSpace(s)
    ensures LeadingSpaces(s) == |s|
  {
    if s != [] {
      AllSpaceLeading(s[1..]);
    }
  }

  lemma {:induction false} LeadingSpacesOf(a: string, t: string)
    requires AllSpace(a) && t != [] && !IsSpace(t[0])
    ensures LeadingSpaces(a + t) == |a|
  {
    if a != [] {
      assert (a + t)[1..] == a[1..] + t;
      LeadingSpacesOf(a[1..], t);
    }
  }

  lemma {:induction false} TrailingSpacesOf(r: string, b: string)
    requires AllSpace(b) && r != [] && !IsSpace(r[|r| - 1])
    ensures TrailingSpaces(r + b) == |b|
  {
    if b != [] {
      assert (r + b)[..|r + b| - 1] == r + b[..|b| - 1];
      TrailingSpacesOf(r, b[..|b| - 1]);
    }
  }

  /** `strip` is idempotent. */
  lemma {:induction false} StripIdempotent(s: string)
    ensures Strip(Strip(s)) == Strip(s)
  {
    StripTrimmed(Strip(s));
  }

  /** `s.startswith(p)`. */
  predicate StartsWith(s: string, p: string) {
    |p| <= |s| && s[..|p|] == p
  }

  /** `sep` occurs in `s` at position `j`. */
  predicate OccursAt(s: string, sep: string, j: nat) {
    j + |sep| <= |s| && s[j..j + |sep|] == sep
  }

  /** `sep in s`. */
  ghost predicate Contains(s: string, sep: string) {
    exists j: nat :: OccursAt(s, sep, j)
  }

  /** `s.find(sep, from)`: the first occurrence of `sep` at or after `from`. */
  function IndexOf(s: string, sep: string, from: nat): (r: Option<nat>)
    requires from <= |s|
    ensures r.Some? ==> from <= r.value && OccursAt(s, sep, r.value)
    ensures forall j: nat :: from <= j && OccursAt(s, sep, j) ==> r.Some? && r.value <= j
    decreases |s| - from
  {
    if from + |sep| > |s| then None
    else if s[from..from + |sep|] == sep then Some(from)
    else if from == |s| then None
    else IndexOf(s, sep, from + 1)
  }

  /** `sep.join(parts)`. */
  function Join(sep: string, parts: seq<string>): string {
    if |parts| == 0 then ""
    else if |parts| == 1 then parts[0]
    else parts[0] + sep + Join(sep, parts[1..])
  }

  /** A join starts with the first part and ends with the last one, so its
      first and last characters are theirs. */
  lemma {:induction false} JoinEnds(sep: string, parts: seq<string>)
    requires |parts| >= 1 && |parts[0]| > 0 && |parts[|parts| - 1]| > 0
    ensures var s := Join(sep, parts);
            StartsWith(s, parts[0])
    ensures var s, last := Join(sep, parts), parts[|parts| - 1];
            |last| <= |s| && s[|s| - |last|..] == last
    ensures var s := Join(sep, parts);
            |s| > 0 && s[0] == parts[0][0] && s[|s| - 1] == parts[|parts| - 1][|parts[|parts| - 1]| - 1]
  {
    var s, last := Join(sep, parts), parts[|parts| - 1];
    if |parts| > 1 {
      assert s == parts[0] + sep + Join(sep, parts[1..]);
      assert s[..|parts[0]|] == parts[0];
    }
    JoinSuffix(sep, parts);
    assert s[|s| - 1] == s[|s| - |last|..][|last| - 1];
  }

  /** A join ends with its last part. */
  lemma {:induction false} JoinSuffix(sep: string, parts: seq<string>)
    requires |parts| >= 1
    ensures var s, last := Join(sep, parts), parts[|parts| - 1];
            |last| <= |s| && s[|s| - |last|..] == last
  {
    if |parts| > 1 {
      var s, last, t := Join(sep, parts), parts[|parts| - 1], Join(sep, parts[1..]);
      JoinSuffix(sep, parts[1..]);
      assert parts[1..][|parts[1..]| - 1] == last;
      assert s == parts[0] + sep + t;
      assert s[|s| - |last|..] == t[|t| - |last|..];
    }
  }

  /** `s.split(sep)` for a non-empty separator (Python raises
      `ValueError` on an empty one). The pieces never contain `sep`, and
      joining them back with `sep` gives `s`. */
  function Split(s: string, sep: string): (r: seq<string>)
    requires sep != ""
    ensures |r| >= 1
    ensures Join(sep, r) == s
    ensures forall k :: 0 <= k < |r| ==> !Contains(r[k], sep)
    // each cut is the leftmost one: no separator straddles a cut point
    ensures forall k :: 0 <= k < |r| - 1 ==> !Contains(r[k] + sep[..|sep| - 1], sep)
    decreases |s|
  {
    match IndexOf(s, sep, 0)
    case None => [s]
    case Some(i) =>
      var rest := Split(s[i + |sep|..], sep);
      var r := [s[..i]] + rest;
      FirstCut(s, sep, i);
      assert r[1..] == rest;
      r
  }

  /** The first occurrence of `sep` cuts `s` in two around it, so that no
      occurrence lies before it, nor straddles it. */
  lemma {:induction false} FirstCut(s: string, sep: string, i: nat)
    requires sep != "" && IndexOf(s, sep, 0) == Some(i)
    ensures s == s[..i] + sep + s[i + |sep|..]
    ensures !Contains(s[..i], sep)
    ensures !Contains(s[..i] + sep[..|sep| - 1], sep)
  {
    assert OccursAt(s, sep, i);
    assert s[i..i + |sep|] == sep;
    forall j: nat | OccursAt(s[..i], sep, j) ensures false {
      assert s[..i][j..j + |sep|] == s[j..j + |sep|];
      assert OccursAt(s, sep, j);
    }
    var head := s[..i] + sep[..|sep| - 1];
    assert head == s[..i + |sep| - 1];
    forall j: nat | OccursAt(head, sep, j) ensures false {
      assert head[j..j + |sep|] == s[j..j + |sep|];
      assert OccursAt(s, sep, j);
    }
  }

  /** Joining with a one-character separator that no part contains, then
      splitting on it, gives the parts back. */
  lemma {:induction false} SplitJoin(parts: seq<string>, sep: string)
    requires |sep| == 1 && |parts| >= 1
    requires forall k :: 0 <= k < |parts| ==> sep[0] !in parts[k]
    ensures Split(Join(sep, parts), sep) == parts
  {
    if |parts| > 1 {
      var s := Join(sep, parts);
      var rest := Join(sep, parts[1..]);
      assert s == parts[0] + sep + rest;
      var i := |parts[0]|;
      assert OccursAt(s, sep, i) by {
        assert s[i..i + 1] == sep;
      }
      forall j: nat | j < i ensures !OccursAt(s, sep, j) {
        assert s[j] == parts[0][j];
      }
      assert IndexOf(s, sep, 0) == Some(i);
      assert s[i + 1..] == rest;
      SplitJoin(parts[1..], sep);
    } else {
      var s := parts[0];
      assert Join(sep, parts) == s;
      forall j: nat | j < |s| ensures !OccursAt(s, sep, j) {
        assert s[j] != sep[0];
      }
    }
  }

  /** When `s` starts with `p`, splitting on `p` yields an empty first
      piece and the remaining pieces join back to what follows `p`. */
  lemma {:induction false} SplitAfterPrefix(s: string, p: string)
    requires p != "" && StartsWith(s, p)
    ensures |Split(s, p)| >= 2 && Split(s, p)[0] == ""
    ensures Join(p, Split(s, p)[1..]) == s[|p|..]
  {
    assert OccursAt(s, p, 0);
    assert IndexOf(s, p, 0) == Some(0);
    assert Split(s, p) == [""] + Split(s[|p|..], p);
  }

  /** Stripping keeps a prefix that neither starts nor ends with white
      space. */
  lemma {:induction false} StripKeepsPrefix(s: string, p: string)
    requires p != "" && Trimmed(p) && StartsWith(s, p)
    ensures StartsWith(Strip(s), p)
  {
    var r := Strip(s);
    var i :| 0 <= i <= |s| - |r| && s[i..i + |r|] == r && AllSpace(s[..i]) && AllSpace(s[i + |r|..]);
    FrontSpace(s, i);
    assert s[0] == p[0];
    assert r[..|p|] == s[..|p|];
  }

  lemma {:induction false} FrontSpace(s: string, i: nat)
    requires i <= |s| && AllSpace(s[..i])
    ensures i > 0 ==> IsSpace(s[0])
  {
    if i > 0 {
      assert s[..i][0] == s[0];
    }
  }

  /** `str(b)` / `'{}'.format(b)` of a `bytes` object whose bytes are
      printable ASCII other than a quote or a backslash: the text between
      `b'` and `'`. (The escapes Python writes for other bytes are not
      modelled.) */
  function BytesStr(b: string): string {
    "b'" + b + "'"
  }

  /** A string of `n` spaces. */
  function Spaces(n: nat): (r: string)
    ensures |r| == n && forall k :: 0 <= k < n ==> r[k] == ' '
  {
    if n == 0 then "" else Spaces(n - 1) + " "
  }

  /** `s.ljust(w)`, i.e. the `{: <w}` format: padded with spaces on the
      right up to width `w`, never truncated. */
  function LJust(s: string, w: nat): (r: string)
    ensures |r| == if |s| >= w then |s| else w
    ensures r[..|s|] == s
    ensures forall k :: |s| <= k < |r| ==> r[k] == ' '
  {
    if |s| >= w then s else s + Spaces(w - |s|)
  }

  predicate IsDigit(c: char) {
    '0' <= c <= '9'
  }

  function DigitChar(d: nat): (c: char)
    requires d < 10
    ensures IsDigit(c) && c as int - '0' as int == d
  {
    ('0' as int + d) as char
  }

  /** `str(n)` for a non-negative integer. */
  function NatToStr(n: nat): (r: string)
    ensures |r| >= 1 && forall k :: 0 <= k < |r| ==> IsDigit(r[k])
  {
    if n < 10 then [DigitChar(n)] else NatToStr(n / 10) + [DigitChar(n % 10)]
  }

  /** `str(i)` / `'{}'.format(i)` for an integer. */
  function IntToStr(i: int): string {
    if i < 0 then "-" + NatToStr(-i) else NatToStr(i)
  }

  predicate DigitsOrUnderscores(t: string) {
    forall k :: 0 <= k < |t| ==> IsDigit(t[k]) || t[k] == '_'
  }

  /** Value of a string of digits and underscores, underscores ignored. */
  function DigitsValue(t: string): nat
    requires DigitsOrUnderscores(t)
  {
    if t == [] then 0
    else
      var c := t[|t| - 1];
      var init := t[..|t| - 1];
      assert DigitsOrUnderscores(init) by {
        forall k | 0 <= k < |init| ensures IsDigit(init[k]) || init[k] == '_' {
          assert init[k] == t[k];
        }
      }
      if c == '_' then DigitsValue(init)
      else DigitsValue(init) * 10 + (c as int - '0' as int)
  }

  /** The digit strings `int()` accepts in base 10: non-empty, starting
      with a digit, every underscore followed by a digit. */
  predicate DigitGroups(t: string) {
    && |t| > 0 && IsDigit(t[0]) && DigitsOrUnderscores(t)
    && forall k :: 0 <= k < |t| ==> IsDigit(t[k]) || (t[k] == '_' && k + 1 < |t| && IsDigit(t[k + 1]))
  }

  /** `int(s)` for a string: surrounding white space ignored, an optional
      sign, then base-10 digits; `None` stands for the `ValueError`.
      (Non-ASCII decimal digits, which Python also accepts, are not
      modelled.) */
  function ParseInt(s: string): (r: Option<int>)
    ensures r.Some? ==> Strip(s) != ""
  {
    var t := Strip(s);
    if |t| > 0 && (t[0] == '+' || t[0] == '-') then
      var u := t[1..];
      if DigitGroups(u) then
        var v: int := DigitsValue(u);
        Some(if t[0] == '-' then -v else v)
      else None
    else if DigitGroups(t) then Some(DigitsValue(t))
    else None
  }

  lemma {:induction false} DigitsValueOfNatToStr(n: nat)
    ensures DigitsValue(NatToStr(n)) == n
  {
    if n >= 10 {
      var s := NatToStr(n);
      assert s[..|s| - 1] == NatToStr(n / 10);
      DigitsValueOfNatToStr(n / 10);
    }
  }

  lemma {:induction false} NatToStrDigitGroups(n: nat)
    ensures DigitGroups(NatToStr(n)) && Trimmed(NatToStr(n))
  {
  }

  /** `int(str(i)) == i`. */
  lemma {:induction false} ParseIntOfIntToStr(i: int)
    ensures ParseInt(IntToStr(i)) == Some(i)
  {
    if i < 0 {
      var n: nat := -i;
      assert IntToStr(i) == "-" + NatToStr(n);
      ParseNegative(n);
      assert -(n as int) == i;
    } else {
      assert IntToStr(i) == NatToStr(i);
      ParseNonNegative(i);
    }
  }

  lemma {:induction false} ParseNonNegative(n: nat)
    ensures ParseInt(NatToStr(n)) == Some(n)
  {
    var d := NatToStr(n);
    DigitsValueOfNatToStr(n);
    NatToStrDigitGroups(n);
    StripTrimmed(d);
    ParseUnsigned(d);
  }

  lemma {:induction false} ParseNegative(n: nat)
    ensures ParseInt("-" + NatToStr(n)) == Some(-(n as int))
  {
    var d := NatToStr(n);
    var s := "-" + d;
    DigitsValueOfNatToStr(n);
    NatToStrDigitGroups(n);
    assert s[|s| - 1] == d[|d| - 1];
    StripTrimmed(s);
    assert s[0] == '-' && s[1..] == d;
    ParseSigned(s);
  }

  lemma {:induction false} StripTrimmed(s: string)
    requires Trimmed(s)
    ensures Strip(s) == s
  {
    StripOf([], s, []);
    assert [] + s + [] == s;
  }

  lemma {:induction false} ParseSigned(s: string)
    requires Strip(s) == s && |s| > 0 && s[0] == '-' && DigitGroups(s[1..])
    ensures ParseInt(s) == Some(-(DigitsValue(s[1..]) as int))
  {
  }

  lemma {:induction false} ParseUnsigned(s: string)
    requires Strip(s) == s && DigitGroups(s)
    ensures ParseInt(s) == Some(DigitsValue(s))
  {
  }

  /** `str` is injective on integers. */
  lemma {:induction false} IntToStrInjective(a: int, b: int)
    requires IntToStr(a) == IntToStr(b)
    ensures a == b
  {
    ParseIntOfIntToStr(a);
    ParseIntOfIntToStr(b);
  }

  /** The string-splitting line boundaries of `str.splitlines`. */
  predicate IsLineBreak(c: char) {
    var n := c as int;
    (10 <= n <= 13) || (28 <= n <= 30) || n == 0x85 || n == 0x2028 || n == 0x2029
  }

  /** Length of the first line of `s` (up to the first line boundary). */
  function FirstLineLength(s: string): (n: nat)
    ensures n <= |s| && (n == |s| || IsLineBreak(s[n]))
    ensures forall k :: 0 <= k < n ==> !IsLineBreak(s[k])
  {
    if s == [] || IsLineBreak(s[0]) then 0 else 1 + FirstLineLength(s[1..])
  }

  /** `s.splitlines()[0]`; `None` stands for the `IndexError` raised on an
      empty string, which has no lines. */
  function FirstLine(s: string): (r: Option<string>)
    ensures r.None? <==> s == ""
    ensures r.Some? ==> StartsWith(s, r.value)
    ensures r.Some? ==> forall k :: 0 <= k < |r.value| ==> !IsLineBreak(r.value[k])
    ensures r.Some? ==> |r.value| == |s| || IsLineBreak(s[|r.value|])
  {
    if s == "" then None else Some(s[..FirstLineLength(s)])
  }

  predicate IsVersionChar(c: char) {
    IsDigit(c) || c == '.'
  }

  /** The match of the greedy pattern `[\d.]+` at the start of `s` (empty
      when there is no match). Only ASCII digits are modelled. */
  function LeadingVersion(s: string): (r: string)
    ensures StartsWith(s, r)
    ensures forall k :: 0 <= k < |r| ==> IsVersionChar(r[k])
    ensures |r| == |s| || !IsVersionChar(s[|r|])
  {
    if s != [] && IsVersionChar(s[0]) then [s[0]] + LeadingVersion(s[1..]) else ""
  }

  /** Index of the first white-space character of `s`, if any. */
  function FirstSpace(s: string): (r: Option<nat>)
    ensures r.Some? ==> r.value < |s| && IsSpace(s[r.value]) && NoSpace(s[..r.value])
    ensures r.None? <==> NoSpace(s)
  {
    if s == [] then None
    else if IsSpace(s[0]) then Some(0)
    else match FirstSpace(s[1..])
      case None => None
      case Some(i) => assert s[..i + 1] == [s[0]] + s[1..][..i]; Some(i + 1)
  }

  /** `re.split(r'\s+', s)`: the pieces between maximal runs of white
      space (empty pieces at the ends when `s` starts or ends with white
      space). There is more than one piece exactly when `s` holds white
      space, and no piece holds any. */
  function SplitOnSpaceRuns(s: string): (r: seq<string>)
    ensures |r| >= 1
    ensures |r| > 1 <==> !NoSpace(s)
    ensures forall k :: 0 <= k < |r| ==> NoSpace(r[k])
    decreases |s|
  {
    match FirstSpace(s)
    case None => [s]
    case Some(i) => [s[..i]] + SplitOnSpaceRuns(s[RunEnd(s, i)..])
  }

  /** The end of the run of white space that starts at `i`. */
  function RunEnd(s: string, i: nat): (j: nat)
    requires i < |s| && IsSpace(s[i])
    ensures i < j <= |s| && AllSpace(s[i..j]) && (j == |s| || !IsSpace(s[j]))
  {
    var n := LeadingSpaces(s[i..]);
    assert s[i..][..n] == s[i..i + n];
    if i + n < |s| then assert s[i + n] == s[i..][n]; i + n else i + n
  }

  /** The maximal runs of white space that `re.split(r'\s+', s)` cuts
      out, in order. */
  function SpaceRuns(s: string): (ws: seq<string>)
    ensures |ws| == |SplitOnSpaceRuns(s)| - 1
    ensures forall k :: 0 <= k < |ws| ==> ws[k] != [] && AllSpace(ws[k])
    decreases |s|
  {
    match FirstSpace(s)
    case None => []
    case Some(i) => [s[i..RunEnd(s, i)]] + SpaceRuns(s[RunEnd(s, i)..])
  }

  /** `pieces[0] + seps[0] + pieces[1] + ... + seps[n - 1] + pieces[n]`. */
  function Interleave(pieces: seq<string>, seps: seq<string>): string
    requires |pieces| == |seps| + 1
    decreases |seps|
  {
    if seps == [] then pieces[0] else pieces[0] + seps[0] + Interleave(pieces[1..], seps[1..])
  }

  /** The pieces and the runs cut out between them give back `s`: one run
      fewer than pieces, each run non-empty white space, and every piece
      but the first and the last non-empty (a run is maximal); the first
      piece is empty only when `s` starts with white space. */
  lemma {:induction false} SplitOnSpaceRunsRebuilds(s: string)
    ensures var r := SplitOnSpaceRuns(s);
            var ws := SpaceRuns(s);
            |ws| == |r| - 1
            && (forall k :: 0 <= k < |ws| ==> ws[k] != [] && AllSpace(ws[k]))
            && Interleave(r, ws) == s
            && (forall k :: 0 < k < |r| - 1 ==> r[k] != [])
            && (|r| > 1 && s != [] && !IsSpace(s[0]) ==> r[0] != [])
  {
    InterleaveSplit(s);
    InnerPiecesNonEmpty(s);
  }

  /** One cut: the first run of white space, from `i` to `RunEnd(s, i)`. */
  lemma {:induction false} SplitStep(s: string, i: nat)
    requires FirstSpace(s) == Some(i)
    ensures SplitOnSpaceRuns(s) == [s[..i]] + SplitOnSpaceRuns(s[RunEnd(s, i)..])
    ensures SpaceRuns(s) == [s[i..RunEnd(s, i)]] + SpaceRuns(s[RunEnd(s, i)..])
  {
  }

  lemma InterleaveCons(p: string, w: string, r: seq<string>, ws: seq<string>)
    requires |r| == |ws| + 1
    ensures Interleave([p] + r, [w] + ws) == p + w + Interleave(r, ws)
  {
    assert ([p] + r)[1..] == r;
    assert ([w] + ws)[1..] == ws;
  }

  lemma {:induction false} InterleaveSplit(s: string)
    ensures Interleave(SplitOnSpaceRuns(s), SpaceRuns(s)) == s
    decreases |s|
  {
    match FirstSpace(s)
    case None =>
    case Some(i) =>
      var j := RunEnd(s, i);
      SplitStep(s, i);
      var t := s[j..];
      InterleaveSplit(t);
      InterleaveCons(s[..i], s[i..j], SplitOnSpaceRuns(t), SpaceRuns(t));
      assert s == s[..i] + s[i..j] + t;
  }

  lemma {:induction false} InnerPiecesNonEmpty(s: string)
    ensures var r := SplitOnSpaceRuns(s);
            (forall k :: 0 < k < |r| - 1 ==> r[k] != [])
            && (|r| > 1 && s != [] && !IsSpace(s[0]) ==> r[0] != [])
    decreases |s|
  {
    match FirstSpace(s)
    case None =>
    case Some(i) =>
      var j := RunEnd(s, i);
      SplitStep(s, i);
      var t := s[j..];
      InnerPiecesNonEmpty(t);
      var r := SplitOnSpaceRuns(s);
      var r' := SplitOnSpaceRuns(t);
      assert forall k :: 0 < k < |r| ==> r[k] == r'[k - 1];
  }
}
