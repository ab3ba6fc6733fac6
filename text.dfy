/**
 * The JavaScript string operations that the scraper and the link builders use
 * (`toLowerCase`, `includes`, `trim`, `split`, `replace`, `slice`, `join`,
 * `match(/(\d+)/)`, template-string number formatting), written out over
 * `seq<char>`.
 */
module Text {
  import opened Wrappers

  // ---------------------------------------------------------------------------
  // Characters
  // ---------------------------------------------------------------------------

  /** The characters that JavaScript's `\s` matches and `String.prototype.trim` removes. */
  predicate IsWhitespace(c: char) {
    c == ' ' || c == '\t' || c == '\n' || c == '\r' || c == '\U{000B}' || c == '\U{000C}'
    || c == '\U{00A0}' || c == '\U{1680}' || ('\U{2000}' <= c <= '\U{200A}')
    || c == '\U{2028}' || c == '\U{2029}' || c == '\U{202F}' || c == '\U{205F}'
    || c == '\U{3000}' || c == '\U{FEFF}'
  }

  /** JavaScript's `\d`: an ASCII decimal digit (Persian digits are not matched). */
  predicate IsDigit(c: char) {
    '0' <= c <= '9'
  }

  predicate IsUpper(c: char) {
    'A' <= c <= 'Z'
  }

  predicate AllDigits(s: string) {
    forall k :: 0 <= k < |s| ==> IsDigit(s[k])
  }

  predicate NoDigits(s: string) {
    forall k :: 0 <= k < |s| ==> !IsDigit(s[k])
  }

  function LowerChar(c: char): (r: char)
    ensures !IsUpper(r)
    ensures !IsUpper(c) ==> r == c
  {
    if IsUpper(c) then (c as int + 32) as char else c
  }

  /** `s.toLowerCase()`, on the ASCII letters. */
  function ToLower(s: string): (r: string)
    ensures |r| == |s|
    ensures forall i :: 0 <= i < |s| ==> r[i] == LowerChar(s[i])
  {
    seq(|s|, i requires 0 <= i < |s| => LowerChar(s[i]))
  }

  /** Lower-casing twice is lower-casing once. */
  lemma ToLowerIdempotent(s: string)
    ensures ToLower(ToLower(s)) == ToLower(s)
  {
  }

  // ---------------------------------------------------------------------------
  // Substrings: String.prototype.includes
  // ---------------------------------------------------------------------------

  /** `t` occurs in `s` at index `i`. */
  predicate OccursAt(s: string, t: string, i: int) {
    0 <= i && i + |t| <= |s| && s[i..i + |t|] == t
  }

  /** `t` occurs in `s` at index `i` or later. */
  predicate ContainsFrom(s: string, t: string, i: nat)
    decreases |s| - i
  {
    OccursAt(s, t, i) || (i < |s| && ContainsFrom(s, t, i + 1))
  }

  /** `s.includes(t)`. */
  predicate Contains(s: string, t: string) {
    ContainsFrom(s, t, 0)
  }

  lemma {:induction false} ContainsFromIff(s: string, t: string, i: nat)
    ensures ContainsFrom(s, t, i) <==> exists j :: i <= j && OccursAt(s, t, j)
    decreases |s| - i
  {
    if i < |s| {
      ContainsFromIff(s, t, i + 1);
      if j :| i <= j && OccursAt(s, t, j) {
        if j > i {
          assert i + 1 <= j && OccursAt(s, t, j);
        }
      }
    }
  }

  /** `Contains` holds exactly when there is a position where `t` occurs. */
  lemma ContainsIff(s: string, t: string)
    ensures Contains(s, t) <==> exists i :: OccursAt(s, t, i)
  {
    ContainsFromIff(s, t, 0);
  }

  /** Every character of a contained string is a character of the container. */
  lemma ContainsChar(s: string, t: string, j: nat)
    requires Contains(s, t) && j < |t|
    ensures exists i :: 0 <= i < |s| && s[i] == t[j]
  {
    ContainsIff(s, t);
    var i :| OccursAt(s, t, i);
    assert s[i + j] == s[i..i + |t|][j];
  }

  /** A lower-cased string contains no string that has an upper-case ASCII letter. */
  lemma LowerNeverContainsUpper(s: string, t: string, j: nat)
    requires j < |t| && IsUpper(t[j])
    ensures !Contains(ToLower(s), t)
  {
    if Contains(ToLower(s), t) {
      ContainsChar(ToLower(s), t, j);
    }
  }

  /** Containment is transitive. */
  lemma ContainsTransitive(s: string, t: string, u: string)
    requires Contains(s, t) && Contains(t, u)
    ensures Contains(s, u)
  {
    ContainsIff(s, t);
    ContainsIff(t, u);
    var i :| OccursAt(s, t, i);
    var k :| OccursAt(t, u, k);
    forall j | 0 <= j < |u|
      ensures s[i + k + j] == u[j]
    {
      assert u[j] == t[k + j];
      assert t[k + j] == s[i + k + j];
    }
    assert s[i + k..i + k + |u|] == u;
    assert OccursAt(s, u, i + k);
    ContainsIff(s, u);
  }

  /** A string contained in a part is contained in the whole. */
  lemma ContainsInConcat(a: string, b: string, t: string)
    requires Contains(a, t) || Contains(b, t)
    ensures Contains(a + b, t)
  {
    ContainsIff(a + b, t);
    if Contains(a, t) {
      ContainsIff(a, t);
      var i :| OccursAt(a, t, i);
      assert (a + b)[i..i + |t|] == a[i..i + |t|];
      assert OccursAt(a + b, t, i);
    } else {
      ContainsIff(b, t);
      var i :| OccursAt(b, t, i);
      assert (a + b)[|a| + i..|a| + i + |t|] == b[i..i + |t|];
      assert OccursAt(a + b, t, |a| + i);
    }
  }

  // ---------------------------------------------------------------------------
  // String.prototype.trim
  // ---------------------------------------------------------------------------

  /** The first index at or after `i` that does not hold white space (or `|s|`). */
  function SkipWhitespace(s: string, i: nat): (j: nat)
    requires i <= |s|
    ensures i <= j <= |s|
    ensures j < |s| ==> !IsWhitespace(s[j])
    decreases |s| - i
  {
    if i < |s| && IsWhitespace(s[i]) then SkipWhitespace(s, i + 1) else i
  }

  /** Everything that `SkipWhitespace` passes over is white space. */
  lemma {:induction false} SkipWhitespaceSpan(s: string, i: nat)
    requires i <= |s|
    ensures forall k :: i <= k < SkipWhitespace(s, i) ==> IsWhitespace(s[k])
    decreases |s| - i
  {
    if i < |s| && IsWhitespace(s[i]) {
      SkipWhitespaceSpan(s, i + 1);
    }
  }

  /** The end of `s[..i]` once its trailing white space is dropped. */
  function BackWhitespace(s: string, i: nat): (j: nat)
    requires i <= |s|
    ensures j <= i
    ensures j > 0 ==> !IsWhitespace(s[j - 1])
    decreases i
  {
    if i > 0 && IsWhitespace(s[i - 1]) then BackWhitespace(s, i - 1) else i
  }

  /** Everything that `BackWhitespace` passes over is white space. */
  lemma {:induction false} BackWhitespaceSpan(s: string, i: nat)
    requires i <= |s|
    ensures forall k :: BackWhitespace(s, i) <= k < i ==> IsWhitespace(s[k])
    decreases i
  {
    if i > 0 && IsWhitespace(s[i - 1]) {
      BackWhitespaceSpan(s, i - 1);
    }
  }

  /** `s.trimStart()`: `s` without its leading white space. */
  function TrimStart(s: string): (r: string)
  {
    s[SkipWhitespace(s, 0)..]
  }

  /** `s.trimEnd()`: `s` without its trailing white space. */
  function TrimEnd(s: string): (r: string)
  {
    s[..BackWhitespace(s, |s|)]
  }

  /** `s.trim()`. */
  function Trim(s: string): (r: string)
    ensures |r| <= |s|
    ensures r != [] ==> !IsWhitespace(r[0]) && !IsWhitespace(r[|r| - 1])
  {
    TrimEnd(TrimStart(s))
  }

  /** Trimming is the identity on a string with no white space at either end. */
  lemma TrimOfTrimmed(s: string)
    requires s != [] ==> !IsWhitespace(s[0]) && !IsWhitespace(s[|s| - 1])
    ensures Trim(s) == s
  {
  }

  /** Trimming twice is trimming once. */
  lemma TrimIdempotent(s: string)
    ensures Trim(Trim(s)) == Trim(s)
  {
    TrimOfTrimmed(Trim(s));
  }

  /** Trimming leaves nothing exactly when the string is all white space. */
  lemma TrimEmptyIff(s: string)
    ensures Trim(s) == [] <==> forall k :: 0 <= k < |s| ==> IsWhitespace(s[k])
  {
    SkipWhitespaceSpan(s, 0);
    var t := TrimStart(s);
    BackWhitespaceSpan(t, |t|);
    if t != [] {
      assert t[0] == s[SkipWhitespace(s, 0)];
    }
  }

  // ---------------------------------------------------------------------------
  // String.prototype.split(/\s\/\s/)
  // ---------------------------------------------------------------------------

  /** The regular expression `/\s\/\s/` matches `s` at index `i`. */
  predicate SlashSepAt(s: string, i: int) {
    0 <= i && i + 3 <= |s| && IsWhitespace(s[i]) && s[i + 1] == '/' && IsWhitespace(s[i + 2])
  }

  /** The index of the leftmost match of `/\s\/\s/` in `s` at or after `i`, if any. */
  function FirstSlashSepFrom(s: string, i: nat): (r: Option<nat>)
    ensures r.Some? ==> i <= r.value && SlashSepAt(s, r.value)
    decreases |s| - i
  {
    if i + 3 > |s| then None
    else if SlashSepAt(s, i) then Some(i)
    else FirstSlashSepFrom(s, i + 1)
  }

  /** A match at `m` with none in `[i, m)` is the leftmost one from `i`. */
  lemma {:induction false} FirstSlashSepFromAt(s: string, i: nat, m: nat)
    requires i <= m && SlashSepAt(s, m)
    requires forall j :: i <= j < m ==> !SlashSepAt(s, j)
    ensures FirstSlashSepFrom(s, i) == Some(m)
    decreases m - i
  {
    if i < m {
      FirstSlashSepFromAt(s, i + 1, m);
    }
  }

  /** Without a match at or after `i` there is nothing to find. */
  lemma {:induction false} FirstSlashSepFromNone(s: string, i: nat)
    requires forall j :: i <= j ==> !SlashSepAt(s, j)
    ensures FirstSlashSepFrom(s, i) == None
    decreases |s| - i
  {
    if i + 3 <= |s| {
      FirstSlashSepFromNone(s, i + 1);
    }
  }

  /** The search finds the leftmost match, and finds nothing only when there is none. */
  lemma {:induction false} FirstSlashSepFromSpec(s: string, i: nat)
    ensures FirstSlashSepFrom(s, i).Some? ==> forall j :: i <= j < FirstSlashSepFrom(s, i).value ==> !SlashSepAt(s, j)
    ensures FirstSlashSepFrom(s, i).None? ==> forall j :: i <= j ==> !SlashSepAt(s, j)
    decreases |s| - i
  {
    if i + 3 <= |s| && !SlashSepAt(s, i) {
      FirstSlashSepFromSpec(s, i + 1);
    }
  }

  /** The index of the leftmost match of `/\s\/\s/` in `s`, if any. */
  function FirstSlashSep(s: string): (r: Option<nat>)
    ensures r.Some? ==> SlashSepAt(s, r.value)
  {
    FirstSlashSepFrom(s, 0)
  }

  /** The pieces of `s[i..]` between the successive leftmost matches. */
  function SplitFrom(s: string, i: nat): (parts: seq<string>)
    requires i <= |s|
    ensures |parts| >= 1
    decreases |s| - i
  {
    match FirstSlashSepFrom(s, i)
    case None => [s[i..]]
    case Some(j) => [s[i..j]] + SplitFrom(s, j + 3)
  }

  /** `s.split(/\s\/\s/)`: the pieces between the successive leftmost matches. */
  function SplitOnSlash(s: string): (parts: seq<string>)
    ensures |parts| >= 1
  {
    SplitFrom(s, 0)
  }

  /**
   * The first piece is the text before the leftmost separator (all of `s`
   * when there is none), and the others are the pieces after it.
   */
  lemma SplitOnSlashFirst(s: string)
    ensures match FirstSlashSep(s)
      case None => SplitOnSlash(s) == [s]
      case Some(i) => SplitOnSlash(s) == [s[..i]] + SplitFrom(s, i + 3)
  {
    assert s[0..] == s;
  }

  /** `xs.join(sep)`. */
  function Join(xs: seq<string>, sep: string): string
    decreases |xs|
  {
    if |xs| == 0 then ""
    else if |xs| == 1 then xs[0]
    else xs[0] + sep + Join(xs[1..], sep)
  }

  predicate NoSlashIn(xs: seq<string>) {
    forall k, j :: 0 <= k < |xs| && 0 <= j < |xs[k]| ==> xs[k][j] != '/'
  }

  lemma {:induction false} SplitFromJoin(s: string, i: nat, xs: seq<string>)
    requires |xs| >= 1 && NoSlashIn(xs)
    requires i <= |s| && s[i..] == Join(xs, " / ")
    ensures SplitFrom(s, i) == xs
    decreases |xs|
  {
    var n := |xs[0]|;
    if |xs| == 1 {
      forall j | i <= j
        ensures !SlashSepAt(s, j)
      {
        if j + 1 < |s| {
          assert s[j + 1] == s[i..][j + 1 - i];
        }
      }
      FirstSlashSepFromNone(s, i);
    } else {
      var rest := Join(xs[1..], " / ");
      assert s[i..] == xs[0] + " / " + rest;
      assert SlashSepAt(s, i + n) by {
        assert s[i + n] == s[i..][n];
        assert s[i + n + 1] == s[i..][n + 1];
        assert s[i + n + 2] == s[i..][n + 2];
      }
      forall j | i <= j < i + n
        ensures !SlashSepAt(s, j)
      {
        assert s[j + 1] == s[i..][j + 1 - i];
        if j + 1 < i + n {
          assert s[i..][j + 1 - i] == xs[0][j + 1 - i];
        }
      }
      FirstSlashSepFromAt(s, i, i + n);
      assert s[i..i + n] == xs[0] by {
        assert s[i..i + n] == s[i..][..n];
      }
      assert s[i + n + 3..] == rest by {
        assert s[i + n + 3..] == s[i..][n + 3..];
      }
      assert NoSlashIn(xs[1..]) by {
        forall k, j | 0 <= k < |xs[1..]| && 0 <= j < |xs[1..][k]|
          ensures xs[1..][k][j] != '/'
        {
          assert xs[1..][k] == xs[k + 1];
        }
      }
      SplitFromJoin(s, i + n + 3, xs[1..]);
      assert SplitFrom(s, i) == [xs[0]] + xs[1..];
    }
  }

  /**
   * Splitting a label written as `part / part / ...` gives back its parts,
   * provided that no part contains a slash.
   */
  lemma SplitOnSlashOfJoin(xs: seq<string>)
    requires |xs| >= 1 && NoSlashIn(xs)
    ensures SplitOnSlash(Join(xs, " / ")) == xs
  {
    var s := Join(xs, " / ");
    assert s[0..] == s;
    SplitFromJoin(s, 0, xs);
  }

  // ---------------------------------------------------------------------------
  // String.prototype.replaceAll(/<[^>]+>/g, '')
  // ---------------------------------------------------------------------------

  /** The index of the first `c` in `s` at or after `i`, if any. */
  function IndexOfFrom(s: string, c: char, i: nat): (r: Option<nat>)
    ensures r.Some? ==> i <= r.value < |s| && s[r.value] == c
    decreases |s| - i
  {
    if i >= |s| then None
    else if s[i] == c then Some(i)
    else IndexOfFrom(s, c, i + 1)
  }

  /** The index just past a match of `/<[^>]+>/` that starts at `i`, if there is one. */
  function TagAt(s: string, i: nat): (n: Option<nat>)
    ensures n.Some? ==> i + 3 <= n.value <= |s| && s[i] == '<' && s[n.value - 1] == '>'
  {
    if i < |s| && s[i] == '<' then
      match IndexOfFrom(s, '>', i + 1)
      case Some(k) => if k >= i + 2 then Some(k + 1) else None
      case None => None
    else None
  }

  /** `s[i..]` with every markup tag removed, left to right. */
  function StripTagsFrom(s: string, i: nat): (r: string)
    requires i <= |s|
    ensures |r| <= |s| - i
    decreases |s| - i
  {
    if i == |s| then ""
    else match TagAt(s, i)
      case Some(n) => StripTagsFrom(s, n)
      case None => [s[i]] + StripTagsFrom(s, i + 1)
  }

  /** `s.replaceAll(/<[^>]+>/g, '')`: `s` with every markup tag removed, left to right. */
  function StripTags(s: string): (r: string)
    ensures |r| <= |s|
  {
    StripTagsFrom(s, 0)
  }

  lemma {:induction false} StripTagsFromPlainText(s: string, i: nat)
    requires i <= |s|
    requires forall k :: i <= k < |s| ==> s[k] != '<'
    ensures StripTagsFrom(s, i) == s[i..]
    decreases |s| - i
  {
    if i < |s| {
      StripTagsFromPlainText(s, i + 1);
      assert [s[i]] + s[i + 1..] == s[i..];
    }
  }

  /** Text without a `<` is left as it is. */
  lemma StripTagsPlainText(s: string)
    requires forall k :: 0 <= k < |s| ==> s[k] != '<'
    ensures StripTags(s) == s
  {
    StripTagsFromPlainText(s, 0);
  }

  /** A tag at the very start of a string is removed and the rest is processed. */
  lemma StripTagsLeadingTag(s: string)
    requires TagAt(s, 0).Some?
    ensures StripTags(s) == StripTagsFrom(s, TagAt(s, 0).value)
  {
  }

  // ---------------------------------------------------------------------------
  // Digits: s.match(/(\d+)/), Number(...), and `${n}`
  // ---------------------------------------------------------------------------

  /** The index of the first digit of `s` at or after `i`, if any. */
  function FirstDigitFrom(s: string, i: nat): (r: Option<nat>)
    ensures r.Some? ==> i <= r.value < |s| && IsDigit(s[r.value])
    decreases |s| - i
  {
    if i >= |s| then None
    else if IsDigit(s[i]) then Some(i)
    else FirstDigitFrom(s, i + 1)
  }

  /** The end of the run of digits that starts at `i`. */
  function DigitRunEnd(s: string, i: nat): (j: nat)
    requires i <= |s|
    ensures i <= j <= |s|
    ensures j < |s| ==> !IsDigit(s[j])
    decreases |s| - i
  {
    if i < |s| && IsDigit(s[i]) then DigitRunEnd(s, i + 1) else i
  }

  lemma {:induction false} DigitRunEndSpan(s: string, i: nat)
    requires i <= |s|
    ensures AllDigits(s[i..DigitRunEnd(s, i)])
    decreases |s| - i
  {
    if i < |s| && IsDigit(s[i]) {
      DigitRunEndSpan(s, i + 1);
      var e := DigitRunEnd(s, i);
      assert s[i..e] == [s[i]] + s[i + 1..e];
    }
  }

  lemma {:induction false} FirstDigitFromNone(s: string, i: nat)
    ensures FirstDigitFrom(s, i).None? <==> forall k :: i <= k < |s| ==> !IsDigit(s[k])
    decreases |s| - i
  {
    if i < |s| && !IsDigit(s[i]) {
      FirstDigitFromNone(s, i + 1);
    }
  }

  /** `s.match(/(\d+)/)?.[1]`: the leftmost maximal run of digits in `s`. */
  function FirstDigitRun(s: string): (r: Option<string>)
    ensures r.Some? ==> r.value != [] && AllDigits(r.value)
  {
    match FirstDigitFrom(s, 0)
    case Some(i) => DigitRunEndSpan(s, i); Some(s[i..DigitRunEnd(s, i)])
    case None => None
  }

  /** A run is found exactly when there is a digit. */
  lemma FirstDigitRunSpec(s: string)
    ensures FirstDigitRun(s).None? <==> NoDigits(s)
  {
    FirstDigitFromNone(s, 0);
  }

  lemma {:induction false} FirstDigitFromAt(s: string, i: nat, m: nat)
    requires i <= m < |s| && IsDigit(s[m])
    requires forall k :: i <= k < m ==> !IsDigit(s[k])
    ensures FirstDigitFrom(s, i) == Some(m)
    decreases m - i
  {
    if i < m {
      FirstDigitFromAt(s, i + 1, m);
    }
  }

  lemma {:induction false} DigitRunEndAll(s: string, i: nat)
    requires i <= |s|
    requires forall k :: i <= k < |s| ==> IsDigit(s[k])
    ensures DigitRunEnd(s, i) == |s|
    decreases |s| - i
  {
    if i < |s| {
      DigitRunEndAll(s, i + 1);
    }
  }

  /** After a digit-free prefix, the run found is the whole of a digit string that follows. */
  lemma FirstDigitRunAfter(p: string, ds: string)
    requires NoDigits(p) && ds != [] && AllDigits(ds)
    ensures FirstDigitRun(p + ds) == Some(ds)
  {
    var s := p + ds;
    FirstDigitFromAt(s, 0, |p|);
    DigitRunEndAll(s, |p|);
    assert s[|p|..|s|] == ds;
  }

  /** The value of a string of decimal digits (`Number(ds)` for such a string). */
  function DigitsValue(ds: string): nat
    requires AllDigits(ds)
    decreases |ds|
  {
    if |ds| == 0 then 0
    else DigitsValue(ds[..|ds| - 1]) * 10 + (ds[|ds| - 1] as int - '0' as int)
  }

  function DigitChar(d: nat): (c: char)
    requires d < 10
    ensures IsDigit(c) && c as int - '0' as int == d
  {
    ('0' as int + d) as char
  }

  /** `${n}` for a natural number: its decimal numeral without leading zeros. */
  function NatToString(n: nat): (s: string)
    ensures s != [] && AllDigits(s)
    ensures |s| > 1 ==> s[0] != '0'
    decreases n
  {
    if n < 10 then [DigitChar(n)] else NatToString(n / 10) + [DigitChar(n % 10)]
  }

  /** Reading back a numeral gives the number it was printed from. */
  lemma {:induction false} NatToStringRoundTrip(n: nat)
    ensures DigitsValue(NatToString(n)) == n
    decreases n
  {
    if n >= 10 {
      var s := NatToString(n);
      assert s[..|s| - 1] == NatToString(n / 10);
      NatToStringRoundTrip(n / 10);
    }
  }

  /** A numeral that does not start with `0` has a positive value. */
  lemma {:induction false} DigitsValuePositive(ds: string)
    requires ds != [] && AllDigits(ds) && ds[0] != '0'
    ensures DigitsValue(ds) > 0
    decreases |ds|
  {
    if |ds| > 1 {
      DigitsValuePositive(ds[..|ds| - 1]);
    }
  }

  /** Printing the value of a numeral without leading zeros gives the numeral back. */
  lemma {:induction false} DigitsValueRoundTrip(ds: string)
    requires ds != [] && AllDigits(ds)
    requires |ds| > 1 ==> ds[0] != '0'
    ensures NatToString(DigitsValue(ds)) == ds
    decreases |ds|
  {
    var init := ds[..|ds| - 1];
    var d := ds[|ds| - 1] as int - '0' as int;
    if |ds| == 1 {
      assert DigitsValue(ds) == d;
      assert [DigitChar(d)] == ds;
    } else {
      DigitsValueRoundTrip(init);
      DigitsValuePositive(init);
      var v := DigitsValue(ds);
      assert v / 10 == DigitsValue(init) && v % 10 == d;
      assert NatToString(v) == NatToString(DigitsValue(init)) + [DigitChar(d)];
    }
  }

  /** Different numbers are printed differently. */
  lemma NatToStringInjective(m: nat, n: nat)
    requires NatToString(m) == NatToString(n)
    ensures m == n
  {
    NatToStringRoundTrip(m);
    NatToStringRoundTrip(n);
  }

  // ---------------------------------------------------------------------------
  // String.prototype.replace(string, string) and slice(0, n)
  // ---------------------------------------------------------------------------

  /** The leftmost index at or after `i` where `pat` occurs in `s`, if any. */
  function FirstOccurrenceFrom(s: string, pat: string, i: nat): (r: Option<nat>)
    ensures r.Some? ==> i <= r.value && OccursAt(s, pat, r.value)
    decreases |s| - i
  {
    if OccursAt(s, pat, i) then Some(i)
    else if i < |s| then FirstOccurrenceFrom(s, pat, i + 1)
    else None
  }

  /** `s.replace(pat, rep)` with a string pattern: only the first occurrence is replaced. */
  function ReplaceFirst(s: string, pat: string, rep: string): string {
    match FirstOccurrenceFrom(s, pat, 0)
    case Some(i) => s[..i] + rep + s[i + |pat|..]
    case None => s
  }

  lemma {:induction false} FirstOccurrenceFromNone(s: string, pat: string, i: nat)
    requires !ContainsFrom(s, pat, i)
    ensures FirstOccurrenceFrom(s, pat, i) == None
    decreases |s| - i
  {
    if i < |s| {
      FirstOccurrenceFromNone(s, pat, i + 1);
    }
  }

  lemma {:induction false} FirstOccurrenceFromAt(s: string, pat: string, i: nat, m: nat)
    requires i <= m && OccursAt(s, pat, m)
    requires forall j :: i <= j < m ==> !OccursAt(s, pat, j)
    ensures FirstOccurrenceFrom(s, pat, i) == Some(m)
    decreases m - i
  {
    if i < m {
      FirstOccurrenceFromAt(s, pat, i + 1, m);
    }
  }

  /** Without an occurrence of `pat`, `s.replace(pat, rep)` returns `s`. */
  lemma ReplaceFirstAbsent(s: string, pat: string, rep: string)
    requires !Contains(s, pat)
    ensures ReplaceFirst(s, pat, rep) == s
  {
    FirstOccurrenceFromNone(s, pat, 0);
  }

  /**
   * `s.replace(pat, rep)` replaces the leftmost occurrence of `pat`, at `i`,
   * and keeps everything else.
   */
  lemma ReplaceFirstAt(s: string, pat: string, rep: string, i: nat)
    requires OccursAt(s, pat, i)
    requires forall j :: 0 <= j < i ==> !OccursAt(s, pat, j)
    ensures ReplaceFirst(s, pat, rep) == s[..i] + rep + s[i + |pat|..]
  {
    FirstOccurrenceFromAt(s, pat, 0, i);
  }

  /** `s.slice(0, n)`: the first `n` characters, or all of `s` when it is shorter. */
  function Take(s: string, n: nat): (r: string)
    ensures |r| == if |s| < n then |s| else n
    ensures r == s[..|r|]
  {
    if |s| <= n then s else s[..n]
  }
}
