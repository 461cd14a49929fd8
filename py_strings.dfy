/** The few Python `str` built-ins the backend relies on, over `seq<char>`:
    `str.isspace` and `str.strip`, `str.replace(p, '')`, `str.isdigit`,
    `int(str)`, `str(int)` and `str.title`. Unicode is covered where the
    backend's data can reach it (whitespace, Latin-1 letters, ASCII digits). */
module PyStrings {

  datatype Option<+T> = None | Some(value: T)

  // ---------------------------------------------------------------------
  // Whitespace and str.strip()
  // ---------------------------------------------------------------------

  /** `c.isspace()`: the characters Python treats as whitespace. */
  predicate IsSpace(c: char)
  {
    || c == ' ' || ('\t' <= c <= '\r') || ('\U{1C}' <= c <= '\U{1F}')
    || c == '\U{85}' || c == '\U{A0}' || c == '\U{1680}'
    || ('\U{2000}' <= c <= '\U{200A}') || c == '\U{2028}' || c == '\U{2029}'
    || c == '\U{202F}' || c == '\U{205F}' || c == '\U{3000}'
  }

  /** The first index at or after `i` that is not whitespace (or `|s|`). */
  function SkipSpaces(s: string, i: nat): (n: nat)
    requires i <= |s|
    ensures i <= n <= |s|
    ensures n < |s| ==> !IsSpace(s[n])
    decreases |s| - i
  {
    if i < |s| && IsSpace(s[i]) then SkipSpaces(s, i + 1) else i
  }

  /** Everything skipped is whitespace. */
  lemma {:induction false} SkipSpacesAll(s: string, i: nat)
    requires i <= |s|
    ensures forall k :: i <= k < SkipSpaces(s, i) ==> IsSpace(s[k])
    decreases |s| - i
  {
    if i < |s| && IsSpace(s[i]) {
      SkipSpacesAll(s, i + 1);
    }
  }

  /** The last position at or before `j` that follows a non-space (or 0). */
  function BackSpaces(s: string, j: nat): (n: nat)
    requires j <= |s|
    ensures n <= j
    ensures n > 0 ==> !IsSpace(s[n - 1])
    decreases j
  {
    if j > 0 && IsSpace(s[j - 1]) then BackSpaces(s, j - 1) else j
  }

  /** Everything skipped backwards is whitespace. */
  lemma {:induction false} BackSpacesAll(s: string, j: nat)
    requires j <= |s|
    ensures forall k :: BackSpaces(s, j) <= k < j ==> IsSpace(s[k])
    decreases j
  {
    if j > 0 && IsSpace(s[j - 1]) {
      BackSpacesAll(s, j - 1);
    }
  }

  /** How many whitespace characters `s.lstrip()` drops at the front. */
  function Leading(s: string): nat
  {
    SkipSpaces(s, 0)
  }

  /** `s.strip()`: the slice of `s` left once every leading and every
      trailing whitespace character is gone; it starts and ends with a
      non-space. */
  function Strip(s: string): (r: string)
    ensures Leading(s) + |r| <= |s| && r == s[Leading(s)..Leading(s) + |r|]
    ensures r == [] || (!IsSpace(r[0]) && !IsSpace(r[|r| - 1]))
  {
    var i := Leading(s);
    if i == |s| then []
    else
      var j := BackSpaces(s, |s|);
      assert i < j by {
        BackSpacesAll(s, |s|);
      }
      s[i..j]
  }

  /** `s.strip()` drops only whitespace: every character before and after
      the kept slice is a space. */
  lemma StripDropsSpaces(s: string)
    ensures forall k :: 0 <= k < Leading(s) ==> IsSpace(s[k])
    ensures forall k :: Leading(s) + |Strip(s)| <= k < |s| ==> IsSpace(s[k])
  {
    SkipSpacesAll(s, 0);
    BackSpacesAll(s, |s|);
  }

  /** Stripping a string whose ends are not whitespace leaves it as it is. */
  lemma StripTrimmed(s: string)
    requires s == [] || (!IsSpace(s[0]) && !IsSpace(s[|s| - 1]))
    ensures Strip(s) == s
  {
  }

  // ---------------------------------------------------------------------
  // str.replace(p, '')
  // ---------------------------------------------------------------------

  /** `s.replace(p, '')`: scans left to right and drops every
      non-overlapping occurrence of `p`. */
  function RemoveAll(s: string, p: string): (r: string)
    requires p != []
    ensures |r| <= |s|
    ensures forall c :: c in r ==> c in s
    ensures |p| == 1 ==> p[0] !in r
    decreases |s|
  {
    if |s| < |p| then
      assert |p| == 1 ==> p[0] !in s by {
        if |p| == 1 { assert s == []; }
      }
      s
    else if s[..|p|] == p then RemoveAll(s[|p|..], p)
    else [s[0]] + RemoveAll(s[1..], p)
  }

  /** Removing a one-character pattern that does not occur changes nothing. */
  lemma {:induction false} RemoveAbsent(s: string, c: char)
    requires c !in s
    ensures RemoveAll(s, [c]) == s
    decreases |s|
  {
    if |s| >= 1 {
      assert s[..1] != [c] by { assert s[..1][0] == s[0]; }
      RemoveAbsent(s[1..], c);
      assert s == [s[0]] + s[1..];
    }
  }

  // ---------------------------------------------------------------------
  // Digits: str.isdigit(), str(int), int(str)
  // ---------------------------------------------------------------------

  predicate IsDigitChar(c: char)
  {
    '0' <= c <= '9'
  }

  predicate AllDigits(s: string)
  {
    forall i :: 0 <= i < |s| ==> IsDigitChar(s[i])
  }

  /** `s.isdigit()` (ASCII digits). */
  predicate IsDigit(s: string)
  {
    |s| > 0 && AllDigits(s)
  }

  /** The base-10 value of the first `n` characters of a string of digits. */
  function DigitsPrefix(s: string, n: nat): nat
    requires AllDigits(s) && n <= |s|
  {
    if n == 0 then 0
    else DigitsPrefix(s, n - 1) * 10 + (s[n - 1] as int - '0' as int)
  }

  /** The base-10 value of a string of digits. */
  function DigitsValue(s: string): nat
    requires AllDigits(s)
  {
    DigitsPrefix(s, |s|)
  }

  /** The value of a prefix depends on that prefix only. */
  lemma {:induction false} DigitsPrefixSame(s: string, t: string, n: nat)
    requires AllDigits(s) && AllDigits(t) && n <= |s| && n <= |t|
    requires forall k :: 0 <= k < n ==> s[k] == t[k]
    ensures DigitsPrefix(s, n) == DigitsPrefix(t, n)
  {
    if n > 0 {
      DigitsPrefixSame(s, t, n - 1);
    }
  }

  function DigitChar(d: nat): (c: char)
    requires d < 10
    ensures IsDigitChar(c)
  {
    "0123456789"[d]
  }

  /** `str(n)` for a non-negative integer: no sign, no leading zero. */
  function NatToString(n: nat): (s: string)
    ensures IsDigit(s)
    ensures s[0] == '0' ==> n == 0
    decreases n
  {
    if n < 10 then [DigitChar(n)] else NatToString(n / 10) + [DigitChar(n % 10)]
  }

  /** `str(i)` for any integer. */
  function IntToString(i: int): string
  {
    if i < 0 then "-" + NatToString(-i) else NatToString(i)
  }

  /** Reading back the digits `str` writes gives the number. */
  lemma {:induction false} DigitsOfNat(n: nat)
    ensures DigitsValue(NatToString(n)) == n
    decreases n
  {
    var s := NatToString(n);
    if n >= 10 {
      var a := NatToString(n / 10);
      DigitsOfNat(n / 10);
      assert s == a + [DigitChar(n % 10)];
      DigitsPrefixSame(s, a, |a|);
      assert DigitsValue(s) == DigitsPrefix(s, |a|) * 10 + (s[|a|] as int - '0' as int);
    } else {
      assert DigitsValue(s) == DigitsPrefix(s, 0) * 10 + (s[0] as int - '0' as int);
    }
  }

  /** `int(s)` in base 10: surrounding whitespace is ignored, then an
      optional sign and a run of ASCII digits; anything else is a
      ValueError (here `None`). */
  function ParseInt(s: string): Option<int>
  {
    ParseSigned(Strip(s))
  }

  /** `int()` of an already stripped string. */
  function ParseSigned(t: string): Option<int>
  {
    var signed := t != [] && (t[0] == '+' || t[0] == '-');
    var body := if signed then t[1..] else t;
    if !IsDigit(body) then None
    else if signed && t[0] == '-' then Some(-(DigitsValue(body) as int))
    else Some(DigitsValue(body))
  }

  /** `int(s)` on a string for which `s.isdigit()` holds gives its digits'
      value. */
  lemma ParseDigits(s: string)
    requires IsDigit(s)
    ensures ParseInt(s) == Some(DigitsValue(s))
  {
    assert IsDigitChar(s[0]) && IsDigitChar(s[|s| - 1]);
    StripTrimmed(s);
  }

  /** A sign followed by digits has no surrounding whitespace. */
  lemma NegativeTrimmed(body: string)
    requires IsDigit(body)
    ensures Strip("-" + body) == "-" + body
  {
    var s := "-" + body;
    assert s[|s| - 1] == body[|body| - 1];
    assert IsDigitChar(body[|body| - 1]);
    StripTrimmed(s);
  }

  /** `int()` of a stripped `-` followed by digits. */
  lemma NegativeSigned(body: string)
    requires IsDigit(body)
    ensures ParseSigned("-" + body) == Some(-(DigitsValue(body) as int))
  {
    assert ("-" + body)[1..] == body;
  }

  /** `int('-' + digits)` is the negated value of the digits. */
  lemma ParseNegative(body: string)
    requires IsDigit(body)
    ensures ParseInt("-" + body) == Some(-(DigitsValue(body) as int))
  {
    NegativeTrimmed(body);
    NegativeSigned(body);
  }

  /** `int(str(n)) == n` for a non-negative `n`. */
  lemma ParseNatString(n: nat)
    ensures ParseInt(NatToString(n)) == Some(n)
  {
    ParseDigits(NatToString(n));
    DigitsOfNat(n);
  }

  // ---------------------------------------------------------------------
  // str.title()
  // ---------------------------------------------------------------------

  predicate IsUpper(c: char)
  {
    ('A' <= c <= 'Z') || ('\U{C0}' <= c <= '\U{DE}' && c != '\U{D7}')
  }

  predicate IsLower(c: char)
  {
    ('a' <= c <= 'z') || ('\U{DF}' <= c <= '\U{FF}' && c != '\U{F7}')
    || c == '\U{AA}' || c == '\U{B5}' || c == '\U{BA}'
  }

  /** Letters with case, as `str.title` sees them. */
  predicate IsCased(c: char)
  {
    IsUpper(c) || IsLower(c)
  }

  /** Lower-case letters that have a one-character upper-case partner
      inside Latin-1. */
  predicate HasUpper(c: char)
  {
    ('a' <= c <= 'z') || ('\U{E0}' <= c <= '\U{FE}' && c != '\U{F7}')
  }

  function ToUpper(c: char): (u: char)
    ensures IsCased(u) == IsCased(c)
  {
    if HasUpper(c) then (c as int - 32) as char else c
  }

  function ToLower(c: char): (l: char)
    ensures IsCased(l) == IsCased(c)
  {
    if IsUpper(c) then (c as int + 32) as char else c
  }

  /** `str.title` from some position on: a cased letter right after
      another cased letter is lowered, every other character is raised. */
  function TitleFrom(s: string, afterCased: bool): (r: string)
    ensures |r| == |s|
    decreases |s|
  {
    if s == [] then []
    else
      var c := s[0];
      [if afterCased then ToLower(c) else ToUpper(c)] + TitleFrom(s[1..], IsCased(c))
  }

  /** `s.title()`. */
  function Title(s: string): (r: string)
    ensures |r| == |s|
  {
    TitleFrom(s, false)
  }

  /** Title-casing a title-cased string changes nothing. */
  lemma {:induction false} TitleFromIdempotent(s: string, afterCased: bool)
    ensures TitleFrom(TitleFrom(s, afterCased), afterCased) == TitleFrom(s, afterCased)
    decreases |s|
  {
    if s != [] {
      var t := TitleFrom(s, afterCased);
      TitleFromIdempotent(s[1..], IsCased(s[0]));
      assert t[1..] == TitleFrom(s[1..], IsCased(s[0]));
      assert IsCased(t[0]) == IsCased(s[0]);
    }
  }

  lemma TitleIdempotent(s: string)
    ensures Title(Title(s)) == Title(s)
  {
    TitleFromIdempotent(s, false);
  }
}
