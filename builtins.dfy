/** The few Python built-ins the scheduler leans on, stated over Dafny values:
    `None`, `str(int)`, `int(str)`, `str.split(sep)`, the `in` test on strings
    and `max` over a non-empty list of integers. */
module Builtins {

  datatype Option<T> = None | Some(value: T)

  /** A value, or the message of the exception Python raises instead. */
  datatype Result<T> = Ok(value: T) | Raised(message: string)

  function Max(a: int, b: int): int { if a < b then b else a }

  /** `max(xs)` on a non-empty list. */
  function MaxOf(xs: seq<int>): (m: int)
    requires |xs| > 0
    ensures m in xs
    ensures forall i :: 0 <= i < |xs| ==> xs[i] <= m
  {
    if |xs| == 1 then xs[0] else Max(MaxOf(xs[..|xs| - 1]), xs[|xs| - 1])
  }

  // ---------------------------------------------------------------------------
  // str(n) and int(s)

  predicate IsDigit(c: char) { '0' <= c <= '9' }

  function DigitChar(d: nat): (c: char)
    requires d < 10
    ensures IsDigit(c)
  {
    ('0' as int + d) as char
  }

  function DigitValue(c: char): (d: nat)
    requires IsDigit(c)
    ensures d < 10 && DigitChar(d) == c
  {
    (c as int - '0' as int) as nat
  }

  lemma DigitRoundTrip(d: nat)
    requires d < 10
    ensures DigitValue(DigitChar(d)) == d
  {
  }

  /** Decimal digits of a natural number, most significant first. */
  function NatToString(n: nat): (s: string)
    ensures |s| > 0
    ensures forall i :: 0 <= i < |s| ==> IsDigit(s[i])
  {
    if n < 10 then [DigitChar(n)] else NatToString(n / 10) + [DigitChar(n % 10)]
  }

  /** Python's `str(n)` (and an `{n}` field of an f-string) for an integer. */
  function IntToString(n: int): (s: string)
    ensures |s| > 0
    ensures forall i :: 0 <= i < |s| ==> IsDigit(s[i]) || (i == 0 && s[i] == '-')
  {
    if n < 0 then "-" + NatToString(-n) else NatToString(n)
  }

  /** Value of a non-empty run of decimal digits; None if anything else is present. */
  function ParseDigits(s: string): Option<nat>
  {
    if |s| == 0 || !IsDigit(s[|s| - 1]) then None
    else if |s| == 1 then Some(DigitValue(s[0]))
    else match ParseDigits(s[..|s| - 1])
      case None => None
      case Some(v) => Some(10 * v + DigitValue(s[|s| - 1]))
  }

  predicate IsSpace(c: char) { c == ' ' || c == '\t' || c == '\n' || c == '\r' || c == '\U{000B}' || c == '\U{000C}' }

  function StripLeft(s: string): string
  {
    if |s| > 0 && IsSpace(s[0]) then StripLeft(s[1..]) else s
  }

  function StripRight(s: string): string
  {
    if |s| > 0 && IsSpace(s[|s| - 1]) then StripRight(s[..|s| - 1]) else s
  }

  /** Stripping white space keeps only characters of the string. */
  lemma {:induction false} StripKeeps(s: string)
    ensures forall i :: 0 <= i < |StripRight(StripLeft(s))| ==> StripRight(StripLeft(s))[i] in s
  {
    StripLeftKeeps(s);
    StripRightKeeps(StripLeft(s));
  }

  lemma {:induction false} StripLeftKeeps(s: string)
    ensures forall i :: 0 <= i < |StripLeft(s)| ==> StripLeft(s)[i] in s
  {
    if |s| > 0 && IsSpace(s[0]) {
      StripLeftKeeps(s[1..]);
    }
  }

  lemma {:induction false} StripRightKeeps(s: string)
    ensures forall i :: 0 <= i < |StripRight(s)| ==> StripRight(s)[i] in s
  {
    if |s| > 0 && IsSpace(s[|s| - 1]) {
      StripRightKeeps(s[..|s| - 1]);
    }
  }

  /** Python's `int(s)` on a string: surrounding white space, an optional sign and
      decimal digits; None where Python raises ValueError. */
  function ParseInt(s: string): (r: Option<int>)
    ensures r.Some? ==> exists i :: 0 <= i < |s| && IsDigit(s[i])
    ensures r.Some? && r.value < 0 ==> '-' in s
  {
    StripKeeps(s);
    var t := StripRight(StripLeft(s));
    var negative := |t| > 0 && t[0] == '-';
    var digits := if |t| > 0 && (t[0] == '-' || t[0] == '+') then t[1..] else t;
    match ParseDigits(digits)
    case None => None
    case Some(v) =>
      assert |t| > 0 && digits[|digits| - 1] == t[|t| - 1] && IsDigit(t[|t| - 1]);
      var last := t[|t| - 1];
      assert last in s;
      assert negative ==> t[0] in s;
      Some(if negative then -(v as int) else v as int)
  }

  lemma {:induction false} ParseNatToString(n: nat)
    ensures ParseDigits(NatToString(n)) == Some(n)
  {
    var s := NatToString(n);
    if n < 10 {
      assert s == [DigitChar(n)];
      DigitRoundTrip(n);
    } else {
      assert s == NatToString(n / 10) + [DigitChar(n % 10)];
      assert s[..|s| - 1] == NatToString(n / 10);
      DigitRoundTrip(n % 10);
      ParseNatToString(n / 10);
    }
  }

  lemma StripDigitsIsIdentity(s: string)
    requires |s| > 0
    requires forall i :: 0 <= i < |s| ==> IsDigit(s[i]) || (i == 0 && s[i] == '-')
    ensures StripRight(StripLeft(s)) == s
  {
  }

  /** `int(str(n)) == n`. */
  lemma ParseIntToString(n: int)
    ensures ParseInt(IntToString(n)) == Some(n)
  {
    var s := IntToString(n);
    StripDigitsIsIdentity(s);
    if n < 0 {
      assert s == "-" + NatToString(-n);
      assert s[0] == '-' && s[1..] == NatToString(-n);
      ParseNatToString(-n);
    } else {
      assert s == NatToString(n) && IsDigit(s[0]);
      ParseNatToString(n);
    }
  }

  // ---------------------------------------------------------------------------
  // `sub in s` and `s.split(sep)`

  /** `sep` occurs in `s` starting at index `j`. */
  predicate OccursAt(s: string, sep: string, j: int)
  {
    0 <= j && j + |sep| <= |s| && s[j..j + |sep|] == sep
  }

  /** Index of the first occurrence of `sep` in `s`. */
  function IndexOf(s: string, sep: string): (r: Option<nat>)
    requires |sep| > 0
    ensures r.Some? ==> OccursAt(s, sep, r.value)
    ensures r.Some? ==> forall j :: 0 <= j < r.value ==> !OccursAt(s, sep, j)
    ensures r.None? ==> forall j :: !OccursAt(s, sep, j)
  {
    if |s| < |sep| then None
    else if s[..|sep|] == sep then Some(0)
    else
      OccursShift(s, sep);
      match IndexOf(s[1..], sep)
      case None => None
      case Some(i) => Some(i + 1)
  }

  lemma OccursShift(s: string, sep: string)
    requires |s| > 0
    ensures forall j :: 1 <= j ==> (OccursAt(s, sep, j) <==> OccursAt(s[1..], sep, j - 1))
  {
    forall j | 1 <= j
      ensures OccursAt(s, sep, j) <==> OccursAt(s[1..], sep, j - 1)
    {
      if j + |sep| <= |s| {
        assert s[1..][j - 1..j - 1 + |sep|] == s[j..j + |sep|];
      }
    }
  }

  /** Python's `sub in s` for a non-empty `sub`. */
  function Contains(s: string, sub: string): (b: bool)
    requires |sub| > 0
    ensures b <==> exists j :: OccursAt(s, sub, j)
  {
    IndexOf(s, sub).Some?
  }

  /** Python's `s.split(sep)` for a non-empty separator: the pieces between
      non-overlapping occurrences, scanned left to right. */
  function Split(s: string, sep: string): (parts: seq<string>)
    requires |sep| > 0
    ensures |parts| > 0
    decreases |s|
  {
    match IndexOf(s, sep)
    case None => [s]
    case Some(i) => [s[..i]] + Split(s[i + |sep|..], sep)
  }

  /** A string lacking one of the separator's characters holds no occurrence of it. */
  lemma IndexOfAbsent(s: string, sep: string, k: nat)
    requires k < |sep| && sep[k] !in s
    ensures IndexOf(s, sep) == None
  {
  }

  /** An occurrence of the separator right after a stretch free of its first
      character is the first one. */
  lemma {:induction false} IndexOfAfter(pre: string, sep: string, post: string)
    requires |sep| > 0 && sep[0] !in pre
    ensures IndexOf(pre + (sep + post), sep) == Some(|pre|)
  {
    var s := pre + (sep + post);
    if |pre| == 0 {
      assert s[..|sep|] == sep;
    } else {
      assert s[..|sep|][0] == pre[0];
      assert pre[0] in pre;
      assert s[1..] == pre[1..] + (sep + post);
      forall c | c in pre[1..] ensures c in pre { }
      IndexOfAfter(pre[1..], sep, post);
    }
  }

  lemma SplitAbsent(s: string, sep: string, k: nat)
    requires k < |sep| && sep[k] !in s
    ensures Split(s, sep) == [s]
  {
    IndexOfAbsent(s, sep, k);
  }

  lemma SplitAfter(pre: string, sep: string, post: string)
    requires |sep| > 0 && sep[0] !in pre
    ensures Split(pre + (sep + post), sep) == [pre] + Split(post, sep)
  {
    var s := pre + (sep + post);
    IndexOfAfter(pre, sep, post);
    assert s[..|pre|] == pre;
    assert s[|pre| + |sep|..] == post;
    assert Split(s, sep) == [s[..|pre|]] + Split(s[|pre| + |sep|..], sep);
  }

  /** Splitting `pre + (sep + post)` gives back `pre` and `post` when the separator
      cannot be found inside either of them. */
  lemma SplitInTwo(pre: string, sep: string, post: string, k: nat)
    requires |sep| > 0 && sep[0] !in pre
    requires k < |sep| && sep[k] !in post
    ensures Split(pre + (sep + post), sep) == [pre, post]
  {
    SplitAfter(pre, sep, post);
    SplitAbsent(post, sep, k);
  }

  /** `str(n)` holds only digits and a leading minus sign. */
  lemma IntToStringLacks(n: int, c: char)
    requires !IsDigit(c) && c != '-'
    ensures c !in IntToString(n)
  {
  }
}
