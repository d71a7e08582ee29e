/** The PHP string primitives the core relies on: trim, explode/implode,
    str_contains, str_starts_with, strtolower and decimal conversion.
    A PHP string is a byte string; here it is a `string` holding one byte per
    character. */
module PhpText {
  import opened Wrappers

  /** The characters PHP's trim() strips by default: " \t\n\r\0\x0B". */
  const TrimChars: set<char> := {' ', '\t', '\n', '\r', '\0', '\U{000B}'}

  /** The characters PCRE's `\s` matches outside UTF mode: space, \t, \n, \x0B, \f, \r. */
  const RegexSpace: set<char> := {' ', '\t', '\n', '\U{000B}', '\U{000C}', '\r'}

  /** PCRE's `\d` outside UTF mode. */
  const Digits: set<char> := {'0', '1', '2', '3', '4', '5', '6', '7', '8', '9'}

  predicate IsDigit(c: char) {
    '0' <= c <= '9'
  }

  lemma DigitsAreDigits(c: char)
    ensures c in Digits <==> IsDigit(c)
  {
  }

  /** Length of the longest prefix of `s` made of characters in `cs`. */
  function LeadCount(s: string, cs: set<char>): (n: nat)
    ensures n <= |s|
    ensures forall i :: 0 <= i < n ==> s[i] in cs
    ensures n < |s| ==> s[n] !in cs
  {
    if |s| > 0 && s[0] in cs then 1 + LeadCount(s[1..], cs) else 0
  }

  /** A run of `cs` characters followed by a character outside `cs` has
      exactly the run's length as its prefix count. */
  lemma {:induction false} LeadCountPrefix(a: string, b: string, cs: set<char>)
    requires forall j :: 0 <= j < |a| ==> a[j] in cs
    requires |b| > 0 ==> b[0] !in cs
    ensures LeadCount(a + b, cs) == |a|
  {
    if |a| > 0 {
      assert (a + b)[1..] == a[1..] + b;
      LeadCountPrefix(a[1..], b, cs);
    } else {
      assert a + b == b;
    }
  }

  /** Length of the longest suffix of `s` made of characters in `cs`. */
  function TailCount(s: string, cs: set<char>): (n: nat)
    ensures n <= |s|
    ensures forall i :: |s| - n <= i < |s| ==> s[i] in cs
    ensures n < |s| ==> s[|s| - n - 1] !in cs
  {
    if |s| > 0 && s[|s| - 1] in cs then 1 + TailCount(s[..|s| - 1], cs) else 0
  }

  /** PHP `trim($s, $cs)`: strip the characters of `cs` from both ends. */
  function Strip(s: string, cs: set<char>): string
  {
    var rest := s[LeadCount(s, cs)..];
    rest[..|rest| - TailCount(rest, cs)]
  }

  /** Strip removes exactly the maximal runs of `cs` characters at both ends:
      what is left is a contiguous part of `s` that neither starts nor ends
      with a character of `cs`, and everything cut off lies in `cs`. */
  lemma StripShape(s: string, cs: set<char>)
    ensures var r := Strip(s, cs);
      exists a, b :: 0 <= a <= b <= |s| && r == s[a..b]
        && (forall i :: 0 <= i < a ==> s[i] in cs)
        && (forall i :: b <= i < |s| ==> s[i] in cs)
    ensures var r := Strip(s, cs); |r| > 0 ==> r[0] !in cs && r[|r| - 1] !in cs
  {
    var a := LeadCount(s, cs);
    var rest := s[a..];
    var t := TailCount(rest, cs);
    var b := |s| - t;
    assert Strip(s, cs) == s[a..b];
    if |rest| - t > 0 {
      assert rest[0] == s[a];
    }
  }

  /** A string that neither starts nor ends with a character of `cs` is left as it is. */
  lemma StripNoop(s: string, cs: set<char>)
    requires |s| > 0 ==> s[0] !in cs && s[|s| - 1] !in cs
    ensures Strip(s, cs) == s
  {
  }

  /** PHP `trim($s)` with the default character list. */
  function Trim(s: string): string {
    Strip(s, TrimChars)
  }

  /** PHP `empty($s)` on a string: true for "" and for "0". */
  predicate IsEmptyString(s: string) {
    s == "" || s == "0"
  }

  /** Index of the first occurrence of `c` in `s`. */
  function IndexOf(s: string, c: char): (r: Option<nat>)
    ensures r.None? ==> c !in s
    ensures r.Some? ==> r.value < |s| && s[r.value] == c && c !in s[..r.value]
  {
    if |s| == 0 then None
    else if s[0] == c then Some(0)
    else match IndexOf(s[1..], c)
      case None => None
      case Some(i) =>
        assert s[..i + 1] == [s[0]] + s[1..][..i];
        Some(i + 1)
  }

  /** PHP `explode($sep, $s)` for a one-character separator. */
  function Split(s: string, sep: char): (parts: seq<string>)
    ensures |parts| >= 1
    ensures forall i :: 0 <= i < |parts| ==> sep !in parts[i]
    decreases |s|
  {
    match IndexOf(s, sep)
    case None => [s]
    case Some(i) => [s[..i]] + Split(s[i + 1..], sep)
  }

  /** PHP `implode($sep, $parts)`. */
  function Join(parts: seq<string>, sep: char): string
  {
    if |parts| == 0 then ""
    else if |parts| == 1 then parts[0]
    else parts[0] + [sep] + Join(parts[1..], sep)
  }

  /** Splitting and re-joining gives the original string back. */
  lemma {:induction false} JoinSplit(s: string, sep: char)
    ensures Join(Split(s, sep), sep) == s
    decreases |s|
  {
    match IndexOf(s, sep)
    case None =>
      assert Split(s, sep) == [s];
    case Some(i) =>
      var rest := Split(s[i + 1..], sep);
      assert Split(s, sep) == [s[..i]] + rest;
      JoinSplit(s[i + 1..], sep);
      JoinCons(s[..i], rest, sep);
      assert s == s[..i] + [sep] + s[i + 1..];
  }

  lemma JoinCons(p: string, rest: seq<string>, sep: char)
    requires |rest| >= 1
    ensures Join([p] + rest, sep) == p + [sep] + Join(rest, sep)
  {
    assert ([p] + rest)[1..] == rest;
  }

  /** Joining parts that hold no separator and splitting again gives the parts back. */
  lemma {:induction false} SplitJoin(parts: seq<string>, sep: char)
    requires |parts| >= 1
    requires forall i :: 0 <= i < |parts| ==> sep !in parts[i]
    ensures Split(Join(parts, sep), sep) == parts
  {
    if |parts| == 1 {
      assert IndexOf(parts[0], sep).None?;
    } else {
      var p, rest := parts[0], parts[1..];
      assert parts == [p] + rest;
      JoinCons(p, rest, sep);
      var s := p + [sep] + Join(rest, sep);
      IndexOfAfterFree(p, sep, Join(rest, sep));
      assert s[..|p|] == p;
      assert s[|p| + 1..] == Join(rest, sep);
      assert Split(s, sep) == [p] + Split(Join(rest, sep), sep);
      SplitJoin(rest, sep);
    }
  }

  /** A join of non-empty parts starts with the first part's first character
      and ends with the last part's last character. */
  lemma {:induction false} JoinHeadLast(parts: seq<string>, sep: char)
    requires |parts| > 0
    requires forall j :: 0 <= j < |parts| ==> |parts[j]| > 0
    ensures var s := Join(parts, sep);
      |s| > 0 && s[0] == parts[0][0] && s[|s| - 1] == parts[|parts| - 1][|parts[|parts| - 1]| - 1]
  {
    if |parts| > 1 {
      JoinHeadLast(parts[1..], sep);
    }
  }

  lemma IndexOfAfterFree(p: string, sep: char, rest: string)
    requires sep !in p
    ensures IndexOf(p + [sep] + rest, sep) == Some(|p|)
  {
    var s := p + [sep] + rest;
    assert s[|p|] == sep;
    assert s[..|p|] == p;
  }

  /** PHP `str_contains($s, $sub)`. */
  predicate Contains(s: string, sub: string) {
    exists i :: 0 <= i <= |s| - |sub| && OccursAt(s, sub, i)
  }

  predicate OccursAt(s: string, sub: string, i: int) {
    0 <= i <= |s| - |sub| && s[i..i + |sub|] == sub
  }

  /** PHP `str_starts_with($s, $prefix)`. */
  predicate StartsWith(s: string, prefix: string) {
    |prefix| <= |s| && s[..|prefix|] == prefix
  }

  /** ASCII lower-casing, as PHP 8's locale-independent `strtolower`. */
  function LowerChar(c: char): char {
    if 'A' <= c <= 'Z' then (c as int + 32) as char else c
  }

  function ToLower(s: string): (r: string)
    ensures |r| == |s|
    ensures forall i :: 0 <= i < |s| ==> r[i] == LowerChar(s[i])
  {
    if |s| == 0 then "" else [LowerChar(s[0])] + ToLower(s[1..])
  }

  /** ASCII upper-casing, as PHP 8's `strtoupper`. */
  function UpperChar(c: char): char {
    if 'a' <= c <= 'z' then (c as int - 32) as char else c
  }

  function ToUpper(s: string): (r: string)
    ensures |r| == |s|
    ensures forall i :: 0 <= i < |s| ==> r[i] == UpperChar(s[i])
  {
    if |s| == 0 then "" else [UpperChar(s[0])] + ToUpper(s[1..])
  }

  function DigitChar(d: nat): (c: char)
    requires d < 10
    ensures IsDigit(c) && c as int - '0' as int == d
  {
    ('0' as int + d) as char
  }

  /** PHP_INT_MAX and PHP_INT_MIN of a 64-bit build. */
  const IntMax: int := 0x7FFF_FFFF_FFFF_FFFF
  const IntMin: int := -0x8000_0000_0000_0000

  predicate IsPhpInt(i: int) {
    IntMin <= i <= IntMax
  }

  /** 2^1024 - 2^970, the least magnitude that a decimal-to-double
      conversion rounds to infinity. */
  const DoubleOverflow: int := 0xFFFF_FFFF_FFFF_FC_0000_0000_0000_0000_0000_0000_0000_0000_0000_0000_0000_0000_0000_0000_0000_0000_0000_0000_0000_0000_0000_0000_0000_0000_0000_0000_0000_0000_0000_0000_0000_0000_0000_0000_0000_0000_0000_0000_0000_0000_0000_0000_0000_0000_0000_0000_0000_0000_0000_0000_0000_0000_0000_0000_0000_0000_0000_0000_0000_000000

  /** `(int)` of numeric text whose value truncates to `v`. Text that does
      not fit an int is read as a double, which the cast saturates to the
      nearest bound, and an infinite double casts to 0. */
  function SaturatingCast(v: int): (r: int)
    ensures IsPhpInt(r)
    ensures IsPhpInt(v) ==> r == v
    ensures v >= 0 ==> r >= 0
    ensures v <= 0 ==> r <= 0
  {
    if v >= DoubleOverflow || v <= -DoubleOverflow then 0
    else if v > IntMax then IntMax
    else if v < IntMin then IntMin
    else v
  }

  /** Decimal text of a natural number, as PHP's string conversion of an int. */
  function NatToString(n: nat): (r: string)
    ensures |r| >= 1
    ensures forall i :: 0 <= i < |r| ==> IsDigit(r[i])
  {
    if n < 10 then [DigitChar(n)] else NatToString(n / 10) + [DigitChar(n % 10)]
  }

  /** Decimal text of an integer; a minus sign leads a negative value. */
  function IntToString(i: int): string {
    if i < 0 then "-" + NatToString(-i) else NatToString(i)
  }

  /** The value of a run of decimal digits. */
  function DigitsValue(s: string): nat
    requires forall i :: 0 <= i < |s| ==> IsDigit(s[i])
  {
    if |s| == 0 then 0
    else
      assert IsDigit(s[|s| - 1]);
      10 * DigitsValue(s[..|s| - 1]) + (s[|s| - 1] as int - '0' as int)
  }

  /** Reading back the decimal text of `n` gives `n`. */
  lemma {:induction false} DigitsValueOfNatToString(n: nat)
    ensures DigitsValue(NatToString(n)) == n
  {
    if n >= 10 {
      var r := NatToString(n);
      assert r[..|r| - 1] == NatToString(n / 10);
      DigitsValueOfNatToString(n / 10);
    }
  }
}
