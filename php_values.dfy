/** PHP's numeric strings, `(int)` casts and ordered arrays, as far as the
    configuration loader and the status code use them. */
module PhpValues {
  import opened Wrappers
  import opened PhpText

  /** The whitespace PHP 8 allows around a numeric string: " \t\n\r\v\f". */
  const NumericSpace: set<char> := {' ', '\t', '\n', '\r', '\U{000B}', '\U{000C}'}

  /** A decimal numeral as PHP reads one: sign, whole digits, an optional
      dot with fraction digits, and an optional exponent. */
  datatype Numeral = Numeral(
    negative: bool, whole: string, dot: bool, fraction: string,
    expNegative: bool, exponent: string)

  /** The digits at the start of `s`. */
  function DigitRun(s: string): (r: string)
    ensures |r| <= |s| && r == s[..|r|]
    ensures forall i :: 0 <= i < |r| ==> IsDigit(r[i])
    ensures |r| < |s| ==> !IsDigit(s[|r|])
  {
    if |s| > 0 && IsDigit(s[0]) then [s[0]] + DigitRun(s[1..]) else []
  }

  /** `[eE][+-]?\d+` at the start of `x`: its sign, its digits and its
      length, or a length of 0 when there is no complete exponent. */
  function ScanExponent(x: string): (r: (bool, string, nat))
    ensures r.2 <= |x|
    ensures forall i :: 0 <= i < |r.1| ==> IsDigit(r.1[i])
  {
    if |x| == 0 || (x[0] != 'e' && x[0] != 'E') then (false, "", 0)
    else
      var sg := if |x| > 1 && (x[1] == '+' || x[1] == '-') then 1 else 0;
      var d := DigitRun(x[1 + sg..]);
      if |d| == 0 then (false, "", 0)
      else (sg == 1 && x[1] == '-', d, 1 + sg + |d|)
  }

  /** `\d+(\.\d*)?` or `\.\d+` at the start of `u`: whole digits, whether a
      dot follows, fraction digits and the length spanned. */
  function ScanMantissa(u: string): (r: Option<(string, bool, string, nat)>)
    ensures r.Some? ==> r.value.3 <= |u|
    ensures r.Some? ==> forall i :: 0 <= i < |r.value.0| ==> IsDigit(r.value.0[i])
    ensures r.Some? ==> forall i :: 0 <= i < |r.value.2| ==> IsDigit(r.value.2[i])
  {
    var whole := DigitRun(u);
    var hasDot := |whole| < |u| && u[|whole|] == '.';
    var fraction := if hasDot then DigitRun(u[|whole| + 1..]) else "";
    if |whole| + |fraction| == 0 then None
    else Some((whole, hasDot, fraction, |whole| + (if hasDot then 1 + |fraction| else 0)))
  }

  /** The numeral at the start of `s` after leading whitespace, and the
      number of characters it spans (whitespace included); None when no
      digit comes before or just after the dot. */
  function ScanNumeral(s: string): (r: Option<(Numeral, nat)>)
    ensures r.Some? ==> r.value.1 <= |s| && WellFormed(r.value.0)
  {
    var w := LeadCount(s, NumericSpace);
    var sg := if w < |s| && (s[w] == '+' || s[w] == '-') then 1 else 0;
    match ScanMantissa(s[w + sg..])
    case None => None
    case Some((whole, dot, fraction, len)) =>
      var m := w + sg + len;
      var e := ScanExponent(s[m..]);
      Some((Numeral(sg == 1 && s[w] == '-', whole, dot, fraction, e.0, e.1), m + e.2))
  }

  /** PHP 8 `is_numeric` on a string: a numeral, with whitespace allowed
      before and after it and nothing else. */
  predicate IsNumeric(s: string) {
    match ScanNumeral(s)
    case None => false
    case Some((_, n)) => LeadCount(s[n..], NumericSpace) == |s| - n
  }

  function Pow10(n: nat): (r: nat)
    ensures r >= 1
  {
    if n == 0 then 1 else 10 * Pow10(n - 1)
  }

  function ExponentValue(n: Numeral): int
    requires forall i :: 0 <= i < |n.exponent| ==> IsDigit(n.exponent[i])
  {
    var e: int := DigitsValue(n.exponent);
    if n.expNegative then -e else e
  }

  predicate WellFormed(n: Numeral) {
    && (forall i :: 0 <= i < |n.whole| ==> IsDigit(n.whole[i]))
    && (forall i :: 0 <= i < |n.fraction| ==> IsDigit(n.fraction[i]))
    && (forall i :: 0 <= i < |n.exponent| ==> IsDigit(n.exponent[i]))
  }

  /** The digits of the mantissa, whole part then fraction. */
  function MantissaDigits(n: Numeral): string {
    n.whole + n.fraction
  }

  /** The value of a numeral truncated toward zero, as `(int)` of a float. */
  function Truncate(n: Numeral): int
    requires WellFormed(n)
  {
    var m := MantissaDigits(n);
    assert forall i :: 0 <= i < |m| ==> IsDigit(m[i]);
    var mant := DigitsValue(m);
    var e := ExponentValue(n) - |n.fraction|;
    var mag := if e >= 0 then mant * Pow10(e) else mant / Pow10(-e);
    if n.negative then -mag else mag
  }

  /** `(int)` of a string: the numeral at its start, truncated and
      saturated to the int range, or 0 when it does not start with one. */
  function IntOfString(s: string): int {
    match ScanNumeral(s)
    case None => 0
    case Some((n, _)) => SaturatingCast(Truncate(n))
  }

  /** A numeral's value is zero exactly when all its mantissa digits are zero. */
  predicate NumeralIsZero(n: Numeral) {
    forall i :: 0 <= i < |MantissaDigits(n)| ==> MantissaDigits(n)[i] == '0'
  }

  lemma {:induction false} DigitRunAll(d: string)
    requires forall i :: 0 <= i < |d| ==> IsDigit(d[i])
    ensures DigitRun(d) == d
  {
    if |d| > 0 {
      DigitRunAll(d[1..]);
    }
  }

  /** Plain decimal digits scan as a whole number with no dot. */
  lemma ScanDigits(d: string)
    requires |d| > 0 && forall i :: 0 <= i < |d| ==> IsDigit(d[i])
    ensures ScanMantissa(d) == Some((d, false, "", |d|))
  {
    DigitRunAll(d);
  }

  /** The decimal text of a natural number, signed or not, scans as that
      number, and nothing follows it. */
  lemma ScanDecimal(digits: string, negative: bool)
    requires |digits| > 0 && forall i :: 0 <= i < |digits| ==> IsDigit(digits[i])
    ensures var s := (if negative then "-" else "") + digits;
      && ScanNumeral(s) == Some((Numeral(negative, digits, false, "", false, ""), |s|))
      && IsNumeric(s)
  {
    var s := (if negative then "-" else "") + digits;
    var sg := if negative then 1 else 0;
    ScanDigits(digits);
    assert s[sg..] == digits;
    assert s[0] == (if negative then '-' else digits[0]);
    assert s[0] !in NumericSpace;
    WholeNumeral(s, sg, digits);
  }

  /** A numeral with no leading space, no dot and no exponent that runs to
      the end of `s`. */
  lemma WholeNumeral(s: string, sg: nat, whole: string)
    requires |s| > 0 && s[0] !in NumericSpace
    requires sg == (if s[0] == '+' || s[0] == '-' then 1 else 0)
    requires sg <= |s| && ScanMantissa(s[sg..]) == Some((whole, false, "", |s| - sg))
    ensures ScanNumeral(s) == Some((Numeral(sg == 1 && s[0] == '-', whole, false, "", false, ""), |s|))
    ensures IsNumeric(s)
  {
    assert LeadCount(s, NumericSpace) == 0;
    assert s[|s|..] == [];
  }

  /** `(int)` of a signed run of decimal digits: its value when that fits
      an int, the nearest bound beyond, and 0 once the text overflows a
      double. */
  lemma IntOfDigitRun(digits: string, negative: bool)
    requires |digits| > 0 && forall i :: 0 <= i < |digits| ==> IsDigit(digits[i])
    ensures var s := (if negative then "-" else "") + digits;
      var v: int := DigitsValue(digits);
      && IsNumeric(s)
      && IntOfString(s) == SaturatingCast(if negative then -v else v)
      && (v <= IntMax ==> IntOfString(s) == (if negative then -v else v))
      && (!negative && IntMax < v < DoubleOverflow ==> IntOfString(s) == IntMax)
      && (negative && -IntMin < v < DoubleOverflow ==> IntOfString(s) == IntMin)
      && (v >= DoubleOverflow ==> IntOfString(s) == 0)
  {
    ScanDecimal(digits, negative);
    TruncateWhole(Numeral(negative, digits, false, "", false, ""));
  }

  /** `(int)` of the decimal text of an integer gives the integer back when
      it is a PHP int, and saturates otherwise. */
  lemma IntOfDecimal(i: int)
    ensures IsNumeric(IntToString(i))
    ensures IntOfString(IntToString(i)) == SaturatingCast(i)
    ensures IsPhpInt(i) ==> IntOfString(IntToString(i)) == i
  {
    var magnitude: nat := if i < 0 then -i else i;
    var digits := NatToString(magnitude);
    IntOfDigitRun(digits, i < 0);
    assert IntToString(i) == (if i < 0 then "-" else "") + digits;
    DigitsValueOfNatToString(magnitude);
  }

  /** A numeral without fraction or exponent is its whole digits' value. */
  lemma TruncateWhole(n: Numeral)
    requires WellFormed(n) && n.fraction == "" && n.exponent == ""
    ensures var v: int := DigitsValue(n.whole); Truncate(n) == (if n.negative then -v else v)
  {
    assert MantissaDigits(n) == n.whole;
    assert ExponentValue(n) == 0;
    assert Pow10(0) == 1;
  }

  // ---------------------------------------------------------------------
  // Ordered arrays

  /** A PHP array with string keys: its keys in insertion order and the
      value under each. */
  datatype PhpArray<V> = PhpArray(keys: seq<string>, vals: map<string, V>)
  {
    ghost predicate Valid() {
      && (forall i, j :: 0 <= i < j < |keys| ==> keys[i] != keys[j])
      && (forall k :: k in vals <==> k in keys)
    }
  }

  function EmptyArray<V>(): (a: PhpArray<V>)
    ensures a.Valid() && |a.keys| == 0
  {
    PhpArray([], map[])
  }

  /** `$a[$k] = $v`: a new key goes to the end; an existing key keeps its
      place and takes the new value. */
  function Put<V>(a: PhpArray<V>, k: string, v: V): PhpArray<V> {
    if k in a.vals then a.(vals := a.vals[k := v])
    else PhpArray(a.keys + [k], a.vals[k := v])
  }

  /** `$a[$k] ?? null`. */
  function Lookup<V>(a: PhpArray<V>, k: string): Option<V> {
    if k in a.vals then Some(a.vals[k]) else None
  }

  lemma PutValid<V>(a: PhpArray<V>, k: string, v: V)
    requires a.Valid()
    ensures Put(a, k, v).Valid()
    ensures Lookup(Put(a, k, v), k) == Some(v)
    ensures forall k' :: k' != k ==> Lookup(Put(a, k, v), k') == Lookup(a, k')
    ensures k in a.vals ==> Put(a, k, v).keys == a.keys
    ensures k !in a.vals ==> Put(a, k, v).keys == a.keys + [k]
  {
  }

  /** The assignments of a loop, in order. */
  function PutAll<V>(a: PhpArray<V>, entries: seq<(string, V)>): PhpArray<V> {
    if |entries| == 0 then a
    else
      var n := |entries| - 1;
      Put(PutAll(a, entries[..n]), entries[n].0, entries[n].1)
  }

  /** The value the last entry with key `k` carries, if any. */
  function LastWith<V>(entries: seq<(string, V)>, k: string): Option<V> {
    if |entries| == 0 then None
    else if entries[|entries| - 1].0 == k then Some(entries[|entries| - 1].1)
    else LastWith(entries[..|entries| - 1], k)
  }

  /** After a run of assignments a key holds the value of its last
      assignment, or what it held before when the run never assigned it;
      the array stays well formed. */
  lemma {:induction false} PutAllLookup<V>(a: PhpArray<V>, entries: seq<(string, V)>, k: string)
    requires a.Valid()
    ensures PutAll(a, entries).Valid()
    ensures Lookup(PutAll(a, entries), k)
      == if LastWith(entries, k).Some? then LastWith(entries, k) else Lookup(a, k)
  {
    if |entries| > 0 {
      var n := |entries| - 1;
      PutAllLookup(a, entries[..n], k);
      PutValid(PutAll(a, entries[..n]), entries[n].0, entries[n].1);
    }
  }

  /** Keys already present stay in place and keep their order. */
  lemma {:induction false} PutAllKeepsKeys<V>(a: PhpArray<V>, entries: seq<(string, V)>)
    ensures |PutAll(a, entries).keys| >= |a.keys|
    ensures PutAll(a, entries).keys[..|a.keys|] == a.keys
  {
    if |entries| > 0 {
      var n := |entries| - 1;
      PutAllKeepsKeys(a, entries[..n]);
    }
  }

  /** Assignments to distinct keys the array does not hold append those
      keys, in order. */
  lemma {:induction false} PutAllFreshKeys<V>(a: PhpArray<V>, entries: seq<(string, V)>, ks: seq<string>)
    requires a.Valid()
    requires |ks| == |entries| && forall i :: 0 <= i < |entries| ==> entries[i].0 == ks[i]
    requires forall i, j :: 0 <= i < j < |ks| ==> ks[i] != ks[j]
    requires forall i :: 0 <= i < |ks| ==> ks[i] !in a.vals
    ensures PutAll(a, entries).keys == a.keys + ks
  {
    if |entries| > 0 {
      var n := |entries| - 1;
      var front := ks[..n];
      PutAllFreshKeys(a, entries[..n], front);
      PutAllLookup(a, entries[..n], ks[n]);
      LastIsNew(a.keys, ks);
      FreshKeyAppends(PutAll(a, entries[..n]), ks[n], entries[n].1);
    }
  }

  lemma LastIsNew(old_keys: seq<string>, ks: seq<string>)
    requires |ks| > 0
    requires forall i, j :: 0 <= i < j < |ks| ==> ks[i] != ks[j]
    requires ks[|ks| - 1] !in old_keys
    ensures ks[|ks| - 1] !in old_keys + ks[..|ks| - 1]
  {
    var n := |ks| - 1;
    forall j | 0 <= j < n ensures ks[..n][j] != ks[n] {
      assert ks[..n][j] == ks[j];
    }
  }

  lemma FreshKeyAppends<V>(b: PhpArray<V>, k: string, v: V)
    requires b.Valid() && k !in b.keys
    ensures Put(b, k, v).keys == b.keys + [k]
  {
    PutValid(b, k, v);
  }

  /** `$a[$k] ?? $default`. */
  function LookupOr<V>(a: PhpArray<V>, k: string, default: V): V {
    if k in a.vals then a.vals[k] else default
  }

  /** What a loop keeps of a sequence: one assignment for each element that
      yields one, in order. */
  function FilterMap<X, V>(f: X -> Option<(string, V)>, xs: seq<X>): seq<(string, V)> {
    if |xs| == 0 then []
    else
      var n := |xs| - 1;
      FilterMap(f, xs[..n]) + (match f(xs[n]) case None => [] case Some(e) => [e])
  }

  lemma FilterMapStep<X, V>(f: X -> Option<(string, V)>, xs: seq<X>, i: nat)
    requires i < |xs|
    ensures FilterMap(f, xs[..i + 1])
      == FilterMap(f, xs[..i]) + (match f(xs[i]) case None => [] case Some(e) => [e])
  {
    assert xs[..i + 1][..i] == xs[..i];
  }

  lemma PutAllStep<V>(a: PhpArray<V>, entries: seq<(string, V)>, e: (string, V))
    ensures PutAll(a, entries + [e]) == Put(PutAll(a, entries), e.0, e.1)
  {
    assert (entries + [e])[..|entries|] == entries;
  }

  /** One more element of the loop's sequence assigns its key, when `f`
      keeps it. */
  lemma PutAllFilterStep<X, V>(a: PhpArray<V>, f: X -> Option<(string, V)>, xs: seq<X>, i: nat)
    requires i < |xs|
    ensures PutAll(a, FilterMap(f, xs[..i + 1])) == (match f(xs[i])
                                                     case None => PutAll(a, FilterMap(f, xs[..i]))
                                                     case Some(e) => Put(PutAll(a, FilterMap(f, xs[..i])), e.0, e.1))
  {
    FilterMapStep(f, xs, i);
    match f(xs[i])
    case None =>
      assert FilterMap(f, xs[..i + 1]) == FilterMap(f, xs[..i]);
    case Some(e) =>
      PutAllStep(a, FilterMap(f, xs[..i]), e);
  }

  /** The last element of a loop's sequence contributes at most one
      assignment at the end. */
  lemma FilterMapLastStep<X, V>(f: X -> Option<(string, V)>, xs: seq<X>, k: string)
    requires |xs| > 0
    ensures var n := |xs| - 1;
      LastWith(FilterMap(f, xs), k)
        == if f(xs[n]).Some? && f(xs[n]).value.0 == k then Some(f(xs[n]).value.1)
           else LastWith(FilterMap(f, xs[..n]), k)
  {
    var n := |xs| - 1;
    var front := FilterMap(f, xs[..n]);
    if f(xs[n]).Some? {
      assert (front + [f(xs[n]).value])[..|front|] == front;
    } else {
      assert front + [] == front;
    }
  }

  /** The last element that yields key `k` decides what the loop leaves
      under `k`. */
  lemma {:induction false} FilterMapLast<X, V>(f: X -> Option<(string, V)>, xs: seq<X>, j: nat, k: string, v: V)
    requires j < |xs| && f(xs[j]) == Some((k, v))
    requires forall i :: j < i < |xs| ==> f(xs[i]).None? || f(xs[i]).value.0 != k
    ensures LastWith(FilterMap(f, xs), k) == Some(v)
  {
    var n := |xs| - 1;
    FilterMapLastStep(f, xs, k);
    if j < n {
      FilterMapLast(f, xs[..n], j, k, v);
    }
  }

  /** No element yields key `k`: the loop assigns nothing under `k`. */
  lemma {:induction false} FilterMapAbsent<X, V>(f: X -> Option<(string, V)>, xs: seq<X>, k: string)
    requires forall i :: 0 <= i < |xs| ==> f(xs[i]).None? || f(xs[i]).value.0 != k
    ensures LastWith(FilterMap(f, xs), k) == None
  {
    if |xs| > 0 {
      FilterMapLastStep(f, xs, k);
      FilterMapAbsent(f, xs[..|xs| - 1], k);
    }
  }

  /** Whatever the loop leaves under `k` came from some element. */
  lemma {:induction false} FilterMapSource<X, V>(f: X -> Option<(string, V)>, xs: seq<X>, k: string)
    requires LastWith(FilterMap(f, xs), k).Some?
    ensures exists j :: 0 <= j < |xs| && f(xs[j]) == Some((k, LastWith(FilterMap(f, xs), k).value))
  {
    var n := |xs| - 1;
    var v := LastWith(FilterMap(f, xs), k).value;
    FilterMapLastStep(f, xs, k);
    if f(xs[n]).Some? && f(xs[n]).value.0 == k {
      assert f(xs[n]) == Some((k, v));
    } else {
      FilterMapSource(f, xs[..n], k);
      var j :| 0 <= j < n && f(xs[..n][j]) == Some((k, v));
      assert xs[..n][j] == xs[j];
    }
  }
}
