/** Decimal printing and stream extraction of 32-bit integers, as `to_string` and `operator>>` do them. */
module Decimal {

  datatype Option<+T> = None | Some(value: T)

  predicate IsInt32(i: int) { -0x8000_0000 <= i < 0x8000_0000 }

  /** The values of a C `int`. */
  type int32 = i: int | IsInt32(i)

  /** A 64-bit integer stored in a 32-bit one, keeping the low 32 bits. */
  function Low32(x: int): int32 {
    var r := x % 0x1_0000_0000;
    if r < 0x8000_0000 then r else r - 0x1_0000_0000
  }

  predicate IsDigit(c: char) { '0' <= c <= '9' }

  predicate IsSpace(c: char) { c == ' ' || '\t' <= c <= '\r' }

  function DigitChar(d: nat): char
    requires d < 10
  {
    '0' + d as char
  }

  function DigitValue(c: char): nat
    requires IsDigit(c)
  {
    (c - '0') as int
  }

  function Digits(n: nat): (s: string)
    ensures s != "" && forall i | 0 <= i < |s| :: IsDigit(s[i])
  {
    if n < 10 then [DigitChar(n)] else Digits(n / 10) + [DigitChar(n % 10)]
  }

  function Negative(digits: string): string { ['-'] + digits }

  /** to_string(int) */
  function ToString(i: int): (s: string)
    ensures s != "" && forall k | 0 <= k < |s| :: IsDigit(s[k]) || s[k] == '-'
  {
    if i < 0 then Negative(Digits(-i)) else Digits(i)
  }

  /** The value of a run of digits. */
  function ValueOf(s: string): nat
    requires forall i | 0 <= i < |s| :: IsDigit(s[i])
  {
    if s == "" then 0 else 10 * ValueOf(s[..|s| - 1]) + DigitValue(s[|s| - 1])
  }

  /** How many digits `s` starts with. */
  function DigitRun(s: string): (k: nat)
    ensures k <= |s| && forall i | 0 <= i < k :: IsDigit(s[i])
    ensures k < |s| ==> !IsDigit(s[k])
  {
    if s != "" && IsDigit(s[0]) then 1 + DigitRun(s[1..]) else 0
  }

  function SkipSpace(s: string): (t: string)
    ensures |t| <= |s|
  {
    if s != "" && IsSpace(s[0]) then SkipSpace(s[1..]) else s
  }

  /** A run of digits at the start of `s`: the number and what follows it. */
  function ReadDigits(s: string): (r: Option<(nat, string)>)
    ensures r.Some? ==> |r.value.1| < |s|
  {
    var k := DigitRun(s);
    if k == 0 then None else Some((ValueOf(s[..k]), s[k..]))
  }

  /** The same with a sign. */
  function ReadNumber(s: string): (r: Option<(int, string)>)
    ensures r.Some? ==> |r.value.1| < |s|
  {
    var signed := s != "" && (s[0] == '-' || s[0] == '+');
    match ReadDigits(if signed then s[1..] else s)
    case None => None
    case Some((v, rest)) => Some((if signed && s[0] == '-' then 0 - v else v, rest))
  }

  /** `stream >> i` for an int: leading white space is skipped; without digits, or with a value
      that is no int, the stream fails.  On success: the value and the unread characters. */
  function ReadInt(s: string): (r: Option<(int32, string)>)
    ensures r.Some? ==> |r.value.1| < |s|
  {
    match ReadNumber(SkipSpace(s))
    case None => None
    case Some((v, rest)) => if IsInt32(v) then Some((v, rest)) else None
  }

  lemma {:induction false} DigitsValue(n: nat)
    ensures ValueOf(Digits(n)) == n
  {
    if n >= 10 {
      DigitsValue(n / 10);
      assert Digits(n)[..|Digits(n)| - 1] == Digits(n / 10);
    } else {
      assert Digits(n)[..0] == "";
    }
  }

  lemma {:induction false} DigitRunConcat(s: string, rest: string)
    requires forall i | 0 <= i < |s| :: IsDigit(s[i])
    ensures DigitRun(s + rest) == |s| + DigitRun(rest)
  {
    if s == "" {
      assert s + rest == rest;
    } else {
      assert (s + rest)[1..] == s[1..] + rest;
      DigitRunConcat(s[1..], rest);
    }
  }

  /** The digits that `s` starts with. */
  function LeadingDigits(s: string): (d: string)
    ensures forall i | 0 <= i < |d| :: IsDigit(d[i])
    ensures d == "" <==> s == "" || !IsDigit(s[0])
  {
    s[..DigitRun(s)]
  }

  /** A number whose decimal form runs on into the digits `d`. */
  function Shift(n: nat, d: string): nat
    requires forall k | 0 <= k < |d| :: IsDigit(d[k])
  {
    if d == "" then n else 10 * Shift(n, d[..|d| - 1]) + DigitValue(d[|d| - 1])
  }

  lemma {:induction false} ValueOfConcat(a: string, d: string)
    requires forall i | 0 <= i < |a| :: IsDigit(a[i])
    requires forall i | 0 <= i < |d| :: IsDigit(d[i])
    ensures forall i | 0 <= i < |a + d| :: IsDigit((a + d)[i])
    ensures ValueOf(a + d) == Shift(ValueOf(a), d)
  {
    if d == "" {
      assert a + d == a;
    } else {
      var m := |d| - 1;
      assert (a + d)[..|a + d| - 1] == a + d[..m];
      ValueOfConcat(a, d[..m]);
    }
  }

  /** The number read when the decimal form of `i` runs on into the digits `d`. */
  function Widen(i: int, d: string): int
    requires forall k | 0 <= k < |d| :: IsDigit(d[k])
  {
    if i < 0 then 0 - Shift(-i, d) else Shift(i, d)
  }

  lemma {:induction false} DigitsBehind(n: nat, behind: string)
    ensures ReadDigits(Digits(n) + behind) == Some((Shift(n, LeadingDigits(behind)), behind[DigitRun(behind)..]))
  {
    var d := LeadingDigits(behind);
    var run := Digits(n) + behind;
    DigitRunConcat(Digits(n), behind);
    assert run[..DigitRun(run)] == Digits(n) + d;
    assert run[DigitRun(run)..] == behind[DigitRun(behind)..];
    ValueOfConcat(Digits(n), d);
    DigitsValue(n);
  }

  /** What extraction makes of a printed number, whatever follows it. */
  lemma {:induction false} ReadNumberBehind(i: int, behind: string)
    ensures ReadNumber(ToString(i) + behind) == Some((Widen(i, LeadingDigits(behind)), behind[DigitRun(behind)..]))
  {
    if i < 0 { NegativeTextBehind(i, 0 - i, behind); } else { ReadNaturalBehind(i, behind); }
  }

  lemma {:induction false} NegativeTextBehind(i: int, n: nat, behind: string)
    requires i == 0 - n < 0
    ensures ReadNumber(ToString(i) + behind) == Some((Widen(i, LeadingDigits(behind)), behind[DigitRun(behind)..]))
  {
    var v, rest := Shift(n, LeadingDigits(behind)), behind[DigitRun(behind)..];
    var w: int := Widen(i, LeadingDigits(behind));
    assert ToString(i) == Negative(Digits(n)) && w + v == 0;
    assert ReadDigits(Digits(n) + behind) == Some((v, rest)) by { DigitsBehind(n, behind); }
    ReadAfterMinus(Digits(n), behind, v, w, rest);
  }

  lemma {:induction false} ReadAfterMinus(digits: string, behind: string, v: nat, w: int, rest: string)
    requires ReadDigits(digits + behind) == Some((v, rest)) && w + v == 0
    ensures ReadNumber(Negative(digits) + behind) == Some((w, rest))
  {
    var s := Negative(digits) + behind;
    assert s[0] == '-' && s[1..] == digits + behind;
  }

  lemma {:induction false} ReadNaturalBehind(n: nat, behind: string)
    ensures ReadNumber(Digits(n) + behind) == Some((Shift(n, LeadingDigits(behind)) as int, behind[DigitRun(behind)..]))
  {
    DigitsBehind(n, behind);
  }

  lemma {:induction false} ReadIntBehind(i: int, behind: string)
    ensures var w := Widen(i, LeadingDigits(behind));
            ReadInt(ToString(i) + behind) == if IsInt32(w) then Some((w, behind[DigitRun(behind)..])) else None
  {
    ReadNumberBehind(i, behind);
    assert SkipSpace(ToString(i) + behind) == ToString(i) + behind;
  }

  lemma {:induction false} ShiftSame(n: nat, d: string)
    requires forall k | 0 <= k < |d| :: IsDigit(d[k])
    ensures Shift(n, d) >= n
    ensures Shift(n, d) == n <==> d == "" || (n == 0 && forall k | 0 <= k < |d| :: d[k] == '0')
  {
    if d != "" {
      var m := |d| - 1;
      ShiftSame(n, d[..m]);
      assert forall k | 0 <= k < m :: d[k] == d[..m][k];
    }
  }

  /** The number survives exactly when no digit follows, or it is 0 and only zeros follow. */
  lemma {:induction false} WidenSame(i: int, d: string)
    requires forall k | 0 <= k < |d| :: IsDigit(d[k])
    ensures Widen(i, d) == i <==> d == "" || (i == 0 && forall k | 0 <= k < |d| :: d[k] == '0')
  {
    ShiftSame(if i < 0 then 0 - i else i, d);
  }

  /** Extraction undoes printing, whatever follows, as long as it is not a digit. */
  lemma ReadNumberOfToString(i: int, rest: string)
    requires rest == "" || !IsDigit(rest[0])
    ensures ReadNumber(ToString(i) + rest) == Some((i, rest))
  {
    ReadNumberBehind(i, rest);
    WidenSame(i, LeadingDigits(rest));
  }

  lemma ReadIntOfToString(i: int32, rest: string)
    requires rest == "" || !IsDigit(rest[0])
    ensures ReadInt(ToString(i) + rest) == Some((i, rest))
  {
    ReadIntBehind(i, rest);
    WidenSame(i, LeadingDigits(rest));
  }

  /** Printing is injective. */
  lemma ToStringInjective(i: int, j: int)
    requires ToString(i) == ToString(j)
    ensures i == j
  {
    ReadNumberOfToString(i, "");
    ReadNumberOfToString(j, "");
    assert ToString(i) + "" == ToString(j) + "";
  }

  lemma {:induction false} DigitsLength(n: nat, k: nat, bound: nat)
    requires 0 < k && bound == PowerOfTen(k) && n < bound
    ensures |Digits(n)| <= k
  {
    if n >= 10 {
      assert PowerOfTen(0) == 1;
      DigitsLength(n / 10, k - 1, PowerOfTen(k - 1));
    }
  }

  function PowerOfTen(k: nat): (p: nat)
    ensures p >= 1
  {
    if k == 0 then 1 else 10 * PowerOfTen(k - 1)
  }

  lemma Int32Length(i: int)
    requires IsInt32(i)
    ensures |ToString(i)| <= 11
  {
    assert PowerOfTen(5) == 100_000;
    assert PowerOfTen(10) == 10_000_000_000 by {
      assert PowerOfTen(8) == 100_000_000;
    }
    DigitsLength(if i < 0 then -i else i, 10, PowerOfTen(10));
  }
}
