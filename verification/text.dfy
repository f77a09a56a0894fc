/**
 * The JavaScript string operations the core relies on: `split` on one
 * separator, decimal rendering of integers, `padStart` with zeros, `Number`
 * on a digit string and `trim`.
 */
module Text {
  import opened Wrappers

  /** `s.split(sep)` for a one-character separator: the pieces between separators, in order. */
  function Split(s: string, sep: char): (parts: seq<string>)
    ensures |parts| >= 1
    ensures forall i :: 0 <= i < |parts| ==> sep !in parts[i]
  {
    if s == [] then [""]
    else if s[0] == sep then [""] + Split(s[1..], sep)
    else
      var rest := Split(s[1..], sep);
      [[s[0]] + rest[0]] + rest[1..]
  }

  /** `parts.join(sep)`: the inverse of Split. */
  function Join(parts: seq<string>, sep: char): string
    requires |parts| >= 1
  {
    if |parts| == 1 then parts[0] else parts[0] + [sep] + Join(parts[1..], sep)
  }

  /** Joining the pieces of a split gives back the original string. */
  lemma {:induction false} JoinSplit(s: string, sep: char)
    ensures Join(Split(s, sep), sep) == s
  {
    if s != [] {
      JoinSplit(s[1..], sep);
      var rest := Split(s[1..], sep);
      if s[0] != sep {
        if |rest| == 1 {
          assert Split(s, sep) == [[s[0]] + rest[0]];
        } else {
          assert Split(s, sep)[1..] == rest[1..];
        }
      }
    }
  }

  /** A string without the separator is a single piece. */
  lemma {:induction false} SplitWithoutSeparator(a: string, sep: char)
    requires sep !in a
    ensures Split(a, sep) == [a]
  {
    if a != [] {
      SplitWithoutSeparator(a[1..], sep);
      assert [a[0]] + a[1..] == a;
    }
  }

  /** Splitting `a + sep + b`, where `a` holds no separator, gives `a` followed by the pieces of `b`. */
  lemma {:induction false} SplitAtSeparator(a: string, b: string, sep: char)
    requires sep !in a
    ensures Split(a + [sep] + b, sep) == [a] + Split(b, sep)
  {
    if a == [] {
      assert a + [sep] + b == [sep] + b;
      assert ([sep] + b)[1..] == b;
    } else {
      var s := a + [sep] + b;
      assert s[0] == a[0] && s[1..] == a[1..] + [sep] + b;
      SplitAtSeparator(a[1..], b, sep);
      assert [a[0]] + a[1..] == a;
    }
  }

  /** The character of a decimal digit. */
  function DigitChar(d: nat): (c: char)
    requires d < 10
    ensures '0' <= c <= '9'
  {
    ['0', '1', '2', '3', '4', '5', '6', '7', '8', '9'][d]
  }

  predicate IsDigit(c: char) {
    '0' <= c <= '9'
  }

  function DigitValue(c: char): (d: nat)
    requires IsDigit(c)
    ensures d < 10
  {
    (c as int) - ('0' as int)
  }

  /** `String(n)` for a natural number: decimal digits without leading zeros. */
  function NatToString(n: nat): (s: string)
    ensures |s| >= 1
    ensures forall i :: 0 <= i < |s| ==> IsDigit(s[i])
  {
    if n < 10 then [DigitChar(n)] else NatToString(n / 10) + [DigitChar(n % 10)]
  }

  function Pow10(k: nat): nat
  {
    if k == 0 then 1 else 10 * Pow10(k - 1)
  }

  /** A number below 10^k has at most k digits, and one of at least 10^(k-1) has at least k. */
  lemma {:induction false} NatToStringLength(n: nat, k: nat)
    requires k >= 1
    ensures n < Pow10(k) ==> |NatToString(n)| <= k
    ensures n >= Pow10(k - 1) ==> |NatToString(n)| >= k
  {
    if n >= 10 && k > 1 {
      NatToStringLength(n / 10, k - 1);
      assert n < Pow10(k) ==> n / 10 < Pow10(k - 1);
      if k > 2 {
        assert Pow10(k - 1) == 10 * Pow10(k - 2);
        assert n >= Pow10(k - 1) ==> n / 10 >= Pow10(k - 2);
      }
    } else if n < 10 && k > 1 {
      assert Pow10(k - 1) == 10 * Pow10(k - 2);
      PowTenPositive(k - 2);
    }
  }

  lemma {:induction false} PowTenPositive(k: nat)
    ensures Pow10(k) >= 1
  {
    if k > 0 {
      PowTenPositive(k - 1);
    }
  }

  /** `String(i)` for an integer: a minus sign before the digits of a negative one. */
  function IntToString(i: int): string
  {
    if i < 0 then "-" + NatToString(-i) else NatToString(i)
  }

  /** `s.padStart(width, '0')`. */
  function PadZeros(s: string, width: nat): (r: string)
    ensures |r| == if |s| < width then width else |s|
    ensures r[|r| - |s|..] == s
    ensures forall i :: 0 <= i < |r| - |s| ==> r[i] == '0'
    decreases width - |s|
  {
    if |s| >= width then s
    else
      var t := ['0'] + s;
      var r := PadZeros(t, width);
      var k := |r| - |t|;
      assert r[k] == t[0] by { assert r[k..][0] == r[k]; }
      assert r[k + 1..] == r[k..][1..] == s;
      r
  }

  /** `String(n).padStart(width, '0')`. */
  function PaddedNat(n: nat, width: nat): string
  {
    PadZeros(NatToString(n), width)
  }

  /** The value of a non-empty run of decimal digits. */
  function DigitsValue(s: string): (v: nat)
    requires forall i :: 0 <= i < |s| ==> IsDigit(s[i])
  {
    if s == [] then 0 else DigitsValue(s[..|s| - 1]) * 10 + DigitValue(s[|s| - 1])
  }

  /**
   * `Number(s)` on unsigned decimal digit strings only: the digits' value, and
   * 0 for the empty string as `Number("")` gives. Every other string is None,
   * although `Number` reads signs, decimals, exponents and surrounding white
   * space. The date pieces split at server/calculadora.ts:90 are always digits;
   * the paid count typed into the calculator form need not be.
   */
  function NumberOf(s: string): Option<int>
  {
    if forall i :: 0 <= i < |s| ==> IsDigit(s[i]) then Some(DigitsValue(s)) else None
  }

  /** Reading back the digits NatToString writes gives the number. */
  lemma {:induction false} DigitsOfNat(n: nat)
    ensures DigitsValue(NatToString(n)) == n
  {
    if n >= 10 {
      DigitsOfNat(n / 10);
      var s := NatToString(n);
      assert s[..|s| - 1] == NatToString(n / 10);
    }
  }

  /** A leading zero does not change the value of a digit string. */
  lemma {:induction false} LeadingZero(s: string)
    requires forall i :: 0 <= i < |s| ==> IsDigit(s[i])
    ensures DigitsValue(['0'] + s) == DigitsValue(s)
  {
    if s != [] {
      var t := ['0'] + s;
      assert t[..|t| - 1] == ['0'] + s[..|s| - 1];
      LeadingZero(s[..|s| - 1]);
    }
  }

  /** Zero padding does not change the value of a digit string. */
  lemma {:induction false} PaddingKeepsValue(s: string, width: nat)
    requires forall i :: 0 <= i < |s| ==> IsDigit(s[i])
    ensures forall i :: 0 <= i < |PadZeros(s, width)| ==> IsDigit(PadZeros(s, width)[i])
    ensures DigitsValue(PadZeros(s, width)) == DigitsValue(s)
    decreases width - |s|
  {
    if |s| < width {
      LeadingZero(s);
      PaddingKeepsValue(['0'] + s, width);
    }
  }

  /** `Number(String(n).padStart(w, '0'))` is n again. */
  lemma PaddedNatRoundTrip(n: nat, width: nat)
    ensures NumberOf(PaddedNat(n, width)) == Some(n)
  {
    PaddingKeepsValue(NatToString(n), width);
    DigitsOfNat(n);
  }

  /** The characters JavaScript's `trim` removes: white space and line terminators. */
  predicate IsJsWhitespace(c: char) {
    var n := c as int;
    (0x09 <= n <= 0x0D) || n == 0x20 || n == 0xA0 || n == 0x1680 || (0x2000 <= n <= 0x200A) ||
    n == 0x2028 || n == 0x2029 || n == 0x202F || n == 0x205F || n == 0x3000 || n == 0xFEFF
  }

  function TrimStart(s: string): string
  {
    if s != [] && IsJsWhitespace(s[0]) then TrimStart(s[1..]) else s
  }

  function TrimEnd(s: string): string
  {
    if s != [] && IsJsWhitespace(s[|s| - 1]) then TrimEnd(s[..|s| - 1]) else s
  }

  /** `s.trim()`. */
  function Trim(s: string): string
  {
    TrimEnd(TrimStart(s))
  }

  /** `!s.trim()`: nothing is left once the surrounding white space is removed. */
  predicate IsBlank(s: string) {
    Trim(s) == ""
  }

  /** A string is blank exactly when every one of its characters is white space. */
  lemma {:induction false} BlankIffAllWhitespace(s: string)
    ensures IsBlank(s) <==> forall i :: 0 <= i < |s| ==> IsJsWhitespace(s[i])
  {
    TrimStartAllWhitespace(s);
    var t := TrimStart(s);
    TrimEndEmpty(t);
  }

  lemma {:induction false} TrimStartAllWhitespace(s: string)
    ensures TrimStart(s) == "" <==> forall i :: 0 <= i < |s| ==> IsJsWhitespace(s[i])
    ensures TrimStart(s) != "" ==> !IsJsWhitespace(TrimStart(s)[0])
  {
    if s != [] && IsJsWhitespace(s[0]) {
      TrimStartAllWhitespace(s[1..]);
      if TrimStart(s) == "" {
        forall i | 0 <= i < |s| ensures IsJsWhitespace(s[i]) {
          if i > 0 { assert s[i] == s[1..][i - 1]; }
        }
      }
    }
  }

  /** TrimEnd empties a string exactly when it is all white space; one that starts with a non-blank keeps it. */
  lemma {:induction false} TrimEndEmpty(t: string)
    ensures t != [] && !IsJsWhitespace(t[0]) ==> TrimEnd(t) != ""
    ensures t == [] ==> TrimEnd(t) == ""
  {
    if t != [] && IsJsWhitespace(t[|t| - 1]) {
      TrimEndEmpty(t[..|t| - 1]);
    }
  }
}
