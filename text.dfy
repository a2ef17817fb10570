/**
 * The pieces of Ruby's string formatting the report relies on: Integer#to_s,
 * Kernel#Integer on a String, `format('%Nd', …)`, Array#join and
 * Enumerable#each_slice.
 */
module Text {
  import opened Wrappers

  predicate IsDigit(c: char) {
    '0' <= c <= '9'
  }

  predicate AllDigits(s: string) {
    forall i :: 0 <= i < |s| ==> IsDigit(s[i])
  }

  function DigitChar(d: nat): (c: char)
    requires d < 10
    ensures IsDigit(c) && c as int - '0' as int == d
  {
    ('0' as int + d) as char
  }

  /** The decimal digits of `n`, most significant first, without leading zeros. */
  function NatToString(n: nat): string
    decreases n
  {
    if n < 10 then [DigitChar(n)] else NatToString(n / 10) + [DigitChar(n % 10)]
  }

  /** Integer#to_s on a natural number writes one or more digits, and no leading zero. */
  lemma {:induction false} NatToStringDigits(n: nat)
    ensures var s := NatToString(n);
            && 1 <= |s| && AllDigits(s)
            && (s[0] == '0' ==> n == 0)
            && (n < 10 <==> |s| == 1)
    decreases n
  {
    if n >= 10 {
      NatToStringDigits(n / 10);
      var s := NatToString(n);
      assert s[0] == NatToString(n / 10)[0];
    }
  }

  /** The number a string of decimal digits denotes. */
  function DigitsValue(s: string): nat
    requires AllDigits(s)
  {
    if s == [] then 0 else DigitsValue(s[..|s| - 1]) * 10 + (s[|s| - 1] as int - '0' as int)
  }

  lemma {:induction false} NatToStringValue(n: nat)
    ensures AllDigits(NatToString(n)) && DigitsValue(NatToString(n)) == n
  {
    NatToStringDigits(n);
    if n >= 10 {
      var s := NatToString(n);
      assert s[..|s| - 1] == NatToString(n / 10);
      NatToStringValue(n / 10);
    }
  }

  /** Integer#to_s: an optional minus sign followed by the digits of the magnitude. */
  function IntToString(i: int): string {
    if i < 0 then "-" + NatToString(-i) else NatToString(i)
  }

  /** Integer#to_s writes a minus sign exactly for negative numbers, then the digits of the magnitude. */
  lemma IntToStringForm(i: int)
    ensures var s := IntToString(i);
            && 1 <= |s|
            && (i < 0 <==> s[0] == '-')
            && (i >= 0 ==> AllDigits(s))
            && (i < 0 ==> 2 <= |s| && AllDigits(s[1..]))
  {
    if i < 0 {
      NatToStringDigits(-i);
      assert IntToString(i)[1..] == NatToString(-i);
    } else {
      NatToStringDigits(i);
    }
  }

  /**
   * Kernel#Integer on a String, for the decimal forms Integer#to_s produces:
   * an optional minus sign and at least one digit; anything else is rejected.
   */
  function ParseInt(s: string): Option<int> {
    if |s| >= 2 && s[0] == '-' && AllDigits(s[1..]) then Some(-(DigitsValue(s[1..]) as int))
    else if |s| >= 1 && AllDigits(s) then Some(DigitsValue(s))
    else None
  }

  /** Kernel#Integer reads back what Integer#to_s writes. */
  lemma IntToStringRoundTrip(i: int)
    ensures ParseInt(IntToString(i)) == Some(i)
  {
    var s := IntToString(i);
    IntToStringForm(i);
    if i < 0 {
      assert s[1..] == NatToString(-i);
      NatToStringValue(-i);
    } else {
      assert s[0] != '-';
      NatToStringValue(i);
    }
  }

  /** A leading digit other than zero makes a digit string denote a positive number. */
  lemma {:induction false} DigitsPositive(s: string)
    requires 1 <= |s| && AllDigits(s) && s[0] != '0'
    ensures DigitsValue(s) > 0
    decreases |s|
  {
    if |s| > 1 {
      assert s[..|s| - 1][0] == s[0];
      DigitsPositive(s[..|s| - 1]);
    }
  }

  /** Integer#to_s writes back a digit string without leading zeros. */
  lemma {:induction false} DigitsValueToString(s: string)
    requires 1 <= |s| && AllDigits(s) && (s[0] == '0' ==> |s| == 1)
    ensures NatToString(DigitsValue(s)) == s
    decreases |s|
  {
    var d := s[|s| - 1] as int - '0' as int;
    if |s| == 1 {
      assert DigitsValue(s[..0]) == 0;
      assert [DigitChar(d)] == s;
    } else {
      var t := s[..|s| - 1];
      assert t[0] == s[0];
      DigitsPositive(t);
      DigitsValueToString(t);
      var n := DigitsValue(s);
      assert n / 10 == DigitsValue(t) && n % 10 == d;
      assert t + [DigitChar(d)] == s;
    }
  }

  /**
   * Kernel#Integer and Integer#to_s agree the other way round too: a decimal
   * String in the form Integer#to_s writes (no leading zero, no `-0`) is
   * written back unchanged from the number it reads as.
   */
  lemma ParseIntCanonical(s: string)
    requires 1 <= |s| && (s[0] == '-' ==> 2 <= |s| && s[1] != '0')
    requires (s[0] != '-' ==> (s[0] == '0' ==> |s| == 1))
    requires ParseInt(s).Some?
    ensures IntToString(ParseInt(s).value) == s
  {
    if s[0] == '-' {
      assert AllDigits(s[1..]);
      DigitsPositive(s[1..]);
      DigitsValueToString(s[1..]);
      assert "-" + s[1..] == s;
    } else {
      DigitsValueToString(s);
    }
  }

  function Spaces(n: nat): (s: string)
    ensures |s| == n && forall k :: 0 <= k < n ==> s[k] == ' '
  {
    if n == 0 then "" else Spaces(n - 1) + " "
  }

  /** `format('%<width>d', i)`. */
  function FormatInt(i: int, width: nat): string {
    var s := IntToString(i);
    if |s| < width then Spaces(width - |s|) + s else s
  }

  /** `%<width>d` right-justifies the decimal form of `i` with spaces, never truncating it. */
  lemma FormatIntJustifies(i: int, width: nat)
    ensures var r := FormatInt(i, width);
            && |r| == (if |IntToString(i)| < width then width else |IntToString(i)|)
            && r[|r| - |IntToString(i)|..] == IntToString(i)
            && forall k :: 0 <= k < |r| - |IntToString(i)| ==> r[k] == ' '
  {
  }

  function TotalLength(parts: seq<string>): nat {
    if parts == [] then 0 else |parts[0]| + TotalLength(parts[1..])
  }

  /** Array#join. */
  function Join(parts: seq<string>, sep: string): string {
    if parts == [] then ""
    else if |parts| == 1 then parts[0]
    else parts[0] + sep + Join(parts[1..], sep)
  }

  /** Array#join writes every part, in order, with one `sep` between neighbours. */
  lemma {:induction false} JoinLayout(parts: seq<string>, sep: string)
    requires parts != []
    ensures |Join(parts, sep)| == TotalLength(parts) + (|parts| - 1) * |sep|
    ensures Join(parts, sep)[..|parts[0]|] == parts[0]
  {
    if |parts| > 1 {
      JoinLayout(parts[1..], sep);
    }
  }

  /** Joining two non-empty lists puts one `sep` between the last part of the first and the first part of the second. */
  lemma {:induction false} JoinAppend(a: seq<string>, b: seq<string>, sep: string)
    requires a != [] && b != []
    ensures Join(a + b, sep) == Join(a, sep) + sep + Join(b, sep)
    decreases |a|
  {
    assert (a + b)[0] == a[0] && (a + b)[1..] == a[1..] + b;
    if |a| > 1 {
      JoinAppend(a[1..], b, sep);
    } else {
      assert a[1..] + b == b;
    }
  }

  function Flatten<T>(xss: seq<seq<T>>): seq<T> {
    if xss == [] then [] else xss[0] + Flatten(xss[1..])
  }

  /**
   * Enumerable#each_slice(k): consecutive slices of `k` elements, the last one
   * possibly shorter; together they are `xs` again.
   */
  function EachSlice<T>(xs: seq<T>, k: nat): (r: seq<seq<T>>)
    requires k > 0
    ensures Flatten(r) == xs
    ensures forall i :: 0 <= i < |r| ==> 0 < |r[i]| <= k
    ensures forall i :: 0 <= i < |r| - 1 ==> |r[i]| == k
    decreases |xs|
  {
    if |xs| <= k then
      if xs == [] then [] else [xs]
    else
      var rest := EachSlice(xs[k..], k);
      assert ([xs[..k]] + rest)[1..] == rest;
      assert xs[..k] + xs[k..] == xs;
      [xs[..k]] + rest
  }
}
