/** Decimal rendering of natural numbers, plain (`str(n)`) and with a comma
    between groups of three digits (the `,` format option). */
module Numerals {
  import opened Text

  predicate AllDigits(s: string)
  {
    forall k :: 0 <= k < |s| ==> IsAsciiDigit(s[k])
  }

  function DigitValue(c: char): (d: nat)
    requires IsAsciiDigit(c)
    ensures d < 10
  {
    c as int - '0' as int
  }

  function DigitChar(d: nat): (c: char)
    requires d < 10
    ensures IsAsciiDigit(c) && DigitValue(c) == d
  {
    ('0' as int + d) as char
  }

  /** `str(n)`: the shortest decimal numeral of `n`. */
  function Decimal(n: nat): (r: string)
    ensures |r| > 0 && AllDigits(r)
    ensures r[0] == '0' <==> n == 0
    decreases n
  {
    if n < 10 then [DigitChar(n)] else Decimal(n / 10) + [DigitChar(n % 10)]
  }

  /** The number a string of digits denotes. */
  function ValueOf(s: string): nat
    requires AllDigits(s)
    decreases |s|
  {
    if |s| == 0 then 0 else 10 * ValueOf(s[..|s| - 1]) + DigitValue(s[|s| - 1])
  }

  lemma {:induction false} DecimalRoundTrip(n: nat)
    ensures ValueOf(Decimal(n)) == n
    decreases n
  {
    if n >= 10 {
      DecimalRoundTrip(n / 10);
      var r := Decimal(n);
      assert r[..|r| - 1] == Decimal(n / 10);
    }
  }

  /** Three digits with leading zeros: the group after a comma. */
  function Pad3(n: nat): (r: string)
    requires n < 1000
    ensures |r| == 3 && AllDigits(r)
  {
    [DigitChar(n / 100), DigitChar(n / 10 % 10), DigitChar(n % 10)]
  }

  /** `f"{n:,}"`: the decimal numeral with a comma before every group of three
      digits counted from the right. */
  function Grouped(n: nat): (r: string)
    ensures |r| > 0
    ensures forall k :: 0 <= k < |r| ==> IsAsciiDigit(r[k]) || r[k] == ','
    ensures n >= 1000 <==> ',' in r
    decreases n
  {
    if n < 1000 then Decimal(n) else Grouped(n / 1000) + "," + Pad3(n % 1000)
  }

  /** A number below 1000 has at most three digits. */
  lemma ShortDecimal(n: nat)
    requires n < 1000
    ensures |Decimal(n)| <= 3
  {
    if n >= 10 {
      assert Decimal(n) == Decimal(n / 10) + [DigitChar(n % 10)];
      if n / 10 >= 10 {
        assert Decimal(n / 10) == Decimal(n / 100) + [DigitChar(n / 10 % 10)];
      }
    }
  }

  /** Where the commas go: the first character is a digit, and a comma
      stands exactly at every fourth position counted from the right end, so
      every group after the first has three digits. */
  lemma {:induction false} GroupedCommaPositions(n: nat)
    ensures forall k :: 0 <= k < |Grouped(n)| ==>
              (Grouped(n)[k] == ',' <==> 0 < k && (|Grouped(n)| - k) % 4 == 0)
    decreases n
  {
    var r := Grouped(n);
    if n < 1000 {
      ShortDecimal(n);
      forall k | 0 <= k < |r|
        ensures r[k] != ','
      {
        assert IsAsciiDigit(Decimal(n)[k]);
      }
    } else {
      var g, p := Grouped(n / 1000), Pad3(n % 1000);
      GroupedCommaPositions(n / 1000);
      assert r == g + [','] + p;
      forall k | 0 <= k < |r|
        ensures r[k] == ',' <==> 0 < k && (|r| - k) % 4 == 0
      {
        if k < |g| {
          assert r[k] == g[k];
          assert (|r| - k) % 4 == (|g| - k) % 4;
        } else if k > |g| {
          assert r[k] == p[k - |g| - 1];
          assert IsAsciiDigit(p[k - |g| - 1]);
        }
      }
    }
  }

  /** The string with its commas deleted. */
  function DropCommas(s: string): (r: string)
    ensures ',' !in r
    decreases |s|
  {
    if |s| == 0 then "" else (if s[0] == ',' then "" else [s[0]]) + DropCommas(s[1..])
  }

  lemma {:induction false} DropCommasAppend(a: string, b: string)
    ensures DropCommas(a + b) == DropCommas(a) + DropCommas(b)
    decreases |a|
  {
    if |a| > 0 {
      assert (a + b)[1..] == a[1..] + b;
      DropCommasAppend(a[1..], b);
    } else {
      assert a + b == b;
    }
  }

  lemma {:induction false} DropCommasDigits(s: string)
    requires AllDigits(s)
    ensures DropCommas(s) == s
    decreases |s|
  {
    if |s| > 0 {
      DropCommasDigits(s[1..]);
      assert [s[0]] + s[1..] == s;
    }
  }

  /** The last three decimal digits of `n` are the digits of `n % 1000`. */
  lemma LastThreeDigits(n: nat)
    ensures n / 10 / 10 == n / 100 && n / 100 / 10 == n / 1000
    ensures n / 100 % 10 == n % 1000 / 100
    ensures n / 10 % 10 == n % 1000 / 10 % 10
    ensures n % 10 == n % 1000 % 10
  {
    var q, r := n / 1000, n % 1000;
    assert n == 1000 * q + r;
    assert n / 10 == 100 * q + r / 10;
    assert n / 100 == 10 * q + r / 100;
  }

  /** Peeling the last three digits off a numeral of at least four digits. */
  lemma DecimalSplit(n: nat)
    requires n >= 1000
    ensures Decimal(n) == Decimal(n / 1000) + Pad3(n % 1000)
  {
    LastThreeDigits(n);
    calc {
      Decimal(n);
      Decimal(n / 10) + [DigitChar(n % 10)];
      Decimal(n / 100) + [DigitChar(n / 10 % 10)] + [DigitChar(n % 10)];
      Decimal(n / 1000) + [DigitChar(n / 100 % 10)] + [DigitChar(n / 10 % 10)] + [DigitChar(n % 10)];
      Decimal(n / 1000) + Pad3(n % 1000);
    }
  }

  /** Deleting the commas of the grouped numeral gives the plain numeral. */
  lemma {:induction false} GroupedDigits(n: nat)
    ensures DropCommas(Grouped(n)) == Decimal(n)
    decreases n
  {
    if n < 1000 {
      DropCommasDigits(Decimal(n));
    } else {
      GroupedDigits(n / 1000);
      DropCommasAppend(Grouped(n / 1000) + ",", Pad3(n % 1000));
      DropCommasAppend(Grouped(n / 1000), ",");
      DropCommasDigits(Pad3(n % 1000));
      DecimalSplit(n);
    }
  }

  /** The grouped numeral determines the number: reading its digits back
      gives `n`. */
  lemma GroupedRoundTrip(n: nat)
    ensures AllDigits(DropCommas(Grouped(n)))
    ensures ValueOf(DropCommas(Grouped(n))) == n
  {
    GroupedDigits(n);
    DecimalRoundTrip(n);
  }
}
