/** `parse_amount` and `parse_date` of the Truist table parsers: amounts
    in whole cents, month/day strings made into dates of a given year.
    None stands for the exception the Python code raises. */
module Normalizer {
  import opened Wrappers
  import opened Text
  import opened Models

  function RemoveCommas(s: string): string {
    if |s| == 0 then []
    else (if s[0] == ',' then [] else [s[0]]) + RemoveCommas(s[1..])
  }

  lemma {:induction false} RemoveCommasAppend(a: string, b: string)
    ensures RemoveCommas(a + b) == RemoveCommas(a) + RemoveCommas(b)
  {
    if |a| > 0 {
      assert (a + b)[0] == a[0] && (a + b)[1..] == a[1..] + b;
      RemoveCommasAppend(a[1..], b);
    } else {
      assert a + b == b;
    }
  }

  lemma {:induction false} RemoveCommasNone(s: string)
    requires ',' !in s
    ensures RemoveCommas(s) == s
  {
    if |s| > 0 {
      RemoveCommasNone(s[1..]);
    }
  }

  /** Dropping commas keeps a point and a comma-free tail in place. */
  lemma RemoveCommasPoint(head: string, frac: string)
    requires ',' !in frac
    ensures RemoveCommas(head + "." + frac) == RemoveCommas(head) + "." + frac
  {
    RemoveCommasAppend(head, "." + frac);
    assert head + "." + frac == head + ("." + frac);
    RemoveCommasNone("." + frac);
  }

  /** Dropping the commas of a run of digits and commas leaves only digits. */
  lemma {:induction false} RemoveCommasDigits(s: string)
    requires DigitsAndCommas(s)
    ensures AllDigits(RemoveCommas(s))
  {
    if |s| > 0 {
      assert DigitsAndCommas(s[1..]) by {
        forall k | 0 <= k < |s[1..]| ensures IsDigit(s[1..][k]) || s[1..][k] == ',' {
          assert s[1..][k] == s[k + 1];
        }
      }
      RemoveCommasDigits(s[1..]);
    }
  }

  /** A decimal numeral with exactly two fraction digits and no sign:
      `\d*\.\d\d`. */
  predicate IsTwoDecimal(c: string) {
    |c| >= 3 && c[|c| - 3] == '.' && IsDigit(c[|c| - 2]) && IsDigit(c[|c| - 1])
    && AllDigits(c[..|c| - 3])
  }

  /** `parse_amount`: `Decimal(s.replace(",", "").strip())`, in cents, for
      the unsigned two-decimal numerals the callers pass it. */
  function ParseAmount(s: string): (r: Option<nat>)
  {
    ReadTwoDecimal(Strip(RemoveCommas(s)))
  }

  /** The value in cents of a `\d*\.\d\d` numeral. */
  function ReadTwoDecimal(c: string): Option<nat> {
    if IsTwoDecimal(c) then Some(DigitsValue(c[..|c| - 3]) * 100 + DigitsValue(c[|c| - 2..]))
    else None
  }

  /** Groups the digits of a whole number by thousands: "1234" becomes "1,234". */
  function GroupThousands(ds: string): (r: string)
    ensures |r| >= |ds|
  {
    if |ds| <= 3 then ds
    else GroupThousands(ds[..|ds| - 3]) + "," + ds[|ds| - 3..]
  }

  predicate DigitsAndCommas(s: string) {
    forall k :: 0 <= k < |s| ==> IsDigit(s[k]) || s[k] == ','
  }

  /** Grouping adds only commas. */
  lemma {:induction false} GroupThousandsCommas(ds: string)
    ensures RemoveCommas(GroupThousands(ds)) == RemoveCommas(ds)
  {
    if |ds| > 3 {
      var head := ds[..|ds| - 3];
      var tail := ds[|ds| - 3..];
      var g := GroupThousands(head);
      GroupThousandsCommas(head);
      assert GroupThousands(ds) == g + "," + tail;
      assert RemoveCommas(g + "," + tail) == RemoveCommas(g) + RemoveCommas(tail) by {
        RemoveCommasAppend(g + ",", tail);
        RemoveCommasAppend(g, ",");
        assert RemoveCommas(",") == [] by { assert ","[1..] == []; }
      }
      assert RemoveCommas(ds) == RemoveCommas(head) + RemoveCommas(tail) by {
        assert ds == head + tail;
        RemoveCommasAppend(head, tail);
      }
    }
  }

  /** A grouped digit string holds only digits and commas. */
  lemma {:induction false} GroupThousandsChars(ds: string)
    requires AllDigits(ds)
    ensures DigitsAndCommas(GroupThousands(ds))
  {
    if |ds| > 3 {
      var head := ds[..|ds| - 3];
      var tail := ds[|ds| - 3..];
      var g := GroupThousands(head);
      var r := g + "," + tail;
      assert GroupThousands(ds) == r;
      assert AllDigits(head) by {
        forall k | 0 <= k < |head| ensures IsDigit(head[k]) { assert head[k] == ds[k]; }
      }
      GroupThousandsChars(head);
      forall k | 0 <= k < |r| ensures IsDigit(r[k]) || r[k] == ',' {
        if k < |g| {
          assert r[k] == g[k];
        } else if k > |g| {
          assert r[k] == tail[k - |g| - 1] == ds[|ds| - 3 + k - |g| - 1];
        } else {
          assert r[k] == ',';
        }
      }
    }
  }

  function TwoDigits(n: nat): (r: string)
    requires n < 100
    ensures |r| == 2 && AllDigits(r)
  {
    [DigitChar(n / 10), DigitChar(n % 10)]
  }

  /** How a statement prints an amount: "1,234.56" for 123456 cents. */
  function FormatCents(cents: nat): string {
    GroupThousands(NatToDigits(cents / 100)) + "." + TwoDigits(cents % 100)
  }

  lemma TwoDigitsValue(n: nat)
    requires n < 100
    ensures DigitsValue(TwoDigits(n)) == n
  {
    var r := TwoDigits(n);
    assert DigitsValue(r[..1]) == DigitValue(r[0]) by {
      assert r[..1][..0] == [];
    }
    assert DigitsValue(r) == DigitsValue(r[..1]) * 10 + DigitValue(r[1]);
    assert DigitValue(DigitChar(n / 10)) == n / 10;
    assert DigitValue(DigitChar(n % 10)) == n % 10;
  }

  /** Dropping the commas of a printed amount leaves its plain numeral. */
  lemma FormatCentsCommas(cents: nat)
    ensures RemoveCommas(FormatCents(cents))
         == NatToDigits(cents / 100) + "." + TwoDigits(cents % 100)
  {
    var whole := NatToDigits(cents / 100);
    var frac := "." + TwoDigits(cents % 100);
    assert ',' !in whole by {
      forall k | 0 <= k < |whole| ensures whole[k] != ',' { assert IsDigit(whole[k]); }
    }
    assert ',' !in frac;
    GroupThousandsCommas(whole);
    RemoveCommasAppend(GroupThousands(whole), frac);
    RemoveCommasNone(whole);
    RemoveCommasNone(frac);
    assert FormatCents(cents) == GroupThousands(whole) + frac;
  }

  /** Helper: `ReadTwoDecimal` of a numeral with known parts. */
  lemma ReadTwoDecimalValue(c: string, whole: string, frac: string)
    requires IsTwoDecimal(c) && c[..|c| - 3] == whole && c[|c| - 2..] == frac
    ensures ReadTwoDecimal(c) == Some(DigitsValue(whole) * 100 + DigitsValue(frac))
  {
  }

  /** Digits (possibly none), a point and two more digits form a stripped
      two-decimal numeral. */
  lemma PlainNumeral(whole: string, frac: string)
    requires AllDigits(whole) && |frac| == 2 && AllDigits(frac)
    ensures var c := whole + "." + frac;
      Strip(c) == c && IsTwoDecimal(c) && c[..|c| - 3] == whole && c[|c| - 2..] == frac
  {
    var c := whole + "." + frac;
    assert c[0] == (if |whole| > 0 then whole[0] else '.');
    assert !IsSpace(c[0]) && IsDigit(c[|c| - 1]);
    StripTrimmed(c);
    assert c[..|c| - 3] == whole;
    assert c[|c| - 2..] == frac;
  }

  /** A plain numeral reads as its whole part in hundreds plus its two
      fraction digits; an empty whole part reads as zero. */
  lemma ReadPlainNumeral(whole: string, frac: string)
    requires AllDigits(whole) && |frac| == 2 && AllDigits(frac)
    ensures ReadTwoDecimal(Strip(whole + "." + frac)) == Some(DigitsValue(whole) * 100 + DigitsValue(frac))
  {
    var c := whole + "." + frac;
    PlainNumeral(whole, frac);
    ReadTwoDecimalValue(c, whole, frac);
  }

  /** Amounts as printed on a statement read back exactly: every comma is
      dropped and the two fraction digits become the cents. */
  lemma ParseAmountRoundTrip(cents: nat)
    ensures ParseAmount(FormatCents(cents)) == Some(cents)
  {
    var q, m := cents / 100, cents % 100;
    var whole, frac := NatToDigits(q), TwoDigits(m);
    assert RemoveCommas(FormatCents(cents)) == whole + "." + frac by { FormatCentsCommas(cents); }
    assert ReadTwoDecimal(Strip(whole + "." + frac)) == Some(DigitsValue(whole) * 100 + DigitsValue(frac)) by {
      ReadPlainNumeral(whole, frac);
    }
    assert DigitsValue(whole) == q by { DigitsRoundTrip(q); }
    assert DigitsValue(frac) == m by { TwoDigitsValue(m); }
  }

  /** `int(s)` for a non-empty string of decimal digits. */
  function ParseInt(s: string): (r: Option<int>)
    ensures r.Some? ==> r.value >= 0
  {
    if |s| > 0 && AllDigits(s) then Some(DigitsValue(s)) else None
  }

  /** `parse_date`: split "MM/DD" at "/" and build `date(year, MM, DD)`.
      None where Python raises ValueError: not exactly two parts, a part
      that is not a number, or a day, month or year out of range. */
  function ParseDate(s: string, year: int): (r: Option<Date>)
    ensures r.Some? ==> r.value.year == year
    ensures r.Some? ==> IsValidDate(r.value.year, r.value.month, r.value.day)
  {
    var parts := Split(s, '/');
    if |parts| != 2 then None
    else
      match (ParseInt(parts[0]), ParseInt(parts[1]))
      case (Some(m), Some(d)) => if IsValidDate(year, m, d) then Some(Date(year, m, d)) else None
      case _ => None
  }

  /** A "MM/DD" string gives the date of that month and day in the year
      passed, exactly when such a date exists ("02/30" gives none). */
  lemma ParseDateRoundTrip(year: int, m: nat, d: nat)
    requires m < 100 && d < 100
    ensures ParseDate(TwoDigits(m) + "/" + TwoDigits(d), year)
         == if IsValidDate(year, m, d) then Some(Date(year, m, d)) else None
  {
    var mm := TwoDigits(m);
    var dd := TwoDigits(d);
    var s := mm + "/" + dd;
    assert s[2] == '/';
    assert FirstIndex(s, '/') == 2 by {
      assert IsDigit(s[0]) && IsDigit(s[1]);
    }
    assert s[..2] == mm && s[3..] == dd;
    assert '/' !in dd by { assert IsDigit(dd[0]) && IsDigit(dd[1]); }
    assert Split(s, '/') == [mm, dd];
    TwoDigitsValue(m);
    TwoDigitsValue(d);
  }
}
