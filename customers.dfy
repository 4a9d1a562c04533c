/**
  Two pieces of logic from the monthly-sales and users views: the product
  names left out of those tables, compared in the normalised form
  `' '.join(name.lower().split())`, and a customer's subscription length in
  calendar months between their first and last order dates.
 */
module Customers {
  import opened Text
  import opened Dates

  /** The product names both views leave out, as written in the source. */
  const ExcludeKeywords: seq<string> := [
      "demo product",
      "ll test",
      "this is a course title",
      "elementa digital student textbook - 1 - 10 seats",
      "elementa digital student textbook - 100 seats",
      "elementa digital student textbook - 25 seats",
      "elementa digital student textbook - 50 seats",
      "elementa digital student textbook - individual",
      "elementa digital student textbook - individual - annual",
      "elementa presentations - 100 seats",
      "elementa presentations - individual",
      "aequora",
      "aequora - 1 - 10 seats",
      "aequora - 25 seats",
      "living latin (beta) - 2 seats",
      "living latin (beta) - 6 seats",
      "living latin - individual chinese version",
      "living latin - individual",
      "living latin in rome - 1 - 10 seats",
      "living latin in rome - 100 seats",
      "living latin in rome - 25 seats",
      "living latin in rome - 50 seats",
      "elementa - 1 - 10 seats",
      "elementa - 100 seats",
      "demo product 2 - 1 - 10 seats",
      "ll test - 1 - 10 seats",
      "this is a course title - 1 - 10 seats",
      "this is a course title - 25 seats"
    ]

  /** The keywords as the views compare them, each normalised. */
  function ExcludedNames(): (names: seq<string>)
    ensures |names| == |ExcludeKeywords|
    ensures forall i :: 0 <= i < |names| ==> names[i] == Normalize(ExcludeKeywords[i])
  {
    seq(|ExcludeKeywords|, i requires 0 <= i < |ExcludeKeywords| => Normalize(ExcludeKeywords[i]))
  }

  /** A line item's product is left out when its stripped, normalised name is one of the keywords: exactly when it normalises like one of them. */
  predicate IsExcluded(name: string): (excluded: bool)
    ensures excluded <==>
      exists i :: 0 <= i < |ExcludeKeywords| && Normalize(name) == Normalize(ExcludeKeywords[i])
  {
    NormalizeStrip(name);
    InNormalized(Normalize(name), ExcludeKeywords, ExcludedNames());
    Normalize(Strip(name)) in ExcludedNames()
  }

  lemma InNormalized(x: string, ks: seq<string>, names: seq<string>)
    requires |names| == |ks|
    requires forall i :: 0 <= i < |names| ==> names[i] == Normalize(ks[i])
    ensures x in names <==> exists i :: 0 <= i < |ks| && x == Normalize(ks[i])
  {
    if x in names {
      var i :| 0 <= i < |names| && names[i] == x;
      assert x == Normalize(ks[i]);
    }
  }

  /** Case, runs of white space and white space around a name never decide whether it is left out. */
  lemma ExcludedByNormalForm(a: string, b: string)
    requires Normalize(a) == Normalize(b)
    ensures IsExcluded(a) <==> IsExcluded(b)
  {
    NormalizeStrip(a);
    NormalizeStrip(b);
  }

  /** Every keyword, and every normalised keyword, is itself left out. */
  lemma KeywordsExcluded(i: int)
    requires 0 <= i < |ExcludeKeywords|
    ensures IsExcluded(ExcludeKeywords[i])
    ensures IsExcluded(Normalize(ExcludeKeywords[i]))
  {
    var k := ExcludeKeywords[i];
    NormalizeStrip(k);
    NormalizeStrip(Normalize(k));
    NormalizeIdempotent(k);
    assert ExcludedNames()[i] == Normalize(k);
  }

  // ---------------------------------------------------------------------------
  // Subscription length

  /** Months since the start of year 0: the month difference of two dates is the difference of their indices. */
  function MonthIndex(d: DateTime): int
  {
    d.year * 12 + d.month
  }

  /**
    `subscription_months`: both dates are parsed with the format the FIRST
    date selects (`T` or space separator); a failed parse gives 0, and so
    does a last date in an earlier month. A positive length means both
    dates parse as the dashboard parses dates, the first is strictly
    earlier, and the length is their distance in calendar months.
   */
  function SubscriptionMonths(first: string, last: string): (months: nat)
    ensures months > 0 ==>
      && ParseDate(first).Some? && ParseDate(last).Some?
      && Before(ParseDate(first).value, ParseDate(last).value)
      && months == MonthIndex(ParseDate(last).value) - MonthIndex(ParseDate(first).value)
  {
    var sep := if 'T' in first then 'T' else ' ';
    var a, b := ParseAs(first, sep), ParseAs(last, sep);
    if a.Some? && b.Some? && MonthIndex(b.value) > MonthIndex(a.value)
    then
      SameFormatParse(last, sep);
      MonthIndex(b.value) - MonthIndex(a.value)
    else 0
  }

  /** A string that parses in one of the two formats is parsed the same way by `ParseDate`. */
  lemma SameFormatParse(s: string, sep: char)
    requires sep == 'T' || sep == ' '
    requires ParseAs(s, sep).Some?
    ensures ParseDate(s) == ParseAs(s, sep)
  {
    if sep == ' ' {
      FormatAsParseAs(s, sep);
      SpaceFormatHasNoT(ParseAs(s, sep).value);
    } else {
      assert s[10] == 'T';
    }
  }

  /** A date that is not earlier never has an earlier month. */
  lemma MonthIndexMonotone(a: DateTime, b: DateTime)
    requires IsValid(a) && IsValid(b)
    requires !Before(b, a)
    ensures MonthIndex(a) <= MonthIndex(b)
  {
  }

  /** The space-separated format has no `T` in it. */
  lemma SpaceFormatHasNoT(d: DateTime)
    requires IsValid(d)
    ensures 'T' !in FormatAs(d, ' ')
  {
    var s := FormatAs(d, ' ');
    FormatAsFields(d, ' ');
    forall i | 0 <= i < 19 ensures s[i] != 'T' {
      if i < 4 {
        assert s[i] == s[0..4][i];
      } else if 5 <= i < 7 {
        assert s[i] == s[5..7][i - 5];
      } else if 8 <= i < 10 {
        assert s[i] == s[8..10][i - 8];
      } else if 11 <= i < 13 {
        assert s[i] == s[11..13][i - 11];
      } else if 14 <= i < 16 {
        assert s[i] == s[14..16][i - 14];
      } else if 17 <= i {
        assert s[i] == s[17..19][i - 17];
      }
    }
  }

  /**
    For two order dates written in the same store format, the subscription
    length is the number of calendar months from the first to the last, and
    0 when the last is earlier.
   */
  lemma SubscriptionMonthsOfDates(a: DateTime, b: DateTime, sep: char)
    requires IsValid(a) && IsValid(b)
    requires sep == 'T' || sep == ' '
    ensures SubscriptionMonths(FormatAs(a, sep), FormatAs(b, sep)) ==
      if Before(b, a) then 0 else MonthIndex(b) - MonthIndex(a)
  {
    FormatAsFields(a, sep);
    if sep == ' ' {
      SpaceFormatHasNoT(a);
    } else {
      assert FormatAs(a, sep)[10] == 'T';
    }
    ParseAsFormatAs(a, sep);
    ParseAsFormatAs(b, sep);
    if !Before(b, a) {
      MonthIndexMonotone(a, b);
    }
  }

  /** A first date in the `T` format and a last date in the space format give 0 months, since the last date is parsed with the wrong format. */
  lemma SubscriptionMonthsMixedFormats(a: DateTime, b: DateTime)
    requires IsValid(a) && IsValid(b)
    ensures SubscriptionMonths(FormatAs(a, 'T'), FormatAs(b, ' ')) == 0
  {
    FormatAsFields(a, 'T');
    FormatAsFields(b, ' ');
    assert FormatAs(a, 'T')[10] == 'T';
  }
}
