/**
  Order timestamps. The dashboard parses `date_created` with
  `datetime.strptime` in one of two formats, chosen by whether the string
  contains a `T`, compares the resulting datetimes, and writes one back with
  `strftime("%Y-%m-%dT%H:%M:%S")` for the incremental-fetch `after` filter.
 */
module Dates {
  import opened Text

  datatype DateTime = DateTime(year: int, month: int, day: int, hour: int, minute: int, second: int)

  predicate IsLeapYear(y: int)
  {
    y % 4 == 0 && (y % 100 != 0 || y % 400 == 0)
  }

  function DaysInMonth(y: int, m: int): int
    requires 1 <= m <= 12
  {
    if m == 2 then (if IsLeapYear(y) then 29 else 28)
    else if m == 4 || m == 6 || m == 9 || m == 11 then 30
    else 31
  }

  /** The values Python's `datetime` constructor accepts. */
  predicate IsValid(d: DateTime)
  {
    && 1 <= d.year <= 9999
    && 1 <= d.month <= 12
    && 1 <= d.day <= DaysInMonth(d.year, d.month)
    && 0 <= d.hour < 24
    && 0 <= d.minute < 60
    && 0 <= d.second < 60
  }

  /** `a < b` on datetimes: chronological, field by field. */
  predicate Before(a: DateTime, b: DateTime)
  {
    if a.year != b.year then a.year < b.year
    else if a.month != b.month then a.month < b.month
    else if a.day != b.day then a.day < b.day
    else if a.hour != b.hour then a.hour < b.hour
    else if a.minute != b.minute then a.minute < b.minute
    else a.second < b.second
  }

  /** `strptime(s, "%Y-%m-%d" + sep + "%H:%M:%S")`, every field written at full width. */
  function ParseAs(s: string, sep: char): (r: Option<DateTime>)
    ensures r.Some? ==> IsValid(r.value)
  {
    if |s| == 19 && s[4] == '-' && s[7] == '-' && s[10] == sep && s[13] == ':' && s[16] == ':'
       && AllDigits(s[0..4]) && AllDigits(s[5..7]) && AllDigits(s[8..10])
       && AllDigits(s[11..13]) && AllDigits(s[14..16]) && AllDigits(s[17..19])
    then
      var d := DateTime(DigitsValue(s[0..4]), DigitsValue(s[5..7]), DigitsValue(s[8..10]),
                        DigitsValue(s[11..13]), DigitsValue(s[14..16]), DigitsValue(s[17..19]));
      if IsValid(d) then Some(d) else None
    else None
  }

  /** The dashboard's date parse: the `T` format when the string holds a `T`, else the space format; `None` where `strptime` raises. A string it accepts has the 19 characters of the two formats. */
  function ParseDate(s: string): (r: Option<DateTime>)
    ensures r.Some? ==> IsValid(r.value) && |s| == 19 && (s[10] == 'T' || s[10] == ' ')
  {
    ParseAs(s, if 'T' in s then 'T' else ' ')
  }

  /** `d.strftime("%Y-%m-%d" + sep + "%H:%M:%S")` */
  function FormatAs(d: DateTime, sep: char): (s: string)
    requires IsValid(d)
    ensures |s| == 19
  {
    PadDigits(d.year, 4) + "-" + PadDigits(d.month, 2) + "-" + PadDigits(d.day, 2) + [sep]
    + PadDigits(d.hour, 2) + ":" + PadDigits(d.minute, 2) + ":" + PadDigits(d.second, 2)
  }

  /** The `after` query parameter: `d.strftime("%Y-%m-%dT%H:%M:%S")`. */
  function FormatIso(d: DateTime): string
    requires IsValid(d)
  {
    FormatAs(d, 'T')
  }

  lemma FormatAsFields(d: DateTime, sep: char)
    requires IsValid(d)
    ensures var s := FormatAs(d, sep);
      && s[0..4] == PadDigits(d.year, 4) && s[4] == '-'
      && s[5..7] == PadDigits(d.month, 2) && s[7] == '-'
      && s[8..10] == PadDigits(d.day, 2) && s[10] == sep
      && s[11..13] == PadDigits(d.hour, 2) && s[13] == ':'
      && s[14..16] == PadDigits(d.minute, 2) && s[16] == ':'
      && s[17..19] == PadDigits(d.second, 2)
  {
  }

  /** Formatting a valid datetime and parsing it back with the same separator gives the datetime. */
  lemma {:induction false} ParseAsFormatAs(d: DateTime, sep: char)
    requires IsValid(d)
    ensures ParseAs(FormatAs(d, sep), sep) == Some(d)
  {
    FormatAsFields(d, sep);
    ValueOfPadDigits(d.year, 4);
    ValueOfPadDigits(d.month, 2);
    ValueOfPadDigits(d.day, 2);
    ValueOfPadDigits(d.hour, 2);
    ValueOfPadDigits(d.minute, 2);
    ValueOfPadDigits(d.second, 2);
  }

  /** The `after` timestamp sent to the store reads back, under the dashboard's own parse, as the datetime it came from. */
  lemma {:induction false} ParseDateFormatIso(d: DateTime)
    requires IsValid(d)
    ensures ParseDate(FormatIso(d)) == Some(d)
  {
    var s := FormatIso(d);
    FormatAsFields(d, 'T');
    assert s[10] == 'T';
    ParseAsFormatAs(d, 'T');
  }

  /** A string the parse accepts is exactly the formatting of what it parsed to. */
  lemma {:induction false} FormatAsParseAs(s: string, sep: char)
    requires ParseAs(s, sep).Some?
    ensures FormatAs(ParseAs(s, sep).value, sep) == s
  {
    PadDigitsOfValue(s[0..4]);
    PadDigitsOfValue(s[5..7]);
    PadDigitsOfValue(s[8..10]);
    PadDigitsOfValue(s[11..13]);
    PadDigitsOfValue(s[14..16]);
    PadDigitsOfValue(s[17..19]);
    assert s == s[0..4] + "-" + s[5..7] + "-" + s[8..10] + [sep]
      + s[11..13] + ":" + s[14..16] + ":" + s[17..19];
  }

  /** A string the dashboard's parse accepts is exactly its date written back at full width, with the separator it has. */
  lemma ParseDateCanonical(s: string)
    requires ParseDate(s).Some?
    ensures s == FormatAs(ParseDate(s).value, s[10])
  {
    FormatAsParseAs(s, if 'T' in s then 'T' else ' ');
  }


  /** `Before` is a strict total order on datetimes, as Python's datetime comparison is. */
  lemma BeforeIsStrictTotalOrder(a: DateTime, b: DateTime, c: DateTime)
    ensures !Before(a, a)
    ensures Before(a, b) && Before(b, c) ==> Before(a, c)
    ensures a != b ==> Before(a, b) || Before(b, a)
    ensures Before(a, b) ==> !Before(b, a)
  {
  }
}
