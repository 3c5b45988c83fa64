/** UTC timestamps in the fixed layout `YYYY-MM-DDTHH:MM:SSZ`, the layout the
    transformer hands to `datetime.strptime` with `"%Y-%m-%dT%H:%M:%SZ"`. */
module Timestamps {
  import opened Wrappers
  import opened Text

  /** A `datetime` with `tzinfo=timezone.utc` and no microseconds. */
  datatype DateTime = DateTime(year: int, month: int, day: int, hour: int, minute: int, second: int)

  predicate IsLeapYear(y: int) {
    y % 4 == 0 && (y % 100 != 0 || y % 400 == 0)
  }

  function DaysInMonth(year: int, month: int): int
    requires 1 <= month <= 12
  {
    if month == 2 then (if IsLeapYear(year) then 29 else 28)
    else if month in {4, 6, 9, 11} then 30
    else 31
  }

  /** The values Python's `datetime` constructor accepts (years 1 to 9999). */
  predicate ValidDateTime(dt: DateTime) {
    && 1 <= dt.year <= 9999
    && 1 <= dt.month <= 12
    && 1 <= dt.day <= DaysInMonth(dt.year, dt.month)
    && 0 <= dt.hour <= 23
    && 0 <= dt.minute <= 59
    && 0 <= dt.second <= 59
  }

  /** The canonical text of a timestamp: zero-padded fields, `T` and `Z` literal. */
  function FormatTimestamp(dt: DateTime): (s: string)
    requires ValidDateTime(dt)
    ensures |s| == 20
  {
    PadDigits(dt.year, 4) + "-" + PadDigits(dt.month, 2) + "-" + PadDigits(dt.day, 2)
    + "T" + PadDigits(dt.hour, 2) + ":" + PadDigits(dt.minute, 2) + ":" + PadDigits(dt.second, 2) + "Z"
  }

  predicate IsLayout(s: string) {
    && |s| == 20
    && s[4] == '-' && s[7] == '-' && s[10] == 'T' && s[13] == ':' && s[16] == ':' && s[19] == 'Z'
    && AllDigits(s[0..4]) && AllDigits(s[5..7]) && AllDigits(s[8..10])
    && AllDigits(s[11..13]) && AllDigits(s[14..16]) && AllDigits(s[17..19])
  }

  /** `datetime.strptime(s, "%Y-%m-%dT%H:%M:%SZ")` on the canonical layout;
      `None` where Python raises `ValueError` (wrong layout or a field out of range). */
  function ParseTimestamp(s: string): (r: Option<DateTime>)
    ensures r.Some? ==> ValidDateTime(r.value)
    ensures r.Some? <==> IsLayout(s) && ValidDateTime(Fields(s))
  {
    if IsLayout(s) && ValidDateTime(Fields(s)) then Some(Fields(s)) else None
  }

  function Fields(s: string): DateTime
    requires |s| == 20
    requires AllDigits(s[0..4]) && AllDigits(s[5..7]) && AllDigits(s[8..10])
    requires AllDigits(s[11..13]) && AllDigits(s[14..16]) && AllDigits(s[17..19])
  {
    DateTime(DigitsValue(s[0..4]), DigitsValue(s[5..7]), DigitsValue(s[8..10]),
             DigitsValue(s[11..13]), DigitsValue(s[14..16]), DigitsValue(s[17..19]))
  }

  /** Parsing the canonical text of a valid timestamp gives the timestamp back. */
  lemma ParseFormat(dt: DateTime)
    requires ValidDateTime(dt)
    ensures ParseTimestamp(FormatTimestamp(dt)) == Some(dt)
  {
    var s := FormatTimestamp(dt);
    assert s[0..4] == PadDigits(dt.year, 4);
    assert s[5..7] == PadDigits(dt.month, 2);
    assert s[8..10] == PadDigits(dt.day, 2);
    assert s[11..13] == PadDigits(dt.hour, 2);
    assert s[14..16] == PadDigits(dt.minute, 2);
    assert s[17..19] == PadDigits(dt.second, 2);
    DigitsValuePad(dt.year, 4);
    DigitsValuePad(dt.month, 2);
    DigitsValuePad(dt.day, 2);
    DigitsValuePad(dt.hour, 2);
    DigitsValuePad(dt.minute, 2);
    DigitsValuePad(dt.second, 2);
  }

  /** Every text the parser accepts is the canonical text of what it parsed to. */
  lemma FormatParse(s: string)
    requires ParseTimestamp(s).Some?
    ensures FormatTimestamp(ParseTimestamp(s).value) == s
  {
    var dt := Fields(s);
    var f := FormatTimestamp(dt);
    PadDigitsValue(s[0..4]);
    PadDigitsValue(s[5..7]);
    PadDigitsValue(s[8..10]);
    PadDigitsValue(s[11..13]);
    PadDigitsValue(s[14..16]);
    PadDigitsValue(s[17..19]);
    assert f[0..4] == s[0..4];
    assert f[5..7] == s[5..7];
    assert f[8..10] == s[8..10];
    assert f[11..13] == s[11..13];
    assert f[14..16] == s[14..16];
    assert f[17..19] == s[17..19];
    forall k | 0 <= k < 20
      ensures f[k] == s[k]
    {
      if k < 4 { assert f[k] == f[0..4][k]; }
      else if 5 <= k < 7 { assert f[k] == f[5..7][k - 5]; }
      else if 8 <= k < 10 { assert f[k] == f[8..10][k - 8]; }
      else if 11 <= k < 13 { assert f[k] == f[11..13][k - 11]; }
      else if 14 <= k < 16 { assert f[k] == f[14..16][k - 14]; }
      else if 17 <= k < 19 { assert f[k] == f[17..19][k - 17]; }
    }
  }
}
