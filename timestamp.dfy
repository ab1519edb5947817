/** `now_id`: the frame identifier, the local date-time formatted with `%Y%m%d_%H%M%S`. */
module Timestamp {
  import opened Wrappers
  import opened Decimal

  /** A `datetime` down to the second; the clock reading is passed in by the caller. */
  datatype DateTime = DateTime(year: int, month: int, day: int, hour: int, minute: int, second: int)

  predicate IsLeapYear(y: int) {
    y % 4 == 0 && (y % 100 != 0 || y % 400 == 0)
  }

  function DaysInMonth(y: int, m: int): (n: int)
    requires 1 <= m <= 12
    ensures 28 <= n <= 31
  {
    if m == 2 then (if IsLeapYear(y) then 29 else 28)
    else if m == 4 || m == 6 || m == 9 || m == 11 then 30
    else 31
  }

  /** The values a Python `datetime` can hold (years 1 to 9999). */
  predicate Valid(d: DateTime) {
    && 1 <= d.year <= 9999
    && 1 <= d.month <= 12
    && 1 <= d.day <= DaysInMonth(d.year, d.month)
    && 0 <= d.hour < 24
    && 0 <= d.minute < 60
    && 0 <= d.second < 60
  }

  /** Eight digits, an underscore, six digits. */
  predicate IsIdShape(s: string) {
    |s| == 15 && AllDigits(s[..8]) && s[8] == '_' && AllDigits(s[9..])
  }

  /** `now_id()` applied to the clock reading `d`. */
  function NowId(d: DateTime): (id: string)
    requires Valid(d)
    ensures IsIdShape(id)
  {
    var date := Padded(d.year, 4) + Padded(d.month, 2) + Padded(d.day, 2);
    var time := Padded(d.hour, 2) + Padded(d.minute, 2) + Padded(d.second, 2);
    assert AllDigits(date) && AllDigits(time);
    var id := date + "_" + time;
    assert id[..8] == date && id[9..] == time;
    id
  }

  /** Reads an identifier back as the date-time it was formatted from. */
  function ParseId(s: string): (r: Option<DateTime>)
    ensures r.Some? ==> IsIdShape(s) && Valid(r.value)
  {
    if !IsIdShape(s) then None
    else
      var d := DateTime(Value(s[0..4]), Value(s[4..6]), Value(s[6..8]),
                        Value(s[9..11]), Value(s[11..13]), Value(s[13..15]));
      if Valid(d) then Some(d) else None
  }

  /** Every identifier names the second it was taken at. */
  lemma ParseNowId(d: DateTime)
    requires Valid(d)
    ensures ParseId(NowId(d)) == Some(d)
  {
    var s := NowId(d);
    assert s[0..4] == Padded(d.year, 4);
    assert s[4..6] == Padded(d.month, 2);
    assert s[6..8] == Padded(d.day, 2);
    assert s[9..11] == Padded(d.hour, 2);
    assert s[11..13] == Padded(d.minute, 2);
    assert s[13..15] == Padded(d.second, 2);
    ValueOfPadded(d.year, 4);
    ValueOfPadded(d.month, 2);
    ValueOfPadded(d.day, 2);
    ValueOfPadded(d.hour, 2);
    ValueOfPadded(d.minute, 2);
    ValueOfPadded(d.second, 2);
  }

  /** Every well-formed identifier is the one formatted from the date-time it parses to. */
  lemma NowIdOfParse(s: string)
    requires ParseId(s).Some?
    ensures NowId(ParseId(s).value) == s
  {
    var d := ParseId(s).value;
    assert d == DateTime(Value(s[0..4]), Value(s[4..6]), Value(s[6..8]),
                         Value(s[9..11]), Value(s[11..13]), Value(s[13..15]));
    FieldsOfId(s);
  }

  /** The six digit fields of a well-shaped identifier, re-padded, rebuild it. */
  lemma FieldsOfId(s: string)
    requires IsIdShape(s)
    ensures Padded(Value(s[0..4]), 4) + Padded(Value(s[4..6]), 2) + Padded(Value(s[6..8]), 2) + "_"
            + Padded(Value(s[9..11]), 2) + Padded(Value(s[11..13]), 2) + Padded(Value(s[13..15]), 2) == s
  {
    SplitFields(s);
    RepadSlice(s[..8], 0, 4);
    RepadSlice(s[..8], 4, 6);
    RepadSlice(s[..8], 6, 8);
    RepadSlice(s[9..], 0, 2);
    RepadSlice(s[9..], 2, 4);
    RepadSlice(s[9..], 4, 6);
  }

  /** How the six fields sit in a 15-character identifier. */
  lemma SplitFields(s: string)
    requires |s| == 15
    ensures s[..8][0..4] == s[0..4] && s[..8][4..6] == s[4..6] && s[..8][6..8] == s[6..8]
    ensures s[9..][0..2] == s[9..11] && s[9..][2..4] == s[11..13] && s[9..][4..6] == s[13..15]
    ensures s == s[0..4] + s[4..6] + s[6..8] + [s[8]] + s[9..11] + s[11..13] + s[13..15]
  {
    assert s[..8] == s[0..4] + s[4..6] + s[6..8];
    assert s[9..] == s[9..11] + s[11..13] + s[13..15];
    assert s == s[..8] + [s[8]] + s[9..];
  }

  /** Two readings of the clock give the same identifier only within the same second. */
  lemma NowIdInjective(d1: DateTime, d2: DateTime)
    requires Valid(d1) && Valid(d2) && NowId(d1) == NowId(d2)
    ensures d1 == d2
  {
    ParseNowId(d1);
    ParseNowId(d2);
  }
}
