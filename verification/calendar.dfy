/** chrono's `NaiveDate` and `NaiveDateTime` as far as the program uses them: the
    `%Y-%m-%d` and `%Y-%m-%d %H:%M:%S` formats, parsing them back, and the order of dates.
    Fields are fixed width, so the years are those with four digits, 0 to 9999. */
module Calendar {
  import opened Results
  import opened Text

  predicate IsLeapYear(year: int) {
    year % 4 == 0 && (year % 100 != 0 || year % 400 == 0)
  }

  function DaysInMonth(year: int, month: int): (n: int)
    requires 1 <= month <= 12
    ensures 28 <= n <= 31
  {
    if month == 2 then (if IsLeapYear(year) then 29 else 28)
    else if month == 4 || month == 6 || month == 9 || month == 11 then 30
    else 31
  }

  datatype Date = Date(year: int, month: int, day: int) {
    predicate Valid() {
      0 <= year <= 9999 && 1 <= month <= 12 && 1 <= day <= DaysInMonth(year, month)
    }
  }

  /** A calendar day of the proleptic Gregorian calendar. */
  type NaiveDate = d: Date | d.Valid() witness Date(1970, 1, 1)

  datatype DateTime = DateTime(date: Date, hour: int, minute: int, second: int) {
    /** chrono's `%S` accepts 60, a leap second. */
    predicate Valid() {
      date.Valid() && 0 <= hour <= 23 && 0 <= minute <= 59 && 0 <= second <= 60
    }
  }

  type NaiveDateTime = t: DateTime | t.Valid() witness DateTime(Date(1970, 1, 1), 0, 0, 0)

  /** chrono's order of `NaiveDate`: chronological. */
  predicate DateLe(a: Date, b: Date) {
    || a.year < b.year
    || (a.year == b.year && (a.month < b.month || (a.month == b.month && a.day <= b.day)))
  }

  lemma Pow10Values()
    ensures Pow10(2) == 100 && Pow10(4) == 10000
  {
  }

  /** `%Y-%m-%d`. */
  function FormatDate(d: NaiveDate): (s: string)
    ensures |s| == 10
  {
    Pow10Values();
    Pad(d.year, 4) + "-" + Pad(d.month, 2) + "-" + Pad(d.day, 2)
  }

  /** `%Y-%m-%d %H:%M:%S`, the program's DATE_TIME_FORMAT. */
  function FormatDateTime(t: NaiveDateTime): (s: string)
    ensures |s| == 19
  {
    Pow10Values();
    FormatDate(t.date) + " " + Pad(t.hour, 2) + ":" + Pad(t.minute, 2) + ":" + Pad(t.second, 2)
  }

  /** The number written in the digit field `s[lo..hi]`, if it is one. */
  function Field(s: string, lo: nat, hi: nat): (r: Option<nat>)
    requires lo <= hi <= |s|
    ensures r.Some? ==> r.value < Pow10(hi - lo)
  {
    if AllDigits(s[lo..hi]) then Some(DigitsValue(s[lo..hi])) else None
  }

  /** `NaiveDate::parse_from_str(s, "%Y-%m-%d")`. */
  function ParseDate(s: string): Option<NaiveDate> {
    if |s| != 10 || s[4] != '-' || s[7] != '-' then None
    else
      var year :- Field(s, 0, 4);
      var month :- Field(s, 5, 7);
      var day :- Field(s, 8, 10);
      var d := Date(year, month, day);
      if d.Valid() then Some(d) else None
  }

  /** `NaiveDateTime::parse_from_str(s, "%Y-%m-%d %H:%M:%S")`. */
  function ParseDateTime(s: string): Option<NaiveDateTime> {
    if |s| != 19 || s[10] != ' ' || s[13] != ':' || s[16] != ':' then None
    else
      var date :- ParseDate(s[..10]);
      var hour :- Field(s, 11, 13);
      var minute :- Field(s, 14, 16);
      var second :- Field(s, 17, 19);
      var t := DateTime(date, hour, minute, second);
      if t.Valid() then Some(t) else None
  }

  lemma FieldOfPad(s: string, lo: nat, n: nat, width: nat)
    requires n < Pow10(width)
    requires lo + width <= |s| && s[lo..lo + width] == Pad(n, width)
    ensures Field(s, lo, lo + width) == Some(n)
  {
    PadThenValue(n, width);
  }

  lemma PadOfField(s: string, lo: nat, hi: nat)
    requires lo <= hi <= |s| && Field(s, lo, hi).Some?
    ensures Pad(Field(s, lo, hi).value, hi - lo) == s[lo..hi]
  {
    ValueThenPad(s[lo..hi]);
  }

  lemma FormatThenParseDate(d: NaiveDate)
    ensures ParseDate(FormatDate(d)) == Some(d)
  {
    Pow10Values();
    var year, month, day := Pad(d.year, 4), Pad(d.month, 2), Pad(d.day, 2);
    var s := FormatDate(d);
    var upToMonth := year + "-" + month;
    assert s == upToMonth + "-" + day;
    assert s[..7] == upToMonth && s[7] == '-' && s[8..10] == day;
    assert s[0..4] == year && s[4] == '-' && s[5..7] == month;
    FieldOfPad(s, 0, d.year, 4);
    FieldOfPad(s, 5, d.month, 2);
    FieldOfPad(s, 8, d.day, 2);
  }

  lemma ParseThenFormatDate(s: string)
    requires ParseDate(s).Some?
    ensures FormatDate(ParseDate(s).value) == s
  {
    Pow10Values();
    PadOfField(s, 0, 4);
    PadOfField(s, 5, 7);
    PadOfField(s, 8, 10);
    assert s == s[0..4] + "-" + s[5..7] + "-" + s[8..10];
  }

  lemma DateRoundTrip(s: string, d: NaiveDate)
    ensures ParseDate(s) == Some(d) <==> FormatDate(d) == s
  {
    if ParseDate(s) == Some(d) {
      ParseThenFormatDate(s);
    }
    if FormatDate(d) == s {
      FormatThenParseDate(d);
    }
  }

  lemma FormatThenParseDateTime(t: NaiveDateTime)
    ensures ParseDateTime(FormatDateTime(t)) == Some(t)
  {
    Pow10Values();
    var date, hour, minute, second := FormatDate(t.date), Pad(t.hour, 2), Pad(t.minute, 2), Pad(t.second, 2);
    var s := FormatDateTime(t);
    var upToHour := date + " " + hour;
    var upToMinute := upToHour + ":" + minute;
    assert s == upToMinute + ":" + second;
    assert s[..16] == upToMinute && s[16] == ':' && s[17..19] == second;
    assert s[..13] == upToHour && s[13] == ':' && s[14..16] == minute;
    assert s[..10] == date && s[10] == ' ' && s[11..13] == hour;
    FormatThenParseDate(t.date);
    FieldOfPad(s, 11, t.hour, 2);
    FieldOfPad(s, 14, t.minute, 2);
    FieldOfPad(s, 17, t.second, 2);
  }

  lemma ParseThenFormatDateTime(s: string)
    requires ParseDateTime(s).Some?
    ensures FormatDateTime(ParseDateTime(s).value) == s
  {
    Pow10Values();
    var t := ParseDateTime(s).value;
    assert t.date == ParseDate(s[..10]).value;
    assert t.hour == Field(s, 11, 13).value;
    assert t.minute == Field(s, 14, 16).value;
    assert t.second == Field(s, 17, 19).value;
    ParseThenFormatDate(s[..10]);
    PadOfField(s, 11, 13);
    PadOfField(s, 14, 16);
    PadOfField(s, 17, 19);
    assert s[..13] == s[..10] + [s[10]] + s[11..13];
    assert s[..16] == s[..13] + [s[13]] + s[14..16];
    assert s == s[..16] + [s[16]] + s[17..19];
  }

  /** Formatting a timestamp with DATE_TIME_FORMAT and parsing it back with the same
      format are inverse to each other, in both directions. */
  lemma DateTimeRoundTrip(s: string, t: NaiveDateTime)
    ensures ParseDateTime(s) == Some(t) <==> FormatDateTime(t) == s
  {
    if ParseDateTime(s) == Some(t) {
      ParseThenFormatDateTime(s);
    }
    if FormatDateTime(t) == s {
      FormatThenParseDateTime(t);
    }
  }
}
