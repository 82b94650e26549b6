/**
 * Timestamps. The scripts use naive local `datetime` values and the layout
 * `"%Y-%m-%d %H:%M:%S"`; here a timestamp is a number of seconds on that local
 * timeline, day 0 being 1970-01-01. `FormatStamp` is `strftime` with that
 * layout. `ParseStamp` is `strptime` with it on the zero-padded form that
 * `strftime` writes: two-digit fields and one space between date and time
 * (`None` standing for the `ValueError`). The shorter forms `strptime` also
 * accepts (one-digit fields, a space-padded day, a longer run of whitespace)
 * are refused here.
 *
 * The day arithmetic counts in 400-year eras that start on 1 March, so that the
 * leap day is the last day of its year: `YearStart` is the day within the era
 * on which a year begins, `MonthStart` the day within the year on which a month
 * begins (month 0 is March).
 */
module Clock {
  import opened Wrappers
  import opened Text

  const SecondsPerDay := 86400
  const DaysPerEra := 146097
  /** Days from 0000-03-01 to 1970-01-01. */
  const EpochShift := 719468

  datatype Civil = Civil(year: int, month: int, day: int)

  function YearStart(yoe: int): int {
    365 * yoe + yoe / 4 - yoe / 100
  }

  /** The first day after year `yoe` of an era; the era's last year holds the 400-year leap day. */
  function YearEnd(yoe: int): int {
    if yoe < 399 then YearStart(yoe + 1) else DaysPerEra
  }

  function MonthStart(mp: int): int {
    (153 * mp + 2) / 5
  }

  /** The year of the era that day `doe` falls in, searching upwards from year `y`. */
  function YearOfEra(doe: int, y: int): (r: int)
    requires 0 <= y <= 399 && YearStart(y) <= doe < DaysPerEra
    ensures y <= r <= 399 && YearStart(r) <= doe < YearEnd(r)
    decreases 399 - y
  {
    if y < 399 && YearStart(y + 1) <= doe then YearOfEra(doe, y + 1) else y
  }

  /** The calendar date of day `doe` of era `era`. */
  function CivilOfEraDay(era: int, doe: int): (c: Civil)
    requires 0 <= doe < DaysPerEra
    ensures 1 <= c.month <= 12 && 1 <= c.day <= 31
  {
    var yoe := YearOfEra(doe, 0);
    var doy := doe - YearStart(yoe);
    var mp := (5 * doy + 2) / 153;
    assert 0 <= mp <= 11 && MonthStart(mp) <= doy;
    var m := if mp < 10 then mp + 3 else mp - 9;
    Civil(yoe + era * 400 + (if m <= 2 then 1 else 0), m, doy - MonthStart(mp) + 1)
  }

  /** The calendar date of day `z` (days since 1970-01-01). */
  function CivilFromDays(z: int): (c: Civil)
    ensures 1 <= c.month <= 12 && 1 <= c.day <= 31
  {
    CivilOfEraDay((z + EpochShift) / DaysPerEra, (z + EpochShift) % DaysPerEra)
  }

  /** The day within its era of a date whose March-based year is `yoe` of that era. */
  function DayOfEra(yoe: int, m: int, d: int): int {
    YearStart(yoe) + MonthStart((m + 9) % 12) + d - 1
  }

  /** The March-based year of a date: January and February belong to the year before. */
  function MarchYear(y: int, m: int): int {
    if m <= 2 then y - 1 else y
  }

  /** The day number (days since 1970-01-01) of a calendar date. */
  function DaysFromCivil(y: int, m: int, d: int): int {
    var y' := MarchYear(y, m);
    (y' / 400) * DaysPerEra + DayOfEra(y' % 400, m, d) - EpochShift
  }

  lemma EraDayRoundTrip(era: int, doe: int)
    requires 0 <= doe < DaysPerEra
    ensures var c := CivilOfEraDay(era, doe);
      MarchYear(c.year, c.month) / 400 == era
      && DayOfEra(MarchYear(c.year, c.month) % 400, c.month, c.day) == doe
  {
    var yoe := YearOfEra(doe, 0);
    var doy := doe - YearStart(yoe);
    var mp := (5 * doy + 2) / 153;
    var m := if mp < 10 then mp + 3 else mp - 9;
    var d := doy - MonthStart(mp) + 1;
    var c := CivilOfEraDay(era, doe);
    assert c == Civil(yoe + era * 400 + (if m <= 2 then 1 else 0), m, d);
    MarchDateBack(era, yoe, mp, c);
  }

  /** A date in month `mp` (March-based) of year `yoe` of era `era` maps back to that era, year and day. */
  lemma MarchDateBack(era: int, yoe: int, mp: int, c: Civil)
    requires 0 <= yoe <= 399 && 0 <= mp <= 11
    requires c.month == (if mp < 10 then mp + 3 else mp - 9)
    requires c.year == yoe + era * 400 + (if c.month <= 2 then 1 else 0)
    ensures var y' := MarchYear(c.year, c.month);
      y' / 400 == era && DayOfEra(y' % 400, c.month, c.day) == YearStart(yoe) + MonthStart(mp) + c.day - 1
  {
    MonthIndexOf(mp);
    var y' := MarchYear(c.year, c.month);
    assert y' == era * 400 + yoe;
    DivModOf(y', era, yoe);
  }

  /** Month `m` numbered from January comes back as its March-based index. */
  lemma MonthIndexOf(mp: int)
    requires 0 <= mp <= 11
    ensures var m := if mp < 10 then mp + 3 else mp - 9; (m + 9) % 12 == mp
  { }

  lemma DivModOf(a: int, q: int, r: int)
    requires 0 <= r < 400 && a == q * 400 + r
    ensures a / 400 == q && a % 400 == r
  {
  }

  lemma DaysFromCivilOfCivil(z: int)
    ensures var c := CivilFromDays(z); DaysFromCivil(c.year, c.month, c.day) == z
  {
    var era, doe := (z + EpochShift) / DaysPerEra, (z + EpochShift) % DaysPerEra;
    EraDayRoundTrip(era, doe);
  }

  /** The date is one the calendar has: it is the date of its own day number. */
  predicate ValidDate(y: int, m: int, d: int) {
    1 <= m <= 12 && CivilFromDays(DaysFromCivil(y, m, d)) == Civil(y, m, d)
  }

  /** `datetime.strftime("%Y-%m-%d %H:%M:%S")` */
  function FormatStamp(t: int): string {
    FormatDayTime(t / SecondsPerDay, t % SecondsPerDay)
  }

  /** The stamp of second `secs` of day `days`. */
  function FormatDayTime(days: int, secs: int): string
    requires 0 <= secs < SecondsPerDay
  {
    var c := CivilFromDays(days);
    StampOf(if c.year < 0 then 0 else c.year, c.month, c.day, secs / 3600, secs % 3600 / 60, secs % 60)
  }

  /** The zero-padded stamp of a date and time of day. */
  function StampOf(y: nat, m: nat, d: nat, hh: nat, mm: nat, ss: nat): string {
    Stamp(Pad(y, 4), Pad(m, 2), Pad(d, 2), Pad(hh, 2), Pad(mm, 2), Pad(ss, 2))
  }

  /**
   * `datetime.strptime(s, "%Y-%m-%d %H:%M:%S")`, accepting only the
   * zero-padded layout `FormatStamp` produces; `None` is the `ValueError`.
   */
  function ParseStamp(s: string): (r: Option<int>)
    ensures r.Some? ==> |s| == 19 && s[10] == ' '
  {
    if |s| != 19 || s[4] != '-' || s[7] != '-' || s[10] != ' ' || s[13] != ':' || s[16] != ':' then None
    else if !(AllDigits(s[..4]) && AllDigits(s[5..7]) && AllDigits(s[8..10])
              && AllDigits(s[11..13]) && AllDigits(s[14..16]) && AllDigits(s[17..])) then None
    else
      var y, m, d := DigitsValue(s[..4]), DigitsValue(s[5..7]), DigitsValue(s[8..10]);
      var hh, mm, ss := DigitsValue(s[11..13]), DigitsValue(s[14..16]), DigitsValue(s[17..]);
      if y < 1 || hh > 23 || mm > 59 || ss > 59 || !ValidDate(y, m, d) then None
      else Some(DaysFromCivil(y, m, d) * SecondsPerDay + hh * 3600 + mm * 60 + ss)
  }

  /** A string without whitespace never parses: the layout has a space between date and time. */
  lemma ParseStampNeedsSpace(s: string)
    requires NoSpace(s)
    ensures ParseStamp(s) == None
  {
    if ParseStamp(s).Some? {
      assert IsSpace(s[10]);
    }
  }

  /** A stamp that parses is a date and a time of day separated by its one space. */
  lemma StampShape(s: string)
    requires ParseStamp(s).Some?
    ensures |s| == 19 && s[10] == ' ' && NoSpace(s[..10]) && NoSpace(s[11..])
  {
    assert !(|s| != 19 || s[4] != '-' || s[7] != '-' || s[10] != ' ' || s[13] != ':' || s[16] != ':');
    LayoutShape(s);
  }

  /** Digits and the `-`, `:` separators of the layout are no whitespace. */
  lemma LayoutShape(s: string)
    requires |s| == 19 && s[4] == '-' && s[7] == '-' && s[10] == ' ' && s[13] == ':' && s[16] == ':'
    requires AllDigits(s[..4]) && AllDigits(s[5..7]) && AllDigits(s[8..10])
    requires AllDigits(s[11..13]) && AllDigits(s[14..16]) && AllDigits(s[17..])
    ensures NoSpace(s[..10]) && NoSpace(s[11..])
  {
    forall i | 0 <= i < 10 ensures !IsSpace(s[..10][i]) {
      if i < 4 {
        assert s[..4][i] == s[i];
      } else if 4 < i < 7 {
        assert s[5..7][i - 5] == s[i];
      } else if 7 < i {
        assert s[8..10][i - 8] == s[i];
      }
    }
    forall i | 0 <= i < 8 ensures !IsSpace(s[11..][i]) {
      if i < 2 {
        assert s[11..13][i] == s[11 + i];
      } else if 2 < i < 5 {
        assert s[14..16][i - 3] == s[11 + i];
      } else if 5 < i {
        assert s[17..][i - 6] == s[11 + i];
      }
    }
  }

  /** The year `FormatStamp` prints for `t`. */
  function YearOf(t: int): int {
    CivilFromDays(t / SecondsPerDay).year
  }

  function Stamp(y: string, m: string, d: string, hh: string, mm: string, ss: string): string {
    y + "-" + m + "-" + d + " " + hh + ":" + mm + ":" + ss
  }

  lemma StampFields(y: string, m: string, d: string, hh: string, mm: string, ss: string)
    requires |y| == 4 && |m| == 2 && |d| == 2 && |hh| == 2 && |mm| == 2 && |ss| == 2
    ensures var s := Stamp(y, m, d, hh, mm, ss);
      |s| == 19 && s[4] == '-' && s[7] == '-' && s[10] == ' ' && s[13] == ':' && s[16] == ':'
      && s[..4] == y && s[5..7] == m && s[8..10] == d && s[11..13] == hh && s[14..16] == mm && s[17..] == ss
  {
    StampDateFields(y, m, d, hh, mm, ss);
    StampTimeFields(y, m, d, hh, mm, ss);
  }

  lemma StampDateFields(y: string, m: string, d: string, hh: string, mm: string, ss: string)
    requires |y| == 4 && |m| == 2 && |d| == 2
    ensures var s := Stamp(y, m, d, hh, mm, ss);
      s[4] == '-' && s[7] == '-' && s[..4] == y && s[5..7] == m && s[8..10] == d
  {
    var s := Stamp(y, m, d, hh, mm, ss);
    forall i | 0 <= i < 4 ensures s[..4][i] == y[i] { }
    forall i | 0 <= i < 2 ensures s[5..7][i] == m[i] && s[8..10][i] == d[i] { }
  }

  lemma StampTimeFields(y: string, m: string, d: string, hh: string, mm: string, ss: string)
    requires |y| == 4 && |m| == 2 && |d| == 2 && |hh| == 2 && |mm| == 2 && |ss| == 2
    ensures var s := Stamp(y, m, d, hh, mm, ss);
      |s| == 19 && s[10] == ' ' && s[13] == ':' && s[16] == ':'
      && s[11..13] == hh && s[14..16] == mm && s[17..] == ss
  {
    var s := Stamp(y, m, d, hh, mm, ss);
    forall i | 0 <= i < 2 ensures s[11..13][i] == hh[i] && s[14..16][i] == mm[i] && s[17..][i] == ss[i] { }
  }

  /** A well-laid-out stamp whose fields read as a real date and time of day parses to that moment. */
  lemma ParseStampOfLayout(s: string, y: nat, m: nat, d: nat, hh: nat, mm: nat, ss: nat, t: int)
    requires |s| == 19 && s[4] == '-' && s[7] == '-' && s[10] == ' ' && s[13] == ':' && s[16] == ':'
    requires AllDigits(s[..4]) && AllDigits(s[5..7]) && AllDigits(s[8..10])
    requires AllDigits(s[11..13]) && AllDigits(s[14..16]) && AllDigits(s[17..])
    requires DigitsValue(s[..4]) == y && DigitsValue(s[5..7]) == m && DigitsValue(s[8..10]) == d
    requires DigitsValue(s[11..13]) == hh && DigitsValue(s[14..16]) == mm && DigitsValue(s[17..]) == ss
    requires 1 <= y && ValidDate(y, m, d) && hh < 24 && mm < 60 && ss < 60
    requires t == DaysFromCivil(y, m, d) * SecondsPerDay + hh * 3600 + mm * 60 + ss
    ensures ParseStamp(s) == Some(t)
  {
    assert !(|s| != 19 || s[4] != '-' || s[7] != '-' || s[10] != ' ' || s[13] != ':' || s[16] != ':');
    assert !(y < 1 || hh > 23 || mm > 59 || ss > 59 || !ValidDate(y, m, d));
  }

  /** A stamp whose fields are zero-padded numbers of a real date and time parses to that moment. */
  lemma ParseStampOfFields(y: nat, m: nat, d: nat, hh: nat, mm: nat, ss: nat, t: int)
    requires 1 <= y <= 9999 && ValidDate(y, m, d) && d < 100 && hh < 24 && mm < 60 && ss < 60
    requires t == DaysFromCivil(y, m, d) * SecondsPerDay + hh * 3600 + mm * 60 + ss
    ensures ParseStamp(StampOf(y, m, d, hh, mm, ss)) == Some(t)
  {
    assert Pow10(2) == 100;
    assert Pow10(4) == 10000;
    PadValue(y, 4);
    PadValue(m, 2);
    PadValue(d, 2);
    PadValue(hh, 2);
    PadValue(mm, 2);
    PadValue(ss, 2);
    var s := Stamp(Pad(y, 4), Pad(m, 2), Pad(d, 2), Pad(hh, 2), Pad(mm, 2), Pad(ss, 2));
    StampFields(Pad(y, 4), Pad(m, 2), Pad(d, 2), Pad(hh, 2), Pad(mm, 2), Pad(ss, 2));
    ParseStampOfLayout(s, y, m, d, hh, mm, ss, t);
  }

  lemma SecondsOfDay(secs: int)
    requires 0 <= secs < 86400
    ensures secs == secs / 3600 * 3600 + secs % 3600 / 60 * 60 + secs % 60
    ensures secs / 3600 < 24
  {
    var r := secs % 3600;
    assert secs == secs / 3600 * 3600 + r;
    assert r == r / 60 * 60 + r % 60;
    assert r % 60 == secs % 60;
  }

  /** The date of a day number is a real date, and its day number is that day. */
  lemma CivilFromDaysValid(days: int)
    ensures var c := CivilFromDays(days);
      ValidDate(c.year, c.month, c.day) && DaysFromCivil(c.year, c.month, c.day) == days
  {
    DaysFromCivilOfCivil(days);
  }

  /** In years from 0 on, the stamp of a day and second is the padded stamp of its fields. */
  lemma FormatDayTimeFields(days: int, secs: int)
    requires 0 <= secs < SecondsPerDay && 0 <= CivilFromDays(days).year
    ensures var c := CivilFromDays(days);
      FormatDayTime(days, secs) == StampOf(c.year, c.month, c.day, secs / 3600, secs % 3600 / 60, secs % 60)
  { }

  lemma ParseFormatDayTime(days: int, secs: int, t: int)
    requires 0 <= secs < SecondsPerDay && 1 <= CivilFromDays(days).year <= 9999
    requires t == days * SecondsPerDay + secs
    ensures ParseStamp(FormatDayTime(days, secs)) == Some(t)
  {
    var c := CivilFromDays(days);
    FormatDayTimeFields(days, secs);
    CivilFromDaysValid(days);
    SecondsOfDay(secs);
    ParseStampOfStampOf(FormatDayTime(days, secs), c.year, c.month, c.day, secs / 3600, secs % 3600 / 60, secs % 60, t);
  }

  /** A text that is the padded stamp of a real date and time parses to that moment. */
  lemma ParseStampOfStampOf(s: string, y: nat, m: nat, d: nat, hh: nat, mm: nat, ss: nat, t: int)
    requires s == StampOf(y, m, d, hh, mm, ss)
    requires 1 <= y <= 9999 && ValidDate(y, m, d) && d < 100 && hh < 24 && mm < 60 && ss < 60
    requires t == DaysFromCivil(y, m, d) * SecondsPerDay + hh * 3600 + mm * 60 + ss
    ensures ParseStamp(s) == Some(t)
  {
    ParseStampOfFields(y, m, d, hh, mm, ss, t);
  }

  /** The timestamp `strftime` writes is read back unchanged by `strptime`, for years 1 to 9999. */
  lemma ParseFormatStamp(t: int)
    requires 1 <= YearOf(t) <= 9999
    ensures ParseStamp(FormatStamp(t)) == Some(t)
  {
    ParseFormatDayTime(t / SecondsPerDay, t % SecondsPerDay, t);
  }
}
