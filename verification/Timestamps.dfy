/** RFC 3339 timestamps with millisecond precision. */
module Timestamps {
  import opened Calendar
  import opened Decimals

  function FormatTimestamp(ms: int): string {
    var secs := ms / 1000;
    var subMs := ms % 1000;
    var secsOfDay := secs % 86400;
    var d := CivilFromDays(secs / 86400);
    CivilFromDaysValid(secs / 86400);
    var text := DateText(d) + TimeText(secsOfDay);
    if subMs == 0 then text + "Z" else text + "." + Padded(subMs, 3) + "Z"
  }

  function DateText(d: Date): string
    requires ValidDate(d)
  {
    PaddedInteger(d.year, 4) + "-" + Padded(d.month, 2) + "-" + Padded(d.day, 2)
  }

  function TimeText(secsOfDay: int): string
    requires 0 <= secsOfDay < 86400
  {
    "T" + Padded(secsOfDay / 3600, 2) + ":" + Padded(secsOfDay % 3600 / 60, 2) + ":" + Padded(secsOfDay % 60, 2)
  }

  // ----- Reading a timestamp from its right end -------------------------------------

  /** Milliseconds of a timestamp text; the fields are found from the right, so any year will do. */
  function ReadTimestamp(s: string): int {
    if |s| >= 5 && s[|s| - 5] == '.'
    then 1000 * ReadSeconds(s[..|s| - 5]) + Value(s[|s| - 4..|s| - 1])
    else if |s| >= 1 then 1000 * ReadSeconds(s[..|s| - 1])
    else 0
  }

  function ReadSeconds(s: string): int {
    if |s| >= 9 then 86400 * ReadDate(s[..|s| - 9]) + ReadTime(s[|s| - 9..]) else 0
  }

  function ReadTime(s: string): int
    requires |s| == 9
  {
    3600 * Value(s[1..3]) + 60 * Value(s[4..6]) + Value(s[7..9])
  }

  function ReadDate(s: string): int {
    var n := |s|;
    if n >= 6 then DaysFromCivil(Date(IntegerValue(s[..n - 6]), Value(s[n - 5..n - 3]), Value(s[n - 2..]))) else 0
  }

  lemma TwoDigits(n: int)
    requires 0 <= n < 100
    ensures |Padded(n, 2)| == 2 && Value(Padded(n, 2)) == n
  {
    assert PowerOfTen(2) == 100;
    PaddedWidth(n, 2);
    PaddedRoundTrip(n, 2);
  }

  lemma ReadTimeText(secsOfDay: int)
    requires 0 <= secsOfDay < 86400
    ensures |TimeText(secsOfDay)| == 9 && ReadTime(TimeText(secsOfDay)) == secsOfDay
    ensures var s := TimeText(secsOfDay);
            s[0] == 'T' && s[3] == ':' && s[6] == ':' && IsDigit(s[5])
  {
    hide Padded, Value;
    var h, m, sec := secsOfDay / 3600, secsOfDay % 3600 / 60, secsOfDay % 60;
    TwoDigits(h);
    TwoDigits(m);
    TwoDigits(sec);
    var s := TimeText(secsOfDay);
    assert s[1..3] == Padded(h, 2);
    assert s[4..6] == Padded(m, 2);
    assert s[7..9] == Padded(sec, 2);
    assert secsOfDay == 3600 * h + 60 * m + sec;
    assert s[5] == Padded(m, 2)[1];
  }

  lemma ReadDateText(d: Date)
    requires ValidDate(d)
    ensures |DateText(d)| >= 6 && ReadDate(DateText(d)) == DaysFromCivil(d)
  {
    hide Padded, PaddedInteger, Value, IntegerValue, DaysFromCivil;
    TwoDigits(d.month);
    TwoDigits(d.day);
    PaddedIntegerRoundTrip(d.year, 4);
    var s := DateText(d);
    var n := |s|;
    assert s[..n - 6] == PaddedInteger(d.year, 4);
    assert s[n - 5..n - 3] == Padded(d.month, 2);
    assert s[n - 2..] == Padded(d.day, 2);
  }

  lemma ReadSecondsText(d: Date, secsOfDay: int)
    requires ValidDate(d) && 0 <= secsOfDay < 86400
    ensures var s := DateText(d) + TimeText(secsOfDay);
            ReadSeconds(s) == 86400 * DaysFromCivil(d) + secsOfDay
  {
    hide DateText, TimeText, ReadDate, ReadTime, DaysFromCivil;
    ReadDateText(d);
    ReadTimeText(secsOfDay);
    var s := DateText(d) + TimeText(secsOfDay);
    assert s[..|s| - 9] == DateText(d);
    assert s[|s| - 9..] == TimeText(secsOfDay);
  }

  lemma ThreeDigits(n: int)
    requires 0 <= n < 1000
    ensures |Padded(n, 3)| == 3 && Value(Padded(n, 3)) == n
  {
    assert PowerOfTen(2) == 100;
    assert PowerOfTen(3) == 1000;
    PaddedWidth(n, 3);
    PaddedRoundTrip(n, 3);
  }

  /** Every timestamp reads back as the millisecond it was printed from, before and after year 0 too. */
  lemma TimestampRoundTrip(ms: int)
    ensures ReadTimestamp(FormatTimestamp(ms)) == ms
  {
    hide DateText, TimeText, ReadSeconds, DaysFromCivil, CivilFromDays, Padded, Value;
    var secs, subMs := ms / 1000, ms % 1000;
    var days, secsOfDay := secs / 86400, secs % 86400;
    var d := CivilFromDays(days);
    CivilFromDaysValid(days);
    ReadSecondsText(d, secsOfDay);
    ReadTimeText(secsOfDay);
    ThreeDigits(subMs);
    var text := DateText(d) + TimeText(secsOfDay);
    var s := FormatTimestamp(ms);
    if subMs == 0 {
      assert s == text + "Z";
      assert s[..|s| - 1] == text;
      assert s[|s| - 5] == TimeText(secsOfDay)[5];
    } else {
      assert s == text + "." + Padded(subMs, 3) + "Z";
      assert s[|s| - 5] == '.';
      assert s[..|s| - 5] == text;
      assert s[|s| - 4..|s| - 1] == Padded(subMs, 3);
    }
    assert ms == 1000 * (86400 * days + secsOfDay) + subMs;
  }

  /** Different instants never render alike. */
  lemma TimestampInjective(a: int, b: int)
    requires FormatTimestamp(a) == FormatTimestamp(b)
    ensures a == b
  {
    TimestampRoundTrip(a);
    TimestampRoundTrip(b);
  }

  /** The `date-time` form of section 5.6 of RFC 3339, offset `Z`, no or three fractional digits. */
  predicate IsDateTime(s: string) {
    (|s| == 20 || |s| == 24)
    && AllDigits(s[..4]) && s[4] == '-' && AllDigits(s[5..7]) && s[7] == '-' && AllDigits(s[8..10])
    && s[10] == 'T' && AllDigits(s[11..13]) && s[13] == ':' && AllDigits(s[14..16]) && s[16] == ':' &&
    AllDigits(s[17..19])
    && (|s| == 24 ==> s[19] == '.' && AllDigits(s[20..23]))
    && s[|s| - 1] == 'Z'
  }

  lemma YearText(year: int)
    requires 0 <= year <= 9999
    ensures |PaddedInteger(year, 4)| == 4 && AllDigits(PaddedInteger(year, 4))
  {
    assert PowerOfTen(2) == 100;
    assert PowerOfTen(4) == 10000;
    PaddedWidth(year, 4);
  }

  lemma TimeTextShape(secsOfDay: int)
    requires 0 <= secsOfDay < 86400
    ensures var s := TimeText(secsOfDay);
            |s| == 9 && s[0] == 'T' && AllDigits(s[1..3]) && s[3] == ':' && AllDigits(s[4..6]) && s[6] == ':' &&
            AllDigits(s[7..9])
  {
    var h, m, sec := secsOfDay / 3600, secsOfDay % 3600 / 60, secsOfDay % 60;
    var a, b, c := Padded(h, 2), Padded(m, 2), Padded(sec, 2);
    TwoDigits(h);
    TwoDigits(m);
    TwoDigits(sec);
    hide Padded;
    var s := TimeText(secsOfDay);
    assert s[1..3] == a && s[4..6] == b && s[7..9] == c;
  }

  lemma DateTextShape(d: Date)
    requires ValidDate(d) && 0 <= d.year <= 9999
    ensures var s := DateText(d);
            |s| == 10 && AllDigits(s[..4]) && s[4] == '-' && AllDigits(s[5..7]) && s[7] == '-' && AllDigits(s[8..10])
  {
    hide Padded, PaddedInteger;
    YearText(d.year);
    TwoDigits(d.month);
    TwoDigits(d.day);
    var y, m, dd := PaddedInteger(d.year, 4), Padded(d.month, 2), Padded(d.day, 2);
    var s := DateText(d);
    assert s[..4] == y && s[5..7] == m && s[8..10] == dd;
  }

  lemma TimestampIsRfc3339(ms: int)
    requires 0 <= CivilFromDays(ms / 1000 / 86400).year <= 9999
    ensures IsDateTime(FormatTimestamp(ms))
  {
    hide CivilFromDays, DateText, TimeText, Padded;
    var d, secsOfDay := CivilFromDays(ms / 1000 / 86400), ms / 1000 % 86400;
    CivilFromDaysValid(ms / 1000 / 86400);
    DateTextShape(d);
    TimeTextShape(secsOfDay);
    ThreeDigits(ms % 1000);
    var a, b, c := DateText(d), TimeText(secsOfDay), Padded(ms % 1000, 3);
    var s := FormatTimestamp(ms);
    assert s == if ms % 1000 == 0 then a + b + "Z" else a + b + "." + c + "Z";
    assert s[..4] == a[..4] && s[5..7] == a[5..7] && s[8..10] == a[8..10];
    assert s[11..13] == b[1..3] && s[14..16] == b[4..6] && s[17..19] == b[7..9];
    if ms % 1000 != 0 {
      assert s[20..23] == c;
    }
  }
}
