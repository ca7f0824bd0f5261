/**
 * The part of PHP's DateTime that the service relies on, on a naive local
 * clock: a timestamp is a whole number of seconds since 1970-01-01 00:00:00,
 * every day has 86400 seconds (no time zone, no daylight saving), and
 * `modify('+1 day')` adds one day of seconds.
 */
module Calendar {

  const SecondsPerDay: int := 86400

  /** The number of the calendar day a timestamp falls on; day 0 is 1970-01-01. */
  function EpochDay(t: int): (day: int)
    ensures day * 86400 <= t < day * 86400 + 86400
  {
    t / SecondsPerDay  // Dafny's division by a positive divisor rounds down, also for t < 0
  }

  /** The day `k` days after `t`, at the same time of day. */
  function NthDay(t: int, k: int): int
  {
    t + k * SecondsPerDay
  }

  /** `format('w')`: 0 for Sunday through 6 for Saturday; 1970-01-01 was a Thursday. */
  function WeekdayNumber(t: int): (w: int)
    ensures 0 <= w < 7
  {
    (EpochDay(t) + 4) % 7
  }

  const DayNames: seq<string> :=
    ["Sunday", "Monday", "Tuesday", "Wednesday", "Thursday", "Friday", "Saturday"]

  /** `format('l')`: the full English name of the weekday. */
  function DayName(t: int): (name: string)
    ensures name == "Saturday" <==> WeekdayNumber(t) == 6
    ensures name == "Sunday" <==> WeekdayNumber(t) == 0
  {
    DayNames[WeekdayNumber(t)]
  }

  /** One day later is the next weekday, Saturday being followed by Sunday. */
  lemma NextDayIsNextWeekday(t: int)
    ensures WeekdayNumber(NthDay(t, 1)) == (WeekdayNumber(t) + 1) % 7
  {
    NextDayIsNextEpochDay(t);
    var d := EpochDay(t);
    var q := (d + 4) / 7;
    assert d + 4 == 7 * q + WeekdayNumber(t);
    assert d + 1 + 4 == 7 * q + WeekdayNumber(t) + 1;
  }

  /** One day later falls on the next epoch day. */
  lemma NextDayIsNextEpochDay(t: int)
    ensures EpochDay(NthDay(t, 1)) == EpochDay(t) + 1
  {
  }

  /** The weekday repeats every seven days. */
  lemma WeekdayPeriodic(t: int, k: int)
    ensures WeekdayNumber(NthDay(t, 7 * k)) == WeekdayNumber(t)
  {
  }

  /**
   * The proleptic Gregorian date (year, month, day) of an epoch day, by the
   * era-based conversion of H. Hinnant's civil-date algorithms.
   */
  function CivilFromDays(days: int): (int, int, int)
  {
    var z := days + 719468;
    var era := z / 146097;
    var dayOfEra := z - era * 146097;
    var yearOfEra := (dayOfEra - dayOfEra / 1460 + dayOfEra / 36524 - dayOfEra / 146096) / 365;
    var dayOfYear := dayOfEra - (365 * yearOfEra + yearOfEra / 4 - yearOfEra / 100);
    var shiftedMonth := (5 * dayOfYear + 2) / 153;
    var day := dayOfYear - (153 * shiftedMonth + 2) / 5 + 1;
    var month := if shiftedMonth < 10 then shiftedMonth + 3 else shiftedMonth - 9;
    var year := yearOfEra + era * 400;
    (if month <= 2 then year + 1 else year, month, day)
  }

  function DigitChar(d: int): (c: char)
    requires 0 <= d < 10
    ensures '0' <= c <= '9' && c as int - '0' as int == d
  {
    ('0' as int + d) as char
  }

  /** The decimal digits of `n`, without leading zeros. */
  function Digits(n: nat): (s: string)
    ensures 1 <= |s|
    ensures forall i :: 0 <= i < |s| ==> '0' <= s[i] <= '9'
    decreases n
  {
    if n < 10 then [DigitChar(n)] else Digits(n / 10) + [DigitChar(n % 10)]
  }

  /** The number a string of decimal digits stands for. */
  function DigitsValue(s: string): int
  {
    if s == [] then 0 else DigitsValue(s[..|s| - 1]) * 10 + (s[|s| - 1] as int - '0' as int)
  }

  /** `n` in decimal, padded on the left with zeros to at least `width` characters. */
  function ZeroPad(n: nat, width: nat): (s: string)
    ensures width <= |s| && 1 <= |s|
    ensures forall i :: 0 <= i < |s| ==> '0' <= s[i] <= '9'
  {
    var digits := Digits(n);
    if width <= |digits| then digits else seq(width - |digits|, _ => '0') + digits
  }

  /** A signed number as PHP's date formats print it: a minus sign, then the padded magnitude. */
  function SignedZeroPad(n: int, width: nat): string
  {
    if n < 0 then "-" + ZeroPad(-n, width) else ZeroPad(n, width)
  }

  /** `format('Y-m-d')` of a civil date: a year of at least four digits, two-digit month and day. */
  function FormatCivil(year: int, month: int, day: int): string
  {
    SignedZeroPad(year, 4) + "-" + SignedZeroPad(month, 2) + "-" + SignedZeroPad(day, 2)
  }

  /** `format('Y-m-d')` of a timestamp. */
  function FormatYmd(t: int): (text: string)
    ensures 10 <= |text|
  {
    var (year, month, day) := CivilFromDays(EpochDay(t));
    FormatCivil(year, month, day)
  }

  /** Reads a `YYYY-MM-DD` string back into its three numbers. */
  function ParseYmd(s: string): (int, int, int)
    requires |s| == 10
  {
    (DigitsValue(s[..4]), DigitsValue(s[5..7]), DigitsValue(s[8..]))
  }

  lemma {:induction false} DigitsRoundTrip(n: nat)
    ensures DigitsValue(Digits(n)) == n
    decreases n
  {
    if n >= 10 {
      DigitsRoundTrip(n / 10);
      var s := Digits(n);
      assert s[..|s| - 1] == Digits(n / 10);
    }
  }

  lemma {:induction false} DigitsLength(n: nat, width: nat, bound: nat)
    requires bound == Power10(width) && n < bound && 1 <= width
    ensures |Digits(n)| <= width
    decreases width
  {
    if n >= 10 {
      DigitsLength(n / 10, width - 1, Power10(width - 1));
    }
  }

  function Power10(k: nat): (p: nat)
    ensures 1 <= p
  {
    if k == 0 then 1 else 10 * Power10(k - 1)
  }

  /** Leading zeros do not change the value of a digit string. */
  lemma {:induction false} LeadingZerosValue(zeros: string, s: string)
    requires forall i :: 0 <= i < |zeros| ==> zeros[i] == '0'
    ensures DigitsValue(zeros + s) == DigitsValue(s)
    decreases |s| + |zeros|
  {
    if s == [] {
      assert zeros + s == zeros;
      if zeros != [] {
        LeadingZerosValue(zeros[..|zeros| - 1], []);
        assert zeros[..|zeros| - 1] + [] == zeros[..|zeros| - 1];
      }
    } else {
      LeadingZerosValue(zeros, s[..|s| - 1]);
      assert (zeros + s)[..|zeros + s| - 1] == zeros + s[..|s| - 1];
    }
  }

  /** Zero padding reads back as the number padded. */
  lemma ZeroPadRoundTrip(n: nat, width: nat)
    ensures DigitsValue(ZeroPad(n, width)) == n
  {
    DigitsRoundTrip(n);
    var digits := Digits(n);
    if |digits| < width {
      LeadingZerosValue(seq(width - |digits|, _ => '0'), digits);
    }
  }

  lemma ZeroPadLength(n: nat, width: nat)
    requires 1 <= width && n < Power10(width)
    ensures |ZeroPad(n, width)| == width
  {
    DigitsLength(n, width, Power10(width));
  }

  /**
   * For a four-digit year and two-digit month and day, the `Y-m-d` text has
   * ten characters and reads back as the same date, so two such dates share
   * their text only when they are equal.
   */
  lemma FormatCivilRoundTrip(year: int, month: int, day: int)
    requires 0 <= year < 10000 && 0 <= month < 100 && 0 <= day < 100
    ensures |FormatCivil(year, month, day)| == 10
    ensures ParseYmd(FormatCivil(year, month, day)) == (year, month, day)
  {
    ZeroPadLength(year, 4);
    ZeroPadLength(month, 2);
    ZeroPadLength(day, 2);
    ZeroPadRoundTrip(year, 4);
    ZeroPadRoundTrip(month, 2);
    ZeroPadRoundTrip(day, 2);
    var s := FormatCivil(year, month, day);
    assert s[..4] == ZeroPad(year, 4);
    assert s[5..7] == ZeroPad(month, 2);
    assert s[8..] == ZeroPad(day, 2);
  }

  lemma FormatCivilInjective(y1: int, m1: int, d1: int, y2: int, m2: int, d2: int)
    requires 0 <= y1 < 10000 && 0 <= m1 < 100 && 0 <= d1 < 100
    requires 0 <= y2 < 10000 && 0 <= m2 < 100 && 0 <= d2 < 100
    requires FormatCivil(y1, m1, d1) == FormatCivil(y2, m2, d2)
    ensures y1 == y2 && m1 == m2 && d1 == d2
  {
    FormatCivilRoundTrip(y1, m1, d1);
    FormatCivilRoundTrip(y2, m2, d2);
  }

  /** The dates the test harness uses: 2021-03-04 00:00 is timestamp 1614816000, a Thursday. */
  lemma TestHarnessDate()
    ensures EpochDay(1614816000) == 18690
    ensures CivilFromDays(18690) == (2021, 3, 4)
    ensures DayName(1614816000) == "Thursday"
    ensures DayName(NthDay(1614816000, 2)) == "Saturday"
  {
    assert 18690 * 86400 == 1614816000;
    var z := 18690 + 719468;
    assert z / 146097 == 5 && z - 5 * 146097 == 7673;
    assert (7673 - 7673 / 1460 + 7673 / 36524 - 7673 / 146096) / 365 == 21;
    assert 7673 - (365 * 21 + 21 / 4 - 21 / 100) == 3;
    assert (5 * 3 + 2) / 153 == 0 && 3 - (153 * 0 + 2) / 5 + 1 == 4;
    assert EpochDay(NthDay(1614816000, 2)) == 18692;
  }

  /** The harness's day prints as the text the holiday file uses for it. */
  lemma TestHarnessDateText()
    ensures FormatYmd(1614816000) == "2021-03-04"
  {
    TestHarnessDate();
    assert FormatYmd(1614816000) == FormatCivil(2021, 3, 4);
    HarnessCivilText();
  }

  lemma HarnessCivilText()
    ensures FormatCivil(2021, 3, 4) == "2021-03-04"
  {
    assert Digits(2) == "2";
    assert Digits(20) == "20";
    assert Digits(202) == "202";
    assert Digits(2021) == "2021";
    assert ZeroPad(2021, 4) == "2021";
    assert ZeroPad(3, 2) == "03";
    assert ZeroPad(4, 2) == "04";
  }

}
