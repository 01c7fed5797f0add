/** Rendering of timestamps as `strftime` does for the two formats the program
    uses: `%H:%M:%S` (time of day) and `%D` (MM/DD/YY). A timestamp is a whole
    number of seconds since 1970-01-01 00:00:00, read in a zone with no offset;
    days are floor(t / 86400) and the time of day is t mod 86400, which is how
    `datetime.fromtimestamp` splits a negative stamp too. */
module Clock {

  import opened Results
  import opened Text

  const SecondsPerDay: nat := 86400

  // ---------------------------------------------------------------------
  // %H:%M:%S

  /** `%H:%M:%S` of timestamp t: the time of day, so it wraps every 24 hours. */
  function HMS(t: int): (r: string)
    ensures |r| == 8 && r[2] == ':' && r[5] == ':'
    ensures ' ' !in r && '.' !in r
  {
    var tod := t % SecondsPerDay;
    Pad2(tod / 3600) + ":" + Pad2(tod % 3600 / 60) + ":" + Pad2(tod % 60)
  }

  /** Reads `HH:MM:SS` back into seconds since midnight. */
  function ParseHMS(s: string): (r: Option<nat>)
    ensures r.Some? ==> r.value < SecondsPerDay
  {
    if |s| == 8 && s[2] == ':' && s[5] == ':'
       && IsDigit(s[0]) && IsDigit(s[1]) && IsDigit(s[3]) && IsDigit(s[4]) && IsDigit(s[6]) && IsDigit(s[7])
    then TimeOfDay(PairValue(s[0], s[1]), PairValue(s[3], s[4]), PairValue(s[6], s[7]))
    else None
  }

  /** The value of a two-digit field. */
  function PairValue(x: char, y: char): nat
    requires IsDigit(x) && IsDigit(y)
  {
    DigitValue(x) * 10 + DigitValue(y)
  }

  /** Seconds since midnight of hours, minutes and seconds, when each is in range. */
  function TimeOfDay(h: nat, m: nat, sec: nat): (r: Option<nat>)
    ensures r.Some? <==> h < 24 && m < 60 && sec < 60
    ensures r.Some? ==> r.value < SecondsPerDay
  {
    if h < 24 && m < 60 && sec < 60 then Some(h * 3600 + m * 60 + sec) else None
  }

  /** Hours, minutes and seconds of a time of day put back together. */
  lemma TimeOfDaySplit(tod: int)
    requires 0 <= tod < SecondsPerDay
    ensures tod / 3600 < 24 && tod % 3600 / 60 < 60
    ensures (tod / 3600) * 3600 + (tod % 3600 / 60) * 60 + tod % 60 == tod
  {
    var rest := tod % 3600;
    assert tod == (tod / 3600) * 3600 + rest;
    assert rest == (rest / 60) * 60 + rest % 60;
    assert rest % 60 == tod % 60;
  }

  /** `%H:%M:%S` reads back as the time of day of t. */
  lemma HMSRoundTrip(t: int)
    ensures ParseHMS(HMS(t)) == Some(t % SecondsPerDay)
  {
    var tod := t % SecondsPerDay;
    var a, b, c := Pad2(tod / 3600), Pad2(tod % 3600 / 60), Pad2(tod % 60);
    var r := HMS(t);
    assert r[0] == a[0] && r[1] == a[1];
    assert r[3] == b[0] && r[4] == b[1];
    assert r[6] == c[0] && r[7] == c[1];
    TimeOfDaySplit(tod);
  }

  /** Two timestamps render to the same `%H:%M:%S` exactly when they are a whole number of days apart. */
  lemma HMSPeriodic(t: int, u: int)
    ensures HMS(t) == HMS(u) <==> t % SecondsPerDay == u % SecondsPerDay
  {
    if HMS(t) == HMS(u) {
      HMSRoundTrip(t);
      HMSRoundTrip(u);
    }
  }

  // ---------------------------------------------------------------------
  // The proleptic Gregorian calendar

  predicate IsLeap(y: int)
  {
    y % 4 == 0 && (y % 100 != 0 || y % 400 == 0)
  }

  function YearLength(y: int): nat
  {
    if IsLeap(y) then 366 else 365
  }

  function MonthLength(leap: bool, m: nat): nat
  {
    if m == 2 then (if leap then 29 else 28)
    else if m == 4 || m == 6 || m == 9 || m == 11 then 30
    else 31
  }

  /** Days from 1970-01-01 to January 1st of year y (negative before 1970). */
  function DaysBeforeYear(y: int): int
    decreases if y < 1970 then 1970 - y else y - 1970
  {
    if y == 1970 then 0
    else if y > 1970 then DaysBeforeYear(y - 1) + YearLength(y - 1)
    else DaysBeforeYear(y + 1) - YearLength(y)
  }

  lemma NextYear(y: int)
    ensures DaysBeforeYear(y + 1) == DaysBeforeYear(y) + YearLength(y)
  {
  }

  /** Days of a year before the first of month m. */
  function DaysBeforeMonth(leap: bool, m: nat): nat
    requires 1 <= m <= 12
  {
    if m == 1 then 0 else DaysBeforeMonth(leap, m - 1) + MonthLength(leap, m - 1)
  }

  /** Days of a year from the first of month m to its end. */
  function DaysFromMonth(leap: bool, m: nat): nat
    requires 1 <= m <= 12
    decreases 12 - m
  {
    if m == 12 then 31 else MonthLength(leap, m) + DaysFromMonth(leap, m + 1)
  }

  lemma {:induction false} MonthsCoverYear(leap: bool, m: nat)
    requires 1 <= m <= 12
    ensures DaysBeforeMonth(leap, m) + DaysFromMonth(leap, m) == (if leap then 366 else 365)
    decreases 12 - m
  {
    if m < 12 {
      MonthsCoverYear(leap, m + 1);
    } else {
      var f := if leap then 1 else 0;
      assert DaysBeforeMonth(leap, 2) == 31;
      assert DaysBeforeMonth(leap, 3) == 59 + f;
      assert DaysBeforeMonth(leap, 4) == 90 + f;
      assert DaysBeforeMonth(leap, 5) == 120 + f;
      assert DaysBeforeMonth(leap, 6) == 151 + f;
      assert DaysBeforeMonth(leap, 7) == 181 + f;
      assert DaysBeforeMonth(leap, 8) == 212 + f;
      assert DaysBeforeMonth(leap, 9) == 243 + f;
      assert DaysBeforeMonth(leap, 10) == 273 + f;
      assert DaysBeforeMonth(leap, 11) == 304 + f;
      assert DaysBeforeMonth(leap, 12) == 334 + f;
    }
  }

  /** The year containing day d of year y (d counted from its January 1st,
      possibly outside it) and the 0-based day within that year. */
  function YearOf(y: int, d: int): (r: (int, nat))
    ensures r.1 < YearLength(r.0)
    ensures DaysBeforeYear(r.0) + r.1 == DaysBeforeYear(y) + d
    decreases if d < 0 then 400 - d else d
  {
    NextYear(y - 1);
    NextYear(y);
    if d < 0 then YearOf(y - 1, d + YearLength(y - 1))
    else if d < YearLength(y) then (y, d)
    else YearOf(y + 1, d - YearLength(y))
  }

  /** Month and 1-based day of the 0-based day doy, counting from month m. */
  function MonthOf(leap: bool, doy: nat, m: nat): (r: (nat, nat))
    requires 1 <= m <= 12 && doy < DaysFromMonth(leap, m)
    ensures m <= r.0 <= 12 && 1 <= r.1 <= MonthLength(leap, r.0)
    ensures DaysBeforeMonth(leap, r.0) + r.1 - 1 == DaysBeforeMonth(leap, m) + doy
    decreases 12 - m
  {
    if m == 12 || doy < MonthLength(leap, m) then (m, doy + 1)
    else MonthOf(leap, doy - MonthLength(leap, m), m + 1)
  }

  datatype Date = Date(year: int, month: nat, day: nat)

  /** The calendar date of day number `days` (0 is 1970-01-01). */
  function DateOf(days: int): (r: Date)
    ensures 1 <= r.month <= 12 && 1 <= r.day <= MonthLength(IsLeap(r.year), r.month)
  {
    var (y, doy) := YearOf(1970, days);
    MonthsCoverYear(IsLeap(y), 1);
    var (m, d) := MonthOf(IsLeap(y), doy, 1);
    Date(y, m, d)
  }

  /** The day number of a calendar date, the inverse of DateOf. */
  function DayNumber(date: Date): int
    requires 1 <= date.month <= 12
  {
    DaysBeforeYear(date.year) + DaysBeforeMonth(IsLeap(date.year), date.month) + date.day - 1
  }

  /** DateOf names the right day: converting the date back gives the day number. */
  lemma DateRoundTrip(days: int)
    ensures DayNumber(DateOf(days)) == days
  {
    var (y, doy) := YearOf(1970, days);
    MonthsCoverYear(IsLeap(y), 1);
  }

  // ---------------------------------------------------------------------
  // %D and the combined stamp

  /** `%D` of timestamp t: MM/DD/YY with a two-digit year. */
  function DateText(t: int): (r: string)
    ensures |r| == 8 && r[2] == '/' && r[5] == '/'
    ensures ' ' !in r && '.' !in r
  {
    var date := DateOf(t / SecondsPerDay);
    Pad2(date.month) + "/" + Pad2(date.day) + "/" + Pad2(date.year % 100)
  }

  /** `%D %H:%M:%S` of timestamp t. */
  function StampText(t: int): (r: string)
    ensures |r| == 17 && r[8] == ' '
    ensures r[..8] == DateText(t) && r[9..] == HMS(t)
  {
    DateText(t) + " " + HMS(t)
  }
}
