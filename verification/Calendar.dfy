/** Days and years of a time value in milliseconds since 1970 (jsdate.c; section 15.9.1 of
    ECMA-262 5.1). Times are whole numbers of milliseconds, before or after 1970. */
module Calendar {

  const MS_PER_DAY: int := 86400000
  const MS_PER_HOUR: int := 3600000
  const MS_PER_MINUTE: int := 60000
  const MS_PER_SECOND: int := 1000

  function Day(t: int): int {
    t / MS_PER_DAY
  }

  /** `pmod` on whole numbers: C's fmod, made positive. */
  function Pmod(x: int, y: int): int
    requires y > 0
  {
    var r := if x < 0 then -((-x) % y) else x % y;
    if r < 0 then r + y else r
  }

  function TimeWithinDay(t: int): int {
    Pmod(t, MS_PER_DAY)
  }

  function DaysInYear(y: int): int {
    if y % 4 == 0 && (y % 100 != 0 || y % 400 == 0) then 366 else 365
  }

  function DayFromYear(y: int): int {
    365 * (y - 1970) + (y - 1969) / 4 - (y - 1901) / 100 + (y - 1601) / 400
  }

  function TimeFromYear(y: int): int {
    DayFromYear(y) * MS_PER_DAY
  }

  /** msPerDay * 365.2425 */
  const MS_PER_MEAN_YEAR: int := 31556952000

  function Estimate(t: int): int {
    t / MS_PER_MEAN_YEAR + 1970
  }

  /** The single correction of `YearFromTime`. */
  function Corrected(y: int, t: int): int {
    if TimeFromYear(y) > t then y - 1
    else if TimeFromYear(y) + MS_PER_DAY * DaysInYear(y) <= t then y + 1
    else y
  }

  function YearFromTime(t: int): int {
    Corrected(Estimate(t), t)
  }

  function DayWithinYear(t: int): int {
    Day(t) - DayFromYear(YearFromTime(t))
  }

  // ----- years -----

  /** A year starts as many days after the year before as that year has. */
  lemma {:induction false} YearLength(y: int)
    ensures DayFromYear(y + 1) - DayFromYear(y) == DaysInYear(y)
    ensures TimeFromYear(y + 1) == TimeFromYear(y) + MS_PER_DAY * DaysInYear(y)
  {
    Steps(y - 1969, 4);
    Steps(y - 1901, 100);
    Steps(y - 1601, 400);
    Shifted(y, 4, 492);
    Shifted(y, 100, 19);
    Shifted(y, 400, 4);
  }

  /** 1970 starts at day 0, 2000 after thirty years with seven leap days, and the calendar repeats
      after 400 years with 97 leap days. Of the years up to 2000 these are the leap years. */
  lemma {:induction false} Epoch(y: int, k: int)
    ensures DayFromYear(1970) == 0 && DayFromYear(2000) == 30 * 365 + 7
    ensures DayFromYear(y + 400 * k) == DayFromYear(y) + (400 * 365 + 97) * k
    ensures 1601 <= y <= 2000 ==>
      (DaysInYear(y) == 366 <==> exists n | 1 <= n <= 100 && n !in [25, 50, 75] :: y == 1600 + 4 * n)
    ensures DaysInYear(y + 400 * k) == DaysInYear(y) && DaysInYear(y) in [365, 366]
  {
    Cycle(y - 1969, k, 4, 100);
    Cycle(y - 1901, k, 100, 4);
    Cycle(y - 1601, k, 400, 1);
    Cycle(y, k, 4, 100);
    Cycle(y, k, 100, 4);
    Cycle(y, k, 400, 1);
    if 1601 <= y <= 2000 { LeapYears(y); }
  }

  lemma {:induction false} LeapYears(y: int)
    requires 1601 <= y <= 2000
    ensures DaysInYear(y) == 366 <==> exists n | 1 <= n <= 100 && n !in [25, 50, 75] :: y == 1600 + 4 * n
  {
    if y % 4 == 0 && y !in [1700, 1800, 1900] {
      var n := (y - 1600) / 4;
      assert 1 <= n <= 100 && n !in [25, 50, 75] && y == 1600 + 4 * n;
    }
    Centuries(y);
  }

  lemma {:induction false} Centuries(y: int)
    requires 1601 <= y <= 2000
    ensures y % 100 == 0 && y % 400 != 0 <==> y in [1700, 1800, 1900]
  {
    var h := y / 100;
    assert y == 100 * h + y % 100 && 16 <= h <= 20;
  }

  lemma {:induction false} Cycle(x: int, k: int, d: int, n: int)
    requires d > 0 && d * n == 400
    ensures (x + 400 * k) / d == x / d + n * k && (x + 400 * k) % d == x % d
  {
    var q, r := x / d, x % d;
    assert x + 400 * k == (q + n * k) * d + r;
    Divided(x + 400 * k, d, q + n * k, r);
  }

  lemma {:induction false} Steps(x: int, k: int)
    requires k > 0
    ensures (x + 1) / k - x / k == if (x + 1) % k == 0 then 1 else 0
  {
    var q, r := x / k, x % k;
    assert x == q * k + r;
    if r == k - 1 {
      assert x + 1 == (q + 1) * k;
      Divided(x + 1, k, q + 1, 0);
    } else {
      assert x + 1 == q * k + (r + 1);
      Divided(x + 1, k, q, r + 1);
    }
  }

  lemma {:induction false} Divided(x: int, k: int, q: int, r: int)
    requires k > 0 && 0 <= r < k && x == q * k + r
    ensures x / k == q && x % k == r
  {
    var d := x / k - q;
    assert x % k - r == -(d * k);
    assert d >= 1 ==> d * k >= k;
    assert d <= -1 ==> d * k <= -k;
  }

  lemma {:induction false} Shifted(y: int, k: int, m: int)
    requires k > 0
    ensures (y - k * m) % k == y % k
  {
    var q, r := y / k, y % k;
    assert y == q * k + r;
    assert y - k * m == (q - m) * k + r;
    Divided(y - k * m, k, q - m, r);
  }

  /** Over any stretch of years the days add up; so years start in order. */
  lemma {:induction false} YearsInOrder(y: int, z: int)
    requires y < z
    ensures DayFromYear(y) + 365 * (z - y) <= DayFromYear(z) <= DayFromYear(y) + 366 * (z - y)
    decreases z - y
  {
    YearLength(y);
    if y + 1 < z { YearsInOrder(y + 1, z); }
  }

  /** A year starts within two days of where years of 365.2425 days would put it. */
  lemma {:induction false} MeanYear(y: int)
    ensures 146097 * (y - 1970) - 800 < 400 * DayFromYear(y) < 146097 * (y - 1970) + 800
  {
  }

  /** The estimate is off by one year at the most. */
  lemma {:induction false} EstimateClose(t: int)
    ensures TimeFromYear(Estimate(t) - 1) <= t < TimeFromYear(Estimate(t) + 2)
  {
    var e := Estimate(t);
    MeanYear(e - 1);
    MeanYear(e + 2);
    assert MS_PER_MEAN_YEAR * (e - 1970) <= t < MS_PER_MEAN_YEAR * (e - 1969);
  }

  /** One correction is enough, whatever the estimate, if it is off by one year at the most. */
  lemma {:induction false} CorrectedIsYear(y: int, t: int)
    requires TimeFromYear(y - 1) <= t < TimeFromYear(y + 2)
    ensures var z := Corrected(y, t); TimeFromYear(z) <= t < TimeFromYear(z + 1)
  {
    hide DayFromYear, DaysInYear;
    YearLength(y - 1);
    YearLength(y);
  }

  /** The year of a time is the one that it lies in, and there is only one. */
  lemma {:induction false} YearFromTimeIsYear(t: int)
    ensures var y := YearFromTime(t); TimeFromYear(y) <= t < TimeFromYear(y + 1)
    ensures forall z :: TimeFromYear(z) <= t < TimeFromYear(z + 1) ==> z == YearFromTime(t)
  {
    hide TimeFromYear, Corrected, Estimate;
    EstimateClose(t);
    CorrectedIsYear(Estimate(t), t);
    var y := YearFromTime(t);
    forall z | TimeFromYear(z) <= t < TimeFromYear(z + 1)
      ensures z == y
    {
      if z < y { TimesInOrder(z + 1, y); }
      if y < z { TimesInOrder(y + 1, z); }
    }
  }

  lemma {:induction false} TimesInOrder(y: int, z: int)
    requires y <= z
    ensures TimeFromYear(y) <= TimeFromYear(z)
  {
    hide DayFromYear;
    if y < z { YearsInOrder(y, z); }
  }

  lemma {:induction false} DayInRange(t: int)
    ensures 0 <= DayWithinYear(t) < DaysInYear(YearFromTime(t))
  {
    YearFromTimeIsYear(t);
    var y := YearFromTime(t);
    YearLength(y);
    var d := Day(t);
    assert MS_PER_DAY * d <= t < MS_PER_DAY * (d + 1);
  }

  // ----- parts of a day -----

  lemma {:induction false} PmodMeans(x: int, y: int)
    requires y > 0
    ensures Pmod(x, y) == x % y
  {
    var q, r := (if x < 0 then -x else x) / y, (if x < 0 then -x else x) % y;
    assert (if x < 0 then -x else x) == q * y + r;
    if x < 0 {
      if r == 0 {
        assert x == (-q) * y + 0;
        Divided(x, y, -q, 0);
      } else {
        assert x == (-q - 1) * y + (y - r);
        Divided(x, y, -q - 1, y - r);
      }
    }
  }

  function HourFromTime(t: int): int {
    Pmod(t / MS_PER_HOUR, 24)
  }

  function MinFromTime(t: int): int {
    Pmod(t / MS_PER_MINUTE, 60)
  }

  function SecFromTime(t: int): int {
    Pmod(t / MS_PER_SECOND, 60)
  }

  function MsFromTime(t: int): int {
    Pmod(t, MS_PER_SECOND)
  }

  function WeekDay(t: int): int {
    Pmod(Day(t) + 4, 7)
  }

  function MakeTime(hour: int, min: int, sec: int, ms: int): int {
    ((hour * 60 + min) * 60 + sec) * MS_PER_SECOND + ms
  }

  function MakeDate(day: int, time: int): int {
    day * MS_PER_DAY + time
  }

  lemma {:induction false} Quotients(t: int)
    ensures t / MS_PER_MINUTE == (t / MS_PER_SECOND) / 60
    ensures t / MS_PER_HOUR == (t / MS_PER_MINUTE) / 60
    ensures t / MS_PER_DAY == (t / MS_PER_HOUR) / 24
  {
    Divided(t, MS_PER_MINUTE, (t / MS_PER_SECOND) / 60, (t / MS_PER_SECOND) % 60 * MS_PER_SECOND + t % MS_PER_SECOND);
    Divided(t, MS_PER_HOUR, (t / MS_PER_MINUTE) / 60, (t / MS_PER_MINUTE) % 60 * MS_PER_MINUTE + t % MS_PER_MINUTE);
    Divided(t, MS_PER_DAY, (t / MS_PER_HOUR) / 24, (t / MS_PER_HOUR) % 24 * MS_PER_HOUR + t % MS_PER_HOUR);
  }

  /** A time put together from its own parts is that time. */
  lemma {:induction false} PartsMakeTime(t: int)
    ensures MakeTime(HourFromTime(t), MinFromTime(t), SecFromTime(t), MsFromTime(t)) == TimeWithinDay(t)
    ensures MakeDate(Day(t), TimeWithinDay(t)) == t
    ensures 0 <= HourFromTime(t) < 24 && 0 <= MinFromTime(t) < 60 && 0 <= SecFromTime(t) < 60
      && 0 <= MsFromTime(t) < 1000
  {
    hide Pmod;
    Quotients(t);
    PmodMeans(t, MS_PER_DAY);
    PmodMeans(t, MS_PER_SECOND);
    PmodMeans(t / MS_PER_HOUR, 24);
    PmodMeans(t / MS_PER_MINUTE, 60);
    PmodMeans(t / MS_PER_SECOND, 60);
  }

  /** The parts of a time are the parts that it is put together from. */
  lemma {:induction false} PartsOfMade(day: int, hour: int, min: int, sec: int, ms: int)
    requires 0 <= hour < 24 && 0 <= min < 60 && 0 <= sec < 60 && 0 <= ms < 1000
    ensures var t := MakeDate(day, MakeTime(hour, min, sec, ms));
      Day(t) == day && HourFromTime(t) == hour && MinFromTime(t) == min && SecFromTime(t) == sec && MsFromTime(t) == ms
  {
    hide Pmod;
    var t := MakeDate(day, MakeTime(hour, min, sec, ms));
    Divided(t, MS_PER_SECOND, ((day * 24 + hour) * 60 + min) * 60 + sec, ms);
    Divided(t, MS_PER_MINUTE, (day * 24 + hour) * 60 + min, sec * MS_PER_SECOND + ms);
    Divided(t, MS_PER_HOUR, day * 24 + hour, min * MS_PER_MINUTE + sec * MS_PER_SECOND + ms);
    Divided(t, MS_PER_DAY, day, hour * MS_PER_HOUR + min * MS_PER_MINUTE + sec * MS_PER_SECOND + ms);
    PmodMeans(t, MS_PER_SECOND);
    PmodMeans(t / MS_PER_HOUR, 24);
    PmodMeans(t / MS_PER_MINUTE, 60);
    PmodMeans(t / MS_PER_SECOND, 60);
    Divided(t / MS_PER_HOUR, 24, day, hour);
    Divided(t / MS_PER_MINUTE, 60, day * 24 + hour, min);
    Divided(t / MS_PER_SECOND, 60, (day * 24 + hour) * 60 + min, sec);
  }

  /** 1 January 1970 was a Thursday, and each day is followed by the next day of the week. */
  lemma {:induction false} WeekDays(t: int)
    ensures WeekDay(0) == 4 && 0 <= WeekDay(t) < 7
    ensures WeekDay(t + MS_PER_DAY) == (WeekDay(t) + 1) % 7
  {
    hide Pmod;
    var d, r := Day(t), t % MS_PER_DAY;
    Divided(t + MS_PER_DAY, MS_PER_DAY, d + 1, r);
    PmodMeans(d + 4, 7);
    PmodMeans(d + 5, 7);
    PmodMeans(4, 7);
  }
}
