/** The earnings arithmetic: converting a salary configuration into
    earnings rates, and the amount earned since today's start of work.

    Time of day is modelled as whole milliseconds since local midnight,
    so the start instant that `setHours(h, m, 0, 0)` produces is
    `h * 3600000 + m * 60000`; out-of-range hours and minutes roll over
    linearly, as `setHours` does. The current time is a parameter. */
module Calculations {
  import opened Types
  import Constants

  const SecondsPerMinute: real := 60.0
  const SecondsPerHour: real := 3600.0
  const MillisPerSecond: int := 1000
  const MillisPerMinute: int := 60000
  const MillisPerHour: int := 3600000

  /** A configuration with no working days or no working hours; its rates
      are all zero rather than the result of a division by zero. */
  predicate IsDegenerate(config: SalaryConfig) {
    config.workingDaysPerMonth == 0.0 || config.workingHoursPerDay == 0.0
  }

  /** The number of working seconds in a month. */
  function WorkingSecondsPerMonth(config: SalaryConfig): real {
    config.workingDaysPerMonth * config.workingHoursPerDay * SecondsPerHour
  }

  /** Non-degenerate configurations have a non-zero number of working
      seconds per month, so the division below is defined. */
  lemma WorkingSecondsNonZero(config: SalaryConfig)
    requires !IsDegenerate(config)
    ensures WorkingSecondsPerMonth(config) != 0.0
  {
  }

  /** The rates a configuration earns at. The rates always agree with each
      other; with no working days or hours they are all zero, and otherwise
      the per-second rate paid over every working second of the month adds
      up to exactly the monthly salary. */
  function CalculateRates(config: SalaryConfig): (r: EarningsRate)
    ensures r.Consistent(config.workingHoursPerDay)
    ensures IsDegenerate(config) ==> r == ZeroRate
    ensures !IsDegenerate(config) ==>
              r.perSecond * WorkingSecondsPerMonth(config) == config.monthlySalary
  {
    if config.workingDaysPerMonth == 0.0 || config.workingHoursPerDay == 0.0 then
      ZeroRate
    else
      var totalWorkingHoursPerMonth := config.workingDaysPerMonth * config.workingHoursPerDay;
      var totalWorkingSecondsPerMonth := totalWorkingHoursPerMonth * SecondsPerHour;
      var perSecond := config.monthlySalary / totalWorkingSecondsPerMonth;
      var perMinute := perSecond * SecondsPerMinute;
      var perHour := perMinute * SecondsPerMinute;
      var perDay := perHour * config.workingHoursPerDay;
      EarningsRate(perSecond, perMinute, perHour, perDay)
  }

  /** For a non-degenerate configuration the per-second rate is the one and
      only rate that pays the monthly salary over the month's working
      seconds, i.e. salary / (days * hours * 3600). */
  lemma PerSecondIsSalaryOverWorkingSeconds(config: SalaryConfig, x: real)
    requires !IsDegenerate(config)
    ensures x * WorkingSecondsPerMonth(config) == config.monthlySalary
            <==> x == CalculateRates(config).perSecond
  {
    var r := CalculateRates(config);
    var s := WorkingSecondsPerMonth(config);
    WorkingSecondsNonZero(config);
    if x * s == config.monthlySalary {
      assert (x - r.perSecond) * s == 0.0;
    }
  }

  /** Consistent rates give an hourly rate of 3600 times the per-second
      rate. */
  lemma PerHourIsPerSecondTimes3600(r: EarningsRate, hoursPerDay: real)
    requires r.Consistent(hoursPerDay)
    ensures r.perHour == r.perSecond * SecondsPerHour
  {
  }

  /** Round trip: going back up from the per-second rate through hours per
      day and days per month gives back the monthly salary. */
  lemma SalaryRoundTrip(config: SalaryConfig)
    requires !IsDegenerate(config)
    ensures CalculateRates(config).perSecond * SecondsPerHour
              * config.workingHoursPerDay * config.workingDaysPerMonth
            == config.monthlySalary
  {
  }

  /** The daily rate is the monthly salary shared equally among the working
      days: it is salary / days, and days of it add up to the salary. */
  lemma PerDayIsSalaryOverDays(config: SalaryConfig)
    requires !IsDegenerate(config)
    ensures CalculateRates(config).perDay * config.workingDaysPerMonth == config.monthlySalary
    ensures CalculateRates(config).perDay == config.monthlySalary / config.workingDaysPerMonth
  {
  }

  /** With a non-negative salary, day count and hour count, every rate is
      non-negative and the rates grow with the time unit. */
  lemma RatesNonNegativeAndOrdered(config: SalaryConfig)
    requires config.monthlySalary >= 0.0
    requires config.workingDaysPerMonth >= 0.0 && config.workingHoursPerDay >= 0.0
    ensures CalculateRates(config).NonNegative()
    ensures CalculateRates(config).perSecond <= CalculateRates(config).perMinute
    ensures CalculateRates(config).perMinute <= CalculateRates(config).perHour
  {
  }

  /** Nothing guards against negative inputs: a positive salary over a
      negative number of hours per day yields a negative per-second rate. */
  lemma NegativeHoursGiveNegativeRate(config: SalaryConfig)
    requires config.monthlySalary > 0.0
    requires config.workingDaysPerMonth > 0.0 && config.workingHoursPerDay < 0.0
    ensures CalculateRates(config).perSecond < 0.0
  {
  }

  /** The first-run configuration (10000 over 22 days of 8 hours) earns
      10000/22 a day, a 176th of the salary an hour, and a 633600th of it
      a second. */
  lemma DefaultConfigRates()
    ensures CalculateRates(Constants.DefaultConfig).perDay == 10000.0 / 22.0
    ensures CalculateRates(Constants.DefaultConfig).perHour == 10000.0 / 176.0
    ensures CalculateRates(Constants.DefaultConfig).perSecond == 10000.0 / 633600.0
    ensures CalculateRates(Constants.DefaultConfig).perSecond * 3600.0 * 8.0 * 22.0 == 10000.0
  {
  }

  /** Milliseconds after local midnight at which today's work starts. */
  function StartInstant(config: SalaryConfig): int {
    config.startHour * MillisPerHour + config.startMinute * MillisPerMinute
  }

  /** A start time the settings form accepts (hour 0-23, minute 0-59) lies
      within today, on the minute. */
  lemma StartInstantWithinToday(config: SalaryConfig)
    requires 0 <= config.startHour <= 23 && 0 <= config.startMinute <= 59
    ensures 0 <= StartInstant(config) <= 24 * MillisPerHour - MillisPerMinute
    ensures StartInstant(config) % MillisPerMinute == 0
  {
  }

  /** The amount earned today at `nowMs` milliseconds after local midnight:
      nothing before the start instant, and afterwards the per-second rate
      for every second elapsed since it, with no cap at the end of the
      working day. */
  function CalculateEarningsToday(config: SalaryConfig, rates: EarningsRate, nowMs: int): (earned: real)
    ensures nowMs < StartInstant(config) ==> earned == 0.0
    ensures rates.perSecond >= 0.0 ==> earned >= 0.0
  {
    var startTime := StartInstant(config);
    if nowMs < startTime then
      0.0
    else
      var diffInSeconds := (nowMs - startTime) as real / MillisPerSecond as real;
      var effectiveSeconds := diffInSeconds;
      effectiveSeconds * rates.perSecond
  }

  /** Earnings accrue linearly from the start instant: between any two
      instants at or after it, the increase is the elapsed seconds times
      the per-second rate, and at the start instant itself nothing has been
      earned yet. */
  lemma EarningsAccrueLinearly(config: SalaryConfig, rates: EarningsRate, earlier: int, later: int)
    requires StartInstant(config) <= earlier <= later
    ensures CalculateEarningsToday(config, rates, StartInstant(config)) == 0.0
    ensures CalculateEarningsToday(config, rates, later) - CalculateEarningsToday(config, rates, earlier)
            == (later - earlier) as real / 1000.0 * rates.perSecond
  {
  }

  /** With a non-negative per-second rate, earnings never decrease as the
      day goes on. */
  lemma EarningsNonDecreasing(config: SalaryConfig, rates: EarningsRate, earlier: int, later: int)
    requires rates.perSecond >= 0.0
    requires earlier <= later
    ensures CalculateEarningsToday(config, rates, earlier) <= CalculateEarningsToday(config, rates, later)
  {
  }

  /** One hour after the start instant, at one unit per second, the amount
      is 3600 whatever the daily rate is, even a daily rate below 3600. */
  lemma OneHourAtUnitRate(config: SalaryConfig, rates: EarningsRate)
    requires rates.perSecond == 1.0
    ensures CalculateEarningsToday(config, rates, StartInstant(config) + MillisPerHour) == 3600.0
  {
  }

  lemma ProductNonNegative(a: real, b: real)
    requires a >= 0.0 && b >= 0.0
    ensures a * b >= 0.0
  {
  }

  lemma ProductPositive(a: real, b: real)
    requires a > 0.0 && b > 0.0
    ensures a * b > 0.0
  {
  }

  /** Earnings are not capped at the daily rate: for a configuration with
      a positive salary, days and hours, every instant later than a full
      working day after the start instant has earned more than the daily
      rate. */
  lemma OvertimeExceedsPerDay(config: SalaryConfig, nowMs: int)
    requires config.monthlySalary > 0.0
    requires config.workingDaysPerMonth > 0.0 && config.workingHoursPerDay > 0.0
    requires nowMs as real > StartInstant(config) as real + config.workingHoursPerDay * 3600000.0
    ensures CalculateEarningsToday(config, CalculateRates(config), nowMs) > CalculateRates(config).perDay
  {
    var r := CalculateRates(config);
    var h := config.workingHoursPerDay;
    var elapsed := (nowMs - StartInstant(config)) as real / 1000.0;
    assert r.perSecond > 0.0 by {
      ProductPositive(config.workingDaysPerMonth, config.workingHoursPerDay);
      assert WorkingSecondsPerMonth(config) > 0.0;
      assert r.perSecond * WorkingSecondsPerMonth(config) > 0.0;
    }
    assert elapsed > h * 3600.0;
    ProductPositive(elapsed - h * 3600.0, r.perSecond);
    assert CalculateEarningsToday(config, r, nowMs) == elapsed * r.perSecond;
    assert r.perDay == h * 3600.0 * r.perSecond;
    assert elapsed * r.perSecond - h * 3600.0 * r.perSecond
           == (elapsed - h * 3600.0) * r.perSecond;
  }

  /** While the clock stays within today and the start instant is not
      before midnight, the amount never exceeds a whole day of seconds at
      the per-second rate. */
  lemma EarningsWithinTodayBounded(config: SalaryConfig, rates: EarningsRate, nowMs: int)
    requires 0 <= StartInstant(config)
    requires 0 <= nowMs < 24 * MillisPerHour
    requires rates.perSecond >= 0.0
    ensures CalculateEarningsToday(config, rates, nowMs) <= 86400.0 * rates.perSecond
  {
    var start := StartInstant(config);
    if start <= nowMs {
      var elapsed := (nowMs - start) as real / 1000.0;
      assert elapsed <= 86400.0;
      ProductNonNegative(86400.0 - elapsed, rates.perSecond);
    }
  }

  /** A full working day after the start instant, the amount earned at the
      rates of a non-degenerate configuration is exactly the daily rate. */
  lemma FullWorkdayEarnsPerDay(config: SalaryConfig, workdayMs: int)
    requires !IsDegenerate(config)
    requires workdayMs >= 0
    requires workdayMs as real == config.workingHoursPerDay * 3600000.0
    ensures CalculateEarningsToday(config, CalculateRates(config), StartInstant(config) + workdayMs)
            == CalculateRates(config).perDay
  {
  }
}
