/** The two records the earnings calculator works on: the user's salary
    configuration and the four earnings rates derived from it.
    Every TypeScript `number` is modelled as an exact `real`, except the
    start hour and minute, which are whole clock values. */
module Types {

  /** The user-editable salary and schedule configuration. */
  datatype SalaryConfig = SalaryConfig(
    monthlySalary: real,
    workingDaysPerMonth: real,
    workingHoursPerDay: real,
    currencySymbol: string,  // display only; no effect on any computation
    startHour: int,          // 0-23 in the settings form
    startMinute: int         // 0-59 in the settings form
  )

  /** Earnings per second, minute, hour and working day. */
  datatype EarningsRate = EarningsRate(
    perSecond: real,
    perMinute: real,
    perHour: real,
    perDay: real
  ) {
    /** The four rates agree with each other for a working day of
        `hoursPerDay` hours: a minute is 60 seconds, an hour 60 minutes,
        and a day `hoursPerDay` hours. */
    predicate Consistent(hoursPerDay: real) {
      && perMinute == perSecond * 60.0
      && perHour == perMinute * 60.0
      && perDay == perHour * hoursPerDay
    }

    /** Every rate is at least zero. */
    predicate NonNegative() {
      perSecond >= 0.0 && perMinute >= 0.0 && perHour >= 0.0 && perDay >= 0.0
    }
  }

  /** The rate returned when there is nothing to divide by. */
  const ZeroRate := EarningsRate(0.0, 0.0, 0.0, 0.0)
}
