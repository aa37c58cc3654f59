# MoneyFlow earnings arithmetic in Dafny

MoneyFlow is a small web widget. It shows how much of a monthly salary has
nominally been "earned" so far today, and it refreshes the amount continuously.
All of its computation is in two functions:

- `calculateRates` turns a salary configuration (monthly salary, working days
  per month, working hours per day, start hour and minute) into four earnings
  rates: per second, per minute, per hour and per working day. When there are
  zero working days or zero working hours, it returns all-zero rates instead of
  dividing by zero.
- `calculateEarningsToday` finds today's start instant. Before that instant it
  returns 0. After it, it returns the elapsed seconds times the per-second rate,
  with deliberately no cap at the end of the working day.

This project models both of them as pure Dafny functions over exact `real`
numbers, and proves the properties the code and its design promise about them.
The clock reading `new Date()` becomes a parameter, `nowMs`, counted in
milliseconds since local midnight. The start instant produced by
`setHours(h, m, 0, 0)` is `h * 3600000 + m * 60000` on that same scale.

Files:

- `types.dfy` (module `Types`): `SalaryConfig` and `EarningsRate` as
  datatypes, and the predicate `Consistent` that states the mutual agreement of
  the four rates.
- `constants.dfy` (module `Constants`): the first-run configuration.
- `calculations.dfy` (module `Calculations`): the two calculators and the
  lemmas about them.

The code never guards against negative inputs. For that reason the
non-negativity results have `requires` clauses that the inputs are at least
zero. `NegativeHoursGiveNegativeRate` shows what happens without them.

## Model

| member | source | states |
|---|---|---|
| `Calculations.WorkingSecondsNonZero` | utils/calculations.ts:7-14 | once the zero guard is passed, the month's working seconds (days × hours × 3600) are non-zero, so the division is always defined |
| `Calculations.CalculateRates` | utils/calculations.ts:3-25 | the result always satisfies rate consistency (perMinute = 60·perSecond, perHour = 60·perMinute, perDay = hours·perHour); zero days or zero hours give exactly the all-zero rate, not an error; otherwise perSecond times the month's working seconds equals the monthly salary |
| `Calculations.PerSecondIsSalaryOverWorkingSeconds` | utils/calculations.ts:11-14 | for a non-degenerate config, a rate x pays the salary over the month's working seconds if and only if x is the computed perSecond, i.e. perSecond = salary / (days × hours × 3600) |
| `Calculations.PerHourIsPerSecondTimes3600` | utils/calculations.ts:15-16 | consistent rates have perHour = perSecond × 3600 |
| `Calculations.SalaryRoundTrip` | utils/calculations.ts:11-14 | round trip: perSecond × 3600 × hours × days = monthly salary for every non-degenerate config |
| `Calculations.PerDayIsSalaryOverDays` | utils/calculations.ts:11-17 | for a non-degenerate config, perDay = salary / days, and days × perDay = salary |
| `Calculations.RatesNonNegativeAndOrdered` | utils/calculations.ts:7-17 | with salary, days and hours ≥ 0, all four rates are ≥ 0 and perSecond ≤ perMinute ≤ perHour (the degenerate case included) |
| `Calculations.NegativeHoursGiveNegativeRate` | utils/calculations.ts:7-14 | there is no sign guard: a positive salary, positive days and negative hours give a negative perSecond |
| `Calculations.DefaultConfigRates` | constants.ts:3-10 | the first-run config (10000 over 22 days of 8 hours) gives perDay = 10000/22, perHour = 10000/176, perSecond = 10000/633600, and perSecond × 3600 × 8 × 22 = 10000 |
| `Calculations.StartInstantWithinToday` | utils/calculations.ts:29-30 | a start time the settings form accepts (hour 0–23, minute 0–59) falls within today and on a whole minute |
| `Calculations.CalculateEarningsToday` | utils/calculations.ts:27-45 | before the start instant the result is exactly 0; with perSecond ≥ 0 it is never negative |
| `Calculations.EarningsAccrueLinearly` | utils/calculations.ts:37-44 | the amount is 0 at the start instant, and between two instants at or after it the amount grows by the elapsed seconds × perSecond |
| `Calculations.EarningsNonDecreasing` | utils/calculations.ts:33-44 | with perSecond ≥ 0, the amount is non-decreasing in `nowMs`, across the start instant too |
| `Calculations.OneHourAtUnitRate` | utils/calculations.ts:39-44 | one hour after the start at perSecond = 1 the amount is 3600, whatever perDay is (below 3600 included) |
| `Calculations.OvertimeExceedsPerDay` | utils/calculations.ts:37-44 | no cap at the daily rate: for a positive salary, days and hours, every instant later than `workingHoursPerDay` hours after the start has earned strictly more than the computed perDay |
| `Calculations.EarningsWithinTodayBounded` | utils/calculations.ts:28-44 | with the clock within today (0 ≤ nowMs < 24 h), a start not before midnight and perSecond ≥ 0, the amount is at most 86400 × perSecond |
| `Calculations.FullWorkdayEarnsPerDay` | utils/calculations.ts:14-44 | for a non-degenerate config, exactly `workingHoursPerDay` hours after the start instant the amount equals the computed perDay |

## Left out

- Floating point: every number is an exact `real`. IEEE-754 rounding, NaN and
  Infinity are not modelled, so the identities hold exactly here. In the code
  they hold up to rounding.
- Time zones, DST and the calendar: the day is a line of milliseconds from
  local midnight. `setHours` truncating a fractional hour or minute is not
  modelled either, because start hour and minute are integers here.
- The clock (`new Date()`) is the `nowMs` parameter. In the program it always
  lies within today, 0 ≤ nowMs < 86400000. The functions accept any integer,
  and no lemma relies on an instant outside today.
- Everything outside `utils/calculations.ts`. That is the React state and the
  `requestAnimationFrame` refresh loop in `App.tsx`, the local-storage load and
  save, the money formatting and progress-bar clamp, the settings form's
  `Number(...)` coercion, and the remote insight service with its fallbacks.
  These are UI, browser I/O or a foreign SDK call, not arithmetic.
- `currencySymbol` is carried in `SalaryConfig` but has no effect on any
  computation.
