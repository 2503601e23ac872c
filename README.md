# Paycheck calculator — a Dafny model

This project models the paycheck calculation of the Paylocity benefits
calculator API: `PaycheckService.CalculatePaycheckAsync` and its helper
`CalculateDependentCosts`. Given an employee (id, annual salary, dependents
with birth dates) and the `AppConfiguration` row of benefit rules, the service
returns an `EmployeePaycheckDto` with the base salary per paycheck, the
employee's base benefit cost, the high-salary surcharge, the dependents'
benefit cost and the net pay, or `null` when there is no configuration or the
computation throws.

Modules:

- `Wrappers`: `Option`.
- `Dates`: dates at day granularity, `DateTime.AddYears` (February 29 clamps to
  February 28 in a common year; out-of-range years throw, modelled as `None`),
  chronological order, age in completed years.
- `Money`: money as exact `real`s and `Math.Round(decimal, 2)`, which rounds a
  tie to the even cent (banker's rounding).
- `Benefits`: the configuration, employee and dependent records, and one
  function per amount of the paycheck (`BaseSalary`, `BaseBenefitCost`,
  `SalarySurcharge`/`SalaryBenefitCost`, `CountQualifying`,
  `CalculateDependentCosts`, `DependentBenefitCost`).
- `PaycheckService`: the `EmployeePaycheckDto` class and the imperative
  `CalculatePaycheck` method, which builds the object with zeroed costs and
  then overwrites the salary surcharge, the dependent cost and the net pay
  under the same conditions as the source.
- `PaycheckProperties`: lemmas: net pay is whole cents, the dependent cost
  equals a per-dependent sum, the age and salary boundaries, the failure cases.
- `PaycheckScenarios`: the documented rule set worked through, and the
  leap-day birthday.

The evaluation date, read from the wall clock at `PaycheckService.cs:86`, is a
parameter (`today`). The configuration row, fetched from the repository at
`PaycheckService.cs:37`, is a parameter `appConfig: Option<AppConfiguration>`.

## Model

| member | source | states |
|---|---|---|
| `Dates.AddYears` | PaylocityBenefitsCalculator/Api/Services/PaycheckService.cs:89 | `today.AddYears(n)` exists exactly when -10000 <= n <= 10000 and the year lands in 1..9999; it keeps month and day, except that February 29 becomes February 28 in a common year; the result is a valid date |
| `Dates.OnOrBeforeCutoffIffAgeAtLeast` | PaylocityBenefitsCalculator/Api/Services/PaycheckService.cs:89 | being born on or before `today.AddYears(-t)` is the same as being at least `t` completed years old on `today`, leap-day birthdays included |
| `Money.RoundHalfEvenToCents` | PaylocityBenefitsCalculator/Api/Services/PaycheckService.cs:98 | the cent count is within half a cent of the amount, and on an exact tie it is even |
| `Money.Round2` | PaylocityBenefitsCalculator/Api/Services/PaycheckService.cs:47 | `Math.Round(x, 2)` is a whole number of cents within half a cent of `x` |
| `Money.RoundIsNearestEven` | PaylocityBenefitsCalculator/Api/Services/PaycheckService.cs:49 | the rounding is fully determined: the cent count strictly nearer than half a cent, or on a tie the even one |
| `Money.TieGoesToEven` | PaylocityBenefitsCalculator/Api/Services/PaycheckService.cs:57 | ties go to the even cent, not away from zero: 0.125 -> 0.12, 0.135 -> 0.14, -0.125 -> -0.12 |
| `Money.RoundPositive` | PaylocityBenefitsCalculator/Api/Services/PaycheckService.cs:57 | more than half a cent rounds to a positive amount; exactly half a cent rounds to zero |
| `Money.RoundWholeCents` | PaylocityBenefitsCalculator/Api/Services/PaycheckService.cs:67 | rounding an amount already in whole cents changes nothing |
| `Money.SubWholeCents` | PaylocityBenefitsCalculator/Api/Services/PaycheckService.cs:67 | the difference of two whole-cent amounts is whole cents |
| `Benefits.BaseSalary` | PaylocityBenefitsCalculator/Api/Services/PaycheckService.cs:47 | base salary is whole cents and within half a cent of salary / paychecks per year |
| `Benefits.BaseBenefitCost` | PaylocityBenefitsCalculator/Api/Services/PaycheckService.cs:49 | base benefit cost is whole cents and within half a cent of monthly cost × 12 / paychecks; it takes neither salary nor dependents as input |
| `Benefits.SalarySurcharge` | PaylocityBenefitsCalculator/Api/Services/PaycheckService.cs:57 | the surcharge is whole cents and within half a cent of salary × rate / paychecks |
| `Benefits.SalaryBenefitCost` | PaylocityBenefitsCalculator/Api/Services/PaycheckService.cs:54-58 | zero for a salary at or below the threshold, the surcharge for a salary strictly above it |
| `Benefits.CountQualifying` | PaylocityBenefitsCalculator/Api/Services/PaycheckService.cs:88-89 | the number of qualifying dependents is at most the number of dependents |
| `Benefits.CalculateDependentCosts` | PaylocityBenefitsCalculator/Api/Services/PaycheckService.cs:84-99 | fails exactly when there is at least one dependent and `today.AddYears(-threshold)` throws (the count evaluates AddYears once per dependent); with no dependents 0; otherwise whole cents within half a cent of n × base share + k × additional share, rounded once after summing |
| `Benefits.DependentBenefitCost` | PaylocityBenefitsCalculator/Api/Services/PaycheckService.cs:60-63 | exactly 0 with no dependents (the helper is not called); the helper's result otherwise |
| `PaycheckService.EmployeePaycheckDto.constructor` | PaylocityBenefitsCalculator/Api/Services/PaycheckService.cs:44-52 | the object initialiser sets all six properties |
| `PaycheckService.CalculatePaycheck` | PaylocityBenefitsCalculator/Api/Services/PaycheckService.cs:33-75 | returns null exactly when the configuration is missing or the computation throws; otherwise a fresh paycheck with the employee's id, each amount as its rule gives it, and net pay equal to base salary less the three costs with no further rounding |
| `PaycheckProperties.DependentCostIsPerDependentSum` | PaylocityBenefitsCalculator/Api/Services/PaycheckService.cs:91-96 | pricing the two counts equals charging each dependent the base share plus, if they qualify, the additional share on top (additive, not a replacement) |
| `PaycheckProperties.AddingDependentAddsItsShare` | PaylocityBenefitsCalculator/Api/Services/PaycheckService.cs:94-96 | for any non-zero paycheck count and any costs, one more dependent adds exactly that dependent's own share |
| `PaycheckProperties.AddingDependentNeverLowersCost` | PaylocityBenefitsCalculator/Api/Services/PaycheckService.cs:94-96 | with a positive paycheck count and non-negative costs, one more dependent never lowers the total |
| `PaycheckProperties.QualifiesIffAgeReachesThreshold` | PaylocityBenefitsCalculator/Api/Services/PaycheckService.cs:89 | a dependent qualifies exactly when their age in completed years on the evaluation date is at least the threshold |
| `PaycheckProperties.AgeBoundary` | PaylocityBenefitsCalculator/Api/Services/PaycheckService.cs:89-96 | a dependent born exactly `threshold` years before today pays base + additional; one born a day later pays base only |
| `PaycheckProperties.CountQualifyingMonotone` | PaylocityBenefitsCalculator/Api/Services/PaycheckService.cs:89 | a later cutoff date never lowers the count of qualifying dependents |
| `PaycheckProperties.CountQualifyingExtremes` | PaylocityBenefitsCalculator/Api/Services/PaycheckService.cs:88-89 | the count is 0 exactly when no dependent qualifies and equals the number of dependents exactly when all do |
| `PaycheckProperties.NoSurchargeAtThreshold` | PaylocityBenefitsCalculator/Api/Services/PaycheckService.cs:55 | a salary exactly at the threshold pays no surcharge |
| `PaycheckProperties.SurchargeAboveThreshold` | PaylocityBenefitsCalculator/Api/Services/PaycheckService.cs:55-58 | above the threshold the surcharge is positive once its exact value exceeds half a cent, and zero at exactly half a cent |
| `PaycheckProperties.NetPayIsWholeCents` | PaylocityBenefitsCalculator/Api/Services/PaycheckService.cs:67 | net pay is whole cents, so rounding it again would not change it |
| `PaycheckProperties.FailureCases` | PaylocityBenefitsCalculator/Api/Services/PaycheckService.cs:37-74 | no paycheck exactly when the configuration is missing, the paycheck count is 0, or there are dependents and the age threshold is beyond 10000 years or takes the year outside 1..9999 |
| `PaycheckScenarios.DocumentedScenario` | PaylocityBenefitsCalculator/Api/Services/PaycheckService.cs:13-17 | under the documented rules, $80,000 with a dependent turning 51 today and one born today: 3076.92, 461.54, 0, 646.15, net 1969.23 |
| `PaycheckScenarios.LowSalaryScenario` | PaylocityBenefitsCalculator/Api/Services/PaycheckService.cs:13-16 | $26,000 and no dependents: 1000.00 per paycheck, no surcharge, no dependent cost |
| `PaycheckScenarios.HighSalaryScenario` | PaylocityBenefitsCalculator/Api/Services/PaycheckService.cs:16 | $260,000: 10000.00 per paycheck and a 200.00 surcharge |
| `PaycheckScenarios.LeapDayBirthday` | PaylocityBenefitsCalculator/Api/Services/PaycheckService.cs:89 | February 29 minus a year is February 28; a dependent born on February 29 reaches age 1 on March 1, not February 28, of the following common year |

## Behaviour worth noting

These points describe what the code does, which is not always what a reader of
the business rules would expect.

- Rounding is banker's rounding. `Math.Round(decimal, 2)` is called with no
  mode, so a tie goes to the even cent, not away from zero (`TieGoesToEven`).
- Net pay is not rounded again (`PaycheckService.cs:67`). `NetPayIsWholeCents`
  shows that another rounding would change nothing.
- Only a zero paycheck count fails, through decimal division by zero. A
  negative paycheck count or a negative salary gives ordinary, negative
  amounts.
- `AddYears` throws when the threshold moves the year outside 1..9999. This
  can only happen when there are dependents.
- Every failure is caught and becomes `null` (`PaycheckService.cs:71-74`). A
  missing configuration row also gives `null` (`PaycheckService.cs:38-41`).
  No default rule set is used.
- A salary just above the threshold does not always pay a positive surcharge.
  An exact surcharge of at most half a cent rounds to 0.00.

## Left out

- I/O and framework: the repository read of the configuration, the async/Task
  machinery, the controllers, persistence and dependency wiring. The
  configuration and the evaluation date are parameters instead.
- `decimal`'s finite precision (28–29 significant digits) and its
  `OverflowException`: money is exact `real`, and every division is exact.
  Decimal division rounds its quotient to the type's precision, so such a
  quotient could, in principle, round differently at an exact half cent.
- Int32 widths of the id, paycheck count and age threshold: these are unbounded
  `int`s. `-1 * threshold` wraps for `Int32.MinValue`, but AddYears throws on
  both values, so the outcome is the same.
- The time of day of birth dates: dates are whole days, as `DateTime.Now.Date`
  makes the evaluation date.
- Names of employees and dependents, the employee's own birth date (which the
  calculation does not read), and the relationship (carried but unused).
- `IPaycheckService.CalculatePaycheck` (a synchronous declaration the class does
  not implement) and `PaycheckServiceTests.cs`, whose expectations are written
  against an older version of the formulas.
