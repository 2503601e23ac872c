/** The inputs of the paycheck calculation (the benefit rules read from the
    AppConfiguration table and the employee with their dependents) and the
    rule for each per-paycheck amount, stated as functions of those inputs. */
module Benefits {
  import opened Wrappers
  import opened Dates
  import opened Money

  /** The AppConfiguration row. Integer columns are Int32 and money columns are decimal in the source. */
  datatype AppConfiguration = AppConfiguration(
    id: int,
    totalPaychecksPerYear: int,
    baseBenefitMonthlyCost: real,
    dependentBaseBenefitMonthlyCost: real,
    dependentAdditionalBenefitCostAgeThreshold: int,
    dependentAdditionalBenefitMonthlyCost: real,
    annualSalaryBenefitCostThreshold: real,
    annualSalaryCostRate: real)

  datatype Relationship = Spouse | DomesticPartner | Child

  /** The fields of GetDependentDto the calculation can see (names are not modelled). */
  datatype Dependent = Dependent(id: int, dateOfBirth: Date, relationship: Relationship)

  /** The fields of GetEmployeeDto the calculation can see (names are not modelled). */
  datatype Employee = Employee(id: int, salary: real, dateOfBirth: Date, dependents: seq<Dependent>)

  /** The rule set of the service's documentation: 26 paychecks, $1000 a month
      per employee, $600 a month per dependent, $200 more a month for a
      dependent aged 51 or more, 2% of salary above $80,000. */
  const DocumentedRules := AppConfiguration(1, 26, 1000.0, 600.0, 51, 200.0, 80000.0, 0.02)

  /** An annual amount spread evenly over the year's paychecks, exactly. */
  function PerPaycheck(annual: real, cfg: AppConfiguration): real
    requires cfg.totalPaychecksPerYear != 0
  {
    annual / cfg.totalPaychecksPerYear as real
  }

  /** A monthly amount annualised (times 12) and spread over the paychecks, exactly. */
  function MonthlyPerPaycheck(monthly: real, cfg: AppConfiguration): real
    requires cfg.totalPaychecksPerYear != 0
  {
    PerPaycheck(monthly * 12.0, cfg)
  }

  /** Salary per paycheck, rounded to the cent. */
  function BaseSalary(salary: real, cfg: AppConfiguration): (r: real)
    requires cfg.totalPaychecksPerYear != 0
    ensures IsCents(r)
    ensures WithinHalfCent(r, PerPaycheck(salary, cfg))
  {
    Round2(PerPaycheck(salary, cfg))
  }

  /** The employee's own benefit cost: the monthly cost annualised and spread
      over the paychecks, rounded to the cent. */
  function BaseBenefitCost(cfg: AppConfiguration): (r: real)
    requires cfg.totalPaychecksPerYear != 0
    ensures IsCents(r)
    ensures WithinHalfCent(r, MonthlyPerPaycheck(cfg.baseBenefitMonthlyCost, cfg))
  {
    Round2(MonthlyPerPaycheck(cfg.baseBenefitMonthlyCost, cfg))
  }

  /** The annual high-salary surcharge before it is spread: the rate times the salary. */
  function AnnualSalaryCost(salary: real, cfg: AppConfiguration): real {
    salary * cfg.annualSalaryCostRate
  }

  /** The high-salary surcharge: the rate applied to the annual salary,
      spread over the paychecks, rounded to the cent. */
  function SalarySurcharge(salary: real, cfg: AppConfiguration): (r: real)
    requires cfg.totalPaychecksPerYear != 0
    ensures IsCents(r)
    ensures WithinHalfCent(r, PerPaycheck(AnnualSalaryCost(salary, cfg), cfg))
  {
    Round2(PerPaycheck(AnnualSalaryCost(salary, cfg), cfg))
  }

  /** The salary benefit cost a paycheck carries: the surcharge only for a
      salary strictly above the threshold, zero up to and including it. */
  function SalaryBenefitCost(salary: real, cfg: AppConfiguration): (r: real)
    requires cfg.totalPaychecksPerYear != 0
    ensures salary <= cfg.annualSalaryBenefitCostThreshold ==> r == 0.0
    ensures salary > cfg.annualSalaryBenefitCostThreshold ==> r == SalarySurcharge(salary, cfg)
  {
    if salary > cfg.annualSalaryBenefitCostThreshold then SalarySurcharge(salary, cfg) else 0.0
  }

  /** `today.AddYears(-threshold)`: the latest birth date that still earns the
      age surcharge, or `None` where AddYears throws. */
  function AgeCutoff(cfg: AppConfiguration, today: Date): Option<Date>
    requires today.IsValid()
  {
    AddYears(today, -1 * cfg.dependentAdditionalBenefitCostAgeThreshold)
  }

  /** The predicate of the LINQ Count: born on or before the cutoff. */
  predicate Qualifies(d: Dependent, cutoff: Date) {
    d.dateOfBirth.OnOrBefore(cutoff)
  }

  /** `Dependents.Count(predicate)`: the number of dependents that qualify. */
  function CountQualifying(deps: seq<Dependent>, cutoff: Date): (k: nat)
    ensures k <= |deps|
  {
    if deps == [] then 0
    else CountQualifying(deps[..|deps| - 1], cutoff) + (if Qualifies(deps[|deps| - 1], cutoff) then 1 else 0)
  }

  /** CalculateDependentCosts before its final rounding: every dependent pays
      the base share and every qualifying one the additional share on top. */
  function DependentCostUnrounded(deps: seq<Dependent>, cfg: AppConfiguration, cutoff: Date): real
    requires cfg.totalPaychecksPerYear != 0
  {
    |deps| as real * MonthlyPerPaycheck(cfg.dependentBaseBenefitMonthlyCost, cfg) +
    CountQualifying(deps, cutoff) as real * MonthlyPerPaycheck(cfg.dependentAdditionalBenefitMonthlyCost, cfg)
  }

  /** CalculateDependentCosts: the dependents' total cost per paycheck, rounded
      once after summing; `None` where `today.AddYears(-threshold)` throws.
      The LINQ Count evaluates AddYears once per dependent, so with no
      dependents it never throws and the total is 0. */
  function CalculateDependentCosts(deps: seq<Dependent>, cfg: AppConfiguration, today: Date): (r: Option<real>)
    requires cfg.totalPaychecksPerYear != 0 && today.IsValid()
    ensures r.None? <==> deps != [] && AgeCutoff(cfg, today).None?
    ensures deps == [] ==> r == Some(0.0)
    ensures r.Some? && AgeCutoff(cfg, today).Some? ==>
      IsCents(r.value) &&
      WithinHalfCent(r.value, DependentCostUnrounded(deps, cfg, AgeCutoff(cfg, today).value))
  {
    match AgeCutoff(cfg, today)
    case None => if deps == [] then Some(Round2(0.0)) else None
    case Some(cutoff) => Some(Round2(DependentCostUnrounded(deps, cfg, cutoff)))
  }

  /** The dependent cost the paycheck carries: zero without dependents (the
      helper is then not called at all), the helper's result otherwise. */
  function DependentBenefitCost(deps: seq<Dependent>, cfg: AppConfiguration, today: Date): (r: Option<real>)
    requires cfg.totalPaychecksPerYear != 0 && today.IsValid()
    ensures deps == [] ==> r == Some(0.0)
    ensures deps != [] ==> r == CalculateDependentCosts(deps, cfg, today)
  {
    if |deps| > 0 then CalculateDependentCosts(deps, cfg, today) else Some(0.0)
  }

  /** The calculation yields no paycheck: the configuration is missing, or it
      throws (a zero paycheck count divides by zero; AddYears goes out of range
      when there are dependents to age). */
  predicate CalculationFails(employee: Employee, appConfig: Option<AppConfiguration>, today: Date)
    requires today.IsValid()
  {
    appConfig.None? ||
    appConfig.value.totalPaychecksPerYear == 0 ||
    DependentBenefitCost(employee.dependents, appConfig.value, today).None?
  }
}
