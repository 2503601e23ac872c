/** PaycheckService.CalculatePaycheckAsync: build the paycheck object with its
    fixed amounts, then fill in the conditional costs and the net pay. */
module PaycheckService {
  import opened Wrappers
  import opened Dates
  import opened Money
  import opened Benefits

  /** EmployeePaycheckDto: a mutable record of one paycheck's breakdown. */
  class EmployeePaycheckDto {
    var employeeId: int
    /** Salary paid out per paycheck, before deductions. */
    var baseSalary: real
    /** The employee's own benefit cost per paycheck. */
    var baseBenefitCost: real
    /** All dependents' benefit cost per paycheck. */
    var dependentBenefitCost: real
    /** The high-salary surcharge per paycheck. */
    var salaryBenefitCost: real
    var netPay: real

    /** The object initialiser: every property set at once. */
    constructor (employeeId: int, baseSalary: real, salaryBenefitCost: real,
                 baseBenefitCost: real, dependentBenefitCost: real, netPay: real)
      ensures this.employeeId == employeeId && this.baseSalary == baseSalary
      ensures this.salaryBenefitCost == salaryBenefitCost && this.baseBenefitCost == baseBenefitCost
      ensures this.dependentBenefitCost == dependentBenefitCost && this.netPay == netPay
    {
      this.employeeId := employeeId;
      this.baseSalary := baseSalary;
      this.salaryBenefitCost := salaryBenefitCost;
      this.baseBenefitCost := baseBenefitCost;
      this.dependentBenefitCost := dependentBenefitCost;
      this.netPay := netPay;
    }

    /** Net pay is the base salary less the three costs. */
    predicate NetPayBalances()
      reads this
    {
      netPay == baseSalary - baseBenefitCost - salaryBenefitCost - dependentBenefitCost
    }
  }

  /** CalculatePaycheckAsync for one employee. The configuration row the
      repository returned and the evaluation date (the source reads the wall
      clock) are parameters. `null` is what the source returns when the row is
      missing or when any step throws. */
  method CalculatePaycheck(employee: Employee, appConfig: Option<AppConfiguration>, today: Date)
    returns (paycheck: EmployeePaycheckDto?)
    requires today.IsValid()
    ensures paycheck == null <==> CalculationFails(employee, appConfig, today)
    ensures paycheck != null ==>
      fresh(paycheck) &&
      var cfg := appConfig.value;
      paycheck.employeeId == employee.id &&
      paycheck.baseSalary == BaseSalary(employee.salary, cfg) &&
      paycheck.baseBenefitCost == BaseBenefitCost(cfg) &&
      paycheck.salaryBenefitCost == SalaryBenefitCost(employee.salary, cfg) &&
      paycheck.dependentBenefitCost == DependentBenefitCost(employee.dependents, cfg, today).value &&
      paycheck.NetPayBalances()
  {
    if appConfig.None? {
      return null;
    }
    var cfg := appConfig.value;
    if cfg.totalPaychecksPerYear == 0 {
      // decimal division by zero throws DivideByZeroException
      return null;
    }
    paycheck := new EmployeePaycheckDto(
      employee.id, BaseSalary(employee.salary, cfg), 0.0, BaseBenefitCost(cfg), 0.0, 0.0);

    if employee.salary > cfg.annualSalaryBenefitCostThreshold {
      paycheck.salaryBenefitCost := SalarySurcharge(employee.salary, cfg);
    }

    if |employee.dependents| > 0 {
      var cost := CalculateDependentCosts(employee.dependents, cfg, today);
      if cost.None? {
        // AddYears threw ArgumentOutOfRangeException
        return null;
      }
      paycheck.dependentBenefitCost := cost.value;
    }

    paycheck.netPay :=
      paycheck.baseSalary - paycheck.baseBenefitCost - paycheck.salaryBenefitCost - paycheck.dependentBenefitCost;
  }
}
