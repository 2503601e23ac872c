/** What the paycheck rules promise, proved about the functions the
    calculation is specified by. */
module PaycheckProperties {
  import opened Wrappers
  import opened Dates
  import opened Money
  import opened Benefits

  /** A single dependent's cost per paycheck: the base share, plus the
      additional share when the dependent is old enough. */
  function PerDependentCost(d: Dependent, cfg: AppConfiguration, cutoff: Date): real
    requires cfg.totalPaychecksPerYear != 0
  {
    MonthlyPerPaycheck(cfg.dependentBaseBenefitMonthlyCost, cfg) +
    (if Qualifies(d, cutoff) then MonthlyPerPaycheck(cfg.dependentAdditionalBenefitMonthlyCost, cfg) else 0.0)
  }

  /** The dependents' costs added up one by one. */
  function SumPerDependent(deps: seq<Dependent>, cfg: AppConfiguration, cutoff: Date): real
    requires cfg.totalPaychecksPerYear != 0
  {
    if deps == [] then 0.0
    else SumPerDependent(deps[..|deps| - 1], cfg, cutoff) + PerDependentCost(deps[|deps| - 1], cfg, cutoff)
  }

  /** Counting dependents and qualifying dependents and pricing the two counts
      (as CalculateDependentCosts does) is the same as charging every dependent
      the base share and the additional share on top when they qualify. */
  lemma {:induction false} DependentCostIsPerDependentSum(deps: seq<Dependent>, cfg: AppConfiguration, cutoff: Date)
    requires cfg.totalPaychecksPerYear != 0
    ensures DependentCostUnrounded(deps, cfg, cutoff) == SumPerDependent(deps, cfg, cutoff)
  {
    if deps != [] {
      var last := deps[|deps| - 1];
      DependentCostIsPerDependentSum(deps[..|deps| - 1], cfg, cutoff);
      PricedCountsStep(|deps[..|deps| - 1]|, CountQualifying(deps[..|deps| - 1], cutoff),
                       if Qualifies(last, cutoff) then 1 else 0,
                       MonthlyPerPaycheck(cfg.dependentAdditionalBenefitMonthlyCost, cfg),
                       MonthlyPerPaycheck(cfg.dependentBaseBenefitMonthlyCost, cfg));
    }
  }

  /** Pricing one more dependent (`q` is 1 when it qualifies) adds its own share to the priced counts. */
  lemma PricedCountsStep(n: nat, k: nat, q: nat, a: real, b: real)
    ensures (n + 1) as real * b + (k + q) as real * a == (n as real * b + k as real * a) + (b + q as real * a)
  {
  }

  /** Covering one more dependent adds exactly that dependent's own share,
      for any non-zero paycheck count and any monthly costs. */
  lemma AddingDependentAddsItsShare(deps: seq<Dependent>, d: Dependent, cfg: AppConfiguration, cutoff: Date)
    requires cfg.totalPaychecksPerYear != 0
    ensures DependentCostUnrounded(deps + [d], cfg, cutoff) - DependentCostUnrounded(deps, cfg, cutoff)
            == PerDependentCost(d, cfg, cutoff)
  {
    DependentCostIsPerDependentSum(deps + [d], cfg, cutoff);
    DependentCostIsPerDependentSum(deps, cfg, cutoff);
    assert (deps + [d])[..|deps + [d]| - 1] == deps;
  }

  /** With non-negative monthly costs and a positive paycheck count, covering
      one more dependent never lowers the dependents' cost. */
  lemma AddingDependentNeverLowersCost(deps: seq<Dependent>, d: Dependent, cfg: AppConfiguration, cutoff: Date)
    requires cfg.totalPaychecksPerYear > 0
    requires cfg.dependentBaseBenefitMonthlyCost >= 0.0 && cfg.dependentAdditionalBenefitMonthlyCost >= 0.0
    ensures DependentCostUnrounded(deps + [d], cfg, cutoff) >= DependentCostUnrounded(deps, cfg, cutoff)
  {
    AddingDependentAddsItsShare(deps, d, cfg, cutoff);
    assert MonthlyPerPaycheck(cfg.dependentBaseBenefitMonthlyCost, cfg) >= 0.0 by {
      assert cfg.dependentBaseBenefitMonthlyCost * 12.0 >= 0.0;
    }
    assert MonthlyPerPaycheck(cfg.dependentAdditionalBenefitMonthlyCost, cfg) >= 0.0 by {
      assert cfg.dependentAdditionalBenefitMonthlyCost * 12.0 >= 0.0;
    }
  }

  /** A dependent qualifies for the additional cost exactly when their age in
      completed years on the evaluation date has reached the threshold. */
  lemma QualifiesIffAgeReachesThreshold(d: Dependent, cfg: AppConfiguration, today: Date)
    requires today.IsValid() && d.dateOfBirth.IsValid()
    requires AgeCutoff(cfg, today).Some?
    ensures Qualifies(d, AgeCutoff(cfg, today).value) <==>
            AgeInYears(d.dateOfBirth, today) >= cfg.dependentAdditionalBenefitCostAgeThreshold
  {
    OnOrBeforeCutoffIffAgeAtLeast(d.dateOfBirth, today, cfg.dependentAdditionalBenefitCostAgeThreshold);
  }

  /** The age boundary: a dependent born exactly `threshold` years before the
      evaluation date pays the base and the additional share; one born a day
      later pays only the base share. */
  lemma AgeBoundary(cfg: AppConfiguration, today: Date, id: int, rel: Relationship)
    requires cfg.totalPaychecksPerYear != 0 && today.IsValid()
    requires AgeCutoff(cfg, today).Some? && AgeCutoff(cfg, today).value != Date(9999, 12, 31)
    ensures var cutoff := AgeCutoff(cfg, today).value;
      PerDependentCost(Dependent(id, cutoff, rel), cfg, cutoff) ==
        MonthlyPerPaycheck(cfg.dependentBaseBenefitMonthlyCost, cfg) + MonthlyPerPaycheck(cfg.dependentAdditionalBenefitMonthlyCost, cfg) &&
      PerDependentCost(Dependent(id, NextDay(cutoff), rel), cfg, cutoff) ==
        MonthlyPerPaycheck(cfg.dependentBaseBenefitMonthlyCost, cfg)
  {
    var cutoff := AgeCutoff(cfg, today).value;
    assert !NextDay(cutoff).OnOrBefore(cutoff);
  }

  /** An older dependent qualifies whenever a younger one does, so the count of
      qualifying dependents only grows as the cutoff moves later. */
  lemma {:induction false} CountQualifyingMonotone(deps: seq<Dependent>, c1: Date, c2: Date)
    requires c1.OnOrBefore(c2)
    ensures CountQualifying(deps, c1) <= CountQualifying(deps, c2)
  {
    if deps != [] {
      CountQualifyingMonotone(deps[..|deps| - 1], c1, c2);
      if Qualifies(deps[|deps| - 1], c1) {
        OnOrBeforeTransitive(deps[|deps| - 1].dateOfBirth, c1, c2);
      }
    }
  }

  /** No dependent is counted exactly when none qualifies, and all are counted
      exactly when all qualify. */
  lemma {:induction false} CountQualifyingExtremes(deps: seq<Dependent>, cutoff: Date)
    ensures CountQualifying(deps, cutoff) == 0 <==> forall i :: 0 <= i < |deps| ==> !Qualifies(deps[i], cutoff)
    ensures CountQualifying(deps, cutoff) == |deps| <==> forall i :: 0 <= i < |deps| ==> Qualifies(deps[i], cutoff)
  {
    if deps != [] {
      var init := deps[..|deps| - 1];
      CountQualifyingExtremes(init, cutoff);
      assert forall i :: 0 <= i < |init| ==> init[i] == deps[i];
    }
  }

  /** An employee paid exactly the threshold pays no salary surcharge. */
  lemma NoSurchargeAtThreshold(cfg: AppConfiguration)
    requires cfg.totalPaychecksPerYear != 0
    ensures SalaryBenefitCost(cfg.annualSalaryBenefitCostThreshold, cfg) == 0.0
  {
  }

  /** Above the threshold the surcharge is positive as soon as its exact value
      exceeds half a cent (an exact half cent rounds to the even cent, zero). */
  lemma SurchargeAboveThreshold(salary: real, cfg: AppConfiguration)
    requires cfg.totalPaychecksPerYear != 0
    requires salary > cfg.annualSalaryBenefitCostThreshold
    ensures PerPaycheck(AnnualSalaryCost(salary, cfg), cfg) > 0.005 ==> SalaryBenefitCost(salary, cfg) > 0.0
    ensures PerPaycheck(AnnualSalaryCost(salary, cfg), cfg) == 0.005 ==> SalaryBenefitCost(salary, cfg) == 0.0
  {
    RoundPositive(PerPaycheck(AnnualSalaryCost(salary, cfg), cfg));
  }

  /** Net pay, the unrounded difference of four rounded amounts, is itself a
      whole number of cents, so rounding it again would change nothing. */
  lemma NetPayIsWholeCents(employee: Employee, cfg: AppConfiguration, today: Date)
    requires cfg.totalPaychecksPerYear != 0 && today.IsValid()
    requires DependentBenefitCost(employee.dependents, cfg, today).Some?
    ensures var net := BaseSalary(employee.salary, cfg) - BaseBenefitCost(cfg)
                       - SalaryBenefitCost(employee.salary, cfg)
                       - DependentBenefitCost(employee.dependents, cfg, today).value;
      IsCents(net) && Round2(net) == net
  {
    var bs, bb := BaseSalary(employee.salary, cfg), BaseBenefitCost(cfg);
    var sb, db := SalaryBenefitCost(employee.salary, cfg), DependentBenefitCost(employee.dependents, cfg, today).value;
    assert IsCents(sb) by {
      if employee.salary <= cfg.annualSalaryBenefitCostThreshold {
        assert (0.0 * 100.0).Floor == 0;
      }
    }
    assert IsCents(db) by {
      if employee.dependents == [] {
        assert (0.0 * 100.0).Floor == 0;
      }
    }
    SubWholeCents(bs, bb);
    SubWholeCents(bs - bb, sb);
    SubWholeCents(bs - bb - sb, db);
    RoundWholeCents(bs - bb - sb - db);
  }

  /** When the calculation yields no paycheck: no configuration row, a zero
      paycheck count, or dependents to age and a threshold that takes the
      evaluation year outside 1..9999 (or is itself beyond 10000 years). */
  lemma FailureCases(employee: Employee, appConfig: Option<AppConfiguration>, today: Date)
    requires today.IsValid()
    ensures CalculationFails(employee, appConfig, today) <==>
      appConfig.None? ||
      appConfig.value.totalPaychecksPerYear == 0 ||
      (employee.dependents != [] &&
       var t := appConfig.value.dependentAdditionalBenefitCostAgeThreshold;
       !(-10000 <= t <= 10000 && 1 <= today.year - t <= 9999))
  {
  }
}
