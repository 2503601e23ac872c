/** Worked examples under the documented rule set, and the leap-day case of the age rule. */
module PaycheckScenarios {
  import opened Wrappers
  import opened Dates
  import opened Money
  import opened Benefits

  /** Salary $80,000 with two dependents, one turning 51 on the evaluation date
      and one born that day: 3076.92 - 461.54 - 0 - 646.15 = 1969.23. */
  lemma DocumentedScenario()
    ensures var today := Date(2026, 10, 17);
      var deps := [Dependent(1, Date(1975, 10, 17), Spouse), Dependent(2, Date(2026, 10, 17), Child)];
      BaseSalary(80000.0, DocumentedRules) == 3076.92 &&
      BaseBenefitCost(DocumentedRules) == 461.54 &&
      SalaryBenefitCost(80000.0, DocumentedRules) == 0.0 &&
      DependentBenefitCost(deps, DocumentedRules, today) == Some(646.15) &&
      BaseSalary(80000.0, DocumentedRules) - BaseBenefitCost(DocumentedRules)
        - SalaryBenefitCost(80000.0, DocumentedRules)
        - DependentBenefitCost(deps, DocumentedRules, today).value == 1969.23
  {
    var today := Date(2026, 10, 17);
    var deps := [Dependent(1, Date(1975, 10, 17), Spouse), Dependent(2, Date(2026, 10, 17), Child)];
    RoundIsNearestEven(PerPaycheck(80000.0, DocumentedRules), 307692);
    RoundIsNearestEven(MonthlyPerPaycheck(1000.0, DocumentedRules), 46154);
    assert AgeCutoff(DocumentedRules, today) == Some(Date(1975, 10, 17));
    assert CountQualifying(deps, Date(1975, 10, 17)) == 1 by {
      assert deps[..1] == [deps[0]];
      assert CountQualifying(deps[..1], Date(1975, 10, 17)) == 1;
    }
    assert DependentCostUnrounded(deps, DocumentedRules, Date(1975, 10, 17)) == 16800.0 / 26.0;
    RoundIsNearestEven(16800.0 / 26.0, 64615);
  }

  /** Salary $26,000 and no dependents: $1,000.00 a paycheck and no surcharge. */
  lemma LowSalaryScenario()
    ensures BaseSalary(26000.0, DocumentedRules) == 1000.0
    ensures SalaryBenefitCost(26000.0, DocumentedRules) == 0.0
    ensures DependentBenefitCost([], DocumentedRules, Date(2026, 10, 17)) == Some(0.0)
  {
    RoundIsNearestEven(PerPaycheck(26000.0, DocumentedRules), 100000);
  }

  /** Salary $260,000 and no dependents: $10,000.00 a paycheck and a $200.00 surcharge. */
  lemma HighSalaryScenario()
    ensures BaseSalary(260000.0, DocumentedRules) == 10000.0
    ensures SalaryBenefitCost(260000.0, DocumentedRules) == 200.0
  {
    RoundIsNearestEven(PerPaycheck(260000.0, DocumentedRules), 1000000);
    assert AnnualSalaryCost(260000.0, DocumentedRules) == 5200.0;
    RoundIsNearestEven(PerPaycheck(5200.0, DocumentedRules), 20000);
  }

  /** AddYears clamps February 29 into a common year, so a dependent born on
      February 29 is not yet one year old on February 28 of the next year,
      and is on March 1. */
  lemma LeapDayBirthday()
    ensures AddYears(Date(2024, 2, 29), -1) == Some(Date(2023, 2, 28))
    ensures var cfg := DocumentedRules.(dependentAdditionalBenefitCostAgeThreshold := 1);
      var d := Dependent(1, Date(2020, 2, 29), Child);
      AgeCutoff(cfg, Date(2021, 2, 28)) == Some(Date(2020, 2, 28)) &&
      !Qualifies(d, AgeCutoff(cfg, Date(2021, 2, 28)).value) &&
      AgeCutoff(cfg, Date(2021, 3, 1)) == Some(Date(2020, 3, 1)) &&
      Qualifies(d, AgeCutoff(cfg, Date(2021, 3, 1)).value)
  {
  }
}
