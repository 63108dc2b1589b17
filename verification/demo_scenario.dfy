/** What the calculator does with the reference data the page ships: the
    requirement table's total gap, and the verdicts the reallocation slider
    can reach over its whole range. */
module DemoScenario {
  import opened DemoData
  import opened ScenarioCalculations
  import ScenarioPlanner
  import Text

  /** The requirement table asks for 6 FTE in all, and no row's gap is
      negative. */
  lemma FteRequirementsTotalGap()
    ensures TotalGap(FteRequirements) == 6
    ensures GapsNonNegative(FteRequirements)
  {
  }

  /** Anywhere on the 10-40 % slider the reallocation frees fewer FTE than
      the table needs, so a gap of 1 to 5 FTE always remains and the verdict
      is never optimal or feasible, whatever the weeks and sites. */
  lemma {:induction false} SliderRangeNeverCloses(weeks: int, sites: int, pct: int)
    requires InRange(Defaults.reallocationPct, pct)
    ensures ReallocatedFtes(pct) < TotalGap(FteRequirements)
    ensures 1 <= RemainingGap(FteRequirements, pct) <= 5
    ensures CalcVerdict(FteRequirements, weeks, sites, pct).level in {Caution, Risk}
  {
    ReallocatedFtesInSliderRange(pct);
    FteRequirementsTotalGap();
  }

  /** At the default settings (12 weeks, 15 sites, 25 %): the cost is
      2,760k, the lead 2.3 months, and 3 FTE are freed, leaving a gap of 3
      and an at-risk verdict. */
  lemma DefaultScenario()
    ensures CostImpact(Defaults.accelerationWeeks.default, Defaults.additionalSites.default) == 2760
    ensures MarketLead(Defaults.accelerationWeeks.default) == 2.3
    ensures ReallocatedFtes(Defaults.reallocationPct.default) == 3
    ensures RemainingGap(FteRequirements, Defaults.reallocationPct.default) == 3
    ensures CalcVerdict(FteRequirements, 12, 15, 25).level == Risk
  {
    FteRequirementsTotalGap();
  }

  /** At 25 % the 3 freed FTE all go to the first row, Clinical Operations,
      which is then fully covered; no other row gets anything. */
  lemma {:induction false} DefaultChart()
    ensures var rows := ChartData(FteRequirements, 25);
      && rows[0].covered == 3 && rows[0].stillNeeded == 0
      && forall i :: 1 <= i < |rows| ==> rows[i].covered == 0
  {
    assert ReallocatedFtes(25) == 3;
    FteRequirementsTotalGap();
    ChartRowsFirstRowAbsorbs(FteRequirements, 3);
  }

  /** The first bar is labelled "Clinical" on the axis and
      "Clinical\nOperations" in full. */
  lemma {:induction false} DefaultChartLabels(pct: int)
    ensures ChartData(FteRequirements, pct)[0].roleShort == "Clinical"
    ensures ChartData(FteRequirements, pct)[0].role == "Clinical" + "\n" + "Operations"
  {
    var rows := ChartData(FteRequirements, pct);
    ChartRowsLabels(FteRequirements, ReallocatedFtes(pct));
    assert rows[0].roleShort == Text.FirstWord(FteRequirements[0].role);
    assert rows[0].role == Text.ReplaceFirstSpace(FteRequirements[0].role);
    ClinicalOperationsLabels();
  }

  lemma ClinicalOperationsLabels()
    ensures Text.FirstWord(FteRequirements[0].role) == "Clinical"
    ensures Text.ReplaceFirstSpace(FteRequirements[0].role) == "Clinical" + "\n" + "Operations"
  {
    Text.LabelsOfJoinedName("Clinical", "Operations");
    assert "Clinical" + " " + "Operations" == FteRequirements[0].role;
  }

  /** The page opens on the AI-recommended scenario with the optimise button
      disabled. */
  lemma OpensOnAiScenario(engine: ScenarioPlanner.Engine)
    ensures ScenarioPlanner.IsAiScenario(ScenarioPlanner.Initial(engine))
    ensures ScenarioPlanner.ButtonDisabled(ScenarioPlanner.Initial(engine))
    ensures ScenarioPlanner.BannerOf(ScenarioPlanner.Initial(engine)) == ScenarioPlanner.AiRecommended
  {
  }

  /** The studies the risk panel lists are the two that give up staff, in
      table order. */
  lemma DemoDeprioritisedStudies()
    ensures ScenarioPlanner.Deprioritised(Studies) == Studies[1..]
  {
  }
}
