/** The slider-driven scenario calculator: how many FTE a reallocation
    percentage frees, how much of the role table's gap remains, the cost and
    market-lead figures, the per-role chart rows, and the trade-off verdict.

    The source reads the requirement table from a module constant; here it is
    the explicit parameter `table`, and the page's instance is
    `DemoData.FteRequirements`. */
module ScenarioCalculations {
  import opened Rounding
  import opened Text
  import opened DemoData

  /** FTE the deprioritised studies hold between them, open to reallocation. */
  const DeprioritisedPool: int := 13
  /** Cost of one additional investigator site, in thousands of pounds. */
  const SiteCost: int := 120
  /** Cost of one week of acceleration, in thousands of pounds. */
  const WeekCost: int := 80
  /** Highest cost (thousands of pounds) a fully covered scenario may have
      and still be called optimal. */
  const CostThreshold: int := 5000

  // ---------------------------------------------------------------------
  // Reallocated FTE, total and remaining gap
  // ---------------------------------------------------------------------

  /** `calcReallocatedFTEs`: `pct` percent of the pool, rounded to the
      nearest whole FTE, halves rounded up. */
  function ReallocatedFtes(pct: int): (n: int)
    ensures (n as real) - 0.5 <= (pct as real) / 100.0 * (DeprioritisedPool as real) < (n as real) + 0.5
  {
    RoundHalfUp(pct * DeprioritisedPool, 100)
  }

  /** A higher reallocation percentage never frees fewer FTE. */
  lemma {:induction false} ReallocatedFtesMonotone(pct1: int, pct2: int)
    requires pct1 <= pct2
    ensures ReallocatedFtes(pct1) <= ReallocatedFtes(pct2)
  {
    RoundHalfUpMonotone(pct1 * DeprioritisedPool, pct2 * DeprioritisedPool, 100);
  }

  /** Over the slider's 10-40 % range the reallocation frees 1 to 5 FTE. */
  lemma {:induction false} ReallocatedFtesInSliderRange(pct: int)
    requires 10 <= pct <= 40
    ensures 1 <= ReallocatedFtes(pct) <= 5
  {
    ReallocatedFtesMonotone(10, pct);
    ReallocatedFtesMonotone(pct, 40);
    assert ReallocatedFtes(10) == 1;
    assert ReallocatedFtes(40) == 5;
  }

  /** The gap column summed from the first row down (the reference definition
      of `calcTotalGap`). */
  function TotalGap(table: seq<RoleRequirement>): int {
    if |table| == 0 then 0 else table[0].gap + TotalGap(table[1..])
  }

  predicate GapsNonNegative(table: seq<RoleRequirement>) {
    forall i :: 0 <= i < |table| ==> table[i].gap >= 0
  }

  lemma {:induction false} TotalGapNonNegative(table: seq<RoleRequirement>)
    requires GapsNonNegative(table)
    ensures TotalGap(table) >= 0
  {
    if |table| > 0 {
      TotalGapNonNegative(table[1..]);
    }
  }

  /** Adding a row at the end adds its gap. */
  lemma {:induction false} TotalGapSnoc(table: seq<RoleRequirement>, r: RoleRequirement)
    ensures TotalGap(table + [r]) == TotalGap(table) + r.gap
  {
    if |table| == 0 {
      assert table + [r] == [r];
    } else {
      assert (table + [r])[1..] == table[1..] + [r];
      TotalGapSnoc(table[1..], r);
    }
  }

  /** `calcTotalGap`: `reduce((sum, r) => sum + r.gap, 0)` over the table. */
  method CalcTotalGap(table: seq<RoleRequirement>) returns (sum: int)
    ensures sum == TotalGap(table)
  {
    sum := 0;
    var i := 0;
    while i < |table|
      invariant 0 <= i <= |table|
      invariant sum == TotalGap(table[..i])
    {
      assert table[..i + 1] == table[..i] + [table[i]];
      TotalGapSnoc(table[..i], table[i]);
      sum := sum + table[i].gap;
      i := i + 1;
    }
    assert table[..i] == table;
  }

  /** `calcRemainingGap`: what reallocation leaves of the total gap, never
      below zero. */
  function RemainingGap(table: seq<RoleRequirement>, pct: int): (g: int)
    ensures g >= 0
    ensures g >= TotalGap(table) - ReallocatedFtes(pct)
    ensures g == 0 || g == TotalGap(table) - ReallocatedFtes(pct)
  {
    Max(0, TotalGap(table) - ReallocatedFtes(pct))
  }

  /** Reallocating a larger share never leaves a larger gap. */
  lemma {:induction false} RemainingGapNonIncreasing(table: seq<RoleRequirement>, pct1: int, pct2: int)
    requires pct1 <= pct2
    ensures RemainingGap(table, pct2) <= RemainingGap(table, pct1)
  {
    ReallocatedFtesMonotone(pct1, pct2);
  }

  // ---------------------------------------------------------------------
  // Cost and market lead
  // ---------------------------------------------------------------------

  /** `calcCostImpact`: a linear cost, in thousands of pounds. It is never
      negative for a real scenario, and it passes the verdict's threshold of
      5,000 exactly when 2·weeks + 3·sites exceeds 125. */
  function CostImpact(weeks: int, sites: int): (c: int)
    ensures weeks >= 0 && sites >= 0 ==> c >= 0
    ensures c > CostThreshold <==> 2 * weeks + 3 * sites > 125
  {
    sites * SiteCost + weeks * WeekCost
  }

  /** Each extra week adds the week cost, each extra site the site cost, and
      nothing costs nothing: the cost is exactly linear. */
  lemma CostImpactLinear(weeks: int, sites: int)
    ensures CostImpact(0, 0) == 0
    ensures CostImpact(weeks + 1, sites) == CostImpact(weeks, sites) + WeekCost
    ensures CostImpact(weeks, sites + 1) == CostImpact(weeks, sites) + SiteCost
  {
  }

  /** More acceleration or more sites always costs strictly more. */
  lemma CostImpactStrictlyIncreasing(w1: int, s1: int, w2: int, s2: int)
    ensures w1 < w2 ==> CostImpact(w1, s1) < CostImpact(w2, s1)
    ensures s1 < s2 ==> CostImpact(w1, s1) < CostImpact(w1, s2)
  {
  }

  /** `calcMarketLead`: months of lead, `weeks / 4 * 0.75`, rounded half up to
      one decimal place. The result is an exact number of tenths. */
  function MarketLead(weeks: int): (months: real)
    ensures months * 10.0 - 0.5 <= (weeks as real) / 4.0 * 0.75 * 10.0 < months * 10.0 + 0.5
    ensures (months * 10.0).Floor as real == months * 10.0
  {
    var tenths := RoundHalfUp(weeks * 15, 8);
    assert (tenths as real) / 10.0 * 10.0 == tenths as real;
    (tenths as real) / 10.0
  }

  /** More weeks of acceleration never shorten the market lead. */
  lemma {:induction false} MarketLeadMonotone(w1: int, w2: int)
    requires w1 <= w2
    ensures MarketLead(w1) <= MarketLead(w2)
  {
    RoundHalfUpMonotone(w1 * 15, w2 * 15, 8);
  }

  // ---------------------------------------------------------------------
  // Chart rows
  // ---------------------------------------------------------------------

  /** One bar group of the resource chart. */
  datatype ChartRow = ChartRow(
    role: string,
    roleShort: string,
    required: int,
    available: int,
    covered: int,
    stillNeeded: int)

  /** The rows `calcChartData` builds from `table` when `remaining` reallocated
      FTE are still to be handed out: each row takes what it can of its gap,
      in table order. */
  function ChartRows(table: seq<RoleRequirement>, remaining: int): (rows: seq<ChartRow>)
    ensures |rows| == |table|
    ensures forall i :: 0 <= i < |table| ==>
      && rows[i].required == table[i].required
      && rows[i].available == table[i].available
      && rows[i].covered + rows[i].stillNeeded == table[i].gap
  {
    if |table| == 0 then []
    else
      var r := table[0];
      var coverage := Min(r.gap, remaining);
      [ChartRow(ReplaceFirstSpace(r.role), FirstWord(r.role), r.required, r.available, coverage, r.gap - coverage)]
      + ChartRows(table[1..], Max(0, remaining - coverage))
  }

  /** Each row is labelled from its role's name: the chart label breaks the
      line at the name's first space, the short label is the first word. */
  lemma {:induction false} ChartRowsLabels(table: seq<RoleRequirement>, remaining: int)
    ensures var rows := ChartRows(table, remaining);
      forall i :: 0 <= i < |rows| ==>
        rows[i].role == ReplaceFirstSpace(table[i].role) && rows[i].roleShort == FirstWord(table[i].role)
  {
    if |table| > 0 {
      var rows := ChartRows(table, remaining);
      var rest := Max(0, remaining - Min(table[0].gap, remaining));
      var tail := ChartRows(table[1..], rest);
      assert rows[1..] == tail;
      ChartRowsLabels(table[1..], rest);
      forall i | 1 <= i < |rows|
        ensures rows[i].role == ReplaceFirstSpace(table[i].role) && rows[i].roleShort == FirstWord(table[i].role)
      {
        assert rows[i] == tail[i - 1];
        assert table[i] == table[1..][i - 1];
      }
    }
  }

  /** `calcChartData`: one bar per requirement row. For a non-negative
      percentage and a table without negative gaps, the freed FTE go to the
      rows in table order, and together the bars cover the smaller of the
      freed FTE and the total gap. */
  function ChartData(table: seq<RoleRequirement>, pct: int): (rows: seq<ChartRow>)
    ensures |rows| == |table|
    ensures GapsNonNegative(table) && pct >= 0 ==>
      && NothingAfterShortfall(rows)
      && SumCovered(rows) == Min(ReallocatedFtes(pct), TotalGap(table))
  {
    ChartDataFillsInOrder(table, pct);
    ChartRows(table, ReallocatedFtes(pct))
  }

  /** The chart's hand-out of the freed FTE: in table order, and covering
      the smaller of the freed FTE and the total gap. */
  lemma ChartDataFillsInOrder(table: seq<RoleRequirement>, pct: int)
    ensures GapsNonNegative(table) && pct >= 0 ==>
      && NothingAfterShortfall(ChartRows(table, ReallocatedFtes(pct)))
      && SumCovered(ChartRows(table, ReallocatedFtes(pct))) == Min(ReallocatedFtes(pct), TotalGap(table))
  {
    if GapsNonNegative(table) && pct >= 0 {
      ReallocatedFtesMonotone(0, pct);
      ChartRowsInOrder(table, ReallocatedFtes(pct));
      ChartRowsCoveredTotal(table, ReallocatedFtes(pct));
    }
  }

  function SumCovered(rows: seq<ChartRow>): int {
    if |rows| == 0 then 0 else rows[0].covered + SumCovered(rows[1..])
  }

  /** Every row is covered between nothing and its whole gap. */
  lemma {:induction false} ChartRowsCoverageBounded(table: seq<RoleRequirement>, remaining: int)
    requires GapsNonNegative(table)
    requires remaining >= 0
    ensures var rows := ChartRows(table, remaining);
      forall i :: 0 <= i < |rows| ==> 0 <= rows[i].covered <= table[i].gap
  {
    if |table| > 0 {
      var coverage := Min(table[0].gap, remaining);
      var rows := ChartRows(table, remaining);
      ChartRowsCoverageBounded(table[1..], Max(0, remaining - coverage));
      assert rows[1..] == ChartRows(table[1..], Max(0, remaining - coverage));
      forall i | 0 <= i < |rows| ensures 0 <= rows[i].covered <= table[i].gap {
        if i > 0 {
          assert rows[i] == rows[1..][i - 1];
        }
      }
    }
  }

  /** The rows hand out all of the reallocated FTE, unless the table's total
      gap is smaller, in which case they cover that gap exactly. */
  lemma {:induction false} ChartRowsCoveredTotal(table: seq<RoleRequirement>, remaining: int)
    requires GapsNonNegative(table)
    requires remaining >= 0
    ensures SumCovered(ChartRows(table, remaining)) == Min(remaining, TotalGap(table))
  {
    if |table| > 0 {
      var coverage := Min(table[0].gap, remaining);
      var rows := ChartRows(table, remaining);
      assert rows[1..] == ChartRows(table[1..], remaining - coverage);
      ChartRowsCoveredTotal(table[1..], remaining - coverage);
      TotalGapNonNegative(table[1..]);
    }
  }

  /** Once nothing is left to hand out, no later row is covered. */
  lemma {:induction false} ChartRowsExhausted(table: seq<RoleRequirement>)
    requires GapsNonNegative(table)
    ensures var rows := ChartRows(table, 0);
      forall i :: 0 <= i < |rows| ==> rows[i].covered == 0
  {
    if |table| > 0 {
      var rows := ChartRows(table, 0);
      assert rows[1..] == ChartRows(table[1..], 0);
      ChartRowsExhausted(table[1..]);
      forall i | 0 <= i < |rows| ensures rows[i].covered == 0 {
        if i > 0 {
          assert rows[i] == rows[1..][i - 1];
        }
      }
    }
  }

  /** When the first row's gap can absorb everything to hand out, it takes
      all of it and no later row gets anything. */
  lemma {:induction false} ChartRowsFirstRowAbsorbs(table: seq<RoleRequirement>, remaining: int)
    requires |table| > 0
    requires GapsNonNegative(table)
    requires 0 <= remaining <= table[0].gap
    ensures var rows := ChartRows(table, remaining);
      && rows[0].covered == remaining
      && forall i :: 1 <= i < |rows| ==> rows[i].covered == 0
  {
    var rows := ChartRows(table, remaining);
    var tail := ChartRows(table[1..], 0);
    assert Max(0, remaining - Min(table[0].gap, remaining)) == 0;
    assert rows[1..] == tail;
    ChartRowsExhausted(table[1..]);
    assert forall k :: 0 <= k < |ChartRows(table[1..], 0)| ==> ChartRows(table[1..], 0)[k].covered == 0;
    forall i | 1 <= i < |rows| ensures rows[i].covered == 0 {
      assert rows[i] == rows[1..][i - 1];
    }
  }

  /** Once a row is left short, every later row gets nothing. */
  predicate NothingAfterShortfall(rows: seq<ChartRow>) {
    forall i, j :: 0 <= i < j < |rows| && rows[i].stillNeeded > 0 ==> rows[j].covered == 0
  }

  lemma NothingAfterShortfallCons(r: ChartRow, tail: seq<ChartRow>)
    requires NothingAfterShortfall(tail)
    requires r.stillNeeded > 0 ==> forall k :: 0 <= k < |tail| ==> tail[k].covered == 0
    ensures NothingAfterShortfall([r] + tail)
  {
    var rows := [r] + tail;
    forall i, j | 0 <= i < j < |rows| && rows[i].stillNeeded > 0
      ensures rows[j].covered == 0
    {
      assert rows[j] == tail[j - 1];
      if i > 0 {
        assert rows[i] == tail[i - 1];
      }
    }
  }

  /** The hand-out is in table order: once a row is left short, every later
      row gets nothing. */
  lemma {:induction false} ChartRowsInOrder(table: seq<RoleRequirement>, remaining: int)
    requires GapsNonNegative(table)
    requires remaining >= 0
    ensures NothingAfterShortfall(ChartRows(table, remaining))
  {
    if |table| > 0 {
      var coverage := Min(table[0].gap, remaining);
      var rest := Max(0, remaining - coverage);
      var rows := ChartRows(table, remaining);
      var tail := ChartRows(table[1..], rest);
      assert rows[1..] == tail;
      ChartRowsInOrder(table[1..], rest);
      assert rows[0].covered == coverage;
      assert rows[0].stillNeeded == table[0].gap - coverage;
      if coverage < table[0].gap {
        assert rest == 0;
        ChartRowsExhausted(table[1..]);
        assert tail == ChartRows(table[1..], 0);
        NothingAfterShortfallCons(rows[0], tail);
      } else {
        NothingAfterShortfallCons(rows[0], tail);
      }
      assert [rows[0]] + tail == rows;
    }
  }

  // ---------------------------------------------------------------------
  // Verdict
  // ---------------------------------------------------------------------

  datatype VerdictLevel = Optimal | Feasible | Caution | Risk

  datatype Verdict = Verdict(level: VerdictLevel, heading: string, description: string)

  /** The heading shown for each verdict level. */
  function LevelLabel(level: VerdictLevel): string {
    match level
    case Optimal => "Optimal"
    case Feasible => "Feasible"
    case Caution => "Caution"
    case Risk => "At Risk"
  }

  /** The verdict texts; the caution and risk texts follow the gap. */
  const OptimalText := "Full FTE coverage with manageable cost impact."
  const FeasibleText := "Full FTE coverage achieved but cost is high — review budget."
  const CautionTail := " " + "FTE gap remains — consider increasing reallocation or hiring."
  const RiskTail := " " + "FTE gap unresolved — acceleration is at risk without additional headcount."

  /** `calcVerdict`: the first matching rule of full coverage within budget,
      full coverage over budget, a gap of at most two FTE, a larger gap. */
  function CalcVerdict(table: seq<RoleRequirement>, weeks: int, sites: int, pct: int): (v: Verdict)
    ensures v.level == Optimal <==>
      RemainingGap(table, pct) == 0 && CostImpact(weeks, sites) <= CostThreshold
    ensures v.level == Feasible <==>
      RemainingGap(table, pct) == 0 && CostImpact(weeks, sites) > CostThreshold
    ensures v.level == Caution <==> 1 <= RemainingGap(table, pct) <= 2
    ensures v.level == Risk <==> RemainingGap(table, pct) > 2
    ensures v.heading == LevelLabel(v.level)
    ensures v.level == Caution || v.level == Risk ==>
      var n := NatToString(RemainingGap(table, pct));
      |n| < |v.description| && v.description[..|n|] == n && !IsDigit(v.description[|n|])
  {
    var remainingGap := RemainingGap(table, pct);
    var cost := CostImpact(weeks, sites);
    var lead := MarketLead(weeks);
    if remainingGap == 0 && cost <= CostThreshold then
      Verdict(Optimal, "Optimal", OptimalText)
    else if remainingGap == 0 then
      Verdict(Feasible, "Feasible", FeasibleText)
    else if remainingGap <= 2 then
      var n := NatToString(remainingGap);
      var d := n + CautionTail;
      assert d[..|n|] == n && d[|n|] == CautionTail[0] == ' ';
      Verdict(Caution, "Caution", d)
    else
      var n := NatToString(remainingGap);
      var d := n + RiskTail;
      assert d[..|n|] == n && d[|n|] == RiskTail[0] == ' ';
      Verdict(Risk, "At Risk", d)
  }

  /** The gap leads the caution and risk texts and is followed by a
      non-digit, so two such verdicts with the same text report the same
      gap. */
  lemma VerdictTextDeterminesGap(t1: seq<RoleRequirement>, w1: int, s1: int, p1: int,
                                 t2: seq<RoleRequirement>, w2: int, s2: int, p2: int)
    requires CalcVerdict(t1, w1, s1, p1).level in {Caution, Risk}
    requires CalcVerdict(t2, w2, s2, p2).level in {Caution, Risk}
    requires CalcVerdict(t1, w1, s1, p1).description == CalcVerdict(t2, w2, s2, p2).description
    ensures RemainingGap(t1, p1) == RemainingGap(t2, p2)
  {
    var d := CalcVerdict(t1, w1, s1, p1).description;
    var n1 := NatToString(RemainingGap(t1, p1));
    var n2 := NatToString(RemainingGap(t2, p2));
    LeadingNumbersAgree(d, n1, n2);
    NatToStringInjective(RemainingGap(t1, p1), RemainingGap(t2, p2));
  }

  /** Two digit strings that each lead `d` up to a non-digit are equal:
      both are the run of digits `d` starts with. */
  lemma LeadingNumbersAgree(d: string, n1: string, n2: string)
    requires forall i :: 0 <= i < |n1| ==> IsDigit(n1[i])
    requires forall i :: 0 <= i < |n2| ==> IsDigit(n2[i])
    requires |n1| < |d| && d[..|n1|] == n1 && !IsDigit(d[|n1|])
    requires |n2| < |d| && d[..|n2|] == n2 && !IsDigit(d[|n2|])
    ensures n1 == n2
  {
    DigitRunEnds(d, n1, 0);
    DigitRunEnds(d, n2, 0);
  }

  /** Where the run of digits in `d` from position `i` ends. */
  function DigitRun(d: string, i: nat): (j: nat)
    requires i <= |d|
    ensures i <= j <= |d|
    ensures forall k :: i <= k < j ==> IsDigit(d[k])
    decreases |d| - i
  {
    if i == |d| || !IsDigit(d[i]) then i else DigitRun(d, i + 1)
  }

  /** A digit prefix of `d` followed by a non-digit is exactly its leading
      run of digits. */
  lemma {:induction false} DigitRunEnds(d: string, n: string, i: nat)
    requires forall k :: 0 <= k < |n| ==> IsDigit(n[k])
    requires |n| < |d| && d[..|n|] == n && !IsDigit(d[|n|])
    requires i <= |n|
    ensures DigitRun(d, i) == |n|
    decreases |n| - i
  {
    if i < |n| {
      assert d[i] == n[i];
      DigitRunEnds(d, n, i + 1);
    }
  }

  /** The market lead is computed but plays no part: two slider settings with
      the same cost and reallocation share a verdict, whatever their leads. */
  lemma VerdictIgnoresMarketLead(table: seq<RoleRequirement>, w1: int, s1: int, w2: int, s2: int, pct: int)
    requires CostImpact(w1, s1) == CostImpact(w2, s2)
    ensures CalcVerdict(table, w1, s1, pct) == CalcVerdict(table, w2, s2, pct)
  {
  }
}
