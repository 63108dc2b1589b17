/** The state logic of the scenario planner page: the reallocation and bench
    steppers, the "optimised for weeks" flag with the banner and button state
    derived from it, the totals of the reallocation grid, and the risk
    classification of each deprioritised study.

    The allocation engine and the pools it draws from are not part of this
    model: the engine is the parameter `engine` (its two entry points used by
    the page), and the pools are the parameters `pool` and `benchPool`. */
module ScenarioPlanner {
  import opened Wrappers
  import opened Rounding
  import opened JsObject
  import DemoData
  import ScenarioCalculations

  // ---------------------------------------------------------------------
  // Pools and allocations
  // ---------------------------------------------------------------------

  /** One role a deprioritised study can release, with its ceiling. */
  datatype PoolRole = PoolRole(role: string, maxFTE: int)

  /** One entry of the reallocation pool. */
  datatype PoolStudy = PoolStudy(studyId: string, roles: seq<PoolRole>)

  /** study id -> role -> FTE taken from that study. */
  type Reallocation = Obj<Obj<int>>

  /** The two halves of an allocation: FTE taken from studies, FTE taken
      from the bench (`unstaffedAllocation`, role -> FTE). */
  datatype Allocation = Allocation(reallocation: Reallocation, unstaffedAllocation: Obj<int>)

  /** `xs.find(x => key(x) === k)`: the first element whose key is `k`, or
      nothing when no element has that key. */
  function Find<T(==)>(xs: seq<T>, key: T -> string, k: string): (r: Option<T>)
    ensures r.None? <==> forall i :: 0 <= i < |xs| ==> key(xs[i]) != k
    ensures r.Some? ==>
      exists i :: 0 <= i < |xs| && xs[i] == r.value && key(xs[i]) == k
        && forall j :: 0 <= j < i ==> key(xs[j]) != k
  {
    if |xs| == 0 then None
    else if key(xs[0]) == k then Some(xs[0])
    else
      var r := Find(xs[1..], key, k);
      if r.Some? then
        var i :| 0 <= i < |xs[1..]| && xs[1..][i] == r.value && key(xs[1..][i]) == k
          && forall j :: 0 <= j < i ==> key(xs[1..][j]) != k;
        assert xs[i + 1] == r.value && key(xs[i + 1]) == k;
        assert forall j :: 0 <= j < i + 1 ==> key(xs[j]) != k by {
          forall j | 0 <= j < i + 1 ensures key(xs[j]) != k {
            if j > 0 { assert xs[j] == xs[1..][j - 1]; }
          }
        }
        r
      else
        assert forall i :: 0 <= i < |xs| ==> key(xs[i]) != k by {
          forall i | 0 <= i < |xs| ensures key(xs[i]) != k {
            if i > 0 { assert xs[i] == xs[1..][i - 1]; }
          }
        }
        r
  }

  /** `pool.find(s => s.studyId === studyId)`. */
  function FindStudy(pool: seq<PoolStudy>, studyId: string): Option<PoolStudy> {
    Find(pool, (s: PoolStudy) => s.studyId, studyId)
  }

  /** `roles.find(r => r.role === role)`. */
  function FindRole(roles: seq<PoolRole>, role: string): Option<PoolRole> {
    Find(roles, (r: PoolRole) => r.role, role)
  }

  /** The ceiling for taking `role` from `studyId`; 0 when the pool lists
      neither. */
  function MaxFte(pool: seq<PoolStudy>, studyId: string, role: string): int {
    match FindStudy(pool, studyId)
    case None => 0
    case Some(s) =>
      match FindRole(s.roles, role)
      case None => 0
      case Some(r) => r.maxFTE
  }

  /** The ceiling comes from the first pool entry for the study and, within
      it, the first entry for the role: later duplicates are never read. */
  lemma MaxFteFromFirstEntries(pool: seq<PoolStudy>, studyId: string, role: string, i: nat, j: nat)
    requires i < |pool| && pool[i].studyId == studyId
    requires forall i' :: 0 <= i' < i ==> pool[i'].studyId != studyId
    requires j < |pool[i].roles| && pool[i].roles[j].role == role
    requires forall j' :: 0 <= j' < j ==> pool[i].roles[j'].role != role
    ensures MaxFte(pool, studyId, role) == pool[i].roles[j].maxFTE
  {
    FirstMatchIsFound(pool, (s: PoolStudy) => s.studyId, studyId, i);
    FirstMatchIsFound(pool[i].roles, (r: PoolRole) => r.role, role, j);
  }

  /** When `xs[i]` is the first element with key `k`, `Find` returns it. */
  lemma FirstMatchIsFound<T>(xs: seq<T>, key: T -> string, k: string, i: nat)
    requires i < |xs| && key(xs[i]) == k
    requires forall j :: 0 <= j < i ==> key(xs[j]) != k
    ensures Find(xs, key, k) == Some(xs[i])
  {
    var r := Find(xs, key, k);
    var i' :| 0 <= i' < |xs| && xs[i'] == r.value && key(xs[i']) == k
      && forall j :: 0 <= j < i' ==> key(xs[j]) != k;
    assert i' == i;
  }

  /** `Math.min(max, Math.max(0, value))`. */
  function Clamp(value: int, max: int): (v: int)
    ensures max >= 0 ==> 0 <= v <= max
    ensures 0 <= value <= max ==> v == value
    ensures max >= 0 && value < 0 ==> v == 0
    ensures max >= 0 && value > max ==> v == max
  {
    Min(max, Max(0, value))
  }

  /** `prev[studyId]?.[role] ?? 0`. */
  function Current(prev: Reallocation, studyId: string, role: string): int {
    GetOr(GetOr(prev, studyId, []), role, 0)
  }

  /** The reallocation update of `handleStepperChange`: the clamped value is
      written to `[studyId][role]`, and nothing else is touched. */
  function StepReallocation(prev: Reallocation, pool: seq<PoolStudy>, studyId: string, role: string, delta: int)
    : (next: Reallocation)
    ensures Current(next, studyId, role)
      == Clamp(Current(prev, studyId, role) + delta, MaxFte(pool, studyId, role))
    ensures forall s :: s != studyId ==> Get(next, s) == Get(prev, s)
    ensures forall r :: r != role ==>
      Get(GetOr(next, studyId, []), r) == Get(GetOr(prev, studyId, []), r)
    ensures Keys(next) == Keys(prev) + {studyId}
    ensures Keys(GetOr(next, studyId, [])) == Keys(GetOr(prev, studyId, [])) + {role}
  {
    var newVal := Clamp(Current(prev, studyId, role) + delta, MaxFte(pool, studyId, role));
    Put(prev, studyId, Put(GetOr(prev, studyId, []), role, newVal))
  }

  /** The bench update of `handleUnstaffedChange`: the clamped value is
      written to `[role]`, and nothing else is touched. */
  function StepBench(prev: Obj<int>, benchPool: Obj<int>, role: string, delta: int): (next: Obj<int>)
    ensures GetOr(next, role, 0) == Clamp(GetOr(prev, role, 0) + delta, GetOr(benchPool, role, 0))
    ensures forall r :: r != role ==> Get(next, r) == Get(prev, r)
    ensures Keys(next) == Keys(prev) + {role}
  {
    Put(prev, role, Clamp(GetOr(prev, role, 0) + delta, GetOr(benchPool, role, 0)))
  }

  /** A study or role the pool does not list has ceiling 0, so whatever the
      step, the stored value is 0. */
  lemma UnknownTargetStoresZero(prev: Reallocation, pool: seq<PoolStudy>, studyId: string, role: string, delta: int)
    requires FindStudy(pool, studyId).None? || FindRole(FindStudy(pool, studyId).value.roles, role).None?
    ensures Current(StepReallocation(prev, pool, studyId, role, delta), studyId, role) == 0
  {
  }

  /** A role the bench pool does not list is stored as 0. */
  lemma UnknownBenchRoleStoresZero(prev: Obj<int>, benchPool: Obj<int>, role: string, delta: int)
    requires role !in Keys(benchPool)
    ensures GetOr(StepBench(prev, benchPool, role, delta), role, 0) == 0
  {
  }

  /** The grid's minus button is disabled at 0 and the plus button at the
      ceiling. For a value within range an enabled button moves it by exactly
      one, and a disabled one, were it pressed, would leave it unchanged. */
  lemma StepperButtons(val: int, max: int)
    requires 0 <= val <= max
    ensures !(val <= 0) ==> Clamp(val - 1, max) == val - 1
    ensures val <= 0 ==> Clamp(val - 1, max) == val
    ensures !(val >= max) ==> Clamp(val + 1, max) == val + 1
    ensures val >= max ==> Clamp(val + 1, max) == val
  {
  }

  // ---------------------------------------------------------------------
  // Page state and handlers
  // ---------------------------------------------------------------------

  /** The two engine entry points the page calls: the recommended allocation
      for a number of weeks, and the roles (with counts) that allocation
      leaves for external hiring at that number of weeks. */
  datatype Engine = Engine(optimal: int -> Allocation, hiringNeeded: (int, Allocation) -> Obj<int>)

  /** The page's React state. `optimisedForWeeks` is `None` after a manual
      edit (the source stores `null`). */
  datatype Planner = Planner(
    weeks: int,
    sites: int,
    allocation: Allocation,
    optimisedForWeeks: Option<int>,
    showHiringDialog: bool,
    expandedStudy: Option<string>)

  /** The state on first render: default weeks and sites, the engine's
      recommendation for the default weeks, marked as optimised for them. */
  function Initial(engine: Engine): (p: Planner)
    ensures p.weeks == DemoData.Defaults.accelerationWeeks.default
    ensures p.sites == DemoData.Defaults.additionalSites.default
    ensures p.allocation == engine.optimal(p.weeks)
    ensures p.optimisedForWeeks == Some(p.weeks)
    ensures !p.showHiringDialog && p.expandedStudy == None
  {
    var w := DemoData.Defaults.accelerationWeeks.default;
    Planner(w, DemoData.Defaults.additionalSites.default, engine.optimal(w), Some(w), false, None)
  }

  /** `isAiScenario`: the untouched recommendation at the default weeks. */
  predicate IsAiScenario(p: Planner) {
    p.weeks == DemoData.Defaults.accelerationWeeks.default
    && p.optimisedForWeeks == Some(DemoData.Defaults.accelerationWeeks.default)
  }

  /** `isOptimised`. */
  predicate IsOptimised(p: Planner) {
    p.optimisedForWeeks == Some(p.weeks)
  }

  /** `buttonDisabled`: computed separately in the source. */
  predicate ButtonDisabled(p: Planner) {
    p.optimisedForWeeks == Some(p.weeks)
  }

  datatype Banner = AiRecommended | AiOptimised | UserModified

  /** Which of the three banners `AiBanner` shows: the AI recommendation
      for the untouched default scenario, the optimised banner for any other
      optimised weeks, and the user-modified banner otherwise. */
  function BannerOf(p: Planner): (b: Banner)
    ensures b == AiRecommended <==> IsAiScenario(p)
    ensures b == AiOptimised <==> IsOptimised(p) && !IsAiScenario(p)
    ensures b == UserModified <==> !IsOptimised(p)
  {
    if IsAiScenario(p) then AiRecommended
    else if IsOptimised(p) then AiOptimised
    else UserModified
  }

  /** The three captions of the optimise button. */
  const AiActiveCaption := "AI Recommendation Active"
  const OptimisedCaption := "Allocation Optimised"
  const OptimiseCaption := "Optimise Allocation"

  /** The caption of the optimise button: a disabled button says why it is
      disabled, an enabled one invites optimising. */
  function ButtonCaption(p: Planner): (c: string)
    ensures c == AiActiveCaption <==> IsAiScenario(p)
    ensures c == OptimisedCaption <==> IsOptimised(p) && !IsAiScenario(p)
    ensures c == OptimiseCaption <==> !ButtonDisabled(p)
  {
    if ButtonDisabled(p) then
      (if IsAiScenario(p) then AiActiveCaption else OptimisedCaption)
    else OptimiseCaption
  }

  /** The banner and button flags agree in every state: the button is
      disabled exactly when the allocation is optimised, the AI scenario is
      an optimised one, and the banner and caption follow. */
  lemma FlagsAgree(p: Planner)
    ensures ButtonDisabled(p) == IsOptimised(p)
    ensures IsAiScenario(p) ==> IsOptimised(p)
    ensures BannerOf(p) == UserModified <==> !ButtonDisabled(p)
    ensures ButtonCaption(p) == OptimiseCaption <==> BannerOf(p) == UserModified
    ensures ButtonCaption(p) == AiActiveCaption <==> BannerOf(p) == AiRecommended
    ensures ButtonCaption(p) == OptimisedCaption <==> BannerOf(p) == AiOptimised
  {
  }

  /** The weeks slider: only `weeks` changes. */
  function SetWeeks(p: Planner, w: int): (q: Planner)
    ensures q.weeks == w
    ensures q.optimisedForWeeks == p.optimisedForWeeks
    ensures q.allocation == p.allocation
    ensures q.sites == p.sites && q.showHiringDialog == p.showHiringDialog && q.expandedStudy == p.expandedStudy
    ensures IsOptimised(q) <==> p.optimisedForWeeks == Some(w)
  {
    p.(weeks := w)
  }

  /** `handleOptimise`: adopt the engine's allocation for the current weeks,
      mark it optimised for them, and open the hiring dialog when that
      allocation leaves roles to hire for (an open dialog stays open). */
  function Optimise(p: Planner, engine: Engine): (q: Planner)
    ensures q.allocation == engine.optimal(p.weeks)
    ensures IsOptimised(q) && ButtonDisabled(q)
    ensures q.weeks == p.weeks && q.sites == p.sites && q.expandedStudy == p.expandedStudy
    ensures q.showHiringDialog <==>
      p.showHiringDialog || |engine.hiringNeeded(p.weeks, engine.optimal(p.weeks))| > 0
  {
    var result := engine.optimal(p.weeks);
    var hiring := engine.hiringNeeded(p.weeks, result);
    p.(allocation := result,
       optimisedForWeeks := Some(p.weeks),
       showHiringDialog := if |hiring| > 0 then true else p.showHiringDialog)
  }

  /** `handleStepperChange`: a manual edit of one study's role, which also
      clears the optimised mark. */
  function StepperChange(p: Planner, pool: seq<PoolStudy>, studyId: string, role: string, delta: int)
    : (q: Planner)
    ensures q.allocation.reallocation == StepReallocation(p.allocation.reallocation, pool, studyId, role, delta)
    ensures q.allocation.unstaffedAllocation == p.allocation.unstaffedAllocation
    ensures q.weeks == p.weeks && q.sites == p.sites && q.showHiringDialog == p.showHiringDialog
    ensures q.optimisedForWeeks == None && q.expandedStudy == p.expandedStudy
    ensures !IsOptimised(q) && !ButtonDisabled(q) && !IsAiScenario(q)
    ensures BannerOf(q) == UserModified
  {
    p.(allocation := p.allocation.(reallocation :=
         StepReallocation(p.allocation.reallocation, pool, studyId, role, delta)),
       optimisedForWeeks := None)
  }

  /** `handleUnstaffedChange`: a manual edit of one bench role, which also
      clears the optimised mark. */
  function UnstaffedChange(p: Planner, benchPool: Obj<int>, role: string, delta: int): (q: Planner)
    ensures q.allocation.unstaffedAllocation == StepBench(p.allocation.unstaffedAllocation, benchPool, role, delta)
    ensures q.allocation.reallocation == p.allocation.reallocation
    ensures q.weeks == p.weeks && q.sites == p.sites && q.showHiringDialog == p.showHiringDialog
    ensures q.optimisedForWeeks == None && q.expandedStudy == p.expandedStudy
    ensures !IsOptimised(q) && !ButtonDisabled(q) && !IsAiScenario(q)
    ensures BannerOf(q) == UserModified
  {
    p.(allocation := p.allocation.(unstaffedAllocation :=
         StepBench(p.allocation.unstaffedAllocation, benchPool, role, delta)),
       optimisedForWeeks := None)
  }

  /** The hiring dialog's close button. */
  function CloseHiringDialog(p: Planner): (q: Planner)
    ensures !q.showHiringDialog
    ensures q.allocation == p.allocation && q.optimisedForWeeks == p.optimisedForWeeks
    ensures q.weeks == p.weeks && q.sites == p.sites && q.expandedStudy == p.expandedStudy
  {
    p.(showHiringDialog := false)
  }

  /** A study card's header: expand it, or collapse it when it is the one
      already expanded. */
  function ToggleStudy(p: Planner, studyId: string): (q: Planner)
    ensures q.expandedStudy == Some(studyId) <==> p.expandedStudy != Some(studyId)
    ensures q.expandedStudy.Some? ==> q.expandedStudy == Some(studyId)
    ensures q.allocation == p.allocation && q.optimisedForWeeks == p.optimisedForWeeks
    ensures q.weeks == p.weeks && q.sites == p.sites && q.showHiringDialog == p.showHiringDialog
  {
    p.(expandedStudy := if p.expandedStudy == Some(studyId) then None else Some(studyId))
  }

  /** The optimised mark tells the truth: whenever it names a number of
      weeks, the allocation on screen is the engine's recommendation for
      exactly that number of weeks. */
  predicate MarkMatchesEngine(p: Planner, engine: Engine) {
    p.optimisedForWeeks.Some? ==> p.allocation == engine.optimal(p.optimisedForWeeks.value)
  }

  /** Every reachable state keeps the mark truthful: the first render does,
      and so does every handler. */
  lemma MarkMatchesEngineInvariant(p: Planner, engine: Engine, pool: seq<PoolStudy>, benchPool: Obj<int>,
                                   w: int, studyId: string, role: string, delta: int)
    ensures MarkMatchesEngine(Initial(engine), engine)
    ensures MarkMatchesEngine(p, engine) ==>
      && MarkMatchesEngine(SetWeeks(p, w), engine)
      && MarkMatchesEngine(StepperChange(p, pool, studyId, role, delta), engine)
      && MarkMatchesEngine(UnstaffedChange(p, benchPool, role, delta), engine)
      && MarkMatchesEngine(CloseHiringDialog(p), engine)
      && MarkMatchesEngine(ToggleStudy(p, studyId), engine)
    ensures MarkMatchesEngine(Optimise(p, engine), engine)
  {
  }

  /** Hence a disabled optimise button never hides a better allocation: when
      the page shows "optimised", re-running the engine would change nothing. */
  lemma OptimisedMeansEngineAllocation(p: Planner, engine: Engine)
    requires MarkMatchesEngine(p, engine)
    requires IsOptimised(p)
    ensures p.allocation == engine.optimal(p.weeks)
    ensures Optimise(p, engine).allocation == p.allocation
  {
  }

  /** The shape JavaScript guarantees for a reallocation: no study twice,
      and no role twice within a study. */
  ghost predicate WellFormedReallocation(r: Reallocation) {
    DistinctKeys(r) && forall e :: e in r ==> DistinctKeys(e.value)
  }

  /** The same for a whole allocation, bench included. */
  ghost predicate WellFormed(a: Allocation) {
    WellFormedReallocation(a.reallocation) && DistinctKeys(a.unstaffedAllocation)
  }

  /** The engine returns JavaScript objects, so its allocations are well
      formed. */
  ghost predicate EngineWellFormed(engine: Engine) {
    forall w :: WellFormed(engine.optimal(w))
  }

  /** The inner object of a well-formed reallocation has distinct keys. */
  lemma InnerDistinct(r: Reallocation, studyId: string)
    requires WellFormedReallocation(r)
    ensures DistinctKeys(GetOr(r, studyId, []))
  {
    var g := Get(r, studyId);
    if g.Some? {
      var i :| 0 <= i < |r| && r[i] == Entry(studyId, g.value) && forall j :: 0 <= j < i ==> r[j].key != studyId;
      assert r[i] in r;
    }
  }

  /** The study stepper keeps a reallocation well formed. */
  lemma StepReallocationKeepsWellFormed(prev: Reallocation, pool: seq<PoolStudy>, studyId: string, role: string,
                                        delta: int)
    requires WellFormedReallocation(prev)
    ensures WellFormedReallocation(StepReallocation(prev, pool, studyId, role, delta))
  {
    var inner := GetOr(prev, studyId, []);
    var newVal := Clamp(Current(prev, studyId, role) + delta, MaxFte(pool, studyId, role));
    var newInner := Put(inner, role, newVal);
    InnerDistinct(prev, studyId);
    PutKeepsKeysDistinct(inner, role, newVal);
    PutKeepsKeysDistinct(prev, studyId, newInner);
    PutEntriesFrom(prev, studyId, newInner);
    assert StepReallocation(prev, pool, studyId, role, delta) == Put(prev, studyId, newInner);
  }

  /** A study stepper edit keeps the page's objects well formed. */
  lemma StepperChangeKeepsWellFormed(p: Planner, pool: seq<PoolStudy>, studyId: string, role: string, delta: int)
    requires WellFormed(p.allocation)
    ensures WellFormed(StepperChange(p, pool, studyId, role, delta).allocation)
  {
    StepReallocationKeepsWellFormed(p.allocation.reallocation, pool, studyId, role, delta);
  }

  /** A bench stepper edit keeps the page's objects well formed. */
  lemma UnstaffedChangeKeepsWellFormed(p: Planner, benchPool: Obj<int>, role: string, delta: int)
    requires WellFormed(p.allocation)
    ensures WellFormed(UnstaffedChange(p, benchPool, role, delta).allocation)
  {
    var bench := p.allocation.unstaffedAllocation;
    PutKeepsKeysDistinct(bench, role, Clamp(GetOr(bench, role, 0) + delta, GetOr(benchPool, role, 0)));
  }

  /** In every reachable state the page's objects stay well formed: the
      first render and optimise take them from the engine, both steppers
      write with spread updates, and the other handlers leave them alone. */
  lemma ObjectsStayWellFormed(p: Planner, engine: Engine, pool: seq<PoolStudy>, benchPool: Obj<int>,
                              w: int, studyId: string, role: string, delta: int)
    requires EngineWellFormed(engine)
    ensures WellFormed(Initial(engine).allocation)
    ensures WellFormed(Optimise(p, engine).allocation)
    ensures WellFormed(p.allocation) ==>
      && WellFormed(SetWeeks(p, w).allocation)
      && WellFormed(StepperChange(p, pool, studyId, role, delta).allocation)
      && WellFormed(UnstaffedChange(p, benchPool, role, delta).allocation)
      && WellFormed(CloseHiringDialog(p).allocation)
      && WellFormed(ToggleStudy(p, studyId).allocation)
  {
    assert WellFormed(engine.optimal(DemoData.Defaults.accelerationWeeks.default));
    assert WellFormed(engine.optimal(p.weeks));
    if WellFormed(p.allocation) {
      StepperChangeKeepsWellFormed(p, pool, studyId, role, delta);
      UnstaffedChangeKeepsWellFormed(p, benchPool, role, delta);
    }
  }

  // ---------------------------------------------------------------------
  // Reallocation grid totals
  // ---------------------------------------------------------------------

  /** `scaledFteReqs.filter(r => r.gap > 0)`: the rows the grid shows. */
  function GapRoles(reqs: seq<DemoData.RoleRequirement>): (rows: seq<DemoData.RoleRequirement>)
    ensures |rows| <= |reqs|
  {
    if |reqs| == 0 then []
    else (if reqs[0].gap > 0 then [reqs[0]] else []) + GapRoles(reqs[1..])
  }

  /** The filter keeps every row with a positive gap as often as the table
      lists it, and drops every other row. */
  lemma {:induction false} GapRolesCounts(reqs: seq<DemoData.RoleRequirement>)
    ensures forall r :: multiset(GapRoles(reqs))[r] == if r.gap > 0 then multiset(reqs)[r] else 0
  {
    if |reqs| > 0 {
      GapRolesCounts(reqs[1..]);
      assert reqs == [reqs[0]] + reqs[1..];
    }
  }

  /** Hence a row is shown exactly when it is a row of the table with a
      positive gap. */
  lemma GapRolesMembers(reqs: seq<DemoData.RoleRequirement>, r: DemoData.RoleRequirement)
    ensures r in GapRoles(reqs) <==> r in reqs && r.gap > 0
  {
    GapRolesCounts(reqs);
    assert r in GapRoles(reqs) <==> multiset(GapRoles(reqs))[r] > 0;
    assert r in reqs <==> multiset(reqs)[r] > 0;
  }

  /** Filtering a row list given as its first row and the rest. */
  lemma GapRolesCons(x: DemoData.RoleRequirement, t: seq<DemoData.RoleRequirement>)
    ensures GapRoles([x] + t) == (if x.gap > 0 then [x] else []) + GapRoles(t)
  {
    assert ([x] + t)[0] == x;
    assert ([x] + t)[1..] == t;
  }

  /** The filter keeps the order of the rows: filtering two row lists
      joined gives the two filtered lists joined. */
  lemma {:induction false} GapRolesAppend(a: seq<DemoData.RoleRequirement>, b: seq<DemoData.RoleRequirement>)
    ensures GapRoles(a + b) == GapRoles(a) + GapRoles(b)
  {
    if |a| > 0 {
      GapRolesAppend(a[1..], b);
      GapRolesCons(a[0], a[1..] + b);
      GapRolesCons(a[0], a[1..]);
      assert [a[0]] + (a[1..] + b) == a + b;
      assert [a[0]] + a[1..] == a;
    } else {
      assert a + b == b;
    }
  }

  /** The part of a row's gap the current allocation covers:
      `Math.min(gap, coveredByRole[role] ?? 0)`. */
  function CoveredOf(r: DemoData.RoleRequirement, coveredByRole: Obj<int>): (c: int)
    ensures c <= r.gap && c <= GetOr(coveredByRole, r.role, 0)
    ensures c == r.gap || c == GetOr(coveredByRole, r.role, 0)
  {
    Min(r.gap, GetOr(coveredByRole, r.role, 0))
  }

  /** A row's `isCovered`. */
  predicate IsCovered(r: DemoData.RoleRequirement, coveredByRole: Obj<int>) {
    CoveredOf(r, coveredByRole) >= r.gap
  }

  /** The sum of `CoveredOf` over the rows, first row first. */
  function SumCoveredOf(rows: seq<DemoData.RoleRequirement>, coveredByRole: Obj<int>): int {
    if |rows| == 0 then 0 else CoveredOf(rows[0], coveredByRole) + SumCoveredOf(rows[1..], coveredByRole)
  }

  datatype GridTotals = GridTotals(totalGap: int, totalCovered: int, fullyGapped: bool)

  /** The grid's summary: total gap, total covered, and whether the gap is
      fully covered. */
  function ReallocationGridTotals(reqs: seq<DemoData.RoleRequirement>, coveredByRole: Obj<int>): (t: GridTotals)
    ensures t.totalGap == ScenarioCalculations.TotalGap(GapRoles(reqs))
    ensures t.totalCovered == SumCoveredOf(GapRoles(reqs), coveredByRole)
    ensures t.totalCovered <= t.totalGap
    ensures t.fullyGapped <==> t.totalCovered >= t.totalGap
    ensures t.fullyGapped <==> forall r :: r in GapRoles(reqs) ==> IsCovered(r, coveredByRole)
  {
    var gapRoles := GapRoles(reqs);
    var totalGap := ScenarioCalculations.TotalGap(gapRoles);
    var totalCovered := SumCoveredOf(gapRoles, coveredByRole);
    CoveredSumCharacterised(gapRoles, coveredByRole);
    GridTotals(totalGap, totalCovered, totalCovered >= totalGap)
  }

  /** Summed row by row, the covered part never exceeds the gap, and it
      reaches the gap exactly when every row is covered. */
  lemma {:induction false} CoveredSumCharacterised(rows: seq<DemoData.RoleRequirement>, coveredByRole: Obj<int>)
    ensures SumCoveredOf(rows, coveredByRole) <= ScenarioCalculations.TotalGap(rows)
    ensures SumCoveredOf(rows, coveredByRole) >= ScenarioCalculations.TotalGap(rows)
      <==> forall i :: 0 <= i < |rows| ==> IsCovered(rows[i], coveredByRole)
  {
    if |rows| > 0 {
      CoveredSumCharacterised(rows[1..], coveredByRole);
      if forall i :: 0 <= i < |rows| ==> IsCovered(rows[i], coveredByRole) {
        assert forall i :: 0 <= i < |rows[1..]| ==> IsCovered(rows[1..][i], coveredByRole) by {
          forall i | 0 <= i < |rows[1..]| ensures IsCovered(rows[1..][i], coveredByRole) {
            assert rows[1..][i] == rows[i + 1];
          }
        }
      } else {
        var i :| 0 <= i < |rows| && !IsCovered(rows[i], coveredByRole);
        if i > 0 {
          assert rows[1..][i - 1] == rows[i];
        }
      }
    }
  }

  /** Dropping the rows without a gap leaves the total gap unchanged, so the
      grid's total is the table's total whenever no gap is negative. */
  lemma {:induction false} GapRolesKeepTotal(reqs: seq<DemoData.RoleRequirement>)
    requires ScenarioCalculations.GapsNonNegative(reqs)
    ensures ScenarioCalculations.TotalGap(GapRoles(reqs)) == ScenarioCalculations.TotalGap(reqs)
  {
    if |reqs| > 0 {
      GapRolesKeepTotal(reqs[1..]);
      var head := if reqs[0].gap > 0 then [reqs[0]] else [];
      TotalGapAppend(head, GapRoles(reqs[1..]));
    }
  }

  lemma {:induction false} TotalGapAppend(a: seq<DemoData.RoleRequirement>, b: seq<DemoData.RoleRequirement>)
    ensures ScenarioCalculations.TotalGap(a + b)
      == ScenarioCalculations.TotalGap(a) + ScenarioCalculations.TotalGap(b)
  {
    if |a| > 0 {
      assert (a + b)[1..] == a[1..] + b;
      TotalGapAppend(a[1..], b);
    } else {
      assert a + b == b;
    }
  }

  // ---------------------------------------------------------------------
  // Risk classification of a deprioritised study
  // ---------------------------------------------------------------------

  /** `studies.filter(s => s.status === 'deprioritise')`. */
  function Deprioritised(studies: seq<DemoData.Study>): (ds: seq<DemoData.Study>)
    ensures |ds| <= |studies|
  {
    if |studies| == 0 then []
    else
      (if studies[0].status == DemoData.Deprioritise then [studies[0]] else [])
      + Deprioritised(studies[1..])
  }

  /** The filter keeps every deprioritised study as often as the list holds
      it, and drops every other study. */
  lemma {:induction false} DeprioritisedCounts(studies: seq<DemoData.Study>)
    ensures forall s ::
      multiset(Deprioritised(studies))[s] == (if s.status == DemoData.Deprioritise then multiset(studies)[s] else 0)
  {
    if |studies| > 0 {
      DeprioritisedCounts(studies[1..]);
      assert studies == [studies[0]] + studies[1..];
    }
  }

  /** Hence a study is in the filtered list exactly when it is a
      deprioritised study of the original list. */
  lemma DeprioritisedMembers(studies: seq<DemoData.Study>, s: DemoData.Study)
    ensures s in Deprioritised(studies) <==> s in studies && s.status == DemoData.Deprioritise
  {
    DeprioritisedCounts(studies);
    assert s in Deprioritised(studies) <==> multiset(Deprioritised(studies))[s] > 0;
    assert s in studies <==> multiset(studies)[s] > 0;
  }

  /** Filtering a list given as its first study and the rest. */
  lemma DeprioritisedCons(x: DemoData.Study, t: seq<DemoData.Study>)
    ensures Deprioritised([x] + t) == (if x.status == DemoData.Deprioritise then [x] else []) + Deprioritised(t)
  {
    assert ([x] + t)[0] == x;
    assert ([x] + t)[1..] == t;
  }

  /** The filter keeps the order of the studies: filtering two lists joined
      gives the two filtered lists joined. */
  lemma {:induction false} DeprioritisedAppend(a: seq<DemoData.Study>, b: seq<DemoData.Study>)
    ensures Deprioritised(a + b) == Deprioritised(a) + Deprioritised(b)
  {
    if |a| > 0 {
      DeprioritisedAppend(a[1..], b);
      DeprioritisedCons(a[0], a[1..] + b);
      DeprioritisedCons(a[0], a[1..]);
      assert [a[0]] + (a[1..] + b) == a + b;
      assert [a[0]] + a[1..] == a;
    } else {
      assert a + b == b;
    }
  }

  datatype RiskLevel = OnTrack | AtRisk | SignificantlyImpacted

  /** The label belonging to each risk level. */
  function RiskLevelName(level: RiskLevel): string {
    match level
    case OnTrack => "On Track"
    case AtRisk => "At Risk"
    case SignificantlyImpacted => "Significantly Impacted"
  }

  /** `ftesRemoved`: the sum of everything allocated from the study. */
  function FtesRemoved(reallocation: Reallocation, studyId: string): int {
    Total(GetOr(reallocation, studyId, []))
  }

  /** `riskLevel`, from its own decision chain. */
  function RiskLevelOf(ftesRemoved: int): RiskLevel {
    if ftesRemoved == 0 then OnTrack
    else if ftesRemoved <= 2 then AtRisk
    else SignificantlyImpacted
  }

  /** `riskLabel`, from the second, separate decision chain. */
  function RiskLabelOf(ftesRemoved: int): string {
    if ftesRemoved == 0 then "On Track"
    else if ftesRemoved <= 2 then "At Risk"
    else "Significantly Impacted"
  }

  datatype TrialRisk = TrialRisk(ftesRemoved: int, level: RiskLevel, riskLabel: string)

  /** The classification a study card shows. With non-negative allocations:
      untouched studies are on track, one or two FTE removed is at risk,
      more is significantly impacted; the label always names the level. */
  function ClassifyTrial(reallocation: Reallocation, studyId: string): (t: TrialRisk)
    ensures t.ftesRemoved == FtesRemoved(reallocation, studyId)
    ensures t.level == OnTrack <==> t.ftesRemoved == 0
    ensures t.level == AtRisk <==> t.ftesRemoved != 0 && t.ftesRemoved <= 2
    ensures t.level == SignificantlyImpacted <==> t.ftesRemoved > 2
    ensures t.riskLabel == RiskLevelName(t.level)
  {
    var n := FtesRemoved(reallocation, studyId);
    TrialRisk(n, RiskLevelOf(n), RiskLabelOf(n))
  }

  /** A stepper edit moves the edited study's removed-FTE count by exactly
      the change of the edited cell, and leaves every other study's count
      (hence its risk) as it was. */
  lemma StepperMovesOnlyItsStudy(prev: Reallocation, pool: seq<PoolStudy>, studyId: string, role: string, delta: int,
                                 other: string)
    requires DistinctKeys(GetOr(prev, studyId, []))
    requires other != studyId
    ensures var next := StepReallocation(prev, pool, studyId, role, delta);
      && FtesRemoved(next, studyId)
         == FtesRemoved(prev, studyId) - Current(prev, studyId, role) + Current(next, studyId, role)
      && FtesRemoved(next, other) == FtesRemoved(prev, other)
  {
    var inner := GetOr(prev, studyId, []);
    var newVal := Clamp(Current(prev, studyId, role) + delta, MaxFte(pool, studyId, role));
    TotalAfterPut(inner, role, newVal);
  }

  /** Bench edits never change any study's classification: the bench has no
      study to slip. */
  lemma BenchEditKeepsRisk(p: Planner, benchPool: Obj<int>, role: string, delta: int, studyId: string)
    ensures ClassifyTrial(UnstaffedChange(p, benchPool, role, delta).allocation.reallocation, studyId)
      == ClassifyTrial(p.allocation.reallocation, studyId)
  {
  }
}
