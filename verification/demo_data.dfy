/** The reference tables the scenario planner reads: the per-role FTE
    requirement table for the accelerated study, the three studies with their
    phase staffing, and the slider ranges. Narrative text (alerts, KPI cards,
    checklist, e-mail and chat drafts) is not part of this model. */
module DemoData {

  /** One row of `fteRequirements`. */
  datatype RoleRequirement = RoleRequirement(role: string, required: int, available: int, gap: int)

  /** A row is consistent when its stored gap is the shortfall and not negative. */
  predicate ConsistentRequirement(r: RoleRequirement) {
    r.gap == r.required - r.available && r.gap >= 0
  }

  const FteRequirements: seq<RoleRequirement> := [
    RoleRequirement("Clinical Operations", 8, 5, 3),
    RoleRequirement("Biostatistics", 3, 2, 1),
    RoleRequirement("Medical Affairs", 2, 2, 0),
    RoleRequirement("Regulatory Affairs", 2, 1, 1),
    RoleRequirement("Data Management", 3, 2, 1)
  ]

  datatype StudyStatus = Accelerate | Deprioritise

  datatype PhaseStatus = AtRisk | OnTrack

  datatype Phase = Phase(
    id: string,
    title: string,      // the source's `label`
    status: PhaseStatus,
    fteRequired: int,
    fteAvailable: int,
    fteGap: int,
    role: string)

  datatype Study = Study(id: string, shortName: string, status: StudyStatus, phases: seq<Phase>)

  /** A phase's stored gap is its shortfall, and it is flagged at risk exactly
      when that shortfall is positive. */
  predicate ConsistentPhase(p: Phase) {
    && p.fteGap == p.fteRequired - p.fteAvailable
    && (p.status == AtRisk <==> p.fteGap > 0)
  }

  const Studies: seq<Study> := [
    Study("NP-MM-401", "NP-MM-401", Accelerate, [
      Phase("startup", "Study Start-Up", AtRisk, 8, 5, 3, "Clinical Operations"),
      Phase("recruitment", "Recruitment", AtRisk, 12, 9, 3, "Clinical Operations + Data Mgmt"),
      Phase("interim", "Interim Analysis", OnTrack, 5, 5, 0, "Biostatistics"),
      Phase("phase3", "Phase 3 Start", OnTrack, 4, 4, 0, "Regulatory Affairs")
    ]),
    Study("NP-HEM-215", "NP-HEM-215", Deprioritise, [
      Phase("recruitment", "Recruitment", OnTrack, 6, 6, 0, "Clinical Operations"),
      Phase("monitoring", "Site Monitoring", OnTrack, 4, 4, 0, "Clinical Operations")
    ]),
    Study("NP-MM-318", "NP-MM-318", Deprioritise, [
      Phase("recruitment", "Recruitment", OnTrack, 5, 5, 0, "Clinical Operations"),
      Phase("data", "Data Management", OnTrack, 3, 3, 0, "Data Management")
    ])
  ]

  /** A slider's range and its recommended starting value. */
  datatype SliderConfig = SliderConfig(min: int, max: int, default: int)

  datatype ScenarioDefaults = ScenarioDefaults(
    accelerationWeeks: SliderConfig,
    additionalSites: SliderConfig,
    reallocationPct: SliderConfig)

  const Defaults: ScenarioDefaults := ScenarioDefaults(
    SliderConfig(4, 20, 12),
    SliderConfig(5, 30, 15),
    SliderConfig(10, 40, 25))

  predicate InRange(c: SliderConfig, v: int) { c.min <= v <= c.max }

  /** Every requirement row stores its true, non-negative gap. */
  lemma FteRequirementsConsistent()
    ensures forall r :: r in FteRequirements ==> ConsistentRequirement(r)
  {
  }

  /** Every phase of every study is consistent. */
  lemma StudyPhasesConsistent()
    ensures forall s, p :: s in Studies && p in s.phases ==> ConsistentPhase(p)
  {
  }

  /** One study is accelerated and the other two give up staff. */
  lemma OneAcceleratedStudy()
    ensures Studies[0].status == Accelerate
    ensures forall i :: 1 <= i < |Studies| ==> Studies[i].status == Deprioritise
  {
  }

  /** Each slider starts at a value it can show. */
  lemma DefaultsWithinRanges()
    ensures InRange(Defaults.accelerationWeeks, Defaults.accelerationWeeks.default)
    ensures InRange(Defaults.additionalSites, Defaults.additionalSites.default)
    ensures InRange(Defaults.reallocationPct, Defaults.reallocationPct.default)
  {
  }
}
