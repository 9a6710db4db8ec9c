/**
 Binding an idle projection to the live queue, and the fail-closed checks on the plans built from a
 bound projection (src/development_conveyor/execution_plan.py).
 */
module QueueBinding {
  import opened Prelude
  import opened Ledger
  import opened ExecutionPlan
  import Q = FeatureQueue

  function Candidate(b: Body): Option<string> {
    Or(b.currentFeature, b.selectedNext)
  }

  predicate TerminalCandidate(b: Body, q: Q.Queue) {
    && Truthy(Candidate(b))
    && var f := Q.FeatureNamed(q.features, Candidate(b).value);
       f.Some? && f.value.status == Q.Integrated && f.value.integrationStatus == Some("passed")
  }

  /** Whether binding leaves the projection alone. */
  predicate Unbound(b: Body, q: Q.Queue) {
    || b.active.Some?
    || (b.action !in {RunFeatureCycle, ReconcileQueue} && !TerminalCandidate(b, q))
  }

  function Selected(b: Body, q: Q.Queue, milestone: string): Result<Option<Q.Feature>, Q.QueueError> {
    if b.action == RunFeatureCycle && Truthy(Candidate(b)) then
      match Q.SelectExact(q, milestone, Candidate(b).value)
      case Err(e) => Err(e)
      case Ok(f) => Ok(Some(f))
    else Ok(Q.SelectNext(q, milestone))
  }

  function Cleared(b: Body): Body {
    b.(acceptedCommit := None, integrationStatus := None, requiredLease := None, resumeEligible := Some(false),
      gate := NoGate)
  }

  function BoundBody(b: Body, q: Q.Queue, selected: Option<Q.Feature>): Body {
    match selected
    case None =>
      Cleared(b).(state := Reconciling, currentFeature := None, selectedNext := None, featureBranch := None,
        action := ReconcileQueue)
    case Some(f) =>
      var named := Q.FeatureNamed(q.features, f.id);
      Cleared(b).(state := FeatureReady, currentFeature := Some(f.id), selectedNext := Some(f.id),
                  featureBranch := if named.Some? then named.value.branch else None, action := RunFeatureCycle)
  }

  /** `bind_projection_to_queue`. */
  function Bind(p: Projection, q: Q.Queue, milestone: string): Result<Projection, Q.QueueError> {
    if Unbound(p.body, q) then Ok(p)
    else
      match Selected(p.body, q, milestone)
      case Err(e) => Err(e)
      case Ok(selected) =>
        var b := BoundBody(p.body, q, selected);
        Ok(Projection(b, Some(b)))
  }

  // ---------------------------------------------------------------- binding stabilises

  /** Binding fails exactly when the projected candidate of a feature cycle is not ready in the milestone. */
  lemma BindFailsIffCandidateUnready(p: Projection, q: Q.Queue, milestone: string)
    requires Q.Valid(q)
    ensures Bind(p, q, milestone).Err? <==>
      && p.body.active.None? && p.body.action == RunFeatureCycle && Truthy(Candidate(p.body))
      && !exists f ::
           f in q.features && f.id == Candidate(p.body).value && Q.InMilestone(q, f, milestone) && Q.IsReady(q, f)
  {
    hide Q.IsReady, Q.InMilestone, Q.SelectExact, Q.SelectNext;
    if p.body.action == RunFeatureCycle && Truthy(Candidate(p.body)) {
      var id := Candidate(p.body).value;
      var named := Q.FeatureNamed(q.features, id);
      if named.Some? {
        Q.SelectExactIffReady(q, milestone, named.value);
        forall f | f in q.features && f.id == id ensures f == named.value {
          Q.NameIdentifies(q, f);
        }
      } else {
        UnknownFails(q, milestone, id);
      }
    }
  }

  lemma UnknownFails(q: Q.Queue, milestone: string, id: string)
    requires Q.FeatureNamed(q.features, id).None?
    ensures Q.SelectExact(q, milestone, id).Err?
  {
  }

  /** A selected feature is ready in the milestone and is the one its name denotes. */
  lemma SelectedIsReady(b: Body, q: Q.Queue, milestone: string)
    requires Q.Valid(q) && Selected(b, q, milestone).Ok? && Selected(b, q, milestone).value.Some?
    ensures var f := Selected(b, q, milestone).value.value;
      && f in q.features && Q.FeatureNamed(q.features, f.id) == Some(f) && f.id != ""
      && Q.InMilestone(q, f, milestone) && Q.IsReady(q, f)
      && Q.SelectExact(q, milestone, f.id) == Ok(f)
  {
    hide Q.IsReady, Q.InMilestone, Q.SelectNext;
    Q.SelectNextIsFirstReady(q, milestone);
    var f := Selected(b, q, milestone).value.value;
    Q.NameIdentifies(q, f);
    Q.SelectExactIffReady(q, milestone, f);
    assert exists i :: 0 <= i < |q.features| && q.features[i] == f;
  }

  /**
   One application of the binding reaches a fixed point, whatever the projection: a bound feature is
   selected again by name, and an empty ready queue stays empty.
   */
  lemma BindIdempotent(p: Projection, q: Q.Queue, milestone: string)
    requires Q.Valid(q) && Bind(p, q, milestone).Ok?
    ensures Bind(Bind(p, q, milestone).value, q, milestone) == Bind(p, q, milestone)
  {
    hide Q.IsReady, Q.InMilestone, Q.SelectNext, Q.SelectExact, Q.Valid;
    if !Unbound(p.body, q) {
      var selected := Selected(p.body, q, milestone).value;
      if selected.Some? {
        SelectedIsReady(p.body, q, milestone);
      } else {
        NoneComesFromNext(p.body, q, milestone);
      }
    }
  }

  lemma NoneComesFromNext(b: Body, q: Q.Queue, milestone: string)
    requires Selected(b, q, milestone) == Ok(None)
    ensures Q.SelectNext(q, milestone).None?
  {
  }

  // ---------------------------------------------------------------- the checks on a plan

  datatype Checks = Checks(notIntegrated: bool, readyQueue: bool, selectionMatches: bool, commitNotReused: bool)

  const ALL_PASS: Checks := Checks(true, true, true, true)

  /** The integrated features of the milestone, by name. */
  predicate IsIntegratedIn(q: Q.Queue, milestone: string, feature: Option<string>) {
    exists f :: f in Q.FeaturesForMilestone(q, milestone) && f.status == Q.Integrated
      && f.integrationStatus == Some("passed") && feature == Some(f.id)
  }

  predicate SelectionMatches(b: Body, q: Q.Queue, milestone: string) {
    b.action == RunFeatureCycle ==>
      && Candidate(b).Some?
      && var f := Q.FeatureNamed(q.features, Candidate(b).value);
         f.Some? && f.value.milestone == milestone && Q.IsReady(q, f.value)
  }

  /** `integrated_feature_execution_checks`; the queue summary refuses several pending integrations. */
  function ExecutionChecks(b: Body, plan: Plan, q: Q.Queue, milestone: string): Result<Checks, Q.QueueError> {
    if |Q.IntegrationCandidates(Q.FeaturesForMilestone(q, milestone))| > 1 then Err(Q.SeveralIntegrations)
    else Ok(Checks(
      !(ExecutesFeature(plan.target) && IsIntegratedIn(q, milestone, plan.feature)),
      !(Q.ReadyOf(q, Q.FeaturesForMilestone(q, milestone)) == [] && plan.target == Work(FeatureExecution)),
      SelectionMatches(b, q, milestone),
      !(ExecutesFeature(plan.target) && plan.acceptedCommit in HistoricalCommits(b.outcomes))))
  }

  /** The milestone is named by its identity, not by an alias. */
  predicate NamedExactly(q: Q.Queue, milestone: string) {
    var m := Q.MilestoneNamed(q, milestone);
    m.Some? && m.value.id == milestone
  }

  /** Two different places of the milestone's queue await integration. */
  ghost predicate SeveralAwaitIntegration(q: Q.Queue, milestone: string) {
    var fs := Q.FeaturesForMilestone(q, milestone);
    exists i, j :: 0 <= i < j < |fs| && Q.AwaitsIntegration(fs[i]) && Q.AwaitsIntegration(fs[j])
  }

  lemma {:induction false} CandidatesCount(fs: seq<Q.Feature>)
    ensures |Q.IntegrationCandidates(fs)| >= 1 <==> exists i :: 0 <= i < |fs| && Q.AwaitsIntegration(fs[i])
    ensures |Q.IntegrationCandidates(fs)| > 1 <==>
      exists i, j :: 0 <= i < j < |fs| && Q.AwaitsIntegration(fs[i]) && Q.AwaitsIntegration(fs[j])
  {
    hide Q.AwaitsIntegration;
    if fs != [] {
      var rest := fs[1..];
      CandidatesCount(rest);
      assert forall i :: 0 < i < |fs| ==> fs[i] == rest[i - 1];
      if i :| 0 <= i < |rest| && Q.AwaitsIntegration(rest[i]) {
        assert fs[i + 1] == rest[i];
      }
      if i, j :| 0 <= i < j < |rest| && Q.AwaitsIntegration(rest[i]) && Q.AwaitsIntegration(rest[j]) {
        assert fs[i + 1] == rest[i] && fs[j + 1] == rest[j];
      }
    }
  }

  /** Without an authoritative gate an idle plan executes the projected candidate. */
  lemma IdlePlan(p: Projection, given: Given)
    requires p.body.active.None? && FromProjection(p, given).Ok?
    ensures var plan := FromProjection(p, given).value;
      && TargetOf(EffectiveAction(p.body.action)) == Some(plan.target)
      && (ExecutesFeature(plan.target) ==> plan.feature == Candidate(p.body) && Truthy(plan.feature))
      && (ExecutesFeature(plan.target) ==> plan.acceptedCommit !in HistoricalCommits(p.body.outcomes))
  {
    hide FromProjection, SessionOf, FirstTransaction, Matches, HistoricalCommits, IntegratedFeatures, PlanningBaseline;
    PlanFacts(p, given);
    IdleTarget(p.body, FromProjection(p, given).value.target);
  }

  lemma IdleTarget(b: Body, t: Target)
    requires b.active.None? && PlanTarget(b) == Ok(t) && ExpectedTarget(b) == Ok(t)
    ensures TargetOf(EffectiveAction(b.action)) == Some(t)
  {
  }

  /** An integrated feature of the milestone is a terminal candidate of the projection that names it. */
  lemma IntegratedIsTerminal(b: Body, q: Q.Queue, milestone: string)
    requires Q.Valid(q) && IsIntegratedIn(q, milestone, Candidate(b)) && Truthy(Candidate(b))
    ensures TerminalCandidate(b, q)
  {
    var f :| f in Q.FeaturesForMilestone(q, milestone) && f.status == Q.Integrated
      && f.integrationStatus == Some("passed") && Candidate(b) == Some(f.id);
    Q.NameIdentifies(q, f);
  }

  lemma ReadyIsListed(q: Q.Queue, milestone: string, f: Q.Feature)
    requires f in q.features && Q.InMilestone(q, f, milestone) && Q.IsReady(q, f)
    ensures f in Q.ReadyOf(q, Q.FeaturesForMilestone(q, milestone))
  {
  }

  /** The projection of a bound feature cycle. */
  lemma BoundCycle(p: Projection, q: Q.Queue, milestone: string)
    requires Q.Valid(q) && p.body.active.None? && Bind(p, q, milestone).Ok?
    requires Bind(p, q, milestone).value.body.action == RunFeatureCycle
    ensures var b := Bind(p, q, milestone).value.body;
      && b.active.None? && Candidate(b).Some?
      && Q.FeatureNamed(q.features, Candidate(b).value).Some?
      && var f := Q.FeatureNamed(q.features, Candidate(b).value).value;
         f in q.features && Q.InMilestone(q, f, milestone) && Q.IsReady(q, f)
  {
    hide Q.IsReady, Q.InMilestone, Q.SelectNext, Q.SelectExact, Q.Valid;
    var selected := Selected(p.body, q, milestone).value;
    if selected.Some? {
      SelectedIsReady(p.body, q, milestone);
    }
  }

  /**
   Every plan built from a bound idle projection passes the checks, with two exceptions: the checks
   raise exactly when several features of the milestone await integration; and a bound feature cycle
   fails `projected_selection_matches_queue`, and only that check, exactly when the milestone is
   configured by an alias.
   */
  lemma BoundPlanPassesIff(p: Projection, q: Q.Queue, milestone: string, given: Given)
    requires Q.Valid(q) && p.body.active.None? && Bind(p, q, milestone).Ok?
    requires FromProjection(Bind(p, q, milestone).value, given).Ok?
    ensures var bound := Bind(p, q, milestone).value;
      var plan := FromProjection(bound, given).value;
      ExecutionChecks(bound.body, plan, q, milestone) ==
        if SeveralAwaitIntegration(q, milestone) then Err(Q.SeveralIntegrations)
        else Ok(ALL_PASS.(selectionMatches := bound.body.action == RunFeatureCycle ==> NamedExactly(q, milestone)))
  {
    hide Q.IsReady, Q.Valid, Q.MilestoneNamed, FromProjection, Q.SelectExact, Q.SelectNext, Q.ReadyOf,
      Q.FeaturesForMilestone, IsIntegratedIn, HistoricalCommits, Q.IntegrationCandidates;
    var bound := Bind(p, q, milestone).value;
    var plan := FromProjection(bound, given).value;
    IdlePlan(bound, given);
    CandidatesCount(Q.FeaturesForMilestone(q, milestone));
    if bound.body.action == RunFeatureCycle {
      BoundCycle(p, q, milestone);
      var f := Q.FeatureNamed(q.features, Candidate(bound.body).value).value;
      ReadyIsListed(q, milestone, f);
      ReadyIsNotIntegrated(q, milestone, f);
    } else if ExecutesFeature(plan.target) && IsIntegratedIn(q, milestone, plan.feature) {
      IntegratedIsTerminal(bound.body, q, milestone);
    }
  }

  lemma ReadyIsNotIntegrated(q: Q.Queue, milestone: string, f: Q.Feature)
    requires Q.Valid(q) && f in q.features && Q.IsReady(q, f)
    ensures !IsIntegratedIn(q, milestone, Some(f.id))
  {
    forall g | g in Q.FeaturesForMilestone(q, milestone) && g.id == f.id ensures g == f {
      Q.NameIdentifies(q, g);
      Q.NameIdentifies(q, f);
    }
  }

  // ---------------------------------------------------------------- the failing family, concretely

  const ALIAS_QUEUE: Q.Queue := Q.Queue(
    [Q.Feature("F1", "M0", Q.Ready, None, None, [], false, true, 2, None)],
    [Q.Milestone("M0", "milestone-0", [])],
    (name: string) => "milestone-0")

  const IDLE_BODY: Body := Body(
    Some("app"), Some(0), Some("genesis"), Reconciling, ReconcileQueue, None, [], Some(false), None,
    None, None, None, None, None, None, None, NoGate, None, [])

  const ALIAS_NAME: string := "milestone 0"

  const ALIAS_GIVEN: Given := Given(None, None, Some("main"))

  lemma AliasSelects()
    ensures Q.Valid(ALIAS_QUEUE) && !NamedExactly(ALIAS_QUEUE, ALIAS_NAME)
    ensures Q.SelectNext(ALIAS_QUEUE, ALIAS_NAME) == Some(ALIAS_QUEUE.features[0])
    ensures Q.FeatureNamed(ALIAS_QUEUE.features, ALIAS_QUEUE.features[0].id) == Some(ALIAS_QUEUE.features[0])
    ensures |Q.IntegrationCandidates(Q.FeaturesForMilestone(ALIAS_QUEUE, ALIAS_NAME))| <= 1
  {
    var f := ALIAS_QUEUE.features[0];
    assert Q.MilestoneNamed(ALIAS_QUEUE, ALIAS_NAME) == Some(ALIAS_QUEUE.milestones[0]);
    Q.SelectNextIsFirstReady(ALIAS_QUEUE, ALIAS_NAME);
    assert f in ALIAS_QUEUE.features && Q.InMilestone(ALIAS_QUEUE, f, ALIAS_NAME) && Q.IsReady(ALIAS_QUEUE, f);
  }

  const ALIAS_BODY: Body := IDLE_BODY.(state := FeatureReady, currentFeature := Some("F1"), selectedNext := Some("F1"),
    action := RunFeatureCycle)

  lemma AliasPlan()
    ensures FromProjection(Projection(ALIAS_BODY, Some(ALIAS_BODY)), ALIAS_GIVEN).Ok?
  {
  }

  /** With the milestone "M0" configured as "milestone 0" the plan for its ready feature fails one check. */
  lemma AliasFailsTheCheck()
    ensures var bound := Bind(Projection(IDLE_BODY, Some(IDLE_BODY)), ALIAS_QUEUE, ALIAS_NAME);
      && bound.Ok?
      && var plan := FromProjection(bound.value, ALIAS_GIVEN);
         plan.Ok? && ExecutionChecks(bound.value.body, plan.value, ALIAS_QUEUE, ALIAS_NAME) ==
           Ok(ALL_PASS.(selectionMatches := false))
  {
    hide Q.SelectNext, Q.SelectExact, Q.IntegrationCandidates, Q.FeaturesForMilestone, Q.Valid, NamedExactly,
      FromProjection, ExecutionChecks;
    AliasSelects();
    AliasPlan();
    var p := Projection(IDLE_BODY, Some(IDLE_BODY));
    assert Bind(p, ALIAS_QUEUE, ALIAS_NAME) == Ok(Projection(ALIAS_BODY, Some(ALIAS_BODY)));
    CandidatesCount(Q.FeaturesForMilestone(ALIAS_QUEUE, ALIAS_NAME));
    BoundPlanPassesIff(p, ALIAS_QUEUE, ALIAS_NAME, ALIAS_GIVEN);
  }

  const TWO_ACCEPTED: Q.Queue := Q.Queue(
    [Q.Feature("F1", "M0", Q.Accepted, None, None, [], false, true, 2, None),
     Q.Feature("F2", "M0", Q.Accepted, None, None, [], false, true, 2, None)],
    [Q.Milestone("M0", "milestone-0", [])],
    (name: string) => "milestone-0")

  lemma TwoAcceptedQueue()
    ensures Q.Valid(TWO_ACCEPTED) && Q.FeaturesForMilestone(TWO_ACCEPTED, "M0") == TWO_ACCEPTED.features
    ensures Q.SelectNext(TWO_ACCEPTED, "M0").None?
  {
    assert Q.MilestoneNamed(TWO_ACCEPTED, "M0") == Some(TWO_ACCEPTED.milestones[0]);
    var fs := TWO_ACCEPTED.features;
    assert fs[1..] == [fs[1]] && Q.FeaturesOf(fs[1..], "M0") == [fs[1]];
    assert Q.FeaturesForMilestone(TWO_ACCEPTED, "M0") == [fs[0]] + [fs[1]] == fs;
    Q.SelectNextIsFirstReady(TWO_ACCEPTED, "M0");
  }

  lemma IdlePlanBuilds()
    ensures FromProjection(Projection(IDLE_BODY, Some(IDLE_BODY)), ALIAS_GIVEN).Ok?
  {
  }

  /** With two accepted features in the milestone the checks raise for the plan of the bound projection. */
  lemma TwoIntegrationsRaise()
    ensures var bound := Bind(Projection(IDLE_BODY, Some(IDLE_BODY)), TWO_ACCEPTED, "M0");
      && bound.Ok?
      && var plan := FromProjection(bound.value, ALIAS_GIVEN);
         plan.Ok? && ExecutionChecks(bound.value.body, plan.value, TWO_ACCEPTED, "M0") == Err(Q.SeveralIntegrations)
  {
    hide Q.SelectNext, Q.SelectExact, Q.IntegrationCandidates, Q.FeaturesForMilestone, Q.Valid, FromProjection,
      ExecutionChecks;
    TwoAcceptedQueue();
    IdlePlanBuilds();
    var p := Projection(IDLE_BODY, Some(IDLE_BODY));
    assert Bind(p, TWO_ACCEPTED, "M0") == Ok(p);
    assert Q.AwaitsIntegration(TWO_ACCEPTED.features[0]) && Q.AwaitsIntegration(TWO_ACCEPTED.features[1]);
    BoundPlanPassesIff(p, TWO_ACCEPTED, "M0", ALIAS_GIVEN);
  }
}
