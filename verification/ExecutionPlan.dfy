/**
 Executable routing from the authoritative projection (src/development_conveyor/execution_plan.py):
 identity resolution, the plan, its validation, the status derived from it, and their agreement.

 A projection's fingerprint is represented by the content it was computed from. Empty and absent
 strings are both falsy, as in `a or b`.
 */
module ExecutionPlan {
  import opened Prelude
  import opened Sequences
  import opened Ledger

  datatype Action =
    | NoAction | ReconcileQueue | RunFeatureCycle | Integrate | RunMilestoneGate | ResolveHumanDecision
    | VerifyConsistency | ApproveMerge | UnknownAction(name: string)

  datatype CurrentState = NoState | Reconciling | AwaitingHuman | FeatureReady | OtherState(name: string)

  datatype Lease = PlanningWriter | FeatureWriter | IntegrationWriter | MilestoneGateWriter | RecoveryWriter |
    OtherLease(name: string)

  /** What a plan executes: a kernel workflow, or the human merge approval. */
  datatype Target = Work(workflow: Workflow) | MergeApproval

  datatype Snapshot = Snapshot(branch: Option<string>, head: Option<string>, clean: Option<bool>,
    operations: Option<bool>)

  datatype Transaction = Transaction(
    id: Option<string>, workflow: Option<Workflow>, completed: bool, classification: Option<string>,
    featureId: Option<string>, reference: Option<string>, sessions: seq<string>, terminal: Option<Snapshot>)

  datatype IntegrationOutcome = IntegrationOutcome(
    integrated: bool, sequence: Option<int>, terminalHead: Option<string>, transaction: Option<string>,
    feature: Option<string>, acceptedCommit: Option<string>, integratedCommit: Option<string>, clean: Option<bool>)

  datatype Gate =
    | NoGate
    | MalformedGate
    | GateFields(
        featureId: Option<string>, feature: Option<string>, acceptedFeatureCommit: Option<string>,
          acceptedCommit: Option<string>,
        startingCommit: Option<string>, planningCommit: Option<string>, featureBranch: Option<string>,
          milestoneBranch: Option<string>)

  const EMPTY_GATE: Gate := GateFields(None, None, None, None, None, None, None, None)

  datatype Prepared = Prepared(
    featureId: Option<string>, featureBranch: Option<string>, startingCommit: Option<string>,
      milestoneBranch: Option<string>)

  datatype Body = Body(
    projectId: Option<string>, ledgerSequence: Option<int>, ledgerFingerprint: Option<string>,
    state: CurrentState, action: Action, active: Option<string>, transactions: seq<Transaction>,
    resumeEligible: Option<bool>, requiredLease: Option<Lease>,
    currentFeature: Option<string>, selectedNext: Option<string>, acceptedCommit: Option<string>,
    selectedStartingCommit: Option<string>, featureBranch: Option<string>, milestoneBranch: Option<string>,
    integrationStatus: Option<string>, gate: Gate, prepared: Option<Prepared>, outcomes: seq<IntegrationOutcome>)

  datatype Projection = Projection(body: Body, claimed: Option<Body>)

  function Or(a: Option<string>, b: Option<string>): Option<string> {
    if a.Some? && a.value != "" then a else b
  }

  predicate Truthy(a: Option<string>) {
    a.Some? && a.value != ""
  }

  function TextOf(a: Option<string>): string {
    if a.Some? then a.value else ""
  }

  function LeaseOf(w: Workflow): Lease {
    match w
    case QueueReconciliation => PlanningWriter
    case FeaturePreparation => FeatureWriter
    case FeatureExecution => FeatureWriter
    case FeatureAcceptance => FeatureWriter
    case MilestoneIntegration => IntegrationWriter
    case MilestoneGate => MilestoneGateWriter
    case HumanDecisionResolution => RecoveryWriter
    case Recovery => RecoveryWriter
  }

  function TargetLease(t: Target): Option<Lease> {
    if t.Work? then Some(LeaseOf(t.workflow)) else None
  }

  /** An absent or empty action stands for the consistency check. */
  function EffectiveAction(a: Action): Action {
    if a.NoAction? then VerifyConsistency else a
  }

  function TargetOf(a: Action): Option<Target> {
    match a
    case ReconcileQueue => Some(Work(QueueReconciliation))
    case RunFeatureCycle => Some(Work(FeatureExecution))
    case Integrate => Some(Work(MilestoneIntegration))
    case RunMilestoneGate => Some(Work(MilestoneGate))
    case ResolveHumanDecision => Some(Work(HumanDecisionResolution))
    case VerifyConsistency => Some(Work(Recovery))
    case ApproveMerge => Some(MergeApproval)
    case _ => None
  }

  // ---------------------------------------------------------------- identity

  function FirstTransaction(ts: seq<Transaction>, id: Option<string>): Option<Transaction> {
    if ts == [] then None else if ts[0].id == id then Some(ts[0]) else FirstTransaction(ts[1..], id)
  }

  predicate Comparable(o: IntegrationOutcome) {
    o.integrated && o.sequence.Some?
  }

  /** The first comparable outcome with the largest sequence number. */
  function LatestOutcome(os: seq<IntegrationOutcome>): (r: Option<IntegrationOutcome>)
    ensures r.Some? ==> Comparable(r.value) && r.value in os
    ensures r.None? ==> forall o :: o in os ==> !Comparable(o)
    ensures r.Some? ==> forall o :: o in os && Comparable(o) ==> o.sequence.value <= r.value.sequence.value
  {
    if os == [] then None
    else
      var rest := LatestOutcome(os[1..]);
      assert os == [os[0]] + os[1..];
      if !Comparable(os[0]) then rest
      else if rest.Some? && rest.value.sequence.value > os[0].sequence.value then rest
      else Some(os[0])
  }

  predicate ClearedForPlanning(b: Body) {
    && b.state == Reconciling && b.action == ReconcileQueue && b.active.None?
    && b.currentFeature.None? && b.selectedNext.None? && b.acceptedCommit.None?
    && b.gate == NoGate && b.requiredLease.None? && b.resumeEligible == Some(false)
  }

  /** The terminal snapshot of the transaction that an outcome names proves a clean milestone branch. */
  predicate TerminalProven(b: Body, o: IntegrationOutcome, branch: string) {
    && Truthy(o.terminalHead) && Truthy(o.transaction) && Truthy(o.feature)
    && Truthy(o.acceptedCommit) && Truthy(o.integratedCommit) && o.clean == Some(true)
    && var t := FirstTransaction(b.transactions, o.transaction);
      && t.Some? && t.value.workflow == Some(MilestoneIntegration) && t.value.completed
      && t.value.classification == Some("INTEGRATED") && t.value.featureId == o.feature &&
          t.value.reference == o.terminalHead
      && t.value.terminal.Some?
      && var s := t.value.terminal.value;
        s.branch == Some(branch) && s.head == o.terminalHead && s.clean == Some(true) && s.operations == Some(false)
  }

  /** `completed_integration_planning_baseline`. */
  function PlanningBaseline(b: Body, t: Target, milestoneBranch: Option<string>): Option<string> {
    var expected := Or(b.milestoneBranch, milestoneBranch);
    var latest := LatestOutcome(b.outcomes);
    if t != Work(QueueReconciliation) || !ClearedForPlanning(b) then None
    else if !Truthy(expected) then None
    else if latest.None? || !TerminalProven(b, latest.value, expected.value) then None
    else latest.value.terminalHead
  }

  datatype Identity = Identity(
    feature: Option<string>, acceptedCommit: Option<string>, startingCommit: Option<string>,
    featureBranch: Option<string>, milestoneBranch: Option<string>, gateAuthoritative: bool)

  predicate GateAuthoritative(b: Body, t: Target) {
    b.state == AwaitingHuman && t == Work(HumanDecisionResolution) && b.gate.GateFields?
  }

  /** `execution_identity`. */
  function ExecutionIdentity(b: Body, t: Target, milestoneBranch: Option<string>): Identity {
    var authoritative := GateAuthoritative(b, t);
    var g := if authoritative then b.gate else EMPTY_GATE;
    Identity(
      Or(g.featureId, Or(g.feature, Or(b.currentFeature, b.selectedNext))),
      Or(g.acceptedFeatureCommit, Or(g.acceptedCommit, b.acceptedCommit)),
      Or(g.startingCommit, Or(g.planningCommit, Or(PlanningBaseline(b, t, milestoneBranch), b.selectedStartingCommit))),
      Or(g.featureBranch, b.featureBranch),
      Or(g.milestoneBranch, Or(b.milestoneBranch, milestoneBranch)),
      authoritative)
  }

  /**
   Resolving the identity again with the milestone branch that the first resolution produced gives
   the same identity, also under an authoritative gate or with a planning baseline.
   */
  lemma IdentityStable(b: Body, t: Target, milestoneBranch: Option<string>)
    ensures var identity := ExecutionIdentity(b, t, milestoneBranch);
      ExecutionIdentity(b, t, Or(identity.milestoneBranch, milestoneBranch)) == identity
  {
    hide TerminalProven, LatestOutcome, ClearedForPlanning;
  }

  /** The states and workflows in which no gate is authoritative. */
  predicate NeverAuthoritative(b: Body, t: Target) {
    b.state != AwaitingHuman || t != Work(HumanDecisionResolution)
  }

  /**
   Historical gates do not route work: where no gate is authoritative, replacing the gate changes no
   identity field, except that a planning baseline needs the absence of any gate.
   */
  lemma HistoricalGateDoesNotRoute(b: Body, t: Target, milestoneBranch: Option<string>, gate: Gate)
    requires NeverAuthoritative(b, t)
    ensures var before, after := ExecutionIdentity(b, t, milestoneBranch),
      ExecutionIdentity(b.(gate := gate), t, milestoneBranch);
      && after == before.(startingCommit := after.startingCommit)
      && (b.gate.NoGate? == gate.NoGate? ==> after == before)
  {
    hide TerminalProven, LatestOutcome;
    if b.gate.NoGate? == gate.NoGate? {
      BaselineIgnoresGate(b, t, milestoneBranch, gate);
    }
  }

  lemma BaselineIgnoresGate(b: Body, t: Target, milestoneBranch: Option<string>, gate: Gate)
    requires b.gate.NoGate? == gate.NoGate?
    ensures PlanningBaseline(b.(gate := gate), t, milestoneBranch) == PlanningBaseline(b, t, milestoneBranch)
  {
  }

  // ---------------------------------------------------------------- plans

  datatype Mode = Fresh | InRecovery

  datatype Plan = Plan(
    projectId: string, ledgerSequence: int, ledgerFingerprint: string, projectionFingerprint: Body,
    state: CurrentState, target: Target, feature: Option<string>, acceptedCommit: Option<string>,
    startingBranch: Option<string>, startingCommit: Option<string>, featureBranch: Option<string>,
      milestoneBranch: Option<string>,
    mode: Mode, resumeEligible: bool, session: Option<string>, lease: Option<Lease>)

  datatype PlanError =
    | FingerprintInvalid | UnsupportedAction | ActiveWorkflowInvalid | NoSessionToResume | LeaseDisagrees
    | PreparedBoundaryDisagrees | NoSelectedFeature | FeatureIntegrated | CommitHistorical | PlanDisagrees |
      UnsupportedWorkflow

  predicate ResumeEligible(b: Body) {
    b.resumeEligible == Some(true)
  }

  predicate ExecutesFeature(t: Target) {
    t == Work(FeatureExecution) || t == Work(MilestoneIntegration)
  }

  function IntegratedFeatures(os: seq<IntegrationOutcome>): set<Option<string>> {
    set o | o in os && o.integrated :: o.feature
  }

  function HistoricalCommits(os: seq<IntegrationOutcome>): set<Option<string>> {
    set o | o in os && o.acceptedCommit.Some? :: o.acceptedCommit
  }

  /** The workflow of the plan: that of the active transaction, otherwise that of the next action. */
  function PlanTarget(b: Body): Result<Target, PlanError> {
    if TargetOf(EffectiveAction(b.action)).None? then Err(UnsupportedAction)
    else
      match FirstTransaction(b.transactions, b.active)
      case None => Ok(TargetOf(EffectiveAction(b.action)).value)
      case Some(t) => if t.workflow.None? then Err(ActiveWorkflowInvalid) else Ok(Work(t.workflow.value))
  }

  /** The workflow that validation expects; it looks at the active transaction only when one is named. */
  function ExpectedTarget(b: Body): Result<Target, PlanError> {
    if b.active.None? then
      match TargetOf(EffectiveAction(b.action))
      case None => Ok(Work(Recovery))
      case Some(t) => Ok(t)
    else
      match FirstTransaction(b.transactions, b.active)
      case None => Err(PlanDisagrees)
      case Some(t) => if t.workflow.None? then Err(ActiveWorkflowInvalid) else Ok(Work(t.workflow.value))
  }

  predicate Agrees(found: Option<string>, expected: Option<string>) {
    expected.Some? ==> found == expected
  }

  /** All checks of `validate_against` for the expected workflow. */
  predicate Matches(plan: Plan, p: Projection, expected: Target) {
    var b := p.body;
    var identity := ExecutionIdentity(b, expected, plan.milestoneBranch);
    && b.projectId == Some(plan.projectId)
    && b.ledgerSequence == Some(plan.ledgerSequence)
    && b.ledgerFingerprint == Some(plan.ledgerFingerprint)
    && p.claimed == Some(plan.projectionFingerprint)
    && b.state == plan.state
    && plan.target == expected
    && plan.feature == identity.feature
    && plan.acceptedCommit == identity.acceptedCommit
    && plan.startingBranch == (
         if expected == Work(FeatureExecution) && b.prepared.Some? then b.prepared.value.featureBranch
         else Or(identity.milestoneBranch, plan.milestoneBranch))
    && plan.resumeEligible == ResumeEligible(b)
    && plan.lease == (if b.requiredLease.Some? then b.requiredLease else TargetLease(expected))
    && Agrees(plan.startingCommit, identity.startingCommit)
    && Agrees(plan.featureBranch, identity.featureBranch)
    && Agrees(plan.milestoneBranch, identity.milestoneBranch)
  }

  /** `validate_against`: nothing, or the error it raises. */
  function ValidateAgainst(plan: Plan, p: Projection): Option<PlanError> {
    match ExpectedTarget(p.body)
    case Err(e) => Some(e)
    case Ok(expected) => if Matches(plan, p, expected) then None else Some(PlanDisagrees)
  }

  /** What the caller supplies beside the projection. */
  datatype Given = Given(startingCommit: Option<string>, featureBranch: Option<string>, milestoneBranch: Option<string>)

  /** A prepared feature boundary must restate the identity. */
  predicate PreparedAgrees(b: Body, t: Target, identity: Identity) {
    b.prepared.Some? ==>
      (&& t == Work(FeatureExecution)
       && b.prepared.value == Prepared(identity.feature, identity.featureBranch, identity.startingCommit,
           identity.milestoneBranch))
  }

  /** A plan that executes a feature needs one that is not already integrated. */
  function FeatureError(b: Body, t: Target, identity: Identity): Option<PlanError> {
    if !ExecutesFeature(t) then None
    else if !Truthy(identity.feature) then Some(NoSelectedFeature)
    else if identity.feature in IntegratedFeatures(b.outcomes) then Some(FeatureIntegrated)
    else if identity.acceptedCommit in HistoricalCommits(b.outcomes) then Some(CommitHistorical)
    else None
  }

  function Built(p: Projection, t: Target, identity: Identity, given: Given, session: Option<string>): Plan
    requires p.claimed.Some?
  {
    var b := p.body;
    var preparedBranch := if t == Work(FeatureExecution) && b.prepared.Some? then b.prepared.value.featureBranch
      else None;
    Plan(
      TextOf(b.projectId), if b.ledgerSequence.Some? then b.ledgerSequence.value
        else -1, TextOf(b.ledgerFingerprint), p.claimed.value,
      b.state, t, identity.feature, identity.acceptedCommit,
      Or(preparedBranch, Or(identity.milestoneBranch, given.milestoneBranch)),
      Or(identity.startingCommit, given.startingCommit),
      Or(identity.featureBranch, given.featureBranch),
      Or(identity.milestoneBranch, given.milestoneBranch),
      if FirstTransaction(b.transactions, b.active).Some? then InRecovery else Fresh,
      ResumeEligible(b), session, TargetLease(t))
  }

  function SessionOf(b: Body): Option<string> {
    match FirstTransaction(b.transactions, b.active)
    case Some(t) => if ResumeEligible(b) && t.sessions != [] then Some(t.sessions[|t.sessions| - 1]) else None
    case None => None
  }

  /** `ExecutionPlan.from_projection`. */
  function FromProjection(p: Projection, given: Given): Result<Plan, PlanError> {
    var b := p.body;
    if p.claimed != Some(b) then Err(FingerprintInvalid)
    else
      match PlanTarget(b)
      case Err(e) => Err(e)
      case Ok(t) =>
        var identity := ExecutionIdentity(b, t, given.milestoneBranch);
        if ResumeEligible(b) && SessionOf(b).None? then Err(NoSessionToResume)
        else if b.requiredLease.Some? && b.requiredLease != TargetLease(t) then Err(LeaseDisagrees)
        else if !PreparedAgrees(b, t, identity) then Err(PreparedBoundaryDisagrees)
        else if FeatureError(b, t, identity).Some? then Err(FeatureError(b, t, identity).value)
        else
          var plan := Built(p, t, identity, given, SessionOf(b));
          if ValidateAgainst(plan, p).Some? then Err(ValidateAgainst(plan, p).value) else Ok(plan)
  }

  // ---------------------------------------------------------------- sessions and status

  datatype Session = ResumeExact | FreshSession(workflow: Workflow)

  function SessionsToLaunch(plan: Plan): seq<Session> {
    match plan.target
    case MergeApproval => []
    case Work(w) =>
      if w in {MilestoneIntegration, HumanDecisionResolution, Recovery} then []
      else if plan.mode.InRecovery? then (if plan.resumeEligible then [ResumeExact] else [])
      else [FreshSession(w)]
  }

  /** The routing fields of the status. */
  datatype Status = Status(
    currentState: CurrentState, derivedState: CurrentState, persistedState: CurrentState,
    nextAction: Action, proposedNextAction: Action, target: Target,
    selectedFeature: Option<string>, acceptedCommit: Option<string>, startingCommit: Option<string>,
    featureBranch: Option<string>, milestoneBranch: Option<string>, expectedBranch: Option<string>,
    requiredLease: Option<Lease>, resumeEligible: bool, oldSessionResumes: bool,
    sessions: seq<Session>, executablePlan: Plan, executionPlan: Plan)

  /** The routing part of `authoritative_status_fields`. */
  function AuthoritativeStatus(p: Projection, plan: Plan): Result<Status, PlanError> {
    var b := p.body;
    match ValidateAgainst(plan, p)
    case Some(e) => Err(e)
    case None =>
      var action := EffectiveAction(b.action);
      var identity := ExecutionIdentity(b, plan.target, plan.milestoneBranch);
      var branch := Or(identity.featureBranch, plan.featureBranch);
      Ok(Status(
        b.state, b.state, b.state, action, action, plan.target,
        Or(identity.feature, plan.feature), Or(identity.acceptedCommit, plan.acceptedCommit),
          Or(identity.startingCommit, plan.startingCommit),
        branch, Or(identity.milestoneBranch, plan.milestoneBranch), branch,
        plan.lease, plan.resumeEligible, plan.resumeEligible, SessionsToLaunch(plan), plan, plan))
  }

  /** `execution_plan_projection_agreement`. */
  predicate Agreement(p: Projection, s: Status, plan: Plan) {
    var b := p.body;
    var lease := if b.requiredLease.Some? then b.requiredLease else plan.lease;
    var identity := ExecutionIdentity(b, plan.target, plan.milestoneBranch);
    && s.currentState == b.state && s.derivedState == b.state && s.persistedState == b.state
    && s.nextAction == b.action && s.proposedNextAction == b.action
    && s.target == plan.target
    && s.resumeEligible == ResumeEligible(b) && s.oldSessionResumes == ResumeEligible(b)
    && s.sessions == SessionsToLaunch(plan)
    && s.executablePlan == plan && s.executionPlan == plan
    && s.selectedFeature == Or(identity.feature, plan.feature)
    && s.acceptedCommit == Or(identity.acceptedCommit, plan.acceptedCommit)
    && s.startingCommit == Or(identity.startingCommit, plan.startingCommit)
    && s.featureBranch == Or(identity.featureBranch, plan.featureBranch)
    && s.milestoneBranch == Or(identity.milestoneBranch, plan.milestoneBranch)
    && s.requiredLease == lease && s.executablePlan.lease == lease
  }

  // ---------------------------------------------------------------- agreement

  /** What holds of every plan that is built. */
  lemma PlanFacts(p: Projection, given: Given)
    requires FromProjection(p, given).Ok?
    ensures var plan := FromProjection(p, given).value;
      && PlanTarget(p.body) == Ok(plan.target) && ExpectedTarget(p.body) == Ok(plan.target)
      && plan == Built(p, plan.target, ExecutionIdentity(p.body, plan.target, given.milestoneBranch), given,
          SessionOf(p.body))
      && Matches(plan, p, plan.target)
      && FeatureError(p.body, plan.target, ExecutionIdentity(p.body, plan.target, given.milestoneBranch)).None?
  {
    hide ExecutionIdentity, FeatureError, PreparedAgrees, SessionOf, FirstTransaction;
  }

  /**
   A plan validates against no other projection than its own: a plan made before the projection has
   changed in any way is refused, whatever part of it changed.
   */
  lemma PlanValidatesOnlyItsProjection(p: Projection, given: Given, other: Projection)
    requires FromProjection(p, given).Ok? && other.claimed == Some(other.body)
    ensures ValidateAgainst(FromProjection(p, given).value, other).None? <==> other == p
  {
    hide ExecutionIdentity, PlanTarget, ExpectedTarget, FeatureError, SessionOf, FirstTransaction;
    PlanFacts(p, given);
  }

  /** The identity that validation and status resolve is the one the plan was built from. */
  lemma PlanIdentity(p: Projection, given: Given)
    requires FromProjection(p, given).Ok?
    ensures var plan := FromProjection(p, given).value;
      ExecutionIdentity(p.body, plan.target, plan.milestoneBranch) ==
        ExecutionIdentity(p.body, plan.target, given.milestoneBranch)
  {
    hide ExecutionIdentity, FromProjection, Matches, FeatureError, PlanTarget, ExpectedTarget;
    PlanFacts(p, given);
    IdentityStable(p.body, FromProjection(p, given).value.target, given.milestoneBranch);
  }

  /** Every routing alias in a status is the plan's own value. */
  predicate Mirrors(s: Status, plan: Plan) {
    && s.selectedFeature == plan.feature && s.acceptedCommit == plan.acceptedCommit &&
        s.startingCommit == plan.startingCommit
    && s.featureBranch == s.expectedBranch == plan.featureBranch && s.milestoneBranch == plan.milestoneBranch
    && s.currentState == s.derivedState == s.persistedState == plan.state
    && s.target == plan.target && s.requiredLease == TargetLease(plan.target)
    && s.executablePlan == s.executionPlan == plan
  }

  /**
   For every projection from which a plan is built: the plan has a status under this projection and
   under no other, all aliases in the status are the plan's own values, and plan and status agree
   exactly when the next action is not empty. For an empty one the status names the consistency check.
   */
  lemma AgreementIffActionGiven(p: Projection, given: Given, other: Projection)
    requires FromProjection(p, given).Ok? && other.claimed == Some(other.body)
    ensures var plan := FromProjection(p, given).value;
      && (AuthoritativeStatus(other, plan).Ok? <==> other == p)
      && AuthoritativeStatus(p, plan).Ok?
      && Mirrors(AuthoritativeStatus(p, plan).value, plan)
      && (Agreement(p, AuthoritativeStatus(p, plan).value, plan) <==> p.body.action != NoAction)
  {
    hide ExecutionIdentity, FromProjection, PlanTarget, ExpectedTarget, FeatureError, SessionOf, FirstTransaction,
      SessionsToLaunch;
    PlanFacts(p, given);
    PlanIdentity(p, given);
    PlanValidatesOnlyItsProjection(p, given, other);
  }

  const UNROUTED_BODY: Body := Body(
    Some("app"), Some(0), Some("genesis"), OtherState("discover"), NoAction, None, [], Some(false), None,
    None, None, None, None, None, None, None, NoGate, None, [])

  /** A projection without next action from which a plan is built whose status then disagrees. */
  lemma EmptyActionDisagrees()
    ensures var p := Projection(UNROUTED_BODY, Some(UNROUTED_BODY));
      var r := FromProjection(p, Given(None, None, Some("main")));
      && r.Ok? && r.value.target == Work(Recovery)
      && AuthoritativeStatus(p, r.value).Ok? && !Agreement(p, AuthoritativeStatus(p, r.value).value, r.value)
  {
    var p := Projection(UNROUTED_BODY, Some(UNROUTED_BODY));
    AgreementIffActionGiven(p, Given(None, None, Some("main")), p);
  }
}
