/**
 The continuous controller loop of `Autopilot.apply` (src/development_conveyor/autopilot.py).

 Everything the loop reads from outside (plans, consistency, route results, recovery evidence, stop
 requests) comes from a script with one entry for each iteration; any reading may raise instead. The
 loop is unbounded, so a script that has run out raises. Emitting, acknowledging and releasing do not fail.
 */
module Autopilot {
  import opened Prelude

  datatype Action =
    | CacheBindingRecovery | CycleCacheRepair | PlanningFinalization | FeatureResultRecovery
    | RetainedFeatureRepairRecovery | AcceptedCommitRecovery | FeaturePrelaunchRecovery
    | IntegrationFinalizationRecovery | KernelRecovery | AuthenticatedWriterLeaseRecovery | TrustedHostValidation
    | RetainedFeatureRepair | VerifyConsistency
    | FeatureCycle | QueueReconciliation | MilestoneIntegration | MilestoneGate
    | HumanDecisionResolution | HumanMergeApproval
    | Disabled | Paused | PortfolioComplete | Completed
    | Unregistered(name: string)

  const DETERMINISTIC_RECOVERY_ROUTES: set<Action> :=
    {CacheBindingRecovery, CycleCacheRepair, PlanningFinalization, FeatureResultRecovery, RetainedFeatureRepairRecovery,
     AcceptedCommitRecovery, FeaturePrelaunchRecovery, IntegrationFinalizationRecovery, KernelRecovery,
     AuthenticatedWriterLeaseRecovery, TrustedHostValidation}

  predicate IsRecovery(a: Action) {
    a in {CacheBindingRecovery, CycleCacheRepair, PlanningFinalization, IntegrationFinalizationRecovery, KernelRecovery,
          VerifyConsistency, FeatureResultRecovery, RetainedFeatureRepairRecovery, RetainedFeatureRepair,
          AcceptedCommitRecovery, FeaturePrelaunchRecovery}
  }

  predicate HasRoute(a: Action) {
    IsRecovery(a) || a in {FeatureCycle, QueueReconciliation, MilestoneIntegration, MilestoneGate}
  }

  datatype Plan = Plan(action: Action, feature: Option<string>, state: string, recognizedRecovery: bool,
    recognizedRepair: bool, humanGate: bool)

  datatype Outcome =
    | NoOutcome | ValidationFailed | ValidationFailedUpper | PlanningValidationFailed | InvalidQueue | RetryExhausted
    | TerminalFeatureFailure | TerminalPlanningFailure | DeterministicRecoveryFailed | RepairExhausted
    | GateOutcome(gate: string) | CompletionOutcome(completion: string) | Accepted(acceptance: string) |
      Integrated(integration: string)
    | OtherOutcome(text: string)

  datatype RouteResult = RouteResult(
    outcome: Outcome, classification: Outcome, reason: string, recoverable: bool, humanGate: bool, retained: bool,
      accepted: bool)

  /** `result.get("outcome") or result.get("classification")`. */
  function Effective(r: RouteResult): Outcome {
    if r.outcome.NoOutcome? then r.classification else r.outcome
  }

  datatype Exception = StopObserved | OtherException

  datatype Reading<+T> = Got(value: T) | Threw(exception: Exception)

  datatype Routed = Returned(result: RouteResult) | RecoveryError(reason: string) | Raised(exception: Exception)

  datatype Consistency = Consistent | RecoverableInconsistency | NeedsGate

  datatype Iteration = Iteration(
    stopAtStart: Reading<bool>, plan: Reading<Plan>, consistency: Reading<Consistency>, routed: Routed,
    evidence: Reading<string>, nextPlan: Reading<Plan>, nextEvidence: Reading<string>, stopAtEnd: Reading<bool>)

  // ---------------------------------------------------------------- what the loop remembers

  datatype BudgetKey = Implementation | Validation | Deterministic | Planning | IntegrationFinalization

  datatype Config = Config(budgets: map<BudgetKey, int>, maxIdentical: int)

  const BUDGET_KEYS: set<BudgetKey> := {Implementation, Validation, Deterministic, Planning, IntegrationFinalization}

  const DEFAULT_RETRY_BUDGETS: map<BudgetKey, int> :=
    map[Implementation := 3, Validation := 2, Deterministic := 3, Planning := 2, IntegrationFinalization := 2]

  predicate Configured(c: Config) {
    c.budgets.Keys == BUDGET_KEYS
  }

  datatype EventName =
    | AutopilotStarted | FeatureSelected | FeatureResultRetained | FeatureAccepted | FeatureIntegrated | FeatureBlocked
    | RecoveryStarted | RecoveryApplied | FeatureRepairStarted | FeatureRepairValidationStarted | StopRequested
    | AutopilotStopped | AutopilotCompleted | AutopilotFailed

  const TERMINAL_EVENTS: set<EventName> := {AutopilotStopped, AutopilotCompleted, AutopilotFailed}

  /** The emitted events, with what the loop did between them. */
  datatype Item =
    | Emitted(event: EventName, feature: Option<string>)
    | Checked(stop: bool)
    | Invoked(plan: Plan, seen: Consistency, outcome: Option<RouteResult>)
    | Counted(feature: Option<string>, key: BudgetKey)
    | Acknowledged
    | OwnershipReleased

  datatype Signature = Signature(action: Action, feature: Option<string>, state: string, outcome: Outcome,
    classification: Outcome, reason: string)

  datatype Run = Run(trace: seq<Item>, counts: map<(Option<string>, BudgetKey), nat>, signatures: map<Signature, nat>)

  /** How one iteration ends. */
  datatype Next =
    | Continue(run: Run, pending: Option<Plan>)
    | Halt(run: Run, terminal: EventName)
    | Raise(run: Run, exception: Exception)

  function Add(r: Run, items: seq<Item>): Run {
    r.(trace := r.trace + items)
  }

  function CountOf(r: Run, f: Option<string>, k: BudgetKey): nat {
    if (f, k) in r.counts then r.counts[(f, k)] else 0
  }

  function CountFailure(r: Run, f: Option<string>, k: BudgetKey): Run {
    Run(r.trace + [Counted(f, k)], r.counts[(f, k) := CountOf(r, f, k) + 1], r.signatures)
  }

  function SeenOf(r: Run, s: Signature): nat {
    if s in r.signatures then r.signatures[s] else 0
  }

  // ---------------------------------------------------------------- one iteration

  predicate Recognized(p: Plan) {
    || (p.action in {FeatureResultRecovery, FeaturePrelaunchRecovery, RetainedFeatureRepairRecovery} &&
        p.recognizedRecovery)
    || (p.action == RetainedFeatureRepair && p.recognizedRepair)
  }

  /** The recoveries that may follow a gate at once. */
  predicate RecoversGate(p: Plan) {
    || (p.action in {FeatureResultRecovery, RetainedFeatureRepairRecovery} && p.recognizedRecovery)
    || (p.action == RetainedFeatureRepair && p.recognizedRepair)
  }

  const STOP_ITEMS: seq<Item> := [Emitted(StopRequested, None), Acknowledged]

  function Announcements(p: Plan): seq<Item> {
    (if p.feature.Some? then [Emitted(FeatureSelected, p.feature)] else [])
    + (if IsRecovery(p.action) then [Emitted(RecoveryStarted, p.feature)] else [])
    + (if p.action == RetainedFeatureRepair
       then [Emitted(FeatureRepairStarted, p.feature), Emitted(FeatureRepairValidationStarted, p.feature)] else [])
  }

  predicate RecoveryFailed(r: RouteResult) {
    r.recoverable || Effective(r) in {DeterministicRecoveryFailed, ValidationFailed, ValidationFailedUpper,
      RepairExhausted}
  }

  function RecoveryReports(p: Plan, r: RouteResult): seq<Item> {
    (if r.retained && r.humanGate then [Emitted(FeatureResultRetained, p.feature)] else [])
    + (if IsRecovery(p.action) && !RecoveryFailed(r) then [Emitted(RecoveryApplied, p.feature)] else [])
    + (if !RecoveryFailed(r) && p.action in {RetainedFeatureRepair, RetainedFeatureRepairRecovery} && r.accepted
       then [Emitted(FeatureAccepted, p.feature)] else [])
  }

  function OutcomeReports(p: Plan, r: RouteResult): seq<Item> {
    (if Effective(r).Accepted? then [Emitted(FeatureAccepted, p.feature)] else [])
    + (if Effective(r).Integrated? then [Emitted(FeatureIntegrated, p.feature)] else [])
  }

  function Reports(p: Plan, r: RouteResult): seq<Item> {
    RecoveryReports(p, r) + OutcomeReports(p, r)
  }

  predicate IsGate(r: RouteResult) {
    Effective(r).GateOutcome? || r.humanGate
  }

  predicate Failed(o: Outcome) {
    o in {ValidationFailed, PlanningValidationFailed, InvalidQueue, RetryExhausted, TerminalFeatureFailure,
      TerminalPlanningFailure,
          ValidationFailedUpper, DeterministicRecoveryFailed, RepairExhausted}
  }

  /** `_retry_budget_key`. */
  function RetryBudgetKey(a: Action, o: Outcome): BudgetKey {
    if o in {ValidationFailed, ValidationFailedUpper, PlanningValidationFailed} then Validation
    else if a == FeatureCycle then Implementation
    else if a == QueueReconciliation then Planning
    else if a == MilestoneIntegration || a == IntegrationFinalizationRecovery then IntegrationFinalization
    else Deterministic
  }

  /** The result that stands for a raised recovery error. */
  function RecoveryErrorResult(reason: string): RouteResult {
    RouteResult(DeterministicRecoveryFailed, NoOutcome, reason, true, false, false, false)
  }

  function AtEnd(r: Run, it: Iteration, p: Plan): Next {
    match it.stopAtEnd
    case Threw(e) => Raise(r, e)
    case Got(true) => Halt(Add(r, [Checked(true), Emitted(StopRequested, p.feature), Acknowledged]), AutopilotStopped)
    case Got(false) => Continue(Add(r, [Checked(false)]), None)
  }

  /** The first failure branch: a deterministic recovery that failed. */
  function AfterRecoveryFailure(c: Config, r: Run, it: Iteration, p: Plan): Next
    requires Configured(c)
  {
    match it.evidence
    case Threw(e) => Raise(r, e)
    case Got(current) =>
      var counted := CountFailure(r, p.feature, Deterministic);
      match it.nextPlan
      case Threw(e) => Raise(counted, e)
      case Got(next) =>
        if next.action == p.action && it.nextEvidence.Threw? then Raise(counted, it.nextEvidence.exception)
        else if next.action == p.action && it.nextEvidence.value == current then Halt(counted, AutopilotStopped)
        else if CountOf(counted, p.feature, Deterministic) > c.budgets[Deterministic] then
          Halt(Add(counted, [Emitted(FeatureBlocked, p.feature)]), AutopilotStopped)
        else Continue(counted, Some(next))
  }

  /** The second failure branch: every other failed result. */
  function AfterFailure(c: Config, r: Run, it: Iteration, p: Plan, result: RouteResult): Next
    requires Configured(c)
  {
    var signature := Signature(p.action, p.feature, p.state, result.outcome, result.classification, result.reason);
    var key := RetryBudgetKey(p.action, Effective(result));
    var seen := r.(signatures := r.signatures[signature := SeenOf(r, signature) + 1]);
    var counted := CountFailure(seen, p.feature, key);
    var exhausted := CountOf(counted, p.feature, key) > c.budgets[key] || result.outcome == RepairExhausted;
    if !exhausted && SeenOf(counted, signature) <= c.maxIdentical then AtEnd(counted, it, p)
    else
      var blocked := Add(counted, [Emitted(FeatureBlocked, p.feature)]);
      match it.nextPlan
      case Threw(e) => Raise(blocked, e)
      case Got(next) =>
        if next.feature.Some? && next.feature != p.feature && next.action == FeatureCycle then Continue(blocked, None)
        else Halt(blocked, AutopilotStopped)
  }

  /** From a route result to the end of the iteration. */
  function AfterResult(c: Config, r: Run, it: Iteration, p: Plan, result: RouteResult): Next
    requires Configured(c)
  {
    var outcome := Effective(result);
    if IsGate(result) then
      match it.nextPlan
      case Threw(e) => Raise(r, e)
      case Got(next) => if RecoversGate(next) then Continue(r, None) else Halt(r, AutopilotStopped)
    else if outcome.CompletionOutcome? then Halt(r, AutopilotCompleted)
    else if !Failed(outcome) then AtEnd(r, it, p)
    else if IsRecovery(p.action) && p.action in DETERMINISTIC_RECOVERY_ROUTES && outcome == DeterministicRecoveryFailed
    then AfterRecoveryFailure(c, r, it, p)
    else AfterFailure(c, r, it, p, result)
  }

  /** Routing an admitted plan. */
  function Route(c: Config, r: Run, it: Iteration, p: Plan): Next
    requires Configured(c) && it.consistency.Got?
  {
    var announced := Add(r, Announcements(p));
    if !HasRoute(p.action) then Raise(Add(announced, [Invoked(p, it.consistency.value, None)]), OtherException)
    else
      match it.routed
      case Raised(e) => Raise(Add(announced, [Invoked(p, it.consistency.value, None)]), e)
      case RecoveryError(reason) =>
        if !IsRecovery(p.action) then Raise(Add(announced, [Invoked(p, it.consistency.value, None)]), OtherException)
        else Reported(c, announced, it, p, RecoveryErrorResult(reason))
      case Returned(result) => Reported(c, announced, it, p, result)
  }

  function Reported(c: Config, r: Run, it: Iteration, p: Plan, result: RouteResult): Next
    requires Configured(c) && it.consistency.Got?
  {
    AfterResult(c, Add(Add(r, [Invoked(p, it.consistency.value, Some(result))]), Reports(p, result)), it, p, result)
  }

  /** Admission of the plan of one iteration. */
  function Admit(c: Config, r: Run, it: Iteration, p: Plan): Next
    requires Configured(c)
  {
    match it.consistency
    case Threw(e) => Raise(r, e)
    case Got(consistency) =>
      if consistency.NeedsGate? && !Recognized(p) then Halt(r, AutopilotFailed)
      else if p.action in {HumanDecisionResolution, HumanMergeApproval} || (p.humanGate && !Recognized(p))
          then Halt(r, AutopilotStopped)
      else if p.action in {Disabled, Paused, PortfolioComplete, Completed} then Halt(r, AutopilotCompleted)
      else Route(c, r, it, p)
  }

  function Step(c: Config, r: Run, it: Iteration, pending: Option<Plan>): Next
    requires Configured(c)
  {
    match it.stopAtStart
    case Threw(e) => Raise(r, e)
    case Got(true) => Halt(Add(r, [Checked(true)] + STOP_ITEMS), AutopilotStopped)
    case Got(false) =>
      var checked := Add(r, [Checked(false)]);
      var reading := if pending.Some? then Got(pending.value) else it.plan;
      match reading
      case Threw(e) => Raise(checked, e)
      case Got(p) => Admit(c, checked, it, p)
  }

  /** The loop over a script; it ends by halting or raising. */
  function Loop(c: Config, r: Run, script: seq<Iteration>, pending: Option<Plan>): Next
    requires Configured(c)
    decreases |script|
  {
    if script == [] then Raise(r, OtherException)
    else
      match Step(c, r, script[0], pending)
      case Continue(next, plan) => Loop(c, next, script[1..], plan)
      case other => other
  }

  const FRESH_RUN: Run := Run([], map[], map[])

  /** The trace of a whole call after ownership was acquired, and its classification. */
  function Concluded(end: Next, stopAfterException: Reading<bool>): (seq<Item>, EventName) {
    match end
    case Halt(r, terminal) => (r.trace, terminal)
    case Raise(r, e) =>
      (match stopAfterException
       case Threw(_) => (r.trace, AutopilotFailed)
       case Got(stop) =>
         if e.StopObserved? && stop then (r.trace + [Checked(stop), Acknowledged], AutopilotStopped)
         else (r.trace + [Checked(stop)], AutopilotFailed))
    case Continue(r, _) => (r.trace, AutopilotFailed)
  }

  function Begun(initial: Reading<Plan>): Run
    requires initial.Got?
  {
    Add(FRESH_RUN, [Emitted(AutopilotStarted, initial.value.feature)])
  }

  function End(c: Config, initial: Reading<Plan>, script: seq<Iteration>): Next
    requires Configured(c)
  {
    match initial
    case Threw(e) => Raise(FRESH_RUN, e)
    case Got(_) => Loop(c, Begun(initial), script, None)
  }

  function Apply(c: Config, initial: Reading<Plan>, script: seq<Iteration>,
                 stopAfterException: Reading<bool>): (seq<Item>, EventName)
    requires Configured(c)
  {
    var (trace, terminal) := Concluded(End(c, initial, script), stopAfterException);
    (trace + [Emitted(terminal, None), OwnershipReleased], terminal)
  }

  // ---------------------------------------------------------------- the imperative loop

  /** How the body of the loop was left. */
  datatype Signal = NextIteration(pending: Option<Plan>) | Break(terminal: EventName) | Propagate(exception: Exception)

  predicate Leaves(n: Next, r: Run, signal: Signal) {
    && n.run == r
    && match n
       case Continue(_, pending) => signal == NextIteration(pending)
       case Halt(_, terminal) => signal == Break(terminal)
       case Raise(_, exception) => signal == Propagate(exception)
  }

  class Autopilot {
    const config: Config
    var trace: seq<Item>
    var retryCounts: map<(Option<string>, BudgetKey), nat>
    var failureSignatures: map<Signature, nat>

    constructor (config: Config)
      ensures this.config == config && Value() == FRESH_RUN
    {
      this.config := config;
      trace, retryCounts, failureSignatures := [], map[], map[];
    }

    function Value(): Run
      reads this
    {
      Run(trace, retryCounts, failureSignatures)
    }

    method Emit(event: EventName, feature: Option<string>)
      modifies this`trace
      ensures Value() == Add(old(Value()), [Emitted(event, feature)])
    {
      trace := trace + [Emitted(event, feature)];
    }

    /** Increments the shared counter of a feature and a budget. */
    method Count(feature: Option<string>, key: BudgetKey) returns (attempts: nat)
      modifies this`trace, this`retryCounts
      ensures Value() == CountFailure(old(Value()), feature, key)
      ensures attempts == CountOf(Value(), feature, key)
    {
      attempts := CountOf(Value(), feature, key) + 1;
      retryCounts := retryCounts[(feature, key) := attempts];
      trace := trace + [Counted(feature, key)];
    }

    method CheckStopAtEnd(it: Iteration, p: Plan) returns (signal: Signal)
      modifies this`trace
      ensures Leaves(AtEnd(old(Value()), it, p), Value(), signal)
    {
      if it.stopAtEnd.Threw? {
        return Propagate(it.stopAtEnd.exception);
      }
      trace := trace + [Checked(it.stopAtEnd.value)];
      if it.stopAtEnd.value {
        trace := trace + [Emitted(StopRequested, p.feature)];
        trace := trace + [Acknowledged];
        return Break(AutopilotStopped);
      }
      return NextIteration(None);
    }

    method HandleRecoveryFailure(it: Iteration, p: Plan) returns (signal: Signal)
      requires Configured(config)
      modifies this`trace, this`retryCounts
      ensures Leaves(AfterRecoveryFailure(config, old(Value()), it, p), Value(), signal)
    {
      hide CountFailure, CountOf;
      if it.evidence.Threw? {
        return Propagate(it.evidence.exception);
      }
      var attempts := Count(p.feature, Deterministic);
      if it.nextPlan.Threw? {
        return Propagate(it.nextPlan.exception);
      }
      var next := it.nextPlan.value;
      var sameEvidence := false;
      if next.action == p.action {
        if it.nextEvidence.Threw? {
          return Propagate(it.nextEvidence.exception);
        }
        sameEvidence := it.nextEvidence.value == it.evidence.value;
      }
      if sameEvidence {
        return Break(AutopilotStopped);
      }
      if attempts > config.budgets[Deterministic] {
        Emit(FeatureBlocked, p.feature);
        return Break(AutopilotStopped);
      }
      return NextIteration(Some(next));
    }

    method HandleFailure(it: Iteration, p: Plan, result: RouteResult) returns (signal: Signal)
      requires Configured(config)
      modifies this`trace, this`retryCounts, this`failureSignatures
      ensures Leaves(AfterFailure(config, old(Value()), it, p, result), Value(), signal)
    {
      hide CountFailure, CountOf, AtEnd, RetryBudgetKey, Effective;
      var signature := Signature(p.action, p.feature, p.state, result.outcome, result.classification, result.reason);
      var seen := SeenOf(Value(), signature) + 1;
      failureSignatures := failureSignatures[signature := seen];
      var key := RetryBudgetKey(p.action, Effective(result));
      label L:
      var attempts := Count(p.feature, key);
      assert Value().signatures == old@L(Value()).signatures
        by { CountKeepsSignatures(old@L(Value()), p.feature, key); }
      EveryKey(key);
      var exhausted := attempts > config.budgets[key];
      if result.outcome == RepairExhausted {
        exhausted := true;
      }
      var repeated := seen > config.maxIdentical;
      if exhausted || repeated {
        Emit(FeatureBlocked, p.feature);
        if it.nextPlan.Threw? {
          return Propagate(it.nextPlan.exception);
        }
        var next := it.nextPlan.value;
        if next.feature.Some? && next.feature != p.feature && next.action == FeatureCycle {
          return NextIteration(None);
        }
        return Break(AutopilotStopped);
      }
      signal := CheckStopAtEnd(it, p);
    }

    /** From the route result to the end of the loop body. */
    method HandleResult(it: Iteration, p: Plan, result: RouteResult) returns (signal: Signal)
      requires Configured(config)
      modifies this`trace, this`retryCounts, this`failureSignatures
      ensures Leaves(AfterResult(config, old(Value()), it, p, result), Value(), signal)
    {
      hide AfterFailure, AfterRecoveryFailure, AtEnd;
      var outcome := Effective(result);
      if IsGate(result) {
        if it.nextPlan.Threw? {
          return Propagate(it.nextPlan.exception);
        }
        if RecoversGate(it.nextPlan.value) {
          return NextIteration(None);
        }
        return Break(AutopilotStopped);
      }
      if outcome.CompletionOutcome? {
        return Break(AutopilotCompleted);
      }
      if Failed(outcome) {
        if IsRecovery(p.action) && p.action in DETERMINISTIC_RECOVERY_ROUTES && outcome == DeterministicRecoveryFailed {
          signal := HandleRecoveryFailure(it, p);
        } else {
          signal := HandleFailure(it, p, result);
        }
        return;
      }
      signal := CheckStopAtEnd(it, p);
    }

    /** Invokes the route of an admitted plan, with the events before and after it. */
    method RouteAndReport(it: Iteration, p: Plan) returns (signal: Signal)
      requires Configured(config) && it.consistency.Got?
      modifies this`trace, this`retryCounts, this`failureSignatures
      ensures Leaves(Route(config, old(Value()), it, p), Value(), signal)
    {
      hide AfterResult, IsRecovery, HasRoute, RecoveryFailed;
      Announce(p);
      if !HasRoute(p.action) || it.routed.Raised? || (it.routed.RecoveryError? && !IsRecovery(p.action)) {
        trace := trace + [Invoked(p, it.consistency.value, None)];
        return Propagate(if HasRoute(p.action) && it.routed.Raised? then it.routed.exception else OtherException);
      }
      var result := if it.routed.RecoveryError? then RecoveryErrorResult(it.routed.reason) else it.routed.result;
      trace := trace + [Invoked(p, it.consistency.value, Some(result))];
      Report(p, result);
      signal := HandleResult(it, p, result);
    }

    method Announce(p: Plan)
      modifies this`trace
      ensures Value() == Add(old(Value()), Announcements(p))
    {
      if p.feature.Some? {
        Emit(FeatureSelected, p.feature);
      }
      if IsRecovery(p.action) {
        Emit(RecoveryStarted, p.feature);
        if p.action == RetainedFeatureRepair {
          Emit(FeatureRepairStarted, p.feature);
          Emit(FeatureRepairValidationStarted, p.feature);
        }
      }
    }

    method Report(p: Plan, result: RouteResult)
      modifies this`trace
      ensures Value() == Add(old(Value()), Reports(p, result))
    {
      hide RecoveryReports, OutcomeReports;
      ReportRecovery(p, result);
      ReportOutcome(p, result);
    }

    method ReportRecovery(p: Plan, result: RouteResult)
      modifies this`trace
      ensures Value() == Add(old(Value()), RecoveryReports(p, result))
    {
      hide IsRecovery, RecoveryFailed;
      RetainedRepairsAreRecoveries(p.action);
      if result.retained && result.humanGate {
        Emit(FeatureResultRetained, p.feature);
      }
      if IsRecovery(p.action) && !RecoveryFailed(result) {
        Emit(RecoveryApplied, p.feature);
        if p.action in {RetainedFeatureRepair, RetainedFeatureRepairRecovery} && result.accepted {
          Emit(FeatureAccepted, p.feature);
        }
      }
    }

    method ReportOutcome(p: Plan, result: RouteResult)
      modifies this`trace
      ensures Value() == Add(old(Value()), OutcomeReports(p, result))
    {
      if Effective(result).Accepted? {
        Emit(FeatureAccepted, p.feature);
      }
      if Effective(result).Integrated? {
        Emit(FeatureIntegrated, p.feature);
      }
    }

    /** One pass through the body of the loop. */
    method Iterate(it: Iteration, pending: Option<Plan>) returns (signal: Signal)
      requires Configured(config)
      modifies this`trace, this`retryCounts, this`failureSignatures
      ensures Leaves(Step(config, old(Value()), it, pending), Value(), signal)
    {
      hide Route, Recognized;
      if it.stopAtStart.Threw? {
        return Propagate(it.stopAtStart.exception);
      }
      trace := trace + [Checked(it.stopAtStart.value)];
      if it.stopAtStart.value {
        trace := trace + [Emitted(StopRequested, None)];
        trace := trace + [Acknowledged];
        return Break(AutopilotStopped);
      }
      var reading := if pending.Some? then Got(pending.value) else it.plan;
      if reading.Threw? {
        return Propagate(reading.exception);
      }
      var plan := reading.value;
      if it.consistency.Threw? {
        return Propagate(it.consistency.exception);
      }
      if it.consistency.value.NeedsGate? && !Recognized(plan) {
        return Break(AutopilotFailed);
      }
      if plan.action in {HumanDecisionResolution, HumanMergeApproval} || (plan.humanGate && !Recognized(plan)) {
        return Break(AutopilotStopped);
      }
      if plan.action in {Disabled, Paused, PortfolioComplete, Completed} {
        return Break(AutopilotCompleted);
      }
      signal := RouteAndReport(it, plan);
    }

    /** The loop; a script that has run out raises. */
    method RunLoop(script: seq<Iteration>) returns (signal: Signal)
      requires Configured(config)
      modifies this`trace, this`retryCounts, this`failureSignatures
      ensures !signal.NextIteration?
      ensures Leaves(Loop(config, old(Value()), script, None), Value(), signal)
    {
      hide Step;
      signal := NextIteration(None);
      var i := 0;
      while signal.NextIteration? && i < |script|
        invariant 0 <= i <= |script|
        invariant signal.NextIteration? ==>
          Loop(config, old(Value()), script, None) == Loop(config, Value(), script[i..], signal.pending)
        invariant !signal.NextIteration? ==> Leaves(Loop(config, old(Value()), script, None), Value(), signal)
        decreases |script| - i
      {
        assert script[i..][0] == script[i] && script[i..][1..] == script[i + 1..];
        signal := Iterate(script[i], signal.pending);
        i := i + 1;
      }
      if signal.NextIteration? {
        assert script[i..] == [];
        signal := Propagate(OtherException);
      }
    }

    /** `Autopilot.apply` once ownership has been acquired. */
    method ApplyOwned(initial: Reading<Plan>, script: seq<Iteration>, stopAfterException: Reading<bool>)
      returns (terminal: EventName)
      requires Configured(config) && Value() == FRESH_RUN
      modifies this`trace, this`retryCounts, this`failureSignatures
      ensures (trace, terminal) == Apply(config, initial, script, stopAfterException)
    {
      hide Loop;
      ghost var end := End(config, initial, script);
      terminal := AutopilotFailed;
      var signal := Propagate(OtherException);
      if initial.Threw? {
        signal := Propagate(initial.exception);
      } else {
        Emit(AutopilotStarted, initial.value.feature);
        signal := RunLoop(script);
      }
      assert Leaves(end, Value(), signal);
      if signal.Break? {
        terminal := signal.terminal;
      } else if stopAfterException.Got? {
        trace := trace + [Checked(stopAfterException.value)];
        if signal.exception.StopObserved? && stopAfterException.value {
          trace := trace + [Acknowledged];
          terminal := AutopilotStopped;
          assert trace == end.run.trace + [Checked(true), Acknowledged];
        }
      }
      ghost var body := trace;
      assert (body, terminal) == Concluded(end, stopAfterException);
      Emit(terminal, None);
      trace := trace + [OwnershipReleased];
      assert trace == body + [Emitted(terminal, None), OwnershipReleased];
    }
  }

  lemma EveryKey(k: BudgetKey)
    ensures k in BUDGET_KEYS
  {
    assert k == Implementation || k == Validation || k == Deterministic || k == Planning ||
      k == IntegrationFinalization;
  }

  lemma CountKeepsSignatures(r: Run, f: Option<string>, k: BudgetKey)
    ensures CountFailure(r, f, k).signatures == r.signatures
  {
  }

  lemma RetainedRepairsAreRecoveries(a: Action)
    ensures a in {RetainedFeatureRepair, RetainedFeatureRepairRecovery} ==> IsRecovery(a)
  {
  }
}
