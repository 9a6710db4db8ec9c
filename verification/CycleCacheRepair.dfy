/**
 The repair of an application cycle cache that a completed integration has left behind
 (src/development_conveyor/cycle_cache_repair.py, application transition).

 Repository observations are inputs; the evidence about the preceding acceptance, the integration
 plan file and the queue is read through two functions of `Rules`.
 */
module CycleCacheRepair {
  import opened Prelude
  import L = Ledger
  import opened CycleCache
  import opened CacheConsistency

  datatype Repository = Repository(
    clean: bool, gitIdle: bool, writerLease: bool, reservation: Option<string>,
    cacheTracked: bool, cacheIgnored: bool, branch: string, head: string)

  /** `handover` holds when the cache belongs to the acceptance right before the integration. */
  datatype Rules = Rules(
    env: Env,
    supported: set<Field>,
    milestoneBranch: string,
    handover: (seq<L.Event>, Document, string, string) -> bool,
    updates: (seq<L.Event>, Document) -> Option<Document>)

  datatype RepairError =
    | RepositoryNotReady | CacheUnavailable | CacheInvalid | NotCanonical | NotAfterIntegration
    | TerminalStateNotCanonical | EvidenceContradicts | UnsupportedUpdates | SchemaInvalid
    | BindingRefused(reason: Refusal) | NoTopology | EvidenceChanged | ReservationHeld | Interrupted

  datatype Outcome = AlreadyCanonical | RepairReady

  /** A plan holds the exact bytes of the stale file, so equal plans were made for equal files. */
  datatype Plan = Plan(outcome: Outcome, content: Document, layout: nat, transaction: L.TxId, replacement: Document,
    selected: Json)

  // ---------------------------------------------------------------- the transactions of a projection

  datatype Summary = Summary(id: L.TxId, workflow: Json, state: Json, classification: Json, last: int)

  function Summaries(items: seq<Json>): seq<Summary> {
    if items == [] then []
    else
      var rest := Summaries(items[1..]);
      if !items[0].Object? then rest
      else
        var d := items[0].fields;
        if Get(d, TransactionId).TransactionRef? && Get(d, LastSequence).Int? then
          [Summary(Get(d, TransactionId).id, Get(d, WorkflowType), Get(d, State), Get(d, TerminalClassification),
            Get(d, LastSequence).number)] + rest
        else rest
  }

  /** The first transaction with the largest last sequence number. */
  function Latest(s: seq<Summary>): (r: Summary)
    requires s != []
    ensures r in s && forall x :: x in s ==> x.last <= r.last
  {
    if |s| == 1 then s[0]
    else
      var rest := Latest(s[1..]);
      assert s == [s[0]] + s[1..];
      if rest.last > s[0].last then rest else s[0]
  }

  predicate IsCompletedIntegration(events: seq<L.Event>, latest: Summary) {
    && latest.workflow == Text("milestone_integration")
    && latest.state == Text("completed")
    && latest.classification == Text("INTEGRATED")
    && L.TerminalEvent(events, latest.id).Some?
    && L.TerminalEvent(events, latest.id).value.kind == L.TransactionCompleted
  }

  // ---------------------------------------------------------------- building the replacement

  function Semantics(projection: Document): Document {
    map f | f in SEMANTIC_FIELDS :: Get(projection, OwnerOf(f))
  }

  /** `build_canonical_cycle_cache`. */
  function BuildCanonical(rules: Rules, state: Document, updates: Document, projection: Document): Result<Document,
    RepairError> {
    if !(updates.Keys <= rules.supported) then Err(UnsupportedUpdates)
    else
      var kept := map f | f in state && f in rules.supported :: state[f];
      var canonical := (kept + updates + Semantics(projection)) - {KernelCacheFingerprint};
      if rules.env.conforms(canonical) then Ok(canonical) else Err(SchemaInvalid)
  }

  lemma BuiltSemantics(rules: Rules, state: Document, updates: Document, projection: Document)
    requires BuildCanonical(rules, state, updates, projection).Ok?
    ensures SemanticsAgree(BuildCanonical(rules, state, updates, projection).value, projection)
  {
  }

  /**
   The built cache takes the projection's semantics, then the updates, then the supported fields of
   the old cache, and nothing else; the old signature is gone.
   */
  lemma BuiltFields(rules: Rules, state: Document, updates: Document, projection: Document)
    requires BuildCanonical(rules, state, updates, projection).Ok?
    ensures var d := BuildCanonical(rules, state, updates, projection).value;
      && SemanticsAgree(d, projection)
      && KernelCacheFingerprint !in d
      && (forall f :: f in d ==> f in SEMANTIC_FIELDS || f in rules.supported)
      && (forall f :: f !in SEMANTIC_FIELDS && f != KernelCacheFingerprint ==>
            Get(d, f) == if f in updates then updates[f] else if f in rules.supported then Get(state, f) else Null)
  {
    BuiltSemantics(rules, state, updates, projection);
    hide SemanticsAgree;
  }

  // ---------------------------------------------------------------- inspecting

  predicate RepositoryReady(repo: Repository, run: string) {
    && repo.clean && repo.gitIdle && !repo.writerLease
    && (repo.reservation.Some? ==> repo.reservation.value == run)
  }

  predicate MatchesBinding(d: Document, projection: Document, latest: Summary, b: Binding) {
    && Get(d, KernelTransactionId) == TransactionRef(latest.id)
    && Get(d, KernelLedgerFingerprint) == LedgerDigest(b.events)
    && Get(d, KernelProjectionFingerprint) == Get(b.canonical, ProjectionFingerprint)
    && SemanticsAgree(d, projection)
  }

  /** `_inspect_application_transition`; `run` is the run whose own reservation is tolerated. */
  function Inspect(rules: Rules, events: seq<L.Event>, cache: Option<Document>, file: Option<File>, repo: Repository,
                   run: string)
    : Result<Plan, RepairError>
  {
    if !RepositoryReady(repo, run) then Err(RepositoryNotReady)
    else if file.None? then Err(CacheUnavailable)
    else if !rules.env.conforms(file.value.content) || !Signed(file.value.content) then Err(CacheInvalid)
    else if repo.cacheTracked || !repo.cacheIgnored then Err(RepositoryNotReady)
    else
      var projection := Rebuilt(rules.env, events);
      var transactions := Summaries(Items(Get(projection, Transactions)));
      if transactions == [] then Err(NoTopology)
      else
        var latest := Latest(transactions);
        var stale := Get(file.value.content, KernelLedgerSequence);
        if stale == Get(projection, LedgerSequence) then InspectCurrent(rules, events, cache, file.value, latest)
        else if !stale.Int? || !Get(projection, LedgerSequence).Int? ||
            stale.number >= Get(projection, LedgerSequence).number then Err(NoTopology)
        else InspectStale(rules, events, cache, file.value, latest, repo)
  }

  /** The cache claims the current ledger. */
  function InspectCurrent(rules: Rules, events: seq<L.Event>, cache: Option<Document>, file: File,
                          latest: Summary): Result<Plan, RepairError> {
    if !IsCompletedIntegration(events, latest) then Err(NoTopology)
    else
      match ValidatedBinding(rules.env, events, cache, latest.id, false, false).0
      case Err(e) => Err(BindingRefused(e))
      case Ok(b) =>
        if !MatchesBinding(file.content, Rebuilt(rules.env, events), latest, b) then Err(NotCanonical)
        else Ok(Plan(AlreadyCanonical, file.content, file.layout, latest.id, file.content, Null))
  }

  predicate TerminalStateCanonical(rules: Rules, projection: Document, repo: Repository) {
    && Get(projection, ActiveTransaction) == Null && Get(projection, RequiredLease) == Null &&
        Get(projection, HumanGate) == Null
    && repo.branch == rules.milestoneBranch
  }

  /** The cache is older than the ledger. */
  function InspectStale(rules: Rules, events: seq<L.Event>, cache: Option<Document>, file: File, latest: Summary,
                        repo: Repository): Result<Plan, RepairError> {
    var projection := Rebuilt(rules.env, events);
    if !IsCompletedIntegration(events, latest) then Err(NotAfterIntegration)
    else if !TerminalStateCanonical(rules, projection, repo) then Err(TerminalStateNotCanonical)
    else if !rules.handover(events, file.content, repo.branch, repo.head) then Err(EvidenceContradicts)
    else
      match Replacement(rules, events, cache, file.content, latest, repo)
      case Err(e) => Err(e)
      case Ok(d) => Ok(Plan(RepairReady, file.content, file.layout, latest.id, d, Get(projection, SelectedNextFeature)))
  }

  /** The signed document that would replace a stale cache. */
  function Replacement(rules: Rules, events: seq<L.Event>, cache: Option<Document>, state: Document, latest: Summary,
                       repo: Repository)
    : Result<Document, RepairError>
  {
    var projection := Rebuilt(rules.env, events);
    match ValidatedBinding(rules.env, events, cache, latest.id, false, false).0
    case Err(e) => Err(BindingRefused(e))
    case Ok(b) =>
      match rules.updates(events, projection)
      case None => Err(EvidenceContradicts)
      case Some(updates) =>
        match BuildCanonical(rules, state, updates, projection)
        case Err(e) => Err(e)
        case Ok(canonical) =>
          match Finalize(canonical, b, latest.id, Get(projection, SelectedNextFeature))
          case Err(e) => Err(BindingRefused(e))
          case Ok(d) => if rules.env.conforms(d) then Ok(d) else Err(SchemaInvalid)
  }

  // ---------------------------------------------------------------- convergence

  /** A replacement is bound to the current ledger and accepted by the identity checks of the write. */
  lemma ReplacementIsBound(rules: Rules, events: seq<L.Event>, cache: Option<Document>, state: Document,
                           latest: Summary, repo: Repository)
    requires Replacement(rules, events, cache, state, latest, repo).Ok?
    ensures var d := Replacement(rules, events, cache, state, latest, repo).value;
      && BoundTo(rules.env, events, d, latest.id) && rules.env.conforms(d)
      && Fresh(rules.env, events, cache)
      && FeatureRefusal(Rebuilt(rules.env, events), L.TerminalEvent(events, latest.id).value,
          Get(Rebuilt(rules.env, events), SelectedNextFeature)).None?
  {
    hide ValidatedBinding, ClaimsLedger, LoadCache, Rebuilt, BuildCanonical, BoundTo, L.TerminalEvent, FeatureRefusal,
      WithBinding, SemanticsAgree;
    BindingIsCanonical(rules.env, events, cache, latest.id);
    var b := ValidatedBinding(rules.env, events, cache, latest.id, false, false).0.value;
    var projection := Rebuilt(rules.env, events);
    var canonical := BuildCanonical(rules, state, rules.updates(events, projection).value, projection).value;
    RebuiltSigned(rules.env, events);
    FinalizedIsBound(rules.env, canonical, b, latest.id, Get(projection, SelectedNextFeature));
  }

  /** Writing the replacement of a plan prepares exactly that replacement. */
  lemma ReplacementPrepares(env: Env, events: seq<L.Event>, cache: Option<Document>, d: Document, t: L.TxId,
                            selected: Json)
    requires BoundTo(env, events, d, t) && Fresh(env, events, cache) && env.conforms(d)
    requires FeatureRefusal(Rebuilt(env, events), L.TerminalEvent(events, t).value, selected).None?
    ensures Prepare(env, events, cache, d, t, selected, true) == Ok(d)
  {
    hide ValidatedBinding, ClaimsLedger, LoadCache, Rebuilt, L.TerminalEvent, FeatureRefusal, Sign, WithBinding,
      SemanticsAgree;
    BindingIsCanonical(env, events, cache, t);
    FinalizeIdempotent(env, events, d, Binding(events, Rebuilt(env, events), false, false), t);
  }

  /** What an inspection that calls for a repair has established. */
  lemma ReadyPlan(rules: Rules, events: seq<L.Event>, cache: Option<Document>, file: Option<File>, repo: Repository,
                  run: string)
    requires var r := Inspect(rules, events, cache, file, repo, run); r.Ok? && r.value.outcome.RepairReady?
    ensures var plan := Inspect(rules, events, cache, file, repo, run).value;
      var transactions := Summaries(Items(Get(Rebuilt(rules.env, events), Transactions)));
      && file.Some? && plan.content == file.value.content && plan.layout == file.value.layout
      && transactions != [] && plan.transaction == Latest(transactions).id
      && IsCompletedIntegration(events, Latest(transactions))
      && BoundTo(rules.env, events, plan.replacement, plan.transaction) && rules.env.conforms(plan.replacement)
      && Fresh(rules.env, events, cache)
      && FeatureRefusal(Rebuilt(rules.env, events), L.TerminalEvent(events, plan.transaction).value,
          plan.selected).None?
  {
    hide Replacement, Rebuilt, Summaries, L.TerminalEvent, FeatureRefusal, BoundTo, Fresh, ValidatedBinding, Signature,
      MatchesBinding;
    var latest := Latest(Summaries(Items(Get(Rebuilt(rules.env, events), Transactions))));
    ReplacementIsBound(rules, events, cache, file.value.content, latest, repo);
  }

  /**
   After the replacement of a plan has been written, inspecting the unchanged ledger again finds the
   cache already canonical: the repair reaches a fixed point in one step.
   */
  lemma RepairConverges(rules: Rules, events: seq<L.Event>, cache: Option<Document>, file: Option<File>,
                        repo: Repository, run: string,
                        mode: nat, later: Repository, laterRun: string)
    requires var r := Inspect(rules, events, cache, file, repo, run); r.Ok? && r.value.outcome.RepairReady?
    requires RepositoryReady(later, laterRun) && !later.cacheTracked && later.cacheIgnored
    ensures var plan := Inspect(rules, events, cache, file, repo, run).value;
      Inspect(rules, events, cache, Some(File(plan.replacement, 0, mode)), later, laterRun)
        == Ok(Plan(AlreadyCanonical, plan.replacement, 0, plan.transaction, plan.replacement, Null))
  {
    var plan := Inspect(rules, events, cache, file, repo, run).value;
    ReadyPlan(rules, events, cache, file, repo, run);
    BoundIsCanonical(rules, events, cache, File(plan.replacement, 0, mode), later, laterRun);
  }

  lemma BoundIsCanonical(rules: Rules, events: seq<L.Event>, cache: Option<Document>, file: File, repo: Repository,
                         run: string)
    requires RepositoryReady(repo, run) && !repo.cacheTracked && repo.cacheIgnored
    requires Summaries(Items(Get(Rebuilt(rules.env, events), Transactions))) != []
    requires var latest := Latest(Summaries(Items(Get(Rebuilt(rules.env, events), Transactions))));
      IsCompletedIntegration(events, latest) && BoundTo(rules.env, events, file.content, latest.id)
    requires Fresh(rules.env, events, cache) && rules.env.conforms(file.content)
    ensures Inspect(rules, events, cache, Some(file), repo, run) == Ok(
        Plan(AlreadyCanonical, file.content, file.layout,
          Latest(Summaries(Items(Get(Rebuilt(rules.env, events), Transactions)))).id, file.content, Null))
  {
    hide Rebuilt, Summaries, L.TerminalEvent, ValidatedBinding, Signature, LoadCache, InspectStale,
      IsCompletedIntegration, SemanticsAgree;
    var latest := Latest(Summaries(Items(Get(Rebuilt(rules.env, events), Transactions))));
    BindingIsCanonical(rules.env, events, cache, latest.id);
    RebuiltSigned(rules.env, events);
  }

  /** A repaired cache passes the consistency check. */
  lemma RepairedCachePasses(rules: Rules, events: seq<L.Event>, cache: Option<Document>, file: Option<File>,
                            repo: Repository, run: string)
    requires var r := Inspect(rules, events, cache, file, repo, run); r.Ok? && r.value.outcome.RepairReady?
    ensures CacheVerdict(rules.env, events, cache,
      Some(Inspect(rules, events, cache, file, repo, run).value.replacement)) == Consistent
  {
    hide Inspect, BoundTo, Fresh;
    ReadyPlan(rules, events, cache, file, repo, run);
    var plan := Inspect(rules, events, cache, file, repo, run).value;
    ConsistentIffProjectionFresh(rules.env, events, cache, plan.replacement, plan.transaction);
  }

  // ---------------------------------------------------------------- applying

  /**
   Where something outside the model makes an application fail: while the files are read before the
   guarded part, in it before or after the write, or nowhere.
   */
  datatype Disturbance = BeforeGuard | BeforeWrite | AfterWrite | Nowhere

  class CycleCacheRepair {
    const rules: Rules
    const store: CacheStore
    var controllerCache: Option<File>
    var repository: Repository

    constructor (rules: Rules, store: CacheStore, controllerCache: Option<File>, repository: Repository)
      requires store.env == rules.env
      ensures this.rules == rules && this.store == store && this.controllerCache == controllerCache &&
        this.repository == repository
    {
      this.rules, this.store, this.controllerCache, this.repository := rules, store, controllerCache, repository;
    }

    function Inspection(run: string): Result<Plan, RepairError>
      reads this, store
    {
      Inspect(rules, store.ledger, store.projectionCache, store.cycleCache, repository, run)
    }

    /** The four files whose bytes are read right after the reservation was taken. */
    predicate Readable()
      reads this, store
    {
      store.cycleCache.Some? && store.projectionCache.Some? && store.ledger != [] && controllerCache.Some?
    }

    /**
     `_apply_application_transition`. It succeeds exactly when the reservation is free, the evidence
     still yields the plan, the file writer leaves the replacement intact and nothing disturbs it;
     then the file holds the replacement and is already canonical. Otherwise the file is the original.
     The reservation is released exactly when the guarded part was entered: a failure of the readings
     before it leaves the reservation behind.
     */
    method ApplyTransition(plan: Plan, run: string, disturbance: Disturbance) returns (r: Result<Plan, RepairError>)
      requires store.env == rules.env
      modifies store`cycleCache, store`projectionCache, this`repository
      ensures store.projectionCache == old(store.projectionCache)
      ensures repository ==
        if plan.outcome.RepairReady? && old(repository).reservation.None? &&
            !(old(Readable()) && !disturbance.BeforeGuard?)
        then old(repository).(reservation := Some(run)) else old(repository)
      ensures plan.outcome.AlreadyCanonical? ==> r == Ok(plan) && store.cycleCache == old(store.cycleCache)
      ensures plan.outcome.RepairReady? ==> (r.Ok? <==>
        && old(repository).reservation.None? && old(Inspection(run)) == Ok(plan) && controllerCache.Some?
        && rules.env.redact(plan.replacement) == plan.replacement && disturbance.Nowhere?)
      ensures r.Err? ==> store.cycleCache == old(store.cycleCache)
      ensures r.Ok? && plan.outcome.RepairReady? ==>
        && old(store.cycleCache).Some?
        && store.cycleCache == Some(File(plan.replacement, 0, old(store.cycleCache).value.mode))
        && r.value.outcome.AlreadyCanonical? && Inspection(run) == r
    {
      hide Inspect, Prepare, BoundTo, Fresh, FeatureRefusal, L.TerminalEvent;
      if plan.outcome.AlreadyCanonical? {
        return Ok(plan);
      }
      if repository.reservation.Some? {
        return Err(ReservationHeld);
      }
      ReservationIgnored(rules, store.ledger, store.projectionCache, store.cycleCache, repository, run);
      InspectedReadable(rules, store.ledger, store.projectionCache, store.cycleCache, repository, run);
      repository := repository.(reservation := Some(run));
      if disturbance.BeforeGuard? || !Readable() {
        return Err(Interrupted);
      }
      r := ApplyReserved(plan, run, disturbance);
      if r.Ok? {
        ReservationIgnored(rules, store.ledger, store.projectionCache, store.cycleCache,
          repository.(reservation := None), run);
      }
      repository := repository.(reservation := None);
    }

    /** The part under the reservation: on any failure the original file is put back. */
    method ApplyReserved(plan: Plan, run: string, disturbance: Disturbance) returns (r: Result<Plan, RepairError>)
      requires store.env == rules.env && plan.outcome.RepairReady? && repository.reservation == Some(run)
      requires !disturbance.BeforeGuard?
      modifies store`cycleCache, store`projectionCache
      ensures store.projectionCache == old(store.projectionCache)
      ensures r.Ok? <==>
        && old(Inspection(run)) == Ok(plan)
        && rules.env.redact(plan.replacement) == plan.replacement && disturbance.Nowhere?
      ensures r.Err? ==> store.cycleCache == old(store.cycleCache)
      ensures r.Ok? ==>
        && old(store.cycleCache).Some?
        && store.cycleCache == Some(File(plan.replacement, 0, old(store.cycleCache).value.mode))
        && r.value.outcome.AlreadyCanonical? && Inspection(run) == r
    {
      hide Inspect, Prepare, BoundTo, Fresh, FeatureRefusal, L.TerminalEvent;
      var original := store.cycleCache;
      var revalidated := Inspection(run);
      if disturbance.BeforeWrite? || revalidated != Ok(plan) {
        return Err(EvidenceChanged);
      }
      ReadyPlan(rules, store.ledger, store.projectionCache, store.cycleCache, repository, run);
      ReplacementPrepares(rules.env, store.ledger, store.projectionCache, plan.replacement, plan.transaction,
        plan.selected);
      InspectedReady(rules, store.ledger, store.projectionCache, store.cycleCache, repository, run);
      var persisted := store.WriteTerminalCycleCache(plan.replacement, plan.transaction, plan.selected, true,
        original.value.mode);
      r := Err(Interrupted);
      if !disturbance.AfterWrite? && persisted == Ok(plan.replacement) {
        RepairConverges(rules, store.ledger, store.projectionCache, original, repository, run, original.value.mode,
          repository, run);
        r := Inspection(run);
      }
      if r.Err? || !r.value.outcome.AlreadyCanonical? {
        store.cycleCache := original;
        r := Err(NotCanonical);
      }
    }
  }

  /** An inspection that calls for a repair has found the ledger, the projection cache and the cycle cache. */
  lemma InspectedReadable(rules: Rules, events: seq<L.Event>, cache: Option<Document>, file: Option<File>,
                          repo: Repository, run: string)
    ensures var r := Inspect(rules, events, cache, file, repo, run);
      r.Ok? && r.value.outcome.RepairReady? ==> file.Some? && cache.Some? && events != []
  {
    hide Inspect, Rebuilt, Summaries, FeatureRefusal, LoadCache, SemanticsAgree, Signature;
    var r := Inspect(rules, events, cache, file, repo, run);
    if r.Ok? && r.value.outcome.RepairReady? {
      ReadyPlan(rules, events, cache, file, repo, run);
    }
  }

  /** A reservation that was left behind stops every other run from inspecting. */
  lemma LeftReservationBlocks(rules: Rules, events: seq<L.Event>, cache: Option<Document>, file: Option<File>,
                              repo: Repository, run: string, other: string)
    requires other != run
    ensures Inspect(rules, events, cache, file, repo.(reservation := Some(run)), other) == Err(RepositoryNotReady)
  {
  }

  lemma InspectedReady(rules: Rules, events: seq<L.Event>, cache: Option<Document>, file: Option<File>,
                       repo: Repository, run: string)
    requires Inspect(rules, events, cache, file, repo, run).Ok?
    ensures RepositoryReady(repo, run) && !repo.cacheTracked && repo.cacheIgnored
  {
  }

  lemma StaleIgnoresReservation(rules: Rules, events: seq<L.Event>, cache: Option<Document>, file: File,
                                latest: Summary,
                                repo: Repository, run: string)
    ensures InspectStale(rules, events, cache, file, latest, repo)
         == InspectStale(rules, events, cache, file, latest, repo.(reservation := Some(run)))
  {
    hide Rebuilt, IsCompletedIntegration, LoadCache;
  }

  /** An inspection does not depend on whether the run itself holds the reservation. */
  lemma ReservationIgnored(rules: Rules, events: seq<L.Event>, cache: Option<Document>, file: Option<File>,
                           repo: Repository, run: string)
    requires repo.reservation.None?
    ensures Inspect(rules, events, cache, file, repo, run) ==
      Inspect(rules, events, cache, file, repo.(reservation := Some(run)), run)
  {
    hide Rebuilt, Summaries, Latest, InspectCurrent, InspectStale;
    var transactions := Summaries(Items(Get(Rebuilt(rules.env, events), Transactions)));
    if file.Some? && transactions != [] {
      StaleIgnoresReservation(rules, events, cache, file.value, Latest(transactions), repo, run);
    }
  }

  // ---------------------------------------------------------------- one repair in full

  const INTEGRATION: L.TxId := L.Allocated("1")

  const INTEGRATION_EVENTS: seq<L.Event> :=
    [L.Event(1, L.TransactionCompleted, INTEGRATION, L.MilestoneIntegration, L.OtherPayload(""))]

  const INTEGRATION_SUMMARY: Document := map[
    TransactionId := TransactionRef(INTEGRATION), WorkflowType := Text("milestone_integration"),
      State := Text("completed"),
    TerminalClassification := Text("INTEGRATED"), LastSequence := Int(1)]

  function IntegratedProjection(events: seq<L.Event>): Document {
    map[SchemaVersion := Int(1), LedgerSequence := Int(|events|), LedgerFingerprint := LedgerDigest(events),
        Transactions := List([Object(INTEGRATION_SUMMARY)])]
  }

  const PLAIN_RULES: Rules := Rules(
    Env(IntegratedProjection, d => true, j => true, (d: Document) => d), {}, "main",
    (events, d, branch, head) => true, (events, d) => Some(map[]))

  const STALE_FILE: File := File(Sign(map[KernelLedgerSequence := Int(0)]), 1, 0x180)

  const QUIET_REPOSITORY: Repository := Repository(true, true, false, None, false, true, "main", "head")

  lemma IntegrationIsLatest()
    ensures var transactions := Summaries(Items(Get(Rebuilt(PLAIN_RULES.env, INTEGRATION_EVENTS), Transactions)));
      transactions != [] && Latest(transactions).id == INTEGRATION &&
        IsCompletedIntegration(INTEGRATION_EVENTS, Latest(transactions))
  {
    var items := Items(Get(Rebuilt(PLAIN_RULES.env, INTEGRATION_EVENTS), Transactions));
    assert items == [Object(INTEGRATION_SUMMARY)];
    assert Summaries(items[1..]) == [];
    assert Summaries(items) == [Summary(INTEGRATION, Text("milestone_integration"), Text("completed"),
      Text("INTEGRATED"), 1)];
  }

  lemma IntegrationIsFresh()
    ensures ClaimsLedger(PLAIN_RULES.env, INTEGRATION_EVENTS)
    ensures var projection := Rebuilt(PLAIN_RULES.env, INTEGRATION_EVENTS);
      LoadCache(INTEGRATION_EVENTS, Some(projection)) == Ok(Some(projection)) &&
        TerminalStateCanonical(PLAIN_RULES, projection, QUIET_REPOSITORY)
  {
    RebuiltSigned(PLAIN_RULES.env, INTEGRATION_EVENTS);
  }

  lemma IntegrationReplaces(latest: Summary)
    requires latest.id == INTEGRATION
    ensures var projection := Rebuilt(PLAIN_RULES.env, INTEGRATION_EVENTS);
      Replacement(PLAIN_RULES, INTEGRATION_EVENTS, Some(projection), STALE_FILE.content, latest, QUIET_REPOSITORY).Ok?
  {
    hide LoadCache, ClaimsLedger, ValidatedBinding, Sign, WithBinding, SemanticsAgree, Rebuilt, BuildCanonical;
    var projection := Rebuilt(PLAIN_RULES.env, INTEGRATION_EVENTS);
    IntegrationIsFresh();
    BindingIsCanonical(PLAIN_RULES.env, INTEGRATION_EVENTS, Some(projection), INTEGRATION);
    IntegrationBuilds();
    BuiltFields(PLAIN_RULES, STALE_FILE.content, map[], projection);
    var canonical := BuildCanonical(PLAIN_RULES, STALE_FILE.content, map[], projection).value;
    BindingKeepsSemantics(canonical, Binding(INTEGRATION_EVENTS, projection, false, false), INTEGRATION, projection);
  }

  lemma IntegrationBuilds()
    ensures var projection := Rebuilt(PLAIN_RULES.env, INTEGRATION_EVENTS);
      BuildCanonical(PLAIN_RULES, STALE_FILE.content, map[], projection).Ok? &&
        Get(projection, SelectedNextFeature) == Null
  {
  }

  /** A stale cache behind a completed integration, for which the inspection asks for a repair. */
  lemma SomeRepairIsReady()
    ensures var r := Inspect(PLAIN_RULES, INTEGRATION_EVENTS, Some(Rebuilt(PLAIN_RULES.env, INTEGRATION_EVENTS)),
      Some(STALE_FILE), QUIET_REPOSITORY, "run");
      r.Ok? && r.value.outcome.RepairReady?
  {
    hide Replacement, TerminalStateCanonical, IsCompletedIntegration, Summaries, Latest, LoadCache;
    IntegrationIsLatest();
    IntegrationIsFresh();
    IntegrationReplaces(Latest(Summaries(Items(Get(Rebuilt(PLAIN_RULES.env, INTEGRATION_EVENTS), Transactions)))));
    SignKeeps(map[KernelLedgerSequence := Int(0)]);
  }
}
