/**
 The terminal cycle cache (src/development_conveyor/cycle_cache.py): a document that is bound to the
 ledger and to the projection of that ledger, signed, written and read back.

 Fingerprints are constructors of `Json`, hence injective. The projection engine, the cycle schema
 and the redaction done by the file writer are the functions of an `Env`.
 */
module CycleCache {
  import opened Prelude
  import opened Ledger

  datatype Field =
    | KernelTransactionId | KernelLedgerSequence | KernelLedgerFingerprint | KernelProjectionFingerprint
    | KernelCacheFingerprint | CacheBindingRecovery
    | CurrentPhase | CurrentFeature | SelectedFeature | AcceptedFeatureCommit | IntegrationStatus | NextSafeAction
    | SchemaVersion | LedgerSequence | LedgerFingerprint | ProjectionFingerprint
    | CurrentState | SelectedNextFeature | AllowedNextAction
    | Transactions | TransactionId | FeatureId | WorkflowType | State | TerminalClassification | LastSequence
    | ActiveTransaction | RequiredLease | HumanGate
    | Named(name: string)

  type Document = map<Field, Json>

  datatype Json =
    | Null
    | Bool(bit: bool)
    | Int(number: int)
    | Text(text: string)
    | List(items: seq<Json>)
    | Object(fields: map<Field, Json>)
    | TransactionRef(id: TxId)
    | LedgerDigest(events: seq<Event>)
    | Digest(document: map<Field, Json>)

  const KERNEL_KEYS: set<Field> :=
    {KernelTransactionId, KernelLedgerSequence, KernelLedgerFingerprint, KernelProjectionFingerprint,
      KernelCacheFingerprint}

  /** `document.get(field)`. */
  function Get(d: Document, f: Field): Json {
    if f in d then d[f] else Null
  }

  function OfOption(o: Option<string>): Json {
    match o case None => Null case Some(s) => Text(s)
  }

  predicate Falsy(j: Json) {
    j in {Null, Bool(false), Int(0), Text(""), List([]), Object(map[])}
  }

  /** The Python expression `a or b`. */
  function Or(a: Json, b: Json): Json {
    if Falsy(a) then b else a
  }

  /** What surrounds the cache: projection rules, schemas, and the redaction of written files. */
  datatype Env = Env(
    project: seq<Event> -> Document,
    conforms: Document -> bool,
    legacyConforms: Json -> bool,
    redact: Document -> Document)

  /** Redaction rewrites free text only: it keeps the keys and every binding value. */
  ghost predicate KeepsBindings(env: Env) {
    forall d: Document ::
      && env.redact(d).Keys == d.Keys
      && forall f :: f in d && (f in KERNEL_KEYS || f == ProjectionFingerprint) ==> env.redact(d)[f] == d[f]
  }

  // ---------------------------------------------------------------- the projection and its cache

  function ProjectionDigest(d: Document): Json {
    Digest(d - {ProjectionFingerprint})
  }

  function Rebuilt(env: Env, events: seq<Event>): Document {
    env.project(events)[ProjectionFingerprint := ProjectionDigest(env.project(events))]
  }

  datatype LoadError = StaleCache | InvalidCache

  function LoadCache(events: seq<Event>, cache: Option<Document>): Result<Option<Document>, LoadError> {
    match cache
    case None => Ok(None)
    case Some(d) =>
      if Get(d, SchemaVersion) != Int(1) then Err(InvalidCache)
      else if Get(d, ProjectionFingerprint) != ProjectionDigest(d) then Err(InvalidCache)
      else
        match Get(d, LedgerSequence)
        case Int(n) =>
          if n > |events| then Err(InvalidCache)
          else if n < |events| then Err(StaleCache)
          else if Get(d, LedgerFingerprint) != LedgerDigest(events) then Err(InvalidCache)
          else Ok(Some(d))
        case _ => Err(InvalidCache)
  }

  // ---------------------------------------------------------------- the validated binding

  datatype Refusal =
    | AmbiguousPolicy | CanonicalDisagrees | PersistedInvalid | PersistedMissingOrStale | PersistedDiffers
    | UnknownOrNonterminal | ActiveFeatureDisagrees | SelectionContradicts | SelectedFeatureDisagrees
    | SemanticDisagreement | SchemaViolation | WrittenDiffers | BindingChanged

  datatype Binding = Binding(events: seq<Event>, canonical: Document, rebuildRequired: bool, rebuilt: bool)

  /** The projection claims the ledger it was computed from. */
  predicate ClaimsLedger(env: Env, events: seq<Event>) {
    && Get(Rebuilt(env, events), LedgerSequence) == Int(|events|)
    && Get(Rebuilt(env, events), LedgerFingerprint) == LedgerDigest(events)
  }

  predicate PersistedAgrees(env: Env, events: seq<Event>, persisted: Option<Document>) {
    persisted.Some? ==> persisted.value == Rebuilt(env, events)
  }

  function Bound(env: Env, events: seq<Event>, persisted: Option<Document>, t: TxId, required: bool, rebuilt: bool)
    : Result<Binding, Refusal>
  {
    if !PersistedAgrees(env, events, persisted) then Err(PersistedDiffers)
    else if TerminalEvent(events, t).None? then Err(UnknownOrNonterminal)
    else Ok(Binding(events, Rebuilt(env, events), required, rebuilt))
  }

  /**
   `validated_canonical_projection_binding`: the outcome, and the persisted projection afterwards.
   Planning reports a missing or stale projection cache, repairing rewrites it, the default refuses it.
   */
  function ValidatedBinding(env: Env, events: seq<Event>, cache: Option<Document>, t: TxId, plan: bool, repair: bool)
    : (Result<Binding, Refusal>, Option<Document>)
  {
    if plan && repair then (Err(AmbiguousPolicy), cache)
    else if !ClaimsLedger(env, events) then (Err(CanonicalDisagrees), cache)
    else
      match LoadCache(events, cache)
      case Err(InvalidCache) => (Err(PersistedInvalid), cache)
      case Ok(Some(d)) => (Bound(env, events, Some(d), t, false, false), cache)
      case _ =>
        if repair then
          var written := Some(env.redact(Rebuilt(env, events)));
          match LoadCache(events, written)
          case Err(_) => (Err(PersistedInvalid), written)
          case Ok(d) => (Bound(env, events, d, t, false, true), written)
        else if plan then (Bound(env, events, None, t, true, false), cache)
        else (Err(PersistedMissingOrStale), cache)
  }

  // ---------------------------------------------------------------- finalising a cache

  function PayloadFeature(p: Payload): Json {
    match p
    case CompletionPayload(feature, _, _, _, _, _, _, _, _, _) => OfOption(feature)
    case OutcomePayload(feature, _, _) => OfOption(feature)
    case _ => Null
  }

  function PayloadSelection(p: Payload): Json {
    match p
    case CompletionPayload(_, selected, _, _, _, _, _, _, _, _) => OfOption(selected)
    case OutcomePayload(_, selected, _) => OfOption(selected)
    case _ => Null
  }

  /** The feature of a transaction in the projection's transaction list. */
  function TransactionFeature(items: seq<Json>, t: TxId): Json {
    if items == [] then Null
    else if items[0].Object? && Get(items[0].fields, TransactionId) == TransactionRef(t)
        then Get(items[0].fields, FeatureId)
    else TransactionFeature(items[1..], t)
  }

  function Items(j: Json): seq<Json> {
    if j.List? then j.items else []
  }

  predicate FeaturePhase(workflow: Workflow) {
    workflow in {FeaturePreparation, FeatureExecution, FeatureAcceptance}
  }

  /** The identity checks against the feature that the caller expects. */
  function FeatureRefusal(canonical: Document, terminal: Event, wanted: Json): Option<Refusal> {
    if wanted == Null then None
    else
      var feature, selection := PayloadFeature(terminal.payload), PayloadSelection(terminal.payload);
      var projected, projectedSelection := Get(canonical, CurrentFeature), Get(canonical, SelectedNextFeature);
      if FeaturePhase(terminal.workflow) then
        if TransactionFeature(Items(Get(canonical, Transactions)), terminal.transaction) != wanted ||
            projected != wanted
           || feature !in {Null, wanted} then Some(ActiveFeatureDisagrees)
        else if selection !in {Null, wanted} || projectedSelection !in {Null, wanted} then Some(SelectionContradicts)
        else None
      else if Or(selection, feature) != wanted || Or(projectedSelection, projected) != wanted
          then Some(SelectedFeatureDisagrees)
      else None
  }

  const SEMANTIC_FIELDS: set<Field> :=
    {CurrentPhase, CurrentFeature, SelectedFeature, AcceptedFeatureCommit, IntegrationStatus, NextSafeAction}

  /** The projection field that owns an active cache field. */
  function OwnerOf(f: Field): Field {
    match f
    case CurrentPhase => CurrentState
    case SelectedFeature => SelectedNextFeature
    case NextSafeAction => AllowedNextAction
    case other => other
  }

  predicate SemanticsAgree(state: Document, projection: Document) {
    forall f :: f in SEMANTIC_FIELDS ==> Get(state, f) == Get(projection, OwnerOf(f))
  }

  function WithBinding(state: Document, b: Binding, t: TxId): Document {
    (state - {CacheBindingRecovery})[KernelTransactionId := TransactionRef(t)][KernelLedgerSequence := Int(|b.events|)]
      [KernelLedgerFingerprint := LedgerDigest(b.events)][KernelProjectionFingerprint := Get(b.canonical,
        ProjectionFingerprint)]
  }

  function Signature(d: Document): Json {
    Digest(d - {KernelCacheFingerprint})
  }

  function Sign(d: Document): Document {
    d[KernelCacheFingerprint := Signature(d)]
  }

  predicate Signed(d: Document) {
    Get(d, KernelCacheFingerprint) == Signature(d)
  }

  /** `_bind_terminal_cycle_cache`. */
  function Finalize(state: Document, b: Binding, t: TxId, expected: Json): Result<Document, Refusal>
    requires TerminalEvent(b.events, t).Some?
  {
    var refusal := FeatureRefusal(b.canonical, TerminalEvent(b.events, t).value, expected);
    if refusal.Some? then Err(refusal.value)
    else if !SemanticsAgree(WithBinding(state, b, t), b.canonical) then Err(SemanticDisagreement)
    else Ok(Sign(WithBinding(state, b, t)))
  }

  /** The part of a write before the file is replaced. */
  function Prepare(env: Env, events: seq<Event>, cache: Option<Document>, state: Document, t: TxId, expected: Json,
                   schema: bool)
    : Result<Document, Refusal>
  {
    match ValidatedBinding(env, events, cache, t, false, false).0
    case Err(e) => Err(e)
    case Ok(b) =>
      match Finalize(state, b, t, expected)
      case Err(e) => Err(e)
      case Ok(d) => if schema && !env.conforms(d) then Err(SchemaViolation) else Ok(d)
  }

  // ---------------------------------------------------------------- what a finalised cache is

  /** A signed document that is bound to a terminal transaction of exactly these events. */
  ghost predicate BoundTo(env: Env, events: seq<Event>, d: Document, t: TxId) {
    && ClaimsLedger(env, events) && TerminalEvent(events, t).Some?
    && KERNEL_KEYS <= d.Keys && CacheBindingRecovery !in d
    && d[KernelTransactionId] == TransactionRef(t)
    && d[KernelLedgerSequence] == Int(|events|)
    && d[KernelLedgerFingerprint] == LedgerDigest(events)
    && d[KernelProjectionFingerprint] == Rebuilt(env, events)[ProjectionFingerprint]
    && SemanticsAgree(d, Rebuilt(env, events))
    && Signed(d)
  }

  lemma SignKeeps(d: Document)
    ensures Signed(Sign(d))
    ensures forall f :: f != KernelCacheFingerprint ==> Get(Sign(d), f) == Get(d, f) && (f in Sign(d) <==> f in d)
  {
    assert Sign(d) - {KernelCacheFingerprint} == d - {KernelCacheFingerprint};
  }

  /** The default policy only binds to a persisted projection that is the canonical one. */
  lemma BindingIsCanonical(env: Env, events: seq<Event>, cache: Option<Document>, t: TxId)
    ensures var r := ValidatedBinding(env, events, cache, t, false, false).0;
      r.Ok? <==>
        && ClaimsLedger(env, events) && TerminalEvent(events, t).Some?
        && cache == Some(Rebuilt(env, events)) && LoadCache(events, cache) == Ok(cache)
    ensures var r := ValidatedBinding(env, events, cache, t, false, false).0;
      r.Ok? ==> r.value == Binding(events, Rebuilt(env, events), false, false)
  {
    hide TerminalEvent, Rebuilt, LoadCache, ClaimsLedger;
    LoadReturnsCache(events, cache);
  }

  /** A prepared document is bound to the current ledger, and the persisted projection is the canonical one. */
  lemma PreparedIsBound(env: Env, events: seq<Event>, cache: Option<Document>, state: Document, t: TxId,
                        expected: Json, schema: bool)
    requires Prepare(env, events, cache, state, t, expected, schema).Ok?
    ensures BoundTo(env, events, Prepare(env, events, cache, state, t, expected, schema).value, t)
    ensures cache == Some(Rebuilt(env, events)) && LoadCache(events, cache) == Ok(cache)
    ensures schema ==> env.conforms(Prepare(env, events, cache, state, t, expected, schema).value)
  {
    hide FeatureRefusal, TerminalEvent, Rebuilt, Signature, LoadCache, ValidatedBinding, ClaimsLedger, SemanticsAgree,
      Sign;
    BindingIsCanonical(env, events, cache, t);
    var b := ValidatedBinding(env, events, cache, t, false, false).0.value;
    RebuiltSigned(env, events);
    FinalizedIsBound(env, state, b, t, expected);
  }

  lemma SignKeepsSemantics(d: Document, projection: Document)
    ensures SemanticsAgree(Sign(d), projection) <==> SemanticsAgree(d, projection)
  {
    hide Sign, Signed;
    SignKeeps(d);
  }

  lemma BindingKeepsSemantics(state: Document, b: Binding, t: TxId, projection: Document)
    ensures SemanticsAgree(WithBinding(state, b, t), projection) <==> SemanticsAgree(state, projection)
  {
    assert forall f :: f in SEMANTIC_FIELDS ==> Get(WithBinding(state, b, t), f) == Get(state, f);
  }

  lemma BindingFields(state: Document, b: Binding, t: TxId)
    ensures var d := WithBinding(state, b, t);
      && KERNEL_KEYS - {KernelCacheFingerprint} <= d.Keys && CacheBindingRecovery !in d
      && d[KernelTransactionId] == TransactionRef(t) && d[KernelLedgerSequence] == Int(|b.events|)
      && d[KernelLedgerFingerprint] == LedgerDigest(b.events)
      && d[KernelProjectionFingerprint] == Get(b.canonical, ProjectionFingerprint)
  {
  }

  lemma FinalizedIsBound(env: Env, state: Document, b: Binding, t: TxId, expected: Json)
    requires TerminalEvent(b.events, t).Some? && ClaimsLedger(env, b.events)
    requires b.canonical == Rebuilt(env, b.events) && ProjectionFingerprint in b.canonical
    requires Finalize(state, b, t, expected).Ok?
    ensures BoundTo(env, b.events, Finalize(state, b, t, expected).value, t)
  {
    hide FeatureRefusal, TerminalEvent, Rebuilt, Sign, Signed, ClaimsLedger, SemanticsAgree, WithBinding;
    var d := WithBinding(state, b, t);
    BindingFields(state, b, t);
    SignKeepsSemantics(d, b.canonical);
    SignedFields(d);
  }

  /** Signing keeps the other binding fields and adds the fingerprint. */
  lemma SignedFields(d: Document)
    requires KERNEL_KEYS - {KernelCacheFingerprint} <= d.Keys && CacheBindingRecovery !in d
    ensures KERNEL_KEYS <= Sign(d).Keys && CacheBindingRecovery !in Sign(d) && Signed(Sign(d))
    ensures Sign(d)[KernelTransactionId] == d[KernelTransactionId] &&
      Sign(d)[KernelLedgerSequence] == d[KernelLedgerSequence]
    ensures Sign(d)[KernelLedgerFingerprint] == d[KernelLedgerFingerprint]
    ensures Sign(d)[KernelProjectionFingerprint] == d[KernelProjectionFingerprint]
  {
    SignKeeps(d);
  }

  lemma LoadReturnsCache(events: seq<Event>, cache: Option<Document>)
    ensures LoadCache(events, cache).Ok? ==> LoadCache(events, cache) == Ok(cache)
  {
  }

  lemma RebuiltSigned(env: Env, events: seq<Event>)
    ensures ProjectionFingerprint in Rebuilt(env, events)
    ensures Rebuilt(env, events)[ProjectionFingerprint] == ProjectionDigest(Rebuilt(env, events))
  {
    assert Rebuilt(env, events) - {ProjectionFingerprint} == env.project(events) - {ProjectionFingerprint};
  }

  /** Finalising a bound document again changes nothing. */
  lemma FinalizeIdempotent(env: Env, events: seq<Event>, d: Document, b: Binding, t: TxId)
    requires BoundTo(env, events, d, t) && b.events == events && b.canonical == Rebuilt(env, events)
    ensures Sign(WithBinding(d, b, t)) == d && SemanticsAgree(WithBinding(d, b, t), b.canonical)
  {
    assert WithBinding(d, b, t) == d;
    assert Sign(d) == d;
  }

  /**
   A cache finalised for an expected feature names that feature as its selected or else its current
   one, and its terminal event names no other: for every kind of workflow.
   */
  lemma FinalizedNamesExpectedFeature(state: Document, b: Binding, t: TxId, expected: Json)
    requires TerminalEvent(b.events, t).Some? && expected != Null
    requires Finalize(state, b, t, expected).Ok?
    ensures var d := Finalize(state, b, t, expected).value;
      Or(Get(d, SelectedFeature), Get(d, CurrentFeature)) == expected
    ensures var payload := TerminalEvent(b.events, t).value.payload;
      var named := Or(PayloadSelection(payload), PayloadFeature(payload));
      !Falsy(named) ==> named == expected
  {
    hide TerminalEvent, Sign, WithBinding, TransactionFeature, SemanticsAgree;
    var d := WithBinding(state, b, t);
    SignKeepsSemantics(d, b.canonical);
    FeaturesOfSemantics(Sign(d), b.canonical);
  }

  lemma FeaturesOfSemantics(d: Document, projection: Document)
    requires SemanticsAgree(d, projection)
    ensures Get(d, SelectedFeature) == Get(projection, SelectedNextFeature)
    ensures Get(d, CurrentFeature) == Get(projection, CurrentFeature)
  {
    assert SelectedFeature in SEMANTIC_FIELDS && CurrentFeature in SEMANTIC_FIELDS;
  }

  // ---------------------------------------------------------------- the store

  /** A cache file: its content, the layout of its bytes and its mode. Written files have layout 0. */
  datatype File = File(content: Document, layout: nat, mode: nat)

  class CacheStore {
    const env: Env
    var ledger: seq<Event>
    var projectionCache: Option<Document>
    var cycleCache: Option<File>

    constructor (env: Env)
      ensures this.env == env && ledger == [] && projectionCache == None && cycleCache == None
    {
      this.env := env;
      ledger, projectionCache, cycleCache := [], None, None;
    }

    method Rebuild(persist: bool) returns (projection: Document)
      modifies this`projectionCache
      ensures projection == Rebuilt(env, ledger)
      ensures projectionCache == if persist then Some(env.redact(projection)) else old(projectionCache)
    {
      projection := env.project(ledger);
      projection := projection[ProjectionFingerprint := ProjectionDigest(projection)];
      if persist {
        projectionCache := Some(env.redact(projection));
      }
    }

    method ValidateBinding(t: TxId, plan: bool, repair: bool) returns (r: Result<Binding, Refusal>)
      modifies this`projectionCache
      ensures (r, projectionCache) == ValidatedBinding(env, ledger, old(projectionCache), t, plan, repair)
      ensures !repair ==> projectionCache == old(projectionCache)
    {
      hide TerminalEvent, ProjectionDigest;
      if plan && repair {
        return Err(AmbiguousPolicy);
      }
      var canonical := Rebuild(false);
      if Get(canonical, LedgerSequence) != Int(|ledger|) || Get(canonical, LedgerFingerprint) != LedgerDigest(ledger) {
        return Err(CanonicalDisagrees);
      }
      var rebuildRequired := false;
      var loaded := LoadCache(ledger, projectionCache);
      if loaded == Err(InvalidCache) {
        return Err(PersistedInvalid);
      }
      var persisted := if loaded.Ok? then loaded.value else None;
      if persisted.None? {
        rebuildRequired := true;
      }
      var cacheRebuilt := false;
      if rebuildRequired {
        if repair {
          canonical := Rebuild(true);
          loaded := LoadCache(ledger, projectionCache);
          if loaded.Err? {
            return Err(PersistedInvalid);
          }
          persisted := loaded.value;
          cacheRebuilt := true;
          rebuildRequired := false;
        } else if !plan {
          return Err(PersistedMissingOrStale);
        }
      }
      if persisted.Some? && persisted.value != canonical {
        return Err(PersistedDiffers);
      }
      if TerminalEvent(ledger, t).None? {
        return Err(UnknownOrNonterminal);
      }
      return Ok(Binding(ledger, canonical, rebuildRequired, cacheRebuilt));
    }

    /**
     Writes the finalised document and reads it back. The file is replaced exactly when the document
     could be prepared, whatever the later checks say.
     */
    method WriteTerminalCycleCache(state: Document, t: TxId, expected: Json, schema: bool, mode: nat)
      returns (r: Result<Document, Refusal>)
      modifies this`cycleCache, this`projectionCache
      ensures projectionCache == old(projectionCache)
      ensures match Prepare(env, ledger, projectionCache, state, t, expected, schema)
        case Err(e) => r == Err(e) && cycleCache == old(cycleCache)
        case Ok(d) =>
          && cycleCache == Some(File(env.redact(d), 0, mode))
          && r == if env.redact(d) == d then Ok(d) else Err(WrittenDiffers)
    {
      hide TerminalEvent, Signature, Finalize, LoadCache, Rebuilt, SemanticsAgree, ClaimsLedger, ValidatedBinding;
      BindingIsCanonical(env, ledger, projectionCache, t);
      var binding := ValidateBinding(t, false, false);
      if binding.Err? {
        return Err(binding.error);
      }
      var finalized := Finalize(state, binding.value, t, expected);
      if finalized.Err? {
        return finalized;
      }
      if schema && !env.conforms(finalized.value) {
        return Err(SchemaViolation);
      }
      cycleCache := Some(File(env.redact(finalized.value), 0, mode));
      PreparedIsBound(env, ledger, projectionCache, state, t, expected, schema);

      var persisted := cycleCache.value.content;
      if persisted != finalized.value {
        return Err(WrittenDiffers);
      }
      if schema && !env.conforms(persisted) {
        return Err(SchemaViolation);
      }
      if !Signed(persisted) {
        return Err(WrittenDiffers);
      }
      var after := ValidateBinding(t, false, false);
      if after != binding {
        return Err(BindingChanged);
      }
      if !SemanticsAgree(persisted, after.value.canonical) {
        return Err(SemanticDisagreement);
      }
      return Ok(persisted);
    }
  }
}
