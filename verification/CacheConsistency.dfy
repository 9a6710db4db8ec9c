/**
 The cycle-cache check of src/development_conveyor/consistency.py, and what it reports over every
 interleaving of ledger appends, projection rebuilds and cycle-cache writers, and after tampering.
 */
module CacheConsistency {
  import opened Prelude
  import opened Ledger
  import opened CycleCache

  datatype Verdict = Consistent | Recoverable | Corrupt

  /** The classification of the persisted cycle cache `file` against the ledger and its projection cache. */
  function CacheVerdict(env: Env, events: seq<Event>, cache: Option<Document>, file: Option<Document>): Verdict {
    match file
    case None => Recoverable
    case Some(d) =>
      var normalized := d - {CacheBindingRecovery};
      var present := KERNEL_KEYS * normalized.Keys;
      if CacheBindingRecovery in d && !env.legacyConforms(d[CacheBindingRecovery]) then Corrupt
      else if !env.conforms(normalized) then Corrupt
      else if present != {} && present != KERNEL_KEYS then Corrupt
      else if present == {} then Consistent
      else if !Signed(d) then Corrupt
      else BindingVerdict(env, events, cache, d)
  }

  /** The verdict on a signed document with a complete binding. */
  function BindingVerdict(env: Env, events: seq<Event>, cache: Option<Document>, d: Document): Verdict {
    match (Get(d, KernelLedgerSequence), Get(d, KernelTransactionId))
    case (Int(n), claimed) =>
      if n > |events| then Corrupt
      else if n < |events| then Recoverable
      else if Get(d, KernelLedgerFingerprint) != LedgerDigest(events) then Corrupt
      else if !claimed.TransactionRef? then Corrupt
      else
        (match ValidatedBinding(env, events, cache, claimed.id, false, false).0
         case Err(_) => Corrupt
         case Ok(b) =>
           if Get(d, KernelProjectionFingerprint) != Get(b.canonical, ProjectionFingerprint) then Corrupt
           else if !SemanticsAgree(d, b.canonical) then Recoverable
           else if TerminalEvent(events, claimed.id).None? then Corrupt
           else if CacheBindingRecovery in d then Recoverable
           else Consistent)
    case _ => Corrupt
  }

  /** The check as the flags of the source compute it. */
  method CheckCycleCacheBinding(store: CacheStore) returns (passed: bool, classification: Verdict)
    modifies store`projectionCache
    ensures store.projectionCache == old(store.projectionCache)
    ensures var file := if store.cycleCache.Some? then Some(store.cycleCache.value.content) else None;
      var v := CacheVerdict(store.env, store.ledger, store.projectionCache, file);
      passed == v.Consistent? && (!passed ==> classification == v)
  {
    hide TerminalEvent, Signature, ValidatedBinding;
    classification := Recoverable;
    if store.cycleCache.None? {
      return false, Recoverable;
    }
    var loaded := store.cycleCache.value.content;
    var cycle := loaded - {CacheBindingRecovery};
    if (CacheBindingRecovery in loaded && !store.env.legacyConforms(loaded[CacheBindingRecovery])) ||
        !store.env.conforms(cycle) {
      return false, Corrupt;
    }
    var present := KERNEL_KEYS * cycle.Keys;
    if present == {} {
      return true, Recoverable;
    }
    if present != KERNEL_KEYS {
      return false, Corrupt;
    }
    assert forall f :: f in KERNEL_KEYS ==> f in present && f in cycle && cycle[f] == loaded[f];
    var failed := false;
    if !Signed(loaded) {
      failed, classification := true, Corrupt;
    } else if !cycle[KernelLedgerSequence].Int? {
      return false, Corrupt;
    } else if cycle[KernelLedgerSequence].number > |store.ledger| {
      failed, classification := true, Corrupt;
    } else if cycle[KernelLedgerSequence].number < |store.ledger| {
      failed := true;
    } else if cycle[KernelLedgerFingerprint] != LedgerDigest(store.ledger) {
      failed, classification := true, Corrupt;
    }
    if !failed {
      if !cycle[KernelTransactionId].TransactionRef? {
        return false, Corrupt;
      }
      var claimed := cycle[KernelTransactionId].id;
      var binding := store.ValidateBinding(claimed, false, false);
      if binding.Err? {
        return false, Corrupt;
      }
      var canonical := binding.value.canonical;
      if cycle[KernelProjectionFingerprint] != Get(canonical, ProjectionFingerprint) {
        failed, classification := true, Corrupt;
      }
      assert SemanticsAgree(cycle, canonical) <==> SemanticsAgree(loaded, canonical);
      if !failed && !SemanticsAgree(cycle, canonical) {
        failed, classification := true, Recoverable;
      }
      if !failed && TerminalEvent(store.ledger, claimed).None? {
        failed, classification := true, Corrupt;
      }
      if !failed && CacheBindingRecovery in loaded {
        failed := true;
      }
    }
    return !failed, classification;
  }

  // ---------------------------------------------------------------- a bound document

  /** The persisted projection is the canonical one. */
  ghost predicate Fresh(env: Env, events: seq<Event>, cache: Option<Document>) {
    cache == Some(Rebuilt(env, events)) && LoadCache(events, cache) == Ok(cache)
  }

  /** The file holds what was finalised, and the schema accepts it. */
  ghost predicate Faithful(env: Env, d: Document) {
    env.redact(d) == d && env.conforms(d)
  }

  /** Signed documents with the same fingerprint are equal. */
  lemma FingerprintDetermines(a: Document, b: Document)
    requires KernelCacheFingerprint in a && KernelCacheFingerprint in b &&
      a[KernelCacheFingerprint] == b[KernelCacheFingerprint]
    requires Signed(a) && Signed(b)
    ensures a == b
  {
    assert a - {KernelCacheFingerprint} == b - {KernelCacheFingerprint};
    forall f | f in a || f in b ensures f in a && f in b && a[f] == b[f] {
      if f != KernelCacheFingerprint {
        assert f in a <==> f in a - {KernelCacheFingerprint};
        assert f in b <==> f in b - {KernelCacheFingerprint};
        assert a[f] == (a - {KernelCacheFingerprint})[f] == (b - {KernelCacheFingerprint})[f];
      }
    }
  }

  lemma RedactionBreaksSignature(env: Env, d: Document)
    requires KeepsBindings(env) && KernelCacheFingerprint in d && Signed(d) && Signed(env.redact(d))
    ensures env.redact(d) == d
  {
    assert KernelCacheFingerprint in env.redact(d).Keys;
    FingerprintDetermines(env.redact(d), d);
  }

  lemma BindingVerdictOfBound(env: Env, events: seq<Event>, cache: Option<Document>, d: Document, t: TxId, at: nat)
    requires at <= |events| && BoundTo(env, events[..at], d, t)
    ensures BindingVerdict(env, events, cache, d) ==
      if at < |events| then Recoverable else if Fresh(env, events, cache) then Consistent else Corrupt
  {
    hide TerminalEvent, Rebuilt, LoadCache, ValidatedBinding, ClaimsLedger, SemanticsAgree, Signature;
    if at == |events| {
      assert events[..at] == events;
      BindingIsCanonical(env, events, cache, t);
      RebuiltSigned(env, events);
    }
  }

  /** The verdict on a file that was finalised for the first `at` events. */
  lemma VerdictOfBound(env: Env, events: seq<Event>, cache: Option<Document>, d: Document, t: TxId, at: nat)
    requires KeepsBindings(env)
    requires at <= |events| && BoundTo(env, events[..at], d, t)
    ensures CacheVerdict(env, events, cache, Some(env.redact(d))) ==
      if !Faithful(env, d) then Corrupt
      else if at < |events| then Recoverable
      else if Fresh(env, events, cache) then Consistent
      else Corrupt
  {
    hide TerminalEvent, Rebuilt, LoadCache, BindingVerdict, ClaimsLedger, SemanticsAgree, Signature, Fresh;
    var r := env.redact(d);
    assert r.Keys == d.Keys;
    assert r - {CacheBindingRecovery} == r;
    assert KERNEL_KEYS * r.Keys == KERNEL_KEYS;
    if r != d {
      if Signed(r) {
        RedactionBreaksSignature(env, d);
      }
    } else {
      BindingVerdictOfBound(env, events, cache, d, t, at);
    }
  }

  // ---------------------------------------------------------------- interleavings

  /** A document that a writer has finalised and may still write. */
  datatype Pending = Pending(content: Document, t: TxId, at: nat)

  /** A rebuild in progress: how much of the ledger it has read, and how much it has then verified. */
  datatype Reading = Reading(read: nat, verified: Option<nat>)

  datatype World = World(
    events: seq<Event>, cache: Option<Document>, stored: Option<Reading>, rebuilds: seq<Reading>,
    prepared: seq<Pending>, written: Option<Pending>)

  /**
   A rebuild reads the events, then verifies the ledger, then stores its projection; a writer finalises
   a document, then replaces the file. No lock covers these steps, so anything may happen between them.
   */
  datatype Step =
    | Append(kind: Kind, t: TxId, workflow: Workflow, payload: Payload)
    | ReadLedger
    | VerifyLedger(rebuild: nat)
    | StoreProjection(rebuild: nat)
    | PrepareCache(state: Document, target: TxId, expected: Json, schema: bool)
    | ReplaceFile(index: nat)

  const EMPTY_WORLD: World := World([], None, None, [], [], None)

  /** The projection of the first `read` events that claims the first `verified` events. */
  function RebuiltBetween(env: Env, events: seq<Event>, read: nat, verified: nat): Document
    requires read <= |events| && verified <= |events|
  {
    if read == verified then Rebuilt(env, events[..read])
    else
      var d := env.project(events[..read])
        [LedgerSequence := Int(verified)][LedgerFingerprint := LedgerDigest(events[..verified])];
      d[ProjectionFingerprint := ProjectionDigest(d)]
  }

  predicate InLedger(r: Reading, events: seq<Event>) {
    r.read <= |events| && (r.verified.Some? ==> r.read <= r.verified.value <= |events|)
  }

  function Next(env: Env, w: World, step: Step): World {
    match step
    case Append(kind, t, workflow, payload) => w.(events := w.events + [Stamped(w.events, kind, t, workflow, payload)])
    case ReadLedger => w.(rebuilds := w.rebuilds + [Reading(|w.events|, None)])
    case VerifyLedger(i) =>
      if i < |w.rebuilds| && w.rebuilds[i].verified.None? then
        w.(rebuilds := w.rebuilds[i := Reading(w.rebuilds[i].read, Some(|w.events|))])
      else w
    case StoreProjection(i) =>
      if i < |w.rebuilds| && w.rebuilds[i].verified.Some? && InLedger(w.rebuilds[i], w.events) then
        w.(stored := Some(w.rebuilds[i]),
           cache := Some(env.redact(RebuiltBetween(env, w.events, w.rebuilds[i].read, w.rebuilds[i].verified.value))))
      else w
    case PrepareCache(state, target, expected, schema) =>
      (match Prepare(env, w.events, w.cache, state, target, expected, schema)
       case Err(_) => w
       case Ok(d) => w.(prepared := w.prepared + [Pending(d, target, |w.events|)]))
    case ReplaceFile(index) => if index < |w.prepared| then w.(written := Some(w.prepared[index])) else w
  }

  function Run(env: Env, w: World, steps: seq<Step>): World
    decreases |steps|
  {
    if steps == [] then w else Run(env, Next(env, w, steps[0]), steps[1..])
  }

  function FileOf(env: Env, w: World): Option<Document> {
    if w.written.None? then None else Some(env.redact(w.written.value.content))
  }

  /** The canonical projection loads, and redaction leaves it alone. */
  ghost predicate Stable(env: Env, events: seq<Event>) {
    && LoadCache(events, Some(Rebuilt(env, events))) == Ok(Some(Rebuilt(env, events)))
    && env.redact(Rebuilt(env, events)) == Rebuilt(env, events)
  }

  ghost predicate PendingBound(env: Env, w: World, p: Pending) {
    p.at <= |w.events| && BoundTo(env, w.events[..p.at], p.content, p.t) && Stable(env, w.events[..p.at])
  }

  /** The persisted projection is the one the last completed rebuild stored. */
  ghost predicate CacheAsStored(env: Env, w: World) {
    match w.stored
    case None => w.cache.None?
    case Some(r) =>
      r.verified.Some? && InLedger(r, w.events) &&
        w.cache == Some(env.redact(RebuiltBetween(env, w.events, r.read, r.verified.value)))
  }

  ghost predicate Inv(env: Env, w: World) {
    && CacheAsStored(env, w)
    && (forall i :: 0 <= i < |w.rebuilds| ==> InLedger(w.rebuilds[i], w.events))
    && (forall i :: 0 <= i < |w.prepared| ==> PendingBound(env, w, w.prepared[i]))
    && (w.written.Some? ==> PendingBound(env, w, w.written.value))
  }

  /** Redaction maps a signed projection to another only when they are equal. */
  lemma SameProjection(env: Env, before: Document, now: Document)
    requires KeepsBindings(env) && env.redact(before) == now
    requires ProjectionFingerprint in before && before[ProjectionFingerprint] == ProjectionDigest(before)
    requires ProjectionFingerprint in now && now[ProjectionFingerprint] == ProjectionDigest(now)
    ensures now == before
  {
    assert now[ProjectionFingerprint] == before[ProjectionFingerprint];
    assert now - {ProjectionFingerprint} == before - {ProjectionFingerprint};
    assert now.Keys == before.Keys;
    forall f | f in now ensures now[f] == before[f] {
      if f != ProjectionFingerprint {
        assert now[f] == (now - {ProjectionFingerprint})[f] && before[f] == (before - {ProjectionFingerprint})[f];
      }
    }
  }

  lemma BetweenSigned(env: Env, events: seq<Event>, read: nat, verified: nat)
    requires read <= |events| && verified <= |events|
    ensures var d := RebuiltBetween(env, events, read, verified);
      ProjectionFingerprint in d && d[ProjectionFingerprint] == ProjectionDigest(d)
  {
    if read == verified {
      RebuiltSigned(env, events[..read]);
    } else {
      var d := env.project(events[..read])
        [LedgerSequence := Int(verified)][LedgerFingerprint := LedgerDigest(events[..verified])];
      assert d[ProjectionFingerprint := ProjectionDigest(d)] - {ProjectionFingerprint} == d - {ProjectionFingerprint};
    }
  }

  /** A stored projection is the canonical one exactly when it was canonical before redaction. */
  lemma StoredIsCanonicalIff(env: Env, w: World, r: Reading)
    requires KeepsBindings(env) && CacheAsStored(env, w) && w.stored == Some(r)
    ensures w.cache == Some(Rebuilt(env, w.events)) ==>
      RebuiltBetween(env, w.events, r.read, r.verified.value) == Rebuilt(env, w.events)
    ensures env.redact(Rebuilt(env, w.events)) == Rebuilt(env, w.events) ==>
      (w.cache == Some(Rebuilt(env, w.events)) <==>
        RebuiltBetween(env, w.events, r.read, r.verified.value) == Rebuilt(env, w.events))
  {
    hide Rebuilt, RebuiltBetween, KeepsBindings;
    var before := RebuiltBetween(env, w.events, r.read, r.verified.value);
    BetweenSigned(env, w.events, r.read, r.verified.value);
    RebuiltSigned(env, w.events);
    if w.cache == Some(Rebuilt(env, w.events)) {
      SameProjection(env, before, Rebuilt(env, w.events));
    }
  }

  lemma PendingSurvivesAppend(env: Env, w: World, p: Pending, e: Event)
    requires PendingBound(env, w, p)
    ensures PendingBound(env, w.(events := w.events + [e]), p)
  {
    hide BoundTo, Stable;
    assert (w.events + [e])[..p.at] == w.events[..p.at];
  }

  lemma StoredSurvivesAppend(env: Env, w: World, e: Event)
    requires CacheAsStored(env, w)
    ensures CacheAsStored(env, w.(events := w.events + [e]))
  {
    hide Rebuilt;
    if w.stored.Some? {
      var r := w.stored.value;
      assert (w.events + [e])[..r.read] == w.events[..r.read];
      assert (w.events + [e])[..r.verified.value] == w.events[..r.verified.value];
    }
  }

  /** A document can be prepared only when the last stored projection is the canonical one. */
  lemma PreparedIsStable(env: Env, w: World, state: Document, t: TxId, expected: Json, schema: bool)
    requires KeepsBindings(env) && CacheAsStored(env, w) &&
      Prepare(env, w.events, w.cache, state, t, expected, schema).Ok?
    ensures PendingBound(env, w, Pending(Prepare(env, w.events, w.cache, state, t, expected, schema).value, t,
      |w.events|))
  {
    hide BoundTo, Prepare, Rebuilt, LoadCache, KeepsBindings, RebuiltBetween;
    PreparedIsBound(env, w.events, w.cache, state, t, expected, schema);
    assert w.events[..|w.events|] == w.events;
    StoredIsCanonicalIff(env, w, w.stored.value);
  }

  lemma StepKeeps(env: Env, w: World, step: Step)
    requires KeepsBindings(env) && Inv(env, w)
    ensures Inv(env, Next(env, w, step))
  {
    hide BoundTo, Stable, Rebuilt, RebuiltBetween, Prepare, KeepsBindings;
    var next := Next(env, w, step);
    match step
    case Append(kind, t, workflow, payload) =>
      var e := Stamped(w.events, kind, t, workflow, payload);
      forall p | PendingBound(env, w, p) ensures PendingBound(env, next, p) {
        PendingSurvivesAppend(env, w, p, e);
      }
      StoredSurvivesAppend(env, w, e);
    case PrepareCache(state, target, expected, schema) =>
      if Prepare(env, w.events, w.cache, state, target, expected, schema).Ok? {
        PreparedIsStable(env, w, state, target, expected, schema);
      }
    case _ =>
  }

  lemma {:induction false} RunKeeps(env: Env, w: World, steps: seq<Step>)
    requires KeepsBindings(env) && Inv(env, w)
    ensures Inv(env, Run(env, w, steps))
    decreases |steps|
  {
    hide Inv, Next, KeepsBindings;
    if steps != [] {
      StepKeeps(env, w, steps[0]);
      RunKeeps(env, Next(env, w, steps[0]), steps[1..]);
    }
  }

  lemma EmptyWorldInv(env: Env)
    ensures Inv(env, EMPTY_WORLD)
  {
  }

  /**
   Whatever the interleaving, also of several writers and several rebuilds: a faithfully written file
   is recoverable when an event followed the ledger state it was finalised for; otherwise it passes
   exactly when the persisted projection is the canonical one, and is reported corrupt exactly when
   it is not. A file that was redacted or that the schema refuses is always reported corrupt.
   */
  lemma VerdictOverRuns(env: Env, steps: seq<Step>)
    requires KeepsBindings(env)
    ensures var w := Run(env, EMPTY_WORLD, steps);
      CacheVerdict(env, w.events, w.cache, FileOf(env, w)) ==
        if w.written.None? then Recoverable
        else if !Faithful(env, w.written.value.content) then Corrupt
        else if w.written.value.at < |w.events| then Recoverable
        else if Fresh(env, w.events, w.cache) then Consistent
        else Corrupt
  {
    hide KeepsBindings, BoundTo, Fresh, Faithful, Run, Stable;
    EmptyWorldInv(env);
    RunKeeps(env, EMPTY_WORLD, steps);
    var w := Run(env, EMPTY_WORLD, steps);
    if w.written.Some? {
      VerdictOfBound(env, w.events, w.cache, w.written.value.content, w.written.value.t, w.written.value.at);
    }
  }

  /** The projection lists some transaction whose last event has this sequence number. */
  predicate ListsSequence(d: Document, n: int) {
    exists i :: 0 <= i < |Items(Get(d, Transactions))| && EndsAt(Items(Get(d, Transactions))[i], n)
  }

  predicate EndsAt(summary: Json, n: int) {
    summary.Object? && Get(summary.fields, LastSequence) == Int(n)
  }

  /**
   The projection names the ledger that it claims, and lists the last sequence numbers of the
   transactions among the events that it was computed from.
   */
  ghost predicate HonestEngine(env: Env) {
    && (forall events :: Get(Rebuilt(env, events), LedgerFingerprint) == LedgerDigest(events))
    && (forall events :: events != [] ==> ListsSequence(env.project(events), |events|))
    && (forall events, n :: ListsSequence(env.project(events), n) ==> n <= |events|)
  }

  /** A rebuild that verified the ledger before the last append never stores the canonical projection. */
  lemma EarlyRebuildDiffers(env: Env, events: seq<Event>, read: nat, verified: nat)
    requires HonestEngine(env) && read <= verified < |events|
    ensures RebuiltBetween(env, events, read, verified) != Rebuilt(env, events)
  {
    if read == verified {
      assert Get(Rebuilt(env, events[..read]), LedgerFingerprint) == LedgerDigest(events[..read]);
    }
    assert Get(RebuiltBetween(env, events, read, verified), LedgerFingerprint) == LedgerDigest(events[..verified]);
    assert Get(Rebuilt(env, events), LedgerFingerprint) == LedgerDigest(events);
  }

  /** Nor does a rebuild that read it before the last append, whatever it then claims. */
  lemma TornRebuildDiffers(env: Env, events: seq<Event>, read: nat)
    requires HonestEngine(env) && read < |events|
    ensures RebuiltBetween(env, events, read, |events|) != Rebuilt(env, events)
  {
    var d := RebuiltBetween(env, events, read, |events|);
    assert Get(d, Transactions) == Get(env.project(events[..read]), Transactions);
    assert Get(Rebuilt(env, events), Transactions) == Get(env.project(events), Transactions);
    assert ListsSequence(d, |events|) <==> ListsSequence(env.project(events[..read]), |events|);
    assert |events[..read]| == read;
    assert ListsSequence(env.project(events), |events|);
    assert ListsSequence(Rebuilt(env, events), |events|);
  }

  lemma CanonicalIffComplete(env: Env, events: seq<Event>, r: Reading)
    requires HonestEngine(env) && InLedger(r, events) && r.verified.Some?
    ensures RebuiltBetween(env, events, r.read, r.verified.value) == Rebuilt(env, events) <==> r == Complete(events)
  {
    hide HonestEngine, RebuiltBetween, Rebuilt;
    if r == Complete(events) {
      CompleteRebuild(env, events);
    } else if r.verified.value < |events| {
      EarlyRebuildDiffers(env, events, r.read, r.verified.value);
    } else {
      TornRebuildDiffers(env, events, r.read);
    }
  }

  /** A rebuild between whose steps nothing was appended, and nothing since. */
  function Complete(events: seq<Event>): Reading {
    Reading(|events|, Some(|events|))
  }

  lemma CompleteRebuild(env: Env, events: seq<Event>)
    ensures RebuiltBetween(env, events, |events|, |events|) == Rebuilt(env, events)
  {
    assert events[..|events|] == events;
  }

  /**
   In terms of the run alone: a faithful file of the current ledger passes exactly when the rebuild
   that stored last has read and verified the whole current ledger.
   */
  lemma VerdictByLastRebuild(env: Env, steps: seq<Step>)
    requires KeepsBindings(env) && HonestEngine(env)
    requires var w := Run(env, EMPTY_WORLD, steps);
      w.written.Some? && Faithful(env, w.written.value.content) && w.written.value.at == |w.events|
    ensures var w := Run(env, EMPTY_WORLD, steps);
      CacheVerdict(env, w.events, w.cache, FileOf(env, w)) == if w.stored == Some(Complete(w.events)) then Consistent
        else Corrupt
  {
    hide KeepsBindings, HonestEngine, BoundTo, Faithful, Run, RebuiltBetween, Rebuilt, LoadCache, CacheVerdict;
    EmptyWorldInv(env);
    RunKeeps(env, EMPTY_WORLD, steps);
    var w := Run(env, EMPTY_WORLD, steps);
    VerdictOverRuns(env, steps);
    assert w.events[..|w.events|] == w.events;
    if w.stored.Some? {
      StoredIsCanonicalIff(env, w, w.stored.value);
      CanonicalIffComplete(env, w.events, w.stored.value);
    }
  }

  /** A write that succeeds with the schema leaves a cache that passes the check at once. */
  lemma SuccessfulWritePasses(env: Env, events: seq<Event>, cache: Option<Document>, state: Document, t: TxId,
                              expected: Json)
    requires KeepsBindings(env) && Prepare(env, events, cache, state, t, expected, true).Ok?
    ensures var d := Prepare(env, events, cache, state, t, expected, true).value;
      CacheVerdict(env, events, cache, Some(env.redact(d))) == if env.redact(d) == d then Consistent else Corrupt
  {
    hide KeepsBindings, BoundTo, Prepare;
    PreparedIsBound(env, events, cache, state, t, expected, true);
    assert events[..|events|] == events;
    var d := Prepare(env, events, cache, state, t, expected, true).value;
    VerdictOfBound(env, events, cache, d, t, |events|);
  }

  /**
   For a faithful cache of the current ledger the check depends on the persisted projection alone: a
   stale, missing or foreign one, as a slow rebuild can leave behind, is reported as corruption of
   the cycle cache.
   */
  lemma ConsistentIffProjectionFresh(env: Env, events: seq<Event>, cache: Option<Document>, d: Document, t: TxId)
    requires BoundTo(env, events, d, t) && env.conforms(d)
    ensures CacheVerdict(env, events, cache, Some(d)) == if Fresh(env, events, cache) then Consistent else Corrupt
  {
    hide TerminalEvent, Rebuilt, LoadCache, ValidatedBinding, ClaimsLedger, SemanticsAgree, Signature;
    assert d - {CacheBindingRecovery} == d;
    assert KERNEL_KEYS * d.Keys == KERNEL_KEYS;
    BindingIsCanonical(env, events, cache, t);
    RebuiltSigned(env, events);
  }

  // ---------------------------------------------------------------- one run in full

  function PlainProjection(events: seq<Event>): Document {
    map[SchemaVersion := Int(1), LedgerSequence := Int(|events|), LedgerFingerprint := LedgerDigest(events),
        Transactions := List([Object(map[LastSequence := Int(|events|)])])]
  }

  /** A project without features, a schema that accepts everything, and nothing to redact. */
  const PLAIN_ENV: Env := Env(PlainProjection, d => true, j => true, (d: Document) => d)

  const SOME_TRANSACTION: TxId := Allocated("1")

  const SOME_EVENTS: seq<Event> := [Event(1, TransactionBlocked, SOME_TRANSACTION, Recovery, OtherPayload(""))]

  lemma PlainPrepares()
    ensures Prepare(PLAIN_ENV, SOME_EVENTS, Some(Rebuilt(PLAIN_ENV, SOME_EVENTS)), map[], SOME_TRANSACTION, Null,
      true).Ok?
  {
    hide Rebuilt, LoadCache, ClaimsLedger, ValidatedBinding, SemanticsAgree, WithBinding, Sign;
    var projection := Rebuilt(PLAIN_ENV, SOME_EVENTS);
    PlainIsFresh();
    BindingIsCanonical(PLAIN_ENV, SOME_EVENTS, Some(projection), SOME_TRANSACTION);
    PlainSemantics();
  }

  lemma PlainIsFresh()
    ensures ClaimsLedger(PLAIN_ENV, SOME_EVENTS)
    ensures LoadCache(SOME_EVENTS, Some(Rebuilt(PLAIN_ENV, SOME_EVENTS))) == Ok(Some(Rebuilt(PLAIN_ENV, SOME_EVENTS)))
  {
    RebuiltSigned(PLAIN_ENV, SOME_EVENTS);
  }

  lemma PlainKeys()
    ensures Rebuilt(PLAIN_ENV, SOME_EVENTS).Keys == {SchemaVersion, LedgerSequence, LedgerFingerprint, Transactions,
      ProjectionFingerprint}
  {
  }

  lemma UnownedSemantics(projection: Document)
    requires forall f :: f in SEMANTIC_FIELDS ==> OwnerOf(f) !in projection
    ensures SemanticsAgree(map[], projection)
  {
  }

  lemma PlainSemantics()
    ensures var projection := Rebuilt(PLAIN_ENV, SOME_EVENTS);
      SemanticsAgree(WithBinding(map[], Binding(SOME_EVENTS, projection, false, false), SOME_TRANSACTION), projection)
  {
    hide WithBinding, Rebuilt, SemanticsAgree;
    var projection := Rebuilt(PLAIN_ENV, SOME_EVENTS);
    PlainKeys();
    UnownedSemantics(projection);
    BindingKeepsSemantics(map[], Binding(SOME_EVENTS, projection, false, false), SOME_TRANSACTION, projection);
  }

  /** The states around the steps of one concrete run. */
  ghost predicate Chain(states: seq<World>, steps: seq<Step>) {
    && |states| == |steps| + 1
    && forall i :: 0 <= i < |steps| ==> Next(PLAIN_ENV, states[i], steps[i]) == states[i + 1]
  }

  lemma {:induction false} ChainRuns(states: seq<World>, steps: seq<Step>)
    requires Chain(states, steps)
    ensures Run(PLAIN_ENV, states[0], steps) == states[|steps|]
    decreases |steps|
  {
    hide Next;
    if steps != [] {
      assert states[1..][0] == states[1] && steps[0] == steps[..1][0];
      ChainRuns(states[1..], steps[1..]);
    }
  }

  const APPEND_STEP: Step := Append(TransactionBlocked, SOME_TRANSACTION, Recovery, OtherPayload(""))

  /**
   One rebuild has read the empty ledger when the only event is appended; it has verified the ledger
   before that, or verifies it afterwards. A second rebuild is complete, and a cache gets written.
   */
  function WriteSteps(torn: bool): seq<Step> {
    [ReadLedger, if torn then APPEND_STEP else VerifyLedger(0), if torn then VerifyLedger(0) else APPEND_STEP,
     ReadLedger, VerifyLedger(1), StoreProjection(1), PrepareCache(map[], SOME_TRANSACTION, Null, true), ReplaceFile(0)]
  }

  function Prepared(): Pending {
    var r := Prepare(PLAIN_ENV, SOME_EVENTS, Some(Rebuilt(PLAIN_ENV, SOME_EVENTS)), map[], SOME_TRANSACTION, Null,
      true);
    Pending(if r.Ok? then r.value else map[], SOME_TRANSACTION, 1)
  }

  function Readings(torn: bool): seq<Reading> {
    [Reading(0, Some(if torn then 1 else 0)), Reading(1, Some(1))]
  }

  /** The world after those steps. */
  function WrittenWorld(torn: bool): World {
    World(SOME_EVENTS, Some(Rebuilt(PLAIN_ENV, SOME_EVENTS)), Some(Reading(1, Some(1))), Readings(torn), [Prepared()],
      Some(Prepared()))
  }

  /** The worlds before, between and after those steps. */
  function Worlds(torn: bool): (states: seq<World>)
    ensures |states| == 9 && states[0] == EMPTY_WORLD && states[8] == WrittenWorld(torn)
  {
    var w1 := EMPTY_WORLD.(rebuilds := [Reading(0, None)]);
    var w2 := if torn then w1.(events := SOME_EVENTS) else w1.(rebuilds := [Reading(0, Some(0))]);
    var w3 := EMPTY_WORLD.(events := SOME_EVENTS, rebuilds := [Readings(torn)[0]]);
    var w4 := w3.(rebuilds := [Readings(torn)[0], Reading(1, None)]);
    var w5 := w3.(rebuilds := Readings(torn));
    var w6 := w5.(stored := Some(Reading(1, Some(1))), cache := Some(Rebuilt(PLAIN_ENV, SOME_EVENTS)));
    var w7 := w6.(prepared := [Prepared()]);
    [EMPTY_WORLD, w1, w2, w3, w4, w5, w6, w7, WrittenWorld(torn)]
  }

  ghost predicate Leads(torn: bool, i: nat)
    requires i < 8
  {
    Next(PLAIN_ENV, Worlds(torn)[i], WriteSteps(torn)[i]) == Worlds(torn)[i + 1]
  }

  lemma EarlySteps(torn: bool)
    ensures Leads(torn, 0) && Leads(torn, 1) && Leads(torn, 2) && Leads(torn, 3) && Leads(torn, 4)
  {
    hide Prepare, Rebuilt, RebuiltBetween;
  }

  lemma LateSteps(torn: bool)
    ensures Leads(torn, 5) && Leads(torn, 6) && Leads(torn, 7)
  {
    hide Prepare, Rebuilt;
    PlainPrepares();
    assert SOME_EVENTS[..1] == SOME_EVENTS;
  }

  lemma WriteStepsRun(torn: bool)
    ensures Run(PLAIN_ENV, EMPTY_WORLD, WriteSteps(torn)) == WrittenWorld(torn)
  {
    hide Next, Worlds, WrittenWorld;
    EarlySteps(torn);
    LateSteps(torn);
    ChainRuns(Worlds(torn), WriteSteps(torn));
  }

  lemma {:induction false} RunOneMore(env: Env, w: World, steps: seq<Step>, step: Step)
    ensures Run(env, w, steps + [step]) == Next(env, Run(env, w, steps), step)
    decreases |steps|
  {
    hide Next;
    if steps != [] {
      assert (steps + [step])[1..] == steps[1..] + [step];
      RunOneMore(env, Next(env, w, steps[0]), steps[1..], step);
    }
  }

  lemma PreparedIsFaithful()
    ensures KeepsBindings(PLAIN_ENV) && Faithful(PLAIN_ENV, Prepared().content)
  {
  }

  /** A run that writes a cache which passes the check. */
  lemma SomeRunPasses(torn: bool)
    ensures KeepsBindings(PLAIN_ENV)
    ensures var w := Run(PLAIN_ENV, EMPTY_WORLD, WriteSteps(torn));
      CacheVerdict(PLAIN_ENV, w.events, w.cache, FileOf(PLAIN_ENV, w)) == Consistent
  {
    hide Run, CacheVerdict, Faithful, KeepsBindings, HonestEngine, Prepare, Rebuilt;
    WriteStepsRun(torn);
    PreparedIsFaithful();
    PlainIsHonest();
    VerdictByLastRebuild(PLAIN_ENV, WriteSteps(torn));
  }

  lemma PlainLists(events: seq<Event>, n: int)
    ensures ListsSequence(PlainProjection(events), n) <==> n == |events|
  {
    var items := Items(Get(PlainProjection(events), Transactions));
    assert items == [Object(map[LastSequence := Int(|events|)])];
    assert items[0].Object? && Get(items[0].fields, LastSequence) == Int(|events|);
    assert EndsAt(items[0], n) <==> n == |events|;
  }

  lemma PlainClaims(events: seq<Event>)
    ensures Get(Rebuilt(PLAIN_ENV, events), LedgerFingerprint) == LedgerDigest(events)
  {
  }

  lemma PlainIsHonest()
    ensures HonestEngine(PLAIN_ENV)
  {
    hide Rebuilt, PlainProjection, ListsSequence;
    forall events ensures Get(Rebuilt(PLAIN_ENV, events), LedgerFingerprint) == LedgerDigest(events) {
      PlainClaims(events);
    }
    forall events: seq<Event>, n: int ensures ListsSequence(PLAIN_ENV.project(events), n) <==> n == |events| {
      PlainLists(events, n);
    }
  }

  /**
   When the early rebuild stores its projection last, the same file, untouched and of an unchanged
   ledger, is reported corrupt, also when the early projection claims the current ledger; once the
   other rebuild stores again, it passes again.
   */
  lemma SlowRebuildCorrupts(torn: bool)
    ensures var w := Run(PLAIN_ENV, EMPTY_WORLD, WriteSteps(torn) + [StoreProjection(0)]);
      CacheVerdict(PLAIN_ENV, w.events, w.cache, FileOf(PLAIN_ENV, w)) == Corrupt
    ensures var w := Run(PLAIN_ENV, EMPTY_WORLD, WriteSteps(torn) + [StoreProjection(0)] + [StoreProjection(1)]);
      CacheVerdict(PLAIN_ENV, w.events, w.cache, FileOf(PLAIN_ENV, w)) == Consistent
  {
    hide Run, CacheVerdict, Faithful, KeepsBindings, HonestEngine, Prepare, Rebuilt, RebuiltBetween, WriteSteps;
    var steps := WriteSteps(torn) + [StoreProjection(0)];
    WriteStepsRun(torn);
    RunOneMore(PLAIN_ENV, EMPTY_WORLD, WriteSteps(torn), StoreProjection(0));
    RunOneMore(PLAIN_ENV, EMPTY_WORLD, steps, StoreProjection(1));
    PreparedIsFaithful();
    PlainIsHonest();
    VerdictByLastRebuild(PLAIN_ENV, steps);
    VerdictByLastRebuild(PLAIN_ENV, steps + [StoreProjection(1)]);
  }

  // ---------------------------------------------------------------- tampering

  /** Any change of a signed cache that keeps its fingerprint is reported as corruption. */
  lemma TamperingIsReported(env: Env, events: seq<Event>, cache: Option<Document>, d: Document, changed: Document)
    requires KernelCacheFingerprint in d && Signed(d)
    requires KernelCacheFingerprint in changed && changed[KernelCacheFingerprint] == d[KernelCacheFingerprint] &&
      changed != d
    ensures CacheVerdict(env, events, cache, Some(changed)) == Corrupt
  {
    hide BindingVerdict;
    assert KernelCacheFingerprint in KERNEL_KEYS * (changed - {CacheBindingRecovery}).Keys;
    if Signed(changed) {
      FingerprintDetermines(changed, d);
    }
  }

  /** A document escapes a corruption report only with a valid signature or with none of the five binding keys. */
  lemma UnreportedDocuments(env: Env, events: seq<Event>, cache: Option<Document>, d: Document)
    requires CacheVerdict(env, events, cache, Some(d)) != Corrupt
    ensures KERNEL_KEYS !! d.Keys || (KERNEL_KEYS <= d.Keys && Signed(d))
  {
    hide BindingVerdict;
    forall f | f in KERNEL_KEYS ensures f in d <==> f in KERNEL_KEYS * (d - {CacheBindingRecovery}).Keys {
    }
  }

  /** Removing the whole binding hides every other change from this check. */
  lemma StrippedBindingPasses(env: Env, events: seq<Event>, cache: Option<Document>, d: Document)
    requires KERNEL_KEYS !! d.Keys && CacheBindingRecovery !in d && env.conforms(d)
    ensures CacheVerdict(env, events, cache, Some(d)) == Consistent
  {
    assert d - {CacheBindingRecovery} == d;
  }
}
