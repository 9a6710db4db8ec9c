/**
 Feature acceptance and its reader: `accept_feature` and `supersede_incomplete_acceptance_start` of
 src/development_conveyor/acceptance.py write the ledger, `_controller_acceptance` of
 src/development_conveyor/integration_discovery.py reads it.

 Repository observations are inputs. A failure may interrupt an acceptance after any number of
 its ledger events, and may interrupt the recording of that failure as well.
 */
module Acceptance {
  import opened Prelude
  import opened Sequences
  import opened Ledger
  import P = PhaseTransaction

  // ---------------------------------------------------------------- inputs

  /** The candidate that `inspect_acceptance_candidate` has authenticated. */
  datatype Candidate = Candidate(
    feature: string, branch: string, base: string, commit: string, tree: string, worktree: string)

  /** What the repository shows when an incomplete start is recovered. */
  datatype Observation = Observation(
    leasePresent: bool, sameWorktree: bool, branch: string, head: string, sharesParent: bool,
    queue: Option<string>, trackedDiff: string, untracked: string, clean: bool, gitIdle: bool)

  /** Git names of an authenticated candidate are not empty. */
  predicate Authentic(c: Candidate) {
    c.branch != "" && c.base != ""
  }

  function Least(a: nat, b: nat): nat {
    if a < b then a else b
  }

  function IdOf(c: Candidate, run: string): TxId {
    TxId.Acceptance(c.feature, c.commit, run)
  }

  // ---------------------------------------------------------------- superseding an incomplete start

  datatype Receipt = Receipt(terminal: Event, idempotent: bool)

  datatype SupersedeError = OtherOutcome | NotTheOnlyIncomplete | NotStartOnly | LeasePresent | IdentityFailed |
    Interrupted

  predicate MatchesObservation(start: Payload, c: Candidate, seen: Observation) {
    && start.StartPayload?
    && seen.sameWorktree
    && start.startedFeature == c.feature
    && start.branch == c.branch == seen.branch
    && (start.head == c.commit || seen.sharesParent)
    && seen.head == c.commit
    && start.queue == seen.queue
    && start.trackedDiff == seen.trackedDiff
    && start.untracked == seen.untracked
    && seen.clean && seen.gitIdle
  }

  function Concerns(t: TxId): Event -> bool {
    (e: Event) => e.transaction == t
  }

  function EventsOf(events: seq<Event>, t: TxId): (r: seq<Event>)
    ensures forall e :: e in r <==> e in events && e.transaction == t
  {
    Filter(events, Concerns(t))
  }

  const SUPERSEDED_CLASS: string := "SUPERSEDED"

  function SupersededBy(retry: TxId, run: string): Payload {
    SupersededPayload(SUPERSEDED_CLASS, retry, run)
  }

  /** The outcome for the ledger: the receipt and the events to append. */
  function Supersede(events: seq<Event>, target: TxId, c: Candidate, run: string, seen: Observation)
    : Result<(Receipt, seq<Event>), SupersedeError>
  {
    var retry := IdOf(c, run);
    match TerminalEvent(events, target)
    case Some(terminal) =>
      if terminal.kind == TransactionSuperseded && terminal.payload == SupersededBy(retry, run)
      then Ok((Receipt(terminal, true), []))
      else Err(OtherOutcome)
    case None =>
      var own := EventsOf(events, target);
      if Incomplete(events) != {target} then Err(NotTheOnlyIncomplete)
      else if |own| != 1 || own[0].kind != TransactionStarted || own[0].workflow != FeatureAcceptance
        then Err(NotStartOnly)
      else if seen.leasePresent then Err(LeasePresent)
      else if !MatchesObservation(own[0].payload, c, seen) then Err(IdentityFailed)
      else
        var terminal := Stamped(events, TransactionSuperseded, target, FeatureAcceptance, SupersededBy(retry, run));
        var applied := Stamped(events + [terminal], RecoveryApplied, target, FeatureAcceptance,
          OtherPayload("start superseded"));
        Ok((Receipt(terminal, false), [terminal, applied]))
  }

  /**
   `stop` ledger events are appended before something raises (two or more: nothing raises). The two
   events of a fresh supersession are separate appends, so a call may end between them.
   */
  method SupersedeIncompleteStart(ledger: EvidenceLedger, target: TxId, c: Candidate, run: string, seen: Observation,
                                  stop: nat)
    returns (r: Result<Receipt, SupersedeError>)
    requires Valid(ledger.events)
    modifies ledger
    ensures Valid(ledger.events)
    ensures match Supersede(old(ledger.events), target, c, run, seen)
      case Ok((receipt, added)) =>
        && ledger.events == old(ledger.events) + added[..Least(stop, |added|)]
        && r == if stop >= |added| then Ok(receipt) else Err(Interrupted)
      case Err(e) => r == Err(e) && ledger.events == old(ledger.events)
  {
    hide Valid, Incomplete, MatchesObservation, Admissible, History, EventsOf;
    var retry := IdOf(c, run);
    var existing := TerminalEvent(ledger.events, target);
    if existing.Some? {
      var terminal := existing.value;
      if terminal.kind == TransactionSuperseded && terminal.payload == SupersededBy(retry, run) {
        assert ledger.events + [] == ledger.events;
        return Ok(Receipt(terminal, true));
      }
      return Err(OtherOutcome);
    }
    var own := EventsOf(ledger.events, target);
    if Incomplete(ledger.events) != {target} {
      return Err(NotTheOnlyIncomplete);
    }
    if |own| != 1 || own[0].kind != TransactionStarted || own[0].workflow != FeatureAcceptance {
      return Err(NotStartOnly);
    }
    if seen.leasePresent {
      return Err(LeasePresent);
    }
    if !MatchesObservation(own[0].payload, c, seen) {
      return Err(IdentityFailed);
    }
    ghost var before := ledger.events;
    ghost var added := Supersede(before, target, c, run, seen).value.1;
    if stop == 0 {
      assert before + added[..0] == before;
      return Err(Interrupted);
    }
    SupersedeAdmissible(before, target, SupersededBy(retry, run), OtherPayload("start superseded"));
    var superseded := ledger.Append(TransactionSuperseded, target, FeatureAcceptance, SupersededBy(retry, run));
    if stop == 1 {
      assert added[..1] == [superseded.value];
      return Err(Interrupted);
    }
    assert added[..2] == added;
    var applied := ledger.Append(RecoveryApplied, target, FeatureAcceptance, OtherPayload("start superseded"));
    assert ledger.events == before + [superseded.value, applied.value];
    return Ok(Receipt(superseded.value, false));
  }

  lemma {:induction false} HistoryOfEvents(events: seq<Event>, t: TxId)
    ensures |History(events, t)| == |EventsOf(events, t)|
    ensures forall i :: 0 <= i < |History(events, t)| ==> History(events, t)[i] == EventsOf(events, t)[i].kind
  {
    if events != [] {
      var last := |events| - 1;
      HistoryOfEvents(events[..last], t);
      assert events == events[..last] + [events[last]];
      FilterAppend(events[..last], [events[last]], Concerns(t));
    }
  }

  /** A transaction with exactly its start event may be superseded, and then recovered. */
  lemma StartOnlyHistory(events: seq<Event>, t: TxId)
    requires |EventsOf(events, t)| == 1 && EventsOf(events, t)[0].kind == TransactionStarted
    ensures History(events, t) == [TransactionStarted]
    ensures forall e: Event :: e.transaction == t ==> History(events + [e], t) == [TransactionStarted, e.kind]
  {
    HistoryOfEvents(events, t);
    forall e: Event | e.transaction == t ensures History(events + [e], t) == [TransactionStarted, e.kind] {
      assert (events + [e])[..|events|] == events;
    }
  }

  lemma SupersedeAdmissible(events: seq<Event>, t: TxId, outcome: Payload, applied: Payload)
    requires |EventsOf(events, t)| == 1 && EventsOf(events, t)[0].kind == TransactionStarted
    ensures Admissible(History(events, t), TransactionSuperseded, outcome)
    ensures var terminal := Stamped(events, TransactionSuperseded, t, FeatureAcceptance, outcome);
      Admissible(History(events + [terminal], t), RecoveryApplied, applied)
  {
    hide History, EventsOf;
    StartOnlyHistory(events, t);
  }

  lemma TerminalEventUnique(events: seq<Event>, k: nat)
    requires Valid(events) && k < |events| && events[k].kind in TERMINAL_KINDS
    ensures TerminalEvent(events, events[k].transaction) == Some(events[k])
  {
    var e := TerminalEvent(events, events[k].transaction).value;
    var i :| 0 <= i < |events| && events[i] == e;
    OneTerminal(events, i, k);
  }

  lemma AppendKeepsTerminal(events: seq<Event>, more: seq<Event>, t: TxId)
    requires Valid(events) && Valid(events + more) && TerminalEvent(events, t).Some?
    ensures TerminalEvent(events + more, t) == TerminalEvent(events, t)
  {
    var e := TerminalEvent(events, t).value;
    var i :| 0 <= i < |events| && events[i] == e;
    assert (events + more)[i] == e;
    TerminalEventUnique(events + more, i);
  }

  /** Every prefix of what a supersession appends is admitted by the ledger. */
  lemma SupersedeValid(events: seq<Event>, target: TxId, c: Candidate, run: string, seen: Observation, k: nat)
    requires Valid(events) && Supersede(events, target, c, run, seen).Ok?
    requires k <= |Supersede(events, target, c, run, seen).value.1|
    ensures Valid(events + Supersede(events, target, c, run, seen).value.1[..k])
  {
    hide Valid, Admissible, History, EventsOf, Incomplete, MatchesObservation;
    var added := Supersede(events, target, c, run, seen).value.1;
    assert events + [] == events;
    if added != [] {
      var outcome, applied := SupersededBy(IdOf(c, run), run), OtherPayload("start superseded");
      SupersedeAdmissible(events, target, outcome, applied);
      ValidAppend(events, TransactionSuperseded, target, FeatureAcceptance, outcome);
      ValidAppend(events + [added[0]], RecoveryApplied, target, FeatureAcceptance, applied);
      assert added[..0] == [] && added[..1] == [added[0]] && added[..2] == added;
      assert events + [added[0]] + [added[1]] == events + added;
    } else {
      assert added[..k] == [];
    }
  }

  /**
   A fresh supersession that has appended at least its first event, whether or not it was interrupted
   after that, leaves no incomplete transaction and exactly one terminal event on the target, the one
   on the receipt.
   */
  lemma SupersedeCompletes(events: seq<Event>, target: TxId, c: Candidate, run: string, seen: Observation, k: nat)
    requires Valid(events) && TerminalEvent(events, target).None?
    requires Supersede(events, target, c, run, seen).Ok? && 1 <= k <= 2
    ensures var (receipt, added) := Supersede(events, target, c, run, seen).value;
      var after := events + added[..k];
      && Incomplete(after) == {}
      && TerminalEvent(after, target) == Some(receipt.terminal)
      && forall e :: e in after && e.transaction == target && e.kind in TERMINAL_KINDS ==> e == receipt.terminal
  {
    hide Valid, MatchesObservation, EventsOf, TerminalEvent;
    var (receipt, added) := Supersede(events, target, c, run, seen).value;
    var after := events + added[..k];
    assert after[|events|] == receipt.terminal;
    SupersedeValid(events, target, c, run, seen, k);
    TerminalEventUnique(after, |events|);
    forall t | t in Incomplete(after) ensures false {
      var i :| 0 <= i < |after| && after[i].transaction == t;
      if t != target {
        assert events[i].transaction == t;
        assert t !in Incomplete(events);
        AppendKeepsTerminal(events, added[..k], t);
      }
    }
    forall e | e in after && e.transaction == target && e.kind in TERMINAL_KINDS ensures e == receipt.terminal {
      var i :| 0 <= i < |after| && after[i] == e;
      OneTerminal(after, i, |events|);
    }
  }

  /**
   Repeating a supersession with the same retry identity, at any later time and whatever the
   repository then shows, appends nothing and reports the same terminal event; also when the earlier
   call was interrupted after its first event.
   */
  lemma SupersedeIdempotent(events: seq<Event>, target: TxId, c: Candidate, run: string, seen: Observation, k: nat,
                            later: seq<Event>, seenLater: Observation)
    requires Valid(events) && Supersede(events, target, c, run, seen).Ok?
    requires var added := Supersede(events, target, c, run, seen).value.1; k <= |added| && (added != [] ==> k >= 1)
    requires Valid(events + Supersede(events, target, c, run, seen).value.1[..k] + later)
    ensures var (receipt, added) := Supersede(events, target, c, run, seen).value;
      Supersede(events + added[..k] + later, target, c, run, seenLater) == Ok((Receipt(receipt.terminal, true), []))
  {
    var (receipt, added) := Supersede(events, target, c, run, seen).value;
    var after := events + added[..k];
    SupersedeValid(events, target, c, run, seen, k);
    if added == [] {
      assert after == events;
    } else {
      assert after[|events|] == receipt.terminal;
      TerminalEventUnique(after, |events|);
    }
    AppendKeepsTerminal(after, later, target);
  }

  /**
   An interruption between the two appends is final: the target keeps exactly its start and its
   terminal event, and as a repeated call appends nothing, its recovery is never recorded by it.
   */
  lemma InterruptedSupersession(events: seq<Event>, target: TxId, c: Candidate, run: string, seen: Observation,
                                seenLater: Observation)
    requires Valid(events) && TerminalEvent(events, target).None? && Supersede(events, target, c, run, seen).Ok?
    ensures var (receipt, added) := Supersede(events, target, c, run, seen).value;
      var after := events + added[..1];
      && History(after, target) == [TransactionStarted, TransactionSuperseded]
      && Supersede(after, target, c, run, seenLater) == Ok((Receipt(receipt.terminal, true), []))
  {
    hide Valid, MatchesObservation, EventsOf, TerminalEvent, Incomplete, History;
    var (receipt, added) := Supersede(events, target, c, run, seen).value;
    StartOnlyHistory(events, target);
    assert added[..1] == [receipt.terminal];
    assert events + added[..1] + [] == events + added[..1];
    SupersedeValid(events, target, c, run, seen, 1);
    SupersedeIdempotent(events, target, c, run, seen, 1, [], seenLater);
  }

  const F1_CANDIDATE: Candidate := Candidate("F1", "feature/F1", "base", "commit", "tree", "worktree")

  const F1_START: Event :=
    Event(1, TransactionStarted, Allocated("1"), FeatureAcceptance,
      StartPayload("F1", "feature/F1", "commit", None, "", ""))

  const F1_SEEN: Observation := Observation(false, true, "feature/F1", "commit", true, None, "", "", true, true)

  lemma StartAloneIsValid()
    ensures Valid([F1_START])
  {
    assert [F1_START][..0] == [];
  }

  lemma StartAloneIsIncomplete()
    ensures TerminalEvent([F1_START], F1_START.transaction).None?
    ensures Incomplete([F1_START]) == {F1_START.transaction}
  {
    assert TerminalEvent([F1_START], F1_START.transaction).None?;
    assert [F1_START][0].transaction == F1_START.transaction;
  }

  lemma StartAloneSupersedes()
    ensures Supersede([F1_START], F1_START.transaction, F1_CANDIDATE, "run", F1_SEEN).Ok?
  {
    hide Incomplete, TerminalEvent;
    StartAloneIsIncomplete();
    assert EventsOf([F1_START], F1_START.transaction) == [F1_START];
  }

  /** A concrete one: the start of F1 is superseded, and no repeated call records the recovery. */
  lemma SupersessionStaysUnrecorded(seenLater: Observation)
    ensures var target := F1_START.transaction;
      && Valid([F1_START])
      && Supersede([F1_START], target, F1_CANDIDATE, "run", F1_SEEN).Ok?
      && var after := [F1_START] + Supersede([F1_START], target, F1_CANDIDATE, "run", F1_SEEN).value.1[..1];
      && RecoveryApplied !in History(after, target)
      && var again := Supersede(after, target, F1_CANDIDATE, "run", seenLater);
      && again.Ok? && again.value.1 == []
  {
    StartAloneIsValid();
    StartAloneIsIncomplete();
    StartAloneSupersedes();
    hide Valid, Supersede, History, TerminalEvent, Incomplete;
    InterruptedSupersession([F1_START], F1_START.transaction, F1_CANDIDATE, "run", F1_SEEN, seenLater);
  }

  // ---------------------------------------------------------------- accepting

  function StartOf(c: Candidate, seen: Observation): Payload {
    StartPayload(c.feature, c.branch, c.commit, seen.queue, seen.trackedDiff, seen.untracked)
  }

  function CompletionOf(c: Candidate): Payload {
    CompletionPayload(Some(c.feature), None, Some(c.commit), Some(c.tree), Some(c.branch), true, Some(c.worktree),
      true, Some("pending"), false)
  }

  /** The events of one undisturbed acceptance, in order. */
  function Script(c: Candidate, seen: Observation): (r: seq<(Kind, Payload)>)
    ensures |r| == 11
  {
    [(TransactionStarted, StartOf(c, seen)),
     (LeaseAcquired, OtherPayload("lease")),
     (SnapshotCaptured, OtherPayload("snapshot")),
     (DeterministicExecutionStarted, OtherPayload("plan")),
     (DeterministicResultAccepted, OtherPayload("result")),
     (ValidationStarted, OtherPayload("validation")),
     (ValidationPassed, OtherPayload("evidence")),
     (CommitFinalized, CommitPayload(c.commit, c.tree, c.base)),
     (TransactionCompleted, CompletionOf(c)),
     (LeaseReleased, OtherPayload("lease")),
     (ProjectionUpdated, OtherPayload("integration_pending"))]
  }

  /** The events that record a failure. */
  const FAILURE_SCRIPT: seq<(Kind, Payload)> := [
    (TransactionBlocked, OtherPayload("FEATURE_VALIDATION_FAILED")),
    (LeaseReleased, OtherPayload("lease")),
    (ProjectionUpdated, OtherPayload("validation_failed"))]

  function Written(events: seq<Event>, t: TxId, script: seq<(Kind, Payload)>): (r: seq<Event>)
    ensures |r| == |events| + |script| && r[..|events|] == events
    ensures forall i :: 0 <= i < |script| ==>
      r[|events| + i] == Event(|events| + i + 1, script[i].0, t, FeatureAcceptance, script[i].1)
  {
    events + seq(|script|, i requires 0 <= i < |script| => Event(|events| + i + 1, script[i].0, t, FeatureAcceptance,
      script[i].1))
  }

  /**
   One call: `stop` ledger events of the acceptance are appended before something raises (11 or
   more: nothing raises), and then `failureStop` of the events that record the failure.
   */
  datatype Call = Call(
    candidate: Candidate, run: string, recover: Option<TxId>, recoveryStop: nat, inspected: bool, seen: Observation,
    stop: nat, failureStop: nat, refUnchanged: bool)

  predicate AlreadyAccepted(events: seq<Event>, feature: string, commit: string) {
    exists i :: 0 <= i < |events| && IsCompletionOf(events[i], feature, commit)
  }

  predicate IsCompletionOf(e: Event, feature: string, commit: string) {
    && e.kind == TransactionCompleted && e.workflow == FeatureAcceptance
    && e.payload.CompletionPayload?
    && e.payload.feature == Some(feature) && e.payload.acceptedCommit == Some(commit)
  }

  /** The ledger after the recovery that a call asks for, and whether the call goes on. */
  function Recovered(events: seq<Event>, call: Call): (seq<Event>, bool) {
    match call.recover
    case None => (events, true)
    case Some(target) =>
      match Supersede(events, target, call.candidate, call.run, call.seen)
      case Err(_) => (events, false)
      case Ok((_, added)) => (events + added[..Least(call.recoveryStop, |added|)], call.recoveryStop >= |added|)
  }

  /** The failure is recorded when it happens under the lease and before the completion event. */
  function FailureEvents(call: Call): seq<(Kind, Payload)> {
    if 2 <= call.stop <= 8 then FAILURE_SCRIPT[..Least(call.failureStop, 3)] else []
  }

  /** All that a call writes, when it gets to writing. */
  function CallScript(call: Call): seq<(Kind, Payload)> {
    Script(call.candidate, call.seen)[..Least(call.stop, 11)] + FailureEvents(call)
  }

  /** The ledger after recovery and duplicate check, and whether the call goes on. Both run without the writer lease. */
  function Checked(events: seq<Event>, call: Call): (seq<Event>, bool) {
    if !call.inspected || !Authentic(call.candidate) then (events, false)
    else
      var (start, proceeds) := Recovered(events, call);
      (start, proceeds && !AlreadyAccepted(start, call.candidate.feature, call.candidate.commit))
  }

  /** An append that another process attempts. */
  datatype Attempt = Attempt(kind: Kind, transaction: TxId, workflow: Workflow, payload: Payload)

  /** The ledger after one attempt; an append that is not admissible raises and adds nothing. */
  function Attempted(events: seq<Event>, a: Attempt): seq<Event> {
    if Admissible(History(events, a.transaction), a.kind, a.payload)
    then events + [Stamped(events, a.kind, a.transaction, a.workflow, a.payload)]
    else events
  }

  function Joined(events: seq<Event>, others: seq<Attempt>): seq<Event>
    decreases |others|
  {
    if others == [] then events else Joined(Attempted(events, others[0]), others[1..])
  }

  /** The ledger after the part under the lease; the start of a used transaction identity is refused. */
  function Performed(events: seq<Event>, call: Call): seq<Event> {
    var t := IdOf(call.candidate, call.run);
    if History(events, t) != [] then events else Written(events, t, CallScript(call))
  }

  /** The ledger after a call when others append between its duplicate check and its lease. */
  function After(events: seq<Event>, call: Call, others: seq<Attempt>): seq<Event> {
    var (start, passed) := Checked(events, call);
    if passed then Performed(Joined(start, others), call) else start
  }

  /** Whether the completion event gets recorded. */
  predicate Completes(events: seq<Event>, call: Call, others: seq<Attempt>) {
    var (start, passed) := Checked(events, call);
    passed && History(Joined(start, others), IdOf(call.candidate, call.run)) == [] && call.stop >= 9
  }

  // ---------------------------------------------------------------- admissible scripts

  function Kinds(script: seq<(Kind, Payload)>): (r: seq<Kind>)
    ensures |r| == |script| && forall i :: 0 <= i < |r| ==> r[i] == script[i].0
  {
    seq(|script|, i requires 0 <= i < |script| => script[i].0)
  }

  lemma WrittenPrefix(events: seq<Event>, t: TxId, script: seq<(Kind, Payload)>)
    requires script != []
    ensures Written(events, t, script)[..|events| + |script| - 1] == Written(events, t, script[..|script| - 1])
  {
  }

  lemma {:induction false} HistoryWritten(events: seq<Event>, t: TxId, script: seq<(Kind, Payload)>)
    ensures History(Written(events, t, script), t) == History(events, t) + Kinds(script)
    decreases |script|
  {
    hide Written, Kinds;
    var all := Written(events, t, script);
    if script == [] {
      assert all[..|events|] == all;
      assert Kinds(script) == [] && History(events, t) + [] == History(events, t);
    } else {
      var n := |script| - 1;
      HistoryWritten(events, t, script[..n]);
      WrittenPrefix(events, t, script);
      assert Kinds(script) == Kinds(script[..n]) + [script[n].0];
      assert all[|events| + n].transaction == t && all[|events| + n].kind == script[n].0;
      assert History(events, t) + Kinds(script) == History(events, t) + Kinds(script[..n]) + [script[n].0];
    }
  }

  /** Every kind is admissible after the history and the kinds before it, whatever its payload. */
  ghost predicate AdmissibleKinds(h: seq<Kind>, kinds: seq<Kind>) {
    forall k :: 0 <= k < |kinds| ==> forall p :: Admissible(h + kinds[..k], kinds[k], p)
  }

  lemma {:induction false} WrittenValid(events: seq<Event>, t: TxId, script: seq<(Kind, Payload)>)
    requires Valid(events) && AdmissibleKinds(History(events, t), Kinds(script))
    ensures Valid(Written(events, t, script))
    decreases |script|
  {
    hide Admissible, History, Valid;
    var all := Written(events, t, script);
    if script == [] {
      assert all == events;
    } else {
      var n := |script| - 1;
      var shorter := script[..n];
      forall k | 0 <= k < n ensures forall p :: Admissible(History(events, t) + Kinds(shorter)[..k], Kinds(shorter)[k],
        p) {
        assert Kinds(shorter)[..k] == Kinds(script)[..k];
      }
      WrittenValid(events, t, shorter);
      HistoryWritten(events, t, shorter);
      assert Kinds(script)[..n] == Kinds(shorter);
      ValidAppend(Written(events, t, shorter), script[n].0, t, FeatureAcceptance, script[n].1);
      assert all == Written(events, t, shorter) +
        [Stamped(Written(events, t, shorter), script[n].0, t, FeatureAcceptance, script[n].1)];
    }
  }

  const SUCCESS_KINDS: seq<Kind> := [
    TransactionStarted, LeaseAcquired, SnapshotCaptured, DeterministicExecutionStarted, DeterministicResultAccepted,
    ValidationStarted, ValidationPassed, CommitFinalized, TransactionCompleted, LeaseReleased, ProjectionUpdated]

  const FAILURE_KINDS: seq<Kind> := [TransactionBlocked, LeaseReleased, ProjectionUpdated]

  lemma SuccessTerminal(k: nat)
    requires k <= 11
    ensures HasTerminal(SUCCESS_KINDS[..k]) <==> k > 8
  {
    if k > 8 {
      assert SUCCESS_KINDS[..k][8] == TransactionCompleted;
    }
  }

  lemma SuccessMember(i: nat, k: nat)
    requires i < k <= 11
    ensures SUCCESS_KINDS[i] in SUCCESS_KINDS[..k]
  {
    assert SUCCESS_KINDS[..k][i] == SUCCESS_KINDS[i];
  }

  /** The kinds that the next event of an acceptance asks for. */
  ghost predicate HasPredecessors(h: seq<Kind>, k: nat) {
    && (k == 0 ==> h == []) && (k == 1 ==> h == [TransactionStarted]) && (k > 0 ==> h != [])
    && (k > 1 ==> LeaseAcquired in h) && (k > 2 ==> SnapshotCaptured in h)
    && (k > 3 ==> DeterministicExecutionStarted in h)
    && (k > 5 ==> ValidationStarted in h) && (k > 6 ==> ValidationPassed in h)
    && (HasTerminal(h) <==> k > 8)
  }

  lemma SuccessHasPredecessors(k: nat)
    requires k <= 11
    ensures HasPredecessors(SUCCESS_KINDS[..k], k)
  {
    hide HasTerminal;
    SuccessTerminal(k);
    if k > 1 { SuccessMember(1, k); }
    if k > 2 { SuccessMember(2, k); }
    if k > 3 { SuccessMember(3, k); }
    if k > 5 { SuccessMember(5, k); }
    if k > 6 { SuccessMember(6, k); }
    if k == 1 {
      assert SUCCESS_KINDS[..1] == [TransactionStarted];
    }
  }

  lemma PredecessorsSuffice(h: seq<Kind>, k: nat, p: Payload)
    requires k < 11 && HasPredecessors(h, k)
    ensures Admissible(h, SUCCESS_KINDS[k], p)
  {
    hide HasTerminal;
  }

  lemma SuccessAdmissible(k: nat, p: Payload)
    requires k < 11
    ensures Admissible(SUCCESS_KINDS[..k], SUCCESS_KINDS[k], p)
  {
    hide Admissible, HasPredecessors;
    SuccessHasPredecessors(k);
    PredecessorsSuffice(SUCCESS_KINDS[..k], k, p);
  }

  lemma FailureAdmissible(m: nat, k: nat, p: Payload)
    requires 2 <= m <= 8 && k < 3
    ensures Admissible(SUCCESS_KINDS[..m] + FAILURE_KINDS[..k], FAILURE_KINDS[k], p)
  {
    var h := SUCCESS_KINDS[..m] + FAILURE_KINDS[..k];
    SuccessTerminal(m);
    if k == 0 {
      assert h == SUCCESS_KINDS[..m];
    }
    assert h[0] == TransactionStarted;
  }

  lemma CallAdmissible(m: nat, j: nat)
    requires m <= 11 && j <= 3 && (j > 0 ==> 2 <= m <= 8)
    ensures AdmissibleKinds([], SUCCESS_KINDS[..m] + FAILURE_KINDS[..j])
  {
    hide Admissible;
    var kinds := SUCCESS_KINDS[..m] + FAILURE_KINDS[..j];
    forall k, p | 0 <= k < |kinds| ensures Admissible([] + kinds[..k], kinds[k], p) {
      assert [] + kinds[..k] == kinds[..k];
      if k < m {
        assert kinds[..k] == SUCCESS_KINDS[..k];
        SuccessAdmissible(k, p);
      } else {
        assert kinds[..k] == SUCCESS_KINDS[..m] + FAILURE_KINDS[..k - m];
        FailureAdmissible(m, k - m, p);
      }
    }
  }

  lemma ScriptKinds(c: Candidate, seen: Observation)
    ensures Kinds(Script(c, seen)) == SUCCESS_KINDS && Kinds(FAILURE_SCRIPT) == FAILURE_KINDS
  {
  }

  lemma KindsOfParts(a: seq<(Kind, Payload)>, b: seq<(Kind, Payload)>, m: nat, j: nat)
    requires m <= |a| && j <= |b|
    ensures Kinds(a[..m] + b[..j]) == Kinds(a)[..m] + Kinds(b)[..j]
  {
  }

  /** All events of a call are admissible on a fresh transaction identity. */
  lemma CallWrites(start: seq<Event>, t: TxId, c: Candidate, seen: Observation, m: nat, j: nat)
    requires Valid(start) && History(start, t) == []
    requires m <= 11 && j <= 3 && (j > 0 ==> 2 <= m <= 8)
    ensures Valid(Written(start, t, Script(c, seen)[..m] + FAILURE_SCRIPT[..j]))
    ensures History(Written(start, t, Script(c, seen)[..m] + FAILURE_SCRIPT[..j]), t) ==
      SUCCESS_KINDS[..m] + FAILURE_KINDS[..j]
  {
    hide Admissible, History, Valid, Script, Kinds, AdmissibleKinds;
    CallAdmissible(m, j);
    ScriptKinds(c, seen);
    KindsOfParts(Script(c, seen), FAILURE_SCRIPT, m, j);
    WrittenValid(start, t, Script(c, seen)[..m] + FAILURE_SCRIPT[..j]);
    HistoryWritten(start, t, Script(c, seen)[..m] + FAILURE_SCRIPT[..j]);
    assert [] + (SUCCESS_KINDS[..m] + FAILURE_KINDS[..j]) == SUCCESS_KINDS[..m] + FAILURE_KINDS[..j];
  }

  // ---------------------------------------------------------------- the method

  datatype AcceptError = Rejected | RecoveryRejected(reason: SupersedeError) | Duplicate | Raised | RefChanged

  lemma NextAdmissible(start: seq<Event>, t: TxId, c: Candidate, seen: Observation, k: nat)
    requires History(start, t) == [] && k < 11
    ensures Admissible(History(Written(start, t, Script(c, seen)[..k]), t), Script(c, seen)[k].0, Script(c, seen)[k].1)
  {
    hide Admissible, History, Script, Kinds;
    HistoryWritten(start, t, Script(c, seen)[..k]);
    ScriptKinds(c, seen);
    KindsOfParts(Script(c, seen), FAILURE_SCRIPT, k, 0);
    assert Script(c, seen)[..k] + FAILURE_SCRIPT[..0] == Script(c, seen)[..k];
    assert [] + Kinds(Script(c, seen)[..k]) == SUCCESS_KINDS[..k] + Kinds(FAILURE_SCRIPT)[..0] == SUCCESS_KINDS[..k];
    assert Kinds(Script(c, seen))[k] == Script(c, seen)[k].0;
    SuccessAdmissible(k, Script(c, seen)[k].1);
  }

  lemma NextFailureAdmissible(start: seq<Event>, t: TxId, c: Candidate, seen: Observation, m: nat, k: nat)
    requires History(start, t) == [] && 2 <= m <= 8 && k < 3
    ensures Admissible(History(Written(start, t, Script(c, seen)[..m] + FAILURE_SCRIPT[..k]), t), FAILURE_SCRIPT[k].0,
      FAILURE_SCRIPT[k].1)
  {
    hide Admissible, History, Script, Kinds;
    HistoryWritten(start, t, Script(c, seen)[..m] + FAILURE_SCRIPT[..k]);
    ScriptKinds(c, seen);
    KindsOfParts(Script(c, seen), FAILURE_SCRIPT, m, k);
    assert [] + (SUCCESS_KINDS[..m] + FAILURE_KINDS[..k]) == SUCCESS_KINDS[..m] + FAILURE_KINDS[..k];
    assert Kinds(FAILURE_SCRIPT)[k] == FAILURE_SCRIPT[k].0;
    FailureAdmissible(m, k, FAILURE_SCRIPT[k].1);
  }

  /** The ledger when the first `k` events of the acceptance are in it. */
  function Partial(start: seq<Event>, t: TxId, c: Candidate, seen: Observation, k: nat): seq<Event>
    requires k <= 11
  {
    Written(start, t, Script(c, seen)[..k])
  }

  /** Appends script event `k` of the acceptance, unless the call stops before it. */
  method Record(ledger: EvidenceLedger, t: TxId, c: Candidate, seen: Observation, k: nat, stop: nat,
                ghost start: seq<Event>)
    returns (raised: bool)
    requires Valid(ledger.events) && History(start, t) == [] && k < 11 && k <= stop
    requires ledger.events == Partial(start, t, c, seen, k)
    modifies ledger
    ensures raised <==> stop == k
    ensures Valid(ledger.events) && ledger.events == Partial(start, t, c, seen, if raised then k else k + 1)
  {
    hide Valid, Admissible, History, Script;
    if stop == k {
      return true;
    }
    NextAdmissible(start, t, c, seen, k);
    var next := Script(c, seen)[k];
    var event := ledger.Append(next.0, t, FeatureAcceptance, next.1);
    assert Script(c, seen)[..k + 1] == Script(c, seen)[..k] + [next];
    assert ledger.events == Written(start, t, Script(c, seen)[..k + 1]);
    return false;
  }

  /** Moves an unclassified transaction to the next working state. */
  method Advance(transaction: P.PhaseTransaction, target: P.State)
    requires transaction.Value().classification.None? && transaction.Value().reference.None?
    requires P.Successor(transaction.currentState) == Prelude.Some(target)
    modifies transaction
    ensures transaction.Value() == P.Progress(target, None, None)
  {
    var refused := transaction.TransitionTo(target);
  }

  method Finish(transaction: P.PhaseTransaction, commit: string)
    requires transaction.Value() == P.Progress(P.Finalizing, None, None)
    modifies transaction
    ensures transaction.currentState == P.Completed
  {
    var refused := transaction.TerminateIn(P.Completed, "FEATURE_ACCEPTED", Some(commit));
  }

  /** The part of the acceptance that runs under the writer lease, up to the validation evidence. */
  method ValidateUnderLease(ledger: EvidenceLedger, transaction: P.PhaseTransaction, t: TxId, c: Candidate,
                            seen: Observation,
                            stop: nat, ghost start: seq<Event>) returns (raised: bool)
    requires Valid(ledger.events) && History(start, t) == [] && stop >= 2
    requires ledger.events == Partial(start, t, c, seen, 2)
    requires transaction.Value() == P.Progress(P.Active, None, None)
    modifies ledger, transaction
    ensures Valid(ledger.events)
    ensures raised <==> stop < 7
    ensures ledger.events == Partial(start, t, c, seen, if raised then stop else 7)
    ensures raised ==> transaction.currentState !in P.TERMINAL_STATES
    ensures !raised ==> transaction.Value() == P.Progress(P.Validating, None, None)
  {
    hide Valid, Partial, History;
    raised := Record(ledger, t, c, seen, 2, stop, start);
    if raised { return; }
    Advance(transaction, P.ResultPending);
    raised := Record(ledger, t, c, seen, 3, stop, start);
    if raised { return; }
    Advance(transaction, P.Validating);
    raised := Record(ledger, t, c, seen, 4, stop, start);
    if raised { return; }
    raised := Record(ledger, t, c, seen, 5, stop, start);
    if raised { return; }
    raised := Record(ledger, t, c, seen, 6, stop, start);
  }

  /** From the finalised commit to the released lease. */
  method CompleteUnderLease(ledger: EvidenceLedger, transaction: P.PhaseTransaction, t: TxId, c: Candidate,
                            seen: Observation,
                            stop: nat, ghost start: seq<Event>) returns (raised: bool)
    requires Valid(ledger.events) && History(start, t) == [] && stop >= 7
    requires ledger.events == Partial(start, t, c, seen, 7)
    requires transaction.Value() == P.Progress(P.Validating, None, None)
    modifies ledger, transaction
    ensures Valid(ledger.events)
    ensures raised <==> stop < 11
    ensures ledger.events == Partial(start, t, c, seen, Least(stop, 11))
    ensures transaction.currentState in P.TERMINAL_STATES <==> stop >= 9
  {
    hide Valid, Partial, History;
    Advance(transaction, P.Finalizing);
    raised := Record(ledger, t, c, seen, 7, stop, start);
    if raised { return; }
    raised := Record(ledger, t, c, seen, 8, stop, start);
    if raised { return; }
    Finish(transaction, c.commit);
    raised := Record(ledger, t, c, seen, 9, stop, start);
    if raised { return; }
    raised := Record(ledger, t, c, seen, 10, stop, start);
  }

  method AcceptUnderLease(ledger: EvidenceLedger, transaction: P.PhaseTransaction, t: TxId, c: Candidate,
                          seen: Observation,
                          stop: nat, ghost start: seq<Event>) returns (raised: bool)
    requires Valid(ledger.events) && History(start, t) == [] && stop >= 2
    requires ledger.events == Partial(start, t, c, seen, 2)
    requires transaction.Value() == P.Progress(P.Active, None, None)
    modifies ledger, transaction
    ensures Valid(ledger.events)
    ensures raised <==> stop < 11
    ensures ledger.events == Partial(start, t, c, seen, Least(stop, 11))
    ensures transaction.currentState in P.TERMINAL_STATES <==> stop >= 9
  {
    hide Valid, Partial, History;
    raised := ValidateUnderLease(ledger, transaction, t, c, seen, stop, start);
    if !raised {
      raised := CompleteUnderLease(ledger, transaction, t, c, seen, stop, start);
    }
  }

  /** Appends the first `count` events of the failure record. */
  method RecordFailure(ledger: EvidenceLedger, t: TxId, c: Candidate, seen: Observation, m: nat, count: nat,
                       ghost start: seq<Event>)
    requires Valid(ledger.events) && History(start, t) == [] && 2 <= m <= 8 && count <= 3
    requires ledger.events == Written(start, t, Script(c, seen)[..m])
    modifies ledger
    ensures Valid(ledger.events)
    ensures ledger.events == Written(start, t, Script(c, seen)[..m] + FAILURE_SCRIPT[..count])
  {
    hide Valid, Admissible, History, Script;
    var k := 0;
    assert Script(c, seen)[..m] + FAILURE_SCRIPT[..0] == Script(c, seen)[..m];
    while k < count
      invariant 0 <= k <= count && Valid(ledger.events)
      invariant ledger.events == Written(start, t, Script(c, seen)[..m] + FAILURE_SCRIPT[..k])
    {
      NextFailureAdmissible(start, t, c, seen, m, k);
      var next := FAILURE_SCRIPT[k];
      ghost var done := Script(c, seen)[..m] + FAILURE_SCRIPT[..k];
      var event := ledger.Append(next.0, t, FeatureAcceptance, next.1);
      assert Script(c, seen)[..m] + FAILURE_SCRIPT[..k + 1] == done + [next];
      assert ledger.events == Written(start, t, done + [next]);
      k := k + 1;
    }
  }

  /** Begins the transaction and acquires the lease, then runs under it; a failure there is recorded. */
  method AcceptFresh(ledger: EvidenceLedger, call: Call) returns (raised: bool)
    requires Valid(ledger.events) && History(ledger.events, IdOf(call.candidate, call.run)) == []
    modifies ledger
    ensures Valid(ledger.events)
    ensures ledger.events == Written(old(ledger.events), IdOf(call.candidate, call.run), CallScript(call))
    ensures raised <==> call.stop < 11
  {
    hide Valid, History, Written, Script, FailureEvents;
    var c, t := call.candidate, IdOf(call.candidate, call.run);
    ghost var start := ledger.events;
    EmptyScript(start, t, c, call.seen);
    var transaction := new P.PhaseTransaction();
    raised := Record(ledger, t, c, call.seen, 0, call.stop, start);
    if raised {
      NoFailureEvents(call);
      return;
    }
    Advance(transaction, P.LeasePending);
    raised := Record(ledger, t, c, call.seen, 1, call.stop, start);
    if raised {
      NoFailureEvents(call);
      return;
    }
    Advance(transaction, P.Active);
    raised := AcceptUnderLease(ledger, transaction, t, c, call.seen, call.stop, start);
    if raised && transaction.currentState !in P.TERMINAL_STATES {
      SomeFailureEvents(call);
      RecordFailure(ledger, t, c, call.seen, call.stop, Least(call.failureStop, 3), start);
    } else {
      NoFailureEvents(call);
    }
  }

  /** What other processes append between the duplicate check and the writer lease. */
  method Interfere(ledger: EvidenceLedger, others: seq<Attempt>)
    requires Valid(ledger.events)
    modifies ledger
    ensures Valid(ledger.events) && ledger.events == Joined(old(ledger.events), others)
  {
    hide Valid, Admissible, History;
    var k := 0;
    while k < |others|
      invariant 0 <= k <= |others| && Valid(ledger.events)
      invariant Joined(ledger.events, others[k..]) == Joined(old(ledger.events), others)
    {
      var a := others[k];
      assert others[k..][0] == a && others[k..][1..] == others[k + 1..];
      var appended := ledger.Append(a.kind, a.transaction, a.workflow, a.payload);
      k := k + 1;
    }
  }

  /**
   `accept_feature`: the ledger after every call is `After`, and success means a recorded completion.
   The duplicate check is not repeated under the lease, whatever `others` have appended since.
   */
  method AcceptFeature(ledger: EvidenceLedger, call: Call, others: seq<Attempt>) returns (r: Result<Event, AcceptError>)
    requires Valid(ledger.events)
    modifies ledger
    ensures Valid(ledger.events) && ledger.events == After(old(ledger.events), call, others)
    ensures r.Ok? <==> Completes(old(ledger.events), call, others) && call.stop >= 11 && call.refUnchanged
    ensures r.Ok? ==> r.value in ledger.events && r.value.transaction == IdOf(call.candidate, call.run)
    ensures r.Ok? ==> IsCompletionOf(r.value, call.candidate.feature, call.candidate.commit)
  {
    hide Valid, History, Supersede, AlreadyAccepted, Written, CallScript, IsCompletionOf, Joined;
    var c := call.candidate;
    if !call.inspected || !Authentic(c) {
      return Err(Rejected);
    }
    if call.recover.Some? {
      var recovered := SupersedeIncompleteStart(ledger, call.recover.value, c, call.run, call.seen, call.recoveryStop);
      if recovered.Err? {
        return Err(RecoveryRejected(recovered.error));
      }
    }
    assert Recovered(old(ledger.events), call) == (ledger.events, true);
    if AlreadyAccepted(ledger.events, c.feature, c.commit) {
      return Err(Duplicate);
    }
    Interfere(ledger, others);
    ghost var start := ledger.events;
    // The append of the start event refuses a transaction that has events already.
    if History(ledger.events, IdOf(c, call.run)) != [] {
      return Err(Raised);
    }
    var raised := AcceptFresh(ledger, call);
    if raised {
      return Err(Raised);
    }
    if !call.refUnchanged {
      return Err(RefChanged);
    }
    CompletionWritten(start, call);
    return Ok(ledger.events[|ledger.events| - 3]);
  }

  lemma EmptyScript(start: seq<Event>, t: TxId, c: Candidate, seen: Observation)
    ensures Partial(start, t, c, seen, 0) == start
  {
  }

  lemma NoFailureEvents(call: Call)
    requires call.stop < 2 || call.stop >= 9
    ensures CallScript(call) == Script(call.candidate, call.seen)[..Least(call.stop, 11)]
  {
    hide Script;
  }

  lemma SomeFailureEvents(call: Call)
    requires 2 <= call.stop <= 8
    ensures CallScript(call) == Script(call.candidate, call.seen)[..call.stop] +
      FAILURE_SCRIPT[..Least(call.failureStop, 3)]
  {
    hide Script;
  }

  lemma CompletionWritten(start: seq<Event>, call: Call)
    requires call.stop >= 11
    ensures var events := Written(start, IdOf(call.candidate, call.run), CallScript(call));
      && |events| >= 3 && events[|events| - 3].transaction == IdOf(call.candidate, call.run)
      && IsCompletionOf(events[|events| - 3], call.candidate.feature, call.candidate.commit)
  {
    NoFailureEvents(call);
    var t := IdOf(call.candidate, call.run);
    var events := Written(start, t, Script(call.candidate, call.seen)[..11]);
    assert events[|start| + 8] ==
      Event(|start| + 9, TransactionCompleted, t, FeatureAcceptance, CompletionOf(call.candidate));
  }
}
