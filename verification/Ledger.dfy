/**
 The append-only evidence ledger (src/development_conveyor/ledger.py): consecutive sequence
 numbers and the admission rules that bind every event to the history of its transaction.
 */
module Ledger {
  import opened Prelude
  import opened Sequences

  datatype Kind =
    | TransactionStarted | LeaseAcquired | LeaseReleased | SnapshotCaptured | SessionLaunched
    | SessionResultAccepted | ChangesDetected | ValidationStarted | DeterministicExecutionStarted
    | DeterministicResultAccepted | ValidationPassed | ValidationFailed | CommitFinalized
    | HumanGateRaised | HumanGateResolved | TransactionBlocked | TransactionCompleted
    | TransactionSuperseded | RecoveryApplied | ProjectionUpdated | LegacyEvidenceImported
    | CheckpointRecorded

  datatype Workflow =
    | QueueReconciliation | FeaturePreparation | FeatureExecution | FeatureAcceptance
    | MilestoneIntegration | MilestoneGate | HumanDecisionResolution | Recovery

  /**
   Transaction identities. The identity of an acceptance is derived from the feature, the commit and
   the run (a name-based UUID), so it is injective in them.
   */
  datatype TxId = Acceptance(feature: string, commit: string, run: string) | Allocated(uuid: string)

  /** The payload fields that the modelled code reads. */
  datatype Payload =
    | StartPayload(startedFeature: string, branch: string, head: string, queue: Option<string>, trackedDiff: string,
      untracked: string)
    | CommitPayload(commit: string, tree: string, parent: string)
    | CompletionPayload(
        feature: Option<string>, selectedFeature: Option<string>, acceptedCommit: Option<string>,
        acceptedTree: Option<string>, implementationRef: Option<string>, refUnchanged: bool,
        worktree: Option<string>, controllerSurface: bool, integrationStatus: Option<string>,
        legacyImport: bool)
    | SupersededPayload(classification: string, supersededBy: TxId, retryRun: string)
    | CheckpointPayload(materializationAcknowledged: bool)
    | OutcomePayload(outcomeFeature: Option<string>, outcomeSelection: Option<string>, outcome: string)
    | OtherPayload(text: string)

  datatype Event = Event(sequence: nat, kind: Kind, transaction: TxId, workflow: Workflow, payload: Payload)

  const TERMINAL_KINDS: set<Kind> := {TransactionBlocked, TransactionCompleted, TransactionSuperseded, HumanGateRaised}

  const POST_TERMINAL_KINDS: set<Kind> :=
    {LeaseReleased, RecoveryApplied, ProjectionUpdated, LegacyEvidenceImported, CheckpointRecorded}

  /** The kinds of a transaction's events, in order. */
  function History(events: seq<Event>, t: TxId): (h: seq<Kind>)
  {
    if events == [] then []
    else
      var before := History(events[..|events| - 1], t);
      if events[|events| - 1].transaction == t then before + [events[|events| - 1].kind] else before
  }

  predicate HasTerminal(h: seq<Kind>) {
    exists i :: 0 <= i < |h| && h[i] in TERMINAL_KINDS
  }

  function Predecessor(kind: Kind): Option<Kind> {
    match kind
    case SnapshotCaptured => Some(LeaseAcquired)
    case ValidationStarted => Some(SnapshotCaptured)
    case SessionResultAccepted => Some(SessionLaunched)
    case DeterministicExecutionStarted => Some(SnapshotCaptured)
    case DeterministicResultAccepted => Some(DeterministicExecutionStarted)
    case ValidationPassed => Some(ValidationStarted)
    case CommitFinalized => Some(ValidationPassed)
    case _ => None
  }

  /** A completion imported from before the ledger may skip the lifecycle events. */
  predicate IsLegacyImport(payload: Payload) {
    payload.CompletionPayload? && payload.legacyImport
  }

  /** `_validate_append` for an event of a transaction with history `h`. */
  predicate Admissible(h: seq<Kind>, kind: Kind, payload: Payload) {
    if kind == TransactionStarted then h == []
    else
      && h != []
      && (kind == LeaseAcquired && LeaseAcquired in h ==> RecoveryApplied in h)
      && (HasTerminal(h) ==> kind in POST_TERMINAL_KINDS)
      && (HasTerminal(h) && kind == CheckpointRecorded ==> payload == CheckpointPayload(true))
      && (Predecessor(kind).Some? ==> Predecessor(kind).value in h)
      && (kind == TransactionCompleted && !IsLegacyImport(payload) ==>
            LeaseAcquired in h && SnapshotCaptured in h && ValidationStarted in h && ValidationPassed in h)
  }

  /** What `append` adds: the event with the next sequence number. */
  function Stamped(events: seq<Event>, kind: Kind, t: TxId, workflow: Workflow, payload: Payload): Event {
    Event(|events| + 1, kind, t, workflow, payload)
  }

  /** Every event was admissible when it was appended. */
  ghost predicate Valid(events: seq<Event>) {
    forall i :: 0 <= i < |events| ==>
      && events[i].sequence == i + 1
      && Admissible(History(events[..i], events[i].transaction), events[i].kind, events[i].payload)
  }

  lemma ValidAppend(events: seq<Event>, kind: Kind, t: TxId, workflow: Workflow, payload: Payload)
    requires Valid(events) && Admissible(History(events, t), kind, payload)
    ensures Valid(events + [Stamped(events, kind, t, workflow, payload)])
  {
    hide Admissible, History;
    var longer := events + [Stamped(events, kind, t, workflow, payload)];
    forall i | 0 <= i < |longer|
      ensures longer[i].sequence == i + 1
      ensures Admissible(History(longer[..i], longer[i].transaction), longer[i].kind, longer[i].payload)
    {
      if i < |events| {
        assert longer[..i] == events[..i];
      } else {
        assert longer[..i] == events;
      }
    }
  }

  lemma {:induction false} HistoryMember(events: seq<Event>, t: TxId, kind: Kind)
    ensures kind in History(events, t) <==>
      exists i :: 0 <= i < |events| && events[i].transaction == t && events[i].kind == kind
  {
    if events != [] {
      var last := |events| - 1;
      HistoryMember(events[..last], t, kind);
      assert forall i :: 0 <= i < last ==> events[..last][i] == events[i];
      if events[last].transaction == t && events[last].kind == kind {
        assert kind in History(events, t);
      }
    }
  }

  lemma HistoryTerminal(events: seq<Event>, t: TxId)
    ensures HasTerminal(History(events, t)) <==>
      exists i :: 0 <= i < |events| && events[i].transaction == t && events[i].kind in TERMINAL_KINDS
  {
    var h := History(events, t);
    if HasTerminal(h) {
      var i :| 0 <= i < |h| && h[i] in TERMINAL_KINDS;
      HistoryMember(events, t, h[i]);
    }
    if i :| 0 <= i < |events| && events[i].transaction == t && events[i].kind in TERMINAL_KINDS {
      HistoryMember(events, t, events[i].kind);
    }
  }

  /** At most one terminal event per transaction. */
  lemma OneTerminal(events: seq<Event>, i: nat, j: nat)
    requires Valid(events) && i < |events| && j < |events|
    requires events[i].transaction == events[j].transaction
    requires events[i].kind in TERMINAL_KINDS && events[j].kind in TERMINAL_KINDS
    ensures i == j
  {
    hide Valid;
    if i < j {
      TerminalIsLastWord(events, i, j);
    } else if j < i {
      TerminalIsLastWord(events, j, i);
    }
  }

  /** After its terminal event a transaction only gets administrative events. */
  lemma TerminalIsLastWord(events: seq<Event>, i: nat, j: nat)
    requires Valid(events) && i < j < |events|
    requires events[i].transaction == events[j].transaction && events[i].kind in TERMINAL_KINDS
    ensures events[j].kind in POST_TERMINAL_KINDS
  {
    var t := events[j].transaction;
    HistoryTerminal(events[..j], t);
    assert events[..j][i] == events[i];
    HistoryMember(events[..j], t, events[i].kind);
  }

  /** The terminal event of a transaction, as `terminal_event` finds it. */
  function TerminalEvent(events: seq<Event>, t: TxId): (r: Option<Event>)
    ensures r.Some? <==> exists i :: 0 <= i < |events| && events[i].transaction == t && events[i].kind in TERMINAL_KINDS
    ensures r.Some? ==> r.value in events && r.value.transaction == t && r.value.kind in TERMINAL_KINDS
  {
    if events == [] then None
    else if events[0].transaction == t && events[0].kind in TERMINAL_KINDS then Some(events[0])
    else
      assert forall i :: 0 < i < |events| ==> events[i] == events[1..][i - 1];
      TerminalEvent(events[1..], t)
  }

  /** The transactions with events but without terminal event. */
  function Incomplete(events: seq<Event>): (ts: set<TxId>)
    ensures forall t :: t in ts <==>
      (exists i :: 0 <= i < |events| && events[i].transaction == t) && TerminalEvent(events, t).None?
  {
    set i | 0 <= i < |events| && TerminalEvent(events, events[i].transaction).None? :: events[i].transaction
  }

  class EvidenceLedger {
    var events: seq<Event>

    constructor ()
      ensures events == []
    {
      events := [];
    }

    /** Appends the stamped event when it is admissible; otherwise the ledger is unchanged. */
    method Append(kind: Kind, t: TxId, workflow: Workflow, payload: Payload) returns (r: Option<Event>)
      requires Valid(events)
      modifies this
      ensures Valid(events)
      ensures r.Some? <==> Admissible(History(old(events), t), kind, payload)
      ensures r.Some? ==>
        r.value == Stamped(old(events), kind, t, workflow, payload) && events == old(events) + [r.value]
      ensures r.None? ==> events == old(events)
    {
      if !Admissible(History(events, t), kind, payload) {
        return None;
      }
      ValidAppend(events, kind, t, workflow, payload);
      var event := Stamped(events, kind, t, workflow, payload);
      events := events + [event];
      return Some(event);
    }
  }
}
