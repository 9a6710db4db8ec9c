/**
 The reader of controller acceptances (src/development_conveyor/integration_discovery.py) over every
 ledger that overlapping calls of `accept_feature` and other controller operations can build.

 Every read of the ledger and every append is a step of its own, and the steps of all calls interleave
 freely. The writer lease would only exclude some of these runs, so the results hold with it as well.
 */
module IntegrationDiscovery {
  import opened Prelude
  import opened Sequences
  import opened Ledger
  import opened Acceptance

  datatype Accepted = Accepted(transaction: TxId, tree: string, branch: string, worktree: Option<string>, base: string)

  datatype DiscoveryError = NotOneAcceptance | NotOneFinalization | CandidateMismatch

  predicate IsAcceptance(e: Event) {
    && e.kind == TransactionCompleted && e.workflow == FeatureAcceptance
    && e.payload.CompletionPayload? && e.payload.controllerSurface
  }

  function AcceptanceOf(feature: string, commit: string): Event -> bool {
    (e: Event) => IsAcceptance(e) && e.payload.feature == Some(feature) && e.payload.acceptedCommit == Some(commit)
  }

  function FinalizationOf(t: TxId): Event -> bool {
    (e: Event) => e.transaction == t && e.kind == CommitFinalized
  }

  /** The six agreement checks between a completion and its finalised commit. */
  predicate Agree(completion: Payload, commit: Payload, accepted: string)
    requires completion.CompletionPayload?
  {
    && commit.CommitPayload? && commit.commit == accepted
    && completion.acceptedTree == Some(commit.tree)
    && completion.refUnchanged
    && completion.integrationStatus == Some("pending")
    && commit.parent != ""
    && completion.implementationRef.Some? && completion.implementationRef.value != ""
  }

  function ControllerAcceptance(events: seq<Event>, feature: string, commit: string): Result<Option<Accepted>,
    DiscoveryError> {
    var completions := Filter(events, AcceptanceOf(feature, commit));
    if completions == [] then Ok(None)
    else if |completions| != 1 then Err(NotOneAcceptance)
    else
      var completion := completions[0];
      assert completion in completions;
      var finalized := Filter(events, FinalizationOf(completion.transaction));
      if |finalized| != 1 then Err(NotOneFinalization)
      else if !Agree(completion.payload, finalized[0].payload, commit) then Err(CandidateMismatch)
      else
        Ok(Some(Accepted(completion.transaction, finalized[0].payload.tree,
                         completion.payload.implementationRef.value, completion.payload.worktree,
                           finalized[0].payload.parent)))
  }

  // ---------------------------------------------------------------- runs of the controller

  /** Where a call stands: with the appends of its recovery, before its duplicate check, in the
      acceptance itself, with the record of a failure, or at its end. */
  datatype Phase = Superseding(target: TxId, appended: nat) | Unchecked | Performing | Blocking(appended: nat) | Ended

  /**
   A call of `accept_feature`. `checked` is the length of the ledger that its duplicate check has
   read, `at` lists the ledger positions of its acceptance events.
   */
  datatype Process = Process(candidate: Candidate, run: string, seen: Observation, phase: Phase, checked: nat,
    at: seq<nat>)

  datatype State = State(events: seq<Event>, calls: seq<Process>)

  const NOTHING_YET: State := State([], [])

  /**
   A call begins and its recovery, if it asks for one, reads the ledger; call `i` takes its next
   action; something raises in call `i`; another operation attempts an append.
   */
  datatype Step =
    | Begin(candidate: Candidate, run: string, recover: Option<TxId>, seen: Observation)
    | Go(i: nat)
    | Raise(i: nat)
    | Other(attempt: Attempt)

  predicate OnControllerSurface(payload: Payload) {
    payload.CompletionPayload? && payload.controllerSurface
  }

  /** Only `accept_feature` completes on the controller surface or finalises a candidate. */
  predicate Foreign(a: Attempt) {
    !OnControllerSurface(a.payload) && !(a.kind == CommitFinalized && a.transaction.Acceptance?)
  }

  function Own(p: Process): TxId {
    IdOf(p.candidate, p.run)
  }

  /** The new call, unless its candidate or its recovery is rejected. */
  function Begun(events: seq<Event>, c: Candidate, run: string, recover: Option<TxId>,
                 seen: Observation): seq<Process> {
    if !Authentic(c) then []
    else
      match recover
      case None => [Process(c, run, seen, Unchecked, 0, [])]
      case Some(target) =>
        match Supersede(events, target, c, run, seen)
        case Err(_) => []
        case Ok((_, added)) => [Process(c, run, seen, if added == [] then Unchecked else Superseding(target, 0), 0, [])]
  }

  /** What a call appends next. */
  function Pending(p: Process): Option<Attempt> {
    match p.phase
    case Superseding(target, n) =>
      if n == 0 then Some(Attempt(TransactionSuperseded, target, FeatureAcceptance, SupersededBy(Own(p), p.run)))
      else Some(Attempt(RecoveryApplied, target, FeatureAcceptance, OtherPayload("start superseded")))
    case Performing =>
      if |p.at| < 11 then
        var (kind, payload) := Script(p.candidate, p.seen)[|p.at|];
        Some(Attempt(kind, Own(p), FeatureAcceptance, payload))
      else None
    case Blocking(n) =>
      if n < 3 then Some(Attempt(FAILURE_SCRIPT[n].0, Own(p), FeatureAcceptance, FAILURE_SCRIPT[n].1)) else None
    case Unchecked => None
    case Ended => None
  }

  /** The call after its append at `position`. */
  function Appended(p: Process, position: nat): Process {
    match p.phase
    case Superseding(target, n) => p.(phase := if n == 0 then Superseding(target, 1) else Unchecked)
    case Performing => p.(at := p.at + [position])
    case Blocking(n) => p.(phase := Blocking(n + 1))
    case Unchecked => p
    case Ended => p
  }

  /** A failure is recorded when it happens under the lease and before the completion event. */
  function Failed(p: Process): Process {
    p.(phase := if p.phase.Performing? && 2 <= |p.at| <= 8 then Blocking(0) else Ended)
  }

  /** The duplicate check reads the ledger as it is now. */
  function AfterCheck(events: seq<Event>, p: Process): Process {
    if AlreadyAccepted(events, p.candidate.feature, p.candidate.commit) then p.(phase := Ended)
    else p.(phase := Performing, checked := |events|)
  }

  function Act(s: State, i: nat): State
    requires i < |s.calls|
  {
    var p := s.calls[i];
    if p.phase.Unchecked? then s.(calls := s.calls[i := AfterCheck(s.events, p)])
    else
      match Pending(p)
      case None => s
      case Some(a) =>
        if Admissible(History(s.events, a.transaction), a.kind, a.payload)
        then State(s.events + [Stamped(s.events, a.kind, a.transaction, a.workflow, a.payload)],
          s.calls[i := Appended(p, |s.events|)])
        else s.(calls := s.calls[i := Failed(p)])
  }

  function Next(s: State, step: Step): State {
    match step
    case Begin(c, run, recover, seen) => s.(calls := s.calls + Begun(s.events, c, run, recover, seen))
    case Go(i) => if i < |s.calls| then Act(s, i) else s
    case Raise(i) => if i < |s.calls| then s.(calls := s.calls[i := Failed(s.calls[i])]) else s
    case Other(a) => if Foreign(a) then s.(events := Attempted(s.events, a)) else s
  }

  function Run(s: State, steps: seq<Step>): State
    decreases |steps|
  {
    if steps == [] then s else Run(Next(s, steps[0]), steps[1..])
  }

  // ---------------------------------------------------------------- the invariant

  /** Events that accept or finalise a candidate. */
  predicate Critical(e: Event) {
    IsAcceptance(e) || (e.kind == CommitFinalized && e.transaction.Acceptance?)
  }

  /** The acceptance events of a call are in the ledger at the positions that it remembers. */
  ghost predicate Placed(events: seq<Event>, p: Process) {
    && Authentic(p.candidate) && |p.at| <= 11
    && forall m :: 0 <= m < |p.at| ==> p.at[m] < |events| && events[p.at[m]] == ScriptEvent(p, m, p.at[m])
  }

  function ScriptEvent(p: Process, m: nat, position: nat): Event
    requires m < 11
  {
    var (kind, payload) := Script(p.candidate, p.seen)[m];
    Event(position + 1, kind, Own(p), FeatureAcceptance, payload)
  }

  /** A call has passed its duplicate check before it writes. */
  ghost predicate CheckedFirst(events: seq<Event>, p: Process) {
    && (p.phase.Superseding? || p.phase.Unchecked? ==> p.at == [])
    && (p.phase.Performing? || p.at != [] ==>
          && p.checked <= |events|
          && !AlreadyAccepted(events[..p.checked], p.candidate.feature, p.candidate.commit)
          && forall m :: 0 <= m < |p.at| ==> p.checked <= p.at[m])
  }

  predicate Wrote(p: Process, e: Event, k: nat) {
    if e.kind == CommitFinalized then |p.at| > 7 && p.at[7] == k else |p.at| > 8 && p.at[8] == k
  }

  /** Every critical event was written by a call. */
  ghost predicate Accounted(s: State) {
    forall k :: 0 <= k < |s.events| && Critical(s.events[k]) ==> WrittenBySome(s, k)
  }

  ghost predicate WrittenBySome(s: State, k: nat)
    requires k < |s.events|
  {
    exists i :: 0 <= i < |s.calls| && Wrote(s.calls[i], s.events[k], k)
  }

  /** No two calls write to the same transaction. */
  ghost predicate Distinct(calls: seq<Process>) {
    forall i, j :: 0 <= i < |calls| && 0 <= j < |calls| && calls[i].at != [] && calls[j].at != [] && i != j ==>
      Own(calls[i]) != Own(calls[j])
  }

  ghost predicate Calm(events: seq<Event>, p: Process) {
    Placed(events, p) && CheckedFirst(events, p)
  }

  ghost predicate Inv(s: State) {
    && Valid(s.events) && Accounted(s) && Distinct(s.calls)
    && forall i :: 0 <= i < |s.calls| ==> Calm(s.events, s.calls[i])
  }

  predicate SameWrites(p: Process, q: Process) {
    p.candidate == q.candidate && p.run == q.run && p.seen == q.seen && p.at == q.at
  }

  lemma PhaseKeeps(s: State, i: nat, q: Process)
    requires Inv(s) && i < |s.calls| && SameWrites(s.calls[i], q) && CheckedFirst(s.events, q)
    ensures Inv(s.(calls := s.calls[i := q]))
  {
    hide Valid, CheckedFirst, Script;
    assert Calm(s.events, s.calls[i]);
    var t := s.(calls := s.calls[i := q]);
    forall k | 0 <= k < |t.events| && Critical(t.events[k]) ensures WrittenBySome(t, k) {
      assert WrittenBySome(s, k);
      var j :| 0 <= j < |s.calls| && Wrote(s.calls[j], s.events[k], k);
      assert Wrote(t.calls[j], t.events[k], k);
    }
  }

  lemma CalmLater(events: seq<Event>, e: Event, p: Process)
    requires Calm(events, p)
    ensures Calm(events + [e], p)
  {
    hide ScriptEvent, AlreadyAccepted;
    if p.phase.Performing? || p.at != [] {
      assert (events + [e])[..p.checked] == events[..p.checked];
    }
  }

  lemma QuietKeeps(s: State, e: Event)
    requires Inv(s) && !Critical(e) && Valid(s.events + [e])
    ensures Inv(s.(events := s.events + [e]))
  {
    hide Valid, Calm, Wrote, Critical;
    var t := s.(events := s.events + [e]);
    forall i | 0 <= i < |t.calls| ensures Calm(t.events, t.calls[i]) {
      CalmLater(s.events, e, s.calls[i]);
    }
    forall k | 0 <= k < |t.events| && Critical(t.events[k]) ensures WrittenBySome(t, k) {
      assert t.events[k] == s.events[k];
      assert WrittenBySome(s, k);
    }
  }

  lemma BeginKeeps(s: State, c: Candidate, run: string, recover: Option<TxId>, seen: Observation)
    requires Inv(s)
    ensures Inv(Next(s, Begin(c, run, recover, seen)))
  {
    hide Valid, Supersede;
    var t := Next(s, Begin(c, run, recover, seen));
    forall k | 0 <= k < |t.events| && Critical(t.events[k]) ensures WrittenBySome(t, k) {
      assert WrittenBySome(s, k);
      var j :| 0 <= j < |s.calls| && Wrote(s.calls[j], s.events[k], k);
      assert Wrote(t.calls[j], t.events[k], k);
    }
  }

  /** Only the ninth event of an acceptance completes, and only the eighth finalises. */
  lemma ScriptCritical(c: Candidate, seen: Observation)
    ensures Script(c, seen)[7] == (CommitFinalized, CommitPayload(c.commit, c.tree, c.base))
    ensures Script(c, seen)[8] == (TransactionCompleted, CompletionOf(c))
    ensures forall m :: 0 <= m < 11 ==>
      (Script(c, seen)[m].0 == CommitFinalized <==> m == 7) &&
        (Script(c, seen)[m].0 == TransactionCompleted <==> m == 8)
  {
  }

  /** A first acceptance event is admitted only on an unused transaction. */
  lemma StartIsFresh(s: State, i: nat, j: nat)
    requires Inv(s) && i < |s.calls| && j < |s.calls| && s.calls[j].at != []
    requires Admissible(History(s.events, Own(s.calls[i])), TransactionStarted,
      StartOf(s.calls[i].candidate, s.calls[i].seen))
    ensures Own(s.calls[i]) != Own(s.calls[j])
  {
    hide Valid, History, Accounted;
    assert Calm(s.events, s.calls[j]);
    var k := s.calls[j].at[0];
    HistoryMember(s.events, Own(s.calls[j]), s.events[k].kind);
  }

  /** Call `i` is about to append the next event of its acceptance, and the ledger admits it. */
  ghost predicate WillWrite(s: State, i: nat) {
    && i < |s.calls| && s.calls[i].phase.Performing? && |s.calls[i].at| < 11
    && var a := Pending(s.calls[i]).value; Admissible(History(s.events, a.transaction), a.kind, a.payload)
  }

  lemma WriteIsCalm(s: State, i: nat)
    requires Inv(s) && WillWrite(s, i)
    ensures var t := Act(s, i); Valid(t.events) && forall j :: 0 <= j < |t.calls| ==> Calm(t.events, t.calls[j])
  {
    hide Valid, History, Admissible, Script, AlreadyAccepted, Accounted, Distinct;
    var a, t := Pending(s.calls[i]).value, Act(s, i);
    ValidAppend(s.events, a.kind, a.transaction, a.workflow, a.payload);
    forall j | 0 <= j < |t.calls| ensures Calm(t.events, t.calls[j]) {
      CalmLater(s.events, t.events[|s.events|], s.calls[j]);
    }
  }

  lemma WriteIsDistinct(s: State, i: nat)
    requires Inv(s) && WillWrite(s, i)
    ensures Distinct(Act(s, i).calls)
  {
    hide Valid, History, Admissible, Script, AlreadyAccepted, Accounted, Calm;
    FirstIsStart(s.calls[i]);
    forall j | 0 <= j < |s.calls| && j != i && s.calls[i].at == [] && s.calls[j].at != []
      ensures Own(s.calls[i]) != Own(s.calls[j]) {
      StartIsFresh(s, i, j);
    }
  }

  lemma WriteIsAccounted(s: State, i: nat)
    requires Inv(s) && WillWrite(s, i)
    ensures Accounted(Act(s, i))
  {
    hide Valid, History, Admissible, Script, AlreadyAccepted, Distinct, Calm;
    var t := Act(s, i);
    ScriptCritical(s.calls[i].candidate, s.calls[i].seen);
    forall k | 0 <= k < |t.events| && Critical(t.events[k]) ensures WrittenBySome(t, k) {
      if k < |s.events| {
        assert WrittenBySome(s, k);
        var j :| 0 <= j < |s.calls| && Wrote(s.calls[j], s.events[k], k);
        assert Wrote(t.calls[j], t.events[k], k);
      } else {
        assert Wrote(t.calls[i], t.events[k], k);
      }
    }
  }

  lemma PerformKeeps(s: State, i: nat)
    requires Inv(s) && WillWrite(s, i)
    ensures Inv(Act(s, i))
  {
    hide Valid, Accounted, Distinct, Calm, WillWrite;
    WriteIsCalm(s, i);
    WriteIsDistinct(s, i);
    WriteIsAccounted(s, i);
  }

  lemma FirstIsStart(p: Process)
    ensures Script(p.candidate, p.seen)[0] == (TransactionStarted, StartOf(p.candidate, p.seen))
  {
  }

  /** Appends of a recovery or of a failure record. */
  lemma AsideKeeps(s: State, i: nat)
    requires Inv(s) && i < |s.calls| && (s.calls[i].phase.Superseding? || s.calls[i].phase.Blocking?) &&
      Pending(s.calls[i]).Some?
    requires var a := Pending(s.calls[i]).value; Admissible(History(s.events, a.transaction), a.kind, a.payload)
    ensures Inv(Act(s, i))
  {
    hide Valid, History, Admissible, Script, AlreadyAccepted, Accounted, Distinct, Placed;
    var p, a := s.calls[i], Pending(s.calls[i]).value;
    var e := Stamped(s.events, a.kind, a.transaction, a.workflow, a.payload);
    ValidAppend(s.events, a.kind, a.transaction, a.workflow, a.payload);
    QuietKeeps(s, e);
    PhaseKeeps(s.(events := s.events + [e]), i, Appended(p, |s.events|));
  }

  lemma CheckKeeps(s: State, i: nat)
    requires Inv(s) && i < |s.calls| && s.calls[i].phase.Unchecked?
    ensures Inv(Act(s, i))
  {
    hide Valid, AlreadyAccepted, Accounted, Distinct, Placed;
    assert Calm(s.events, s.calls[i]);
    assert s.events[..|s.events|] == s.events;
    PhaseKeeps(s, i, AfterCheck(s.events, s.calls[i]));
  }

  lemma FailKeeps(s: State, i: nat)
    requires Inv(s) && i < |s.calls|
    ensures Inv(s.(calls := s.calls[i := Failed(s.calls[i])]))
  {
    hide Valid, AlreadyAccepted, Accounted, Distinct, Placed;
    assert Calm(s.events, s.calls[i]);
    PhaseKeeps(s, i, Failed(s.calls[i]));
  }

  lemma ActKeeps(s: State, i: nat)
    requires Inv(s) && i < |s.calls|
    ensures Inv(Act(s, i))
  {
    hide Inv, History, Admissible, Script, AlreadyAccepted, Failed, Appended, AfterCheck;
    var p := s.calls[i];
    if p.phase.Unchecked? {
      CheckKeeps(s, i);
    } else if Pending(p).Some? {
      var a := Pending(p).value;
      if !Admissible(History(s.events, a.transaction), a.kind, a.payload) {
        FailKeeps(s, i);
      } else if p.phase.Performing? {
        PerformKeeps(s, i);
      } else {
        AsideKeeps(s, i);
      }
    }
  }

  lemma OtherKeeps(s: State, a: Attempt)
    requires Inv(s) && Foreign(a)
    ensures Inv(s.(events := Attempted(s.events, a)))
  {
    hide Valid, History, Admissible, Accounted, Distinct, Calm;
    if Attempted(s.events, a) != s.events {
      ValidAppend(s.events, a.kind, a.transaction, a.workflow, a.payload);
      QuietKeeps(s, Stamped(s.events, a.kind, a.transaction, a.workflow, a.payload));
    }
  }

  /** Every step keeps the invariant. */
  lemma StepKeeps(s: State, step: Step)
    requires Inv(s)
    ensures Inv(Next(s, step))
  {
    hide Inv, Act, Failed, Attempted, Foreign, Begun;
    match step
    case Begin(c, run, recover, seen) => BeginKeeps(s, c, run, recover, seen);
    case Go(i) => if i < |s.calls| { ActKeeps(s, i); }
    case Raise(i) => if i < |s.calls| { FailKeeps(s, i); }
    case Other(a) => if Foreign(a) { OtherKeeps(s, a); }
  }

  lemma {:induction false} RunKeeps(s: State, steps: seq<Step>)
    requires Inv(s)
    ensures Inv(Run(s, steps))
    decreases |steps|
  {
    hide Inv, Next;
    if steps != [] {
      StepKeeps(s, steps[0]);
      RunKeeps(Next(s, steps[0]), steps[1..]);
    }
  }

  lemma NothingIsCalm()
    ensures Inv(NOTHING_YET)
  {
  }

  lemma AllRunsKeep(steps: seq<Step>)
    ensures Inv(Run(NOTHING_YET, steps))
  {
    NothingIsCalm();
    RunKeeps(NOTHING_YET, steps);
  }

  // ---------------------------------------------------------------- the reader

  /** The call has recorded its completion of the pair. */
  predicate Completed(p: Process, feature: string, commit: string) {
    |p.at| > 8 && p.candidate.feature == feature && p.candidate.commit == commit
  }

  /** A completed call had passed its duplicate check before another completion of the pair was recorded. */
  predicate Overtaken(s: State, feature: string, commit: string) {
    exists i, k :: 0 <= i < |s.calls| && 0 <= k < |s.events| && Overtakes(s, i, k, feature, commit)
  }

  predicate Overtakes(s: State, i: nat, k: nat, feature: string, commit: string)
    requires i < |s.calls| && k < |s.events|
  {
    && Completed(s.calls[i], feature, commit) && s.calls[i].checked <= k
    && AcceptanceOf(feature, commit)(s.events[k]) && s.events[k].transaction != Own(s.calls[i])
  }

  /** Each acceptance in the ledger is the completion of one call. */
  lemma Owner(s: State, k: nat) returns (i: nat)
    requires Inv(s) && k < |s.events| && IsAcceptance(s.events[k])
    ensures i < |s.calls| && |s.calls[i].at| > 8 && s.calls[i].at[8] == k
    ensures s.events[k].transaction == Own(s.calls[i]) && s.events[k].payload == CompletionOf(s.calls[i].candidate)
    ensures s.calls[i].checked <= k
  {
    hide Valid, Distinct, Script, AlreadyAccepted;
    assert WrittenBySome(s, k);
    i :| 0 <= i < |s.calls| && Wrote(s.calls[i], s.events[k], k);
    assert Calm(s.events, s.calls[i]);
    ScriptCritical(s.calls[i].candidate, s.calls[i].seen);
  }

  /** The completion of a completed call is in the ledger. */
  lemma CompletionAt(s: State, i: nat)
    requires Inv(s) && i < |s.calls| && |s.calls[i].at| > 8
    ensures var p := s.calls[i];
      && p.at[8] < |s.events| && s.events[p.at[8]].transaction == Own(p)
      && s.events[p.at[8]].payload == CompletionOf(p.candidate)
      && AcceptanceOf(p.candidate.feature, p.candidate.commit)(s.events[p.at[8]])
      && p.checked <= p.at[8]
  {
    hide Valid, Distinct, Accounted, Script, AlreadyAccepted;
    assert Calm(s.events, s.calls[i]);
    ScriptCritical(s.calls[i].candidate, s.calls[i].seen);
  }

  /** A completed call has exactly one finalisation. */
  lemma OneFinalization(s: State, i: nat)
    requires Inv(s) && i < |s.calls| && |s.calls[i].at| > 8
    ensures var p := s.calls[i]; var c := p.candidate;
      && Authentic(c) && p.at[7] < |s.events| && s.events[p.at[7]].payload == CommitPayload(c.commit, c.tree, c.base)
      && Filter(s.events, FinalizationOf(Own(p))) == [s.events[p.at[7]]]
  {
    hide Valid, Filter, Script, AlreadyAccepted;
    var p := s.calls[i];
    assert Calm(s.events, p);
    ScriptCritical(p.candidate, p.seen);
    forall k | 0 <= k < |s.events| ensures FinalizationOf(Own(p))(s.events[k]) <==> k == p.at[7] {
      if FinalizationOf(Own(p))(s.events[k]) {
        assert WrittenBySome(s, k);
        var j :| 0 <= j < |s.calls| && Wrote(s.calls[j], s.events[k], k);
        assert Calm(s.events, s.calls[j]);
      }
    }
    FilterOne(s.events, p.at[7], FinalizationOf(Own(p)));
  }

  lemma AcceptedBefore(events: seq<Event>, n: nat, k: nat, feature: string, commit: string)
    requires k < n <= |events| && AcceptanceOf(feature, commit)(events[k])
    ensures AlreadyAccepted(events[..n], feature, commit)
  {
    assert IsCompletionOf(events[..n][k], feature, commit);
  }

  /** Two acceptances of a pair: the call of the later one was checked before the earlier one. */
  lemma TwoAreOvertaken(s: State, k: nat, l: nat, feature: string, commit: string)
    requires Inv(s) && k < l < |s.events|
    requires AcceptanceOf(feature, commit)(s.events[k]) && AcceptanceOf(feature, commit)(s.events[l])
    ensures Overtaken(s, feature, commit)
    ensures |Filter(s.events, AcceptanceOf(feature, commit))| > 1
  {
    hide Valid, Accounted, Filter;
    var i := Owner(s, l);
    var j := Owner(s, k);
    var p := s.calls[i];
    assert Calm(s.events, p);
    if k < p.checked {
      AcceptedBefore(s.events, p.checked, k, feature, commit);
    }
    assert Overtakes(s, i, k, feature, commit);
    FilterTwo(s.events, k, l, AcceptanceOf(feature, commit));
  }

  /** What the reader finds in a ledger that holds an acceptance of the pair by call `i`. */
  lemma Reads(s: State, i: nat)
    requires Inv(s) && i < |s.calls| && |s.calls[i].at| > 8
    ensures var p := s.calls[i]; var c := p.candidate;
      ControllerAcceptance(s.events, c.feature, c.commit)
        == (if Overtaken(s, c.feature, c.commit) then Err(NotOneAcceptance)
            else Ok(Some(Accepted(Own(p), c.tree, c.branch, Some(c.worktree), c.base))))
  {
    hide Valid, Filter, Accounted, Distinct, Calm;
    var p := s.calls[i]; var c := p.candidate;
    var of := AcceptanceOf(c.feature, c.commit);
    CompletionAt(s, i);
    if k :| 0 <= k < |s.events| && of(s.events[k]) && k != p.at[8] {
      if k < p.at[8] {
        TwoAreOvertaken(s, k, p.at[8], c.feature, c.commit);
      } else {
        TwoAreOvertaken(s, p.at[8], k, c.feature, c.commit);
      }
    } else {
      FilterOne(s.events, p.at[8], of);
      OneFinalization(s, i);
      if Overtaken(s, c.feature, c.commit) {
        var j, k :| 0 <= j < |s.calls| && 0 <= k < |s.events| && Overtakes(s, j, k, c.feature, c.commit);
        CompletionAt(s, j);
        assert false;
      }
    }
  }

  /**
   Over every run the reader raises for a pair of feature and commit exactly when a completed call
   for it had passed its duplicate check before another completion of the pair was recorded, and then
   because there are several acceptances. Otherwise it finds an acceptance exactly when there is one.
   */
  lemma ReaderRaisesIff(steps: seq<Step>, feature: string, commit: string)
    ensures var s := Run(NOTHING_YET, steps);
      match ControllerAcceptance(s.events, feature, commit)
      case Err(error) => Overtaken(s, feature, commit) && error == NotOneAcceptance
      case Ok(found) =>
        && !Overtaken(s, feature, commit)
        && (found.Some? <==> exists k :: 0 <= k < |s.events| && AcceptanceOf(feature, commit)(s.events[k]))
  {
    hide Run, Filter, Inv;
    AllRunsKeep(steps);
    var s := Run(NOTHING_YET, steps);
    if k :| 0 <= k < |s.events| && AcceptanceOf(feature, commit)(s.events[k]) {
      var i := Owner(s, k);
      Reads(s, i);
    } else {
      FilterNone(s.events, AcceptanceOf(feature, commit));
    }
  }

  /** A pair of feature and commit is accepted at most once, with the same exception. */
  lemma OneAcceptanceIff(steps: seq<Step>, feature: string, commit: string)
    ensures var s := Run(NOTHING_YET, steps);
      |Filter(s.events, AcceptanceOf(feature, commit))| <= 1 <==> !Overtaken(s, feature, commit)
  {
    hide Run, Filter, Inv, Overtaken;
    ReaderRaisesIff(steps, feature, commit);
    var s := Run(NOTHING_YET, steps);
    if |Filter(s.events, AcceptanceOf(feature, commit))| == 1 {
      AllRunsKeep(steps);
      assert Filter(s.events, AcceptanceOf(feature, commit))[0] in s.events;
      var k :| 0 <= k < |s.events| && s.events[k] == Filter(s.events, AcceptanceOf(feature, commit))[0];
      var i := Owner(s, k);
      Reads(s, i);
    }
  }

  // ---------------------------------------------------------------- a completed acceptance stays readable

  /** A call keeps its identity and its recorded events. */
  predicate Continues(p: Process, q: Process) {
    p.candidate == q.candidate && p.run == q.run && p.at <= q.at
  }

  ghost predicate Extends(s: State, t: State) {
    |s.calls| <= |t.calls| && forall i :: 0 <= i < |s.calls| ==> Continues(s.calls[i], t.calls[i])
  }

  lemma {:induction false} RunExtends(s: State, steps: seq<Step>)
    ensures Extends(s, Run(s, steps))
    decreases |steps|
  {
    hide Next;
    if steps != [] {
      NextExtends(s, steps[0]);
      RunExtends(Next(s, steps[0]), steps[1..]);
    }
  }

  lemma NextExtends(s: State, step: Step)
    ensures Extends(s, Next(s, step))
  {
    hide Admissible, History, Begun, AlreadyAccepted, Script;
  }

  /**
   Whatever happened before a call recorded its completion and whatever happens later: the reader
   returns exactly the transaction, tree, branch, worktree and milestone base of its candidate, or
   raises because the pair was overtaken.
   */
  lemma AcceptanceReadsBack(before: seq<Step>, i: nat, later: seq<Step>)
    requires i < |Run(NOTHING_YET, before).calls| && |Run(NOTHING_YET, before).calls[i].at| > 8
    ensures var p := Run(NOTHING_YET, before).calls[i]; var c := p.candidate;
      var s := Run(Run(NOTHING_YET, before), later);
      ControllerAcceptance(s.events, c.feature, c.commit)
        == (if Overtaken(s, c.feature, c.commit) then Err(NotOneAcceptance)
            else Ok(Some(Accepted(Own(p), c.tree, c.branch, Some(c.worktree), c.base))))
  {
    hide Run, Inv, Overtaken, ControllerAcceptance;
    AllRunsKeep(before);
    RunKeeps(Run(NOTHING_YET, before), later);
    RunExtends(Run(NOTHING_YET, before), later);
    var s := Run(Run(NOTHING_YET, before), later);
    assert Continues(Run(NOTHING_YET, before).calls[i], s.calls[i]);
    Reads(s, i);
  }

  // ---------------------------------------------------------------- calls for a pair one after the other

  /** The call is between its duplicate check and its completion. */
  predicate Open(p: Process, feature: string, commit: string) {
    p.phase.Performing? && |p.at| <= 8 && p.candidate.feature == feature && p.candidate.commit == commit
  }

  predicate ChecksNow(s: State, step: Step, feature: string, commit: string) {
    && step.Go? && step.i < |s.calls| && s.calls[step.i].phase.Unchecked?
    && s.calls[step.i].candidate.feature == feature && s.calls[step.i].candidate.commit == commit
  }

  /** No call for the pair is checked while another one is open. */
  predicate OneAtATime(s: State, steps: seq<Step>, feature: string, commit: string)
    decreases |steps|
  {
    steps != [] ==>
      && (ChecksNow(s, steps[0], feature, commit) ==> forall j :: 0 <= j < |s.calls| ==>
          !Open(s.calls[j], feature, commit))
      && OneAtATime(Next(s, steps[0]), steps[1..], feature, commit)
  }

  /** At most one open call, none beside an acceptance, and at most one acceptance. */
  ghost predicate Orderly(s: State, feature: string, commit: string) {
    && (forall i, j :: 0 <= i < |s.calls| && 0 <= j < |s.calls| && Open(s.calls[i], feature, commit) && i != j ==>
        !Open(s.calls[j], feature, commit))
    && (forall i, k :: 0 <= i < |s.calls| && 0 <= k < |s.events| && Open(s.calls[i], feature, commit) ==>
        !AcceptanceOf(feature, commit)(s.events[k]))
    && (forall k, l :: 0 <= k < |s.events| && 0 <= l < |s.events| && BothAccept(s, k, l, feature, commit) ==> k == l)
  }

  predicate BothAccept(s: State, k: nat, l: nat, feature: string, commit: string)
    requires k < |s.events| && l < |s.events|
  {
    AcceptanceOf(feature, commit)(s.events[k]) && AcceptanceOf(feature, commit)(s.events[l])
  }

  /** No call has become open, and no acceptance of the pair has been added. */
  ghost predicate NoneAdded(s: State, t: State, feature: string, commit: string) {
    && |s.calls| <= |t.calls| && |s.events| <= |t.events|
    && (forall i :: 0 <= i < |t.calls| && Open(t.calls[i], feature, commit) ==>
        i < |s.calls| && Open(s.calls[i], feature, commit))
    && (forall k :: 0 <= k < |t.events| && AcceptanceOf(feature, commit)(t.events[k]) ==>
        k < |s.events| && t.events[k] == s.events[k])
  }

  lemma NoneAddedOrderly(s: State, t: State, feature: string, commit: string)
    requires Orderly(s, feature, commit) && NoneAdded(s, t, feature, commit)
    ensures Orderly(t, feature, commit)
  {
    hide Open, IsAcceptance;
    forall k, l | 0 <= k < |t.events| && 0 <= l < |t.events| && BothAccept(t, k, l, feature, commit) ensures k == l {
      assert BothAccept(s, k, l, feature, commit);
    }
  }

  /** A call of the pair records its completion. */
  lemma CompletionOrderly(s: State, i: nat, e: Event, p: Process, feature: string, commit: string)
    requires Orderly(s, feature, commit) && i < |s.calls| && Open(s.calls[i], feature, commit) &&
      !Open(p, feature, commit)
    ensures Orderly(State(s.events + [e], s.calls[i := p]), feature, commit)
  {
    hide Open, IsAcceptance;
    var t := State(s.events + [e], s.calls[i := p]);
    assert forall k :: 0 <= k < |s.events| ==> !AcceptanceOf(feature, commit)(s.events[k]);
    assert forall k :: 0 <= k < |t.events| && AcceptanceOf(feature, commit)(t.events[k]) ==> k == |s.events|;
  }

  /** A call passes its duplicate check. */
  lemma CheckOrderly(s: State, i: nat, feature: string, commit: string)
    requires Orderly(s, feature, commit) && i < |s.calls| && s.calls[i].phase.Unchecked?
    requires ChecksNow(s, Go(i), feature, commit) ==> forall j :: 0 <= j < |s.calls| ==>
      !Open(s.calls[j], feature, commit)
    ensures Orderly(Act(s, i), feature, commit)
  {
    hide IsAcceptance, AlreadyAccepted;
    NotYetAccepted(s.events, feature, commit);
    if !ChecksNow(s, Go(i), feature, commit) || AlreadyAccepted(s.events, feature, commit) {
      NoneAddedOrderly(s, Act(s, i), feature, commit);
    }
  }

  lemma ActOrderly(s: State, i: nat, feature: string, commit: string)
    requires Inv(s) && Orderly(s, feature, commit) && i < |s.calls|
    requires ChecksNow(s, Go(i), feature, commit) ==> forall j :: 0 <= j < |s.calls| ==>
      !Open(s.calls[j], feature, commit)
    ensures Orderly(Act(s, i), feature, commit)
  {
    hide Valid, Admissible, History, Accounted, Distinct, Placed, Script, AlreadyAccepted, Orderly;
    var p := s.calls[i];
    ScriptCritical(p.candidate, p.seen);
    if p.phase.Unchecked? {
      CheckOrderly(s, i, feature, commit);
    } else if |Act(s, i).events| > |s.events| && Open(p, feature, commit) && |p.at| == 8 {
      CompletionOrderly(s, i, Act(s, i).events[|s.events|], Act(s, i).calls[i], feature, commit);
    } else {
      NoneAddedOrderly(s, Act(s, i), feature, commit);
    }
  }

  lemma NotYetAccepted(events: seq<Event>, feature: string, commit: string)
    ensures !AlreadyAccepted(events, feature, commit) ==> forall k :: 0 <= k < |events| ==>
      !AcceptanceOf(feature, commit)(events[k])
  {
    if k :| 0 <= k < |events| && AcceptanceOf(feature, commit)(events[k]) {
      assert IsCompletionOf(events[k], feature, commit);
    }
  }

  lemma StepOrderly(s: State, step: Step, feature: string, commit: string)
    requires Inv(s) && Orderly(s, feature, commit)
    requires ChecksNow(s, step, feature, commit) ==> forall j :: 0 <= j < |s.calls| ==>
      !Open(s.calls[j], feature, commit)
    ensures Orderly(Next(s, step), feature, commit)
  {
    hide Inv, Act, Supersede, Admissible, History, Orderly;
    if step.Go? {
      if step.i < |s.calls| { ActOrderly(s, step.i, feature, commit); }
    } else {
      NoneAddedOrderly(s, Next(s, step), feature, commit);
    }
  }

  lemma {:induction false} RunOrderly(s: State, steps: seq<Step>, feature: string, commit: string)
    requires Inv(s) && Orderly(s, feature, commit) && OneAtATime(s, steps, feature, commit)
    ensures Orderly(Run(s, steps), feature, commit)
    decreases |steps|
  {
    hide Inv, Orderly, Next, Open;
    if steps != [] {
      StepKeeps(s, steps[0]);
      StepOrderly(s, steps[0], feature, commit);
      RunOrderly(Next(s, steps[0]), steps[1..], feature, commit);
    }
  }

  /** As long as the calls for a pair do not overlap, the reader does not raise for it. */
  lemma NeverOvertakenInTurn(steps: seq<Step>, feature: string, commit: string)
    requires OneAtATime(NOTHING_YET, steps, feature, commit)
    ensures var s := Run(NOTHING_YET, steps);
      !Overtaken(s, feature, commit) && ControllerAcceptance(s.events, feature, commit).Ok?
  {
    hide Run, Inv, ControllerAcceptance, OneAtATime;
    AllRunsKeep(steps);
    NothingIsCalm();
    RunOrderly(NOTHING_YET, steps, feature, commit);
    ReaderRaisesIff(steps, feature, commit);
    var s := Run(NOTHING_YET, steps);
    if i, k :| 0 <= i < |s.calls| && 0 <= k < |s.events| && Overtakes(s, i, k, feature, commit) {
      OvertakenTwice(s, i, k, feature, commit);
      assert false;
    }
  }

  lemma OvertakenTwice(s: State, i: nat, k: nat, feature: string, commit: string)
    requires Inv(s) && i < |s.calls| && k < |s.events| && Overtakes(s, i, k, feature, commit)
    ensures exists l :: 0 <= l < |s.events| && BothAccept(s, k, l, feature, commit) && k != l
  {
    CompletionAt(s, i);
    assert BothAccept(s, k, s.calls[i].at[8], feature, commit);
  }

  // ---------------------------------------------------------------- calls alone

  function Times(step: Step, n: nat): (r: seq<Step>)
    ensures |r| == n
  {
    seq(n, _ => step)
  }

  lemma {:induction false} RunAppend(s: State, a: seq<Step>, b: seq<Step>)
    ensures Run(s, a + b) == Run(Run(s, a), b)
    decreases |a|
  {
    hide Next;
    if a == [] {
      assert a + b == b;
    } else {
      assert (a + b)[1..] == a[1..] + b;
      RunAppend(Next(s, a[0]), a[1..], b);
    }
  }

  lemma RunTimes(s: State, step: Step, n: nat)
    ensures Run(s, Times(step, n + 1)) == Next(Run(s, Times(step, n)), step)
  {
    hide Next;
    assert Times(step, n + 1) == Times(step, n) + [step];
    RunAppend(s, Times(step, n), [step]);
    var t := Run(s, Times(step, n));
    assert Run(t, [step]) == Run(Next(t, step), [][..]);
  }

  function Positions(start: nat, n: nat): seq<nat> {
    seq(n, k requires 0 <= k < n => start + k)
  }

  /** An undisturbed call writes its events one after the other. */
  lemma {:induction false} Performs(s: State, i: nat, n: nat)
    requires i < |s.calls| && s.calls[i].phase.Performing? && s.calls[i].at == [] && n <= 11
    requires History(s.events, Own(s.calls[i])) == []
    ensures var p := s.calls[i];
      Run(s, Times(Go(i), n)) == State(
        Written(s.events, Own(p), Script(p.candidate, p.seen)[..n]), s.calls[i := p.(at := Positions(|s.events|, n))])
    decreases n
  {
    hide Run, Admissible, History, Script;
    var p := s.calls[i];
    if n == 0 {
      Nothing(s, i);
    } else {
      Performs(s, i, n - 1);
      RunTimes(s, Go(i), n - 1);
      var script := Script(p.candidate, p.seen);
      NextAdmissible(s.events, Own(p), p.candidate, p.seen, n - 1);
      assert script[..n] == script[..n - 1] + [script[n - 1]];
      assert Positions(|s.events|, n) == Positions(|s.events|, n - 1) + [|s.events| + n - 1];
    }
  }

  lemma Nothing(s: State, i: nat)
    requires i < |s.calls|
    ensures Run(s, Times(Go(i), 0)) == s && s.calls[i := s.calls[i]] == s.calls
    ensures forall t, x :: Written(s.events, t, Script(s.calls[i].candidate, x)[..0]) == s.events
    ensures s.calls[i].at == [] ==> s.calls[i].(at := Positions(|s.events|, 0)) == s.calls[i]
  {
    assert Times(Go(i), 0) == [];
  }

  /** The failure record of a call whose acceptance has stopped after `m` events. */
  lemma {:induction false} Records(s: State, i: nat, start: seq<Event>, m: nat, n: nat)
    requires i < |s.calls| && s.calls[i].phase == Blocking(0) && 2 <= m <= 8 && n <= 3
    requires var p := s.calls[i];
      History(start, Own(p)) == [] && s.events == Written(start, Own(p), Script(p.candidate, p.seen)[..m])
    ensures var p := s.calls[i];
      Run(s, Times(Go(i), n)) == State(
        Written(start, Own(p), Script(p.candidate, p.seen)[..m] + FAILURE_SCRIPT[..n]),
          s.calls[i := p.(phase := Blocking(n))])
    decreases n
  {
    hide Run, Admissible, History, Script;
    var p := s.calls[i];
    var script := Script(p.candidate, p.seen)[..m];
    if n == 0 {
      Nothing(s, i);
      assert script + FAILURE_SCRIPT[..0] == script;
    } else {
      Records(s, i, start, m, n - 1);
      RunTimes(s, Go(i), n - 1);
      NextFailureAdmissible(start, Own(p), p.candidate, p.seen, m, n - 1);
      assert script + FAILURE_SCRIPT[..n] == script + FAILURE_SCRIPT[..n - 1] + [FAILURE_SCRIPT[n - 1]];
    }
  }

  /** A call that has passed its check and is then left alone performs `Performed`. */
  lemma PerformedIsRun(s: State, i: nat, call: Call) returns (steps: seq<Step>)
    requires i < |s.calls| && s.calls[i].phase.Performing? && s.calls[i].at == []
    requires s.calls[i].candidate == call.candidate && s.calls[i].run == call.run && s.calls[i].seen == call.seen
    ensures Run(s, steps).events == Performed(s.events, call)
  {
    hide Run, Admissible, History, Script, Written;
    var p := s.calls[i];
    if History(s.events, Own(p)) != [] {
      steps := Times(Go(i), 1);
      RunTimes(s, Go(i), 0);
      Nothing(s, i);
      FirstIsStart(p);
      StartRefused(s.events, Own(p), StartOf(p.candidate, p.seen));
    } else {
      var n := Least(call.stop, 11);
      Performs(s, i, n);
      var t := Run(s, Times(Go(i), n));
      if 2 <= call.stop <= 8 {
        var failed := Next(t, Raise(i));
        var k := Least(call.failureStop, 3);
        steps := Times(Go(i), n) + ([Raise(i)] + Times(Go(i), k));
        RunAppend(s, Times(Go(i), n), [Raise(i)] + Times(Go(i), k));
        RunFirst(t, Raise(i), Times(Go(i), k));
        Records(failed, i, s.events, n, k);
        SomeFailureEvents(call);
      } else {
        steps := Times(Go(i), n);
        NoFailureEvents(call);
      }
    }
  }

  lemma StartRefused(events: seq<Event>, t: TxId, payload: Payload)
    requires History(events, t) != []
    ensures !Admissible(History(events, t), TransactionStarted, payload)
  {
  }

  lemma RunFirst(s: State, step: Step, rest: seq<Step>)
    ensures Run(s, [step] + rest) == Run(Next(s, step), rest)
  {
    assert ([step] + rest)[1..] == rest;
  }

  function BeginOf(call: Call): Step {
    Begin(call.candidate, call.run, call.recover, call.seen)
  }

  /** The process of a call whose check has just been passed. */
  function PassedProcess(s: State, call: Call): Process {
    Process(call.candidate, call.run, call.seen, Performing, |Checked(s.events, call).0|, [])
  }

  /** The two appends of a recovery that has read the ledger `events`. */
  lemma RecoversAlone(s: State, i: nat, target: TxId, k: nat)
    requires i < |s.calls| && s.calls[i].phase == Superseding(target, 0) && k <= 2
    requires |EventsOf(s.events, target)| == 1 && EventsOf(s.events, target)[0].kind == TransactionStarted
    ensures var p := s.calls[i];
      var terminal := Stamped(s.events, TransactionSuperseded, target, FeatureAcceptance, SupersededBy(Own(p), p.run));
      var applied := Stamped(s.events + [terminal], RecoveryApplied, target, FeatureAcceptance,
        OtherPayload("start superseded"));
      Run(s, Times(Go(i), k)) == State(s.events + [terminal, applied][..k],
        s.calls[i := p.(phase := if k < 2 then Superseding(target, k) else Unchecked)])
  {
    hide Run, Admissible, History, EventsOf;
    var p := s.calls[i];
    SupersedeAdmissible(s.events, target, SupersededBy(Own(p), p.run), OtherPayload("start superseded"));
    Nothing(s, i);
    RunTimes(s, Go(i), 0);
    RunTimes(s, Go(i), 1);
  }

  /** Recovery and duplicate check of a call that is left alone. */
  lemma CheckedIsRun(s: State, call: Call) returns (steps: seq<Step>)
    ensures Run(s, steps).events == Checked(s.events, call).0
    ensures Checked(s.events, call).1 ==> Run(s, steps).calls == s.calls + [PassedProcess(s, call)]
  {
    hide Run, Supersede, Admissible, History, EventsOf, AlreadyAccepted;
    var i := |s.calls|;
    steps := [];
    assert Run(s, []) == s by { RunNothing(s); }
    if call.inspected && Begun(s.events, call.candidate, call.run, call.recover, call.seen) != [] {
      var begun := Next(s, BeginOf(call));
      var check := [Go(i)];
      if begun.calls[i].phase.Unchecked? {
        steps := [BeginOf(call)] + check;
        RunFirst(s, BeginOf(call), check);
        ChecksAlone(begun, i);
        UncheckedRecovers(s.events, call);
      } else {
        var target, k := call.recover.value, Least(call.recoveryStop, 2);
        SupersedeReads(s.events, target, call.candidate, call.run, call.seen);
        RecoversAlone(begun, i, target, k);
        var recovered := Run(begun, Times(Go(i), k));
        RunFirst(s, BeginOf(call), Times(Go(i), k));
        steps := [BeginOf(call)] + Times(Go(i), k);
        if k == 2 {
          RunAppend(s, steps, check);
          ChecksAlone(recovered, i);
          steps := steps + check;
        }
      }
    }
  }

  lemma RunNothing(s: State)
    ensures Run(s, []) == s
  {
  }

  lemma ChecksAlone(s: State, i: nat)
    requires i < |s.calls| && s.calls[i].phase.Unchecked?
    ensures Run(s, [Go(i)]) == s.(calls := s.calls[i := AfterCheck(s.events, s.calls[i])])
  {
    hide AlreadyAccepted;
    assert [Go(i)][1..] == [];
  }

  lemma UncheckedRecovers(events: seq<Event>, call: Call)
    requires var b := Begun(events, call.candidate, call.run, call.recover, call.seen); b != [] && b[0].phase.Unchecked?
    ensures Recovered(events, call) == (events, true)
  {
    hide Supersede;
    assert events + [] == events;
  }

  /** What a fresh supersession has read, and what it will append. */
  lemma SupersedeReads(events: seq<Event>, target: TxId, c: Candidate, run: string, seen: Observation)
    requires Supersede(events, target, c, run, seen).Ok? && Supersede(events, target, c, run, seen).value.1 != []
    ensures |EventsOf(events, target)| == 1 && EventsOf(events, target)[0].kind == TransactionStarted
    ensures var terminal := Stamped(events, TransactionSuperseded, target, FeatureAcceptance,
      SupersededBy(IdOf(c, run), run));
      var applied := Stamped(events + [terminal], RecoveryApplied, target, FeatureAcceptance,
        OtherPayload("start superseded"));
      Supersede(events, target, c, run, seen).value.1 == [terminal, applied]
  {
    hide EventsOf, Incomplete, MatchesObservation;
  }

  /** No step of call `i`. */
  predicate LeavesAlone(steps: seq<Step>, i: nat) {
    forall k :: 0 <= k < |steps| ==> steps[k] != Go(i) && steps[k] != Raise(i)
  }

  /** What other steps add to the ledger, as attempts of other processes. */
  lemma {:induction false} JoinedByRun(s: State, steps: seq<Step>, i: nat) returns (others: seq<Attempt>)
    requires i < |s.calls| && LeavesAlone(steps, i)
    ensures Run(s, steps).events == Joined(s.events, others)
    ensures i < |Run(s, steps).calls| && Run(s, steps).calls[i] == s.calls[i]
    decreases |steps|
  {
    hide Next, Joined, Attempted;
    if steps == [] {
      others := [];
      JoinNothing(s.events);
    } else {
      var first := StepAttempts(s, steps[0], i);
      var rest := JoinedByRun(Next(s, steps[0]), steps[1..], i);
      others := first + rest;
      JoinMore(s.events, first, rest);
    }
  }

  lemma StepAttempts(s: State, step: Step, i: nat) returns (others: seq<Attempt>)
    requires i < |s.calls| && step != Go(i) && step != Raise(i)
    ensures |others| <= 1 && Next(s, step).events == Joined(s.events, others)
    ensures i < |Next(s, step).calls| && Next(s, step).calls[i] == s.calls[i]
  {
    hide Admissible, History, Begun, AlreadyAccepted, Script;
    if step.Other? && Foreign(step.attempt) {
      others := [step.attempt];
    } else if step.Go? && step.i < |s.calls| && !s.calls[step.i].phase.Unchecked? && Pending(s.calls[step.i]).Some? {
      others := [Pending(s.calls[step.i]).value];
    } else {
      others := [];
    }
  }

  lemma JoinNothing(events: seq<Event>)
    ensures Joined(events, []) == events
  {
  }

  lemma JoinMore(events: seq<Event>, first: seq<Attempt>, rest: seq<Attempt>)
    requires |first| <= 1
    ensures Joined(events, first + rest) == Joined(Joined(events, first), rest)
  {
    hide Attempted;
    if first == [] {
      assert first + rest == rest;
    } else {
      assert (first + rest)[1..] == rest && first[1..] == [];
    }
  }

  /**
   Every outcome of `AcceptFeature` is a run: whatever other steps come between its duplicate check
   and its lease, there are attempts `others` with which the method leaves the ledger of that run.
   */
  lemma CallIsRun(s: State, call: Call, between: seq<Step>)
    returns (before: seq<Step>, after: seq<Step>, others: seq<Attempt>)
    requires LeavesAlone(between, |s.calls|)
    ensures !Checked(s.events, call).1 ==> Run(s, before).events == After(s.events, call, others)
    ensures Checked(s.events, call).1 ==>
      && Run(Run(s, before), between).events == Joined(Checked(s.events, call).0, others)
      && Run(Run(Run(s, before), between), after).events == After(s.events, call, others)
  {
    hide Run, Checked, Performed, Joined;
    before := CheckedIsRun(s, call);
    after, others := [], [];
    if Checked(s.events, call).1 {
      others := JoinedByRun(Run(s, before), between, |s.calls|);
      after := PerformedIsRun(Run(Run(s, before), between), |s.calls|, call);
    }
  }

  // ---------------------------------------------------------------- two overlapping calls

  /** Both calls are checked, and then one acceptance follows the other. */
  function Overlapping(c: Candidate, a: string, b: string, first: Observation, second: Observation): seq<Step> {
    [Begin(c, a, None, first), Begin(c, b, None, second), Go(0), Go(1)] + Times(Go(0), 11) + Times(Go(1), 11)
  }

  lemma BothChecked(c: Candidate, a: string, b: string, first: Observation, second: Observation)
    requires Authentic(c)
    ensures Run(NOTHING_YET, [Begin(c, a, None, first), Begin(c, b, None, second), Go(0), Go(1)])
         == State([], [Process(c, a, first, Performing, 0, []), Process(c, b, second, Performing, 0, [])])
  {
    hide Run, Act;
    var p, q := Process(c, a, first, Unchecked, 0, []), Process(c, b, second, Unchecked, 0, []);
    var rest := [Begin(c, b, None, second)] + ([Go(0)] + [Go(1)]);
    assert [] + [p] == [p] && [p] + [q] == [p, q];
    assert Next(NOTHING_YET, Begin(c, a, None, first)) == State([], [p]);
    assert Next(State([], [p]), Begin(c, b, None, second)) == State([], [p, q]);
    assert [Begin(c, a, None, first), Begin(c, b, None, second), Go(0), Go(1)] == [Begin(c, a, None, first)] + rest;
    RunFirst(NOTHING_YET, Begin(c, a, None, first), rest);
    RunFirst(State([], [p]), Begin(c, b, None, second), [Go(0)] + [Go(1)]);
    RunAppend(State([], [p, q]), [Go(0)], [Go(1)]);
    ChecksAlone(State([], [p, q]), 0);
    assert [p, q][0 := AfterCheck([], p)] == [AfterCheck([], p), q];
    ChecksAlone(State([], [AfterCheck([], p), q]), 1);
    assert [AfterCheck([], p), q][1 := AfterCheck([], q)] == [AfterCheck([], p), AfterCheck([], q)];
  }

  /**
   Two calls for one candidate under different run identities can both complete, although neither
   performs anything while the other one does; from then on the reader raises for the candidate.
   */
  lemma TwoCallsComplete(c: Candidate, a: string, b: string, first: Observation, second: Observation)
    requires Authentic(c) && a != b
    ensures var s := Run(NOTHING_YET, Overlapping(c, a, b, first, second));
      && s.events == Written(Written([], IdOf(c, a), Script(c, first)), IdOf(c, b), Script(c, second))
      && Overtaken(s, c.feature, c.commit)
      && ControllerAcceptance(s.events, c.feature, c.commit) == Err(NotOneAcceptance)
  {
    hide Run, Script, Overtaken, ControllerAcceptance, Written;
    var begin := [Begin(c, a, None, first), Begin(c, b, None, second), Go(0), Go(1)];
    var steps := Overlapping(c, a, b, first, second);
    var t := Run(NOTHING_YET, begin);
    BothChecked(c, a, b, first, second);
    Performs(t, 0, 11);
    var u := Run(t, Times(Go(0), 11));
    HistoryElsewhere(IdOf(c, a), IdOf(c, b), Script(c, first));
    assert Script(c, first)[..11] == Script(c, first) && Script(c, second)[..11] == Script(c, second);
    Performs(u, 1, 11);
    RunAppend(NOTHING_YET, begin, Times(Go(0), 11));
    RunAppend(NOTHING_YET, begin + Times(Go(0), 11), Times(Go(1), 11));
    AllRunsKeep(steps);
    var s := Run(NOTHING_YET, steps);
    CompletionAt(s, 0);
    CompletionAt(s, 1);
    assert Overtakes(s, 1, s.calls[0].at[8], c.feature, c.commit);
    IsOvertaken(s, 1, s.calls[0].at[8], c.feature, c.commit);
    Reads(s, 0);
  }

  lemma IsOvertaken(s: State, i: nat, k: nat, feature: string, commit: string)
    requires i < |s.calls| && k < |s.events| && Overtakes(s, i, k, feature, commit)
    ensures Overtaken(s, feature, commit)
  {
  }

  lemma HistoryElsewhere(t: TxId, u: TxId, script: seq<(Kind, Payload)>)
    requires t != u
    ensures History(Written([], t, script), u) == []
  {
    hide History;
    var all := Written([], t, script);
    if History(all, u) != [] {
      HistoryMember(all, u, History(all, u)[0]);
      assert false;
    }
  }
}
