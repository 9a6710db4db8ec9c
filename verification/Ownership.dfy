/**
 The file-backed ownership protocol of `AutopilotOwnership` (src/development_conveyor/autopilot.py):
 any number of runs acquire, beat and release through one ownership file and the crash evidence
 beside it. Every file operation is one step, and steps of different runs interleave freely.

 A file is identified by the run that created it; run identities are unique. A file exists
 from its exclusive creation, and carries its record once it is filled.
 */
module Ownership {
  import opened Prelude

  type Run = string

  /** Where a run is in `acquire`, `heartbeat` or `release`. */
  datatype Phase =
    | Idle
    | Recovering(dead: Run)   // read a record and authenticated its owner as dead
    | Renaming(dead: Run)     // found no crash evidence for it
    | Unlinking(dead: Run)    // found equal crash evidence for it
    | Creating
    | Filling
    | Owning                  // acquire has returned
    | Beating                 // heartbeat has read its own record
    | Releasing               // release has read its own record
    | Released
    | Failed
    | Crashed

  datatype State = State(
    owner: Option<Run>,              // the file at the ownership path
    filled: set<Run>,                // the files that carry their record
    evidence: map<Run, Run>,         // ownership.recovered-<run>.json and the file it is
    phases: map<Run, Phase>)

  function PhaseOf(s: State, p: Run): Phase {
    if p in s.phases then s.phases[p] else Idle
  }

  function Moved(s: State, p: Run, phase: Phase): State {
    s.(phases := s.phases[p := phase])
  }

  datatype Step =
    | ReadExisting(p: Run, authenticated: bool)
    | CheckEvidence(p: Run)
    | Rename(p: Run)
    | UnlinkStale(p: Run)
    | Create(p: Run)
    | Fill(p: Run)
    | Heartbeat(p: Run)
    | HeartbeatRead(p: Run)
    | HeartbeatWrite(p: Run)
    | ReleaseRead(p: Run)
    | ReleaseUnlink(p: Run)
    | Crash(p: Run)

  /** The record at the ownership path is the run's own. */
  predicate HoldsRecord(s: State, p: Run) {
    s.owner == Some(p) && p in s.filled
  }

  /** A heartbeat of the run would succeed now. */
  predicate Passes(s: State, p: Run) {
    PhaseOf(s, p) == Owning && HoldsRecord(s, p)
  }

  predicate Enabled(s: State, step: Step) {
    match step
    case ReadExisting(p, _) => PhaseOf(s, p).Idle?
    case CheckEvidence(p) => PhaseOf(s, p).Recovering?
    case Rename(p) => PhaseOf(s, p).Renaming?
    case UnlinkStale(p) => PhaseOf(s, p).Unlinking?
    case Create(p) => PhaseOf(s, p).Creating?
    case Fill(p) => PhaseOf(s, p).Filling?
    case Heartbeat(p) => PhaseOf(s, p).Owning?
    case HeartbeatRead(p) => PhaseOf(s, p).Owning?
    case HeartbeatWrite(p) => PhaseOf(s, p).Beating?
    case ReleaseRead(p) => PhaseOf(s, p).Owning?
    case ReleaseUnlink(p) => PhaseOf(s, p).Releasing?
    case Crash(p) => !PhaseOf(s, p).Released? && !PhaseOf(s, p).Failed?
  }

  function Apply(s: State, step: Step): State
    requires Enabled(s, step)
  {
    match step
    case ReadExisting(p, authenticated) =>
      if s.owner.None? then Moved(s, p, Creating)
      else
        var q := s.owner.value;
        if q !in s.filled || !PhaseOf(s, q).Crashed? || !authenticated then Moved(s, p, Failed)
        else Moved(s, p, Recovering(q))
    case CheckEvidence(p) =>
      var q := PhaseOf(s, p).dead;
      if q !in s.evidence then Moved(s, p, Renaming(q))
      else if s.evidence[q] == q && q in s.filled then Moved(s, p, Unlinking(q))
      else Moved(s, p, Failed)
    case Rename(p) =>
      if s.owner.None? then Moved(s, p, Failed)
      else Moved(s, p, Creating).(owner := None, evidence := s.evidence[PhaseOf(s, p).dead := s.owner.value])
    case UnlinkStale(p) =>
      if s.owner.None? then Moved(s, p, Failed) else Moved(s, p, Creating).(owner := None)
    case Create(p) =>
      if s.owner.Some? then Moved(s, p, Failed) else Moved(s, p, Filling).(owner := Some(p))
    case Fill(p) => Moved(s, p, Owning).(filled := s.filled + {p})
    case Heartbeat(p) => s
    case HeartbeatRead(p) => if HoldsRecord(s, p) then Moved(s, p, Beating) else s
    case HeartbeatWrite(p) => Moved(s, p, Owning).(owner := Some(p))
    case ReleaseRead(p) => Moved(s, p, if HoldsRecord(s, p) then Releasing else Released)
    case ReleaseUnlink(p) => Moved(s, p, Released).(owner := None)
    case Crash(p) => Moved(s, p, Crashed)
  }

  /** Each step is enabled where it is taken. */
  ghost predicate Runs(s: State, steps: seq<Step>)
    decreases |steps|
  {
    steps == [] || (Enabled(s, steps[0]) && Runs(Apply(s, steps[0]), steps[1..]))
  }

  ghost function After(s: State, steps: seq<Step>): State
    requires Runs(s, steps)
    decreases |steps|
  {
    if steps == [] then s else After(Apply(s, steps[0]), steps[1..])
  }

  /** Nothing has happened yet, except that a crashed run may have left its record. */
  ghost predicate Initial(s: State) {
    && s.evidence == map[]
    && match s.owner
       case None => s.filled == {} && s.phases == map[]
       case Some(q) => s.filled == {q} && s.phases == map[q := Crashed]
  }

  /** Heartbeats read and write their record in one step. */
  predicate Atomic(step: Step) {
    !step.HeartbeatRead? && !step.HeartbeatWrite?
  }

  predicate Displaces(step: Step) {
    step.Rename? || step.UnlinkStale?
  }

  // ---------------------------------------------------------------- safety in every reachable state

  /** The run has not created its file yet. */
  predicate BeforeCreation(phase: Phase) {
    phase.Idle? || phase.Recovering? || phase.Renaming? || phase.Unlinking? || phase.Creating?
  }

  /** What every step keeps: a run that has created no file is nowhere in the file system. */
  ghost predicate Inv(s: State) {
    OwnerCreated(s) && FilledCreated(s) && EvidenceCreated(s)
  }

  ghost predicate OwnerCreated(s: State) {
    s.owner.Some? ==> !BeforeCreation(PhaseOf(s, s.owner.value))
  }

  ghost predicate FilledCreated(s: State) {
    forall p :: p in s.filled ==> !BeforeCreation(PhaseOf(s, p)) && !PhaseOf(s, p).Filling?
  }

  ghost predicate EvidenceCreated(s: State) {
    forall q :: q in s.evidence ==> !BeforeCreation(PhaseOf(s, s.evidence[q]))
  }

  lemma OwnerStep(s: State, step: Step)
    requires OwnerCreated(s) && Enabled(s, step)
    ensures OwnerCreated(Apply(s, step))
  {
  }

  lemma FilledStep(s: State, step: Step)
    requires FilledCreated(s) && Enabled(s, step)
    ensures FilledCreated(Apply(s, step))
  {
  }

  lemma EvidenceStep(s: State, step: Step)
    requires OwnerCreated(s) && EvidenceCreated(s) && Enabled(s, step)
    ensures EvidenceCreated(Apply(s, step))
  {
  }

  lemma InvStep(s: State, step: Step)
    requires Inv(s) && Enabled(s, step)
    ensures Inv(Apply(s, step))
  {
    hide Apply, OwnerCreated, FilledCreated, EvidenceCreated;
    OwnerStep(s, step);
    FilledStep(s, step);
    EvidenceStep(s, step);
  }

  lemma {:induction false} InvKept(s: State, steps: seq<Step>)
    requires Inv(s) && Runs(s, steps)
    ensures Inv(After(s, steps))
    decreases |steps|
  {
    if steps != [] {
      InvStep(s, steps[0]);
      InvKept(Apply(s, steps[0]), steps[1..]);
    }
  }

  /** Every file in a reachable state was created by a run that has got past its creation step. */
  lemma InvAlways(s: State, steps: seq<Step>)
    requires Initial(s) && Runs(s, steps)
    ensures Inv(After(s, steps))
  {
    InvKept(s, steps);
  }

  /** No record that was set aside as crash evidence is at the ownership path. */
  ghost predicate EvidenceApart(s: State) {
    forall q :: q in s.evidence ==> s.owner != Some(s.evidence[q])
  }

  lemma EvidenceApartStep(s: State, step: Step)
    requires Inv(s) && EvidenceApart(s) && Enabled(s, step) && Atomic(step)
    ensures EvidenceApart(Apply(s, step))
  {
  }

  lemma {:induction false} EvidenceApartKept(s: State, steps: seq<Step>)
    requires Inv(s) && EvidenceApart(s) && Runs(s, steps)
    requires forall i :: 0 <= i < |steps| ==> Atomic(steps[i])
    ensures EvidenceApart(After(s, steps))
    decreases |steps|
  {
    hide Inv, EvidenceApart, Apply, Enabled;
    if steps != [] {
      InvStep(s, steps[0]);
      EvidenceApartStep(s, steps[0]);
      EvidenceApartKept(Apply(s, steps[0]), steps[1..]);
    }
  }

  /**
   With atomic heartbeats a run whose record was ever set aside as crash evidence has once created its
   file, and never passes `heartbeat`.
   */
  lemma EvidenceNeverPasses(s: State, steps: seq<Step>, q: Run)
    requires Initial(s) && Runs(s, steps) && forall i :: 0 <= i < |steps| ==> Atomic(steps[i])
    requires q in After(s, steps).evidence
    ensures var p := After(s, steps).evidence[q];
      !BeforeCreation(PhaseOf(After(s, steps), p)) && !Passes(After(s, steps), p)
  {
    InvAlways(s, steps);
    EvidenceApartKept(s, steps);
  }

  /** A run is displaced: it has created its file, and the file is not at the ownership path. */
  predicate Displaced(s: State, p: Run) {
    !BeforeCreation(PhaseOf(s, p)) && s.owner != Some(p)
  }

  lemma DisplacedStep(s: State, step: Step, p: Run)
    requires Enabled(s, step) && Atomic(step) && Displaced(s, p)
    ensures Displaced(Apply(s, step), p)
  {
  }

  /**
   With atomic heartbeats a displaced run never passes `heartbeat` again, whatever the
   other runs do.
   */
  lemma {:induction false} DisplacedForEver(s: State, steps: seq<Step>, p: Run)
    requires Runs(s, steps) && Displaced(s, p)
    requires forall i :: 0 <= i < |steps| ==> Atomic(steps[i])
    ensures Displaced(After(s, steps), p) && !Passes(After(s, steps), p)
    decreases |steps|
  {
    if steps != [] {
      DisplacedStep(s, steps[0], p);
      DisplacedForEver(Apply(s, steps[0]), steps[1..], p);
    }
  }

  lemma {:induction false} CreatedForEver(s: State, steps: seq<Step>, p: Run)
    requires Runs(s, steps) && !BeforeCreation(PhaseOf(s, p))
    ensures !BeforeCreation(PhaseOf(After(s, steps), p))
    decreases |steps|
  {
    if steps != [] {
      CreatedForEver(Apply(s, steps[0]), steps[1..], p);
    }
  }

  /**
   Ownership is handed over once: after one run has passed `heartbeat` and later another run
   has, the first one never passes again.
   */
  lemma HandOver(s: State, first: seq<Step>, second: seq<Step>, p: Run, q: Run)
    requires Runs(s, first) && Runs(After(s, first), second)
    requires forall i :: 0 <= i < |second| ==> Atomic(second[i])
    requires Passes(s, p) && Passes(After(s, first), q) && p != q
    ensures !Passes(After(After(s, first), second), p)
  {
    CreatedForEver(s, first, p);
    DisplacedForEver(After(s, first), second, p);
  }

  /** Inside `acquire` after its creation step, or after `acquire` and before the end of `release`. */
  predicate Acquired(phase: Phase) {
    phase.Filling? || phase.Owning? || phase.Beating? || phase.Releasing?
  }

  /** Without displacement every acquired run has its file at the ownership path. */
  ghost predicate Exclusive(s: State) {
    forall p :: p in s.phases && Acquired(s.phases[p]) ==> s.owner == Some(p)
  }

  /** The step takes away the file of a run that has acquired. */
  predicate TakesLive(s: State, step: Step) {
    Displaces(step) && s.owner.Some? && Acquired(PhaseOf(s, s.owner.value))
  }

  lemma ExclusiveStep(s: State, step: Step)
    requires Exclusive(s) && Enabled(s, step) && !TakesLive(s, step)
    ensures Exclusive(Apply(s, step))
  {
    var next := Apply(s, step);
    forall p | p in next.phases && Acquired(next.phases[p]) ensures next.owner == Some(p) {
      assert p != step.p ==> p in s.phases && s.phases[p] == next.phases[p];
    }
  }

  lemma {:induction false} TookLive(s: State, steps: seq<Step>, p: Run, q: Run) returns (i: nat)
    requires Exclusive(s) && Runs(s, steps) && p != q
    requires Acquired(PhaseOf(After(s, steps), p)) && Acquired(PhaseOf(After(s, steps), q))
    ensures i < |steps| && Runs(s, steps[..i]) && TakesLive(After(s, steps[..i]), steps[i])
    decreases |steps|
  {
    hide Apply, Enabled;
    assert steps != [];
    if TakesLive(s, steps[0]) {
      i := 0;
    } else {
      ExclusiveStep(s, steps[0]);
      var k := TookLive(Apply(s, steps[0]), steps[1..], p, q);
      i := k + 1;
      assert steps[..i][0] == steps[0] && steps[..i][1..] == steps[1..][..k];
    }
  }

  /**
   Whenever two runs have acquired at once, some step before has taken away the file of a run that
   had acquired; heartbeats need not be atomic.
   */
  lemma SecondAcquireTookLive(s: State, steps: seq<Step>, p: Run, q: Run) returns (i: nat)
    requires Initial(s) && Runs(s, steps) && p != q
    requires Acquired(PhaseOf(After(s, steps), p)) && Acquired(PhaseOf(After(s, steps), q))
    ensures i < |steps| && Runs(s, steps[..i]) && TakesLive(After(s, steps[..i]), steps[i])
  {
    assert Exclusive(s);
    i := TookLive(s, steps, p, q);
  }

  /**
   As long as no record is displaced, at most one `acquire` has succeeded without its release,
   even when heartbeats are not atomic.
   */
  lemma {:induction false} AtMostOneAcquired(s: State, steps: seq<Step>)
    requires Exclusive(s) && Runs(s, steps)
    requires forall i :: 0 <= i < |steps| ==> !Displaces(steps[i])
    ensures var e := After(s, steps);
      forall p, q :: p in e.phases && q in e.phases && Acquired(e.phases[p]) && Acquired(e.phases[q]) ==> p == q
    ensures Exclusive(After(s, steps))
    decreases |steps|
  {
    if steps != [] {
      ExclusiveStep(s, steps[0]);
      AtMostOneAcquired(Apply(s, steps[0]), steps[1..]);
    }
  }

  /** No run crashes: then no record is ever authenticated as recoverable, so none is displaced. */
  ghost predicate NobodyDead(s: State) {
    forall p :: p in s.phases ==>
      !s.phases[p].Crashed? && !s.phases[p].Recovering? && !s.phases[p].Renaming? && !s.phases[p].Unlinking?
  }

  lemma {:induction false} NoCrashNoDisplacement(s: State, steps: seq<Step>)
    requires NobodyDead(s) && Runs(s, steps)
    requires forall i :: 0 <= i < |steps| ==> !steps[i].Crash?
    ensures forall i :: 0 <= i < |steps| ==> !Displaces(steps[i])
    decreases |steps|
  {
    if steps != [] {
      assert NobodyDead(Apply(s, steps[0]));
      NoCrashNoDisplacement(Apply(s, steps[0]), steps[1..]);
      forall i | 0 < i < |steps| ensures !Displaces(steps[i]) {
        assert steps[i] == steps[1..][i - 1];
      }
    }
  }

  const NO_RUN: State := State(None, {}, map[], map[])

  /** From an empty directory and without crashes, at most one concurrent `acquire` succeeds until release. */
  lemma ExclusiveWithoutCrash(steps: seq<Step>, p: Run, q: Run)
    requires Runs(NO_RUN, steps) && forall i :: 0 <= i < |steps| ==> !steps[i].Crash?
    requires p in After(NO_RUN, steps).phases && q in After(NO_RUN, steps).phases
    requires Acquired(After(NO_RUN, steps).phases[p]) && Acquired(After(NO_RUN, steps).phases[q])
    ensures p == q && After(NO_RUN, steps).owner == Some(p)
  {
    NoCrashNoDisplacement(NO_RUN, steps);
    AtMostOneAcquired(NO_RUN, steps);
  }

  // ---------------------------------------------------------------- what recovery does not promise

  /** The states around the steps of one concrete run. */
  ghost predicate Chain(states: seq<State>, steps: seq<Step>) {
    && |states| == |steps| + 1
    && forall i :: 0 <= i < |steps| ==> Enabled(states[i], steps[i]) && Apply(states[i], steps[i]) == states[i + 1]
  }

  lemma {:induction false} ChainRuns(states: seq<State>, steps: seq<Step>)
    requires Chain(states, steps)
    ensures Runs(states[0], steps) && After(states[0], steps) == states[|steps|]
    decreases |steps|
  {
    hide Enabled, Apply;
    if steps != [] {
      ChainRuns(states[1..], steps[1..]);
    }
  }

  lemma {:induction false} RunsAppend(s: State, a: seq<Step>, b: seq<Step>)
    requires Runs(s, a) && Runs(After(s, a), b)
    ensures Runs(s, a + b) && After(s, a + b) == After(After(s, a), b)
    decreases |a|
  {
    hide Enabled, Apply;
    if a == [] {
      assert a + b == b;
    } else {
      assert (a + b)[1..] == a[1..] + b;
      RunsAppend(Apply(s, a[0]), a[1..], b);
    }
  }

  function LeftBehind(r: Run): State {
    State(Some(r), {r}, map[], map[r := Crashed])
  }

  /** Both runs have authenticated the crashed owner `r` as dead and have found no crash evidence. */
  function BothChecked(p: Run, q: Run, r: Run): State {
    Moved(Moved(Moved(Moved(LeftBehind(r), p, Recovering(r)), q, Recovering(r)), p, Renaming(r)), q, Renaming(r))
  }

  /** After that `p` has displaced the record of `r` and has acquired; `q` is about to rename. */
  function Racing(p: Run, q: Run, r: Run): State {
    var renamed := Moved(BothChecked(p, q, r), p, Creating).(owner := None, evidence := map[r := r]);
    var created := Moved(renamed, p, Filling).(owner := Some(p));
    Moved(created, p, Owning).(filled := {r} + {p})
  }

  function CheckSteps(p: Run, q: Run): seq<Step> {
    [ReadExisting(p, true), ReadExisting(q, true), CheckEvidence(p), CheckEvidence(q)]
  }

  function AcquireSteps(p: Run): seq<Step> {
    [Rename(p), Create(p), Fill(p)]
  }

  function RaceSteps(p: Run, q: Run): seq<Step> {
    CheckSteps(p, q) + AcquireSteps(p)
  }

  lemma BothRead(p: Run, q: Run, r: Run)
    requires p != q && p != r && q != r
    ensures var steps := [ReadExisting(p, true), ReadExisting(q, true)];
      Runs(LeftBehind(r), steps) &&
        After(LeftBehind(r), steps) == Moved(Moved(LeftBehind(r), p, Recovering(r)), q, Recovering(r))
  {
    var s0 := LeftBehind(r);
    var s1 := Moved(s0, p, Recovering(r));
    var states := [s0, s1, Moved(s1, q, Recovering(r))];
    assert Chain(states, [ReadExisting(p, true), ReadExisting(q, true)]);
    ChainRuns(states, [ReadExisting(p, true), ReadExisting(q, true)]);
  }

  lemma BothCheck(s: State, p: Run, q: Run, r: Run)
    requires p != q && PhaseOf(s, p) == Recovering(r) && PhaseOf(s, q) == Recovering(r) && r !in s.evidence
    ensures Runs(s, [CheckEvidence(p), CheckEvidence(q)])
    ensures After(s, [CheckEvidence(p), CheckEvidence(q)]) == Moved(Moved(s, p, Renaming(r)), q, Renaming(r))
  {
    var s1 := Moved(s, p, Renaming(r));
    var states := [s, s1, Moved(s1, q, Renaming(r))];
    assert Chain(states, [CheckEvidence(p), CheckEvidence(q)]);
    ChainRuns(states, [CheckEvidence(p), CheckEvidence(q)]);
  }

  lemma CheckStepsReach(p: Run, q: Run, r: Run)
    requires p != q && p != r && q != r
    ensures Runs(LeftBehind(r), CheckSteps(p, q)) && After(LeftBehind(r), CheckSteps(p, q)) == BothChecked(p, q, r)
  {
    hide Enabled, Apply, Runs, After;
    BothRead(p, q, r);
    var readings, checks := [ReadExisting(p, true), ReadExisting(q, true)], [CheckEvidence(p), CheckEvidence(q)];
    BothCheck(After(LeftBehind(r), readings), p, q, r);
    RunsAppend(LeftBehind(r), readings, checks);
    assert CheckSteps(p, q) == readings + checks;
  }

  lemma FirstAcquires(p: Run, q: Run, r: Run)
    requires p != q && p != r && q != r
    ensures Runs(BothChecked(p, q, r), AcquireSteps(p)) &&
      After(BothChecked(p, q, r), AcquireSteps(p)) == Racing(p, q, r)
  {
    var s0 := BothChecked(p, q, r);
    var s1 := Moved(s0, p, Creating).(owner := None, evidence := map[r := r]);
    var s2 := Moved(s1, p, Filling).(owner := Some(p));
    var states := [s0, s1, s2, Racing(p, q, r)];
    assert PhaseOf(s0, p) == Renaming(r);
    assert Chain(states, AcquireSteps(p));
    ChainRuns(states, AcquireSteps(p));
  }

  lemma RaceReachable(p: Run, q: Run, r: Run)
    requires p != q && p != r && q != r
    ensures Initial(LeftBehind(r)) && Runs(LeftBehind(r), RaceSteps(p, q))
    ensures After(LeftBehind(r), RaceSteps(p, q)) == Racing(p, q, r)
  {
    hide Enabled, Apply, Runs, After, CheckSteps, AcquireSteps, BothChecked, Racing;
    CheckStepsReach(p, q, r);
    FirstAcquires(p, q, r);
    RunsAppend(LeftBehind(r), CheckSteps(p, q), AcquireSteps(p));
  }

  /** `q` acquires from a state in which `p` holds the ownership file and `q` is about to rename. */
  lemma SecondAcquires(s: State, p: Run, q: Run, r: Run)
    requires p != q && p != r && q != r
    requires s.owner == Some(p) && PhaseOf(s, q) == Renaming(r) && s.evidence == map[r := r]
    ensures Runs(s, AcquireSteps(q))
    ensures var e := After(s, AcquireSteps(q));
      && e.owner == Some(q) && e.filled == s.filled + {q} && e.evidence == map[r := p]
      && PhaseOf(e, q).Owning? && PhaseOf(e, p) == PhaseOf(s, p)
  {
    var s1 := Moved(s, q, Creating).(owner := None, evidence := s.evidence[r := p]);
    var s2 := Moved(s1, q, Filling).(owner := Some(q));
    var s3 := Moved(s2, q, Owning).(filled := s2.filled + {q});
    var states := [s, s1, s2, s3];
    assert Chain(states, AcquireSteps(q));
    ChainRuns(states, AcquireSteps(q));
  }

  lemma RacingFacts(p: Run, q: Run, r: Run)
    requires p != q && p != r && q != r
    ensures var s := Racing(p, q, r);
      && s.owner == Some(p) && s.filled == {r, p} && s.evidence == map[r := r]
      && PhaseOf(s, p) == Owning && PhaseOf(s, q) == Renaming(r)
  {
  }

  /**
   When two runs recover the same crashed owner, both `acquire` calls can succeed: the second
   rename displaces the live record of the first and overwrites the crash evidence of the dead
   owner. Only the second run passes `heartbeat`.
   */
  lemma TwoAcquiresSucceed(p: Run, q: Run, r: Run)
    requires p != q && p != r && q != r
    ensures var steps := RaceSteps(p, q) + AcquireSteps(q);
      && Initial(LeftBehind(r)) && Runs(LeftBehind(r), steps)
      && var e := After(LeftBehind(r), steps);
         && PhaseOf(e, p).Owning? && PhaseOf(e, q).Owning?
         && !Passes(e, p) && Passes(e, q)
         && e.evidence == map[r := p]
  {
    hide Enabled, Apply, Runs, After, RaceSteps, AcquireSteps, Racing, PhaseOf, Initial;
    RaceReachable(p, q, r);
    RacingFacts(p, q, r);
    SecondAcquires(Racing(p, q, r), p, q, r);
    RunsAppend(LeftBehind(r), RaceSteps(p, q), AcquireSteps(q));
  }

  lemma HeartbeatBegins(s: State, p: Run, q: Run)
    requires Passes(s, p) && p != q
    ensures Runs(s, [HeartbeatRead(p)]) && After(s, [HeartbeatRead(p)]) == Moved(s, p, Beating)
    ensures PhaseOf(Moved(s, p, Beating), q) == PhaseOf(s, q) && PhaseOf(Moved(s, p, Beating), p) == Beating
  {
    assert Chain([s, Moved(s, p, Beating)], [HeartbeatRead(p)]);
    ChainRuns([s, Moved(s, p, Beating)], [HeartbeatRead(p)]);
  }

  lemma HeartbeatEnds(s: State, p: Run, q: Run)
    requires PhaseOf(s, p).Beating? && p in s.filled && p != q
    ensures Runs(s, [HeartbeatWrite(p)])
    ensures var e := After(s, [HeartbeatWrite(p)]);
      Passes(e, p) && !Passes(e, q) && PhaseOf(e, q) == PhaseOf(s, q)
  {
    var e := Moved(s, p, Owning).(owner := Some(p));
    assert Chain([s, e], [HeartbeatWrite(p)]);
    ChainRuns([s, e], [HeartbeatWrite(p)]);
  }

  /**
   Atomicity is needed: when a heartbeat reads and writes in two steps, a displaced run can
   write its record back and pass again, and the run that displaced it no longer passes.
   */
  lemma SplitHeartbeatResurrects(p: Run, q: Run, r: Run)
    requires p != q && p != r && q != r
    ensures var steps := RaceSteps(p, q) + [HeartbeatRead(p)] + AcquireSteps(q);
      && Initial(LeftBehind(r)) && Runs(LeftBehind(r), steps)
      && var middle := After(LeftBehind(r), steps);
         && Displaced(middle, p) && Passes(middle, q)
         && Runs(middle, [HeartbeatWrite(p)])
         && var e := After(middle, [HeartbeatWrite(p)]);
            Passes(e, p) && !Passes(e, q) && PhaseOf(e, q).Owning?
  {
    hide Enabled, Apply, Runs, After, RaceSteps, AcquireSteps, Racing, PhaseOf, Initial;
    RaceReachable(p, q, r);
    RacingFacts(p, q, r);
    var racing := Racing(p, q, r);
    HeartbeatBegins(racing, p, q);
    var beating := Moved(racing, p, Beating);
    RunsAppend(LeftBehind(r), RaceSteps(p, q), [HeartbeatRead(p)]);
    SecondAcquires(beating, p, q, r);
    RunsAppend(LeftBehind(r), RaceSteps(p, q) + [HeartbeatRead(p)], AcquireSteps(q));
    var middle := After(beating, AcquireSteps(q));
    HeartbeatEnds(middle, p, q);
  }
}
