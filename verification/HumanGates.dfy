/**
 The human-gate fold of `ConsistencyChecker.check` (src/development_conveyor/consistency.py): one
 pass over the ledger events, proved to decide which gate identities are raised twice and which
 resolutions are not bound to what they resolve.
 */
module HumanGates {
  import opened Prelude
  import opened Sequences

  /** A payload field that holds a text or nothing. */
  datatype Field = Absent | Text(s: string)

  datatype Gate = Gate(gateId: Field, content: string)

  /** A recorded fingerprint; `Sha` of a gate is injective in the gate. */
  datatype Fingerprint = NoFingerprint | Sha(gate: Gate) | Opaque(text: string)

  const EMPTY_GATE: Gate := Gate(Absent, "")

  datatype Kind = TransactionStarted | HumanGateRaised | HumanGateResolved | OtherKind

  datatype Event = Event(
    kind: Kind,
    transaction: string,
    resolvesDecision: bool,
    resolvedGateId: Field,
    resolvedGateFingerprint: Fingerprint,
    gate: Option<Gate>,
    gateId: Field,
    gateFingerprint: Fingerprint)

  /** Python's truth of a text field. */
  predicate Truthy(f: Field) {
    f.Text? && f.s != ""
  }

  /** `str(value)`. */
  function Str(f: Field): string {
    if f.Text? then f.s else "None"
  }

  function GateOf(e: Event): Gate {
    if e.gate.Some? then e.gate.value else EMPTY_GATE
  }

  /** `gate.get("gate_id") or payload.get("gate_id")`. */
  function RaisedField(e: Event): Field {
    if Truthy(GateOf(e).gateId) then GateOf(e).gateId else e.gateId
  }

  predicate BindsResolution(e: Event) {
    && e.kind == TransactionStarted && e.resolvesDecision
    && e.resolvedGateId.Text? && e.resolvedGateFingerprint != NoFingerprint
  }

  predicate Raises(e: Event, id: string) {
    e.kind == HumanGateRaised && Truthy(RaisedField(e)) && Str(RaisedField(e)) == id
  }

  // ---------------------------------------------------------------- specification

  /** The last event before `n` that raises `id`. */
  function LastRaise(events: seq<Event>, n: nat, id: string): (r: Option<nat>)
    requires n <= |events|
    ensures r.Some? ==> r.value < n && Raises(events[r.value], id)
    ensures r.Some? ==> forall j :: r.value < j < n ==> !Raises(events[j], id)
    ensures r.None? ==> forall j :: 0 <= j < n ==> !Raises(events[j], id)
  {
    if n == 0 then None
    else if Raises(events[n - 1], id) then Some(n - 1)
    else LastRaise(events, n - 1, id)
  }

  /** The last start before `n` that binds a resolution to `transaction`. */
  function LastBinding(events: seq<Event>, n: nat, transaction: string): (r: Option<nat>)
    requires n <= |events|
    ensures r.Some? ==> r.value < n && BindsResolution(events[r.value]) && events[r.value].transaction == transaction
    ensures r.None? ==> forall j :: 0 <= j < n && BindsResolution(events[j]) ==> events[j].transaction != transaction
  {
    if n == 0 then None
    else if BindsResolution(events[n - 1]) && events[n - 1].transaction == transaction then Some(n - 1)
    else LastBinding(events, n - 1, transaction)
  }

  ghost predicate ResolvedBefore(events: seq<Event>, n: nat, id: string)
    requires n <= |events|
  {
    exists j :: 0 <= j < n && events[j].kind == HumanGateResolved && Str(events[j].gateId) == id
  }

  /** The resolution at `i` is bound to the gate that it resolves. */
  ghost predicate Bound(events: seq<Event>, i: nat)
    requires i < |events|
  {
    var id, claimed := Str(events[i].gateId), events[i].gateFingerprint;
    match LastRaise(events, i, id)
    case Some(j) => claimed == Sha(GateOf(events[j]))
    case None =>
      match LastBinding(events, i, events[i].transaction)
      case Some(b) => Str(events[b].resolvedGateId) == id && events[b].resolvedGateFingerprint == claimed
      case None => false
  }

  ghost predicate SoundResolution(events: seq<Event>, i: nat)
    requires i < |events|
  {
    && Truthy(events[i].gateId)
    && !ResolvedBefore(events, i, Str(events[i].gateId))
    && Bound(events, i)
  }

  ghost predicate RaisedTwice(events: seq<Event>, n: nat, id: string)
    requires n <= |events|
  {
    exists j, k :: 0 <= j < k < n && Raises(events[j], id) && Raises(events[k], id)
  }

  /** What the ledger promises about human gates, without any reference to the fold. */
  ghost predicate GatesSound(events: seq<Event>) {
    && (forall j, k :: 0 <= j < k < |events| && events[j].kind == HumanGateRaised && events[k].kind == HumanGateRaised
          && Truthy(RaisedField(events[j])) && Truthy(RaisedField(events[k]))
          ==> RaisedField(events[j]) != RaisedField(events[k]))
    && (forall i :: 0 <= i < |events| && events[i].kind == HumanGateResolved ==>
          && Truthy(events[i].gateId)
          && (forall j :: 0 <= j < i && events[j].kind == HumanGateResolved ==>
              Str(events[j].gateId) != Str(events[i].gateId))
          && BoundOnce(events, i))
  }

  /** Bound to some earlier raise with matching fingerprint or, without raise, to the latest own binding. */
  ghost predicate BoundOnce(events: seq<Event>, i: nat)
    requires i < |events|
  {
    var id, claimed := Str(events[i].gateId), events[i].gateFingerprint;
    || (exists j :: 0 <= j < i && Raises(events[j], id) && claimed == Sha(GateOf(events[j])))
    || (&& (forall j :: 0 <= j < i ==> !Raises(events[j], id))
        && exists b :: 0 <= b < i && BindsResolution(events[b]) && events[b].transaction == events[i].transaction
             && Str(events[b].resolvedGateId) == id && events[b].resolvedGateFingerprint == claimed
             && forall c :: b < c < i && BindsResolution(events[c]) ==> events[c].transaction != events[i].transaction)
  }

  // ---------------------------------------------------------------- the fold

  type Bindings = map<string, (string, Fingerprint)>

  function NextBindings(bindings: Bindings, e: Event): Bindings {
    if BindsResolution(e) then bindings[e.transaction := (Str(e.resolvedGateId), e.resolvedGateFingerprint)]
        else bindings
  }

  predicate RaisesSome(e: Event) {
    e.kind == HumanGateRaised && Truthy(RaisedField(e))
  }

  function NextRaised(raised: map<string, Gate>, e: Event): map<string, Gate> {
    if RaisesSome(e) then raised[Str(RaisedField(e)) := GateOf(e)] else raised
  }

  function NextDuplicates(duplicates: seq<string>, raised: map<string, Gate>, e: Event): seq<string> {
    if RaisesSome(e) && Str(RaisedField(e)) in raised then duplicates + [Str(RaisedField(e))] else duplicates
  }

  function NextResolved(resolved: set<string>, e: Event): set<string> {
    if e.kind == HumanGateResolved then resolved + {Str(e.gateId)} else resolved
  }

  /** The test of the fold for one resolution. */
  predicate Fails(e: Event, raised: map<string, Gate>, bindings: Bindings, resolved: set<string>) {
    var id := Str(e.gateId);
    || !Truthy(e.gateId)
    || id in resolved
    || (id in raised && Sha(raised[id]) != e.gateFingerprint)
    || (id !in raised && !(e.transaction in bindings && bindings[e.transaction] == (id, e.gateFingerprint)))
  }

  datatype Scan = Scan(
    raised: map<string, Gate>,
    bindings: Bindings,
    resolved: set<string>,
    failures: seq<nat>,
    duplicates: seq<string>)

  /** What the fold has gathered from the first `n` events. */
  ghost function Fold(events: seq<Event>, n: nat): Scan
    requires n <= |events|
  {
    if n == 0 then Scan(map[], map[], {}, [], [])
    else
      var s, e := Fold(events, n - 1), events[n - 1];
      Scan(NextRaised(s.raised, e), NextBindings(s.bindings, e), NextResolved(s.resolved, e),
           if e.kind == HumanGateResolved && Fails(e, s.raised, s.bindings, s.resolved) then s.failures + [n - 1]
               else s.failures,
           NextDuplicates(s.duplicates, s.raised, e))
  }

  /**
   The positions of the unsound resolutions and the identities raised more than once, exactly;
   hence both are empty exactly when the ledger keeps its promise about human gates.
   */
  method CheckHumanGates(events: seq<Event>) returns (failures: seq<nat>, duplicates: seq<string>)
    ensures forall i :: i in failures <==>
      0 <= i < |events| && events[i].kind == HumanGateResolved && !SoundResolution(events, i)
    ensures forall id :: id in duplicates <==> RaisedTwice(events, |events|, id)
    ensures failures == [] && duplicates == [] <==> GatesSound(events)
  {
    var raisedGates: map<string, Gate> := map[];
    var resolutionBindings: Bindings := map[];
    var resolvedGateIds: set<string> := {};
    failures, duplicates := [], [];
    var n := 0;
    while n < |events|
      invariant 0 <= n <= |events|
      invariant Scan(raisedGates, resolutionBindings, resolvedGateIds, failures, duplicates) == Fold(events, n)
    {
      var event := events[n];
      if BindsResolution(event) {
        resolutionBindings := resolutionBindings[event.transaction := (Str(event.resolvedGateId),
          event.resolvedGateFingerprint)];
      } else if event.kind == HumanGateRaised {
        var gateId := RaisedField(event);
        if Truthy(gateId) {
          if Str(gateId) in raisedGates {
            duplicates := duplicates + [Str(gateId)];
          }
          raisedGates := raisedGates[Str(gateId) := GateOf(event)];
        }
      } else if event.kind == HumanGateResolved {
        if Fails(event, raisedGates, resolutionBindings, resolvedGateIds) {
          failures := failures + [n];
        }
        resolvedGateIds := resolvedGateIds + {Str(event.gateId)};
      }
      n := n + 1;
    }
    FoldDecides(events);
  }

  // ---------------------------------------------------------------- what the fold gathers

  lemma {:induction false} FoldRaised(events: seq<Event>, n: nat, id: string)
    requires n <= |events|
    ensures var r := LastRaise(events, n, id);
      && (id in Fold(events, n).raised <==> r.Some?)
      && (r.Some? ==> Fold(events, n).raised[id] == GateOf(events[r.value]))
  {
    if n > 0 {
      FoldRaised(events, n - 1, id);
    }
  }

  lemma {:induction false} FoldBindings(events: seq<Event>, n: nat, t: string)
    requires n <= |events|
    ensures var b := LastBinding(events, n, t);
      && (t in Fold(events, n).bindings <==> b.Some?)
      && (b.Some? ==>
            var e := events[b.value];
            Fold(events, n).bindings[t] == (Str(e.resolvedGateId), e.resolvedGateFingerprint))
  {
    if n > 0 {
      FoldBindings(events, n - 1, t);
    }
  }

  lemma {:induction false} FoldResolved(events: seq<Event>, n: nat, id: string)
    requires n <= |events|
    ensures id in Fold(events, n).resolved <==> ResolvedBefore(events, n, id)
  {
    if n > 0 {
      FoldResolved(events, n - 1, id);
      if events[n - 1].kind == HumanGateResolved && Str(events[n - 1].gateId) == id {
        assert ResolvedBefore(events, n, id);
      }
    }
  }

  lemma FailsIffUnsound(events: seq<Event>, i: nat)
    requires i < |events|
    ensures var s := Fold(events, i);
      Fails(events[i], s.raised, s.bindings, s.resolved) <==> !SoundResolution(events, i)
  {
    hide Fold, ResolvedBefore;
    FoldRaised(events, i, Str(events[i].gateId));
    FoldBindings(events, i, events[i].transaction);
    FoldResolved(events, i, Str(events[i].gateId));
  }

  lemma {:induction false} FoldFailures(events: seq<Event>, n: nat)
    requires n <= |events|
    ensures forall i :: i in Fold(events, n).failures <==>
      0 <= i < n && events[i].kind == HumanGateResolved && !SoundResolution(events, i)
  {
    hide Fails, SoundResolution;
    if n > 0 {
      FoldFailures(events, n - 1);
      FailsIffUnsound(events, n - 1);
    }
  }

  lemma {:induction false} FoldDuplicates(events: seq<Event>, n: nat, id: string)
    requires n <= |events|
    ensures id in Fold(events, n).duplicates <==> RaisedTwice(events, n, id)
  {
    if n > 0 {
      FoldDuplicates(events, n - 1, id);
      FoldRaised(events, n - 1, id);
      RaisedTwiceStep(events, n - 1, id);
    }
  }

  lemma RaisedTwiceStep(events: seq<Event>, n: nat, id: string)
    requires n < |events|
    ensures RaisedTwice(events, n + 1, id) <==>
      RaisedTwice(events, n, id) || (Raises(events[n], id) && LastRaise(events, n, id).Some?)
  {
    if Raises(events[n], id) && LastRaise(events, n, id).Some? {
      var j := LastRaise(events, n, id).value;
      assert Raises(events[j], id);
    }
  }

  lemma FoldDecides(events: seq<Event>)
    ensures var s := Fold(events, |events|);
      && (forall i :: i in s.failures <==>
          0 <= i < |events| && events[i].kind == HumanGateResolved && !SoundResolution(events, i))
      && (forall id :: id in s.duplicates <==> RaisedTwice(events, |events|, id))
      && (s.failures == [] && s.duplicates == [] <==> GatesSound(events))
  {
    hide Fold, SoundResolution, RaisedTwice, GatesSound;
    var s := Fold(events, |events|);
    FoldFailures(events, |events|);
    forall id ensures id in s.duplicates <==> RaisedTwice(events, |events|, id) {
      FoldDuplicates(events, |events|, id);
    }
    EmptyIffNoMember(s.failures);
    EmptyIffNoMember(s.duplicates);
    SoundIffNoFinding(events);
  }

  /** Under unique raises, the latest earlier raise is the only one. */
  lemma BoundIffBoundOnce(events: seq<Event>, i: nat)
    requires i < |events|
    requires forall id :: !RaisedTwice(events, |events|, id)
    ensures Bound(events, i) <==> BoundOnce(events, i)
  {
    var id := Str(events[i].gateId);
    match LastRaise(events, i, id)
    case Some(j) =>
      forall k | 0 <= k < i && Raises(events[k], id) ensures k == j {
        assert !RaisedTwice(events, |events|, id);
      }
    case None =>
      match LastBinding(events, i, events[i].transaction)
      case Some(b) => LastBindingIsLast(events, i, events[i].transaction);
      case None =>
  }

  lemma {:induction false} LastBindingIsLast(events: seq<Event>, n: nat, transaction: string)
    requires n <= |events| && LastBinding(events, n, transaction).Some?
    ensures var b := LastBinding(events, n, transaction).value;
      forall c :: b < c < n && BindsResolution(events[c]) ==> events[c].transaction != transaction
  {
    if !(BindsResolution(events[n - 1]) && events[n - 1].transaction == transaction) {
      LastBindingIsLast(events, n - 1, transaction);
    }
  }

  /** The promise holds exactly when nothing is raised twice and every resolution is sound. */
  lemma SoundIffNoFinding(events: seq<Event>)
    ensures GatesSound(events) <==>
      && (forall id :: !RaisedTwice(events, |events|, id))
      && (forall i :: 0 <= i < |events| && events[i].kind == HumanGateResolved ==> SoundResolution(events, i))
  {
    if forall id :: !RaisedTwice(events, |events|, id) {
      forall j, k | 0 <= j < k < |events| && events[j].kind == HumanGateRaised && events[k].kind == HumanGateRaised
        && Truthy(RaisedField(events[j])) && Truthy(RaisedField(events[k]))
        ensures RaisedField(events[j]) != RaisedField(events[k])
      {
        assert Raises(events[j], Str(RaisedField(events[j])));
        assert !RaisedTwice(events, |events|, Str(RaisedField(events[j])));
      }
      forall i | 0 <= i < |events| && events[i].kind == HumanGateResolved
        ensures Bound(events, i) <==> BoundOnce(events, i)
      {
        BoundIffBoundOnce(events, i);
      }
    } else {
      var id :| RaisedTwice(events, |events|, id);
      var j, k :| 0 <= j < k < |events| && Raises(events[j], id) && Raises(events[k], id);
      assert RaisedField(events[j]) == Field.Text(id) == RaisedField(events[k]);
    }
  }
}
