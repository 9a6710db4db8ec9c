/**
 The bound on the failed results that a run of the autopilot loop handles. Both failure branches
 charge one counter map, so a feature can be charged at most once beyond the sum of all budgets.
 */
module AutopilotBound {
  import opened Prelude
  import opened Autopilot
  import opened AutopilotSafety

  /** How often a failure of the feature was charged to the budget. */
  function CountKey(t: seq<Item>, f: Option<string>, k: BudgetKey): nat {
    if t == [] then 0
    else CountKey(t[..|t| - 1], f, k) + if t[|t| - 1] == Counted(f, k) then 1 else 0
  }

  function CountFeature(t: seq<Item>, f: Option<string>): nat {
    CountKey(t, f, Implementation) + CountKey(t, f, Validation) + CountKey(t, f, Deterministic)
    + CountKey(t, f, Planning) + CountKey(t, f, IntegrationFinalization)
  }

  /** The failed results that the run has handled for some features. */
  function HandledFor(t: seq<Item>, features: set<Option<string>>): nat {
    if t == [] then 0
    else HandledFor(t[..|t| - 1], features) + if t[|t| - 1].Counted? && t[|t| - 1].feature in features then 1 else 0
  }

  /** All failed results that the run has handled. */
  function Handled(t: seq<Item>): nat {
    if t == [] then 0 else Handled(t[..|t| - 1]) + if t[|t| - 1].Counted? then 1 else 0
  }

  function FailedFeatures(t: seq<Item>): set<Option<string>> {
    set i | 0 <= i < |t| && t[i].Counted? :: t[i].feature
  }

  ghost predicate Blocked(t: seq<Item>, f: Option<string>) {
    exists i :: 0 <= i < |t| && t[i] == Emitted(FeatureBlocked, f)
  }

  /** The planner never selects a feature, or the plan without feature, again after it was blocked. */
  ghost predicate NeverReselected(t: seq<Item>) {
    forall i, j :: 0 <= i < j < |t| && IsEvent(t[i], FeatureBlocked) && t[j].Invoked? ==>
      t[j].plan.feature != t[i].feature
  }

  function Positive(b: int): nat {
    if b < 0 then 0 else b
  }

  function TotalBudget(c: Config): nat
    requires Configured(c)
  {
    Positive(c.budgets[Implementation]) + Positive(c.budgets[Validation]) + Positive(c.budgets[Deterministic])
    + Positive(c.budgets[Planning]) + Positive(c.budgets[IntegrationFinalization])
  }

  // ---------------------------------------------------------------- counting

  lemma {:induction false} CountAppend(a: seq<Item>, b: seq<Item>, f: Option<string>, k: BudgetKey)
    ensures CountKey(a + b, f, k) == CountKey(a, f, k) + CountKey(b, f, k)
  {
    if b == [] {
      assert a + b == a;
    } else {
      assert (a + b)[..|a + b| - 1] == a + b[..|b| - 1];
      CountAppend(a, b[..|b| - 1], f, k);
    }
  }

  lemma {:induction false} SplitFeature(t: seq<Item>, f: Option<string>, rest: set<Option<string>>)
    requires f !in rest
    ensures HandledFor(t, rest + {f}) == HandledFor(t, rest) + CountFeature(t, f)
  {
    if t != [] {
      SplitFeature(t[..|t| - 1], f, rest);
      if t[|t| - 1].Counted? {
        EveryKey(t[|t| - 1].key);
      }
    }
  }

  lemma {:induction false} NoFeatures(t: seq<Item>)
    ensures HandledFor(t, {}) == 0
  {
    if t != [] {
      NoFeatures(t[..|t| - 1]);
    }
  }

  lemma {:induction false} SumOverFeatures(t: seq<Item>, features: set<Option<string>>, bound: nat)
    requires forall f :: f in features ==> CountFeature(t, f) <= bound
    ensures HandledFor(t, features) <= |features| * bound
    decreases |features|
  {
    hide HandledFor, CountFeature;
    if features == {} {
      NoFeatures(t);
    } else {
      var f :| f in features;
      var rest := features - {f};
      assert rest + {f} == features && |features| == |rest| + 1;
      SplitFeature(t, f, rest);
      SumOverFeatures(t, rest, bound);
      assert (|rest| + 1) * bound == |rest| * bound + bound;
    }
  }

  lemma {:induction false} AllHandled(t: seq<Item>, features: set<Option<string>>)
    requires FailedFeatures(t) <= features
    ensures HandledFor(t, features) == Handled(t)
  {
    if t != [] {
      var n := |t| - 1;
      assert forall i :: 0 <= i < n ==> t[..n][i] == t[i];
      assert FailedFeatures(t[..n]) <= FailedFeatures(t);
      AllHandled(t[..n], features);
      if t[n].Counted? {
        assert t[n].feature in FailedFeatures(t);
      }
    }
  }

  // ---------------------------------------------------------------- what one step charges

  /** Items that charge and block nothing. */
  ghost predicate Neutral(t: seq<Item>) {
    forall i :: 0 <= i < |t| ==> !t[i].Counted? && !IsEvent(t[i], FeatureBlocked)
  }

  lemma {:induction false} NeutralCounts(t: seq<Item>, f: Option<string>, k: BudgetKey)
    requires Neutral(t)
    ensures CountKey(t, f, k) == 0
  {
    if t != [] {
      NeutralCounts(t[..|t| - 1], f, k);
    }
  }

  lemma BlockedAppend(a: seq<Item>, b: seq<Item>, f: Option<string>)
    ensures Blocked(a + b, f) <==> Blocked(a, f) || Blocked(b, f)
  {
    var t := a + b;
    if i :| 0 <= i < |a| && a[i] == Emitted(FeatureBlocked, f) {
      assert t[i] == a[i];
    }
    if i :| 0 <= i < |b| && b[i] == Emitted(FeatureBlocked, f) {
      assert t[|a| + i] == b[i];
    }
  }

  /** The charge of a step: nothing, or one failure of the feature to one budget. */
  datatype Charge = Nothing | One(feature: Option<string>, key: BudgetKey)

  function Charged(charge: Charge, f: Option<string>, k: BudgetKey): nat {
    if charge == One(f, k) then 1 else 0
  }

  /** The items a step adds, and the counters after it, follow its charge. */
  ghost predicate Charges(c: Config, r: Run, n: Next, added: seq<Item>, charge: Charge)
    requires Configured(c)
  {
    && n.run.trace == r.trace + added
    && (forall f, k :: CountOf(n.run, f, k) == CountOf(r, f, k) + Charged(charge, f, k))
    && (forall f, k :: CountKey(added, f, k) == Charged(charge, f, k))
    && (forall f :: Blocked(added, f) ==> charge.One? && charge.feature == f)
    && (charge.One? && n.Continue? && !Blocked(added, charge.feature) ==>
          charge.key in c.budgets && CountOf(n.run, charge.feature, charge.key) <= c.budgets[charge.key])
  }

  lemma NeutralCharges(c: Config, r: Run, n: Next, added: seq<Item>)
    requires Configured(c) && Neutral(added) && n.run.trace == r.trace + added && n.run.counts == r.counts
    ensures Charges(c, r, n, added, Nothing)
  {
    forall f, k ensures CountKey(added, f, k) == 0 {
      NeutralCounts(added, f, k);
    }
  }

  lemma OneCharges(c: Config, r: Run, n: Next, f: Option<string>, k: BudgetKey, tail: seq<Item>)
    requires Configured(c) && n.run.trace == r.trace + ([Counted(f, k)] + tail)
    requires n.run.counts == r.counts[(f, k) := CountOf(r, f, k) + 1]
    requires forall i :: 0 <= i < |tail| ==> !tail[i].Counted?
    requires forall i :: 0 <= i < |tail| && IsEvent(tail[i], FeatureBlocked) ==> tail[i].feature == f
    requires n.Continue? && !Blocked(tail, f) ==> CountOf(n.run, f, k) <= c.budgets[k]
    ensures Charges(c, r, n, [Counted(f, k)] + tail, One(f, k))
  {
    var added := [Counted(f, k)] + tail;
    forall g, q ensures CountKey(added, g, q) == Charged(One(f, k), g, q) {
      CountAppend([Counted(f, k)], tail, g, q);
      UncountedCounts(tail, g, q);
      assert CountKey([], g, q) == 0 && [Counted(f, k)][..0] == [];
    }
    forall g ensures Blocked(added, g) <==> Blocked(tail, g) {
      BlockedAppend([Counted(f, k)], tail, g);
    }
    EveryKey(k);
  }

  lemma {:induction false} UncountedCounts(t: seq<Item>, f: Option<string>, k: BudgetKey)
    requires forall i :: 0 <= i < |t| ==> !t[i].Counted?
    ensures CountKey(t, f, k) == 0
  {
    if t != [] {
      UncountedCounts(t[..|t| - 1], f, k);
    }
  }

  lemma EndCharges(c: Config, r: Run, it: Iteration, p: Plan) returns (added: seq<Item>)
    requires Configured(c)
    ensures Charges(c, r, AtEnd(r, it, p), added, Nothing)
    ensures Neutral(added) && AtEnd(r, it, p).run.counts == r.counts && AtEnd(r, it, p).run.trace == r.trace + added
  {
    hide Charges;
    var n := AtEnd(r, it, p);
    added := n.run.trace[|r.trace|..];
    NeutralCharges(c, r, n, added);
  }

  lemma RecoveryFailureCharges(c: Config, r: Run, it: Iteration, p: Plan) returns (added: seq<Item>, charge: Charge)
    requires Configured(c)
    ensures Charges(c, r, AfterRecoveryFailure(c, r, it, p), added, charge)
    ensures charge.One? ==> charge.feature == p.feature
  {
    hide Charges;
    var n := AfterRecoveryFailure(c, r, it, p);
    if it.evidence.Threw? {
      added, charge := [], Nothing;
      NeutralCharges(c, r, n, []);
    } else {
      var tail := n.run.trace[|r.trace| + 1..];
      added, charge := [Counted(p.feature, Deterministic)] + tail, One(p.feature, Deterministic);
      OneCharges(c, r, n, p.feature, Deterministic, tail);
    }
  }

  lemma FailureCharges(c: Config, r: Run, it: Iteration, p: Plan, result: RouteResult)
    returns (added: seq<Item>, charge: Charge)
    requires Configured(c)
    ensures Charges(c, r, AfterFailure(c, r, it, p, result), added, charge)
    ensures charge.One? ==> charge.feature == p.feature
  {
    hide Charges, RetryBudgetKey, SeenOf, Effective, AtEnd;
    var n := AfterFailure(c, r, it, p, result);
    var key := RetryBudgetKey(p.action, Effective(result));
    var signature := Signature(p.action, p.feature, p.state, result.outcome, result.classification, result.reason);
    var counted := CountFailure(r.(signatures := r.signatures[signature := SeenOf(r, signature) + 1]), p.feature, key);
    charge := One(p.feature, key);
    EveryKey(key);
    if CountOf(counted, p.feature, key) <= c.budgets[key] && n == AtEnd(counted, it, p) {
      var rest := EndCharges(c, counted, it, p);
      assert r.trace + ([Counted(p.feature, key)] + rest) == r.trace + [Counted(p.feature, key)] + rest;
      added := [Counted(p.feature, key)] + rest;
      OneCharges(c, r, n, p.feature, key, rest);
    } else {
      var tail := [Emitted(FeatureBlocked, p.feature)];
      added := [Counted(p.feature, key)] + tail;
      assert tail[0] == Emitted(FeatureBlocked, p.feature);
      OneCharges(c, r, n, p.feature, key, tail);
    }
  }

  lemma ResultCharges(c: Config, r: Run, it: Iteration, p: Plan, result: RouteResult)
    returns (added: seq<Item>, charge: Charge)
    requires Configured(c)
    ensures Charges(c, r, AfterResult(c, r, it, p, result), added, charge)
    ensures charge.One? ==> charge.feature == p.feature
  {
    hide Charges, Effective, IsGate, RecoversGate, Failed, IsRecovery, AtEnd, AfterFailure, AfterRecoveryFailure;
    var n := AfterResult(c, r, it, p, result);
    if n == AtEnd(r, it, p) {
      added := EndCharges(c, r, it, p);
      charge := Nothing;
    } else if n == AfterRecoveryFailure(c, r, it, p) {
      added, charge := RecoveryFailureCharges(c, r, it, p);
    } else if n == AfterFailure(c, r, it, p, result) {
      added, charge := FailureCharges(c, r, it, p, result);
    } else {
      added, charge := [], Nothing;
      NeutralCharges(c, r, n, []);
    }
  }

  lemma HeadNeutral(p: Plan, seen: Consistency, outcome: Option<RouteResult>)
    ensures Neutral(Head(p, seen, outcome))
  {
    hide IsRecovery;
  }

  lemma ReportsNeutral(p: Plan, result: RouteResult)
    ensures Neutral(Reports(p, result))
  {
    hide IsRecovery, RecoveryFailed;
  }

  lemma FrontNeutral(p: Plan, seen: Consistency, result: RouteResult)
    ensures Neutral(Head(p, seen, Some(result)) + Reports(p, result))
  {
    hide Head, Reports;
    HeadNeutral(p, seen, Some(result));
    ReportsNeutral(p, result);
  }

  /** Charges are not affected by the items before them in the same step. */
  lemma PrefixCharges(c: Config, r: Run, middle: Run, n: Next, front: seq<Item>, tail: seq<Item>, charge: Charge)
    requires Configured(c) && Neutral(front) && Charges(c, middle, n, tail, charge)
    requires middle.trace == r.trace + front && middle.counts == r.counts
    ensures Charges(c, r, n, front + tail, charge)
  {
    assert r.trace + front + tail == r.trace + (front + tail);
    forall f, k ensures CountKey(front + tail, f, k) == CountKey(tail, f, k) {
      CountAppend(front, tail, f, k);
      NeutralCounts(front, f, k);
    }
    forall f ensures Blocked(front + tail, f) <==> Blocked(tail, f) {
      BlockedAppend(front, tail, f);
    }
  }

  ghost predicate InvokesFor(added: seq<Item>, f: Option<string>) {
    exists j :: 0 <= j < |added| && added[j].Invoked? && added[j].plan.feature == f
  }

  lemma ReportedCharges(c: Config, r: Run, it: Iteration, p: Plan, result: RouteResult)
    returns (added: seq<Item>, charge: Charge)
    requires Configured(c) && it.consistency.Got?
    ensures Charges(c, r, Reported(c, Add(Add(r, [Checked(false)]), Announcements(p)), it, p, result), added, charge)
    ensures charge.One? ==> InvokesFor(added, charge.feature)
  {
    hide Charges, AfterResult, Reports, Announcements;
    var announced := Add(Add(r, [Checked(false)]), Announcements(p));
    var reported := Add(Add(announced, [Invoked(p, it.consistency.value, Some(result))]), Reports(p, result));
    var tail;
    tail, charge := ResultCharges(c, reported, it, p, result);
    var front := Head(p, it.consistency.value, Some(result)) + Reports(p, result);
    assert reported.trace == r.trace + front;
    FrontNeutral(p, it.consistency.value, result);
    PrefixCharges(c, r, reported, AfterResult(c, reported, it, p, result), front, tail, charge);
    added := front + tail;
    assert added[|Head(p, it.consistency.value, Some(result))| - 1] == Invoked(p, it.consistency.value, Some(result));
  }

  lemma RouteCharges(c: Config, r: Run, it: Iteration, p: Plan) returns (added: seq<Item>, charge: Charge)
    requires Configured(c) && it.consistency.Got?
    ensures Charges(c, r, Route(c, Add(r, [Checked(false)]), it, p), added, charge)
    ensures charge.One? ==> InvokesFor(added, charge.feature)
  {
    hide Charges, HasRoute, IsRecovery, Announcements, Reported;
    var n := Route(c, Add(r, [Checked(false)]), it, p);
    if HasRoute(p.action) && (it.routed.Returned? || (it.routed.RecoveryError? && IsRecovery(p.action))) {
      var result := if it.routed.Returned? then it.routed.result else RecoveryErrorResult(it.routed.reason);
      added, charge := ReportedCharges(c, r, it, p, result);
    } else {
      added, charge := Head(p, it.consistency.value, None), Nothing;
      HeadNeutral(p, it.consistency.value, None);
      assert n.run.trace == r.trace + added;
      NeutralCharges(c, r, n, added);
    }
  }

  lemma StepCharges(c: Config, r: Run, it: Iteration, pending: Option<Plan>) returns (added: seq<Item>, charge: Charge)
    requires Configured(c)
    ensures Charges(c, r, Step(c, r, it, pending), added, charge)
    ensures charge.One? ==> InvokesFor(added, charge.feature)
  {
    hide Charges, Recognized, Route;
    var n := Step(c, r, it, pending);
    charge := Nothing;
    if it.stopAtStart == Got(true) {
      added := [Checked(true)] + STOP_ITEMS;
      NeutralCharges(c, r, n, added);
    } else if it.stopAtStart.Threw? {
      added := [];
      NeutralCharges(c, r, n, added);
    } else {
      added := [Checked(false)];
      if pending.Some? || it.plan.Got? {
        var p := if pending.Some? then pending.value else it.plan.value;
        if it.consistency.Got? && n == Route(c, Add(r, [Checked(false)]), it, p) {
          added, charge := RouteCharges(c, r, it, p);
        } else {
          NeutralCharges(c, r, n, added);
        }
      } else {
        NeutralCharges(c, r, n, added);
      }
    }
  }

  // ---------------------------------------------------------------- the bound

  /** The counters are the charges, and an unblocked feature is within every budget. */
  ghost predicate WithinBudgets(c: Config, r: Run)
    requires Configured(c)
  {
    && (forall f, k :: CountOf(r, f, k) == CountKey(r.trace, f, k))
    && (forall f, k :: k in c.budgets && !Blocked(r.trace, f) ==> CountOf(r, f, k) <= Positive(c.budgets[k]))
  }

  ghost predicate WithinTotal(c: Config, t: seq<Item>)
    requires Configured(c)
  {
    forall f :: CountFeature(t, f) <= TotalBudget(c) + 1
  }

  /** A charge to an unblocked feature keeps it within the sum of its budgets and one. */
  lemma ChargeKeeps(c: Config, r: Run, n: Next, added: seq<Item>, charge: Charge)
    requires Configured(c) && Charges(c, r, n, added, charge)
    requires WithinBudgets(c, r) && WithinTotal(c, r.trace)
    requires charge.One? ==> !Blocked(r.trace, charge.feature)
    ensures WithinTotal(c, n.run.trace)
    ensures n.Continue? ==> WithinBudgets(c, n.run)
  {
    hide CountOf;
    forall f, k ensures CountKey(n.run.trace, f, k) == CountKey(r.trace, f, k) + Charged(charge, f, k) {
      CountAppend(r.trace, added, f, k);
    }
    forall f ensures Blocked(n.run.trace, f) <==> Blocked(r.trace, f) || Blocked(added, f) {
      BlockedAppend(r.trace, added, f);
    }
    forall f ensures CountFeature(n.run.trace, f) <= TotalBudget(c) + 1 {
      FeatureCharged(r.trace, n.run.trace, f, charge);
      if charge.One? && charge.feature == f {
        UnblockedWithin(c, r, f);
      }
    }
  }

  lemma FeatureCharged(t: seq<Item>, longer: seq<Item>, f: Option<string>, charge: Charge)
    requires forall k :: CountKey(longer, f, k) == CountKey(t, f, k) + Charged(charge, f, k)
    ensures CountFeature(longer, f) == CountFeature(t, f) + if charge.One? && charge.feature == f then 1 else 0
  {
    hide CountKey;
    assert forall k :: k in BUDGET_KEYS ==> CountKey(longer, f, k) == CountKey(t, f, k) + Charged(charge, f, k);
    if charge.One? {
      EveryKey(charge.key);
    }
  }

  lemma UnblockedWithin(c: Config, r: Run, f: Option<string>)
    requires Configured(c) && WithinBudgets(c, r) && !Blocked(r.trace, f)
    ensures CountFeature(r.trace, f) <= TotalBudget(c)
  {
    hide CountOf;
    forall q ensures q in c.budgets && CountKey(r.trace, f, q) <= Positive(c.budgets[q]) {
      EveryKey(q);
      assert CountOf(r, f, q) == CountKey(r.trace, f, q);
    }
  }

  lemma ReselectedNever(t: seq<Item>, n: seq<Item>, added: seq<Item>, f: Option<string>)
    requires n == t + added && NeverReselected(n) && InvokesFor(added, f)
    ensures !Blocked(t, f)
  {
    var j :| 0 <= j < |added| && added[j].Invoked? && added[j].plan.feature == f;
    if i :| 0 <= i < |t| && t[i] == Emitted(FeatureBlocked, f) {
      assert n[i] == t[i] && n[|t| + j] == added[j];
      assert IsEvent(n[i], FeatureBlocked);
      assert false;
    }
  }

  lemma {:induction false} LoopExtends(c: Config, r: Run, script: seq<Iteration>, pending: Option<Plan>)
    requires Configured(c)
    ensures r.trace <= Loop(c, r, script, pending).run.trace
    decreases |script|
  {
    hide Step, Charges;
    if script != [] {
      var added, charge := StepCharges(c, r, script[0], pending);
      var n := Step(c, r, script[0], pending);
      ChargesExtend(c, r, n, added, charge);
      if n.Continue? {
        LoopExtends(c, n.run, script[1..], n.pending);
      }
    }
  }

  lemma ChargesExtend(c: Config, r: Run, n: Next, added: seq<Item>, charge: Charge)
    requires Configured(c) && Charges(c, r, n, added, charge)
    ensures n.run.trace == r.trace + added
  {
  }

  lemma PrefixNeverReselected(a: seq<Item>, t: seq<Item>)
    requires a <= t && NeverReselected(t)
    ensures NeverReselected(a)
  {
    assert forall i :: 0 <= i < |a| ==> a[i] == t[i];
  }

  lemma {:induction false} LoopWithinTotal(c: Config, r: Run, script: seq<Iteration>, pending: Option<Plan>)
    requires Configured(c) && WithinBudgets(c, r) && WithinTotal(c, r.trace)
    requires NeverReselected(Loop(c, r, script, pending).run.trace)
    ensures WithinTotal(c, Loop(c, r, script, pending).run.trace)
    decreases |script|
  {
    hide Step, Charges, WithinBudgets, WithinTotal, NeverReselected, Blocked;
    if script != [] {
      var added, charge := StepCharges(c, r, script[0], pending);
      var n := Step(c, r, script[0], pending);
      ChargesExtend(c, r, n, added, charge);
      if n.Continue? {
        LoopExtends(c, n.run, script[1..], n.pending);
      }
      PrefixNeverReselected(n.run.trace, Loop(c, r, script, pending).run.trace);
      if charge.One? {
        ReselectedNever(r.trace, n.run.trace, added, charge.feature);
      }
      ChargeKeeps(c, r, n, added, charge);
      if n.Continue? {
        LoopWithinTotal(c, n.run, script[1..], n.pending);
      }
    }
  }

  lemma BegunWithin(c: Config, t: seq<Item>)
    requires Configured(c) && Neutral(t)
    ensures WithinBudgets(c, Run(t, map[], map[])) && WithinTotal(c, t)
  {
    forall f, k ensures CountKey(t, f, k) == 0 {
      NeutralCounts(t, f, k);
    }
  }

  lemma ApplyWithinTotal(c: Config, initial: Reading<Plan>, script: seq<Iteration>, stopAfterException: Reading<bool>)
    requires Configured(c) && NeverReselected(Apply(c, initial, script, stopAfterException).0)
    ensures WithinTotal(c, Apply(c, initial, script, stopAfterException).0)
  {
    hide Loop, NeverReselected, WithinBudgets;
    var t := Apply(c, initial, script, stopAfterException).0;
    var end := End(c, initial, script);
    var more := t[|end.run.trace|..];
    assert t == end.run.trace + more;
    PrefixNeverReselected(end.run.trace, t);
    if initial.Got? {
      BegunWithin(c, Begun(initial).trace);
      LoopWithinTotal(c, Begun(initial), script, None);
    } else {
      BegunWithin(c, []);
    }
    BodyShape(c, initial, script, stopAfterException);
    EndNeutral(end, stopAfterException);
    forall f, k ensures CountKey(t, f, k) == CountKey(end.run.trace, f, k) {
      CountAppend(end.run.trace, more, f, k);
      NeutralCounts(more, f, k);
    }
    forall f ensures CountFeature(t, f) <= TotalBudget(c) + 1 {
      FeatureCharged(end.run.trace, t, f, Nothing);
    }
  }

  lemma EndNeutral(end: Next, stopAfterException: Reading<bool>)
    ensures var (body, terminal) := Concluded(end, stopAfterException);
      end.run.trace <= body &&
      (terminal in TERMINAL_EVENTS ==>
        Neutral((body + [Emitted(terminal, None), OwnershipReleased])[|end.run.trace|..]))
  {
  }

  /**
   If nothing is selected again after it was blocked, a run handles at most as many failed results
   as it has failing features (counting "no feature" as one) times the sum of the budgets plus one.
   */
  lemma BoundedFailures(c: Config, initial: Reading<Plan>, script: seq<Iteration>, stopAfterException: Reading<bool>)
    requires Configured(c) && NeverReselected(Apply(c, initial, script, stopAfterException).0)
    ensures var t := Apply(c, initial, script, stopAfterException).0;
      Handled(t) <= |FailedFeatures(t)| * (TotalBudget(c) + 1)
  {
    hide Apply, NeverReselected;
    var t := Apply(c, initial, script, stopAfterException).0;
    ApplyWithinTotal(c, initial, script, stopAfterException);
    SumOverFeatures(t, FailedFeatures(t), TotalBudget(c) + 1);
    AllHandled(t, FailedFeatures(t));
  }

  /** With the default budgets and one feature the bound is thirteen. */
  lemma ThirteenByDefault(maxIdentical: int, f: Option<string>, initial: Reading<Plan>, script: seq<Iteration>,
                          stopAfterException: Reading<bool>)
    requires var c := Config(DEFAULT_RETRY_BUDGETS, maxIdentical);
      Configured(c) && var t := Apply(c, initial, script, stopAfterException).0;
        NeverReselected(t) && FailedFeatures(t) <= {f}
    ensures Handled(Apply(Config(DEFAULT_RETRY_BUDGETS, maxIdentical), initial, script, stopAfterException).0) <= 13
  {
    hide Apply, NeverReselected;
    var c := Config(DEFAULT_RETRY_BUDGETS, maxIdentical);
    var t := Apply(c, initial, script, stopAfterException).0;
    ApplyWithinTotal(c, initial, script, stopAfterException);
    assert TotalBudget(c) == 12;
    SumOverFeatures(t, {f}, 13);
    AllHandled(t, {f});
  }

  // ---------------------------------------------------------------- the bound is reached

  lemma {:induction false} HandledAppend(a: seq<Item>, b: seq<Item>)
    ensures Handled(a + b) == Handled(a) + Handled(b)
  {
    if b == [] {
      assert a + b == a;
    } else {
      assert (a + b)[..|a + b| - 1] == a + b[..|b| - 1];
      HandledAppend(a, b[..|b| - 1]);
    }
  }

  lemma {:induction false} NothingHandled(t: seq<Item>)
    requires forall i :: 0 <= i < |t| ==> !t[i].Counted?
    ensures Handled(t) == 0
  {
    if t != [] {
      NothingHandled(t[..|t| - 1]);
    }
  }

  /** An action whose failure is charged to the given budget. */
  function ActionFor(k: BudgetKey): Action {
    match k
    case Implementation => FeatureCycle
    case Validation => FeatureCycle
    case Deterministic => VerifyConsistency
    case Planning => QueueReconciliation
    case IntegrationFinalization => MilestoneIntegration
  }

  function FailureFor(k: BudgetKey): RouteResult {
    RouteResult(if k == Validation then ValidationFailed else InvalidQueue, NoOutcome, "", false, false, false, false)
  }

  /** A plan of one feature; the serial number makes its state, hence its failure signature, unique. */
  function PlanFor(k: BudgetKey, f: Option<string>, serial: nat): Plan {
    Plan(ActionFor(k), f, seq(serial, _ => 'x'), false, false, false)
  }

  function FailingIteration(k: BudgetKey, f: Option<string>, serial: nat): Iteration {
    Iteration(Got(false), Got(PlanFor(k, f, serial)), Got(Consistent), Returned(FailureFor(k)),
              Threw(OtherException), Threw(OtherException), Threw(OtherException), Got(false))
  }

  /** No failure signature of the given serial number or a later one has been seen. */
  ghost predicate UnseenFrom(r: Run, serial: nat) {
    forall s :: s in r.signatures ==> |s.state| < serial
  }

  ghost predicate NothingBlocked(t: seq<Item>) {
    forall i :: 0 <= i < |t| ==> !IsEvent(t[i], FeatureBlocked)
  }

  /** The items before the charge. */
  function Front(k: BudgetKey, f: Option<string>, serial: nat): seq<Item> {
    var p := PlanFor(k, f, serial);
    Head(p, Consistent, Some(FailureFor(k))) + Reports(p, FailureFor(k))
  }

  lemma FailingRoute(c: Config, r: Run, k: BudgetKey, f: Option<string>, serial: nat)
    requires Configured(c)
    ensures var p := PlanFor(k, f, serial);
      Step(c, r, FailingIteration(k, f, serial), None) ==
        AfterFailure(c, Add(r, Front(k, f, serial)), FailingIteration(k, f, serial), p, FailureFor(k))
  {
    hide AfterFailure, Announcements, Reports, RecoveryFailed;
    var it, p := FailingIteration(k, f, serial), PlanFor(k, f, serial);
    var reported := Add(Add(Add(Add(r, [Checked(false)]), Announcements(p)),
      [Invoked(p, Consistent, Some(FailureFor(k)))]), Reports(p, FailureFor(k)));
    assert reported.trace == r.trace + Front(k, f, serial);
    assert reported == Add(r, Front(k, f, serial));
    FailureIsGeneral(k, f, serial);
    assert Step(c, r, it, None) == Reported(c, Add(Add(r, [Checked(false)]), Announcements(p)), it, p, FailureFor(k));
  }

  lemma FailureIsGeneral(k: BudgetKey, f: Option<string>, serial: nat)
    ensures var p := PlanFor(k, f, serial);
      && HasRoute(p.action) && p.action !in DETERMINISTIC_RECOVERY_ROUTES
      && !IsGate(FailureFor(k)) && Failed(Effective(FailureFor(k)))
      && RetryBudgetKey(p.action, Effective(FailureFor(k))) == k
  {
  }

  /** What the general failure branch makes of one more failure with a new signature. */
  lemma FailingBranch(c: Config, r: Run, k: BudgetKey, f: Option<string>, serial: nat) returns (next: Run)
    requires Configured(c) && c.maxIdentical >= 1 && UnseenFrom(r, serial)
    ensures var n := AfterFailure(c, Add(r, Front(k, f, serial)), FailingIteration(k, f, serial),
      PlanFor(k, f, serial), FailureFor(k));
      && next == n.run
      && k in c.budgets
      && (if CountOf(r, f, k) < c.budgets[k] then n == Continue(next, None) else n == Raise(next, OtherException))
      && next.trace == r.trace + Front(k, f, serial) + [Counted(f, k)]
        + [if CountOf(r, f, k) < c.budgets[k] then Checked(false) else Emitted(FeatureBlocked, f)]
    ensures UnseenFrom(next, serial + 1)
    ensures forall q :: CountOf(next, f, q) == CountOf(r, f, q) + if q == k then 1 else 0
  {
    hide RetryBudgetKey, Effective, Front;
    FailureIsGeneral(k, f, serial);
    EveryKey(k);
    var p := PlanFor(k, f, serial);
    var signature := Signature(p.action, p.feature, p.state, FailureFor(k).outcome, NoOutcome, "");
    assert signature !in r.signatures;
    next := AfterFailure(c, Add(r, Front(k, f, serial)), FailingIteration(k, f, serial), p, FailureFor(k)).run;
  }

  /** One more failure: the loop goes on exactly while the budget lasts, and otherwise blocks the feature. */
  lemma FailingStep(c: Config, r: Run, k: BudgetKey, f: Option<string>, serial: nat) returns (next: Run)
    requires Configured(c) && c.maxIdentical >= 1 && UnseenFrom(r, serial)
    ensures var n := Step(c, r, FailingIteration(k, f, serial), None);
      && next == n.run
      && k in c.budgets
      && (if CountOf(r, f, k) < c.budgets[k] then n == Continue(next, None) else n == Raise(next, OtherException))
      && next.trace == r.trace + Front(k, f, serial) + [Counted(f, k)]
        + [if CountOf(r, f, k) < c.budgets[k] then Checked(false) else Emitted(FeatureBlocked, f)]
    ensures UnseenFrom(next, serial + 1)
    ensures forall q :: CountOf(next, f, q) == CountOf(r, f, q) + if q == k then 1 else 0
  {
    hide Front, Step, AfterFailure, UnseenFrom, CountOf;
    FailingRoute(c, r, k, f, serial);
    next := FailingBranch(c, r, k, f, serial);
  }

  lemma FrontHandlesNothing(k: BudgetKey, f: Option<string>, serial: nat)
    ensures Neutral(Front(k, f, serial))
    ensures Handled(Front(k, f, serial)) == 0
  {
    FrontNeutral(PlanFor(k, f, serial), Consistent, FailureFor(k));
    NothingHandled(Front(k, f, serial));
  }

  function Schedule(keys: seq<BudgetKey>, f: Option<string>, serial: nat): seq<Iteration>
    decreases |keys|
  {
    if keys == [] then [] else [FailingIteration(keys[0], f, serial)] + Schedule(keys[1..], f, serial + 1)
  }

  /** A run of scheduled failures within all budgets: the loop handles all of them and goes on. */
  lemma {:induction false} ScheduleRuns(c: Config, r: Run, f: Option<string>, keys: seq<BudgetKey>, serial: nat,
                                        rest: seq<Iteration>)
    returns (next: Run)
    requires Configured(c) && c.maxIdentical >= 1 && UnseenFrom(r, serial) && NothingBlocked(r.trace)
    requires forall k :: k in c.budgets ==> multiset(keys)[k] + CountOf(r, f, k) <= c.budgets[k]
    ensures Loop(c, r, Schedule(keys, f, serial) + rest, None) == Loop(c, next, rest, None)
    ensures Handled(next.trace) == Handled(r.trace) + |keys|
    ensures UnseenFrom(next, serial + |keys|) && NothingBlocked(next.trace)
    ensures forall k :: CountOf(next, f, k) == CountOf(r, f, k) + multiset(keys)[k]
    decreases |keys|
  {
    hide CountOf, Front, Step, UnseenFrom, FailingIteration, Loop, Schedule, Handled, NothingBlocked;
    if keys == [] {
      next := r;
      EmptySchedule(f, serial, rest);
    } else {
      var k := keys[0];
      FirstKey(keys);
      EveryKey(k);
      var one := FailingStep(c, r, k, f, serial);
      LoopScheduled(c, r, f, keys, serial, rest, one);
      OneHandled(r.trace, k, f, serial, Checked(false));
      next := ScheduleRuns(c, one, f, keys[1..], serial + 1, rest);
    }
  }

  lemma EmptySchedule(f: Option<string>, serial: nat, rest: seq<Iteration>)
    ensures Schedule([], f, serial) + rest == rest
  {
  }

  lemma FirstKey(keys: seq<BudgetKey>)
    requires keys != []
    ensures forall q :: multiset(keys)[q] == multiset(keys[1..])[q] + if q == keys[0] then 1 else 0
  {
    assert keys == [keys[0]] + keys[1..];
  }

  lemma LoopScheduled(c: Config, r: Run, f: Option<string>, keys: seq<BudgetKey>, serial: nat, rest: seq<Iteration>,
                      one: Run)
    requires Configured(c) && keys != [] &&
      Step(c, r, FailingIteration(keys[0], f, serial), None) == Continue(one, None)
    ensures Loop(c, r, Schedule(keys, f, serial) + rest, None) ==
      Loop(c, one, Schedule(keys[1..], f, serial + 1) + rest, None)
  {
    hide Step, FailingIteration;
    var script := Schedule(keys, f, serial) + rest;
    assert script[0] == FailingIteration(keys[0], f, serial) &&
      script[1..] == Schedule(keys[1..], f, serial + 1) + rest;
  }

  lemma OneHandled(t: seq<Item>, k: BudgetKey, f: Option<string>, serial: nat, last: Item)
    requires NothingBlocked(t) && !last.Counted?
    ensures var longer := t + Front(k, f, serial) + [Counted(f, k)] + [last];
      Handled(longer) == Handled(t) + 1 && (!IsEvent(last, FeatureBlocked) ==> NothingBlocked(longer))
  {
    hide Front;
    FrontHandlesNothing(k, f, serial);
    HandledAppend(t, Front(k, f, serial));
    var charged := t + Front(k, f, serial) + [Counted(f, k)];
    assert charged[..|charged| - 1] == t + Front(k, f, serial);
    assert (charged + [last])[..|charged|] == charged;
  }

  function Repeat(k: BudgetKey, n: nat): (keys: seq<BudgetKey>)
    ensures |keys| == n && multiset(keys)[k] == n
    ensures forall q :: q != k ==> multiset(keys)[q] == 0
  {
    if n == 0 then [] else [k] + Repeat(k, n - 1)
  }

  /** Every budget used up once, one after the other. */
  function AllBudgets(c: Config): (keys: seq<BudgetKey>)
    requires Configured(c) && forall k :: k in c.budgets ==> c.budgets[k] >= 0
  {
    Repeat(Implementation, c.budgets[Implementation]) + Repeat(Validation, c.budgets[Validation])
    + Repeat(Deterministic, c.budgets[Deterministic]) + Repeat(Planning, c.budgets[Planning])
    + Repeat(IntegrationFinalization, c.budgets[IntegrationFinalization])
  }

  lemma FiveParts<T>(a: seq<T>, b: seq<T>, d: seq<T>, p: seq<T>, i: seq<T>)
    ensures multiset(a + b + d + p + i) == multiset(a) + multiset(b) + multiset(d) + multiset(p) + multiset(i)
  {
  }

  lemma BudgetCount(c: Config, k: BudgetKey)
    requires Configured(c) && forall q :: q in c.budgets ==> c.budgets[q] >= 0
    ensures k in c.budgets && multiset(AllBudgets(c))[k] == c.budgets[k]
  {
    hide Repeat;
    FiveParts(
      Repeat(Implementation, c.budgets[Implementation]), Repeat(Validation, c.budgets[Validation]),
      Repeat(Deterministic, c.budgets[Deterministic]), Repeat(Planning, c.budgets[Planning]),
      Repeat(IntegrationFinalization, c.budgets[IntegrationFinalization]));
    EveryKey(k);
  }

  lemma AllBudgetsCount(c: Config)
    requires Configured(c) && forall k :: k in c.budgets ==> c.budgets[k] >= 0
    ensures |AllBudgets(c)| == TotalBudget(c)
    ensures forall k :: k in c.budgets ==> multiset(AllBudgets(c))[k] == c.budgets[k]
  {
    assert |AllBudgets(c)| == TotalBudget(c);
    hide AllBudgets, TotalBudget;
    forall k | k in c.budgets ensures multiset(AllBudgets(c))[k] == c.budgets[k] {
      BudgetCount(c, k);
    }
  }

  /** All budgets of one feature, and one failure more. */
  function WorstScript(c: Config, f: Option<string>): seq<Iteration>
    requires Configured(c) && forall k :: k in c.budgets ==> c.budgets[k] >= 0
  {
    Schedule(AllBudgets(c), f, 0) + [FailingIteration(Implementation, f, TotalBudget(c))]
  }

  /** The trace of the whole worst run: all charges, the block, and the end. */
  lemma WorstRun(c: Config, f: Option<string>, initial: Reading<Plan>) returns (body: seq<Item>)
    requires Configured(c) && c.maxIdentical >= 1 && initial.Got? && forall k :: k in c.budgets ==> c.budgets[k] >= 0
    ensures NothingBlocked(body)
    ensures Handled(body) == TotalBudget(c)
    ensures Apply(c, initial, WorstScript(c, f), Got(false)).0 ==
      body + Front(Implementation, f, TotalBudget(c)) + [Counted(f, Implementation)] + [Emitted(FeatureBlocked, f)]
      + [Checked(false), Emitted(AutopilotFailed, None), OwnershipReleased]
  {
    hide Step, Front, FailingIteration, CountOf, UnseenFrom, AllBudgets, Schedule, TotalBudget;
    var begun := Begun(initial);
    BegunFresh(initial, f);
    AllBudgetsCount(c);
    var last := [FailingIteration(Implementation, f, TotalBudget(c))];
    var full := ScheduleRuns(c, begun, f, AllBudgets(c), 0, last);
    body := full.trace;
    EveryKey(Implementation);
    var blocked := FailingStep(c, full, Implementation, f, TotalBudget(c));
    assert last[1..] == [];
    assert End(c, initial, WorstScript(c, f)) == Raise(blocked, OtherException);
    assert blocked.trace + [Checked(false)] + [Emitted(AutopilotFailed, None), OwnershipReleased]
      == blocked.trace + [Checked(false), Emitted(AutopilotFailed, None), OwnershipReleased];
  }

  lemma BegunFresh(initial: Reading<Plan>, f: Option<string>)
    requires initial.Got?
    ensures var r := Begun(initial);
      UnseenFrom(r, 0) && NothingBlocked(r.trace) && Handled(r.trace) == 0 && forall k :: CountOf(r, f, k) == 0
  {
    NothingHandled(Begun(initial).trace);
  }

  /**
   The bound is reached: for every configuration there is a run without reselection in which a single
   feature, or the plan without feature, fails as often as the sum of all budgets plus one.
   */
  lemma BoundIsReached(c: Config, f: Option<string>, initial: Reading<Plan>)
    requires Configured(c) && c.maxIdentical >= 1 && initial.Got? && forall k :: k in c.budgets ==> c.budgets[k] >= 0
    ensures var t := Apply(c, initial, WorstScript(c, f), Got(false)).0;
      Handled(t) == TotalBudget(c) + 1 && NeverReselected(t)
  {
    hide Apply, WorstScript, Front, TotalBudget, Handled;
    var body := WorstRun(c, f, initial);
    var total := TotalBudget(c);
    var blocked := body + Front(Implementation, f, total) + [Counted(f, Implementation)] + [Emitted(FeatureBlocked, f)];
    var end := [Checked(false), Emitted(AutopilotFailed, None), OwnershipReleased];
    OneHandled(body, Implementation, f, total, Emitted(FeatureBlocked, f));
    HandledAppend(blocked, end);
    NothingHandled(end);
    FrontHandlesNothing(Implementation, f, total);
    assert forall i :: 0 <= i < |blocked + end| && IsEvent((blocked + end)[i], FeatureBlocked) ==> i == |blocked| - 1;
  }

  /** With the default configuration thirteen failed results of one feature are handled. */
  lemma ThirteenReached(f: Option<string>, initial: Reading<Plan>)
    requires initial.Got?
    ensures Configured(DEFAULT_CONFIG) && (forall k :: k in DEFAULT_CONFIG.budgets ==> DEFAULT_CONFIG.budgets[k] >= 0)
    ensures Handled(Apply(DEFAULT_CONFIG, initial, WorstScript(DEFAULT_CONFIG, f), Got(false)).0) == 13
  {
    hide Apply, WorstScript, Handled;
    assert TotalBudget(DEFAULT_CONFIG) == 12;
    BoundIsReached(DEFAULT_CONFIG, f, initial);
  }
}
