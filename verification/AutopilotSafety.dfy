/**
 What every run of the autopilot loop does, whatever it reads: the shape of its trace and the bound
 on the failed results that it handles.
 */
module AutopilotSafety {
  import opened Prelude
  import opened Autopilot

  // ---------------------------------------------------------------- the shape of a trace

  predicate IsEvent(item: Item, event: EventName) {
    item.Emitted? && item.event == event
  }

  predicate IsEnd(item: Item) {
    (item.Emitted? && item.event in TERMINAL_EVENTS) || item.OwnershipReleased?
  }

  /** Item `i` is a successful invocation of a recovery. */
  predicate RecoverySucceeded(item: Item) {
    item.Invoked? && IsRecovery(item.plan.action) && item.outcome.Some? && !RecoveryFailed(item.outcome.value)
  }

  /** Every route is invoked after a stop check of its own that found no request. */
  ghost predicate RouteChecked(t: seq<Item>) {
    forall j :: 0 <= j < |t| && t[j].Invoked? ==> CheckedBefore(t, j)
  }

  ghost predicate CheckedBefore(t: seq<Item>, j: int)
    requires 0 <= j < |t|
  {
    exists k :: 0 <= k < j && t[k] == Checked(false) && forall m :: k <= m < j ==> !t[m].Invoked?
  }

  /** Items `s` to `j` belong to one iteration whose only invocation is item `i`. */
  ghost predicate SameIteration(t: seq<Item>, s: int, i: int, j: int)
    requires 0 <= s < i < j < |t|
  {
    && IsEvent(t[s], RecoveryStarted) && RecoverySucceeded(t[i])
    && forall m :: s <= m <= j ==> !t[m].Checked? && (t[m].Invoked? ==> m == i)
  }

  ghost predicate Started(t: seq<Item>, j: int)
    requires 0 <= j < |t|
  {
    exists s, i :: 0 <= s < i < j && SameIteration(t, s, i, j)
  }

  /** Every applied recovery was started and succeeded in the same iteration. */
  ghost predicate AppliedInOrder(t: seq<Item>) {
    forall j :: 0 <= j < |t| && IsEvent(t[j], RecoveryApplied) ==> Started(t, j)
  }

  /** The success of item `i` is announced before anything else is checked or invoked. */
  ghost predicate AnnouncedAfter(t: seq<Item>, i: int)
    requires 0 <= i < |t|
  {
    exists j :: i < j < |t| && IsEvent(t[j], RecoveryApplied) && forall m :: i < m <= j ==>
      !t[m].Checked? && !t[m].Invoked?
  }

  /** Every recovery that succeeded is announced as applied in the same iteration. */
  ghost predicate SuccessesAnnounced(t: seq<Item>) {
    forall i :: 0 <= i < |t| && RecoverySucceeded(t[i]) ==> AnnouncedAfter(t, i)
  }

  /** The run is still open: no terminal event, no release. */
  ghost predicate Open(t: seq<Item>) {
    forall i :: 0 <= i < |t| ==> !IsEnd(t[i])
  }

  /** Items that neither route nor apply nor end anything. */
  ghost predicate Calm(t: seq<Item>) {
    forall i :: 0 <= i < |t| ==> !t[i].Invoked? && !IsEvent(t[i], RecoveryApplied) && !IsEnd(t[i])
  }

  ghost predicate WellShaped(t: seq<Item>) {
    RouteChecked(t) && AppliedInOrder(t) && SuccessesAnnounced(t) && Open(t)
  }

  lemma CheckedComposes(a: seq<Item>, b: seq<Item>)
    requires RouteChecked(a) && RouteChecked(b)
    ensures RouteChecked(a + b)
  {
    var t := a + b;
    forall j | 0 <= j < |t| && t[j].Invoked? ensures CheckedBefore(t, j) {
      if j < |a| {
        assert CheckedBefore(a, j);
        var k :| 0 <= k < j && a[k] == Checked(false) && forall m :: k <= m < j ==> !a[m].Invoked?;
        assert t[k] == Checked(false) && forall m :: k <= m < j ==> t[m] == a[m];
      } else {
        assert CheckedBefore(b, j - |a|);
        var k :| 0 <= k < j - |a| && b[k] == Checked(false) && forall m :: k <= m < j - |a| ==> !b[m].Invoked?;
        assert t[|a| + k] == Checked(false) && forall m :: |a| + k <= m < j ==> t[m] == b[m - |a|];
      }
    }
  }

  lemma AppliedComposes(a: seq<Item>, b: seq<Item>)
    requires AppliedInOrder(a) && AppliedInOrder(b)
    ensures AppliedInOrder(a + b)
  {
    var t := a + b;
    forall j | 0 <= j < |t| && IsEvent(t[j], RecoveryApplied) ensures Started(t, j) {
      if j < |a| {
        assert Started(a, j);
        var s, i :| 0 <= s < i < j && SameIteration(a, s, i, j);
        assert forall m :: s <= m <= j ==> t[m] == a[m];
        assert SameIteration(t, s, i, j);
      } else {
        var d := |a|;
        assert Started(b, j - d);
        var s, i :| 0 <= s < i < j - d && SameIteration(b, s, i, j - d);
        assert forall m :: d + s <= m <= j ==> t[m] == b[m - d];
        assert SameIteration(t, d + s, d + i, j);
      }
    }
  }

  lemma AnnouncedInPrefix(a: seq<Item>, b: seq<Item>, i: nat)
    requires i < |a| && AnnouncedAfter(a, i)
    ensures AnnouncedAfter(a + b, i)
  {
    var t := a + b;
    var j :| i < j < |a| && IsEvent(a[j], RecoveryApplied) && forall m :: i < m <= j ==>
      !a[m].Checked? && !a[m].Invoked?;
    assert IsEvent(t[j], RecoveryApplied) && forall m :: i < m <= j ==> t[m] == a[m];
  }

  lemma AnnouncedInSuffix(a: seq<Item>, b: seq<Item>, i: nat)
    requires i < |b| && AnnouncedAfter(b, i)
    ensures AnnouncedAfter(a + b, |a| + i)
  {
    var t, d := a + b, |a|;
    var j :| i < j < |b| && IsEvent(b[j], RecoveryApplied) && forall m :: i < m <= j ==>
      !b[m].Checked? && !b[m].Invoked?;
    assert IsEvent(t[d + j], RecoveryApplied) && forall m :: d + i < m <= d + j ==> t[m] == b[m - d];
  }

  lemma AnnouncedComposes(a: seq<Item>, b: seq<Item>)
    requires SuccessesAnnounced(a) && SuccessesAnnounced(b)
    ensures SuccessesAnnounced(a + b)
  {
    hide RecoverySucceeded, AnnouncedAfter;
    var t, d := a + b, |a|;
    forall i | 0 <= i < |t| && RecoverySucceeded(t[i]) ensures AnnouncedAfter(t, i) {
      if i < d {
        assert RecoverySucceeded(a[i]);
        AnnouncedInPrefix(a, b, i);
      } else {
        assert RecoverySucceeded(b[i - d]);
        AnnouncedInSuffix(a, b, i - d);
      }
    }
  }

  lemma ShapesCompose(a: seq<Item>, b: seq<Item>)
    requires WellShaped(a) && WellShaped(b)
    ensures WellShaped(a + b)
  {
    hide RouteChecked, AppliedInOrder, SuccessesAnnounced;
    CheckedComposes(a, b);
    AppliedComposes(a, b);
    AnnouncedComposes(a, b);
  }

  lemma CalmIsWellShaped(t: seq<Item>)
    requires Calm(t)
    ensures WellShaped(t)
  {
  }

  /** The head of an iteration that reaches its route. */
  function Head(p: Plan, seen: Consistency, result: Option<RouteResult>): seq<Item> {
    [Checked(false)] + Announcements(p) + [Invoked(p, seen, result)]
  }

  lemma HeadShape(p: Plan, seen: Consistency, result: Option<RouteResult>)
    ensures var t := Head(p, seen, result); var n := |t| - 1;
      && n > 0 && t[n] == Invoked(p, seen, result) && t[0] == Checked(false)
      && Calm(t[..n]) && (forall m :: 1 <= m < n ==> !t[m].Checked?)
      && (IsRecovery(p.action) ==> exists s :: 1 <= s < n && IsEvent(t[s], RecoveryStarted))
  {
    hide IsRecovery;
    var t := Head(p, seen, result);
    RetainedRepairsAreRecoveries(p.action);
    if IsRecovery(p.action) {
      assert IsEvent(t[if p.feature.Some? then 2 else 1], RecoveryStarted);
    }
  }

  predicate ReportItem(item: Item, p: Plan, r: RouteResult) {
    && item.Emitted? && !IsEnd(item)
    && (item.event == RecoveryApplied ==> IsRecovery(p.action) && !RecoveryFailed(r))
  }

  lemma ReportsShape(p: Plan, r: RouteResult)
    ensures forall m :: 0 <= m < |Reports(p, r)| ==> ReportItem(Reports(p, r)[m], p, r)
    ensures IsRecovery(p.action) && !RecoveryFailed(r) ==>
      exists m :: 0 <= m < |Reports(p, r)| && IsEvent(Reports(p, r)[m], RecoveryApplied)
  {
    hide IsRecovery, RecoveryFailed;
    if IsRecovery(p.action) && !RecoveryFailed(r) {
      assert IsEvent(Reports(p, r)[if r.retained && r.humanGate then 1 else 0], RecoveryApplied);
    }
  }

  /** An iteration that reaches its route is well shaped. */
  lemma RoutedShape(p: Plan, seen: Consistency, result: RouteResult)
    ensures WellShaped(Head(p, seen, Some(result)) + Reports(p, result))
  {
    hide Head, Reports, IsRecovery, RecoveryFailed;
    var head, reports := Head(p, seen, Some(result)), Reports(p, result);
    var t, n := head + reports, |head| - 1;
    HeadShape(p, seen, Some(result));
    ReportsShape(p, result);
    assert forall m :: 0 <= m < n ==> t[m] == head[..n][m];
    assert forall m :: n < m < |t| ==> t[m] == reports[m - n - 1];
    assert CheckedBefore(t, n);
    forall j | 0 <= j < |t| && IsEvent(t[j], RecoveryApplied) ensures Started(t, j) {
      assert j > n;
      var s :| 1 <= s < n && IsEvent(head[s], RecoveryStarted);
      assert SameIteration(t, s, n, j);
    }
    forall i | 0 <= i < |t| && RecoverySucceeded(t[i]) ensures AnnouncedAfter(t, i) {
      assert i == n;
      var m :| 0 <= m < |reports| && IsEvent(reports[m], RecoveryApplied);
      assert IsEvent(t[n + 1 + m], RecoveryApplied);
    }
  }

  lemma UnreturnedShape(p: Plan, seen: Consistency)
    ensures WellShaped(Head(p, seen, None))
  {
    hide Head;
    HeadShape(p, seen, None);
    var t, n := Head(p, seen, None), |Head(p, seen, None)| - 1;
    assert forall m :: 0 <= m < n ==> t[m] == t[..n][m];
    assert CheckedBefore(t, n);
  }

  /** No stop request was found or acknowledged. */
  ghost predicate NoStop(t: seq<Item>) {
    forall i :: 0 <= i < |t| ==> !t[i].Acknowledged? && t[i] != Checked(true)
  }

  /** What a step or the loop may add: a stop request that is found is acknowledged and ends it stopped. */
  ghost predicate EndsProperly(n: Next, added: seq<Item>) {
    match n
    case Continue(_, _) => NoStop(added)
    case Raise(_, _) => NoStop(added)
    case Halt(_, terminal) =>
      && terminal in TERMINAL_EVENTS
      && (NoStop(added) || (terminal == AutopilotStopped && Checked(true) in added && Acknowledged in added))
  }

  // ---------------------------------------------------------------- which failures are charged

  /** A result that the loop treats as a failure; a human gate takes precedence. */
  predicate CountsAsFailure(r: RouteResult) {
    Failed(Effective(r)) && !IsGate(r)
  }

  /** The branch of failed deterministic recoveries reads its evidence before it charges anything. */
  predicate ReadsEvidenceFirst(p: Plan, r: RouteResult) {
    p.action in DETERMINISTIC_RECOVERY_ROUTES && IsRecovery(p.action) && Effective(r) == DeterministicRecoveryFailed
  }

  predicate IsCharged(it: Iteration, p: Plan, r: RouteResult) {
    CountsAsFailure(r) && (ReadsEvidenceFirst(p, r) ==> it.evidence.Got?)
  }

  /** The failure of invocation `i` is charged before anything else is checked or invoked. */
  ghost predicate ChargedAfter(t: seq<Item>, i: int)
    requires 0 <= i < |t|
  {
    exists j :: i < j < |t| && t[j].Counted? && forall m :: i < m <= j ==> !t[m].Checked? && !t[m].Invoked?
  }

  /** Only failures are charged, and every failure is, unless the reading of its evidence may raise first. */
  ghost predicate ChargesRight(t: seq<Item>) {
    forall i :: 0 <= i < |t| && t[i].Invoked? ==> ChargedRight(t, i)
  }

  ghost predicate ChargedRight(t: seq<Item>, i: int)
    requires 0 <= i < |t| && t[i].Invoked?
  {
    && (ChargedAfter(t, i) ==> t[i].outcome.Some? && CountsAsFailure(t[i].outcome.value))
    && (t[i].outcome.Some? && CountsAsFailure(t[i].outcome.value) ==>
          ReadsEvidenceFirst(t[i].plan, t[i].outcome.value) || ChargedAfter(t, i))
  }

  /** No charge at the front that could belong to an earlier invocation. */
  ghost predicate Sealed(t: seq<Item>) {
    forall j :: 0 <= j < |t| && t[j].Counted? ==> exists m :: 0 <= m <= j && (t[m].Checked? || t[m].Invoked?)
  }

  lemma ChargesCompose(a: seq<Item>, b: seq<Item>)
    requires ChargesRight(a) && ChargesRight(b) && Sealed(b)
    ensures ChargesRight(a + b)
  {
    hide CountsAsFailure, ReadsEvidenceFirst;
    var t, d := a + b, |a|;
    forall i | 0 <= i < |t| && t[i].Invoked? ensures ChargedRight(t, i) {
      if i < d {
        assert ChargedRight(a, i);
        ChargedInPrefix(a, b, i);
      } else {
        assert ChargedRight(b, i - d);
        ChargedInSuffix(a, b, i - d);
      }
    }
  }

  lemma SealedOff(a: seq<Item>, b: seq<Item>, j: nat)
    requires Sealed(b) && |a| <= j < |a + b| && (a + b)[j].Counted?
    ensures exists m :: |a| <= m <= j && ((a + b)[m].Checked? || (a + b)[m].Invoked?)
  {
    var m :| 0 <= m <= j - |a| && (b[m].Checked? || b[m].Invoked?);
    assert (a + b)[|a| + m] == b[m];
  }

  lemma ChargedInPrefix(a: seq<Item>, b: seq<Item>, i: nat)
    requires i < |a| && Sealed(b)
    ensures ChargedAfter(a + b, i) <==> ChargedAfter(a, i)
  {
    var t, d := a + b, |a|;
    if j :| i < j < |t| && t[j].Counted? && forall m :: i < m <= j ==> !t[m].Checked? && !t[m].Invoked? {
      if j >= d {
        SealedOff(a, b, j);
      } else {
        assert a[j].Counted? && forall m :: i < m <= j ==> a[m] == t[m];
      }
    }
    if j :| i < j < |a| && a[j].Counted? && forall m :: i < m <= j ==> !a[m].Checked? && !a[m].Invoked? {
      assert t[j].Counted? && forall m :: i < m <= j ==> t[m] == a[m];
    }
  }

  lemma ChargedFromSuffix(a: seq<Item>, b: seq<Item>, i: nat)
    requires i < |b| && ChargedAfter(a + b, |a| + i)
    ensures ChargedAfter(b, i)
  {
    var t, d := a + b, |a|;
    var j :| d + i < j < |t| && t[j].Counted? && forall m :: d + i < m <= j ==> !t[m].Checked? && !t[m].Invoked?;
    assert b[j - d].Counted? && forall m :: i < m <= j - d ==> b[m] == t[d + m];
  }

  lemma ChargedToSuffix(a: seq<Item>, b: seq<Item>, i: nat)
    requires i < |b| && ChargedAfter(b, i)
    ensures ChargedAfter(a + b, |a| + i)
  {
    var t, d := a + b, |a|;
    var j :| i < j < |b| && b[j].Counted? && forall m :: i < m <= j ==> !b[m].Checked? && !b[m].Invoked?;
    assert t[d + j].Counted? && forall m :: d + i < m <= d + j ==> t[m] == b[m - d];
  }

  lemma ChargedInSuffix(a: seq<Item>, b: seq<Item>, i: nat)
    requires i < |b|
    ensures ChargedAfter(a + b, |a| + i) <==> ChargedAfter(b, i)
  {
    hide ChargedAfter;
    if ChargedAfter(a + b, |a| + i) {
      ChargedFromSuffix(a, b, i);
    }
    if ChargedAfter(b, i) {
      ChargedToSuffix(a, b, i);
    }
  }

  /** What follows a route result: a charge comes first, or not at all. */
  ghost predicate TailCharged(tail: seq<Item>, charged: bool) {
    && (forall j :: 0 <= j < |tail| && tail[j].Counted? ==> j == 0)
    && (charged <==> tail != [] && tail[0].Counted?)
  }

  lemma EndTail(r: Run, it: Iteration, p: Plan) returns (tail: seq<Item>)
    ensures var n := AtEnd(r, it, p);
      n.run.trace == r.trace + tail && Calm(tail) && EndsProperly(n, tail)
    ensures forall j :: 0 <= j < |tail| ==> !tail[j].Counted?
  {
    var n := AtEnd(r, it, p);
    tail := n.run.trace[|r.trace|..];
  }

  lemma RecoveryFailureTail(c: Config, r: Run, it: Iteration, p: Plan) returns (tail: seq<Item>)
    requires Configured(c)
    ensures var n := AfterRecoveryFailure(c, r, it, p);
      n.run.trace == r.trace + tail && Calm(tail) && EndsProperly(n, tail)
    ensures TailCharged(tail, it.evidence.Got?)
  {
    hide CountOf;
    var n := AfterRecoveryFailure(c, r, it, p);
    tail := n.run.trace[|r.trace|..];
  }

  lemma FailureTail(c: Config, r: Run, it: Iteration, p: Plan, result: RouteResult) returns (tail: seq<Item>)
    requires Configured(c)
    ensures var n := AfterFailure(c, r, it, p, result);
      n.run.trace == r.trace + tail && Calm(tail) && EndsProperly(n, tail)
    ensures TailCharged(tail, true)
  {
    hide RetryBudgetKey, CountOf, SeenOf, Effective, AtEnd;
    var n := AfterFailure(c, r, it, p, result);
    var key := RetryBudgetKey(p.action, Effective(result));
    var signature := Signature(p.action, p.feature, p.state, result.outcome, result.classification, result.reason);
    var counted := CountFailure(r.(signatures := r.signatures[signature := SeenOf(r, signature) + 1]), p.feature, key);
    if n == AtEnd(counted, it, p) {
      var rest := EndTail(counted, it, p);
      tail := [Counted(p.feature, key)] + rest;
      assert r.trace + tail == r.trace + [Counted(p.feature, key)] + rest;
    } else {
      tail := [Counted(p.feature, key), Emitted(FeatureBlocked, p.feature)];
    }
  }

  /** After the route result nothing is invoked or applied any more, and failures are charged. */
  lemma ResultTail(c: Config, r: Run, it: Iteration, p: Plan, result: RouteResult) returns (tail: seq<Item>)
    requires Configured(c)
    ensures var n := AfterResult(c, r, it, p, result);
      n.run.trace == r.trace + tail && Calm(tail) && EndsProperly(n, tail)
    ensures TailCharged(tail, IsCharged(it, p, result))
  {
    hide Effective, RecoversGate, Failed, IsRecovery, AtEnd, AfterFailure, AfterRecoveryFailure;
    if !IsGate(result) && !Effective(result).CompletionOutcome? {
      if !Failed(Effective(result)) {
        tail := EndTail(r, it, p);
      } else if ReadsEvidenceFirst(p, result) {
        tail := RecoveryFailureTail(c, r, it, p);
      } else {
        tail := FailureTail(c, r, it, p, result);
      }
    } else {
      CompletionIsNoFailure(result);
      tail := [];
    }
  }

  lemma CompletionIsNoFailure(r: RouteResult)
    ensures Effective(r).CompletionOutcome? ==> !Failed(Effective(r))
  {
  }

  // ---------------------------------------------------------------- one iteration

  /** The plan an iteration works on: the pending one, otherwise the one it reads. */
  function PlanOf(it: Iteration, pending: Option<Plan>): Reading<Plan> {
    if pending.Some? then Got(pending.value) else it.plan
  }

  /**
   A plan that may be routed: on consistent or recoverable evidence and without human gate, unless it
   is a recognised recovery, and neither a human action nor the end of the project.
   */
  predicate Admitted(p: Plan, seen: Consistency) {
    && (seen.NeedsGate? || p.humanGate ==> Recognized(p))
    && p.action !in {HumanDecisionResolution, HumanMergeApproval, Disabled, Paused, PortfolioComplete, Completed}
  }

  ghost predicate InvokesOnly(t: seq<Item>, p: Plan, seen: Consistency) {
    forall i :: 0 <= i < |t| && t[i].Invoked? ==> t[i].plan == p && t[i].seen == seen
  }

  /** What every iteration adds to the trace. */
  ghost predicate GoodBlock(n: Next, r: Run, block: seq<Item>) {
    && n.run.trace == r.trace + block
    && WellShaped(block) && EndsProperly(n, block)
    && ChargesRight(block) && Sealed(block)
  }

  lemma UninvokedCharges(t: seq<Item>)
    requires forall i :: 0 <= i < |t| ==> !t[i].Invoked? && !t[i].Counted?
    ensures ChargesRight(t) && Sealed(t)
  {
  }

  lemma StepBlock(c: Config, r: Run, it: Iteration, pending: Option<Plan>) returns (block: seq<Item>)
    requires Configured(c)
    ensures GoodBlock(Step(c, r, it, pending), r, block)
    ensures forall i :: 0 <= i < |block| && block[i].Invoked? ==>
      && it.stopAtStart == Got(false) && PlanOf(it, pending) == Got(block[i].plan) &&
          it.consistency == Got(block[i].seen)
      && Admitted(block[i].plan, block[i].seen)
  {
    hide Recognized, HasRoute, IsRecovery, AfterResult, Reports, Announcements, WellShaped, Route, ChargesRight, Sealed;
    var n := Step(c, r, it, pending);
    if it.stopAtStart == Got(true) {
      block := [Checked(true)] + STOP_ITEMS;
      CalmIsWellShaped(block);
      UninvokedCharges(block);
    } else {
      block := if it.stopAtStart.Threw? then [] else [Checked(false)];
      CalmIsWellShaped(block);
      UninvokedCharges(block);
      if it.stopAtStart.Got? && PlanOf(it, pending).Got? && it.consistency.Got? {
        var p := PlanOf(it, pending).value;
        if Admitted(p, it.consistency.value) {
          block := RouteBlock(c, r, it, p);
        }
      }
    }
  }

  lemma RouteBlock(c: Config, r: Run, it: Iteration, p: Plan) returns (block: seq<Item>)
    requires Configured(c) && it.consistency.Got?
    ensures GoodBlock(Route(c, Add(r, [Checked(false)]), it, p), r, block)
    ensures InvokesOnly(block, p, it.consistency.value)
  {
    hide HasRoute, IsRecovery, AfterResult, Reports, Announcements, WellShaped, Reported;
    var checked := Add(r, [Checked(false)]);
    if HasRoute(p.action) && (it.routed.Returned? || (it.routed.RecoveryError? && IsRecovery(p.action))) {
      var result := if it.routed.Returned? then it.routed.result else RecoveryErrorResult(it.routed.reason);
      block := ReportedBlock(c, r, it, p, result);
    } else {
      var seen := it.consistency.value;
      block := Head(p, seen, None);
      UnreturnedShape(p, seen);
      HeadNoStop(p, seen, None);
      HeadCharges(p, seen, None, [], false);
      assert block + [] == block;
      assert Add(Add(checked, Announcements(p)), [Invoked(p, seen, None)]).trace == r.trace + block;
    }
  }

  /** The head of an iteration and what follows its only invocation. */
  lemma HeadCharges(p: Plan, seen: Consistency, result: Option<RouteResult>, rest: seq<Item>, charged: bool)
    requires forall j :: 0 <= j < |rest| ==> !rest[j].Invoked?
    requires charged ==> exists j :: 0 <= j < |rest| && rest[j].Counted? && forall m :: 0 <= m <= j ==>
      !rest[m].Checked?
    requires !charged ==> forall j :: 0 <= j < |rest| ==> !rest[j].Counted?
    requires charged ==> result.Some? && CountsAsFailure(result.value)
    requires result.Some? && CountsAsFailure(result.value) && !ReadsEvidenceFirst(p, result.value) ==> charged
    ensures ChargesRight(Head(p, seen, result) + rest) && Sealed(Head(p, seen, result) + rest)
    ensures InvokesOnly(Head(p, seen, result) + rest, p, seen)
  {
    hide Head, CountsAsFailure, ReadsEvidenceFirst;
    HeadShape(p, seen, result);
    var head := Head(p, seen, result);
    var t, n := head + rest, |head| - 1;
    assert forall m :: 0 <= m < n ==> t[m] == head[..n][m];
    assert forall m :: n < m < |t| ==> t[m] == rest[m - n - 1];
    assert t[0] == Checked(false) && t[n] == Invoked(p, seen, result);
    if charged {
      var j :| 0 <= j < |rest| && rest[j].Counted? && forall m :: 0 <= m <= j ==> !rest[m].Checked?;
      assert t[n + 1 + j].Counted?;
      assert ChargedAfter(t, n);
    }
    forall i | 0 <= i < |t| && t[i].Invoked? ensures ChargedRight(t, i) {
      assert i == n;
    }
  }

  lemma ReportedBlock(c: Config, r: Run, it: Iteration, p: Plan, result: RouteResult) returns (block: seq<Item>)
    requires Configured(c) && it.consistency.Got?
    ensures GoodBlock(Reported(c, Add(Add(r, [Checked(false)]), Announcements(p)), it, p, result), r, block)
    ensures InvokesOnly(block, p, it.consistency.value)
  {
    hide AfterResult, Reports, Announcements, WellShaped, ChargesRight, Sealed, InvokesOnly, CountsAsFailure,
      ReadsEvidenceFirst, Calm;
    var seen := it.consistency.value;
    var announced := Add(Add(r, [Checked(false)]), Announcements(p));
    var reported := Add(Add(announced, [Invoked(p, seen, Some(result))]), Reports(p, result));
    var tail := ResultTail(c, reported, it, p, result);
    var front := Head(p, seen, Some(result)) + Reports(p, result);
    assert reported.trace == r.trace + front;
    RoutedShape(p, seen, result);
    CalmIsWellShaped(tail);
    ShapesCompose(front, tail);
    HeadNoStop(p, seen, Some(result));
    ReportsShape(p, result);
    block := front + tail;
    assert r.trace + front + tail == r.trace + block;
    AfterInvocation(p, result, tail, IsCharged(it, p, result));
    HeadCharges(p, seen, Some(result), Reports(p, result) + tail, IsCharged(it, p, result));
    assert block == Head(p, seen, Some(result)) + (Reports(p, result) + tail);
  }

  lemma AfterInvocation(p: Plan, result: RouteResult, tail: seq<Item>, charged: bool)
    requires Calm(tail) && TailCharged(tail, charged)
    ensures var rest := Reports(p, result) + tail;
      && (forall j :: 0 <= j < |rest| ==> !rest[j].Invoked?)
      && (charged ==> exists j :: 0 <= j < |rest| && rest[j].Counted? && forall m :: 0 <= m <= j ==> !rest[m].Checked?)
      && (!charged ==> forall j :: 0 <= j < |rest| ==> !rest[j].Counted?)
  {
    hide Reports;
    ReportsShape(p, result);
    var rest, d := Reports(p, result) + tail, |Reports(p, result)|;
    if charged {
      assert rest[d] == tail[0];
    }
  }

  lemma HeadNoStop(p: Plan, seen: Consistency, result: Option<RouteResult>)
    ensures NoStop(Head(p, seen, result))
  {
    hide IsRecovery;
  }

  lemma {:induction false} LoopShape(c: Config, r: Run, script: seq<Iteration>, pending: Option<Plan>)
    requires Configured(c) && WellShaped(r.trace) && NoStop(r.trace) && ChargesRight(r.trace)
    ensures var n := Loop(c, r, script, pending);
      !n.Continue? && WellShaped(n.run.trace) && EndsProperly(n, n.run.trace) && ChargesRight(n.run.trace)
    decreases |script|
  {
    hide Step, WellShaped, ChargesRight, Sealed;
    if script != [] {
      var block := StepBlock(c, r, script[0], pending);
      ShapesCompose(r.trace, block);
      ChargesCompose(r.trace, block);
      var n := Step(c, r, script[0], pending);
      if n.Continue? {
        LoopShape(c, n.run, script[1..], n.pending);
      }
    }
  }

  /** The trace of a whole run before its terminal event. */
  lemma BodyShape(c: Config, initial: Reading<Plan>, script: seq<Iteration>, stopAfterException: Reading<bool>)
    requires Configured(c)
    ensures var (body, terminal) := Concluded(End(c, initial, script), stopAfterException);
      && WellShaped(body) && terminal in TERMINAL_EVENTS && ChargesRight(body)
      && (Acknowledged in body ==> terminal == AutopilotStopped)
  {
    hide Loop, WellShaped, ChargesRight, Sealed;
    CalmIsWellShaped([]);
    UninvokedCharges([]);
    if initial.Got? {
      CalmIsWellShaped(Begun(initial).trace);
      UninvokedCharges(Begun(initial).trace);
      LoopShape(c, Begun(initial), script, None);
    }
    var end := End(c, initial, script);
    var (body, terminal) := Concluded(end, stopAfterException);
    if end.Raise? && stopAfterException.Got? {
      var more := body[|end.run.trace|..];
      assert body == end.run.trace + more;
      CalmIsWellShaped(more);
      UninvokedCharges(more);
      ShapesCompose(end.run.trace, more);
      ChargesCompose(end.run.trace, more);
    }
  }

  /**
   Every run emits exactly one terminal event, right before ownership is released, and nothing
   follows. A run that has acknowledged a stop request ends stopped.
   */
  lemma OneTerminalEvent(c: Config, initial: Reading<Plan>, script: seq<Iteration>, stopAfterException: Reading<bool>)
    requires Configured(c)
    ensures var (t, terminal) := Apply(c, initial, script, stopAfterException);
      && |t| >= 2 && t[|t| - 2] == Emitted(terminal, None) && t[|t| - 1] == OwnershipReleased
      && terminal in TERMINAL_EVENTS
      && (forall i :: 0 <= i < |t| - 2 ==> !IsEnd(t[i]))
      && (Acknowledged in t ==> terminal == AutopilotStopped)
  {
    hide End, RouteChecked, AppliedInOrder;
    BodyShape(c, initial, script, stopAfterException);
  }

  /**
   A stop request is acknowledged exactly when a check of the loop finds it, or when a route was left
   by the stop exception and the request is still there.
   */
  lemma StopAcknowledgedIff(c: Config, initial: Reading<Plan>, script: seq<Iteration>,
                            stopAfterException: Reading<bool>)
    requires Configured(c)
    ensures var t := Apply(c, initial, script, stopAfterException).0;
      var end := End(c, initial, script);
      Acknowledged in t <==> (if end.Halt? then Checked(true) in t
        else end.Raise? && end.exception.StopObserved? && stopAfterException == Got(true))
  {
    hide Loop, WellShaped, ChargesRight;
    CalmIsWellShaped([]);
    if initial.Got? {
      CalmIsWellShaped(Begun(initial).trace);
      UninvokedCharges(Begun(initial).trace);
      LoopShape(c, Begun(initial), script, None);
    }
  }

  /** Between any two invocations of a route lies a stop check that found no request. */
  lemma StopCheckedBetweenRoutes(c: Config, initial: Reading<Plan>, script: seq<Iteration>,
                                 stopAfterException: Reading<bool>, i: nat, j: nat)
    requires Configured(c)
    requires var t := Apply(c, initial, script, stopAfterException).0; i < j < |t| && t[i].Invoked? && t[j].Invoked?
    ensures var t := Apply(c, initial, script, stopAfterException).0; exists k :: i < k < j && t[k] == Checked(false)
  {
    hide End, Concluded;
    BodyShape(c, initial, script, stopAfterException);
    var (body, terminal) := Concluded(End(c, initial, script), stopAfterException);
    var t := Apply(c, initial, script, stopAfterException).0;
    assert forall m :: 0 <= m < |body| ==> t[m] == body[m];
    assert CheckedBefore(body, j);
  }

  /**
   A recovery is reported as applied only after it was started in the same iteration and its route
   returned a result that is not a failed recovery; and every such result is reported.
   */
  lemma AppliedIffSucceeded(c: Config, initial: Reading<Plan>, script: seq<Iteration>,
                            stopAfterException: Reading<bool>)
    requires Configured(c)
    ensures AppliedInOrder(Apply(c, initial, script, stopAfterException).0)
    ensures SuccessesAnnounced(Apply(c, initial, script, stopAfterException).0)
  {
    hide Apply;
    WholeTrace(c, initial, script, stopAfterException);
  }

  // ---------------------------------------------------------------- failures announced as applied

  /** The results whose recovery is announced as applied and then charged as a failure. */
  predicate AppliedAndCharged(r: RouteResult) {
    && !r.recoverable && !r.humanGate
    && Effective(r) in {PlanningValidationFailed, InvalidQueue, RetryExhausted, TerminalFeatureFailure,
        TerminalPlanningFailure}
  }

  lemma AppliedAndChargedIff(r: RouteResult)
    ensures AppliedAndCharged(r) <==> CountsAsFailure(r) && !RecoveryFailed(r)
    ensures AppliedAndCharged(r) ==> Effective(r) != DeterministicRecoveryFailed
  {
  }

  /** An announcement right after an invocation is an announcement of its success. */
  lemma AnnouncedSucceeded(t: seq<Item>, i: nat)
    requires AppliedInOrder(t) && i < |t| && t[i].Invoked? && AnnouncedAfter(t, i)
    ensures RecoverySucceeded(t[i])
  {
    var j :| i < j < |t| && IsEvent(t[j], RecoveryApplied) && forall m :: i < m <= j ==>
      !t[m].Checked? && !t[m].Invoked?;
    assert Started(t, j);
    var s, k :| 0 <= s < k < j && SameIteration(t, s, k, j);
    if k != i {
      assert t[k].Invoked?;
      assert k < i && t[i].Invoked?;
    }
  }

  /**
   In every run a recovery is both announced as applied and charged as a failure in the same iteration
   exactly when its route has returned one of five outcomes, without human gate and without being
   marked recoverable: the two lists of failures in the loop differ.
   */
  lemma AppliedThoughFailed(c: Config, initial: Reading<Plan>, script: seq<Iteration>,
                            stopAfterException: Reading<bool>, i: nat)
    requires Configured(c)
    requires var t := Apply(c, initial, script, stopAfterException).0;
      i < |t| && t[i].Invoked? && IsRecovery(t[i].plan.action)
    ensures var t := Apply(c, initial, script, stopAfterException).0;
      AnnouncedAfter(t, i) && ChargedAfter(t, i) <==> t[i].outcome.Some? && AppliedAndCharged(t[i].outcome.value)
  {
    hide End, Concluded, IsRecovery, CountsAsFailure, RecoveryFailed, ReadsEvidenceFirst, AnnouncedAfter, ChargedAfter,
      AppliedAndCharged, Effective;
    var t := Apply(c, initial, script, stopAfterException).0;
    WholeTrace(c, initial, script, stopAfterException);
    if t[i].outcome.Some? {
      AppliedAndChargedIff(t[i].outcome.value);
      NotEvidenceFirst(t[i].plan, t[i].outcome.value);
    }
    if AnnouncedAfter(t, i) {
      AnnouncedSucceeded(t, i);
    }
    assert ChargedRight(t, i);
  }

  lemma NotEvidenceFirst(p: Plan, r: RouteResult)
    ensures Effective(r) != DeterministicRecoveryFailed ==> !ReadsEvidenceFirst(p, r)
  {
  }

  lemma WholeTrace(c: Config, initial: Reading<Plan>, script: seq<Iteration>, stopAfterException: Reading<bool>)
    requires Configured(c)
    ensures var t := Apply(c, initial, script, stopAfterException).0;
      AppliedInOrder(t) && SuccessesAnnounced(t) && ChargesRight(t)
  {
    hide End, Concluded;
    BodyShape(c, initial, script, stopAfterException);
    var (body, terminal) := Concluded(End(c, initial, script), stopAfterException);
    var end := [Emitted(terminal, None), OwnershipReleased];
    AppliedComposes(body, end);
    AnnouncedComposes(body, end);
    ChargesCompose(body, end);
  }

  /** Exactly when a result is charged, also when the evidence of a failed recovery cannot be read. */
  lemma ChargedIff(c: Config, r: Run, it: Iteration, p: Plan, result: RouteResult)
    requires Configured(c)
    ensures var n := AfterResult(c, r, it, p, result);
      && (IsCharged(it, p, result) <==> |n.run.trace| > |r.trace| && n.run.trace[|r.trace|].Counted?)
      && (IsCharged(it, p, result) ==> n.run.trace[|r.trace|].feature == p.feature)
      && (!IsCharged(it, p, result) ==> n.run.counts == r.counts)
  {
    hide Effective, RecoversGate, IsRecovery, RetryBudgetKey, CountOf, SeenOf, Failed;
    var tail := ResultTail(c, r, it, p, result);
    CompletionIsNoFailure(result);
    var n := AfterResult(c, r, it, p, result);
    assert n.run.trace == r.trace + tail;
    if tail != [] {
      assert n.run.trace[|r.trace|] == tail[0];
    }
  }

  // ---------------------------------------------------------------- one run in full

  const SOME_PLAN: Plan := Plan(VerifyConsistency, Some("F1"), "ready", false, false, false)

  /** A recovery returns an exhausted retry, and then the script has run out. */
  function ExhaustedIteration(humanGate: bool): Iteration {
    Iteration(Got(false), Got(SOME_PLAN), Got(Consistent),
              Returned(RouteResult(RetryExhausted, NoOutcome, "spent", false, humanGate, false, false)),
              Threw(OtherException), Got(SOME_PLAN), Threw(OtherException), Got(false))
  }

  const DEFAULT_CONFIG: Config := Config(DEFAULT_RETRY_BUDGETS, 1)

  function ExhaustedResult(humanGate: bool): RouteResult {
    RouteResult(RetryExhausted, NoOutcome, "spent", false, humanGate, false, false)
  }

  /** What that iteration does: applied, and charged only without a human gate. */
  function ExhaustedItems(humanGate: bool): seq<Item> {
    ExhaustedFront(humanGate)
    + if humanGate then [] else [Counted(Some("F1"), Deterministic), Checked(false)]
  }

  lemma ExhaustedStep(r: Run, humanGate: bool)
    requires r.counts == map[] && r.signatures == map[]
    ensures Configured(DEFAULT_CONFIG)
    ensures var n := Step(DEFAULT_CONFIG, r, ExhaustedIteration(humanGate), None);
      && n.run.trace == r.trace + ExhaustedItems(humanGate)
      && (if humanGate then n.Halt? && n.terminal == AutopilotStopped else n.Continue?)
  {
    hide Step, Announcements, Reports, IsRecovery, RetryBudgetKey;
    ExhaustedRoute(r, humanGate);
    ExhaustedKey();
  }

  lemma ExhaustedKey()
    ensures RetryBudgetKey(VerifyConsistency, RetryExhausted) == Deterministic
  {
  }

  function ExhaustedFront(humanGate: bool): seq<Item> {
    [Checked(false), Emitted(FeatureSelected, Some("F1")), Emitted(RecoveryStarted, Some("F1")),
     Invoked(SOME_PLAN, Consistent, Some(ExhaustedResult(humanGate))), Emitted(RecoveryApplied, Some("F1"))]
  }

  lemma ExhaustedReports(humanGate: bool)
    ensures Announcements(SOME_PLAN) == [Emitted(FeatureSelected, Some("F1")), Emitted(RecoveryStarted, Some("F1"))]
    ensures Reports(SOME_PLAN, ExhaustedResult(humanGate)) == [Emitted(RecoveryApplied, Some("F1"))]
  {
  }

  lemma ExhaustedRoute(r: Run, humanGate: bool)
    ensures Configured(DEFAULT_CONFIG)
    ensures Step(DEFAULT_CONFIG, r, ExhaustedIteration(humanGate), None)
      == AfterResult(DEFAULT_CONFIG, Add(r, ExhaustedFront(humanGate)), ExhaustedIteration(humanGate), SOME_PLAN,
        ExhaustedResult(humanGate))
  {
    hide AfterResult, Announcements, Reports;
    var it, result := ExhaustedIteration(humanGate), ExhaustedResult(humanGate);
    ExhaustedReports(humanGate);
    assert Add(Add(Add(Add(r, [Checked(false)]), Announcements(SOME_PLAN)),
      [Invoked(SOME_PLAN, Consistent, Some(result))]), Reports(SOME_PLAN, result)).trace
      == r.trace + ExhaustedFront(humanGate);
  }

  /** A whole run in which a recovery is announced as applied and, without a gate, charged as a failure. */
  lemma ExhaustedRecoveryRun(humanGate: bool)
    ensures Configured(DEFAULT_CONFIG)
    ensures Apply(DEFAULT_CONFIG, Got(SOME_PLAN), [ExhaustedIteration(humanGate)], Got(false)).0 ==
      [Emitted(AutopilotStarted, Some("F1"))] + ExhaustedItems(humanGate)
      + (if humanGate then [Emitted(AutopilotStopped, None)] else [Checked(false), Emitted(AutopilotFailed, None)]) +
        [OwnershipReleased]
  {
    hide Step, ExhaustedItems;
    var script := [ExhaustedIteration(humanGate)];
    var begun := Begun(Got(SOME_PLAN));
    ExhaustedStep(begun, humanGate);
    var n := Step(DEFAULT_CONFIG, begun, script[0], None);
    assert script[1..] == [];
    if n.Continue? {
      assert Loop(DEFAULT_CONFIG, n.run, [], n.pending) == Raise(n.run, OtherException);
    }
  }

  // ---------------------------------------------------------------- every routed plan was admitted

  /** The iteration that reads a plan, or the one after the reading of a next plan, has admitted it. */
  ghost predicate AdmittedAt(script: seq<Iteration>, k: int, item: Item)
    requires 0 <= k < |script| && item.Invoked?
  {
    && script[k].stopAtStart == Got(false) && script[k].consistency == Got(item.seen)
    && (script[k].plan == Got(item.plan) || (k > 0 && script[k - 1].nextPlan == Got(item.plan)))
  }

  ghost predicate WasAdmitted(script: seq<Iteration>, item: Item)
    requires item.Invoked?
  {
    Admitted(item.plan, item.seen) && exists k :: 0 <= k < |script| && AdmittedAt(script, k, item)
  }

  ghost predicate AllAdmitted(script: seq<Iteration>, t: seq<Item>) {
    forall i :: 0 <= i < |t| && t[i].Invoked? ==> WasAdmitted(script, t[i])
  }

  /** Only a kept next plan is pending. */
  lemma PendingIsNext(c: Config, r: Run, it: Iteration, pending: Option<Plan>)
    requires Configured(c)
    ensures var n := Step(c, r, it, pending);
      n.Continue? && n.pending.Some? ==> it.nextPlan == Got(n.pending.value)
  {
    hide Recognized, HasRoute, IsRecovery, Reports, Announcements, CountOf, SeenOf, RetryBudgetKey, Effective, Failed,
      IsGate;
  }

  lemma {:induction false} LoopAdmits(c: Config, r: Run, done: seq<Iteration>, script: seq<Iteration>,
                                      pending: Option<Plan>)
    requires Configured(c) && AllAdmitted(done + script, r.trace)
    requires pending.Some? ==> done != [] && done[|done| - 1].nextPlan == Got(pending.value)
    ensures AllAdmitted(done + script, Loop(c, r, script, pending).run.trace)
    decreases |script|
  {
    hide Step, Admitted;
    if script != [] {
      var all := done + script;
      var it := script[0];
      assert all[|done|] == it && (done != [] ==> all[|done| - 1] == done[|done| - 1]);
      var block := StepBlock(c, r, it, pending);
      var n := Step(c, r, it, pending);
      forall i | 0 <= i < |block| && block[i].Invoked? ensures WasAdmitted(all, block[i]) {
        assert AdmittedAt(all, |done|, block[i]);
      }
      assert AllAdmitted(all, n.run.trace);
      if n.Continue? {
        PendingIsNext(c, r, it, pending);
        assert done + [it] + script[1..] == all;
        LoopAdmits(c, n.run, done + [it], script[1..], n.pending);
      }
    }
  }

  /**
   In every run each route was invoked for a plan that an iteration without stop request had read, as
   its own plan or as the next plan of the iteration before, and had admitted.
   */
  lemma RoutesAdmitted(c: Config, initial: Reading<Plan>, script: seq<Iteration>, stopAfterException: Reading<bool>)
    requires Configured(c)
    ensures AllAdmitted(script, Apply(c, initial, script, stopAfterException).0)
  {
    hide Loop, WasAdmitted;
    if initial.Got? {
      LoopAdmits(c, Begun(initial), [], script, None);
      assert [] + script == script;
    }
  }
}
