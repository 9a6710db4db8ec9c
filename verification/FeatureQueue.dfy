/**
 The validated feature queue (src/development_conveyor/queue.py): lookup, readiness and selection.
 Whether a feature is specified is an observation of the repository.
 */
module FeatureQueue {
  import opened Prelude

  datatype Status =
    | Proposed | Ready | InProgress | Review | Accepted | IntegrationPending | Integrating | Integrated
    | Failed | HumanDecisionRequired | Blocked | Done | Deferred | Rejected

  datatype Feature = Feature(
    id: string, milestone: string, status: Status, integrationStatus: Option<string>, integratedCommit: Option<string>,
    dependencies: seq<string>, needsHuman: bool, specified: bool, priority: nat, branch: Option<string>)

  datatype Milestone = Milestone(id: string, alias: string, integrated: seq<string>)

  /** `normalize` maps a milestone name to its alias. */
  datatype Queue = Queue(features: seq<Feature>, milestones: seq<Milestone>, normalize: string -> string)

  /** What the constructor of the queue has checked. */
  ghost predicate Valid(q: Queue) {
    && (forall i, j :: 0 <= i < j < |q.features| ==> q.features[i].id != q.features[j].id)
    && (forall i :: 0 <= i < |q.features| ==> q.features[i].id != "")
    && (forall i, j :: 0 <= i < j < |q.milestones| ==> q.milestones[i].id != q.milestones[j].id)
    && (forall i, j :: 0 <= i < j < |q.milestones| ==> q.milestones[i].alias != q.milestones[j].alias)
  }

  function FeatureNamed(fs: seq<Feature>, id: string): (r: Option<Feature>)
    ensures r.Some? <==> exists f :: f in fs && f.id == id
    ensures r.Some? ==> r.value in fs && r.value.id == id
  {
    if fs == [] then None
    else
      assert fs == [fs[0]] + fs[1..];
      if fs[0].id == id then Some(fs[0]) else FeatureNamed(fs[1..], id)
  }

  function MilestoneBy(ms: seq<Milestone>, p: Milestone -> bool): (r: Option<Milestone>)
    ensures r.Some? <==> exists m :: m in ms && p(m)
    ensures r.Some? ==> r.value in ms && p(r.value)
  {
    if ms == [] then None
    else
      assert ms == [ms[0]] + ms[1..];
      if p(ms[0]) then Some(ms[0]) else MilestoneBy(ms[1..], p)
  }

  /** A milestone is found by its exact identity, otherwise by its alias. */
  function MilestoneNamed(q: Queue, name: string): Option<Milestone> {
    var exact := MilestoneBy(q.milestones, (m: Milestone) => m.id == name);
    if exact.Some? then exact
    else
      var alias := q.normalize(name);
      MilestoneBy(q.milestones, (m: Milestone) => m.alias == alias)
  }

  predicate InMilestone(q: Queue, f: Feature, name: string) {
    var m := MilestoneNamed(q, name);
    m.Some? && f.milestone == m.value.id
  }

  function FeaturesOf(fs: seq<Feature>, milestone: string): (r: seq<Feature>)
    ensures forall f :: f in r <==> f in fs && f.milestone == milestone
  {
    if fs == [] then []
    else
      assert fs == [fs[0]] + fs[1..];
      if fs[0].milestone == milestone then [fs[0]] + FeaturesOf(fs[1..], milestone) else FeaturesOf(fs[1..], milestone)
  }

  function FeaturesForMilestone(q: Queue, name: string): seq<Feature> {
    match MilestoneNamed(q, name)
    case None => []
    case Some(m) => FeaturesOf(q.features, m.id)
  }

  predicate DependencyComplete(q: Queue, id: string) {
    var d := FeatureNamed(q.features, id);
    && d.Some? && d.value.status in {Integrated, Done}
    && (d.value.status == Integrated ==>
          && d.value.integrationStatus == Some("passed") && d.value.integratedCommit.Some?
          && var m := MilestoneNamed(q, d.value.milestone);
             m.Some? && id in m.value.integrated)
  }

  predicate DependenciesComplete(q: Queue, f: Feature) {
    forall id :: id in f.dependencies ==> DependencyComplete(q, id)
  }

  predicate IsReady(q: Queue, f: Feature) {
    f.status == Ready && !f.needsHuman && DependenciesComplete(q, f) && f.specified
  }

  function ReadyOf(q: Queue, fs: seq<Feature>): (r: seq<Feature>)
    ensures forall f :: f in r <==> f in fs && IsReady(q, f)
  {
    if fs == [] then []
    else
      assert fs == [fs[0]] + fs[1..];
      if IsReady(q, fs[0]) then [fs[0]] + ReadyOf(q, fs[1..]) else ReadyOf(q, fs[1..])
  }

  /** The head of the ready features sorted by priority, then queue order. */
  function First(fs: seq<Feature>): (r: Feature)
    requires fs != []
    ensures r in fs && forall f :: f in fs ==> r.priority <= f.priority
  {
    if |fs| == 1 then fs[0]
    else
      var rest := First(fs[1..]);
      assert fs == [fs[0]] + fs[1..];
      if fs[0].priority <= rest.priority then fs[0] else rest
  }

  function SelectNext(q: Queue, milestone: string): Option<Feature> {
    var ready := ReadyOf(q, FeaturesForMilestone(q, milestone));
    if ready == [] then None else Some(First(ready))
  }

  datatype QueueError = UnknownFeature | OutsideMilestone | Ineligible | SeveralIntegrations

  function SelectExact(q: Queue, milestone: string, id: string): Result<Feature, QueueError> {
    match FeatureNamed(q.features, id)
    case None => Err(UnknownFeature)
    case Some(f) =>
      if !InMilestone(q, f, milestone) then Err(OutsideMilestone)
      else if !IsReady(q, f) then Err(Ineligible)
      else Ok(f)
  }

  predicate AwaitsIntegration(f: Feature) {
    f.status in {Accepted, IntegrationPending} && (f.integrationStatus.None? || f.integrationStatus == Some("pending"))
  }

  function IntegrationCandidates(fs: seq<Feature>): seq<Feature> {
    if fs == [] then []
    else if AwaitsIntegration(fs[0]) then [fs[0]] + IntegrationCandidates(fs[1..]) else IntegrationCandidates(fs[1..])
  }

  /** `select_next` returns a ready feature exactly when the milestone has one, and none of them comes before it. */
  lemma SelectNextIsFirstReady(q: Queue, milestone: string)
    ensures var r := SelectNext(q, milestone);
      && (r.Some? <==> exists f :: f in q.features && InMilestone(q, f, milestone) && IsReady(q, f))
      && (r.Some? ==> r.value in q.features && InMilestone(q, r.value, milestone) && IsReady(q, r.value))
      && (r.Some? ==> forall f :: f in q.features && InMilestone(q, f, milestone) && IsReady(q, f) ==>
          r.value.priority <= f.priority)
  {
    var all := FeaturesForMilestone(q, milestone);
    assert forall f :: f in all <==> f in q.features && InMilestone(q, f, milestone);
    var ready := ReadyOf(q, all);
    if ready != [] {
      assert First(ready) in ready;
    } else {
      assert forall f :: f in all && IsReady(q, f) ==> f in ready;
    }
  }

  /** Features are identified by their names. */
  lemma NameIdentifies(q: Queue, f: Feature)
    requires Valid(q) && f in q.features
    ensures FeatureNamed(q.features, f.id) == Some(f)
  {
    var g := FeatureNamed(q.features, f.id).value;
    var i :| 0 <= i < |q.features| && q.features[i] == f;
    var j :| 0 <= j < |q.features| && q.features[j] == g;
    assert i == j;
  }

  /** `select_exact` returns the named feature exactly when it is ready in the milestone. */
  lemma SelectExactIffReady(q: Queue, milestone: string, f: Feature)
    requires Valid(q) && f in q.features
    ensures SelectExact(q, milestone, f.id) == Ok(f) <==> InMilestone(q, f, milestone) && IsReady(q, f)
    ensures SelectExact(q, milestone, f.id).Ok? ==> SelectExact(q, milestone, f.id) == Ok(f)
  {
    NameIdentifies(q, f);
  }
}
