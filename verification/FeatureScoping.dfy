/**
 The dependency-cycle check of src/development_conveyor/feature_scoping.py: a recursive
 depth-first search over shared `visiting` and `visited` sets, proved against cycles of the graph.
 */
module FeatureScoping {
  import opened Prelude

  type Id = string

  /** Each feature with its declared dependencies. */
  type Graph = map<Id, seq<Id>>

  /** The validated queue names only known features as dependencies. */
  ghost predicate Closed(g: Graph) {
    forall f, d :: f in g && d in g[f] ==> d in g
  }

  /** A dependency walk: every node but the last depends on its successor. */
  ghost predicate Walk(g: Graph, p: seq<Id>) {
    && p != []
    && (forall i :: 0 <= i < |p| ==> p[i] in g)
    && (forall i :: 0 <= i < |p| - 1 ==> p[i + 1] in g[p[i]])
  }

  ghost predicate HasCycle(g: Graph) {
    exists p :: IsCycle(g, p)
  }

  ghost predicate IsCycle(g: Graph, p: seq<Id>) {
    Walk(g, p) && |p| >= 2 && p[0] == p[|p| - 1]
  }

  /** A finishing order: every dependency of a node finished before the node. */
  ghost predicate FinishingOrder(g: Graph, order: seq<Id>) {
    && (forall i, j :: 0 <= i < j < |order| ==> order[i] != order[j])
    && (forall i :: 0 <= i < |order| ==> order[i] in g && forall d :: d in g[order[i]] ==> d in order[..i])
  }

  datatype Outcome = Acyclic | Cycle(path: seq<Id>)

  /** What the raised error must report: a walk without repetition that returns to one of its own nodes. */
  ghost predicate Witness(g: Graph, path: seq<Id>) {
    && Walk(g, path)
    && |path| >= 2
    && path[|path| - 1] in path[..|path| - 1]
    && (forall i, j :: 0 <= i < j < |path| - 1 ==> path[i] != path[j])
  }

  class CycleCheck {
    const dependencies: Graph
    var visiting: set<Id>
    var visited: set<Id>
    ghost var finished: seq<Id>

    /** Between two visits: `visiting` is the path, `visited` has a finishing order and is closed. */
    ghost predicate Valid(path: seq<Id>)
      reads this
    {
      && Closed(dependencies)
      && visiting == (set x | x in path)
      && visited == (set x | x in finished)
      && visited !! visiting
      && visiting <= dependencies.Keys
      && FinishingOrder(dependencies, finished)
    }

    constructor (g: Graph)
      requires Closed(g)
      ensures Valid([]) && dependencies == g && visited == {}
    {
      dependencies := g;
      visiting := {};
      visited := {};
      finished := [];
    }

    method Visit(feature: Id, path: seq<Id>) returns (r: Outcome)
      requires Valid(path) && feature in dependencies
      requires forall i, j :: 0 <= i < j < |path| ==> path[i] != path[j]
      requires Walk(dependencies, path + [feature])
      modifies this
      ensures r.Acyclic? ==> Valid(path) && old(visited) + {feature} <= visited
      ensures r.Cycle? ==> Witness(dependencies, r.path) && path + [feature] <= r.path
      decreases dependencies.Keys - visiting - visited
    {
      if feature in visiting {
        assert feature in path;
        assert (path + [feature])[..|path|] == path;
        return Cycle(path + [feature]);
      }
      if feature in visited {
        return Acyclic;
      }
      ghost var entered := visited;
      ghost var remaining := dependencies.Keys - visiting - visited;
      visiting := visiting + {feature};
      var longer := path + [feature];
      var ds := dependencies[feature];
      var i := 0;
      while i < |ds|
        invariant 0 <= i <= |ds|
        invariant Valid(longer) && visiting == old(visiting) + {feature}
        invariant entered <= visited
        invariant forall j :: 0 <= j < i ==> ds[j] in visited
      {
        StepExtendsWalk(dependencies, path, feature, ds[i]);
        assert feature in remaining && feature !in dependencies.Keys - visiting - visited;
        assert dependencies.Keys - visiting - visited <= remaining;
        var step := Visit(ds[i], longer);
        if step.Cycle? {
          assert path + [feature] <= longer + [ds[i]] <= step.path;
          return step;
        }
        i := i + 1;
      }
      visiting := visiting - {feature};
      visited := visited + {feature};
      FinishNode(dependencies, finished, feature);
      finished := finished + [feature];
      assert feature !in path;
      return Acyclic;
    }
  }

  lemma StepExtendsWalk(g: Graph, path: seq<Id>, feature: Id, dependency: Id)
    requires Closed(g) && feature in g && Walk(g, path + [feature]) && dependency in g[feature]
    ensures Walk(g, path + [feature] + [dependency])
  {
    var p := path + [feature] + [dependency];
    forall i | 0 <= i < |p| ensures p[i] in g {
      if i <= |path| {
        assert p[i] == (path + [feature])[i];
      }
    }
    forall i | 0 <= i < |p| - 1 ensures p[i + 1] in g[p[i]] {
      if i < |path| {
        assert p[i] == (path + [feature])[i] && p[i + 1] == (path + [feature])[i + 1];
      }
    }
  }

  lemma FinishNode(g: Graph, order: seq<Id>, feature: Id)
    requires FinishingOrder(g, order) && feature in g && feature !in order
    requires forall d :: d in g[feature] ==> d in order
    ensures FinishingOrder(g, order + [feature])
  {
    var longer := order + [feature];
    forall i | 0 <= i < |longer|
      ensures longer[i] in g && forall d :: d in g[longer[i]] ==> d in longer[..i]
    {
      if i < |order| {
        assert longer[..i] == order[..i];
      } else {
        assert longer[..i] == order;
      }
    }
  }

  /** Positions in a finishing order strictly decrease along a walk. */
  lemma {:induction false} WalkDescends(g: Graph, order: seq<Id>, p: seq<Id>, a: nat)
    requires FinishingOrder(g, order) && Walk(g, p)
    requires a < |order| && order[a] == p[0]
    ensures p[|p| - 1] in order[..a + 1]
    ensures |p| >= 2 ==> p[|p| - 1] in order[..a]
    decreases |p|
  {
    if |p| >= 2 {
      assert p[1] in g[order[a]];
      var b :| 0 <= b < a && order[b] == p[1];
      assert p[1..][0] == p[1];
      WalkDescends(g, order, p[1..], b);
      assert order[..b + 1] <= order[..a];
    }
  }

  /** A graph whose nodes all have finished in a finishing order has no cycle. */
  lemma FinishedIsAcyclic(g: Graph, order: seq<Id>)
    requires FinishingOrder(g, order) && forall f :: f in g ==> f in order
    ensures !HasCycle(g)
  {
    forall p ensures !IsCycle(g, p) {
      if IsCycle(g, p) {
        var a :| 0 <= a < |order| && order[a] == p[0];
        WalkDescends(g, order, p, a);
      }
    }
  }

  /** A reported path contains a cycle of the graph. */
  lemma WitnessGivesCycle(g: Graph, path: seq<Id>)
    requires Witness(g, path)
    ensures HasCycle(g)
  {
    var i :| 0 <= i < |path| - 1 && path[i] == path[|path| - 1];
    var p := path[i..];
    assert IsCycle(g, p);
  }

  /**
   `_assert_acyclic`: returns normally exactly for the graphs without a cycle, and otherwise
   reports a real dependency walk that closes on itself. `order` lists the features.
   */
  method AssertAcyclic(g: Graph, order: seq<Id>) returns (r: Outcome)
    requires Closed(g) && forall f :: f in g <==> f in order
    ensures r.Acyclic? <==> !HasCycle(g)
    ensures r.Cycle? ==> Witness(g, r.path) && r.path[0] in order
  {
    var check := new CycleCheck(g);
    var i := 0;
    while i < |order|
      invariant 0 <= i <= |order|
      invariant check.Valid([]) && check.dependencies == g
      invariant forall j :: 0 <= j < i ==> order[j] in check.visited
    {
      r := check.Visit(order[i], []);
      if r.Cycle? {
        WitnessGivesCycle(g, r.path);
        assert r.path[0] in order;
        return;
      }
      i := i + 1;
    }
    FinishedIsAcyclic(g, check.finished);
    return Acyclic;
  }
}
