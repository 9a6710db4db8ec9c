/**
 The lifecycle of one phase transaction (src/development_conveyor/contracts.py): the allowed
 transitions, the two mutators of `PhaseTransaction`, and what holds over every run of calls.
 */
module PhaseTransaction {
  import opened Prelude

  datatype State =
    | Created | LeasePending | Active | ResultPending | Validating | Finalizing
    | Completed | Blocked | HumanDecisionRequired | RetryableFailure | TerminalFailure | Superseded

  const TERMINAL_STATES: set<State> :=
    {Completed, Blocked, HumanDecisionRequired, RetryableFailure, TerminalFailure, Superseded}

  /** The next working state on the only path to completion. */
  function Successor(s: State): Option<State> {
    match s
    case Created => Some(LeasePending)
    case LeasePending => Some(Active)
    case Active => Some(ResultPending)
    case ResultPending => Some(Validating)
    case Validating => Some(Finalizing)
    case Finalizing => Some(Completed)
    case _ => None
  }

  function AllowedTransitions(s: State): set<State> {
    if s in TERMINAL_STATES then {} else {Successor(s).value} + (TERMINAL_STATES - {Completed})
  }

  datatype TransitionError = InvalidTransition(source: State, target: State) | NotTerminal | AlreadyTerminal

  /** The fields that the two mutators change. */
  datatype Progress = Progress(state: State, classification: Option<string>, reference: Option<string>)

  const START: Progress := Progress(Created, None, None)

  datatype Call =
    | Transition(target: State)
    | Terminate(outcome: State, classification: string, reference: Option<string>)

  /** The effect of one call, or the error it raises. */
  function Apply(p: Progress, call: Call): Result<Progress, TransitionError> {
    match call
    case Transition(target) =>
      if target == p.state then Ok(p)
      else if target !in AllowedTransitions(p.state) then Err(InvalidTransition(p.state, target))
      else Ok(p.(state := target))
    case Terminate(outcome, classification, reference) =>
      if outcome !in TERMINAL_STATES then Err(NotTerminal)
      else if p.classification.Some? || p.state in TERMINAL_STATES then Err(AlreadyTerminal)
      else if outcome !in AllowedTransitions(p.state) then Err(InvalidTransition(p.state, outcome))
      else Ok(Progress(outcome, Some(classification), reference))
  }

  class PhaseTransaction {
    var currentState: State
    var terminalClassification: Option<string>
    var terminalReference: Option<string>

    function Value(): Progress
      reads this
    {
      Progress(currentState, terminalClassification, terminalReference)
    }

    constructor ()
      ensures Value() == START
    {
      currentState, terminalClassification, terminalReference := Created, None, None;
    }

    method TransitionTo(target: State) returns (error: Option<TransitionError>)
      modifies this
      ensures match Apply(old(Value()), Transition(target))
        case Ok(next) => error.None? && Value() == next
        case Err(e) => error == Some(e) && Value() == old(Value())
    {
      if target == currentState {
        return None;
      }
      if target !in AllowedTransitions(currentState) {
        return Some(InvalidTransition(currentState, target));
      }
      if currentState in TERMINAL_STATES {
        return Some(AlreadyTerminal);
      }
      currentState := target;
      return None;
    }

    method TerminateIn(outcome: State, classification: string, reference: Option<string>)
      returns (error: Option<TransitionError>)
      modifies this
      ensures match Apply(old(Value()), Terminate(outcome, classification, reference))
        case Ok(next) => error.None? && Value() == next
        case Err(e) => error == Some(e) && Value() == old(Value())
    {
      if outcome !in TERMINAL_STATES {
        return Some(NotTerminal);
      }
      if terminalClassification.Some? || currentState in TERMINAL_STATES {
        return Some(AlreadyTerminal);
      }
      error := TransitionTo(outcome);
      if error.Some? {
        return;
      }
      terminalClassification := Some(classification);
      terminalReference := reference;
    }
  }

  // ---------------------------------------------------------------- runs

  /** The state after a call; a raised error leaves it unchanged. */
  function After(p: Progress, call: Call): Progress {
    match Apply(p, call)
    case Ok(next) => next
    case Err(_) => p
  }

  /** The successive values over a run of calls, the initial value first. */
  function Trace(p: Progress, calls: seq<Call>): (t: seq<Progress>)
    ensures |t| == |calls| + 1 && t[0] == p
    decreases |calls|
  {
    if calls == [] then [p] else [p] + Trace(After(p, calls[0]), calls[1..])
  }

  /** The distinct states that a trace goes through, in order. */
  function StatesOf(t: seq<Progress>): (states: seq<State>)
    requires t != []
    ensures states != [] && states[0] == t[0].state
  {
    if |t| == 1 then [t[0].state]
    else
      var rest := StatesOf(t[1..]);
      if t[0].state == t[1].state then rest else [t[0].state] + rest
  }

  function Rank(s: State): (r: nat)
    ensures r <= 6
  {
    match s
    case Created => 6 case LeasePending => 5 case Active => 4
    case ResultPending => 3 case Validating => 2 case Finalizing => 1
    case _ => 0
  }

  const PATH_TO_COMPLETION: seq<State> :=
    [Created, LeasePending, Active, ResultPending, Validating, Finalizing, Completed]

  lemma TraceStart(p: Progress, calls: seq<Call>)
    ensures Trace(p, calls)[0] == p
  {
  }

  lemma {:induction false} TraceStep(p: Progress, calls: seq<Call>, i: nat)
    requires i < |calls|
    ensures Trace(p, calls)[i + 1] == After(Trace(p, calls)[i], calls[i])
    decreases |calls|
  {
    hide After;
    if i > 0 {
      TraceStep(After(p, calls[0]), calls[1..], i - 1);
    }
  }

  /** A completed descent through the lifecycle, seen from any of its states. */
  ghost predicate Descent(states: seq<State>) {
    && states != []
    && (forall i :: 0 <= i < |states| - 1 ==> states[i + 1] in AllowedTransitions(states[i]))
  }

  lemma {:induction false} StatesDescend(p: Progress, calls: seq<Call>)
    ensures Descent(StatesOf(Trace(p, calls)))
    decreases |calls|
  {
    if calls != [] {
      var next := After(p, calls[0]);
      StatesDescend(next, calls[1..]);
      var rest := Trace(next, calls[1..]);
      assert Trace(p, calls)[1..] == rest;
      var states := StatesOf(Trace(p, calls));
      if p.state != next.state {
        assert states == [p.state] + StatesOf(rest);
      }
    }
  }

  lemma {:induction false} DescentRank(states: seq<State>)
    requires Descent(states)
    ensures forall i, j :: 0 <= i < j < |states| ==> Rank(states[i]) > Rank(states[j])
    ensures |states| <= Rank(states[0]) + 1
  {
    if |states| > 1 {
      assert Descent(states[1..]);
      DescentRank(states[1..]);
      forall i, j | 0 <= i < j < |states| ensures Rank(states[i]) > Rank(states[j]) {
        if i > 0 {
          assert states[i] == states[1..][i - 1] && states[j] == states[1..][j - 1];
        } else if j > 1 {
          assert states[j] == states[1..][j - 1] && states[1] == states[1..][0];
        }
      }
    }
  }

  /** Every run makes at most six real state changes, with a strictly decreasing rank. */
  lemma AtMostSixChanges(calls: seq<Call>)
    ensures var states := StatesOf(Trace(START, calls));
      && |states| - 1 <= 6
      && forall i, j :: 0 <= i < j < |states| ==> Rank(states[i]) > Rank(states[j])
  {
    StatesDescend(START, calls);
    DescentRank(StatesOf(Trace(START, calls)));
  }

  /** The only way to a state on the path leads from its predecessor on the path. */
  lemma StepTowards(s: State, t: State)
    requires t in AllowedTransitions(s) && t == PATH_TO_COMPLETION[6 - Rank(t)]
    ensures Rank(s) == Rank(t) + 1 && s == PATH_TO_COMPLETION[6 - Rank(s)]
  {
  }

  /** Seen backwards from its end, a descent to completion stays on the path. */
  lemma {:induction false} OnPath(states: seq<State>, i: nat)
    requires Descent(states) && states[|states| - 1] == Completed && i < |states|
    ensures Rank(states[i]) == |states| - 1 - i <= 6 && states[i] == PATH_TO_COMPLETION[6 - Rank(states[i])]
    decreases |states| - i
  {
    hide AllowedTransitions;
    if i + 1 < |states| {
      OnPath(states, i + 1);
      StepTowards(states[i], states[i + 1]);
    }
  }

  lemma CompletedDescent(states: seq<State>)
    requires Descent(states) && states[|states| - 1] == Completed
    ensures Rank(states[0]) <= 6 && states == PATH_TO_COMPLETION[6 - Rank(states[0])..]
  {
    hide AllowedTransitions, Rank;
    OnPath(states, 0);
    var k := 6 - Rank(states[0]);
    forall i | 0 <= i < |states| ensures states[i] == PATH_TO_COMPLETION[k..][i] {
      OnPath(states, i);
    }
  }

  /** Completion is reached only through all five intermediate states, in order. */
  lemma CompletionPath(calls: seq<Call>)
    requires Trace(START, calls)[|calls|].state == Completed
    ensures StatesOf(Trace(START, calls)) == PATH_TO_COMPLETION
  {
    hide Descent, StatesOf, Trace;
    StatesDescend(START, calls);
    LastState(Trace(START, calls));
    CompletedDescent(StatesOf(Trace(START, calls)));
    assert PATH_TO_COMPLETION[0..] == PATH_TO_COMPLETION;
  }

  lemma {:induction false} LastState(t: seq<Progress>)
    requires t != []
    ensures var states := StatesOf(t); states[|states| - 1] == t[|t| - 1].state
  {
    if |t| > 1 {
      LastState(t[1..]);
    }
  }

  /** Terminal states absorb: once a run is in one, nothing about the transaction changes. */
  lemma {:induction false} TerminalAbsorbs(p: Progress, calls: seq<Call>, i: nat, j: nat)
    requires i <= j <= |calls| && Trace(p, calls)[i].state in TERMINAL_STATES
    ensures Trace(p, calls)[j] == Trace(p, calls)[i]
    decreases j - i
  {
    if i < j {
      TraceStep(p, calls, i);
      TerminalAbsorbs(p, calls, i + 1, j);
    }
  }

  /** The call that entered the terminal state gave the classification, or none was given. */
  ghost predicate ClassifiedBy(p: Progress, calls: seq<Call>, i: nat) {
    && i < |calls| && calls[i].Terminate?
    && Apply(Trace(p, calls)[i], calls[i]).Ok?
  }

  /**
   The classification is set only together with the terminal state, by the first `Terminate` that
   succeeds; afterwards it never changes. At most one `Terminate` of a run succeeds.
   */
  lemma {:induction false} ClassificationOnce(calls: seq<Call>, j: nat)
    requires j <= |calls|
    ensures var q := Trace(START, calls)[j];
      && (q.classification.Some? ==> q.state in TERMINAL_STATES)
      && (q.classification.Some? <==> exists i :: 0 <= i < j && ClassifiedBy(START, calls, i))
    ensures forall i :: 0 <= i < j && ClassifiedBy(START, calls, i) ==>
      && Trace(START, calls)[j] == Progress(calls[i].outcome, Some(calls[i].classification), calls[i].reference)
      && forall k :: i < k < j ==> !ClassifiedBy(START, calls, k)
  {
    hide Trace;
    TraceStart(START, calls);
    if j > 0 {
      TraceStep(START, calls, j - 1);
      ClassificationOnce(calls, j - 1);
      var q, r := Trace(START, calls)[j - 1], Trace(START, calls)[j];
      if ClassifiedBy(START, calls, j - 1) {
        assert q.classification.None?;
      } else {
        assert r.classification == q.classification;
      }
    }
  }

  /** Before a terminal state nothing is classified. */
  lemma {:induction false} OpenIsUnclassified(calls: seq<Call>, j: nat)
    requires j <= |calls|
    ensures var q := Trace(START, calls)[j]; q.state !in TERMINAL_STATES ==> q == Progress(q.state, None, None)
  {
    hide Trace;
    TraceStart(START, calls);
    if j > 0 {
      TraceStep(START, calls, j - 1);
      OpenIsUnclassified(calls, j - 1);
    }
  }

  /**
   A terminal state that a plain transition enters, from any reachable state, keeps no classification
   and no reference for ever.
   */
  lemma UnclassifiedTerminal(calls: seq<Call>, i: nat, j: nat)
    requires i < j <= |calls| && calls[i].Transition? && calls[i].target in TERMINAL_STATES
    requires Trace(START, calls)[i].state !in TERMINAL_STATES && Apply(Trace(START, calls)[i], calls[i]).Ok?
    ensures Trace(START, calls)[j] == Progress(calls[i].target, None, None)
  {
    hide Trace;
    OpenIsUnclassified(calls, i);
    TraceStep(START, calls, i);
    TerminalAbsorbs(START, calls, i + 1, j);
  }
}
