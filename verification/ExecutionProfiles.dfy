/**
 The feature-owned execution policy: the normalising validator, the Markdown renderer and the
 hand-written fenced-YAML reader of src/development_conveyor/execution_profiles.py.

 Documents are JSON-like values. The registered key names are interned as `Key` constructors,
 any other name is `Other`. The two free-text judgements on a child delegation (generic cost
 justification, unsuitable task boundary) are a parameter, so every result holds for all of them.
 */
module ExecutionProfiles {
  import opened Prelude
  import opened Text
  import Json

  // ---------------------------------------------------------------- documents

  datatype Key =
    | Profile | ParentSessions | ChildSessions | Escalation | ChildDelegation
    | Trigger
    | Role | Justification | TaskBoundary | InputBytes | ParentBytes | OutputContract
    | ReadOnly | OwnedPaths | ParentOwnedPaths
    | ExecutionPolicy
    | Other(name: string)

  datatype Value =
    | Null
    | Bool(b: bool)
    | Int(n: int)
    | Str(s: string)
    | List(items: seq<Value>)
    | Dict(entries: map<Key, Value>)

  type Entries = map<Key, Value>

  /** `dict.get`. */
  function Get(m: Entries, k: Key): Value {
    if k in m then m[k] else Null
  }

  function KeyName(k: Key): string {
    match k
    case Profile => "profile"
    case ParentSessions => "parent_sessions"
    case ChildSessions => "child_sessions"
    case Escalation => "escalation"
    case ChildDelegation => "child_delegation"
    case Trigger => "trigger"
    case Role => "role"
    case Justification => "cost_saving_justification"
    case TaskBoundary => "task_boundary"
    case InputBytes => "expected_input_context_bytes"
    case ParentBytes => "parent_context_bytes"
    case OutputContract => "expected_output_contract"
    case ReadOnly => "read_only"
    case OwnedPaths => "owned_paths"
    case ParentOwnedPaths => "parent_owned_paths"
    case ExecutionPolicy => "execution_policy"
    case Other(name) => name
  }

  const REGISTERED_KEYS: seq<Key> := [
    Profile, ParentSessions, ChildSessions, Escalation, ChildDelegation, Trigger,
    Role, Justification, TaskBoundary, InputBytes, ParentBytes, OutputContract,
    ReadOnly, OwnedPaths, ParentOwnedPaths, ExecutionPolicy]

  function FindKey(name: string, keys: seq<Key>): Key {
    if keys == [] then Other(name)
    else if KeyName(keys[0]) == name then keys[0]
    else FindKey(name, keys[1..])
  }

  function KeyOf(name: string): Key {
    FindKey(name, REGISTERED_KEYS)
  }

  const PROFILE_NAMES: seq<string> := [
    "mechanical", "repository_aware", "bounded_precise", "multi_module_precise",
    "application_feature_implementation", "generic_or_architectural",
    "ambiguous_or_authoritative", "unresolved_after_high"]

  // ---------------------------------------------------------------- validation

  datatype Judgement = Judgement(generic: string -> bool, unsuitable: string -> bool)

  datatype ChildError =
    | NotADelegation | WrongKeys(missing: set<Key>, unknown: set<Key>)
    | ShortText(key: Key) | GenericJustification | UnsuitableBoundary
    | BadChildProfile | BadByteCount(key: Key) | ContextNotSmaller
    | BadReadOnly | BadPaths(key: Key) | WriterOwnsNothing | OverlappingOwnership

  datatype PolicyError =
    | NotAPolicy | UnsupportedKeys(keys: set<Key>) | BadProfile
    | BadParentSessions | BadChildSessions | TooManyChildren
    | UnexpectedDelegation | MissingDelegation | BadDelegation(reason: ChildError)
    | BadEscalation | BadTrigger | BadEscalationProfile | SameProfile

  datatype Policy = Policy(
    profile: string,
    parentSessions: int,
    childSessions: int,
    escalationTrigger: Option<string>,
    escalationProfile: Option<string>,
    childDelegation: Option<Entries>)

  /** The order in which the renderer writes a delegation. */
  const CHILD_ORDER: seq<Key> := [
    Role, Profile, Justification, TaskBoundary, InputBytes, ParentBytes, OutputContract,
    ReadOnly, OwnedPaths, ParentOwnedPaths]

  const CHILD_KEYS: set<Key> := {
    Role, Profile, Justification, TaskBoundary, InputBytes, ParentBytes, OutputContract,
    ReadOnly, OwnedPaths, ParentOwnedPaths}

  const FREE_TEXT_KEYS: set<Key> := {Role, Justification, TaskBoundary, OutputContract}

  const POLICY_KEYS: set<Key> := {Profile, ParentSessions, ChildSessions, Escalation, ChildDelegation}

  predicate IsProfile(v: Value) {
    v.Str? && v.s in PROFILE_NAMES
  }

  predicate IsText(v: Value, minimum: nat) {
    v.Str? && |Strip(v.s)| >= minimum
  }

  predicate IsCount(v: Value, minimum: int) {
    v.Int? && v.n >= minimum
  }

  predicate AllStrings(items: seq<Value>) {
    forall i :: 0 <= i < |items| ==> items[i].Str?
  }

  function Strings(items: seq<Value>): (r: seq<string>)
    requires AllStrings(items)
    ensures |r| == |items|
    ensures forall i :: 0 <= i < |r| ==> r[i] == items[i].s
  {
    seq(|items|, i requires 0 <= i < |items| => items[i].s)
  }

  function Values(strings: seq<string>): (r: seq<Value>)
    ensures |r| == |strings| && AllStrings(r)
    ensures forall i :: 0 <= i < |r| ==> r[i] == Str(strings[i])
    ensures Strings(r) == strings
  {
    seq(|strings|, i requires 0 <= i < |strings| => Str(strings[i]))
  }

  predicate IsPathList(v: Value) {
    && v.List?
    && AllStrings(v.items)
    && (forall i :: 0 <= i < |v.items| ==> Strip(v.items[i].s) != "")
    && Distinct(Strings(v.items))
  }

  function NormalText(v: Value): Value
    requires v.Str?
  {
    Str(Strip(v.s))
  }

  function NormalPaths(v: Value): Value
    requires IsPathList(v)
  {
    List(Values(Sort(Strings(v.items))))
  }

  /** The free texts stripped, every other field as it is. */
  function TextsOf(m: Entries): (t: Entries)
    requires forall k :: k in FREE_TEXT_KEYS && k in m ==> m[k].Str?
    ensures t.Keys == m.Keys
  {
    map k | k in m :: if k in FREE_TEXT_KEYS then NormalText(m[k]) else m[k]
  }

  predicate Overlap(a: Value, b: Value)
    requires IsPathList(a) && IsPathList(b)
  {
    exists x :: x in a.items && x in b.items
  }

  function MinimumLength(k: Key): (n: nat)
    ensures n >= 1
  {
    match k
    case Justification => 20
    case TaskBoundary => 12
    case OutputContract => 12
    case _ => 1
  }

  /** The first free text that is no text or too short. */
  function ShortTextOf(m: Entries): (key: Option<Key>)
    requires FREE_TEXT_KEYS <= m.Keys
    ensures key.None? ==> forall k :: k in FREE_TEXT_KEYS ==> IsText(m[k], MinimumLength(k))
  {
    if !IsText(m[Role], MinimumLength(Role)) then Some(Role)
    else if !IsText(m[Justification], MinimumLength(Justification)) then Some(Justification)
    else if !IsText(m[TaskBoundary], MinimumLength(TaskBoundary)) then Some(TaskBoundary)
    else if !IsText(m[OutputContract], MinimumLength(OutputContract)) then Some(OutputContract)
    else None
  }

  /** The first defect of the fields that are not free text. */
  function FieldError(m: Entries): (e: Option<ChildError>)
    requires CHILD_KEYS <= m.Keys
    ensures e.None? ==> IsPathList(m[OwnedPaths]) && IsPathList(m[ParentOwnedPaths])
  {
    if !IsProfile(m[Profile]) then Some(BadChildProfile)
    else if !IsCount(m[InputBytes], 1) then Some(BadByteCount(InputBytes))
    else if !IsCount(m[ParentBytes], 1) then Some(BadByteCount(ParentBytes))
    else if m[InputBytes].n * 2 > m[ParentBytes].n then Some(ContextNotSmaller)
    else if !m[ReadOnly].Bool? then Some(BadReadOnly)
    else if !IsPathList(m[OwnedPaths]) then Some(BadPaths(OwnedPaths))
    else if !IsPathList(m[ParentOwnedPaths]) then Some(BadPaths(ParentOwnedPaths))
    else if !m[ReadOnly].b && m[OwnedPaths].items == [] then Some(WriterOwnsNothing)
    else if Overlap(m[OwnedPaths], m[ParentOwnedPaths]) then Some(OverlappingOwnership)
    else None
  }

  function ValidateChild(v: Value, judge: Judgement): Result<Entries, ChildError> {
    if !v.Dict? then Err(NotADelegation)
    else
      var m := v.entries;
      if m.Keys != CHILD_KEYS then Err(WrongKeys(CHILD_KEYS - m.Keys, m.Keys - CHILD_KEYS))
      else if ShortTextOf(m).Some? then Err(ShortText(ShortTextOf(m).value))
      else
        var t := TextsOf(m);
        if judge.generic(t[Justification].s) then Err(GenericJustification)
        else if judge.unsuitable(t[TaskBoundary].s) then Err(UnsuitableBoundary)
        else if FieldError(m).Some? then Err(FieldError(m).value)
        else Ok(t[OwnedPaths := NormalPaths(m[OwnedPaths])][ParentOwnedPaths := NormalPaths(m[ParentOwnedPaths])])
  }

  /** The normalised delegation, or nothing when none is given. */
  function ValidateDelegation(v: Value, judge: Judgement): Result<Option<Entries>, ChildError> {
    if v == Null then Ok(None)
    else
      match ValidateChild(v, judge)
      case Err(e) => Err(e)
      case Ok(child) => Ok(Some(child))
  }

  /** The escalation trigger and profile, or nothing when no escalation is given. */
  function ValidateEscalation(v: Value, profile: string): Result<Option<(string, string)>, PolicyError> {
    if v == Null then Ok(None)
    else if !v.Dict? || v.entries.Keys != {Trigger, Profile} then Err(BadEscalation)
    else
      var trigger, next := v.entries[Trigger], v.entries[Profile];
      if !IsText(trigger, 1) then Err(BadTrigger)
      else if !IsProfile(next) then Err(BadEscalationProfile)
      else if next.s == profile then Err(SameProfile)
      else Ok(Some((Strip(trigger.s), next.s)))
  }

  function Validate(v: Value, judge: Judgement): Result<Policy, PolicyError> {
    if !v.Dict? then Err(NotAPolicy)
    else
      var m := v.entries;
      var profile, parent, child := Get(m, Profile), Get(m, ParentSessions), Get(m, ChildSessions);
      var delegation := Get(m, ChildDelegation);
      if !(m.Keys <= POLICY_KEYS) then Err(UnsupportedKeys(m.Keys - POLICY_KEYS))
      else if !IsProfile(profile) then Err(BadProfile)
      else if !IsCount(parent, 1) then Err(BadParentSessions)
      else if !IsCount(child, 0) then Err(BadChildSessions)
      else if child.n > 1 then Err(TooManyChildren)
      else if child.n == 0 && delegation != Null then Err(UnexpectedDelegation)
      else if child.n == 1 && delegation == Null then Err(MissingDelegation)
      else
        match ValidateDelegation(delegation, judge)
        case Err(e) => Err(BadDelegation(e))
        case Ok(d) =>
          match ValidateEscalation(Get(m, Escalation), profile.s)
          case Err(e) => Err(e)
          case Ok(None) => Ok(Policy(profile.s, parent.n, child.n, None, None, d))
          case Ok(Some((trigger, next))) =>
            Ok(Policy(profile.s, parent.n, child.n, Some(trigger), Some(next), d))
  }

  /** `FeatureExecutionPolicy.to_dict`. */
  function ToDict(p: Policy): Value {
    var base: Entries :=
      map[Profile := Str(p.profile), ParentSessions := Int(p.parentSessions), ChildSessions := Int(p.childSessions)];
    var escalated: Entries :=
      if p.escalationTrigger.Some? && p.escalationProfile.Some? then
        base[Escalation := Dict(map[Trigger := Str(p.escalationTrigger.value),
          Profile := Str(p.escalationProfile.value)])]
      else base;
    Dict(if p.childDelegation.Some? then escalated[ChildDelegation := Dict(p.childDelegation.value)] else escalated)
  }

  // ---------------------------------------------------------------- rendering

  function DigitsOf(n: nat): (s: string)
    ensures s != "" && forall i :: 0 <= i < |s| ==> '0' <= s[i] <= '9'
  {
    if n < 10 then ['0' + n as char] else DigitsOf(n / 10) + ['0' + (n % 10) as char]
  }

  /** `str(n)`. */
  function IntText(n: int): string {
    if n < 0 then "-" + DigitsOf(-n) else DigitsOf(n)
  }

  function Spaces(n: nat): (s: string)
    ensures |s| == n && forall i :: 0 <= i < n ==> s[i] == ' '
  {
    seq(n, _ => ' ')
  }

  function HeaderLine(indent: nat, key: Key): string {
    Spaces(indent) + (KeyName(key) + ":")
  }

  function FieldLine(indent: nat, key: Key, text: string): string {
    Spaces(indent) + (KeyName(key) + ":" + (" " + text))
  }

  /** How one delegation value is written. */
  function ChildText(v: Value): string {
    match v
    case Bool(b) => if b then "true" else "false"
    case List(items) => if AllStrings(items) then Json.Dump(Strings(items)) else ""
    case Int(n) => IntText(n)
    case Str(s) => s
    case Null => "None"
    case Dict(_) => ""
  }

  function TopLines(p: Policy): seq<string> {
    [FieldLine(2, Profile, p.profile),
     FieldLine(2, ParentSessions, IntText(p.parentSessions)),
     FieldLine(2, ChildSessions, IntText(p.childSessions))]
  }

  function EscalationLines(p: Policy): seq<string> {
    if p.escalationTrigger.Some? && p.escalationProfile.Some? then
      [HeaderLine(2, Escalation),
       FieldLine(4, Trigger, p.escalationTrigger.value),
       FieldLine(4, Profile, p.escalationProfile.value)]
    else []
  }

  function ChildFieldLines(m: Entries, keys: seq<Key>): seq<string> {
    seq(|keys|, i requires 0 <= i < |keys| => FieldLine(4, keys[i], ChildText(Get(m, keys[i]))))
  }

  function ChildLines(p: Policy): seq<string> {
    if p.childDelegation.Some? then
      [HeaderLine(2, ChildDelegation)] + ChildFieldLines(p.childDelegation.value, CHILD_ORDER)
    else []
  }

  function BodyLines(p: Policy): seq<string> {
    [HeaderLine(0, ExecutionPolicy)] + (TopLines(p) + EscalationLines(p) + ChildLines(p))
  }

  const PREAMBLE: seq<string> := ["## Execution policy", "", "```yaml"]
  const CLOSING: seq<string> := ["```", ""]

  function RenderLines(p: Policy): seq<string> {
    PREAMBLE + BodyLines(p) + CLOSING
  }

  /** The canonical Markdown section of a policy document. */
  function Render(v: Value, judge: Judgement): Result<string, PolicyError> {
    match Validate(v, judge)
    case Err(e) => Err(e)
    case Ok(p) => Ok(Join(RenderLines(p), "\n"))
  }

  method AppendChildFields(lines: seq<string>, child: Entries, order: seq<Key>) returns (r: seq<string>)
    ensures r == lines + ChildFieldLines(child, order)
  {
    r := lines;
    ghost var all := ChildFieldLines(child, order);
    var i := 0;
    while i < |order|
      invariant 0 <= i <= |order|
      invariant r == lines + all[..i]
    {
      var value := Get(child, order[i]);
      r := r + [FieldLine(4, order[i], ChildText(value))];
      i := i + 1;
    }
    assert all[..i] == all;
  }

  method RenderMarkdownExecutionPolicy(v: Value, judge: Judgement) returns (r: Result<string, PolicyError>)
    ensures r == Render(v, judge)
  {
    hide Validate, TopLines, EscalationLines, ChildFieldLines, HeaderLine, FieldLine, Join;
    var validated := Validate(v, judge);
    if validated.Err? {
      return Err(validated.error);
    }
    var policy := validated.value;
    var lines := PREAMBLE + ([HeaderLine(0, ExecutionPolicy)] + TopLines(policy));
    if policy.escalationTrigger.Some? && policy.escalationProfile.Some? {
      lines := lines + EscalationLines(policy);
    } else {
      NoEscalationLines(policy);
    }
    assert lines == PREAMBLE + ([HeaderLine(0, ExecutionPolicy)] + TopLines(policy)) + EscalationLines(policy);
    if policy.childDelegation.Some? {
      lines := lines + [HeaderLine(2, ChildDelegation)];
      lines := AppendChildFields(lines, policy.childDelegation.value, CHILD_ORDER);
    }
    assert lines == PREAMBLE + ([HeaderLine(0, ExecutionPolicy)] + TopLines(policy)) + EscalationLines(policy) +
      ChildLines(policy);
    lines := lines + CLOSING;
    assert lines == RenderLines(policy) by {
      AssemblePieces(PREAMBLE, [HeaderLine(0, ExecutionPolicy)], TopLines(policy), EscalationLines(policy),
        ChildLines(policy), CLOSING);
    }
    r := Ok(Join(lines, "\n"));
  }

  lemma AssemblePieces(a: seq<string>, b: seq<string>, c: seq<string>, d: seq<string>, e: seq<string>, f: seq<string>)
    ensures a + (b + c) + d + e + f == a + (b + (c + d + e)) + f
  {
  }

  lemma NoEscalationLines(p: Policy)
    requires p.escalationTrigger.None? || p.escalationProfile.None?
    ensures EscalationLines(p) == []
  {
  }

  // ---------------------------------------------------------------- fences

  predicate AllBlank(s: string) {
    forall i :: 0 <= i < |s| ==> IsBlank(s[i])
  }

  /** What may follow a fence marker on its line: blanks and an optional CR. */
  predicate FenceTail(s: string) {
    AllBlank(if s != "" && s[|s| - 1] == '\r' then s[..|s| - 1] else s)
  }

  predicate OpensYaml(line: string) {
    || ("```yaml" <= line && FenceTail(line[7..]))
    || ("```yml" <= line && FenceTail(line[6..]))
  }

  predicate ClosesFence(line: string) {
    "```" <= line && FenceTail(line[3..])
  }

  /** The index of the first closing fence, or the number of lines. */
  function CloseIndex(lines: seq<string>): (k: nat)
    ensures k <= |lines|
    ensures k < |lines| ==> ClosesFence(lines[k])
    ensures forall i :: 0 <= i < k ==> !ClosesFence(lines[i])
  {
    if lines == [] || ClosesFence(lines[0]) then 0 else 1 + CloseIndex(lines[1..])
  }

  /** The bodies that the multi-line fence expression finds, from left to right. */
  function FenceBodies(lines: seq<string>): (bodies: seq<seq<string>>)
    decreases |lines|
  {
    if |lines| < 2 then []
    else if OpensYaml(lines[0]) then
      var k := CloseIndex(lines[1..]);
      if k == |lines| - 1 then [] else [lines[1..1 + k]] + FenceBodies(lines[k + 2..])
    else FenceBodies(lines[1..])
  }

  // ---------------------------------------------------------------- one line

  function CountSpaces(line: string): (n: nat)
    ensures n <= |line|
    ensures forall i :: 0 <= i < n ==> line[i] == ' '
    ensures n < |line| ==> line[n] != ' '
  {
    if line != "" && line[0] == ' ' then 1 + CountSpaces(line[1..]) else 0
  }

  predicate IsKeyChar(c: char) {
    'a' <= c <= 'z' || c == '_'
  }

  function KeySpan(s: string): (n: nat)
    ensures n <= |s|
    ensures forall i :: 0 <= i < n ==> IsKeyChar(s[i])
    ensures n < |s| ==> !IsKeyChar(s[n])
  {
    if s != "" && IsKeyChar(s[0]) then 1 + KeySpan(s[1..]) else 0
  }

  /** The expression ` *([a-z_]+):[ \t]*(.*?)[ \t]*` matched against a whole line. */
  function KeyValue(line: string): Option<(Key, string)> {
    var rest := line[CountSpaces(line)..];
    var n := KeySpan(rest);
    if n == 0 || n == |rest| || rest[n] != ':' then None
    else Some((KeyOf(rest[..n]), Trim(rest[n + 1..], IsBlank)))
  }

  /** The line ` *execution_policy:[ \t]*`. */
  predicate IsPolicyHead(line: string) {
    KeyValue(line) == Some((ExecutionPolicy, ""))
  }

  predicate IsNumber(s: string) {
    s != "" && forall i :: 0 <= i < |s| ==> '0' <= s[i] <= '9'
  }

  function NumberOf(s: string): (n: nat)
    requires forall i :: 0 <= i < |s| ==> '0' <= s[i] <= '9'
  {
    if s == "" then 0 else NumberOf(s[..|s| - 1]) * 10 + (s[|s| - 1] as int - '0' as int)
  }

  function NumberOrText(s: string): Value {
    if IsNumber(s) then Int(NumberOf(s)) else Str(s)
  }

  /** How one delegation field is read. */
  function ChildValue(key: Key, text: string): Value {
    if key == InputBytes || key == ParentBytes then NumberOrText(text)
    else if key == ReadOnly then
      if text == "true" then Bool(true) else if text == "false" then Bool(false) else Str(text)
    else if key == OwnedPaths || key == ParentOwnedPaths then
      match Json.Load(text)
      case Some(items) => List(Values(items))
      case None => Str(text)
    else Str(text)
  }

  // ---------------------------------------------------------------- reading

  datatype ContractError =
    | NotExactlyOneBlock | MalformedLine | DuplicateKey | UnsupportedKey
    | MalformedEscalation | DuplicateEscalationKey | MalformedDelegation | MalformedNesting
    | InvalidPolicy(reason: PolicyError)

  /** What the reader has filled so far and the section that nested lines belong to. */
  datatype Reader = Reader(
    policy: Entries,
    escalation: Option<Entries>,
    child: Option<Entries>,
    section: Option<Key>)

  const FRESH_READER: Reader := Reader(map[], None, None, None)

  function Assemble(r: Reader): Entries {
    var base := r.policy;
    var escalated := if r.escalation.Some? then base[Escalation := Dict(r.escalation.value)] else base;
    if r.child.Some? then escalated[ChildDelegation := Dict(r.child.value)] else escalated
  }

  function ReadTop(r: Reader, key: Key, text: string): Result<Reader, ContractError> {
    if key == Escalation && text == "" then
      if r.escalation.Some? then Err(DuplicateKey)
      else Ok(r.(escalation := Some(map[]), section := Some(Escalation)))
    else if key == ChildDelegation && text == "" then
      if r.child.Some? then Err(DuplicateKey)
      else Ok(r.(child := Some(map[]), section := Some(ChildDelegation)))
    else if key == Profile || key == ParentSessions || key == ChildSessions then
      if key in r.policy then Err(DuplicateKey)
      else Ok(r.(policy := r.policy[key := if key == Profile then Str(text) else NumberOrText(text)], section := None))
    else Err(UnsupportedKey)
  }

  function ReadNested(r: Reader, key: Key, text: string): Result<Reader, ContractError> {
    if r.section == Some(Escalation) && r.escalation.Some? then
      if key != Trigger && key != Profile then Err(MalformedEscalation)
      else if key in r.escalation.value then Err(DuplicateEscalationKey)
      else Ok(r.(escalation := Some(r.escalation.value[key := Str(text)])))
    else if r.section == Some(ChildDelegation) && r.child.Some? then
      if key !in CHILD_KEYS || key in r.child.value then Err(MalformedDelegation)
      else Ok(r.(child := Some(r.child.value[key := ChildValue(key, text)])))
    else Err(MalformedNesting)
  }

  /** The lines after the `execution_policy:` head, read until the indentation returns to `base`. */
  function ReadLines(lines: seq<string>, base: nat, r: Reader): Result<Reader, ContractError> {
    if lines == [] then Ok(r)
    else
      var line := lines[0];
      if Strip(line) == "" then ReadLines(lines[1..], base, r)
      else
        var indent := CountSpaces(line);
        if indent <= base then Ok(r)
        else if indent != base + 2 && indent != base + 4 then Err(MalformedLine)
        else
          match KeyValue(line)
          case None => Err(MalformedLine)
          case Some((key, text)) =>
            match if indent == base + 2 then ReadTop(r, key, text) else ReadNested(r, key, text)
            case Err(e) => Err(e)
            case Ok(r') => ReadLines(lines[1..], base, r')
  }

  datatype Block = Block(lines: seq<string>, start: nat)

  /** The lines from `from` on that satisfy the head expression. */
  function HeadsOf(lines: seq<string>, from: nat, isHead: string -> bool): (blocks: seq<Block>)
    requires from <= |lines|
    ensures forall i :: 0 <= i < |blocks| ==> blocks[i].lines == lines && blocks[i].start < |lines|
    decreases |lines| - from
  {
    if from == |lines| then []
    else (if isHead(lines[from]) then [Block(lines, from)] else []) + HeadsOf(lines, from + 1, isHead)
  }

  /** Every head line inside a YAML fence. */
  function Blocks(bodies: seq<seq<string>>, isHead: string -> bool): (blocks: seq<Block>)
    ensures forall i :: 0 <= i < |blocks| ==> blocks[i].start < |blocks[i].lines|
  {
    if bodies == [] then []
    else HeadsOf(SplitLines(Unlines(bodies[0])), 0, isHead) + Blocks(bodies[1..], isHead)
  }

  function ReadBlock(block: Block, judge: Judgement): Result<Value, ContractError>
    requires block.start < |block.lines|
  {
    match ReadLines(block.lines[block.start + 1..], CountSpaces(block.lines[block.start]), FRESH_READER)
    case Err(e) => Err(e)
    case Ok(r) =>
      var document := Dict(Assemble(r));
      match Validate(document, judge)
      case Err(e) => Err(InvalidPolicy(e))
      case Ok(_) => Ok(document)
  }

  /** The one execution policy of a feature contract, as the document that was written there. */
  function ReadPolicy(text: string, required: bool, judge: Judgement): Result<Option<Value>, ContractError> {
    var blocks := Blocks(FenceBodies(Split(text, '\n')), IsPolicyHead);
    if blocks == [] && !required then Ok(None)
    else if |blocks| != 1 then Err(NotExactlyOneBlock)
    else
      match ReadBlock(blocks[0], judge)
      case Err(e) => Err(e)
      case Ok(document) => Ok(Some(document))
  }

  lemma NoBlocks(bodies: seq<seq<string>>, isHead: string -> bool)
    ensures Blocks(bodies[..0], isHead) == []
  {
  }

  lemma NoHeads(lines: seq<string>, isHead: string -> bool)
    ensures HeadsOf(lines, |lines|, isHead) == []
  {
  }

  lemma HeadsStep(blocks: seq<Block>, lines: seq<string>, index: nat, isHead: string -> bool)
    requires index < |lines|
    ensures blocks + HeadsOf(lines, index, isHead)
         == (if isHead(lines[index]) then blocks + [Block(lines, index)] else blocks) +
           HeadsOf(lines, index + 1, isHead)
  {
  }

  lemma {:induction false} OneMoreBody(bodies: seq<seq<string>>, body: seq<string>, isHead: string -> bool)
    ensures Blocks(bodies + [body], isHead) == Blocks(bodies, isHead) + HeadsOf(SplitLines(Unlines(body)), 0, isHead)
  {
    hide SplitLines, Unlines, HeadsOf;
    if bodies == [] {
      assert (bodies + [body])[1..] == [];
    } else {
      assert (bodies + [body])[1..] == bodies[1..] + [body];
      OneMoreBody(bodies[1..], body, isHead);
    }
  }

  method FindBlocks(bodies: seq<seq<string>>, isHead: string -> bool) returns (blocks: seq<Block>)
    ensures blocks == Blocks(bodies, isHead)
  {
    hide SplitLines, Unlines, Blocks, HeadsOf;
    blocks := [];
    var b := 0;
    NoBlocks(bodies, isHead);
    while b < |bodies|
      invariant 0 <= b <= |bodies|
      invariant blocks == Blocks(bodies[..b], isHead)
    {
      var lines := SplitLines(Unlines(bodies[b]));
      ghost var before := blocks;
      var index := 0;
      while index < |lines|
        invariant 0 <= index <= |lines|
        invariant blocks + HeadsOf(lines, index, isHead) == before + HeadsOf(lines, 0, isHead)
      {
        HeadsStep(blocks, lines, index, isHead);
        if isHead(lines[index]) {
          blocks := blocks + [Block(lines, index)];
        }
        index := index + 1;
      }
      NoHeads(lines, isHead);
      OneMoreBody(bodies[..b], bodies[b], isHead);
      assert bodies[..b + 1] == bodies[..b] + [bodies[b]];
      b := b + 1;
    }
    assert bodies[..b] == bodies;
  }

  method MarkdownExecutionPolicy(text: string, required: bool, judge: Judgement)
    returns (r: Result<Option<Value>, ContractError>)
    ensures r == ReadPolicy(text, required, judge)
  {
    hide Validate, KeyValue, ReadTop, ReadNested, Strip, IsPolicyHead, FenceBodies, Split, Blocks, Assemble;
    var blocks := FindBlocks(FenceBodies(Split(text, '\n')), IsPolicyHead);
    if blocks == [] && !required {
      return Ok(None);
    }
    if |blocks| != 1 {
      return Err(NotExactlyOneBlock);
    }
    var lines, baseIndent := blocks[0].lines, CountSpaces(blocks[0].lines[blocks[0].start]);
    var reader := FRESH_READER;
    var i := blocks[0].start + 1;
    while i < |lines|
      invariant blocks[0].start < i <= |lines|
      invariant ReadLines(lines[i..], baseIndent, reader) ==
        ReadLines(lines[blocks[0].start + 1..], baseIndent, FRESH_READER)
    {
      var line := lines[i];
      assert lines[i..][0] == line && lines[i..][1..] == lines[i + 1..];
      if Strip(line) != "" {
        var indent := CountSpaces(line);
        if indent <= baseIndent {
          break;
        }
        if indent != baseIndent + 2 && indent != baseIndent + 4 {
          return Err(MalformedLine);
        }
        var parsed := KeyValue(line);
        if parsed.None? {
          return Err(MalformedLine);
        }
        var (key, value) := parsed.value;
        var step := if indent == baseIndent + 2 then ReadTop(reader, key, value) else ReadNested(reader, key, value);
        if step.Err? {
          return Err(step.error);
        }
        reader := step.value;
      }
      i := i + 1;
    }
    var document := Dict(Assemble(reader));
    var validated := Validate(document, judge);
    if validated.Err? {
      return Err(InvalidPolicy(validated.error));
    }
    r := Ok(Some(document));
  }
}
