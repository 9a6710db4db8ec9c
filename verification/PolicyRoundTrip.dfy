/**
 The reader, the renderer and the validator of execution policies fit together:
 validation is idempotent, and a rendered section reads back as exactly the normalised
 document if and only if every free text of the policy is a single line.
 */
module PolicyRoundTrip {
  import opened Prelude
  import opened Text
  import opened ExecutionProfiles
  import Json

  // ---------------------------------------------------------------- names

  ghost function NameLength(k: Key): nat {
    match k
    case Profile => 7 case ParentSessions => 15 case ChildSessions => 14 case Escalation => 10
    case ChildDelegation => 16 case Trigger => 7 case Role => 4 case Justification => 25
    case TaskBoundary => 13 case InputBytes => 28 case ParentBytes => 20 case OutputContract => 24
    case ReadOnly => 9 case OwnedPaths => 11 case ParentOwnedPaths => 18 case ExecutionPolicy => 16
    case Other(name) => |name|
  }

  ghost predicate KeyText(s: string) {
    s != "" && forall i :: 0 <= i < |s| ==> IsKeyChar(s[i])
  }

  lemma NameShape1(k: Key)
    requires k.Profile? || k.ParentSessions? || k.ChildSessions? || k.Escalation? || k.Trigger? || k.Role?
    ensures |KeyName(k)| == NameLength(k) && KeyText(KeyName(k))
  {
  }

  lemma NameShape2(k: Key)
    requires k.ChildDelegation? || k.TaskBoundary? || k.ReadOnly? || k.OwnedPaths? || k.ExecutionPolicy?
    ensures |KeyName(k)| == NameLength(k) && KeyText(KeyName(k))
  {
  }

  lemma NameShape3(k: Key)
    requires k.Justification? || k.ParentBytes?
    ensures |KeyName(k)| == NameLength(k) && KeyText(KeyName(k))
  {
  }

  lemma NameShape4(k: Key)
    requires k.InputBytes?
    ensures |KeyName(k)| == NameLength(k) && KeyText(KeyName(k))
  {
  }

  lemma NameShape5(k: Key)
    requires k.OutputContract? || k.ParentOwnedPaths?
    ensures |KeyName(k)| == NameLength(k) && KeyText(KeyName(k))
  {
  }

  lemma NameShape(k: Key)
    requires !k.Other?
    ensures |KeyName(k)| == NameLength(k) && KeyText(KeyName(k))
  {
    hide KeyName, NameLength, KeyText;
    if k.Profile? || k.ParentSessions? || k.ChildSessions? || k.Escalation? || k.Trigger? || k.Role? {
      NameShape1(k);
    }
    if k.ChildDelegation? || k.TaskBoundary? || k.ReadOnly? || k.OwnedPaths? || k.ExecutionPolicy? {
      NameShape2(k);
    }
    if k.Justification? || k.ParentBytes? {
      NameShape3(k);
    }
    if k.InputBytes? {
      NameShape4(k);
    }
    if k.OutputContract? || k.ParentOwnedPaths? {
      NameShape5(k);
    }
  }

  lemma NameStarts()
    ensures KeyName(Profile)[0] != KeyName(Trigger)[0]
    ensures KeyName(ChildDelegation)[0] != KeyName(ExecutionPolicy)[0]
  {
  }

  lemma NamesDiffer(j: Key, k: Key)
    requires !j.Other? && !k.Other? && j != k
    ensures KeyName(j) != KeyName(k)
  {
    hide KeyName;
    NameShape(j);
    NameShape(k);
    NameStarts();
  }

  lemma {:induction false} FindKeyAt(keys: seq<Key>, i: nat)
    requires i < |keys| && Distinct(keys)
    requires forall j :: 0 <= j < |keys| ==> !keys[j].Other?
    ensures FindKey(KeyName(keys[i]), keys) == keys[i]
  {
    hide KeyName;
    if i > 0 {
      NamesDiffer(keys[0], keys[i]);
      FindKeyAt(keys[1..], i - 1);
    }
  }

  lemma RegisteredAt(k: Key) returns (i: nat)
    requires !k.Other?
    ensures i < |REGISTERED_KEYS| && REGISTERED_KEYS[i] == k
  {
    i := match k
      case Profile => 0 case ParentSessions => 1 case ChildSessions => 2 case Escalation => 3
      case ChildDelegation => 4 case Trigger => 5 case Role => 6 case Justification => 7
      case TaskBoundary => 8 case InputBytes => 9 case ParentBytes => 10 case OutputContract => 11
      case ReadOnly => 12 case OwnedPaths => 13 case ParentOwnedPaths => 14 case ExecutionPolicy => 15;
  }

  /** A registered key is found again by its own name. */
  lemma KeyOfName(k: Key)
    requires !k.Other?
    ensures KeyOf(KeyName(k)) == k
  {
    hide KeyName;
    var i := RegisteredAt(k);
    FindKeyAt(REGISTERED_KEYS, i);
  }

  // ---------------------------------------------------------------- one line

  lemma {:induction false} CountSpacesOf(n: nat, rest: string)
    requires rest != "" ==> rest[0] != ' '
    ensures CountSpaces(Spaces(n) + rest) == n
  {
    if n == 0 {
      assert Spaces(n) + rest == rest;
    } else {
      assert (Spaces(n) + rest)[1..] == Spaces(n - 1) + rest;
      CountSpacesOf(n - 1, rest);
    }
  }

  lemma {:induction false} KeySpanOf(name: string, rest: string)
    requires forall i :: 0 <= i < |name| ==> IsKeyChar(name[i])
    requires rest != "" ==> !IsKeyChar(rest[0])
    ensures KeySpan(name + rest) == |name|
  {
    if name == "" {
      assert name + rest == rest;
    } else {
      assert (name + rest)[1..] == name[1..] + rest;
      KeySpanOf(name[1..], rest);
    }
  }

  lemma KeyParts(k: Key, tail: string)
    requires !k.Other?
    ensures var rest := KeyName(k) + ":" + tail;
      && rest != "" && rest[0] != ' '
      && KeySpan(rest) == |KeyName(k)| > 0 && rest[|KeyName(k)|] == ':'
      && rest[..|KeyName(k)|] == KeyName(k) && rest[|KeyName(k)| + 1..] == tail
  {
    hide KeyName, KeyOf;
    NameShape(k);
    var name := KeyName(k);
    var rest := name + ":" + tail;
    assert rest[0] == name[0];
    assert rest == name + (":" + tail);
    KeySpanOf(name, ":" + tail);
  }

  lemma LineParts(n: nat, k: Key, tail: string)
    requires !k.Other?
    ensures CountSpaces(Spaces(n) + (KeyName(k) + ":" + tail)) == n
    ensures KeyValue(Spaces(n) + (KeyName(k) + ":" + tail)) == Some((k, Trim(tail, IsBlank)))
    ensures Strip(Spaces(n) + (KeyName(k) + ":" + tail)) != ""
  {
    hide KeyName, KeyOf, KeySpan, CountSpaces, Trim, Strip;
    KeyParts(k, tail);
    var rest := KeyName(k) + ":" + tail;
    var line := Spaces(n) + rest;
    CountSpacesOf(n, rest);
    assert line[n..] == rest;
    KeyOfName(k);
    assert line[n + |KeyName(k)|] == ':';
    NotAllSpace(line, n + |KeyName(k)|);
  }

  lemma NotAllSpace(s: string, i: nat)
    requires i < |s| && !IsSpace(s[i])
    ensures Strip(s) != ""
  {
    TrimIsTrimmed(s, IsSpace);
  }

  // ---------------------------------------------------------------- rows

  /** A line of the section below its head: a header, or a field with its text. */
  datatype Row = Row(indent: nat, key: Key, text: Option<string>)

  ghost function LineOf(row: Row): string {
    match row.text
    case None => HeaderLine(row.indent, row.key)
    case Some(text) => FieldLine(row.indent, row.key, text)
  }

  ghost function LinesOf(rows: seq<Row>): (lines: seq<string>)
    ensures |lines| == |rows|
    ensures forall i :: 0 <= i < |rows| ==> lines[i] == LineOf(rows[i])
  {
    seq(|rows|, i requires 0 <= i < |rows| => LineOf(rows[i]))
  }

  ghost function RowText(row: Row): string {
    if row.text.Some? then row.text.value else ""
  }

  ghost predicate RowOk(row: Row) {
    && (row.indent == 2 || row.indent == 4)
    && !row.key.Other? && row.key != ExecutionPolicy
    && Trimmed(RowText(row), IsBlank)
  }

  lemma LineOfRow(row: Row)
    requires !row.key.Other? && Trimmed(RowText(row), IsBlank)
    ensures CountSpaces(LineOf(row)) == row.indent
    ensures KeyValue(LineOf(row)) == Some((row.key, RowText(row)))
    ensures Strip(LineOf(row)) != ""
  {
    hide KeyName, KeyValue, Strip;
    match row.text
    case None =>
      LineParts(row.indent, row.key, "");
      assert KeyName(row.key) + ":" + "" == KeyName(row.key) + ":";
      assert Trim("", IsBlank) == "";
    case Some(text) =>
      LineParts(row.indent, row.key, " " + text);
      assert " " + text == " " + text + "";
      TrimPadded(" ", text, "", IsBlank);
  }

  ghost function ReadRow(r: Reader, row: Row): Result<Reader, ContractError> {
    if row.indent == 2 then ReadTop(r, row.key, RowText(row)) else ReadNested(r, row.key, RowText(row))
  }

  ghost function ReadRows(rows: seq<Row>, r: Reader): Result<Reader, ContractError> {
    if rows == [] then Ok(r)
    else
      match ReadRow(r, rows[0])
      case Err(e) => Err(e)
      case Ok(r') => ReadRows(rows[1..], r')
  }

  lemma {:induction false} ReadLinesOfRows(rows: seq<Row>, r: Reader)
    requires forall i :: 0 <= i < |rows| ==> RowOk(rows[i])
    ensures ReadLines(LinesOf(rows), 0, r) == ReadRows(rows, r)
  {
    hide KeyValue, Strip, ReadTop, ReadNested, LineOf;
    if rows != [] {
      var lines := LinesOf(rows);
      assert lines[1..] == LinesOf(rows[1..]);
      LineOfRow(rows[0]);
      var step := ReadRow(r, rows[0]);
      if step.Ok? {
        ReadLinesOfRows(rows[1..], step.value);
      }
    }
  }

  lemma {:induction false} ReadRowsAppend(a: seq<Row>, b: seq<Row>, r: Reader)
    requires ReadRows(a, r).Ok?
    ensures ReadRows(a + b, r) == ReadRows(b, ReadRows(a, r).value)
  {
    hide ReadRow;
    if a == [] {
      assert a + b == b;
    } else {
      assert (a + b)[1..] == a[1..] + b;
      ReadRowsAppend(a[1..], b, ReadRow(r, a[0]).value);
    }
  }

  // ---------------------------------------------------------------- normal policies

  /** The policies that the validator returns: normalising them changes nothing. */
  ghost predicate NormalDelegation(m: Entries) {
    && m.Keys == CHILD_KEYS
    && (forall k :: k in FREE_TEXT_KEYS ==> m[k].Str? && Strip(m[k].s) == m[k].s && m[k].s != "")
    && IsProfile(m[Profile])
    && IsCount(m[InputBytes], 1) && IsCount(m[ParentBytes], 1)
    && m[ReadOnly].Bool?
    && NormalPathList(m[OwnedPaths]) && NormalPathList(m[ParentOwnedPaths])
  }

  ghost predicate NormalPathList(v: Value) {
    IsPathList(v) && Sorted(Strings(v.items))
  }

  ghost predicate Normal(p: Policy) {
    && p.profile in PROFILE_NAMES
    && p.parentSessions >= 1
    && 0 <= p.childSessions <= 1
    && (p.childSessions == 1 <==> p.childDelegation.Some?)
    && (p.escalationTrigger.Some? <==> p.escalationProfile.Some?)
    && (p.escalationTrigger.Some? ==>
          && Strip(p.escalationTrigger.value) == p.escalationTrigger.value
          && p.escalationTrigger.value != ""
          && p.escalationProfile.value in PROFILE_NAMES
          && p.escalationProfile.value != p.profile)
    && (p.childDelegation.Some? ==> NormalDelegation(p.childDelegation.value))
  }

  lemma StripTwice(s: string)
    ensures Strip(Strip(s)) == Strip(s)
  {
    TrimIsTrimmed(s, IsSpace);
    TrimKeepsTrimmed(Strip(s), IsSpace);
  }

  lemma NormalPathsNormal(v: Value)
    requires IsPathList(v)
    ensures NormalPathList(NormalPaths(v))
    ensures NormalPaths(NormalPaths(v)) == NormalPaths(v)
    ensures NormalPaths(v).items == [] <==> v.items == []
  {
    hide Strip;
    var before := Strings(v.items);
    var after := Sort(before);
    SameMultiset(after, before);
    DistinctByMultiset(after, before);
    SortKeepsSorted(after);
    var items := NormalPaths(v).items;
    forall i | 0 <= i < |items| ensures Strip(items[i].s) != "" {
      assert after[i] in before;
    }
  }

  lemma NormalPathsMembers(v: Value, x: Value)
    requires IsPathList(v)
    ensures x in NormalPaths(v).items <==> x in v.items
  {
    var before := Strings(v.items);
    var after := Sort(before);
    SameMultiset(after, before);
    var items := NormalPaths(v).items;
    if x in items {
      var i :| 0 <= i < |items| && items[i] == x;
      assert after[i] in before;
      var j :| 0 <= j < |before| && before[j] == after[i];
      assert v.items[j] == x;
    }
    if x in v.items {
      var j :| 0 <= j < |v.items| && v.items[j] == x;
      assert before[j] in after;
      var i :| 0 <= i < |after| && after[i] == before[j];
      assert items[i] == x;
    }
  }

  lemma NormalPathsOverlap(a: Value, b: Value)
    requires IsPathList(a) && IsPathList(b)
    requires IsPathList(NormalPaths(a)) && IsPathList(NormalPaths(b))
    ensures Overlap(NormalPaths(a), NormalPaths(b)) ==> Overlap(a, b)
  {
    hide IsPathList;
    if Overlap(NormalPaths(a), NormalPaths(b)) {
      var x :| x in NormalPaths(a).items && x in NormalPaths(b).items;
      NormalPathsMembers(a, x);
      NormalPathsMembers(b, x);
    }
  }

  lemma TextsNormal(m: Entries)
    requires forall k :: k in FREE_TEXT_KEYS && k in m ==> m[k].Str?
    ensures TextsOf(TextsOf(m)) == TextsOf(m)
  {
    hide Strip;
    forall k | k in m && k in FREE_TEXT_KEYS ensures TextsOf(TextsOf(m))[k] == TextsOf(m)[k] {
      StripTwice(m[k].s);
    }
  }

  lemma ChildNormal(v: Value, judge: Judgement)
    requires ValidateChild(v, judge).Ok?
    ensures NormalDelegation(ValidateChild(v, judge).value)
    ensures ValidateChild(Dict(ValidateChild(v, judge).value), judge) == ValidateChild(v, judge)
  {
    hide Strip, IsPathList, NormalPaths, IsProfile, Overlap, TextsOf, ShortTextOf, FieldError;
    var m := v.entries;
    NormalEntries(m);
    var n := TextsOf(m)[OwnedPaths := NormalPaths(m[OwnedPaths])][ParentOwnedPaths := NormalPaths(m[ParentOwnedPaths])];
    assert ValidateChild(v, judge) == Ok(n);
    assert n[OwnedPaths := NormalPaths(n[OwnedPaths])][ParentOwnedPaths := NormalPaths(n[ParentOwnedPaths])] == n;
  }

  /** The normalised entries pass the same checks and are normal already. */
  lemma NormalEntries(m: Entries)
    requires m.Keys == CHILD_KEYS && ShortTextOf(m).None? && FieldError(m).None?
    ensures var n := TextsOf(m)
        [OwnedPaths := NormalPaths(m[OwnedPaths])][ParentOwnedPaths := NormalPaths(m[ParentOwnedPaths])];
      && NormalDelegation(n) && TextsOf(n) == n && ShortTextOf(n).None? && FieldError(n).None?
      && n[Justification] == TextsOf(m)[Justification] && n[TaskBoundary] == TextsOf(m)[TaskBoundary]
      && NormalPaths(n[OwnedPaths]) == n[OwnedPaths] && NormalPaths(n[ParentOwnedPaths]) == n[ParentOwnedPaths]
  {
    hide Strip, IsPathList, NormalPaths, IsProfile, Overlap;
    TextsNormal(m);
    NormalPathsNormal(m[OwnedPaths]);
    NormalPathsNormal(m[ParentOwnedPaths]);
    NormalPathsOverlap(m[OwnedPaths], m[ParentOwnedPaths]);
    var n := TextsOf(m)[OwnedPaths := NormalPaths(m[OwnedPaths])][ParentOwnedPaths := NormalPaths(m[ParentOwnedPaths])];
    assert n.Keys == CHILD_KEYS;
    assert TextsOf(n) == n;
  }

  lemma EscalationNormal(v: Value, profile: string)
    requires ValidateEscalation(v, profile).Ok? && ValidateEscalation(v, profile).value.Some?
    ensures var (trigger, next) := ValidateEscalation(v, profile).value.value;
      && Strip(trigger) == trigger && trigger != "" && next in PROFILE_NAMES && next != profile
      && ValidateEscalation(Dict(map[Trigger := Str(trigger), Profile := Str(next)]), profile)
         == ValidateEscalation(v, profile)
  {
    hide Strip;
    StripTwice(v.entries[Trigger].s);
  }

  /** Validation accepts its own output unchanged. */
  lemma ValidateIdempotent(v: Value, judge: Judgement)
    requires Validate(v, judge).Ok?
    ensures Normal(Validate(v, judge).value)
    ensures Validate(ToDict(Validate(v, judge).value), judge) == Validate(v, judge)
  {
    hide Strip, ValidateChild, ValidateEscalation, NormalDelegation;
    var m := v.entries;
    var profile := Get(m, Profile).s;
    var p := Validate(v, judge).value;
    var d := ToDict(p).entries;
    if Get(m, ChildDelegation) != Null {
      ChildNormal(Get(m, ChildDelegation), judge);
    }
    var escalation := ValidateEscalation(Get(m, Escalation), profile);
    assert escalation.Ok?;
    if escalation.value.Some? {
      EscalationNormal(Get(m, Escalation), profile);
    }
    EscalationOfNull(profile);
    assert d.Keys <= POLICY_KEYS;
    assert Get(d, Profile) == Str(p.profile);
    assert Get(d, ParentSessions) == Int(p.parentSessions) && Get(d, ChildSessions) == Int(p.childSessions);
  }

  lemma EscalationOfNull(profile: string)
    ensures ValidateEscalation(Null, profile) == Ok(None)
  {
  }

  // ---------------------------------------------------------------- values

  lemma {:induction false} NumberOfDigits(n: nat)
    ensures NumberOf(DigitsOf(n)) == n
  {
    var s := DigitsOf(n);
    if n >= 10 {
      NumberOfDigits(n / 10);
      assert s[..|s| - 1] == DigitsOf(n / 10);
    } else {
      assert s[..|s| - 1] == "";
    }
  }

  /** A non-negative number is written as digits that read back as the number. */
  lemma NumberRoundTrip(n: nat)
    ensures NumberOrText(IntText(n)) == Int(n)
    ensures SingleLine(IntText(n)) && Trimmed(IntText(n), IsBlank)
  {
    NumberOfDigits(n);
  }

  lemma SpaceIsBlank(s: string)
    requires Strip(s) == s
    ensures Trimmed(s, IsBlank)
  {
    TrimIsTrimmed(s, IsSpace);
  }

  lemma ProfileNameShape(s: string)
    requires s in PROFILE_NAMES
    ensures SingleLine(s) && Trimmed(s, IsBlank)
  {
    if s in PROFILE_NAMES[..4] {
      FirstProfileNames(s);
    } else if s in PROFILE_NAMES[4..6] {
      MiddleProfileNames(s);
    } else {
      LastProfileNames(s);
    }
  }

  lemma FirstProfileNames(s: string)
    requires s in PROFILE_NAMES[..4]
    ensures SingleLine(s) && Trimmed(s, IsBlank)
  {
  }

  lemma MiddleProfileNames(s: string)
    requires s in PROFILE_NAMES[4..6]
    ensures SingleLine(s) && Trimmed(s, IsBlank)
  {
  }

  lemma LastProfileNames(s: string)
    requires s in PROFILE_NAMES[6..]
    ensures SingleLine(s) && Trimmed(s, IsBlank)
  {
  }

  lemma PathsRoundTrip(v: Value, key: Key)
    requires IsPathList(v) && (key == OwnedPaths || key == ParentOwnedPaths)
    ensures ChildValue(key, ChildText(v)) == v
    ensures SingleLine(ChildText(v)) && Trimmed(ChildText(v), IsBlank)
  {
    hide Strip;
    var items := Strings(v.items);
    Json.DumpRoundTrip(items);
    Json.DumpPrintable(items);
    assert Values(items) == v.items;
  }

  lemma FlagRoundTrip(b: bool)
    ensures ChildValue(ReadOnly, ChildText(Bool(b))) == Bool(b)
    ensures SingleLine(ChildText(Bool(b))) && Trimmed(ChildText(Bool(b)), IsBlank)
  {
  }

  ghost predicate OneLineDelegation(m: Entries)
    requires NormalDelegation(m)
  {
    forall k :: k in FREE_TEXT_KEYS ==> SingleLine(m[k].s)
  }

  /** Every free text of the policy fits on one line. */
  ghost predicate OneLineTexts(p: Policy)
    requires Normal(p)
  {
    && (p.escalationTrigger.Some? ==> SingleLine(p.escalationTrigger.value))
    && (p.childDelegation.Some? ==> OneLineDelegation(p.childDelegation.value))
  }

  /** Each delegation field is written as text that reads back as its value. */
  lemma ChildFieldRoundTrip(m: Entries, k: Key)
    requires NormalDelegation(m) && k in CHILD_KEYS
    ensures ChildValue(k, ChildText(m[k])) == m[k]
    ensures Trimmed(ChildText(m[k]), IsBlank)
    ensures k !in FREE_TEXT_KEYS || SingleLine(m[k].s) ==> SingleLine(ChildText(m[k]))
  {
    hide Strip, IsPathList, SingleLine, Trimmed;
    if k in FREE_TEXT_KEYS {
      SpaceIsBlank(m[k].s);
    } else if k == Profile {
      ProfileNameShape(m[k].s);
    } else if k == InputBytes || k == ParentBytes {
      NumberRoundTrip(m[k].n);
    } else if k == ReadOnly {
      FlagRoundTrip(m[k].b);
    } else {
      PathsRoundTrip(m[k], k);
    }
  }

  // ---------------------------------------------------------------- the body

  ghost function TopRows(p: Policy): seq<Row> {
    [Row(2, Profile, Some(p.profile)),
     Row(2, ParentSessions, Some(IntText(p.parentSessions))),
     Row(2, ChildSessions, Some(IntText(p.childSessions)))]
  }

  ghost function EscalationRows(p: Policy): seq<Row> {
    if p.escalationTrigger.Some? && p.escalationProfile.Some? then
      [Row(2, Escalation, None),
       Row(4, Trigger, Some(p.escalationTrigger.value)),
       Row(4, Profile, Some(p.escalationProfile.value))]
    else []
  }

  ghost function FieldRows(m: Entries, keys: seq<Key>): (rows: seq<Row>)
    ensures |rows| == |keys|
  {
    seq(|keys|, i requires 0 <= i < |keys| => Row(4, keys[i], Some(ChildText(Get(m, keys[i])))))
  }

  ghost function ChildRows(p: Policy): seq<Row> {
    if p.childDelegation.Some? then
      [Row(2, ChildDelegation, None)] + FieldRows(p.childDelegation.value, CHILD_ORDER)
    else []
  }

  ghost function BodyRows(p: Policy): seq<Row> {
    TopRows(p) + EscalationRows(p) + ChildRows(p)
  }

  lemma LinesOfAppend(a: seq<Row>, b: seq<Row>)
    ensures LinesOf(a + b) == LinesOf(a) + LinesOf(b)
  {
    hide LineOf;
  }

  lemma BodyLinesOfRows(p: Policy)
    ensures BodyLines(p) == [HeaderLine(0, ExecutionPolicy)] + LinesOf(BodyRows(p))
  {
    hide HeaderLine, FieldLine, ChildText, IntText;
    LinesOfAppend(TopRows(p) + EscalationRows(p), ChildRows(p));
    LinesOfAppend(TopRows(p), EscalationRows(p));
    assert LinesOf(TopRows(p)) == TopLines(p);
    assert LinesOf(EscalationRows(p)) == EscalationLines(p);
    if p.childDelegation.Some? {
      var m := p.childDelegation.value;
      LinesOfAppend([Row(2, ChildDelegation, None)], FieldRows(m, CHILD_ORDER));
      assert LinesOf([Row(2, ChildDelegation, None)]) == [HeaderLine(2, ChildDelegation)];
      assert LinesOf(FieldRows(m, CHILD_ORDER)) == ChildFieldLines(m, CHILD_ORDER);
    }
  }

  ghost predicate RowsOk(rows: seq<Row>) {
    forall i :: 0 <= i < |rows| ==> RowOk(rows[i])
  }

  ghost predicate RowsOneLine(rows: seq<Row>) {
    forall i :: 0 <= i < |rows| ==> SingleLine(RowText(rows[i]))
  }

  lemma TopRowsOk(p: Policy)
    requires Normal(p)
    ensures RowsOk(TopRows(p)) && RowsOneLine(TopRows(p))
  {
    hide Strip, SingleLine, Trimmed, IntText, NormalDelegation;
    NumberRoundTrip(p.parentSessions);
    NumberRoundTrip(p.childSessions);
    ProfileNameShape(p.profile);
  }

  lemma EscalationRowsOk(p: Policy)
    requires Normal(p)
    ensures RowsOk(EscalationRows(p))
    ensures OneLineTexts(p) ==> RowsOneLine(EscalationRows(p))
  {
    hide Strip, SingleLine, Trimmed, NormalDelegation, OneLineDelegation;
    if p.escalationTrigger.Some? {
      EmptyText();
      SpaceIsBlank(p.escalationTrigger.value);
      ProfileNameShape(p.escalationProfile.value);
    }
  }

  lemma ChildRowsOk(p: Policy)
    requires Normal(p)
    ensures RowsOk(ChildRows(p))
    ensures OneLineTexts(p) ==> RowsOneLine(ChildRows(p))
  {
    hide Strip, SingleLine, Trimmed, NormalDelegation, OneLineDelegation, FieldRows;
    if p.childDelegation.Some? {
      EmptyText();
      DelegationRowsOk(p.childDelegation.value);
    }
  }

  lemma BodyRowsOk(p: Policy)
    requires Normal(p)
    ensures RowsOk(BodyRows(p))
    ensures OneLineTexts(p) ==> RowsOneLine(BodyRows(p))
  {
    hide TopRows, EscalationRows, ChildRows, OneLineTexts, Normal, RowOk;
    TopRowsOk(p);
    EscalationRowsOk(p);
    ChildRowsOk(p);
  }

  lemma EmptyText()
    ensures SingleLine("") && Trimmed("", IsBlank)
  {
  }

  lemma DelegationRowsOk(m: Entries)
    requires NormalDelegation(m)
    ensures forall i :: 0 <= i < |CHILD_ORDER| ==> RowOk(FieldRows(m, CHILD_ORDER)[i])
    ensures OneLineDelegation(m) ==> forall i :: 0 <= i < |CHILD_ORDER| ==>
      SingleLine(RowText(FieldRows(m, CHILD_ORDER)[i]))
  {
    hide Strip, SingleLine, Trimmed, ChildText;
    forall i | 0 <= i < |CHILD_ORDER|
      ensures RowOk(FieldRows(m, CHILD_ORDER)[i])
      ensures OneLineDelegation(m) ==> SingleLine(RowText(FieldRows(m, CHILD_ORDER)[i]))
    {
      ChildOrderKeys(i);
      ChildFieldRoundTrip(m, CHILD_ORDER[i]);
    }
  }

  lemma ChildOrderKeys(i: nat)
    requires i < |CHILD_ORDER|
    ensures CHILD_ORDER[i] in CHILD_KEYS && !CHILD_ORDER[i].Other? && CHILD_ORDER[i] != ExecutionPolicy
  {
  }

  lemma ChildOrderComplete()
    ensures Distinct(CHILD_ORDER)
    ensures forall k :: k in CHILD_KEYS <==> k in CHILD_ORDER
  {
  }

  // ---------------------------------------------------------------- reading the body

  ghost function Restrict(m: Entries, keys: seq<Key>): Entries {
    map k | k in m && k in keys :: m[k]
  }

  lemma {:induction false} ReadDelegationRows(m: Entries, done: seq<Key>, keys: seq<Key>, r: Reader)
    requires NormalDelegation(m)
    requires Distinct(done + keys) && forall k :: k in done + keys ==> k in CHILD_KEYS
    requires r.section == Some(ChildDelegation) && r.child == Some(Restrict(m, done))
    ensures ReadRows(FieldRows(m, keys), r) == Ok(r.(child := Some(Restrict(m, done + keys))))
    decreases |keys|
  {
    hide Strip, ChildText, ChildValue, NormalDelegation;
    if keys == [] {
      assert done + keys == done;
    } else {
      var k := keys[0];
      assert (done + keys)[|done|] == k;
      FreshKey(done, keys);
      ChildFieldRoundTrip(m, k);
      NormalDelegationKeys(m);
      var rows := FieldRows(m, keys);
      assert rows[0] == Row(4, k, Some(ChildText(m[k])));
      assert rows[1..] == FieldRows(m, keys[1..]);
      var next := r.(child := Some(Restrict(m, done)[k := m[k]]));
      assert ReadRow(r, rows[0]) == Ok(next);
      assert Restrict(m, done)[k := m[k]] == Restrict(m, done + [k]);
      assert done + [k] + keys[1..] == done + keys;
      ReadDelegationRows(m, done + [k], keys[1..], next);
    }
  }

  lemma FreshKey(done: seq<Key>, keys: seq<Key>)
    requires Distinct(done + keys) && keys != []
    ensures keys[0] !in done
  {
    var all := done + keys;
    assert all[|done|] == keys[0];
    forall j | 0 <= j < |done| ensures done[j] != keys[0] {
      assert all[j] == done[j];
    }
  }

  lemma NormalDelegationKeys(m: Entries)
    requires NormalDelegation(m)
    ensures m.Keys == CHILD_KEYS
  {
  }

  ghost function TopEntries(p: Policy): Entries {
    map[Profile := Str(p.profile), ParentSessions := Int(p.parentSessions), ChildSessions := Int(p.childSessions)]
  }

  ghost function EscalationEntries(p: Policy): Option<Entries> {
    if p.escalationTrigger.Some? && p.escalationProfile.Some? then
      Some(map[Trigger := Str(p.escalationTrigger.value), Profile := Str(p.escalationProfile.value)])
    else None
  }

  lemma ReadTopRows(p: Policy)
    requires p.parentSessions >= 0 && p.childSessions >= 0
    ensures ReadRows(TopRows(p), FRESH_READER) == Ok(Reader(TopEntries(p), None, None, None))
  {
    hide IntText;
    NumberRoundTrip(p.parentSessions);
    NumberRoundTrip(p.childSessions);
    var rows := TopRows(p);
    var r1 := Reader(map[Profile := Str(p.profile)], None, None, None);
    assert ReadRow(FRESH_READER, rows[0]) == Ok(r1);
    var r2 := r1.(policy := r1.policy[ParentSessions := Int(p.parentSessions)]);
    assert ReadRow(r1, rows[1]) == Ok(r2);
    var r3 := r2.(policy := r2.policy[ChildSessions := Int(p.childSessions)]);
    assert ReadRow(r2, rows[2]) == Ok(r3);
    ReadThreeRows(rows, FRESH_READER, r1, r2, r3);
    assert r3.policy == TopEntries(p);
  }

  lemma ReadThreeRows(rows: seq<Row>, r0: Reader, r1: Reader, r2: Reader, r3: Reader)
    requires |rows| == 3
    requires ReadRow(r0, rows[0]) == Ok(r1) && ReadRow(r1, rows[1]) == Ok(r2) && ReadRow(r2, rows[2]) == Ok(r3)
    ensures ReadRows(rows, r0) == Ok(r3)
  {
    hide ReadRow;
    assert rows[1..][0] == rows[1] && rows[1..][1..][0] == rows[2] && rows[1..][1..][1..] == [];
    assert ReadRows(rows[1..][1..], r2) == Ok(r3);
    assert ReadRows(rows[1..], r1) == Ok(r3);
  }

  lemma ReadEscalationRows(p: Policy, r: Reader)
    requires r.escalation.None?
    ensures ReadRows(EscalationRows(p), r).Ok?
    ensures var r' := ReadRows(EscalationRows(p), r).value;
      r'.policy == r.policy && r'.child == r.child && r'.escalation == EscalationEntries(p)
  {
    if EscalationRows(p) != [] {
      var rows := EscalationRows(p);
      var r1 := r.(escalation := Some(map[]), section := Some(Escalation));
      assert ReadRow(r, rows[0]) == Ok(r1);
      var r2 := r1.(escalation := Some(map[Trigger := Str(p.escalationTrigger.value)]));
      assert ReadRow(r1, rows[1]) == Ok(r2);
      var r3 := r2.(escalation := Some(r2.escalation.value[Profile := Str(p.escalationProfile.value)]));
      assert ReadRow(r2, rows[2]) == Ok(r3);
      ReadThreeRows(rows, r, r1, r2, r3);
      assert r3.escalation.value == EscalationEntries(p).value;
    }
  }

  lemma ReadDelegation(m: Entries, order: seq<Key>, start: Reader)
    requires NormalDelegation(m)
    requires Distinct(order) && forall k :: k in m.Keys <==> k in order
    requires start.section == Some(ChildDelegation) && start.child == Some(map[])
    ensures ReadRows(FieldRows(m, order), start) == Ok(start.(child := Some(m)))
  {
    hide ReadRows, NormalDelegation, FieldRows, Distinct;
    NormalDelegationKeys(m);
    assert Restrict(m, []) == map[];
    assert [] + order == order;
    ReadDelegationRows(m, [], order, start);
    assert Restrict(m, order) == m;
  }

  lemma ReadChildRows(p: Policy, r: Reader)
    requires Normal(p) && r.child.None?
    ensures ReadRows(ChildRows(p), r).Ok?
    ensures var r' := ReadRows(ChildRows(p), r).value;
      r'.policy == r.policy && r'.escalation == r.escalation && r'.child == p.childDelegation
  {
    hide ReadRows, NormalDelegation, FieldRows;
    if p.childDelegation.Some? {
      var m := p.childDelegation.value;
      var start := r.(child := Some(map[]), section := Some(ChildDelegation));
      var head := [Row(2, ChildDelegation, None)];
      ReadOneRow(head, r, start);
      ChildOrderComplete();
      NormalDelegationKeys(m);
      ReadDelegation(m, CHILD_ORDER, start);
      ReadRowsAppend(head, FieldRows(m, CHILD_ORDER), r);
    } else {
      ReadNoRows(r);
    }
  }

  lemma ReadOneRow(rows: seq<Row>, r0: Reader, r1: Reader)
    requires |rows| == 1 && ReadRow(r0, rows[0]) == Ok(r1)
    ensures ReadRows(rows, r0) == Ok(r1)
  {
    hide ReadRow;
    assert rows[1..] == [];
  }

  lemma ReadNoRows(r: Reader)
    ensures ReadRows([], r) == Ok(r)
  {
  }

  /** Reading the rows of a normal policy fills exactly its document. */
  lemma ReadBodyRows(p: Policy)
    requires Normal(p)
    ensures ReadRows(BodyRows(p), FRESH_READER).Ok?
    ensures Dict(Assemble(ReadRows(BodyRows(p), FRESH_READER).value)) == ToDict(p)
  {
    hide Strip, ReadRow, NormalDelegation, ReadRows, TopRows, EscalationRows, ChildRows;
    ReadTopRows(p);
    var r := Reader(TopEntries(p), None, None, None);
    ReadEscalationRows(p, r);
    ReadRowsAppend(TopRows(p), EscalationRows(p), FRESH_READER);
    var r' := ReadRows(EscalationRows(p), r).value;
    ReadChildRows(p, r');
    ReadRowsAppend(TopRows(p) + EscalationRows(p), ChildRows(p), FRESH_READER);
  }

  // ---------------------------------------------------------------- the section

  lemma RowLineShape(row: Row)
    requires !row.key.Other?
    ensures SingleLine(RowText(row)) ==> SingleLine(LineOf(row))
    ensures LineOf(row) != "" && LineOf(row)[0] != '`'
  {
    hide KeyName;
    NameShape(row.key);
    var line := LineOf(row);
    var name := KeyName(row.key);
    if row.text.None? {
      assert line == Spaces(row.indent) + name + ":";
    } else {
      assert line == Spaces(row.indent) + name + ": " + row.text.value;
    }
    if row.indent == 0 {
      assert line[0] == name[0];
    } else {
      assert line[0] == ' ';
    }
  }

  const HEAD_ROW: Row := Row(0, ExecutionPolicy, None)

  lemma HeadLine()
    ensures LineOf(HEAD_ROW) == HeaderLine(0, ExecutionPolicy)
    ensures IsPolicyHead(HeaderLine(0, ExecutionPolicy)) && CountSpaces(HeaderLine(0, ExecutionPolicy)) == 0
  {
    hide KeyName, KeyValue, CountSpaces;
    EmptyText();
    LineOfRow(HEAD_ROW);
  }

  /** Neither the head nor a row line can close a fence, and only the head is a head. */
  lemma BodyLinesShape(p: Policy)
    requires Normal(p)
    ensures forall i :: 0 <= i < |BodyLines(p)| ==> BodyLines(p)[i] != "" && BodyLines(p)[i][0] != '`'
    ensures forall i :: 0 < i < |BodyLines(p)| ==> !IsPolicyHead(BodyLines(p)[i])
    ensures OneLineTexts(p) ==> forall i :: 0 <= i < |BodyLines(p)| ==> SingleLine(BodyLines(p)[i])
  {
    hide LineOf, HeaderLine, KeyValue, Strip, SingleLine, Trimmed, Normal, OneLineTexts, BodyRows, BodyLines;
    var rows := BodyRows(p);
    var lines := BodyLines(p);
    BodyLinesOfRows(p);
    BodyRowsOk(p);
    HeadLine();
    EmptyText();
    RowLineShape(HEAD_ROW);
    forall i | 0 < i < |lines|
      ensures lines[i] != "" && lines[i][0] != '`' && !IsPolicyHead(lines[i])
      ensures OneLineTexts(p) ==> SingleLine(lines[i])
    {
      assert RowOk(rows[i - 1]) && lines[i] == LineOf(rows[i - 1]);
      RowLineShape(rows[i - 1]);
      LineOfRow(rows[i - 1]);
    }
  }

  lemma {:induction false} CloseIndexAt(lines: seq<string>, k: nat)
    requires k < |lines| && ClosesFence(lines[k])
    requires forall i :: 0 <= i < k ==> !ClosesFence(lines[i])
    ensures CloseIndex(lines) == k
  {
    hide ClosesFence;
    if k > 0 {
      CloseIndexAt(lines[1..], k - 1);
    }
  }

  lemma FenceMarkers()
    ensures !OpensYaml("## Execution policy") && !OpensYaml("") && OpensYaml("```yaml") && ClosesFence("```")
    ensures SingleLine("## Execution policy") && SingleLine("") && SingleLine("```yaml") && SingleLine("```")
  {
    NotYaml("## Execution policy");
    YamlFence();
    TitleSingleLine();
  }

  lemma NotYaml(line: string)
    requires line == "" || line[0] != '`'
    ensures !OpensYaml(line)
  {
    hide FenceTail;
  }

  lemma YamlFence()
    ensures OpensYaml("```yaml") && ClosesFence("```") && SingleLine("```yaml") && SingleLine("```")
  {
    assert "```yaml"[7..] == "" && "```"[3..] == "";
  }

  lemma TitleSingleLine()
    ensures SingleLine("## Execution policy")
  {
  }

  lemma NoFenceMarker(line: string)
    requires line != "" && line[0] != '`'
    ensures !ClosesFence(line)
  {
  }

  lemma SkipLine(line: string, rest: seq<string>)
    requires !OpensYaml(line)
    ensures FenceBodies([line] + rest) == FenceBodies(rest)
  {
    hide OpensYaml, CloseIndex;
    assert ([line] + rest)[1..] == rest;
  }

  lemma TakeFence(open: string, body: seq<string>, close: string, end: string)
    requires OpensYaml(open) && ClosesFence(close)
    requires forall i :: 0 <= i < |body| ==> !ClosesFence(body[i])
    ensures FenceBodies([open] + (body + [close, end])) == [body]
  {
    hide OpensYaml, ClosesFence, CloseIndex, FenceBodies;
    var tail := body + [close, end];
    var fence := [open] + tail;
    assert fence[1..] == tail && tail[|body|] == close;
    CloseIndexAt(tail, |body|);
    FenceAt(fence, |body|);
    assert fence[1..1 + |body|] == body;
    ShortText(fence[|body| + 2..]);
  }

  lemma FenceAt(lines: seq<string>, k: nat)
    requires k + 2 <= |lines| && OpensYaml(lines[0]) && CloseIndex(lines[1..]) == k
    ensures FenceBodies(lines) == [lines[1..1 + k]] + FenceBodies(lines[k + 2..])
  {
    hide OpensYaml, ClosesFence, CloseIndex;
  }

  lemma ShortText(lines: seq<string>)
    requires |lines| < 2
    ensures FenceBodies(lines) == []
  {
  }

  lemma OneFence(title: string, gap: string, open: string, body: seq<string>, close: string, end: string)
    requires !OpensYaml(title) && !OpensYaml(gap) && OpensYaml(open) && ClosesFence(close)
    requires forall i :: 0 <= i < |body| ==> !ClosesFence(body[i])
    ensures FenceBodies([title, gap, open] + body + [close, end]) == [body]
  {
    hide OpensYaml, ClosesFence, FenceBodies;
    var fence := [open] + (body + [close, end]);
    assert [title, gap, open] + body + [close, end] == [title] + ([gap] + fence);
    SkipLine(title, [gap] + fence);
    SkipLine(gap, fence);
    TakeFence(open, body, close, end);
  }

  lemma {:induction false} NoMoreHeads(lines: seq<string>, from: nat, isHead: string -> bool)
    requires from <= |lines|
    requires forall i :: from <= i < |lines| ==> !isHead(lines[i])
    ensures HeadsOf(lines, from, isHead) == []
    decreases |lines| - from
  {
    if from < |lines| {
      NoMoreHeads(lines, from + 1, isHead);
    }
  }

  lemma OneHead(lines: seq<string>, isHead: string -> bool)
    requires lines != [] && isHead(lines[0])
    requires forall i :: 0 < i < |lines| ==> !isHead(lines[i])
    ensures HeadsOf(lines, 0, isHead) == [Block(lines, 0)]
  {
    NoMoreHeads(lines, 1, isHead);
  }

  lemma SingleLineHasNoNewline(s: string)
    requires SingleLine(s)
    ensures '\n' !in s
  {
  }

  /** The rendered text contains exactly one block, and its lines are the body lines. */
  lemma RenderedBlock(p: Policy)
    requires Normal(p) && OneLineTexts(p)
    ensures Blocks(FenceBodies(Split(Join(RenderLines(p), "\n"), '\n')), IsPolicyHead) == [Block(BodyLines(p), 0)]
  {
    hide OpensYaml, ClosesFence, SingleLine, KeyValue, IsPolicyHead, BodyLines, Normal, OneLineTexts, Split, Join,
      FenceBodies, SplitLines, Unlines, HeadsOf, HeaderLine;
    var lines, body := RenderLines(p), BodyLines(p);
    FenceMarkers();
    BodyLinesShape(p);
    BodyLinesOfRows(p);
    forall i | 0 <= i < |lines| ensures '\n' !in lines[i] {
      assert SingleLine(lines[i]);
      SingleLineHasNoNewline(lines[i]);
    }
    SplitJoin(lines, '\n');
    forall i | 0 <= i < |body| ensures !ClosesFence(body[i]) {
      NoFenceMarker(body[i]);
    }
    OneFence("## Execution policy", "", "```yaml", body, "```", "");
    assert lines == ["## Execution policy", "", "```yaml"] + body + ["```", ""];
    SplitLinesUnlines(body);
    HeadLine();
    OneHead(body, IsPolicyHead);
    assert [body][1..] == [];
    assert Blocks([], IsPolicyHead) == [];
    assert Blocks([body], IsPolicyHead) == [Block(body, 0)] + [];
  }

  lemma OneLineReadsBack(v: Value, judge: Judgement, required: bool)
    requires Validate(v, judge).Ok? && Normal(Validate(v, judge).value)
    requires OneLineTexts(Validate(v, judge).value)
    ensures ReadPolicy(Render(v, judge).value, required, judge) == Ok(Some(ToDict(Validate(v, judge).value)))
  {
    hide Normal, OneLineTexts, BodyLines, Join, Split, FenceBodies, Blocks, RowOk, RenderLines, ReadLines, Validate,
      IsPolicyHead, HeaderLine, BodyRows, ReadRows, ToDict, Assemble, KeyValue, LineOf, CountSpaces;
    var p := Validate(v, judge).value;
    RenderedBlock(p);
    BodyLinesOfRows(p);
    BodyRowsOk(p);
    HeadLine();
    var body := BodyLines(p);
    assert body[1..] == LinesOf(BodyRows(p));
    ReadLinesOfRows(BodyRows(p), FRESH_READER);
    ReadBodyRows(p);
    ValidateIdempotent(v, judge);
  }

  // ---------------------------------------------------------------- the converse

  ghost predicate OneLineEntries(m: Entries) {
    forall k :: k in m && m[k].Str? ==> SingleLine(m[k].s)
  }

  /** Every text that the reader has taken from a line is a single line. */
  ghost predicate OneLineReader(r: Reader) {
    && Escalation !in r.policy && ChildDelegation !in r.policy
    && (r.escalation.Some? ==> OneLineEntries(r.escalation.value))
    && (r.child.Some? ==> OneLineEntries(r.child.value))
  }

  lemma SliceSingleLine(s: string, a: nat, b: nat)
    requires SingleLine(s) && a <= b <= |s|
    ensures SingleLine(s[a..b])
  {
    hide IsLineBreak;
  }

  lemma KeyValueOneLine(line: string)
    requires SingleLine(line) && KeyValue(line).Some?
    ensures SingleLine(KeyValue(line).value.1)
  {
    hide KeyOf, Trim, CountSpaces, KeySpan, SingleLine, Trimmed;
    var n := CountSpaces(line);
    var rest := line[n..];
    var k := n + KeySpan(rest) + 1;
    var after := rest[KeySpan(rest) + 1..];
    assert after == line[k..|line|];
    SliceSingleLine(line, k, |line|);
    TrimIsTrimmed(after, IsBlank);
    var a, b :| 0 <= a <= b <= |after| && Trim(after, IsBlank) == after[a..b];
    SliceSingleLine(after, a, b);
  }

  lemma ReadFieldOneLine(r: Reader, nested: bool, key: Key, text: string)
    requires OneLineReader(r) && SingleLine(text)
    ensures var next := if nested then ReadNested(r, key, text) else ReadTop(r, key, text);
      next.Ok? ==> OneLineReader(next.value)
  {
    hide SingleLine, ChildValue, NumberOrText;
    ChildValueText(key, text);
  }

  lemma ChildValueText(key: Key, text: string)
    ensures ChildValue(key, text).Str? ==> ChildValue(key, text).s == text
  {
    hide Json.Load, NumberOf, IsNumber;
  }

  lemma {:induction false} ReadLinesOneLine(lines: seq<string>, base: nat, r: Reader)
    requires forall i :: 0 <= i < |lines| ==> SingleLine(lines[i])
    requires OneLineReader(r)
    ensures ReadLines(lines, base, r).Ok? ==> OneLineReader(ReadLines(lines, base, r).value)
  {
    hide SingleLine, OneLineReader, KeyValue, Strip, ReadTop, ReadNested;
    if lines != [] {
      var line := lines[0];
      if Strip(line) == "" {
        ReadLinesOneLine(lines[1..], base, r);
      } else if KeyValue(line).Some? {
        KeyValueOneLine(line);
        var (key, text) := KeyValue(line).value;
        ReadFieldOneLine(r, CountSpaces(line) != base + 2, key, text);
        var step := if CountSpaces(line) == base + 2 then ReadTop(r, key, text) else ReadNested(r, key, text);
        if step.Ok? {
          ReadLinesOneLine(lines[1..], base, step.value);
        }
      }
    }
  }

  lemma {:induction false} BlocksOneLine(bodies: seq<seq<string>>, isHead: string -> bool, b: nat, i: nat)
    requires b < |Blocks(bodies, isHead)| && i < |Blocks(bodies, isHead)[b].lines|
    ensures SingleLine(Blocks(bodies, isHead)[b].lines[i])
  {
    hide SingleLine, Unlines;
    if bodies != [] {
      var heads := HeadsOf(SplitLines(Unlines(bodies[0])), 0, isHead);
      if b >= |heads| {
        BlocksOneLine(bodies[1..], isHead, b - |heads|, i);
      }
    }
  }

  lemma FreshOneLine()
    ensures OneLineReader(FRESH_READER)
  {
  }

  /** A document read from any text holds only single-line free texts. */
  lemma ReadBlockOneLine(block: Block, judge: Judgement, p: Policy)
    requires block.start < |block.lines| && forall i :: 0 <= i < |block.lines| ==> SingleLine(block.lines[i])
    requires Normal(p) && ReadBlock(block, judge) == Ok(ToDict(p))
    ensures OneLineTexts(p)
  {
    hide SingleLine, Validate, ReadLines, CountSpaces, Strip, NormalDelegation;
    FreshOneLine();
    ReadLinesOneLine(block.lines[block.start + 1..], CountSpaces(block.lines[block.start]), FRESH_READER);
    var r := ReadLines(block.lines[block.start + 1..], CountSpaces(block.lines[block.start]), FRESH_READER).value;
    var document, expected := Assemble(r), ToDict(p).entries;
    assert document == expected;
    if p.escalationTrigger.Some? {
      assert Get(document, Escalation) == Get(expected, Escalation);
      assert r.escalation.Some? && r.escalation.value[Trigger] == Str(p.escalationTrigger.value);
    }
    if p.childDelegation.Some? {
      assert Get(document, ChildDelegation) == Get(expected, ChildDelegation);
      assert r.child == p.childDelegation;
      DelegationOneLine(p.childDelegation.value);
    }
  }

  lemma DelegationOneLine(m: Entries)
    requires NormalDelegation(m) && OneLineEntries(m)
    ensures OneLineDelegation(m)
  {
    hide Strip, SingleLine;
  }

  /**
   The printer and the parser are inverse exactly on the policies whose free texts
   (escalation trigger, role, cost justification, task boundary, output contract) are single lines.
   */
  lemma RoundTrip(v: Value, judge: Judgement, required: bool)
    requires Validate(v, judge).Ok?
    ensures Normal(Validate(v, judge).value)
    ensures ReadPolicy(Render(v, judge).value, required, judge) == Ok(Some(ToDict(Validate(v, judge).value)))
            <==> OneLineTexts(Validate(v, judge).value)
  {
    hide Validate, Normal, OneLineTexts, SingleLine, RenderLines, Join, ReadBlock, Blocks, FenceBodies, Split,
      IsPolicyHead;
    ValidateIdempotent(v, judge);
    var p := Validate(v, judge).value;
    var text := Render(v, judge).value;
    if OneLineTexts(p) {
      OneLineReadsBack(v, judge, required);
    }
    if ReadPolicy(text, required, judge) == Ok(Some(ToDict(p))) {
      var bodies := FenceBodies(Split(text, '\n'));
      var block := Blocks(bodies, IsPolicyHead)[0];
      forall i | 0 <= i < |block.lines| ensures SingleLine(block.lines[i]) {
        BlocksOneLine(bodies, IsPolicyHead, 0, i);
      }
      ReadBlockOneLine(block, judge, p);
    }
  }

  /** A policy whose escalation trigger spans two lines. */
  const TWO_LINE_TRIGGER: Value := Dict(map[
    Profile := Str(PROFILE_NAMES[0]), ParentSessions := Int(1), ChildSessions := Int(0),
    Escalation := Dict(map[Trigger := Str("a\nb"), Profile := Str(PROFILE_NAMES[2])])])

  lemma TwoLineEscalation()
    ensures ValidateEscalation(TWO_LINE_TRIGGER.entries[Escalation], PROFILE_NAMES[0]) ==
      Ok(Some(("a\nb", PROFILE_NAMES[2])))
  {
    var e := TWO_LINE_TRIGGER.entries[Escalation].entries;
    assert e.Keys == {Trigger, Profile};
    assert Strip("a\nb") == "a\nb";
    assert PROFILE_NAMES[2] in PROFILE_NAMES && PROFILE_NAMES[0] != PROFILE_NAMES[2];
  }

  lemma TwoLineTriggerValid(judge: Judgement)
    ensures Validate(TWO_LINE_TRIGGER, judge).Ok?
    ensures Validate(TWO_LINE_TRIGGER, judge).value.escalationTrigger == Some("a\nb")
  {
    hide ValidateDelegation, ValidateEscalation, Strip;
    var m := TWO_LINE_TRIGGER.entries;
    assert m.Keys == {Profile, ParentSessions, ChildSessions, Escalation};
    assert PROFILE_NAMES[0] in PROFILE_NAMES;
    TwoLineEscalation();
    NoDelegation(judge);
  }

  lemma NoDelegation(judge: Judgement)
    ensures ValidateDelegation(Null, judge) == Ok(None)
  {
  }

  /** A text with a line break in the middle is valid but does not read back. */
  lemma TwoLineTriggerIsLost(judge: Judgement, required: bool)
    ensures Validate(TWO_LINE_TRIGGER, judge).Ok?
    ensures ReadPolicy(Render(TWO_LINE_TRIGGER, judge).value, required,
      judge) != Ok(Some(ToDict(Validate(TWO_LINE_TRIGGER, judge).value)))
  {
    hide Validate, Render, ReadPolicy, ToDict, Normal;
    TwoLineTriggerValid(judge);
    RoundTrip(TWO_LINE_TRIGGER, judge, required);
    assert "a\nb"[1] == '\n' && IsLineBreak("a\nb"[1]);
  }
}
