/**
 Repository-relative paths and the mutation policy of src/development_conveyor/contracts.py,
 on the POSIX reading of paths: a path is its `/`-separated components.
 */
module PathPolicy {
  import opened Prelude
  import opened Sequences
  import opened Text

  datatype PathError = UnsafePath(path: string) | DeniedPaths(paths: seq<string>) |
    UnauthorizedPaths(paths: seq<string>)

  // ---------------------------------------------------------------- PurePosixPath

  predicate IsAbsolute(value: string) {
    value != "" && value[0] == '/'
  }

  /** The components that `PurePosixPath` keeps: neither empty nor `.`. */
  function Kept(parts: seq<string>): (kept: seq<string>)
    ensures forall x :: x in kept ==> x in parts && x != "" && x != "."
  {
    if parts == [] then []
    else if parts[0] == "" || parts[0] == "." then Kept(parts[1..])
    else [parts[0]] + Kept(parts[1..])
  }

  function Components(value: string): seq<string> {
    Kept(Split(value, '/'))
  }

  /** `as_posix` of a relative path. */
  function AsPosix(value: string): string {
    if Components(value) == [] then "." else Join(Components(value), "/")
  }

  predicate IsSafe(value: string) {
    value != "" && !IsAbsolute(value) && ".." !in Components(value) && AsPosix(value) == value
  }

  /** The components of a path that names something: non-empty, without `.`, `..`, `/`. */
  ghost predicate ProperComponents(parts: seq<string>) {
    forall x :: x in parts ==> x != "" && x != "." && x != ".." && '/' !in x
  }

  lemma {:induction false} KeptAll(parts: seq<string>)
    requires forall x :: x in parts ==> x != "" && x != "."
    ensures Kept(parts) == parts
  {
    if parts != [] {
      assert forall x :: x in parts[1..] ==> x in parts;
      KeptAll(parts[1..]);
      assert parts[0] in parts;
      assert parts == [parts[0]] + parts[1..];
    }
  }

  /**
   The accepted paths are exactly `.` and the slash-joined sequences of proper components:
   no empty component, no `.`, no `..`, no leading or trailing slash.
   */
  lemma SafeIffJoined(value: string)
    ensures IsSafe(value) <==>
      var parts := Components(value);
      value == "." || (parts != [] && ProperComponents(parts) && value == Join(parts, "/"))
    ensures IsSafe(value) && value != "." ==> Split(value, '/') == Components(value)
  {
    var parts := Split(value, '/');
    var kept := Components(value);
    if value == "." {
      assert Split("", '/') == [""];
      assert parts == ["."];
    } else if kept != [] && value == Join(kept, "/") {
      forall x | x in kept ensures '/' !in x {
        assert x in parts;
      }
      SplitJoin(kept, '/');
      assert parts == kept;
      if IsAbsolute(value) {
        SplitAbsolute(value);
      }
      if ".." in kept {
        assert !ProperComponents(kept);
      }
    }
  }

  lemma SplitAbsolute(value: string)
    requires IsAbsolute(value)
    ensures Split(value, '/')[0] == ""
  {
  }

  /** A path is safe exactly when it is the join of some proper components (or `.`). */
  lemma SafeIffSomeJoin(value: string)
    ensures IsSafe(value) <==>
      value == "." || exists parts :: parts != [] && ProperComponents(parts) && value == Join(parts, "/")
  {
    SafeIffJoined(value);
    if value != "." {
      forall parts | parts != [] && ProperComponents(parts) && value == Join(parts, "/")
        ensures Components(value) == parts
      {
        SplitJoin(parts, '/');
        KeptAll(parts);
      }
    }
  }

  // ---------------------------------------------------------------- prefixes

  /** `path == prefix or path.startswith(prefix + "/")`. */
  predicate UnderPrefix(path: string, prefix: string) {
    path == prefix || prefix + "/" <= path
  }

  lemma JoinFirst(first: string, rest: seq<string>)
    requires rest != []
    ensures Join([first] + rest, "/") == first + "/" + Join(rest, "/")
  {
    assert ([first] + rest)[1..] == rest;
  }

  lemma JoinOne(first: string)
    ensures Join([first], "/") == first
  {
  }

  lemma {:induction false} JoinAppend(a: seq<string>, b: seq<string>)
    requires a != [] && b != []
    ensures Join(a + b, "/") == Join(a, "/") + "/" + Join(b, "/")
  {
    hide Join;
    JoinFirst(a[0], a[1..] + b);
    assert a + b == [a[0]] + (a[1..] + b);
    if |a| == 1 {
      JoinOne(a[0]);
      assert a == [a[0]] && a[1..] + b == b;
    } else {
      JoinAppend(a[1..], b);
      JoinFirst(a[0], a[1..]);
      assert a == [a[0]] + a[1..];
      assert a[0] + "/" + (Join(a[1..], "/") + "/" + Join(b, "/")) ==
        a[0] + "/" + Join(a[1..], "/") + "/" + Join(b, "/");
    }
  }

  lemma SplitStep(text: string, sep: char)
    requires text != ""
    ensures var rest := Split(text[1..], sep);
      Split(text, sep) == if text[0] == sep then [""] + rest else [[text[0]] + rest[0]] + rest[1..]
  {
  }

  lemma {:induction false} SplitAppend(a: string, b: string)
    ensures Split(a + "/" + b, '/') == Split(a, '/') + Split(b, '/')
  {
    hide Split;
    var text := a + "/" + b;
    SplitStep(text, '/');
    if a == "" {
      assert text[1..] == b;
      EmptySplit();
    } else {
      assert text[1..] == a[1..] + "/" + b;
      SplitAppend(a[1..], b);
      SplitStep(a, '/');
      var rest := Split(a[1..], '/');
      assert (rest + Split(b, '/'))[1..] == rest[1..] + Split(b, '/');
    }
  }

  lemma EmptySplit()
    ensures Split("", '/') == [""]
  {
  }

  lemma DotComponents()
    ensures Components(".") == [] && Split(".", '/') == ["."]
  {
    assert Split("", '/') == [""];
  }

  lemma NoDotComponent(value: string)
    ensures "." !in Components(value)
  {
  }

  lemma StringPrefixGivesComponents(path: string, prefix: string)
    requires IsSafe(path) && IsSafe(prefix) && prefix + "/" <= path
    ensures prefix != "." && Components(prefix) <= Components(path)
  {
    hide Split, Components, IsSafe, ProperComponents, Join;
    SafeIffJoined(path);
    SafeIffJoined(prefix);
    DotComponents();
    NoDotComponent(path);
    var rest := path[|prefix| + 1..];
    assert path == prefix + "/" + rest;
    SplitAppend(prefix, rest);
    SafeNotEmpty(prefix);
    assert |path| >= 2 && path != ".";
    var parts := Split(prefix, '/');
    assert Components(path) == parts + Split(rest, '/');
    assert forall x :: x in parts ==> x in parts + Split(rest, '/');
  }

  lemma SafeNotEmpty(value: string)
    requires IsSafe(value)
    ensures value != ""
  {
  }

  lemma ComponentsGiveStringPrefix(path: string, prefix: string)
    requires IsSafe(path) && IsSafe(prefix) && prefix != "." && Components(prefix) <= Components(path)
    ensures UnderPrefix(path, prefix)
  {
    hide Split, Components, IsSafe, ProperComponents, Join;
    SafeIffJoined(path);
    SafeIffJoined(prefix);
    DotComponents();
    var p, q := Components(path), Components(prefix);
    var b := p[|q|..];
    assert p == q + b;
    if b == [] {
      assert p == q;
    } else {
      JoinAppend(q, b);
    }
  }

  /**
   The string test for prefixes is the component-wise one, for every accepted path and prefix
   but the prefix `.`, which covers only `.` itself.
   */
  lemma UnderPrefixIffComponents(path: string, prefix: string)
    requires IsSafe(path) && IsSafe(prefix)
    ensures prefix != "." ==> (UnderPrefix(path, prefix) <==> Components(prefix) <= Components(path))
    ensures prefix == "." ==> (UnderPrefix(path, prefix) <==> path == ".")
  {
    hide Components, IsSafe;
    if prefix + "/" <= path {
      StringPrefixGivesComponents(path, prefix);
    }
    if prefix != "." && Components(prefix) <= Components(path) {
      ComponentsGiveStringPrefix(path, prefix);
    }
  }

  // ---------------------------------------------------------------- the policy

  datatype MutationPolicy = MutationPolicy(
    allowedPaths: seq<string>,
    allowedPrefixes: seq<string>,
    deniedPaths: seq<string>,
    deniedPrefixes: seq<string>)

  function DropTrailingSlashes(s: string): string {
    DropTrailing(s, c => c == '/')
  }

  predicate AllSafe(paths: seq<string>) {
    forall i :: 0 <= i < |paths| ==> IsSafe(paths[i])
  }

  function WithoutTrailingSlashes(paths: seq<string>): seq<string> {
    seq(|paths|, i requires 0 <= i < |paths| => DropTrailingSlashes(paths[i]))
  }

  /** What `__post_init__` accepts. */
  predicate WellFormed(policy: MutationPolicy) {
    && AllSafe(policy.allowedPaths) && SortedSet(policy.allowedPaths) == policy.allowedPaths
    && AllSafe(WithoutTrailingSlashes(policy.allowedPrefixes))
    && SortedSet(WithoutTrailingSlashes(policy.allowedPrefixes)) == policy.allowedPrefixes
    && AllSafe(policy.deniedPaths) && SortedSet(policy.deniedPaths) == policy.deniedPaths
    && AllSafe(WithoutTrailingSlashes(policy.deniedPrefixes))
    && SortedSet(WithoutTrailingSlashes(policy.deniedPrefixes)) == policy.deniedPrefixes
  }

  predicate Covered(path: string, paths: seq<string>, prefixes: seq<string>) {
    path in paths || exists i :: 0 <= i < |prefixes| && UnderPrefix(path, prefixes[i])
  }

  function FirstUnsafe(paths: seq<string>): (path: Option<string>)
    ensures path.None? <==> AllSafe(paths)
  {
    if paths == [] then None
    else if !IsSafe(paths[0]) then Some(paths[0])
    else
      var rest := FirstUnsafe(paths[1..]);
      assert rest.Some? ==> !AllSafe(paths) by {
        if rest.Some? {
          var i :| 0 <= i < |paths[1..]| && !IsSafe(paths[1..][i]);
          assert !IsSafe(paths[i + 1]);
        }
      }
      rest
  }

  function Validate(policy: MutationPolicy, paths: seq<string>): Result<seq<string>, PathError> {
    if FirstUnsafe(paths).Some? then Err(UnsafePath(FirstUnsafe(paths).value))
    else
      var observed := SortedSet(paths);
      var denied := Filter(observed, path => Covered(path, policy.deniedPaths, policy.deniedPrefixes));
      if denied != [] then Err(DeniedPaths(denied))
      else
        var unauthorized := Filter(observed, path => !Covered(path, policy.allowedPaths, policy.allowedPrefixes));
        if unauthorized != [] then Err(UnauthorizedPaths(unauthorized))
        else Ok(observed)
  }

  // ---------------------------------------------------------------- what the policy decides

  /** A path at or below a listed prefix, component by component. */
  ghost predicate CoveredByComponents(path: string, paths: seq<string>, prefixes: seq<string>) {
    || path in paths
    || exists i :: 0 <= i < |prefixes| &&
         (if prefixes[i] == "." then path == "." else Components(prefixes[i]) <= Components(path))
  }

  lemma CoveredIffComponents(path: string, paths: seq<string>, prefixes: seq<string>)
    requires IsSafe(path) && AllSafe(prefixes)
    ensures Covered(path, paths, prefixes) <==> CoveredByComponents(path, paths, prefixes)
  {
    forall i | 0 <= i < |prefixes|
      ensures UnderPrefix(path, prefixes[i]) <==>
        (if prefixes[i] == "." then path == "." else Components(prefixes[i]) <= Components(path))
    {
      UnderPrefixIffComponents(path, prefixes[i]);
    }
  }

  /** The prefixes of an accepted policy are themselves safe paths. */
  lemma PrefixesSafe(prefixes: seq<string>)
    requires AllSafe(WithoutTrailingSlashes(prefixes)) && SortedSet(WithoutTrailingSlashes(prefixes)) == prefixes
    ensures AllSafe(prefixes)
  {
    var normalized := WithoutTrailingSlashes(prefixes);
    forall i | 0 <= i < |prefixes| ensures IsSafe(prefixes[i]) {
      assert prefixes[i] in normalized;
    }
  }

  /**
   `validate` succeeds exactly when every path is safe, allowed, and not denied, component-wise.
   Its result is sorted and duplicate-free, holds exactly the given paths, and validates to itself.
   */
  lemma ValidateDecides(policy: MutationPolicy, paths: seq<string>)
    requires WellFormed(policy)
    ensures Validate(policy, paths).Ok? <==>
      forall path :: path in paths ==>
        && IsSafe(path)
        && CoveredByComponents(path, policy.allowedPaths, policy.allowedPrefixes)
        && !CoveredByComponents(path, policy.deniedPaths, policy.deniedPrefixes)
    ensures Validate(policy, paths).Ok? ==>
      var observed := Validate(policy, paths).value;
      && Sorted(observed) && Distinct(observed)
      && (forall x :: x in observed <==> x in paths)
      && Validate(policy, observed) == Ok(observed)
  {
    hide IsSafe, Covered, CoveredByComponents, SortedSet;
    PrefixesSafe(policy.allowedPrefixes);
    PrefixesSafe(policy.deniedPrefixes);
    forall path | path in paths && IsSafe(path)
      ensures Covered(path, policy.allowedPaths, policy.allowedPrefixes)
        <==> CoveredByComponents(path, policy.allowedPaths, policy.allowedPrefixes)
      ensures Covered(path, policy.deniedPaths, policy.deniedPrefixes)
        <==> CoveredByComponents(path, policy.deniedPaths, policy.deniedPrefixes)
    {
      CoveredIffComponents(path, policy.allowedPaths, policy.allowedPrefixes);
      CoveredIffComponents(path, policy.deniedPaths, policy.deniedPrefixes);
    }
    var observed := SortedSet(paths);
    SortedSetFixedPoint(observed);
    assert AllSafe(paths) <==> forall path :: path in paths ==> IsSafe(path);
    var denied := Filter(observed, path => Covered(path, policy.deniedPaths, policy.deniedPrefixes));
    var unauthorized := Filter(observed, path => !Covered(path, policy.allowedPaths, policy.allowedPrefixes));
    assert denied == [] <==> forall x :: x in observed ==> !Covered(x, policy.deniedPaths, policy.deniedPrefixes) by {
      EmptyIffNoMember(denied);
    }
    assert unauthorized == [] <==>
      forall x :: x in observed ==> Covered(x, policy.allowedPaths, policy.allowedPrefixes) by {
      EmptyIffNoMember(unauthorized);
    }
    assert AllSafe(paths) ==> AllSafe(observed);
  }
}
