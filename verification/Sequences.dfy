/** Filtering comprehensions over lists. */
module Sequences {

  /** `[x for x in s if p(x)]`. */
  function Filter<T(!new)>(s: seq<T>, p: T -> bool): (r: seq<T>)
    ensures |r| <= |s|
    ensures forall x :: x in r <==> x in s && p(x)
  {
    if s == [] then []
    else
      var rest := Filter(s[1..], p);
      assert s == [s[0]] + s[1..];
      if p(s[0]) then [s[0]] + rest else rest
  }

  lemma EmptyIffNoMember<T>(s: seq<T>)
    ensures s == [] <==> forall x :: x !in s
  {
    if s != [] {
      assert s[0] in s;
    }
  }

  lemma {:induction false} FilterAppend<T(!new)>(a: seq<T>, b: seq<T>, p: T -> bool)
    ensures Filter(a + b, p) == Filter(a, p) + Filter(b, p)
  {
    if a == [] {
      assert a + b == b;
    } else {
      assert (a + b)[1..] == a[1..] + b;
      FilterAppend(a[1..], b, p);
    }
  }

  lemma {:induction false} FilterNone<T(!new)>(s: seq<T>, p: T -> bool)
    requires forall i :: 0 <= i < |s| ==> !p(s[i])
    ensures Filter(s, p) == []
  {
    if s != [] {
      FilterNone(s[1..], p);
    }
  }

  /** Exactly one element satisfies the condition. */
  lemma FilterOne<T(!new)>(s: seq<T>, k: nat, p: T -> bool)
    requires k < |s| && forall i :: 0 <= i < |s| ==> (p(s[i]) <==> i == k)
    ensures Filter(s, p) == [s[k]]
  {
    var a, b := s[..k], s[k + 1..];
    assert s == a + ([s[k]] + b);
    FilterNone(a, p);
    FilterNone(b, p);
    FilterAppend(a, [s[k]] + b, p);
    FilterAppend([s[k]], b, p);
    assert Filter([s[k]], p) == [s[k]];
  }

  /** Two elements satisfy the condition. */
  lemma FilterTwo<T(!new)>(s: seq<T>, j: nat, k: nat, p: T -> bool)
    requires j < k < |s| && p(s[j]) && p(s[k])
    ensures |Filter(s, p)| > 1
  {
    var a, b := s[..k], s[k..];
    assert s == a + b && a[j] == s[j] && b[0] == s[k];
    FilterAppend(a, b, p);
    assert s[j] in Filter(a, p) && s[k] in Filter(b, p);
  }
}
