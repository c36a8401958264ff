/** Small shared pieces. */
module Util {
  datatype Option<+T> = None | Some(value: T)

  function Max(x: int, y: int): int { if x > y then x else y }
  function Min(x: int, y: int): int { if x < y then x else y }

  /** No element occurs twice. */
  ghost predicate Distinct<T>(s: seq<T>) {
    forall i, j :: 0 <= i < j < |s| ==> s[i] != s[j]
  }

  /** The last n elements, or all of them. */
  function LastN<T>(s: seq<T>, n: nat): seq<T> { if |s| <= n then s else s[|s| - n..] }

  /** Some element, as ranging over a map takes its keys: in no known order. */
  method Pick<T(==)>(s: set<T>) returns (x: T)
    requires s != {}
    ensures x in s
  {
    x :| x in s;
  }

  /** The elements, each once, in some order. */
  method Listed<T(==)>(s: set<T>) returns (l: seq<T>)
    ensures Distinct(l) && forall x :: x in l <==> x in s
  {
    l := [];
    var rest := s;
    while rest != {}
      invariant Distinct(l) && rest <= s
      invariant forall x :: x in l <==> x in s && x !in rest
      decreases |rest|
    {
      var x := Pick(rest);
      rest := rest - {x};
      l := l + [x];
    }
  }

  ghost function Any<T>(s: set<T>): (x: T)
    requires s != {}
    ensures x in s
  {
    var x :| x in s;
    x
  }

  predicate Ascending<T>(s: seq<T>, key: T -> int) {
    forall i, j :: 0 <= i < j < |s| ==> key(s[i]) <= key(s[j])
  }

  /** x put in before the i-th element. */
  function Inserted<T>(s: seq<T>, i: nat, x: T): seq<T>
    requires i <= |s|
  {
    s[..i] + [x] + s[i..]
  }

  lemma InsertedInOrder<T>(s: seq<T>, i: nat, x: T, key: T -> int)
    requires Ascending(s, key) && i <= |s|
    requires i > 0 ==> key(s[i - 1]) <= key(x)
    requires i < |s| ==> key(x) <= key(s[i])
    ensures Ascending(Inserted(s, i, x), key)
  {
    var out := Inserted(s, i, x);
    forall j, k | 0 <= j < k < |out|
      ensures key(out[j]) <= key(out[k])
    {
      assert j < i ==> out[j] == s[j];
      assert k > i ==> out[k] == s[k - 1];
    }
  }

  lemma InsertedCounts<T>(s: seq<T>, i: nat, x: T)
    requires i <= |s|
    ensures multiset(Inserted(s, i, x)) == multiset(s) + multiset{x}
  {
    assert s == s[..i] + s[i..];
  }

  method Insert<T>(sorted: seq<T>, x: T, key: T -> int) returns (out: seq<T>)
    requires Ascending(sorted, key)
    ensures Ascending(out, key) && multiset(out) == multiset(sorted) + multiset{x}
  {
    var i := |sorted|;
    while i > 0 && key(sorted[i - 1]) > key(x)
      invariant 0 <= i <= |sorted|
      invariant i < |sorted| ==> key(sorted[i]) > key(x)
    {
      i := i - 1;
    }
    InsertedInOrder(sorted, i, x, key);
    InsertedCounts(sorted, i, x);
    return Inserted(sorted, i, x);
  }

  /** slices.SortFunc. Elements of one key may come in any order. */
  method SortBy<T>(s: seq<T>, key: T -> int) returns (sorted: seq<T>)
    ensures Ascending(sorted, key) && multiset(sorted) == multiset(s)
  {
    sorted := [];
    for k := 0 to |s|
      invariant Ascending(sorted, key) && multiset(sorted) == multiset(s[..k])
    {
      assert s[..k + 1] == s[..k] + [s[k]];
      sorted := Insert(sorted, s[k], key);
    }
    assert s[..|s|] == s;
  }
}
