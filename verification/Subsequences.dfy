/** Subsequences: what is left of a sequence when some of its elements are deleted. */
module Subsequences {

  /** s can be got from t by deleting elements of t. */
  ghost predicate Subsequence<T>(s: seq<T>, t: seq<T>)
    decreases |t|
  {
    || s == []
    || (t != [] && Subsequence(s, t[..|t| - 1]))
    || (t != [] && s[|s| - 1] == t[|t| - 1] && Subsequence(s[..|s| - 1], t[..|t| - 1]))
  }

  lemma {:induction false} SubsequenceIsNoLonger<T>(s: seq<T>, t: seq<T>)
    requires Subsequence(s, t)
    ensures |s| <= |t|
    ensures |s| == |t| ==> s == t
    decreases |t|
  {
    if s != [] {
      if Subsequence(s, t[..|t| - 1]) {
        SubsequenceIsNoLonger(s, t[..|t| - 1]);
      } else {
        SubsequenceIsNoLonger(s[..|s| - 1], t[..|t| - 1]);
        assert s == s[..|s| - 1] + [s[|s| - 1]];
        assert t == t[..|t| - 1] + [t[|t| - 1]];
      }
    }
  }

  lemma {:induction false} SubsequenceReflexive<T>(s: seq<T>)
    ensures Subsequence(s, s)
    decreases |s|
  {
    if s != [] {
      SubsequenceReflexive(s[..|s| - 1]);
    }
  }

  /** Dropping the last element of a subsequence leaves a subsequence. */
  lemma {:induction false} SubsequenceOfInit<T>(s: seq<T>, t: seq<T>)
    requires s != [] && t != [] && Subsequence(s, t)
    ensures Subsequence(s[..|s| - 1], t[..|t| - 1])
    decreases |t|
  {
    if Subsequence(s, t[..|t| - 1]) {
      SubsequenceInitOfLeft(s, t[..|t| - 1]);
    }
  }

  lemma {:induction false} SubsequenceInitOfLeft<T>(s: seq<T>, t: seq<T>)
    requires s != [] && Subsequence(s, t)
    ensures Subsequence(s[..|s| - 1], t)
    decreases |t|
  {
    if Subsequence(s, t[..|t| - 1]) {
      SubsequenceInitOfLeft(s, t[..|t| - 1]);
    }
  }

  lemma {:induction false} SubsequenceTransitive<T>(r: seq<T>, s: seq<T>, t: seq<T>)
    requires Subsequence(r, s) && Subsequence(s, t)
    ensures Subsequence(r, t)
    decreases |t|
  {
    if r != [] {
      if Subsequence(s, t[..|t| - 1]) {
        SubsequenceTransitive(r, s, t[..|t| - 1]);
      } else if Subsequence(r, s[..|s| - 1]) {
        SubsequenceTransitive(r, s[..|s| - 1], t[..|t| - 1]);
      } else {
        SubsequenceTransitive(r[..|r| - 1], s[..|s| - 1], t[..|t| - 1]);
      }
    }
  }

  lemma {:induction false} SubsequenceOfConcat<T>(s: seq<T>, t: seq<T>)
    ensures Subsequence(s, s + t) && Subsequence(t, s + t)
    decreases |t|
  {
    if t == [] {
      SubsequenceReflexive(s);
      assert s + t == s;
    } else {
      var init := t[..|t| - 1];
      SubsequenceOfConcat(s, init);
      assert (s + t)[..|s + t| - 1] == s + init;
    }
  }

  /** Subsequences of two sequences, one after the other. */
  lemma {:induction false} SubsequenceOfBoth<T>(s: seq<T>, t: seq<T>, more: seq<T>)
    requires Subsequence(s, t)
    ensures Subsequence(s + more, t + more)
    decreases |more|
  {
    if more == [] {
      assert s + more == s && t + more == t;
    } else {
      var init := more[..|more| - 1];
      SubsequenceOfBoth(s, t, init);
      assert (s + more)[..|s + more| - 1] == s + init;
      assert (t + more)[..|t + more| - 1] == t + init;
    }
  }
}
