/** Spans of instants (internal/campaign/schedule.go): merge and intersect. */
module Intervals {
  import opened Util

  /** A half-open span [from, to) of instants. */
  datatype Span = Span(from: int, to: int)

  /** The spans the schedule makes are never empty. */
  type Interval = s: Span | s.from < s.to witness Span(0, 1)

  predicate Has(sp: Span, x: int) { sp.from <= x < sp.to }

  ghost predicate Covers(spans: seq<Interval>, x: int) { exists i :: 0 <= i < |spans| && Has(spans[i], x) }

  /** In order, with room between them. */
  ghost predicate Canonical(spans: seq<Interval>) {
    forall i, j :: 0 <= i < j < |spans| ==> spans[i].to < spans[j].from
  }

  lemma CoversAppend(spans: seq<Interval>, sp: Interval, x: int)
    ensures Covers(spans + [sp], x) <==> Covers(spans, x) || Has(sp, x)
  {
    var all := spans + [sp];
    if Covers(spans, x) {
      var i :| 0 <= i < |spans| && Has(spans[i], x);
      assert Has(all[i], x);
    }
    if Has(sp, x) {
      assert Has(all[|spans|], x);
    }
  }

  /** A list in canonical form is determined by the instants it covers: spans cannot be
      told apart by how they were ordered or split. */
  lemma {:induction false} CanonicalFormIsUnique(a: seq<Interval>, b: seq<Interval>)
    requires Canonical(a) && Canonical(b) && forall x :: Covers(a, x) <==> Covers(b, x)
    ensures a == b
    decreases |a|
  {
    if a == [] {
      assert b != [] ==> Has(b[0], b[0].from) && Covers(b, b[0].from);
    } else {
      assert Has(a[0], a[0].from) && Covers(a, a[0].from);
      FirstSpansAgree(a, b);
      forall x
        ensures Covers(a[1..], x) <==> Covers(b[1..], x)
      {
        CoversTail(a, x);
        CoversTail(b, x);
      }
      CanonicalFormIsUnique(a[1..], b[1..]);
      assert a == [a[0]] + a[1..] && b == [b[0]] + b[1..];
    }
  }

  lemma CoversTail(a: seq<Interval>, x: int)
    requires a != [] && Canonical(a)
    ensures Canonical(a[1..])
    ensures Covers(a[1..], x) <==> Covers(a, x) && x >= a[0].to
  {
    if Covers(a, x) {
      var i :| 0 <= i < |a| && Has(a[i], x);
      if i > 0 {
        assert Has(a[1..][i - 1], x);
      }
    }
    if Covers(a[1..], x) {
      var i :| 0 <= i < |a[1..]| && Has(a[1..][i], x);
      assert Has(a[i + 1], x);
    }
  }

  lemma FirstSpanIsLeast(a: seq<Interval>, x: int)
    requires a != [] && Canonical(a) && Covers(a, x)
    ensures a[0].from <= x
  {
  }

  lemma FirstSpansAgree(a: seq<Interval>, b: seq<Interval>)
    requires a != [] && b != [] && Canonical(a) && Canonical(b) && forall x :: Covers(a, x) <==> Covers(b, x)
    ensures a[0] == b[0]
  {
    assert Has(a[0], a[0].from) && Has(b[0], b[0].from);
    FirstSpanIsLeast(a, b[0].from);
    FirstSpanIsLeast(b, a[0].from);
    FirstSpanIsNotShorter(a, b);
    FirstSpanIsNotShorter(b, a);
  }

  lemma FirstSpanIsNotShorter(a: seq<Interval>, b: seq<Interval>)
    requires a != [] && b != [] && Canonical(a) && a[0].from == b[0].from && forall x :: Covers(b, x) ==> Covers(a, x)
    ensures a[0].to >= b[0].to
  {
    var end := a[0].to;
    assert !Covers(a, end);
    assert Has(b[0], end) ==> Covers(b, end);
  }

  function From(sp: Interval): int { sp.from }

  ghost predicate SameSpans(a: seq<Interval>, b: seq<Interval>) { multiset(a) == multiset(b) }

  lemma SameSpansCoverTheSame(a: seq<Interval>, b: seq<Interval>, x: int)
    requires SameSpans(a, b)
    ensures Covers(a, x) <==> Covers(b, x)
  {
    if Covers(a, x) {
      var i :| 0 <= i < |a| && Has(a[i], x);
      assert a[i] in multiset(b);
    }
    if Covers(b, x) {
      var i :| 0 <= i < |b| && Has(b[i], x);
      assert b[i] in multiset(a);
    }
  }

  /** What joining the next span, one that starts no earlier, does to the last. */
  lemma JoinKeepsTheUnion(before: seq<Interval>, last: Interval, sp: Interval, x: int)
    requires last.from <= sp.from <= last.to
    ensures var to := if sp.to > last.to then sp.to else last.to;
            Covers(before + [Span(last.from, to)], x) <==> Covers(before + [last], x) || Has(sp, x)
  {
    CoversAppend(before, last, x);
    CoversAppend(before, Span(last.from, if sp.to > last.to then sp.to else last.to), x);
  }

  ghost predicate SameUnion(a: seq<Interval>, b: seq<Interval>) { forall x :: Covers(a, x) <==> Covers(b, x) }

  lemma UnionGrows(out: seq<Interval>, out': seq<Interval>, sorted: seq<Interval>, k: nat)
    requires k < |sorted| && SameUnion(out, sorted[..k])
    requires forall x :: Covers(out', x) <==> Covers(out, x) || Has(sorted[k], x)
    ensures SameUnion(out', sorted[..k + 1])
  {
    assert sorted[..k + 1] == sorted[..k] + [sorted[k]];
    forall x
      ensures Covers(out', x) <==> Covers(sorted[..k + 1], x)
    {
      CoversAppend(sorted[..k], sorted[k], x);
    }
  }

  /** The same instants, in canonical form. */
  method Merge(spans: seq<Interval>) returns (out: seq<Interval>)
    ensures Canonical(out) && SameUnion(out, spans)
  {
    if |spans| == 0 {
      return [];
    }
    var sorted := SortBy(spans, From);
    out := [sorted[0]];
    assert sorted[..1] == out;
    assert Ascending(sorted, From);
    for k := 1 to |sorted|
      invariant out != [] && Canonical(out) && out[|out| - 1].from <= sorted[k - 1].from
      invariant SameUnion(out, sorted[..k])
    {
      ghost var before, was := out[..|out| - 1], out;
      var sp, last := sorted[k], out[|out| - 1];
      assert out == before + [last];
      if sp.from <= last.to {
        if sp.to > last.to {
          out := out[|out| - 1 := Span(last.from, sp.to)];
          assert out == before + [Span(last.from, sp.to)];
        }
        forall x ensures Covers(out, x) <==> Covers(was, x) || Has(sp, x) {
          JoinKeepsTheUnion(before, last, sp, x);
        }
      } else {
        forall x ensures Covers(out + [sp], x) <==> Covers(was, x) || Has(sp, x) {
          CoversAppend(out, sp, x);
        }
        out := out + [sp];
      }
      UnionGrows(was, out, sorted, k);
    }
    assert sorted[..|sorted|] == sorted;
    forall x ensures Covers(out, x) <==> Covers(spans, x) {
      SameSpansCoverTheSame(spans, sorted, x);
    }
  }

  /** What two spans have in common, if anything. */
  function Common(x: Interval, y: Interval): (c: Span)
    ensures forall t :: Has(c, t) <==> Has(x, t) && Has(y, t)
  {
    Span(if y.from > x.from then y.from else x.from, if y.to < x.to then y.to else x.to)
  }

  /** The instants common to both lists, in canonical form. */
  method Intersect(a0: seq<Interval>, b0: seq<Interval>) returns (out: seq<Interval>)
    ensures Canonical(out) && forall x :: Covers(out, x) <==> Covers(a0, x) && Covers(b0, x)
  {
    var b := Merge(b0);
    var a := Merge(a0);
    out := [];
    for i := 0 to |a|
      invariant Canonical(out) && forall k :: 0 <= k < |out| && i > 0 ==> out[k].to <= a[i - 1].to
      invariant i == 0 ==> out == []
      invariant forall x :: Covers(out, x) <==> Covers(a[..i], x) && Covers(b, x)
    {
      ghost var was := out;
      assert forall k :: 0 <= k < |was| ==> was[k].to < a[i].from;
      for j := 0 to |b|
        invariant Canonical(out)
        invariant forall k :: 0 <= k < |out| ==>
                    out[k].to <= a[i].to && (out[k].to < a[i].from || (j > 0 && out[k].to <= b[j - 1].to))
        invariant forall x :: Covers(out, x) <==> Covers(was, x) || (Has(a[i], x) && Covers(b[..j], x))
      {
        ghost var had := out;
        var c := Common(a[i], b[j]);
        if c.from < c.to {
          forall x ensures Covers(out + [c], x) <==> Covers(out, x) || Has(c, x) {
            CoversAppend(out, c, x);
          }
          out := out + [c];
        }
        assert b[..j + 1] == b[..j] + [b[j]];
        forall x ensures Covers(b[..j + 1], x) <==> Covers(b[..j], x) || Has(b[j], x) {
          CoversAppend(b[..j], b[j], x);
        }
        assert forall x :: Covers(out, x) <==> Covers(had, x) || Has(c, x);
      }
      assert b[..|b|] == b;
      assert a[..i + 1] == a[..i] + [a[i]];
      forall x ensures Covers(a[..i + 1], x) <==> Covers(a[..i], x) || Has(a[i], x) {
        CoversAppend(a[..i], a[i], x);
      }
    }
    assert a[..|a|] == a;
  }
}
