/** The two windows of a campaign's admission statistics (rangWindow and window in
    internal/campaign/capacity.go): what they hold. */
module RateWindows {
  import opened Util

  const RATE_WINDOW := 200
  const TWO_TO_16 := 0x1_0000
  const TWO_TO_64 := 0x1_0000_0000_0000_0000

  /** One attempt's answer, placed by when it was dialled; tie breaks the order of
      attempts dialled at one instant. */
  datatype Sample = Sample(at: int, tie: nat, value: bool)

  predicate Before(a: Sample, b: Sample) { if a.at == b.at then a.tie < b.tie else a.at < b.at }

  predicate InOrder(s: seq<Sample>) { forall i, j :: 0 <= i < j < |s| ==> !Before(s[j], s[i]) }

  predicate KeysDiffer(s: seq<Sample>) {
    forall i, j :: 0 <= i < j < |s| ==> Before(s[i], s[j]) || Before(s[j], s[i])
  }

  /** A linear congruential generator on 64 bits, of which the tie is the upper 48. */
  function NextState(state: nat): nat { (state * 6364136223846793005 + 1442695040888963407) % TWO_TO_64 }
  function TieOf(state: nat): nat { state / TWO_TO_16 }

  /** x after every sample it is not before. */
  function Placed(s: seq<Sample>, x: Sample): seq<Sample>
    decreases |s|
  {
    if s == [] then [x]
    else if Before(x, s[|s| - 1]) then Placed(s[..|s| - 1], x) + [s[|s| - 1]]
    else s + [x]
  }

  /** Everything ever added, in order of dialling. */
  function Sorted(s: seq<Sample>): seq<Sample>
    decreases |s|
  {
    if s == [] then [] else Placed(Sorted(s[..|s| - 1]), s[|s| - 1])
  }

  /** What a window holding held holds after x. */
  function Kept(held: seq<Sample>, x: Sample): seq<Sample> {
    if |held| == RATE_WINDOW && Before(x, held[0]) then held else LastN(Placed(held, x), RATE_WINDOW)
  }

  function Held(s: seq<Sample>): seq<Sample>
    decreases |s|
  {
    if s == [] then [] else Kept(Held(s[..|s| - 1]), s[|s| - 1])
  }

  function Trues(s: seq<Sample>): nat
    decreases |s|
  {
    if s == [] then 0 else Trues(s[..|s| - 1]) + if s[|s| - 1].value then 1 else 0
  }

  //
  // The rang window holds the samples dialled last.
  //

  lemma {:induction false} PlacedHolds(s: seq<Sample>, x: Sample)
    ensures multiset(Placed(s, x)) == multiset(s) + multiset{x} && |Placed(s, x)| == |s| + 1
    decreases |s|
  {
    if s != [] {
      assert s == s[..|s| - 1] + [s[|s| - 1]];
      if Before(x, s[|s| - 1]) {
        PlacedHolds(s[..|s| - 1], x);
      }
    }
  }

  lemma {:induction false} PlacedInOrder(s: seq<Sample>, x: Sample)
    requires InOrder(s)
    ensures InOrder(Placed(s, x))
    decreases |s|
  {
    if s != [] && Before(x, s[|s| - 1]) {
      var init, last := s[..|s| - 1], s[|s| - 1];
      var placed := Placed(init, x);
      PlacedInOrder(init, x);
      PlacedHolds(init, x);
      forall i | 0 <= i < |placed|
        ensures !Before(last, placed[i])
      {
        assert placed[i] in multiset(placed);
      }
    }
  }

  lemma {:induction false} SortedInOrder(s: seq<Sample>)
    ensures InOrder(Sorted(s)) && multiset(Sorted(s)) == multiset(s) && |Sorted(s)| == |s|
    decreases |s|
  {
    if s != [] {
      SortedInOrder(s[..|s| - 1]);
      PlacedInOrder(Sorted(s[..|s| - 1]), s[|s| - 1]);
      PlacedHolds(Sorted(s[..|s| - 1]), s[|s| - 1]);
      assert s == s[..|s| - 1] + [s[|s| - 1]];
    }
  }

  /** Where a sample goes shows at any cut: before it, or after it. */
  lemma {:induction false} PlacedAtACut(s: seq<Sample>, x: Sample, k: nat)
    requires InOrder(s) && k < |s|
    ensures Placed(s, x) == if Before(x, s[k]) then Placed(s[..k], x) + s[k..] else s[..k] + Placed(s[k..], x)
    decreases |s|
  {
    var last := |s| - 1;
    if !Before(x, s[last]) {
      PlacedAfterAll(s, x, k);
    } else if k == last {
      assert s[k..] == [s[last]];
    } else {
      PlacedAtACut(s[..last], x, k);
      PlacedBeforeTheLast(s, x, k);
    }
  }

  lemma PlacedAfterAll(s: seq<Sample>, x: Sample, k: nat)
    requires InOrder(s) && k < |s| && !Before(x, s[|s| - 1])
    ensures !Before(x, s[k]) && Placed(s, x) == s[..k] + Placed(s[k..], x)
  {
    assert !Before(s[|s| - 1], s[k]);
    assert s[..k] + (s[k..] + [x]) == s + [x];
  }

  lemma PlacedBeforeTheLast(s: seq<Sample>, x: Sample, k: nat)
    requires k < |s| - 1 && Before(x, s[|s| - 1])
    ensures var init := s[..|s| - 1];
            && init[..k] == s[..k] && init[k..] + [s[|s| - 1]] == s[k..]
            && Placed(s, x) == Placed(init, x) + [s[|s| - 1]]
            && Placed(s[k..], x) == Placed(init[k..], x) + [s[|s| - 1]]
  {
    var init := s[..|s| - 1];
    assert s[k..][..|s[k..]| - 1] == init[k..];
  }

  /** The window's step is the step of the sorted list, cut to the last RATE_WINDOW. */
  lemma KeptOfTheLast(s: seq<Sample>, x: Sample)
    requires InOrder(s)
    ensures LastN(Placed(s, x), RATE_WINDOW) == Kept(LastN(s, RATE_WINDOW), x)
  {
    PlacedHolds(s, x);
    if |s| >= RATE_WINDOW {
      var k := |s| - RATE_WINDOW;
      var held := s[k..];
      assert held == LastN(s, RATE_WINDOW) && held[0] == s[k];
      PlacedAtACut(s, x, k);
      if Before(x, s[k]) {
        PlacedHolds(s[..k], x);
        assert LastN(Placed(s[..k], x) + held, RATE_WINDOW) == held;
      } else {
        PlacedHolds(held, x);
        assert LastN(s[..k] + Placed(held, x), RATE_WINDOW) == LastN(Placed(held, x), RATE_WINDOW);
      }
    }
  }

  /** The window always holds the RATE_WINDOW samples dialled last of everything ever
      added, in order. */
  lemma {:induction false} HeldAreTheLast(s: seq<Sample>)
    ensures Held(s) == LastN(Sorted(s), RATE_WINDOW)
    decreases |s|
  {
    if s != [] {
      HeldAreTheLast(s[..|s| - 1]);
      SortedInOrder(s[..|s| - 1]);
      KeptOfTheLast(Sorted(s[..|s| - 1]), s[|s| - 1]);
    }
  }

  lemma {:induction false} OrderIsUnique(a: seq<Sample>, b: seq<Sample>)
    requires InOrder(a) && InOrder(b) && multiset(a) == multiset(b) && KeysDiffer(a)
    ensures a == b
    decreases |a|
  {
    assert |multiset(a)| == |multiset(b)|;
    if a != [] {
      LastIsTheSame(a, b);
      var a', b', x := a[..|a| - 1], b[..|b| - 1], a[|a| - 1];
      assert multiset(a') == multiset(b') by {
        WithoutTheLast(a);
        WithoutTheLast(b);
      }
      PrefixInOrder(a);
      PrefixInOrder(b);
      OrderIsUnique(a', b');
      assert a == a' + [x] && b == b' + [x];
    }
  }

  lemma PrefixInOrder(a: seq<Sample>)
    requires a != [] && InOrder(a)
    ensures InOrder(a[..|a| - 1])
    ensures KeysDiffer(a) ==> KeysDiffer(a[..|a| - 1])
  {
  }

  lemma WithoutTheLast(a: seq<Sample>)
    requires a != []
    ensures multiset(a[..|a| - 1]) == multiset(a) - multiset{a[|a| - 1]}
  {
    assert a == a[..|a| - 1] + [a[|a| - 1]];
  }

  lemma LastIsTheSame(a: seq<Sample>, b: seq<Sample>)
    requires a != [] && b != [] && InOrder(a) && InOrder(b) && multiset(a) == multiset(b) && KeysDiffer(a)
    ensures a[|a| - 1] == b[|b| - 1]
  {
    var x, y := a[|a| - 1], b[|b| - 1];
    assert x in multiset(b) && y in multiset(a);
    var i :| 0 <= i < |a| && a[i] == y;
    var j :| 0 <= j < |b| && b[j] == x;
    assert !Before(x, y) && !Before(y, x);
  }

  lemma KeysDifferInAnyOrder(a: seq<Sample>, b: seq<Sample>)
    requires KeysDiffer(a) && multiset(a) == multiset(b)
    ensures KeysDiffer(b)
  {
    forall i, j | 0 <= i < j < |b|
      ensures Before(b[i], b[j]) || Before(b[j], b[i])
    {
      assert b == b[..i] + [b[i]] + b[i + 1..j] + [b[j]] + b[j + 1..];
      assert b[i] in multiset(a) && b[j] in multiset(a);
      if b[i] == b[j] {
        assert multiset(b)[b[i]] >= 2;
        OnceOnly(a, b[i]);
        assert false;
      }
    }
  }

  lemma {:induction false} OnceOnly(a: seq<Sample>, x: Sample)
    requires KeysDiffer(a)
    ensures multiset(a)[x] <= 1
    decreases |a|
  {
    if a != [] {
      var last := |a| - 1;
      assert a == a[..last] + [a[last]];
      OnceOnly(a[..last], x);
      if a[last] == x {
        assert x !in a[..last];
        assert x !in multiset(a[..last]);
      }
    }
  }

  //
  // Arrival order. The ties are drawn as samples arrive, so the same attempts in another
  // order carry other ties.
  //

  /** The sample without its tie: the attempt it is of. */
  function Attempt(x: Sample): Sample { x.(tie := 0) }

  function Attempts(s: seq<Sample>): seq<Sample> { seq(|s|, i requires 0 <= i < |s| => Attempt(s[i])) }

  /** How many of the samples are of an attempt dialled at the instant, with the value. */
  function Count(s: seq<Sample>, at: int, value: bool): nat
    decreases |s|
  {
    if s == [] then 0
    else Count(s[..|s| - 1], at, value) + if s[|s| - 1].at == at && s[|s| - 1].value == value then 1 else 0
  }

  lemma {:induction false} CountConcat(a: seq<Sample>, b: seq<Sample>, at: int, value: bool)
    ensures Count(a + b, at, value) == Count(a, at, value) + Count(b, at, value)
    decreases |b|
  {
    if b == [] {
      assert a + b == a;
    } else {
      CountConcat(a, b[..|b| - 1], at, value);
      assert (a + b)[..|a + b| - 1] == a + b[..|b| - 1];
    }
  }

  lemma {:induction false} CountPlaced(s: seq<Sample>, x: Sample, at: int, value: bool)
    ensures Count(Placed(s, x), at, value) == Count(s + [x], at, value)
    decreases |s|
  {
    assert (s + [x])[..|s|] == s;
    if s != [] && Before(x, s[|s| - 1]) {
      var init, last := s[..|s| - 1], s[|s| - 1];
      CountPlaced(init, x, at, value);
      assert (init + [x])[..|init|] == init;
      assert (Placed(init, x) + [last])[..|Placed(init, x)|] == Placed(init, x);
    }
  }

  lemma {:induction false} CountSorted(s: seq<Sample>, at: int, value: bool)
    ensures Count(Sorted(s), at, value) == Count(s, at, value)
    decreases |s|
  {
    if s != [] {
      var init, last := s[..|s| - 1], s[|s| - 1];
      CountSorted(init, at, value);
      CountPlaced(Sorted(init), last, at, value);
      assert (Sorted(init) + [last])[..|Sorted(init)|] == Sorted(init);
    }
  }

  lemma {:induction false} NoneBefore(s: seq<Sample>, at: int, value: bool)
    requires forall i :: 0 <= i < |s| ==> s[i].at != at
    ensures Count(s, at, value) == 0
    decreases |s|
  {
    if s != [] {
      NoneBefore(s[..|s| - 1], at, value);
    }
  }

  lemma LastAreASlice(s: seq<Sample>)
    requires |s| > RATE_WINDOW
    ensures var k := |s| - RATE_WINDOW; LastN(s, RATE_WINDOW) == s[k..] && LastN(s, RATE_WINDOW)[0] == s[k]
  {
  }

  lemma TheOlderDoNotCount(sorted: seq<Sample>, k: nat, at: int, value: bool)
    requires InOrder(sorted) && k < |sorted| && at > sorted[k].at
    ensures Count(sorted[k..], at, value) == Count(sorted, at, value)
  {
    assert sorted == sorted[..k] + sorted[k..];
    assert forall i :: 0 <= i < k ==> !Before(sorted[k], sorted[i]);
    NoneBefore(sorted[..k], at, value);
    CountConcat(sorted[..k], sorted[k..], at, value);
  }

  lemma TheLastCount(sorted: seq<Sample>, held: seq<Sample>, at: int, value: bool)
    requires InOrder(sorted) && held == LastN(sorted, RATE_WINDOW)
    requires |sorted| <= RATE_WINDOW || at > held[0].at
    ensures Count(held, at, value) == Count(sorted, at, value)
  {
    if |sorted| > RATE_WINDOW {
      LastAreASlice(sorted);
      TheOlderDoNotCount(sorted, |sorted| - RATE_WINDOW, at, value);
    }
  }

  /** Whatever the ties, every sample dialled after the oldest held is held, and all are
      while they fit: of any such instant the window holds as many answered and unanswered
      attempts as were ever added. */
  lemma AllLaterSamplesAreHeld(s: seq<Sample>, held: seq<Sample>, at: int, value: bool)
    requires held == Held(s) && (|s| <= RATE_WINDOW || (held != [] && at > held[0].at))
    ensures Count(held, at, value) == Count(s, at, value)
  {
    HeldAreTheLast(s);
    SortedInOrder(s);
    CountSorted(s, at, value);
    TheLastCount(Sorted(s), held, at, value);
  }

  /** No two attempts are dialled at one instant. */
  ghost predicate InstantsDiffer(s: seq<Sample>) {
    forall i, j :: 0 <= i < j < |s| ==> s[i].at != s[j].at
  }

  /** Then the ties decide nothing: sorting commutes with forgetting them. */
  lemma {:induction false} TiesDoNotSort(s: seq<Sample>)
    requires InstantsDiffer(s)
    ensures Attempts(Sorted(s)) == Sorted(Attempts(s))
    decreases |s|
  {
    if s != [] {
      var init, last := s[..|s| - 1], s[|s| - 1];
      TiesDoNotSort(init);
      assert Attempts(s)[..|s| - 1] == Attempts(init);
      SortedInOrder(init);
      forall i | 0 <= i < |Sorted(init)|
        ensures Sorted(init)[i].at != last.at
      {
        assert Sorted(init)[i] in multiset(init);
      }
      TiesDoNotPlace(Sorted(init), last);
    }
  }

  lemma {:induction false} TiesDoNotPlace(s: seq<Sample>, x: Sample)
    requires forall i :: 0 <= i < |s| ==> s[i].at != x.at
    ensures Attempts(Placed(s, x)) == Placed(Attempts(s), Attempt(x))
    decreases |s|
  {
    if s != [] {
      var init, last := s[..|s| - 1], s[|s| - 1];
      assert Attempts(s)[..|s| - 1] == Attempts(init);
      if Before(x, last) {
        TiesDoNotPlace(init, x);
        assert Attempts(Placed(init, x) + [last]) == Attempts(Placed(init, x)) + [Attempt(last)];
      } else {
        assert Attempts(s + [x]) == Attempts(s) + [Attempt(x)];
      }
    }
  }

  /** So of attempts dialled at different instants the window holds the same ones, in the
      same order, whatever order they were added in and whatever ties that drew. */
  lemma HeldWhateverTheArrival(a: seq<Sample>, b: seq<Sample>)
    requires multiset(Attempts(a)) == multiset(Attempts(b)) && InstantsDiffer(a)
    ensures Attempts(Held(a)) == Attempts(Held(b))
  {
    assert InstantsDiffer(Attempts(a)) && KeysDiffer(Attempts(a));
    KeysDifferInAnyOrder(Attempts(a), Attempts(b));
    InstantsDifferInAnyOrder(b);
    TiesDoNotSort(a);
    TiesDoNotSort(b);
    SortedInOrder(Attempts(a));
    SortedInOrder(Attempts(b));
    KeysDifferInAnyOrder(Attempts(a), Sorted(Attempts(a)));
    OrderIsUnique(Sorted(Attempts(a)), Sorted(Attempts(b)));
    HeldAreTheLast(a);
    HeldAreTheLast(b);
    AttemptsOfTheLast(Sorted(a));
    AttemptsOfTheLast(Sorted(b));
  }

  lemma InstantsDifferInAnyOrder(b: seq<Sample>)
    requires KeysDiffer(Attempts(b))
    ensures InstantsDiffer(b)
  {
    forall i, j | 0 <= i < j < |b|
      ensures b[i].at != b[j].at
    {
      assert Attempts(b)[i].tie == Attempts(b)[j].tie == 0;
    }
  }

  lemma AttemptsOfTheLast(s: seq<Sample>)
    ensures Attempts(LastN(s, RATE_WINDOW)) == LastN(Attempts(s), RATE_WINDOW)
  {
  }

  //
  // Ties.
  //

  predicate IsState(state: nat) { state < 0x1_0000_0000_0000_0000 }

  /** Samples are ordered by instant and, of one instant, by tie: as numbers whose upper part
      is the instant and whose lower 48 bits are the tie. */
  lemma OrderIsByInstantThenTie(a: Sample, b: Sample)
    requires a.tie < 0x1_0000_0000_0000 && b.tie < 0x1_0000_0000_0000
    ensures Before(a, b) <==> a.at * 0x1_0000_0000_0000 + a.tie < b.at * 0x1_0000_0000_0000 + b.tie
  {
  }

  /** A tie is 48 bits wide, and no more than 65,536 neighbouring states share one. */
  lemma TiesTellStatesApart(x: nat, y: nat)
    requires IsState(x) && IsState(y)
    ensures TieOf(x) < 0x1_0000_0000_0000
    ensures TieOf(x) == TieOf(y) ==> -0x1_0000 < x - y < 0x1_0000
    ensures x + 0x1_0000 <= y ==> TieOf(x) < TieOf(y)
  {
  }

  /** The generator's inverse, modulo 2^64. */
  const INVERSE := 13877824140714322085

  lemma MultipleIsZero(d: int, k: int)
    requires d == k * TWO_TO_64 && -TWO_TO_64 < d < TWO_TO_64
    ensures d == 0
  {
  }

  /** The generator never brings two states together, so every draw of a burst has its own. */
  lemma StatesNeverMerge(x: nat, y: nat)
    requires IsState(x) && IsState(y) && NextState(x) == NextState(y)
    ensures x == y
  {
    var ax, ay := x * 6364136223846793005 + 1442695040888963407, y * 6364136223846793005 + 1442695040888963407;
    var q := ax / TWO_TO_64 - ay / TWO_TO_64;
    assert (x - y) * 6364136223846793005 == q * TWO_TO_64;
    assert INVERSE * 6364136223846793005 == 4787856489426250814 * TWO_TO_64 + 1;
    MultipleIsZero(x - y, INVERSE * q - 4787856489426250814 * (x - y));
  }

  //
  // The window itself.
  //

  lemma {:induction false} TruesConcat(a: seq<Sample>, b: seq<Sample>)
    ensures Trues(a + b) == Trues(a) + Trues(b)
    decreases |b|
  {
    if b == [] {
      assert a + b == a;
    } else {
      TruesConcat(a, b[..|b| - 1]);
      assert (a + b)[..|a + b| - 1] == a + b[..|b| - 1];
    }
  }

  lemma TruesOne(x: Sample)
    ensures Trues([x]) == if x.value then 1 else 0
  {
    assert [x][..0] == [];
  }

  lemma TruesSplit(a: seq<Sample>, x: Sample, b: seq<Sample>)
    ensures Trues(a + [x] + b) == Trues(a + b) + if x.value then 1 else 0
  {
    TruesOne(x);
    TruesConcat(a, [x]);
    TruesConcat(a + [x], b);
    TruesConcat(a, b);
  }

  lemma {:induction false} PlacedAt(s: seq<Sample>, x: Sample, i: nat)
    requires i <= |s| && (forall j :: 0 <= j < i ==> !Before(x, s[j])) && (forall j :: i <= j < |s| ==> Before(x, s[j]))
    ensures Placed(s, x) == s[..i] + [x] + s[i..]
    decreases |s|
  {
    if i < |s| {
      var last := |s| - 1;
      PlacedAt(s[..last], x, i);
      assert s[..last][..i] == s[..i] && s[..last][i..] + [s[last]] == s[i..];
    } else {
      assert s[..i] == s && s[i..] == [];
    }
  }

  lemma InsertedAt(s: seq<Sample>, x: Sample, i: nat)
    requires InOrder(s) && |s| <= RATE_WINDOW && !(|s| == RATE_WINDOW && Before(x, s[0]))
    requires i <= |s| && (forall j :: 0 <= j < i ==> !Before(x, s[j])) && (forall j :: i <= j < |s| ==> Before(x, s[j]))
    ensures var all := s[..i] + [x] + s[i..];
            && InOrder(all) && |all| == |s| + 1 && Trues(all) == Trues(s) + (if x.value then 1 else 0)
            && Kept(s, x) == if |all| > RATE_WINDOW then all[1..] else all
  {
    PlacedAt(s, x, i);
    PlacedInOrder(s, x);
    TruesSplit(s[..i], x, s[i..]);
    assert s == s[..i] + s[i..];
  }

  lemma FirstDropped(s: seq<Sample>)
    requires s != [] && InOrder(s)
    ensures InOrder(s[1..]) && Trues(s[1..]) == Trues(s) - if s[0].value then 1 else 0
  {
    TruesOne(s[0]);
    TruesConcat([s[0]], s[1..]);
    assert s == [s[0]] + s[1..];
  }

  /** rangWindow: the samples held, ascending, and how many are true. */
  class RangWindow {
    var held: seq<Sample>
    var count: int
    var state: nat

    ghost predicate Valid()
      reads this
    {
      InOrder(held) && |held| <= RATE_WINDOW && count == Trues(held)
    }

    constructor ()
      ensures Valid() && held == [] && state == 0
    {
      held, count, state := [], 0, 0;
    }

    /** sort.Search: where x goes. */
    method Search(x: Sample) returns (i: nat)
      requires Valid()
      ensures i <= |held| && (forall j :: 0 <= j < i ==> !Before(x, held[j]))
      ensures forall j :: i <= j < |held| ==> Before(x, held[j])
    {
      var hi := |held|;
      i := 0;
      while i < hi
        invariant 0 <= i <= hi <= |held|
        invariant forall j :: 0 <= j < i ==> !Before(x, held[j])
        invariant forall j :: hi <= j < |held| ==> Before(x, held[j])
      {
        var h := (i + hi) / 2;
        if !Before(x, held[h]) {
          i := h + 1;
        } else {
          hi := h;
        }
      }
    }

    method Add(at: int, v: bool)
      requires Valid()
      modifies this
      ensures Valid() && state == NextState(old(state))
      ensures held == Kept(old(held), Sample(at, TieOf(state), v))
    {
      state := NextState(state);
      var sm := Sample(at, TieOf(state), v);
      if |held| == RATE_WINDOW && Before(sm, held[0]) {
        return;
      }
      var i := Search(sm);
      InsertedAt(held, sm, i);
      held := held[..i] + [sm] + held[i..];
      if v {
        count := count + 1;
      }
      if |held| > RATE_WINDOW {
        FirstDropped(held);
        if held[0].value {
          count := count - 1;
        }
        held := held[1..];
      }
    }
  }
}
