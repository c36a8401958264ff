/** Globally increasing event ids over blocks reserved durably (internal/events/seq.go). */
module Sequences {
  import opened Util

  const BLOCK_SIZE := 100_000

  /** How a reservation goes: it fails without or after advancing the durable counter, or
      succeeds. */
  datatype Reservation = Lost | Uncertain | Reserved

  /** One process: the last id handed out and the end of its block, inclusive. */
  datatype Process = Process(next: nat, end: nat)

  const UNSTARTED := Process(0, 0)

  /** What one call of Next leaves, with the durable counter and the id handed out. */
  datatype Handed = Handed(process: Process, counter: nat, id: nat, isDurable: bool)

  function Advance(counter: nat, r: Reservation): nat { if r.Lost? then counter else counter + BLOCK_SIZE }

  function HandOut(p: Process, counter: nat, r: Reservation): Handed {
    if p.next < p.end then Handed(Process(p.next + 1, p.end), counter, p.next + 1, true)
    else
      var upper := Advance(counter, r);
      if r.Reserved? then Handed(Process(upper - BLOCK_SIZE + 1, upper), upper, upper - BLOCK_SIZE + 1, true)
      else Handed(Process(p.next + 1, Max(p.end, p.next + 1)), upper, p.next + 1, false)
  }

  /** The reserver, shared by every process. */
  class Reserver {
    var counter: nat

    constructor ()
      ensures counter == 0
    {
      counter := 0;
    }

    method ReserveSeqBlock(size: nat, r: Reservation) returns (upper: nat, isOk: bool)
      modifies this
      ensures counter == if r.Lost? then old(counter) else old(counter) + size
      ensures isOk == r.Reserved? && upper == counter
    {
      if !r.Lost? {
        counter := counter + size;
      }
      return counter, r.Reserved?;
    }
  }

  class Sequence {
    const reserver: Reserver
    var next: nat
    var end: nat

    constructor (reserver: Reserver)
      ensures this.reserver == reserver && Process(next, end) == UNSTARTED
    {
      this.reserver := reserver;
      next, end := 0, 0;
    }

    method Next(r: Reservation) returns (id: nat, isDurable: bool)
      modifies this`next, this`end, reserver
      ensures Handed(Process(next, end), reserver.counter, id, isDurable) ==
              HandOut(old(Process(next, end)), old(reserver.counter), r)
    {
      if next < end {
        next := next + 1;
        return next, true;
      }
      var upper, isOk := reserver.ReserveSeqBlock(BLOCK_SIZE, r);
      if !isOk {
        next := next + 1;
        if next > end {
          end := next;
        }
        return next, false;
      }
      next := upper - BLOCK_SIZE + 1;
      end := upper;
      return next, true;
    }
  }

  //
  // Processes sharing the reserver.
  //

  /** Process p asks for an id. A restarted program is another process. */
  datatype Ask = Ask(p: nat, r: Reservation)

  datatype Issue = Issue(p: nat, id: nat, isDurable: bool)

  datatype Fleet = Fleet(counter: nat, processes: map<nat, Process>, issued: seq<Issue>)

  function Of(f: Fleet, p: nat): Process { if p in f.processes then f.processes[p] else UNSTARTED }

  function Serve(f: Fleet, ask: Ask): Fleet {
    var h := HandOut(Of(f, ask.p), f.counter, ask.r);
    Fleet(h.counter, f.processes[ask.p := h.process], f.issued + [Issue(ask.p, h.id, h.isDurable)])
  }

  function Run(asks: seq<Ask>): Fleet
    decreases |asks|
  {
    if asks == [] then Fleet(0, map[], []) else Serve(Run(asks[..|asks| - 1]), asks[|asks| - 1])
  }

  /** Ids a process may still hand out from its block. */
  predicate Pending(p: Process, id: int) { p.next < id <= p.end }

  ghost predicate BlocksApart(f: Fleet) {
    && (forall p: nat, id :: Pending(Of(f, p), id) ==> id <= f.counter)
    && (forall p: nat, q: nat, id :: p != q && Pending(Of(f, p), id) ==> !Pending(Of(f, q), id))
  }

  ghost predicate IssuesApart(f: Fleet) {
    && (forall i :: 0 <= i < |f.issued| && f.issued[i].isDurable ==> f.issued[i].id <= f.counter)
    && (forall i, p: nat :: 0 <= i < |f.issued| && f.issued[i].isDurable ==> !Pending(Of(f, p), f.issued[i].id))
  }

  /** A process's durable ids so far lie below those left in its block. */
  ghost predicate IssuesBelow(f: Fleet) {
    forall i, id ::
      0 <= i < |f.issued| && f.issued[i].isDurable && Pending(Of(f, f.issued[i].p), id) ==> f.issued[i].id < id
  }

  ghost predicate DurableIdsDiffer(issued: seq<Issue>) {
    forall i, j :: 0 <= i < j < |issued| && issued[i].isDurable && issued[j].isDurable ==>
      && issued[i].id != issued[j].id
      && (issued[i].p == issued[j].p ==> issued[i].id < issued[j].id)
  }

  lemma ServeKeepsBlocksApart(f: Fleet, ask: Ask)
    requires BlocksApart(f)
    ensures BlocksApart(Serve(f, ask))
  {
    ServeBlocks(f, ask);
  }

  /** What a call does to the caller's block, and to nobody else's. */
  lemma ServeBlocks(f: Fleet, ask: Ask)
    ensures var f', p := Serve(f, ask), ask.p;
            var issue := f'.issued[|f.issued|];
            && (forall q: nat :: q != p ==> Of(f', q) == Of(f, q))
            && (forall id :: Pending(Of(f', p), id) ==>
                  issue.id < id && (Pending(Of(f, p), id) || f.counter < id <= f'.counter))
            && (issue.isDurable ==> Pending(Of(f, p), issue.id) || f.counter < issue.id <= f'.counter)
            && f.counter <= f'.counter
  {
  }

  lemma ServeKeepsIssuesApart(f: Fleet, ask: Ask)
    requires BlocksApart(f) && IssuesApart(f)
    ensures IssuesApart(Serve(f, ask))
  {
    var f' := Serve(f, ask);
    ServeBlocks(f, ask);
    assert forall i :: 0 <= i < |f.issued| ==> f'.issued[i] == f.issued[i];
  }

  lemma ServeKeepsIssuesBelow(f: Fleet, ask: Ask)
    requires IssuesApart(f) && IssuesBelow(f)
    ensures IssuesBelow(Serve(f, ask))
  {
    var f' := Serve(f, ask);
    ServeBlocks(f, ask);
    forall i, id | 0 <= i < |f'.issued| && f'.issued[i].isDurable && Pending(Of(f', f'.issued[i].p), id)
      ensures f'.issued[i].id < id
    {
      if i < |f.issued| {
        assert f'.issued[i] == f.issued[i];
      }
    }
  }

  lemma ServeKeepsIdsDiffering(f: Fleet, ask: Ask)
    requires IssuesApart(f) && IssuesBelow(f) && DurableIdsDiffer(f.issued)
    ensures DurableIdsDiffer(Serve(f, ask).issued)
  {
    var f' := Serve(f, ask);
    ServeBlocks(f, ask);
    assert forall i :: 0 <= i < |f.issued| ==> f'.issued[i] == f.issued[i];
  }

  /** Ids handed out as durable never repeat across the processes sharing the reserver, and
      rise within each, whatever reservations fail in between. */
  lemma {:induction false} DurableIdsNeverRepeat(asks: seq<Ask>)
    ensures DurableIdsDiffer(Run(asks).issued)
    ensures BlocksApart(Run(asks)) && IssuesApart(Run(asks)) && IssuesBelow(Run(asks))
    decreases |asks|
  {
    if asks != [] {
      var before, ask := asks[..|asks| - 1], asks[|asks| - 1];
      DurableIdsNeverRepeat(before);
      ServeKeepsBlocksApart(Run(before), ask);
      ServeKeepsIssuesApart(Run(before), ask);
      ServeKeepsIssuesBelow(Run(before), ask);
      ServeKeepsIdsDiffering(Run(before), ask);
    }
  }

  /** Nothing of the kind holds of the in-memory fallback: a process that cannot reserve
      hands out 1, and then again as the first of the block it gets. */
  lemma FallbackIdsMayRepeat()
    ensures Run([Ask(0, Lost), Ask(0, Reserved)]).issued == [Issue(0, 1, false), Issue(0, 1, true)]
  {
    var asks := [Ask(0, Lost), Ask(0, Reserved)];
    assert asks[..1] == [Ask(0, Lost)] && asks[..1][..0] == [];
  }

  /** An id is durable exactly when the process had one left of its block or got another. */
  lemma {:induction false} DurableUnlessReservationsFail(asks: seq<Ask>, ask: Ask)
    ensures var f, f' := Run(asks), Run(asks + [ask]);
            && |f'.issued| == |asks| + 1
            && (!f'.issued[|asks|].isDurable <==> !ask.r.Reserved? && forall id :: !Pending(Of(f, ask.p), id))
    decreases |asks|
  {
    assert (asks + [ask])[..|asks|] == asks;
    if asks != [] {
      DurableUnlessReservationsFail(asks[..|asks| - 1], asks[|asks| - 1]);
      assert asks == asks[..|asks| - 1] + [asks[|asks| - 1]];
    }
    var p := Of(Run(asks), ask.p);
    assert p.next < p.end ==> Pending(p, p.end);
  }

  /** Blocks of n ids, the last perhaps not used up. */
  function BlocksFor(n: nat): nat { (n + 99_999) / 100_000 }

  /** One process whose reservations succeed counts 1, 2, 3 and on, over one reservation for
      every hundred thousand ids. */
  lemma {:induction false} OneProcessCounts(n: nat)
    ensures var f := Run(seq(n, i => Ask(0, Reserved)));
            && |f.issued| == n && (forall i :: 0 <= i < n ==> f.issued[i] == Issue(0, i + 1, true))
            && f.counter == 100_000 * BlocksFor(n)
            && (n > 0 ==> Of(f, 0) == Process(n, f.counter))
  {
    if n > 0 {
      OneProcessCounts(n - 1);
      assert seq(n, i => Ask(0, Reserved))[..n - 1] == seq(n - 1, i => Ask(0, Reserved));
    }
  }

  /** A durable id follows the last one the process was left with, or, once its block is used
      up, what every block so far reached; the rest of the new block is then its own. */
  lemma DurableIdsFollow(f: Fleet, ask: Ask)
    ensures var f', before := Serve(f, ask), Of(f, ask.p);
            var issue, after := f'.issued[|f.issued|], Of(f', ask.p);
            && |f'.issued| == |f.issued| + 1 && issue.p == ask.p
            && (issue.isDurable ==> after.next == issue.id)
            && (before.next < before.end ==>
                  issue == Issue(ask.p, before.next + 1, true) && after.end == before.end && f'.counter == f.counter)
            && (before.next >= before.end && ask.r.Reserved? ==>
                  issue == Issue(ask.p, f.counter + 1, true) && after.end == f'.counter == f.counter + 100_000)
  {
  }
}
