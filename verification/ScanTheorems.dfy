/** What the scan of one memory guarantees, from what every step of it keeps. */
module ScanTheorems {
  import opened Wrappers
  import opened Extents
  import opened Blocks
  import opened Scan

  /** A page released or about to be is one of the specification's. */
  lemma OnlySelectedPagesGo(l: Layout, t: Target, next: nat, pending: Option<Range>, now: seq<Page>, released: seq<bool>,
                            g: Progress, p: nat)
    requires Scanned(l, t, next, pending, now, released, g) && p < |l.frozen|
    ensures released[p] || Pending(pending, p) ==> Selected(l, p)
    ensures now[p].words == l.frozen[p].words
    ensures l.frozen[p].SharedFile? ==> now[p] == l.frozen[p] && !released[p] && !Pending(pending, p)
  {
    DescribesSound(l, t);
    assert PendingRun(t.zero, pending, released, g.frontier);
  }

  ghost function PendingPages(pending: Option<Range>): int {
    match pending case None => 0 case Some(r) => r.end - r.start
  }

  lemma {:induction false} ZeroSoFar(zero: seq<bool>, pending: Option<Range>, released: seq<bool>, g: Progress, n: nat)
    requires Accounted(zero, pending, released, g) && !g.lostRun
    requires n <= g.frontier
    ensures Count(zero, n) == Count(released, n) + (if pending.Some? then Max(0, n - pending.value.start) else 0)
  {
    if n > 0 {
      ZeroSoFar(zero, pending, released, g, n - 1);
      assert zero[n - 1] ==> released[n - 1] || Pending(pending, n - 1);
    }
  }

  /**
   Unless `madvise` failed, the zero pages found are the pages released and
   the pages pending, in every state between blocks.
   */
  lemma ZeroIsReleasedOrPending(l: Layout, t: Target, next: nat, pending: Option<Range>, now: seq<Page>,
                                released: seq<bool>, g: Progress)
    requires Scanned(l, t, next, pending, now, released, g) && !g.lostRun
    ensures g.part.zero == g.part.released + PendingPages(pending)
  {
    ZeroSoFar(t.zero, pending, released, g, g.frontier);
    CountNone(released, g.frontier, |released|);
    assert PendingRun(t.zero, pending, released, g.frontier);
  }

  /**
   A finished scan with no failed call released exactly the specified pages,
   however it was cut into slices; it made one `madvise` per maximal run of
   them, and left nothing pending.
   */
  lemma FinishedScan(l: Layout, t: Target, next: nat, pending: Option<Range>, now: seq<Page>, released: seq<bool>,
                     g: Progress)
    requires Scanned(l, t, next, pending, now, released, g)
    requires next >= |l.frozen| && !g.lostRun && !g.blind
    ensures forall p :: 0 <= p < |l.frozen| ==> (released[p] <==> Selected(l, p))
    ensures pending.None?
    ensures g.part.runs == Runs(released, |released|)
    ensures g.part.released == g.part.zero == Count(released, |released|)
    ensures g.part.resident == Count(t.resident, |l.frozen|)
    ensures g.part.keptBlocks == Count(t.kept, |l.frozen|)
  {
    forall p | 0 <= p < |l.frozen|
      ensures released[p] <==> Selected(l, p)
    {
      assert !Pending(pending, p);
      assert t.zero[p] ==> released[p];
    }
    ZeroIsReleasedOrPending(l, t, next, pending, now, released, g);
  }

  lemma {:induction false} RunTogether(zero: seq<bool>, pending: Option<Range>, released: seq<bool>, g: Progress,
                                       from: nat, to: nat)
    requires Accounted(zero, pending, released, g)
    requires from <= to < g.frontier
    requires forall p :: from <= p <= to ==> zero[p]
    ensures released[from] == released[to]
  {
    if from < to {
      RunTogether(zero, pending, released, g, from, to - 1);
      assert Together(zero, pending, released, to - 1);
    }
  }

  /** A block boundary does not cut through a block. */
  lemma BoundaryOutside(l: Layout, frontier: nat, p: nat)
    requires ValidLayout(l) && AtBoundary(l, frontier) && Covers(l.extents, p)
    ensures frontier <= BlockOf(l, p).start || BlockOf(l, p).end <= frontier
  {
    if InRange(BlockOf(l, p), frontier) {
      SameBlock(l, p, frontier);
    }
  }

  /**
   A block that may be one huge page is given back whole or not at all,
   whatever runs it was merged into and whichever calls failed.
   */
  lemma HugeBlockAllOrNothing(l: Layout, t: Target, next: nat, pending: Option<Range>, now: seq<Page>, released: seq<bool>,
                              g: Progress, p: nat, q: nat)
    requires Scanned(l, t, next, pending, now, released, g)
    requires Covers(l.extents, p) && Unsplittable(l, BlockOf(l, p)) && InRange(BlockOf(l, p), q)
    ensures released[p] == released[q]
  {
    hide BlockOf, ValidLayout, Covers, Logged, AtBoundary, Undisturbed, Selected, KeptWhole, Counted;
    var block := BlockOf(l, p);
    BoundaryOutside(l, g.frontier, p);
    SameBlock(l, p, block.start);
    assert |released| == |l.frozen|;
    WholeBlockFlags(l, t, block.start, block.end);
    if block.end <= g.frontier && AllZero(l, block) {
      RunTogether(t.zero, pending, released, g, block.start, p);
      RunTogether(t.zero, pending, released, g, block.start, q);
    }
  }

  /** A huge-page-aligned range inside an extent is a block. */
  lemma AlignedIsBlock(l: Layout, k: nat, r: Range)
    requires ValidLayout(l) && k < |l.extents|
    requires l.extents[k].start <= r.start && r.end <= l.extents[k].end && r.end == r.start + l.hugePages
    requires (l.basePage + r.start) % l.hugePages == 0
    ensures Covers(l.extents, r.start) && BlockOf(l, r.start) == r
  {
    AlignDownDivides(l.basePage + r.start, l.hugePages);
    Divides(l.basePage + r.start, l.hugePages);
    assert InRange(l.extents[k], r.start);
    SameExtent(l.extents, |l.frozen|, k, r.start);
  }
}
