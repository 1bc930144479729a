/**
 How far the scan of one memory has got, and what every step of it keeps. The
 account here is of values; `Compaction` carries it through the running scan.
 */
module Scan {
  import opened Wrappers
  import opened Extents
  import opened Blocks

  // ----- counting pages and runs

  ghost function Count(flags: seq<bool>, n: nat): nat
    requires n <= |flags|
  {
    if n == 0 then 0 else Count(flags, n - 1) + (if flags[n - 1] then 1 else 0)
  }

  /** How many maximal runs of set flags start among the first `n`. */
  ghost function Runs(flags: seq<bool>, n: nat): nat
    requires n <= |flags|
  {
    if n == 0 then 0
    else Runs(flags, n - 1) + (if flags[n - 1] && (n == 1 || !flags[n - 2]) then 1 else 0)
  }

  lemma {:induction false} CountNone(flags: seq<bool>, from: nat, to: nat)
    requires from <= to <= |flags| && forall i :: from <= i < to ==> !flags[i]
    ensures Count(flags, to) == Count(flags, from)
  {
    if from < to {
      CountNone(flags, from, to - 1);
    }
  }

  lemma {:induction false} CountAll(flags: seq<bool>, from: nat, to: nat)
    requires from <= to <= |flags| && forall i :: from <= i < to ==> flags[i]
    ensures Count(flags, to) == Count(flags, from) + (to - from)
  {
    if from < to {
      CountAll(flags, from, to - 1);
    }
  }

  function Mark(flags: seq<bool>, r: Range): seq<bool> {
    seq(|flags|, i requires 0 <= i < |flags| => (r.start <= i < r.end) || flags[i])
  }

  lemma {:induction false} MarkCount(flags: seq<bool>, r: Range, n: nat)
    requires n <= |flags| && r.start <= r.end
    requires forall i :: r.start <= i < r.end && i < |flags| ==> !flags[i]
    ensures Count(Mark(flags, r), n) == Count(flags, n) + Max(0, Min(n, r.end) - r.start)
  {
    if n > 0 {
      MarkCount(flags, r, n - 1);
    }
  }

  /** Setting a range beyond every set flag, and not next to one, adds one run. */
  lemma {:induction false} MarkRuns(flags: seq<bool>, r: Range, n: nat)
    requires n <= |flags| && r.start < r.end <= |flags|
    requires forall i :: r.start <= i < |flags| ==> !flags[i]
    requires r.start > 0 ==> !flags[r.start - 1]
    ensures Runs(Mark(flags, r), n) == Runs(flags, n) + (if r.start < n then 1 else 0)
  {
    if n > 0 {
      MarkRuns(flags, r, n - 1);
    }
  }

  lemma {:induction false} NothingSet(flags: seq<bool>, n: nat)
    requires n <= |flags| && forall i :: 0 <= i < n ==> !flags[i]
    ensures Count(flags, n) == 0 && Runs(flags, n) == 0
  {
    if n > 0 {
      NothingSet(flags, n - 1);
    }
  }

  // ----- the kernel's side

  /** `MADV_DONTNEED`: the pages are given back and read as fresh zeros. */
  function DontNeed(pages: seq<Page>, r: Range): (out: seq<Page>)
    ensures |out| == |pages|
  {
    seq(|pages|, i requires 0 <= i < |pages| =>
      if r.start <= i < r.end
      then Anonymous(seq(|pages[i].words|, j => 0), false)
      else pages[i])
  }

  /**
   The memory as the guest sees it is the frozen one, word for word, and only
   released pages are changed at all.
   */
  ghost predicate Undisturbed(frozen: seq<Page>, now: seq<Page>, released: seq<bool>) {
    && |now| == |released| == |frozen|
    && (forall p :: 0 <= p < |now| ==> now[p].words == frozen[p].words)
    && (forall p :: 0 <= p < |now| ==> if released[p] then now[p].Anonymous? && !now[p].resident
                                       else now[p] == frozen[p])
  }

  // ----- what the specification asks for, as flags

  /** Per page: resident, to be given back, first page of a block kept whole. */
  datatype Target = Target(resident: seq<bool>, zero: seq<bool>, kept: seq<bool>)

  /** The flags name anonymous resident zero pages only. */
  ghost predicate Sound(frozen: seq<Page>, t: Target) {
    && |t.resident| == |t.zero| == |t.kept| == |frozen|
    && (forall p :: 0 <= p < |frozen| && t.zero[p] ==>
          frozen[p].Anonymous? && frozen[p].resident && ZeroWords(frozen[p]))
  }

  // ----- the scan's side

  /** What one memory contributed to the totals. */
  datatype Part = Part(resident: nat, zero: nat, released: nat, keptBlocks: nat, runs: nat)

  /**
   Where a scan is: pages below `frontier` are dealt with, pages below
   `counted` are in the totals, `blocks` were looked at. `lostRun` records a
   failed `madvise` and `blind` a failed `mincore`.
   */
  datatype Progress = Progress(
    frontier: nat,
    counted: nat,
    blocks: seq<Range>,
    part: Part,
    lostRun: bool,
    blind: bool)

  ghost predicate Pending(pending: Option<Range>, p: nat) {
    pending.Some? && InRange(pending.value, p)
  }

  /** Neighbours to be given back share their fate, so a run goes as a whole. */
  ghost predicate Together(zero: seq<bool>, pending: Option<Range>, released: seq<bool>, p: nat)
    requires |zero| == |released| && p + 1 < |zero|
  {
    zero[p] && zero[p + 1] ==>
      released[p] == released[p + 1] && (Pending(pending, p) <==> Pending(pending, p + 1))
  }

  ghost predicate PendingRun(zero: seq<bool>, pending: Option<Range>, released: seq<bool>, frontier: nat)
    requires |zero| == |released|
  {
    pending.Some? ==>
      && pending.value.start < pending.value.end == frontier <= |zero|
      && (forall p :: pending.value.start <= p < pending.value.end ==> zero[p] && !released[p])
  }

  /** Runs released and pending, against the pages to be given back. */
  ghost predicate Accounted(zero: seq<bool>, pending: Option<Range>, released: seq<bool>, g: Progress) {
    && |released| == |zero|
    && g.frontier <= |zero|
    && PendingRun(zero, pending, released, g.frontier)
    && (forall p :: 0 <= p < |released| && released[p] ==> p < g.frontier && zero[p])
    && (forall p: nat :: p + 1 < g.frontier ==> Together(zero, pending, released, p))
    && (!g.lostRun ==> forall p :: 0 <= p < g.frontier && zero[p] ==> released[p] || Pending(pending, p))
    && g.part.released == Count(released, |released|)
    && g.part.runs == Runs(released, |released|)
  }

  ghost predicate Counted(t: Target, g: Progress) {
    && g.counted <= |t.resident| && g.counted <= |t.zero| && g.counted <= |t.kept|
    && g.part.resident == Count(t.resident, g.counted)
    && g.part.zero == Count(t.zero, g.counted)
    && g.part.keptBlocks == Count(t.kept, g.counted)
  }

  /** With nothing pending, the last page dealt with was passed over. */
  ghost predicate Resumable(zero: seq<bool>, pending: Option<Range>, frontier: nat)
    requires frontier <= |zero|
  {
    pending.None? && frontier > 0 ==> !zero[frontier - 1]
  }

  // ----- steps

  lemma ReleaseTakesEffect(frozen: seq<Page>, t: Target, r: Range, now: seq<Page>, released: seq<bool>, g: Progress)
    requires Sound(frozen, t) && Undisturbed(frozen, now, released) && Accounted(t.zero, Some(r), released, g)
    ensures r.start <= r.end <= |now|
    ensures forall p :: r.start <= p < r.end ==> now[p].Anonymous?
    ensures Undisturbed(frozen, DontNeed(now, r), Mark(released, r))
  {
    assert PendingRun(t.zero, Some(r), released, g.frontier);
  }

  /** The page before a pending run was passed over, so the run is maximal. */
  lemma RunIsMaximal(zero: seq<bool>, r: Range, released: seq<bool>, g: Progress)
    requires Accounted(zero, Some(r), released, g)
    ensures r.start > 0 ==> !zero[r.start - 1] && !released[r.start - 1]
    ensures forall p :: r.start <= p < |released| ==> !released[p]
  {
    if r.start > 0 {
      assert Together(zero, Some(r), released, r.start - 1);
      assert Pending(Some(r), r.start) && !Pending(Some(r), r.start - 1);
    }
  }

  lemma ReleaseTogether(zero: seq<bool>, r: Range, released: seq<bool>, g: Progress, p: nat)
    requires Accounted(zero, Some(r), released, g) && p + 1 < g.frontier
    ensures Together(zero, None, released, p) && Together(zero, None, Mark(released, r), p)
  {
    assert Together(zero, Some(r), released, p);
  }

  /** A successful release moves the pending run to the released pages, as one run. */
  lemma ReleaseAccounted(zero: seq<bool>, r: Range, released: seq<bool>, g: Progress)
    requires Accounted(zero, Some(r), released, g)
    ensures Accounted(zero, None, Mark(released, r),
                      g.(part := g.part.(released := g.part.released + (r.end - r.start), runs := g.part.runs + 1)))
  {
    RunIsMaximal(zero, r, released, g);
    MarkCount(released, r, |released|);
    MarkRuns(released, r, |released|);
    forall p: nat | p + 1 < g.frontier
      ensures Together(zero, None, Mark(released, r), p)
    {
      ReleaseTogether(zero, r, released, g, p);
    }
  }

  /** A failed release forgets the run; nothing else changes. */
  lemma ReleaseFailed(zero: seq<bool>, r: Range, released: seq<bool>, g: Progress)
    requires Accounted(zero, Some(r), released, g)
    ensures Accounted(zero, None, released, g.(lostRun := true))
  {
    forall p: nat | p + 1 < g.frontier
      ensures Together(zero, None, released, p)
    {
      ReleaseTogether(zero, r, released, g, p);
    }
  }

  /** Passing pages that are to be kept, with nothing pending. */
  lemma PassPages(zero: seq<bool>, released: seq<bool>, g: Progress, to: nat)
    requires Accounted(zero, None, released, g)
    requires g.frontier <= to <= |zero|
    requires forall p :: g.frontier <= p < to ==> !zero[p]
    ensures Accounted(zero, None, released, g.(frontier := to))
  {
    forall p: nat | p + 1 < to
      ensures Together(zero, None, released, p)
    {
      if p + 1 < g.frontier {
        assert Together(zero, None, released, p);
      }
    }
  }

  function Extend(pending: Option<Range>, p: nat): Option<Range> {
    if pending.Some? && pending.value.end == p then Some(Range(pending.value.start, p + 1)) else Some(Range(p, p + 1))
  }

  lemma ExtendTogether(zero: seq<bool>, pending: Option<Range>, released: seq<bool>, g: Progress, p: nat)
    requires Accounted(zero, pending, released, g)
    requires p < g.frontier < |zero| && Resumable(zero, pending, g.frontier)
    ensures Together(zero, Extend(pending, g.frontier), released, p)
  {
    if p + 1 < g.frontier {
      assert Together(zero, pending, released, p);
    }
  }

  /** A page to be given back joins the pending run, or starts one. */
  lemma ExtendRun(zero: seq<bool>, pending: Option<Range>, released: seq<bool>, g: Progress)
    requires Accounted(zero, pending, released, g)
    requires g.frontier < |zero| && zero[g.frontier]
    requires Resumable(zero, pending, g.frontier)
    ensures Accounted(zero, Extend(pending, g.frontier), released, g.(frontier := g.frontier + 1))
  {
    var run := Extend(pending, g.frontier);
    forall p: nat | p + 1 < g.frontier + 1
      ensures Together(zero, run, released, p)
    {
      ExtendTogether(zero, pending, released, g, p);
    }
  }

  // ----- the whole scan of one memory, between blocks

  /** The flags that the page-by-page specification stands for. */
  ghost predicate Describes(l: Layout, t: Target)
    requires ValidLayout(l)
  {
    && |t.resident| == |t.zero| == |t.kept| == |l.frozen|
    && (forall p :: 0 <= p < |l.frozen| ==> (t.resident[p] <==> l.frozen[p].Anonymous? && l.frozen[p].resident))
    && (forall p :: 0 <= p < |l.frozen| ==> (t.zero[p] <==> Selected(l, p)))
    && (forall p :: 0 <= p < |l.frozen| ==> (t.kept[p] <==> KeptWhole(l, p)))
  }

  /** `p` is the first page of a block that may be huge and is not zero throughout. */
  ghost predicate KeptWhole(l: Layout, p: nat)
    requires ValidLayout(l)
  {
    && Covers(l.extents, p)
    && BlockOf(l, p).start == p
    && Unsplittable(l, BlockOf(l, p))
    && !AllZero(l, BlockOf(l, p))
  }

  ghost function TargetOf(l: Layout): (t: Target)
    requires ValidLayout(l)
    ensures Describes(l, t)
  {
    var n := |l.frozen|;
    Target(seq(n, p requires 0 <= p < n => l.frozen[p].Anonymous? && l.frozen[p].resident),
           seq(n, p requires 0 <= p < n => Selected(l, p)),
           seq(n, p requires 0 <= p < n => KeptWhole(l, p)))
  }

  lemma DescribesSound(l: Layout, t: Target)
    requires ValidLayout(l) && Describes(l, t)
    ensures Sound(l.frozen, t)
  {
    forall p | 0 <= p < |l.frozen| && t.zero[p]
      ensures l.frozen[p].Anonymous? && l.frozen[p].resident && ZeroWords(l.frozen[p])
    {
      SelectedIsZero(l, p);
    }
  }

  /** The blocks looked at: each is a block, in order, none missing. */
  ghost predicate Logged(l: Layout, blocks: seq<Range>, frontier: nat)
    requires ValidLayout(l)
  {
    && (forall i :: 0 <= i < |blocks| ==>
          Covers(l.extents, blocks[i].start) && BlockOf(l, blocks[i].start) == blocks[i] && blocks[i].end <= frontier)
    && (forall i, j :: 0 <= i < j < |blocks| ==> blocks[i].end <= blocks[j].start)
    && (forall p: nat :: p < frontier && Covers(l.extents, p) ==> BlockOf(l, p) in blocks)
  }

  ghost predicate AtBoundary(l: Layout, p: nat)
    requires ValidLayout(l)
  {
    Covers(l.extents, p) ==> BlockOf(l, p).start == p
  }

  /** What holds between blocks, and so whenever a fork can happen. */
  ghost predicate Scanned(l: Layout, t: Target, next: nat, pending: Option<Range>, now: seq<Page>,
                          released: seq<bool>, g: Progress)
  {
    && ValidLayout(l)
    && Describes(l, t)
    && Undisturbed(l.frozen, now, released)
    && Accounted(t.zero, pending, released, g)
    && g.counted == g.frontier
    && Counted(t, g)
    && Logged(l, g.blocks, g.frontier)
    && AtBoundary(l, g.frontier)
    && next <= |l.frozen|
    && (if g.blind then next == |l.frozen| else next == g.frontier)
    && (if next == |l.frozen| then pending.None? else Resumable(t.zero, pending, next))
  }

  /** The parts that a block leaves behind make up the whole. */
  lemma ScannedPast(l: Layout, t: Target, last: nat, pending: Option<Range>, now: seq<Page>, released: seq<bool>,
                    g: Progress, blocks: seq<Range>)
    requires ValidLayout(l) && Describes(l, t)
    requires Undisturbed(l.frozen, now, released) && Accounted(t.zero, pending, released, g)
    requires !g.blind && g.frontier == g.counted == last <= |l.frozen| && Counted(t, g)
    requires Logged(l, blocks, last) && AtBoundary(l, last)
    requires if last == |l.frozen| then pending.None? else Resumable(t.zero, pending, last)
    ensures Scanned(l, t, last, pending, now, released, g.(blocks := blocks))
  {
  }

  // ----- steps that depend on where the blocks are

  /** Pages in no extent are neither resident pages, zero pages nor blocks. */
  lemma UncoveredPages(l: Layout, t: Target, from: nat, to: nat)
    requires ValidLayout(l) && Describes(l, t) && from <= to <= |l.frozen|
    requires forall p :: from <= p < to ==> !Covers(l.extents, p)
    ensures forall p :: from <= p < to ==> !t.zero[p]
    ensures Count(t.resident, to) == Count(t.resident, from)
    ensures Count(t.zero, to) == Count(t.zero, from)
    ensures Count(t.kept, to) == Count(t.kept, from)
  {
    CountNone(t.resident, from, to);
    CountNone(t.zero, from, to);
    CountNone(t.kept, from, to);
  }

  /** The gap up to the next extent, or to the end, holds no covered page. */
  lemma GapUncovered(l: Layout, from: nat, p: nat)
    requires ValidLayout(l)
    requires var k := FirstAfter(l.extents, from);
             from <= p && (k < |l.extents| ==> p < l.extents[k].start)
    ensures !Covers(l.extents, p)
  {
  }

  lemma ExtentStartBoundary(l: Layout, k: nat)
    requires ValidLayout(l) && k < |l.extents|
    ensures Covers(l.extents, l.extents[k].start) && AtBoundary(l, l.extents[k].start)
  {
    assert InRange(l.extents[k], l.extents[k].start);
    SameExtent(l.extents, |l.frozen|, k, l.extents[k].start);
  }

  lemma BlockEndBoundary(l: Layout, first: nat)
    requires ValidLayout(l) && Covers(l.extents, first)
    ensures AtBoundary(l, BlockOf(l, first).end)
  {
    hide AlignDown, BlockOf, ValidLayout, Covers;
    var last := BlockOf(l, first).end;
    if Covers(l.extents, last) {
      var k := ExtentOf(l, first);
      BlockIn(l, k, first);
      var j := ExtentOf(l, last);
      BlockIn(l, j, last);
      if j == k {
        AlignDownNext(l.basePage + first, l.hugePages);
      } else {
        LaterExtent(l, k, j, last);
      }
    }
  }

  /** The end of an extent is in no other. */
  lemma LaterExtent(l: Layout, k: nat, j: nat, p: nat)
    requires ValidLayout(l) && k < |l.extents| && j < |l.extents| && j != k
    requires InRange(l.extents[j], p)
    ensures !(l.extents[k].start <= p <= l.extents[k].end)
  {
  }

  lemma LogGap(l: Layout, blocks: seq<Range>, from: nat, to: nat)
    requires ValidLayout(l) && Logged(l, blocks, from) && from <= to
    requires forall p: nat :: from <= p < to ==> !Covers(l.extents, p)
    ensures Logged(l, blocks, to)
  {
  }

  lemma LogBlock(l: Layout, blocks: seq<Range>, first: nat, last: nat)
    requires ValidLayout(l) && Logged(l, blocks, first)
    requires Covers(l.extents, first) && BlockOf(l, first) == Range(first, last)
    ensures Logged(l, blocks + [Range(first, last)], last)
  {
    hide BlockOf, ValidLayout;
    var blocks' := blocks + [Range(first, last)];
    forall p: nat | p < last && Covers(l.extents, p)
      ensures BlockOf(l, p) in blocks'
    {
      if first <= p {
        SameBlock(l, first, p);
        assert blocks'[|blocks|] == Range(first, last);
      } else {
        assert BlockOf(l, p) in blocks;
      }
    }
  }

  /** In an unsplittable block every page goes or none does. */
  lemma WholeBlockFlags(l: Layout, t: Target, first: nat, last: nat)
    requires ValidLayout(l) && Describes(l, t)
    requires Covers(l.extents, first) && BlockOf(l, first) == Range(first, last) && Unsplittable(l, Range(first, last))
    ensures forall p :: first <= p < last ==>
              && t.resident[p]
              && (t.zero[p] <==> AllZero(l, Range(first, last)))
              && (t.kept[p] <==> p == first && !AllZero(l, Range(first, last)))
  {
    forall p | first <= p < last
      ensures t.resident[p] && (t.zero[p] <==> AllZero(l, Range(first, last)))
              && (t.kept[p] <==> p == first && !AllZero(l, Range(first, last)))
    {
      SameBlock(l, first, p);
    }
  }

  /** In any other block every page is judged alone. */
  lemma OtherBlockFlags(l: Layout, t: Target, first: nat, last: nat)
    requires ValidLayout(l) && Describes(l, t)
    requires Covers(l.extents, first) && BlockOf(l, first) == Range(first, last) && !Unsplittable(l, Range(first, last))
    ensures forall p :: first <= p < last ==>
              && l.frozen[p].Anonymous?
              && (t.resident[p] <==> l.frozen[p].resident)
              && (t.zero[p] <==> l.frozen[p].resident && ZeroWords(l.frozen[p]))
              && !t.kept[p]
  {
    forall p | first <= p < last
      ensures l.frozen[p].Anonymous? && (t.resident[p] <==> l.frozen[p].resident)
              && (t.zero[p] <==> l.frozen[p].resident && ZeroWords(l.frozen[p])) && !t.kept[p]
    {
      SameBlock(l, first, p);
    }
  }
}
