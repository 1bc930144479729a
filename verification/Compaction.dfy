/**
 The release of a frozen guest's all-zero pages, in slices, as the host runs
 it: `Compaction::{start, step}`, `scan_block` and `release_pending`.
 */
module Compaction {
  import opened Wrappers
  import opened Extents
  import opened Blocks
  import opened Scan

  /** What a scan found and did, in pages. */
  datatype ZeroPages = ZeroPages(
    memories: nat,
    scanned: nat,
    overlay: nat,
    resident: nat,
    zero: nat,
    released: nat,
    keptBlocks: nat,
    runs: nat)

  /** One linear memory under scan: where it is and how far the scan got. */
  datatype MemoryScan = MemoryScan(
    base: nat,
    pages: nat,
    mappings: seq<Mapping>,
    extents: seq<Range>,
    next: nat,
    pending: Option<Range>)

  /** `mincore` answers in the low bit of a byte; the others are undefined. */
  predicate LowBit(byte: nat) {
    byte % 2 != 0
  }

  /** The ranges of one memory that `mincore` was asked about, in order. */
  ghost function AskedOf(asked: map<nat, seq<Range>>, base: nat): seq<Range> {
    if base in asked then asked[base] else []
  }

  /**
   The calls a scan makes, on the linear memories by base address. A page of
   a shared file overlay may be passed to none of them; either of the first
   two may fail. The ghost fields record, by base address, what `madvise` gave
   back, which ranges `mincore` was asked about, and for which memories either
   ever failed.
   */
  class Kernel {
    var memories: map<nat, seq<Page>>
    ghost var released: map<nat, seq<bool>>
    ghost var madviseFailed: set<nat>
    ghost var asked: map<nat, seq<Range>>
    ghost var mincoreFailed: set<nat>

    constructor (memories: map<nat, seq<Page>>)
      ensures this.memories == memories
      ensures released == map b | b in memories :: seq(|memories[b]|, i => false)
      ensures madviseFailed == {} && asked == map[] && mincoreFailed == {}
    {
      this.memories := memories;
      this.released := map b | b in memories :: seq(|memories[b]|, i => false);
      this.madviseFailed, this.asked, this.mincoreFailed := {}, map[], {};
    }

    ghost predicate Anonymous(base: nat, first: nat, last: nat)
      reads this
    {
      && base in memories && base in released
      && first <= last <= |memories[base]|
      && (forall p :: first <= p < last ==> memories[base][p].Anonymous?)
    }

    method Mincore(base: nat, first: nat, last: nat, buffer: array<nat>) returns (ok: bool)
      requires Anonymous(base, first, last) && last - first <= buffer.Length
      modifies buffer, this`asked, this`mincoreFailed
      ensures ok ==> forall o :: 0 <= o < last - first ==> LowBit(buffer[o]) == memories[base][first + o].resident
      ensures asked == old(asked)[base := AskedOf(old(asked), base) + [Range(first, last)]]
      ensures mincoreFailed == old(mincoreFailed) + if ok then {} else {base}
    {
      ok := *;
      if ok {
        for offset := 0 to last - first
          modifies buffer
          invariant forall o :: 0 <= o < offset ==> LowBit(buffer[o]) == memories[base][first + o].resident
        {
          buffer[offset] := if memories[base][first + offset].resident then 1 else 0;
        }
      } else {
        mincoreFailed := mincoreFailed + {base};
      }
      asked := asked[base := AskedOf(asked, base) + [Range(first, last)]];
    }

    method Madvise(base: nat, r: Range) returns (ok: bool)
      requires Anonymous(base, r.start, r.end)
      modifies this`memories, this`released, this`madviseFailed
      ensures ok ==> memories == old(memories)[base := DontNeed(old(memories[base]), r)]
                     && released == old(released)[base := Mark(old(released[base]), r)]
      ensures !ok ==> memories == old(memories) && released == old(released)
      ensures madviseFailed == old(madviseFailed) + if ok then {} else {base}
    {
      ok := *;
      if ok {
        memories := memories[base := DontNeed(memories[base], r)];
        released := released[base := Mark(released[base], r)];
      } else {
        madviseFailed := madviseFailed + {base};
      }
    }

    /** Reads resident pages: whether they are zero throughout. */
    method IsZero(base: nat, first: nat, last: nat) returns (zero: bool)
      requires Anonymous(base, first, last)
      requires forall p :: first <= p < last ==> memories[base][p].resident
      ensures zero <==> forall p :: first <= p < last ==> ZeroWords(memories[base][p])
    {
      zero := forall p :: first <= p < last ==> ZeroWords(memories[base][p]);
    }
  }

  // ----- how the running scan relates to the account of it

  ghost predicate Matches(l: Layout, memory: MemoryScan, page: nat, huge: nat) {
    && page > 0 && huge > 0 && huge % page == 0 && memory.base % page == 0
    && memory.base + memory.pages * page <= USIZE_MAX
    && l.basePage == memory.base / page && l.hugePages == huge / page
    && l.mappings == memory.mappings && l.extents == memory.extents
    && |l.frozen| == memory.pages
  }

  /** The totals are those of the other memories plus this one's part. */
  ghost predicate Tied(totals: ZeroPages, rest: ZeroPages, part: Part) {
    totals == rest.(
      resident := rest.resident + part.resident,
      zero := rest.zero + part.zero,
      released := rest.released + part.released,
      keptBlocks := rest.keptBlocks + part.keptBlocks,
      runs := rest.runs + part.runs)
  }

  /** Inside a block: everything but the block's own boundaries. */
  ghost predicate Underway(k: Kernel, frozen: seq<Page>, t: Target, memory: MemoryScan, g: Progress)
    reads k
  {
    && Sound(frozen, t)
    && memory.base in k.memories && memory.base in k.released
    && Undisturbed(frozen, k.memories[memory.base], k.released[memory.base])
    && Accounted(t.zero, memory.pending, k.released[memory.base], g)
    && (g.lostRun <==> memory.base in k.madviseFailed)
  }

  /** At a block's boundary: a run is lost only where `madvise` failed. */
  ghost predicate Standing(k: Kernel, l: Layout, t: Target, memory: MemoryScan, g: Progress)
    reads k
  {
    && memory.base in k.memories && memory.base in k.released
    && Scanned(l, t, memory.next, memory.pending, k.memories[memory.base], k.released[memory.base], g)
    && (g.lostRun <==> memory.base in k.madviseFailed)
  }

  /** The blocks looked at are those `mincore` was asked about, and it stopped the scan only by failing. */
  ghost predicate Recorded(l: Layout, asked: seq<Range>, failed: bool, g: Progress)
    requires ValidLayout(l)
  {
    && (g.blind <==> failed)
    && (if g.blind then Covers(l.extents, g.frontier) && asked == g.blocks + [BlockOf(l, g.frontier)]
        else asked == g.blocks)
  }

  ghost predicate Between(k: Kernel, l: Layout, t: Target, memory: MemoryScan, g: Progress)
    reads k
  {
    && Standing(k, l, t, memory, g)
    && Recorded(l, AskedOf(k.asked, memory.base), memory.base in k.mincoreFailed, g)
  }

  twostate predicate OthersKept(k: Kernel, base: nat)
    reads k
  {
    && k.memories.Keys == old(k.memories.Keys)
    && k.released.Keys == old(k.released.Keys)
    && (forall b :: b in k.memories && b != base ==> k.memories[b] == old(k.memories)[b])
    && (forall b :: b in k.released && b != base ==> k.released[b] == old(k.released)[b])
    && (forall b :: b != base ==> (b in k.madviseFailed <==> b in old(k.madviseFailed)))
    && (forall b :: b != base ==> (b in k.mincoreFailed <==> b in old(k.mincoreFailed)))
    && (forall b :: b != base ==> AskedOf(k.asked, b) == AskedOf(old(k.asked), b))
  }

  /** Releases the pending run of zero pages, if any. */
  method ReleasePending(k: Kernel, memory: MemoryScan, totals: ZeroPages,
                        ghost frozen: seq<Page>, ghost t: Target, ghost rest: ZeroPages, ghost g: Progress)
    returns (memory': MemoryScan, totals': ZeroPages, ghost g': Progress)
    requires Underway(k, frozen, t, memory, g) && Tied(totals, rest, g.part)
    modifies k`memories, k`released, k`madviseFailed
    ensures memory' == memory.(pending := None)
    ensures Underway(k, frozen, t, memory', g') && Tied(totals', rest, g'.part)
    ensures OthersKept(k, memory.base)
    ensures g' == g.(part := g'.part, lostRun := g'.lostRun)
    ensures g'.part == g.part.(released := g'.part.released, runs := g'.part.runs)
  {
    memory', totals', g' := memory.(pending := None), totals, g;
    if memory.pending.None? {
      return;
    }
    var run := memory.pending.value;
    ghost var released := k.released[memory.base];
    ReleaseTakesEffect(frozen, t, run, k.memories[memory.base], released, g);
    var ok := k.Madvise(memory.base, run);
    if !ok {
      ReleaseFailed(t.zero, run, released, g);
      g' := g.(lostRun := true);
      return;
    }
    ReleaseAccounted(t.zero, run, released, g);
    g' := g.(part := g.part.(released := g.part.released + (run.end - run.start), runs := g.part.runs + 1));
    totals' := totals.(released := totals.released + (run.end - run.start), runs := totals.runs + 1);
  }

  /** The first extent that ends after `next`. */
  method FindExtent(extents: seq<Range>, next: nat) returns (index: nat)
    ensures index == FirstAfter(extents, next)
  {
    index := 0;
    while index < |extents| && extents[index].end <= next
      invariant index <= |extents|
      invariant forall j :: 0 <= j < index ==> extents[j].end <= next
    {
      index := index + 1;
    }
  }

  /** Whether the mapping holding the page may hold huge pages. */
  method FindHuge(mappings: seq<Mapping>, p: nat) returns (huge: bool)
    ensures huge == PossiblyHuge(mappings, p)
  {
    var i := 0;
    while i < |mappings|
      invariant i <= |mappings|
      invariant PossiblyHuge(mappings, p) == PossiblyHuge(mappings[i..], p)
    {
      if mappings[i].start <= p < mappings[i].stop {
        return mappings[i].huge;
      }
      assert mappings[i..][1..] == mappings[i + 1..];
      i := i + 1;
    }
    huge := true;
  }

  /** The block's pages in the kernel are still the frozen ones. */
  ghost predicate AsFrozen(k: Kernel, frozen: seq<Page>, base: nat, first: nat, last: nat)
    reads k
  {
    && last <= |frozen|
    && k.Anonymous(base, first, last)
    && (forall p :: first <= p < last ==> k.memories[base][p] == frozen[p])
  }

  /** A block read as one: its pages counted and marked, or kept whole. */
  method MarkWhole(k: Kernel, base: nat, first: nat, last: nat, drop: array<bool>, totals: ZeroPages,
                   ghost frozen: seq<Page>, ghost t: Target, ghost rest: ZeroPages, ghost g: Progress)
    returns (totals': ZeroPages, ghost g': Progress)
    requires AsFrozen(k, frozen, base, first, last) && first < last && last - first <= drop.Length
    requires Sound(frozen, t) && g.counted == first && Counted(t, g) && Tied(totals, rest, g.part)
    requires forall p :: first <= p < last ==>
               && frozen[p].resident
               && t.resident[p]
               && (t.zero[p] <==> forall q :: first <= q < last ==> ZeroWords(frozen[q]))
               && (t.kept[p] <==> p == first && !t.zero[p])
    modifies drop
    ensures forall o :: 0 <= o < last - first ==> drop[o] == t.zero[first + o]
    ensures g' == g.(counted := last, part := g'.part)
    ensures g'.part == g.part.(resident := g'.part.resident, zero := g'.part.zero, keptBlocks := g'.part.keptBlocks)
    ensures Counted(t, g') && Tied(totals', rest, g'.part)
  {
    var count := last - first;
    totals' := totals.(resident := totals.resident + count);
    var zero := k.IsZero(base, first, last);
    assert zero == t.zero[first];
    if zero {
      totals' := totals'.(zero := totals'.zero + count);
      CountAll(t.zero, first, last);
    } else {
      totals' := totals'.(keptBlocks := totals'.keptBlocks + 1);
      CountNone(t.zero, first, last);
    }
    for offset := 0 to count
      invariant forall o :: 0 <= o < offset ==> drop[o] == zero
    {
      drop[offset] := zero;
    }
    CountAll(t.resident, first, last);
    CountNone(t.kept, first + 1, last);
    g' := g.(counted := last,
             part := g.part.(resident := g.part.resident + count,
                             zero := if zero then g.part.zero + count else g.part.zero,
                             keptBlocks := if zero then g.part.keptBlocks else g.part.keptBlocks + 1));
  }

  /** One page of a block read page by page. */
  method MarkPage(k: Kernel, base: nat, p: nat, byte: nat, totals: ZeroPages,
                  ghost frozen: seq<Page>, ghost t: Target, ghost rest: ZeroPages, ghost g: Progress)
    returns (zero: bool, totals': ZeroPages, ghost g': Progress)
    requires AsFrozen(k, frozen, base, p, p + 1)
    requires Sound(frozen, t) && g.counted == p && Counted(t, g) && Tied(totals, rest, g.part)
    requires LowBit(byte) == frozen[p].resident
    requires t.resident[p] == frozen[p].resident
    requires t.zero[p] <==> frozen[p].resident && ZeroWords(frozen[p])
    requires !t.kept[p]
    ensures zero == t.zero[p]
    ensures g' == g.(counted := p + 1, part := g'.part)
    ensures g'.part == g.part.(resident := g'.part.resident, zero := g'.part.zero)
    ensures Counted(t, g') && Tied(totals', rest, g'.part)
  {
    zero, totals', g' := false, totals, g;
    if LowBit(byte) {
      totals' := totals'.(resident := totals'.resident + 1);
      zero := k.IsZero(base, p, p + 1);
      assert zero <==> ZeroWords(k.memories[base][p]);
      totals' := totals'.(zero := totals'.zero + if zero then 1 else 0);
      g' := g'.(part := g'.part.(resident := g'.part.resident + 1, zero := g'.part.zero + if zero then 1 else 0));
    }
    g' := g'.(counted := p + 1);
  }

  /** A block read page by page. */
  method MarkPages(k: Kernel, base: nat, first: nat, last: nat, resident: array<nat>, drop: array<bool>,
                   totals: ZeroPages, ghost frozen: seq<Page>, ghost t: Target, ghost rest: ZeroPages, ghost g: Progress)
    returns (totals': ZeroPages, ghost g': Progress)
    requires AsFrozen(k, frozen, base, first, last)
    requires last - first <= drop.Length && last - first <= resident.Length
    requires Sound(frozen, t) && g.counted == first && Counted(t, g) && Tied(totals, rest, g.part)
    requires forall o :: 0 <= o < last - first ==> LowBit(resident[o]) == frozen[first + o].resident
    requires forall p :: first <= p < last ==>
               && (t.resident[p] <==> frozen[p].resident)
               && (t.zero[p] <==> frozen[p].resident && ZeroWords(frozen[p]))
               && !t.kept[p]
    modifies drop
    ensures forall o :: 0 <= o < last - first ==> drop[o] == t.zero[first + o]
    ensures g' == g.(counted := last, part := g'.part)
    ensures g'.part == g.part.(resident := g'.part.resident, zero := g'.part.zero, keptBlocks := g'.part.keptBlocks)
    ensures Counted(t, g') && Tied(totals', rest, g'.part)
  {
    totals', g' := totals, g;
    for offset := 0 to last - first
      invariant forall o :: 0 <= o < offset ==> drop[o] == t.zero[first + o]
      invariant g' == g.(counted := first + offset, part := g'.part)
      invariant g'.part == g.part.(resident := g'.part.resident, zero := g'.part.zero)
      invariant Counted(t, g') && Tied(totals', rest, g'.part)
    {
      var zero;
      zero, totals', g' := MarkPage(k, base, first + offset, resident[offset], totals', frozen, t, rest, g');
      drop[offset] := zero;
    }
  }

  /** One page of a marked block: it ends the pending run, extends it, or starts one. */
  method ReleaseOrExtend(k: Kernel, memory: MemoryScan, index: nat, dropped: bool, totals: ZeroPages,
                         ghost frozen: seq<Page>, ghost t: Target, ghost rest: ZeroPages, ghost g: Progress)
    returns (memory': MemoryScan, totals': ZeroPages, ghost g': Progress)
    requires Underway(k, frozen, t, memory, g) && Tied(totals, rest, g.part)
    requires g.frontier == index < |frozen| && Resumable(t.zero, memory.pending, index)
    requires dropped == t.zero[index]
    modifies k`memories, k`released, k`madviseFailed
    ensures memory' == memory.(pending := memory'.pending)
    ensures Underway(k, frozen, t, memory', g') && Tied(totals', rest, g'.part)
    ensures Resumable(t.zero, memory'.pending, index + 1)
    ensures OthersKept(k, memory.base)
    ensures g' == g.(frontier := index + 1, part := g'.part, lostRun := g'.lostRun)
    ensures g'.part == g.part.(released := g'.part.released, runs := g'.part.runs)
  {
    if !dropped {
      memory', totals', g' := ReleasePending(k, memory, totals, frozen, t, rest, g);
      PassPages(t.zero, k.released[memory.base], g', index + 1);
    } else if memory.pending.Some? && memory.pending.value.end == index {
      ExtendRun(t.zero, memory.pending, k.released[memory.base], g);
      memory', totals', g' := memory.(pending := Some(Range(memory.pending.value.start, index + 1))), totals, g;
    } else {
      assert PendingRun(t.zero, memory.pending, k.released[memory.base], index);
      memory', totals', g' := ReleasePending(k, memory, totals, frozen, t, rest, g);
      ExtendRun(t.zero, None, k.released[memory.base], g');
      memory' := memory'.(pending := Some(Range(index, index + 1)));
    }
    g' := g'.(frontier := index + 1);
  }

  /** Releases the runs of a marked block, carrying the last one over. */
  method ReleaseRuns(k: Kernel, memory: MemoryScan, first: nat, last: nat, drop: array<bool>, totals: ZeroPages,
                     ghost frozen: seq<Page>, ghost t: Target, ghost rest: ZeroPages, ghost g: Progress)
    returns (memory': MemoryScan, totals': ZeroPages, ghost g': Progress)
    requires Underway(k, frozen, t, memory, g) && Tied(totals, rest, g.part)
    requires g.frontier == first <= last <= |frozen| && Resumable(t.zero, memory.pending, first)
    requires last - first <= drop.Length
    requires forall o :: 0 <= o < last - first ==> drop[o] == t.zero[first + o]
    modifies k`memories, k`released, k`madviseFailed
    ensures memory' == memory.(pending := memory'.pending)
    ensures Underway(k, frozen, t, memory', g') && Tied(totals', rest, g'.part)
    ensures Resumable(t.zero, memory'.pending, last)
    ensures OthersKept(k, memory.base)
    ensures g' == g.(frontier := last, part := g'.part, lostRun := g'.lostRun)
    ensures g'.part == g.part.(released := g'.part.released, runs := g'.part.runs)
  {
    memory', totals', g' := memory, totals, g;
    for offset := 0 to last - first
      invariant memory' == memory.(pending := memory'.pending)
      invariant Underway(k, frozen, t, memory', g') && Tied(totals', rest, g'.part)
      invariant Resumable(t.zero, memory'.pending, first + offset)
      invariant OthersKept(k, memory.base)
      invariant g' == g.(frontier := first + offset, part := g'.part, lostRun := g'.lostRun)
      invariant g'.part == g.part.(released := g'.part.released, runs := g'.part.runs)
    {
      memory', totals', g' := ReleaseOrExtend(k, memory', first + offset, drop[offset], totals', frozen, t, rest, g');
    }
  }

  // ----- one block

  /** No extent is left: what is pending goes, and the memory is done. */
  method EndScan(k: Kernel, memory: MemoryScan, totals: ZeroPages,
                 ghost l: Layout, ghost t: Target, ghost rest: ZeroPages, ghost g: Progress)
    returns (memory': MemoryScan, totals': ZeroPages, ghost g': Progress)
    requires Between(k, l, t, memory, g) && Tied(totals, rest, g.part)
    requires memory.next < memory.pages == |l.frozen| && FirstAfter(l.extents, memory.next) == |l.extents|
    modifies k`memories, k`released, k`madviseFailed
    ensures Between(k, l, t, memory', g') && Tied(totals', rest, g'.part)
    ensures memory' == memory.(next := memory.pages, pending := None)
    ensures OthersKept(k, memory.base)
  {
    hide BlockOf, Selected, KeptWhole, Undisturbed, Logged, AtBoundary, Covers;
    DescribesSound(l, t);
    forall p: nat | memory.next <= p < |l.frozen| ensures !Covers(l.extents, p) { GapUncovered(l, memory.next, p); }
    UncoveredPages(l, t, memory.next, |l.frozen|);
    LogGap(l, g.blocks, memory.next, |l.frozen|);
    EndBoundary(l);
    memory' := memory.(next := memory.pages);
    memory', totals', g' := ReleasePending(k, memory', totals, l.frozen, t, rest, g);
    PassPages(t.zero, k.released[memory.base], g', |l.frozen|);
    g' := g'.(frontier := |l.frozen|, counted := |l.frozen|);
    ScannedPast(l, t, |l.frozen|, None, k.memories[memory.base], k.released[memory.base], g', g'.blocks);
  }

  lemma EndBoundary(l: Layout)
    requires ValidLayout(l)
    ensures AtBoundary(l, |l.frozen|)
  {
  }

  /** Past an overlay: a run never spans one. */
  method SkipGap(k: Kernel, memory: MemoryScan, index: nat, totals: ZeroPages,
                 ghost l: Layout, ghost t: Target, ghost rest: ZeroPages, ghost g: Progress)
    returns (memory': MemoryScan, totals': ZeroPages, ghost g': Progress)
    requires Between(k, l, t, memory, g) && Tied(totals, rest, g.part)
    requires memory.next < |l.frozen| && memory.extents == l.extents
    requires index == FirstAfter(l.extents, memory.next) < |l.extents| && memory.next < l.extents[index].start
    modifies k`memories, k`released, k`madviseFailed
    ensures Between(k, l, t, memory', g') && Tied(totals', rest, g'.part)
    ensures memory' == memory.(next := l.extents[index].start, pending := None)
    ensures OthersKept(k, memory.base)
    ensures g'.blind == g.blind
  {
    hide BlockOf, Selected, KeptWhole, Undisturbed, Logged, AtBoundary, Covers;
    DescribesSound(l, t);
    var start := memory.extents[index].start;
    forall p: nat | memory.next <= p < start ensures !Covers(l.extents, p) { GapUncovered(l, memory.next, p); }
    UncoveredPages(l, t, memory.next, start);
    LogGap(l, g.blocks, memory.next, start);
    ExtentStartBoundary(l, index);
    memory', totals', g' := ReleasePending(k, memory, totals, l.frozen, t, rest, g);
    PassPages(t.zero, k.released[memory.base], g', start);
    memory' := memory'.(next := start);
    g' := g'.(frontier := start, counted := start);
    ScannedPast(l, t, start, None, k.memories[memory.base], k.released[memory.base], g', g'.blocks);
  }

  /** `mincore` failed: the rest of the memory is kept. */
  method GiveUp(k: Kernel, memory: MemoryScan, totals: ZeroPages,
                ghost l: Layout, ghost t: Target, ghost rest: ZeroPages, ghost g: Progress)
    returns (memory': MemoryScan, totals': ZeroPages, ghost g': Progress)
    requires Standing(k, l, t, memory, g) && Tied(totals, rest, g.part) && memory.pages == |l.frozen|
    modifies k`memories, k`released, k`madviseFailed
    ensures Standing(k, l, t, memory', g') && Tied(totals', rest, g'.part)
    ensures memory' == memory.(next := memory.pages, pending := None)
    ensures g' == g.(part := g'.part, lostRun := g'.lostRun, blind := true)
    ensures OthersKept(k, memory.base)
  {
    DescribesSound(l, t);
    memory' := memory.(next := memory.pages);
    memory', totals', g' := ReleasePending(k, memory', totals, l.frozen, t, rest, g);
    g' := g'.(blind := true);
  }

  /** Marks the pages of the block to be given back. */
  method MarkBlock(k: Kernel, base: nat, first: nat, last: nat, full: bool, resident: array<nat>, drop: array<bool>,
                   totals: ZeroPages, ghost l: Layout, ghost t: Target, ghost rest: ZeroPages, ghost g: Progress)
    returns (totals': ZeroPages, ghost g': Progress)
    requires ValidLayout(l) && Describes(l, t) && AsFrozen(k, l.frozen, base, first, last)
    requires Covers(l.extents, first) && BlockOf(l, first) == Range(first, last)
    requires last - first <= drop.Length && last - first <= resident.Length
    requires g.counted == first && Counted(t, g) && Tied(totals, rest, g.part)
    requires forall o :: 0 <= o < last - first ==> LowBit(resident[o]) == l.frozen[first + o].resident
    requires full <==> Unsplittable(l, Range(first, last))
    modifies drop
    ensures forall o :: 0 <= o < last - first ==> drop[o] == t.zero[first + o]
    ensures g' == g.(counted := last, part := g'.part)
    ensures g'.part == g.part.(resident := g'.part.resident, zero := g'.part.zero, keptBlocks := g'.part.keptBlocks)
    ensures Counted(t, g') && Tied(totals', rest, g'.part)
  {
    DescribesSound(l, t);
    if full {
      WholeBlockFlags(l, t, first, last);
      totals', g' := MarkWhole(k, base, first, last, drop, totals, l.frozen, t, rest, g);
    } else {
      OtherBlockFlags(l, t, first, last);
      totals', g' := MarkPages(k, base, first, last, resident, drop, totals, l.frozen, t, rest, g);
    }
  }

  /** Releases the marked block's runs and moves past it. */
  method FinishBlock(k: Kernel, memory: MemoryScan, last: nat, drop: array<bool>, totals: ZeroPages,
                     ghost frozen: seq<Page>, ghost t: Target, ghost rest: ZeroPages, ghost g: Progress)
    returns (memory': MemoryScan, totals': ZeroPages, ghost g': Progress)
    requires Underway(k, frozen, t, memory, g) && Tied(totals, rest, g.part)
    requires g.frontier == memory.next < last <= |frozen| == memory.pages
    requires Resumable(t.zero, memory.pending, memory.next)
    requires last - memory.next <= drop.Length
    requires forall o :: 0 <= o < last - memory.next ==> drop[o] == t.zero[memory.next + o]
    modifies k`memories, k`released, k`madviseFailed
    ensures memory' == memory.(next := last, pending := memory'.pending)
    ensures Underway(k, frozen, t, memory', g') && Tied(totals', rest, g'.part)
    ensures if last == |frozen| then memory'.pending.None? else Resumable(t.zero, memory'.pending, last)
    ensures OthersKept(k, memory.base)
    ensures g' == g.(frontier := last, part := g'.part, lostRun := g'.lostRun)
    ensures g'.part == g.part.(released := g'.part.released, runs := g'.part.runs)
  {
    memory', totals', g' := ReleaseRuns(k, memory, memory.next, last, drop, totals, frozen, t, rest, g);
    memory' := memory'.(next := last);
    if memory'.next >= memory'.pages {
      memory', totals', g' := ReleasePending(k, memory', totals', frozen, t, rest, g');
    }
  }

  /** Marks the block at `next` and releases its runs. */
  method TakeBlock(k: Kernel, memory: MemoryScan, last: nat, full: bool, resident: array<nat>, drop: array<bool>,
                   totals: ZeroPages, ghost l: Layout, ghost t: Target, ghost rest: ZeroPages, ghost g: Progress)
    returns (memory': MemoryScan, totals': ZeroPages, ghost g': Progress)
    requires Standing(k, l, t, memory, g) && Tied(totals, rest, g.part)
    requires !g.blind && memory.next < last <= |l.frozen| == memory.pages
    requires Covers(l.extents, memory.next) && BlockOf(l, memory.next) == Range(memory.next, last)
    requires AsFrozen(k, l.frozen, memory.base, memory.next, last)
    requires last - memory.next <= drop.Length && last - memory.next <= resident.Length
    requires forall o :: 0 <= o < last - memory.next ==> LowBit(resident[o]) == l.frozen[memory.next + o].resident
    requires full <==> Unsplittable(l, Range(memory.next, last))
    modifies k`memories, k`released, k`madviseFailed, drop
    ensures Standing(k, l, t, memory', g') && Tied(totals', rest, g'.part)
    ensures memory' == memory.(next := last, pending := memory'.pending)
    ensures g'.blocks == g.blocks + [Range(memory.next, last)] && !g'.blind
    ensures OthersKept(k, memory.base)
  {
    hide BlockOf, Logged, AtBoundary, ValidLayout, Undisturbed, Counted, Unsplittable, Selected, KeptWhole;
    ghost var blocks := g.blocks + [Range(memory.next, last)];
    LogBlock(l, g.blocks, memory.next, last);
    BlockEndBoundary(l, memory.next);
    totals', g' := MarkBlock(k, memory.base, memory.next, last, full, resident, drop, totals, l, t, rest, g);
    DescribesSound(l, t);
    memory', totals', g' := FinishBlock(k, memory, last, drop, totals', l.frozen, t, rest, g');
    ScannedPast(l, t, last, memory'.pending, k.memories[memory.base], k.released[memory.base], g', blocks);
    g' := g'.(blocks := blocks);
  }

  lemma BlockAsFrozen(k: Kernel, l: Layout, t: Target, memory: MemoryScan, g: Progress, last: nat)
    requires Standing(k, l, t, memory, g) && !g.blind
    requires Covers(l.extents, memory.next) && BlockOf(l, memory.next) == Range(memory.next, last)
    ensures AsFrozen(k, l.frozen, memory.base, memory.next, last)
  {
    forall p | memory.next <= p < last
      ensures k.memories[memory.base][p] == l.frozen[p] && l.frozen[p].Anonymous?
    {
      SameBlock(l, memory.next, p);
    }
  }

  lemma InAddressSpace(base: nat, end: nat, pages: nat, page: nat)
    requires end <= pages && base + pages * page <= USIZE_MAX
    ensures base + end * page <= USIZE_MAX
  {
    assert (pages - end) * page >= 0;
    Distribute(pages, end, page);
  }

  /** The block at a boundary, from its extent. */
  lemma BlockAtBoundary(l: Layout, p: nat, index: nat)
    requires ValidLayout(l) && AtBoundary(l, p)
    requires index == FirstAfter(l.extents, p) < |l.extents| && l.extents[index].start <= p
    ensures Covers(l.extents, p)
    ensures BlockOf(l, p) == Range(p, Min(l.extents[index].end, AlignDown(l.basePage + p, l.hugePages) + l.hugePages - l.basePage))
  {
    FirstAfterCovers(l.extents, |l.frozen|, p);
  }

  /** The source's arithmetic finds the block of the specification. */
  lemma BlockFound(l: Layout, memory: MemoryScan, page: nat, huge: nat, index: nat)
    requires ValidLayout(l) && Matches(l, memory, page, huge) && AtBoundary(l, memory.next)
    requires index == FirstAfter(l.extents, memory.next) < |l.extents| && l.extents[index].start <= memory.next
    ensures Covers(l.extents, memory.next)
    ensures var blockEnd := BlockEndAddress(memory.base, page, huge, l.extents[index].end, memory.next);
            && blockEnd >= memory.base
            && BlockOf(l, memory.next).start == memory.next
            && BlockOf(l, memory.next).end == (blockEnd - memory.base) / page
            && (blockEnd - (memory.base + memory.next * page) == huge
                <==> (blockEnd - memory.base) / page - memory.next == huge / page)
  {
    hide AlignDown, BlockOf, BlockEndAddress, AtBoundary;
    InAddressSpace(memory.base, l.extents[index].end, memory.pages, page);
    BlockEndInPages(memory.base, page, huge, l.extents[index].end, memory.next);
    BlockAtBoundary(l, memory.next, index);
    BlockEndAbove(memory.base, page, huge, l.extents[index].end, memory.next);
  }

  /** Where the block at `next` ends, and whether it is a whole huge page. */
  method FindBlock(memory: MemoryScan, page: nat, huge: nat, index: nat, ghost l: Layout)
    returns (last: nat, whole: bool)
    requires ValidLayout(l) && Matches(l, memory, page, huge) && AtBoundary(l, memory.next)
    requires index == FirstAfter(l.extents, memory.next) < |l.extents| && l.extents[index].start <= memory.next
    ensures Covers(l.extents, memory.next) && BlockOf(l, memory.next) == Range(memory.next, last)
    ensures whole <==> last - memory.next == l.hugePages
  {
    BlockFound(l, memory, page, huge, index);
    var addr := memory.base + memory.next * page;
    var blockEnd := BlockEndAddress(memory.base, page, huge, memory.extents[index].end, memory.next);
    last := (blockEnd - memory.base) / page;
    whole := blockEnd - addr == huge;
  }

  /** Scans the block at `next`, which is inside an extent. */
  method ScanAt(k: Kernel, memory: MemoryScan, index: nat, page: nat, huge: nat, totals: ZeroPages,
                resident: array<nat>, drop: array<bool>,
                ghost l: Layout, ghost t: Target, ghost rest: ZeroPages, ghost g: Progress)
    returns (memory': MemoryScan, totals': ZeroPages, ghost g': Progress)
    requires Matches(l, memory, page, huge) && Between(k, l, t, memory, g) && Tied(totals, rest, g.part)
    requires index == FirstAfter(l.extents, memory.next) < |l.extents| && l.extents[index].start <= memory.next
    requires memory.next < memory.pages
    requires resident.Length == drop.Length == l.hugePages
    modifies k, resident, drop
    ensures Between(k, l, t, memory', g') && Tied(totals', rest, g'.part)
    ensures memory' == memory.(next := memory'.next, pending := memory'.pending)
    ensures memory.next < memory'.next
    ensures OthersKept(k, memory.base)
  {
    hide BlockOf, Logged, AtBoundary, Undisturbed, Accounted, Counted, Describes, Selected, KeptWhole;
    var last, whole := FindBlock(memory, page, huge, index, l);
    hide FirstAfter, PossiblyHuge, Matches, ValidLayout;
    BlockAsFrozen(k, l, t, memory, g, last);
    var ok, full := ReadBlock(k, memory, last, whole, resident, l);
    if !ok {
      memory', totals', g' := GiveUp(k, memory, totals, l, t, rest, g);
      return;
    }
    memory', totals', g' := TakeBlock(k, memory, last, full, resident, drop, totals, l, t, rest, g);
  }

  /** Which pages of the block are resident, and whether it is to be kept whole. */
  method ReadBlock(k: Kernel, memory: MemoryScan, last: nat, whole: bool, resident: array<nat>, ghost l: Layout)
    returns (ok: bool, full: bool)
    requires memory.next < last <= |l.frozen| && last - memory.next <= resident.Length
    requires AsFrozen(k, l.frozen, memory.base, memory.next, last) && l.mappings == memory.mappings
    requires whole <==> last - memory.next == l.hugePages
    modifies resident, k`asked, k`mincoreFailed
    ensures k.asked == old(k.asked)[memory.base := AskedOf(old(k.asked), memory.base) + [Range(memory.next, last)]]
    ensures k.mincoreFailed == old(k.mincoreFailed) + if ok then {} else {memory.base}
    ensures ok ==> forall o :: 0 <= o < last - memory.next ==> LowBit(resident[o]) == l.frozen[memory.next + o].resident
    ensures ok ==> (full <==> Unsplittable(l, Range(memory.next, last)))
  {
    hide PossiblyHuge;
    var spareFullBlocks := FindHuge(memory.mappings, memory.next);
    full := false;
    ok := k.Mincore(memory.base, memory.next, last, resident);
    if ok {
      full := spareFullBlocks && whole && forall o :: 0 <= o < last - memory.next ==> LowBit(resident[o]);
      FullIsUnsplittable(l, memory.next, last, resident[..]);
    }
  }

  lemma FullIsUnsplittable(l: Layout, first: nat, last: nat, resident: seq<nat>)
    requires first < last <= |l.frozen| && last - first <= |resident|
    requires forall p :: first <= p < last ==> l.frozen[p].Anonymous?
    requires forall o :: 0 <= o < last - first ==> LowBit(resident[o]) == l.frozen[first + o].resident
    ensures (forall o :: 0 <= o < last - first ==> LowBit(resident[o])) <==> AllResident(l, Range(first, last))
  {
    if forall o :: 0 <= o < last - first ==> LowBit(resident[o]) {
      forall p | first <= p < last ensures l.frozen[p].resident { assert LowBit(resident[p - first]); }
    }
  }

  lemma SameExtentStart(l: Layout, index: nat)
    requires ValidLayout(l) && index < |l.extents|
    ensures FirstAfter(l.extents, l.extents[index].start) == index
  {
    assert InRange(l.extents[index], l.extents[index].start);
    SameExtent(l.extents, |l.frozen|, index, l.extents[index].start);
  }

  /**
   Scans the block at `next`, or skips to the next extent first, or finds the
   memory done. It always moves forward, indexes its scratch within bounds,
   and touches no other memory.
   */
  method ScanBlock(k: Kernel, memory: MemoryScan, page: nat, huge: nat, totals: ZeroPages,
                   resident: array<nat>, drop: array<bool>,
                   ghost l: Layout, ghost t: Target, ghost rest: ZeroPages, ghost g: Progress)
    returns (memory': MemoryScan, totals': ZeroPages, ghost g': Progress)
    requires Matches(l, memory, page, huge) && Between(k, l, t, memory, g) && Tied(totals, rest, g.part)
    requires memory.next < memory.pages
    requires resident.Length == drop.Length == l.hugePages
    modifies k, resident, drop
    ensures Between(k, l, t, memory', g') && Tied(totals', rest, g'.part)
    ensures memory' == memory.(next := memory'.next, pending := memory'.pending)
    ensures memory.next < memory'.next
    ensures OthersKept(k, memory.base)
  {
    var index := FindExtent(memory.extents, memory.next);
    if index == |memory.extents| {
      memory', totals', g' := EndScan(k, memory, totals, l, t, rest, g);
      return;
    }
    memory', totals', g' := memory, totals, g;
    if memory.next < memory.extents[index].start {
      memory', totals', g' := SkipGap(k, memory, index, totals, l, t, rest, g);
      SameExtentStart(l, index);
    }
    memory', totals', g' := ScanAt(k, memory', index, page, huge, totals', resident, drop, l, t, rest, g');
  }
}
