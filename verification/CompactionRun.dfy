/**
 The whole scan: preparing it from the linear memories and `smaps`, running
 it in slices, and forking in between.
 */
module CompactionRun {
  import opened Wrappers
  import opened Extents
  import opened Blocks
  import opened Scan
  import opened Compaction
  import Theorems = ScanTheorems

  /** A linear memory of the process. */
  datatype LinearMemory = LinearMemory(base: nat, len: nat, privateAnonymous: bool, overlays: seq<Overlay>)

  /** A mapping of the process: addresses, and whether it holds huge pages. */
  datatype Smap = Smap(start: nat, stop: nat, huge: bool)

  function DivCeil(x: nat, d: nat): nat
    requires d > 0
  {
    (x + d - 1) / d
  }

  // ----- huge pages by page index

  /** The first mapping sharing an address with page `p` decides. */
  ghost function HugeAt(smaps: seq<Smap>, base: nat, page: nat, p: nat): bool {
    if smaps == [] then true
    else if smaps[0].start < base + (p + 1) * page && base + p * page < smaps[0].stop then smaps[0].huge
    else HugeAt(smaps[1..], base, page, p)
  }

  lemma SmapPages(s: Smap, base: nat, page: nat, pages: nat, p: nat)
    requires page > 0 && p < pages && s.start < s.stop
    ensures var end := base + pages * page;
            && s.start < base + (p + 1) * page && base + p * page < s.stop
            <==>
            && s.start < end && s.stop > base
            && (Max(s.start, base) - base) / page <= p < DivCeil(Min(s.stop, end) - base, page)
  {
    var end := base + pages * page;
    ScaleOrder(p, pages, page);
    assert (p + 1) * page == p * page + page;
    assert (p + 1) * page <= pages * page by {
      if p + 1 < pages { ScaleOrder(p + 1, pages, page); }
    }
    if s.start < end && s.stop > base {
      DivBelow(Max(s.start, base) - base, p + 1, page);
      DivBelow(Min(s.stop, end) - base + page - 1, p + 1, page);
    }
  }

  /** The mappings a memory spans, as page index ranges. */
  method PageMappings(smaps: seq<Smap>, base: nat, page: nat, pages: nat) returns (mappings: seq<Mapping>)
    requires page > 0
    requires forall i :: 0 <= i < |smaps| ==> smaps[i].start < smaps[i].stop
    ensures forall p: nat :: p < pages ==> PossiblyHuge(mappings, p) == HugeAt(smaps, base, page, p)
  {
    mappings := [];
    var end := base + pages * page;
    var i := |smaps|;
    while i > 0
      invariant 0 <= i <= |smaps|
      invariant forall p: nat :: p < pages ==> PossiblyHuge(mappings, p) == HugeAt(smaps[i..], base, page, p)
    {
      i := i - 1;
      var s := smaps[i];
      assert smaps[i..][1..] == smaps[i + 1..];
      ghost var before := mappings;
      if s.start < end && s.stop > base {
        mappings := [Mapping((Max(s.start, base) - base) / page, DivCeil(Min(s.stop, end) - base, page), s.huge)] + mappings;
        assert mappings[1..] == before;
      }
      forall p: nat | p < pages
        ensures PossiblyHuge(mappings, p) == HugeAt(smaps[i..], base, page, p)
      {
        SmapPages(s, base, page, pages, p);
      }
    }
  }

  // ----- preparing a scan

  /** What the kernel holds for a linear memory: file pages where an overlay is. */
  ghost predicate Backs(pages: seq<Page>, m: LinearMemory, page: nat)
    requires page > 0
  {
    && |pages| == DivCeil(m.len, page)
    && m.base % page == 0 && m.base + |pages| * page <= USIZE_MAX
    && (forall i :: 0 <= i < |m.overlays| ==> m.base <= m.overlays[i].addr)
    && (forall p :: 0 <= p < |pages| ==> (pages[p].SharedFile? <==> Touched(m.overlays, m.base, page, p)))
  }

  /** Only private anonymous memories with a length are scanned. */
  predicate Scannable(m: LinearMemory) {
    m.privateAnonymous && m.len > 0
  }

  ghost function LayoutOf(memory: MemoryScan, page: nat, huge: nat, frozen: seq<Page>): Layout
    requires page > 0
  {
    Layout(memory.base / page, huge / page, memory.mappings, memory.extents, frozen)
  }

  ghost const NOTHING: Progress := Progress(0, 0, [], Part(0, 0, 0, 0, 0), false, false)

  /** A scan at its start: nothing looked at, nothing released. */
  lemma NothingScanned(l: Layout, released: seq<bool>)
    requires ValidLayout(l) && |released| == |l.frozen| && forall p :: 0 <= p < |released| ==> !released[p]
    requires |l.frozen| > 0
    ensures Scanned(l, TargetOf(l), 0, None, l.frozen, released, NOTHING)
  {
    hide Selected, KeptWhole;
    NothingSet(released, |released|);
    if Covers(l.extents, 0) {
      assert InRange(BlockOf(l, 0), 0);
    }
  }

  /** A page may be huge exactly where the mappings of the process say so. */
  ghost predicate HugeAsMapped(memory: MemoryScan, smaps: seq<Smap>, page: nat) {
    forall p: nat :: p < memory.pages ==> PossiblyHuge(memory.mappings, p) == HugeAt(smaps, memory.base, page, p)
  }

  method PrepareMemory(m: LinearMemory, page: nat, huge: nat, smaps: seq<Smap>, ghost frozen: seq<Page>)
    returns (memory: MemoryScan)
    requires page > 0 && huge > 0 && huge % page == 0
    requires Scannable(m) && Backs(frozen, m, page)
    requires forall i :: 0 <= i < |smaps| ==> smaps[i].start < smaps[i].stop
    ensures memory.base == m.base && memory.next == 0 && memory.pending.None?
    ensures Matches(LayoutOf(memory, page, huge, frozen), memory, page, huge)
    ensures ValidLayout(LayoutOf(memory, page, huge, frozen))
    ensures |frozen| > 0
    ensures HugeAsMapped(memory, smaps, page)
  {
    var pages := DivCeil(m.len, page);
    DivBelow(m.len + page - 1, 1, page);
    DivBelow(huge, 1, page);
    var mappings := PageMappings(smaps, m.base, page, pages);
    var extents := Subtract(m.overlays, m.base, page, pages);
    memory := MemoryScan(m.base, pages, mappings, extents, 0, None);
    Divides(huge, page);
  }

  // ----- totals over the memories

  ghost function SumParts(gs: seq<Progress>): Part {
    if gs == [] then Part(0, 0, 0, 0, 0)
    else
      var s := SumParts(gs[..|gs| - 1]);
      var p := gs[|gs| - 1].part;
      Part(s.resident + p.resident, s.zero + p.zero, s.released + p.released, s.keptBlocks + p.keptBlocks, s.runs + p.runs)
  }

  ghost predicate Adds(sum: Part, a: Part, b: Part) {
    && sum.resident == a.resident + b.resident && sum.zero == a.zero + b.zero
    && sum.released == a.released + b.released && sum.keptBlocks == a.keptBlocks + b.keptBlocks
    && sum.runs == a.runs + b.runs
  }

  /** The progress of the other memories. */
  function Others(gs: seq<Progress>, i: nat): seq<Progress>
    requires i < |gs|
  {
    gs[..i] + gs[i + 1..]
  }

  lemma {:induction false} SumSplit(gs: seq<Progress>, i: nat)
    requires i < |gs|
    ensures Adds(SumParts(gs), SumParts(Others(gs, i)), gs[i].part)
  {
    var n := |gs| - 1;
    if i == n {
      assert Others(gs, i) == gs[..n];
    } else {
      SumSplit(gs[..n], i);
      assert Others(gs, i)[..n - 1] == Others(gs[..n], i);
    }
  }

  ghost function WithParts(totals: ZeroPages, part: Part): ZeroPages {
    totals.(resident := part.resident, zero := part.zero, released := part.released,
            keptBlocks := part.keptBlocks, runs := part.runs)
  }

  function ExtentPages(extents: seq<Range>): int {
    if extents == [] then 0
    else ExtentPages(extents[..|extents| - 1]) + (extents[|extents| - 1].end - extents[|extents| - 1].start)
  }

  /** The extents' lengths add up to the anonymous pages. */
  lemma {:induction false} ExtentPagesCounted(l: Layout, flags: seq<bool>, k: nat)
    requires ValidLayout(l) && k <= |l.extents| && |flags| == |l.frozen|
    requires forall p :: 0 <= p < |flags| ==> flags[p] == l.frozen[p].Anonymous?
    ensures k < |l.extents| ==> ExtentPages(l.extents[..k]) == Count(flags, l.extents[k].start)
    ensures k == |l.extents| ==> ExtentPages(l.extents) == Count(flags, |flags|)
  {
    var from := if k == 0 then 0 else l.extents[k - 1].end;
    var to := if k == |l.extents| then |flags| else l.extents[k].start;
    if k > 0 {
      ExtentPagesCounted(l, flags, k - 1);
      var e := l.extents[k - 1];
      assert l.extents[..k][..k - 1] == l.extents[..k - 1];
      forall p | e.start <= p < e.end ensures flags[p] { assert InRange(e, p); }
      CountAll(flags, e.start, e.end);
    }
    assert l.extents[..|l.extents|] == l.extents;
    GapIsNotAnonymous(l, k);
    CountNone(flags, from, to);
  }

  /** Between two extents, before the first and after the last, no page is anonymous. */
  lemma GapIsNotAnonymous(l: Layout, k: nat)
    requires ValidLayout(l) && k <= |l.extents|
    ensures var from := if k == 0 then 0 else l.extents[k - 1].end;
            var to := if k == |l.extents| then |l.frozen| else l.extents[k].start;
            from <= to <= |l.frozen| && forall p :: from <= p < to ==> !l.frozen[p].Anonymous?
  {
    assert k > 0 ==> forall i :: 0 <= i < k ==> l.extents[i].end <= l.extents[k - 1].end;
  }

  // ----- the running scan

  /** Pages still ahead of the scan. */
  function Remaining(memories: seq<MemoryScan>): nat {
    if memories == [] then 0
    else
      var m := memories[|memories| - 1];
      Remaining(memories[..|memories| - 1]) + (if m.next < m.pages then m.pages - m.next else 0)
  }

  lemma {:induction false} RemainingFalls(memories: seq<MemoryScan>, i: nat, m: MemoryScan)
    requires i < |memories| && m.pages == memories[i].pages
    requires memories[i].next < m.next && memories[i].next < m.pages
    ensures Remaining(memories[i := m]) < Remaining(memories)
  {
    var n := |memories| - 1;
    if i == n {
      assert memories[i := m][..n] == memories[..n];
    } else {
      assert memories[i := m][..n] == memories[..n][i := m];
      RemainingFalls(memories[..n], i, m);
    }
  }

  /** What a kernel holds of the linear memories, by base address. */
  datatype Held = Held(pages: map<nat, seq<Page>>, released: map<nat, seq<bool>>, madviseFailed: set<nat>,
                       asked: map<nat, seq<Range>>, mincoreFailed: set<nat>)

  ghost function HeldBy(k: Kernel): Held
    reads k
  {
    Held(k.memories, k.released, k.madviseFailed, k.asked, k.mincoreFailed)
  }

  /** One memory is scanned so far as its progress says, from what was frozen. */
  ghost predicate Tracked(held: Held, original: map<nat, seq<Page>>, page: nat, huge: nat, memory: MemoryScan, g: Progress)
    requires page > 0
  {
    && memory.base in original && memory.base in held.pages && memory.base in held.released
    && var l := LayoutOf(memory, page, huge, original[memory.base]);
       && Matches(l, memory, page, huge)
       && ValidLayout(l)
       && Scanned(l, TargetOf(l), memory.next, memory.pending, held.pages[memory.base], held.released[memory.base], g)
       && (g.lostRun <==> memory.base in held.madviseFailed)
       && Recorded(l, AskedOf(held.asked, memory.base), memory.base in held.mincoreFailed, g)
  }

  ghost predicate NotScanned(memories: seq<MemoryScan>, b: nat) {
    forall i :: 0 <= i < |memories| ==> memories[i].base != b
  }

  /** Every memory under scan is tracked; every other memory is as it was frozen. */
  ghost predicate AllTracked(held: Held, original: map<nat, seq<Page>>, page: nat, huge: nat,
                             memories: seq<MemoryScan>, progress: seq<Progress>)
    requires page > 0
  {
    && |progress| == |memories|
    && (forall i, j :: 0 <= i < j < |memories| ==> memories[i].base != memories[j].base)
    && (forall i :: 0 <= i < |memories| ==> Tracked(held, original, page, huge, memories[i], progress[i]))
    && held.pages.Keys == held.released.Keys == original.Keys
    && (forall b :: b in original && NotScanned(memories, b) ==> held.pages[b] == original[b])
  }

  ghost predicate OthersHeld(before: Held, after: Held, base: nat) {
    && after.pages.Keys == before.pages.Keys
    && after.released.Keys == before.released.Keys
    && (forall b :: b in after.pages && b != base ==> after.pages[b] == before.pages[b])
    && (forall b :: b in after.released && b != base ==> after.released[b] == before.released[b])
    && (forall b :: b != base ==> (b in after.madviseFailed <==> b in before.madviseFailed))
    && (forall b :: b != base ==> (b in after.mincoreFailed <==> b in before.mincoreFailed))
    && (forall b :: b != base ==> AskedOf(after.asked, b) == AskedOf(before.asked, b))
  }

  lemma MatchesStill(l: Layout, memory: MemoryScan, memory': MemoryScan, page: nat, huge: nat)
    requires Matches(l, memory, page, huge)
    requires memory' == memory.(next := memory'.next, pending := memory'.pending)
    ensures Matches(l, memory', page, huge)
  {
  }

  lemma TrackedElsewhere(before: Held, after: Held, original: map<nat, seq<Page>>, page: nat, huge: nat,
                         memory: MemoryScan, g: Progress, base: nat)
    requires page > 0 && Tracked(before, original, page, huge, memory, g)
    requires OthersHeld(before, after, base) && memory.base != base
    ensures Tracked(after, original, page, huge, memory, g)
  {
    hide Scanned, ValidLayout, TargetOf, LayoutOf, Matches, Recorded, AskedOf;
  }

  lemma NotScannedStill(memories: seq<MemoryScan>, i: nat, memory: MemoryScan, b: nat)
    requires i < |memories| && memory.base == memories[i].base
    ensures NotScanned(memories[i := memory], b) <==> NotScanned(memories, b)
    ensures NotScanned(memories, b) ==> b != memory.base
  {
    var memories' := memories[i := memory];
    assert forall j :: 0 <= j < |memories| ==> memories'[j].base == memories[j].base;
  }

  lemma TrackedAt(held: Held, original: map<nat, seq<Page>>, page: nat, huge: nat,
                  memories: seq<MemoryScan>, progress: seq<Progress>, i: nat)
    requires page > 0 && AllTracked(held, original, page, huge, memories, progress) && i < |memories|
    ensures |progress| == |memories| && Tracked(held, original, page, huge, memories[i], progress[i])
  {
  }

  lemma OthersAlike(progress: seq<Progress>, i: nat, g: Progress)
    requires i < |progress|
    ensures Others(progress[i := g], i) == Others(progress, i)
  {
  }

  /** One memory moved on, and nothing else did. */
  lemma OneMoved(before: Held, after: Held, original: map<nat, seq<Page>>, page: nat, huge: nat,
                 memories: seq<MemoryScan>, progress: seq<Progress>, i: nat, memory: MemoryScan, g: Progress)
    requires page > 0 && AllTracked(before, original, page, huge, memories, progress)
    requires i < |memories| && memory.base == memories[i].base
    requires OthersHeld(before, after, memory.base)
    requires Tracked(after, original, page, huge, memory, g)
    ensures AllTracked(after, original, page, huge, memories[i := memory], progress[i := g])
  {
    hide Tracked, NotScanned;
    var memories', progress' := memories[i := memory], progress[i := g];
    forall j | 0 <= j < |memories'|
      ensures Tracked(after, original, page, huge, memories'[j], progress'[j])
    {
      if j != i {
        TrackedElsewhere(before, after, original, page, huge, memories[j], progress[j], memory.base);
      }
    }
    forall b | b in original && NotScanned(memories', b)
      ensures after.pages[b] == original[b]
    {
      NotScannedStill(memories, i, memory, b);
    }
  }

  /** The words of every memory, as guest code would read them. */
  ghost function View(memories: map<nat, seq<Page>>): map<nat, seq<seq<int>>> {
    map b | b in memories :: seq(|memories[b]|, p requires 0 <= p < |memories[b]| => memories[b][p].words)
  }

  class ZeroPageScan {
    const page: nat
    const huge: nat
    const kernel: Kernel
    const resident: array<nat>
    const drop: array<bool>
    var memories: seq<MemoryScan>
    var totals: ZeroPages
    /** The memories as they were frozen. */
    ghost const original: map<nat, seq<Page>>
    ghost var progress: seq<Progress>

    ghost function Memory(): Held
      reads kernel
    {
      HeldBy(kernel)
    }

    ghost predicate Valid()
      reads this, kernel
    {
      && page > 0 && huge > 0 && huge % page == 0
      && resident.Length == drop.Length == huge / page
      && AllTracked(Memory(), original, page, huge, memories, progress)
      && totals == WithParts(totals, SumParts(progress))
    }

    predicate Done()
      reads this
    {
      forall i :: 0 <= i < |memories| ==> memories[i].next >= memories[i].pages
    }

    constructor (kernel: Kernel, memories: seq<MemoryScan>, page: nat, huge: nat, totals: ZeroPages)
      requires page > 0 && huge > 0 && huge % page == 0
      requires AllTracked(HeldBy(kernel), kernel.memories, page, huge,
                          memories, seq(|memories|, i => NOTHING))
      requires totals == WithParts(totals, Part(0, 0, 0, 0, 0))
      ensures Valid() && fresh(resident) && fresh(drop)
      ensures original == kernel.memories && this.kernel == kernel && this.memories == memories && this.totals == totals
    {
      this.kernel, this.memories, this.page, this.huge, this.totals := kernel, memories, page, huge, totals;
      this.resident := new nat[huge / page];
      this.drop := new bool[huge / page];
      this.original := kernel.memories;
      this.progress := seq(|memories|, i => NOTHING);
      new;
      hide AllTracked;
      NothingSummed(progress);
    }

    /** Scans one block of memory `i`. */
    method ScanOne(i: nat)
      requires Valid() && i < |memories| && memories[i].next < memories[i].pages
      modifies this, kernel, resident, drop
      ensures Valid()
      ensures Remaining(memories) < old(Remaining(memories))
      ensures |memories| == |old(memories)|
    {
      hide Scanned, ValidLayout, SumParts, Remaining, TargetOf, Matches, AllTracked, Others, Recorded, AskedOf;
      ghost var before := Memory();
      TrackedAt(before, original, page, huge, memories, progress, i);
      ghost var l := LayoutOf(memories[i], page, huge, original[memories[i].base]);
      ghost var others := SumParts(Others(progress, i));
      SumSplit(progress, i);
      var memory, sums;
      ghost var g;
      memory, sums, g := ScanBlock(kernel, memories[i], page, huge, totals, resident, drop,
                                   l, TargetOf(l), WithParts(totals, others), progress[i]);
      RemainingFalls(memories, i, memory);
      MatchesStill(l, memories[i], memory, page, huge);
      SumSplit(progress[i := g], i);
      OthersAlike(progress, i, g);
      OneMoved(before, Memory(), original, page, huge, memories, progress, i, memory, g);
      memories, totals, progress := memories[i := memory], sums, progress[i := g];
    }

    /** The first memory with pages left, or the number of memories. */
    method FindUnfinished() returns (i: nat)
      ensures i <= |memories|
      ensures i < |memories| ==> memories[i].next < memories[i].pages
      ensures i == |memories| <==> Done()
    {
      i := 0;
      while i < |memories| && memories[i].next >= memories[i].pages
        invariant i <= |memories|
        invariant forall j :: 0 <= j < i ==> memories[j].next >= memories[j].pages
      {
        i := i + 1;
      }
    }

    /**
     One slice: blocks until `budget` of them are scanned (the clock allows at
     least one) or every memory is done. A slice never leaves the scan where
     it was unless it is done.
     */
    method Step(budget: nat) returns (done: bool)
      requires Valid()
      modifies this, kernel, resident, drop
      ensures Valid()
      ensures done == Done()
      ensures !old(Done()) ==> Remaining(memories) < old(Remaining(memories))
      ensures forall i :: 0 <= i < |memories| && done
                          && memories[i].base !in kernel.madviseFailed && memories[i].base !in kernel.mincoreFailed ==>
                ReleasedExactly(Memory(), original, page, huge, memories[i])
      ensures totals.released == ReleasedPages(Memory(), memories) && totals.runs == ReleasedRuns(Memory(), memories)
    {
      hide AllTracked, SumParts, Remaining, ReleasedExactly, ReleasedPages, ReleasedRuns;
      var scanned := 0;
      var i: nat := FindUnfinished();
      while i < |memories|
        invariant Valid()
        invariant i <= |memories|
        invariant i < |memories| ==> memories[i].next < memories[i].pages
        invariant i == |memories| ==> Done()
        invariant scanned == 0 ==> Remaining(memories) == old(Remaining(memories)) && memories == old(memories)
        invariant scanned > 0 ==> Remaining(memories) < old(Remaining(memories))
        decreases Remaining(memories)
      {
        ScanOne(i);
        scanned := scanned + 1;
        if scanned >= budget {
          break;
        }
        i := FindUnfinished();
      }
      var left := FindUnfinished();
      done := left == |memories|;
      SliceSays(Memory(), original, page, huge, memories, progress);
    }
  }

  // ----- what a scan keeps and what it ends with

  lemma SliceSays(held: Held, original: map<nat, seq<Page>>, page: nat, huge: nat,
                  memories: seq<MemoryScan>, progress: seq<Progress>)
    requires page > 0 && AllTracked(held, original, page, huge, memories, progress)
    ensures forall i :: 0 <= i < |memories| && memories[i].next >= memories[i].pages
                        && memories[i].base !in held.madviseFailed && memories[i].base !in held.mincoreFailed ==>
              ReleasedExactly(held, original, page, huge, memories[i])
    ensures SumParts(progress).released == ReleasedPages(held, memories)
    ensures SumParts(progress).runs == ReleasedRuns(held, memories)
  {
    TotalsExact(held, original, page, huge, memories, progress);
    hide AllTracked, ReleasedExactly;
    forall i | 0 <= i < |memories| && memories[i].next >= memories[i].pages
               && memories[i].base !in held.madviseFailed && memories[i].base !in held.mincoreFailed
      ensures ReleasedExactly(held, original, page, huge, memories[i])
    {
      ScanFinished(held, original, page, huge, memories, progress, i);
    }
  }

  /** However far the scan has got, every memory reads as it was frozen. */
  lemma ViewKept(held: Held, original: map<nat, seq<Page>>, page: nat, huge: nat,
                 memories: seq<MemoryScan>, progress: seq<Progress>)
    requires page > 0 && AllTracked(held, original, page, huge, memories, progress)
    ensures View(held.pages) == View(original)
  {
    hide Tracked;
    forall b | b in original
      ensures View(held.pages)[b] == View(original)[b]
    {
      if !NotScanned(memories, b) {
        var i :| 0 <= i < |memories| && memories[i].base == b;
        FrozenOf(held, original, page, huge, memories[i], progress[i]);
      }
    }
    assert View(held.pages).Keys == View(original).Keys;
  }

  lemma FrozenOf(held: Held, original: map<nat, seq<Page>>, page: nat, huge: nat, memory: MemoryScan, g: Progress)
    requires page > 0 && Tracked(held, original, page, huge, memory, g)
    ensures Undisturbed(original[memory.base], held.pages[memory.base], held.released[memory.base])
  {
  }

  /**
   Done, and no call for the memory ever failed: exactly the specified pages
   are released, nothing is pending, and the totals are those of the pages.
   */
  lemma ScanFinished(held: Held, original: map<nat, seq<Page>>, page: nat, huge: nat,
                     memories: seq<MemoryScan>, progress: seq<Progress>, i: nat)
    requires page > 0 && AllTracked(held, original, page, huge, memories, progress) && i < |memories|
    requires memories[i].next >= memories[i].pages
    requires memories[i].base !in held.madviseFailed && memories[i].base !in held.mincoreFailed
    ensures ReleasedExactly(held, original, page, huge, memories[i])
    ensures progress[i].part.released == progress[i].part.zero
  {
    hide Scanned, ValidLayout, Selected;
    TrackedAt(held, original, page, huge, memories, progress, i);
    var l := LayoutOf(memories[i], page, huge, original[memories[i].base]);
    Theorems.FinishedScan(l, TargetOf(l), memories[i].next, memories[i].pending, held.pages[memories[i].base],
                          held.released[memories[i].base], progress[i]);
    ScannedSizes(l, TargetOf(l), memories[i].next, memories[i].pending, held.pages[memories[i].base],
                 held.released[memories[i].base], progress[i]);
  }

  /** The released pages of the memory are the specification's, and nothing is pending. */
  ghost predicate ReleasedExactly(held: Held, original: map<nat, seq<Page>>, page: nat, huge: nat, memory: MemoryScan)
    requires page > 0
  {
    && memory.base in original && memory.base in held.released && memory.pending.None?
    && var l := LayoutOf(memory, page, huge, original[memory.base]);
       && ValidLayout(l) && |held.released[memory.base]| == |l.frozen|
       && (forall p :: 0 <= p < |l.frozen| ==> (held.released[memory.base][p] <==> Selected(l, p)))
  }

  lemma ScannedSizes(l: Layout, t: Target, next: nat, pending: Option<Range>, now: seq<Page>, released: seq<bool>, g: Progress)
    requires Scanned(l, t, next, pending, now, released, g)
    ensures ValidLayout(l) && |released| == |l.frozen|
    ensures g.part.released == Count(released, |released|) && g.part.runs == Runs(released, |released|)
  {
  }

  /** While no `madvise` for the memory failed, its zero pages are the released and the pending ones. */
  lemma ZeroAccounted(held: Held, original: map<nat, seq<Page>>, page: nat, huge: nat,
                      memories: seq<MemoryScan>, progress: seq<Progress>, i: nat)
    requires page > 0 && AllTracked(held, original, page, huge, memories, progress) && i < |memories|
    requires memories[i].base !in held.madviseFailed
    ensures progress[i].part.zero == progress[i].part.released + Theorems.PendingPages(memories[i].pending)
  {
    hide Scanned, ValidLayout;
    TrackedAt(held, original, page, huge, memories, progress, i);
    var l := LayoutOf(memories[i], page, huge, original[memories[i].base]);
    Theorems.ZeroIsReleasedOrPending(l, TargetOf(l), memories[i].next, memories[i].pending, held.pages[memories[i].base],
                                     held.released[memories[i].base], progress[i]);
  }

  /** Pages given back, over the memories. */
  ghost function ReleasedPages(held: Held, memories: seq<MemoryScan>): nat {
    if memories == [] then 0
    else
      var b := memories[|memories| - 1].base;
      ReleasedPages(held, memories[..|memories| - 1]) + if b in held.released then Count(held.released[b], |held.released[b]|) else 0
  }

  /** Maximal runs given back, over the memories. */
  ghost function ReleasedRuns(held: Held, memories: seq<MemoryScan>): nat {
    if memories == [] then 0
    else
      var b := memories[|memories| - 1].base;
      ReleasedRuns(held, memories[..|memories| - 1]) + if b in held.released then Runs(held.released[b], |held.released[b]|) else 0
  }

  /** At any moment, whatever failed, the totals count the pages given back and their maximal runs. */
  lemma {:induction false} TotalsExact(held: Held, original: map<nat, seq<Page>>, page: nat, huge: nat,
                                       memories: seq<MemoryScan>, progress: seq<Progress>)
    requires page > 0 && |progress| == |memories|
    requires forall i :: 0 <= i < |memories| ==> Tracked(held, original, page, huge, memories[i], progress[i])
    ensures SumParts(progress).released == ReleasedPages(held, memories)
    ensures SumParts(progress).runs == ReleasedRuns(held, memories)
    decreases |memories|
  {
    hide Scanned;
    var n := |memories| - 1;
    if n >= 0 {
      TotalsExact(held, original, page, huge, memories[..n], progress[..n]);
      assert Tracked(held, original, page, huge, memories[n], progress[n]);
      var l := LayoutOf(memories[n], page, huge, original[memories[n].base]);
      ScannedSizes(l, TargetOf(l), memories[n].next, memories[n].pending, held.pages[memories[n].base],
                   held.released[memories[n].base], progress[n]);
    }
  }

  /**
   At any moment, whatever failed, a huge-page-aligned block inside one extent
   was asked about at most once and only as that block; and it was asked about
   once the scan is past it, unless `mincore` failed for the memory.
   */
  lemma AlignedBlockAskedOnce(held: Held, original: map<nat, seq<Page>>, page: nat, huge: nat,
                              memories: seq<MemoryScan>, progress: seq<Progress>, i: nat, k: nat, r: Range)
    requires page > 0 && AllTracked(held, original, page, huge, memories, progress) && i < |memories|
    requires memories[i].base in original
    requires var l := LayoutOf(memories[i], page, huge, original[memories[i].base]);
             && l.hugePages > 0 && k < |l.extents|
             && l.extents[k].start <= r.start && r.end <= l.extents[k].end && r.end == r.start + l.hugePages
             && (l.basePage + r.start) % l.hugePages == 0
    ensures var asked := AskedOf(held.asked, memories[i].base);
            && (forall j, p :: 0 <= j < |asked| && InRange(asked[j], p) && InRange(r, p) ==> asked[j] == r)
            && (forall j, m :: 0 <= j < |asked| && 0 <= m < |asked| && asked[j] == r && asked[m] == r ==> j == m)
            && (r.start < memories[i].next && memories[i].base !in held.mincoreFailed ==> r in asked)
  {
    hide AllTracked, Scanned, ValidLayout, Matches, Recorded, Logged, AtBoundary, AskedOf, TargetOf;
    TrackedAt(held, original, page, huge, memories, progress, i);
    var l := LayoutOf(memories[i], page, huge, original[memories[i].base]);
    ScannedLog(l, TargetOf(l), memories[i].next, memories[i].pending, held.pages[memories[i].base],
               held.released[memories[i].base], progress[i]);
    RecordedBlind(l, AskedOf(held.asked, memories[i].base), memories[i].base in held.mincoreFailed, progress[i]);
    AskedOnce(l, AskedOf(held.asked, memories[i].base), memories[i].base in held.mincoreFailed, progress[i], k, r);
  }

  lemma ScannedLog(l: Layout, t: Target, next: nat, pending: Option<Range>, now: seq<Page>, released: seq<bool>, g: Progress)
    requires Scanned(l, t, next, pending, now, released, g)
    ensures ValidLayout(l) && Logged(l, g.blocks, g.frontier) && AtBoundary(l, g.frontier)
    ensures !g.blind ==> next == g.frontier
  {
  }

  lemma RecordedBlind(l: Layout, asked: seq<Range>, failed: bool, g: Progress)
    requires ValidLayout(l) && Recorded(l, asked, failed, g)
    ensures g.blind <==> failed
  {
  }

  lemma AskedOnce(l: Layout, asked: seq<Range>, failed: bool, g: Progress, k: nat, r: Range)
    requires ValidLayout(l) && Logged(l, g.blocks, g.frontier) && AtBoundary(l, g.frontier) && Recorded(l, asked, failed, g)
    requires k < |l.extents|
    requires l.extents[k].start <= r.start && r.end <= l.extents[k].end && r.end == r.start + l.hugePages
    requires (l.basePage + r.start) % l.hugePages == 0
    ensures forall j, p :: 0 <= j < |asked| && InRange(asked[j], p) && InRange(r, p) ==> asked[j] == r
    ensures forall j, m :: 0 <= j < |asked| && 0 <= m < |asked| && asked[j] == r && asked[m] == r ==> j == m
    ensures r.start < g.frontier && !failed ==> r in asked
  {
    Theorems.AlignedIsBlock(l, k, r);
    hide BlockOf, ValidLayout, Covers;
    forall j: nat, p: nat | j < |asked| && InRange(asked[j], p) && InRange(r, p)
      ensures asked[j] == r
    {
      hide Logged;
      AskedIsBlock(l, asked, failed, g, j);
      SameBlock(l, asked[j].start, p);
      SameBlock(l, r.start, p);
    }
    AskedInOrder(l, asked, failed, g);
  }

  lemma AskedIsBlock(l: Layout, asked: seq<Range>, failed: bool, g: Progress, j: nat)
    requires ValidLayout(l) && Logged(l, g.blocks, g.frontier) && AtBoundary(l, g.frontier) && Recorded(l, asked, failed, g)
    requires j < |asked|
    ensures Covers(l.extents, asked[j].start) && BlockOf(l, asked[j].start) == asked[j]
  {
    hide BlockOf, ValidLayout, Covers;
    if j < |g.blocks| {
      assert asked[j] == g.blocks[j];
    }
  }

  lemma AskedInOrder(l: Layout, asked: seq<Range>, failed: bool, g: Progress)
    requires ValidLayout(l) && Logged(l, g.blocks, g.frontier) && AtBoundary(l, g.frontier) && Recorded(l, asked, failed, g)
    ensures forall j, m :: 0 <= j < m < |asked| ==> asked[j].end <= asked[m].start
  {
    hide BlockOf, ValidLayout, Covers;
    forall j, m | 0 <= j < m < |asked|
      ensures asked[j].end <= asked[m].start
    {
      assert asked[j] == g.blocks[j];
    }
  }

  // ----- slices and forks in any order

  datatype Event = Slice(budget: nat) | Fork

  /**
   The frozen host's loop as the scan sees it: slices while one is under way,
   and forks at any point between them. Every clone starts with the frozen
   memory, word for word, and so is the template's own at the end.
   */
  method Serve(scan: ZeroPageScan, schedule: seq<Event>) returns (clones: seq<map<nat, seq<Page>>>)
    requires scan.Valid()
    modifies scan, scan.kernel, scan.resident, scan.drop
    ensures scan.Valid()
    ensures forall j :: 0 <= j < |clones| ==> View(clones[j]) == View(scan.original)
    ensures View(scan.kernel.memories) == View(scan.original)
  {
    hide AllTracked, View, SumParts;
    clones := [];
    var compaction := true;
    for i := 0 to |schedule|
      invariant scan.Valid()
      invariant forall j :: 0 <= j < |clones| ==> View(clones[j]) == View(scan.original)
    {
      match schedule[i]
      case Slice(budget) =>
        if compaction {
          var done := scan.Step(budget);
          compaction := !done;
        }
      case Fork =>
        ViewKept(scan.Memory(), scan.original, scan.page, scan.huge, scan.memories, scan.progress);
        clones := clones + [scan.kernel.memories];
    }
    ViewKept(scan.Memory(), scan.original, scan.page, scan.huge, scan.memories, scan.progress);
  }

  // ----- start

  function PagesOf(memories: seq<MemoryScan>): nat {
    if memories == [] then 0 else PagesOf(memories[..|memories| - 1]) + memories[|memories| - 1].pages
  }

  function ScannedOf(memories: seq<MemoryScan>): int {
    if memories == [] then 0
    else ScannedOf(memories[..|memories| - 1]) + ExtentPages(memories[|memories| - 1].extents)
  }

  ghost predicate IsScannable(linear: seq<LinearMemory>, base: nat) {
    exists j :: 0 <= j < |linear| && Scannable(linear[j]) && linear[j].base == base
  }

  /** The memories gathered from the first `i`: all of those that can be scanned, and no other. */
  ghost predicate Gathered(linear: seq<LinearMemory>, i: nat, memories: seq<MemoryScan>)
    requires i <= |linear|
  {
    && (forall k :: 0 <= k < |memories| ==> IsScannable(linear[..i], memories[k].base))
    && (forall j :: 0 <= j < i && Scannable(linear[j]) ==> !NotScanned(memories, linear[j].base))
  }

  lemma StillScannable(linear: seq<LinearMemory>, i: nat, base: nat)
    requires i < |linear| && IsScannable(linear[..i], base)
    ensures IsScannable(linear[..i + 1], base)
  {
    var some := linear[..i];
    var j :| 0 <= j < |some| && Scannable(some[j]) && some[j].base == base;
    assert linear[..i + 1][j] == some[j];
  }

  lemma GatherSkip(linear: seq<LinearMemory>, i: nat, memories: seq<MemoryScan>)
    requires i < |linear| && Gathered(linear, i, memories) && !Scannable(linear[i])
    ensures Gathered(linear, i + 1, memories)
  {
    hide IsScannable;
    forall k | 0 <= k < |memories| ensures IsScannable(linear[..i + 1], memories[k].base) {
      StillScannable(linear, i, memories[k].base);
    }
  }

  lemma GatherMore(linear: seq<LinearMemory>, i: nat, memories: seq<MemoryScan>, memory: MemoryScan)
    requires i < |linear| && Gathered(linear, i, memories) && Scannable(linear[i]) && memory.base == linear[i].base
    requires forall i, j :: 0 <= i < j < |linear| ==> linear[i].base != linear[j].base
    ensures NotScanned(memories, memory.base)
    ensures Gathered(linear, i + 1, memories + [memory])
  {
    var after := memories + [memory];
    forall k | 0 <= k < |memories| ensures memories[k].base != memory.base {
      assert IsScannable(linear[..i], memories[k].base);
    }
    forall k | 0 <= k < |after| ensures IsScannable(linear[..i + 1], after[k].base) {
      if k < |memories| {
        StillScannable(linear, i, memories[k].base);
      } else {
        assert linear[..i + 1][i] == linear[i];
      }
    }
    assert after[|memories|].base == linear[i].base;
    forall j | 0 <= j < i && Scannable(linear[j]) ensures !NotScanned(after, linear[j].base) {
      var k :| 0 <= k < |memories| && memories[k].base == linear[j].base;
      assert after[k] == memories[k];
    }
  }

  lemma GatheredAll(linear: seq<LinearMemory>, memories: seq<MemoryScan>, i: nat)
    requires i < |linear| && Gathered(linear, |linear|, memories)
    requires forall i, j :: 0 <= i < j < |linear| ==> linear[i].base != linear[j].base
    ensures Scannable(linear[i]) <==> !NotScanned(memories, linear[i].base)
  {
    if !NotScanned(memories, linear[i].base) {
      var k :| 0 <= k < |memories| && memories[k].base == linear[i].base;
      assert linear[..|linear|] == linear && IsScannable(linear, memories[k].base);
    }
  }

  /** The scan of every private anonymous memory with a length, and of no other. */
  method Start(kernel: Kernel, linear: seq<LinearMemory>, smaps: seq<Smap>, page: nat, huge: nat)
    returns (scan: ZeroPageScan)
    requires page > 0 && huge > 0 && huge % page == 0
    requires forall i :: 0 <= i < |smaps| ==> smaps[i].start < smaps[i].stop
    requires forall i, j :: 0 <= i < j < |linear| ==> linear[i].base != linear[j].base
    requires kernel.memories.Keys == kernel.released.Keys
    requires forall b :: b in kernel.memories ==> kernel.released[b] == seq(|kernel.memories[b]|, i => false)
    requires kernel.madviseFailed == {} && kernel.asked == map[] && kernel.mincoreFailed == {}
    requires forall i :: 0 <= i < |linear| && Scannable(linear[i]) ==>
               linear[i].base in kernel.memories && Backs(kernel.memories[linear[i].base], linear[i], page)
    ensures fresh(scan) && fresh(scan.resident) && fresh(scan.drop) && scan.kernel == kernel
    ensures scan.Valid() && scan.original == kernel.memories
    ensures forall i :: 0 <= i < |linear| ==>
              (linear[i].privateAnonymous && linear[i].len > 0 <==> !NotScanned(scan.memories, linear[i].base))
    ensures forall k :: 0 <= k < |scan.memories| ==> HugeAsMapped(scan.memories[k], smaps, page)
    ensures scan.totals.memories == |scan.memories|
    ensures scan.totals.scanned + scan.totals.overlay == PagesOf(scan.memories)
    ensures scan.totals.scanned == ScannedOf(scan.memories)
  {
    hide AllTracked, Tracked, PagesOf, ScannedOf, Backs, Gathered, NotScanned, HugeAsMapped;
    var memories: seq<MemoryScan> := [];
    ghost var held := HeldBy(kernel);
    NothingGathered(held, page, huge, linear);
    for i := 0 to |linear|
      invariant AllTracked(held, kernel.memories, page, huge, memories, seq(|memories|, i => NOTHING))
      invariant Gathered(linear, i, memories)
      invariant forall k :: 0 <= k < |memories| ==> HugeAsMapped(memories[k], smaps, page)
    {
      if Scannable(linear[i]) {
        ghost var frozen := kernel.memories[linear[i].base];
        var memory := PrepareMemory(linear[i], page, huge, smaps, frozen);
        FreshlyTracked(held, page, huge, memory);
        GatherMore(linear, i, memories, memory);
        OneMore(held, kernel.memories, page, huge, memories, memory);
        memories := memories + [memory];
      } else {
        GatherSkip(linear, i, memories);
      }
    }
    CountTracked(held, kernel.memories, page, huge, memories);
    var scanned: nat := ScannedOf(memories);
    var totals := ZeroPages(|memories|, scanned, PagesOf(memories) - scanned, 0, 0, 0, 0, 0);
    scan := new ZeroPageScan(kernel, memories, page, huge, totals);
    forall i | 0 <= i < |linear| ensures Scannable(linear[i]) <==> !NotScanned(memories, linear[i].base) {
      GatheredAll(linear, memories, i);
    }
  }

  lemma NothingGathered(held: Held, page: nat, huge: nat, linear: seq<LinearMemory>)
    requires page > 0 && held.pages.Keys == held.released.Keys
    ensures AllTracked(held, held.pages, page, huge, [], seq(0, i => NOTHING)) && Gathered(linear, 0, [])
  {
  }

  lemma CountTracked(held: Held, original: map<nat, seq<Page>>, page: nat, huge: nat, memories: seq<MemoryScan>)
    requires page > 0 && AllTracked(held, original, page, huge, memories, seq(|memories|, i => NOTHING))
    ensures 0 <= ScannedOf(memories) <= PagesOf(memories)
  {
    hide Tracked;
    var gs := seq(|memories|, i => NOTHING);
    assert forall i :: 0 <= i < |memories| ==> Tracked(held, original, page, huge, memories[i], gs[i]) && gs[i] == NOTHING;
    CountExtents(held, original, page, huge, memories);
  }

  lemma FreshlyTracked(held: Held, page: nat, huge: nat, memory: MemoryScan)
    requires page > 0 && memory.base in held.pages && memory.base in held.released
    requires var l := LayoutOf(memory, page, huge, held.pages[memory.base]);
             Matches(l, memory, page, huge) && ValidLayout(l) && |l.frozen| > 0
    requires memory.next == 0 && memory.pending.None?
    requires held.released[memory.base] == seq(|held.pages[memory.base]|, i => false)
    requires memory.base !in held.madviseFailed && AskedOf(held.asked, memory.base) == [] && memory.base !in held.mincoreFailed
    ensures Tracked(held, held.pages, page, huge, memory, NOTHING)
  {
    hide Scanned, ValidLayout, Matches;
    NothingScanned(LayoutOf(memory, page, huge, held.pages[memory.base]), held.released[memory.base]);
  }

  lemma OneMore(held: Held, original: map<nat, seq<Page>>, page: nat, huge: nat, memories: seq<MemoryScan>, memory: MemoryScan)
    requires page > 0 && AllTracked(held, original, page, huge, memories, seq(|memories|, i => NOTHING))
    requires Tracked(held, original, page, huge, memory, NOTHING) && NotScanned(memories, memory.base)
    requires held.pages == original
    ensures AllTracked(held, original, page, huge, memories + [memory], seq(|memories| + 1, i => NOTHING))
  {
    hide Tracked;
    var before := seq(|memories|, i => NOTHING);
    var after := seq(|memories| + 1, i => NOTHING);
    var memories' := memories + [memory];
    forall j | 0 <= j < |memories'|
      ensures Tracked(held, original, page, huge, memories'[j], after[j])
    {
      if j < |memories| {
        assert Tracked(held, original, page, huge, memories[j], before[j]);
      }
    }
  }

  lemma {:induction false} CountExtents(held: Held, original: map<nat, seq<Page>>, page: nat, huge: nat, memories: seq<MemoryScan>)
    requires page > 0
    requires forall i :: 0 <= i < |memories| ==> Tracked(held, original, page, huge, memories[i], NOTHING)
    ensures 0 <= ScannedOf(memories) <= PagesOf(memories)
  {
    if memories != [] {
      CountExtents(held, original, page, huge, memories[..|memories| - 1]);
      var memory := memories[|memories| - 1];
      var l := LayoutOf(memory, page, huge, original[memory.base]);
      var flags := seq(|l.frozen|, p requires 0 <= p < |l.frozen| => l.frozen[p].Anonymous?);
      ExtentPagesCounted(l, flags, |l.extents|);
      CountAtMost(flags, |flags|);
    }
  }

  lemma {:induction false} CountAtMost(flags: seq<bool>, n: nat)
    requires n <= |flags|
    ensures Count(flags, n) <= n
  {
    if n > 0 {
      CountAtMost(flags, n - 1);
    }
  }

  lemma {:induction false} NothingSummed(gs: seq<Progress>)
    requires forall i :: 0 <= i < |gs| ==> gs[i] == NOTHING
    ensures SumParts(gs) == Part(0, 0, 0, 0, 0)
  {
    if gs != [] {
      NothingSummed(gs[..|gs| - 1]);
    }
  }
}
