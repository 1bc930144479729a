/**
 The zero-page scan told from the pages alone: which pages it gives back, and
 that it never splits a huge page, without extents, blocks or targets.
 */
module HugePages {
  import opened Wrappers
  import opened Extents
  import opened Blocks
  import opened Scan
  import opened Compaction
  import opened CompactionRun
  import Theorems = ScanTheorems

  // ----- the memory as it is

  predicate Holds(m: Mapping, p: nat) {
    m.start <= p < m.stop
  }

  /** Mapping `i` is the first to hold the page. */
  ghost predicate FirstHolds(mappings: seq<Mapping>, i: nat, p: nat) {
    && i < |mappings| && Holds(mappings[i], p)
    && forall j :: 0 <= j < i ==> !Holds(mappings[j], p)
  }

  /** No mapping holds the page, or the first that does holds huge pages. */
  ghost predicate MayBeHuge(mappings: seq<Mapping>, p: nat) {
    forall i: nat :: FirstHolds(mappings, i, p) ==> mappings[i].huge
  }

  /** Where the huge page that page `p` is in would begin; before the memory, if that is below zero. */
  function HugeStart(basePage: nat, hugePages: nat, p: nat): int
    requires hugePages > 0
  {
    p - (basePage + p) % hugePages
  }

  /** The `hugePages` pages from `from` on are all there, anonymous, resident, and may be one huge page. */
  ghost predicate HugePageAt(pages: seq<Page>, hugePages: nat, mappings: seq<Mapping>, from: int) {
    && 0 <= from && from + hugePages <= |pages|
    && (forall q :: from <= q < from + hugePages ==> pages[q].Anonymous? && pages[q].resident)
    && MayBeHuge(mappings, from)
  }

  ghost predicate ZeroFrom(pages: seq<Page>, hugePages: nat, from: nat)
    requires from + hugePages <= |pages|
  {
    forall q, w :: from <= q < from + hugePages && 0 <= w < |pages[q].words| ==> pages[q].words[w] == 0
  }

  /** A resident zero page is given back, unless it is part of a huge page that is not zero throughout. */
  ghost predicate GivenBack(pages: seq<Page>, basePage: nat, hugePages: nat, mappings: seq<Mapping>, p: nat)
    requires hugePages > 0 && p < |pages|
  {
    var from := HugeStart(basePage, hugePages, p);
    && pages[p].Anonymous? && pages[p].resident
    && (forall w :: 0 <= w < |pages[p].words| ==> pages[p].words[w] == 0)
    && (HugePageAt(pages, hugePages, mappings, from) ==> ZeroFrom(pages, hugePages, from))
  }

  /** A huge page begins here that is not zero throughout. */
  ghost predicate KeptHere(pages: seq<Page>, basePage: nat, hugePages: nat, mappings: seq<Mapping>, p: nat)
    requires hugePages > 0 && p < |pages|
  {
    && HugeStart(basePage, hugePages, p) == p
    && HugePageAt(pages, hugePages, mappings, p) && !ZeroFrom(pages, hugePages, p)
  }

  // ----- the specification by blocks says the same

  lemma {:induction false} HugeExactly(mappings: seq<Mapping>, p: nat)
    ensures PossiblyHuge(mappings, p) <==> MayBeHuge(mappings, p)
  {
    if mappings != [] {
      var rest := mappings[1..];
      HugeExactly(rest, p);
      if Holds(mappings[0], p) {
        assert FirstHolds(mappings, 0, p);
        assert forall i: nat :: FirstHolds(mappings, i, p) ==> i == 0;
      } else {
        forall i: nat | FirstHolds(rest, i, p) ensures FirstHolds(mappings, i + 1, p) && mappings[i + 1] == rest[i] {
          FirstHoldsShifts(mappings, i, p);
        }
        forall i: nat | FirstHolds(mappings, i, p) ensures i > 0 && FirstHolds(rest, i - 1, p) && mappings[i] == rest[i - 1] {
          FirstHoldsShifts(mappings, i - 1, p);
        }
      }
    }
  }

  lemma FirstHoldsShifts(mappings: seq<Mapping>, i: nat, p: nat)
    requires mappings != [] && !Holds(mappings[0], p)
    ensures FirstHolds(mappings[1..], i, p) <==> FirstHolds(mappings, i + 1, p)
  {
    if FirstHolds(mappings[1..], i, p) {
      forall j | 0 <= j < i + 1 ensures !Holds(mappings[j], p) {
        assert j > 0 ==> mappings[1..][j - 1] == mappings[j];
      }
    }
    if FirstHolds(mappings, i + 1, p) {
      forall j | 0 <= j < i ensures !Holds(mappings[1..][j], p) {
        assert mappings[1..][j] == mappings[j + 1];
      }
    }
  }

  lemma HugeStartAligned(basePage: nat, hugePages: nat, p: nat)
    requires hugePages > 0
    ensures HugeStart(basePage, hugePages, p) == AlignDown(basePage + p, hugePages) - basePage
  {
    AlignDownDivides(basePage + p, hugePages);
    hide AlignDown;
  }

  /** Neighbouring anonymous pages are in one extent. */
  lemma {:induction false} OneExtent(l: Layout, k: nat, from: nat, upto: nat)
    requires ValidLayout(l) && k < |l.extents| && InRange(l.extents[k], from)
    requires from <= upto < |l.frozen| && forall q :: from <= q <= upto ==> l.frozen[q].Anonymous?
    ensures InRange(l.extents[k], upto)
    decreases upto
  {
    if from < upto {
      OneExtent(l, k, from, upto - 1);
      var j := ExtentOf(l, upto);
    }
  }

  /** A window of anonymous pages around a page is inside the page's extent. */
  lemma WindowInExtent(l: Layout, k: nat, p: nat, from: nat)
    requires ValidLayout(l) && k < |l.extents| && InRange(l.extents[k], p)
    requires from <= p < from + l.hugePages <= |l.frozen|
    requires forall q :: from <= q < from + l.hugePages ==> l.frozen[q].Anonymous?
    ensures l.extents[k].start <= from && from + l.hugePages <= l.extents[k].end
  {
    var j := ExtentOf(l, from);
    OneExtent(l, j, from, p);
    SameExtent(l.extents, |l.frozen|, j, p);
    SameExtent(l.extents, |l.frozen|, k, p);
    OneExtent(l, j, from, from + l.hugePages - 1);
  }

  ghost predicate Window(pages: seq<Page>, hugePages: nat, from: int) {
    && 0 <= from && from + hugePages <= |pages|
    && forall q :: from <= q < from + hugePages ==> pages[q].Anonymous?
  }

  lemma ClipExactly(extent: Range, from: int, count: nat, p: nat)
    requires InRange(extent, p) && from <= p < from + count
    ensures var r := Clip(extent, from, count);
            && from <= r.start && r.end <= from + count
            && (r.end - r.start == count <==> extent.start <= from && from + count <= extent.end)
  {
  }

  lemma WindowExactly(l: Layout, k: nat, p: nat, from: int)
    requires ValidLayout(l) && k < |l.extents| && InRange(l.extents[k], p) && from <= p < from + l.hugePages
    ensures Window(l.frozen, l.hugePages, from) <==>
              l.extents[k].start <= from && from + l.hugePages <= l.extents[k].end
  {
    assert l.extents[k].start < l.extents[k].end <= |l.frozen|;
    if Window(l.frozen, l.hugePages, from) {
      WindowInExtent(l, k, p, from);
    }
    assert forall q: nat :: InRange(l.extents[k], q) ==> Covers(l.extents, q);
  }

  /** The block of a page is whole exactly when the aligned pages around it are all anonymous. */
  lemma BlockExactly(l: Layout, p: nat)
    requires ValidLayout(l) && Covers(l.extents, p)
    ensures var from := HugeStart(l.basePage, l.hugePages, p);
            var r := BlockOf(l, p);
            && from <= p < from + l.hugePages
            && from <= r.start && r.end <= from + l.hugePages
            && (r.end - r.start == l.hugePages <==> Window(l.frozen, l.hugePages, from))
  {
    hide AlignDown, BlockOf, Clip, Window, Covers;
    var k := ExtentOf(l, p);
    BlockIn(l, k, p);
    HugeStartAligned(l.basePage, l.hugePages, p);
    var from := HugeStart(l.basePage, l.hugePages, p);
    ClipExactly(l.extents[k], from, l.hugePages, p);
    WindowExactly(l, k, p, from);
  }

  /** The blocks never to be split are the huge pages. */
  lemma HugePagesExactly(l: Layout, p: nat)
    requires ValidLayout(l) && Covers(l.extents, p)
    ensures var from := HugeStart(l.basePage, l.hugePages, p);
            && (Unsplittable(l, BlockOf(l, p)) <==> HugePageAt(l.frozen, l.hugePages, l.mappings, from))
            && (Unsplittable(l, BlockOf(l, p)) ==>
                  BlockOf(l, p).start == from && (AllZero(l, BlockOf(l, p)) <==> ZeroFrom(l.frozen, l.hugePages, from)))
  {
    BlockExactly(l, p);
    HugeExactly(l.mappings, BlockOf(l, p).start);
    hide BlockOf, ValidLayout, MayBeHuge, PossiblyHuge;
  }

  /** The specification by blocks selects exactly the pages to be given back. */
  lemma SelectedExactly(l: Layout, p: nat)
    requires ValidLayout(l) && p < |l.frozen|
    ensures Selected(l, p) <==> GivenBack(l.frozen, l.basePage, l.hugePages, l.mappings, p)
  {
    if Covers(l.extents, p) {
      HugePagesExactly(l, p);
      var r := BlockOf(l, p);
      hide BlockOf, HugePageAt, Unsplittable, ValidLayout, ZeroFrom;
      if Unsplittable(l, r) && AllZero(l, r) {
        assert InRange(r, p);
      }
    }
  }

  /** And keeps whole exactly the huge pages that are not zero throughout. */
  lemma KeptExactly(l: Layout, p: nat)
    requires ValidLayout(l) && p < |l.frozen|
    ensures KeptWhole(l, p) <==> KeptHere(l.frozen, l.basePage, l.hugePages, l.mappings, p)
  {
    if Covers(l.extents, p) {
      HugePagesExactly(l, p);
      BlockExactly(l, p);
      hide BlockOf, HugePageAt, Unsplittable, ValidLayout, ZeroFrom, AllZero;
    }
  }

  lemma {:induction false} CountIsSize(flags: seq<bool>, n: nat)
    requires n <= |flags|
    ensures Count(flags, n) == |set p: nat | p < n && flags[p]|
  {
    var now := set p: nat | p < n && flags[p];
    if n == 0 {
      assert now == {};
    } else {
      CountIsSize(flags, n - 1);
      var before := set p: nat | p < n - 1 && flags[p];
      assert now == if flags[n - 1] then before + {n - 1} else before;
    }
  }

  lemma CountOf(flags: seq<bool>, pages: set<nat>)
    requires forall p: nat :: p in pages <==> p < |flags| && flags[p]
    ensures Count(flags, |flags|) == |pages|
  {
    CountIsSize(flags, |flags|);
    assert pages == set p: nat | p < |flags| && flags[p];
  }

  // ----- what the running scan does

  /** A memory as it was frozen, in the measures of the scan. */
  ghost predicate InMemory(original: map<nat, seq<Page>>, memories: seq<MemoryScan>, i: nat, p: nat) {
    i < |memories| && memories[i].base in original && p < |original[memories[i].base]|
  }

  /**
   At any moment of a scan, whatever failed: a whole huge page with a word that
   is not zero has no page released, and is as it was frozen.
   */
  lemma HugePagesStayWhole(held: Held, original: map<nat, seq<Page>>, page: nat, huge: nat,
                           memories: seq<MemoryScan>, progress: seq<Progress>, i: nat, from: nat, q: nat)
    requires page > 0 && huge / page > 0 && AllTracked(held, original, page, huge, memories, progress)
    requires i < |memories| && memories[i].base in original
    requires var pages := original[memories[i].base];
             && HugeStart(memories[i].base / page, huge / page, from) == from
             && HugePageAt(pages, huge / page, memories[i].mappings, from) && !ZeroFrom(pages, huge / page, from)
             && from <= q < from + huge / page
    ensures memories[i].base in held.pages && memories[i].base in held.released
    ensures var b := memories[i].base;
            && q < |held.pages[b]| && q < |held.released[b]|
            && !held.released[b][q] && held.pages[b][q] == original[b][q]
  {
    TrackedAt(held, original, page, huge, memories, progress, i);
    var b := memories[i].base;
    var l := LayoutOf(memories[i], page, huge, original[b]);
    hide Scanned, ValidLayout, AllTracked, HugePageAt, ZeroFrom, HugeStart;
    StaysWhole(l, TargetOf(l), memories[i].next, memories[i].pending, held.pages[b], held.released[b], progress[i], from, q);
  }

  lemma StaysWhole(l: Layout, t: Target, next: nat, pending: Option<Range>, now: seq<Page>, released: seq<bool>,
                   g: Progress, from: nat, q: nat)
    requires Scanned(l, t, next, pending, now, released, g) && l.hugePages > 0
    requires HugeStart(l.basePage, l.hugePages, from) == from && from <= q < from + l.hugePages
    requires HugePageAt(l.frozen, l.hugePages, l.mappings, from) && !ZeroFrom(l.frozen, l.hugePages, from)
    ensures q < |now| == |released| && !released[q] && now[q] == l.frozen[q]
  {
    SameHugeStart(l.basePage, l.hugePages, from, q);
    ScannedSizes(l, t, next, pending, now, released, g);
    SelectedExactly(l, q);
    ScannedReleases(l, t, next, pending, now, released, g, q);
    hide Scanned, ValidLayout, Selected, HugeStart, MayBeHuge, ZeroFrom;
  }

  lemma SameHugeStart(basePage: nat, hugePages: nat, from: nat, q: nat)
    requires hugePages > 0 && HugeStart(basePage, hugePages, from) == from && from <= q < from + hugePages
    ensures HugeStart(basePage, hugePages, q) == from
  {
    HugeStartAligned(basePage, hugePages, from);
    HugeStartAligned(basePage, hugePages, q);
    AlignDownSame(basePage + from, basePage + q, hugePages);
  }

  lemma ScannedReleases(l: Layout, t: Target, next: nat, pending: Option<Range>, now: seq<Page>, released: seq<bool>,
                        g: Progress, p: nat)
    requires Scanned(l, t, next, pending, now, released, g) && p < |l.frozen|
    ensures |released| == |now| == |l.frozen|
    ensures released[p] ==> Selected(l, p)
    ensures !released[p] ==> now[p] == l.frozen[p]
  {
    hide Selected, ValidLayout;
  }

  /**
   Done, and no call for the memory failed: a page is released exactly when it
   is anonymous, resident and zero, and not part of a huge page with a word that
   is not zero.
   */
  lemma FinishedExactly(held: Held, original: map<nat, seq<Page>>, page: nat, huge: nat,
                        memories: seq<MemoryScan>, progress: seq<Progress>, i: nat, p: nat)
    requires page > 0 && huge / page > 0 && AllTracked(held, original, page, huge, memories, progress)
    requires InMemory(original, memories, i, p) && memories[i].next >= memories[i].pages
    requires memories[i].base !in held.madviseFailed && memories[i].base !in held.mincoreFailed
    ensures var b := memories[i].base;
            && b in held.released && p < |held.released[b]|
            && (held.released[b][p] <==> GivenBack(original[b], b / page, huge / page, memories[i].mappings, p))
  {
    ScanFinished(held, original, page, huge, memories, progress, i);
    var l := LayoutOf(memories[i], page, huge, original[memories[i].base]);
    SelectedExactly(l, p);
    hide Selected, ValidLayout, AllTracked, GivenBack;
  }

  /** And its totals are those of its pages. */
  lemma FinishedTotals(held: Held, original: map<nat, seq<Page>>, page: nat, huge: nat,
                       memories: seq<MemoryScan>, progress: seq<Progress>, i: nat)
    requires page > 0 && huge / page > 0 && AllTracked(held, original, page, huge, memories, progress)
    requires i < |memories| && memories[i].base in original && memories[i].next >= memories[i].pages
    requires memories[i].base !in held.madviseFailed && memories[i].base !in held.mincoreFailed
    ensures var pages := original[memories[i].base];
            var b, h, part := memories[i].base / page, huge / page, progress[i].part;
            && part.resident == |set p: nat | p < |pages| && pages[p].Anonymous? && pages[p].resident|
            && part.released == part.zero == |set p: nat | p < |pages| && GivenBack(pages, b, h, memories[i].mappings, p)|
            && part.keptBlocks == |set p: nat | p < |pages| && KeptHere(pages, b, h, memories[i].mappings, p)|
  {
    hide Scanned, ValidLayout, AllTracked, GivenBack, KeptHere, Selected, KeptWhole, Describes;
    TrackedAt(held, original, page, huge, memories, progress, i);
    var b := memories[i].base;
    var l := LayoutOf(memories[i], page, huge, original[b]);
    var t := TargetOf(l);
    Theorems.FinishedScan(l, t, memories[i].next, memories[i].pending, held.pages[b], held.released[b], progress[i]);
    ScannedSizes(l, t, memories[i].next, memories[i].pending, held.pages[b], held.released[b], progress[i]);
    ResidentTotal(l, t);
    ReleasedTotal(l, held.released[b]);
    KeptTotal(l, t);
  }

  lemma ResidentTotal(l: Layout, t: Target)
    requires ValidLayout(l) && Describes(l, t)
    ensures Count(t.resident, |l.frozen|) == |set p: nat | p < |l.frozen| && l.frozen[p].Anonymous? && l.frozen[p].resident|
  {
    hide ValidLayout, Selected, KeptWhole;
    CountOf(t.resident, set p: nat | p < |l.frozen| && l.frozen[p].Anonymous? && l.frozen[p].resident);
  }

  lemma ReleasedTotal(l: Layout, released: seq<bool>)
    requires ValidLayout(l) && |released| == |l.frozen|
    requires forall p :: 0 <= p < |l.frozen| ==> (released[p] <==> Selected(l, p))
    ensures Count(released, |l.frozen|)
            == |set p: nat | p < |l.frozen| && GivenBack(l.frozen, l.basePage, l.hugePages, l.mappings, p)|
  {
    forall p: nat | p < |l.frozen|
      ensures released[p] <==> GivenBack(l.frozen, l.basePage, l.hugePages, l.mappings, p)
    {
      SelectedExactly(l, p);
    }
    hide ValidLayout, Selected, GivenBack;
    CountOf(released, set p: nat | p < |l.frozen| && GivenBack(l.frozen, l.basePage, l.hugePages, l.mappings, p));
  }

  lemma KeptTotal(l: Layout, t: Target)
    requires ValidLayout(l) && Describes(l, t)
    ensures Count(t.kept, |l.frozen|)
            == |set p: nat | p < |l.frozen| && KeptHere(l.frozen, l.basePage, l.hugePages, l.mappings, p)|
  {
    forall p: nat | p < |l.frozen|
      ensures t.kept[p] <==> KeptHere(l.frozen, l.basePage, l.hugePages, l.mappings, p)
    {
      KeptExactly(l, p);
    }
    hide ValidLayout, KeptWhole, KeptHere, Selected;
    CountOf(t.kept, set p: nat | p < |l.frozen| && KeptHere(l.frozen, l.basePage, l.hugePages, l.mappings, p));
  }

  // ----- where the mappings come from

  predicate Spans(s: Smap, base: nat, page: nat, p: nat) {
    s.start < base + (p + 1) * page && base + p * page < s.stop
  }

  ghost predicate FirstSpans(smaps: seq<Smap>, i: nat, base: nat, page: nat, p: nat) {
    && i < |smaps| && Spans(smaps[i], base, page, p)
    && forall j :: 0 <= j < i ==> !Spans(smaps[j], base, page, p)
  }

  /** A page may be huge exactly unless the first mapping of the process that it shares an address with says no. */
  lemma {:induction false} SmapsExactly(smaps: seq<Smap>, base: nat, page: nat, p: nat)
    ensures HugeAt(smaps, base, page, p) <==> forall i: nat :: FirstSpans(smaps, i, base, page, p) ==> smaps[i].huge
  {
    if smaps != [] {
      var rest := smaps[1..];
      SmapsExactly(rest, base, page, p);
      if Spans(smaps[0], base, page, p) {
        assert FirstSpans(smaps, 0, base, page, p);
        assert forall i: nat :: FirstSpans(smaps, i, base, page, p) ==> i == 0;
      } else {
        forall i: nat | FirstSpans(rest, i, base, page, p)
          ensures FirstSpans(smaps, i + 1, base, page, p) && smaps[i + 1] == rest[i]
        {
          FirstSpansShifts(smaps, i, base, page, p);
        }
        forall i: nat | FirstSpans(smaps, i, base, page, p)
          ensures i > 0 && FirstSpans(rest, i - 1, base, page, p) && smaps[i] == rest[i - 1]
        {
          FirstSpansShifts(smaps, i - 1, base, page, p);
        }
      }
    }
  }

  lemma FirstSpansShifts(smaps: seq<Smap>, i: nat, base: nat, page: nat, p: nat)
    requires smaps != [] && !Spans(smaps[0], base, page, p)
    ensures FirstSpans(smaps[1..], i, base, page, p) <==> FirstSpans(smaps, i + 1, base, page, p)
  {
    if FirstSpans(smaps[1..], i, base, page, p) {
      forall j | 0 <= j < i + 1 ensures !Spans(smaps[j], base, page, p) {
        assert j > 0 ==> smaps[1..][j - 1] == smaps[j];
      }
    }
    if FirstSpans(smaps, i + 1, base, page, p) {
      forall j | 0 <= j < i ensures !Spans(smaps[1..][j], base, page, p) {
        assert smaps[1..][j] == smaps[j + 1];
      }
    }
  }
}
