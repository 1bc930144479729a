/**
 Which pages of a frozen linear memory the zero-page scan is to give back: a
 specification page by page, over blocks of a huge page clipped to the
 anonymous extents. Nothing here speaks of slices, runs or system calls.
 */
module Blocks {
  import opened Extents

  const USIZE_MAX: nat := 0xFFFF_FFFF_FFFF_FFFF

  /** A page of a linear memory as the kernel has it. */
  datatype Page =
    | Anonymous(words: seq<int>, resident: bool)
    | SharedFile(words: seq<int>)

  /** A mapping from `smaps`, in page indices, and whether it holds huge pages. */
  datatype Mapping = Mapping(start: nat, stop: nat, huge: bool)

  /** All eight-byte words of a page are zero. */
  predicate ZeroWords(page: Page) {
    forall i :: 0 <= i < |page.words| ==> page.words[i] == 0
  }

  /**
   What is fixed about one memory for the whole scan: its address and the
   huge page size, both in pages, and its pages as they were frozen.
   */
  datatype Layout = Layout(
    basePage: nat,
    hugePages: nat,
    mappings: seq<Mapping>,
    extents: seq<Range>,
    frozen: seq<Page>)

  ghost predicate ValidLayout(l: Layout) {
    && l.hugePages > 0
    && WellFormed(l.extents, |l.frozen|)
    && (forall p :: 0 <= p < |l.frozen| ==> (l.frozen[p].Anonymous? <==> Covers(l.extents, p)))
  }

  /** The first extent ending after `p`; `|extents|` when there is none. */
  function FirstAfter(extents: seq<Range>, p: nat): (k: nat)
    ensures k <= |extents|
    ensures forall j :: 0 <= j < k ==> extents[j].end <= p
    ensures k < |extents| ==> p < extents[k].end
  {
    if extents == [] || p < extents[0].end then 0
    else 1 + FirstAfter(extents[1..], p)
  }

  lemma FirstAfterCovers(extents: seq<Range>, pages: nat, p: nat)
    requires WellFormed(extents, pages)
    ensures Covers(extents, p) <==>
              FirstAfter(extents, p) < |extents| && extents[FirstAfter(extents, p)].start <= p
  {
    var k := FirstAfter(extents, p);
    if Covers(extents, p) {
      var i :| 0 <= i < |extents| && InRange(extents[i], p);
      assert k <= i;
    }
    if k < |extents| && extents[k].start <= p {
      assert InRange(extents[k], p);
    }
  }

  function Max(a: int, b: int): int { if a < b then b else a }
  function Min(a: int, b: int): int { if a < b then a else b }

  /** The last multiple of `d` up to `x`, by stepping. */
  function AlignDown(x: nat, d: nat): (r: nat)
    requires d > 0
    ensures r <= x < r + d
  {
    if x < d then 0 else d + AlignDown(x - d, d)
  }

  lemma {:induction false} AlignDownSame(x: nat, y: nat, d: nat)
    requires d > 0 && AlignDown(x, d) <= y < AlignDown(x, d) + d
    ensures AlignDown(y, d) == AlignDown(x, d)
  {
    if x >= d {
      AlignDownSame(x - d, y - d, d);
    }
  }

  lemma {:induction false} AlignDownNext(x: nat, d: nat)
    requires d > 0
    ensures AlignDown(AlignDown(x, d) + d, d) == AlignDown(x, d) + d
  {
    if x >= d {
      AlignDownNext(x - d, d);
    }
  }

  /** Stepping and dividing agree. */
  lemma {:induction false} AlignDownDivides(x: nat, d: nat)
    requires d > 0
    ensures AlignDown(x, d) == (x / d) * d
  {
    QuotientUnique(x, d, x / d);
    if x < d {
      QuotientUnique(x, d, 0);
    } else {
      AlignDownDivides(x - d, d);
      var q := (x - d) / d;
      QuotientUnique(x - d, d, q);
      assert (q + 1) * d == q * d + d;
      QuotientUnique(x, d, q + 1);
    }
  }

  /**
   The block of a page: the huge-page-aligned block it is in, clipped to its
   extent.
   */
  ghost function BlockOf(l: Layout, p: nat): (r: Range)
    requires ValidLayout(l) && Covers(l.extents, p)
    ensures r.start <= p < r.end <= |l.frozen| && r.end - r.start <= l.hugePages
  {
    FirstAfterCovers(l.extents, |l.frozen|, p);
    Clip(l.extents[FirstAfter(l.extents, p)], AlignDown(l.basePage + p, l.hugePages) - l.basePage, l.hugePages)
  }

  function Clip(extent: Range, from: int, count: nat): (r: Range)
    requires 0 <= from + count
  {
    Range(Max(extent.start, from), Min(extent.end, from + count))
  }

  lemma QuotientUnique(x: nat, d: nat, q: nat)
    requires d > 0 && (q * d <= x < q * d + d || q == x / d)
    ensures x / d == q && x % d == x - q * d && q * d <= x < q * d + d
  {
    DivBelow(x, q + 1, d);
    DivBelow(x, q, d);
    assert (q + 1) * d == q * d + d;
    assert x == (x / d) * d + x % d;
  }

  lemma SameExtent(extents: seq<Range>, pages: nat, k: nat, p: nat)
    requires WellFormed(extents, pages) && k < |extents| && InRange(extents[k], p)
    ensures FirstAfter(extents, p) == k
  {
    var k' := FirstAfter(extents, p);
    assert k' <= k;
  }

  /** The block of a page, from the extent it is known to be in. */
  lemma BlockIn(l: Layout, k: nat, p: nat)
    requires ValidLayout(l) && k < |l.extents| && InRange(l.extents[k], p)
    ensures Covers(l.extents, p)
    ensures BlockOf(l, p) == Clip(l.extents[k], AlignDown(l.basePage + p, l.hugePages) - l.basePage, l.hugePages)
  {
    hide AlignDown;
    SameExtent(l.extents, |l.frozen|, k, p);
  }

  /** The extent a page is in. */
  lemma ExtentOf(l: Layout, p: nat) returns (k: nat)
    requires ValidLayout(l) && Covers(l.extents, p)
    ensures k < |l.extents| && InRange(l.extents[k], p)
  {
    k :| 0 <= k < |l.extents| && InRange(l.extents[k], p);
  }

  /** The pages of a block agree on what their block is. */
  lemma SameBlock(l: Layout, first: nat, p: nat)
    requires ValidLayout(l) && Covers(l.extents, first) && InRange(BlockOf(l, first), p)
    ensures Covers(l.extents, p) && BlockOf(l, p) == BlockOf(l, first)
  {
    hide AlignDown, BlockOf, ValidLayout, Covers;
    var k := ExtentOf(l, first);
    BlockIn(l, k, first);
    BlockIn(l, k, p);
    AlignDownSame(l.basePage + first, l.basePage + p, l.hugePages);
  }

  /** The first mapping holding the page decides; a page in none may be huge. */
  function PossiblyHuge(mappings: seq<Mapping>, p: nat): bool {
    if mappings == [] then true
    else if mappings[0].start <= p < mappings[0].stop then mappings[0].huge
    else PossiblyHuge(mappings[1..], p)
  }

  ghost predicate AllResident(l: Layout, r: Range)
    requires r.end <= |l.frozen|
  {
    forall p :: r.start <= p < r.end ==> l.frozen[p].Anonymous? && l.frozen[p].resident
  }

  ghost predicate AllZero(l: Layout, r: Range)
    requires r.end <= |l.frozen|
  {
    forall p :: r.start <= p < r.end ==> ZeroWords(l.frozen[p])
  }

  /** A whole huge page of memory that may really be one: never to be split. */
  ghost predicate Unsplittable(l: Layout, r: Range)
    requires r.start < r.end <= |l.frozen|
  {
    && r.end - r.start == l.hugePages
    && PossiblyHuge(l.mappings, r.start)
    && AllResident(l, r)
  }

  /** The scan is to give the page back. */
  ghost predicate Selected(l: Layout, p: nat)
    requires ValidLayout(l)
  {
    && Covers(l.extents, p)
    && l.frozen[p].Anonymous?
    && l.frozen[p].resident
    && (if Unsplittable(l, BlockOf(l, p)) then AllZero(l, BlockOf(l, p)) else ZeroWords(l.frozen[p]))
  }

  /** A selected page is anonymous, resident and zero. */
  lemma SelectedIsZero(l: Layout, p: nat)
    requires ValidLayout(l) && Selected(l, p)
    ensures p < |l.frozen| && l.frozen[p].Anonymous? && l.frozen[p].resident && ZeroWords(l.frozen[p])
  {
    if Unsplittable(l, BlockOf(l, p)) {
      assert InRange(BlockOf(l, p), p);
    }
  }

  // ----- the source's address arithmetic, and what it is in pages

  /** Where the block at `next` ends, as an address. */
  function BlockEndAddress(base: nat, page: nat, huge: nat, extentEnd: nat, next: nat): (r: nat)
    requires huge > 0
  {
    var end := base + extentEnd * page;
    var addr := base + next * page;
    var aligned := Min((addr / huge + 1) * huge, USIZE_MAX);
    Min(aligned, end)
  }

  /** Alignment commutes with counting in pages. */
  lemma AlignDownScaled(x: nat, d: nat, f: nat)
    requires d > 0 && f > 0
    ensures d * f > 0 && ((x * f) / (d * f) + 1) * (d * f) == (AlignDown(x, d) + d) * f
  {
    hide AlignDown;
    var q, r := x / d, x % d;
    AlignDownDivides(x, d);
    assert x == q * d + r;
    assert d * f > 0;
    assert x * f == q * (d * f) + r * f by { assert (q * d + r) * f == q * d * f + r * f; }
    assert r * f < d * f by { ScaleOrder(r, d, f); }
    assert 0 <= r * f;
    QuotientUnique(x * f, d * f, q);
    assert (q + 1) * (d * f) == (q * d + d) * f;
  }

  /**
   The address arithmetic lands on whole pages, moves strictly forward, and
   never spans more than one huge page.
   */
  lemma BlockEndInPages(base: nat, page: nat, huge: nat, extentEnd: nat, next: nat)
    requires page > 0 && huge > 0 && huge % page == 0 && base % page == 0
    requires next < extentEnd && base + extentEnd * page <= USIZE_MAX
    ensures huge / page > 0
    ensures var blockEnd := BlockEndAddress(base, page, huge, extentEnd, next);
            var last := Min(extentEnd, AlignDown(base / page + next, huge / page) + huge / page - base / page);
            && next < last <= next + huge / page
            && (blockEnd - base) / page == last
            && (blockEnd - (base + next * page) == huge <==> last - next == huge / page)
  {
    var b, h := base / page, huge / page;
    Divides(base, page);
    Divides(huge, page);
    var aligned: nat := AlignDown(b + next, h) + h - b;
    BlockEndScaled(b, h, page, extentEnd, next);
    BlockEndCore(b, h, page, extentEnd, next, aligned, BlockEndAddress(base, page, huge, extentEnd, next));
  }

  lemma Divides(x: nat, d: nat)
    requires d > 0 && x % d == 0
    ensures x == (x / d) * d
    ensures x > 0 ==> x / d > 0
  {
  }

  lemma BlockEndScaled(b: nat, h: nat, page: nat, extentEnd: nat, next: nat)
    requires page > 0 && h > 0 && b * page + extentEnd * page <= USIZE_MAX
    ensures h * page > 0
    ensures BlockEndAddress(b * page, page, h * page, extentEnd, next)
            == Min((AlignDown(b + next, h) + h) * page, b * page + extentEnd * page)
  {
    AlignDownScaled(b + next, h, page);
    assert (b + next) * page == b * page + next * page;
  }

  lemma BlockEndCore(b: nat, h: nat, page: nat, extentEnd: nat, next: nat, aligned: nat, blockEnd: nat)
    requires page > 0 && next < extentEnd && next < aligned <= next + h
    requires blockEnd == Min((b + aligned) * page, b * page + extentEnd * page)
    ensures var last := Min(extentEnd, aligned);
            && blockEnd == b * page + last * page
            && (blockEnd - b * page) / page == last
            && (blockEnd - (b * page + next * page) == h * page <==> last - next == h)
  {
    var last: nat := Min(extentEnd, aligned);
    assert (b + aligned) * page == b * page + aligned * page;
    ScaleOrder(aligned, extentEnd, page);
    assert blockEnd == b * page + last * page;
    QuotientUnique(last * page, page, last);
    ScaleOrder(last - next, h, page);
    Distribute(last, next, page);
  }

  lemma Distribute(x: nat, y: nat, f: nat)
    requires y <= x
    ensures (x - y) * f == x * f - y * f
  {
  }

  lemma ScaleOrder(x: nat, y: nat, f: nat)
    requires f > 0
    ensures x < y <==> x * f < y * f
  {
    if x < y { assert (y - x) * f > 0; }
    if y <= x { assert (x - y) * f >= 0; }
  }

  lemma BlockEndAbove(base: nat, page: nat, huge: nat, extentEnd: nat, next: nat)
    requires huge > 0 && base <= USIZE_MAX
    ensures base <= BlockEndAddress(base, page, huge, extentEnd, next)
  {
    var addr := base + next * page;
    assert addr < (addr / huge + 1) * huge by { DivBelow(addr, addr / huge + 1, huge); }
    assert extentEnd * page >= 0 && next * page >= 0;
  }
}
