/**
 The anonymous extents of a linear memory: its pages minus the pages of its
 shared file overlays (the part of `Compaction::start` that prepares a scan).
 */
module Extents {

  /** A half-open range of page indices. */
  datatype Range = Range(start: nat, end: nat)

  /** A shared file overlay: `len` bytes at the absolute address `addr`. */
  datatype Overlay = Overlay(addr: nat, len: nat)

  /** Page `p` of the memory at `base` shares an address with the overlay. */
  ghost predicate Touches(o: Overlay, base: nat, page: nat, p: nat) {
    base + p * page < o.addr + o.len && o.addr < base + (p + 1) * page
  }

  ghost predicate InRange(r: Range, p: nat) {
    r.start <= p < r.end
  }

  /** Non-empty ranges in order, with at least one page between neighbours. */
  ghost predicate WellFormed(extents: seq<Range>, pages: nat) {
    && (forall i :: 0 <= i < |extents| ==> extents[i].start < extents[i].end <= pages)
    && (forall i, j :: 0 <= i < j < |extents| ==> extents[i].end < extents[j].start)
  }

  ghost predicate Covers(extents: seq<Range>, p: nat) {
    exists i :: 0 <= i < |extents| && InRange(extents[i], p)
  }

  /** The pages an overlay spans, rounding outwards. */
  function OverlayPages(o: Overlay, base: nat, page: nat): (r: Range)
    requires page > 0 && base <= o.addr
  {
    Range((o.addr - base) / page, (o.addr - base + o.len + page - 1) / page)
  }

  lemma DivBelow(x: nat, y: nat, d: nat)
    requires d > 0
    ensures x / d < y <==> x < y * d
  {
    assert x == (x / d) * d + x % d;
    if x / d < y {
      assert (x / d + 1) * d <= y * d;
    } else {
      assert y * d <= (x / d) * d;
    }
  }

  /** Rounding outwards is exact: the pages of an overlay are those it touches. */
  lemma OverlayPagesExact(o: Overlay, base: nat, page: nat, p: nat)
    requires page > 0 && base <= o.addr
    ensures InRange(OverlayPages(o, base, page), p) <==> Touches(o, base, page, p)
  {
    var offset := o.addr - base;
    DivBelow(offset, p + 1, page);
    DivBelow(offset + o.len + page - 1, p + 1, page);
    assert (p + 1) * page == p * page + page;
  }

  predicate SortedByStart(rs: seq<Range>) {
    forall i, j :: 0 <= i < j < |rs| ==> rs[i].start <= rs[j].start
  }

  function Insert(r: Range, rs: seq<Range>): (out: seq<Range>)
    requires SortedByStart(rs)
    ensures SortedByStart(out)
    ensures forall x :: x in out <==> x == r || x in rs
  {
    if rs == [] || r.start <= rs[0].start then [r] + rs
    else
      var rest := Insert(r, rs[1..]);
      assert rs == [rs[0]] + rs[1..];
      assert forall i :: 0 <= i < |rest| ==> rest[i] in rest;
      assert forall x :: x in rs[1..] ==> rs[0].start <= x.start;
      [rs[0]] + rest
  }

  function Sort(rs: seq<Range>): (out: seq<Range>)
    ensures SortedByStart(out)
    ensures forall x :: x in out <==> x in rs
  {
    if rs == [] then [] else
      assert rs == [rs[0]] + rs[1..];
      Insert(rs[0], Sort(rs[1..]))
  }

  /** Some overlay touches page `p`. */
  ghost predicate Touched(overlays: seq<Overlay>, base: nat, page: nat, p: nat) {
    exists i :: 0 <= i < |overlays| && Touches(overlays[i], base, page, p)
  }

  /** The page ranges of the overlays that start inside the memory. */
  method ClippedOverlays(overlays: seq<Overlay>, base: nat, page: nat, pages: nat)
    returns (ranges: seq<Range>)
    requires page > 0
    requires forall i :: 0 <= i < |overlays| ==> base <= overlays[i].addr
    ensures forall i :: 0 <= i < |ranges| ==> ranges[i].start < ranges[i].end && ranges[i].start < pages
    ensures forall p: nat :: p < pages ==> (Covers(ranges, p) <==> Touched(overlays, base, page, p))
  {
    ranges := [];
    for i := 0 to |overlays|
      invariant forall k :: 0 <= k < |ranges| ==> ranges[k].start < ranges[k].end && ranges[k].start < pages
      invariant forall p: nat :: p < pages ==> (Covers(ranges, p) <==> Touched(overlays[..i], base, page, p))
    {
      var r := OverlayPages(overlays[i], base, page);
      ghost var before := ranges;
      if r.start < (if r.end < pages then r.end else pages) {
        ranges := ranges + [r];
      }
      forall p: nat | p < pages
        ensures Covers(ranges, p) <==> Touched(overlays[..i + 1], base, page, p)
      {
        OverlayPagesExact(overlays[i], base, page, p);
        CoversOneMore(before, r, p);
        TouchedOneMore(overlays, i, base, page, p);
      }
    }
    assert overlays[..|overlays|] == overlays;
  }

  lemma CoversOneMore(rs: seq<Range>, r: Range, p: nat)
    ensures Covers(rs + [r], p) <==> Covers(rs, p) || InRange(r, p)
  {
    if Covers(rs, p) {
      var i :| 0 <= i < |rs| && InRange(rs[i], p);
      assert (rs + [r])[i] == rs[i];
    }
    if InRange(r, p) {
      assert (rs + [r])[|rs|] == r;
    }
  }

  lemma TouchedOneMore(overlays: seq<Overlay>, i: nat, base: nat, page: nat, p: nat)
    requires i < |overlays|
    ensures Touched(overlays[..i + 1], base, page, p)
            <==> Touched(overlays[..i], base, page, p) || Touches(overlays[i], base, page, p)
  {
    if Touched(overlays[..i], base, page, p) {
      var j :| 0 <= j < i && Touches(overlays[..i][j], base, page, p);
      assert overlays[..i + 1][j] == overlays[..i][j];
    }
    if Touches(overlays[i], base, page, p) {
      assert overlays[..i + 1][i] == overlays[i];
    }
    if Touched(overlays[..i + 1], base, page, p) {
      var j :| 0 <= j < i + 1 && Touches(overlays[..i + 1][j], base, page, p);
      if j < i {
        assert overlays[..i][j] == overlays[..i + 1][j];
      }
    }
  }

  /**
   What the sweep has built after the first `i` overlays: below `from` the
   extents cover exactly the pages of no overlay so far.
   */
  ghost predicate Swept(extents: seq<Range>, sorted: seq<Range>, i: nat, from: nat, pages: nat)
    requires i <= |sorted|
  {
    && WellFormed(extents, pages)
    && (forall e :: 0 <= e < |extents| ==> extents[e].end < from)
    && (forall e, j :: 0 <= e < |extents| && i <= j < |sorted| ==> extents[e].end <= sorted[j].start)
    && (forall j :: 0 <= j < i ==> sorted[j].end <= from)
    && (forall p: nat :: p < from ==> (Covers(extents, p) <==> !Covers(sorted[..i], p)))
  }

  lemma SweepStep(extents: seq<Range>, sorted: seq<Range>, i: nat, from: nat, pages: nat)
    requires i < |sorted| && SortedByStart(sorted) && Swept(extents, sorted, i, from, pages)
    requires sorted[i].start < sorted[i].end && sorted[i].start < pages
    ensures Swept(if from < sorted[i].start then extents + [Range(from, sorted[i].start)] else extents,
                  sorted, i + 1, if from < sorted[i].end then sorted[i].end else from, pages)
  {
    var r := sorted[i];
    var gap := Range(from, r.start);
    var after := if from < r.start then extents + [gap] else extents;
    var reach := if from < r.end then r.end else from;
    forall p: nat | p < reach
      ensures Covers(after, p) <==> !Covers(sorted[..i + 1], p)
    {
      assert sorted[..i + 1] == sorted[..i] + [r];
      CoversOneMore(sorted[..i], r, p);
      CoversOneMore(extents, gap, p);
      if from <= p {
        assert !Covers(sorted[..i], p) && !Covers(extents, p);
      } else if Covers(extents, p) {
        var e :| 0 <= e < |extents| && InRange(extents[e], p);
        assert extents[e].end <= sorted[i].start;
      }
    }
  }

  /** The complement of ranges sorted by start, below `pages`. */
  method Sweep(sorted: seq<Range>, pages: nat) returns (extents: seq<Range>)
    requires SortedByStart(sorted)
    requires forall i :: 0 <= i < |sorted| ==> sorted[i].start < sorted[i].end && sorted[i].start < pages
    ensures WellFormed(extents, pages)
    ensures forall p: nat :: p < pages ==> (Covers(extents, p) <==> !Covers(sorted, p))
  {
    extents := [];
    var from: nat := 0;
    for i := 0 to |sorted|
      invariant Swept(extents, sorted, i, from, pages)
    {
      SweepStep(extents, sorted, i, from, pages);
      if from < sorted[i].start {
        extents := extents + [Range(from, sorted[i].start)];
      }
      from := if from < sorted[i].end then sorted[i].end else from;
    }
    assert sorted[..|sorted|] == sorted;
    if from < pages {
      forall p: nat | p < pages
        ensures Covers(extents + [Range(from, pages)], p) <==> !Covers(sorted, p)
      {
        CoversOneMore(extents, Range(from, pages), p);
      }
      extents := extents + [Range(from, pages)];
    }
  }

  /**
   The extents: whatever the overlays' order, overlap or reach, a page is
   covered exactly when no overlay touches it.
   */
  method Subtract(overlays: seq<Overlay>, base: nat, page: nat, pages: nat)
    returns (extents: seq<Range>)
    requires page > 0
    requires forall i :: 0 <= i < |overlays| ==> base <= overlays[i].addr
    ensures WellFormed(extents, pages)
    ensures forall p: nat :: p < pages ==> (Covers(extents, p) <==> !Touched(overlays, base, page, p))
  {
    var ranges := ClippedOverlays(overlays, base, page, pages);
    var sorted := Sort(ranges);
    assert forall i :: 0 <= i < |sorted| ==> sorted[i] in ranges;
    extents := Sweep(sorted, pages);
    forall p: nat | p < pages
      ensures Covers(sorted, p) <==> Covers(ranges, p)
    {
      CoversMembers(sorted, ranges, p);
      CoversMembers(ranges, sorted, p);
    }
  }

  lemma CoversMembers(rs: seq<Range>, others: seq<Range>, p: nat)
    requires forall r :: r in rs ==> r in others
    ensures Covers(rs, p) ==> Covers(others, p)
  {
    if Covers(rs, p) {
      var i :| 0 <= i < |rs| && InRange(rs[i], p);
      assert rs[i] in others;
    }
  }
}
