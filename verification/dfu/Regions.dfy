/** Sectors and pages in terms of the regions of the layout, and what becomes of read-only ranges. */
module Regions {
  import opened Bytes
  import opened Layout
  import opened Download
  import opened FlashContents

  // ---- Where the sectors of a layout are ----

  /** The bytes of the first `k` ranges of a region. */
  function SizeBefore(ranges: seq<SectorRange>, k: nat): nat
    requires k <= |ranges|
  {
    if k == 0 then 0 else SizeBefore(ranges, k - 1) + ranges[k - 1].count * ranges[k - 1].size
  }

  function RegionEnd(region: MemoryRegion): nat {
    region.start + SizeBefore(region.ranges, |region.ranges|)
  }

  /** No region reaches beyond 32-bit addresses. */
  predicate Addressable(regions: seq<MemoryRegion>) {
    forall r :: 0 <= r < |regions| ==> RegionEnd(regions[r]) <= 0xFFFF_FFFF
  }

  /** An address as far as 32 bits reach. */
  function Capped(a: nat): nat {
    if a < 0xFFFF_FFFF then a else 0xFFFF_FFFF
  }

  /** What the device reports are 32-bit numbers. */
  predicate InWords(regions: seq<MemoryRegion>) {
    forall r :: 0 <= r < |regions| ==> regions[r].start <= 0xFFFF_FFFF
  }

  /** The address of sector `n` of range `k` of a region. */
  function Address(region: MemoryRegion, k: nat, n: nat): nat
    requires k < |region.ranges|
  {
    region.start + SizeBefore(region.ranges, k) + n * region.ranges[k].size
  }

  /** Sector `n` of a range that starts at `start`. */
  function Nth(start: nat, range: SectorRange, n: nat): Sector {
    Sector(Capped(start + n * range.size), Capped(start + n * range.size + range.size), range.writable)
  }

  /** `s` is sector `n` of range `k` of region `r`. */
  predicate IsSector(regions: seq<MemoryRegion>, s: Sector, r: int, k: int, n: int) {
    && 0 <= r < |regions| && 0 <= k < |regions[r].ranges| && 0 <= n < regions[r].ranges[k].count
    && s == Nth(regions[r].start + SizeBefore(regions[r].ranges, k), regions[r].ranges[k], n)
  }

  lemma {:induction false} SizeShift(ranges: seq<SectorRange>, k: nat)
    requires 0 < k <= |ranges|
    ensures SizeBefore(ranges, k) == ranges[0].count * ranges[0].size + SizeBefore(ranges[1..], k - 1)
    decreases k
  {
    if k > 1 {
      SizeShift(ranges, k - 1);
    }
  }

  lemma {:induction false} SizeGrows(ranges: seq<SectorRange>, k: nat, l: nat)
    requires k <= l <= |ranges|
    ensures SizeBefore(ranges, k) <= SizeBefore(ranges, l)
    decreases l - k
  {
    if k < l {
      SizeGrows(ranges, k, l - 1);
    }
  }

  lemma Multiply(n: nat, m: nat, size: nat)
    requires n <= m
    ensures n * size <= m * size && (n + 1) * size == n * size + size
  {
  }

  lemma CappedTwice(a: nat, b: nat)
    ensures Capped(Capped(a) + b) == Capped(a + b) && Capped(a) <= 0xFFFF_FFFF
  {
  }

  lemma NthCapped(a: nat, b: nat, range: SectorRange, n: nat)
    ensures Nth(Capped(a) + b, range, n) == Nth(a + b, range, n)
  {
    hide Capped;
    Multiply(0, n, range.size);
    CappedTwice(a, b + n * range.size);
    CappedTwice(a, b + n * range.size + range.size);
  }

  lemma NthNext(cursor: nat, range: SectorRange, n: nat)
    ensures Nth(Capped(cursor + range.size), range, n) == Nth(cursor, range, n + 1)
  {
    hide Capped;
    Multiply(n, n, range.size);
    NthCapped(cursor + range.size, 0, range, n);
  }

  lemma NthFirst(cursor: nat, range: SectorRange)
    requires cursor <= 0xFFFF_FFFF
    ensures Nth(cursor, range, 0) == Sector(cursor, SaturatingAdd(cursor, range.size), range.writable)
    ensures SaturatingAdd(cursor, range.size) == Capped(cursor + range.size) && Capped(cursor) == cursor
  {
  }

  /** The sectors of one range stand one behind the other. */
  lemma {:induction false} RangeSectorsAre(cursor: nat, range: SectorRange, n: nat)
    requires cursor <= 0xFFFF_FFFF
    ensures |RangeSectors(cursor, range, n)| == n && RangeEnd(cursor, range, n) == Capped(cursor + n * range.size)
    ensures forall i :: 0 <= i < n ==> RangeSectors(cursor, range, n)[i] == Nth(cursor, range, i)
    decreases n
  {
    hide Capped, Nth, SaturatingAdd;
    NthFirst(cursor, range);
    if n > 0 {
      var next := Capped(cursor + range.size);
      Multiply(n - 1, n, range.size);
      CappedTwice(cursor + range.size, (n - 1) * range.size);
      RangeSectorsAre(next, range, n - 1);
      var rest := RangeSectors(next, range, n - 1);
      forall i | 0 < i < n ensures RangeSectors(cursor, range, n)[i] == Nth(cursor, range, i) {
        assert RangeSectors(cursor, range, n)[i] == rest[i - 1];
        NthNext(cursor, range, i - 1);
      }
    }
  }

  /** Sector `n` of range `k`, of ranges that start at `cursor`. */
  predicate InRanges(ranges: seq<SectorRange>, cursor: nat, s: Sector, k: int, n: int) {
    0 <= k < |ranges| && 0 <= n < ranges[k].count && s == Nth(cursor + SizeBefore(ranges, k), ranges[k], n)
  }

  lemma {:induction false} RegionSectorsAre(cursor: nat, ranges: seq<SectorRange>, s: Sector)
    requires cursor <= 0xFFFF_FFFF
    ensures s in RegionSectors(cursor, ranges) <==> exists k, n :: InRanges(ranges, cursor, s, k, n)
    decreases ranges
  {
    hide RangeSectors, RangeEnd, Capped, Nth, InRanges, SizeBefore;
    if ranges == [] {
      NoRanges(cursor, s);
    } else {
      var range, rest := ranges[0], ranges[1..];
      var next := Capped(cursor + range.count * range.size);
      RangeSectorsAre(cursor, range, range.count);
      CappedTwice(cursor + range.count * range.size, 0);
      RegionSectorsAre(next, rest, s);
      var mine := RangeSectors(cursor, range, range.count);
      assert s in RegionSectors(cursor, ranges) <==> s in mine || s in RegionSectors(next, rest);
      FirstRange(cursor, ranges, mine, s);
      forall k, n ensures InRanges(rest, next, s, k, n) <==> k >= 0 && InRanges(ranges, cursor, s, k + 1, n) {
        RangeMoves(cursor, ranges, s, k, n);
      }
      LaterRange(cursor, next, ranges, s);
    }
  }

  lemma NoRanges(cursor: nat, s: Sector)
    ensures forall k, n :: !InRanges([], cursor, s, k, n)
  {
  }

  /** The ranges but the first, counted from the end of the first. */
  lemma RangeMoves(cursor: nat, ranges: seq<SectorRange>, s: Sector, k: int, n: int)
    requires ranges != []
    ensures InRanges(ranges[1..], Capped(cursor + ranges[0].count * ranges[0].size), s, k, n)
      <==> k >= 0 && InRanges(ranges, cursor, s, k + 1, n)
  {
    hide Capped, Nth, SizeBefore;
    if 0 <= k < |ranges| - 1 && n >= 0 {
      SizeShift(ranges, k + 1);
      NthCapped(cursor + ranges[0].count * ranges[0].size, SizeBefore(ranges[1..], k), ranges[k + 1], n);
    }
  }

  lemma FirstRange(cursor: nat, ranges: seq<SectorRange>, mine: seq<Sector>, s: Sector)
    requires ranges != [] && |mine| == ranges[0].count
    requires forall i :: 0 <= i < |mine| ==> mine[i] == Nth(cursor, ranges[0], i)
    ensures s in mine <==> exists n :: InRanges(ranges, cursor, s, 0, n)
  {
    hide Nth;
    if s in mine {
      var i :| 0 <= i < |mine| && mine[i] == s;
      assert InRanges(ranges, cursor, s, 0, i);
    }
    forall n | InRanges(ranges, cursor, s, 0, n) ensures s in mine {
      assert mine[n] == s;
    }
  }

  lemma LaterRange(cursor: nat, next: nat, ranges: seq<SectorRange>, s: Sector)
    requires ranges != []
    requires forall k, n :: InRanges(ranges[1..], next, s, k, n) <==> k >= 0 && InRanges(ranges, cursor, s, k + 1, n)
    ensures (exists k, n :: InRanges(ranges, cursor, s, k, n)) <==>
      (exists n :: InRanges(ranges, cursor, s, 0, n)) || exists k, n :: InRanges(ranges[1..], next, s, k, n)
  {
    hide InRanges;
    forall k, n | InRanges(ranges, cursor, s, k, n)
      ensures (exists n :: InRanges(ranges, cursor, s, 0, n)) || exists k, n :: InRanges(ranges[1..], next, s, k, n)
    {
      if k != 0 {
        RangeIndex(ranges, cursor, s, k, n);
        assert InRanges(ranges, cursor, s, (k - 1) + 1, n);
        assert InRanges(ranges[1..], next, s, k - 1, n);
      }
    }
    forall k, n | InRanges(ranges[1..], next, s, k, n) ensures exists k, n :: InRanges(ranges, cursor, s, k, n) {
      assert InRanges(ranges, cursor, s, k + 1, n);
    }
  }

  lemma RangeIndex(ranges: seq<SectorRange>, cursor: nat, s: Sector, k: int, n: int)
    requires InRanges(ranges, cursor, s, k, n)
    ensures 0 <= k < |ranges|
  {
  }

  /** The sectors of a layout, told from its regions. */
  lemma {:induction false} SectorsAre(regions: seq<MemoryRegion>, s: Sector)
    requires InWords(regions)
    ensures s in Sectors(regions) <==> exists r, k, n :: IsSector(regions, s, r, k, n)
    decreases regions
  {
    hide RegionSectors, SizeBefore, Nth;
    if regions != [] {
      var region, rest := regions[0], regions[1..];
      assert forall r :: 0 <= r < |rest| ==> rest[r] == regions[r + 1];
      RegionSectorsAre(region.start, region.ranges, s);
      SectorsAre(rest, s);
      forall k, n | InRanges(region.ranges, region.start, s, k, n) ensures IsSector(regions, s, 0, k, n) {
      }
      forall r, k, n | IsSector(rest, s, r, k, n) ensures IsSector(regions, s, r + 1, k, n) {
      }
      forall r, k, n | IsSector(regions, s, r, k, n) ensures s in Sectors(regions) {
        if r == 0 {
          assert InRanges(region.ranges, region.start, s, k, n);
        } else {
          assert IsSector(rest, s, r - 1, k, n);
        }
      }
    }
  }

  /** A page is erased for `[from, to)` if it is a sector of a writable range that overlaps it. */
  predicate IsPage(regions: seq<MemoryRegion>, from: nat, to: nat, p: nat, r: int, k: int, n: int) {
    && 0 <= r < |regions| && 0 <= k < |regions[r].ranges| && 0 <= n < regions[r].ranges[k].count
    && regions[r].ranges[k].writable && p == Capped(Address(regions[r], k, n))
    && p < to && Capped(Address(regions[r], k, n) + regions[r].ranges[k].size) > from
  }

  /** The pages that the loops over the regions find: the starts of the sectors of writable ranges that overlap the range. */
  lemma PagesFromRegions(regions: seq<MemoryRegion>, from: nat, to: nat, p: nat)
    requires InWords(regions)
    ensures p in Pages(Sectors(regions), from, to) <==> exists r, k, n :: IsPage(regions, from, to, p, r, k, n)
  {
    hide Sectors, SizeBefore, Capped;
    PagesAre(Sectors(regions), from, to, p);
    forall s | s in Sectors(regions) && s.writable && s.Overlaps(from, to) && s.start == p
      ensures exists r, k, n :: IsPage(regions, from, to, p, r, k, n)
    {
      SectorsAre(regions, s);
      var r, k, n :| IsSector(regions, s, r, k, n);
      assert IsPage(regions, from, to, p, r, k, n);
    }
    forall r, k, n | IsPage(regions, from, to, p, r, k, n) ensures p in Pages(Sectors(regions), from, to) {
      var s := Sector(p, Capped(Address(regions[r], k, n) + regions[r].ranges[k].size), true);
      SectorsAre(regions, s);
      assert IsSector(regions, s, r, k, n);
    }
  }

  // ---- Layouts whose regions do not overlap ----

  ghost predicate Apart(regions: seq<MemoryRegion>) {
    forall r, q :: 0 <= r < q < |regions| ==> RegionEnd(regions[r]) <= regions[q].start || RegionEnd(regions[q]) <= regions[r].start
  }

  predicate Sized(regions: seq<MemoryRegion>) {
    forall r, k :: 0 <= r < |regions| && 0 <= k < |regions[r].ranges| ==> regions[r].ranges[k].size > 0
  }

  /** All sectors lie between two addresses. */
  predicate Within(sectors: seq<Sector>, low: nat, high: nat) {
    forall i :: 0 <= i < |sectors| ==> low <= sectors[i].start && sectors[i].end <= high
  }

  lemma ProperJoin(a: seq<Sector>, b: seq<Sector>)
    requires Proper(a) && Proper(b)
    requires forall i, j :: 0 <= i < |a| && 0 <= j < |b| ==> a[i].end <= b[j].start || b[j].end <= a[i].start
    ensures Proper(a + b)
  {
  }

  lemma NthUncapped(cursor: nat, range: SectorRange, n: nat, count: nat)
    requires cursor + count * range.size <= 0xFFFF_FFFF && n < count
    ensures Nth(cursor, range, n) == Sector(cursor + n * range.size, cursor + n * range.size + range.size, range.writable)
    ensures cursor + n * range.size + range.size <= cursor + count * range.size
  {
    Multiply(n + 1, count, range.size);
    Multiply(n, n, range.size);
  }

  lemma RangeIsProper(cursor: nat, range: SectorRange, n: nat)
    requires cursor + n * range.size <= 0xFFFF_FFFF && range.size > 0
    ensures Proper(RangeSectors(cursor, range, n)) && Within(RangeSectors(cursor, range, n), cursor, cursor + n * range.size)
  {
    hide RangeSectors, RangeEnd, Nth;
    Multiply(0, n, range.size);
    RangeSectorsAre(cursor, range, n);
    var ss := RangeSectors(cursor, range, n);
    forall i | 0 <= i < n ensures ss[i] == Sector(cursor + i * range.size, cursor + i * range.size + range.size, range.writable) &&
                                  ss[i].end <= cursor + n * range.size && cursor <= ss[i].start {
      NthUncapped(cursor, range, i, n);
      Multiply(0, i, range.size);
    }
    forall i, j | 0 <= i < j < |ss| ensures ss[i].end <= ss[j].start {
      Multiply(i + 1, j, range.size);
      Multiply(i, i, range.size);
    }
  }

  lemma {:induction false} RegionIsProper(cursor: nat, ranges: seq<SectorRange>)
    requires cursor + SizeBefore(ranges, |ranges|) <= 0xFFFF_FFFF && forall k :: 0 <= k < |ranges| ==> ranges[k].size > 0
    ensures var ss := RegionSectors(cursor, ranges);
      Proper(ss) && Within(ss, cursor, cursor + SizeBefore(ranges, |ranges|))
    decreases ranges
  {
    hide RangeSectors, RangeEnd, Proper;
    if ranges == [] {
      NoSectors();
    } else {
      var range, rest := ranges[0], ranges[1..];
      var next := cursor + range.count * range.size;
      SizeShift(ranges, |ranges|);
      RangeSectorsAre(cursor, range, range.count);
      RangeIsProper(cursor, range, range.count);
      RegionIsProper(next, rest);
      ProperJoin(RangeSectors(cursor, range, range.count), RegionSectors(next, rest));
    }
  }

  lemma NoSectors()
    ensures Proper([])
  {
  }

  lemma {:induction false} LayoutIsProper(regions: seq<MemoryRegion>)
    requires Addressable(regions) && Apart(regions) && Sized(regions)
    ensures Proper(Sectors(regions))
    decreases regions
  {
    hide RegionSectors, Proper, SizeBefore;
    if regions == [] {
      NoSectors();
    } else {
      var region, rest := regions[0], regions[1..];
      assert forall r :: 0 <= r < |rest| ==> rest[r] == regions[r + 1];
      assert RegionEnd(region) <= 0xFFFF_FFFF;
      RegionIsProper(region.start, region.ranges);
      assert Apart(rest) by {
        forall r, q | 0 <= r < q < |rest| ensures RegionEnd(rest[r]) <= rest[q].start || RegionEnd(rest[q]) <= rest[r].start {
          assert rest[r] == regions[r + 1] && rest[q] == regions[q + 1];
        }
      }
      LayoutIsProper(rest);
      var mine, others := RegionSectors(region.start, region.ranges), Sectors(rest);
      forall i, j | 0 <= i < |mine| && 0 <= j < |others|
        ensures mine[i].end <= others[j].start || others[j].end <= mine[i].start
      {
        var r := RegionOf(rest, others[j]);
        assert rest[r] == regions[r + 1];
      }
      ProperJoin(mine, others);
    }
  }

  /** A sector lies within the region that it belongs to. */
  lemma RegionOf(regions: seq<MemoryRegion>, s: Sector) returns (r: nat)
    requires Addressable(regions) && s in Sectors(regions)
    ensures r < |regions| && regions[r].start <= s.start && s.end <= RegionEnd(regions[r])
  {
    hide Sectors, SizeBefore;
    SectorsAre(regions, s);
    var q, k, n :| IsSector(regions, s, q, k, n);
    r := q;
    SectorInRange(regions[q], k, n);
    SizeGrows(regions[q].ranges, k + 1, |regions[q].ranges|);
  }

  /** Sector `n` ends where sector `n + 1` starts, or before the next range. */
  lemma SectorInRange(region: MemoryRegion, k: nat, n: nat)
    requires k < |region.ranges| && n < region.ranges[k].count
    ensures Address(region, k, n) + region.ranges[k].size <= region.start + SizeBefore(region.ranges, k + 1)
    ensures region.start + SizeBefore(region.ranges, k) <= Address(region, k, n)
  {
    Multiply(n + 1, region.ranges[k].count, region.ranges[k].size);
    Multiply(n, n, region.ranges[k].size);
  }

  // ---- Read-only ranges ----

  /** An address in range `k` of a region. */
  predicate InRange(region: MemoryRegion, k: nat, a: nat)
    requires k < |region.ranges|
  {
    region.start + SizeBefore(region.ranges, k) <= a < region.start + SizeBefore(region.ranges, k + 1)
  }

  /** The ranges of a layout do not share an address. */
  lemma OneRange(regions: seq<MemoryRegion>, r: nat, k: nat, q: nat, l: nat, a: nat)
    requires Apart(regions) && r < |regions| && q < |regions| && k < |regions[r].ranges| && l < |regions[q].ranges|
    requires InRange(regions[r], k, a) && InRange(regions[q], l, a)
    ensures r == q && k == l
  {
    hide SizeBefore;
    SizeGrows(regions[r].ranges, k + 1, |regions[r].ranges|);
    SizeGrows(regions[q].ranges, l + 1, |regions[q].ranges|);
    SizeGrows(regions[r].ranges, 0, k);
    SizeGrows(regions[q].ranges, 0, l);
    if r == q {
      if k < l {
        SizeGrows(regions[r].ranges, k + 1, l);
      } else if l < k {
        SizeGrows(regions[r].ranges, l + 1, k);
      }
    }
  }

  /** No cell of a read-only range is ever erased, whatever is downloaded. */
  lemma ReadOnlyIsKept(cell: Cell, elements: seq<Element>, regions: seq<MemoryRegion>, chunkSize: nat, r: nat, k: nat, a: nat)
    requires Addressable(regions) && Apart(regions) && Sized(regions) && DisjointElements(elements) && chunkSize > 0
    requires r < |regions| && k < |regions[r].ranges| && !regions[r].ranges[k].writable && InRange(regions[r], k, a)
    ensures ExecuteAll(cell, Plan(elements, Sectors(regions), chunkSize), Sectors(regions), a).erased == cell.erased
  {
    hide Sectors, Proper, ExecuteAll, Plan, AllPages, DisjointElements, Apart, InRange, SizeBefore;
    var sectors := Sectors(regions);
    LayoutIsProper(regions);
    FlashAfterDownload(cell, elements, sectors, chunkSize, a);
    forall s | s in sectors && s.Holds(a) ensures s.start !in AllPages([], elements, sectors) {
      SectorIsReadOnly(regions, s, r, k, a);
      ErasesExactlyTouched(elements, sectors, s.start);
    }
  }

  lemma SectorIsReadOnly(regions: seq<MemoryRegion>, s: Sector, r: nat, k: nat, a: nat)
    requires Addressable(regions) && Apart(regions) && s in Sectors(regions) && s.Holds(a)
    requires r < |regions| && k < |regions[r].ranges| && !regions[r].ranges[k].writable && InRange(regions[r], k, a)
    ensures !s.writable
  {
    hide Sectors, SizeBefore, Apart;
    SectorsAre(regions, s);
    var q, l, n :| IsSector(regions, s, q, l, n);
    SectorInRange(regions[q], l, n);
    OneRange(regions, r, k, q, l, a);
  }

  /** A cell of a writable range is erased once exactly if its sector overlaps one of the elements, and else never. */
  lemma WritableIsErasedIff(cell: Cell, elements: seq<Element>, regions: seq<MemoryRegion>, chunkSize: nat, r: nat, k: nat, n: nat, a: nat)
    requires Addressable(regions) && Apart(regions) && Sized(regions) && DisjointElements(elements) && chunkSize > 0
    requires r < |regions| && k < |regions[r].ranges| && n < regions[r].ranges[k].count && regions[r].ranges[k].writable
    requires Address(regions[r], k, n) <= a < Address(regions[r], k, n) + regions[r].ranges[k].size
    ensures ExecuteAll(cell, Plan(elements, Sectors(regions), chunkSize), Sectors(regions), a).erased == cell.erased +
      var start := Address(regions[r], k, n);
      if exists el <- elements :: start < el.Until() && el.address < start + regions[r].ranges[k].size then 1 else 0
  {
    hide Sectors, Proper, ExecuteAll, Plan, AllPages, DisjointElements, Apart, SizeBefore;
    var sectors := Sectors(regions);
    var s := Sector(Address(regions[r], k, n), Address(regions[r], k, n) + regions[r].ranges[k].size, true);
    LayoutIsProper(regions);
    SectorsAre(regions, s);
    SectorInRange(regions[r], k, n);
    SizeGrows(regions[r].ranges, k + 1, |regions[r].ranges|);
    assert RegionEnd(regions[r]) <= 0xFFFF_FFFF;
    assert s == Nth(regions[r].start + SizeBefore(regions[r].ranges, k), regions[r].ranges[k], n);
    assert IsSector(regions, s, r, k, n);
    FlashAfterDownload(cell, elements, sectors, chunkSize, a);
    ErasesExactlyTouched(elements, sectors, s.start);
    forall t | t in sectors && t.Holds(a) ensures t == s {
      OneSector(sectors, s, t, a);
    }
    SameStart(elements, sectors, s);
  }

  lemma SameStart(elements: seq<Element>, sectors: seq<Sector>, s: Sector)
    requires Proper(sectors) && s in sectors && s.writable
    ensures Touched(elements, sectors, s.start) <==> exists el <- elements :: s.Overlaps(el.address, el.Until())
  {
    forall t | t in sectors && t.start == s.start ensures t == s {
      OneSector(sectors, s, t, s.start);
    }
    if exists el <- elements :: s.Overlaps(el.address, el.Until()) {
      var el :| el in elements && s.Overlaps(el.address, el.Until());
      assert Touched(elements, sectors, s.start);
    }
  }
}
