/** The flash layout of an STM32 bootloader: regions of equally sized sectors, some of them read-only. */
module Layout {

  const MAX_U32: nat := 0xFFFF_FFFF

  datatype SectorRange = SectorRange(count: nat, size: nat, writable: bool)

  datatype MemoryRegion = MemoryRegion(start: nat, ranges: seq<SectorRange>)

  /** One sector: the addresses from `start` up to `end`. */
  datatype Sector = Sector(start: nat, end: nat, writable: bool) {
    predicate Holds(a: nat) {
      start <= a < end
    }
    /** The overlap test of the erase phase. */
    predicate Overlaps(from: nat, to: nat) {
      end > from && start < to
    }
  }

  function SaturatingAdd(a: nat, b: nat): nat {
    if a + b > MAX_U32 then MAX_U32 else a + b
  }

  // ---- All sectors, in order ----

  function RangeSectors(cursor: nat, range: SectorRange, n: nat): seq<Sector>
    decreases n
  {
    if n == 0 then []
    else
      var end := SaturatingAdd(cursor, range.size);
      [Sector(cursor, end, range.writable)] + RangeSectors(end, range, n - 1)
  }

  function RangeEnd(cursor: nat, range: SectorRange, n: nat): nat
    decreases n
  {
    if n == 0 then cursor else RangeEnd(SaturatingAdd(cursor, range.size), range, n - 1)
  }

  function RegionSectors(cursor: nat, ranges: seq<SectorRange>): seq<Sector>
    decreases ranges
  {
    if ranges == [] then []
    else RangeSectors(cursor, ranges[0], ranges[0].count) + RegionSectors(RangeEnd(cursor, ranges[0], ranges[0].count), ranges[1..])
  }

  function Sectors(regions: seq<MemoryRegion>): seq<Sector>
    decreases regions
  {
    if regions == [] then [] else RegionSectors(regions[0].start, regions[0].ranges) + Sectors(regions[1..])
  }

  /** The starts of the writable sectors that overlap a range. */
  function Pages(sectors: seq<Sector>, from: nat, to: nat): seq<nat> {
    if sectors == [] then []
    else (if sectors[0].writable && sectors[0].Overlaps(from, to) then [sectors[0].start] else []) + Pages(sectors[1..], from, to)
  }

  lemma {:induction false} PagesAre(sectors: seq<Sector>, from: nat, to: nat, p: nat)
    ensures p in Pages(sectors, from, to) <==> exists s :: s in sectors && s.writable && s.Overlaps(from, to) && s.start == p
  {
    if sectors != [] {
      PagesAre(sectors[1..], from, to, p);
      assert forall s :: s in sectors <==> s == sectors[0] || s in sectors[1..];
    }
  }

  /** The nested loops over regions, ranges and sectors. */
  method PagesIn(regions: seq<MemoryRegion>, from: nat, to: nat) returns (out: seq<nat>)
    ensures out == Pages(Sectors(regions), from, to)
  {
    hide Sectors, RegionSectors, Pages;
    out := [];
    SectorsStep(regions);
    for r := 0 to |regions|
      invariant Pages(Sectors(regions), from, to) == out + Pages(Sectors(regions[r..]), from, to)
    {
      var region := regions[r];
      var cursor := region.start;
      ghost var later := Sectors(regions[r + 1..]);
      SectorsStep(regions[r..]);
      assert regions[r..][1..] == regions[r + 1..];
      assert region.ranges[0..] == region.ranges;
      for k := 0 to |region.ranges|
        invariant Pages(Sectors(regions), from, to) == out + Pages(RegionSectors(cursor, region.ranges[k..]) + later, from, to)
      {
        var range := region.ranges[k];
        RegionStep(cursor, region.ranges[k..]);
        assert region.ranges[k..][1..] == region.ranges[k + 1..];
        ghost var mine := RangeSectors(cursor, range, range.count);
        ghost var others := RegionSectors(RangeEnd(cursor, range, range.count), region.ranges[k + 1..]);
        assert (mine + others) + later == mine + (others + later);
        out, cursor := PagesInRange(range, cursor, from, to, out, others + later);
      }
      RegionStep(cursor, []);
      assert [] + later == later;
    }
    SectorsStep([]);
    assert regions[|regions|..] == [];
    NoPages(from, to);
  }

  lemma SectorsStep(regions: seq<MemoryRegion>)
    ensures Sectors(regions) == if regions == [] then [] else RegionSectors(regions[0].start, regions[0].ranges) + Sectors(regions[1..])
    ensures regions[0..] == regions
  {
  }

  lemma RegionStep(cursor: nat, ranges: seq<SectorRange>)
    ensures RegionSectors(cursor, ranges) == if ranges == [] then []
      else RangeSectors(cursor, ranges[0], ranges[0].count) + RegionSectors(RangeEnd(cursor, ranges[0], ranges[0].count), ranges[1..])
  {
  }

  lemma NoPages(from: nat, to: nat)
    ensures Pages([], from, to) == []
  {
  }

  /** The sectors of one range; `after` are those behind it. */
  method PagesInRange(range: SectorRange, cursor0: nat, from: nat, to: nat, out0: seq<nat>, ghost after: seq<Sector>)
    returns (out: seq<nat>, cursor: nat)
    ensures cursor == RangeEnd(cursor0, range, range.count)
    ensures out0 + Pages(RangeSectors(cursor0, range, range.count) + after, from, to) == out + Pages(after, from, to)
  {
    out, cursor := out0, cursor0;
    ghost var goal := out0 + Pages(RangeSectors(cursor0, range, range.count) + after, from, to);
    for n := 0 to range.count
      invariant RangeEnd(cursor, range, range.count - n) == RangeEnd(cursor0, range, range.count)
      invariant goal == out + Pages(RangeSectors(cursor, range, range.count - n) + after, from, to)
    {
      ghost var rest := RangeSectors(SaturatingAdd(cursor, range.size), range, range.count - n - 1) + after;
      var sectorStart := cursor;
      var sectorEnd := SaturatingAdd(cursor, range.size);
      assert RangeSectors(cursor, range, range.count - n) + after == [Sector(sectorStart, sectorEnd, range.writable)] + rest;
      if range.writable && sectorEnd > from && sectorStart < to {
        out := out + [sectorStart];
      }
      cursor := sectorEnd;
    }
    assert [] + after == after;
  }

  // ---- Layouts that make sense ----

  ghost predicate Proper(sectors: seq<Sector>) {
    && (forall i :: 0 <= i < |sectors| ==> sectors[i].start < sectors[i].end)
    && (forall i, j :: 0 <= i < j < |sectors| ==> sectors[i].end <= sectors[j].start || sectors[j].end <= sectors[i].start)
  }

  /** In a proper layout an address lies in one sector, and a start belongs to one. */
  lemma OneSector(sectors: seq<Sector>, s: Sector, t: Sector, a: nat)
    requires Proper(sectors) && s in sectors && t in sectors && s.Holds(a) && t.Holds(a)
    ensures s == t
  {
  }
}
