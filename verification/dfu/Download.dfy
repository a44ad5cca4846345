/** Erasing and writing flash through the DFU command channel. */
module Download {
  import opened Bytes
  import opened Layout

  datatype Element = Element(address: nat, data: seq<byte>) {
    predicate Covers(a: nat) {
      address <= a < address + |data|
    }
    function Until(): nat {
      SaturatingAdd(address, |data|)
    }
  }

  /** The requests of the DfuSe command channel. */
  datatype Command =
    | ErasePage(address: nat)
    | SetAddress(address: nat)
    | DownloadBlock(block: nat, data: seq<byte>)
    | LeaveDfu

  // ---- What the device makes of them ----

  /**
   * One flash cell: its byte, how often it has been erased and written, and the address that the next
   * block goes to.
   */
  datatype Cell = Cell(value: byte, erased: nat, written: nat, target: nat)

  const ERASED: byte := 0xFF

  /** The cell at address `a` after a command; a page is named by the start of its sector. */
  function Execute(cell: Cell, cmd: Command, sectors: seq<Sector>, a: nat): Cell {
    match cmd
    case ErasePage(p) =>
      if exists s :: s in sectors && s.start == p && s.Holds(a) then cell.(value := ERASED, erased := cell.erased + 1) else cell
    case SetAddress(p) => cell.(target := p)
    case DownloadBlock(_, data) =>
      if cell.target <= a < cell.target + |data| then cell.(value := data[a - cell.target], written := cell.written + 1) else cell
    case LeaveDfu => cell
  }

  function ExecuteAll(cell: Cell, cmds: seq<Command>, sectors: seq<Sector>, a: nat): Cell
    decreases cmds
  {
    if cmds == [] then cell else ExecuteAll(Execute(cell, cmds[0], sectors, a), cmds[1..], sectors, a)
  }

  lemma {:induction false} ExecuteAppend(cell: Cell, x: seq<Command>, y: seq<Command>, sectors: seq<Sector>, a: nat)
    ensures ExecuteAll(cell, x + y, sectors, a) == ExecuteAll(ExecuteAll(cell, x, sectors, a), y, sectors, a)
    decreases x
  {
    hide Execute;
    if x == [] {
      assert x + y == y;
    } else {
      assert (x + y)[1..] == x[1..] + y;
      ExecuteAppend(Execute(cell, x[0], sectors, a), x[1..], y, sectors, a);
    }
  }

  // ---- The commands of a download ----

  /** Pages added in order, each once. */
  function AddPages(pages: seq<nat>, more: seq<nat>): seq<nat>
    decreases more
  {
    if more == [] then pages
    else AddPages(if more[0] in pages then pages else pages + [more[0]], more[1..])
  }

  function AllPages(pages: seq<nat>, elements: seq<Element>, sectors: seq<Sector>): seq<nat>
    decreases elements
  {
    if elements == [] then pages
    else AllPages(AddPages(pages, Pages(sectors, elements[0].address, elements[0].Until())), elements[1..], sectors)
  }

  function Erases(pages: seq<nat>): (r: seq<Command>)
    ensures |r| == |pages| && forall i :: 0 <= i < |r| ==> r[i] == ErasePage(pages[i])
  {
    seq(|pages|, i requires 0 <= i < |pages| => ErasePage(pages[i]))
  }

  /** Every chunk is preceded by its own address. */
  function WritesFrom(el: Element, offset: nat, chunkSize: nat): seq<Command>
    requires offset <= |el.data| && chunkSize > 0
    decreases |el.data| - offset
  {
    if offset == |el.data| then []
    else
      var end := ChunkEnd(el, offset, chunkSize);
      [SetAddress(el.address + offset), DownloadBlock(2, el.data[offset..end])] + WritesFrom(el, end, chunkSize)
  }

  function ChunkEnd(el: Element, offset: nat, chunkSize: nat): (r: nat)
    requires offset < |el.data| && chunkSize > 0
    ensures offset < r <= |el.data|
  {
    if offset + chunkSize < |el.data| then offset + chunkSize else |el.data|
  }

  function Writes(elements: seq<Element>, chunkSize: nat): seq<Command>
    requires chunkSize > 0
    decreases elements
  {
    if elements == [] then [] else WritesFrom(elements[0], 0, chunkSize) + Writes(elements[1..], chunkSize)
  }

  function Plan(elements: seq<Element>, sectors: seq<Sector>, chunkSize: nat): seq<Command>
    requires chunkSize > 0
  {
    Erases(AllPages([], elements, sectors)) + Writes(elements, chunkSize) + [LeaveDfu]
  }

  // ---- The download ----

  /** What becomes of a request: it is carried out, it is lost, or it is carried out but reported as failed. */
  datatype Fate = Done | Lost | Unconfirmed

  datatype Result = Ok | Err {
    predicate IsFailure() {
      Err?
    }
    function PropagateFailure(): Result
      requires Err?
    {
      Err
    }
  }

  class DfuDevice {
    const regions: seq<MemoryRegion>
    const transferSize: nat
    const fates: nat -> Fate
    /** The requests that the device has carried out. */
    var log: seq<Command>
    var requests: nat

    constructor (regions: seq<MemoryRegion>, transferSize: nat, fates: nat -> Fate)
      ensures this.regions == regions && this.transferSize == transferSize && this.fates == fates && log == []
    {
      this.regions, this.transferSize, this.fates, this.log, this.requests := regions, transferSize, fates, [], 0;
    }

    method Request(cmd: Command) returns (r: Result)
      modifies this
      ensures r.Ok? ==> log == old(log) + [cmd]
      ensures r.Err? ==> log == old(log) || log == old(log) + [cmd]
      ensures r.Err? <==> fates(old(requests)) != Done
      ensures requests == old(requests) + 1
    {
      var fate := fates(requests);
      requests := requests + 1;
      if !fate.Lost? {
        log := log + [cmd];
      }
      r := if fate.Done? then Ok else Err;
    }

    /** Whether the log is what it was and a first part of a plan. */
    ghost predicate Begun(before: seq<Command>, plan: seq<Command>)
      reads this
    {
      exists n: nat :: n <= |plan| && log == before + plan[..n]
    }

    /** One request of a plan, of which `done` has been carried out. */
    method Proceed(cmd: Command, ghost before: seq<Command>, ghost plan: seq<Command>, ghost done: nat) returns (r: Result)
      requires done < |plan| && plan[done] == cmd && log == before + plan[..done]
      modifies this
      ensures r.Ok? ==> log == before + plan[..done + 1]
      ensures r.Err? ==> Begun(before, plan)
      ensures r.Err? <==> fates(old(requests)) != Done
      ensures requests == old(requests) + 1
    {
      assert before + plan[..done] + [cmd] == before + plan[..done + 1];
      r := Request(cmd);
    }

    /** The pages of all elements, without repetition. */
    method CollectPages(elements: seq<Element>) returns (pages: seq<nat>)
      ensures pages == AllPages([], elements, Sectors(regions))
    {
      hide Pages, Sectors;
      pages := [];
      ghost var sectors := Sectors(regions);
      assert elements[0..] == elements;
      for k := 0 to |elements|
        invariant AllPages(pages, elements[k..], sectors) == AllPages([], elements, sectors)
      {
        var el := elements[k];
        assert elements[k..][1..] == elements[k + 1..];
        var found := PagesIn(regions, el.address, el.Until());
        ghost var before := pages;
        assert found[0..] == found;
        for j := 0 to |found|
          invariant AddPages(pages, found[j..]) == AddPages(before, found)
        {
          assert found[j..][1..] == found[j + 1..];
          if found[j] !in pages {
            pages := pages + [found[j]];
          }
        }
      }
    }

    /** Writes one element in chunks. */
    method WriteElement(el: Element, ghost before: seq<Command>, ghost plan: seq<Command>, ghost done0: nat) returns (r: Result, ghost done: nat)
      requires transferSize > 0 && el.address + |el.data| <= MAX_U32 + 1
      requires done0 + |WritesFrom(el, 0, transferSize)| <= |plan|
      requires plan[done0..done0 + |WritesFrom(el, 0, transferSize)|] == WritesFrom(el, 0, transferSize)
      requires log == before + plan[..done0]
      modifies this
      ensures r.Ok? ==> done == done0 + |WritesFrom(el, 0, transferSize)| && log == before + plan[..done]
      ensures r.Err? ==> Begun(before, plan)
      ensures old(requests) <= requests
      ensures r.Err? ==> exists i: nat :: old(requests) <= i < requests && fates(i) != Done
    {
      hide WritesFrom, Begun;
      var offset: nat := 0;
      done := done0;
      ghost var all := WritesFrom(el, 0, transferSize);
      while offset < |el.data|
        invariant offset <= |el.data| && done0 <= done <= done0 + |all|
        invariant all[done - done0..] == WritesFrom(el, offset, transferSize)
        invariant log == before + plan[..done]
        invariant old(requests) <= requests
        decreases |el.data| - offset
      {
        var end := if offset + transferSize < |el.data| then offset + transferSize else |el.data|;
        var chunk := el.data[offset..end];
        WritesStep(el, offset, transferSize);
        assert all[done - done0] == SetAddress(el.address + offset) && all[done - done0 + 1] == DownloadBlock(2, chunk);
        assert plan[done] == all[done - done0] && plan[done + 1] == all[done - done0 + 1];
        r := Proceed(SetAddress(el.address + offset), before, plan, done);
        if r.Err? {
          return;
        }
        r := Proceed(DownloadBlock(2, chunk), before, plan, done + 1);
        if r.Err? {
          return;
        }
        done := done + 2;
        offset := end;
      }
      NoWrites(el, transferSize);
      r := Ok;
    }

    /**
     * Erase, write, leave. On success the device has carried out the plan; on failure a first part of it. The
     * download fails only if a request did.
     */
    method Download(elements: seq<Element>) returns (r: Result)
      requires transferSize > 0
      requires forall i :: 0 <= i < |elements| ==> elements[i].address + |elements[i].data| <= MAX_U32 + 1
      modifies this
      ensures r.Ok? ==> log == old(log) + Plan(elements, Sectors(regions), transferSize)
      ensures r.Err? ==> Begun(old(log), Plan(elements, Sectors(regions), transferSize))
      ensures r.Err? ==> exists i: nat :: old(requests) <= i < requests && fates(i) != Done
    {
      hide AllPages, Sectors, WritesFrom, Begun, Writes;
      ghost var before := log;
      ghost var plan := Plan(elements, Sectors(regions), transferSize);
      var pages := CollectPages(elements);
      for i := 0 to |pages|
        invariant log == before + plan[..i] && old(requests) <= requests
      {
        assert plan[i] == Erases(pages)[i];
        r := Proceed(ErasePage(pages[i]), before, plan, i);
        if r.Err? {
          return;
        }
      }
      ghost var done := |pages|;
      ghost var all := Writes(elements, transferSize);
      assert plan[done..done + |all|] == all && elements[0..] == elements;
      for k := 0 to |elements|
        invariant done + |Writes(elements[k..], transferSize)| + 1 == |plan| && |pages| <= done
        invariant plan[done..|plan| - 1] == Writes(elements[k..], transferSize)
        invariant log == before + plan[..done] && old(requests) <= requests
      {
        var el := elements[k];
        WritesNext(elements, k, transferSize);
        ghost var mine := WritesFrom(el, 0, transferSize);
        assert plan[done..done + |mine|] == plan[done..|plan| - 1][..|mine|];
        r, done := WriteElement(el, before, plan, done);
        if r.Err? {
          return;
        }
        assert plan[done..|plan| - 1] == (mine + Writes(elements[k + 1..], transferSize))[|mine|..];
      }
      NothingToWrite(elements, transferSize);
      assert plan[done] == LeaveDfu;
      r := Proceed(LeaveDfu, before, plan, done);
      assert plan[..|plan|] == plan;
    }
  }

  lemma WritesStep(el: Element, offset: nat, chunkSize: nat)
    requires offset < |el.data| && chunkSize > 0
    ensures var end := if offset + chunkSize < |el.data| then offset + chunkSize else |el.data|;
      WritesFrom(el, offset, chunkSize)
      == [SetAddress(el.address + offset), DownloadBlock(2, el.data[offset..end])] + WritesFrom(el, end, chunkSize)
  {
  }

  lemma NoWrites(el: Element, chunkSize: nat)
    requires chunkSize > 0
    ensures WritesFrom(el, |el.data|, chunkSize) == []
  {
  }

  lemma WritesNext(elements: seq<Element>, k: nat, chunkSize: nat)
    requires k < |elements| && chunkSize > 0
    ensures Writes(elements[k..], chunkSize) == WritesFrom(elements[k], 0, chunkSize) + Writes(elements[k + 1..], chunkSize)
  {
    assert elements[k..][1..] == elements[k + 1..];
  }

  lemma NothingToWrite(elements: seq<Element>, chunkSize: nat)
    requires chunkSize > 0
    ensures Writes(elements[|elements|..], chunkSize) == []
  {
  }
}
