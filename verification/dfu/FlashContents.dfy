/** What a completed download leaves in flash. */
module FlashContents {
  import opened Bytes
  import opened Layout
  import opened Download

  // ---- Which pages are erased ----

  lemma {:induction false} AddPagesAre(pages: seq<nat>, more: seq<nat>, p: nat)
    ensures p in AddPages(pages, more) <==> p in pages || p in more
    decreases more
  {
    if more != [] {
      AddPagesAre(if more[0] in pages then pages else pages + [more[0]], more[1..], p);
    }
  }

  ghost predicate Distinct(pages: seq<nat>) {
    forall i, j :: 0 <= i < j < |pages| ==> pages[i] != pages[j]
  }

  lemma {:induction false} AddPagesDistinct(pages: seq<nat>, more: seq<nat>)
    requires Distinct(pages)
    ensures Distinct(AddPages(pages, more))
    decreases more
  {
    if more != [] {
      AddPagesDistinct(if more[0] in pages then pages else pages + [more[0]], more[1..]);
    }
  }

  /** A writable sector starts at `p` and overlaps one of the elements. */
  ghost predicate Touched(elements: seq<Element>, sectors: seq<Sector>, p: nat) {
    exists s, el :: s in sectors && el in elements && s.writable && s.start == p && s.Overlaps(el.address, el.Until())
  }

  lemma {:induction false} AllPagesAre(pages: seq<nat>, elements: seq<Element>, sectors: seq<Sector>, p: nat)
    ensures p in AllPages(pages, elements, sectors) <==> p in pages || Touched(elements, sectors, p)
    decreases elements
  {
    if elements != [] {
      var el, rest := elements[0], elements[1..];
      var found := Pages(sectors, el.address, el.Until());
      AddPagesAre(pages, found, p);
      PagesAre(sectors, el.address, el.Until(), p);
      AllPagesAre(AddPages(pages, found), rest, sectors, p);
      assert forall e :: e in elements <==> e == el || e in rest;
    }
  }

  lemma {:induction false} AllPagesDistinct(pages: seq<nat>, elements: seq<Element>, sectors: seq<Sector>)
    requires Distinct(pages)
    ensures Distinct(AllPages(pages, elements, sectors))
    decreases elements
  {
    if elements != [] {
      var found := Pages(sectors, elements[0].address, elements[0].Until());
      AddPagesDistinct(pages, found);
      AllPagesDistinct(AddPages(pages, found), elements[1..], sectors);
    }
  }

  // ---- The erase phase ----

  lemma {:induction false} ErasesDo(cell: Cell, pages: seq<nat>, sectors: seq<Sector>, a: nat)
    requires Proper(sectors) && Distinct(pages)
    ensures var after := ExecuteAll(cell, Erases(pages), sectors, a);
      && after.written == cell.written && after.target == cell.target
      && (if exists s :: s in sectors && s.start in pages && s.Holds(a) then after.value == ERASED && after.erased == cell.erased + 1
          else after.value == cell.value && after.erased == cell.erased)
    decreases pages
  {
    hide Proper;
    var cmds := Erases(pages);
    if pages != [] {
      var next := Execute(cell, cmds[0], sectors, a);
      assert cmds[1..] == Erases(pages[1..]);
      ErasesDo(next, pages[1..], sectors, a);
      assert pages[0] !in pages[1..];
      ErasedOnce(pages, sectors, a);
    }
  }

  /** A cell is reached through one page only. */
  lemma ErasedOnce(pages: seq<nat>, sectors: seq<Sector>, a: nat)
    requires Proper(sectors) && Distinct(pages) && pages != []
    ensures var here := exists s :: s in sectors && s.start == pages[0] && s.Holds(a);
      var later := exists s :: s in sectors && s.start in pages[1..] && s.Holds(a);
      !(here && later) && ((exists s :: s in sectors && s.start in pages && s.Holds(a)) <==> here || later)
  {
    forall s, t | s in sectors && t in sectors && s.start == pages[0] && t.start in pages[1..] && s.Holds(a) ensures !t.Holds(a) {
      if t.Holds(a) {
        OneSector(sectors, s, t, a);
      }
    }
  }

  // ---- The write phase ----

  lemma {:induction false} WritesFromDo(cell: Cell, el: Element, offset: nat, chunkSize: nat, sectors: seq<Sector>, a: nat)
    requires offset <= |el.data| && chunkSize > 0
    ensures var after := ExecuteAll(cell, WritesFrom(el, offset, chunkSize), sectors, a);
      && after.erased == cell.erased
      && (if el.address + offset <= a < el.address + |el.data| then after.value == el.data[a - el.address] && after.written == cell.written + 1
          else after.value == cell.value && after.written == cell.written)
    decreases |el.data| - offset
  {
    if offset < |el.data| {
      var end := ChunkEnd(el, offset, chunkSize);
      var cmds := WritesFrom(el, offset, chunkSize);
      var chunk := el.data[offset..end];
      var set0, block := SetAddress(el.address + offset), DownloadBlock(2, chunk);
      var mid := Execute(Execute(cell, set0, sectors, a), block, sectors, a);
      assert cmds[0] == set0 && cmds[1..][0] == block && cmds[1..][1..] == WritesFrom(el, end, chunkSize);
      WritesFromDo(mid, el, end, chunkSize, sectors, a);
    }
  }

  /** The commands start with the piece at `from`, as long as the rest allows; nothing follows the last piece. */
  predicate StartsWithPiece(cmds: seq<Command>, el: Element, from: nat, chunkSize: nat)
    requires from < |el.data|
  {
    && |cmds| >= 2 && cmds[0] == SetAddress(el.address + from)
    && (from + chunkSize >= |el.data| ==> cmds[1] == DownloadBlock(2, el.data[from..]) && |cmds| == 2)
    && (from + chunkSize < |el.data| ==> cmds[1] == DownloadBlock(2, el.data[from..from + chunkSize]) && |cmds| > 2)
  }

  /** Piece `i` of an element: its own address, then at most `chunkSize` bytes in block 2. */
  lemma {:induction false} PieceIs(el: Element, offset: nat, chunkSize: nat, i: nat)
    requires chunkSize > 0 && offset + i * chunkSize < |el.data|
    ensures var cmds := WritesFrom(el, offset, chunkSize);
      2 * i <= |cmds| && StartsWithPiece(cmds[2 * i..], el, offset + i * chunkSize, chunkSize)
    decreases i
  {
    hide WritesFrom, StartsWithPiece;
    var cmds := WritesFrom(el, offset, chunkSize);
    if i == 0 {
      FirstPiece(el, offset, chunkSize);
      assert cmds[0..] == cmds;
    } else {
      assert i * chunkSize == (i - 1) * chunkSize + chunkSize && (i - 1) * chunkSize >= 0;
      WritesStep(el, offset, chunkSize);
      PieceIs(el, offset + chunkSize, chunkSize, i - 1);
      assert cmds[2 * i..] == WritesFrom(el, offset + chunkSize, chunkSize)[2 * (i - 1)..];
    }
  }

  lemma FirstPiece(el: Element, from: nat, chunkSize: nat)
    requires chunkSize > 0 && from < |el.data|
    ensures StartsWithPiece(WritesFrom(el, from, chunkSize), el, from, chunkSize)
  {
    hide WritesFrom;
    WritesStep(el, from, chunkSize);
    if from + chunkSize >= |el.data| {
      NoWrites(el, chunkSize);
    } else {
      WritesStep(el, from + chunkSize, chunkSize);
    }
  }

  /** An element reaches to its end, or as far as 32 bits go. */
  lemma UntilIs(el: Element)
    ensures el.address + |el.data| <= 0xFFFF_FFFF ==> el.Until() == el.address + |el.data|
    ensures el.address + |el.data| > 0xFFFF_FFFF ==> el.Until() == 0xFFFF_FFFF
  {
  }

  ghost predicate DisjointElements(elements: seq<Element>) {
    forall i, j, a: nat :: 0 <= i < j < |elements| && elements[i].Covers(a) ==> !elements[j].Covers(a)
  }

  lemma {:induction false} WritesDo(cell: Cell, elements: seq<Element>, chunkSize: nat, sectors: seq<Sector>, a: nat)
    requires chunkSize > 0 && DisjointElements(elements)
    ensures var after := ExecuteAll(cell, Writes(elements, chunkSize), sectors, a);
      && after.erased == cell.erased
      && (forall i :: 0 <= i < |elements| && elements[i].Covers(a) ==>
            after.value == elements[i].data[a - elements[i].address] && after.written == cell.written + 1)
      && ((forall i :: 0 <= i < |elements| ==> !elements[i].Covers(a)) ==> after.value == cell.value && after.written == cell.written)
    decreases elements
  {
    hide WritesFrom;
    if elements != [] {
      var el, rest := elements[0], elements[1..];
      var mine := WritesFrom(el, 0, chunkSize);
      ExecuteAppend(cell, mine, Writes(rest, chunkSize), sectors, a);
      WritesFromDo(cell, el, 0, chunkSize, sectors, a);
      assert DisjointElements(rest) by {
        forall i, j, b: nat | 0 <= i < j < |rest| && rest[i].Covers(b) ensures !rest[j].Covers(b) {
          assert rest[i] == elements[i + 1] && rest[j] == elements[j + 1];
        }
      }
      WritesDo(ExecuteAll(cell, mine, sectors, a), rest, chunkSize, sectors, a);
      assert forall i :: 0 < i < |elements| ==> elements[i] == rest[i - 1];
    }
  }

  // ---- The theorem ----

  /** Every byte of the elements lies in a writable sector. */
  ghost predicate InsideWritable(elements: seq<Element>, sectors: seq<Sector>) {
    forall i, a: nat :: 0 <= i < |elements| && elements[i].Covers(a) ==> exists s :: s in sectors && s.writable && s.Holds(a)
  }

  /** A sector that the download erases: writable, and overlapping an element. */
  ghost predicate IsErased(elements: seq<Element>, sectors: seq<Sector>, a: nat) {
    exists s :: s in sectors && s.Holds(a) && s.start in AllPages([], elements, sectors)
  }

  /**
   * The cell at any address after a completed download. A cell of an element holds the element's byte, was erased once and
   * written once; a cell elsewhere was never written, and is erased once if its sector was, and else untouched.
   */
  lemma FlashAfterDownload(cell: Cell, elements: seq<Element>, sectors: seq<Sector>, chunkSize: nat, a: nat)
    requires Proper(sectors) && DisjointElements(elements) && chunkSize > 0
    ensures var after := ExecuteAll(cell, Plan(elements, sectors, chunkSize), sectors, a);
      && (forall i :: 0 <= i < |elements| && elements[i].Covers(a) ==>
            after.value == elements[i].data[a - elements[i].address] && after.written == cell.written + 1)
      && ((forall i :: 0 <= i < |elements| ==> !elements[i].Covers(a)) ==>
            after.written == cell.written && after.value == if IsErased(elements, sectors, a) then ERASED else cell.value)
      && after.erased == cell.erased + if IsErased(elements, sectors, a) then 1 else 0
  {
    hide Execute, AllPages, Writes, Proper, DisjointElements;
    var pages := AllPages([], elements, sectors);
    var erases, writes := Erases(pages), Writes(elements, chunkSize);
    assert Distinct(pages) by {
      assert Distinct([]);
      AllPagesDistinct([], elements, sectors);
    }
    ExecuteAppend(cell, erases + writes, [LeaveDfu], sectors, a);
    ExecuteAppend(cell, erases, writes, sectors, a);
    ErasesDo(cell, pages, sectors, a);
    WritesDo(ExecuteAll(cell, erases, sectors, a), elements, chunkSize, sectors, a);
    LeavingDoes(ExecuteAll(cell, erases + writes, sectors, a), sectors, a);
    assert (exists s :: s in sectors && s.start in pages && s.Holds(a)) <==> IsErased(elements, sectors, a);
  }

  lemma LeavingDoes(cell: Cell, sectors: seq<Sector>, a: nat)
    ensures ExecuteAll(cell, [LeaveDfu], sectors, a) == cell
  {
  }

  /** Every byte is written to erased flash when the elements lie in writable sectors. */
  lemma WrittenCellsAreErased(elements: seq<Element>, sectors: seq<Sector>, i: nat, a: nat)
    requires InsideWritable(elements, sectors) && i < |elements| && elements[i].Covers(a)
    requires elements[i].address + |elements[i].data| <= MAX_U32
    ensures IsErased(elements, sectors, a)
  {
    var s :| s in sectors && s.writable && s.Holds(a);
    AllPagesAre([], elements, sectors, s.start);
    assert elements[i] in elements && s.Overlaps(elements[i].address, elements[i].Until());
  }

  /** The pages of the plan are the starts of the touched writable sectors, each once; no read-only sector is among them. */
  lemma ErasesExactlyTouched(elements: seq<Element>, sectors: seq<Sector>, p: nat)
    requires Proper(sectors)
    ensures Distinct(AllPages([], elements, sectors))
    ensures p in AllPages([], elements, sectors) <==> Touched(elements, sectors, p)
    ensures forall s :: s in sectors && s.start == p && p in AllPages([], elements, sectors) ==> s.writable
  {
    assert Distinct([]);
    AllPagesDistinct([], elements, sectors);
    AllPagesAre([], elements, sectors, p);
    forall s | s in sectors && s.start == p && p in AllPages([], elements, sectors) ensures s.writable {
      var t :| t in sectors && t.writable && t.start == p;
      OneSector(sectors, s, t, p);
    }
  }

  /** For an element with data, overlapping is sharing an address. */
  lemma OverlapIsSharing(s: Sector, el: Element)
    requires el.data != [] && s.start < s.end && el.address + |el.data| <= MAX_U32
    ensures s.Overlaps(el.address, el.Until()) <==> exists a: nat :: s.Holds(a) && el.Covers(a)
  {
    if s.Overlaps(el.address, el.Until()) {
      var a := if s.start < el.address then el.address else s.start;
      assert s.Holds(a) && el.Covers(a);
    }
  }

  /** An element without data erases the sector that its address lies inside of. */
  lemma EmptyElementErases(s: Sector, el: Element)
    requires el.data == [] && el.address <= MAX_U32
    ensures s.Overlaps(el.address, el.Until()) <==> s.start < el.address < s.end
  {
  }

  /** Nothing is erased once writing has begun. */
  lemma ErasesComeFirst(elements: seq<Element>, sectors: seq<Sector>, chunkSize: nat, i: nat, j: nat)
    requires chunkSize > 0 && i < j < |Plan(elements, sectors, chunkSize)| && Plan(elements, sectors, chunkSize)[j].ErasePage?
    ensures Plan(elements, sectors, chunkSize)[i].ErasePage?
  {
    hide AllPages, Writes;
    WritesDoNotErase(elements, chunkSize);
  }

  lemma {:induction false} WritesDoNotErase(elements: seq<Element>, chunkSize: nat)
    requires chunkSize > 0
    ensures forall i :: 0 <= i < |Writes(elements, chunkSize)| ==> !Writes(elements, chunkSize)[i].ErasePage?
    decreases elements
  {
    hide WritesFrom;
    if elements != [] {
      WritesDoNotErase(elements[1..], chunkSize);
      WritesFromDoNotErase(elements[0], 0, chunkSize);
    }
  }

  lemma {:induction false} WritesFromDoNotErase(el: Element, offset: nat, chunkSize: nat)
    requires offset <= |el.data| && chunkSize > 0
    ensures forall i :: 0 <= i < |WritesFrom(el, offset, chunkSize)| ==> !WritesFrom(el, offset, chunkSize)[i].ErasePage?
    decreases |el.data| - offset
  {
    if offset < |el.data| {
      WritesFromDoNotErase(el, ChunkEnd(el, offset, chunkSize), chunkSize);
    }
  }
}
