/** The running checksum of a firmware upload to the hub. */
module SpikeUpload {
  import opened Bytes

  // ---- CRC-32, section 8 of RFC 1952 ----

  const POLYNOMIAL: bv32 := 0xEDB88320

  function CrcBit(crc: bv32): bv32 {
    if crc & 1 == 1 then (crc >> 1) ^ POLYNOMIAL else crc >> 1
  }

  function CrcByte(crc: bv32, b: bv8): bv32 {
    var c := crc ^ (b as bv32);
    CrcBit(CrcBit(CrcBit(CrcBit(CrcBit(CrcBit(CrcBit(CrcBit(c))))))))
  }

  function CrcFold(crc: bv32, data: seq<bv8>): bv32 {
    if data == [] then crc else CrcByte(CrcFold(crc, data[..|data| - 1]), data[|data| - 1])
  }

  function Invert(x: bv32): bv32 {
    !x
  }

  /** The checksum of `data` continued from the checksum `seed` of what came before it. */
  function Crc(data: seq<bv8>, seed: bv32): bv32 {
    Invert(CrcFold(Invert(seed), data))
  }

  /** An incremental CRC computation: its state is the checksum of what it was fed so far. */
  class Hasher {
    var state: bv32

    constructor ()
      ensures state == 0
    {
      state := 0;
    }

    constructor WithInitial(seed: bv32)
      ensures state == seed
    {
      state := seed;
    }

    method Update(data: seq<bv8>)
      modifies this
      ensures state == Crc(data, old(state))
    {
      hide CrcByte, Invert;
      var crc := Invert(state);
      for i := 0 to |data|
        invariant crc == CrcFold(Invert(old(state)), data[..i])
      {
        assert data[..i + 1][..i] == data[..i];
        crc := CrcByte(crc, data[i]);
      }
      assert data[..|data|] == data;
      state := Invert(crc);
    }

    method Finalize() returns (r: bv32)
      ensures r == state
    {
      r := state;
    }
  }

  lemma {:induction false} FoldAppend(crc: bv32, a: seq<bv8>, b: seq<bv8>)
    ensures CrcFold(crc, a + b) == CrcFold(CrcFold(crc, a), b)
    decreases b
  {
    hide CrcByte;
    if b == [] {
      assert a + b == a;
    } else {
      assert (a + b)[..|a + b| - 1] == a + b[..|b| - 1];
      FoldAppend(crc, a, b[..|b| - 1]);
    }
  }

  /** Continuing a checksum is the checksum of the whole. */
  lemma CrcAppend(a: seq<bv8>, b: seq<bv8>, seed: bv32)
    ensures Crc(b, Crc(a, seed)) == Crc(a + b, seed)
  {
    hide CrcFold, Invert;
    FoldAppend(Invert(seed), a, b);
    InvertTwice(CrcFold(Invert(seed), a));
  }

  lemma InvertTwice(x: bv32)
    ensures Invert(Invert(x)) == x
  {
  }

  // ---- Padding ----

  function Zeros(n: nat): (r: seq<bv8>)
    ensures |r| == n
  {
    seq(n, _ => 0)
  }

  /** The data with zeros up to a multiple of four bytes. */
  function Pad(data: seq<bv8>): (r: seq<bv8>)
    ensures |r| % 4 == 0 && |data| <= |r| < |data| + 4 && r[..|data|] == data
    ensures forall i :: |data| <= i < |r| ==> r[i] == 0
  {
    if |data| % 4 == 0 then data else data + Zeros(4 - |data| % 4)
  }

  method Crc32Padded(data: seq<bv8>, seed: bv32) returns (r: bv32)
    ensures r == Crc(Pad(data), seed)
  {
    hide CrcFold;
    var hasher;
    if seed == 0 {
      hasher := new Hasher();
    } else {
      hasher := new Hasher.WithInitial(seed);
    }
    hasher.Update(data);
    var remainder := |data| % 4;
    if remainder != 0 {
      hasher.Update(Zeros(4 - remainder));
      CrcAppend(data, Zeros(4 - remainder), seed);
    }
    r := hasher.Finalize();
  }

  // ---- The upload ----

  datatype Chunk = Chunk(crc: bv32, data: seq<bv8>)

  datatype Outcome = Success | Refused | EmptyImage | RejectedAt(offset: nat) | UpdateRejected | SliceOutOfRange

  /** The chunks from `pos` on, each with the checksum as it runs. */
  function Transfers(image: seq<bv8>, pos: nat, running: bv32, chunkSize: nat): (r: seq<Chunk>)
    requires pos <= |image| && chunkSize > 0
    decreases |image| - pos
  {
    if pos == |image| then []
    else
      var end := ChunkEnd(image, pos, chunkSize);
      var crc := Crc(Pad(image[pos..end]), running);
      [Chunk(crc, image[pos..end])] + Transfers(image, end, crc, chunkSize)
  }

  function ChunkEnd(image: seq<bv8>, pos: nat, chunkSize: nat): (r: nat)
    requires pos < |image| && chunkSize > 0
    ensures pos < r <= |image|
  {
    if pos + chunkSize < |image| then pos + chunkSize else |image|
  }

  /** The checksum that the upload starts from when the hub already holds the first `resume` bytes. */
  function StartCrc(image: seq<bv8>, resume: nat): bv32
    requires resume <= |image|
  {
    if resume > 0 then Crc(Pad(image[..resume]), 0) else 0
  }

  function EffectiveChunkSize(maxChunkSize: nat): nat {
    if maxChunkSize < 64 then 64 else maxChunkSize
  }

  /** `chunk` is the one that starts at `offset`. */
  ghost predicate IsChunkAt(image: seq<bv8>, resume: nat, offset: nat, chunkSize: nat, chunk: Chunk)
    requires chunkSize > 0
  {
    resume <= offset < |image| && chunk.data == image[offset..ChunkEnd(image, offset, chunkSize)]
  }

  /** Sends chunks until one is rejected or the image is complete. */
  method SendChunks(image: seq<bv8>, resume: nat, startCrc: bv32, chunkSize: nat, accepts: nat -> bool)
    returns (sent: seq<Chunk>, r: Outcome)
    requires resume <= |image| && chunkSize > 0
    ensures var plan := Transfers(image, resume, startCrc, chunkSize);
      && |sent| <= |plan| && sent == plan[..|sent|]
      && (forall i :: 0 <= i < |sent| - 1 ==> accepts(i))
      && (r == Success ==> sent == plan && (sent != [] ==> accepts(|sent| - 1)))
      && (r != Success ==> sent != [] && !accepts(|sent| - 1) && r.RejectedAt? && IsChunkAt(image, resume, r.offset, chunkSize, sent[|sent| - 1]))
  {
    hide Transfers, Crc, Pad;
    sent := [];
    var running := startCrc;
    var pos := resume;
    ghost var plan := Transfers(image, resume, startCrc, chunkSize);
    while pos < |image|
      invariant resume <= pos <= |image| && plan == sent + Transfers(image, pos, running, chunkSize)
      invariant forall i :: 0 <= i < |sent| ==> accepts(i)
    {
      NextTransfer(image, pos, running, chunkSize);
      var end := if pos + chunkSize < |image| then pos + chunkSize else |image|;
      var chunk := image[pos..end];
      running := Crc32Padded(chunk, running);
      sent := sent + [Chunk(running, chunk)];
      assert plan == sent + Transfers(image, end, running, chunkSize);
      if !accepts(|sent| - 1) {
        return sent, RejectedAt(pos);
      }
      pos := end;
    }
    NoTransfer(image, running, chunkSize);
    r := Success;
  }

  lemma NextTransfer(image: seq<bv8>, pos: nat, running: bv32, chunkSize: nat)
    requires pos < |image| && chunkSize > 0
    ensures var end := if pos + chunkSize < |image| then pos + chunkSize else |image|;
      var crc := Crc(Pad(image[pos..end]), running);
      Transfers(image, pos, running, chunkSize) == [Chunk(crc, image[pos..end])] + Transfers(image, end, crc, chunkSize)
  {
    hide Crc, Pad;
  }

  lemma NoTransfer(image: seq<bv8>, running: bv32, chunkSize: nat)
    requires chunkSize > 0
    ensures Transfers(image, |image|, running, chunkSize) == []
  {
  }

  /**
   * The upload as the hub sees it. `resume` is what it says it already has, `accepts` its answer to each chunk.
   * An offset beyond the image aborts the program.
   */
  method UploadFirmware(image: seq<bv8>, maxChunkSize: nat, resume: nat, started: bool, accepts: nat -> bool, finished: bool)
    returns (announced: bv32, sent: seq<Chunk>, r: Outcome)
    ensures image == [] ==> r == EmptyImage && sent == []
    ensures image != [] ==> announced == Crc(Pad(image), 0)
    ensures image != [] && !started ==> r == Refused && sent == []
    ensures image != [] && started && resume > |image| ==> r == SliceOutOfRange && sent == []
    ensures image != [] && started && resume <= |image| ==>
      var plan := Transfers(image, resume, StartCrc(image, resume), EffectiveChunkSize(maxChunkSize));
      && |sent| <= |plan| && sent == plan[..|sent|]
      && (forall i :: 0 <= i < |sent| - 1 ==> accepts(i))
      && (r.RejectedAt? ==> sent != [] && !accepts(|sent| - 1))
      && (r.RejectedAt? ==> IsChunkAt(image, resume, r.offset, EffectiveChunkSize(maxChunkSize), sent[|sent| - 1]))
      && (!r.RejectedAt? ==> sent == plan && (sent != [] ==> accepts(|sent| - 1)) && r == if finished then Success else UpdateRejected)
  {
    hide Crc, Pad, Transfers;
    announced, sent := 0, [];
    if |image| == 0 {
      return 0, [], EmptyImage;
    }
    announced := Crc32Padded(image, 0);
    if !started {
      return announced, [], Refused;
    }
    if resume > |image| {
      return announced, [], SliceOutOfRange;
    }
    var running: bv32 := 0;
    if resume > 0 {
      running := Crc32Padded(image[..resume], 0);
    }
    sent, r := SendChunks(image, resume, running, EffectiveChunkSize(maxChunkSize), accepts);
    if r == Success {
      r := if finished then Success else UpdateRejected;
    }
  }

  // ---- What the chunks amount to ----

  function Datas(chunks: seq<Chunk>): seq<bv8> {
    if chunks == [] then [] else chunks[0].data + Datas(chunks[1..])
  }

  /** The chunks are the part of the image that the hub does not have, complete and in order. */
  lemma {:induction false} ChunksAreTheSuffix(image: seq<bv8>, pos: nat, running: bv32, chunkSize: nat)
    requires pos <= |image| && chunkSize > 0
    ensures Datas(Transfers(image, pos, running, chunkSize)) == image[pos..]
    ensures forall c <- Transfers(image, pos, running, chunkSize) :: 0 < |c.data| <= chunkSize
    decreases |image| - pos
  {
    hide Crc, Pad;
    if pos < |image| {
      var end := ChunkEnd(image, pos, chunkSize);
      ChunksAreTheSuffix(image, end, Crc(Pad(image[pos..end]), running), chunkSize);
      assert image[pos..end] + image[end..] == image[pos..];
    }
  }

  lemma PadAppend(a: seq<bv8>, b: seq<bv8>)
    requires |a| % 4 == 0
    ensures Pad(a + b) == a + Pad(b)
  {
  }

  /** Continuing at a multiple of four: the padded checksum of the longer prefix. */
  lemma PaddedStep(image: seq<bv8>, pos: nat, end: nat)
    requires pos <= end <= |image| && pos % 4 == 0
    ensures Crc(Pad(image[pos..end]), Crc(Pad(image[..pos]), 0)) == Crc(Pad(image[..end]), 0)
  {
    hide Crc;
    assert image[..pos] + image[pos..end] == image[..end];
    PadAppend(image[..pos], image[pos..end]);
    assert Pad(image[..pos]) == image[..pos];
    CrcAppend(image[..pos], Pad(image[pos..end]), 0);
  }

  /** Where chunk `i` ends, counted from `pos`. */
  function NthEnd(image: seq<bv8>, pos: nat, chunkSize: nat, i: nat): (r: nat)
    requires pos < |image| && chunkSize > 0
    ensures r <= |image|
    decreases i
  {
    var end := ChunkEnd(image, pos, chunkSize);
    if i == 0 || end == |image| then end else NthEnd(image, end, chunkSize, i - 1)
  }

  lemma {:induction false} NthEndIs(image: seq<bv8>, pos: nat, chunkSize: nat, i: nat)
    requires pos < |image| && chunkSize > 0
    ensures NthEnd(image, pos, chunkSize, i) == if pos + (i + 1) * chunkSize < |image| then pos + (i + 1) * chunkSize else |image|
    decreases i
  {
    var end := ChunkEnd(image, pos, chunkSize);
    assert (i + 1) * chunkSize == i * chunkSize + chunkSize && i * chunkSize >= 0;
    if i > 0 && end < |image| {
      NthEndIs(image, end, chunkSize, i - 1);
    }
  }

  /** The checksum sent with each chunk is that of everything the hub has by then. */
  lemma {:induction false} RunningCrcIsPrefixCrc(image: seq<bv8>, pos: nat, chunkSize: nat, i: nat)
    requires pos < |image| && chunkSize > 0 && pos % 4 == 0 && chunkSize % 4 == 0
    requires i < |Transfers(image, pos, Crc(Pad(image[..pos]), 0), chunkSize)|
    ensures var cs := Transfers(image, pos, Crc(Pad(image[..pos]), 0), chunkSize);
      var end := NthEnd(image, pos, chunkSize, i);
      cs[i].crc == Crc(Pad(image[..end]), 0) && (i == |cs| - 1 <==> end == |image|)
    decreases |image| - pos
  {
    hide Crc, Pad, Transfers;
    var end := ChunkEnd(image, pos, chunkSize);
    TransfersFromPrefix(image, pos, chunkSize);
    if i > 0 {
      RunningCrcIsPrefixCrc(image, end, chunkSize, i - 1);
    } else if end < |image| {
      TransfersFromPrefix(image, end, chunkSize);
    }
  }

  lemma TransfersFromPrefix(image: seq<bv8>, pos: nat, chunkSize: nat)
    requires pos < |image| && chunkSize > 0 && pos % 4 == 0
    ensures var end := ChunkEnd(image, pos, chunkSize);
      && Transfers(image, pos, Crc(Pad(image[..pos]), 0), chunkSize)
        == [Chunk(Crc(Pad(image[..end]), 0), image[pos..end])] + Transfers(image, end, Crc(Pad(image[..end]), 0), chunkSize)
      && (end == |image| ==> Transfers(image, end, Crc(Pad(image[..end]), 0), chunkSize) == [])
  {
    hide Crc, Pad, Transfers;
    var end := ChunkEnd(image, pos, chunkSize);
    PaddedStep(image, pos, end);
    NextTransfer(image, pos, Crc(Pad(image[..pos]), 0), chunkSize);
    NoTransfer(image, Crc(Pad(image[..end]), 0), chunkSize);
  }

  lemma StartsFromPrefixCrc(image: seq<bv8>, resume: nat)
    requires resume <= |image|
    ensures StartCrc(image, resume) == Crc(Pad(image[..resume]), 0)
  {
    if resume == 0 {
      assert image[..0] == [] && Pad([]) == [];
      assert Crc([], 0) == 0;
    }
  }

  /**
   * With chunk size and resume offset multiples of four, every chunk carries the checksum of the whole prefix
   * that ends with it, and the last one the checksum that was announced.
   */
  lemma UploadChecksumsAgree(image: seq<bv8>, resume: nat, chunkSize: nat, i: nat)
    requires resume <= |image| && chunkSize > 0 && resume % 4 == 0 && chunkSize % 4 == 0
    requires i < |Transfers(image, resume, StartCrc(image, resume), chunkSize)|
    ensures var cs := Transfers(image, resume, StartCrc(image, resume), chunkSize);
      var end := if resume + (i + 1) * chunkSize < |image| then resume + (i + 1) * chunkSize else |image|;
      && cs[i].crc == Crc(Pad(image[..end]), 0)
      && (i == |cs| - 1 ==> cs[i].crc == Crc(Pad(image), 0))
  {
    hide Crc, Pad, Transfers, StartCrc, NthEnd;
    StartsFromPrefixCrc(image, resume);
    NoTransfer(image, StartCrc(image, resume), chunkSize);
    NthEndIs(image, resume, chunkSize, i);
    RunningCrcIsPrefixCrc(image, resume, chunkSize, i);
    WholeIs(image);
  }

  lemma WholeIs(image: seq<bv8>)
    ensures image[..|image|] == image
  {
  }

  /**
   * Padding in the middle: the bytes hashed for two chunks are those of the padded whole exactly if the first chunk needs no
   * padding, or the second is nothing but zeros and its padding makes up for that of the first.
   */
  lemma PaddingSplitsIff(a: seq<bv8>, b: seq<bv8>)
    ensures Pad(a) + Pad(b) == Pad(a + b) <==>
      |a| % 4 == 0 || ((forall i :: 0 <= i < |b| ==> b[i] == 0) && (|b| % 4 == 0 || |a| % 4 + |b| % 4 > 4))
  {
    hide Pad;
    var p, q, r := Pad(a), Pad(b), Pad(a + b);
    PaddingLengths(a, b);
    if |a| % 4 == 0 {
      PadAppend(a, b);
      assert p == a by { PadAppend(a, []); assert a + [] == a; }
    } else if p + q == r {
      ShiftedZeros(p, q, r, a, b, |p| - |a|);
    } else if (forall i :: 0 <= i < |b| ==> b[i] == 0) && |p| + |q| == |r| {
      ZerosPad(a, b);
    }
  }

  lemma PaddingLengths(a: seq<bv8>, b: seq<bv8>)
    ensures |Pad(a)| + |Pad(b)| == |Pad(a + b)| <==> |a| % 4 == 0 || |b| % 4 == 0 || |a| % 4 + |b| % 4 > 4
    ensures |a| % 4 != 0 ==> |Pad(a)| > |a|
    ensures Pad([]) == []
  {
  }

  lemma ZerosPad(a: seq<bv8>, b: seq<bv8>)
    requires |Pad(a)| + |Pad(b)| == |Pad(a + b)| && forall i :: 0 <= i < |b| ==> b[i] == 0
    ensures Pad(a) + Pad(b) == Pad(a + b)
  {
    hide Pad;
    var p, q, r := Pad(a), Pad(b), Pad(a + b);
    forall i | 0 <= i < |r| ensures r[i] == (p + q)[i] {
      if i < |a| {
        assert p[i] == p[..|a|][i] == a[i] && r[i] == r[..|a + b|][i] == a[i];
      } else if i < |a + b| {
        assert r[i] == r[..|a + b|][i] == b[i - |a|];
        PaddedZero(a, b, i);
      } else {
        PaddedZero(a, b, i);
      }
    }
  }

  lemma PaddedZero(a: seq<bv8>, b: seq<bv8>, i: nat)
    requires |a| <= i < |Pad(a)| + |Pad(b)| && forall k :: 0 <= k < |b| ==> b[k] == 0
    ensures (Pad(a) + Pad(b))[i] == 0
  {
    hide Pad;
    var p, q := Pad(a), Pad(b);
    if i >= |p| && i - |p| < |b| {
      assert q[i - |p|] == q[..|b|][i - |p|];
    }
  }

  /** Bytes that stand both in their own place and `z` places further on, behind `z` zeros and in front of zeros, are zero. */
  lemma ShiftedZeros(p: seq<bv8>, q: seq<bv8>, r: seq<bv8>, a: seq<bv8>, b: seq<bv8>, z: nat)
    requires p == Pad(a) && q == Pad(b) && r == Pad(a + b) && p + q == r && |p| == |a| + z && 0 < z
    ensures forall i :: 0 <= i < |b| ==> b[i] == 0
  {
    forall i | 0 <= i < |b| ensures b[i] == 0 {
      ZeroAt(p, q, r, a, b, z, i);
    }
  }

  lemma {:induction false} ZeroAt(p: seq<bv8>, q: seq<bv8>, r: seq<bv8>, a: seq<bv8>, b: seq<bv8>, z: nat, i: nat)
    requires p == Pad(a) && q == Pad(b) && r == Pad(a + b) && p + q == r && |p| == |a| + z && 0 < z && i < |b|
    ensures b[i] == 0
    decreases i
  {
    assert r[|a| + i] == r[..|a + b|][|a| + i] == (a + b)[|a| + i] == b[i];
    if i < z {
      assert (p + q)[|a| + i] == p[|a| + i] == 0;
    } else {
      ZeroAt(p, q, r, a, b, z, i - z);
      assert (p + q)[|a| + i] == q[i - z] == q[..|b|][i - z] == b[i - z];
    }
  }

  // ---- When the checksums of unaligned chunks agree all the same ----

  function Xor(x: bv32, y: bv32): bv32 {
    x ^ y
  }

  /** The register after `n` zero bits. */
  function Bits(n: nat, c: bv32): bv32 {
    if n == 0 then c else CrcBit(Bits(n - 1, c))
  }

  lemma ShiftXor(x: bv32, y: bv32)
    ensures (x ^ y) >> 1 == (x >> 1) ^ (y >> 1)
    ensures (x ^ y) & 1 == (x & 1) ^ (y & 1) && (x & 1 == 0 || x & 1 == 1) && (y & 1 == 0 || y & 1 == 1)
  {
  }

  lemma XorTwice(a: bv32, b: bv32, p: bv32)
    ensures (a ^ p) ^ (b ^ p) == a ^ b && (a ^ p) ^ b == (a ^ b) ^ p && a ^ (b ^ p) == (a ^ b) ^ p
  {
  }

  lemma BitSplits(x: bv32, y: bv32)
    ensures CrcBit(x ^ y) == CrcBit(x) ^ CrcBit(y)
  {
    ShiftXor(x, y);
    XorTwice(x >> 1, y >> 1, POLYNOMIAL);
  }

  lemma XorIs(x: bv32, y: bv32)
    ensures Xor(x, y) == x ^ y
  {
  }

  lemma BitLinear(x: bv32, y: bv32)
    ensures CrcBit(Xor(x, y)) == Xor(CrcBit(x), CrcBit(y))
  {
    hide CrcBit, Xor;
    XorIs(x, y);
    BitSplits(x, y);
    XorIs(CrcBit(x), CrcBit(y));
  }

  lemma {:induction false} BitsLinear(n: nat, x: bv32, y: bv32)
    ensures Bits(n, Xor(x, y)) == Xor(Bits(n, x), Bits(n, y))
  {
    hide CrcBit, Xor;
    if n > 0 {
      BitsLinear(n - 1, x, y);
      BitLinear(Bits(n - 1, x), Bits(n - 1, y));
    }
  }

  lemma {:induction false} BitsJoin(m: nat, n: nat, c: bv32)
    ensures Bits(m + n, c) == Bits(n, Bits(m, c))
    decreases n
  {
    hide CrcBit;
    if n > 0 {
      BitsJoin(m, n - 1, c);
    }
  }

  lemma BitKeeps(x: bv32)
    ensures CrcBit(x) == 0 <==> x == 0
  {
  }

  lemma {:induction false} BitsKeep(n: nat, x: bv32)
    ensures Bits(n, x) == 0 <==> x == 0
  {
    hide CrcBit;
    if n > 0 {
      BitsKeep(n - 1, x);
      BitKeeps(Bits(n - 1, x));
    }
  }

  lemma XorCommutes(x: bv32, y: bv32)
    ensures Xor(x, y) == Xor(y, x)
  {
  }

  lemma Swapped(x: bv32, y: bv32, z: bv32, a: bv32, b: bv32)
    requires a == x ^ y && b == x ^ z
    ensures a ^ z == b ^ y
  {
  }

  lemma XorSwaps(x: bv32, y: bv32, z: bv32)
    ensures Xor(Xor(x, y), z) == Xor(Xor(x, z), y)
  {
    hide Xor;
    var a, b := Xor(x, y), Xor(x, z);
    XorIs(x, y);
    XorIs(x, z);
    Swapped(x, y, z, a, b);
    XorIs(a, z);
    XorIs(b, y);
  }

  lemma XorZero(x: bv32)
    ensures Xor(0, x) == x && Xor(x, 0) == x
  {
  }

  lemma Same(x: bv32, y: bv32)
    ensures x ^ y == 0 <==> x == y
  {
  }

  lemma XorSame(x: bv32, y: bv32)
    ensures Xor(x, y) == 0 <==> x == y
  {
    hide Xor;
    XorIs(x, y);
    Same(x, y);
  }

  lemma XorCancels(x: bv32, y: bv32, z: bv32)
    ensures Xor(x, z) == Xor(y, z) <==> x == y
  {
  }

  lemma XorLaws(x: bv32, y: bv32, z: bv32)
    ensures Xor(x, y) == Xor(y, x) && Xor(Xor(x, y), z) == Xor(Xor(x, z), y) && Xor(0, x) == x && Xor(x, 0) == x
    ensures (Xor(x, y) == 0 <==> x == y) && (Xor(x, z) == Xor(y, z) <==> x == y)
  {
    hide Xor;
    XorCommutes(x, y);
    XorSwaps(x, y, z);
    XorZero(x);
    XorSame(x, y);
    XorCancels(x, y, z);
  }

  /** No register but zero comes back to itself after `n` zero bits. */
  ghost predicate Acyclic(n: nat) {
    forall u: bv32 :: Bits(n, u) == u ==> u == 0
  }

  lemma AcyclicTwice(n: nat)
    requires Acyclic(n)
    ensures Acyclic(2 * n)
  {
    hide Bits, Xor;
    forall u: bv32 | Bits(2 * n, u) == u ensures u == 0 {
      var w := Bits(n, u);
      BitsJoin(n, n, u);
      BitsLinear(n, w, u);
      XorLaws(w, u, 0);
      assert Bits(n, Xor(w, u)) == Xor(w, u);
    }
  }

  lemma OneBit(u: bv32)
    ensures CrcBit(u) == u ==> u == 0
  {
  }

  lemma ThreeBits(u: bv32)
    ensures CrcBit(CrcBit(CrcBit(u))) == u ==> u == 0
  {
  }

  lemma AcyclicBits()
    ensures Acyclic(1) && Acyclic(3)
  {
    hide CrcBit;
    forall u: bv32 ensures Bits(1, u) == u ==> u == 0 {
      OneBit(u);
      assert Bits(1, u) == CrcBit(Bits(0, u));
    }
    forall u: bv32 ensures Bits(3, u) == u ==> u == 0 {
      ThreeBits(u);
      assert Bits(3, u) == CrcBit(Bits(2, u)) && Bits(2, u) == CrcBit(Bits(1, u)) && Bits(1, u) == CrcBit(Bits(0, u));
    }
  }

  lemma AcyclicBytes()
    ensures Acyclic(8) && Acyclic(16) && Acyclic(24)
  {
    hide Acyclic;
    AcyclicBits();
    AcyclicTwice(1);
    AcyclicTwice(2);
    AcyclicTwice(4);
    AcyclicTwice(8);
    AcyclicTwice(3);
    AcyclicTwice(6);
    AcyclicTwice(12);
  }

  lemma ByteIsBits(c: bv32, b: bv8)
    ensures CrcByte(c, b) == Bits(8, Xor(c, b as bv32))
  {
    hide CrcBit;
    var x := Xor(c, b as bv32);
    var x1, x2, x3 := Bits(1, x), Bits(2, x), Bits(3, x);
    assert x1 == CrcBit(Bits(0, x)) && x2 == CrcBit(x1) && x3 == CrcBit(x2);
    var x4, x5, x6 := Bits(4, x), Bits(5, x), Bits(6, x);
    assert x4 == CrcBit(x3) && x5 == CrcBit(x4) && x6 == CrcBit(x5);
    var x7 := Bits(7, x);
    assert x7 == CrcBit(x6) && Bits(8, x) == CrcBit(x7);
  }

  lemma {:induction false} ZerosFold(c: bv32, n: nat)
    ensures CrcFold(c, Zeros(n)) == Bits(8 * n, c)
    decreases n
  {
    hide CrcByte, Xor, Bits;
    if n == 0 {
      NoBits(c);
    } else {
      assert Zeros(n)[..n - 1] == Zeros(n - 1);
      ZerosFold(c, n - 1);
      var w := Bits(8 * (n - 1), c);
      ByteIsBits(w, 0);
      XorLaws(w, 0, 0);
      BitsJoin(8 * (n - 1), 8, c);
      assert 8 * (n - 1) + 8 == 8 * n;
    }
  }

  lemma NoBits(c: bv32)
    ensures Bits(0, c) == c
  {
  }

  /** What was in the register before runs through the data as through zeros. */
  lemma {:induction false} FoldLinear(x: bv32, y: bv32, data: seq<bv8>)
    ensures CrcFold(Xor(x, y), data) == Xor(CrcFold(x, data), Bits(8 * |data|, y))
    decreases data
  {
    hide CrcByte, Xor, Bits;
    if data == [] {
      NoBits(y);
    } else {
      var front, b := data[..|data| - 1], data[|data| - 1];
      FoldLinear(x, y, front);
      var u, v, d := CrcFold(x, front), Bits(8 * |front|, y), b as bv32;
      ByteIsBits(Xor(u, v), b);
      ByteIsBits(u, b);
      XorLaws(u, v, d);
      BitsLinear(8, Xor(u, d), v);
      BitsJoin(8 * |front|, 8, y);
      assert 8 * |front| + 8 == 8 * |data|;
    }
  }

  /** The register after the second chunk, with the zeros before it and without. */
  lemma ZerosInFront(s: bv32, z: nat, b: seq<bv8>, y: nat)
    requires 0 < z < 4
    ensures CrcFold(s, Zeros(z) + b + Zeros(y)) == CrcFold(s, b + Zeros(z + y)) <==> CrcFold(0, b) == 0
  {
    hide CrcFold, Bits, Zeros, Xor;
    var p, q := Zeros(z) + b + Zeros(y), b + Zeros(z + y);
    var u := CrcFold(0, b);
    XorLaws(s, 0, 0);
    FoldLinear(0, s, p);
    FoldLinear(0, s, q);
    assert |p| == |q|;
    XorLaws(CrcFold(0, p), CrcFold(0, q), Bits(8 * |p|, s));
    ZerosAround(z, b, y);
    FoldAppend(0, b, Zeros(z + y));
    ZerosFold(u, z + y);
    SameAfterZeros(u, z, y);
  }

  /** Zeros leave the empty register as it is. */
  lemma ZerosAround(z: nat, b: seq<bv8>, y: nat)
    ensures CrcFold(0, Zeros(z) + b + Zeros(y)) == Bits(8 * y, CrcFold(0, b))
  {
    hide CrcFold, Bits, Zeros;
    FoldAppend(0, Zeros(z) + b, Zeros(y));
    FoldAppend(0, Zeros(z), b);
    ZerosFold(0, z);
    BitsKeep(8 * z, 0);
    ZerosFold(CrcFold(0, b), y);
  }

  lemma SameAfterZeros(u: bv32, z: nat, y: nat)
    requires 0 < z < 4
    ensures Bits(8 * y, u) == Bits(8 * (z + y), u) <==> u == 0
  {
    hide Bits, Xor;
    var w := Bits(8 * z, u);
    BitsJoin(8 * z, 8 * y, u);
    assert 8 * z + 8 * y == 8 * (z + y);
    BitsLinear(8 * y, u, w);
    XorLaws(u, w, 0);
    XorLaws(Bits(8 * y, u), Bits(8 * y, w), 0);
    BitsKeep(8 * y, Xor(u, w));
    BitsKeep(8 * z, 0);
    AcyclicBytes();
    assert 8 * z == 8 || 8 * z == 16 || 8 * z == 24;
  }

  /**
   * Where padding chunk by chunk hashes as many bytes as padding the whole: the checksums agree exactly if the first chunk needs no
   * padding, or the second leads the empty register back to zero, as zeros and multiples of the polynomial do.
   */
  lemma ChecksumsSplitIff(a: seq<bv8>, b: seq<bv8>)
    requires |Pad(a)| + |Pad(b)| == |Pad(a + b)|
    ensures Crc(Pad(b), Crc(Pad(a), 0)) == Crc(Pad(a + b), 0) <==> |a| % 4 == 0 || CrcFold(0, b) == 0
  {
    hide CrcFold, Pad, Zeros, Crc, Invert;
    CrcAppend(Pad(a), Pad(b), 0);
    if |a| % 4 == 0 {
      PaddingSplitsIff(a, b);
    } else {
      SameChecksumIff(Pad(a) + Pad(b), Pad(a + b));
      RegistersSplitIff(a, b, Invert(0));
    }
  }

  lemma SameChecksumIff(p: seq<bv8>, q: seq<bv8>)
    ensures Crc(p, 0) == Crc(q, 0) <==> CrcFold(Invert(0), p) == CrcFold(Invert(0), q)
  {
    hide CrcFold, Invert;
    InvertTwice(CrcFold(Invert(0), p));
    InvertTwice(CrcFold(Invert(0), q));
  }

  lemma RegistersSplitIff(a: seq<bv8>, b: seq<bv8>, start: bv32)
    requires |Pad(a)| + |Pad(b)| == |Pad(a + b)| && |a| % 4 != 0
    ensures CrcFold(start, Pad(a) + Pad(b)) == CrcFold(start, Pad(a + b)) <==> CrcFold(0, b) == 0
  {
    hide CrcFold, Pad, Zeros;
    var z, y := |Pad(a)| - |a|, |Pad(b)| - |b|;
    PaddedIs(a);
    PaddedIs(b);
    PaddedIs(a + b);
    assert Pad(a) + Pad(b) == a + (Zeros(z) + b + Zeros(y)) && Pad(a + b) == a + (b + Zeros(z + y));
    FoldAppend(start, a, Zeros(z) + b + Zeros(y));
    FoldAppend(start, a, b + Zeros(z + y));
    ZerosInFront(CrcFold(start, a), z, b, y);
  }

  lemma PaddedIs(data: seq<bv8>)
    ensures Pad(data) == data + Zeros(|Pad(data)| - |data|)
    ensures |data| % 4 != 0 ==> 0 < |Pad(data)| - |data| < 4
  {
  }

  /** The bytes of the polynomial itself: behind any chunk with one byte too many, the wrong bytes have the right checksum. */
  lemma UnalignedChecksumsCanAgree(a: seq<bv8>)
    requires |a| % 4 == 1
    ensures var b: seq<bv8> := [0x41, 0x06, 0x71, 0xdb, 0x01, 0, 0, 0];
      Pad(a) + Pad(b) != Pad(a + b) && Crc(Pad(b), Crc(Pad(a), 0)) == Crc(Pad(a + b), 0)
  {
    hide Pad, Crc, CrcFold;
    var b: seq<bv8> := [0x41, 0x06, 0x71, 0xdb, 0x01, 0, 0, 0];
    assert b[0] != 0;
    PaddingSplitsIff(a, b);
    PaddingLengths(a, b);
    PolynomialFolds();
    ChecksumsSplitIff(a, b);
  }

  lemma PolynomialFolds()
    ensures CrcFold(0, [0x41, 0x06, 0x71, 0xdb, 0x01, 0, 0, 0]) == 0
  {
    hide CrcByte;
    var b: seq<bv8> := [0x41, 0x06, 0x71, 0xdb, 0x01, 0, 0, 0];
    PolynomialBytes();
    assert b[..8][..7] == b[..7] && b[..7][..6] == b[..6] && b[..6][..5] == b[..5] && b[..5][..4] == b[..4];
    assert b[..4][..3] == b[..3] && b[..3][..2] == b[..2] && b[..2][..1] == b[..1] && b[..1][..0] == [];
    assert b[..8] == b;
    assert CrcFold(0, b[..1]) == 0x1db7106;
    assert CrcFold(0, b[..2]) == 0x1db71;
    assert CrcFold(0, b[..3]) == 0x1db;
    assert CrcFold(0, b[..4]) == 1;
    assert CrcFold(0, b[..5]) == 0;
    assert CrcFold(0, b[..6]) == 0;
    assert CrcFold(0, b[..7]) == 0;
  }

  lemma PolynomialBytes()
    ensures CrcByte(0, 0x41) == 0x1db7106 && CrcByte(0x1db7106, 0x06) == 0x1db71 && CrcByte(0x1db71, 0x71) == 0x1db
    ensures CrcByte(0x1db, 0xdb) == 1 && CrcByte(1, 0x01) == 0 && CrcByte(0, 0) == 0
  {
  }

  // ---- The checksum is CRC-32 ----

  /** The check value that is given for CRC-32: that of the nine figures 1 to 9. */
  lemma CheckValue()
    ensures Crc([0x31, 0x32, 0x33, 0x34, 0x35, 0x36, 0x37, 0x38, 0x39], 0) == 0xCBF43926
  {
    hide CrcByte, CrcFold;
    var b: seq<bv8> := [0x31, 0x32, 0x33, 0x34, 0x35, 0x36, 0x37, 0x38, 0x39];
    CheckBytes();
    NothingFolded(0xFFFFFFFF);
    assert b[..0] == [];
    FoldNext(0xFFFFFFFF, b, 0);
    FoldNext(0xFFFFFFFF, b, 1);
    FoldNext(0xFFFFFFFF, b, 2);
    FoldNext(0xFFFFFFFF, b, 3);
    FoldNext(0xFFFFFFFF, b, 4);
    FoldNext(0xFFFFFFFF, b, 5);
    FoldNext(0xFFFFFFFF, b, 6);
    FoldNext(0xFFFFFFFF, b, 7);
    FoldNext(0xFFFFFFFF, b, 8);
    assert b[..9] == b;
  }

  lemma NothingFolded(crc: bv32)
    ensures CrcFold(crc, []) == crc
  {
  }

  lemma FoldNext(crc: bv32, data: seq<bv8>, n: nat)
    requires n < |data|
    ensures CrcFold(crc, data[..n + 1]) == CrcByte(CrcFold(crc, data[..n]), data[n])
  {
    hide CrcByte;
    assert data[..n + 1][..n] == data[..n];
  }

  lemma CheckBytes()
    ensures CrcByte(0xffffffff, 0x31) == 0x7c231048 && CrcByte(0x7c231048, 0x32) == 0xb0acbb32 && CrcByte(0xb0acbb32, 0x33) == 0x77b79c2d
    ensures CrcByte(0x77b79c2d, 0x34) == 0x641c1f5c && CrcByte(0x641c1f5c, 0x35) == 0x340ac5e3 && CrcByte(0x340ac5e3, 0x36) == 0xf68d2c9e
    ensures CrcByte(0xf68d2c9e, 0x37) == 0xaffc9660 && CrcByte(0xaffc9660, 0x38) == 0x651f2550 && CrcByte(0x651f2550, 0x39) == 0x340bc6d9
  {
  }

  /** What the hub may ask for is at least 64 bytes at a time. */
  lemma ChunkSizeIs(n: nat)
    ensures EffectiveChunkSize(n) == if n > 64 then n else 64
  {
  }
}
