/** LEGO's variant of COBS: three delimiter values, blocks of at most 84 bytes, every byte XORed with 3. */
module Cobs {
  import opened Bytes

  const DELIMITER: byte := 0x02
  const NO_DELIMITER: byte := 0xFF
  const COBS_CODE_OFFSET: nat := 2
  const MAX_BLOCK_SIZE: nat := 84

  /** `Aborted` stands for the panic of the arithmetic overflow on a code byte below 2. */
  datatype Decoded = Ok(value: seq<byte>) | Aborted | EmptyFrame {
    function After(front: seq<byte>): Decoded {
      match this
      case Ok(rest) => Ok(front + rest)
      case _ => this
    }
  }

  // ---- Encoding ----

  function Code(delimiter: byte, block: nat): byte
    requires delimiter <= DELIMITER && 1 <= block <= MAX_BLOCK_SIZE
  {
    delimiter * MAX_BLOCK_SIZE + block + COBS_CODE_OFFSET
  }

  /** What `data` adds to the output while `current` is the block that has been begun. */
  function Encoded(data: seq<byte>, current: seq<byte>): (r: seq<byte>)
    requires |current| < MAX_BLOCK_SIZE
    ensures |r| > 0
    decreases |data|
  {
    if data == [] then
      [Code(0, |current| + 1)] + current
    else if data[0] <= DELIMITER then
      [Code(data[0], |current| + 1)] + current + Encoded(data[1..], [])
    else if |current| + 1 == MAX_BLOCK_SIZE then
      [NO_DELIMITER] + (current + [data[0]]) + Encoded(data[1..], [])
    else
      Encoded(data[1..], current + [data[0]])
  }

  method Encode(data: seq<byte>) returns (buf: seq<byte>)
    ensures buf == Encoded(data, [])
  {
    hide Encoded;
    buf := [NO_DELIMITER];
    var codeIndex, block := 0, 1;
    ghost var done: seq<byte> := [];
    ghost var current: seq<byte> := [];
    assert data[0..] == data;
    for i := 0 to |data|
      invariant block == |current| + 1 <= MAX_BLOCK_SIZE && codeIndex == |done|
      invariant buf == done + [NO_DELIMITER] + current
      invariant Encoded(data, []) == done + Encoded(data[i..], current)
    {
      var b := data[i];
      EncodedStep(data, i, current, done);
      if b > DELIMITER {
        buf := buf + [b];
        current := current + [b];
        block := block + 1;
      }
      if b <= DELIMITER || block > MAX_BLOCK_SIZE {
        if b <= DELIMITER {
          buf := buf[codeIndex := b * MAX_BLOCK_SIZE + (block + COBS_CODE_OFFSET)];
          assert buf == done + [Code(b, block)] + current;
        }
        codeIndex := |buf|;
        done := buf;
        buf := buf + [NO_DELIMITER];
        block := 1;
        current := [];
      }
    }
    assert data[|data|..] == [];
    EncodedEnd(current);
    buf := buf[codeIndex := block + COBS_CODE_OFFSET];
    assert buf == done + ([Code(0, block)] + current);
  }

  lemma EncodedEnd(current: seq<byte>)
    requires |current| < MAX_BLOCK_SIZE
    ensures Encoded([], current) == [Code(0, |current| + 1)] + current
  {
  }

  /** One byte more: it ends the block as a delimiter, fills it up, or joins it. */
  lemma EncodedStep(data: seq<byte>, i: nat, current: seq<byte>, done: seq<byte>)
    requires i < |data| && |current| < MAX_BLOCK_SIZE
    ensures var b, rest := data[i], data[i + 1..];
      done + Encoded(data[i..], current) ==
      if b <= DELIMITER then done + [Code(b, |current| + 1)] + current + Encoded(rest, [])
      else if |current| + 1 == MAX_BLOCK_SIZE then done + [NO_DELIMITER] + (current + [b]) + Encoded(rest, [])
      else done + Encoded(rest, current + [b])
  {
    hide Encoded;
    var b, rest := data[i], data[i + 1..];
    assert data[i..][1..] == rest;
    EncodedCase(data[i..], current);
    if b <= DELIMITER {
      Assoc(done, [Code(b, |current| + 1)], current, Encoded(rest, []));
    } else if |current| + 1 == MAX_BLOCK_SIZE {
      Assoc(done, [NO_DELIMITER], current + [b], Encoded(rest, []));
    }
  }

  lemma EncodedCase(data: seq<byte>, current: seq<byte>)
    requires data != [] && |current| < MAX_BLOCK_SIZE
    ensures Encoded(data, current) ==
      if data[0] <= DELIMITER then [Code(data[0], |current| + 1)] + current + Encoded(data[1..], [])
      else if |current| + 1 == MAX_BLOCK_SIZE then [NO_DELIMITER] + (current + [data[0]]) + Encoded(data[1..], [])
      else Encoded(data[1..], current + [data[0]])
  {
  }

  lemma Assoc(a: seq<byte>, b: seq<byte>, c: seq<byte>, d: seq<byte>)
    ensures a + (b + c + d) == a + b + c + d
  {
  }

  /** No encoded byte is 0, 1 or 2, and a byte is added for each full block besides the first code. */
  lemma {:induction false} EncodedIsClean(data: seq<byte>, current: seq<byte>)
    requires |current| < MAX_BLOCK_SIZE && forall b <- current :: b > DELIMITER
    ensures forall b <- Encoded(data, current) :: b > DELIMITER
    ensures |Encoded(data, current)| <= |data| + |current| + (|data| + |current|) / MAX_BLOCK_SIZE + 1
    decreases |data|
  {
    if data != [] {
      if data[0] <= DELIMITER || |current| + 1 == MAX_BLOCK_SIZE {
        EncodedIsClean(data[1..], []);
      } else {
        EncodedIsClean(data[1..], current + [data[0]]);
      }
    }
  }

  // ---- Decoding ----

  /** The delimiter that ends a block, if one does, and the length of the block with its code. */
  function Unescape(code: byte): (Option<byte>, nat)
    requires code >= COBS_CODE_OFFSET
  {
    if code == NO_DELIMITER then (None, MAX_BLOCK_SIZE + 1)
    else
      var raw := code - COBS_CODE_OFFSET;
      var value, block := raw / MAX_BLOCK_SIZE, raw % MAX_BLOCK_SIZE;
      if block == 0 then (Some((value + 255) % 256), MAX_BLOCK_SIZE) else (Some(value), block)
  }

  function Emit(value: Option<byte>): seq<byte> {
    if value.Some? then [value.value] else []
  }

  /** What is decoded from `data` when `block - 1` bytes of a block are still to come. */
  function Rest(data: seq<byte>, value: Option<byte>, block: int): Decoded
    decreases |data|
  {
    if data == [] then Ok([])
    else if block - 1 > 0 then Rest(data[1..], value, block - 1).After([data[0]])
    else if data[0] < COBS_CODE_OFFSET then Aborted
    else
      var (nextValue, nextBlock) := Unescape(data[0]);
      Rest(data[1..], nextValue, nextBlock).After(Emit(value))
  }

  function Decoding(data: seq<byte>): Decoded {
    Rest(data, None, 1)
  }

  method Decode(data: seq<byte>) returns (r: Decoded)
    ensures r == Decoding(data)
  {
    if |data| == 0 {
      return Ok([]);
    }
    if data[0] < COBS_CODE_OFFSET {
      return Aborted;
    }
    var buf: seq<byte> := [];
    var (value, block) := Unescape(data[0]);
    var left: int := block;
    AfterNothing(Rest(data[1..], value, left));
    for i := 1 to |data|
      invariant Decoding(data) == Rest(data[i..], value, left).After(buf)
    {
      assert data[i..][1..] == data[i + 1..];
      left := left - 1;
      if left > 0 {
        assert Rest(data[i..], value, left + 1) == Rest(data[i + 1..], value, left).After([data[i]]);
        AfterTwice(buf, [data[i]], Rest(data[i + 1..], value, left));
        buf := buf + [data[i]];
        continue;
      }
      if data[i] < COBS_CODE_OFFSET {
        return Aborted;
      }
      var (nextValue, nextBlock) := Unescape(data[i]);
      assert Rest(data[i..], value, left + 1) == Rest(data[i + 1..], nextValue, nextBlock).After(Emit(value));
      AfterTwice(buf, Emit(value), Rest(data[i + 1..], nextValue, nextBlock));
      ghost var longer := buf + Emit(value);
      if value.Some? {
        buf := buf + [value.value];
      }
      assert buf == longer;
      value, left := nextValue, nextBlock;
    }
    assert buf + [] == buf;
    r := Ok(buf);
  }

  lemma AfterNothing(r: Decoded)
    ensures r.After([]) == r
  {
    if r.Ok? {
      assert [] + r.value == r.value;
    }
  }

  lemma AfterTwice(a: seq<byte>, b: seq<byte>, r: Decoded)
    ensures r.After(b).After(a) == r.After(a + b)
  {
    if r.Ok? {
      assert a + (b + r.value) == (a + b) + r.value;
    }
  }

  // ---- Round trip ----

  lemma UnescapesCode(delimiter: byte, block: nat)
    requires delimiter <= DELIMITER && 1 <= block <= MAX_BLOCK_SIZE
    ensures Code(delimiter, block) != NO_DELIMITER && Code(delimiter, block) > COBS_CODE_OFFSET
    ensures Unescape(Code(delimiter, block)) == (Some(delimiter), block)
  {
  }

  lemma {:induction false} ReadsBlock(current: seq<byte>, value: Option<byte>, tail: seq<byte>)
    ensures Rest(current + tail, value, |current| + 1) == Rest(tail, value, 1).After(current)
    decreases |current|
  {
    if current == [] {
      assert [] + tail == tail;
      AfterNothing(Rest(tail, value, 1));
    } else {
      assert (current + tail)[1..] == current[1..] + tail;
      ReadsBlock(current[1..], value, tail);
      AfterTwice([current[0]], current[1..], Rest(tail, value, 1));
      assert [current[0]] + current[1..] == current;
    }
  }

  /** A code, its block and what follows. */
  lemma ReadsCoded(code: byte, current: seq<byte>, before: Option<byte>, value: Option<byte>, tail: seq<byte>)
    requires code >= COBS_CODE_OFFSET && Unescape(code) == (value, |current| + 1)
    ensures Rest([code] + current + tail, before, 1) == Rest(tail, value, 1).After(Emit(before) + current)
  {
    assert ([code] + current + tail)[1..] == current + tail;
    ReadsBlock(current, value, tail);
    AfterTwice(Emit(before), current, Rest(tail, value, 1));
  }

  lemma {:induction false} DecodesEncoded(data: seq<byte>, current: seq<byte>, before: Option<byte>)
    requires |current| < MAX_BLOCK_SIZE
    ensures Rest(Encoded(data, current), before, 1) == Ok(Emit(before) + current + data)
    decreases |data|
  {
    hide Rest, Unescape, Code;
    if data == [] {
      UnescapesCode(0, |current| + 1);
      ReadsCoded(Code(0, |current| + 1), current, before, Some(0), []);
      assert [Code(0, |current| + 1)] + current + [] == Encoded(data, current);
      assert Rest([], Some(0), 1) == Ok([]) by { RestOfNothing(Some(0)); }
    } else if data[0] <= DELIMITER {
      UnescapesCode(data[0], |current| + 1);
      DecodesEncoded(data[1..], [], Some(data[0]));
      ReadsCoded(Code(data[0], |current| + 1), current, before, Some(data[0]), Encoded(data[1..], []));
      assert Emit(before) + current + ([data[0]] + [] + data[1..]) == Emit(before) + current + data;
    } else if |current| + 1 == MAX_BLOCK_SIZE {
      DecodesEncoded(data[1..], [], None);
      NoDelimiterCode();
      ReadsCoded(NO_DELIMITER, current + [data[0]], before, None, Encoded(data[1..], []));
      assert Emit(before) + (current + [data[0]]) + ([] + [] + data[1..]) == Emit(before) + current + data;
    } else {
      DecodesEncoded(data[1..], current + [data[0]], before);
      assert Emit(before) + (current + [data[0]]) + data[1..] == Emit(before) + current + data;
    }
  }

  lemma RestOfNothing(value: Option<byte>)
    ensures Rest([], value, 1) == Ok([])
  {
  }

  lemma NoDelimiterCode()
    ensures Unescape(NO_DELIMITER) == (None, MAX_BLOCK_SIZE + 1)
  {
  }

  lemma EncodeDecode(data: seq<byte>)
    ensures Decoding(Encoded(data, [])) == Ok(data)
  {
    DecodesEncoded(data, [], None);
    assert [] + [] + data == data;
  }

  // ---- Frames ----

  /** `b ^ 3`: the two low bits are flipped. */
  function Xor3(b: byte): byte {
    b - b % 4 + (3 - b % 4)
  }

  lemma Xor3IsXor(b: bv8)
    ensures Xor3(b as int) == (b ^ 3) as int
  {
    assert b as int % 4 == (b & 3) as int;
    assert (b ^ 3) == (b & 0xFC) | (3 - (b & 3));
  }

  function XorAll(bs: seq<byte>): (r: seq<byte>)
    ensures |r| == |bs| && forall i :: 0 <= i < |bs| ==> r[i] == Xor3(bs[i])
  {
    seq(|bs|, i requires 0 <= i < |bs| => Xor3(bs[i]))
  }

  function Packed(data: seq<byte>): seq<byte> {
    XorAll(Encoded(data, [])) + [DELIMITER]
  }

  method Pack(data: seq<byte>) returns (buf: seq<byte>)
    ensures buf == Packed(data)
  {
    buf := Encode(data);
    ghost var encoded := buf;
    for i := 0 to |buf|
      invariant |buf| == |encoded|
      invariant forall k :: 0 <= k < |buf| ==> buf[k] == if k < i then Xor3(encoded[k]) else encoded[k]
    {
      buf := buf[i := Xor3(buf[i])];
    }
    assert buf == XorAll(encoded);
    buf := buf + [DELIMITER];
  }

  function Unpacking(frame: seq<byte>): Decoded {
    if frame == [] then EmptyFrame
    else
      var start := if frame[0] == 1 then 1 else 0;
      var end := if frame[|frame| - 1] == DELIMITER then |frame| - 1 else |frame|;
      if start >= end then Ok([]) else Decoding(XorAll(frame[start..end]))
  }

  method Unpack(frame: seq<byte>) returns (r: Decoded)
    ensures r == Unpacking(frame)
  {
    if |frame| == 0 {
      return EmptyFrame;
    }
    var start := 0;
    if frame[0] == 0x01 {
      start := start + 1;
    }
    var end := if frame[|frame| - 1] == DELIMITER then |frame| - 1 else |frame|;
    if start >= end {
      return Ok([]);
    }
    r := Decode(XorAll(frame[start..end]));
  }

  /** A packed message holds no priority marker, and the delimiter only as its last byte. */
  lemma PackedIsDelimited(data: seq<byte>)
    ensures var p := Packed(data);
      && |p| > 1 && p[|p| - 1] == DELIMITER
      && forall i :: 0 <= i < |p| - 1 ==> p[i] != 0x01 && p[i] != DELIMITER
  {
    hide Encoded;
    EncodedIsClean(data, []);
    var e := Encoded(data, []);
    forall i | 0 <= i < |e| ensures Packed(data)[i] != 0x01 && Packed(data)[i] != DELIMITER {
      assert e[i] in e;
    }
  }

  /** Unpacking undoes packing, with the delimiter, without it, and behind a priority marker. */
  lemma PackUnpack(data: seq<byte>)
    ensures Unpacking(Packed(data)) == Ok(data)
    ensures Unpacking(Packed(data)[..|Packed(data)| - 1]) == Ok(data)
    ensures Unpacking([0x01] + Packed(data)) == Ok(data)
  {
    hide Encoded, Decoding;
    PackedIsDelimited(data);
    EncodeDecode(data);
    var e, p := Encoded(data, []), Packed(data);
    var body := p[..|p| - 1];
    assert body == XorAll(e);
    assert XorAll(XorAll(e)) == e;
    assert p[0..|p| - 1] == body && body[0..|body|] == body;
    assert ([0x01] + p)[1..|p|] == body;
  }

  // ---- When decoding aborts ----

  /** The length of a block with its code. */
  function BlockLength(code: byte): (n: nat)
    ensures n >= 1
  {
    if code < COBS_CODE_OFFSET then 1 else Unescape(code).1
  }

  /** The bytes behind the `block - 1` that are still to come. */
  function Skipped(data: seq<byte>, block: int): (r: seq<byte>)
    ensures |r| <= |data|
  {
    if block <= 1 then data else if block - 1 < |data| then data[block - 1..] else []
  }

  /** The bytes that are read as codes: the first, and each one behind the block of the code before it. */
  function CodeBytes(data: seq<byte>): seq<byte>
    decreases |data|
  {
    if data == [] then [] else [data[0]] + CodeBytes(Skipped(data[1..], BlockLength(data[0])))
  }

  predicate IsLow(codes: seq<byte>) {
    exists c :: c in codes && c < COBS_CODE_OFFSET
  }

  lemma LowFirst(c: byte, codes: seq<byte>)
    ensures IsLow([c] + codes) <==> c < COBS_CODE_OFFSET || IsLow(codes)
  {
    assert ([c] + codes)[0] == c && ([c] + codes)[1..] == codes;
    if IsLow(codes) {
      var d :| d in codes && d < COBS_CODE_OFFSET;
      assert d in [c] + codes;
    }
    assert c in [c] + codes;
  }

  lemma CodesStep(data: seq<byte>)
    requires data != []
    ensures IsLow(CodeBytes(data)) <==> data[0] < COBS_CODE_OFFSET || IsLow(CodeBytes(Skipped(data[1..], BlockLength(data[0]))))
  {
    hide BlockLength, Skipped, IsLow;
    LowFirst(data[0], CodeBytes(Skipped(data[1..], BlockLength(data[0]))));
  }

  lemma SkippedOne(data: seq<byte>, block: int)
    requires data != [] && block > 1
    ensures Skipped(data, block) == Skipped(data[1..], block - 1)
  {
  }

  lemma {:induction false} RestAborts(data: seq<byte>, value: Option<byte>, block: int)
    ensures Rest(data, value, block).Aborted? <==> IsLow(CodeBytes(Skipped(data, block)))
    ensures !Rest(data, value, block).EmptyFrame?
    decreases |data|
  {
    hide Unescape, CodeBytes, IsLow, Skipped;
    if data == [] {
      NothingSkipped(block);
    } else if block - 1 > 0 {
      RestAborts(data[1..], value, block - 1);
      SkippedOne(data, block);
    } else {
      CodesStep(data);
      assert Skipped(data, block) == data by { AllStand(data, block); }
      if data[0] >= COBS_CODE_OFFSET {
        var (nextValue, nextBlock) := Unescape(data[0]);
        RestAborts(data[1..], nextValue, nextBlock);
      }
    }
  }

  lemma AllStand(data: seq<byte>, block: int)
    requires block <= 1
    ensures Skipped(data, block) == data
  {
  }

  lemma NothingSkipped(block: int)
    ensures !IsLow(CodeBytes(Skipped([], block)))
  {
  }

  /** Decoding aborts exactly on a code byte below 2; in no other way can it fail. */
  lemma AbortsIff(data: seq<byte>)
    ensures Decoding(data).Aborted? <==> IsLow(CodeBytes(data))
    ensures !Decoding(data).EmptyFrame?
  {
    RestAborts(data, None, 1);
  }

  // ---- The encoding, block by block ----

  predicate IsPlain(data: seq<byte>) {
    forall i :: 0 <= i < |data| ==> data[i] > 2
  }

  lemma {:induction false} Gathers(data: seq<byte>, rest: seq<byte>, current: seq<byte>)
    requires IsPlain(data) && |current| + |data| < 84
    ensures Encoded(data + rest, current) == Encoded(rest, current + data)
    decreases |data|
  {
    hide Encoded;
    if data == [] {
      assert data + rest == rest && current + data == current;
    } else {
      EncodedCase(data + rest, current);
      assert (data + rest)[1..] == data[1..] + rest && (data + rest)[0] == data[0];
      Gathers(data[1..], rest, current + [data[0]]);
      assert current + [data[0]] + data[1..] == current + data;
    }
  }

  /** A last block of fewer than 84 plain bytes: its length and three, and the bytes. */
  lemma LastBlock(data: seq<byte>)
    requires IsPlain(data) && |data| < 84
    ensures Encoded(data, []) == [|data| + 3] + data
  {
    hide Encoded;
    Gathers(data, [], []);
    assert data + [] == data && [] + data == data;
    EncodedEnd(data);
  }

  /** A block that ends with 0, 1 or 2: 84 for each unit of it, the length and three, and the bytes in front of it. */
  lemma EndedBlock(data: seq<byte>, d: byte, rest: seq<byte>)
    requires IsPlain(data) && |data| < 84 && d <= 2
    ensures Encoded(data + [d] + rest, []) == [84 * d + |data| + 3] + data + Encoded(rest, [])
  {
    hide Encoded;
    Gathers(data, [d] + rest, []);
    assert data + ([d] + rest) == data + [d] + rest && [] + data == data;
    EncodedCase([d] + rest, data);
    assert ([d] + rest)[1..] == rest;
  }

  /** A full block of 84 plain bytes: FF, and the bytes. */
  lemma FullBlock(data: seq<byte>, rest: seq<byte>)
    requires IsPlain(data) && |data| == 84
    ensures Encoded(data + rest, []) == [0xFF] + data + Encoded(rest, [])
  {
    hide Encoded;
    var front, last := data[..83], data[83];
    assert data == front + [last];
    Gathers(front, [last] + rest, []);
    assert front + ([last] + rest) == data + rest && [] + front == front;
    EncodedCase([last] + rest, front);
    assert ([last] + rest)[1..] == rest;
  }
}
