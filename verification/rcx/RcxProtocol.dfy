/** RCX framing: a header, every byte with its complement, and a checksum. */
module RcxProtocol {
  import opened Bytes

  const HEADER: seq<byte> := [0x55, 0xFF, 0x00]

  // ---- What a frame is ----

  function Pairs(bs: seq<byte>): (r: seq<byte>)
    ensures |r| == 2 * |bs|
  {
    if bs == [] then [] else Pairs(bs[..|bs| - 1]) + [bs[|bs| - 1], Complement(bs[|bs| - 1])]
  }

  function Frame(payload: seq<byte>): seq<byte> {
    HEADER + Pairs(payload + [Sum8(payload)])
  }

  method FrameMessage(payload: seq<byte>) returns (msg: seq<byte>)
    ensures msg == Frame(payload)
  {
    msg := HEADER;
    var checksum: byte := 0;
    for i := 0 to |payload|
      invariant msg == HEADER + Pairs(payload[..i])
      invariant checksum == Sum8(payload[..i])
    {
      var b := payload[i];
      assert payload[..i + 1][..i] == payload[..i];
      msg := msg + [b] + [Complement(b)];
      checksum := (checksum + b) % 256;
    }
    assert payload[..|payload|] == payload;
    assert (payload + [checksum])[..|payload|] == payload;
    msg := msg + [checksum] + [Complement(checksum)];
  }

  // ---- Reading a frame ----

  predicate HeaderAt(data: seq<byte>, i: nat) {
    i + 3 <= |data| && data[i] == 0x55 && data[i + 1] == 0xFF && data[i + 2] == 0x00
  }

  method FindHeader(data: seq<byte>) returns (r: Option<nat>)
    ensures r.None? ==> forall i: nat :: !HeaderAt(data, i)
    ensures r.Some? ==> HeaderAt(data, r.value) && forall i: nat :: i < r.value ==> !HeaderAt(data, i)
  {
    if |data| < 3 {
      return None;
    }
    for i := 0 to |data| - 2
      invariant forall k: nat :: k < i ==> !HeaderAt(data, k)
    {
      if data[i] == 0x55 && data[i + 1] == 0xFF && data[i + 2] == 0x00 {
        return Some(i);
      }
    }
    r := None;
  }

  /** The bytes at the front of `body` that are followed by their complements. */
  function ValidBytes(body: seq<byte>): seq<byte> {
    if |body| < 2 || body[0] != Complement(body[1]) then [] else [body[0]] + ValidBytes(body[2..])
  }

  function Checked(bytes: seq<byte>): Option<seq<byte>> {
    if |bytes| < 2 then None
    else if bytes[|bytes| - 1] != Sum8(bytes[..|bytes| - 1]) then None
    else Some(bytes[..|bytes| - 1])
  }

  /** The reply that a header at `start` introduces. */
  function ReplyAt(data: seq<byte>, start: nat): Option<seq<byte>>
    requires HeaderAt(data, start)
  {
    Checked(ValidBytes(data[start + 3..]))
  }

  /** The fold with `wrapping_add`. */
  method WrappingSum(bs: seq<byte>) returns (sum: byte)
    ensures sum == Sum8(bs)
  {
    sum := 0;
    for k := 0 to |bs|
      invariant sum == Sum8(bs[..k])
    {
      assert bs[..k + 1][..k] == bs[..k];
      sum := (sum + bs[k]) % 256;
    }
    assert bs[..|bs|] == bs;
  }

  method ParseReply(data: seq<byte>) returns (r: Option<seq<byte>>)
    ensures (forall i: nat :: !HeaderAt(data, i)) ==> r == None
    ensures forall i: nat :: HeaderAt(data, i) && (forall k: nat :: k < i ==> !HeaderAt(data, k)) ==> r == ReplyAt(data, i)
  {
    hide HeaderAt, Sum8;
    var start := FindHeader(data);
    if start.None? {
      return None;
    }
    var body := data[start.value + 3..];
    if |body| < 2 {
      return None;
    }
    var bytes: seq<byte> := [];
    var i := 0;
    while i + 1 < |body|
      invariant i <= |body| && ValidBytes(body) == bytes + ValidBytes(body[i..])
    {
      var b := body[i];
      var comp := body[i + 1];
      if b != Complement(comp) {
        break;
      }
      bytes := bytes + [b];
      i := i + 2;
    }
    assert ValidBytes(body) == bytes;
    if |bytes| < 2 {
      return None;
    }
    var checksum := bytes[|bytes| - 1];
    bytes := bytes[..|bytes| - 1];
    var expected := WrappingSum(bytes);
    if checksum != expected {
      return None;
    }
    r := Some(bytes);
  }

  // ---- Framing and reading are inverse ----

  lemma {:induction false} PairsFront(b: byte, bs: seq<byte>)
    ensures Pairs([b] + bs) == [b, Complement(b)] + Pairs(bs)
    decreases bs
  {
    if bs == [] {
      assert [b] + [] == [b] && [b][..0] == [];
      assert Pairs([]) == [];
    } else {
      var front := bs[..|bs| - 1];
      assert ([b] + bs)[..|[b] + bs| - 1] == [b] + front;
      PairsFront(b, front);
    }
  }

  lemma {:induction false} ValidPairs(bs: seq<byte>)
    ensures ValidBytes(Pairs(bs)) == bs
    decreases bs
  {
    if bs != [] {
      assert bs == [bs[0]] + bs[1..];
      PairsFront(bs[0], bs[1..]);
      var p := Pairs(bs);
      assert p[2..] == Pairs(bs[1..]);
      ValidPairs(bs[1..]);
    }
  }

  /** The header of a frame is the first one when the noise in front of it holds none. */
  lemma FirstHeader(noise: seq<byte>, payload: seq<byte>)
    requires forall i: nat :: !HeaderAt(noise, i)
    ensures HeaderAt(noise + Frame(payload), |noise|)
    ensures forall k: nat :: k < |noise| ==> !HeaderAt(noise + Frame(payload), k)
  {
    var data := noise + Frame(payload);
    assert data[|noise|] == 0x55 && data[|noise| + 1] == 0xFF && data[|noise| + 2] == 0x00;
    forall k: nat | k < |noise| ensures !HeaderAt(data, k) {
      if k + 3 <= |noise| {
        assert !HeaderAt(noise, k);
        assert data[k] == noise[k] && data[k + 1] == noise[k + 1] && data[k + 2] == noise[k + 2];
      }
    }
  }

  /** A frame is read back behind any noise without a header, exactly when it carries something. */
  lemma FrameReadsBackIff(noise: seq<byte>, payload: seq<byte>)
    requires forall i: nat :: !HeaderAt(noise, i)
    ensures HeaderAt(noise + Frame(payload), |noise|)
    ensures ReplyAt(noise + Frame(payload), |noise|) == Some(payload) <==> payload != []
  {
    FirstHeader(noise, payload);
    var bs := payload + [Sum8(payload)];
    assert (noise + Frame(payload))[|noise| + 3..] == Pairs(bs);
    ValidPairs(bs);
    assert bs[..|bs| - 1] == payload;
  }

  // ---- Firmware commands ----

  const TOGGLE_BIT: byte := 0x08
  const OP_DELETE_FIRMWARE: byte := 0x65
  const OP_START_FIRMWARE_DOWNLOAD: byte := 0x75
  const OP_TRANSFER_DATA: byte := 0x45
  const OP_UNLOCK_FIRMWARE: byte := 0xA5
  const FIRMWARE_DELETE_KEY: seq<byte> := [1, 3, 5, 7, 11]
  const FIRMWARE_UNLOCK_KEY: seq<byte> := [76, 69, 71, 79, 174]

  predicate HasToggle(b: byte) {
    b / 8 % 2 == 1
  }

  /** `opcode | TOGGLE_BIT` when the toggle is set. */
  function Op(opcode: byte, toggle: bool): (r: byte)
    ensures toggle ==> HasToggle(r)
    ensures !toggle ==> r == opcode
  {
    if toggle && !HasToggle(opcode) then opcode + TOGGLE_BIT else opcode
  }

  /** Setting a bit in a byte, against the machine operation. */
  lemma OpIsBitwiseOr(opcode: bv8)
    ensures Op(opcode as int, true) == (opcode | 8) as int
  {
    var high: bv8, bit: bv8, low: bv8 := opcode & 0xF0, opcode & 8, opcode & 7;
    assert opcode == high | bit | low;
  }

  function DeletePayload(toggle: bool): seq<byte> {
    [Op(OP_DELETE_FIRMWARE, toggle)] + FIRMWARE_DELETE_KEY
  }

  function StartPayload(address: nat, checksum: nat, toggle: bool): seq<byte> {
    [Op(OP_START_FIRMWARE_DOWNLOAD, toggle), Low(address), High(address), Low(checksum), High(checksum), 0]
  }

  function TransferPayload(index: nat, data: seq<byte>, toggle: bool): seq<byte> {
    [Op(OP_TRANSFER_DATA, toggle), Low(index), High(index), Low(|data|), High(|data|)] + data + [Sum8(data)]
  }

  function UnlockPayload(toggle: bool): seq<byte> {
    [Op(OP_UNLOCK_FIRMWARE, toggle)] + FIRMWARE_UNLOCK_KEY
  }

  // ---- The bytes on the wire ----

  /** The plain sum. */
  function Total(bs: seq<byte>): nat {
    if bs == [] then 0 else Total(bs[..|bs| - 1]) + bs[|bs| - 1]
  }

  lemma {:induction false} Sum8IsTotal(bs: seq<byte>)
    ensures Sum8(bs) == Total(bs) % 256
  {
    if bs != [] {
      Sum8IsTotal(bs[..|bs| - 1]);
    }
  }

  lemma {:induction false} PairsAre(bs: seq<byte>, i: nat)
    requires i < |bs|
    ensures Pairs(bs)[2 * i] == bs[i] && Pairs(bs)[2 * i + 1] == 255 - bs[i]
    decreases bs
  {
    if i < |bs| - 1 {
      PairsAre(bs[..|bs| - 1], i);
    }
  }

  /** Every byte of a frame: 55 FF 00, each byte and its complement, and the sum modulo 256 and its complement. */
  lemma FrameBytes(payload: seq<byte>)
    ensures var f, n := Frame(payload), |payload|;
      && |f| == 2 * n + 5 && f[0] == 0x55 && f[1] == 0xFF && f[2] == 0x00
      && (forall i :: 0 <= i < n ==> f[3 + 2 * i] == payload[i] && f[4 + 2 * i] == 255 - payload[i])
      && f[3 + 2 * n] == Total(payload) % 256 && f[4 + 2 * n] == 255 - Total(payload) % 256
  {
    hide Sum8, Pairs;
    var body := payload + [Sum8(payload)];
    Sum8IsTotal(payload);
    forall i | 0 <= i < |body| ensures Pairs(body)[2 * i] == body[i] && Pairs(body)[2 * i + 1] == 255 - body[i] {
      PairsAre(body, i);
    }
    var f := Frame(payload);
    assert forall i :: 3 <= i < |f| ==> f[i] == Pairs(body)[i - 3];
    forall i | 0 <= i < |payload| ensures f[3 + 2 * i] == payload[i] && f[4 + 2 * i] == 255 - payload[i] {
      assert body[i] == payload[i];
    }
  }

  /** The opcodes and keys of the four commands; the toggle adds 8 to an opcode. */
  lemma CommandBytes(address: nat, checksum: nat, index: nat, data: seq<byte>, toggle: bool)
    requires address < 0x10000 && checksum < 0x10000 && index < 0x10000 && |data| < 0x10000
    ensures var t: int := if toggle then 8 else 0;
      && DeletePayload(toggle) == [0x65 + t, 1, 3, 5, 7, 11]
      && StartPayload(address, checksum, toggle) == [0x75 + t, address % 256, address / 256, checksum % 256, checksum / 256, 0]
      && TransferPayload(index, data, toggle)
         == [0x45 + t, index % 256, index / 256, |data| % 256, |data| / 256] + data + [Total(data) % 256]
      && UnlockPayload(toggle) == [0xA5 + t, 'L' as int, 'E' as int, 'G' as int, 'O' as int, 0xAE]
  {
    hide Sum8, Total, Op;
    Opcodes(toggle);
    Sum8IsTotal(data);
    KeyBytes(toggle);
    assert High(|data|) == |data| / 256 && High(index) == index / 256;
    assert High(address) == address / 256 && High(checksum) == checksum / 256;
  }

  lemma Opcodes(toggle: bool)
    ensures var t: int := if toggle then 8 else 0;
      && Op(OP_DELETE_FIRMWARE, toggle) == 0x65 + t && Op(OP_START_FIRMWARE_DOWNLOAD, toggle) == 0x75 + t
      && Op(OP_TRANSFER_DATA, toggle) == 0x45 + t && Op(OP_UNLOCK_FIRMWARE, toggle) == 0xA5 + t
  {
  }

  lemma KeyBytes(toggle: bool)
    ensures DeletePayload(toggle) == [Op(OP_DELETE_FIRMWARE, toggle), 1, 3, 5, 7, 11]
    ensures UnlockPayload(toggle) == [Op(OP_UNLOCK_FIRMWARE, toggle), 'L' as int, 'E' as int, 'G' as int, 'O' as int, 0xAE]
  {
  }

  method CmdDeleteFirmware(toggle: bool) returns (msg: seq<byte>)
    ensures msg == Frame(DeletePayload(toggle))
  {
    msg := FrameMessage([Op(OP_DELETE_FIRMWARE, toggle)] + FIRMWARE_DELETE_KEY);
  }

  method CmdStartFirmwareDownload(address: nat, checksum: nat, toggle: bool) returns (msg: seq<byte>)
    requires address < 0x10000 && checksum < 0x10000
    ensures msg == Frame(StartPayload(address, checksum, toggle))
  {
    msg := FrameMessage([Op(OP_START_FIRMWARE_DOWNLOAD, toggle),
                         Low(address), High(address), Low(checksum), High(checksum), 0]);
  }

  method CmdTransferData(index: nat, data: seq<byte>, toggle: bool) returns (msg: seq<byte>)
    requires index < 0x10000
    ensures msg == Frame(TransferPayload(index, data, toggle))
  {
    var payload: seq<byte> := [Op(OP_TRANSFER_DATA, toggle), Low(index), High(index), Low(|data|), High(|data|)];
    payload := payload + data;
    var blockChecksum := WrappingSum(data);
    payload := payload + [blockChecksum];
    msg := FrameMessage(payload);
  }

  method CmdUnlockFirmware(toggle: bool) returns (msg: seq<byte>)
    ensures msg == Frame(UnlockPayload(toggle))
  {
    msg := FrameMessage([Op(OP_UNLOCK_FIRMWARE, toggle)] + FIRMWARE_UNLOCK_KEY);
  }
}
