/** Uploading firmware over a link that loses requests and replies. */
module RcxFirmware {
  import opened Bytes
  import opened RcxProtocol

  const FIRMWARE_BLOCK_SIZE: nat := 200
  const FIRMWARE_MAX_RETRIES: nat := 10

  datatype FirmwareImage = FirmwareImage(data: seq<byte>, baseAddress: nat, checksum: nat) {
    /** What the 16-bit fields can hold, and no more blocks than the 16-bit block counter can count. */
    predicate Valid() {
      baseAddress < 0x10000 && checksum < 0x10000 && TotalBlocks(data) < 0xFFFF
    }
  }

  function TotalBlocks(data: seq<byte>): nat {
    (|data| + FIRMWARE_BLOCK_SIZE - 1) / FIRMWARE_BLOCK_SIZE
  }

  datatype Result<+T> = Ok(value: T) | Err {
    predicate IsFailure() {
      Err?
    }
    function PropagateFailure<U>(): Result<U>
      requires Err?
    {
      Err
    }
    function Extract(): T
      requires Ok?
    {
      value
    }
  }

  /** The payload of a command: at least an opcode. */
  type Command = p: seq<byte> | p != [] witness [0]

  // ---- The brick ----

  /**
   * `last` is the opcode byte of the last command handled, toggle included, `reply` the answer to it,
   * and `log` the payload of every command that was executed.
   */
  datatype BrickState = BrickState(last: Option<byte>, reply: seq<byte>, log: seq<Command>)

  /** The answer to the `n`th executed command: the complement of its opcode and a result code. */
  function Answer(payload: Command, code: byte): seq<byte> {
    [Complement(payload[0]), code]
  }

  /** A command whose opcode byte repeats the last one is answered again, but not executed again. */
  function Execute(s: BrickState, payload: Command, codes: nat -> byte): BrickState {
    if s.last == Some(payload[0]) then s
    else BrickState(Some(payload[0]), Answer(payload, codes(|s.log|)), s.log + [payload])
  }

  /** The commands one after the other over a link that loses nothing. */
  function ExecuteAll(s: BrickState, payloads: seq<Command>, codes: nat -> byte): BrickState {
    if payloads == [] then s
    else Execute(ExecuteAll(s, payloads[..|payloads| - 1], codes), payloads[|payloads| - 1], codes)
  }

  // ---- The link ----

  datatype Fate = RequestLost | ReplyLost | Delivered

  /** The brick and the way to it. `fates` says what becomes of each attempt, `codes` how each command is answered. */
  class Link {
    const fates: nat -> Fate
    const codes: nat -> byte
    var attempts: nat
    var brick: BrickState

    constructor (fates: nat -> Fate, codes: nat -> byte, brick: BrickState)
      ensures this.fates == fates && this.codes == codes && this.attempts == 0 && this.brick == brick
    {
      this.fates, this.codes, this.attempts, this.brick := fates, codes, 0, brick;
    }

    /** Both the request and its reply get through. */
    predicate Arrives(attempt: nat) {
      fates(attempt) == Delivered
    }

    /** One attempt. */
    method SendRequest(msg: seq<byte>, ghost payload: Command) returns (r: Result<seq<byte>>)
      requires msg == Frame(payload)
      modifies this
      ensures attempts == old(attempts) + 1
      ensures brick == if fates(old(attempts)).RequestLost? then old(brick) else Execute(old(brick), payload, codes)
      ensures r == if fates(old(attempts)).Delivered? then Ok(brick.reply) else Err
    {
      var fate := fates(attempts);
      attempts := attempts + 1;
      if fate.RequestLost? {
        return Err;
      }
      FrameReadsBackIff([], payload);
      assert [] + Frame(payload) == Frame(payload);
      FirstHeader([], payload);
      var received := ParseReply(msg);
      assert received == Some(payload);
      brick := Execute(brick, received.value, codes);
      r := if fate.Delivered? then Ok(brick.reply) else Err;
    }
  }

  lemma ExecuteTwice(s: BrickState, payload: Command, codes: nat -> byte)
    ensures Execute(Execute(s, payload, codes), payload, codes) == Execute(s, payload, codes)
  {
  }

  /** The same frame again and again: the brick executes it at most once. */
  method SendWithRetry(msg: seq<byte>, ghost payload: Command, link: Link, maxRetries: nat) returns (r: Result<seq<byte>>)
    requires msg == Frame(payload)
    modifies link
    ensures old(link.attempts) <= link.attempts <= old(link.attempts) + maxRetries
    ensures r.Ok? <==> exists i: nat :: old(link.attempts) <= i < old(link.attempts) + maxRetries && link.Arrives(i)
    ensures r.Ok? ==> link.brick == Execute(old(link.brick), payload, link.codes) && r.value == link.brick.reply
    ensures r.Err? ==> link.brick == old(link.brick) || link.brick == Execute(old(link.brick), payload, link.codes)
  {
    ghost var before := link.brick;
    ExecuteTwice(before, payload, link.codes);
    for n := 0 to maxRetries
      invariant link.attempts == old(link.attempts) + n
      invariant link.brick == before || link.brick == Execute(before, payload, link.codes)
      invariant forall i: nat :: old(link.attempts) <= i < link.attempts ==> !link.Arrives(i)
    {
      r := link.SendRequest(msg, payload);
      if r.Ok? {
        assert link.Arrives(old(link.attempts) + n);
        return;
      }
    }
    r := Err;
  }

  // ---- The commands of an upload ----

  /** The block that starts at `offset`. */
  function BlockAt(data: seq<byte>, offset: nat): seq<byte>
    requires offset <= |data|
  {
    data[offset..BlockEnd(data, offset)]
  }

  function BlockEnd(data: seq<byte>, offset: nat): (r: nat)
    requires offset <= |data|
    ensures offset <= r <= |data|
  {
    if offset + FIRMWARE_BLOCK_SIZE < |data| then offset + FIRMWARE_BLOCK_SIZE else |data|
  }

  /** Blocks are numbered from one, but the last is numbered zero; the toggle alternates. */
  function Blocks(data: seq<byte>, offset: nat, index: nat): (r: seq<Command>)
    requires offset <= |data|
    decreases |data| - offset
  {
    if offset == |data| then []
    else
      var end := BlockEnd(data, offset);
      [TransferPayload(if end == |data| then 0 else index, BlockAt(data, offset), index % 2 == 0)] + Blocks(data, end, index + 1)
  }

  function Commands(image: FirmwareImage): (r: seq<Command>) {
    var blocks := Blocks(image.data, 0, 1);
    [DeletePayload(false), StartPayload(image.baseAddress, image.checksum, true)] + blocks + [UnlockPayload(|blocks| % 2 == 1)]
  }

  /** What the brick is sent for a block, taken apart again. */
  function BlockData(payload: seq<byte>): seq<byte> {
    if |payload| < 6 then [] else payload[5..|payload| - 1]
  }

  function Word(low: byte, high: byte): nat {
    low + 256 * high
  }

  /** The blocks cut the data into pieces of at most 200 bytes, complete and in order. */
  lemma {:induction false} BlocksMakeUpTheData(data: seq<byte>, offset: nat, index: nat)
    requires offset <= |data|
    ensures var bs := Blocks(data, offset, index);
      && Flatten(seq(|bs|, i requires 0 <= i < |bs| => BlockData(bs[i]))) == data[offset..]
      && |bs| * FIRMWARE_BLOCK_SIZE < |data| - offset + FIRMWARE_BLOCK_SIZE
      && |data| - offset <= |bs| * FIRMWARE_BLOCK_SIZE
    decreases |data| - offset
  {
    var bs := Blocks(data, offset, index);
    var parts := seq(|bs|, i requires 0 <= i < |bs| => BlockData(bs[i]));
    if offset < |data| {
      var end := BlockEnd(data, offset);
      var rest := Blocks(data, end, index + 1);
      BlocksMakeUpTheData(data, end, index + 1);
      assert bs[1..] == rest;
      assert parts[1..] == seq(|rest|, i requires 0 <= i < |rest| => BlockData(rest[i]));
      assert parts[0] == BlockData(bs[0]) == BlockAt(data, offset);
      assert data[offset..] == data[offset..end] + data[end..];
    }
  }

  lemma TransferFields(index: nat, data: seq<byte>, toggle: bool)
    requires index < 0x10000 && 0 < |data| <= FIRMWARE_BLOCK_SIZE
    ensures var p := TransferPayload(index, data, toggle);
      && |p| > 6 && BlockData(p) == data
      && Word(p[1], p[2]) == index && Word(p[3], p[4]) == |data|
      && p[|p| - 1] == Sum8(data) && HasToggle(p[0]) == toggle
  {
    hide Sum8, HasToggle, Op, Word, Low, High;
    var head := [Op(OP_TRANSFER_DATA, toggle), Low(index), High(index), Low(|data|), High(|data|)];
    Between(head, data, [Sum8(data)]);
    WordIs(index);
    WordIs(|data|);
    assert HasToggle(head[0]) == toggle by { TransferToggle(toggle); }
  }

  lemma TransferToggle(toggle: bool)
    ensures HasToggle(Op(OP_TRANSFER_DATA, toggle)) == toggle
  {
  }

  lemma Between(head: seq<byte>, data: seq<byte>, last: seq<byte>)
    requires |head| == 5 && |last| == 1
    ensures var p := head + data + last;
      |p| == |data| + 6 && p[..5] == head && p[5..|p| - 1] == data && p[|p| - 1] == last[0]
  {
  }

  lemma WordIs(n: nat)
    requires n < 0x10000
    ensures Word(Low(n), High(n)) == n
  {
  }

  /** Every block says its own number, its length and its checksum; the last one, and only it, is numbered zero. */
  lemma {:induction false} BlockHeaders(data: seq<byte>, offset: nat, index: nat, i: nat)
    requires offset <= |data| && i < |Blocks(data, offset, index)| && 0 < index && index + |Blocks(data, offset, index)| <= 0x10000
    ensures var bs := Blocks(data, offset, index);
      && |bs[i]| > 6
      && Word(bs[i][1], bs[i][2]) == (if i == |bs| - 1 then 0 else index + i)
      && Word(bs[i][3], bs[i][4]) == |BlockData(bs[i])| <= FIRMWARE_BLOCK_SIZE
      && bs[i][|bs[i]| - 1] == Sum8(BlockData(bs[i]))
      && HasToggle(bs[i][0]) == ((index + i) % 2 == 0)
    decreases |data| - offset
  {
    hide Sum8, TransferPayload, BlockData, HasToggle, Word;
    var bs := Blocks(data, offset, index);
    var end := BlockEnd(data, offset);
    if i == 0 {
      TransferFields(if end == |data| then 0 else index, BlockAt(data, offset), index % 2 == 0);
    } else {
      BlockHeaders(data, end, index + 1, i - 1);
      assert bs[i] == Blocks(data, end, index + 1)[i - 1];
    }
  }

  // ---- Consecutive commands are told apart ----

  lemma ToggleAlternates(image: FirmwareImage, k: nat)
    requires image.Valid() && k < |Commands(image)|
    ensures HasToggle(Commands(image)[k][0]) == (k % 2 == 1)
  {
    hide Sum8, Blocks;
    var bs := Blocks(image.data, 0, 1);
    BlockCount(image);
    if k == |bs| + 2 {
      assert Commands(image)[k] == UnlockPayload(|bs| % 2 == 1);
    } else if k >= 2 {
      BlockHeaders(image.data, 0, 1, k - 2);
      assert Commands(image)[k] == bs[k - 2];
    }
  }

  lemma BlockCount(image: FirmwareImage)
    ensures |Blocks(image.data, 0, 1)| == TotalBlocks(image.data)
  {
    BlocksMakeUpTheData(image.data, 0, 1);
  }

  /** A brick that has just handled command `k` executes command `k + 1`. */
  lemma NextIsNew(image: FirmwareImage, k: nat)
    requires image.Valid() && k + 1 < |Commands(image)|
    ensures Commands(image)[k][0] != Commands(image)[k + 1][0]
  {
    hide Commands;
    ToggleAlternates(image, k);
    ToggleAlternates(image, k + 1);
  }

  /** The commands that a brick which remembers `last` will execute. */
  function Executed(last: Option<byte>, payloads: seq<Command>): seq<Command> {
    if payloads != [] && last == Some(payloads[0][0]) then payloads[1..] else payloads
  }

  /**
   * Exactly once: over a link that loses nothing, the log grows by the first `n` commands, each once and in
   * order, except that a brick remembering the very first opcode byte ignores the first command.
   */
  lemma {:induction false} ExecutesEachOnce(s: BrickState, image: FirmwareImage, n: nat, codes: nat -> byte)
    requires image.Valid() && n <= |Commands(image)|
    ensures var r := ExecuteAll(s, Commands(image)[..n], codes);
      && r.log == s.log + Executed(s.last, Commands(image)[..n])
      && (n > 0 ==> r.last == Some(Commands(image)[n - 1][0]))
      && (n > 1 ==> r.reply == Answer(Commands(image)[n - 1], codes(|r.log| - 1)))
    decreases n
  {
    hide Commands;
    var cmds := Commands(image);
    if n == 0 {
      assert s.log + [] == s.log;
    } else {
      assert cmds[..n][..n - 1] == cmds[..n - 1];
      ExecutesEachOnce(s, image, n - 1, codes);
      if n > 1 {
        NextIsNew(image, n - 2);
        assert Executed(s.last, cmds[..n]) == Executed(s.last, cmds[..n - 1]) + [cmds[n - 1]];
        assert s.log + (Executed(s.last, cmds[..n - 1]) + [cmds[n - 1]]) == s.log + Executed(s.last, cmds[..n - 1]) + [cmds[n - 1]];
      } else {
        assert cmds[..1] == [cmds[0]];
        assert s.log + [] == s.log;
      }
    }
  }

  /** Every command of an upload is executed exactly once unless the brick remembers the opcode byte of the first. */
  lemma ExactlyOnceIff(s: BrickState, image: FirmwareImage, codes: nat -> byte)
    requires image.Valid()
    ensures ExecuteAll(s, Commands(image), codes).log == s.log + Commands(image) <==> s.last != Some(OP_DELETE_FIRMWARE)
  {
    hide ExecuteAll;
    var cmds := Commands(image);
    assert cmds[..|cmds|] == cmds;
    assert cmds[0][0] == OP_DELETE_FIRMWARE;
    ExecutesEachOnce(s, image, |cmds|, codes);
    assert |s.log + cmds| == |s.log| + |cmds|;
  }

  /** When an upload breaks off, what the brick has executed is a first part of what it would have executed. */
  lemma BrokenOffLogIsPrefix(s: BrickState, image: FirmwareImage, n: nat, codes: nat -> byte)
    requires image.Valid() && n <= |Commands(image)|
    ensures ExecuteAll(s, Commands(image)[..n], codes).log <= ExecuteAll(s, Commands(image), codes).log
  {
    hide ExecuteAll, Commands;
    var cmds := Commands(image);
    assert cmds[..|cmds|] == cmds;
    ExecutesEachOnce(s, image, n, codes);
    ExecutesEachOnce(s, image, |cmds|, codes);
    assert Executed(s.last, cmds[..n]) <= Executed(s.last, cmds);
  }

  // ---- The upload ----

  lemma ExecuteNext(s: BrickState, cmds: seq<Command>, k: nat, codes: nat -> byte)
    requires k < |cmds|
    ensures ExecuteAll(s, cmds[..k + 1], codes) == Execute(ExecuteAll(s, cmds[..k], codes), cmds[k], codes)
  {
    assert cmds[..k + 1][..k] == cmds[..k];
  }

  /** Any ten attempts in a row, from attempt `from` on, hold one that gets through. */
  ghost predicate Reliable(link: Link, from: nat) {
    forall i: nat :: i >= from ==> OneOfTenArrives(link, i)
  }

  ghost predicate OneOfTenArrives(link: Link, i: nat) {
    exists j: nat :: i <= j < i + FIRMWARE_MAX_RETRIES && link.Arrives(j)
  }

  /** The brick accepts the start of the download and every block. */
  ghost predicate AllAccepted(start: BrickState, cmds: seq<Command>, codes: nat -> byte) {
    forall k: nat :: 2 <= k < |cmds| ==> AcceptedAt(start, cmds, codes, k)
  }

  /** The answer to the last of the first `k` commands is not a refusal. */
  ghost predicate AcceptedAt(start: BrickState, cmds: seq<Command>, codes: nat -> byte, k: nat) {
    k <= |cmds| && Accepted(ExecuteAll(start, cmds[..k], codes).reply)
  }

  /** A reply with a result code other than zero is a refusal. */
  predicate Accepted(reply: seq<byte>) {
    |reply| >= 2 ==> reply[1] == 0
  }

  /** The brick refuses with any code but zero; an answer without a code is no refusal. */
  lemma AcceptedIff(payload: Command, code: byte, opcode: byte)
    ensures Accepted(Answer(payload, code)) <==> code == 0
    ensures Accepted([]) && Accepted([opcode])
  {
  }

  /** Both ways must be free: a lost request or a lost reply is a failed attempt. */
  lemma ArrivesIff(link: Link, attempt: nat)
    ensures link.Arrives(attempt) <==> link.fates(attempt) != RequestLost && link.fates(attempt) != ReplyLost
  {
  }

  /**
   * One command of the upload: when it gets through, the brick is as if it had got it once; when it does not,
   * the brick is as if the command had been sent once or not at all.
   */
  method SendCommand(msg: seq<byte>, link: Link, ghost start: BrickState, ghost cmds: seq<Command>, ghost k: nat)
    returns (r: Result<seq<byte>>)
    requires k < |cmds| && msg == Frame(cmds[k])
    requires link.brick == ExecuteAll(start, cmds[..k], link.codes)
    modifies link
    ensures old(link.attempts) <= link.attempts
    ensures r.Ok? ==> link.brick == ExecuteAll(start, cmds[..k + 1], link.codes)
    ensures r.Ok? ==> Accepted(r.value) == AcceptedAt(start, cmds, link.codes, k + 1)
    ensures r.Err? ==> exists n: nat :: n <= |cmds| && link.brick == ExecuteAll(start, cmds[..n], link.codes)
    ensures Reliable(link, old(link.attempts)) ==> r.Ok?
  {
    hide ExecuteAll, Execute, Accepted;
    ExecuteNext(start, cmds, k, link.codes);
    assert Reliable(link, link.attempts) ==> OneOfTenArrives(link, link.attempts);
    r := SendWithRetry(msg, cmds[k], link, FIRMWARE_MAX_RETRIES);
    if r.Err? {
      assert link.brick == ExecuteAll(start, cmds[..k], link.codes) || link.brick == ExecuteAll(start, cmds[..k + 1], link.codes);
    }
  }

  /** The blocks, from the first: the loop counts the offset, the block number and the toggle along. */
  method TransferBlocks(image: FirmwareImage, link: Link, ghost start: BrickState, toggle0: bool) returns (r: Result<bool>)
    requires image.Valid() && !toggle0
    requires link.brick == ExecuteAll(start, Commands(image)[..2], link.codes)
    modifies link
    ensures old(link.attempts) <= link.attempts
    ensures var cmds := Commands(image);
      && (r.Ok? ==> link.brick == ExecuteAll(start, cmds[..|cmds| - 1], link.codes) && r.value == (|cmds| % 2 == 0))
      && (r.Ok? && AcceptedAt(start, cmds, link.codes, 2) ==> AllAccepted(start, cmds, link.codes))
      && (r.Err? ==> exists n: nat :: n <= |cmds| && link.brick == ExecuteAll(start, cmds[..n], link.codes))
      && (Reliable(link, old(link.attempts)) && AllAccepted(start, cmds, link.codes) ==> r.Ok?)
  {
    hide ExecuteAll, Execute, Frame, TransferPayload, Commands, OneOfTenArrives, Accepted, AcceptedAt, TotalBlocks, Blocks, BlockAt;
    ghost var cmds: seq<Command> := Commands(image);
    ghost var blocks := Blocks(image.data, 0, 1);
    BlockCount(image);
    CommandList(image);
    var toggle := toggle0;
    var offset: nat := 0;
    var blockIndex: nat := 1;
    while offset < |image.data|
      invariant offset <= |image.data| && 0 < blockIndex <= |blocks| + 1 <= 0xFFFF
      invariant Blocks(image.data, offset, blockIndex) == blocks[blockIndex - 1..]
      invariant toggle == (blockIndex % 2 == 0)
      invariant link.brick == ExecuteAll(start, cmds[..blockIndex + 1], link.codes)
      invariant old(link.attempts) <= link.attempts
      invariant forall k: nat :: 3 <= k < blockIndex + 2 ==> AcceptedAt(start, cmds, link.codes, k)
    {
      var end := if offset + FIRMWARE_BLOCK_SIZE < |image.data| then offset + FIRMWARE_BLOCK_SIZE else |image.data|;
      var blockData := image.data[offset..end];
      var isLast := end >= |image.data|;
      var index := if isLast then 0 else blockIndex;
      NextBlock(image.data, offset, blockIndex);
      var msg := CmdTransferData(index, blockData, toggle);
      toggle := !toggle;
      assert cmds[blockIndex + 1] == blocks[blockIndex - 1];
      var reply :- SendCommand(msg, link, start, cmds, blockIndex + 1);
      if !Accepted(reply) {
        return Err;
      }
      offset := end;
      blockIndex := blockIndex + 1;
    }
    NoMoreBlocks(image.data, blockIndex);
    r := Ok(toggle);
  }

  /**
   * Delete, start, every block, unlock. On success the brick is in the state that the same commands, each sent
   * once over a perfect link, would have left it in, and it has accepted the start and every block; on failure
   * it is in the state that some first part of them would have left. A link that lets one of any ten attempts
   * through and a brick that accepts everything make the upload succeed.
   */
  method UploadFirmware(image: FirmwareImage, link: Link) returns (r: Result<()>)
    requires image.Valid()
    modifies link
    ensures r.Ok? ==> link.brick == ExecuteAll(old(link.brick), Commands(image), link.codes)
    ensures r.Ok? ==> AllAccepted(old(link.brick), Commands(image), link.codes)
    ensures r.Err? ==> exists n: nat :: n <= |Commands(image)| && link.brick == ExecuteAll(old(link.brick), Commands(image)[..n], link.codes)
    ensures Reliable(link, old(link.attempts)) && AllAccepted(old(link.brick), Commands(image), link.codes) ==> r.Ok?
  {
    hide ExecuteAll, Execute, Frame, DeletePayload, StartPayload, UnlockPayload, Commands, OneOfTenArrives, Accepted, AcceptedAt, Blocks;
    ghost var start := link.brick;
    ghost var cmds: seq<Command> := Commands(image);
    CommandList(image);
    assert cmds[..0] == [] && ExecuteAll(start, [], link.codes) == start by { ExecuteNothing(start, link.codes); }
    var toggle := false;

    var msg := CmdDeleteFirmware(toggle);
    toggle := !toggle;
    var _ :- SendCommand(msg, link, start, cmds, 0);

    msg := CmdStartFirmwareDownload(image.baseAddress, image.checksum, toggle);
    toggle := !toggle;
    var reply :- SendCommand(msg, link, start, cmds, 1);
    if !Accepted(reply) {
      return Err;
    }

    toggle :- TransferBlocks(image, link, start, toggle);

    msg := CmdUnlockFirmware(toggle);
    var _ :- SendCommand(msg, link, start, cmds, |cmds| - 1);
    assert cmds[..|cmds|] == cmds;
    r := Ok(());
  }

  lemma CommandList(image: FirmwareImage)
    ensures var cmds, blocks := Commands(image), Blocks(image.data, 0, 1);
      && |cmds| == |blocks| + 3
      && cmds[0] == DeletePayload(false) && cmds[1] == StartPayload(image.baseAddress, image.checksum, true)
      && (forall i :: 0 <= i < |blocks| ==> cmds[i + 2] == blocks[i])
      && cmds[|blocks| + 2] == UnlockPayload(|blocks| % 2 == 1)
  {
    hide Blocks, Sum8;
  }

  lemma NextBlock(data: seq<byte>, offset: nat, index: nat)
    requires offset < |data|
    ensures var bs, end := Blocks(data, offset, index), BlockEnd(data, offset);
      && bs != [] && bs[0] == TransferPayload(if end == |data| then 0 else index, BlockAt(data, offset), index % 2 == 0)
      && bs[1..] == Blocks(data, end, index + 1)
      && BlockAt(data, offset) == data[offset..end]
  {
    hide TransferPayload;
  }

  lemma NoMoreBlocks(data: seq<byte>, index: nat)
    ensures Blocks(data, |data|, index) == []
  {
  }

  lemma ExecuteNothing(s: BrickState, codes: nat -> byte)
    ensures ExecuteAll(s, [], codes) == s
  {
  }
}
