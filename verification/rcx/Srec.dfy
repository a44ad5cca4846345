/** Assembling a firmware image from Motorola S-Records. */
module Srec {
  import opened Bytes

  datatype SrecError =
    | NotARecord
    | OddHexLength
    | InvalidHex
    | EmptyRecord
    | BadChecksum
    | TooShort
    | AddressOverflow
    | NoData
    | ImageTooLarge
    | SliceOutOfRange   // a slice expression that aborts the program

  datatype Image = Image(data: seq<byte>, baseAddress: nat, entryPoint: nat, checksum: nat)

  datatype Result<+T> = Ok(value: T) | Err(error: SrecError) {
    predicate IsFailure() {
      Err?
    }
    function PropagateFailure<U>(): Result<U>
      requires Err?
    {
      Err(error)
    }
    function Extract(): T
      requires Ok?
    {
      value
    }
  }

  datatype Record = Record(address: nat, data: seq<byte>) {
    /** The address behind the record, computed with a length cut down to 16 bits. */
    function End(): nat {
      address + |data| % 0x10000
    }
  }

  /** What a line says. */
  datatype Line = Other | Data(record: Record) | Entry(address: nat) | Bad(error: SrecError)

  // ---- Hexadecimal ----

  function HexDigit(c: char): (r: Option<nat>)
    ensures r.Some? ==> r.value < 16
  {
    if '0' <= c <= '9' then Some(c as int - '0' as int)
    else if 'A' <= c <= 'F' then Some(c as int - 'A' as int + 10)
    else if 'a' <= c <= 'f' then Some(c as int - 'a' as int + 10)
    else None
  }

  /** Two characters as a byte; a plus sign is taken for a sign. */
  function HexByte(c: char, d: char): Option<byte> {
    if HexDigit(d).None? then None
    else if c == '+' then Some(HexDigit(d).value)
    else if HexDigit(c).None? then None
    else Some(16 * HexDigit(c).value + HexDigit(d).value)
  }

  function HexBytes(hex: string): Option<seq<byte>>
    requires |hex| % 2 == 0
  {
    if hex == "" then Some([])
    else
      var front := HexBytes(hex[..|hex| - 2]);
      var last := HexByte(hex[|hex| - 2], hex[|hex| - 1]);
      if front.None? || last.None? then None else Some(front.value + [last.value])
  }

  method DecodeHexLine(hex: string) returns (r: Result<seq<byte>>)
    ensures |hex| % 2 != 0 ==> r == Err(OddHexLength)
    ensures |hex| % 2 == 0 ==> r == (if HexBytes(hex).None? then Err(InvalidHex) else Ok(HexBytes(hex).value))
  {
    if |hex| % 2 != 0 {
      return Err(OddHexLength);
    }
    var bytes: seq<byte> := [];
    var i := 0;
    while i < |hex|
      invariant i <= |hex| && i % 2 == 0
      invariant HexBytes(hex[..i]) == Some(bytes)
    {
      var b := HexByte(hex[i], hex[i + 1]);
      assert hex[..i + 2][..i] == hex[..i];
      if b.None? {
        BadPrefix(hex, i + 2);
        return Err(InvalidHex);
      }
      bytes := bytes + [b.value];
      i := i + 2;
    }
    assert hex[..|hex|] == hex;
    r := Ok(bytes);
  }

  lemma {:induction false} BadPrefix(hex: string, n: nat)
    requires |hex| % 2 == 0 && n % 2 == 0 && n <= |hex| && HexBytes(hex[..n]).None?
    ensures HexBytes(hex).None?
    decreases |hex|
  {
    if n == |hex| {
      assert hex[..n] == hex;
    } else {
      assert hex[..|hex| - 2][..n] == hex[..n];
      BadPrefix(hex[..|hex| - 2], n);
    }
  }

  // ---- One line ----

  function Address(bytes: seq<byte>): nat
    requires |bytes| >= 3
  {
    var high: nat := bytes[1];
    256 * high + bytes[2]
  }

  /** The meaning of a line that is not empty and has no blanks around it. */
  function ReadLine(line: string): Line {
    if |line| < 2 || line[0] != 'S' then Bad(NotARecord)
    else if line[1] != '1' && line[1] != '9' then Other
    else if |line| % 2 != 0 then Bad(OddHexLength)
    else
      var bytes := HexBytes(line[2..]);
      if bytes.None? then Bad(InvalidHex)
      else if bytes.value == [] then Bad(EmptyRecord)
      else if Sum8(bytes.value) != 0xFF then Bad(BadChecksum)
      else if line[1] == '9' then
        if |bytes.value| >= 3 then Entry(Address(bytes.value)) else Other
      else if |bytes.value| < 3 then Bad(TooShort)
      else if |bytes.value| == 3 then Bad(SliceOutOfRange)
      else
        var record := Record(Address(bytes.value), bytes.value[3..|bytes.value| - 1]);
        if record.End() >= 0x10000 then Bad(AddressOverflow) else Data(record)
  }

  method VerifyChecksum(bytes: seq<byte>) returns (r: Option<SrecError>)
    ensures r == (if bytes == [] then Some(EmptyRecord) else if Sum8(bytes) != 0xFF then Some(BadChecksum) else None)
  {
    if bytes == [] {
      return Some(EmptyRecord);
    }
    var sum: byte := 0;
    for k := 0 to |bytes|
      invariant sum == Sum8(bytes[..k])
    {
      assert bytes[..k + 1][..k] == bytes[..k];
      sum := (sum + bytes[k]) % 256;
    }
    assert bytes[..|bytes|] == bytes;
    r := if sum != 0xFF then Some(BadChecksum) else None;
  }

  // ---- All lines ----

  /** The data records, in order. */
  function Records(lines: seq<string>): seq<Record> {
    if lines == [] then []
    else
      Records(lines[..|lines| - 1]) +
      match ReadLine(lines[|lines| - 1])
      case Data(record) => [record]
      case _ => []
  }

  /** The entry point: that of the last record that gives one, or zero. */
  function EntryPoint(lines: seq<string>): nat {
    if lines == [] then 0
    else
      match ReadLine(lines[|lines| - 1])
      case Entry(address) => address
      case _ => EntryPoint(lines[..|lines| - 1])
  }

  /** The first line that is in error. */
  ghost predicate FirstBad(lines: seq<string>, i: nat) {
    i < |lines| && ReadLine(lines[i]).Bad? && forall k :: 0 <= k < i ==> !ReadLine(lines[k]).Bad?
  }

  ghost predicate AllGood(lines: seq<string>) {
    forall k :: 0 <= k < |lines| ==> !ReadLine(lines[k]).Bad?
  }

  // ---- The image that a list of records describes ----

  /** The byte at an address: that of the last record that covers it, or zero. */
  function ByteAt(records: seq<Record>, address: nat): byte {
    if records == [] then 0
    else
      var last := records[|records| - 1];
      if last.address <= address < last.address + |last.data| then last.data[address - last.address]
      else ByteAt(records[..|records| - 1], address)
  }

  /** `low` is the least address of a record and `high` the greatest end. */
  ghost predicate Spans(records: seq<Record>, low: nat, high: nat) {
    && (exists r :: r in records && r.address == low) && (forall r <- records :: low <= r.address)
    && (exists r :: r in records && r.End() == high) && (forall r <- records :: r.End() <= high)
  }

  /** The sum of the bytes of an image below the signature, modulo 2^16. */
  function Sum16(bytes: seq<byte>): nat {
    if bytes == [] then 0 else (Sum16(bytes[..|bytes| - 1]) + bytes[|bytes| - 1]) % 0x10000
  }

  const SIGNATURE: nat := 0xCC00
  const MAX_IMAGE: nat := 0x7000

  ghost predicate Assembled(records: seq<Record>, image: Image, high: nat) {
    && |image.data| == high - image.baseAddress <= MAX_IMAGE
    && (forall i :: 0 <= i < |image.data| ==> image.data[i] == ByteAt(records, image.baseAddress + i))
    && image.checksum == Sum16(Below(image))
  }

  predicate IsBelow(image: Image, i: nat) {
    i < |image.data| && image.baseAddress + i < SIGNATURE
  }

  /** The bytes of an image at addresses below the signature. */
  function Below(image: Image): (r: seq<byte>)
    ensures |r| <= |image.data| && forall i :: 0 <= i < |r| ==> r[i] == image.data[i]
    ensures forall i: nat :: IsBelow(image, i) <==> i < |r|
  {
    image.data[..if SIGNATURE <= image.baseAddress then 0
                 else if SIGNATURE - image.baseAddress < |image.data| then SIGNATURE - image.baseAddress else |image.data|]
  }

  /** A record reaches beyond the greatest end, which was computed with lengths cut down to 16 bits. */
  ghost predicate RunsOver(records: seq<Record>, high: nat) {
    exists rec :: rec in records && rec.address + |rec.data| > high
  }

  /** What becomes of good lines with records from `low` to `high`. */
  ghost predicate Outcome(lines: seq<string>, low: nat, high: nat, r: Result<Image>) {
    if high - low > MAX_IMAGE then r == Err(ImageTooLarge)
    else if RunsOver(Records(lines), high) then r == Err(SliceOutOfRange)
    else r.Ok? && r.value.baseAddress == low && r.value.entryPoint == EntryPoint(lines) && Assembled(Records(lines), r.value, high)
  }

  /** The slice expressions that abort: that of a line of three bytes, or that of a record that runs over. */
  ghost predicate Aborts(lines: seq<string>) {
    || (exists i: nat :: FirstBad(lines, i) && ReadLine(lines[i]) == Bad(SliceOutOfRange))
    || (AllGood(lines) && exists low: nat, high: nat ::
          Spans(Records(lines), low, high) && high - low <= MAX_IMAGE && RunsOver(Records(lines), high))
  }

  /** Only a record of 64 KiB or more runs over. */
  lemma ShortRecordsFit(records: seq<Record>, low: nat, high: nat)
    requires Spans(records, low, high) && forall rec <- records :: |rec.data| < 0x10000
    ensures !RunsOver(records, high)
  {
  }

  lemma SpansOnce(records: seq<Record>, low: nat, high: nat, low': nat, high': nat)
    requires Spans(records, low, high) && Spans(records, low', high')
    ensures low == low' && high == high'
  {
  }

  // ---- The parser ----

  /** One line, as the loop body treats it. */
  method DecodeLine(line: string) returns (r: Line)
    ensures r == ReadLine(line)
  {
    hide HexBytes, Sum8;
    if |line| < 2 || line[0] != 'S' {
      return Bad(NotARecord);
    }
    if line[1] != '1' && line[1] != '9' {
      return Other;
    }
    var bytes := DecodeHexLine(line[2..]);
    if bytes.Err? {
      return Bad(bytes.error);
    }
    var error := VerifyChecksum(bytes.value);
    if error.Some? {
      return Bad(error.value);
    }
    if line[1] == '9' {
      return if |bytes.value| >= 3 then Entry(Address(bytes.value)) else Other;
    }
    if |bytes.value| < 3 {
      return Bad(TooShort);
    }
    if |bytes.value| == 3 {
      return Bad(SliceOutOfRange);
    }
    var record := Record(Address(bytes.value), bytes.value[3..|bytes.value| - 1]);
    r := if record.End() >= 0x10000 then Bad(AddressOverflow) else Data(record);
  }

  /**
   * The first bad line is reported. Otherwise the image runs from the least address of a record to the greatest end,
   * every byte is the last one written to its address or zero, and the checksum covers the bytes below the signature.
   */
  method ParseSrec(lines: seq<string>) returns (r: Result<Image>)
    ensures forall i: nat :: FirstBad(lines, i) ==> r == Err(ReadLine(lines[i]).error)
    ensures AllGood(lines) && Records(lines) == [] ==> r == Err(NoData)
    ensures AllGood(lines) && Records(lines) != [] ==>
      exists low: nat, high: nat :: low <= high && Spans(Records(lines), low, high) && Outcome(lines, low, high, r)
    ensures r == Err(SliceOutOfRange) <==> Aborts(lines)
  {
    hide ReadLine, Sum16, ByteAt;
    var minAddr: Option<nat> := None;
    var maxAddr: nat := 0;
    var entryPoint: nat := 0;
    var records: seq<Record> := [];
    for n := 0 to |lines|
      invariant AllGood(lines[..n])
      invariant records == Records(lines[..n]) && entryPoint == EntryPoint(lines[..n])
      invariant records == [] ==> minAddr.None? && maxAddr == 0
      invariant records != [] ==> minAddr.Some? && Spans(records, minAddr.value, maxAddr)
    {
      assert lines[..n + 1][..n] == lines[..n];
      var line := DecodeLine(lines[n]);
      match line {
        case Bad(error) =>
          assert FirstBad(lines, n) by { GoodUpTo(lines, n); }
          return Err(error);
        case Data(record) =>
          SpansMore(records, minAddr, maxAddr, record);
          minAddr := Some(if minAddr.None? then record.address else if record.address < minAddr.value then record.address else minAddr.value);
          maxAddr := if record.End() > maxAddr then record.End() else maxAddr;
          records := records + [record];
        case Entry(address) =>
          entryPoint := address;
        case Other =>
      }
    }
    assert lines[..|lines|] == lines;
    if records == [] {
      return Err(NoData);
    }
    var base := minAddr.value;
    SpansOrdered(records, base, maxAddr);
    var imageLen := maxAddr - base;
    assert base + imageLen == maxAddr;
    if imageLen > MAX_IMAGE {
      NotAborted(lines, base, maxAddr);
      return Err(ImageTooLarge);
    }
    var data := CopyRecords(records, base, imageLen);
    if data.Err? {
      return Err(data.error);
    }
    var checksumEnd := if SIGNATURE <= base then 0 else SIGNATURE - base;
    var slice := if checksumEnd < |data.value| then data.value[..checksumEnd] else data.value;
    var checksum := WrappingSum16(slice);
    var image := Image(data.value, base, entryPoint, checksum);
    assert Below(image) == slice;
    r := Ok(image);
    assert Assembled(records, image, maxAddr);
    NotAborted(lines, base, maxAddr);
  }

  lemma NotAborted(lines: seq<string>, low: nat, high: nat)
    requires AllGood(lines) && Spans(Records(lines), low, high) && (high - low > MAX_IMAGE || !RunsOver(Records(lines), high))
    ensures !Aborts(lines)
  {
    hide ReadLine, Records, Spans;
    forall low': nat, high': nat | Spans(Records(lines), low', high') ensures low' == low && high' == high {
      SpansOnce(Records(lines), low, high, low', high');
    }
  }

  lemma GoodUpTo(lines: seq<string>, n: nat)
    requires n < |lines| && AllGood(lines[..n]) && ReadLine(lines[n]).Bad?
    ensures FirstBad(lines, n)
  {
    hide ReadLine;
    forall k | 0 <= k < n ensures !ReadLine(lines[k]).Bad? {
      assert lines[..n][k] == lines[k];
    }
  }

  lemma SpansMore(records: seq<Record>, low: Option<nat>, high: nat, record: Record)
    requires records == [] ==> high == 0
    requires records != [] ==> low.Some? && Spans(records, low.value, high)
    ensures Spans(records + [record],
                  if records == [] then record.address else if record.address < low.value then record.address else low.value,
                  if record.End() > high then record.End() else high)
  {
    assert record in records + [record];
    assert forall r <- records :: r in records + [record];
  }

  lemma SpansOrdered(records: seq<Record>, low: nat, high: nat)
    requires Spans(records, low, high)
    ensures low <= high
  {
  }

  /** Copying the records over a buffer of zeros, one after the other. */
  method CopyRecords(records: seq<Record>, base: nat, imageLen: nat) returns (r: Result<seq<byte>>)
    requires forall rec <- records :: base <= rec.address && rec.End() <= base + imageLen
    ensures r.Ok? ==> |r.value| == imageLen && forall i :: 0 <= i < imageLen ==> r.value[i] == ByteAt(records, base + i)
    ensures r == Err(SliceOutOfRange) <==> RunsOver(records, base + imageLen)
    ensures r.Err? ==> r.error == SliceOutOfRange
  {
    var data := new byte[imageLen](_ => 0);
    for n := 0 to |records|
      invariant forall i :: 0 <= i < imageLen ==> data[i] == ByteAt(records[..n], base + i)
      invariant forall i :: 0 <= i < n ==> records[i].address + |records[i].data| <= base + imageLen
    {
      var rec := records[n];
      assert records[..n + 1][..n] == records[..n];
      var offset := rec.address - base;
      if offset + |rec.data| > imageLen {
        assert rec in records;
        return Err(SliceOutOfRange);
      }
      CopySlice(data, offset, rec.data);
    }
    assert records[..|records|] == records;
    r := Ok(data[..]);
  }

  method CopySlice(data: array<byte>, offset: nat, source: seq<byte>)
    requires offset + |source| <= data.Length
    modifies data
    ensures forall i :: 0 <= i < data.Length ==>
      data[i] == if offset <= i < offset + |source| then source[i - offset] else old(data[i])
  {
    for k := 0 to |source|
      invariant forall i :: 0 <= i < data.Length ==>
        data[i] == if offset <= i < offset + k then source[i - offset] else old(data[i])
    {
      data[offset + k] := source[k];
    }
  }

  method WrappingSum16(bytes: seq<byte>) returns (sum: nat)
    ensures sum == Sum16(bytes)
  {
    sum := 0;
    for k := 0 to |bytes|
      invariant sum == Sum16(bytes[..k])
    {
      assert bytes[..k + 1][..k] == bytes[..k];
      sum := (sum + bytes[k]) % 0x10000;
    }
    assert bytes[..|bytes|] == bytes;
  }

  // ---- Limits ----

  /** The checksum really is the plain sum, reduced once. */
  lemma {:induction false} Sum16IsTheSum(bytes: seq<byte>)
    ensures Sum16(bytes) == PlainSum(bytes) % 0x10000
  {
    if bytes != [] {
      Sum16IsTheSum(bytes[..|bytes| - 1]);
    }
  }

  function PlainSum(bytes: seq<byte>): nat {
    if bytes == [] then 0 else PlainSum(bytes[..|bytes| - 1]) + bytes[|bytes| - 1]
  }

  lemma {:induction false} HexLength(hex: string)
    requires |hex| % 2 == 0 && HexBytes(hex).Some?
    ensures 2 * |HexBytes(hex).value| == |hex|
    decreases |hex|
  {
    if hex != "" {
      HexLength(hex[..|hex| - 2]);
    }
  }

  /** The line that aborts: eight characters, three bytes, a good sum. An address byte or the checksum is missing from it. */
  lemma ThreeByteLineAborts(line: string)
    ensures ReadLine(line) == Bad(SliceOutOfRange) <==>
      |line| == 8 && line[0] == 'S' && line[1] == '1' && HexBytes(line[2..]).Some? && Sum8(HexBytes(line[2..]).value) == 0xFF
  {
    hide Sum8, HexBytes;
    if |line| >= 2 && |line| % 2 == 0 && HexBytes(line[2..]).Some? {
      HexLength(line[2..]);
    }
  }

  /** A record without data has four bytes, and is accepted. */
  lemma NoDataIsAccepted(line: string)
    requires |line| == 10 && line[0] == 'S' && line[1] == '1' && HexBytes(line[2..]).Some? && Sum8(HexBytes(line[2..]).value) == 0xFF
    ensures |HexBytes(line[2..]).value| == 4 && ReadLine(line) == Data(Record(Address(HexBytes(line[2..]).value), []))
  {
    hide Sum8, HexBytes;
    HexLength(line[2..]);
  }
}
