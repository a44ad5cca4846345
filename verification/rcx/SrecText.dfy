/** Writing S-Records, and reading them back. */
module SrecText {
  import opened Bytes
  import opened Srec

  const CAPITALS: string := "0123456789ABCDEF"
  const SMALL: string := "0123456789abcdef"

  /** A byte as two characters, with capital or small letters. */
  function HexOf(b: byte, small: bool): (r: string)
    ensures |r| == 2
  {
    var digits := if small then SMALL else CAPITALS;
    [digits[b / 16], digits[b % 16]]
  }

  function HexText(bytes: seq<byte>, small: bool): (r: string)
    ensures |r| == 2 * |bytes|
  {
    if bytes == [] then "" else HexText(bytes[..|bytes| - 1], small) + HexOf(bytes[|bytes| - 1], small)
  }

  /** The sixteen digits, in capital and in small letters, have the values zero to fifteen. */
  lemma DigitsAre(v: nat)
    requires v < 16
    ensures HexDigit(CAPITALS[v]) == Some(v) && HexDigit(SMALL[v]) == Some(v)
  {
  }

  /** No other character is a digit. */
  lemma NoOtherDigits(c: char)
    ensures HexDigit(c).Some? ==> c in CAPITALS || c in SMALL
  {
    var d := HexDigit(c);
    if d.Some? {
      if 'a' <= c <= 'f' {
        assert SMALL[d.value] == c;
      } else {
        assert CAPITALS[d.value] == c;
      }
    }
  }

  lemma ByteReads(b: byte, small: bool)
    ensures HexByte(HexOf(b, small)[0], HexOf(b, small)[1]) == Some(b)
  {
    DigitsAre(b / 16);
    DigitsAre(b % 16);
    assert CAPITALS[b / 16] != '+' && SMALL[b / 16] != '+';
  }

  /** A plus sign in front of one digit is read as the digit. */
  lemma SignedByte(v: nat)
    requires v < 16
    ensures HexByte('+', CAPITALS[v]) == Some(v) && HexByte('+', SMALL[v]) == Some(v)
  {
    DigitsAre(v);
  }

  lemma {:induction false} HexReadsBack(bytes: seq<byte>, small: bool)
    ensures HexBytes(HexText(bytes, small)) == Some(bytes)
  {
    hide HexOf, HexByte;
    var hex := HexText(bytes, small);
    if bytes == [] {
      assert hex == "";
    } else {
      var front, last := bytes[..|bytes| - 1], bytes[|bytes| - 1];
      HexReadsBack(front, small);
      ByteReads(last, small);
      assert hex[..|hex| - 2] == HexText(front, small);
      assert hex[|hex| - 2] == HexOf(last, small)[0] && hex[|hex| - 1] == HexOf(last, small)[1];
      assert front + [last] == bytes;
    }
  }

  // ---- Lines ----

  /** The plain sum. */
  function Total(bytes: seq<byte>): nat {
    if bytes == [] then 0 else Total(bytes[..|bytes| - 1]) + bytes[|bytes| - 1]
  }

  lemma {:induction false} Sum8IsTotal(bytes: seq<byte>)
    ensures Sum8(bytes) == Total(bytes) % 256
  {
    if bytes != [] {
      Sum8IsTotal(bytes[..|bytes| - 1]);
    }
  }

  /** A record: how many bytes follow, the address, high byte first, and the data. */
  function RecordBytes(address: nat, data: seq<byte>): seq<byte>
    requires address < 0x10000 && |data| < 253
  {
    [|data| + 3, address / 256, address % 256] + data
  }

  /** The byte that makes the sum of all bytes end in FF. */
  function Check(bytes: seq<byte>): byte {
    255 - Total(bytes) % 256
  }

  function LineOf(kind: char, bytes: seq<byte>, small: bool): string {
    ['S', kind] + HexText(bytes + [Check(bytes)], small)
  }

  lemma CheckCompletes(bytes: seq<byte>)
    ensures Sum8(bytes + [Check(bytes)]) == 0xFF
  {
    var all := bytes + [Check(bytes)];
    assert all[..|bytes|] == bytes;
    Sum8IsTotal(all);
  }

  lemma LineBytes(kind: char, bytes: seq<byte>, small: bool)
    ensures var line := LineOf(kind, bytes, small);
      |line| % 2 == 0 && |line| == 4 + 2 * |bytes| && line[0] == 'S' && line[1] == kind && HexBytes(line[2..]) == Some(bytes + [Check(bytes)])
  {
    HexReadsBack(bytes + [Check(bytes)], small);
    assert LineOf(kind, bytes, small)[2..] == HexText(bytes + [Check(bytes)], small);
  }

  /** A data record that is written is read back: address and data, in capital or small letters. */
  lemma DataReadsBack(address: nat, data: seq<byte>, small: bool)
    requires address < 0x10000 && |data| < 253
    ensures ReadLine(LineOf('1', RecordBytes(address, data), small)) ==
      if address + |data| < 0x10000 then Data(Record(address, data)) else Bad(AddressOverflow)
  {
    hide HexBytes, LineOf, Sum8;
    var bytes := RecordBytes(address, data);
    LineBytes('1', bytes, small);
    CheckCompletes(bytes);
    var all := bytes + [Check(bytes)];
    assert all[3..|all| - 1] == data;
    assert all[1] == address / 256 && all[2] == address % 256;
  }

  /** An end record gives the entry point. */
  lemma EntryReadsBack(address: nat, small: bool)
    requires address < 0x10000
    ensures ReadLine(LineOf('9', RecordBytes(address, []), small)) == Entry(address)
  {
    hide HexBytes, LineOf, Sum8;
    var bytes := RecordBytes(address, []);
    LineBytes('9', bytes, small);
    CheckCompletes(bytes);
    var all := bytes + [Check(bytes)];
    assert all[1] == address / 256 && all[2] == address % 256;
  }

  /** Lines of other kinds are passed over, whatever stands behind the letter; lines without the `S` are refused. */
  lemma OtherLines(kind: char, rest: string)
    ensures ReadLine(['S', kind] + rest).Other? || kind == '1' || kind == '9'
    ensures kind != 'S' ==> ReadLine([kind] + rest) == Bad(NotARecord)
    ensures ReadLine("S") == Bad(NotARecord)
  {
  }

  /** One wrong byte is noticed. */
  lemma WrongByteIsNoticed(kind: char, bytes: seq<byte>, i: nat, b: byte, small: bool)
    requires (kind == '1' || kind == '9') && i < |bytes| && b != bytes[i]
    ensures ReadLine(['S', kind] + HexText(bytes[i := b] + [Check(bytes)], small)) == Bad(BadChecksum)
  {
    hide HexBytes, HexText, Sum8;
    var wrong, right := bytes[i := b] + [Check(bytes)], bytes + [Check(bytes)];
    HexReadsBack(wrong, small);
    assert (['S', kind] + HexText(wrong, small))[2..] == HexText(wrong, small);
    CheckCompletes(bytes);
    Sum8IsTotal(right);
    Sum8IsTotal(wrong);
    assert wrong == right[i := b];
    TotalUpdate(right, i, b);
  }

  lemma {:induction false} TotalUpdate(bytes: seq<byte>, i: nat, b: byte)
    requires i < |bytes|
    ensures Total(bytes[i := b]) == Total(bytes) - bytes[i] + b
    decreases |bytes|
  {
    var k := |bytes| - 1;
    if i == k {
      assert bytes[i := b][..k] == bytes[..k];
    } else {
      assert bytes[i := b][..k] == bytes[..k][i := b];
      TotalUpdate(bytes[..k], i, b);
    }
  }

  // ---- Lines taken together ----

  /** An end record may leave out everything but the address. */
  lemma ShortEntry(line: string, a: byte, b: byte, c: byte)
    requires |line| == 8 && line[0] == 'S' && line[1] == '9' && HexBytes(line[2..]) == Some([a, b, c]) && (a + b + c) % 256 == 0xFF
    ensures ReadLine(line) == Entry(b as int * 256 + c as int)
  {
    hide HexBytes;
    var bytes := [a, b, c];
    assert bytes[..2] == [a, b] && [a, b][..1] == [a] && [a][..0] == [];
    assert Sum8([a]) == a && Sum8([a, b]) == (a + b) % 256;
  }

  /** The byte at an address is that of the last record over it. */
  lemma {:induction false} ByteAtLast(records: seq<Record>, k: nat, address: nat)
    requires k < |records| && records[k].address <= address < records[k].address + |records[k].data|
    requires forall j :: k < j < |records| ==> !(records[j].address <= address < records[j].address + |records[j].data|)
    ensures ByteAt(records, address) == records[k].data[address - records[k].address]
    decreases records
  {
    if k < |records| - 1 {
      ByteAtLast(records[..|records| - 1], k, address);
    }
  }

  /** And zero where there is none. */
  lemma {:induction false} ByteAtNone(records: seq<Record>, address: nat)
    requires forall j :: 0 <= j < |records| ==> !(records[j].address <= address < records[j].address + |records[j].data|)
    ensures ByteAt(records, address) == 0
    decreases records
  {
    if records != [] {
      ByteAtNone(records[..|records| - 1], address);
    }
  }

  /** The entry point is that of the last line that gives one, and zero if none does. */
  lemma {:induction false} EntryPointLast(lines: seq<string>, k: nat, address: nat)
    requires k < |lines| && ReadLine(lines[k]) == Entry(address) && forall j :: k < j < |lines| ==> !ReadLine(lines[j]).Entry?
    ensures EntryPoint(lines) == address
    decreases lines
  {
    hide ReadLine;
    if k < |lines| - 1 {
      EntryPointLast(lines[..|lines| - 1], k, address);
    }
  }

  lemma {:induction false} EntryPointNone(lines: seq<string>)
    requires forall j :: 0 <= j < |lines| ==> !ReadLine(lines[j]).Entry?
    ensures EntryPoint(lines) == 0
    decreases lines
  {
    hide ReadLine;
    if lines != [] {
      EntryPointNone(lines[..|lines| - 1]);
    }
  }

  /** The length of a record is cut down to 16 bits where its end is computed. */
  lemma EndWraps(address: nat, data: seq<byte>, n: nat)
    requires |data| == n * 0x10000 + |data| % 0x10000
    ensures Record(address, data).End() == address + |data| - n * 0x10000
  {
  }

  /** The data records of the lines, in their order and none twice. */
  lemma {:induction false} RecordsJoin(a: seq<string>, b: seq<string>)
    ensures Records(a + b) == Records(a) + Records(b)
    decreases b
  {
    hide ReadLine;
    if b == [] {
      assert a + b == a;
    } else {
      assert (a + b)[..|a + b| - 1] == a + b[..|b| - 1];
      RecordsJoin(a, b[..|b| - 1]);
    }
  }

  lemma OneLineRecords(address: nat, data: seq<byte>, small: bool)
    requires address + |data| < 0x10000 && |data| < 253
    ensures Records([LineOf('1', RecordBytes(address, data), small)]) == [Record(address, data)]
  {
    hide ReadLine, LineOf;
    DataReadsBack(address, data, small);
    assert Records([]) == [];
  }
}
