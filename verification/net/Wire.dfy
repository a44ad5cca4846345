/** The binary message format: what is written and what is read back. */
module Wire {
  import opened Bytes

  // ---- Text ----

  predicate Continuation(b: byte) {
    0x80 <= b <= 0xBF
  }

  /** Well-formed UTF-8, section 4 of RFC 3629. */
  predicate ValidUtf8(s: seq<byte>)
    decreases |s|
  {
    if s == [] then true
    else if s[0] <= 0x7F then ValidUtf8(s[1..])
    else if 0xC2 <= s[0] <= 0xDF then |s| >= 2 && Continuation(s[1]) && ValidUtf8(s[2..])
    else if 0xE0 <= s[0] <= 0xEF then
      && |s| >= 3 && Continuation(s[1]) && Continuation(s[2])
      && (s[0] == 0xE0 ==> s[1] >= 0xA0) && (s[0] == 0xED ==> s[1] <= 0x9F)
      && ValidUtf8(s[3..])
    else
      && 0xF0 <= s[0] <= 0xF4 && |s| >= 4 && Continuation(s[1]) && Continuation(s[2]) && Continuation(s[3])
      && (s[0] == 0xF0 ==> s[1] >= 0x90) && (s[0] == 0xF4 ==> s[1] <= 0x8F)
      && ValidUtf8(s[4..])
  }

  /** A string, as its UTF-8 bytes. */
  type Text = s: seq<byte> | ValidUtf8(s) witness []

  // ---- Messages ----

  /** The eight bytes of a 64-bit floating point number. */
  type Bits = b: seq<byte> | |b| == 8 witness [0, 0, 0, 0, 0, 0, 0, 0]

  datatype Value =
    | Number(bits: Bits)
    | Word(text: Text)
    | List(items: seq<Value>)

  datatype NetMessage =
    | Hello(password: Option<Text>, binaryProtocol: bool)
    | Hi
    | Sync
    | Snapshot(vars: map<Text, Value>)
    | Set(vars: map<Text, Value>)

  const OP_HELLO: byte := 0x01
  const OP_HI: byte := 0x02
  const OP_SYNC: byte := 0x03
  const OP_SNAPSHOT: byte := 0x04
  const OP_SET: byte := 0x05

  const VAL_NUMBER: byte := 0x01
  const VAL_WORD: byte := 0x02
  const VAL_LIST: byte := 0x03

  // ---- Writing ----

  /** A length as 16 bits, big end first; longer lengths are cut down. */
  function U16(n: nat): (r: seq<byte>)
    ensures |r| == 2
  {
    [High(n), Low(n)]
  }

  function U32(n: nat): (r: seq<byte>)
    ensures |r| == 4
  {
    [n / 0x1000000 % 256, n / 0x10000 % 256, n / 0x100 % 256, n % 256]
  }

  function TextBytes(s: Text): seq<byte> {
    U16(|s|) + s
  }

  function ValueBytes(v: Value): (r: seq<byte>)
    ensures |r| > 0
    decreases v, 1
  {
    match v
    case Number(bits) => [VAL_NUMBER] + bits
    case Word(text) => [VAL_WORD] + TextBytes(text)
    case List(items) => [VAL_LIST] + U16(|items|) + ItemsBytes(items)
  }

  function ItemsBytes(items: seq<Value>): seq<byte>
    decreases items, 0
  {
    if items == [] then [] else ValueBytes(items[0]) + ItemsBytes(items[1..])
  }

  /** The entries of a map in the order in which it happens to be enumerated. */
  function EntriesBytes(vars: map<Text, Value>, order: seq<Text>): seq<byte>
    requires forall i :: 0 <= i < |order| ==> order[i] in vars
  {
    if order == [] then [] else TextBytes(order[0]) + ValueBytes(vars[order[0]]) + EntriesBytes(vars, order[1..])
  }

  /** `order` lists every key of the map once. */
  ghost predicate Enumerates(order: seq<Text>, vars: map<Text, Value>) {
    && (forall i :: 0 <= i < |order| ==> order[i] in vars)
    && (forall k :: k in vars ==> k in order)
    && (forall i, j :: 0 <= i < j < |order| ==> order[i] != order[j])
  }

  function VarsOf(m: NetMessage): map<Text, Value> {
    match m
    case Snapshot(vars) => vars
    case Set(vars) => vars
    case _ => map[]
  }

  function Flags(password: bool, binary: bool): byte {
    (if password then 1 else 0) + (if binary then 2 else 0)
  }

  function Payload(m: NetMessage, order: seq<Text>): (r: seq<byte>)
    requires forall i :: 0 <= i < |order| ==> order[i] in VarsOf(m)
    ensures |r| > 0 && r[0] != 0
  {
    var entries := EntriesBytes(VarsOf(m), order);
    match m
    case Hello(password, binary) =>
      [OP_HELLO, Flags(password.Some?, binary)] + if password.Some? then TextBytes(password.value) else []
    case Hi => [OP_HI]
    case Sync => [OP_SYNC]
    case Snapshot(vars) => [OP_SNAPSHOT] + U16(|vars|) + entries
    case Set(vars) => [OP_SET] + U16(|vars|) + entries
  }

  function Encoded(m: NetMessage, order: seq<Text>): seq<byte>
    requires forall i :: 0 <= i < |order| ==> order[i] in VarsOf(m)
  {
    U32(|Payload(m, order)|) + Payload(m, order)
  }

  // ---- Reading ----

  datatype ReadError = EmptyMessage | MissingFlags | UnexpectedEnd | InvalidUtf8 | UnknownValueType(tag: byte) | UnknownOpcode(opcode: byte)

  datatype Read<+T> = Got(value: T, pos: nat) | Failed(error: ReadError) {
    predicate IsFailure() {
      Failed?
    }
    function PropagateFailure<U>(): Read<U>
      requires Failed?
    {
      Failed(error)
    }
    function Extract(): (T, nat)
      requires Got?
    {
      (value, pos)
    }
  }

  function Word16(a: byte, b: byte): nat {
    var high: nat := a;
    256 * high + b
  }

  function ReadU16(data: seq<byte>, pos: nat): (r: Read<nat>)
    ensures r.Got? ==> pos < r.pos <= |data| && r.value < 0x10000
  {
    if pos + 2 > |data| then Failed(UnexpectedEnd) else Got(Word16(data[pos], data[pos + 1]), pos + 2)
  }

  function ReadText(data: seq<byte>, pos: nat): (r: Read<Text>)
    ensures r.Got? ==> pos < r.pos <= |data| && |r.value| < 0x10000
  {
    var (len, p) :- ReadU16(data, pos);
    if p + len > |data| then Failed(UnexpectedEnd)
    else if !ValidUtf8(data[p..p + len]) then Failed(InvalidUtf8)
    else
      var text: Text := data[p..p + len];
      Got(text, p + len)
  }

  function ReadValue(data: seq<byte>, pos: nat): (r: Read<Value>)
    ensures r.Got? ==> pos < r.pos <= |data|
    decreases if pos <= |data| then |data| - pos else 0, 1
  {
    if pos >= |data| then Failed(UnexpectedEnd)
    else if data[pos] == VAL_NUMBER then
      if pos + 9 > |data| then Failed(UnexpectedEnd)
      else
        var bits: Bits := data[pos + 1..pos + 9];
        Got(Number(bits), pos + 9)
    else if data[pos] == VAL_WORD then
      var (text, p) :- ReadText(data, pos + 1);
      Got(Word(text), p)
    else if data[pos] == VAL_LIST then
      var (count, p) :- ReadU16(data, pos + 1);
      var (items, q) :- ReadItems(data, p, count, []);
      Got(List(items), q)
    else Failed(UnknownValueType(data[pos]))
  }

  function ReadItems(data: seq<byte>, pos: nat, count: nat, items: seq<Value>): (r: Read<seq<Value>>)
    requires pos <= |data| && |items| <= count
    ensures r.Got? ==> pos <= r.pos <= |data| && |r.value| == count
    decreases |data| - pos, 2
  {
    if |items| == count then Got(items, pos)
    else
      var (item, p) :- ReadValue(data, pos);
      ReadItems(data, p, count, items + [item])
  }

  /** `left` more entries; a key that comes again replaces the earlier one. */
  function ReadEntries(data: seq<byte>, pos: nat, left: nat, vars: map<Text, Value>): (r: Read<map<Text, Value>>)
    decreases left
  {
    if left == 0 then Got(vars, pos)
    else
      var (name, p) :- ReadText(data, pos);
      var (value, q) :- ReadValue(data, p);
      ReadEntries(data, q, left - 1, vars[name := value])
  }

  function ReadVars(data: seq<byte>, pos: nat): Read<map<Text, Value>> {
    var (count, p) :- ReadU16(data, pos);
    ReadEntries(data, p, count, map[])
  }

  function ReadPayload(payload: seq<byte>): Read<NetMessage>
    requires payload != []
  {
    var opcode := payload[0];
    if opcode == OP_HELLO then
      if |payload| < 2 then Failed(MissingFlags)
      else if payload[1] % 2 == 1 then
        var (password, p) :- ReadText(payload, 2);
        Got(Hello(Some(password), payload[1] / 2 % 2 == 1), p)
      else Got(Hello(None, payload[1] / 2 % 2 == 1), 2)
    else if opcode == OP_HI then Got(Hi, 1)
    else if opcode == OP_SYNC then Got(Sync, 1)
    else if opcode == OP_SNAPSHOT then
      var (vars, p) :- ReadVars(payload, 1);
      Got(Snapshot(vars), p)
    else if opcode == OP_SET then
      var (vars, p) :- ReadVars(payload, 1);
      Got(Set(vars), p)
    else Failed(UnknownOpcode(opcode))
  }

  function Word32(data: seq<byte>): nat
    requires |data| >= 4
  {
    0x10000 * Word16(data[0], data[1]) + Word16(data[2], data[3])
  }

  /** The message without its length, if a length that fits stands in front. */
  function Unprefixed(data: seq<byte>): (r: seq<byte>)
    ensures data != [] ==> r != []
  {
    if |data| >= 5 && 4 + Word32(data) == |data| then data[4..] else data
  }

  function Decoded(data: seq<byte>): Read<NetMessage> {
    if data == [] then Failed(EmptyMessage) else ReadPayload(Unprefixed(data))
  }
}
