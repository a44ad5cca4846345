/** The encoder, which appends to a buffer, and the decoder, which moves a cursor. */
module Codec {
  import opened Bytes
  import opened Wire
  import opened WireRoundTrip

  /** The buffer that the encoder appends to. */
  class Buffer {
    var bytes: seq<byte>

    constructor ()
      ensures bytes == []
    {
      bytes := [];
    }

    method Push(b: byte)
      modifies this
      ensures bytes == old(bytes) + [b]
    {
      bytes := bytes + [b];
    }

    method Extend(bs: seq<byte>)
      modifies this
      ensures bytes == old(bytes) + bs
    {
      bytes := bytes + bs;
    }

    method WriteU16(n: nat)
      modifies this
      ensures bytes == old(bytes) + U16(n)
    {
      Extend([High(n), Low(n)]);
    }

    method WriteText(s: Text)
      modifies this
      ensures bytes == old(bytes) + TextBytes(s)
    {
      WriteU16(|s|);
      Extend(s);
      assert bytes == old(bytes) + (U16(|s|) + s);
    }

    method WriteValue(v: Value)
      modifies this
      ensures bytes == old(bytes) + ValueBytes(v)
      decreases v
    {
      hide TextBytes, U16;
      match v {
        case Number(bits) =>
          Push(VAL_NUMBER);
          Extend(bits);
          assert bytes == old(bytes) + ([VAL_NUMBER] + bits);
        case Word(text) =>
          Push(VAL_WORD);
          WriteText(text);
          assert bytes == old(bytes) + ([VAL_WORD] + TextBytes(text));
        case List(items) =>
          Push(VAL_LIST);
          WriteU16(|items|);
          ghost var head := bytes;
          for i := 0 to |items|
            invariant bytes == head + ItemsBytes(items[..i])
          {
            ItemsSnoc(items[..i], items[i]);
            assert items[..i] + [items[i]] == items[..i + 1];
            WriteValue(items[i]);
          }
          assert items[..|items|] == items;
          assert bytes == old(bytes) + ([VAL_LIST] + U16(|items|) + ItemsBytes(items));
      }
    }

    /** The entries come in whatever order the map hands them out. */
    method WriteVars(vars: map<Text, Value>) returns (ghost order: seq<Text>)
      modifies this
      ensures (forall i :: 0 <= i < |order| ==> order[i] in vars) && Enumerates(order, vars)
      ensures bytes == old(bytes) + (U16(|vars|) + EntriesBytes(vars, order))
    {
      hide TextBytes, ValueBytes, U16;
      WriteU16(|vars|);
      ghost var head := bytes;
      order := [];
      var left := vars.Keys;
      while left != {}
        invariant left <= vars.Keys && forall k :: k in vars <==> k in left || k in order
        invariant forall i :: 0 <= i < |order| ==> order[i] in vars && order[i] !in left
        invariant forall i, j :: 0 <= i < j < |order| ==> order[i] != order[j]
        invariant bytes == head + EntriesBytes(vars, order)
        decreases left
      {
        var name :| name in left;
        left := left - {name};
        EntriesSnoc(vars, order, name);
        WriteText(name);
        WriteValue(vars[name]);
        order := order + [name];
      }
    }
  }

  lemma {:induction false} ItemsSnoc(items: seq<Value>, item: Value)
    ensures ItemsBytes(items + [item]) == ItemsBytes(items) + ValueBytes(item)
  {
    hide ValueBytes;
    if items == [] {
      assert [] + [item] == [item];
    } else {
      assert (items + [item])[1..] == items[1..] + [item];
      ItemsSnoc(items[1..], item);
    }
  }

  lemma {:induction false} EntriesSnoc(vars: map<Text, Value>, order: seq<Text>, name: Text)
    requires (forall i :: 0 <= i < |order| ==> order[i] in vars) && name in vars
    ensures EntriesBytes(vars, order + [name]) == EntriesBytes(vars, order) + TextBytes(name) + ValueBytes(vars[name])
  {
    hide ValueBytes, TextBytes;
    if order == [] {
      assert [] + [name] == [name];
    } else {
      assert (order + [name])[1..] == order[1..] + [name];
      EntriesSnoc(vars, order[1..], name);
    }
  }

  /** `data` is the message with its map written in the order given. */
  ghost predicate EncodesInOrder(m: NetMessage, order: seq<Text>, data: seq<byte>) {
    (forall i :: 0 <= i < |order| ==> order[i] in VarsOf(m)) && Enumerates(order, VarsOf(m)) && data == Encoded(m, order)
  }

  /** The bytes of a message are those of some order of its map; and they are read back as the message if its sizes fit. */
  method EncodeBinary(m: NetMessage) returns (data: seq<byte>)
    ensures exists order: seq<Text> :: EncodesInOrder(m, order, data)
    ensures SizedMessage(m) && |data| - 4 < 0x1_0000_0000 ==> Decoded(data).Got? && Decoded(data).value == m
  {
    hide TextBytes, U16, U32, EntriesBytes, Enumerates, Payload, Decoded, SizedMessage;
    var payload;
    ghost var order;
    payload, order := EncodePayload(m);
    var len := |payload.bytes|;
    var buf := new Buffer();
    buf.Extend(U32(len));
    buf.Extend(payload.bytes);
    data := buf.bytes;
    assert EncodesInOrder(m, order, data);
    if |data| - 4 < 0x1_0000_0000 {
      DecodesToItselfIff(m, order);
    }
  }

  method EncodePayload(m: NetMessage) returns (payload: Buffer, ghost order: seq<Text>)
    ensures fresh(payload)
    ensures (forall i :: 0 <= i < |order| ==> order[i] in VarsOf(m)) && Enumerates(order, VarsOf(m))
    ensures payload.bytes == Payload(m, order)
  {
    hide TextBytes, U16, EntriesBytes, Enumerates;
    order := [];
    NothingToEnumerate();
    payload := new Buffer();
    match m {
      case Hello(password, binary) =>
        payload.Push(OP_HELLO);
        var flags: byte := 0;
        if password.Some? {
          flags := flags + 1;
        }
        if binary {
          flags := flags + 2;
        }
        payload.Push(flags);
        assert payload.bytes == [OP_HELLO, Flags(password.Some?, binary)];
        if password.Some? {
          payload.WriteText(password.value);
        }
      case Hi =>
        payload.Push(OP_HI);
      case Sync =>
        payload.Push(OP_SYNC);
      case Snapshot(vars) =>
        payload.Push(OP_SNAPSHOT);
        order := payload.WriteVars(vars);
        assert payload.bytes == [OP_SNAPSHOT] + U16(|vars|) + EntriesBytes(vars, order);
      case Set(vars) =>
        payload.Push(OP_SET);
        order := payload.WriteVars(vars);
        assert payload.bytes == [OP_SET] + U16(|vars|) + EntriesBytes(vars, order);
    }
  }

  lemma NothingToEnumerate()
    ensures Enumerates([], map[])
  {
  }

  // ---- Reading ----

  method ReadValueAt(data: seq<byte>, start: nat) returns (r: Read<Value>)
    ensures r == ReadValue(data, start)
    decreases if start <= |data| then |data| - start else 0
  {
    hide ReadText, ReadU16;
    var pos := start;
    if pos >= |data| {
      return Failed(UnexpectedEnd);
    }
    var tag := data[pos];
    pos := pos + 1;
    if tag == VAL_NUMBER {
      if pos + 8 > |data| {
        return Failed(UnexpectedEnd);
      }
      var bits: Bits := data[pos..pos + 8];
      return Got(Number(bits), pos + 8);
    } else if tag == VAL_WORD {
      var text := ReadText(data, pos);
      return if text.Got? then Got(Word(text.value), text.pos) else Failed(text.error);
    } else if tag == VAL_LIST {
      var count := ReadU16(data, pos);
      if count.Failed? {
        return Failed(count.error);
      }
      pos := count.pos;
      var items: seq<Value> := [];
      while |items| < count.value
        invariant count.pos <= pos <= |data| && |items| <= count.value
        invariant ReadItems(data, count.pos, count.value, []) == ReadItems(data, pos, count.value, items)
        decreases count.value - |items|
      {
        var item := ReadValueAt(data, pos);
        if item.Failed? {
          return Failed(item.error);
        }
        items := items + [item.value];
        pos := item.pos;
      }
      return Got(List(items), pos);
    } else {
      return Failed(UnknownValueType(tag));
    }
  }

  method ReadVarsAt(data: seq<byte>, start: nat) returns (r: Read<map<Text, Value>>)
    ensures r == ReadVars(data, start)
  {
    hide ReadText, ReadU16, ReadValue;
    var count := ReadU16(data, start);
    if count.Failed? {
      return Failed(count.error);
    }
    var pos := count.pos;
    var vars: map<Text, Value> := map[];
    for n := 0 to count.value
      invariant ReadVars(data, start) == ReadEntries(data, pos, count.value - n, vars)
    {
      var name := ReadText(data, pos);
      if name.Failed? {
        return Failed(name.error);
      }
      var value := ReadValueAt(data, name.pos);
      if value.Failed? {
        return Failed(value.error);
      }
      vars := vars[name.value := value.value];
      pos := value.pos;
    }
    r := Got(vars, pos);
  }

  method DecodeBinary(data: seq<byte>) returns (r: Read<NetMessage>)
    ensures r == Decoded(data)
  {
    hide ReadText, ReadVars;
    if |data| == 0 {
      return Failed(EmptyMessage);
    }
    var payload := data;
    if |data| >= 5 {
      var len := Word32(data);
      if 4 + len == |data| {
        payload := data[4..];
      }
    }
    assert payload == Unprefixed(data);
    var opcode := payload[0];
    if opcode == OP_HELLO {
      if |payload| <= 1 {
        return Failed(MissingFlags);
      }
      var flags := payload[1];
      var hasPassword := flags % 2 == 1;
      var binaryProtocol := flags / 2 % 2 == 1;
      if hasPassword {
        var password := ReadText(payload, 2);
        return if password.Got? then Got(Hello(Some(password.value), binaryProtocol), password.pos) else Failed(password.error);
      }
      return Got(Hello(None, binaryProtocol), 2);
    } else if opcode == OP_HI {
      return Got(Hi, 1);
    } else if opcode == OP_SYNC {
      return Got(Sync, 1);
    } else if opcode == OP_SNAPSHOT {
      var vars := ReadVarsAt(payload, 1);
      return if vars.Got? then Got(Snapshot(vars.value), vars.pos) else Failed(vars.error);
    } else if opcode == OP_SET {
      var vars := ReadVarsAt(payload, 1);
      return if vars.Got? then Got(Set(vars.value), vars.pos) else Failed(vars.error);
    }
    r := Failed(UnknownOpcode(opcode));
  }
}
