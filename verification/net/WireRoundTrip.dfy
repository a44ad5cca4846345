/** Decoding undoes encoding, exactly for the messages whose parts have 16-bit sizes. */
module WireRoundTrip {
  import opened Bytes
  import opened Wire

  // ---- Sizes ----

  predicate Sized(v: Value)
    decreases v
  {
    match v
    case Number(_) => true
    case Word(text) => |text| < 0x10000
    case List(items) => |items| < 0x10000 && forall i :: 0 <= i < |items| ==> Sized(items[i])
  }

  ghost predicate SizedVars(vars: map<Text, Value>) {
    |vars| < 0x10000 && forall k :: k in vars ==> |k| < 0x10000 && Sized(vars[k])
  }

  ghost predicate SizedMessage(m: NetMessage) {
    match m
    case Hello(password, _) => password.Some? ==> |password.value| < 0x10000
    case Hi => true
    case Sync => true
    case Snapshot(vars) => SizedVars(vars)
    case Set(vars) => SizedVars(vars)
  }

  // ---- Bytes in place ----

  ghost predicate At(data: seq<byte>, pos: nat, bytes: seq<byte>) {
    pos + |bytes| <= |data| && data[pos..pos + |bytes|] == bytes
  }

  lemma AtSplit(data: seq<byte>, pos: nat, a: seq<byte>, b: seq<byte>)
    requires At(data, pos, a + b)
    ensures At(data, pos, a) && At(data, pos + |a|, b)
  {
    assert data[pos..pos + |a + b|][..|a|] == data[pos..pos + |a|];
    assert (a + b)[..|a|] == a;
    assert data[pos..pos + |a + b|][|a|..] == data[pos + |a|..pos + |a| + |b|];
    assert (a + b)[|a|..] == b;
  }

  lemma AtByte(data: seq<byte>, pos: nat, b: byte, rest: seq<byte>)
    requires At(data, pos, [b] + rest)
    ensures pos < |data| && data[pos] == b && At(data, pos + 1, rest)
  {
    AtSplit(data, pos, [b], rest);
    assert data[pos..pos + 1][0] == b;
  }

  lemma ReadsU16(data: seq<byte>, pos: nat, n: nat)
    requires At(data, pos, U16(n)) && n < 0x10000
    ensures ReadU16(data, pos) == Got(n, pos + 2)
  {
    assert data[pos] == data[pos..pos + 2][0] && data[pos + 1] == data[pos..pos + 2][1];
  }

  lemma ReadsText(data: seq<byte>, pos: nat, s: Text)
    requires At(data, pos, TextBytes(s)) && |s| < 0x10000
    ensures ReadText(data, pos) == Got(s, pos + |TextBytes(s)|)
  {
    hide ValidUtf8, ReadU16, U16;
    AtSplit(data, pos, U16(|s|), s);
    ReadsU16(data, pos, |s|);
  }

  // ---- Values ----

  lemma {:induction false} ReadsValue(data: seq<byte>, pos: nat, v: Value)
    requires At(data, pos, ValueBytes(v)) && Sized(v)
    ensures ReadValue(data, pos) == Got(v, pos + |ValueBytes(v)|)
    decreases v, 1
  {
    hide ReadText, ReadU16, ReadItems, TextBytes, U16;
    match v
    case Number(bits) => AtByte(data, pos, VAL_NUMBER, bits);
    case Word(text) =>
      AtByte(data, pos, VAL_WORD, TextBytes(text));
      ReadsText(data, pos + 1, text);
    case List(items) =>
      assert [VAL_LIST] + U16(|items|) + ItemsBytes(items) == [VAL_LIST] + (U16(|items|) + ItemsBytes(items));
      AtByte(data, pos, VAL_LIST, U16(|items|) + ItemsBytes(items));
      AtSplit(data, pos + 1, U16(|items|), ItemsBytes(items));
      ReadsU16(data, pos + 1, |items|);
      ReadsItems(data, pos + 3, items, |items|, []);
      assert [] + items == items;
  }

  lemma {:induction false} ReadsItems(data: seq<byte>, pos: nat, items: seq<Value>, count: nat, done: seq<Value>)
    requires At(data, pos, ItemsBytes(items)) && |done| + |items| == count
    requires forall i :: 0 <= i < |items| ==> Sized(items[i])
    ensures ReadItems(data, pos, count, done) == Got(done + items, pos + |ItemsBytes(items)|)
    decreases items, 0
  {
    hide ReadValue, ValueBytes;
    if items == [] {
      assert done + [] == done;
    } else {
      AtSplit(data, pos, ValueBytes(items[0]), ItemsBytes(items[1..]));
      ReadsValue(data, pos, items[0]);
      ReadsItems(data, pos + |ValueBytes(items[0])|, items[1..], count, done + [items[0]]);
      assert done + [items[0]] + items[1..] == done + items;
    }
  }

  // ---- Maps ----

  /** The part of the map that has been read. */
  function Part(vars: map<Text, Value>, order: seq<Text>): map<Text, Value>
    requires forall i :: 0 <= i < |order| ==> order[i] in vars
  {
    map k | k in order :: vars[k]
  }

  lemma {:induction false} ReadsEntries(data: seq<byte>, pos: nat, vars: map<Text, Value>, done: seq<Text>, order: seq<Text>)
    requires forall i :: 0 <= i < |done| ==> done[i] in vars
    requires forall i :: 0 <= i < |order| ==> order[i] in vars
    requires At(data, pos, EntriesBytes(vars, order))
    requires forall k :: k in vars ==> |k| < 0x10000 && Sized(vars[k])
    ensures forall i :: 0 <= i < |done + order| ==> (done + order)[i] in vars
    ensures ReadEntries(data, pos, |order|, Part(vars, done)) == Got(Part(vars, done + order), pos + |EntriesBytes(vars, order)|)
    decreases order
  {
    hide ReadText, ReadValue, ReadEntries, TextBytes, ValueBytes, Sized, Part, At;
    if order == [] {
      assert done + [] == done;
      NoEntries(data, pos, vars, Part(vars, done));
    } else {
      var name, rest := order[0], order[1..];
      var tb, vb := TextBytes(name), ValueBytes(vars[name]);
      AtSplit(data, pos, tb + vb, EntriesBytes(vars, rest));
      AtSplit(data, pos, tb, vb);
      ReadsText(data, pos, name);
      ReadsValue(data, pos + |tb|, vars[name]);
      EntryRead(data, pos, |order|, Part(vars, done), name, pos + |tb|, vars[name], pos + |tb + vb|);
      PartGrows(vars, done, name);
      assert done + [name] + rest == done + order;
      ReadsEntries(data, pos + |tb + vb|, vars, done + [name], rest);
    }
  }

  lemma NoEntries(data: seq<byte>, pos: nat, vars: map<Text, Value>, read: map<Text, Value>)
    ensures ReadEntries(data, pos, 0, read) == Got(read, pos + |EntriesBytes(vars, [])|)
  {
  }

  lemma EntryRead(data: seq<byte>, pos: nat, left: nat, vars: map<Text, Value>, name: Text, p: nat, value: Value, q: nat)
    requires left > 0 && ReadText(data, pos) == Got(name, p) && ReadValue(data, p) == Got(value, q)
    ensures ReadEntries(data, pos, left, vars) == ReadEntries(data, q, left - 1, vars[name := value])
  {
    hide ReadText, ReadValue;
  }

  lemma PartGrows(vars: map<Text, Value>, done: seq<Text>, name: Text)
    requires (forall i :: 0 <= i < |done| ==> done[i] in vars) && name in vars
    ensures Part(vars, done)[name := vars[name]] == Part(vars, done + [name])
  {
  }

  lemma EnumerationSize(vars: map<Text, Value>, order: seq<Text>)
    requires Enumerates(order, vars)
    ensures |order| == |vars|
  {
    DistinctSize(order);
    assert (set k | k in order) == vars.Keys;
  }

  lemma {:induction false} DistinctSize(order: seq<Text>)
    requires forall i, j :: 0 <= i < j < |order| ==> order[i] != order[j]
    ensures |set k | k in order| == |order|
    decreases order
  {
    if order != [] {
      var rest := order[..|order| - 1];
      var last := order[|order| - 1];
      DistinctSize(rest);
      assert (set k | k in order) == (set k | k in rest) + {last};
      assert last !in rest;
    }
  }

  lemma WholePart(vars: map<Text, Value>, order: seq<Text>)
    requires Enumerates(order, vars)
    ensures Part(vars, []) == map[] && Part(vars, order) == vars
  {
  }

  lemma ReadsVars(data: seq<byte>, vars: map<Text, Value>, order: seq<Text>)
    requires Enumerates(order, vars) && SizedVars(vars)
    requires At(data, 1, U16(|vars|) + EntriesBytes(vars, order))
    ensures ReadVars(data, 1) == Got(vars, 3 + |EntriesBytes(vars, order)|)
  {
    hide ReadEntries, ReadU16, U16, Sized, EntriesBytes, At;
    EnumerationSize(vars, order);
    AtSplit(data, 1, U16(|vars|), EntriesBytes(vars, order));
    ReadsU16(data, 1, |vars|);
    ReadsAll(data, 3, vars, order);
  }

  lemma ReadsAll(data: seq<byte>, pos: nat, vars: map<Text, Value>, order: seq<Text>)
    requires Enumerates(order, vars) && SizedVars(vars) && At(data, pos, EntriesBytes(vars, order))
    ensures ReadEntries(data, pos, |order|, map[]) == Got(vars, pos + |EntriesBytes(vars, order)|)
  {
    hide ReadEntries, Sized, EntriesBytes, Part, At;
    ReadsEntries(data, pos, vars, [], order);
    assert [] + order == order;
    WholePart(vars, order);
  }

  // ---- Messages ----

  lemma ReadsPayload(m: NetMessage, order: seq<Text>)
    requires SizedMessage(m) && (forall i :: 0 <= i < |order| ==> order[i] in VarsOf(m)) && Enumerates(order, VarsOf(m))
    ensures ReadPayload(Payload(m, order)).Got? && ReadPayload(Payload(m, order)).value == m
  {
    hide ReadText, ReadVars, TextBytes, U16, EntriesBytes, SizedVars;
    var p := Payload(m, order);
    assert p[0..|p|] == p;
    match m
    case Hello(password, binary) =>
      if password.Some? {
        AtSplit(p, 0, [OP_HELLO, Flags(true, binary)], TextBytes(password.value));
        ReadsText(p, 2, password.value);
      }
    case Hi =>
    case Sync =>
    case Snapshot(vars) => VarsPayload(p, OP_SNAPSHOT, vars, order);
    case Set(vars) => VarsPayload(p, OP_SET, vars, order);
  }

  lemma VarsPayload(p: seq<byte>, opcode: byte, vars: map<Text, Value>, order: seq<Text>)
    requires Enumerates(order, vars) && SizedVars(vars)
    requires p == [opcode] + U16(|vars|) + EntriesBytes(vars, order)
    ensures ReadVars(p, 1).Got? && ReadVars(p, 1).value == vars
  {
    hide ReadVars, U16, EntriesBytes;
    assert p[0..|p|] == p;
    assert p == [opcode] + (U16(|vars|) + EntriesBytes(vars, order));
    AtSplit(p, 0, [opcode], U16(|vars|) + EntriesBytes(vars, order));
    ReadsVars(p, vars, order);
  }

  lemma Prefixed(payload: seq<byte>)
    requires payload != [] && |payload| < 0x1_0000_0000
    ensures Unprefixed(U32(|payload|) + payload) == payload
  {
    var data := U32(|payload|) + payload;
    var n := |payload|;
    assert data[0] == n / 0x1000000 % 256 && data[1] == n / 0x10000 % 256 && data[2] == n / 0x100 % 256 && data[3] == n % 256;
    assert n / 0x10000 == n / 0x1000000 * 256 + n / 0x10000 % 256;
    assert Word16(data[0], data[1]) == n / 0x10000;
    assert n % 0x10000 == n / 0x100 % 256 * 256 + n % 256;
    assert Word16(data[2], data[3]) == n % 0x10000;
    assert Word32(data) == n;
    assert data[4..] == payload;
  }

  /** A payload without its length is not mistaken for one with it, because its opcode is not zero. */
  lemma NotPrefixed(payload: seq<byte>)
    requires payload != [] && payload[0] != 0 && |payload| < 0x1000000
    ensures Unprefixed(payload) == payload
  {
    if |payload| >= 5 {
      assert Word16(payload[0], payload[1]) >= 256;
    }
  }

  // ---- Only sized messages are ever read ----

  lemma {:induction false} ReadValueIsSized(data: seq<byte>, pos: nat)
    ensures ReadValue(data, pos).Got? ==> Sized(ReadValue(data, pos).value)
    decreases if pos <= |data| then |data| - pos else 0, 1
  {
    if pos < |data| && data[pos] == VAL_LIST && ReadU16(data, pos + 1).Got? {
      var count := ReadU16(data, pos + 1);
      ReadItemsAreSized(data, count.pos, count.value, []);
    }
  }

  lemma {:induction false} ReadItemsAreSized(data: seq<byte>, pos: nat, count: nat, items: seq<Value>)
    requires pos <= |data| && |items| <= count && forall i :: 0 <= i < |items| ==> Sized(items[i])
    ensures var r := ReadItems(data, pos, count, items);
      r.Got? ==> forall i :: 0 <= i < |r.value| ==> Sized(r.value[i])
    decreases |data| - pos, 2
  {
    hide Sized;
    if |items| < count {
      ReadValueIsSized(data, pos);
      var item := ReadValue(data, pos);
      if item.Got? {
        ReadItemsAreSized(data, item.pos, count, items + [item.value]);
      }
    }
  }

  lemma {:induction false} ReadEntriesAreSized(data: seq<byte>, pos: nat, left: nat, vars: map<Text, Value>)
    requires forall k :: k in vars ==> |k| < 0x10000 && Sized(vars[k])
    ensures var r := ReadEntries(data, pos, left, vars);
      r.Got? ==> |r.value| <= |vars| + left && forall k :: k in r.value ==> |k| < 0x10000 && Sized(r.value[k])
    decreases left
  {
    hide Sized, ReadText, ReadValue;
    if left > 0 {
      var name := ReadText(data, pos);
      ReadTextIsSized(data, pos);
      if name.Got? {
        ReadValueIsSized(data, name.pos);
        var value := ReadValue(data, name.pos);
        if value.Got? {
          var more := vars[name.value := value.value];
          assert more.Keys == vars.Keys + {name.value};
          ReadEntriesAreSized(data, value.pos, left - 1, more);
        }
      }
    }
  }

  lemma ReadTextIsSized(data: seq<byte>, pos: nat)
    ensures ReadText(data, pos).Got? ==> |ReadText(data, pos).value| < 0x10000
  {
  }

  lemma DecodedIsSized(data: seq<byte>)
    ensures Decoded(data).Got? ==> SizedMessage(Decoded(data).value)
  {
    hide ReadEntries, Sized;
    if data != [] {
      var p := Unprefixed(data);
      var count := ReadU16(p, 1);
      if count.Got? {
        ReadEntriesAreSized(p, count.pos, count.value, map[]);
      }
    }
  }

  // ---- The theorems ----

  /** A message is decoded to itself exactly when its strings, lists and maps have 16-bit sizes. */
  lemma DecodesToItselfIff(m: NetMessage, order: seq<Text>)
    requires (forall i :: 0 <= i < |order| ==> order[i] in VarsOf(m)) && Enumerates(order, VarsOf(m))
    requires |Payload(m, order)| < 0x1_0000_0000
    ensures Decoded(Encoded(m, order)).Got? && Decoded(Encoded(m, order)).value == m <==> SizedMessage(m)
  {
    hide Payload, ReadPayload, SizedMessage, Enumerates;
    Prefixed(Payload(m, order));
    if SizedMessage(m) {
      ReadsPayload(m, order);
    }
    DecodedIsSized(Encoded(m, order));
  }

  /** The length in front may be left out of any message below 16 MiB. */
  lemma DecodesWithoutLength(m: NetMessage, order: seq<Text>)
    requires SizedMessage(m) && (forall i :: 0 <= i < |order| ==> order[i] in VarsOf(m)) && Enumerates(order, VarsOf(m))
    requires |Payload(m, order)| < 0x1000000
    ensures Decoded(Payload(m, order)) == Decoded(Encoded(m, order)) && Decoded(Payload(m, order)).Got?
    ensures Decoded(Payload(m, order)).value == m
  {
    hide ReadPayload, SizedMessage, Enumerates;
    NotPrefixed(Payload(m, order));
    Prefixed(Payload(m, order));
    ReadsPayload(m, order);
  }
}
