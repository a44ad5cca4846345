/** Well-formed UTF-8, and the bytes of messages, written out. */
module Utf8 {
  import opened Bytes
  import opened Wire

  // ---- Characters, section 3 of RFC 3629 ----

  /** The numbers of characters: up to 10FFFF, without the surrogates. */
  predicate IsScalar(c: nat) {
    c < 0xD800 || 0xE000 <= c < 0x110000
  }

  function CharBytes(c: nat): (r: seq<byte>)
    requires IsScalar(c)
    ensures r != []
  {
    if c < 0x80 then [c]
    else if c < 0x800 then [0xC0 + c / 64, 0x80 + c % 64]
    else if c < 0x10000 then [0xE0 + c / 4096, 0x80 + c / 64 % 64, 0x80 + c % 64]
    else [0xF0 + c / 262144, 0x80 + c / 4096 % 64, 0x80 + c / 64 % 64, 0x80 + c % 64]
  }

  predicate AllScalar(cs: seq<nat>) {
    forall i :: 0 <= i < |cs| ==> IsScalar(cs[i])
  }

  function TextOf(cs: seq<nat>): seq<byte>
    requires AllScalar(cs)
  {
    if cs == [] then [] else CharBytes(cs[0]) + TextOf(cs[1..])
  }

  lemma CharIsValid(c: nat, rest: seq<byte>)
    requires IsScalar(c) && ValidUtf8(rest)
    ensures ValidUtf8(CharBytes(c) + rest)
  {
    var b := CharBytes(c);
    var s := b + rest;
    assert s[|b|..] == rest && forall i :: 0 <= i < |b| ==> s[i] == b[i];
    Parts(c);
    if c < 0x800 {
    } else if c < 0x10000 {
      ThreeAreValid(s, rest);
    } else {
      FourAreValid(s, rest);
    }
  }

  /** The bits of a number in groups of six. */
  lemma Parts(c: nat)
    requires c < 0x110000
    ensures c / 64 == 64 * (c / 4096) + c / 64 % 64 && c / 4096 == 64 * (c / 262144) + c / 4096 % 64
    ensures c == 64 * (c / 64) + c % 64 && c / 262144 <= 4
  {
    var q, r := c / 64, c % 64;
    var a, b := q / 64, q % 64;
    Quotient(c, 4096, a, 64 * b + r);
    Quotient(c, 262144, a / 64, 4096 * (a % 64) + (64 * b + r));
  }

  lemma Quotient(c: nat, d: nat, q: nat, r: nat)
    requires d > 0 && c == d * q + r && r < d
    ensures c / d == q
  {
    var x := c / d;
    assert d * x <= c < d * x + d;
    assert x + 1 <= q ==> d * (x + 1) <= d * q;
    assert q + 1 <= x ==> d * (q + 1) <= d * x;
  }

  lemma ThreeAreValid(s: seq<byte>, rest: seq<byte>)
    requires |s| >= 3 && 0xE0 <= s[0] <= 0xEF && Continuation(s[1]) && Continuation(s[2]) && s[3..] == rest && ValidUtf8(rest)
    requires (s[0] == 0xE0 ==> s[1] >= 0xA0) && (s[0] == 0xED ==> s[1] <= 0x9F)
    ensures ValidUtf8(s)
  {
  }

  lemma FourAreValid(s: seq<byte>, rest: seq<byte>)
    requires |s| >= 4 && 0xF0 <= s[0] <= 0xF4 && Continuation(s[1]) && Continuation(s[2]) && Continuation(s[3]) && s[4..] == rest && ValidUtf8(rest)
    requires (s[0] == 0xF0 ==> s[1] >= 0x90) && (s[0] == 0xF4 ==> s[1] <= 0x8F)
    ensures ValidUtf8(s)
  {
  }

  lemma {:induction false} TextIsValid(cs: seq<nat>)
    requires AllScalar(cs)
    ensures ValidUtf8(TextOf(cs))
    decreases cs
  {
    hide ValidUtf8, CharBytes;
    if cs == [] {
      NothingIsValid();
    } else {
      TextIsValid(cs[1..]);
      CharIsValid(cs[0], TextOf(cs[1..]));
    }
  }

  lemma NothingIsValid()
    ensures ValidUtf8([])
  {
  }

  /** The character at the front of well-formed text. */
  lemma FirstChar(s: seq<byte>) returns (c: nat, rest: seq<byte>)
    requires s != [] && ValidUtf8(s)
    ensures IsScalar(c) && s == CharBytes(c) + rest && ValidUtf8(rest) && |rest| < |s|
  {
    var a: nat := s[0];
    if a <= 0x7F {
      c, rest := a, s[1..];
      assert s == [a] + rest;
    } else if a <= 0xDF {
      c, rest := TwoBytes(s);
    } else if a <= 0xEF {
      c, rest := ThreeBytes(s);
    } else {
      c, rest := FourBytes(s);
    }
  }

  lemma TwoBytes(s: seq<byte>) returns (c: nat, rest: seq<byte>)
    requires s != [] && 0x80 <= s[0] <= 0xDF && ValidUtf8(s)
    ensures IsScalar(c) && s == CharBytes(c) + rest && ValidUtf8(rest) && |rest| < |s|
  {
    var a: nat, b: nat := s[0], s[1];
    c, rest := (a - 0xC0) * 64 + (b - 0x80), s[2..];
    assert c / 64 == a - 0xC0 && c % 64 == b - 0x80;
    assert s == [a, b] + rest;
  }

  lemma ThreeBytes(s: seq<byte>) returns (c: nat, rest: seq<byte>)
    requires s != [] && 0xE0 <= s[0] <= 0xEF && ValidUtf8(s)
    ensures IsScalar(c) && s == CharBytes(c) + rest && ValidUtf8(rest) && |rest| < |s|
  {
    var a: nat, b: nat, d: nat := s[0], s[1], s[2];
    c, rest := (a - 0xE0) * 4096 + (b - 0x80) * 64 + (d - 0x80), s[3..];
    assert c / 4096 == a - 0xE0 && c / 64 % 64 == b - 0x80 && c % 64 == d - 0x80;
    assert s == [a, b, d] + rest;
  }

  lemma FourBytes(s: seq<byte>) returns (c: nat, rest: seq<byte>)
    requires s != [] && 0xF0 <= s[0] && ValidUtf8(s)
    ensures IsScalar(c) && s == CharBytes(c) + rest && ValidUtf8(rest) && |rest| < |s|
  {
    var a: nat, b: nat, d: nat, e: nat := s[0], s[1], s[2], s[3];
    rest := s[4..];
    c := Composed(a - 0xF0, b - 0x80, d - 0x80, e - 0x80);
    assert s == [a, b, d, e] + rest;
  }

  lemma Composed(a: nat, b: nat, d: nat, e: nat) returns (c: nat)
    requires a <= 4 && b < 64 && d < 64 && e < 64
    ensures c == a * 262144 + b * 4096 + d * 64 + e
    ensures c / 262144 == a && c / 4096 % 64 == b && c / 64 % 64 == d && c % 64 == e
  {
    c := a * 262144 + b * 4096 + d * 64 + e;
    Quotient(c, 262144, a, b * 4096 + d * 64 + e);
    Quotient(c, 4096, 64 * a + b, d * 64 + e);
    Quotient(c, 64, 64 * (64 * a + b) + d, e);
  }

  lemma {:induction false} CharsOf(s: seq<byte>) returns (cs: seq<nat>)
    requires ValidUtf8(s)
    ensures AllScalar(cs) && TextOf(cs) == s
    decreases |s|
  {
    hide ValidUtf8, CharBytes;
    if s == [] {
      cs := [];
    } else {
      var c, rest := FirstChar(s);
      var more := CharsOf(rest);
      cs := [c] + more;
      assert cs[1..] == more;
    }
  }

  /** Bytes are taken for a string exactly if they are the UTF-8 of some characters. */
  lemma ValidUtf8Iff(s: seq<byte>)
    ensures ValidUtf8(s) <==> exists cs: seq<nat> :: AllScalar(cs) && TextOf(cs) == s
  {
    hide ValidUtf8;
    if ValidUtf8(s) {
      var cs := CharsOf(s);
    }
    forall cs: seq<nat> | AllScalar(cs) && TextOf(cs) == s ensures ValidUtf8(s) {
      TextIsValid(cs);
    }
  }

  // ---- The bytes of messages ----

  /** Texts and values: a tag, then eight bytes, or a length of two bytes, high byte first, and what it counts. */
  lemma ValueBytesAre(bits: Bits, text: Text, item: Value)
    requires |text| < 0x10000
    ensures ValueBytes(Number(bits)) == [1] + bits
    ensures ValueBytes(Word(text)) == [2, |text| / 256, |text| % 256] + text
    ensures ValueBytes(List([item])) == [3, 0, 1] + ValueBytes(item) && ValueBytes(List([])) == [3, 0, 0]
  {
    hide ValidUtf8;
    assert [item][1..] == [] && ItemsBytes([]) == [];
    assert ItemsBytes([item]) == ValueBytes(item) + [];
    assert U16(1) == [0, 1] && U16(0) == [0, 0];
    var n := |text|;
    assert U16(n) == [n / 256, n % 256];
    assert [2] + (U16(n) + text) == [2, n / 256, n % 256] + text;
  }

  /** Whole messages: a length of four bytes, high byte first, an opcode, and what belongs to it. */
  lemma GreetingBytes(password: Text)
    requires |password| < 250
    ensures Encoded(Hi, []) == [0, 0, 0, 1, 2] && Encoded(Sync, []) == [0, 0, 0, 1, 3]
    ensures Encoded(Hello(None, false), []) == [0, 0, 0, 2, 1, 0] && Encoded(Hello(None, true), []) == [0, 0, 0, 2, 1, 2]
    ensures Payload(Hello(Some(password), false), []) == [1, 1, 0, |password|] + password
    ensures Payload(Hello(Some(password), true), []) == [1, 3, 0, |password|] + password
  {
    hide ValidUtf8, ValueBytes;
    assert U32(1) == [0, 0, 0, 1] && U32(2) == [0, 0, 0, 2];
    assert TextBytes(password) == [0, |password|] + password;
    assert [1, 1] + ([0, |password|] + password) == [1, 1, 0, |password|] + password;
    assert [1, 3] + ([0, |password|] + password) == [1, 3, 0, |password|] + password;
  }

  lemma VariableBytes(x: Text, v: Value)
    requires |x| < 250
    ensures Payload(Snapshot(map[x := v]), [x]) == [4, 0, 1, 0, |x|] + x + ValueBytes(v)
    ensures Payload(Set(map[x := v]), [x]) == [5, 0, 1, 0, |x|] + x + ValueBytes(v)
    ensures Payload(Set(map[]), []) == [5, 0, 0] && Payload(Snapshot(map[]), []) == [4, 0, 0]
  {
    hide ValidUtf8, ValueBytes;
    assert U16(1) == [0, 1] && U16(0) == [0, 0];
    var m := map[x := v];
    assert |m| == 1 by { assert m.Keys == {x}; }
    OneEntry(x, v);
  }

  lemma OneEntry(x: Text, v: Value)
    requires |x| < 250
    ensures EntriesBytes(map[x := v], [x]) == [0, |x|] + x + ValueBytes(v)
  {
    hide ValidUtf8, ValueBytes;
    var m := map[x := v];
    assert TextBytes(x) == [0, |x|] + x;
    assert [x][1..] == [] && EntriesBytes(m, []) == [];
    assert EntriesBytes(m, [x]) == TextBytes(x) + ValueBytes(v) + [];
  }

  /** A length in front is four bytes, the highest first. */
  lemma LengthBytes(m: NetMessage, order: seq<Text>)
    requires (forall i :: 0 <= i < |order| ==> order[i] in VarsOf(m)) && |Payload(m, order)| < 0x1_0000_0000
    ensures var e, n := Encoded(m, order), |Payload(m, order)|;
      && |e| == 4 + n && e[4..] == Payload(m, order)
      && n == BigEnd(e[0], e[1], e[2], e[3])
  {
    hide Payload;
    var n := |Payload(m, order)|;
    Halves256(n);
  }

  function BigEnd(a: int, b: int, c: int, d: int): int {
    ((a * 256 + b) * 256 + c) * 256 + d
  }

  lemma Halves256(n: nat)
    requires n < 0x1_0000_0000
    ensures BigEnd(n / 0x1000000 % 256, n / 0x10000 % 256, n / 0x100 % 256, n % 256) == n
  {
    var q, r := n / 256, n % 256;
    var a, b := q / 256, q % 256;
    var c, d := a / 256, a % 256;
    Quotient(n, 0x10000, a, 256 * b + r);
    Quotient(n, 0x1000000, c, 0x10000 * d + (256 * b + r));
    assert c < 256;
  }

  /** Of the flags of a greeting only the two lowest bits count: the first says that a password follows, the second is the protocol. */
  lemma FlagsAre(upper: nat, binary: bool, password: Text, rest: seq<byte>)
    requires upper < 64 && |password| < 250 && ValidUtf8(password)
    ensures var flags := 4 * upper + if binary then 2 else 0;
      && ReadPayload([1, flags] + rest) == Got(Hello(None, binary), 2)
      && ReadPayload([1, flags + 1, 0, |password|] + password + rest) == Got(Hello(Some(password), binary), 4 + |password|)
  {
    hide ValidUtf8, ReadPayload;
    var flags := 4 * upper + if binary then 2 else 0;
    LowBits(upper, binary);
    WithoutPassword([1, flags] + rest);
    var data: seq<byte> := [1, flags + 1, 0, |password|] + password + rest;
    assert data[4..4 + |password|] == password;
    WithPassword(data, password);
  }

  lemma LowBits(upper: nat, binary: bool)
    ensures var flags := 4 * upper + if binary then 2 else 0;
      flags % 2 == 0 && flags / 2 % 2 == (flags + 1) / 2 % 2 == if binary then 1 else 0
  {
  }

  lemma WithoutPassword(data: seq<byte>)
    requires |data| >= 2 && data[0] == 1 && data[1] % 2 == 0
    ensures ReadPayload(data) == Got(Hello(None, data[1] / 2 % 2 == 1), 2)
  {
    hide ValidUtf8;
  }

  lemma WithPassword(data: seq<byte>, password: Text)
    requires |data| >= 4 + |password| && data[0] == 1 && data[1] % 2 == 1 && data[2] == 0 && data[3] == |password|
    requires data[4..4 + |password|] == password && ValidUtf8(password)
    ensures ReadPayload(data) == Got(Hello(Some(password), data[1] / 2 % 2 == 1), 4 + |password|)
  {
    hide ValidUtf8;
    assert ReadText(data, 2) == Got(password, 4 + |password|);
  }

  /** What is wrong with bytes that are no message. */
  lemma ErrorsAre(tag: byte, rest: seq<byte>)
    requires rest != []
    ensures Decoded([]) == Failed(EmptyMessage) && Decoded([1]) == Failed(MissingFlags)
    ensures !(1 <= tag <= 5) ==> ReadPayload([tag] + rest) == Failed(UnknownOpcode(tag))
    ensures !(1 <= tag <= 3) ==> ReadValue([tag] + rest, 0) == Failed(UnknownValueType(tag))
    ensures ReadValue([], 0) == Failed(UnexpectedEnd)
    ensures ReadText([0, 1, 0xFF], 0) == Failed(InvalidUtf8) && ReadText([0, 2, 0x41], 0) == Failed(UnexpectedEnd)
  {
    var bad: seq<byte> := [0, 1, 0xFF];
    assert bad[2..3] == [0xFF];
  }
}
