/** BrickInterface framing: start byte, length, sequence number, command, payload, XOR checksum. */
module BrickFrame {
  import opened Bytes

  const SOF: byte := 0xAA
  const MAX_LEN: nat := 42

  datatype Frame = Frame(seqNo: byte, cmd: byte, payload: seq<byte>)

  function Xor(a: byte, b: byte): byte {
    ((a as bv8) ^ (b as bv8)) as int
  }

  function XorFold(acc: byte, bs: seq<byte>): byte {
    if bs == [] then acc else Xor(XorFold(acc, bs[..|bs| - 1]), bs[|bs| - 1])
  }

  lemma XorZero(b: byte)
    ensures Xor(0, b) == b
  {
  }

  // ---- Building ----

  /** The frame without start byte and checksum. */
  function Body(f: Frame): seq<byte> {
    [Low(2 + |f.payload|), f.seqNo, f.cmd] + f.payload
  }

  function Built(f: Frame): seq<byte> {
    [SOF] + Body(f) + [XorFold(0, Body(f))]
  }

  method BuildFrame(seqNo: byte, cmd: byte, payload: seq<byte>) returns (frame: seq<byte>)
    ensures frame == Built(Frame(seqNo, cmd, payload))
  {
    hide Xor;
    var len := Low(2 + |payload|);
    var chk := Xor(Xor(len, seqNo), cmd);
    ghost var head: seq<byte> := [len, seqNo, cmd];
    HeadXor(len, seqNo, cmd);
    for i := 0 to |payload|
      invariant chk == XorFold(0, head + payload[..i])
    {
      assert (head + payload[..i + 1])[..|head| + i] == head + payload[..i];
      chk := Xor(chk, payload[i]);
    }
    assert head + payload[..|payload|] == head + payload;
    frame := [SOF, len, seqNo, cmd] + payload + [chk];
  }

  lemma HeadXor(a: byte, b: byte, c: byte)
    ensures XorFold(0, [a, b, c] + []) == Xor(Xor(a, b), c)
  {
    hide Xor;
    XorZero(a);
    var abc: seq<byte>, ab: seq<byte>, one: seq<byte> := [a, b, c], [a, b], [a];
    assert abc + [] == abc;
    assert abc[..2] == ab && ab[..1] == one && one[..0] == [];
    assert XorFold(0, one) == a;
    assert XorFold(0, ab) == Xor(a, b);
  }

  /** Every byte of a frame: AA, the length of what follows up to the checksum, sequence number, command, payload, checksum. */
  lemma FrameBytes(f: Frame)
    requires |f.payload| <= MAX_LEN - 2
    ensures var b, n := Built(f), |f.payload|;
      && |b| == n + 5 && b[0] == 0xAA && b[1] == n + 2 && b[2] == f.seqNo && b[3] == f.cmd && b[4..4 + n] == f.payload
      && b[4 + n] == XorFold(0, b[1..4 + n])
  {
    hide XorFold;
    var b := Built(f);
    assert b[1..4 + |f.payload|] == Body(f);
  }

  /** The checksum is the exclusive or, bit by bit: two frames from the protocol's description. */
  lemma FrameExamples()
    ensures Built(Frame(0x5A, 0x01, [])) == [0xAA, 0x02, 0x5A, 0x01, 0x59]
    ensures Built(Frame(0x10, 0x10, [0xFF, 0x00, 0xFF, 0x00, 0x00, 0x00]))
         == [0xAA, 0x08, 0x10, 0x10, 0xFF, 0x00, 0xFF, 0x00, 0x00, 0x00, 0x08]
  {
    hide XorFold, Xor;
    var a: seq<byte>, b: seq<byte> := [0x02, 0x5A, 0x01], [0x08, 0x10, 0x10, 0xFF, 0x00, 0xFF, 0x00, 0x00, 0x00];
    XorTable();
    XorOf(a);
    assert Body(Frame(0x5A, 0x01, [])) == a;
    XorOf(b[..3]);
    XorNext(b, 3);
    XorNext(b, 4);
    XorNext(b, 5);
    XorNext(b, 6);
    XorNext(b, 7);
    XorNext(b, 8);
    assert b[..9] == b;
    assert Body(Frame(0x10, 0x10, [0xFF, 0x00, 0xFF, 0x00, 0x00, 0x00])) == b;
  }

  lemma XorNext(s: seq<byte>, n: nat)
    requires n < |s|
    ensures XorFold(0, s[..n + 1]) == Xor(XorFold(0, s[..n]), s[n])
  {
    hide Xor;
    assert s[..n + 1][..n] == s[..n];
  }

  lemma XorOf(s: seq<byte>)
    requires |s| == 3
    ensures XorFold(0, s) == Xor(Xor(s[0], s[1]), s[2])
  {
    hide Xor;
    HeadXor(s[0], s[1], s[2]);
    var t: seq<byte> := [s[0], s[1], s[2]];
    assert t + [] == t && t == s;
  }

  lemma XorTable()
    ensures Xor(0x02, 0x5A) == 0x58 && Xor(0x58, 0x01) == 0x59 && Xor(0x08, 0x10) == 0x18 && Xor(0x18, 0x10) == 0x08
    ensures Xor(0x08, 0xFF) == 0xF7 && Xor(0xF7, 0x00) == 0xF7 && Xor(0xF7, 0xFF) == 0x08 && Xor(0x08, 0x00) == 0x08
  {
  }

  // ---- Parsing ----

  /** The first complete valid frame from `i` on, and the position behind it. */
  function ParseFrom(buf: seq<byte>, i: nat): Option<(Frame, nat)>
    requires i <= |buf|
    decreases |buf| - i
  {
    if i == |buf| then None
    else if buf[i] != SOF then ParseFrom(buf, i + 1)
    else if |buf| < i + 3 then None
    else
      var len := buf[i + 1];
      if len < 2 || len > MAX_LEN then ParseFrom(buf, i + 1)
      else if |buf| < i + 3 + len then None
      else if XorFold(0, buf[i + 1..i + 2 + len]) != buf[i + 2 + len] then ParseFrom(buf, i + 1)
      else Some((Frame(buf[i + 2], buf[i + 3], buf[i + 4..i + 2 + len]), i + 3 + len))
  }

  method TryParseFrame(buf: seq<byte>) returns (r: Option<(Frame, nat)>)
    ensures r == ParseFrom(buf, 0)
    ensures r.Some? ==> 0 < r.value.1 <= |buf|
  {
    hide Xor;
    var i := 0;
    while i < |buf|
      invariant i <= |buf| && ParseFrom(buf, 0) == ParseFrom(buf, i)
    {
      if buf[i] != SOF {
        i := i + 1;
        continue;
      }
      if |buf| < i + 3 {
        return None;
      }
      var len := buf[i + 1];
      if len < 2 || len > MAX_LEN {
        i := i + 1;
        continue;
      }
      var total := i + 3 + len;
      if |buf| < total {
        return None;
      }
      var covered := buf[i + 1..i + 2 + len];
      var chk: byte := 0;
      for k := 0 to |covered|
        invariant chk == XorFold(0, covered[..k])
      {
        assert covered[..k + 1][..k] == covered[..k];
        chk := Xor(chk, covered[k]);
      }
      assert covered[..|covered|] == covered;
      if chk != buf[i + 2 + len] {
        i := i + 1;
        continue;
      }
      return Some((Frame(buf[i + 2], buf[i + 3], buf[i + 4..i + 2 + len]), total));
    }
    r := None;
  }

  lemma {:induction false} ParseWithin(buf: seq<byte>, i: nat)
    requires i <= |buf|
    ensures var r := ParseFrom(buf, i); r.Some? ==> i < r.value.1 <= |buf| && |r.value.0.payload| <= MAX_LEN - 2
    decreases |buf| - i
  {
    hide XorFold;
    if i < |buf| && ParseFrom(buf, i).Some? && ParseFrom(buf, i) == ParseFrom(buf, i + 1) {
      ParseWithin(buf, i + 1);
    }
  }

  /** A frame that has been found stays found, whatever arrives after it. */
  lemma {:induction false} ParseIsStable(buf: seq<byte>, more: seq<byte>, i: nat)
    requires i <= |buf| && ParseFrom(buf, i).Some?
    ensures ParseFrom(buf + more, i) == ParseFrom(buf, i)
    decreases |buf| - i
  {
    hide XorFold;
    var whole := buf + more;
    assert whole[i] == buf[i];
    if buf[i] != SOF {
      ParseIsStable(buf, more, i + 1);
    } else {
      var len := buf[i + 1];
      assert whole[i + 1] == buf[i + 1];
      if len < 2 || len > MAX_LEN {
        ParseIsStable(buf, more, i + 1);
      } else {
        assert whole[i + 1..i + 2 + len] == buf[i + 1..i + 2 + len];
        assert whole[i + 4..i + 2 + len] == buf[i + 4..i + 2 + len];
        if XorFold(0, buf[i + 1..i + 2 + len]) != buf[i + 2 + len] {
          ParseIsStable(buf, more, i + 1);
        }
      }
    }
  }

  // ---- Streams ----

  /** All frames that can be taken off the front of a stream, and what is left. */
  function Drain(buf: seq<byte>): (seq<Frame>, seq<byte>)
    decreases |buf|
  {
    ParseWithin(buf, 0);
    match ParseFrom(buf, 0)
    case None => ([], buf)
    case Some((frame, consumed)) =>
      var (frames, rest) := Drain(buf[consumed..]);
      ([frame] + frames, rest)
  }

  /** What later bytes add does not depend on what was drained before they arrived. */
  lemma {:induction false} DrainAppend(buf: seq<byte>, more: seq<byte>)
    ensures var (frames, rest) := Drain(buf);
      var (laterFrames, laterRest) := Drain(rest + more);
      Drain(buf + more) == (frames + laterFrames, laterRest)
    decreases |buf|
  {
    hide ParseFrom;
    ParseWithin(buf, 0);
    var r := ParseFrom(buf, 0);
    if r.None? {
      assert [] + Drain(buf + more).0 == Drain(buf + more).0;
    } else {
      ParseIsStable(buf, more, 0);
      var consumed := r.value.1;
      assert (buf + more)[consumed..] == buf[consumed..] + more;
      DrainAppend(buf[consumed..], more);
      var (frames, rest) := Drain(buf[consumed..]);
      assert [r.value.0] + (frames + Drain(rest + more).0) == ([r.value.0] + frames) + Drain(rest + more).0;
    }
  }

  // ---- Frames that were built ----

  lemma ParsesBuilt(f: Frame, tail: seq<byte>)
    requires |f.payload| <= MAX_LEN - 2
    ensures ParseFrom(Built(f) + tail, 0) == Some((f, |Built(f)|))
  {
    hide XorFold;
    var buf := Built(f) + tail;
    var body := Body(f);
    var len := 2 + |f.payload|;
    assert buf[1..2 + len] == body;
    assert buf[4..2 + len] == f.payload;
    assert buf[2 + len] == XorFold(0, body);
  }

  /** A built frame is read back exactly when its payload fits. */
  lemma BuiltReadsBackIff(f: Frame)
    ensures ParseFrom(Built(f), 0) == Some((f, |Built(f)|)) <==> |f.payload| <= MAX_LEN - 2
  {
    hide ParseFrom, Built;
    if |f.payload| <= MAX_LEN - 2 {
      ParsesBuilt(f, []);
      assert Built(f) + [] == Built(f);
    } else {
      ParseWithin(Built(f), 0);
    }
  }

  function BuiltAll(frames: seq<Frame>): seq<byte> {
    if frames == [] then [] else Built(frames[0]) + BuiltAll(frames[1..])
  }

  /** A stream of built frames drains to exactly those frames, and nothing is left. */
  lemma {:induction false} DrainsBuilt(frames: seq<Frame>)
    requires forall f <- frames :: |f.payload| <= MAX_LEN - 2
    ensures Drain(BuiltAll(frames)) == (frames, [])
    decreases frames
  {
    hide ParseFrom, Built;
    if frames == [] {
      NothingToParse();
    } else {
      var rest := BuiltAll(frames[1..]);
      ParsesBuilt(frames[0], rest);
      assert (Built(frames[0]) + rest)[|Built(frames[0])|..] == rest;
      DrainsBuilt(frames[1..]);
      assert [frames[0]] + frames[1..] == frames;
    }
  }

  lemma NothingToParse()
    ensures ParseFrom([], 0) == None
  {
  }

  // ---- Finding the way back behind junk ----

  /**
   * The parser goes on past position `i`: no start byte there, or a length that cannot be, or a complete candidate with a
   * wrong checksum.
   */
  predicate PassesOver(buf: seq<byte>, i: nat)
    requires i < |buf|
  {
    || buf[i] != SOF
    || (i + 3 <= |buf| && (buf[i + 1] < 2 || buf[i + 1] > MAX_LEN))
    || (i + 3 <= |buf| && i + 3 + buf[i + 1] <= |buf|
          && XorFold(0, buf[i + 1..i + 2 + buf[i + 1]]) != buf[i + 2 + buf[i + 1]])
  }

  lemma {:induction false} PassesTo(buf: seq<byte>, i: nat, n: nat)
    requires i <= n <= |buf| && forall k :: i <= k < n ==> PassesOver(buf, k)
    ensures ParseFrom(buf, i) == ParseFrom(buf, n)
    decreases n - i
  {
    hide XorFold;
    if i < n {
      assert PassesOver(buf, i);
      PassesTo(buf, i + 1, n);
    }
  }

  /** Where the parser does not go on it finds another frame there, or waits. */
  lemma StopsAt(buf: seq<byte>, i: nat)
    requires i < |buf| && !PassesOver(buf, i)
    ensures var r := ParseFrom(buf, i); r.Some? ==> r.value.1 == i + 5 + |r.value.0.payload|
  {
    hide XorFold;
  }

  /**
   * Resynchronising: behind any junk, a built frame is found, at its place, if and only if no start byte of the junk
   * begins a candidate that is complete with a good checksum or that waits for more bytes.
   */
  lemma {:induction false} FoundBehindJunkIff(junk: seq<byte>, f: Frame, tail: seq<byte>)
    requires |f.payload| <= MAX_LEN - 2
    ensures var buf := junk + Built(f) + tail;
      ParseFrom(buf, 0) == Some((f, |junk| + |Built(f)|)) <==> forall i :: 0 <= i < |junk| ==> PassesOver(buf, i)
  {
    hide ParseFrom, PassesOver;
    var buf := junk + (Built(f) + tail);
    assert junk + Built(f) + tail == buf;
    ParsesBuilt(f, tail);
    ShiftedParse(junk, Built(f) + tail, 0);
    assert |Built(f)| == 5 + |f.payload|;
    if forall i :: 0 <= i < |junk| ==> PassesOver(buf, i) {
      PassesTo(buf, 0, |junk|);
    } else {
      var n := FirstStop(buf, |junk|);
      PassesTo(buf, 0, n);
      StopsAt(buf, n);
    }
  }

  lemma {:induction false} FirstStop(buf: seq<byte>, n: nat) returns (first: nat)
    requires n <= |buf| && exists i :: 0 <= i < n && !PassesOver(buf, i)
    ensures first < n && !PassesOver(buf, first) && forall k :: 0 <= k < first ==> PassesOver(buf, k)
  {
    hide PassesOver;
    first := 0;
    while PassesOver(buf, first)
      invariant first < n && forall k :: 0 <= k < first ==> PassesOver(buf, k)
      decreases n - first
    {
      first := first + 1;
      if first == n {
        assert false;
      }
    }
  }

  /** Junk without a start byte is passed over. */
  lemma SkipsJunk(junk: seq<byte>, f: Frame, tail: seq<byte>)
    requires (forall i :: 0 <= i < |junk| ==> junk[i] != SOF) && |f.payload| <= MAX_LEN - 2
    ensures Drain(junk + Built(f) + tail).0 == [f] + Drain(tail).0
  {
    hide Built, XorFold, ParseFrom;
    var buf := junk + Built(f) + tail;
    assert forall i :: 0 <= i < |junk| ==> buf[i] == junk[i];
    FoundBehindJunkIff(junk, f, tail);
    assert buf[|junk| + |Built(f)|..] == tail;
  }

  /** Parsing behind a prefix: the same frame, further on. */
  lemma {:induction false} ShiftedParse(front: seq<byte>, s: seq<byte>, i: nat)
    requires i <= |s|
    ensures match ParseFrom(s, i)
      case None => ParseFrom(front + s, |front| + i) == None
      case Some((f, end)) => ParseFrom(front + s, |front| + i) == Some((f, |front| + end))
    decreases |s| - i
  {
    hide XorFold;
    var buf, j := front + s, |front| + i;
    if i < |s| {
      assert buf[j] == s[i];
      ShiftedParse(front, s, i + 1);
      if s[i] == SOF && |s| >= i + 3 {
        var len := s[i + 1];
        assert buf[j + 1] == len;
        if 2 <= len <= MAX_LEN && |s| >= i + 3 + len {
          assert buf[j + 1..j + 2 + len] == s[i + 1..i + 2 + len];
          assert buf[j + 4..j + 2 + len] == s[i + 4..i + 2 + len];
        }
      }
    }
  }
}
