/** Splitting what the hub sends into messages, however it arrives. */
module FrameReader {
  import opened Bytes
  import opened Cobs

  /** Position of the first delimiter, or the length when there is none. */
  function Cut(s: seq<byte>): (n: nat)
    ensures n <= |s| && (forall k :: 0 <= k < n ==> s[k] != DELIMITER) && (n < |s| ==> s[n] == DELIMITER)
  {
    if s == [] || s[0] == DELIMITER then 0 else 1 + Cut(s[1..])
  }

  /** The complete frames of a stream, without their delimiters. */
  function Frames(stream: seq<byte>): seq<seq<byte>>
    decreases |stream|
  {
    var n := Cut(stream);
    if n == |stream| then [] else [stream[..n]] + Frames(stream[n + 1..])
  }

  /** What is left behind the last complete frame. */
  function Partial(stream: seq<byte>): seq<byte>
    decreases |stream|
  {
    var n := Cut(stream);
    if n == |stream| then stream else Partial(stream[n + 1..])
  }

  /** What a reader comes to: a wanted message, the end of what arrives, or a frame on which decoding panics. */
  datatype Reply = Found(body: seq<byte>) | TimedOut | Panicked

  /** The first frame that unpacks to a wanted message, unless the decoding of an earlier one panics. */
  function FirstWanted(frames: seq<seq<byte>>, wanted: seq<byte> -> bool): Reply {
    if frames == [] then TimedOut
    else
      var body := Unpacking(frames[0]);
      if body.Aborted? then Panicked
      else if body.Ok? && wanted(body.value) then Found(body.value)
      else FirstWanted(frames[1..], wanted)
  }

  /** The frames behind the first one that ends the reading. */
  function Behind(frames: seq<seq<byte>>, wanted: seq<byte> -> bool): seq<seq<byte>> {
    if frames == [] then []
    else
      var body := Unpacking(frames[0]);
      if body.Aborted? || (body.Ok? && wanted(body.value)) then frames[1..] else Behind(frames[1..], wanted)
  }

  lemma CutIs(s: seq<byte>, n: nat)
    requires n <= |s| && (forall k :: 0 <= k < n ==> s[k] != DELIMITER) && (n < |s| ==> s[n] == DELIMITER)
    ensures Cut(s) == n
  {
    var m := Cut(s);
    assert !(m < n);
    assert !(n < m);
  }

  /** The frame at the front. */
  lemma FirstFrame(s: seq<byte>, n: nat)
    requires n < |s| && s[n] == DELIMITER && forall k :: 0 <= k < n ==> s[k] != DELIMITER
    ensures Frames(s) == [s[..n]] + Frames(s[n + 1..]) && Partial(s) == Partial(s[n + 1..])
  {
    CutIs(s, n);
  }

  /** Reading on: the frames of a longer stream are those already complete and those that the rest completes. */
  lemma {:induction false} FramesAppend(a: seq<byte>, b: seq<byte>)
    ensures Frames(a + b) == Frames(a) + Frames(Partial(a) + b)
    ensures Partial(a + b) == Partial(Partial(a) + b)
    decreases |a|
  {
    hide Frames, Partial, Cut;
    var n := Cut(a);
    if n < |a| {
      var rest := a[n + 1..];
      FirstFrame(a, n);
      FirstFrame(a + b, n);
      assert (a + b)[..n] == a[..n] && (a + b)[n + 1..] == rest + b;
      FramesAppend(rest, b);
      assert [a[..n]] + (Frames(rest) + Frames(Partial(rest) + b)) == [a[..n]] + Frames(rest) + Frames(Partial(rest) + b);
    } else {
      NoFrame(a);
      assert [] + Frames(a + b) == Frames(a + b);
    }
  }

  lemma NoFrame(s: seq<byte>)
    requires forall k :: 0 <= k < |s| ==> s[k] != DELIMITER
    ensures Frames(s) == [] && Partial(s) == s
  {
    CutIs(s, |s|);
  }

  /**
   * Reads arrivals until a wanted message is complete, dropping every other message and every frame that is too short. `TimedOut`
   * is the timeout after the last arrival. The result does not depend on how the stream is cut into arrivals.
   * `used` arrivals are read; what stands behind the wanted frame in the last of them, `lost`, goes away with the buffer.
   */
  method ReadUntil(arrivals: seq<seq<byte>>, wanted: seq<byte> -> bool) returns (r: Reply, used: nat, ghost lost: seq<byte>)
    ensures r == FirstWanted(Frames(Flatten(arrivals)), wanted)
    ensures used <= |arrivals|
    ensures r.Found? ==> Behind(Frames(Flatten(arrivals)), wanted) == Frames(lost + Flatten(arrivals[used..]))
    ensures r.Found? ==> lost == [] || (used > 0 && |lost| <= |arrivals[used - 1]| && lost == arrivals[used - 1][|arrivals[used - 1]| - |lost|..])
  {
    hide Unpacking, Frames, Flatten, FirstWanted, Behind;
    ghost var all := Frames(Flatten(arrivals));
    var frameBuf: seq<byte> := [];
    used := 0;
    assert arrivals[0..] == arrivals && [] + Flatten(arrivals) == Flatten(arrivals);
    while true
      invariant used <= |arrivals|
      invariant FirstWanted(all, wanted) == FirstWanted(Frames(frameBuf + Flatten(arrivals[used..])), wanted)
      invariant Behind(all, wanted) == Behind(Frames(frameBuf + Flatten(arrivals[used..])), wanted)
      invariant forall k :: 0 <= k < |frameBuf| && frameBuf[k] == DELIMITER ==> InLast(arrivals, used, frameBuf, k)
      decreases |arrivals| - used
    {
      ghost var before := frameBuf;
      r, frameBuf := PopFrames(frameBuf, wanted, Flatten(arrivals[used..]));
      if !r.TimedOut? {
        lost := frameBuf;
        return;
      }
      if used == |arrivals| {
        NothingArrives(frameBuf, wanted);
        assert arrivals[used..] == [];
        lost := [];
        return;
      }
      assert arrivals[used..][0] == arrivals[used] && arrivals[used..][1..] == arrivals[used + 1..];
      FlattenFirst(arrivals[used..]);
      assert frameBuf + (arrivals[used] + Flatten(arrivals[used + 1..])) == frameBuf + arrivals[used] + Flatten(arrivals[used + 1..]);
      frameBuf := frameBuf + arrivals[used];
      used := used + 1;
    }
  }

  /** From a delimiter on, the buffer is part of the last arrival. */
  ghost predicate InLast(arrivals: seq<seq<byte>>, used: nat, buffer: seq<byte>, k: nat) {
    && 0 < used <= |arrivals| && k <= |buffer| && |buffer| - k <= |arrivals[used - 1]|
    && buffer[k..] == arrivals[used - 1][|arrivals[used - 1]| - (|buffer| - k)..]
  }

  lemma FlattenFirst(parts: seq<seq<byte>>)
    requires parts != []
    ensures Flatten(parts) == parts[0] + Flatten(parts[1..])
  {
  }

  lemma NothingArrives(frameBuf: seq<byte>, wanted: seq<byte> -> bool)
    requires Cut(frameBuf) == |frameBuf|
    ensures FirstWanted(Frames(frameBuf + Flatten([])), wanted) == TimedOut
  {
    hide Unpacking;
    assert frameBuf + [] == frameBuf;
  }

  /** Takes complete frames off the buffer until one ends the reading or none is left. */
  method PopFrames(buffer: seq<byte>, wanted: seq<byte> -> bool, ghost later: seq<byte>) returns (r: Reply, frameBuf: seq<byte>)
    ensures !r.TimedOut? ==> r == FirstWanted(Frames(buffer + later), wanted)
    ensures !r.TimedOut? ==> Behind(Frames(buffer + later), wanted) == Frames(frameBuf + later)
    ensures !r.TimedOut? ==> exists k: nat :: k < |buffer| && buffer[k] == DELIMITER && frameBuf == buffer[k + 1..]
    ensures r.TimedOut? ==> Cut(frameBuf) == |frameBuf|
    ensures r.TimedOut? ==> FirstWanted(Frames(buffer + later), wanted) == FirstWanted(Frames(frameBuf + later), wanted)
    ensures r.TimedOut? ==> Behind(Frames(buffer + later), wanted) == Behind(Frames(frameBuf + later), wanted)
  {
    hide Unpacking, Frames, Cut;
    frameBuf := buffer;
    ghost var gone: nat := 0;
    while Cut(frameBuf) < |frameBuf|
      invariant gone <= |buffer| && frameBuf == buffer[gone..]
      invariant FirstWanted(Frames(buffer + later), wanted) == FirstWanted(Frames(frameBuf + later), wanted)
      invariant Behind(Frames(buffer + later), wanted) == Behind(Frames(frameBuf + later), wanted)
      decreases |frameBuf|
    {
      var pos := Cut(frameBuf);
      var frame := frameBuf[..pos + 1];
      FirstFrame(frameBuf + later, pos);
      assert (frameBuf + later)[..pos] == frame[..|frame| - 1] && (frameBuf + later)[pos + 1..] == frameBuf[pos + 1..] + later;
      assert buffer[gone + pos] == DELIMITER;
      frameBuf := frameBuf[pos + 1..];
      gone := gone + pos + 1;
      assert frameBuf == buffer[gone..];
      var body := Unpack(frame[..|frame| - 1]);
      WantedFirst(frame[..|frame| - 1], Frames(frameBuf + later), wanted);
      if body.Aborted? {
        return Panicked, frameBuf;
      }
      if body.Ok? && wanted(body.value) {
        return Found(body.value), frameBuf;
      }
    }
    r := TimedOut;
  }

  lemma WantedFirst(frame: seq<byte>, frames: seq<seq<byte>>, wanted: seq<byte> -> bool)
    ensures var body := Unpacking(frame);
      FirstWanted([frame] + frames, wanted)
      == if body.Aborted? then Panicked else if body.Ok? && wanted(body.value) then Found(body.value) else FirstWanted(frames, wanted)
    ensures var body := Unpacking(frame);
      Behind([frame] + frames, wanted) == if body.Aborted? || (body.Ok? && wanted(body.value)) then frames else Behind(frames, wanted)
  {
    hide Unpacking;
  }

  // ---- When reading panics ----

  /** The bytes of a frame that are decoded. */
  function Stripped(frame: seq<byte>): seq<byte> {
    if frame == [] then []
    else
      var start := if frame[0] == 1 then 1 else 0;
      var end := if frame[|frame| - 1] == DELIMITER then |frame| - 1 else |frame|;
      if start >= end then [] else XorAll(frame[start..end])
  }

  /** A frame with a code byte below 2. */
  predicate HasLowCode(frame: seq<byte>) {
    IsLow(CodeBytes(Stripped(frame)))
  }

  lemma UnpackingAbortsIff(frame: seq<byte>)
    ensures Unpacking(frame).Aborted? <==> HasLowCode(frame)
  {
    hide CodeBytes, Decoding;
    if frame != [] && Stripped(frame) != [] {
      AbortsIff(Stripped(frame));
    }
    assert CodeBytes([]) == [] by { NoCodes(); }
  }

  lemma NoCodes()
    ensures CodeBytes([]) == []
  {
  }

  predicate IsWanted(frame: seq<byte>, wanted: seq<byte> -> bool) {
    Unpacking(frame).Ok? && wanted(Unpacking(frame).value)
  }

  /** The first frame that is wanted or has a code byte below 2 decides. */
  lemma {:induction false} FirstWantedIs(frames: seq<seq<byte>>, wanted: seq<byte> -> bool)
    ensures FirstWanted(frames, wanted).TimedOut? <==>
      forall k :: 0 <= k < |frames| ==> !IsWanted(frames[k], wanted) && !HasLowCode(frames[k])
    ensures FirstWanted(frames, wanted).Panicked? <==>
      exists i :: 0 <= i < |frames| && HasLowCode(frames[i]) && Passed(frames, wanted, i)
    ensures forall m :: FirstWanted(frames, wanted) == Found(m) <==>
      exists i :: 0 <= i < |frames| && IsWanted(frames[i], wanted) && Unpacking(frames[i]) == Ok(m) && Passed(frames, wanted, i)
    decreases frames
  {
    hide Unpacking, HasLowCode;
    if frames != [] {
      UnpackingAbortsIff(frames[0]);
      var rest := frames[1..];
      FirstWantedIs(rest, wanted);
      forall i | 0 <= i < |rest| ensures Passed(frames, wanted, i + 1) <==>
          !IsWanted(frames[0], wanted) && !HasLowCode(frames[0]) && Passed(rest, wanted, i)
      {
        assert forall k :: 0 <= k < i ==> rest[k] == frames[k + 1];
        assert forall k :: 1 <= k < i + 1 ==> frames[k] == rest[k - 1];
      }
      assert forall i :: 0 <= i < |rest| ==> frames[i + 1] == rest[i];
      assert forall i :: 1 <= i < |frames| ==> frames[i] == rest[i - 1];
      assert Passed(frames, wanted, 0);
    }
  }

  /** Reading goes on past the frames before `i`. */
  ghost predicate Passed(frames: seq<seq<byte>>, wanted: seq<byte> -> bool, i: int) {
    forall k :: 0 <= k < i && k < |frames| ==> !IsWanted(frames[k], wanted) && !HasLowCode(frames[k])
  }

  function PackedAll(messages: seq<seq<byte>>): seq<byte> {
    if messages == [] then [] else Packed(messages[0]) + PackedAll(messages[1..])
  }

  /** Concatenated packed messages split into one frame for each, in order, and each unpacks to its message. */
  lemma {:induction false} SplittingRecovers(messages: seq<seq<byte>>, tail: seq<byte>)
    requires forall i :: 0 <= i < |tail| ==> tail[i] != DELIMITER
    ensures var fs := Frames(PackedAll(messages) + tail);
      |fs| == |messages| && forall i :: 0 <= i < |fs| ==> Unpacking(fs[i]) == Ok(messages[i])
    ensures Partial(PackedAll(messages) + tail) == tail
    decreases messages
  {
    hide Packed, Unpacking, Frames, Partial, Cut;
    if messages == [] {
      assert PackedAll(messages) + tail == tail;
      NoFrame(tail);
    } else {
      var p := Packed(messages[0]);
      var rest := PackedAll(messages[1..]) + tail;
      PackedIsDelimited(messages[0]);
      PackUnpack(messages[0]);
      assert PackedAll(messages) + tail == p + rest;
      FirstFrame(p + rest, |p| - 1);
      assert (p + rest)[..|p| - 1] == p[..|p| - 1] && (p + rest)[|p|..] == rest;
      SplittingRecovers(messages[1..], tail);
    }
  }

  lemma {:induction false} FirstWantedMessage(frames: seq<seq<byte>>, messages: seq<seq<byte>>, wanted: seq<byte> -> bool)
    requires |frames| == |messages| && forall i :: 0 <= i < |frames| ==> Unpacking(frames[i]) == Ok(messages[i])
    ensures match FirstWanted(frames, wanted)
      case Panicked => false
      case TimedOut => forall m <- messages :: !wanted(m)
      case Found(m) => exists i :: 0 <= i < |messages| && messages[i] == m && wanted(m) && forall k :: 0 <= k < i ==> !wanted(messages[k])
    decreases frames
  {
    hide Unpacking;
    if frames != [] && !wanted(messages[0]) {
      FirstWantedMessage(frames[1..], messages[1..], wanted);
      var r := FirstWanted(frames, wanted);
      assert r == FirstWanted(frames[1..], wanted);
      if r.Found? {
        var i :| 0 <= i < |messages[1..]| && messages[1..][i] == r.body && forall k :: 0 <= k < i ==> !wanted(messages[1..][k]);
        assert messages[i + 1] == r.body;
        forall k | 0 <= k < i + 1 ensures !wanted(messages[k]) {
          if k > 0 {
            assert messages[k] == messages[1..][k - 1];
          }
        }
      } else {
        forall m | m in messages ensures !wanted(m) {
          assert m == messages[0] || m in messages[1..];
        }
      }
    }
  }

  /** However the hub's messages arrive, the first wanted one is returned, and decoding never panics. */
  lemma AnyArrivalFindsTheFirstWanted(messages: seq<seq<byte>>, arrivals: seq<seq<byte>>, wanted: seq<byte> -> bool)
    requires Flatten(arrivals) == PackedAll(messages)
    ensures match FirstWanted(Frames(Flatten(arrivals)), wanted)
      case Panicked => false
      case TimedOut => forall m <- messages :: !wanted(m)
      case Found(m) => exists i :: 0 <= i < |messages| && messages[i] == m && wanted(m) && forall k :: 0 <= k < i ==> !wanted(messages[k])
  {
    hide Unpacking, Frames, PackedAll;
    assert PackedAll(messages) + [] == PackedAll(messages);
    SplittingRecovers(messages, []);
    FirstWantedMessage(Frames(PackedAll(messages)), messages, wanted);
  }

  // ---- Two calls over one stream ----

  lemma {:induction false} FrameCount(a: seq<byte>, b: seq<byte>)
    ensures |Frames(a + b)| == |Frames(a)| + |Frames(b)|
    ensures Frames(a) == [] <==> DELIMITER !in a
    decreases |a|
  {
    hide Frames, Partial, Cut;
    FramesAppend(a, b);
    var n := Cut(a);
    if n < |a| {
      FirstFrame(a, n);
      FirstFrame(a + b, n);
      assert (a + b)[n + 1..] == a[n + 1..] + b;
      FrameCount(a[n + 1..], b);
    } else {
      NoFrame(a);
      FrontCounts(a, b);
    }
  }

  /** Bytes without a delimiter only make the first frame longer. */
  lemma FrontCounts(a: seq<byte>, b: seq<byte>)
    requires DELIMITER !in a
    ensures |Frames(a + b)| == |Frames(b)|
    ensures Frames(b) != [] ==> Frames(a + b) == [a + Frames(b)[0]] + Frames(b)[1..]
  {
    hide Frames;
    var n := Cut(b);
    if n < |b| {
      FirstFrame(b, n);
      FirstFrame(a + b, |a| + n);
      assert (a + b)[..|a| + n] == a + b[..n] && (a + b)[|a| + n + 1..] == b[n + 1..];
    } else {
      NoFrame(b);
      NoFrame(a + b);
    }
  }

  /**
   * A second call sees the frames that the stream still holds exactly if nothing was lost with the buffer, or what was lost and what is
   * still to come hold no complete frame at all.
   */
  lemma SecondCallSeesIff(lost: seq<byte>, later: seq<byte>)
    ensures Frames(later) == Frames(lost + later) <==> lost == [] || (DELIMITER !in lost && DELIMITER !in later)
  {
    hide Frames;
    FrameCount(lost, later);
    FrameCount(later, []);
    if lost == [] {
      assert lost + later == later;
    } else if DELIMITER !in lost {
      FrontCounts(lost, later);
      if Frames(later) != [] {
        assert |lost + Frames(later)[0]| > |Frames(later)[0]|;
      }
    }
  }

  /** Two calls in a row, each with a buffer of its own. */
  method ReadTwice(arrivals: seq<seq<byte>>, first: seq<byte> -> bool, second: seq<byte> -> bool)
    returns (r: Reply, s: Reply, ghost lost: seq<byte>, ghost later: seq<byte>)
    ensures r == FirstWanted(Frames(Flatten(arrivals)), first)
    ensures r.Found? ==> s == FirstWanted(Frames(later), second)
    ensures r.Found? ==> Behind(Frames(Flatten(arrivals)), first) == Frames(lost + later)
    ensures r.Found? && lost == [] ==> s == FirstWanted(Behind(Frames(Flatten(arrivals)), first), second)
  {
    hide Frames, Flatten, FirstWanted, Behind;
    var used;
    r, used, lost := ReadUntil(arrivals, first);
    s, later := TimedOut, [];
    if r.Found? {
      later := Flatten(arrivals[used..]);
      var more;
      ghost var rest;
      s, more, rest := ReadUntil(arrivals[used..], second);
      if lost == [] {
        assert lost + later == later;
      }
    }
  }
}
