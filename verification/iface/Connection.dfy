/** The receive side of a BrickInterface connection: one buffer, frames taken off its front. */
module Connection {
  import opened Bytes
  import opened BrickFrame

  const REPLY_IR_DONE: byte := 0xA1

  /** Whether the frames before the first reply report that the IR burst is over. */
  function ReportsIrDone(frames: seq<Frame>): bool {
    frames != [] && frames[0].seqNo == 0 && (frames[0].cmd == REPLY_IR_DONE || ReportsIrDone(frames[1..]))
  }

  /** The frames from the first reply on: events, which carry sequence number zero, are passed over. */
  function SkipEvents(frames: seq<Frame>): seq<Frame> {
    if frames != [] && frames[0].seqNo == 0 then SkipEvents(frames[1..]) else frames
  }

  /** The reply is the first frame whose sequence number is not zero. */
  lemma {:induction false} FirstReply(frames: seq<Frame>, k: nat)
    requires k <= |frames| && (forall i :: 0 <= i < k ==> frames[i].seqNo == 0) && (k < |frames| ==> frames[k].seqNo != 0)
    ensures SkipEvents(frames) == frames[k..]
    decreases k
  {
    if k > 0 {
      FirstReply(frames[1..], k - 1);
    }
  }

  /** The end of a burst is noticed exactly if it is among the events in front of the reply. */
  lemma {:induction false} BurstEndIff(frames: seq<Frame>)
    ensures ReportsIrDone(frames) <==>
      exists k :: 0 <= k < |frames| && frames[k].cmd == 0xA1 && forall i :: 0 <= i <= k ==> frames[i].seqNo == 0
    decreases frames
  {
    if frames != [] && frames[0].seqNo == 0 {
      var rest := frames[1..];
      BurstEndIff(rest);
      forall k | 0 <= k < |rest| && rest[k].cmd == 0xA1 && forall i :: 0 <= i <= k ==> rest[i].seqNo == 0
        ensures frames[k + 1].cmd == 0xA1 && forall i :: 0 <= i <= k + 1 ==> frames[i].seqNo == 0
      {
        assert forall i :: 1 <= i <= k + 1 ==> frames[i] == rest[i - 1];
      }
      forall k | 0 < k < |frames| && frames[k].cmd == 0xA1 && forall i :: 0 <= i <= k ==> frames[i].seqNo == 0
        ensures rest[k - 1].cmd == 0xA1 && forall i :: 0 <= i <= k - 1 ==> rest[i].seqNo == 0
      {
        assert forall i :: 0 <= i <= k - 1 ==> rest[i] == frames[i + 1];
      }
    }
  }

  class Conn {
    var seqNo: byte
    var readBuf: seq<byte>
    var irPending: bool

    constructor ()
      ensures seqNo == 1 && readBuf == [] && !irPending
    {
      seqNo, readBuf, irPending := 1, [], false;
    }

    /** The frames of this connection that have not been received yet, when `arrivals` are still to come. */
    ghost function Pending(arrivals: seq<seq<byte>>): seq<Frame>
      reads this
    {
      Drain(readBuf + Flatten(arrivals)).0
    }

    /** Sequence numbers run round without ever being zero, which is reserved for events. */
    method NextSeq() returns (s: byte)
      requires seqNo != 0
      modifies `seqNo
      ensures s == old(seqNo) != 0 && seqNo != 0
      ensures seqNo == if s == 255 then 1 else s + 1
    {
      s := seqNo;
      seqNo := (seqNo + 1) % 256;
      if seqNo == 0 {
        seqNo := 1;
      }
    }

    /**
     * Receives one frame; `used` of the arrivals are read for it. `None` is the timeout behind the last arrival.
     * The frames are those of the whole stream in order, however it is cut into arrivals.
     */
    method RecvFrame(arrivals: seq<seq<byte>>) returns (r: Option<Frame>, used: nat)
      modifies `readBuf
      ensures used <= |arrivals|
      ensures r.None? ==> old(Pending(arrivals)) == [] && used == |arrivals| && Pending([]) == []
      ensures r.Some? ==> old(Pending(arrivals)) == [r.value] + Pending(arrivals[used..])
    {
      hide Drain, Flatten;
      ghost var stream := readBuf + Flatten(arrivals);
      used := 0;
      assert arrivals[0..] == arrivals;
      while true
        invariant used <= |arrivals| && readBuf + Flatten(arrivals[used..]) == stream
        decreases |arrivals| - used
      {
        var parsed := TryParseFrame(readBuf);
        if parsed.Some? {
          var (frame, consumed) := parsed.value;
          ghost var later := Flatten(arrivals[used..]);
          assert (readBuf + later)[consumed..] == readBuf[consumed..] + later;
          DrainsFirst(readBuf, later);
          readBuf := readBuf[consumed..];
          return Some(frame), used;
        }
        if used == |arrivals| {
          FlattenNothing();
          assert arrivals[used..] == [] && readBuf + [] == readBuf;
          DrainsNothing(readBuf);
          return None, used;
        }
        FlattenNext(arrivals, used);
        assert readBuf + (arrivals[used] + Flatten(arrivals[used + 1..])) == readBuf + arrivals[used] + Flatten(arrivals[used + 1..]);
        readBuf := readBuf + arrivals[used];
        used := used + 1;
      }
    }

    /**
     * Receives the reply to a command: the first frame that is no event. An end-of-burst event passed on the
     * way is not lost.
     */
    method RecvReply(arrivals: seq<seq<byte>>) returns (r: Option<Frame>, used: nat)
      modifies `readBuf, `irPending
      ensures used <= |arrivals|
      ensures var rest := SkipEvents(old(Pending(arrivals)));
        && (r.None? <==> rest == [])
        && (r.Some? ==> rest == [r.value] + Pending(arrivals[used..]) && r.value.seqNo != 0)
      ensures irPending == (old(irPending) && !ReportsIrDone(old(Pending(arrivals))))
    {
      hide Drain, Flatten;
      ghost var all := Pending(arrivals);
      used := 0;
      assert arrivals[0..] == arrivals;
      while true
        invariant used <= |arrivals|
        invariant SkipEvents(all) == SkipEvents(Pending(arrivals[used..]))
        invariant (old(irPending) && !ReportsIrDone(all)) == (irPending && !ReportsIrDone(Pending(arrivals[used..])))
        decreases |Pending(arrivals[used..])|
      {
        ghost var before := Pending(arrivals[used..]);
        var frame, more := RecvFrame(arrivals[used..]);
        assert arrivals[used..][more..] == arrivals[used + more..];
        used := used + more;
        if frame.None? {
          return None, used;
        }
        assert before[1..] == Pending(arrivals[used..]);
        if frame.value.seqNo == 0 {
          if frame.value.cmd == REPLY_IR_DONE {
            irPending := false;
          }
          continue;
        }
        return frame, used;
      }
    }
  }

  lemma FlattenNothing()
    ensures Flatten<byte>([]) == []
  {
  }

  lemma FlattenNext(arrivals: seq<seq<byte>>, used: nat)
    requires used < |arrivals|
    ensures Flatten(arrivals[used..]) == arrivals[used] + Flatten(arrivals[used + 1..])
  {
    assert arrivals[used..][1..] == arrivals[used + 1..];
  }

  lemma DrainsFirst(buf: seq<byte>, later: seq<byte>)
    requires ParseFrom(buf, 0).Some?
    ensures var (frame, consumed) := ParseFrom(buf, 0).value;
      consumed <= |buf| && Drain(buf + later).0 == [frame] + Drain((buf + later)[consumed..]).0
  {
    hide ParseFrom;
    ParseWithin(buf, 0);
    ParseIsStable(buf, later, 0);
  }

  lemma DrainsNothing(buf: seq<byte>)
    requires ParseFrom(buf, 0).None?
    ensures Drain(buf).0 == []
  {
  }
}
