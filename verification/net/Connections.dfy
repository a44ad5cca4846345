/** Who gets what: clients stay registered while their queues have room, and every connected client ends up agreeing with the host. */
module Connections {
  import opened Bytes
  import opened Wire
  import opened Replication
  import opened Convergence

  // ---- Being offered a message ----

  /** A registered client whose queue has room gets the message and stays registered; one with 256 messages waiting is dropped. */
  lemma OfferedAt(p: Peer, message: Message)
    ensures var q := Offer(p, message);
      if p.registered && |p.queue| < 256 then q.registered && q.queue == p.queue + [message]
      else !q.registered && q.queue == p.queue
    ensures var q := Offer(p, message);
      && q.vars == p.vars && q.outbox == p.outbox && q.up == p.up && q.down == p.down && q.relay == p.relay
      && q.online == p.online && q.snapshotted == p.snapshotted && q.live == p.live
  {
  }

  /** A local write of the host reaches the queue of every registered client that has room. */
  lemma BroadcastReaches(s: Net, owner: string -> Node, i: nat)
    requires Enabled(s, HostBroadcast, owner) && i < |s.peers|
    ensures var p, q := s.peers[i], Next(s, HostBroadcast, owner).peers[i];
      if p.registered && |p.queue| < 256 then q.registered && q.queue == p.queue + [s.hostOut[0]]
      else !q.registered && q.queue == p.queue
  {
    hide Offer;
    OfferedAt(s.peers[i], s.hostOut[0]);
  }

  /** The changes of a client reach every other registered client that has room, and never itself. */
  lemma RelayReaches(s: Net, owner: string -> Node, j: nat, i: nat)
    requires Enabled(s, HostRelay(j), owner) && i < |s.peers|
    ensures var p, q := s.peers[i], Next(s, HostRelay(j), owner).peers[i];
      if i == j then q == p.(relay := map[])
      else if p.registered && |p.queue| < 256 then q.registered && q.queue == p.queue + [SetOf(s.peers[j].relay)]
      else !q.registered && q.queue == p.queue
  {
    hide Offer;
    OfferedAt(s.peers[i], SetOf(s.peers[j].relay));
  }

  // ---- Staying registered ----

  predicate Connected(s: Net, i: nat) {
    i < |s.peers| && s.peers[i].online
  }

  /** The queue of client `i` is not full. */
  predicate HasRoom(s: Net, i: nat) {
    i < |s.peers| ==> |s.peers[i].queue| < 256
  }

  lemma JoinRegisters(s: Net, owner: string -> Node, i: nat)
    requires Enabled(s, Join(i), owner)
    ensures var p := Next(s, Join(i), owner).peers[i]; p.online && p.registered && p.up == [SyncRequest] && p.down == [] && p.queue == []
  {
  }

  lemma StepStaysRegistered(s: Net, step: Step, owner: string -> Node, i: nat)
    requires Enabled(s, step, owner) && Connected(s, i) && s.peers[i].registered && HasRoom(s, i)
    requires Connected(Next(s, step, owner), i)
    ensures Next(s, step, owner).peers[i].registered
  {
    hide Offer;
    match step
    case HostBroadcast => BroadcastReaches(s, owner, i);
    case HostRelay(j) => RelayReaches(s, owner, j, i);
    case _ =>
  }

  /**
   * From the step with which it joins, a client that does not leave, is not disconnected for want of a snapshot and never has 256
   * messages waiting stays registered.
   */
  lemma {:induction false} StaysRegistered(states: seq<Net>, steps: seq<Step>, owner: string -> Node, j: nat, k: nat, i: nat)
    requires IsRun(states, steps, owner) && j < k <= |steps| && steps[j] == Join(i)
    requires forall m :: j < m <= k ==> Connected(states[m], i) && HasRoom(states[m], i)
    ensures i < |states[k].peers| && states[k].peers[i].registered
    decreases k
  {
    hide Next, Enabled, Initial;
    assert Enabled(states[k - 1], steps[k - 1], owner) && states[k] == Next(states[k - 1], steps[k - 1], owner);
    if k == j + 1 {
      JoinRegisters(states[j], owner, i);
      assert Connected(states[k], i);
    } else {
      StaysRegistered(states, steps, owner, j, k - 1, i);
      assert Connected(states[k], i) && Connected(states[k - 1], i) && HasRoom(states[k - 1], i);
      StepStaysRegistered(states[k - 1], steps[k - 1], owner, i);
    }
  }

  // ---- Getting a snapshot ----

  /** The answer to a request is the host's map, behind everything already sent. */
  lemma RequestIsAnswered(s: Net, owner: string -> Node, i: nat)
    requires Enabled(s, HostReceive(i), owner) && s.peers[i].up[0].SyncRequest?
    ensures var q := Next(s, HostReceive(i), owner).peers[i];
      q.snapshotted && q.down == s.peers[i].down + [SnapshotOf(s.hostVars)] && q.up == s.peers[i].up[1..]
  {
  }

  /** A client that gets its snapshot has every value of it and keeps what the snapshot does not name. */
  lemma SnapshotApplies(s: Net, owner: string -> Node, i: nat, x: string)
    requires Enabled(s, ClientReceive(i), owner) && s.peers[i].down[0].SnapshotOf?
    ensures var p, q := s.peers[i], Next(s, ClientReceive(i), owner).peers[i];
      q.live && Get(q.vars, x) == if x in p.down[0].vars then Some(p.down[0].vars[x]) else Get(p.vars, x)
  {
  }

  /** A connected client has its snapshot on the way or applied, or its request is still to be read. */
  ghost predicate Asked(p: Peer) {
    p.online && !p.snapshotted ==> p.up == [SyncRequest] && !p.live
  }

  ghost predicate AllAsked(s: Net) {
    forall i :: 0 <= i < |s.peers| ==> Asked(s.peers[i])
  }

  lemma StepKeepsAsked(s: Net, step: Step, owner: string -> Node)
    requires AllAsked(s) && Enabled(s, step, owner) && AllSnapshotsOnce(s, owner)
    ensures AllAsked(Next(s, step, owner))
  {
    hide Offer, AllSnapshotsOnce, Changed;
    var t := Next(s, step, owner);
    forall i | 0 <= i < |t.peers| ensures Asked(t.peers[i]) {
      var p := s.peers[i];
      assert Asked(p);
      match step
      case HostBroadcast => OfferedAt(p, s.hostOut[0]);
      case HostRelay(j) => OfferedAt(p, SetOf(s.peers[j].relay));
      case ClientReceive(j) =>
        if j == i {
          NotBeforeAnswer(s, owner, i);
        }
      case _ =>
    }
  }

  /** While the request has not been read, no snapshot is on its way. */
  lemma NotBeforeAnswer(s: Net, owner: string -> Node, i: nat)
    requires AllSnapshotsOnce(s, owner) && i < |s.peers|
    ensures var p := s.peers[i];
      p.up == [SyncRequest] && !p.live && p.down != [] ==> !p.down[0].SnapshotOf?
  {
    assert SnapshotOnce(s, owner, i, "");
  }

  lemma {:induction false} ReachableAsked(states: seq<Net>, steps: seq<Step>, owner: string -> Node, k: nat)
    requires IsRun(states, steps, owner) && k <= |steps|
    ensures AllAsked(states[k])
    decreases k
  {
    hide Next, Enabled, AllAsked, AllSnapshotsOnce, Initial;
    if k == 0 {
      InitialAsked(states[0]);
    } else {
      ReachableAsked(states, steps, owner, k - 1);
      ReachableSnapshots(states, steps, owner, k - 1);
      StepKeepsAsked(states[k - 1], steps[k - 1], owner);
    }
  }

  lemma InitialAsked(s: Net)
    requires Initial(s)
    ensures AllAsked(s)
  {
  }

  /**
   * Convergence without conditions on what the host has noted: wherever a run has got to, once nothing more can be delivered, every
   * client that joined, stayed connected and never had 256 messages waiting agrees with the host on every host variable it does not write.
   */
  lemma ConnectedConverge(states: seq<Net>, steps: seq<Step>, owner: string -> Node, j: nat, k: nat, i: nat, x: string)
    requires IsRun(states, steps, owner) && j < k <= |steps| && steps[j] == Join(i)
    requires forall m :: j < m <= k ==> Connected(states[m], i) && HasRoom(states[m], i)
    requires forall step :: Delivers(step) ==> !Enabled(states[k], step, owner)
    requires owner(x) != Client(i) && x in states[k].hostVars
    ensures i < |states[k].peers| && Get(states[k].peers[i].vars, x) == Get(states[k].hostVars, x)
  {
    hide Enabled, IsRun, AllAsked;
    RunLength(states, steps, owner);
    StaysRegistered(states, steps, owner, j, k, i);
    ReachableAsked(states, steps, owner, k);
    StuckHasAnswer(states[k], owner, i);
    assert Connected(states[k], i);
    Converges(states, steps, owner, k, i, x);
  }

  lemma RunLength(states: seq<Net>, steps: seq<Step>, owner: string -> Node)
    requires IsRun(states, steps, owner)
    ensures |states| == |steps| + 1
  {
  }

  lemma StuckHasAnswer(s: Net, owner: string -> Node, i: nat)
    requires AllAsked(s) && forall step :: Delivers(step) ==> !Enabled(s, step, owner)
    ensures Connected(s, i) ==> s.peers[i].snapshotted
  {
    if Connected(s, i) {
      assert Asked(s.peers[i]);
      assert !Enabled(s, HostReceive(i), owner) && !Enabled(s, HostRelay(i), owner);
    }
  }

  /** A client gives up only if something other than its snapshot comes first. */
  lemma GivesUpIff(s: Net, owner: string -> Node, i: nat)
    requires Enabled(s, ClientReceive(i), owner) && s.peers[i].online
    ensures !Next(s, ClientReceive(i), owner).peers[i].online <==> !s.peers[i].live && !s.peers[i].down[0].SnapshotOf?
  {
  }
}
