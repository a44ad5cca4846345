/** Nothing echoes, so whatever is on its way arrives; and what becomes of a client's own writes. */
module Convergence {
  import opened Bytes
  import opened Wire
  import opened Replication

  // ---- Delivery ends ----

  /** The steps that only pass on what is already on its way. */
  predicate Delivers(step: Step) {
    step.HostBroadcast? || step.HostReceive? || step.HostRelay? || step.HostDrain? || step.ClientSend? || step.ClientReceive?
  }

  /** A bound on the deliveries that a message can still cause among `n` clients. */
  function PeerWork(p: Peer, n: nat): nat {
    |p.outbox| * (2 * n + 3) + |p.up| * (2 * n + 2) + (if p.relay == map[] then 0 else 2 * n + 1) + 2 * |p.queue| + |p.down|
  }

  function PeersWork(peers: seq<Peer>, n: nat): nat {
    if peers == [] then 0 else PeersWork(peers[..|peers| - 1], n) + PeerWork(peers[|peers| - 1], n)
  }

  function Work(s: Net): nat {
    |s.hostOut| * (2 * |s.peers| + 1) + PeersWork(s.peers, |s.peers|)
  }

  lemma {:induction false} UpdateWork(peers: seq<Peer>, i: nat, p: Peer, n: nat)
    requires i < |peers|
    ensures PeersWork(peers[i := p], n) == PeersWork(peers, n) - PeerWork(peers[i], n) + PeerWork(p, n)
    decreases peers
  {
    hide PeerWork;
    var k := |peers| - 1;
    if i == k {
      assert peers[i := p][..k] == peers[..k];
    } else {
      assert peers[i := p][..k] == peers[..k][i := p];
      UpdateWork(peers[..k], i, p, n);
    }
  }

  /** Offering a message puts at most one more into every queue. */
  lemma {:induction false} OfferWork(peers: seq<Peer>, offered: seq<Peer>, message: Message, n: nat)
    requires |offered| == |peers| && forall i :: 0 <= i < |peers| ==> offered[i] == peers[i] || offered[i] == Offer(peers[i], message)
    ensures PeersWork(offered, n) <= PeersWork(peers, n) + 2 * |peers|
    decreases peers
  {
    if peers != [] {
      var k := |peers| - 1;
      OfferWork(peers[..k], offered[..k], message, n);
      OneOfferWork(peers[k], message, n);
    }
  }

  lemma OneOfferWork(p: Peer, message: Message, n: nat)
    ensures PeerWork(Offer(p, message), n) <= PeerWork(p, n) + 2
  {
  }

  lemma Shorter<T>(ms: seq<T>, w: nat)
    requires ms != []
    ensures |ms[1..]| * w == |ms| * w - w
  {
  }

  lemma BroadcastWork(s: Net, owner: string -> Node)
    requires s.hostOut != []
    ensures Work(Next(s, HostBroadcast, owner)) < Work(s)
  {
    hide PeersWork, Offer;
    var n := |s.peers|;
    Shorter(s.hostOut, 2 * n + 1);
    OfferWork(s.peers, OfferAll(s.peers, s.hostOut[0]), s.hostOut[0], n);
  }

  lemma RelayWork(s: Net, i: nat, owner: string -> Node)
    requires Enabled(s, HostRelay(i), owner)
    ensures Work(Next(s, HostRelay(i), owner)) < Work(s)
  {
    hide PeersWork, Offer;
    var n, p := |s.peers|, s.peers[i];
    var others := OfferOthers(s.peers, i, SetOf(p.relay));
    OfferWork(s.peers, others, SetOf(p.relay), n);
    UpdateWork(others, i, p.(relay := map[]), n);
  }

  /** A step that changes one client, and leaves it with less to do. */
  lemma PeerStepWork(s: Net, i: nat, q: Peer)
    requires i < |s.peers| && PeerWork(q, |s.peers|) < PeerWork(s.peers[i], |s.peers|)
    ensures Work(s.(peers := s.peers[i := q])) < Work(s)
  {
    hide PeersWork, PeerWork;
    UpdateWork(s.peers, i, q, |s.peers|);
  }

  lemma RequestWork(s: Net, i: nat, owner: string -> Node)
    requires Enabled(s, HostReceive(i), owner)
    ensures Work(Next(s, HostReceive(i), owner)) < Work(s)
  {
    hide PeersWork, PeerWork, Changed;
    var n, p := |s.peers|, s.peers[i];
    var t := Next(s, HostReceive(i), owner);
    AnsweredWork(p, t.peers[i], n);
    PeerStepWork(s, i, t.peers[i]);
    assert t.peers == s.peers[i := t.peers[i]];
  }

  /** One message less on the way up pays for an answer or for what is to be passed on. */
  lemma AnsweredWork(p: Peer, q: Peer, n: nat)
    requires p.up != [] && p.relay == map[] && q.up == p.up[1..] && q.outbox == p.outbox && q.queue == p.queue
    requires (|q.down| <= |p.down| + 1 && q.relay == map[]) || q.down == p.down
    ensures PeerWork(q, n) < PeerWork(p, n)
  {
    Shorter(p.up, 2 * n + 2);
  }

  lemma SendWork(s: Net, i: nat, owner: string -> Node)
    requires Enabled(s, ClientSend(i), owner)
    ensures Work(Next(s, ClientSend(i), owner)) < Work(s)
  {
    hide PeersWork;
    var n, p := |s.peers|, s.peers[i];
    var q := Next(s, ClientSend(i), owner).peers[i];
    Shorter(p.outbox, 2 * n + 3);
    Shorter(q.up, 2 * n + 2);
    assert |q.up| == |p.up| + 1 && |q.up[1..]| == |p.up|;
    assert PeerWork(q, n) < PeerWork(p, n);
    PeerStepWork(s, i, q);
  }

  /** Every delivery brings the end nearer. */
  lemma DeliveryUsesUpWork(s: Net, step: Step, owner: string -> Node)
    requires Delivers(step) && Enabled(s, step, owner)
    ensures Work(Next(s, step, owner)) < Work(s)
    ensures |Next(s, step, owner).peers| == |s.peers|
  {
    hide Work;
    match step
    case HostBroadcast => BroadcastWork(s, owner);
    case HostRelay(i) => RelayWork(s, i, owner);
    case HostReceive(i) => RequestWork(s, i, owner);
    case HostDrain(i) => PeerStepWork(s, i, Next(s, step, owner).peers[i]);
    case ClientSend(i) => SendWork(s, i, owner);
    case ClientReceive(i) =>
      ReceiveWork(s.peers[i], |s.peers|);
      PeerStepWork(s, i, Received(s.peers[i]));
  }

  lemma ReceiveWork(p: Peer, n: nat)
    requires p.down != []
    ensures PeerWork(Received(p), n) < PeerWork(p, n)
  {
    assert |p.up| * (2 * n + 2) >= 0;
  }

  /** `states` is a stretch of deliveries only. */
  predicate IsDelivery(states: seq<Net>, steps: seq<Step>, owner: string -> Node) {
    && |states| == |steps| + 1
    && forall k :: 0 <= k < |steps| ==>
      Delivers(steps[k]) && Enabled(states[k], steps[k], owner) && states[k + 1] == Next(states[k], steps[k], owner)
  }

  /** Without new writes and connections, deliveries come to an end, in whatever order they happen. */
  lemma {:induction false} DeliveriesEnd(states: seq<Net>, steps: seq<Step>, owner: string -> Node)
    requires IsDelivery(states, steps, owner)
    ensures |steps| <= Work(states[0])
    decreases |steps|
  {
    hide Work, Next, Enabled, Delivers;
    if steps != [] {
      DeliveryUsesUpWork(states[0], steps[0], owner);
      assert IsDelivery(states[1..], steps[1..], owner) by {
        forall k | 0 <= k < |steps[1..]|
          ensures Delivers(steps[1..][k]) && Enabled(states[1..][k], steps[1..][k], owner)
          ensures states[1..][k + 1] == Next(states[1..][k], steps[1..][k], owner)
        {
          assert steps[1..][k] == steps[k + 1] && states[1..][k] == states[k + 1] && states[1..][k + 1] == states[k + 2];
        }
      }
      DeliveriesEnd(states[1..], steps[1..], owner);
    }
  }

  /** Reading a message never creates traffic to the host. */
  lemma ReceivingDoesNotEcho(s: Net, owner: string -> Node, i: nat, j: nat)
    requires Enabled(s, ClientReceive(i), owner) && j < |s.peers|
    ensures var t := Next(s, ClientReceive(i), owner);
      && t.hostVars == s.hostVars && t.hostOut == s.hostOut
      && t.peers[j].outbox == s.peers[j].outbox && t.peers[j].relay == s.peers[j].relay
      && (t.peers[j].up == s.peers[j].up || t.peers[j].up == [])
  {
  }

  // ---- Connections that are gone hold nothing ----

  ghost predicate Tidy(s: Net) {
    forall i :: 0 <= i < |s.peers| && !s.peers[i].online ==> Gone(s.peers[i]) == s.peers[i]
  }

  lemma StepKeepsTidy(s: Net, step: Step, owner: string -> Node)
    requires Tidy(s) && Enabled(s, step, owner)
    ensures Tidy(Next(s, step, owner))
  {
  }

  lemma {:induction false} ReachableTidy(states: seq<Net>, steps: seq<Step>, owner: string -> Node, k: nat)
    requires IsRun(states, steps, owner) && k <= |steps|
    ensures Tidy(states[k])
    decreases k
  {
    hide Next, Enabled;
    if k > 0 {
      ReachableTidy(states, steps, owner, k - 1);
      StepKeepsTidy(states[k - 1], steps[k - 1], owner);
    }
  }

  /** When no delivery is possible any more, nothing is on its way. */
  lemma StuckIsQuiet(s: Net, owner: string -> Node)
    requires Tidy(s) && forall step :: Delivers(step) ==> !Enabled(s, step, owner)
    ensures Quiet(s)
  {
    assert !Enabled(s, HostBroadcast, owner);
    forall i | 0 <= i < |s.peers|
      ensures var p := s.peers[i]; p.up == [] && p.down == [] && p.queue == [] && p.relay == map[] && (p.live ==> p.outbox == [])
    {
      assert !Enabled(s, HostRelay(i), owner) && !Enabled(s, HostReceive(i), owner) && !Enabled(s, HostDrain(i), owner);
      assert !Enabled(s, ClientSend(i), owner) && !Enabled(s, ClientReceive(i), owner);
    }
  }

  /**
   * Convergence: wherever a run has got to, once nothing more can be delivered every registered client with its
   * snapshot agrees with the host on every host variable that it does not write.
   */
  lemma Converges(states: seq<Net>, steps: seq<Step>, owner: string -> Node, k: nat, i: nat, x: string)
    requires IsRun(states, steps, owner) && k <= |steps| && i < |states[k].peers|
    requires forall step :: Delivers(step) ==> !Enabled(states[k], step, owner)
    requires var s := states[k];
      s.peers[i].registered && s.peers[i].snapshotted && owner(x) != Client(i) && x in s.hostVars
    ensures Get(states[k].peers[i].vars, x) == Get(states[k].hostVars, x)
  {
    hide Enabled;
    ReachableTidy(states, steps, owner, k);
    StuckIsQuiet(states[k], owner);
    QuietAgrees(states, steps, owner, k, i, x);
  }

  // ---- A client's own variables ----

  /** What the host will hold of a variable of client `i` once everything on its way up has arrived. */
  function AtHost(s: Net, i: nat, x: string): Option<Value>
    requires i < |s.peers|
  {
    Or(Last(s.peers[i].outbox, x), Or(Last(s.peers[i].up, x), Get(s.hostVars, x)))
  }

  ghost predicate OwnAgrees(s: Net, i: nat, x: string)
    requires i < |s.peers|
  {
    AtHost(s, i, x) == Get(s.peers[i].vars, x)
  }

  /**
   * One snapshot for each connection: it is asked for, or on its way down, or has been applied; while it is on
   * its way, its values of the client's own variables are still the host's.
   */
  ghost predicate SnapshotOnce(s: Net, owner: string -> Node, i: nat, x: string)
    requires i < |s.peers|
  {
    var p := s.peers[i];
    && (p.live ==> (forall k :: 0 <= k < |p.up| ==> p.up[k].SetOf?) && forall k :: 0 <= k < |p.down| ==> !p.down[k].SnapshotOf?)
    && (!p.live && p.up != [] ==> p.up == [SyncRequest] && forall k :: 0 <= k < |p.down| ==> !p.down[k].SnapshotOf?)
    && (forall k :: 0 <= k < |p.queue| ==> p.queue[k].SetOf?)
    && (forall k :: 0 <= k < |s.hostOut| ==> s.hostOut[k].SetOf?)
    && (forall k :: 0 <= k < |p.outbox| ==> p.outbox[k].SetOf?)
    && (forall k, m :: 0 <= k < m < |p.down| && p.down[k].SnapshotOf? ==> !p.down[m].SnapshotOf?)
    && (owner(x) == Client(i) ==> forall k :: 0 <= k < |p.down| && p.down[k].SnapshotOf? ==> Get(p.down[k].vars, x) == Get(s.hostVars, x))
  }

  /** Being offered a set leaves everything but the queue as it was. */
  lemma OfferKeepsSnapshotOnce(s: Net, hostOut: seq<Message>, peers: seq<Peer>, message: Message, owner: string -> Node, i: nat, x: string)
    requires i < |s.peers| == |peers| && SnapshotOnce(s, owner, i, x) && message.SetOf?
    requires peers[i] == Offer(s.peers[i], message) || peers[i] == s.peers[i].(relay := map[])
    requires forall k :: 0 <= k < |hostOut| ==> hostOut[k].SetOf?
    ensures SnapshotOnce(s.(hostOut := hostOut, peers := peers), owner, i, x)
  {
    hide Offer;
    OfferSets(s.peers[i], message);
  }

  lemma HostStepKeepsSnapshotOnce(s: Net, step: Step, owner: string -> Node, i: nat, x: string)
    requires step.HostWrite? || step.HostBroadcast? || step.HostRelay?
    requires Enabled(s, step, owner) && i < |s.peers| && SnapshotOnce(s, owner, i, x)
    ensures SnapshotOnce(Next(s, step, owner), owner, i, x)
  {
    hide Offer;
    var t := Next(s, step, owner);
    if step.HostWrite? {
      assert t.peers == s.peers;
    } else if step.HostBroadcast? {
      assert s.hostOut[0].SetOf?;
      OfferKeepsSnapshotOnce(s, t.hostOut, t.peers, s.hostOut[0], owner, i, x);
    } else {
      OfferKeepsSnapshotOnce(s, s.hostOut, t.peers, SetOf(s.peers[step.i].relay), owner, i, x);
    }
  }

  lemma OfferSets(p: Peer, message: Message)
    requires message.SetOf? && forall k :: 0 <= k < |p.queue| ==> p.queue[k].SetOf?
    ensures var q := Offer(p, message);
      && q == p.(registered := q.registered, queue := q.queue)
      && forall k :: 0 <= k < |q.queue| ==> q.queue[k].SetOf?
  {
  }

  lemma ClientStepKeepsSnapshotOnce(s: Net, step: Step, owner: string -> Node, i: nat, x: string)
    requires step.Join? || step.Leave? || step.ClientWrite?
    requires Enabled(s, step, owner) && i < |s.peers| && SnapshotOnce(s, owner, i, x)
    ensures SnapshotOnce(Next(s, step, owner), owner, i, x)
  {
  }

  lemma HostReceiveKeepsSnapshotOnce(s: Net, owner: string -> Node, j: nat, i: nat, x: string)
    requires Enabled(s, HostReceive(j), owner) && i < |s.peers| && SnapshotOnce(s, owner, i, x) && OwnPaths(s, owner, j, x)
    ensures SnapshotOnce(Next(s, HostReceive(j), owner), owner, i, x)
  {
    hide Last;
    LastFirst(s.peers[j].up, x);
    var up := s.peers[j].up;
    assert up[1..] == [] || up != [SyncRequest];
  }

  lemma PeerStepKeepsSnapshotOnce(s: Net, step: Step, owner: string -> Node, i: nat, x: string)
    requires step.HostDrain? || step.ClientSend? || step.ClientReceive?
    requires Enabled(s, step, owner) && i < |s.peers| && SnapshotOnce(s, owner, i, x)
    ensures SnapshotOnce(Next(s, step, owner), owner, i, x)
  {
    var p, q := s.peers[i], Next(s, step, owner).peers[i];
    if step == ClientReceive(i) && q.online {
      assert forall k :: 0 <= k < |q.down| ==> q.down[k] == p.down[k + 1];
    }
  }

  ghost predicate AllSnapshotsOnce(s: Net, owner: string -> Node) {
    forall i: nat, x :: i < |s.peers| ==> SnapshotOnce(s, owner, i, x)
  }

  lemma StepKeepsSnapshots(s: Net, step: Step, owner: string -> Node)
    requires Inv(s, owner) && AllSnapshotsOnce(s, owner) && Enabled(s, step, owner)
    ensures AllSnapshotsOnce(Next(s, step, owner), owner)
  {
    hide SnapshotOnce, OwnPaths, Follows;
    var t := Next(s, step, owner);
    assert |t.peers| == |s.peers|;
    forall i: nat, x | i < |t.peers| ensures SnapshotOnce(t, owner, i, x) {
      assert SnapshotOnce(s, owner, i, x);
      if step.HostReceive? {
        assert OwnPaths(s, owner, step.i, x);
        HostReceiveKeepsSnapshotOnce(s, owner, step.i, i, x);
      } else if step.HostDrain? || step.ClientSend? || step.ClientReceive? {
        PeerStepKeepsSnapshotOnce(s, step, owner, i, x);
      } else if step.Join? || step.Leave? || step.ClientWrite? {
        ClientStepKeepsSnapshotOnce(s, step, owner, i, x);
      } else {
        HostStepKeepsSnapshotOnce(s, step, owner, i, x);
      }
    }
  }

  lemma {:induction false} ReachableSnapshots(states: seq<Net>, steps: seq<Step>, owner: string -> Node, k: nat)
    requires IsRun(states, steps, owner) && k <= |steps|
    ensures AllSnapshotsOnce(states[k], owner)
    decreases k
  {
    if k > 0 {
      hide Next, Enabled, AllSnapshotsOnce, Inv, Initial;
      ReachableSnapshots(states, steps, owner, k - 1);
      ReachableInv(states, steps, owner, k - 1);
      StepKeepsSnapshots(states[k - 1], steps[k - 1], owner);
    }
  }

  /** One step of a live connection: the client and the host keep agreeing on the client's own variables. */
  lemma LiveStepKeepsOwn(s: Net, step: Step, owner: string -> Node, i: nat, x: string)
    requires Inv(s, owner) && AllSnapshotsOnce(s, owner) && Enabled(s, step, owner)
    requires i < |s.peers| && owner(x) == Client(i) && s.peers[i].live && OwnAgrees(s, i, x)
    requires Next(s, step, owner).peers[i].live
    ensures OwnAgrees(Next(s, step, owner), i, x)
  {
    hide Last, Inv, AllSnapshotsOnce, OwnPaths, SnapshotOnce, Offer, Received, HostReceived, AtHost;
    Pointwise(s, owner, i, x);
    match step
    case HostReceive(j) =>
      Pointwise(s, owner, j, x);
      HostReceiveKeepsOwn(s, owner, j, i, x);
    case ClientWrite(j, name, value) => ClientStepKeepsOwn(s, step, owner, i, x);
    case ClientSend(j) => ClientStepKeepsOwn(s, step, owner, i, x);
    case ClientReceive(j) => ClientReceiveKeepsOwn(s, owner, j, i, x);
    case HostBroadcast => OfferKeepsOwn(s, s.hostOut[1..], OfferAll(s.peers, s.hostOut[0]), s.hostOut[0], i, x);
    case HostRelay(j) => OfferKeepsOwn(s, s.hostOut, Next(s, step, owner).peers, SetOf(s.peers[j].relay), i, x);
    case HostWrite(name, value) => assert name != x; SameOwn(s, Next(s, step, owner), i, x);
    case _ => SameOwn(s, Next(s, step, owner), i, x);
  }

  /** Agreement depends on the client's map, what it has sent or means to send, and the host's value. */
  lemma SameOwn(s: Net, t: Net, i: nat, x: string)
    requires i < |s.peers| == |t.peers| && OwnAgrees(s, i, x) && Get(t.hostVars, x) == Get(s.hostVars, x)
    requires var p, q := s.peers[i], t.peers[i]; q.outbox == p.outbox && q.up == p.up && q.vars == p.vars
    ensures OwnAgrees(t, i, x)
  {
  }

  lemma OfferKeepsOwn(s: Net, hostOut: seq<Message>, peers: seq<Peer>, message: Message, i: nat, x: string)
    requires i < |s.peers| == |peers| && OwnAgrees(s, i, x)
    requires peers[i] == Offer(s.peers[i], message) || peers[i] == s.peers[i].(relay := map[])
    ensures OwnAgrees(s.(hostOut := hostOut, peers := peers), i, x)
  {
    hide AtHost, Offer;
    OfferAt(s.peers[i], message, x);
    SameOwn(s, s.(hostOut := hostOut, peers := peers), i, x);
  }

  /** Storing the changing entries of a set gives every entry of the set its value. */
  lemma StoredAt(m: Vars, vars: Vars, x: string)
    ensures Get(m + Changed(m, vars), x) == Or(Get(vars, x), Get(m, x))
  {
  }

  lemma HostReceiveKeepsOwn(s: Net, owner: string -> Node, j: nat, i: nat, x: string)
    requires Enabled(s, HostReceive(j), owner) && i < |s.peers| && owner(x) == Client(i)
    requires OwnAgrees(s, i, x) && OwnPaths(s, owner, j, x) && s.peers[i].live && SnapshotOnce(s, owner, i, x)
    ensures OwnAgrees(Next(s, HostReceive(j), owner), i, x)
  {
    hide Last, Changed;
    var p := s.peers[j];
    LastFirst(p.up, x);
    if p.up[0].SetOf? {
      StoredAt(s.hostVars, p.up[0].vars, x);
    }
    if j == i {
      assert p.up[0].SetOf?;
    }
  }

  lemma ClientStepKeepsOwn(s: Net, step: Step, owner: string -> Node, i: nat, x: string)
    requires (step.ClientWrite? || step.ClientSend?) && Enabled(s, step, owner) && i < |s.peers| && OwnAgrees(s, i, x)
    ensures OwnAgrees(Next(s, step, owner), i, x)
  {
    hide Last;
    var p := s.peers[step.i];
    if step.ClientWrite? {
      LastSnoc(p.outbox, SetOf(map[step.name := step.value]), x);
    } else {
      LastFirst(p.outbox, x);
      LastSnoc(p.up, p.outbox[0], x);
    }
  }

  lemma ClientReceiveKeepsOwn(s: Net, owner: string -> Node, j: nat, i: nat, x: string)
    requires Enabled(s, ClientReceive(j), owner) && i < |s.peers| && owner(x) == Client(i)
    requires OwnAgrees(s, i, x) && s.peers[i].live && OwnPaths(s, owner, i, x) && SnapshotOnce(s, owner, i, x)
    ensures OwnAgrees(Next(s, ClientReceive(j), owner), i, x)
  {
    hide Last;
    if j == i {
      var m := s.peers[i].down[0];
      assert !m.SnapshotOf? && x !in m.Carried();
    }
  }

  predicate LiveAt(s: Net, i: nat) {
    i < |s.peers| && s.peers[i].live
  }

  /** Over a stretch of a run in which client `i` stays live, it and the host keep agreeing on the client's own variables. */
  lemma {:induction false} LiveKeepsOwn(states: seq<Net>, steps: seq<Step>, owner: string -> Node, j: nat, k: nat, i: nat, x: string)
    requires IsRun(states, steps, owner) && j <= k <= |steps| && owner(x) == Client(i)
    requires forall m :: j <= m <= k ==> LiveAt(states[m], i)
    requires LiveAt(states[j], i) && OwnAgrees(states[j], i, x)
    ensures LiveAt(states[k], i) && OwnAgrees(states[k], i, x)
    decreases k
  {
    hide Next, Enabled, Inv, AllSnapshotsOnce, OwnAgrees, Initial;
    if j < k {
      assert LiveAt(states[k], i) && LiveAt(states[k - 1], i);
      LiveKeepsOwn(states, steps, owner, j, k - 1, i, x);
      ReachableInv(states, steps, owner, k - 1);
      ReachableSnapshots(states, steps, owner, k - 1);
      LiveStepKeepsOwn(states[k - 1], steps[k - 1], owner, i, x);
    }
  }

  lemma Pointwise(s: Net, owner: string -> Node, i: nat, x: string)
    requires Inv(s, owner) && AllSnapshotsOnce(s, owner) && i < |s.peers|
    ensures OwnPaths(s, owner, i, x) && SnapshotOnce(s, owner, i, x)
  {
    hide OwnPaths, SnapshotOnce, Follows;
    assert OwnPaths(s, owner, i, x) && Follows(s, owner, i, x);
  }

  /** What waits at the client when its snapshot comes does not undo that snapshot. */
  predicate NothingToUndo(s: Net, i: nat, x: string)
    requires i < |s.peers|
  {
    var p := s.peers[i];
    if x in s.hostVars then Last(p.outbox, x) == None || Last(p.outbox, x) == Some(s.hostVars[x])
    else Last(p.outbox, x) == Get(p.vars, x)
  }

  lemma SnapshotStepKeepsOwnIff(s: Net, owner: string -> Node, i: nat, x: string)
    requires Inv(s, owner) && AllSnapshotsOnce(s, owner) && Tidy(s)
    requires Enabled(s, ClientReceive(i), owner) && owner(x) == Client(i) && !s.peers[i].live && s.peers[i].down[0].SnapshotOf?
    ensures OwnAgrees(Next(s, ClientReceive(i), owner), i, x) <==> NothingToUndo(s, i, x)
  {
    hide Follows, Inv, AllSnapshotsOnce;
    Pointwise(s, owner, i, x);
    var p := s.peers[i];
    assert p.down[0].SnapshotOf?;
    assert p.up == [];
    assert Last([], x) == None;
  }

  /** Step `k` of a run applies the snapshot of client `i`. */
  predicate AppliesSnapshot(states: seq<Net>, steps: seq<Step>, owner: string -> Node, k: nat, i: nat) {
    && IsRun(states, steps, owner) && k < |steps| && steps[k] == ClientReceive(i)
    && i < |states[k].peers| && !states[k].peers[i].live && states[k].peers[i].down != [] && states[k].peers[i].down[0].SnapshotOf?
  }

  /**
   * Applying the snapshot is the one moment of a run at which a client's own writes can be lost. The client and the
   * host will agree on its variable exactly when the host has the variable and no write of another value waits to be
   * sent, or the host does not have it and the last write that waits to be sent is the client's value.
   */
  lemma SnapshotKeepsOwnIff(states: seq<Net>, steps: seq<Step>, owner: string -> Node, k: nat, i: nat, x: string)
    requires AppliesSnapshot(states, steps, owner, k, i) && owner(x) == Client(i)
    ensures i < |states[k + 1].peers| && (OwnAgrees(states[k + 1], i, x) <==> NothingToUndo(states[k], i, x))
  {
    hide Inv, AllSnapshotsOnce, Tidy, OwnAgrees, NothingToUndo, Initial;
    assert Enabled(states[k], steps[k], owner) && states[k + 1] == Next(states[k], steps[k], owner);
    ReachableInv(states, steps, owner, k);
    ReachableSnapshots(states, steps, owner, k);
    ReachableTidy(states, steps, owner, k);
    SnapshotStepKeepsOwnIff(states[k], owner, i, x);
  }

  /**
   * A client's own variables arrive: after a snapshot that nothing undoes, and while the client stays live, whenever
   * nothing is on its way the host holds the client's value.
   */
  lemma OwnVariablesArrive(states: seq<Net>, steps: seq<Step>, owner: string -> Node, j: nat, k: nat, i: nat, x: string)
    requires AppliesSnapshot(states, steps, owner, j, i) && owner(x) == Client(i) && NothingToUndo(states[j], i, x)
    requires j < k <= |steps| && (forall m :: j < m <= k ==> LiveAt(states[m], i)) && Quiet(states[k])
    ensures LiveAt(states[k], i) && Get(states[k].hostVars, x) == Get(states[k].peers[i].vars, x)
  {
    hide Next, Enabled, Initial, NothingToUndo;
    SnapshotKeepsOwnIff(states, steps, owner, j, i, x);
    LiveKeepsOwn(states, steps, owner, j + 1, k, i, x);
    assert LiveAt(states[k], i);
    assert Last([], x) == None;
  }

  // ---- A write made offline ----

  /** A client that has never been connected writes while it is away, joins, gets the snapshot, and sends its write. */
  function LosingSteps(x: string, v1: Value): seq<Step> {
    [ClientWrite(0, x, v1), Join(0), HostReceive(0), ClientReceive(0), ClientSend(0), HostReceive(0)]
  }

  function LosingPeer(stage: nat, x: string, v0: Value, v1: Value): Peer {
    var w := SetOf(map[x := v1]);
    Peer(if stage == 0 then map[] else if stage < 4 then map[x := v1] else map[x := v0],
         if 1 <= stage < 5 then [w] else [],
         if stage == 2 then [SyncRequest] else if stage == 5 then [w] else [],
         if stage == 3 then [SnapshotOf(map[x := v0])] else [],
         [], if stage == 6 then map[x := v1] else map[],
         stage > 1, stage > 1, stage > 2, stage > 3)
  }

  function LosingState(stage: nat, x: string, v0: Value, v1: Value): Net {
    Net(if stage < 6 then map[x := v0] else map[x := v1], [], [LosingPeer(stage, x, v0, v1)])
  }

  /** The states from the first write to the last delivery; at first nothing is connected and nothing on its way. */
  function LosingRun(x: string, v0: Value, v1: Value): seq<Net> {
    seq(7, k requires 0 <= k < 7 => LosingState(k, x, v0, v1))
  }

  ghost predicate LosesAt(k: nat, x: string, v0: Value, v1: Value)
    requires k < 6
  {
    var s, step, owner := LosingState(k, x, v0, v1), LosingSteps(x, v1)[k], (name: string) => Client(0);
    Enabled(s, step, owner) && LosingState(k + 1, x, v0, v1) == Next(s, step, owner)
  }

  lemma WritesAway(x: string, v0: Value, v1: Value)
    ensures LosesAt(0, x, v0, v1) && LosesAt(1, x, v0, v1)
  {
    var w := SetOf(map[x := v1]);
    assert [] + [w] == [w];
    assert map[][x := v1] == map[x := v1];
    assert LosingState(0, x, v0, v1).peers[0 := LosingPeer(1, x, v0, v1)] == LosingState(1, x, v0, v1).peers;
    assert LosingState(1, x, v0, v1).peers[0 := LosingPeer(2, x, v0, v1)] == LosingState(2, x, v0, v1).peers;
  }

  lemma GetsSnapshot(x: string, v0: Value, v1: Value)
    ensures LosesAt(2, x, v0, v1) && LosesAt(3, x, v0, v1)
  {
    var m := SnapshotOf(map[x := v0]);
    var r := SyncRequest;
    assert [] + [m] == [m] && [m][1..] == [] && [r][1..] == [];
    assert map[x := v1] + map[x := v0] == map[x := v0];
    assert LosingState(2, x, v0, v1).peers[0 := LosingPeer(3, x, v0, v1)] == LosingState(3, x, v0, v1).peers;
    assert LosingState(3, x, v0, v1).peers[0 := LosingPeer(4, x, v0, v1)] == LosingState(4, x, v0, v1).peers;
  }

  lemma SendsWrite(x: string, v0: Value, v1: Value)
    requires v0 != v1
    ensures LosesAt(4, x, v0, v1) && LosesAt(5, x, v0, v1)
  {
    var w := SetOf(map[x := v1]);
    assert [] + [w] == [w] && [w][1..] == [];
    assert Changed(map[x := v0], map[x := v1]) == map[x := v1];
    assert map[x := v0] + map[x := v1] == map[x := v1];
    assert LosingState(4, x, v0, v1).peers[0 := LosingPeer(5, x, v0, v1)] == LosingState(5, x, v0, v1).peers;
    assert LosingState(5, x, v0, v1).peers[0 := LosingPeer(6, x, v0, v1)] == LosingState(6, x, v0, v1).peers;
  }

  /** In a run from the beginning: a write made offline is lost to its own writer when the snapshot comes, and reaches the host. */
  lemma OfflineWriteIsLost(x: string, v0: Value, v1: Value)
    requires v0 != v1
    ensures var states, steps, owner := LosingRun(x, v0, v1), LosingSteps(x, v1), (name: string) => Client(0);
      IsRun(states, steps, owner) && steps[0] == ClientWrite(0, x, v1)
    ensures var t := LosingRun(x, v0, v1)[6]; var p := t.peers[0];
      p.live && t.hostVars == map[x := v1] && p.vars == map[x := v0] && p.up == [] && p.down == [] && p.outbox == []
  {
    hide Enabled, Next;
    WritesAway(x, v0, v1);
    GetsSnapshot(x, v0, v1);
    SendsWrite(x, v0, v1);
    var states, steps, owner := LosingRun(x, v0, v1), LosingSteps(x, v1), (name: string) => Client(0);
    forall k | 0 <= k < |steps| ensures Enabled(states[k], steps[k], owner) && states[k + 1] == Next(states[k], steps[k], owner) {
      assert LosesAt(k, x, v0, v1);
    }
  }
}
