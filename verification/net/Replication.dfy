/**
 * Shared variables: a host and its clients, each with its own map. Every read of a wire, write of a
 * variable or pass over a queue is one step; the steps interleave in any order.
 */
module Replication {
  import opened Bytes
  import opened Wire

  type Vars = map<string, Value>

  /** What travels: requests go up, snapshots and sets come down. */
  datatype Message = SyncRequest | SnapshotOf(vars: Vars) | SetOf(vars: Vars) {
    function Carried(): Vars {
      if SyncRequest? then map[] else vars
    }
  }

  /** The one node that writes a variable. */
  datatype Node = Host | Client(id: nat)

  /** How many messages wait for a client before it is dropped. */
  const CLIENT_CHANNEL_SIZE: nat := 256

  /**
   * A client and what the host keeps for it. `vars` and `outbox` (writes not yet sent) outlive a connection.
   * `up` and `down` are the two directions of the connection, `queue` holds what the host has put aside for the
   * client, and `relay` the changes of this client that the host has stored but not yet passed on. A client is
   * `registered` while broadcasts reach its queue, `snapshotted` once its snapshot is on the way, and `live` once
   * it has applied it.
   */
  datatype Peer = Peer(
    vars: Vars, outbox: seq<Message>, up: seq<Message>, down: seq<Message>, queue: seq<Message>, relay: Vars,
    online: bool, registered: bool, snapshotted: bool, live: bool)

  datatype Net = Net(hostVars: Vars, hostOut: seq<Message>, peers: seq<Peer>)

  // ---- What each node does ----

  function Get(m: Vars, x: string): Option<Value> {
    if x in m then Some(m[x]) else None
  }

  /** `set_global`: a write of the value that a variable already has changes nothing and is not broadcast. */
  function Changes(m: Vars, x: string, v: Value): bool {
    Get(m, x) != Some(v)
  }

  /** The entries of a set that change the host's map. */
  function Changed(m: Vars, vars: Vars): Vars {
    map x | x in vars && Changes(m, x, vars[x]) :: vars[x]
  }

  /** Put a message aside for a client; a full queue drops the client from the list. */
  function Offer(p: Peer, message: Message): Peer {
    if !p.registered then p
    else if |p.queue| >= CLIENT_CHANNEL_SIZE then p.(registered := false)
    else p.(queue := p.queue + [message])
  }

  function OfferAll(peers: seq<Peer>, message: Message): (r: seq<Peer>)
    ensures |r| == |peers| && forall i :: 0 <= i < |peers| ==> r[i] == Offer(peers[i], message)
  {
    seq(|peers|, i requires 0 <= i < |peers| => Offer(peers[i], message))
  }

  function OfferOthers(peers: seq<Peer>, sender: nat, message: Message): (r: seq<Peer>)
    ensures |r| == |peers| && forall i :: 0 <= i < |peers| ==> r[i] == if i == sender then peers[i] else Offer(peers[i], message)
  {
    seq(|peers|, i requires 0 <= i < |peers| => if i == sender then peers[i] else Offer(peers[i], message))
  }

  /** Connected: registered, with a request for the snapshot on the way. */
  function Joined(p: Peer): Peer {
    p.(online := true, registered := true, snapshotted := false, live := false, up := [SyncRequest], down := [], queue := [])
  }

  function Gone(p: Peer): Peer {
    p.(online := false, registered := false, snapshotted := false, live := false, up := [], down := [], queue := [])
  }

  /** A client reads one message; while it waits for its snapshot, anything else makes it give up. */
  function Received(p: Peer): Peer
    requires p.down != []
  {
    var m := p.down[0];
    if !p.live && !m.SnapshotOf? then Gone(p)
    else p.(down := p.down[1..], live := true, vars := p.vars + m.Carried())
  }

  // ---- Steps ----

  datatype Step =
    | HostWrite(name: string, value: Value)
    | HostBroadcast
    | HostReceive(i: nat)
    | HostRelay(i: nat)
    | HostDrain(i: nat)
    | Join(i: nat)
    | Leave(i: nat)
    | ClientWrite(i: nat, name: string, value: Value)
    | ClientSend(i: nat)
    | ClientReceive(i: nat)

  /** When a step can happen; only the owner of a variable writes it. */
  predicate Enabled(s: Net, step: Step, owner: string -> Node) {
    match step
    case HostWrite(name, value) => owner(name) == Host && Changes(s.hostVars, name, value)
    case HostBroadcast => s.hostOut != []
    case HostReceive(i) => i < |s.peers| && s.peers[i].up != [] && s.peers[i].relay == map[]
    case HostRelay(i) => i < |s.peers| && s.peers[i].relay != map[]
    case HostDrain(i) => i < |s.peers| && s.peers[i].online && s.peers[i].queue != []
    case Join(i) => i < |s.peers| && !s.peers[i].online
    case Leave(i) => i < |s.peers| && s.peers[i].online
    case ClientWrite(i, name, value) => i < |s.peers| && owner(name) == Client(i) && Changes(s.peers[i].vars, name, value)
    case ClientSend(i) => i < |s.peers| && s.peers[i].live && s.peers[i].outbox != []
    case ClientReceive(i) => i < |s.peers| && s.peers[i].down != []
  }

  function Next(s: Net, step: Step, owner: string -> Node): Net
    requires Enabled(s, step, owner)
  {
    match step
    case HostWrite(name, value) => s.(hostVars := s.hostVars[name := value], hostOut := s.hostOut + [SetOf(map[name := value])])
    case HostBroadcast => s.(hostOut := s.hostOut[1..], peers := OfferAll(s.peers, s.hostOut[0]))
    case HostReceive(i) => HostReceived(s, i)
    case HostRelay(i) =>
      var p := s.peers[i];
      s.(peers := OfferOthers(s.peers, i, SetOf(p.relay))[i := p.(relay := map[])])
    case HostDrain(i) =>
      var p := s.peers[i];
      s.(peers := s.peers[i := p.(queue := p.queue[1..], down := p.down + [p.queue[0]])])
    case Join(i) => s.(peers := s.peers[i := Joined(s.peers[i])])
    case Leave(i) => s.(peers := s.peers[i := Gone(s.peers[i])])
    case ClientWrite(i, name, value) =>
      var p := s.peers[i];
      s.(peers := s.peers[i := p.(vars := p.vars[name := value], outbox := p.outbox + [SetOf(map[name := value])])])
    case ClientSend(i) =>
      var p := s.peers[i];
      s.(peers := s.peers[i := p.(outbox := p.outbox[1..], up := p.up + [p.outbox[0]])])
    case ClientReceive(i) => s.(peers := s.peers[i := Received(s.peers[i])])
  }

  /** The host reads one message of a client. */
  function HostReceived(s: Net, i: nat): Net
    requires i < |s.peers| && s.peers[i].up != []
  {
    var p := s.peers[i];
    var rest := p.(up := p.up[1..]);
    match p.up[0]
    case SyncRequest => s.(peers := s.peers[i := rest.(down := p.down + [SnapshotOf(s.hostVars)], snapshotted := true)])
    case SetOf(vars) =>
      var changed := Changed(s.hostVars, vars);
      s.(hostVars := s.hostVars + changed, peers := s.peers[i := rest.(relay := changed)])
    case SnapshotOf(_) => s.(peers := s.peers[i := rest])
  }

  // ---- Runs ----

  /** Nothing connected, nothing on the way; the host may hold variables already. */
  predicate Initial(s: Net) {
    s.hostOut == [] && forall i :: 0 <= i < |s.peers| ==>
      var p := s.peers[i];
      p.outbox == [] && p.relay == map[] && !p.online && Gone(p) == p
  }

  predicate IsRun(states: seq<Net>, steps: seq<Step>, owner: string -> Node) {
    && |states| == |steps| + 1 && Initial(states[0])
    && forall k :: 0 <= k < |steps| ==> Enabled(states[k], steps[k], owner) && states[k + 1] == Next(states[k], steps[k], owner)
  }

  // ---- What is on its way ----

  function Or(a: Option<Value>, b: Option<Value>): Option<Value> {
    if a.Some? then a else b
  }

  /** The last value that a sequence of messages carries for `x`. */
  function Last(ms: seq<Message>, x: string): Option<Value> {
    if ms == [] then None else Or(Get(ms[|ms| - 1].Carried(), x), Last(ms[..|ms| - 1], x))
  }

  /** A change to `x` that the host has stored but not yet put aside for client `i`. */
  function Pending(s: Net, owner: string -> Node, i: nat, x: string): Option<Value> {
    match owner(x)
    case Host => Last(s.hostOut, x)
    case Client(d) => if d != i && d < |s.peers| then Get(s.peers[d].relay, x) else None
  }

  function Late(s: Net, owner: string -> Node, i: nat, x: string): Option<Value>
    requires i < |s.peers|
  {
    Or(Pending(s, owner, i, x), Last(s.peers[i].queue, x))
  }

  /** The value that `x` will have at client `i` once everything on its way has been applied. */
  function Eventual(s: Net, owner: string -> Node, i: nat, x: string): Option<Value>
    requires i < |s.peers|
  {
    Or(Late(s, owner, i, x), Or(Last(s.peers[i].down, x), Get(s.peers[i].vars, x)))
  }

  // ---- The invariant, one client and one variable at a time ----

  /** A variable travels only on the paths that start at its owner. */
  ghost predicate OwnPaths(s: Net, owner: string -> Node, i: nat, x: string)
    requires i < |s.peers|
  {
    var p := s.peers[i];
    && (owner(x) != Host ==> Last(s.hostOut, x).None?)
    && (owner(x) != Client(i) ==> x !in p.relay && Last(p.outbox, x).None? && Last(p.up, x).None?)
    && (owner(x) == Client(i) ==> Last(p.queue, x).None? && forall k :: 0 <= k < |p.down| && x in p.down[k].Carried() ==> p.down[k].SnapshotOf?)
  }

  ghost predicate Follows(s: Net, owner: string -> Node, i: nat, x: string)
    requires i < |s.peers|
  {
    var p := s.peers[i];
    && (Pending(s, owner, i, x).Some? ==> Pending(s, owner, i, x) == Get(s.hostVars, x))
    && (p.registered && owner(x) != Client(i) && Late(s, owner, i, x).Some? ==> Late(s, owner, i, x) == Get(s.hostVars, x))
    && (p.registered && p.snapshotted && owner(x) != Client(i) && x in s.hostVars ==> Eventual(s, owner, i, x) == Get(s.hostVars, x))
  }

  ghost predicate Inv(s: Net, owner: string -> Node) {
    forall i: nat, x :: i < |s.peers| ==> OwnPaths(s, owner, i, x) && Follows(s, owner, i, x)
  }

  // ---- Sequences of messages ----

  lemma LastSnoc(ms: seq<Message>, m: Message, x: string)
    ensures Last(ms + [m], x) == Or(Get(m.Carried(), x), Last(ms, x))
  {
    assert (ms + [m])[..|ms|] == ms;
  }

  lemma {:induction false} LastFirst(ms: seq<Message>, x: string)
    requires ms != []
    ensures Last(ms, x) == Or(Last(ms[1..], x), Get(ms[0].Carried(), x))
    decreases ms
  {
    var front := ms[..|ms| - 1];
    if front != [] {
      LastFirst(front, x);
      assert ms[1..][..|ms| - 2] == front[1..];
    }
  }

  lemma OfferAt(p: Peer, message: Message, x: string)
    ensures var q := Offer(p, message);
      && q.vars == p.vars && q.outbox == p.outbox && q.up == p.up && q.down == p.down && q.relay == p.relay
      && q.online == p.online && q.snapshotted == p.snapshotted && q.live == p.live
      && (q.registered ==> p.registered && Last(q.queue, x) == Or(Get(message.Carried(), x), Last(p.queue, x)))
      && (Last(q.queue, x) == Last(p.queue, x) || Last(q.queue, x) == Get(message.Carried(), x))
  {
    hide Last;
    LastSnoc(p.queue, message, x);
  }

  // ---- Each step keeps the invariant ----

  lemma HostWriteKeeps(s: Net, owner: string -> Node, name: string, value: Value, i: nat, x: string)
    requires Enabled(s, HostWrite(name, value), owner) && i < |s.peers|
    requires OwnPaths(s, owner, i, x) && Follows(s, owner, i, x)
    ensures var t := Next(s, HostWrite(name, value), owner);
      OwnPaths(t, owner, i, x) && Follows(t, owner, i, x)
  {
    hide Last;
    LastSnoc(s.hostOut, SetOf(map[name := value]), x);
  }

  lemma HostBroadcastKeeps(s: Net, owner: string -> Node, i: nat, x: string)
    requires s.hostOut != [] && i < |s.peers|
    requires OwnPaths(s, owner, i, x) && Follows(s, owner, i, x)
    ensures var t := Next(s, HostBroadcast, owner);
      OwnPaths(t, owner, i, x) && Follows(t, owner, i, x)
  {
    hide Last, Offer;
    LastFirst(s.hostOut, x);
    forall j | 0 <= j < |s.peers| ensures Offer(s.peers[j], s.hostOut[0]).relay == s.peers[j].relay {
      OfferAt(s.peers[j], s.hostOut[0], x);
    }
    OfferAt(s.peers[i], s.hostOut[0], x);
  }

  /** A set of client `j` is stored: only variables of that client change. */
  lemma HostStoreKeeps(s: Net, owner: string -> Node, j: nat, i: nat, x: string)
    requires Enabled(s, HostReceive(j), owner) && s.peers[j].up[0].SetOf? && i < |s.peers|
    requires OwnPaths(s, owner, i, x) && Follows(s, owner, i, x) && OwnPaths(s, owner, j, x)
    ensures var t := Next(s, HostReceive(j), owner);
      OwnPaths(t, owner, i, x) && Follows(t, owner, i, x)
  {
    hide Last;
    LastFirst(s.peers[j].up, x);
    var set0 := s.peers[j].up[0].vars;
    assert x !in set0 ==> x !in Changed(s.hostVars, set0);
    assert owner(x) != Client(j) ==> x !in set0;
  }

  lemma HostAnswerKeeps(s: Net, owner: string -> Node, j: nat, i: nat, x: string)
    requires Enabled(s, HostReceive(j), owner) && !s.peers[j].up[0].SetOf? && i < |s.peers|
    requires OwnPaths(s, owner, i, x) && Follows(s, owner, i, x) && OwnPaths(s, owner, j, x)
    ensures var t := Next(s, HostReceive(j), owner);
      OwnPaths(t, owner, i, x) && Follows(t, owner, i, x)
  {
    hide Last;
    LastFirst(s.peers[j].up, x);
    LastSnoc(s.peers[j].down, SnapshotOf(s.hostVars), x);
  }

  lemma HostRelayKeeps(s: Net, owner: string -> Node, j: nat, i: nat, x: string)
    requires Enabled(s, HostRelay(j), owner) && i < |s.peers|
    requires OwnPaths(s, owner, i, x) && Follows(s, owner, i, x) && OwnPaths(s, owner, j, x)
    ensures var t := Next(s, HostRelay(j), owner);
      OwnPaths(t, owner, i, x) && Follows(t, owner, i, x)
  {
    hide Last, Offer;
    var m := SetOf(s.peers[j].relay);
    forall k | 0 <= k < |s.peers| ensures Offer(s.peers[k], m).relay == s.peers[k].relay {
      OfferAt(s.peers[k], m, x);
    }
    OfferAt(s.peers[i], m, x);
  }

  lemma HostDrainKeeps(s: Net, owner: string -> Node, j: nat, i: nat, x: string)
    requires Enabled(s, HostDrain(j), owner) && i < |s.peers|
    requires OwnPaths(s, owner, i, x) && Follows(s, owner, i, x)
    ensures var t := Next(s, HostDrain(j), owner);
      OwnPaths(t, owner, i, x) && Follows(t, owner, i, x)
  {
    hide Last;
    LastFirst(s.peers[j].queue, x);
    LastSnoc(s.peers[j].down, s.peers[j].queue[0], x);
  }

  lemma JoinLeaveKeeps(s: Net, owner: string -> Node, step: Step, i: nat, x: string)
    requires (step.Join? || step.Leave?) && Enabled(s, step, owner) && i < |s.peers|
    requires OwnPaths(s, owner, i, x) && Follows(s, owner, i, x)
    ensures var t := Next(s, step, owner);
      OwnPaths(t, owner, i, x) && Follows(t, owner, i, x)
  {
    assert Last([SyncRequest], x) == None;
  }

  lemma ClientWriteKeeps(s: Net, owner: string -> Node, j: nat, name: string, value: Value, i: nat, x: string)
    requires Enabled(s, ClientWrite(j, name, value), owner) && i < |s.peers|
    requires OwnPaths(s, owner, i, x) && Follows(s, owner, i, x)
    ensures var t := Next(s, ClientWrite(j, name, value), owner);
      OwnPaths(t, owner, i, x) && Follows(t, owner, i, x)
  {
    hide Last;
    LastSnoc(s.peers[j].outbox, SetOf(map[name := value]), x);
  }

  lemma ClientSendKeeps(s: Net, owner: string -> Node, j: nat, i: nat, x: string)
    requires Enabled(s, ClientSend(j), owner) && i < |s.peers|
    requires OwnPaths(s, owner, i, x) && Follows(s, owner, i, x)
    ensures var t := Next(s, ClientSend(j), owner);
      OwnPaths(t, owner, i, x) && Follows(t, owner, i, x)
  {
    hide Last;
    LastFirst(s.peers[j].outbox, x);
    LastSnoc(s.peers[j].up, s.peers[j].outbox[0], x);
  }

  lemma ClientReceiveKeeps(s: Net, owner: string -> Node, j: nat, i: nat, x: string)
    requires Enabled(s, ClientReceive(j), owner) && i < |s.peers|
    requires OwnPaths(s, owner, i, x) && Follows(s, owner, i, x)
    ensures var t := Next(s, ClientReceive(j), owner);
      OwnPaths(t, owner, i, x) && Follows(t, owner, i, x)
  {
    hide Last, Received, Changes;
    ReceivedAt(s.peers[j], x);
  }

  /** Reading a message moves its value from the wire to the client's map. */
  lemma ReceivedAt(p: Peer, x: string)
    requires p.down != []
    ensures var q := Received(p);
      && q.relay == p.relay && q.outbox == p.outbox
      && (q.up == p.up || Last(q.up, x) == None)
      && (Last(q.queue, x) == Last(p.queue, x) || Last(q.queue, x) == None)
      && (forall k :: 0 <= k < |q.down| ==> q.down[k] in p.down)
      && (q.registered ==> p.registered && q.snapshotted == p.snapshotted && q.queue == p.queue)
      && (q.registered ==> Or(Last(q.down, x), Get(q.vars, x)) == Or(Last(p.down, x), Get(p.vars, x)))
  {
    LastFirst(p.down, x);
    assert Last([], x) == None;
  }

  lemma StepKeeps(s: Net, owner: string -> Node, step: Step)
    requires Inv(s, owner) && Enabled(s, step, owner)
    ensures Inv(Next(s, step, owner), owner)
  {
    hide OwnPaths, Follows;
    var t := Next(s, step, owner);
    assert |t.peers| == |s.peers|;
    forall i: nat, x | i < |t.peers| ensures OwnPaths(t, owner, i, x) && Follows(t, owner, i, x) {
      assert OwnPaths(s, owner, i, x) && Follows(s, owner, i, x);
      match step
      case HostWrite(name, value) => HostWriteKeeps(s, owner, name, value, i, x);
      case HostBroadcast => HostBroadcastKeeps(s, owner, i, x);
      case HostReceive(j) =>
        assert OwnPaths(s, owner, j, x);
        if s.peers[j].up[0].SetOf? {
          HostStoreKeeps(s, owner, j, i, x);
        } else {
          HostAnswerKeeps(s, owner, j, i, x);
        }
      case HostRelay(j) => assert OwnPaths(s, owner, j, x); HostRelayKeeps(s, owner, j, i, x);
      case HostDrain(j) => HostDrainKeeps(s, owner, j, i, x);
      case Join(_) => JoinLeaveKeeps(s, owner, step, i, x);
      case Leave(_) => JoinLeaveKeeps(s, owner, step, i, x);
      case ClientWrite(j, name, value) => ClientWriteKeeps(s, owner, j, name, value, i, x);
      case ClientSend(j) => ClientSendKeeps(s, owner, j, i, x);
      case ClientReceive(j) => ClientReceiveKeeps(s, owner, j, i, x);
    }
  }

  lemma InitialInv(s: Net, owner: string -> Node)
    requires Initial(s)
    ensures Inv(s, owner)
  {
  }

  lemma {:induction false} ReachableInv(states: seq<Net>, steps: seq<Step>, owner: string -> Node, k: nat)
    requires IsRun(states, steps, owner) && k <= |steps|
    ensures Inv(states[k], owner)
    decreases k
  {
    hide Inv, Next, Enabled, Initial;
    if k == 0 {
      InitialInv(states[0], owner);
    } else {
      ReachableInv(states, steps, owner, k - 1);
      StepKeeps(states[k - 1], owner, steps[k - 1]);
    }
  }

  // ---- What a client will see ----

  /**
   * In every state of every run: once everything on its way has been applied, a registered client whose snapshot is
   * on the way or applied has the host's value of every variable of the host that it does not write itself.
   */
  lemma EventuallyAgrees(states: seq<Net>, steps: seq<Step>, owner: string -> Node, k: nat, i: nat, x: string)
    requires IsRun(states, steps, owner) && k <= |steps| && i < |states[k].peers|
    requires var s := states[k];
      s.peers[i].registered && s.peers[i].snapshotted && owner(x) != Client(i) && x in s.hostVars
    ensures Eventual(states[k], owner, i, x) == Some(states[k].hostVars[x])
  {
    ReachableInv(states, steps, owner, k);
    assert Follows(states[k], owner, i, x);
  }

  /** Nothing is on its way. */
  predicate Quiet(s: Net) {
    s.hostOut == [] && forall i :: 0 <= i < |s.peers| ==>
      var p := s.peers[i];
      p.up == [] && p.down == [] && p.queue == [] && p.relay == map[] && (p.live ==> p.outbox == [])
  }

  /** When nothing is on its way, such a client and the host agree. */
  lemma QuietAgrees(states: seq<Net>, steps: seq<Step>, owner: string -> Node, k: nat, i: nat, x: string)
    requires IsRun(states, steps, owner) && k <= |steps| && i < |states[k].peers| && Quiet(states[k])
    requires var s := states[k];
      s.peers[i].registered && s.peers[i].snapshotted && owner(x) != Client(i) && x in s.hostVars
    ensures x in states[k].peers[i].vars && states[k].peers[i].vars[x] == states[k].hostVars[x]
  {
    hide IsRun;
    EventuallyAgrees(states, steps, owner, k, i, x);
  }
}
