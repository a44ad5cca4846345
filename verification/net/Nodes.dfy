/** The host and a client as they run: loops over maps and client lists, each computing its step. */
module Nodes {
  import opened Bytes
  import opened Wire
  import opened Replication

  /** The map, the list of clients and the local broadcasts of the host. */
  class HostNode {
    var vars: Vars
    var out: seq<Message>
    var peers: seq<Peer>

    constructor (vars: Vars, peers: seq<Peer>)
      ensures State() == Net(vars, [], peers)
    {
      this.vars, this.out, this.peers := vars, [], peers;
    }

    ghost function State(): Net
      reads this
    {
      Net(vars, out, peers)
    }

    /** `set_global` on the host. */
    method SetGlobal(name: string, value: Value)
      modifies this
      ensures Changes(old(vars), name, value) ==> (
        State() == old(State()).(hostVars := old(vars)[name := value], hostOut := old(out) + [SetOf(map[name := value])]))
      ensures !Changes(old(vars), name, value) ==> State() == old(State())
    {
      if name in vars && vars[name] == value {
        return;
      }
      vars := vars[name := value];
      out := out + [SetOf(map[name := value])];
    }

    /** Offers a message to every client but the sender, dropping those whose queue is full. */
    method BroadcastToOthers(sender: nat, message: Message)
      modifies `peers
      ensures peers == OfferOthers(old(peers), sender, message)
    {
      var i := 0;
      while i < |peers|
        invariant i <= |peers| == |old(peers)|
        invariant forall k :: 0 <= k < |peers| ==>
          peers[k] == if k < i && k != sender then Offer(old(peers)[k], message) else old(peers)[k]
      {
        var c := peers[i];
        if i != sender && c.registered {
          if |c.queue| < CLIENT_CHANNEL_SIZE {
            peers := peers[i := c.(queue := c.queue + [message])];
          } else {
            peers := peers[i := c.(registered := false)];
          }
        }
        i := i + 1;
      }
    }

    method BroadcastToAll(message: Message)
      modifies `peers
      ensures peers == OfferAll(old(peers), message)
    {
      var i := 0;
      while i < |peers|
        invariant i <= |peers| == |old(peers)|
        invariant forall k :: 0 <= k < |peers| ==>
          peers[k] == if k < i then Offer(old(peers)[k], message) else old(peers)[k]
      {
        var c := peers[i];
        if c.registered {
          if |c.queue| < CLIENT_CHANNEL_SIZE {
            peers := peers[i := c.(queue := c.queue + [message])];
          } else {
            peers := peers[i := c.(registered := false)];
          }
        }
        i := i + 1;
      }
    }

    /** The broadcast thread passes on one local write. */
    method Broadcast(owner: string -> Node)
      requires out != []
      modifies this
      ensures State() == Next(old(State()), HostBroadcast, owner)
    {
      var message := out[0];
      out := out[1..];
      BroadcastToAll(message);
    }

    /** Stores the entries of a set that change something, and says which. */
    method StoreChanges(set0: Vars) returns (changed: Vars)
      modifies `vars
      ensures changed == Changed(old(vars), set0) && vars == old(vars) + changed
    {
      changed := map[];
      var left := set0.Keys;
      while left != {}
        invariant left <= set0.Keys
        invariant vars == old(vars) + changed
        invariant changed == map x | x in set0 && x !in left && Changes(old(vars), x, set0[x]) :: set0[x]
        decreases left
      {
        var name :| name in left;
        left := left - {name};
        var value := set0[name];
        if !(name in vars && vars[name] == value) {
          vars := vars[name := value];
          changed := changed[name := value];
        }
      }
    }

    /** The handler of client `i` reads one message. */
    method Receive(i: nat, owner: string -> Node)
      requires Enabled(State(), HostReceive(i), owner)
      modifies this
      ensures State() == Next(old(State()), HostReceive(i), owner)
    {
      var p := peers[i];
      var rest := p.(up := p.up[1..]);
      match p.up[0] {
        case SyncRequest =>
          peers := peers[i := rest.(down := p.down + [SnapshotOf(vars)], snapshotted := true)];
        case SetOf(set0) =>
          var changed := StoreChanges(set0);
          peers := peers[i := rest.(relay := changed)];
        case SnapshotOf(_) =>
          peers := peers[i := rest];
      }
    }

    /** The handler of client `i` passes the changes on, unless there are none. */
    method Relay(i: nat, owner: string -> Node)
      requires i < |peers|
      modifies this
      ensures old(peers)[i].relay != map[] ==> State() == Next(old(State()), HostRelay(i), owner)
      ensures old(peers)[i].relay == map[] ==> State() == old(State())
    {
      var changed := peers[i].relay;
      if changed != map[] {
        BroadcastToOthers(i, SetOf(changed));
        peers := peers[i := peers[i].(relay := map[])];
      }
    }

    /** The handler of client `i` sends everything that has been put aside. */
    method DrainQueue(i: nat)
      requires i < |peers|
      modifies `peers
      ensures var p := old(peers)[i];
        peers == old(peers)[i := p.(queue := [], down := p.down + p.queue)]
    {
      ghost var p := peers[i];
      ghost var sent: nat := 0;
      assert p.queue[0..] == p.queue && p.down + p.queue[..0] == p.down && peers[i := p] == peers;
      while peers[i].queue != []
        invariant sent <= |p.queue| && i < |peers|
        invariant peers == old(peers)[i := p.(queue := p.queue[sent..], down := p.down + p.queue[..sent])]
        decreases |p.queue| - sent
      {
        var c := peers[i];
        assert p.down + p.queue[..sent] + [p.queue[sent]] == p.down + p.queue[..sent + 1];
        assert p.queue[sent..][1..] == p.queue[sent + 1..];
        peers := peers[i := c.(queue := c.queue[1..], down := c.down + [c.queue[0]])];
        sent := sent + 1;
      }
      assert p.queue[..|p.queue|] == p.queue;
    }
  }

  /** The map of a client and the writes that it has not sent yet. */
  class ClientNode {
    var vars: Vars
    var outbox: seq<Message>

    constructor (vars: Vars)
      ensures this.vars == vars && outbox == []
    {
      this.vars, this.outbox := vars, [];
    }

    method SetGlobal(name: string, value: Value)
      modifies this
      ensures Changes(old(vars), name, value) ==> vars == old(vars)[name := value] && outbox == old(outbox) + [SetOf(map[name := value])]
      ensures !Changes(old(vars), name, value) ==> vars == old(vars) && outbox == old(outbox)
    {
      if name in vars && vars[name] == value {
        return;
      }
      vars := vars[name := value];
      outbox := outbox + [SetOf(map[name := value])];
    }

    /** Merging is strictly additive: nothing that the client has is ever removed. */
    method ApplySnapshot(received: Vars)
      modifies `vars
      ensures vars == old(vars) + received
      ensures old(vars).Keys <= vars.Keys
    {
      var left := received.Keys;
      while left != {}
        invariant left <= received.Keys
        invariant vars == old(vars) + (map x | x in received && x !in left :: received[x])
        decreases left
      {
        var name :| name in left;
        left := left - {name};
        vars := vars[name := received[name]];
      }
      assert received == map x | x in received && x !in left :: received[x];
    }

    method HandleIncoming(m: Message)
      modifies `vars
      ensures vars == old(vars) + m.Carried()
    {
      match m {
        case SetOf(received) => ApplySnapshot(received);
        case SnapshotOf(received) => ApplySnapshot(received);
        case SyncRequest => assert vars + map[] == vars;
      }
    }
  }

  /** Draining a queue is one drain step for every message in it. */
  lemma {:induction false} DrainIsSteps(s: Net, i: nat, owner: string -> Node, n: nat) returns (states: seq<Net>)
    requires i < |s.peers| && s.peers[i].online && n <= |s.peers[i].queue|
    ensures |states| == n + 1 && states[0] == s
    ensures forall k :: 0 <= k < n ==> Enabled(states[k], HostDrain(i), owner) && states[k + 1] == Next(states[k], HostDrain(i), owner)
    ensures var p := s.peers[i];
      states[n] == s.(peers := s.peers[i := p.(queue := p.queue[n..], down := p.down + p.queue[..n])])
    decreases n
  {
    var p := s.peers[i];
    if n == 0 {
      assert p.queue[0..] == p.queue && p.down + p.queue[..0] == p.down && s.peers[i := p] == s.peers;
      states := [s];
    } else {
      var before := DrainIsSteps(s, i, owner, n - 1);
      var t := before[n - 1];
      assert p.down + p.queue[..n] == p.down + p.queue[..n - 1] + [p.queue[n - 1]];
      assert p.queue[n - 1..][1..] == p.queue[n..];
      assert Next(t, HostDrain(i), owner).peers == s.peers[i := p.(queue := p.queue[n..], down := p.down + p.queue[..n])];
      states := before + [Next(t, HostDrain(i), owner)];
    }
  }
}
