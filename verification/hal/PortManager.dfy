/** The port manager: its commands group ports by device and send one batch to each adapter. */
module PortManager {
  import opened Bytes
  import opened Ports
  import opened PortLaws

  /** A port of some device, and the state that goes with it. */
  datatype Item = Item(port: string, state: PortState)

  type Groups = map<string, seq<Item>>

  function Added(groups: Groups, qp: QualifiedPort, st: PortState): Groups {
    groups[qp.device := (if qp.device in groups then groups[qp.device] else []) + [Item(qp.port, st)]]
  }

  /** The items of one device are its chosen ports, each with the state wanted of it. */
  ghost predicate Lists(m: Manager, device: string, items: seq<Item>, chosen: set<QualifiedPort>) {
    && (forall qp :: qp in chosen && qp.device == device ==> Item(qp.port, Desired(m, qp)) in items)
    && (forall i :: 0 <= i < |items| ==>
          QualifiedPort(device, items[i].port) in chosen && items[i].state == Desired(m, QualifiedPort(device, items[i].port)))
  }

  ghost predicate Grouped(m: Manager, groups: Groups, chosen: set<QualifiedPort>) {
    && (forall qp :: qp in chosen ==> qp.device in groups)
    && (forall d :: d in groups ==> Lists(m, d, groups[d], chosen))
  }

  lemma AddedIs(m: Manager, groups: Groups, chosen: set<QualifiedPort>, qp: QualifiedPort)
    requires Grouped(m, groups, chosen)
    ensures Grouped(m, Added(groups, qp, Desired(m, qp)), chosen + {qp})
  {
    hide Desired;
    var r := Added(groups, qp, Desired(m, qp));
    forall d | d in r ensures Lists(m, d, r[d], chosen + {qp}) {
      if d in groups {
        assert Lists(m, d, groups[d], chosen);
      }
    }
  }

  /** A table with new entries for some ports. */
  function Put<V>(table: map<QualifiedPort, V>, keys: set<QualifiedPort>, f: QualifiedPort -> V): map<QualifiedPort, V> {
    table + map qp | qp in keys :: f(qp)
  }

  lemma PutTwice<V>(table: map<QualifiedPort, V>, a: set<QualifiedPort>, b: set<QualifiedPort>, f: QualifiedPort -> V)
    ensures Put(Put(table, a, f), b, f) == Put(table, a + b, f)
  {
  }

  lemma PutOne<V>(table: map<QualifiedPort, V>, a: set<QualifiedPort>, qp: QualifiedPort, f: QualifiedPort -> V)
    ensures Put(table, a, f)[qp := f(qp)] == Put(table, a + {qp}, f)
  {
  }

  function OfDevice(chosen: set<QualifiedPort>, device: string): set<QualifiedPort> {
    set qp | qp in chosen && qp.device == device
  }

  /** The chosen ports of all devices but these. */
  function Beyond(chosen: set<QualifiedPort>, names: set<string>): set<QualifiedPort> {
    set qp | qp in chosen && qp.device !in names
  }

  function PortsOf(device: string, items: seq<Item>): set<QualifiedPort> {
    set item | item in items :: QualifiedPort(device, item.port)
  }

  lemma ListedPorts(m: Manager, device: string, items: seq<Item>, chosen: set<QualifiedPort>)
    requires Lists(m, device, items, chosen)
    ensures PortsOf(device, items) == OfDevice(chosen, device)
  {
    hide Desired;
    forall qp | qp in OfDevice(chosen, device) ensures qp in PortsOf(device, items) {
      assert Item(qp.port, Desired(m, qp)) in items && QualifiedPort(device, qp.port) == qp;
    }
  }

  lemma PortsOfNext(device: string, items: seq<Item>, i: nat)
    requires i < |items|
    ensures PortsOf(device, items[..i + 1]) == PortsOf(device, items[..i]) + {QualifiedPort(device, items[i].port)}
  {
    assert items[..i + 1] == items[..i] + [items[i]];
  }

  function Chosen(ports: seq<QualifiedPort>): set<QualifiedPort> {
    set qp | qp in ports
  }

  function Start(m: Manager): QualifiedPort -> Motor {
    qp => Driven(Desired(m, qp).direction, Desired(m, qp).power)
  }

  function Stand(): QualifiedPort -> Motor {
    qp => Stopped
  }

  function Wish(m: Manager): QualifiedPort -> PortState {
    qp => Desired(m, qp)
  }

  function Due(m: Manager): QualifiedPort -> bool {
    qp => NeedsSend(m, qp)
  }

  function Ran(m: Manager): QualifiedPort -> bool {
    qp => SentRunning(m, qp)
  }

  class PortManager {
    var devices: map<string, Device>
    var active: Option<string>
    var states: map<QualifiedPort, PortState>
    var sent: map<QualifiedPort, PortState>
    var timers: map<string, nat>
    /** The flags shared with the tasks, the tasks that the scheduler holds, and the hardware. */
    var cancelled: seq<bool>
    var tasks: seq<FlashTask>
    var motors: map<QualifiedPort, Motor>

    function View(): Manager
      reads this
    {
      Manager(devices, active, states, sent, timers, cancelled, tasks, motors)
    }

    constructor (devices: map<string, Device>, active: Option<string>, states: map<QualifiedPort, PortState>)
      ensures View() == Manager(devices, active, states, map[], map[], [], [], map[])
    {
      this.devices, this.active, this.states := devices, active, states;
      sent, timers, cancelled, tasks, motors := map[], map[], [], [], map[];
    }

    // ---- Adapters ----

    method StartPorts(device: string, items: seq<Item>, ghost m: Manager, ghost chosen: set<QualifiedPort>)
      requires Lists(m, device, items, chosen)
      modifies this`motors
      ensures motors == Put(old(motors), OfDevice(chosen, device), Start(m))
    {
      hide Desired, Put, PortsOf;
      ghost var before := motors;
      PutNothing(before, device, Start(m));
      for i := 0 to |items|
        invariant motors == Put(before, PortsOf(device, items[..i]), Start(m))
      {
        var qp := QualifiedPort(device, items[i].port);
        motors := motors[qp := Driven(items[i].state.direction, items[i].state.power)];
        PortsOfNext(device, items, i);
        PutOne(before, PortsOf(device, items[..i]), qp, Start(m));
      }
      assert items[..|items|] == items;
      ListedPorts(m, device, items, chosen);
    }

    method StopPorts(device: string, items: seq<Item>, ghost m: Manager, ghost chosen: set<QualifiedPort>)
      requires Lists(m, device, items, chosen)
      modifies this`motors
      ensures motors == Put(old(motors), OfDevice(chosen, device), Stand())
    {
      hide Desired, Put, PortsOf;
      ghost var before := motors;
      PutNothing(before, device, Stand());
      for i := 0 to |items|
        invariant motors == Put(before, PortsOf(device, items[..i]), Stand())
      {
        var qp := QualifiedPort(device, items[i].port);
        motors := motors[qp := Stopped];
        PortsOfNext(device, items, i);
        PutOne(before, PortsOf(device, items[..i]), qp, Stand());
      }
      assert items[..|items|] == items;
      ListedPorts(m, device, items, chosen);
    }

    // ---- Sending in batches ----

    method GroupByDevice(ports: seq<QualifiedPort>) returns (groups: Groups)
      ensures Grouped(View(), groups, Chosen(ports))
    {
      hide Desired, Grouped;
      groups := map[];
      NoGroups(View());
      assert Chosen(ports[..0]) == {};
      for i := 0 to |ports|
        invariant Grouped(View(), groups, Chosen(ports[..i]))
      {
        AddedIs(View(), groups, Chosen(ports[..i]), ports[i]);
        assert Chosen(ports[..i + 1]) == Chosen(ports[..i]) + {ports[i]};
        groups := Added(groups, ports[i], Desired(View(), ports[i]));
      }
      assert ports[..|ports|] == ports;
    }

    /** One batch for each device, in any order: as if every port had been started by itself. */
    method StartGroups(groups: Groups, ghost m: Manager, ghost chosen: set<QualifiedPort>)
      requires Grouped(m, groups, chosen)
      modifies this`motors
      ensures motors == Put(old(motors), chosen, Start(m))
    {
      hide Put, Lists;
      ghost var before := motors;
      var names := groups.Keys;
      PutNone(before, Start(m));
      assert Beyond(chosen, names) == {};
      while names != {}
        invariant names <= groups.Keys
        invariant motors == Put(before, Beyond(chosen, names), Start(m))
        decreases |names|
      {
        var d :| d in names;
        ghost var done := Beyond(chosen, names);
        StartPorts(d, groups[d], m, chosen);
        PutTwice(before, done, OfDevice(chosen, d), Start(m));
        names := names - {d};
        assert done + OfDevice(chosen, d) == Beyond(chosen, names);
      }
      assert Beyond(chosen, names) == chosen;
    }

    method StopGroups(groups: Groups, ghost m: Manager, ghost chosen: set<QualifiedPort>)
      requires Grouped(m, groups, chosen)
      modifies this`motors
      ensures motors == Put(old(motors), chosen, Stand())
    {
      hide Put, Lists;
      ghost var before := motors;
      var names := groups.Keys;
      PutNone(before, Stand());
      assert Beyond(chosen, names) == {};
      while names != {}
        invariant names <= groups.Keys
        invariant motors == Put(before, Beyond(chosen, names), Stand())
        decreases |names|
      {
        var d :| d in names;
        ghost var done := Beyond(chosen, names);
        StopPorts(d, groups[d], m, chosen);
        PutTwice(before, done, OfDevice(chosen, d), Stand());
        names := names - {d};
        assert done + OfDevice(chosen, d) == Beyond(chosen, names);
      }
      assert Beyond(chosen, names) == chosen;
    }

    method RecordOutputSent(qp: QualifiedPort)
      modifies this`sent
      ensures sent == old(sent)[qp := Desired(View(), qp)]
    {
      sent := sent[qp := Desired(View(), qp)];
    }

    method RecordAll(ports: seq<QualifiedPort>, ghost m: Manager)
      requires m.states == states && m.devices == devices
      modifies this`sent
      ensures sent == Put(old(sent), Chosen(ports), Wish(m))
    {
      hide Put, Desired;
      ghost var before := sent;
      PutNone(before, Wish(m));
      assert Chosen(ports[..0]) == {};
      for i := 0 to |ports|
        invariant sent == Put(before, Chosen(ports[..i]), Wish(m))
      {
        assert Chosen(ports[..i + 1]) == Chosen(ports[..i]) + {ports[i]};
        PutOne(before, Chosen(ports[..i]), ports[i], Wish(m));
        SameWish(m, View(), ports[i]);
        RecordOutputSent(ports[i]);
        SameWish(m, View(), ports[i]);
      }
      assert ports[..|ports|] == ports;
    }

    /** The ports whose state differs from what was sent. */
    method ChangedPorts(ports: seq<QualifiedPort>) returns (changed: seq<QualifiedPort>)
      ensures Chosen(changed) == Picked(ports, Due(View()))
    {
      hide Desired, NeedsSend, Picked;
      changed := [];
      PickedNone(ports, Due(View()));
      for i := 0 to |ports|
        invariant Chosen(changed) == Picked(ports[..i], Due(View()))
      {
        PickedNext(ports, i, Due(View()));
        if NeedsSend(View(), ports[i]) {
          assert Chosen(changed + [ports[i]]) == Chosen(changed) + {ports[i]};
          changed := changed + [ports[i]];
        }
      }
      assert ports[..|ports|] == ports;
    }

    /** The ports that were sent running. */
    method RunningPorts(ports: seq<QualifiedPort>) returns (running: seq<QualifiedPort>)
      ensures Chosen(running) == Picked(ports, Ran(View()))
    {
      hide SentRunning, Picked;
      running := [];
      PickedNone(ports, Ran(View()));
      for i := 0 to |ports|
        invariant Chosen(running) == Picked(ports[..i], Ran(View()))
      {
        PickedNext(ports, i, Ran(View()));
        if SentRunning(View(), ports[i]) {
          assert Chosen(running + [ports[i]]) == Chosen(running) + {ports[i]};
          running := running + [ports[i]];
        }
      }
      assert ports[..|ports|] == ports;
    }

    method BatchStart(ports: seq<QualifiedPort>)
      modifies this`motors, this`sent
      ensures View() == Ports.BatchStart(old(View()), ports)
    {
      hide Ports.BatchStart, Put, Chosen, Picked, Start, Wish, Grouped;
      ghost var m := View();
      var changed := ChangedPorts(ports);
      BatchStartIs(m, ports);
      if |changed| == 0 {
        NothingChosen(m);
        return;
      }
      var groups := GroupByDevice(changed);
      StartGroups(groups, m, Chosen(changed));
      RecordAll(changed, m);
    }

    method BatchStop(ports: seq<QualifiedPort>)
      modifies this`motors, this`sent
      ensures View() == Ports.BatchStop(old(View()), ports)
    {
      hide Ports.BatchStop, Put, Chosen, Picked, Stand, Wish, Grouped;
      ghost var m := View();
      var toStop := RunningPorts(ports);
      BatchStopIs(m, ports);
      if |toStop| > 0 {
        var groups := GroupByDevice(toStop);
        StopGroups(groups, m, Chosen(toStop));
      } else {
        NothingChosen(m);
      }
      RecordAll(ports, m);
    }

    method SyncPort(qp: QualifiedPort)
      modifies this`motors, this`sent
      ensures View() == Synced(old(View()), [qp])
    {
      hide Synced, Desired;
      SyncedOne(View(), qp);
      if qp.device !in devices {
        return;
      }
      var desired := Desired(View(), qp);
      if qp in sent && sent[qp] == desired {
        return;
      }
      if desired.running {
        motors := motors[qp := Driven(desired.direction, desired.power)];
      } else if qp in sent && sent[qp].running {
        motors := motors[qp := Stopped];
      }
      sent := sent[qp := desired];
    }

    method RecordItems(device: string, items: seq<Item>, ghost m: Manager, ghost chosen: set<QualifiedPort>)
      requires Lists(m, device, items, chosen)
      modifies this`sent
      ensures sent == Put(old(sent), OfDevice(chosen, device), Wish(m))
    {
      hide Desired, Put, PortsOf;
      ghost var before := sent;
      PutNothing(before, device, Wish(m));
      for i := 0 to |items|
        invariant sent == Put(before, PortsOf(device, items[..i]), Wish(m))
      {
        var qp := QualifiedPort(device, items[i].port);
        sent := sent[qp := items[i].state];
        PortsOfNext(device, items, i);
        PutOne(before, PortsOf(device, items[..i]), qp, Wish(m));
      }
      assert items[..|items|] == items;
      ListedPorts(m, device, items, chosen);
    }

    /** The plan of a synchronisation: per device what to start, what to stop and what to record. */
    method PlanSync(ports: seq<QualifiedPort>) returns (order: seq<string>, starts: Groups, stops: Groups, records: Groups)
      ensures Plan(View(), ports, order, starts, stops, records)
    {
      hide Plan, Desired, SentRunning;
      order, starts, stops, records := [], map[], map[], map[];
      NoPlan(View(), ports);
      for i := 0 to |ports|
        invariant Plan(View(), ports[..i], order, starts, stops, records)
      {
        var qp := ports[i];
        PlanNext(View(), ports, i, order, starts, stops, records);
        if qp.device !in devices || !NeedsSend(View(), qp) {
          continue;
        }
        var desired := Desired(View(), qp);
        if qp.device !in order {
          order := order + [qp.device];
        }
        if desired.running {
          starts := Added(starts, qp, desired);
        } else if SentRunning(View(), qp) {
          stops := Added(stops, qp, desired);
        }
        records := Added(records, qp, desired);
      }
      assert ports[..|ports|] == ports;
    }

    /** Carries out the plan for one device. */
    method SyncDevice(d: string, starts: Groups, stops: Groups, records: Groups,
                      ghost m: Manager, ghost ports: seq<QualifiedPort>, ghost done: set<string>)
      requires Grouped(m, starts, Picked(ports, Starting(m))) && Grouped(m, stops, Picked(ports, Stopping(m)))
      requires Grouped(m, records, Picked(ports, StaleIn(m))) && d in records
      requires motors == Put(m.motors, Within(Picked(ports, Starting(m)) + Picked(ports, Stopping(m)), done), MotorWish(m))
      requires sent == Put(m.sent, Within(Picked(ports, StaleIn(m)), done), Wish(m))
      modifies this`motors, this`sent
      ensures motors == Put(m.motors, Within(Picked(ports, Starting(m)) + Picked(ports, Stopping(m)), done + {d}), MotorWish(m))
      ensures sent == Put(m.sent, Within(Picked(ports, StaleIn(m)), done + {d}), Wish(m))
    {
      hide Put, Picked, Within, Lists, Start, MotorWish, Wish, Stand, Starting, Stopping, StaleIn;
      ghost var s, t, r := Picked(ports, Starting(m)), Picked(ports, Stopping(m)), Picked(ports, StaleIn(m));
      StartedAndStopped(m, ports, m.motors, done, d);
      if d in starts {
        StartPorts(d, starts[d], m, s);
      } else {
        assert OfDevice(s, d) == {};
        PutNone(motors, Start(m));
      }
      if d in stops {
        StopPorts(d, stops[d], m, t);
      } else {
        assert OfDevice(t, d) == {};
        PutNone(motors, Stand());
      }
      WithinNext(r, done, d);
      PutTwice(m.sent, Within(r, done), OfDevice(r, d), Wish(m));
      RecordItems(d, records[d], m, r);
    }

    /** As if every port had been synchronised by itself, with one batch of starts and one of stops per device. */
    method SyncPorts(ports: seq<QualifiedPort>)
      modifies this`motors, this`sent
      ensures View() == Synced(old(View()), ports)
    {
      hide Synced, Put, Picked, Within, Grouped, MotorWish, Wish, Starting, Stopping, StaleIn;
      ghost var m := View();
      var order, starts, stops, records := PlanSync(ports);
      ghost var s, t, r := Picked(ports, Starting(m)), Picked(ports, Stopping(m)), Picked(ports, StaleIn(m));
      ghost var done: set<string> := {};
      WithinNext(s + t, {}, "");
      WithinNext(r, {}, "");
      PutNone(motors, MotorWish(m));
      PutNone(sent, Wish(m));
      for k := 0 to |order|
        invariant done == set d | d in order[..k]
        invariant motors == Put(m.motors, Within(s + t, done), MotorWish(m))
        invariant sent == Put(m.sent, Within(r, done), Wish(m))
      {
        assert order[k] in order;
        SyncDevice(order[k], starts, stops, records, m, ports, done);
        assert order[..k + 1] == order[..k] + [order[k]];
        done := done + {order[k]};
      }
      assert order[..|order|] == order;
      WithinAll(m, s, starts, done);
      WithinAll(m, t, stops, done);
      WithinAll(m, r, records, done);
      WithinSum(s, t, done);
      SyncedIs(m, ports);
    }

    // ---- Commands ----

    method ResolvePorts(names: seq<string>) returns (r: Result<seq<QualifiedPort>>)
      ensures r == ResolveAll(devices, active, names)
    {
      hide Resolve;
      var resolved: seq<QualifiedPort> := [];
      assert names[0..] == names;
      PrefixedNone(ResolveAll(devices, active, names));
      for i := 0 to |names|
        invariant ResolveAll(devices, active, names) == Prefixed(resolved, ResolveAll(devices, active, names[i..]))
      {
        assert names[i..][0] == names[i] && names[i..][1..] == names[i + 1..];
        var one := Resolve(devices, active, names[i]);
        if one.Err? {
          return Err(one.error);
        }
        PrefixedTwice(resolved, one.value, ResolveAll(devices, active, names[i + 1..]));
        resolved := resolved + [one.value];
      }
      assert names[|names|..] == [] && resolved + [] == resolved;
      return Ok(resolved);
    }

    /** Asks every adapter whether it takes the port as an output. */
    method ValidateOutputs(ports: seq<QualifiedPort>) returns (r: Option<Error>)
      ensures r == Refused(devices, ports)
    {
      assert ports[0..] == ports;
      for i := 0 to |ports|
        invariant Refused(devices, ports) == Refused(devices, ports[i..])
      {
        assert ports[i..][0] == ports[i] && ports[i..][1..] == ports[i + 1..];
        if ports[i].device !in devices {
          return Some(NoDeviceNamed(ports[i].device));
        }
        if ports[i].port !in devices[ports[i].device].outputs {
          return Some(BadOutput(ports[i]));
        }
      }
      return None;
    }

    /** Checks a power level once for every device, before anything is changed. */
    method CheckPower(ports: seq<QualifiedPort>, level: byte) returns (r: Option<Error>)
      ensures r == TooMuch(devices, ports, level)
    {
      var seen: seq<string> := [];
      assert ports[0..] == ports;
      for i := 0 to |ports|
        invariant forall d :: d in seen ==> d in devices && level <= devices[d].maxPower
        invariant TooMuch(devices, ports, level) == TooMuch(devices, ports[i..], level)
      {
        var d := ports[i].device;
        assert ports[i..][0] == ports[i] && ports[i..][1..] == ports[i + 1..];
        if d in seen {
          continue;
        }
        seen := seen + [d];
        if d !in devices {
          return Some(NoDeviceNamed(d));
        }
        if level > devices[d].maxPower {
          return Some(PowerLimit(d, devices[d].maxPower, level));
        }
      }
      return None;
    }

    method CancelFlash(qp: QualifiedPort)
      requires Timed(View())
      modifies this`timers, this`cancelled, this`motors, this`sent
      ensures View() == Ports.CancelFlash(old(View()), qp)
    {
      var key := Key(qp);
      if key in timers {
        var flag := timers[key];
        timers := timers - {key};
        cancelled := cancelled[flag := true];
        if qp.device in devices {
          if devices[qp.device].connected {
            motors := motors[qp := Stopped];
          }
          sent := sent - {qp};
        }
      }
    }

    /** Cancels the flashing of the ports and says whether they are to run. */
    method CancelAndSet(ports: seq<QualifiedPort>, running: bool)
      requires Sound(View()) && forall i :: 0 <= i < |ports| ==> IsOutput(View(), ports[i])
      modifies this
      ensures View() == WithRunning(Ports.CancelAll(old(View()), ports), ports, running)
    {
      hide Sound, WithRunning, Ports.CancelFlash, Ports.CancelAll, Desired, IsOutput;
      ghost var m := View();
      NoneSet(m, running);
      assert ports[..0] == [];
      for i := 0 to |ports|
        invariant View() == WithRunning(Ports.CancelAll(m, ports[..i]), ports[..i], running)
      {
        OutputsOfPart(m, ports, i);
        CancelAllKeeps(m, ports[..i]);
        SetStep(m, ports, i, running);
        TimedNow(Ports.CancelAll(m, ports[..i]), View());
        CancelFlash(ports[i]);
        states := states[ports[i] := Desired(View(), ports[i]).(running := running)];
      }
      assert ports[..|ports|] == ports;
    }

    method On(names: seq<string>) returns (r: Result<()>)
      requires Inv(View())
      modifies this
      ensures View() == Step(old(View()), Op.On(names)) && Inv(View())
      ensures r == Outcome(old(View()), Op.On(names))
    {
      hide Inv, Sound, TurnedOn, Ports.BatchStart, WithRunning, CancelAll, Refused, ResolveAll, IsOutput;
      ghost var m := View();
      StepKeeps(m, Op.On(names));
      var ports := ResolvePorts(names);
      if ports.Err? {
        return Err(ports.error);
      }
      var bad := ValidateOutputs(ports.value);
      if bad.Some? {
        return Err(bad.value);
      }
      AllOutputs(m, ports.value);
      CancelAndSet(ports.value, true);
      BatchStart(ports.value);
      TurnedOnIs(m, ports.value);
      return Ok(());
    }

    method Off(names: seq<string>) returns (r: Result<()>)
      requires Inv(View())
      modifies this
      ensures View() == Step(old(View()), Op.Off(names)) && Inv(View())
      ensures r == Outcome(old(View()), Op.Off(names))
    {
      hide Inv, Sound, TurnedOff, Ports.BatchStop, WithRunning, CancelAll, Refused, ResolveAll, IsOutput;
      ghost var m := View();
      StepKeeps(m, Op.Off(names));
      var ports := ResolvePorts(names);
      if ports.Err? {
        return Err(ports.error);
      }
      var bad := ValidateOutputs(ports.value);
      if bad.Some? {
        return Err(bad.value);
      }
      AllOutputs(m, ports.value);
      CancelAndSet(ports.value, false);
      BatchStop(ports.value);
      TurnedOffIs(m, ports.value);
      return Ok(());
    }

    method CancelEach(ports: seq<QualifiedPort>)
      requires Sound(View()) && forall i :: 0 <= i < |ports| ==> IsOutput(View(), ports[i])
      modifies this
      ensures View() == CancelAll(old(View()), ports)
    {
      hide Sound, Ports.CancelFlash, IsOutput;
      ghost var m := View();
      assert ports[..0] == [];
      for i := 0 to |ports|
        invariant View() == CancelAll(m, ports[..i])
      {
        OutputsOfPart(m, ports, i);
        CancelAllKeeps(m, ports[..i]);
        assert ports[..i + 1][..i] == ports[..i];
        TimedNow(View(), View());
        CancelFlash(ports[i]);
      }
      assert ports[..|ports|] == ports;
    }

    /** A timed run or a rotation: each device drives its ports and leaves them standing. */
    method Move(names: seq<string>) returns (r: Result<()>)
      requires Inv(View())
      modifies this
      ensures View() == Step(old(View()), Op.Move(names)) && Inv(View())
      ensures r == Outcome(old(View()), Op.Move(names))
    {
      hide Inv, Sound, Moved, CancelAll, Refused, ResolveAll, IsOutput, Grouped, Put, Chosen, Wish, Start, Stand;
      ghost var m := View();
      StepKeeps(m, Op.Move(names));
      var ports := ResolvePorts(names);
      if ports.Err? {
        return Err(ports.error);
      }
      var bad := ValidateOutputs(ports.value);
      if bad.Some? {
        return Err(bad.value);
      }
      AllOutputs(m, ports.value);
      CancelEach(ports.value);
      ghost var c := View();
      var groups := GroupByDevice(ports.value);
      StartGroups(groups, c, Chosen(ports.value));
      StopGroups(groups, c, Chosen(ports.value));
      StillAndRecorded(ports.value, c);
      MovedIs(m, ports.value);
      return Ok(());
    }

    /** Notes that the ports stand still, and that this is what was sent. */
    method StillAndRecorded(ports: seq<QualifiedPort>, ghost c: Manager)
      requires View() == c.(motors := motors)
      modifies this`states, this`sent
      ensures View() == WithRunning(c, ports, false).(motors := motors, sent := Put(c.sent, Chosen(ports), Wish(WithRunning(c, ports, false))))
    {
      hide Put, WithRunning, Desired, Wish;
      ghost var motors0 := motors;
      ghost var final := WithRunning(c, ports, false);
      NothingStill(c, ports);
      for i := 0 to |ports|
        invariant View() == WithRunning(c, ports[..i], false).(motors := motors0, sent := Put(c.sent, Chosen(ports[..i]), Wish(final)))
      {
        ghost var before := WithRunning(c, ports[..i], false);
        StillNext(c, ports, i);
        SameWish(before, View(), ports[i]);
        states := states[ports[i] := Desired(View(), ports[i]).(running := false)];
        ghost var set0 := View();
        StillWish(c, ports, i, set0);
        RecordOutputSent(ports[i]);
        SameWish(set0, View(), ports[i]);
      }
      assert ports[..|ports|] == ports;
    }

    method SetDirection(names: seq<string>, direction: Direction)
      requires Inv(View())
      modifies this
      ensures View() == Step(old(View()), Op.SetDirection(names, direction)) && Inv(View())
    {
      hide Inv, Synced, WithDirection, ResolveAll, Desired;
      ghost var m := View();
      StepKeeps(m, Op.SetDirection(names, direction));
      var ports := ResolvePorts(names);
      if ports.Ok? {
        assert ports.value[..0] == [];
        for i := 0 to |ports.value|
          invariant View() == Directed(m, ports.value[..i], direction)
        {
          ghost var before := View();
          var qp := ports.value[i];
          WithDirectionIs(before, qp, direction);
          states := states[qp := Desired(View(), qp).(direction := direction)];
          SyncPort(qp);
          assert ports.value[..i + 1][..i] == ports.value[..i];
        }
        assert ports.value[..|ports.value|] == ports.value;
      }
    }

    method ReverseDirection(names: seq<string>)
      requires Inv(View())
      modifies this
      ensures View() == Step(old(View()), Op.Reverse(names)) && Inv(View())
    {
      hide Inv, Synced, WithDirection, ResolveAll, Desired;
      ghost var m := View();
      StepKeeps(m, Op.Reverse(names));
      var ports := ResolvePorts(names);
      if ports.Ok? {
        assert ports.value[..0] == [];
        for i := 0 to |ports.value|
          invariant View() == Reversed(m, ports.value[..i])
        {
          var qp := ports.value[i];
          var direction := Desired(View(), qp).direction.Toggle();
          WithDirectionIs(View(), qp, direction);
          states := states[qp := Desired(View(), qp).(direction := direction)];
          assert ports.value[..i + 1][..i] == ports.value[..i];
        }
        assert ports.value[..|ports.value|] == ports.value;
        SyncPorts(ports.value);
      }
    }

    method SetPower(names: seq<string>, level: byte) returns (r: Result<()>)
      requires Inv(View())
      modifies this
      ensures View() == Step(old(View()), Op.SetPower(names, level)) && Inv(View())
      ensures r == Outcome(old(View()), Op.SetPower(names, level))
    {
      hide Inv, Synced, WithPower, ResolveAll, TooMuch, Desired;
      ghost var m := View();
      StepKeeps(m, Op.SetPower(names, level));
      var ports := ResolvePorts(names);
      if ports.Err? {
        return Err(ports.error);
      }
      var bad := CheckPower(ports.value, level);
      if bad.Some? {
        return Err(bad.value);
      }
      NoPower(m, ports.value, level);
      for i := 0 to |ports.value|
        invariant View() == WithPower(m, ports.value[..i], level)
      {
        var qp := ports.value[i];
        PowerNext(m, ports.value, i, level);
        var st := Desired(View(), qp).(power := level);
        if level == 0 {
          st := st.(running := false);
        }
        states := states[qp := st];
      }
      assert ports.value[..|ports.value|] == ports.value;
      SyncPorts(ports.value);
      return Ok(());
    }

    method FlashPort(qp: QualifiedPort)
      requires Timed(View())
      modifies this
      ensures View() == FlashOne(old(View()), qp)
    {
      CancelFlash(qp);
      var state := Desired(View(), qp);
      states := states[qp := state];
      motors := motors[qp := Driven(state.direction, state.power)];
      var flag := |cancelled|;
      cancelled := cancelled + [false];
      timers := timers[Key(qp) := flag];
      tasks := tasks + [FlashTask(qp, flag, true)];
    }

    method Flash(names: seq<string>) returns (r: Result<()>)
      requires Inv(View())
      modifies this
      ensures View() == Step(old(View()), Op.Flash(names)) && Inv(View())
      ensures r == Outcome(old(View()), Op.Flash(names))
    {
      hide Inv, Sound, FlashOne, Refused, ResolveAll, IsOutput;
      ghost var m := View();
      StepKeeps(m, Op.Flash(names));
      var ports := ResolvePorts(names);
      if ports.Err? {
        return Err(ports.error);
      }
      var bad := ValidateOutputs(ports.value);
      if bad.Some? {
        return Err(bad.value);
      }
      AllOutputs(m, ports.value);
      assert ports.value[..0] == [];
      for i := 0 to |ports.value|
        invariant View() == FlashAll(m, ports.value[..i])
      {
        OutputsOfPart(m, ports.value, i);
        FlashKeeps(m, ports.value[..i]);
        InvIsTimed(View());
        assert ports.value[..i + 1][..i] == ports.value[..i];
        FlashPort(ports.value[i]);
      }
      assert ports.value[..|ports.value|] == ports.value;
      return Ok(());
    }

    /** One call of a flash task; `again` is what it returns to the scheduler, which drops it if false. */
    method FlashTick(k: nat, due: bool) returns (again: bool)
      requires Inv(View()) && k < |tasks|
      modifies this`tasks, this`motors
      ensures View() == Step(old(View()), Op.Visit(k, due)) && Inv(View())
      ensures again <==> |tasks| == |old(tasks)|
    {
      hide Inv;
      StepKeeps(View(), Op.Visit(k, due));
      InvIsTasked(View());
      var t := tasks[k];
      again := true;
      if cancelled[t.flag] {
        again := false;
      } else if due {
        if t.qp.device !in devices || !devices[t.qp.device].connected {
          again := false;
        } else if t.isOn {
          motors := motors[t.qp := Stopped];
          tasks := tasks[k := t.(isOn := false)];
        } else {
          var state := Desired(View(), t.qp);
          motors := motors[t.qp := Driven(state.direction, state.power)];
          tasks := tasks[k := t.(isOn := true)];
        }
      }
      if !again {
        tasks := tasks[..k] + tasks[k + 1..];
      }
    }

    method EnsurePortStates(names: seq<string>) returns (r: Result<()>)
      requires Inv(View())
      modifies this
      ensures View() == Step(old(View()), Op.TalkTo(names)) && Inv(View())
      ensures r == Outcome(old(View()), Op.TalkTo(names))
    {
      hide Inv, WithEntries, ResolveAll, Desired;
      ghost var m := View();
      StepKeeps(m, Op.TalkTo(names));
      var ports := ResolvePorts(names);
      if ports.Err? {
        return Err(ports.error);
      }
      NoEntriesYet(m, ports.value);
      for i := 0 to |ports.value|
        invariant View() == WithEntries(m, ports.value[..i])
      {
        var qp := ports.value[i];
        EntryNext(m, ports.value, i);
        if qp !in states {
          states := states[qp := Desired(View(), qp)];
        }
      }
      assert ports.value[..|ports.value|] == ports.value;
      return Ok(());
    }

    /** Sets the flags of all timers and forgets the timers. */
    method CancelTimers()
      requires Timed(View())
      modifies this`timers, this`cancelled
      ensures timers == map[]
      ensures cancelled == Raised(old(cancelled), old(timers))
    {
      hide Raised;
      ghost var was := cancelled;
      var keys := timers.Keys;
      NothingRaised(was, timers);
      while keys != {}
        invariant keys <= timers.Keys && timers == old(timers) && |cancelled| == |was|
        invariant forall k :: k in timers ==> timers[k] < |was|
        invariant cancelled == Raised(was, timers - keys)
        decreases |keys|
      {
        var key :| key in keys;
        RaisedOne(was, timers, keys, key);
        cancelled := cancelled[timers[key] := true];
        keys := keys - {key};
      }
      assert timers - {} == timers;
      timers := map[];
    }

    method StopDevice(name: string, ghost m: Manager, ghost done: set<string>)
      requires name in devices && states == Put(m.states, Reachable(m, done), Resting(m)) && sent == m.sent - Reachable(m, done)
      requires motors == Put(m.motors, Reachable(m, done), Stand()) && m.devices == devices
      modifies this`states, this`sent, this`motors
      ensures states == Put(m.states, Reachable(m, done + {name}), Resting(m)) && sent == m.sent - Reachable(m, done + {name})
      ensures motors == Put(m.motors, Reachable(m, done + {name}), Stand())
    {
      hide Put, Resting, Stand, Reachable;
      ReachableNext(m, done, name);
      if !devices[name].connected {
        return;
      }
      RestingKeys(m, done);
      var ports := set qp | qp in states && qp.device == name;
      StopEach(ports, m, Reachable(m, done));
    }

    /** Stops ports one by one, in any order, and forgets what was sent to them. */
    method StopEach(all: set<QualifiedPort>, ghost m: Manager, ghost reached0: set<QualifiedPort>)
      requires reached0 <= m.states.Keys && all <= m.states.Keys
      requires states == Put(m.states, reached0, Resting(m)) && sent == m.sent - reached0 && motors == Put(m.motors, reached0, Stand())
      modifies this`states, this`sent, this`motors
      ensures states == Put(m.states, reached0 + all, Resting(m)) && sent == m.sent - (reached0 + all)
      ensures motors == Put(m.motors, reached0 + all, Stand())
    {
      hide Put, Resting, Stand;
      var ports := all;
      ghost var reached := reached0;
      while ports != {}
        invariant reached <= m.states.Keys && ports <= all
        invariant forall qp :: qp in reached || qp in ports <==> qp in reached0 || qp in all
        invariant states == Put(m.states, reached, Resting(m)) && sent == m.sent - reached && motors == Put(m.motors, reached, Stand())
        decreases |ports|
      {
        var qp :| qp in ports;
        RestNext(m, reached, qp);
        states := states[qp := states[qp].(running := false)];
        sent := sent - {qp};
        motors := motors[qp := Stopped];
        ports := ports - {qp};
        reached := reached + {qp};
      }
      assert reached == reached0 + all;
    }

    method StopDevices(ghost m: Manager)
      requires states == m.states && sent == m.sent && motors == m.motors && devices == m.devices
      modifies this`states, this`sent, this`motors
      ensures states == Ports.AllOff(m).states && sent == Ports.AllOff(m).sent && motors == Ports.AllOff(m).motors
    {
      hide Put, Resting, Stand, Reachable, Ports.AllOff;
      var names := devices.Keys;
      ghost var done: set<string> := {};
      NothingOff(m);
      while names != {}
        invariant names !! done && names + done == m.devices.Keys
        invariant states == Put(m.states, Reachable(m, done), Resting(m)) && sent == m.sent - Reachable(m, done)
        invariant motors == Put(m.motors, Reachable(m, done), Stand())
        decreases |names|
      {
        var name :| name in names;
        StopDevice(name, m, done);
        names := names - {name};
        done := done + {name};
      }
      assert done == m.devices.Keys;
      AllOffIs(m);
    }

    method AllOff()
      requires Inv(View())
      modifies this
      ensures View() == Step(old(View()), Op.StopAll) && Inv(View())
    {
      hide Inv, Timed, Raised, Ports.AllOff, Step;
      ghost var m := View();
      StepKeeps(m, Op.StopAll);
      InvIsTimed(m);
      StepAllOff(m);
      CancelTimers();
      StopDevices(m);
    }
  }

  lemma NothingRaised(was: seq<bool>, timers: map<string, nat>)
    ensures Raised(was, timers - timers.Keys) == was
  {
  }

  lemma RaisedOne(was: seq<bool>, timers: map<string, nat>, keys: set<string>, key: string)
    requires key in keys && keys <= timers.Keys && timers[key] < |was|
    ensures |Raised(was, timers - keys)| == |was|
    ensures Raised(was, timers - keys)[timers[key] := true] == Raised(was, timers - (keys - {key}))
  {
    var less, more := timers - keys, timers - (keys - {key});
    assert more == less[key := timers[key]];
    forall i | 0 <= i < |was| ensures i in more.Values <==> i in less.Values || i == timers[key] {
      assert more[key] == timers[key];
      if i in less.Values {
        var k :| k in less && less[k] == i;
        assert more[k] == i;
      }
    }
  }

  /** What a command answers. */
  function Outcome(m: Manager, op: Op): Result<()> {
    var ports := Selected(m.devices, m.active, op);
    if ports.Err? then Err(ports.error) else Ok(())
  }

  function Prefixed(first: seq<QualifiedPort>, r: Result<seq<QualifiedPort>>): Result<seq<QualifiedPort>> {
    if r.Err? then r else Ok(first + r.value)
  }

  lemma PrefixedNone(r: Result<seq<QualifiedPort>>)
    ensures Prefixed([], r) == r
  {
    if r.Ok? {
      assert [] + r.value == r.value;
    }
  }

  lemma PrefixedTwice(first: seq<QualifiedPort>, x: QualifiedPort, r: Result<seq<QualifiedPort>>)
    ensures Prefixed(first, Prefixed([x], r)) == Prefixed(first + [x], r)
  {
    if r.Ok? {
      assert first + ([x] + r.value) == first + [x] + r.value;
    }
  }

  lemma AllOutputs(m: Manager, ports: seq<QualifiedPort>)
    requires Inv(m) && Refused(m.devices, ports).None?
    ensures Sound(m) && forall i :: 0 <= i < |ports| ==> IsOutput(m, ports[i])
  {
  }

  lemma OutputsOfPart(m: Manager, ports: seq<QualifiedPort>, i: nat)
    requires i <= |ports| && forall j :: 0 <= j < |ports| ==> IsOutput(m, ports[j])
    ensures forall j :: 0 <= j < i ==> IsOutput(m, ports[..i][j])
  {
  }

  lemma TimedNow(c: Manager, v: Manager)
    requires Sound(c) && v == c.(states := v.states)
    ensures Timed(v)
  {
  }

  lemma NoneSet(m: Manager, running: bool)
    ensures WithRunning(CancelAll(m, []), [], running) == m
  {
    assert WithRunning(m, [], running).states == m.states;
  }

  /** One port more is cancelled and set. */
  lemma SetStep(m: Manager, ports: seq<QualifiedPort>, i: nat, running: bool)
    requires i < |ports|
    ensures var before := WithRunning(CancelAll(m, ports[..i]), ports[..i], running);
      && before == CancelAll(m, ports[..i]).(states := before.states)
      && WithRunning(CancelAll(m, ports[..i + 1]), ports[..i + 1], running)
         == Ports.CancelFlash(before, ports[i]).(states := before.states[ports[i] := Desired(before, ports[i]).(running := running)])
    ensures var before := WithRunning(CancelAll(m, ports[..i]), ports[..i], running);
      Desired(Ports.CancelFlash(before, ports[i]), ports[i]) == Desired(before, ports[i])
  {
    hide WithRunning, Desired, Ports.CancelFlash;
    var c := CancelAll(m, ports[..i]);
    var c' := CancelAll(m, ports[..i + 1]);
    assert ports[..i + 1][..i] == ports[..i] && c' == Ports.CancelFlash(c, ports[i]);
    var before := WithRunning(c, ports[..i], running);
    OnlyStates(c, ports[..i], running);
    OnlyStates(c', ports[..i + 1], running);
    CancelIgnoresStates(c, before.states, ports[i]);
    assert ports[..i + 1] == ports[..i] + [ports[i]];
    SetSnoc(c, c', ports[..i], ports[i], running);
    SameWish(before, Ports.CancelFlash(before, ports[i]), ports[i]);
  }

  lemma CancelIgnoresStates(c: Manager, states: map<QualifiedPort, PortState>, qp: QualifiedPort)
    ensures Ports.CancelFlash(c.(states := states), qp) == Ports.CancelFlash(c, qp).(states := states)
    ensures Ports.CancelFlash(c, qp).states == c.states && Ports.CancelFlash(c, qp).devices == c.devices
  {
  }

  lemma WishSet(c: Manager, ports: seq<QualifiedPort>, running: bool, qp: QualifiedPort)
    ensures Desired(WithRunning(c, ports, running), qp)
      == if qp in ports then Desired(c, qp).(running := running) else Desired(c, qp)
  {
  }

  function RunWish(c: Manager, running: bool): QualifiedPort -> PortState {
    qp => Desired(c, qp).(running := running)
  }

  lemma RunningPut(c: Manager, ports: seq<QualifiedPort>, running: bool)
    ensures WithRunning(c, ports, running).states == Put(c.states, Chosen(ports), RunWish(c, running))
  {
    hide Desired;
  }

  lemma SetSnoc(c: Manager, c': Manager, init: seq<QualifiedPort>, last: QualifiedPort, running: bool)
    requires c'.states == c.states && c'.devices == c.devices
    ensures var before := WithRunning(c, init, running);
      WithRunning(c', init + [last], running).states == before.states[last := Desired(before, last).(running := running)]
  {
    hide Desired, WithRunning, Put;
    RunningSame(c, c', init + [last], running);
    WishSet(c, init, running, last);
    RunningPut(c, init, running);
    RunningPut(c, init + [last], running);
    assert Chosen(init + [last]) == Chosen(init) + {last};
    PutOne(c.states, Chosen(init), last, RunWish(c, running));
  }

  lemma TurnedOffIs(m: Manager, ports: seq<QualifiedPort>)
    ensures TurnedOff(m, ports) == Ports.BatchStop(WithRunning(CancelAll(m, ports), ports, false), ports)
  {
  }

  lemma InvIsTimed(m: Manager)
    requires Inv(m)
    ensures Timed(m)
  {
  }

  lemma InvIsTasked(m: Manager)
    requires Inv(m)
    ensures Tasked(m)
  {
  }

  lemma WithDirectionIs(m: Manager, qp: QualifiedPort, direction: Direction)
    ensures WithDirection(m, qp, direction) == m.(states := m.states[qp := Desired(m, qp).(direction := direction)])
  {
  }

  // ---- Loops over what the program wants ----

  lemma NothingStill(c: Manager, ports: seq<QualifiedPort>)
    ensures ports[..0] == [] && WithRunning(c, [], false) == c && Put(c.sent, Chosen([]), Wish(WithRunning(c, ports, false))) == c.sent
  {
    assert WithRunning(c, [], false).states == c.states;
  }

  lemma StillNext(c: Manager, ports: seq<QualifiedPort>, i: nat)
    requires i < |ports|
    ensures var before := WithRunning(c, ports[..i], false);
      WithRunning(c, ports[..i + 1], false) == before.(states := before.states[ports[i] := Desired(before, ports[i]).(running := false)])
    ensures Chosen(ports[..i + 1]) == Chosen(ports[..i]) + {ports[i]}
  {
    assert ports[..i + 1] == ports[..i] + [ports[i]];
    SetSnoc(c, c, ports[..i], ports[i], false);
  }

  lemma StillWish(c: Manager, ports: seq<QualifiedPort>, i: nat, v: Manager)
    requires i < |ports| && v.devices == c.devices && v.states == WithRunning(c, ports[..i + 1], false).states
    ensures Desired(v, ports[i]) == Wish(WithRunning(c, ports, false))(ports[i])
    ensures Put(c.sent, Chosen(ports[..i]), Wish(WithRunning(c, ports, false)))[ports[i] := Desired(v, ports[i])]
      == Put(c.sent, Chosen(ports[..i + 1]), Wish(WithRunning(c, ports, false)))
  {
    hide WithRunning, Desired;
    var final := WithRunning(c, ports, false);
    WishSet(c, ports, false, ports[i]);
    WishSet(c, ports[..i + 1], false, ports[i]);
    RunningIs(c, ports[..i + 1], false);
    SameWish(WithRunning(c, ports[..i + 1], false), v, ports[i]);
    assert ports[..i + 1][i] == ports[i] && ports[..i + 1] == ports[..i] + [ports[i]];
    assert Chosen(ports[..i + 1]) == Chosen(ports[..i]) + {ports[i]};
    PutOne(c.sent, Chosen(ports[..i]), ports[i], Wish(final));
  }

  lemma StoodStill(motors: map<QualifiedPort, Motor>, ports: seq<QualifiedPort>, f: QualifiedPort -> Motor)
    ensures Put(Put(motors, Chosen(ports), f), Chosen(ports), Stand()) == motors + map qp | qp in ports :: Stopped
  {
  }

  lemma SentWish(sent: map<QualifiedPort, PortState>, w: Manager, ports: seq<QualifiedPort>)
    ensures sent + (map qp | qp in ports :: Desired(w, qp)) == Put(sent, Chosen(ports), Wish(w))
  {
    hide Desired;
  }

  lemma OnlyStates(c: Manager, ports: seq<QualifiedPort>, running: bool)
    ensures WithRunning(c, ports, running) == c.(states := WithRunning(c, ports, running).states)
  {
  }

  lemma MovedIs(m: Manager, ports: seq<QualifiedPort>)
    ensures var c := CancelAll(m, ports); var w := WithRunning(c, ports, false);
      Moved(m, ports) == w.(motors := Put(Put(c.motors, Chosen(ports), Start(c)), Chosen(ports), Stand()),
                            sent := Put(c.sent, Chosen(ports), Wish(w)))
  {
    hide CancelAll, Desired, WithRunning, Put, Chosen, Start, Stand, Wish;
    var c := CancelAll(m, ports);
    var w := WithRunning(c, ports, false);
    OnlyStates(c, ports, false);
    StoodStill(c.motors, ports, Start(c));
    SentWish(c.sent, w, ports);
  }

  lemma NoPower(m: Manager, ports: seq<QualifiedPort>, level: byte)
    ensures WithPower(m, ports[..0], level) == m
  {
    assert WithPower(m, ports[..0], level).states == m.states;
  }

  lemma PowerOf(m: Manager, ports: seq<QualifiedPort>, level: byte, qp: QualifiedPort)
    ensures Desired(WithPower(m, ports, level), qp)
      == if qp in ports then Desired(m, qp).(power := level, running := Desired(m, qp).running && level != 0) else Desired(m, qp)
  {
  }

  function PowerWish(m: Manager, level: byte): QualifiedPort -> PortState {
    qp => Desired(m, qp).(power := level, running := Desired(m, qp).running && level != 0)
  }

  lemma PowerPut(m: Manager, ports: seq<QualifiedPort>, level: byte)
    ensures WithPower(m, ports, level) == m.(states := Put(m.states, Chosen(ports), PowerWish(m, level)))
  {
    hide Desired;
    assert WithPower(m, ports, level).states == Put(m.states, Chosen(ports), PowerWish(m, level));
  }

  lemma PowerNext(m: Manager, ports: seq<QualifiedPort>, i: nat, level: byte)
    requires i < |ports|
    ensures var before := WithPower(m, ports[..i], level);
      WithPower(m, ports[..i + 1], level) == before.(states := before.states[ports[i] :=
        Desired(before, ports[i]).(power := level, running := Desired(before, ports[i]).running && level != 0)])
  {
    hide Desired, WithPower, Put;
    PowerOf(m, ports[..i], level, ports[i]);
    PowerPut(m, ports[..i], level);
    PowerPut(m, ports[..i + 1], level);
    assert ports[..i + 1] == ports[..i] + [ports[i]];
    assert Chosen(ports[..i + 1]) == Chosen(ports[..i]) + {ports[i]};
    PutOne(m.states, Chosen(ports[..i]), ports[i], PowerWish(m, level));
  }

  lemma NoEntriesYet(m: Manager, ports: seq<QualifiedPort>)
    ensures WithEntries(m, ports[..0]) == m
  {
    assert ports[..0] == [];
    NoEntries(m);
  }

  lemma EntryNext(m: Manager, ports: seq<QualifiedPort>, i: nat)
    requires i < |ports|
    ensures var before := WithEntries(m, ports[..i]);
      WithEntries(m, ports[..i + 1]) ==
      if ports[i] in before.states then before else before.(states := before.states[ports[i] := Desired(before, ports[i])])
  {
    hide WithEntries, Desired;
    var before := WithEntries(m, ports[..i]);
    assert ports[..i + 1] == ports[..i] + [ports[i]];
    EntriesSnoc(m, ports[..i], ports[i]);
    EntriesShape(m, ports[..i]);
    EntriesShape(m, ports[..i + 1]);
    EntriesWantTheSame(m, before, ports[..i], ports[i]);
    if ports[i] in before.states {
      WishIsState(before, ports[i]);
      assert before.states[ports[i] := before.states[ports[i]]] == before.states;
    }
  }

  lemma EntriesShape(m: Manager, ports: seq<QualifiedPort>)
    ensures WithEntries(m, ports) == m.(states := WithEntries(m, ports).states)
  {
  }

  lemma WishIsState(m: Manager, qp: QualifiedPort)
    requires qp in m.states
    ensures Desired(m, qp) == m.states[qp]
  {
  }

  // ---- Turning everything off ----

  /** The ports with an entry on the connected ones of these devices. */
  function Reachable(m: Manager, names: set<string>): set<QualifiedPort> {
    set qp | qp in m.states && qp.device in names && qp.device in m.devices && m.devices[qp.device].connected
  }

  function Resting(m: Manager): QualifiedPort -> PortState {
    qp => Desired(m, qp).(running := false)
  }

  lemma ReachableNext(m: Manager, done: set<string>, name: string)
    requires name in m.devices
    ensures Reachable(m, done) <= m.states.Keys
    ensures Reachable(m, done + {name})
      == if m.devices[name].connected then Reachable(m, done) + set qp | qp in m.states && qp.device == name else Reachable(m, done)
  {
  }

  lemma RestingKeys(m: Manager, done: set<string>)
    ensures Put(m.states, Reachable(m, done), Resting(m)).Keys == m.states.Keys
  {
  }

  lemma RestNext(m: Manager, reached: set<QualifiedPort>, qp: QualifiedPort)
    requires reached <= m.states.Keys && qp in m.states
    ensures qp in Put(m.states, reached, Resting(m))
    ensures Put(m.states, reached, Resting(m))[qp := Put(m.states, reached, Resting(m))[qp].(running := false)]
      == Put(m.states, reached + {qp}, Resting(m))
    ensures m.sent - reached - {qp} == m.sent - (reached + {qp})
    ensures Put(m.motors, reached, Stand())[qp := Stopped] == Put(m.motors, reached + {qp}, Stand())
  {
    PutOne(m.states, reached, qp, Resting(m));
    PutOne(m.motors, reached, qp, Stand());
  }

  lemma NothingOff(m: Manager)
    ensures Put(m.states, Reachable(m, {}), Resting(m)) == m.states && m.sent - Reachable(m, {}) == m.sent
    ensures Put(m.motors, Reachable(m, {}), Stand()) == m.motors
  {
  }

  lemma StepAllOff(m: Manager)
    ensures var r := Ports.AllOff(m);
      && Step(m, Op.StopAll) == r && r.timers == map[] && r.cancelled == Raised(m.cancelled, m.timers)
      && r.devices == m.devices && r.active == m.active && r.tasks == m.tasks
  {
  }

  lemma AllOffIs(m: Manager)
    ensures var hit := Reachable(m, m.devices.Keys);
      && Ports.AllOff(m).states == Put(m.states, hit, Resting(m)) && Ports.AllOff(m).sent == m.sent - hit
      && Ports.AllOff(m).motors == Put(m.motors, hit, Stand())
  {
    hide Put;
    var hit := Reachable(m, m.devices.Keys);
    assert hit == set qp | qp in m.states && qp.device in m.devices && m.devices[qp.device].connected;
    var resting := map qp | qp in hit :: m.states[qp].(running := false);
    PutMap(m.states, resting, hit, Resting(m));
    var standing: map<QualifiedPort, Motor> := map qp | qp in hit :: Stopped;
    PutMap(m.motors, standing, hit, Stand());
  }

  lemma TurnedOnIs(m: Manager, ports: seq<QualifiedPort>)
    ensures TurnedOn(m, ports) == Ports.BatchStart(WithRunning(CancelAll(m, ports), ports, true), ports)
  {
  }

  lemma WithinAll(m: Manager, chosen: set<QualifiedPort>, groups: Groups, done: set<string>)
    requires Grouped(m, groups, chosen) && groups.Keys <= done
    ensures Within(chosen, done) == chosen
  {
  }

  lemma WithinSum(a: set<QualifiedPort>, b: set<QualifiedPort>, done: set<string>)
    ensures Within(a + b, done) == Within(a, done) + Within(b, done)
  {
  }

  lemma SyncedOne(m: Manager, qp: QualifiedPort)
    ensures Synced(m, [qp]) == if !Stale(m, qp) then m
      else m.(sent := m.sent[qp := Desired(m, qp)],
              motors := if Desired(m, qp).running || SentRunning(m, qp) then m.motors[qp := MotorOf(Desired(m, qp))] else m.motors)
  {
    hide Synced, Put, Picked, Desired, Stale, SentRunning;
    SyncedIs(m, [qp]);
    PickedSingle(qp, Starting(m));
    PickedSingle(qp, Stopping(m));
    PickedSingle(qp, StaleIn(m));
    PutSingle(m.motors, qp, MotorWish(m));
    PutSingle(m.sent, qp, Wish(m));
    var none: set<QualifiedPort> := {};
    assert {qp} + none == {qp} && none + {qp} == {qp} && none + none == none;
  }

  lemma PickedSingle(qp: QualifiedPort, p: QualifiedPort -> bool)
    ensures Picked([qp], p) == if p(qp) then {qp} else {}
  {
  }

  lemma PutSingle<V>(table: map<QualifiedPort, V>, qp: QualifiedPort, f: QualifiedPort -> V)
    ensures Put(table, {qp}, f) == table[qp := f(qp)] && Put(table, {}, f) == table
  {
  }

  // ---- Synchronising several ports ----

  function StaleIn(m: Manager): QualifiedPort -> bool {
    qp => Stale(m, qp)
  }

  function Starting(m: Manager): QualifiedPort -> bool {
    qp => Stale(m, qp) && Desired(m, qp).running
  }

  function Stopping(m: Manager): QualifiedPort -> bool {
    qp => Stale(m, qp) && !Desired(m, qp).running && SentRunning(m, qp)
  }

  function MotorWish(m: Manager): QualifiedPort -> Motor {
    qp => MotorOf(Desired(m, qp))
  }

  /** The chosen ports of these devices. */
  function Within(chosen: set<QualifiedPort>, names: set<string>): set<QualifiedPort> {
    set qp | qp in chosen && qp.device in names
  }

  lemma WithinNext(chosen: set<QualifiedPort>, names: set<string>, d: string)
    ensures Within(chosen, names + {d}) == Within(chosen, names) + OfDevice(chosen, d)
    ensures Within(chosen, {}) == {}
  {
  }

  lemma SamePut<V>(table: map<QualifiedPort, V>, keys: set<QualifiedPort>, f: QualifiedPort -> V, g: QualifiedPort -> V)
    requires forall qp :: qp in keys ==> f(qp) == g(qp)
    ensures Put(table, keys, f) == Put(table, keys, g)
  {
  }

  /** What is started and stopped of one device, taken together. */
  lemma StartedAndStopped(m: Manager, ports: seq<QualifiedPort>, motors: map<QualifiedPort, Motor>, names: set<string>, d: string)
    ensures var s, t := Picked(ports, Starting(m)), Picked(ports, Stopping(m));
      Put(Put(Put(motors, Within(s + t, names), MotorWish(m)), OfDevice(s, d), Start(m)), OfDevice(t, d), Stand())
      == Put(motors, Within(s + t, names + {d}), MotorWish(m))
  {
    hide Put, Within;
    var s, t := Picked(ports, Starting(m)), Picked(ports, Stopping(m));
    var first := Put(motors, Within(s + t, names), MotorWish(m));
    WishOfStarting(m, ports);
    SamePut(first, OfDevice(s, d), Start(m), MotorWish(m));
    PutTwice(motors, Within(s + t, names), OfDevice(s, d), MotorWish(m));
    var second := Put(motors, Within(s + t, names) + OfDevice(s, d), MotorWish(m));
    SamePut(second, OfDevice(t, d), Stand(), MotorWish(m));
    PutTwice(motors, Within(s + t, names) + OfDevice(s, d), OfDevice(t, d), MotorWish(m));
    WithinNext(s + t, names, d);
    assert Within(s + t, names) + OfDevice(s, d) + OfDevice(t, d) == Within(s + t, names + {d});
  }

  lemma WishOfStarting(m: Manager, ports: seq<QualifiedPort>)
    ensures forall qp :: qp in Picked(ports, Starting(m)) ==> Start(m)(qp) == MotorWish(m)(qp)
    ensures forall qp :: qp in Picked(ports, Stopping(m)) ==> Stand()(qp) == MotorWish(m)(qp)
  {
  }

  lemma SyncedMotors(m: Manager, ports: seq<QualifiedPort>)
    ensures Synced(m, ports).motors == Put(m.motors, Picked(ports, Starting(m)) + Picked(ports, Stopping(m)), MotorWish(m))
  {
    hide Desired, Stale, SentRunning, Put, MotorOf;
    var entries := map qp | qp in ports && Stale(m, qp) && (Desired(m, qp).running || SentRunning(m, qp)) :: MotorOf(Desired(m, qp));
    PutMap(m.motors, entries, Picked(ports, Starting(m)) + Picked(ports, Stopping(m)), MotorWish(m));
  }

  lemma SyncedSent(m: Manager, ports: seq<QualifiedPort>)
    ensures Synced(m, ports).sent == Put(m.sent, Picked(ports, StaleIn(m)), Wish(m))
  {
    hide Desired, Stale, Put;
    var entries := map qp | qp in ports && Stale(m, qp) :: Desired(m, qp);
    PutMap(m.sent, entries, Picked(ports, StaleIn(m)), Wish(m));
  }

  lemma SyncedIs(m: Manager, ports: seq<QualifiedPort>)
    ensures var s, t, r := Picked(ports, Starting(m)), Picked(ports, Stopping(m)), Picked(ports, StaleIn(m));
      Synced(m, ports) == m.(motors := Put(m.motors, s + t, MotorWish(m)), sent := Put(m.sent, r, Wish(m)))
  {
    hide Put, Picked, Desired;
    SyncedMotors(m, ports);
    SyncedSent(m, ports);
  }

  /** What the plan of a synchronisation holds for some of the ports. */
  ghost predicate Plan(m: Manager, ports: seq<QualifiedPort>, order: seq<string>, starts: Groups, stops: Groups, records: Groups) {
    && Grouped(m, starts, Picked(ports, Starting(m)))
    && Grouped(m, stops, Picked(ports, Stopping(m)))
    && Grouped(m, records, Picked(ports, StaleIn(m)))
    && (forall d :: d in order <==> d in records)
    && starts.Keys <= records.Keys && stops.Keys <= records.Keys
  }

  lemma NoPlan(m: Manager, ports: seq<QualifiedPort>)
    ensures Plan(m, ports[..0], [], map[], map[], map[])
  {
  }

  lemma PlanNext(m: Manager, ports: seq<QualifiedPort>, i: nat, order: seq<string>, starts: Groups, stops: Groups, records: Groups)
    requires i < |ports| && Plan(m, ports[..i], order, starts, stops, records)
    ensures !Stale(m, ports[i]) ==> Plan(m, ports[..i + 1], order, starts, stops, records)
    ensures Stale(m, ports[i]) ==>
      Plan(m, ports[..i + 1], if ports[i].device in order then order else order + [ports[i].device],
           if Desired(m, ports[i]).running then Added(starts, ports[i], Desired(m, ports[i])) else starts,
           if !Desired(m, ports[i]).running && SentRunning(m, ports[i]) then Added(stops, ports[i], Desired(m, ports[i])) else stops,
           Added(records, ports[i], Desired(m, ports[i])))
  {
    hide Grouped, Picked, Desired;
    PickedNext(ports, i, Starting(m));
    PickedNext(ports, i, Stopping(m));
    PickedNext(ports, i, StaleIn(m));
    AddedIs(m, starts, Picked(ports[..i], Starting(m)), ports[i]);
    AddedIs(m, stops, Picked(ports[..i], Stopping(m)), ports[i]);
    AddedIs(m, records, Picked(ports[..i], StaleIn(m)), ports[i]);
  }

  lemma PickedNone(ports: seq<QualifiedPort>, p: QualifiedPort -> bool)
    ensures Picked(ports[..0], p) == {} && Chosen([]) == {}
  {
  }

  /** A table with entries from a map, and the same entries by a function. */
  lemma PutMap<V>(table: map<QualifiedPort, V>, entries: map<QualifiedPort, V>, keys: set<QualifiedPort>, f: QualifiedPort -> V)
    requires entries.Keys == keys && forall qp :: qp in entries ==> entries[qp] == f(qp)
    ensures table + entries == Put(table, keys, f)
  {
  }

  lemma StartMotors(m: Manager, ports: seq<QualifiedPort>)
    ensures Ports.BatchStart(m, ports).motors == Put(m.motors, Picked(ports, Due(m)), Start(m))
  {
    hide Desired, NeedsSend, Put;
    var entries := map qp | qp in ports && NeedsSend(m, qp) :: Driven(Desired(m, qp).direction, Desired(m, qp).power);
    PutMap(m.motors, entries, Picked(ports, Due(m)), Start(m));
  }

  lemma StartSent(m: Manager, ports: seq<QualifiedPort>)
    ensures Ports.BatchStart(m, ports).sent == Put(m.sent, Picked(ports, Due(m)), Wish(m))
  {
    hide Desired, NeedsSend, Put;
    var entries := map qp | qp in ports && NeedsSend(m, qp) :: Desired(m, qp);
    PutMap(m.sent, entries, Picked(ports, Due(m)), Wish(m));
  }

  lemma StopMotors(m: Manager, ports: seq<QualifiedPort>)
    ensures Ports.BatchStop(m, ports).motors == Put(m.motors, Picked(ports, Ran(m)), Stand())
  {
    hide Desired, SentRunning, Put;
    var entries: map<QualifiedPort, Motor> := map qp | qp in ports && SentRunning(m, qp) :: Stopped;
    PutMap(m.motors, entries, Picked(ports, Ran(m)), Stand());
  }

  lemma StopSent(m: Manager, ports: seq<QualifiedPort>)
    ensures Ports.BatchStop(m, ports).sent == Put(m.sent, Chosen(ports), Wish(m))
  {
    hide Desired, Put;
    var entries := map qp | qp in ports :: Desired(m, qp);
    PutMap(m.sent, entries, Chosen(ports), Wish(m));
  }

  lemma BatchStartIs(m: Manager, ports: seq<QualifiedPort>)
    ensures Ports.BatchStart(m, ports)
      == m.(motors := Put(m.motors, Picked(ports, Due(m)), Start(m)), sent := Put(m.sent, Picked(ports, Due(m)), Wish(m)))
  {
    hide Put, Picked, Desired, NeedsSend;
    StartMotors(m, ports);
    StartSent(m, ports);
  }

  lemma BatchStopIs(m: Manager, ports: seq<QualifiedPort>)
    ensures Ports.BatchStop(m, ports)
      == m.(motors := Put(m.motors, Picked(ports, Ran(m)), Stand()), sent := Put(m.sent, Chosen(ports), Wish(m)))
  {
    hide Put, Picked, Desired, SentRunning, Chosen;
    StopMotors(m, ports);
    StopSent(m, ports);
  }

  lemma NothingChosen(m: Manager)
    ensures Put(m.motors, Chosen([]), Start(m)) == m.motors && Put(m.motors, Chosen([]), Stand()) == m.motors
    ensures Put(m.sent, Chosen([]), Wish(m)) == m.sent
  {
  }

  function Picked(ports: seq<QualifiedPort>, p: QualifiedPort -> bool): set<QualifiedPort> {
    set qp | qp in ports && p(qp)
  }

  lemma PickedNext(ports: seq<QualifiedPort>, i: nat, p: QualifiedPort -> bool)
    requires i < |ports|
    ensures Picked(ports[..i + 1], p) == if p(ports[i]) then Picked(ports[..i], p) + {ports[i]} else Picked(ports[..i], p)
    ensures ports[..|ports|] == ports && Picked(ports[..0], p) == {}
  {
    assert ports[..i + 1] == ports[..i] + [ports[i]];
  }

  lemma PutNothing<V>(table: map<QualifiedPort, V>, device: string, f: QualifiedPort -> V)
    ensures Put(table, PortsOf(device, []), f) == table
  {
  }

  lemma PutNone<V>(table: map<QualifiedPort, V>, f: QualifiedPort -> V)
    ensures Put(table, {}, f) == table
  {
  }

  lemma NoGroups(m: Manager)
    ensures Grouped(m, map[], {})
  {
  }
}
