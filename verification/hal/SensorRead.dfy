/** Reading several sensor ports: one batch per device, put back into the order of the selection. */
module SensorRead {
  import opened Bytes
  import opened Ports

  datatype Value = Word(text: string) | Number(lexeme: string) | List(items: seq<Value>)

  datatype ReadError =
    | NothingSelected
    | Unresolved(error: Ports.Error)
    | NotConnected(device: string)
    | NotASensor(qp: QualifiedPort)
    | Failed(message: string)

  datatype Reading = Got(value: Option<Value>) | Fault(message: string)

  datatype Answer = Read(value: Option<Value>) | Refusal(error: ReadError)

  /** What each port would say, read by itself. */
  type Sensors = QualifiedPort -> Reading

  predicate Fails(sensors: Sensors, qp: QualifiedPort) {
    sensors(qp).Fault?
  }

  /** A port without a value reads as false. */
  function OrFalse(v: Option<Value>): Value {
    if v.Some? then v.value else Word("false")
  }

  // ---- Which ports may be read ----

  function Complaint(devices: map<string, Device>, accepts: QualifiedPort -> bool, qp: QualifiedPort): Option<ReadError> {
    if qp.device !in devices then Some(Unresolved(NoDeviceNamed(qp.device)))
    else if !devices[qp.device].connected then Some(NotConnected(qp.device))
    else if !accepts(qp) then Some(NotASensor(qp))
    else None
  }

  /** A port may be read exactly if its device is there and connected and takes it for a sensor; the first of these that fails is reported. */
  lemma ReadableIff(devices: map<string, Device>, accepts: QualifiedPort -> bool, qp: QualifiedPort)
    ensures var c := Complaint(devices, accepts, qp); var d := qp.device;
      && (c == Some(Unresolved(NoDeviceNamed(d))) <==> d !in devices)
      && (c == Some(NotConnected(d)) <==> d in devices && !devices[d].connected)
      && (c == Some(NotASensor(qp)) <==> d in devices && devices[d].connected && !accepts(qp))
      && (c == None <==> d in devices && devices[d].connected && accepts(qp))
  {
  }

  /** The first port of the selection that may not be read, and why. */
  ghost predicate FirstComplaint(devices: map<string, Device>, accepts: QualifiedPort -> bool, ports: seq<QualifiedPort>, i: nat, e: ReadError) {
    && i < |ports| && Complaint(devices, accepts, ports[i]) == Some(e)
    && forall j :: 0 <= j < i ==> Complaint(devices, accepts, ports[j]).None?
  }

  // ---- Where a failure is noticed first ----

  /** The first port of a device in the selection. */
  ghost predicate IsFirst(ports: seq<QualifiedPort>, i: nat, device: string) {
    i < |ports| && ports[i].device == device && forall j :: 0 <= j < i ==> ports[j].device != device
  }

  ghost predicate Before(ports: seq<QualifiedPort>, i: nat, j: nat) {
    exists a: nat, b: nat :: i < |ports| && j < |ports| && IsFirst(ports, a, ports[i].device) && IsFirst(ports, b, ports[j].device)
      && (a < b || (a == b && i <= j))
  }

  /** The failing port that reading device by device comes to first. */
  ghost predicate FailsFirst(ports: seq<QualifiedPort>, sensors: Sensors, i: nat) {
    i < |ports| && Fails(sensors, ports[i]) && forall j: nat :: j < |ports| && Fails(sensors, ports[j]) ==> Before(ports, i, j)
  }

  // ---- Grouping ----

  /** Where a device comes up first. */
  function First(ports: seq<QualifiedPort>, d: string): nat {
    if ports == [] || ports[0].device == d then 0 else 1 + First(ports[1..], d)
  }

  lemma {:induction false} FirstIs(ports: seq<QualifiedPort>, i: nat)
    requires i < |ports|
    ensures First(ports, ports[i].device) <= i && IsFirst(ports, First(ports, ports[i].device), ports[i].device)
    decreases ports
  {
    var d := ports[i].device;
    if ports[0].device != d {
      assert ports[1..][i - 1] == ports[i];
      FirstIs(ports[1..], i - 1);
      var k := First(ports[1..], d);
      forall j | 0 <= j < k + 1 ensures ports[j].device != d {
        if j > 0 {
          assert ports[1..][j - 1] == ports[j];
        }
      }
    }
  }

  /** The positions of each device in the selection, and the devices in the order in which they come up. */
  ghost predicate Groups(ports: seq<QualifiedPort>, n: nat, order: seq<string>, byDevice: map<string, seq<nat>>) {
    && n <= |ports|
    && (forall a :: 0 <= a < |order| ==> IsFirst(ports, First(ports, order[a]), order[a]) && First(ports, order[a]) < n)
    && (forall a, b :: 0 <= a < b < |order| ==> First(ports, order[a]) < First(ports, order[b]))
    && (forall d :: d in byDevice <==> d in order)
    && (forall i :: 0 <= i < n ==> ports[i].device in byDevice && i in byDevice[ports[i].device])
    && (forall d :: d in byDevice ==> Positions(ports, n, d, byDevice[d]))
  }

  ghost predicate Positions(ports: seq<QualifiedPort>, n: nat, d: string, idxs: seq<nat>) {
    && (forall k :: 0 <= k < |idxs| ==> idxs[k] < n <= |ports| && ports[idxs[k]].device == d)
    && (forall k, l :: 0 <= k < l < |idxs| ==> idxs[k] < idxs[l])
  }

  method GroupPositions(ports: seq<QualifiedPort>) returns (order: seq<string>, byDevice: map<string, seq<nat>>)
    ensures Groups(ports, |ports|, order, byDevice)
  {
    hide Groups;
    order, byDevice := [], map[];
    NoGroups(ports);
    for i := 0 to |ports|
      invariant Groups(ports, i, order, byDevice)
    {
      var d := ports[i].device;
      ghost var order0, by0 := order, byDevice;
      if d !in byDevice {
        order := order + [d];
        byDevice := byDevice[d := []];
      }
      assert byDevice[d] + [i] == if d in by0 then by0[d] + [i] else [i];
      byDevice := byDevice[d := byDevice[d] + [i]];
      assert d !in by0 ==> byDevice == by0[d := [i]];
      GroupsNext(ports, i, order0, by0, order, byDevice);
    }
  }

  lemma NoGroups(ports: seq<QualifiedPort>)
    ensures Groups(ports, 0, [], map[])
  {
  }

  lemma GroupsNext(ports: seq<QualifiedPort>, i: nat, order0: seq<string>, by0: map<string, seq<nat>>,
                   order: seq<string>, byDevice: map<string, seq<nat>>)
    requires i < |ports| && Groups(ports, i, order0, by0)
    requires var d := ports[i].device;
      if d in by0 then order == order0 && byDevice == by0[d := by0[d] + [i]]
      else order == order0 + [d] && byDevice == by0[d := [i]]
    ensures Groups(ports, i + 1, order, byDevice)
  {
    hide IsFirst, Positions, First;
    var d := ports[i].device;
    if d !in by0 {
      NewDevice(ports, i, order0, by0);
    }
    forall e | e in byDevice ensures Positions(ports, i + 1, e, byDevice[e]) {
      if e in by0 {
        assert Positions(ports, i, e, by0[e]);
        PositionsGrow(ports, i, e, by0[e]);
      } else {
        PositionsGrow(ports, i, e, []);
      }
    }
    assert forall e :: e in order <==> e in order0 || (d !in by0 && e == d);
  }

  lemma PositionsGrow(ports: seq<QualifiedPort>, i: nat, d: string, idxs: seq<nat>)
    requires i < |ports| && (idxs == [] || Positions(ports, i, d, idxs))
    ensures Positions(ports, i + 1, d, idxs) && (ports[i].device == d ==> Positions(ports, i + 1, d, idxs + [i]))
    ensures Positions(ports, i, d, []) && [] + [i] == [i]
  {
  }

  lemma NewDevice(ports: seq<QualifiedPort>, i: nat, order: seq<string>, byDevice: map<string, seq<nat>>)
    requires i < |ports| && Groups(ports, i, order, byDevice) && ports[i].device !in byDevice
    ensures First(ports, ports[i].device) == i && IsFirst(ports, i, ports[i].device)
  {
    hide Positions;
    FirstIs(ports, i);
  }

  // ---- Reading ----

  /** An adapter that reads its ports in turn; `at` is where it gave up. */
  method ReadSensors(device: string, ports: seq<string>, sensors: Sensors) returns (r: Option<seq<Option<Value>>>, fault: string, ghost at: nat)
    ensures r.Some? ==> |r.value| == |ports|
    ensures r.Some? ==> forall k :: 0 <= k < |ports| ==> sensors(QualifiedPort(device, ports[k])) == Got(r.value[k])
    ensures r.None? ==> at < |ports| && sensors(QualifiedPort(device, ports[at])) == Fault(fault)
    ensures r.None? ==> forall k :: 0 <= k < at ==> !Fails(sensors, QualifiedPort(device, ports[k]))
  {
    var out: seq<Option<Value>> := [];
    fault := "";
    at := 0;
    for k := 0 to |ports|
      invariant |out| == k && forall l :: 0 <= l < k ==> sensors(QualifiedPort(device, ports[l])) == Got(out[l])
    {
      var one := sensors(QualifiedPort(device, ports[k]));
      if one.Fault? {
        return None, one.message, k;
      }
      out := out + [one.value];
    }
    r := Some(out);
  }

  /** Every position of the first devices has its value. */
  ghost predicate Filled(ports: seq<QualifiedPort>, sensors: Sensors, order: seq<string>, k: nat, scattered: seq<Option<Value>>) {
    |scattered| == |ports| && k <= |order| &&
    forall i :: 0 <= i < |ports| && ports[i].device in order[..k] ==> sensors(ports[i]) == Got(scattered[i])
  }

  /** The values of all ports, in the order of the selection. */
  function Values(ports: seq<QualifiedPort>, sensors: Sensors): (r: seq<Value>)
    ensures |r| == |ports|
  {
    seq(|ports|, i requires 0 <= i < |ports| => OrFalse(if sensors(ports[i]).Got? then sensors(ports[i]).value else None))
  }

  /** Each port gives its own value, a port without one the word `false`. */
  lemma ValueIs(ports: seq<QualifiedPort>, sensors: Sensors, i: nat, v: Value)
    requires i < |ports|
    ensures sensors(ports[i]) == Got(Some(v)) ==> Values(ports, sensors)[i] == v
    ensures sensors(ports[i]) == Got(None) ==> Values(ports, sensors)[i] == Word(['f', 'a', 'l', 's', 'e'])
  {
  }

  /** The values of one device, put to the positions they came from. */
  method Scatter(ports: seq<QualifiedPort>, sensors: Sensors, d: string, idxs: seq<nat>, vals: seq<Option<Value>>, scattered0: seq<Option<Value>>)
    returns (scattered: seq<Option<Value>>)
    requires Positions(ports, |ports|, d, idxs) && |scattered0| == |ports| && |vals| == |idxs|
    requires forall k :: 0 <= k < |idxs| ==> sensors(ports[idxs[k]]) == Got(vals[k])
    ensures |scattered| == |ports|
    ensures forall i :: 0 <= i < |ports| && i in idxs ==> sensors(ports[i]) == Got(scattered[i])
    ensures forall i :: 0 <= i < |ports| && i !in idxs ==> scattered[i] == scattered0[i]
  {
    scattered := scattered0;
    for k := 0 to |idxs|
      invariant |scattered| == |ports|
      invariant forall l :: 0 <= l < k ==> scattered[idxs[l]] == vals[l]
      invariant forall i :: 0 <= i < |ports| && i !in idxs ==> scattered[i] == scattered0[i]
    {
      scattered := scattered[idxs[k] := vals[k]];
    }
  }

  lemma FailureIsFirst(ports: seq<QualifiedPort>, sensors: Sensors, order: seq<string>, byDevice: map<string, seq<nat>>,
                       scattered: seq<Option<Value>>, k: nat, at: nat)
    requires Groups(ports, |ports|, order, byDevice) && k < |order| && Filled(ports, sensors, order, k, scattered)
    requires at < |byDevice[order[k]]| && Fails(sensors, ports[byDevice[order[k]][at]])
    requires forall l :: 0 <= l < at ==> !Fails(sensors, ports[byDevice[order[k]][l]])
    ensures FailsFirst(ports, sensors, byDevice[order[k]][at])
  {
    var idxs := byDevice[order[k]];
    var i := idxs[at];
    assert Positions(ports, |ports|, order[k], idxs);
    forall a | 0 <= a < k ensures order[a] in order[..k] {
      assert order[..k][a] == order[a];
    }
    forall j: nat | j < |ports| && Fails(sensors, ports[j]) ensures Before(ports, i, j) {
      var e := ports[j].device;
      assert e in order;
      var b :| 0 <= b < |order| && order[b] == e;
      assert IsFirst(ports, First(ports, order[k]), order[k]) && IsFirst(ports, First(ports, order[b]), order[b]);
      if b == k {
        assert j in idxs;
      }
    }
  }

  /**
   * Two or more ports: device by device. If all can be read, the list holds what each says by itself, in the order
   * of the selection, repeats included; else the answer is the failure that reading device by device meets first.
   */
  method ReadSeveral(ports: seq<QualifiedPort>, sensors: Sensors) returns (r: Answer, ghost at: nat)
    ensures (forall i :: 0 <= i < |ports| ==> !Fails(sensors, ports[i])) ==> r == Read(Some(List(Values(ports, sensors))))
    ensures (exists i :: 0 <= i < |ports| && Fails(sensors, ports[i])) ==>
      FailsFirst(ports, sensors, at) && r == Refusal(Failed(sensors(ports[at]).message))
  {
    hide FailsFirst, Groups;
    at := 0;
    var order, byDevice;
    order, byDevice := GroupPositions(ports);
    var scattered: seq<Option<Value>> := seq(|ports|, i => None);
    for k := 0 to |order|
      invariant Filled(ports, sensors, order, k, scattered)
    {
      var d := order[k];
      GroupOf(ports, order, byDevice, k);
      var idxs := byDevice[d];
      var portRefs := seq(|idxs|, j requires 0 <= j < |idxs| => ports[idxs[j]].port);
      assert forall j :: 0 <= j < |idxs| ==> QualifiedPort(d, portRefs[j]) == ports[idxs[j]];
      var vals, fault;
      ghost var stopped;
      vals, fault, stopped := ReadSensors(d, portRefs, sensors);
      if vals.None? {
        at := idxs[stopped];
        FailureIsFirst(ports, sensors, order, byDevice, scattered, k, stopped);
        return Refusal(Failed(fault)), at;
      }
      ghost var before := scattered;
      scattered := Scatter(ports, sensors, d, idxs, vals.value, scattered);
      assert order[..k + 1] == order[..k] + [d];
    }
    AllFilled(ports, sensors, order, byDevice, scattered);
    var results := seq(|scattered|, i requires 0 <= i < |scattered| => OrFalse(scattered[i]));
    assert results == Values(ports, sensors);
    r := Read(Some(List(results)));
  }

  lemma GroupOf(ports: seq<QualifiedPort>, order: seq<string>, byDevice: map<string, seq<nat>>, k: nat)
    requires Groups(ports, |ports|, order, byDevice) && k < |order|
    ensures order[k] in byDevice && Positions(ports, |ports|, order[k], byDevice[order[k]])
    ensures forall i :: 0 <= i < |ports| ==> (ports[i].device == order[k] <==> i in byDevice[order[k]])
  {
    assert Positions(ports, |ports|, order[k], byDevice[order[k]]);
  }

  lemma AllFilled(ports: seq<QualifiedPort>, sensors: Sensors, order: seq<string>, byDevice: map<string, seq<nat>>, scattered: seq<Option<Value>>)
    requires Groups(ports, |ports|, order, byDevice) && Filled(ports, sensors, order, |order|, scattered)
    ensures forall i :: 0 <= i < |ports| ==> sensors(ports[i]) == Got(scattered[i])
  {
    assert order[..|order|] == order;
  }

  /** The whole command. */
  method ReadSensor(devices: map<string, Device>, active: Option<string>, names: seq<string>, accepts: QualifiedPort -> bool, sensors: Sensors)
    returns (r: Answer)
    ensures names == [] ==> r == Refusal(NothingSelected)
    ensures names != [] && ResolveAll(devices, active, names).Err? ==> r == Refusal(Unresolved(ResolveAll(devices, active, names).error))
    ensures names != [] && ResolveAll(devices, active, names).Ok? ==>
      var ports := ResolveAll(devices, active, names).value;
      if exists i :: 0 <= i < |ports| && Complaint(devices, accepts, ports[i]).Some? then
        r.Refusal? && exists i: nat :: FirstComplaint(devices, accepts, ports, i, r.error)
      else if exists i :: 0 <= i < |ports| && Fails(sensors, ports[i]) then
        exists i: nat :: FailsFirst(ports, sensors, i) && r == Refusal(Failed(sensors(ports[i]).message))
      else if |ports| == 1 then r == Read(sensors(ports[0]).value)
      else r == Read(Some(List(Values(ports, sensors))))
  {
    hide Complaint;
    if |names| == 0 {
      return Refusal(NothingSelected);
    }
    var resolved := ResolveAll(devices, active, names);
    if resolved.Err? {
      return Refusal(Unresolved(resolved.error));
    }
    var ports := resolved.value;
    for i := 0 to |ports|
      invariant forall j :: 0 <= j < i ==> Complaint(devices, accepts, ports[j]).None?
    {
      var c := Complaint(devices, accepts, ports[i]);
      if c.Some? {
        assert FirstComplaint(devices, accepts, ports, i, c.value);
        return Refusal(c.value);
      }
    }
    if |ports| == 1 {
      var one := sensors(ports[0]);
      if one.Fault? {
        assert IsFirst(ports, 0, ports[0].device) && FailsFirst(ports, sensors, 0);
        return Refusal(Failed(one.message));
      }
      return Read(one.value);
    }
    ghost var at;
    r, at := ReadSeveral(ports, sensors);
  }
}
