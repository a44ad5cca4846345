/** What the port manager keeps about ports, and what its commands make of it. */
module Ports {
  import opened Bytes

  datatype Direction = Even | Odd {
    function Toggle(): Direction {
      if Even? then Odd else Even
    }
  }

  datatype QualifiedPort = QualifiedPort(device: string, port: string)

  /** Desired by the program, and also what was last sent. */
  datatype PortState = PortState(direction: Direction, power: byte, running: bool)

  /** What the hardware of a port does. */
  datatype Motor = Stopped | Driven(direction: Direction, power: byte)

  /** `outputs` are the ports that the adapter accepts. */
  datatype Device = Device(outputs: set<string>, maxPower: byte, connected: bool)

  /** A periodic task that toggles a port until its flag is set. */
  datatype FlashTask = FlashTask(qp: QualifiedPort, flag: nat, isOn: bool)

  /**
   * The manager and its surroundings. The tables kept per device are indexed by device and port together.
   * A flash timer is a flag, by its number, under a key made of device and port; `cancelled` are the flags.
   */
  datatype Manager = Manager(
    devices: map<string, Device>, active: Option<string>,
    states: map<QualifiedPort, PortState>, sent: map<QualifiedPort, PortState>,
    timers: map<string, nat>, cancelled: seq<bool>, tasks: seq<FlashTask>,
    motors: map<QualifiedPort, Motor>)

  datatype Error =
    | NoDeviceNamed(name: string)
    | NoDeviceConnected
    | BadOutput(qp: QualifiedPort)
    | PowerLimit(device: string, max: byte, level: byte)

  datatype Result<T> = Ok(value: T) | Err(error: Error)

  // ---- Looking things up ----

  function DefaultPower(m: Manager, device: string): byte {
    if device in m.devices then m.devices[device].maxPower / 2 else 4
  }

  /** What the program wants of a port: nothing, at half power, unless it has said so. */
  function Desired(m: Manager, qp: QualifiedPort): PortState {
    if qp in m.states then m.states[qp] else PortState(Even, DefaultPower(m, qp.device), false)
  }

  function MotorOf(st: PortState): Motor {
    if st.running then Driven(st.direction, st.power) else Stopped
  }

  function MotorAt(m: Manager, qp: QualifiedPort): Motor {
    if qp in m.motors then m.motors[qp] else Stopped
  }

  function Key(qp: QualifiedPort): string {
    qp.device + ":" + qp.port
  }

  predicate Flashing(m: Manager, qp: QualifiedPort) {
    Key(qp) in m.timers
  }

  predicate IsOutput(m: Manager, qp: QualifiedPort) {
    qp.device in m.devices && qp.port in m.devices[qp.device].outputs
  }

  /** An output of a device that is there. */
  predicate Live(m: Manager, qp: QualifiedPort) {
    IsOutput(m, qp) && m.devices[qp.device].connected
  }

  // ---- Names of ports ----

  /** The first dot of a name. */
  function Dot(s: string): (r: Option<nat>)
    ensures r.Some? ==> r.value < |s| && s[r.value] == '.' && '.' !in s[..r.value]
    ensures r.None? ==> '.' !in s
  {
    if s == "" then None
    else if s[0] == '.' then Some(0)
    else
      var rest := Dot(s[1..]);
      if rest.Some? then Some(rest.value + 1) else None
  }

  function Resolve(devices: map<string, Device>, active: Option<string>, s: string): (r: Result<QualifiedPort>)
    ensures r.Ok? && (active.Some? ==> active.value in devices) ==> r.value.device in devices
  {
    var dot := Dot(s);
    if dot.Some? then
      if s[..dot.value] in devices then Ok(QualifiedPort(s[..dot.value], s[dot.value + 1..])) else Err(NoDeviceNamed(s[..dot.value]))
    else if active.Some? then Ok(QualifiedPort(active.value, s))
    else Err(NoDeviceConnected)
  }

  function ResolveAll(devices: map<string, Device>, active: Option<string>, names: seq<string>): (r: Result<seq<QualifiedPort>>)
    ensures r.Ok? ==> |r.value| == |names|
    ensures r.Ok? && (active.Some? ==> active.value in devices) ==> forall qp :: qp in r.value ==> qp.device in devices
  {
    if names == [] then Ok([])
    else
      var first := Resolve(devices, active, names[0]);
      if first.Err? then Err(first.error)
      else
        var rest := ResolveAll(devices, active, names[1..]);
        if rest.Err? then rest else Ok([first.value] + rest.value)
  }

  /** The first port that its adapter does not take as an output, or whose device is gone. */
  function Refused(devices: map<string, Device>, ports: seq<QualifiedPort>): (r: Option<Error>)
    ensures r.None? <==> forall i :: 0 <= i < |ports| ==> ports[i].device in devices && ports[i].port in devices[ports[i].device].outputs
  {
    if ports == [] then None
    else if ports[0].device !in devices then Some(NoDeviceNamed(ports[0].device))
    else if ports[0].port !in devices[ports[0].device].outputs then Some(BadOutput(ports[0]))
    else Refused(devices, ports[1..])
  }

  /** The first device that does not go up to `level`. */
  function TooMuch(devices: map<string, Device>, ports: seq<QualifiedPort>, level: byte): (r: Option<Error>)
    ensures r.None? <==> forall i :: 0 <= i < |ports| ==> ports[i].device in devices && level <= devices[ports[i].device].maxPower
  {
    if ports == [] then None
    else if ports[0].device !in devices then Some(NoDeviceNamed(ports[0].device))
    else if level > devices[ports[0].device].maxPower then
      Some(PowerLimit(ports[0].device, devices[ports[0].device].maxPower, level))
    else TooMuch(devices, ports[1..], level)
  }

  // ---- Flash timers ----

  function CancelFlash(m: Manager, qp: QualifiedPort): Manager {
    if Key(qp) !in m.timers then m
    else
      var flag := m.timers[Key(qp)];
      var there := qp.device in m.devices;
      m.(timers := m.timers - {Key(qp)},
         cancelled := if flag < |m.cancelled| then m.cancelled[flag := true] else m.cancelled,
         motors := if there && m.devices[qp.device].connected then m.motors[qp := Stopped] else m.motors,
         sent := if there then m.sent - {qp} else m.sent)
  }

  function CancelAll(m: Manager, ports: seq<QualifiedPort>): Manager {
    if ports == [] then m else CancelFlash(CancelAll(m, ports[..|ports| - 1]), ports[|ports| - 1])
  }

  function FlashOne(m: Manager, qp: QualifiedPort): Manager {
    var c := CancelFlash(m, qp);
    var st := Desired(c, qp);
    c.(states := c.states[qp := st],
       motors := c.motors[qp := Driven(st.direction, st.power)],
       cancelled := c.cancelled + [false],
       timers := c.timers[Key(qp) := |c.cancelled|],
       tasks := c.tasks + [FlashTask(qp, |c.cancelled|, true)])
  }

  function FlashAll(m: Manager, ports: seq<QualifiedPort>): Manager {
    if ports == [] then m else FlashOne(FlashAll(m, ports[..|ports| - 1]), ports[|ports| - 1])
  }

  /** A visit of the scheduler to a flash task; `due` tells whether it is time to toggle. */
  function Tick(m: Manager, k: nat, due: bool): Manager {
    if k >= |m.tasks| then m
    else
      var t := m.tasks[k];
      var retired := m.(tasks := m.tasks[..k] + m.tasks[k + 1..]);
      if t.flag < |m.cancelled| && m.cancelled[t.flag] then retired
      else if !due then m
      else if t.qp.device !in m.devices || !m.devices[t.qp.device].connected then retired
      else
        var st := Desired(m, t.qp);
        m.(tasks := m.tasks[k := t.(isOn := !t.isOn)],
           motors := m.motors[t.qp := if t.isOn then Stopped else Driven(st.direction, st.power)])
  }

  // ---- What the program wants ----

  function WithRunning(m: Manager, ports: seq<QualifiedPort>, running: bool): Manager {
    m.(states := m.states + map qp | qp in ports :: Desired(m, qp).(running := running))
  }

  function WithDirection(m: Manager, qp: QualifiedPort, direction: Direction): Manager {
    m.(states := m.states[qp := Desired(m, qp).(direction := direction)])
  }

  function WithPower(m: Manager, ports: seq<QualifiedPort>, level: byte): Manager {
    m.(states := m.states + map qp | qp in ports ::
         Desired(m, qp).(power := level, running := Desired(m, qp).running && level != 0))
  }

  function Reversed(m: Manager, ports: seq<QualifiedPort>): Manager {
    if ports == [] then m
    else
      var before := Reversed(m, ports[..|ports| - 1]);
      var qp := ports[|ports| - 1];
      WithDirection(before, qp, Desired(before, qp).direction.Toggle())
  }

  // ---- Sending it ----

  predicate NeedsSend(m: Manager, qp: QualifiedPort) {
    qp !in m.sent || m.sent[qp] != Desired(m, qp)
  }

  predicate SentRunning(m: Manager, qp: QualifiedPort) {
    qp in m.sent && m.sent[qp].running
  }

  /** Starts the ports whose state differs from what was sent. */
  function BatchStart(m: Manager, ports: seq<QualifiedPort>): Manager {
    m.(motors := m.motors + map qp | qp in ports && NeedsSend(m, qp) :: Driven(Desired(m, qp).direction, Desired(m, qp).power),
       sent := m.sent + map qp | qp in ports && NeedsSend(m, qp) :: Desired(m, qp))
  }

  /** Stops the ports that were sent running. */
  function BatchStop(m: Manager, ports: seq<QualifiedPort>): Manager {
    m.(motors := m.motors + map qp | qp in ports && SentRunning(m, qp) :: Stopped,
       sent := m.sent + map qp | qp in ports :: Desired(m, qp))
  }

  predicate Stale(m: Manager, qp: QualifiedPort) {
    qp.device in m.devices && NeedsSend(m, qp)
  }

  /** Sends what differs: running ports are started, ports that ran are stopped, others only recorded. */
  function Synced(m: Manager, ports: seq<QualifiedPort>): Manager {
    m.(motors := m.motors + map qp | qp in ports && Stale(m, qp) && (Desired(m, qp).running || SentRunning(m, qp)) :: MotorOf(Desired(m, qp)),
       sent := m.sent + map qp | qp in ports && Stale(m, qp) :: Desired(m, qp))
  }

  // ---- The commands ----

  function TurnedOn(m: Manager, ports: seq<QualifiedPort>): Manager {
    BatchStart(WithRunning(CancelAll(m, ports), ports, true), ports)
  }

  function TurnedOff(m: Manager, ports: seq<QualifiedPort>): Manager {
    BatchStop(WithRunning(CancelAll(m, ports), ports, false), ports)
  }

  /** A timed run or a rotation: the motor has moved and stands still again. */
  function Moved(m: Manager, ports: seq<QualifiedPort>): Manager {
    var c := WithRunning(CancelAll(m, ports), ports, false);
    c.(motors := c.motors + map qp | qp in ports :: Stopped, sent := c.sent + map qp | qp in ports :: Desired(c, qp))
  }

  function Directed(m: Manager, ports: seq<QualifiedPort>, direction: Direction): Manager {
    if ports == [] then m
    else
      var qp := ports[|ports| - 1];
      Synced(WithDirection(Directed(m, ports[..|ports| - 1], direction), qp, direction), [qp])
  }

  /** The flags, with those of all timers set. */
  function Raised(cancelled: seq<bool>, timers: map<string, nat>): seq<bool> {
    seq(|cancelled|, i requires 0 <= i < |cancelled| => cancelled[i] || i in timers.Values)
  }

  function AllOff(m: Manager): Manager {
    var hit := set qp | qp in m.states && qp.device in m.devices && m.devices[qp.device].connected;
    m.(cancelled := Raised(m.cancelled, m.timers),
       timers := map[],
       states := m.states + map qp | qp in hit :: m.states[qp].(running := false),
       sent := m.sent - hit,
       motors := m.motors + map qp | qp in hit :: Stopped)
  }

  /** Entries for ports that the program has turned to. */
  function WithEntries(m: Manager, ports: seq<QualifiedPort>): Manager {
    m.(states := m.states + map qp | qp in ports :: Desired(m, qp))
  }

  /** What the program or the surroundings do next. */
  datatype Op =
    | On(names: seq<string>)
    | Off(names: seq<string>)
    | Move(names: seq<string>)
    | SetDirection(names: seq<string>, direction: Direction)
    | Reverse(names: seq<string>)
    | SetPower(names: seq<string>, level: byte)
    | Flash(names: seq<string>)
    | TalkTo(names: seq<string>)
    | StopAll
    | Visit(task: nat, due: bool)
    | Disconnect(device: string)

  /** What speaks against a command on ports that exist by name. */
  function Objection(devices: map<string, Device>, op: Op, ports: seq<QualifiedPort>): Option<Error> {
    match op
    case On(_) => Refused(devices, ports)
    case Off(_) => Refused(devices, ports)
    case Move(_) => Refused(devices, ports)
    case Flash(_) => Refused(devices, ports)
    case SetPower(_, level) => TooMuch(devices, ports, level)
    case _ => None
  }

  /** The ports that a command works on; none if it is refused. */
  function Selected(devices: map<string, Device>, active: Option<string>, op: Op): Result<seq<QualifiedPort>> {
    if op.StopAll? || op.Visit? || op.Disconnect? then Ok([])
    else
      var ports := ResolveAll(devices, active, op.names);
      if ports.Err? then ports
      else
        var objection := Objection(devices, op, ports.value);
        if objection.Some? then Err(objection.value) else ports
  }

  function Apply(m: Manager, op: Op, ports: seq<QualifiedPort>): Manager {
    match op
    case On(_) => TurnedOn(m, ports)
    case Off(_) => TurnedOff(m, ports)
    case Move(_) => Moved(m, ports)
    case SetDirection(_, direction) => Directed(m, ports, direction)
    case Reverse(_) => Synced(Reversed(m, ports), ports)
    case SetPower(_, level) => Synced(WithPower(m, ports, level), ports)
    case Flash(_) => FlashAll(m, ports)
    case TalkTo(_) => WithEntries(m, ports)
    case StopAll => AllOff(m)
    case Visit(k, due) => Tick(m, k, due)
    case Disconnect(d) => if d in m.devices then m.(devices := m.devices[d := m.devices[d].(connected := false)]) else m
  }

  /** A refused command changes nothing. */
  function Step(m: Manager, op: Op): Manager {
    var ports := Selected(m.devices, m.active, op);
    if ports.Err? then m else Apply(m, op, ports.value)
  }

  function Exec(m: Manager, ops: seq<Op>): Manager
    decreases ops
  {
    if ops == [] then m else Exec(Step(m, ops[0]), ops[1..])
  }
}
