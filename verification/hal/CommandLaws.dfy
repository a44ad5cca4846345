/** What each command does to the ports it names, and that it does nothing to any other. */
module CommandLaws {
  import opened Bytes
  import opened Ports
  import opened PortLaws
  import opened NaiveController

  // ---- Names of ports ----

  lemma DotIs(d: string, p: string)
    requires '.' !in d
    ensures Dot(d + "." + p) == Some(|d|)
  {
    var s := d + "." + p;
    assert s[|d|] == '.' && forall i :: 0 <= i < |d| ==> s[i] == d[i];
    assert s[|d|] in s;
    forall n | |d| < n <= |s| ensures '.' in s[..n] {
      assert s[..n][|d|] == '.';
    }
  }

  /** A name with a dot is a port of the device before the first dot, whichever device is active. */
  lemma DottedName(devices: map<string, Device>, active: Option<string>, d: string, p: string)
    requires '.' !in d
    ensures Resolve(devices, active, d + "." + p) == if d in devices then Ok(QualifiedPort(d, p)) else Err(NoDeviceNamed(d))
  {
    DotIs(d, p);
    var s := d + "." + p;
    assert s[..|d|] == d && s[|d| + 1..] == p;
  }

  /** A name without a dot is a port of the active device. */
  lemma PlainName(devices: map<string, Device>, active: Option<string>, p: string)
    requires '.' !in p
    ensures Resolve(devices, active, p) == if active.Some? then Ok(QualifiedPort(active.value, p)) else Err(NoDeviceConnected)
  {
    assert forall i :: 0 <= i < |p| ==> p[i] in p;
  }

  /** Names are resolved one by one and in order; the first that does not resolve is reported. */
  lemma {:induction false} ResolvedInOrder(devices: map<string, Device>, active: Option<string>, names: seq<string>)
    ensures var r := ResolveAll(devices, active, names);
      match r
      case Ok(ports) => |ports| == |names| && forall i :: 0 <= i < |names| ==> Resolve(devices, active, names[i]) == Ok(ports[i])
      case Err(e) => exists k :: FirstUnresolved(devices, active, names, k, e)
    decreases names
  {
    hide Resolve;
    if names != [] {
      var rest := names[1..];
      ResolvedInOrder(devices, active, rest);
      var first, later := Resolve(devices, active, names[0]), ResolveAll(devices, active, rest);
      if first.Err? {
        assert FirstUnresolved(devices, active, names, 0, first.error);
      } else if later.Err? {
        var k :| FirstUnresolved(devices, active, rest, k, later.error);
        forall j | 0 <= j < k + 1 ensures Resolve(devices, active, names[j]).Ok? {
          assert j > 0 ==> rest[j - 1] == names[j];
        }
        assert FirstUnresolved(devices, active, names, k + 1, later.error);
      } else {
        assert forall i :: 0 < i < |names| ==> names[i] == rest[i - 1];
      }
    }
  }

  ghost predicate FirstUnresolved(devices: map<string, Device>, active: Option<string>, names: seq<string>, k: int, e: Error) {
    && 0 <= k < |names| && Resolve(devices, active, names[k]) == Err(e)
    && forall j :: 0 <= j < k ==> Resolve(devices, active, names[j]).Ok?
  }

  /** The port that is refused first, and why. */
  lemma {:induction false} RefusedFirst(devices: map<string, Device>, ports: seq<QualifiedPort>, k: nat)
    requires k < |ports| && !(ports[k].device in devices && ports[k].port in devices[ports[k].device].outputs)
    requires forall j :: 0 <= j < k ==> ports[j].device in devices && ports[j].port in devices[ports[j].device].outputs
    ensures Refused(devices, ports) == Some(if ports[k].device in devices then BadOutput(ports[k]) else NoDeviceNamed(ports[k].device))
    decreases k
  {
    if k > 0 {
      RefusedFirst(devices, ports[1..], k - 1);
    }
  }

  /** The first device that does not go so high, how high it goes, and what was wanted. */
  lemma {:induction false} TooMuchFirst(devices: map<string, Device>, ports: seq<QualifiedPort>, level: byte, k: nat)
    requires k < |ports| && (forall j :: 0 <= j <= k ==> ports[j].device in devices) && devices[ports[k].device].maxPower < level
    requires forall j :: 0 <= j < k ==> level <= devices[ports[j].device].maxPower
    ensures TooMuch(devices, ports, level) == Some(PowerLimit(ports[k].device, devices[ports[k].device].maxPower, level))
    decreases k
  {
    if k > 0 {
      TooMuchFirst(devices, ports[1..], level, k - 1);
    }
  }

  // ---- What is wanted after a command ----

  function FlashingPorts(m: Manager): set<QualifiedPort> {
    set qp | qp in m.states && Flashing(m, qp)
  }

  /** The ports that a command names; none if it is refused. */
  function Chosen(m: Manager, op: Op): seq<QualifiedPort> {
    var ports := Selected(m.devices, m.active, op);
    if ports.Ok? then ports.value else []
  }

  /** The controller that sends everything, in the place of the manager. */
  lemma Beside(m: Manager) returns (n: Naive)
    requires Inv(m)
    ensures Same(m, n)
  {
    n := Naive(m.devices, m.active, m.states, FlashingPorts(m), m.motors);
    forall qp | IsOutput(m, qp) ensures Flashing(m, qp) <==> qp in n.flashing {
      assert Flashing(m, qp) ==> qp in m.states;
    }
  }

  /** The wish for every port after every command but turning all off: told for the ports it names, unchanged for all others. */
  lemma WishAfter(m: Manager, op: Op, qp: QualifiedPort)
    requires Inv(m) && !op.StopAll? && !op.Disconnect?
    ensures Desired(Step(m, op), qp) ==
      if qp in Chosen(m, op) then Changed(Desired(m, qp), op, multiset(Chosen(m, op))[qp]) else Desired(m, qp)
  {
    hide Inv, Same, Selected, Want, Step, Changed, Desired, Wanted;
    var n := Beside(m);
    StepSame(m, n, op);
    WishesSame(m, n, qp);
    WishesSame(Step(m, op), NaiveStep(n, op), qp);
    NaiveWish(n, op, qp);
    SameNamed(m, n, op);
  }

  lemma SameNamed(m: Manager, n: Naive, op: Op)
    requires Same(m, n)
    ensures Selected(n.devices, n.active, op) == Selected(m.devices, m.active, op)
  {
  }

  lemma NaiveWish(n: Naive, op: Op, qp: QualifiedPort)
    requires !op.StopAll? && !op.Disconnect?
    ensures var ports := Selected(n.devices, n.active, op);
      Wanted(NaiveStep(n, op), qp) == if ports.Ok? && qp in ports.value then Changed(Wanted(n, qp), op, multiset(ports.value)[qp]) else Wanted(n, qp)
  {
    hide Changed, Want, Wanted, ResolveAll, Refused, TooMuch;
    var ports := Selected(n.devices, n.active, op);
    if ports.Ok? {
      var quiet := Quiet(n, ports.value);
      WantedAfter(n, ports.value, op, qp);
      WantedAfter(quiet, ports.value, op, qp);
      WantedSame(n, quiet, qp);
      WantedSame(Want(n, ports.value, op), NaiveStep(n, op), qp);
      WantedSame(Want(quiet, ports.value, op), NaiveStep(n, op), qp);
    }
  }

  lemma WantedSame(n: Naive, n': Naive, qp: QualifiedPort)
    ensures n'.wanted == n.wanted && n'.devices == n.devices ==> Wanted(n', qp) == Wanted(n, qp)
  {
  }

  lemma WantedAfter(n: Naive, ports: seq<QualifiedPort>, op: Op, qp: QualifiedPort)
    ensures Wanted(Want(n, ports, op), qp) == if qp in ports then Changed(Wanted(n, qp), op, multiset(ports)[qp]) else Wanted(n, qp)
  {
    hide Changed;
  }

  // ---- What the hardware does after a command ----

  /** A port turned on runs, at the direction and power wanted of it before, and no longer flashes. */
  lemma OnDrives(m: Manager, names: seq<string>, qp: QualifiedPort)
    requires Inv(m) && Live(m, qp) && qp in Chosen(m, On(names))
    ensures var r := Step(m, On(names)); !Flashing(r, qp) && MotorAt(r, qp) == Driven(Desired(m, qp).direction, Desired(m, qp).power)
  {
    hide Inv, Step, Selected, Desired;
    var r := Step(m, On(names));
    StepKeeps(m, On(names));
    WishAfter(m, On(names), qp);
    SwitchingQuiets(m, On(names), qp);
    HardwareIsAsDesired(r, qp);
  }

  lemma OffStops(m: Manager, names: seq<string>, qp: QualifiedPort)
    requires Inv(m) && Live(m, qp) && qp in Chosen(m, Off(names))
    ensures var r := Step(m, Off(names)); !Flashing(r, qp) && MotorAt(r, qp) == Stopped
  {
    hide Inv, Step, Selected, Desired;
    StepKeeps(m, Off(names));
    WishAfter(m, Off(names), qp);
    SwitchingQuiets(m, Off(names), qp);
    HardwareIsAsDesired(Step(m, Off(names)), qp);
  }

  lemma MoveStops(m: Manager, names: seq<string>, qp: QualifiedPort)
    requires Inv(m) && Live(m, qp) && qp in Chosen(m, Move(names))
    ensures var r := Step(m, Move(names)); !Flashing(r, qp) && MotorAt(r, qp) == Stopped
  {
    hide Inv, Step, Selected, Desired;
    StepKeeps(m, Move(names));
    WishAfter(m, Move(names), qp);
    SwitchingQuiets(m, Move(names), qp);
    HardwareIsAsDesired(Step(m, Move(names)), qp);
  }

  lemma SwitchingQuiets(m: Manager, op: Op, qp: QualifiedPort)
    requires Inv(m) && Live(m, qp) && (op.On? || op.Off? || op.Move?) && qp in Chosen(m, op)
    ensures Live(Step(m, op), qp) && !Flashing(Step(m, op), qp)
  {
    hide Inv, Same, Selected, Step, Want, Key;
    var n := Beside(m);
    StepSame(m, n, op);
    SameNamed(m, n, op);
    SameLife(m, Step(m, op), n, NaiveStep(n, op), qp);
  }

  lemma SameLife(m: Manager, r: Manager, n: Naive, n': Naive, qp: QualifiedPort)
    requires Same(m, n) && Same(r, n') && n'.devices == n.devices && Live(m, qp)
    ensures Live(r, qp) && (Flashing(r, qp) <==> qp in n'.flashing) && (Flashing(m, qp) <==> qp in n.flashing)
  {
  }

  /** Commands on direction and power leave flashing ports flashing and others not. */
  lemma SettingKeepsFlashing(m: Manager, op: Op, qp: QualifiedPort)
    requires Inv(m) && Live(m, qp) && (op.SetDirection? || op.Reverse? || op.SetPower? || op.TalkTo? || op.Visit?)
    ensures Live(Step(m, op), qp) && (Flashing(Step(m, op), qp) <==> Flashing(m, qp))
  {
    hide Inv, Same, Selected, Step, Want, Key;
    var n := Beside(m);
    StepSame(m, n, op);
    SameNamed(m, n, op);
    SameLife(m, Step(m, op), n, NaiveStep(n, op), qp);
  }

  function Opposite(d: Direction): Direction {
    match d
    case Even => Odd
    case Odd => Even
  }

  /** A running port turns as it is told, at the power it had; a port that stands still goes on standing still. */
  lemma DirectionTurns(m: Manager, names: seq<string>, direction: Direction, qp: QualifiedPort)
    requires Inv(m) && Live(m, qp) && !Flashing(m, qp) && qp in Chosen(m, SetDirection(names, direction))
    ensures var r := Step(m, SetDirection(names, direction));
      MotorAt(r, qp) == if Desired(m, qp).running then Driven(direction, Desired(m, qp).power) else Stopped
  {
    hide Inv, Step, Selected, Desired;
    var op := SetDirection(names, direction);
    StepKeeps(m, op);
    WishAfter(m, op, qp);
    SettingKeepsFlashing(m, op, qp);
    HardwareIsAsDesired(Step(m, op), qp);
  }

  /** A port named once is reversed; named twice it is left as it is. */
  lemma ReverseTurns(m: Manager, names: seq<string>, qp: QualifiedPort)
    requires Inv(m) && Live(m, qp) && !Flashing(m, qp) && qp in Chosen(m, Reverse(names))
    ensures var r := Step(m, Reverse(names)); var st := Desired(m, qp);
      MotorAt(r, qp) ==
        if !st.running then Stopped
        else if multiset(Chosen(m, Reverse(names)))[qp] % 2 == 1 then Driven(Opposite(st.direction), st.power)
        else Driven(st.direction, st.power)
  {
    hide Inv, Step, Selected, Desired;
    var op := Reverse(names);
    StepKeeps(m, op);
    WishAfter(m, op, qp);
    SettingKeepsFlashing(m, op, qp);
    HardwareIsAsDesired(Step(m, op), qp);
  }

  /** A running port goes to the level, and stops at level zero. */
  lemma PowerSets(m: Manager, names: seq<string>, level: byte, qp: QualifiedPort)
    requires Inv(m) && Live(m, qp) && !Flashing(m, qp) && qp in Chosen(m, SetPower(names, level))
    ensures var r := Step(m, SetPower(names, level));
      MotorAt(r, qp) == if Desired(m, qp).running && level > 0 then Driven(Desired(m, qp).direction, level) else Stopped
  {
    hide Inv, Step, Selected, Desired;
    var op := SetPower(names, level);
    StepKeeps(m, op);
    WishAfter(m, op, qp);
    SettingKeepsFlashing(m, op, qp);
    HardwareIsAsDesired(Step(m, op), qp);
  }

  /** A port of a device just added runs forwards, at half of what the device can do, when it is first turned on. */
  lemma FirstOnIsHalf(m: Manager, names: seq<string>, qp: QualifiedPort)
    requires Fresh(m) && Live(m, qp) && qp in Chosen(m, On(names))
    ensures MotorAt(Step(m, On(names)), qp) == Driven(Even, m.devices[qp.device].maxPower / 2)
  {
    hide Step, Selected;
    FreshInv(m);
    OnDrives(m, names, qp);
  }

  /** What has been synchronised need not be synchronised again. */
  lemma SyncedIsDone(m: Manager, ports: seq<QualifiedPort>, qp: QualifiedPort)
    requires qp in ports
    ensures !Stale(Synced(m, ports), qp)
  {
  }

  // ---- Flash tasks ----

  /** A visit of a task that is due turns it over: on becomes standing still, off becomes running as wanted now. */
  lemma DueVisitToggles(m: Manager, k: nat)
    requires k < |m.tasks| && !Cancelled(m, m.tasks[k]) && Live(m, m.tasks[k].qp)
    ensures var r := Step(m, Visit(k, true)); var t := m.tasks[k];
      && r.tasks == m.tasks[k := FlashTask(t.qp, t.flag, !t.isOn)]
      && MotorAt(r, t.qp) == if t.isOn then Stopped else Driven(Desired(m, t.qp).direction, Desired(m, t.qp).power)
  {
  }

  /** A cancelled task is gone after its next visit, and so is one that is due when its device is lost; early visits do nothing. */
  lemma VisitRetires(m: Manager, k: nat, due: bool)
    requires k < |m.tasks|
    ensures var r := Step(m, Visit(k, due)); var t := m.tasks[k];
      if Cancelled(m, t) || (due && !(t.qp.device in m.devices && m.devices[t.qp.device].connected))
      then r == m.(tasks := m.tasks[..k] + m.tasks[k + 1..])
      else !due ==> r == m
  {
  }

  /** A port that begins to flash is driven as wanted. */
  lemma FlashDrives(m: Manager, names: seq<string>, qp: QualifiedPort)
    requires Inv(m) && Live(m, qp) && qp in Chosen(m, Flash(names))
    ensures var r := Step(m, Flash(names)); Flashing(r, qp) && MotorAt(r, qp) == Driven(Desired(m, qp).direction, Desired(m, qp).power)
  {
    hide Inv, FlashAll, Key, ResolveAll, ShowsTask, Desired;
    var ports := Chosen(m, Flash(names));
    assert Refused(m.devices, ports).None?;
    FlashShowsTask(m, names, [], qp);
    WishAfter(m, Flash(names), qp);
    FlashAllDrives(m, ports, qp);
  }

  lemma {:induction false} FlashAllDrives(m: Manager, ports: seq<QualifiedPort>, qp: QualifiedPort)
    requires Inv(m) && qp in ports && Live(m, qp) && forall i :: 0 <= i < |ports| ==> IsOutput(m, ports[i])
    ensures MotorAt(FlashAll(m, ports), qp) == Driven(Desired(m, qp).direction, Desired(m, qp).power)
    decreases ports
  {
    hide Inv, FlashOne, Desired, Key;
    var init, last := ports[..|ports| - 1], ports[|ports| - 1];
    var before := FlashAll(m, init);
    FlashKeeps(m, init);
    EntriesWantTheSame(m, before, init, qp);
    if last == qp {
      FlashOneDrives(before, qp);
    } else {
      assert qp in init by {
        var i :| 0 <= i < |ports| && ports[i] == qp;
        assert init[i] == qp;
      }
      FlashAllDrives(m, init, qp);
      InvIsNamed(before);
      FlashOneElsewhere(before, last, qp);
    }
  }

  lemma FlashOneDrives(m: Manager, qp: QualifiedPort)
    ensures MotorAt(FlashOne(m, qp), qp) == Driven(Desired(m, qp).direction, Desired(m, qp).power)
  {
    hide Key;
  }

  lemma FlashOneElsewhere(m: Manager, q: QualifiedPort, qp: QualifiedPort)
    requires q != qp
    ensures MotorAt(FlashOne(m, q), qp) == MotorAt(m, qp)
  {
    hide Key;
  }

  // ---- Nothing else moves ----

  lemma {:induction false} CancelAllElsewhere(m: Manager, ports: seq<QualifiedPort>, qp: QualifiedPort)
    requires qp !in ports
    ensures MotorAt(CancelAll(m, ports), qp) == MotorAt(m, qp)
    decreases ports
  {
    hide Key;
    if ports != [] {
      CancelAllElsewhere(m, ports[..|ports| - 1], qp);
      assert ports[|ports| - 1] in ports;
    }
  }

  lemma {:induction false} FlashAllElsewhere(m: Manager, ports: seq<QualifiedPort>, qp: QualifiedPort)
    requires qp !in ports
    ensures MotorAt(FlashAll(m, ports), qp) == MotorAt(m, qp)
    decreases ports
  {
    hide FlashOne;
    if ports != [] {
      FlashAllElsewhere(m, ports[..|ports| - 1], qp);
      assert ports[|ports| - 1] in ports;
      FlashOneElsewhere(FlashAll(m, ports[..|ports| - 1]), ports[|ports| - 1], qp);
    }
  }

  lemma {:induction false} DirectedElsewhere(m: Manager, ports: seq<QualifiedPort>, direction: Direction, qp: QualifiedPort)
    requires qp !in ports
    ensures MotorAt(Directed(m, ports, direction), qp) == MotorAt(m, qp)
    decreases ports
  {
    if ports != [] {
      DirectedElsewhere(m, ports[..|ports| - 1], direction, qp);
      assert ports[|ports| - 1] in ports;
    }
  }

  /** A command moves and stops only the ports that it names, and wants nothing of any other. */
  lemma OnlyNamedPorts(m: Manager, op: Op, qp: QualifiedPort)
    requires Inv(m) && !op.StopAll? && !op.Visit? && !op.Disconnect? && qp !in Chosen(m, op)
    ensures MotorAt(Step(m, op), qp) == MotorAt(m, qp) && Desired(Step(m, op), qp) == Desired(m, qp)
  {
    hide Inv, Desired, CancelAll, FlashAll, Directed, Reversed, ResolveAll, Refused, TooMuch;
    WishAfter(m, op, qp);
    var ports := Chosen(m, op);
    CancelAllElsewhere(m, ports, qp);
    FlashAllElsewhere(m, ports, qp);
    if op.SetDirection? {
      DirectedElsewhere(m, ports, op.direction, qp);
    }
    ReversedIs(m, ports);
  }

  /** A visit of a flash task moves no port but its own. */
  lemma OnlyOwnPort(m: Manager, k: nat, due: bool, qp: QualifiedPort)
    requires k < |m.tasks| ==> m.tasks[k].qp != qp
    ensures MotorAt(Step(m, Visit(k, due)), qp) == MotorAt(m, qp)
  {
  }

  /** After turning everything off nothing that is there moves or flashes. */
  lemma AllOffStops(m: Manager, qp: QualifiedPort)
    requires Inv(m) && Live(m, qp)
    ensures var r := Step(m, Op.StopAll); !Flashing(r, qp) && MotorAt(r, qp) == Stopped && !Desired(r, qp).running
  {
    hide Key, Inv;
    var r := Step(m, Op.StopAll);
    StepKeeps(m, Op.StopAll);
    HardwareIsAsDesired(r, qp);
    StoppedWishes(m, qp);
  }

  lemma StoppedWishes(m: Manager, qp: QualifiedPort)
    requires Live(m, qp)
    ensures !Desired(AllOff(m), qp).running
  {
  }
}
