/** A controller without records or timers, which sends every selected port every time; the port manager agrees with it. */
module NaiveController {
  import opened Bytes
  import opened Ports
  import opened PortLaws

  datatype Naive = Naive(
    devices: map<string, Device>, active: Option<string>,
    wanted: map<QualifiedPort, PortState>, flashing: set<QualifiedPort>, motors: map<QualifiedPort, Motor>)

  function Wanted(n: Naive, qp: QualifiedPort): PortState {
    if qp in n.wanted then n.wanted[qp]
    else PortState(Even, if qp.device in n.devices then n.devices[qp.device].maxPower / 2 else 4, false)
  }

  predicate IsLive(n: Naive, qp: QualifiedPort) {
    qp.device in n.devices && n.devices[qp.device].connected && qp.port in n.devices[qp.device].outputs
  }

  /** Sends the wanted states of ports. */
  function Send(n: Naive, ports: seq<QualifiedPort>): Naive {
    n.(motors := n.motors + map qp | qp in ports :: MotorOf(Wanted(n, qp)))
  }

  function Want(n: Naive, ports: seq<QualifiedPort>, op: Op): (r: Naive)
    ensures r == n.(wanted := r.wanted) && r.wanted.Keys == n.wanted.Keys + set qp | qp in ports
  {
    n.(wanted := n.wanted + map qp | qp in ports :: Changed(Wanted(n, qp), op, multiset(ports)[qp]))
  }

  /** The state of a port that a command names so many times. */
  function Changed(st: PortState, op: Op, times: nat): PortState {
    match op
    case On(_) => st.(running := true)
    case Off(_) => st.(running := false)
    case Move(_) => st.(running := false)
    case SetDirection(_, direction) => st.(direction := direction)
    case Reverse(_) => if times % 2 == 1 then st.(direction := st.direction.Toggle()) else st
    case SetPower(_, level) => st.(power := level, running := st.running && level != 0)
    case _ => st
  }

  function Quiet(n: Naive, ports: seq<QualifiedPort>): Naive {
    n.(flashing := n.flashing - set qp | qp in ports)
  }

  function NaiveApply(n: Naive, op: Op, ports: seq<QualifiedPort>): Naive {
    if op.StopAll? then
      var hit := set qp | qp in n.wanted && qp.device in n.devices && n.devices[qp.device].connected;
      n.(wanted := n.wanted + (map qp | qp in hit :: n.wanted[qp].(running := false)),
         flashing := {}, motors := n.motors + map qp | qp in hit :: Stopped)
    else if op.Visit? then n
    else if op.Disconnect? then
      if op.device in n.devices then n.(devices := n.devices[op.device := n.devices[op.device].(connected := false)]) else n
    else if op.Flash? then
      var w := Want(n, ports, op);
      w.(flashing := w.flashing + set qp | qp in ports)
    else if op.TalkTo? then Want(n, ports, op)
    else if op.On? || op.Off? || op.Move? then Send(Want(Quiet(n, ports), ports, op), ports)
    else Send(Want(n, ports, op), ports)
  }

  function NaiveStep(n: Naive, op: Op): Naive {
    var ports := Selected(n.devices, n.active, op);
    if ports.Err? then n else NaiveApply(n, op, ports.value)
  }

  function NaiveExec(n: Naive, ops: seq<Op>): Naive
    decreases ops
  {
    if ops == [] then n else NaiveExec(NaiveStep(n, ops[0]), ops[1..])
  }

  // ---- The naive controller does what it says ----

  function NaiveMotor(n: Naive, qp: QualifiedPort): Motor {
    if qp in n.motors then n.motors[qp] else Stopped
  }

  predicate ObeysAt(n: Naive, qp: QualifiedPort) {
    IsLive(n, qp) && qp !in n.flashing ==> NaiveMotor(n, qp) == MotorOf(Wanted(n, qp))
  }

  ghost predicate Obeys(n: Naive) {
    && (forall qp :: ObeysAt(n, qp))
    && n.flashing <= n.wanted.Keys
  }

  lemma WantElsewhere(n: Naive, ports: seq<QualifiedPort>, op: Op, qp: QualifiedPort)
    ensures qp !in ports || op.TalkTo? || op.Flash? ==> Wanted(Want(n, ports, op), qp) == Wanted(n, qp)
  {
  }

  lemma SendObeys(n: Naive, ports: seq<QualifiedPort>)
    requires n.flashing <= n.wanted.Keys && forall qp :: qp !in ports ==> ObeysAt(n, qp)
    ensures Obeys(Send(n, ports))
  {
    var n' := Send(n, ports);
    forall qp ensures ObeysAt(n', qp) {
      assert Wanted(n', qp) == Wanted(n, qp);
      assert qp !in ports ==> ObeysAt(n, qp);
    }
  }

  lemma WantObeys(n: Naive, ports: seq<QualifiedPort>, op: Op)
    requires Obeys(n)
    ensures forall qp :: qp !in ports || op.TalkTo? || op.Flash? ==> ObeysAt(Want(n, ports, op), qp)
    ensures forall qp :: qp !in ports ==> ObeysAt(Want(Quiet(n, ports), ports, op), qp)
  {
    hide Want, Wanted;
    forall qp | qp !in ports || op.TalkTo? || op.Flash? ensures ObeysAt(Want(n, ports, op), qp) {
      WantElsewhere(n, ports, op, qp);
      assert ObeysAt(n, qp);
    }
    forall qp | qp !in ports ensures ObeysAt(Want(Quiet(n, ports), ports, op), qp) {
      WantElsewhere(Quiet(n, ports), ports, op, qp);
      assert ObeysAt(n, qp) && Wanted(Quiet(n, ports), qp) == Wanted(n, qp) by {
        QuietWants(n, ports, qp);
      }
    }
  }

  lemma QuietWants(n: Naive, ports: seq<QualifiedPort>, qp: QualifiedPort)
    ensures Wanted(Quiet(n, ports), qp) == Wanted(n, qp)
  {
  }

  lemma StopObeys(n: Naive)
    requires Obeys(n)
    ensures Obeys(NaiveApply(n, StopAll, []))
  {
    var n' := NaiveApply(n, StopAll, []);
    forall qp ensures ObeysAt(n', qp) {
      assert ObeysAt(n, qp);
    }
  }

  lemma LossObeys(n: Naive, op: Op)
    requires Obeys(n) && op.Disconnect?
    ensures Obeys(NaiveApply(n, op, []))
  {
    var n' := NaiveApply(n, op, []);
    forall qp ensures ObeysAt(n', qp) {
      assert ObeysAt(n, qp);
    }
  }

  lemma FlashObeys(n: Naive, op: Op, ports: seq<QualifiedPort>)
    requires Obeys(n) && op.Flash?
    ensures Obeys(NaiveApply(n, op, ports))
  {
    hide Want, Wanted;
    var w := Want(n, ports, op);
    var n' := NaiveApply(n, op, ports);
    WantObeys(n, ports, op);
    forall qp ensures ObeysAt(n', qp) {
      assert ObeysAt(w, qp) && Wanted(n', qp) == Wanted(w, qp) by {
        FlashingWants(w, n', qp);
      }
    }
  }

  lemma FlashingWants(w: Naive, n: Naive, qp: QualifiedPort)
    requires n == w.(flashing := n.flashing)
    ensures Wanted(n, qp) == Wanted(w, qp)
  {
  }

  lemma NaiveObeys(n: Naive, op: Op)
    requires Obeys(n)
    ensures Obeys(NaiveStep(n, op))
  {
    hide Selected, Changed, Want, Wanted, Send, ObeysAt;
    var selected := Selected(n.devices, n.active, op);
    if selected.Ok? {
      var ports := selected.value;
      WantObeys(n, ports, op);
      if op.StopAll? {
        NothingSelected(n, op);
        StopObeys(n);
      } else if op.Disconnect? {
        NothingSelected(n, op);
        LossObeys(n, op);
      } else if op.Flash? {
        FlashObeys(n, op, ports);
      } else if !op.Visit? && !op.TalkTo? {
        SendObeys(if op.On? || op.Off? || op.Move? then Want(Quiet(n, ports), ports, op) else Want(n, ports, op), ports);
      }
    }
  }

  lemma NothingSelected(n: Naive, op: Op)
    requires op.StopAll? || op.Disconnect?
    ensures Selected(n.devices, n.active, op) == Ok([])
  {
  }

  // ---- The two side by side ----

  /** The same wishes, and the same ports flash. */
  ghost predicate Same(m: Manager, n: Naive) {
    && n.devices == m.devices && n.active == m.active && n.wanted == m.states
    && (forall qp :: IsOutput(m, qp) ==> (Flashing(m, qp) <==> qp in n.flashing))
  }

  lemma AgreesAt(m: Manager, n: Naive, qp: QualifiedPort)
    requires Inv(m) && Obeys(n) && Same(m, n) && Live(m, qp) && !Flashing(m, qp)
    ensures MotorAt(m, qp) == NaiveMotor(n, qp)
  {
    HardwareIsAsDesired(m, qp);
    assert ObeysAt(n, qp);
  }

  /** Timers by key are flashing ports. */
  lemma SameFlashing(m: Manager, r: Manager, n: Naive, ports: seq<QualifiedPort>, op: Op)
    requires Named(m) && Same(m, n) && r.devices == m.devices
    requires forall i :: 0 <= i < |ports| ==> IsOutput(m, ports[i])
    requires if op.Flash? then r.timers.Keys == m.timers.Keys + set qp | qp in ports :: Key(qp)
      else r.timers.Keys == m.timers.Keys - set qp | qp in ports :: Key(qp)
    ensures forall qp :: IsOutput(r, qp) ==>
      (Flashing(r, qp) <==> if op.Flash? then qp in n.flashing || qp in ports else qp in n.flashing && qp !in ports)
  {
    hide Key;
    forall qp | IsOutput(r, qp)
      ensures Flashing(r, qp) <==> if op.Flash? then qp in n.flashing || qp in ports else qp in n.flashing && qp !in ports
    {
      forall p | p in ports && p != qp ensures Key(p) != Key(qp) {
        KeysDiffer(m, p, qp);
      }
      assert Key(qp) in (set p | p in ports :: Key(p)) <==> qp in ports;
    }
  }

  lemma WishesSame(m: Manager, n: Naive, qp: QualifiedPort)
    requires Same(m, n)
    ensures Wanted(n, qp) == Desired(m, qp)
  {
  }

  lemma RunningSameAs(m: Manager, n: Naive, ports: seq<QualifiedPort>, op: Op)
    requires Same(m, n) && (op.On? || op.Off? || op.Move?)
    ensures WithRunning(m, ports, op.On?).states == Want(n, ports, op).wanted
  {
    hide Desired, Wanted, Same;
    forall qp ensures Wanted(n, qp) == Desired(m, qp) {
      WishesSame(m, n, qp);
    }
    SameWanted(m, n);
  }

  lemma SameWanted(m: Manager, n: Naive)
    requires Same(m, n)
    ensures n.wanted == m.states
  {
  }

  lemma SwitchSame(m: Manager, n: Naive, op: Op, ports: seq<QualifiedPort>)
    requires Inv(m) && Same(m, n) && (op.On? || op.Off? || op.Move?)
    requires forall i :: 0 <= i < |ports| ==> IsOutput(m, ports[i])
    ensures Same(Apply(m, op, ports), NaiveApply(n, op, ports))
  {
    hide Inv, Sound, WithRunning, CancelAll, Want, Key;
    CancelledAndSet(m, ports, op.On?);
    InvIsNamed(m);
    var r := Apply(m, op, ports);
    var q := Quiet(n, ports);
    SameFlashing(m, r, n, ports, op);
    RunningSameAs(m, n, ports, op);
    WantIgnoresFlashing(n, q, ports, op);
    MakeSame(m, n, r, NaiveApply(n, op, ports));
  }

  lemma InvIsNamed(m: Manager)
    requires Inv(m)
    ensures Named(m)
  {
  }

  lemma WantIgnoresFlashing(n: Naive, q: Naive, ports: seq<QualifiedPort>, op: Op)
    requires q == n.(flashing := q.flashing)
    ensures Want(q, ports, op) == Want(n, ports, op).(flashing := q.flashing)
  {
    hide Changed;
    assert forall qp :: Wanted(q, qp) == Wanted(n, qp);
  }

  lemma MakeSame(m: Manager, n: Naive, r: Manager, n': Naive)
    requires r.devices == m.devices && r.active == m.active && n.devices == m.devices && n.active == m.active
    requires n'.devices == n.devices && n'.active == n.active
    requires r.states == n'.wanted && forall qp :: IsOutput(r, qp) ==> (Flashing(r, qp) <==> qp in n'.flashing)
    ensures Same(r, n')
  {
  }

  lemma SyncedShape(m: Manager, ports: seq<QualifiedPort>)
    ensures Synced(m, ports) == m.(sent := Synced(m, ports).sent, motors := Synced(m, ports).motors)
  {
  }

  lemma DirectionIs(m: Manager, qp: QualifiedPort, direction: Direction)
    ensures var r := WithDirection(m, qp, direction);
      && r == m.(states := r.states) && r.states.Keys == m.states.Keys + {qp}
      && Desired(r, qp) == Desired(m, qp).(direction := direction) && forall p :: p != qp ==> Desired(r, p) == Desired(m, p)
  {
  }

  lemma {:induction false} DirectedIs(m: Manager, ports: seq<QualifiedPort>, direction: Direction)
    ensures var r := Directed(m, ports, direction);
      && r == m.(states := r.states, sent := r.sent, motors := r.motors) && r.states.Keys == m.states.Keys + (set qp | qp in ports)
      && forall qp :: Desired(r, qp) == if qp in ports then Desired(m, qp).(direction := direction) else Desired(m, qp)
    decreases ports
  {
    hide Synced, WithDirection, Desired;
    if ports != [] {
      var init, last := ports[..|ports| - 1], ports[|ports| - 1];
      DirectedIs(m, init, direction);
      var before := Directed(m, init, direction);
      var turned := WithDirection(before, last, direction);
      DirectionIs(before, last, direction);
      SyncedShape(turned, [last]);
      assert forall qp :: qp in ports <==> qp in init || qp == last;
      forall qp ensures Desired(Synced(turned, [last]), qp) == Desired(turned, qp) {
        SameWish(turned, Synced(turned, [last]), qp);
      }
    }
  }

  lemma {:induction false} ReversedByCount(m: Manager, ports: seq<QualifiedPort>, qp: QualifiedPort)
    ensures Desired(Reversed(m, ports), qp)
      == if multiset(ports)[qp] % 2 == 1 then Desired(m, qp).(direction := Desired(m, qp).direction.Toggle()) else Desired(m, qp)
    decreases ports
  {
    hide WithDirection, Desired;
    if ports != [] {
      var init, last := ports[..|ports| - 1], ports[|ports| - 1];
      var before := Reversed(m, init);
      ReversedByCount(m, init, qp);
      DirectionIs(before, last, Desired(before, last).direction.Toggle());
      assert ports == init + [last] && multiset(ports) == multiset(init) + multiset{last};
    }
  }

  /** Two maps with the same keys and the same wishes are the same. */
  lemma WantedIs(m: Manager, n: Naive, r: Manager, ports: seq<QualifiedPort>, op: Op)
    requires Same(m, n) && r.devices == m.devices && r.states.Keys == m.states.Keys + set qp | qp in ports
    requires forall qp :: Desired(r, qp) == if qp in ports then Changed(Desired(m, qp), op, multiset(ports)[qp]) else Desired(m, qp)
    ensures r.states == Want(n, ports, op).wanted
  {
    hide Changed;
    var w := Want(n, ports, op).wanted;
    forall qp ensures Wanted(n, qp) == Desired(m, qp) {
      WishesSame(m, n, qp);
    }
    assert w.Keys == r.states.Keys;
    forall qp | qp in w ensures w[qp] == r.states[qp] {
      assert Desired(r, qp) == r.states[qp];
    }
  }

  lemma DirectSame(m: Manager, n: Naive, op: Op, ports: seq<QualifiedPort>)
    requires Same(m, n) && op.SetDirection?
    ensures Same(Apply(m, op, ports), NaiveApply(n, op, ports))
  {
    hide Same, Desired, Directed, Want;
    var r := Directed(m, ports, op.direction);
    DirectedIs(m, ports, op.direction);
    WantedIs(m, n, r, ports, op);
    StillSame(m, n, r, NaiveApply(n, op, ports), op, ports);
  }

  lemma StillSame(m: Manager, n: Naive, r: Manager, n': Naive, op: Op, ports: seq<QualifiedPort>)
    requires Same(m, n) && r == m.(states := r.states, sent := r.sent, motors := r.motors)
    requires n' == n.(wanted := r.states, motors := n'.motors)
    ensures Same(r, n')
  {
  }

  lemma ReverseSame(m: Manager, n: Naive, op: Op, ports: seq<QualifiedPort>)
    requires Same(m, n) && op.Reverse?
    ensures Same(Apply(m, op, ports), NaiveApply(n, op, ports))
  {
    hide Same, Desired, Reversed, Want;
    var r := Reversed(m, ports);
    ReversedIs(m, ports);
    forall qp ensures Desired(r, qp) == if qp in ports then Changed(Desired(m, qp), op, multiset(ports)[qp]) else Desired(m, qp) {
      ReversedByCount(m, ports, qp);
      assert qp in ports <==> multiset(ports)[qp] > 0;
    }
    WantedIs(m, n, r, ports, op);
    StillSame(m, n, Apply(m, op, ports), NaiveApply(n, op, ports), op, ports);
  }

  lemma PowerIs(m: Manager, ports: seq<QualifiedPort>, op: Op)
    requires op.SetPower?
    ensures var r := WithPower(m, ports, op.level);
      && r == m.(states := r.states) && r.states.Keys == m.states.Keys + (set qp | qp in ports)
      && forall qp :: Desired(r, qp) == if qp in ports then Changed(Desired(m, qp), op, multiset(ports)[qp]) else Desired(m, qp)
  {
  }

  lemma PowerSame(m: Manager, n: Naive, op: Op, ports: seq<QualifiedPort>)
    requires Same(m, n) && op.SetPower?
    ensures Same(Apply(m, op, ports), NaiveApply(n, op, ports))
  {
    hide Same, Want, Desired, WithPower, Synced, Changed;
    var r := WithPower(m, ports, op.level);
    PowerIs(m, ports, op);
    SyncedShape(r, ports);
    WantedIs(m, n, r, ports, op);
    StillSame(m, n, Apply(m, op, ports), NaiveApply(n, op, ports), op, ports);
  }

  lemma EntriesSame(m: Manager, n: Naive, op: Op, ports: seq<QualifiedPort>)
    requires Same(m, n) && (op.TalkTo? || op.Flash?)
    ensures WithEntries(m, ports).states == Want(n, ports, op).wanted
  {
    hide Same, Want;
    WantedIs(m, n, WithEntries(m, ports), ports, op);
  }

  lemma FlashSame(m: Manager, n: Naive, op: Op, ports: seq<QualifiedPort>)
    requires Inv(m) && Same(m, n) && op.Flash? && forall i :: 0 <= i < |ports| ==> IsOutput(m, ports[i])
    ensures Same(Apply(m, op, ports), NaiveApply(n, op, ports))
  {
    hide Inv, Want, FlashAll, WithEntries, Key;
    var r := FlashAll(m, ports);
    FlashKeeps(m, ports);
    EntriesSame(m, n, op, ports);
    InvIsNamed(m);
    SameFlashing(m, r, n, ports, op);
    MakeSame(m, n, r, NaiveApply(n, op, ports));
  }

  lemma StepSame(m: Manager, n: Naive, op: Op)
    requires Inv(m) && Same(m, n)
    ensures Same(Step(m, op), NaiveStep(n, op))
  {
    var selected := Selected(m.devices, m.active, op);
    if selected.Ok? {
      var ports := selected.value;
      if op.On? || op.Off? || op.Move? {
        SwitchSame(m, n, op, ports);
      } else if op.SetDirection? {
        DirectSame(m, n, op, ports);
      } else if op.Reverse? {
        ReverseSame(m, n, op, ports);
      } else if op.SetPower? {
        PowerSame(m, n, op, ports);
      } else if op.Flash? {
        FlashSame(m, n, op, ports);
      } else if op.TalkTo? {
        EntriesSame(m, n, op, ports);
      } else if op.Visit? {
        TickKeeps(m, op.task, op.due);
      }
    }
  }

  function NaiveOf(m: Manager): Naive {
    Naive(m.devices, m.active, m.states, {}, map[])
  }

  /**
   * After any commands, visits of flash tasks and losses of devices, every output that is there and does not flash does what it
   * would do if everything were sent every time.
   */
  lemma AgreesWithNaive(m: Manager, ops: seq<Op>, qp: QualifiedPort)
    requires Fresh(m)
    ensures var r := Exec(m, ops); var n := NaiveExec(NaiveOf(m), ops);
      && r.states == n.wanted && r.devices == n.devices
      && (IsOutput(r, qp) ==> (Flashing(r, qp) <==> qp in n.flashing))
      && (Live(r, qp) && !Flashing(r, qp) ==> MotorAt(r, qp) == NaiveMotor(n, qp))
  {
    FreshInv(m);
    var n := NaiveOf(m);
    forall p ensures ObeysAt(n, p) {
    }
    RunSame(m, n, ops);
    var r, n' := Exec(m, ops), NaiveExec(n, ops);
    if Live(r, qp) && !Flashing(r, qp) {
      AgreesAt(r, n', qp);
    }
  }

  lemma {:induction false} RunSame(m: Manager, n: Naive, ops: seq<Op>)
    requires Inv(m) && Same(m, n) && Obeys(n)
    ensures Inv(Exec(m, ops)) && Same(Exec(m, ops), NaiveExec(n, ops)) && Obeys(NaiveExec(n, ops))
    decreases ops
  {
    hide Inv, Same, Obeys, Step, NaiveStep;
    if ops != [] {
      StepKeeps(m, ops[0]);
      StepSame(m, n, ops[0]);
      NaiveObeys(n, ops[0]);
      RunSame(Step(m, ops[0]), NaiveStep(n, ops[0]), ops[1..]);
    }
  }

  // ---- What the records are for ----

  /** Turning on again what runs already sends nothing at all. */
  lemma OnTwiceSendsOnce(m: Manager, names: seq<string>)
    requires Inv(m) && Selected(m.devices, m.active, On(names)).Ok?
    ensures var r := Step(m, On(names)); Step(r, On(names)) == r
    ensures var r := Step(m, On(names)); var ports := Selected(m.devices, m.active, On(names)).value;
      forall i :: 0 <= i < |ports| ==> !NeedsSend(r, ports[i]) && !Flashing(r, ports[i]) && Desired(r, ports[i]).running
  {
    hide Inv, Sound, WithRunning, CancelAll, Key, Selected, Desired;
    var ports := Selected(m.devices, m.active, On(names)).value;
    SelectedAreOutputs(m, names);
    CancelledAndSet(m, ports, true);
    var c := WithRunning(CancelAll(m, ports), ports, true);
    var r := TurnedOn(m, ports);
    SameOutputs(m, r);
    forall i | 0 <= i < |ports| ensures !Flashing(r, ports[i]) {
      KeyAmong(ports, i);
    }
    forall i | 0 <= i < |ports| ensures Desired(r, ports[i]) == r.states[ports[i]] == Desired(c, ports[i]) {
      WishIsEntry(r, ports[i]);
      WishIsEntry(c, ports[i]);
    }
    NothingToCancel(r, ports);
    AlreadyRunning(r, ports);
  }

  lemma KeyAmong(ports: seq<QualifiedPort>, i: nat)
    requires i < |ports|
    ensures Key(ports[i]) in set qp | qp in ports :: Key(qp)
  {
    assert ports[i] in ports;
  }

  lemma SelectedAreOutputs(m: Manager, names: seq<string>)
    requires Selected(m.devices, m.active, On(names)).Ok?
    ensures forall i :: 0 <= i < |Selected(m.devices, m.active, On(names)).value| ==> IsOutput(m, Selected(m.devices, m.active, On(names)).value[i])
  {
  }

  lemma SameOutputs(m: Manager, r: Manager)
    requires r.devices == m.devices && r.active == m.active
    ensures forall op :: Selected(r.devices, r.active, op) == Selected(m.devices, m.active, op)
  {
  }

  lemma WishIsEntry(m: Manager, qp: QualifiedPort)
    requires qp in m.states
    ensures Desired(m, qp) == m.states[qp]
  {
  }

  lemma {:induction false} NothingToCancel(m: Manager, ports: seq<QualifiedPort>)
    requires forall i :: 0 <= i < |ports| ==> !Flashing(m, ports[i])
    ensures CancelAll(m, ports) == m
    decreases ports
  {
    if ports != [] {
      NothingToCancel(m, ports[..|ports| - 1]);
    }
  }

  lemma AlreadyRunning(m: Manager, ports: seq<QualifiedPort>)
    requires forall i :: 0 <= i < |ports| ==> ports[i] in m.states && m.states[ports[i]].running && !NeedsSend(m, ports[i])
    ensures BatchStart(WithRunning(m, ports, true), ports) == m
  {
    var w := WithRunning(m, ports, true);
    assert w.states == m.states;
    assert forall qp :: qp in ports ==> !NeedsSend(w, qp);
    assert BatchStart(w, ports).motors == m.motors;
    assert BatchStart(w, ports).sent == m.sent;
  }
}
