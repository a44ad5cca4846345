/** The agreement between what the program wants, what was sent, and what the hardware does. */
module PortLaws {
  import opened Bytes
  import opened Ports

  // ---- What always holds ----

  /** The active device exists, and no output has a colon in its name. */
  ghost predicate Named(m: Manager) {
    && (m.active.Some? ==> m.active.value in m.devices)
    && (forall qp :: IsOutput(m, qp) ==> ':' !in qp.port)
  }

  /** Timers hold flags of their own that are not set. */
  ghost predicate Timed(m: Manager) {
    && (forall k :: k in m.timers ==> m.timers[k] < |m.cancelled| && !m.cancelled[m.timers[k]])
    && (forall k, l :: k in m.timers && l in m.timers && k != l ==> m.timers[k] != m.timers[l])
  }

  predicate Cancelled(m: Manager, t: FlashTask) {
    t.flag < |m.cancelled| && m.cancelled[t.flag]
  }

  /** Every task has a flag of its own, and one that is not set is that of the timer of the task's port. */
  ghost predicate Tasked(m: Manager) {
    && (forall i :: 0 <= i < |m.tasks| ==> m.tasks[i].flag < |m.cancelled|)
    && (forall i, j :: 0 <= i < j < |m.tasks| ==> m.tasks[i].flag != m.tasks[j].flag)
    && (forall i :: 0 <= i < |m.tasks| && !Cancelled(m, m.tasks[i]) ==>
          IsOutput(m, m.tasks[i].qp) && Flashing(m, m.tasks[i].qp) && m.timers[Key(m.tasks[i].qp)] == m.tasks[i].flag)
  }

  ghost predicate Entered(m: Manager) {
    && m.sent.Keys <= m.states.Keys
    && (forall qp :: IsOutput(m, qp) && Flashing(m, qp) ==> qp in m.states)
  }

  /** Unless it flashes, a port does what was last sent; it stands still if there is no record. */
  predicate CachedAt(m: Manager, qp: QualifiedPort) {
    Live(m, qp) && !Flashing(m, qp) ==> MotorAt(m, qp) == if qp in m.sent then MotorOf(m.sent[qp]) else Stopped
  }

  ghost predicate Cached(m: Manager) {
    forall qp :: CachedAt(m, qp)
  }

  /** A record is what the program wants; where there is none and nothing flashes, it wants the port to stand still. */
  predicate AgreedAt(m: Manager, qp: QualifiedPort) {
    Live(m, qp) ==>
      && (qp in m.sent ==> m.sent[qp] == Desired(m, qp))
      && (qp !in m.sent && !Flashing(m, qp) ==> !Desired(m, qp).running)
  }

  ghost predicate AgreedBut(m: Manager, ports: seq<QualifiedPort>) {
    forall qp :: qp !in ports ==> AgreedAt(m, qp)
  }

  ghost predicate Sound(m: Manager) {
    Named(m) && Timed(m) && Tasked(m) && Entered(m) && Cached(m)
  }

  ghost predicate Inv(m: Manager) {
    Sound(m) && forall qp :: AgreedAt(m, qp)
  }

  /** Devices just added: every output has its entry, nothing has been sent and nothing moves. */
  ghost predicate Fresh(m: Manager) {
    && Named(m) && m.sent == map[] && m.timers == map[] && m.tasks == [] && m.motors == map[]
    && (forall qp :: qp in m.states ==> m.states[qp] == PortState(Even, DefaultPower(m, qp.device), false))
  }

  lemma FreshInv(m: Manager)
    requires Fresh(m)
    ensures Inv(m)
  {
  }

  // ---- What the invariant means ----

  /** In every such state the hardware does what the program wants, wherever it does not flash. */
  lemma HardwareIsAsDesired(m: Manager, qp: QualifiedPort)
    requires Inv(m) && Live(m, qp) && !Flashing(m, qp)
    ensures MotorAt(m, qp) == MotorOf(Desired(m, qp))
    ensures qp in m.sent ==> m.sent[qp] == Desired(m, qp)
    ensures qp !in m.sent ==> MotorAt(m, qp) == Stopped
  {
    assert CachedAt(m, qp) && AgreedAt(m, qp);
  }

  lemma OneFlashTaskEach(m: Manager, i: nat, j: nat)
    requires Inv(m) && i < |m.tasks| && j < |m.tasks| && m.tasks[i].qp == m.tasks[j].qp
    requires !Cancelled(m, m.tasks[i]) && !Cancelled(m, m.tasks[j])
    ensures i == j
  {
  }

  // ---- Keys ----

  lemma KeyInjective(p: QualifiedPort, q: QualifiedPort)
    requires ':' !in p.port && ':' !in q.port && Key(p) == Key(q)
    ensures p == q
  {
    KeyNotLonger(p, q);
    KeyNotLonger(q, p);
    assert Key(p)[|p.device| + 1..] == p.port && Key(q)[|q.device| + 1..] == q.port;
    assert Key(p)[..|p.device|] == p.device && Key(q)[..|q.device|] == q.device;
  }

  lemma KeyNotLonger(p: QualifiedPort, q: QualifiedPort)
    requires ':' !in q.port && Key(p) == Key(q)
    ensures |q.port| <= |p.port|
  {
    assert Key(p)[|p.device|] == ':';
    assert forall i :: |q.device| < i < |Key(q)| ==> Key(q)[i] == q.port[i - |q.device| - 1];
  }

  lemma KeysDiffer(m: Manager, p: QualifiedPort, q: QualifiedPort)
    requires Named(m) && IsOutput(m, p) && IsOutput(m, q) && p != q
    ensures Key(p) != Key(q)
  {
    if Key(p) == Key(q) {
      KeyInjective(p, q);
    }
  }

  // ---- Cancelling a flash ----

  ghost predicate Others(m: Manager, c: Manager, qp: QualifiedPort) {
    forall p :: IsOutput(m, p) && p != qp ==>
      && (Flashing(c, p) <==> Flashing(m, p)) && MotorAt(c, p) == MotorAt(m, p)
      && (p in c.sent <==> p in m.sent) && (p in m.sent ==> c.sent[p] == m.sent[p])
  }

  lemma CancelTouchesOne(m: Manager, qp: QualifiedPort)
    requires Named(m) && IsOutput(m, qp)
    ensures Others(m, CancelFlash(m, qp), qp) && !Flashing(CancelFlash(m, qp), qp)
    ensures CancelFlash(m, qp).states == m.states && CancelFlash(m, qp).devices == m.devices && CancelFlash(m, qp).active == m.active
    ensures CancelFlash(m, qp).timers == m.timers - {Key(qp)}
  {
    hide Key;
    forall p | IsOutput(m, p) && p != qp ensures Key(p) != Key(qp) {
      KeysDiffer(m, p, qp);
    }
  }

  lemma CancelKeepsTasks(m: Manager, qp: QualifiedPort)
    requires Timed(m) && Tasked(m)
    ensures Timed(CancelFlash(m, qp)) && Tasked(CancelFlash(m, qp))
  {
    hide Key;
  }

  lemma CancelKeeps(m: Manager, qp: QualifiedPort)
    requires Sound(m) && IsOutput(m, qp)
    ensures Sound(CancelFlash(m, qp))
    ensures forall p :: AgreedAt(m, p) && p != qp ==> AgreedAt(CancelFlash(m, qp), p)
  {
    hide Timed, Tasked, Key;
    var c := CancelFlash(m, qp);
    CancelTouchesOne(m, qp);
    CancelKeepsTasks(m, qp);
    forall p ensures CachedAt(c, p) {
      assert CachedAt(m, p);
    }
  }

  lemma {:induction false} CancelAllKeeps(m: Manager, ports: seq<QualifiedPort>)
    requires Sound(m) && forall i :: 0 <= i < |ports| ==> IsOutput(m, ports[i])
    ensures Sound(CancelAll(m, ports))
    ensures forall p :: AgreedAt(m, p) && p !in ports ==> AgreedAt(CancelAll(m, ports), p)
    ensures forall i :: 0 <= i < |ports| ==> !Flashing(CancelAll(m, ports), ports[i])
    ensures CancelAll(m, ports).states == m.states && CancelAll(m, ports).devices == m.devices && CancelAll(m, ports).active == m.active
    ensures CancelAll(m, ports).timers.Keys == m.timers.Keys - set qp | qp in ports :: Key(qp)
    decreases ports
  {
    hide Sound, AgreedAt, Key, CancelFlash;
    if ports != [] {
      var init, last := ports[..|ports| - 1], ports[|ports| - 1];
      var c := CancelAll(m, init);
      assert forall qp :: qp in ports <==> qp in init || qp == last;
      CancelAllKeeps(m, init);
      CancelKeeps(c, last);
      SoundIsNamed(c);
      CancelTouchesOne(c, last);
      assert forall i :: 0 <= i < |init| ==> ports[i] == init[i];
    } else {
      assert m.timers.Keys == m.timers.Keys - set qp | qp in ports :: Key(qp);
    }
  }

  lemma SoundIsNamed(m: Manager)
    requires Sound(m)
    ensures Named(m)
  {
  }

  // ---- Sending ----

  /** A change of what the program wants leaves the rest as it is. */
  lemma WantingKeeps(m: Manager, r: Manager)
    requires Sound(m) && m.states.Keys <= r.states.Keys && r == m.(states := r.states)
    ensures Sound(r)
  {
    hide Key;
    forall p ensures CachedAt(r, p) {
      assert CachedAt(m, p);
    }
  }

  /** A change of what is sent leaves the timers as they are. */
  lemma SendingKeeps(m: Manager, r: Manager)
    requires Sound(m) && r.sent.Keys <= r.states.Keys && r == m.(sent := r.sent, motors := r.motors)
    requires forall qp :: CachedAt(r, qp)
    ensures Sound(r)
  {
    hide Key;
  }

  lemma StartKeeps(m: Manager, ports: seq<QualifiedPort>)
    requires Sound(m) && AgreedBut(m, ports)
    requires forall i :: 0 <= i < |ports| ==> ports[i] in m.states && m.states[ports[i]].running
    ensures Inv(BatchStart(m, ports))
  {
    hide Key;
    var r := BatchStart(m, ports);
    forall p ensures CachedAt(r, p) {
      assert CachedAt(m, p);
    }
    SendingKeeps(m, r);
    forall p ensures AgreedAt(r, p) {
      if p !in ports {
        assert AgreedAt(m, p);
      }
    }
  }

  lemma StopKeeps(m: Manager, ports: seq<QualifiedPort>)
    requires Sound(m) && AgreedBut(m, ports)
    requires forall i :: 0 <= i < |ports| ==> ports[i] in m.states && !m.states[ports[i]].running
    ensures Inv(BatchStop(m, ports))
  {
    hide Key;
    var r := BatchStop(m, ports);
    forall p ensures CachedAt(r, p) {
      assert CachedAt(m, p);
    }
    SendingKeeps(m, r);
    forall p ensures AgreedAt(r, p) {
      if p !in ports {
        assert AgreedAt(m, p);
      }
    }
  }

  lemma SyncKeeps(m: Manager, ports: seq<QualifiedPort>)
    requires Sound(m) && AgreedBut(m, ports) && forall i :: 0 <= i < |ports| ==> ports[i] in m.states
    ensures Inv(Synced(m, ports)) && Synced(m, ports).states == m.states
  {
    hide Key, CachedAt, AgreedAt;
    var r := Synced(m, ports);
    forall p ensures CachedAt(r, p) {
      assert CachedAt(m, p);
      SyncedCached(m, ports, p);
    }
    SendingKeeps(m, r);
    forall p ensures AgreedAt(r, p) {
      assert p !in ports ==> AgreedAt(m, p);
      SyncedAgrees(m, ports, p);
    }
  }

  lemma SyncedCached(m: Manager, ports: seq<QualifiedPort>, p: QualifiedPort)
    requires CachedAt(m, p)
    ensures CachedAt(Synced(m, ports), p)
  {
  }

  lemma SyncedAgrees(m: Manager, ports: seq<QualifiedPort>, p: QualifiedPort)
    requires p !in ports ==> AgreedAt(m, p)
    ensures AgreedAt(Synced(m, ports), p)
  {
  }

  // ---- The commands ----

  lemma RunningIs(m: Manager, ports: seq<QualifiedPort>, running: bool)
    ensures var r := WithRunning(m, ports, running);
      && r == m.(states := r.states) && m.states.Keys <= r.states.Keys
      && (forall i :: 0 <= i < |ports| ==> ports[i] in r.states && r.states[ports[i]].running == running)
      && (forall p :: p !in ports ==> Desired(r, p) == Desired(m, p))
  {
  }

  lemma RunningSame(m: Manager, c: Manager, ports: seq<QualifiedPort>, running: bool)
    requires c.states == m.states && c.devices == m.devices
    ensures WithRunning(c, ports, running).states == WithRunning(m, ports, running).states
  {
    forall p ensures Desired(c, p) == Desired(m, p) {
      SameWish(m, c, p);
    }
  }

  lemma CancelledAndSet(m: Manager, ports: seq<QualifiedPort>, running: bool)
    requires Inv(m) && forall i :: 0 <= i < |ports| ==> IsOutput(m, ports[i])
    ensures var r := WithRunning(CancelAll(m, ports), ports, running);
      && Sound(r) && AgreedBut(r, ports) && r.timers.Keys == m.timers.Keys - (set qp | qp in ports :: Key(qp))
      && r.devices == m.devices && r.active == m.active && r.states == WithRunning(m, ports, running).states
      && forall i :: 0 <= i < |ports| ==> ports[i] in r.states && r.states[ports[i]].running == running
  {
    hide Key, Sound, CancelAll, WithRunning, Desired;
    var c := CancelAll(m, ports);
    CancelAllKeeps(m, ports);
    var r := WithRunning(c, ports, running);
    RunningIs(c, ports, running);
    RunningSame(m, c, ports, running);
    WantingKeeps(c, r);
    forall p | p !in ports ensures AgreedAt(r, p) {
      assert AgreedAt(m, p) && AgreedAt(c, p);
    }
  }

  lemma OnKeeps(m: Manager, ports: seq<QualifiedPort>)
    requires Inv(m) && forall i :: 0 <= i < |ports| ==> IsOutput(m, ports[i])
    ensures Inv(TurnedOn(m, ports))
  {
    hide Inv, Sound, WithRunning, CancelAll, BatchStart;
    CancelledAndSet(m, ports, true);
    StartKeeps(WithRunning(CancelAll(m, ports), ports, true), ports);
  }

  lemma OffKeeps(m: Manager, ports: seq<QualifiedPort>)
    requires Inv(m) && forall i :: 0 <= i < |ports| ==> IsOutput(m, ports[i])
    ensures Inv(TurnedOff(m, ports))
  {
    hide Inv, Sound, WithRunning, CancelAll, BatchStop;
    CancelledAndSet(m, ports, false);
    StopKeeps(WithRunning(CancelAll(m, ports), ports, false), ports);
  }

  lemma MoveKeeps(m: Manager, ports: seq<QualifiedPort>)
    requires Inv(m) && forall i :: 0 <= i < |ports| ==> IsOutput(m, ports[i])
    ensures Inv(Moved(m, ports))
  {
    hide Key, WithRunning, CancelAll, Sound, Desired;
    var c := WithRunning(CancelAll(m, ports), ports, false);
    var r := Moved(m, ports);
    CancelledAndSet(m, ports, false);
    SoundParts(c);
    forall p ensures CachedAt(r, p) && AgreedAt(r, p) {
      assert CachedAt(c, p) && Desired(r, p) == Desired(c, p) by {
        SameWish(c, r, p);
      }
      if p in ports {
        StandsStill(c, p);
      } else {
        assert AgreedAt(c, p);
      }
    }
    SendingKeeps(c, r);
  }

  lemma SoundParts(m: Manager)
    requires Sound(m)
    ensures Cached(m) && m.sent.Keys <= m.states.Keys
  {
  }

  lemma StandsStill(m: Manager, qp: QualifiedPort)
    requires qp in m.states && !m.states[qp].running
    ensures MotorOf(Desired(m, qp)) == Stopped
  {
  }

  lemma WantingAgrees(m: Manager, r: Manager, ports: seq<QualifiedPort>)
    requires Inv(m) && r == m.(states := r.states) && m.states.Keys <= r.states.Keys
    requires forall p :: p !in ports ==> (p in r.states <==> p in m.states) && (p in m.states ==> r.states[p] == m.states[p])
    ensures Sound(r) && AgreedBut(r, ports)
  {
    hide Key;
    WantingKeeps(m, r);
    forall p | p !in ports ensures AgreedAt(r, p) {
      assert AgreedAt(m, p);
    }
  }

  lemma {:induction false} DirectKeeps(m: Manager, ports: seq<QualifiedPort>, direction: Direction)
    requires Inv(m)
    ensures Inv(Directed(m, ports, direction)) && Directed(m, ports, direction).devices == m.devices
    decreases ports
  {
    hide Inv, Sound, AgreedBut;
    if ports != [] {
      var init, last := ports[..|ports| - 1], ports[|ports| - 1];
      DirectKeeps(m, init, direction);
      var before := Directed(m, init, direction);
      var set0 := WithDirection(before, last, direction);
      WantingAgrees(before, set0, [last]);
      SyncKeeps(set0, [last]);
    }
  }

  lemma {:induction false} ReversedIs(m: Manager, ports: seq<QualifiedPort>)
    ensures Reversed(m, ports) == m.(states := Reversed(m, ports).states)
    ensures Reversed(m, ports).states.Keys == m.states.Keys + set qp | qp in ports
    ensures forall p :: p !in ports && p in m.states ==> Reversed(m, ports).states[p] == m.states[p]
    decreases ports
  {
    if ports != [] {
      ReversedIs(m, ports[..|ports| - 1]);
      assert forall qp :: qp in ports <==> qp in ports[..|ports| - 1] || qp == ports[|ports| - 1];
    }
  }

  lemma ReverseKeeps(m: Manager, ports: seq<QualifiedPort>)
    requires Inv(m)
    ensures Inv(Synced(Reversed(m, ports), ports))
  {
    hide Inv, Sound, AgreedBut, Reversed;
    ReversedIs(m, ports);
    WantingAgrees(m, Reversed(m, ports), ports);
    SyncKeeps(Reversed(m, ports), ports);
  }

  lemma PowerKeeps(m: Manager, ports: seq<QualifiedPort>, level: byte)
    requires Inv(m)
    ensures Inv(Synced(WithPower(m, ports, level), ports))
  {
    hide Inv, Sound, AgreedBut;
    WantingAgrees(m, WithPower(m, ports, level), ports);
    SyncKeeps(WithPower(m, ports, level), ports);
  }

  lemma EntriesKeep(m: Manager, ports: seq<QualifiedPort>)
    requires Inv(m)
    ensures Inv(WithEntries(m, ports))
  {
    hide Key;
    var r := WithEntries(m, ports);
    WantingKeeps(m, r);
    forall p ensures AgreedAt(r, p) {
      assert AgreedAt(m, p) && Desired(r, p) == Desired(m, p);
    }
  }

  lemma FlashOneTasks(m: Manager, qp: QualifiedPort)
    requires Timed(m) && Tasked(m) && IsOutput(m, qp)
    ensures Timed(FlashOne(m, qp)) && Tasked(FlashOne(m, qp))
  {
    hide Key, CancelFlash, Desired;
    var c := CancelFlash(m, qp);
    CancelKeepsTasks(m, qp);
    var r := FlashOne(m, qp);
    assert c.devices == m.devices && Key(qp) !in c.timers by {
      CancelDropsKey(m, qp);
    }
    forall i | 0 <= i < |r.tasks| && !Cancelled(r, r.tasks[i])
      ensures IsOutput(r, r.tasks[i].qp) && Flashing(r, r.tasks[i].qp) && r.timers[Key(r.tasks[i].qp)] == r.tasks[i].flag
    {
      if i < |c.tasks| {
        assert r.tasks[i] == c.tasks[i] && !Cancelled(c, c.tasks[i]);
      }
    }
  }

  lemma CancelDropsKey(m: Manager, qp: QualifiedPort)
    ensures CancelFlash(m, qp).devices == m.devices && Key(qp) !in CancelFlash(m, qp).timers
  {
  }

  lemma CancelForgets(m: Manager, qp: QualifiedPort)
    requires IsOutput(m, qp)
    ensures if Flashing(m, qp) then qp !in CancelFlash(m, qp).sent else CancelFlash(m, qp) == m
  {
  }

  lemma FlashOneKeeps(m: Manager, qp: QualifiedPort)
    requires Inv(m) && IsOutput(m, qp)
    ensures Inv(FlashOne(m, qp)) && FlashOne(m, qp).devices == m.devices
    ensures FlashOne(m, qp).timers.Keys == m.timers.Keys + {Key(qp)}
    ensures FlashOne(m, qp).states == m.states[qp := Desired(m, qp)] && FlashOne(m, qp).active == m.active
  {
    hide Timed, Tasked, Key, CancelFlash;
    var c := CancelFlash(m, qp);
    var r := FlashOne(m, qp);
    CancelKeeps(m, qp);
    CancelTouchesOne(m, qp);
    FlashOneTasks(m, qp);
    CancelForgets(m, qp);
    forall p | IsOutput(m, p) && p != qp ensures Key(p) != Key(qp) {
      KeysDiffer(m, p, qp);
    }
    forall p ensures CachedAt(r, p) {
      assert CachedAt(c, p);
    }
    forall p ensures AgreedAt(r, p) {
      assert AgreedAt(m, p);
    }
  }

  lemma {:induction false} FlashKeeps(m: Manager, ports: seq<QualifiedPort>)
    requires Inv(m) && forall i :: 0 <= i < |ports| ==> IsOutput(m, ports[i])
    ensures Inv(FlashAll(m, ports)) && FlashAll(m, ports).devices == m.devices
    ensures FlashAll(m, ports).timers.Keys == m.timers.Keys + set qp | qp in ports :: Key(qp)
    ensures FlashAll(m, ports).states == WithEntries(m, ports).states && FlashAll(m, ports).active == m.active
    decreases ports
  {
    hide Inv, Key, FlashOne, WithEntries, Desired;
    if ports == [] {
      NoEntries(m);
    } else {
      var init, last := ports[..|ports| - 1], ports[|ports| - 1];
      FlashKeeps(m, init);
      FlashOneKeeps(FlashAll(m, init), last);
      EntriesSnoc(m, init, last);
      EntriesWantTheSame(m, FlashAll(m, init), init, last);
      assert ports == init + [last] && forall qp :: qp in ports <==> qp in init || qp == last;
    }
  }

  lemma NoEntries(m: Manager)
    ensures WithEntries(m, []).states == m.states
  {
  }

  lemma EntriesSnoc(m: Manager, init: seq<QualifiedPort>, last: QualifiedPort)
    ensures WithEntries(m, init + [last]).states == WithEntries(m, init).states[last := Desired(m, last)]
  {
    hide Desired;
    assert forall qp :: qp in init + [last] <==> qp in init || qp == last;
  }

  /** Entries do not change what is wanted. */
  lemma EntriesWantTheSame(m: Manager, f: Manager, ports: seq<QualifiedPort>, p: QualifiedPort)
    requires f.devices == m.devices && f.states == WithEntries(m, ports).states
    ensures Desired(f, p) == Desired(m, p)
  {
  }

  lemma RetireKeeps(m: Manager, k: nat)
    requires Tasked(m) && k < |m.tasks|
    ensures Tasked(m.(tasks := m.tasks[..k] + m.tasks[k + 1..]))
  {
    hide Key;
    var r := m.(tasks := m.tasks[..k] + m.tasks[k + 1..]);
    assert forall i :: 0 <= i < |r.tasks| ==> r.tasks[i] == m.tasks[if i < k then i else i + 1];
  }

  lemma ToggleKeeps(m: Manager, k: nat, isOn: bool)
    requires Tasked(m) && k < |m.tasks|
    ensures Tasked(m.(tasks := m.tasks[k := m.tasks[k].(isOn := isOn)]))
  {
    hide Key;
    var r := m.(tasks := m.tasks[k := m.tasks[k].(isOn := isOn)]);
    assert forall i :: 0 <= i < |r.tasks| ==> r.tasks[i].qp == m.tasks[i].qp && r.tasks[i].flag == m.tasks[i].flag;
  }

  lemma TimersIgnoreMotors(m: Manager, r: Manager)
    requires r == m.(motors := r.motors, tasks := r.tasks)
    ensures Timed(m) ==> Timed(r)
    ensures Tasked(m.(tasks := r.tasks)) ==> Tasked(r)
  {
  }

  lemma TickKeeps(m: Manager, k: nat, due: bool)
    requires Inv(m)
    ensures Inv(Tick(m, k, due)) && Tick(m, k, due) == m.(tasks := Tick(m, k, due).tasks, motors := Tick(m, k, due).motors)
  {
    hide Key, Tasked, Timed, Desired, Inv, Live;
    var r := Tick(m, k, due);
    if k < |m.tasks| {
      TickElsewhere(m, k, due);
    }
  }

  lemma TickTasks(m: Manager, k: nat, due: bool)
    requires Timed(m) && Tasked(m) && k < |m.tasks|
    ensures Timed(Tick(m, k, due)) && Tasked(Tick(m, k, due))
    ensures Tick(m, k, due) == m.(tasks := Tick(m, k, due).tasks, motors := Tick(m, k, due).motors)
    ensures Flashing(m, m.tasks[k].qp) || Tick(m, k, due).motors == m.motors
    ensures forall p :: p != m.tasks[k].qp ==> MotorAt(Tick(m, k, due), p) == MotorAt(m, p)
  {
    hide Key, Tasked, Timed, Desired;
    var r := Tick(m, k, due);
    RetireKeeps(m, k);
    ToggleKeeps(m, k, !m.tasks[k].isOn);
    TimersIgnoreMotors(m, r);
    if !Cancelled(m, m.tasks[k]) {
      FlashesThere(m, k);
    }
  }

  lemma TickElsewhere(m: Manager, k: nat, due: bool)
    requires Inv(m) && k < |m.tasks|
    ensures Inv(Tick(m, k, due)) && Tick(m, k, due) == m.(tasks := Tick(m, k, due).tasks, motors := Tick(m, k, due).motors)
  {
    hide Key, Tasked, Timed, Desired, Tick;
    var r := Tick(m, k, due);
    TickTasks(m, k, due);
    forall p ensures CachedAt(r, p) && AgreedAt(r, p) {
      assert CachedAt(m, p) && AgreedAt(m, p);
      SameWish(m, r, p);
    }
  }

  lemma FlashesThere(m: Manager, k: nat)
    requires Tasked(m) && k < |m.tasks| && !Cancelled(m, m.tasks[k])
    ensures Flashing(m, m.tasks[k].qp)
  {
  }

  lemma SameWish(m: Manager, r: Manager, p: QualifiedPort)
    requires r.states == m.states && r.devices == m.devices
    ensures Desired(r, p) == Desired(m, p)
  {
  }

  lemma AllOffKeeps(m: Manager)
    requires Inv(m)
    ensures Inv(AllOff(m))
  {
    hide Key, Tasked, Timed;
    var r := AllOff(m);
    RaisedAll(m);
    forall p ensures CachedAt(r, p) {
      assert CachedAt(m, p);
    }
    forall p ensures AgreedAt(r, p) {
      assert AgreedAt(m, p);
    }
  }

  lemma RaisedAll(m: Manager)
    requires Timed(m) && Tasked(m)
    ensures Timed(AllOff(m)) && Tasked(AllOff(m))
  {
    hide Key;
    var r := AllOff(m);
    forall i | 0 <= i < |r.tasks| ensures Cancelled(r, r.tasks[i]) {
      if !Cancelled(m, m.tasks[i]) {
        assert m.timers[Key(m.tasks[i].qp)] in m.timers.Values;
      }
    }
  }

  lemma DisconnectKeeps(m: Manager, d: string)
    requires Inv(m)
    ensures Inv(Apply(m, Disconnect(d), []))
  {
    hide Key;
    var r := Apply(m, Disconnect(d), []);
    assert forall p :: IsOutput(r, p) <==> IsOutput(m, p);
    forall p ensures CachedAt(r, p) && AgreedAt(r, p) {
      assert CachedAt(m, p) && AgreedAt(m, p);
    }
  }

  lemma StepKeeps(m: Manager, op: Op)
    requires Inv(m)
    ensures Inv(Step(m, op))
  {
    hide Inv, TurnedOn, TurnedOff, Moved, Directed, Synced, Reversed, WithPower, FlashAll, WithEntries, AllOff, Tick, Refused, ResolveAll, TooMuch;
    var selected := Selected(m.devices, m.active, op);
    if selected.Ok? {
      var ports := selected.value;
      match op {
        case On(_) => OnKeeps(m, ports);
        case Off(_) => OffKeeps(m, ports);
        case Move(_) => MoveKeeps(m, ports);
        case SetDirection(_, direction) => DirectKeeps(m, ports, direction);
        case Reverse(_) => ReverseKeeps(m, ports);
        case SetPower(_, level) => PowerKeeps(m, ports, level);
        case Flash(_) => FlashKeeps(m, ports);
        case TalkTo(_) => EntriesKeep(m, ports);
        case StopAll => AllOffKeeps(m);
        case Visit(k, due) => TickKeeps(m, k, due);
        case Disconnect(d) => DisconnectKeeps(m, d);
      }
    }
  }

  /** In every state that commands, flashing and lost devices can lead to. */
  lemma {:induction false} ReachableInv(m: Manager, ops: seq<Op>)
    requires Inv(m)
    ensures Inv(Exec(m, ops))
    decreases ops
  {
    hide Inv, Step;
    if ops != [] {
      StepKeeps(m, ops[0]);
      ReachableInv(Step(m, ops[0]), ops[1..]);
    }
  }

  // ---- What a flash task does, and when it can do no more ----

  predicate OnlyVisits(ops: seq<Op>) {
    forall i :: 0 <= i < |ops| ==> ops[i].Visit?
  }

  lemma {:induction false} VisitsKeepWishes(m: Manager, ops: seq<Op>)
    requires Inv(m) && OnlyVisits(ops)
    ensures var r := Exec(m, ops); r == m.(tasks := r.tasks, motors := r.motors)
    decreases ops
  {
    hide Inv, Tick;
    if ops != [] {
      TickKeeps(m, ops[0].task, ops[0].due);
      VisitsKeepWishes(Step(m, ops[0]), ops[1..]);
    }
  }

  /** The motor does what the flash task of its port stands for, as wanted now. */
  ghost predicate ShowsTask(m: Manager, qp: QualifiedPort) {
    forall k :: 0 <= k < |m.tasks| && m.tasks[k].qp == qp && !Cancelled(m, m.tasks[k]) && Live(m, qp) ==>
      MotorAt(m, qp) == MotorOf(Desired(m, qp).(running := m.tasks[k].isOn))
  }

  lemma FlashOneShows(m: Manager, q: QualifiedPort, qp: QualifiedPort)
    requires Inv(m) && IsOutput(m, q) && IsOutput(m, qp) && (q == qp || ShowsTask(m, qp))
    ensures ShowsTask(FlashOne(m, q), qp)
  {
    hide Key, Desired;
    var c, r := CancelFlash(m, q), FlashOne(m, q);
    CancelTouchesOne(m, q);
    CancelKeepsTasks(m, q);
    SameWish(m, c, qp);
    if q == qp {
      assert Desired(r, qp) == Desired(c, qp) by { OwnEntry(c, r, qp); }
      assert forall k :: 0 <= k < |c.tasks| && c.tasks[k].qp == qp ==> Cancelled(c, c.tasks[k]);
    } else {
      assert Desired(r, qp) == Desired(c, qp) by { OtherEntry(c, r, q, qp); }
      forall k | 0 <= k < |r.tasks| && r.tasks[k].qp == qp && !Cancelled(r, r.tasks[k]) && Live(r, qp)
        ensures MotorAt(r, qp) == MotorOf(Desired(r, qp).(running := r.tasks[k].isOn))
      {
        assert k < |m.tasks| && r.tasks[k] == m.tasks[k] && !Cancelled(m, m.tasks[k]);
      }
    }
  }

  lemma OwnEntry(c: Manager, r: Manager, qp: QualifiedPort)
    requires r.devices == c.devices && r.states == c.states[qp := Desired(c, qp)]
    ensures Desired(r, qp) == Desired(c, qp)
  {
  }

  lemma OtherEntry(c: Manager, r: Manager, q: QualifiedPort, qp: QualifiedPort)
    requires q != qp && r.devices == c.devices && r.states == c.states[q := Desired(c, q)]
    ensures Desired(r, qp) == Desired(c, qp)
  {
  }

  lemma {:induction false} FlashAllShows(m: Manager, ports: seq<QualifiedPort>, qp: QualifiedPort)
    requires Inv(m) && qp in ports && forall i :: 0 <= i < |ports| ==> IsOutput(m, ports[i])
    ensures ShowsTask(FlashAll(m, ports), qp)
    decreases ports
  {
    hide Inv, FlashOne, ShowsTask;
    var init, last := ports[..|ports| - 1], ports[|ports| - 1];
    FlashKeeps(m, init);
    if last != qp {
      assert qp in init by {
        var i :| 0 <= i < |ports| && ports[i] == qp;
        assert init[i] == qp;
      }
      FlashAllShows(m, init, qp);
    }
    FlashOneShows(FlashAll(m, init), last, qp);
  }

  /** Of two tasks of one port at least one is cancelled. */
  lemma OtherIsCancelled(m: Manager, i: nat, k: nat)
    requires Inv(m) && i < |m.tasks| && k < |m.tasks| && i != k && m.tasks[i].qp == m.tasks[k].qp && !Cancelled(m, m.tasks[i])
    ensures Cancelled(m, m.tasks[k])
  {
    if !Cancelled(m, m.tasks[k]) {
      OneFlashTaskEach(m, i, k);
    }
  }

  /** A visit leaves all as it is, retires the task, or turns it over. */
  lemma VisitDoes(m: Manager, k: nat, due: bool)
    ensures var r := Tick(m, k, due);
      || r == m
      || (k < |m.tasks| && r == m.(tasks := m.tasks[..k] + m.tasks[k + 1..]))
      || (k < |m.tasks| && !Cancelled(m, m.tasks[k]) &&
            var t := m.tasks[k];
            r == m.(tasks := m.tasks[k := t.(isOn := !t.isOn)],
                    motors := m.motors[t.qp := MotorOf(Desired(m, t.qp).(running := !t.isOn))]))
  {
    hide Desired;
  }

  lemma VisitShows(m: Manager, k: nat, due: bool, qp: QualifiedPort)
    requires Inv(m) && ShowsTask(m, qp)
    ensures ShowsTask(Tick(m, k, due), qp)
  {
    hide Desired, Tick, Inv, MotorOf;
    var r := Tick(m, k, due);
    VisitDoes(m, k, due);
    SameWish(m, r, qp);
    forall i | 0 <= i < |r.tasks| && r.tasks[i].qp == qp && !Cancelled(r, r.tasks[i]) && Live(r, qp)
      ensures MotorAt(r, qp) == MotorOf(Desired(r, qp).(running := r.tasks[i].isOn))
    {
      if |r.tasks| < |m.tasks| {
        assert r.tasks[i] == m.tasks[if i < k then i else i + 1];
      } else if r != m && i != k {
        assert r.tasks[i] == m.tasks[i];
        if m.tasks[k].qp == qp {
          OtherIsCancelled(m, i, k);
        }
      }
    }
  }

  lemma {:induction false} VisitsShow(m: Manager, ops: seq<Op>, qp: QualifiedPort)
    requires Inv(m) && ShowsTask(m, qp) && OnlyVisits(ops)
    ensures ShowsTask(Exec(m, ops), qp) && Exec(m, ops).timers == m.timers
    decreases ops
  {
    hide Inv, ShowsTask, Tick;
    if ops != [] {
      var op := ops[0];
      VisitShows(m, op.task, op.due, qp);
      TickKeeps(m, op.task, op.due);
      VisitsShow(Tick(m, op.task, op.due), ops[1..], qp);
    }
  }

  /**
   * However often flash tasks are visited after a flash has begun, a flashing port is driven or stands still as its task stands
   * for, with the direction and power wanted, and it goes on flashing.
   */
  lemma FlashShowsTask(m: Manager, names: seq<string>, ops: seq<Op>, qp: QualifiedPort)
    requires Inv(m) && OnlyVisits(ops) && Selected(m.devices, m.active, Flash(names)).Ok?
    requires qp in Selected(m.devices, m.active, Flash(names)).value
    ensures var r := Exec(Step(m, Flash(names)), ops); ShowsTask(r, qp) && Flashing(r, qp)
  {
    hide Inv, ShowsTask, FlashAll, Key, ResolveAll;
    var ports := Selected(m.devices, m.active, Flash(names)).value;
    assert Refused(m.devices, ports).None?;
    FlashKeeps(m, ports);
    FlashAllShows(m, ports, qp);
    VisitsShow(FlashAll(m, ports), ops, qp);
    assert Key(qp) in set p | p in ports :: Key(p);
  }

  /** Once turned off, a port stays still however often any flash task is visited, also one that was made for it. */
  lemma OffStaysOff(m: Manager, names: seq<string>, ops: seq<Op>, qp: QualifiedPort)
    requires Inv(m) && OnlyVisits(ops) && Selected(m.devices, m.active, Off(names)).Ok?
    requires qp in Selected(m.devices, m.active, Off(names)).value && Live(m, qp)
    ensures MotorAt(Exec(Step(m, Off(names)), ops), qp) == Stopped
  {
    hide Inv, Sound, WithRunning, CancelAll, Key, BatchStop, Tick, Step;
    var ports := Selected(m.devices, m.active, Off(names)).value;
    var off := Step(m, Off(names));
    StepKeeps(m, Off(names));
    TurnedOffAt(m, names, ports, qp);
    VisitsKeepWishes(off, ops);
    ReachableInv(off, ops);
    HardwareIsAsDesired(Exec(off, ops), qp);
  }

  lemma TurnedOffAt(m: Manager, names: seq<string>, ports: seq<QualifiedPort>, qp: QualifiedPort)
    requires Inv(m) && Selected(m.devices, m.active, Off(names)) == Ok(ports) && qp in ports && Live(m, qp)
    ensures var off := Step(m, Off(names)); Live(off, qp) && !Flashing(off, qp) && qp in off.states && !off.states[qp].running
  {
    hide Inv, WithRunning, CancelAll, Key, ResolveAll;
    CancelledAndSet(m, ports, false);
    var i :| 0 <= i < |ports| && ports[i] == qp;
    assert Key(qp) in set p | p in ports :: Key(p);
  }
}
