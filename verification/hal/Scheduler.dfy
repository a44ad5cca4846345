/** The background thread that ticks device slots and runs periodic tasks, and those who register work with it. */
module Scheduler {

  /** Where a spawned loop is: before its first lock, before taking the tasks, running them, or gone. */
  datatype Thread =
    | Top
    | Reaped
    | Running(taken: seq<nat>, done: nat, kept: seq<nat>, since: nat)
    | Exited

  datatype Event = Ticked(slot: nat) | Ran(task: nat)

  /**
   * The shared lists, every loop ever spawned, and the history: what happened, and which ids were
   * registered and which of them are gone. Slots and tasks are named by their ids.
   */
  datatype State = State(
    slots: seq<nat>, tasks: seq<nat>, nextId: nat, threadRunning: bool, threads: seq<Thread>,
    log: seq<Event>, addedSlots: set<nat>, goneSlots: set<nat>, addedTasks: set<nat>, goneTasks: set<nat>)

  /**
   * What one thread does while it holds the lock, or one call of a task between two locks. The loops take
   * the index of their thread; which slots have died and whether a task wants to go on is up to them.
   */
  datatype Step =
    | RegisterSlot
    | RegisterTask
    | DeregisterSlot(id: nat)
    | Reap(t: nat, dead: set<nat>)
    | Take(t: nat)
    | Run(t: nat, again: bool)
    | Merge(t: nat)
  {
    predicate IsLoop() {
      Reap? || Take? || Run? || Merge?
    }
  }

  function Without(ids: seq<nat>, gone: set<nat>): (r: seq<nat>)
    ensures forall x :: x in r <==> x in ids && x !in gone
    decreases ids
  {
    if ids == [] then [] else (if ids[0] in gone then [] else [ids[0]]) + Without(ids[1..], gone)
  }

  lemma WithoutStep(ids: seq<nat>, gone: set<nat>)
    ensures Without(ids, gone) == if ids == [] then [] else (if ids[0] in gone then [] else [ids[0]]) + Without(ids[1..], gone)
  {
  }

  function TickAll(slots: seq<nat>): (r: seq<Event>)
    ensures |r| == |slots| && forall i :: 0 <= i < |r| ==> r[i] == Ticked(slots[i])
  {
    seq(|slots|, i requires 0 <= i < |slots| => Ticked(slots[i]))
  }

  function RanAll(tasks: seq<nat>): (r: seq<Event>)
    ensures |r| == |tasks| && forall i :: 0 <= i < |r| ==> r[i] == Ran(tasks[i])
  {
    seq(|tasks|, i requires 0 <= i < |tasks| => Ran(tasks[i]))
  }

  function WithLoop(s: State): State {
    if s.threadRunning then s else s.(threadRunning := true, threads := s.threads + [Top])
  }

  predicate Enabled(s: State, step: Step) {
    match step
    case Reap(t, _) => t < |s.threads| && s.threads[t].Top?
    case Take(t) => t < |s.threads| && s.threads[t].Reaped?
    case Run(t, _) => t < |s.threads| && s.threads[t].Running? && s.threads[t].done < |s.threads[t].taken|
    case Merge(t) => t < |s.threads| && s.threads[t].Running? && s.threads[t].done == |s.threads[t].taken|
    case _ => true
  }

  function Next(s: State, step: Step): State
    requires Enabled(s, step)
  {
    match step
    case RegisterSlot =>
      WithLoop(s.(slots := s.slots + [s.nextId], nextId := s.nextId + 1, addedSlots := s.addedSlots + {s.nextId}))
    case RegisterTask =>
      WithLoop(s.(tasks := s.tasks + [s.nextId], nextId := s.nextId + 1, addedTasks := s.addedTasks + {s.nextId}))
    case DeregisterSlot(id) =>
      s.(slots := Without(s.slots, {id}), goneSlots := s.goneSlots + (if id in s.slots then {id} else {}))
    case Reap(t, dead) =>
      var slots := Without(s.slots, dead);
      s.(slots := slots, log := s.log + TickAll(slots), threads := s.threads[t := Reaped],
         goneSlots := s.goneSlots + set x | x in s.slots && x in dead)
    case Take(t) =>
      s.(tasks := [], threads := s.threads[t := Running(s.tasks, 0, [], |s.log|)])
    case Run(t, again) =>
      var r := s.threads[t];
      var id := r.taken[r.done];
      s.(threads := s.threads[t := r.(done := r.done + 1, kept := if again then r.kept + [id] else r.kept)],
         log := s.log + [Ran(id)],
         goneTasks := s.goneTasks + if again then {} else {id})
    case Merge(t) =>
      var tasks := s.threads[t].kept + s.tasks;
      if s.slots == [] && tasks == [] then s.(tasks := tasks, threadRunning := false, threads := s.threads[t := Exited])
      else s.(tasks := tasks, threads := s.threads[t := Top])
  }

  const START := State([], [], 0, false, [], [], {}, {}, {}, {})

  predicate IsRun(s: State, steps: seq<Step>)
    decreases steps
  {
    steps == [] || (Enabled(s, steps[0]) && IsRun(Next(s, steps[0]), steps[1..]))
  }

  function Exec(s: State, steps: seq<Step>): State
    requires IsRun(s, steps)
    decreases steps
  {
    if steps == [] then s else Exec(Next(s, steps[0]), steps[1..])
  }

  // ---- What always holds ----

  /** The tasks that a loop has taken out of the list and not yet put back or dropped. */
  function Held(s: State): seq<nat> {
    if s.threads != [] && s.threads[|s.threads| - 1].Running? && s.threads[|s.threads| - 1].done <= |s.threads[|s.threads| - 1].taken|
    then s.threads[|s.threads| - 1].kept + s.threads[|s.threads| - 1].taken[s.threads[|s.threads| - 1].done..]
    else []
  }

  function Pending(s: State): seq<nat> {
    Held(s) + s.tasks
  }

  ghost predicate Increasing(ids: seq<nat>) {
    forall i, j :: 0 <= i < j < |ids| ==> ids[i] < ids[j]
  }

  /** At most one loop is active, it is the last one spawned, and `thread_running` tells whether it is. */
  ghost predicate OneLoop(s: State) {
    && (forall t :: 0 <= t < |s.threads| && !s.threads[t].Exited? ==> s.threadRunning && t == |s.threads| - 1)
    && (s.threadRunning ==> s.threads != [] && !s.threads[|s.threads| - 1].Exited?)
  }

  /** Whatever is pending has a loop that will look at it. */
  ghost predicate Served(s: State) {
    Pending(s) != [] || s.slots != [] ==> s.threadRunning
  }

  /** Pending tasks, in the order of registration; none is listed twice. */
  ghost predicate Ordered(s: State) {
    && Increasing(Pending(s)) && Increasing(s.slots)
    && (forall x :: x in s.addedTasks ==> x < s.nextId && x !in s.addedSlots)
    && (forall x :: x in s.addedSlots ==> x < s.nextId)
  }

  /** What was registered is pending until it is gone. */
  ghost predicate Conserved(s: State) {
    && (forall x :: x in s.addedTasks <==> x in s.goneTasks || x in Pending(s))
    && (forall x :: x in s.addedSlots <==> x in s.goneSlots || x in s.slots)
    && (forall x :: x in Pending(s) ==> x !in s.goneTasks)
    && (forall x :: x in s.slots ==> x !in s.goneSlots)
  }

  /** A running loop has called the first `done` of the tasks it took, once each and in order, and nothing else. */
  ghost predicate InStep(s: State) {
    forall t :: 0 <= t < |s.threads| && s.threads[t].Running? ==>
      && s.threads[t].done <= |s.threads[t].taken|
      && s.threads[t].since <= |s.log|
      && s.log[s.threads[t].since..] == RanAll(s.threads[t].taken[..s.threads[t].done])
  }

  ghost predicate Inv(s: State) {
    OneLoop(s) && Served(s) && Ordered(s) && Conserved(s) && InStep(s)
  }

  lemma {:induction false} WithoutIncreasing(ids: seq<nat>, gone: set<nat>)
    requires Increasing(ids)
    ensures Increasing(Without(ids, gone))
    decreases ids
  {
    if ids != [] {
      var first, rest := ids[0], Without(ids[1..], gone);
      WithoutIncreasing(ids[1..], gone);
      forall x | x in rest ensures first < x {
        var i :| 0 <= i < |ids[1..]| && ids[1..][i] == x;
        assert ids[i + 1] == x;
      }
      assert forall i :: 0 <= i < |rest| ==> rest[i] in rest;
      if first !in gone {
        IncreasingPrepend(first, rest);
      }
    }
  }

  lemma IncreasingPrepend(x: nat, a: seq<nat>)
    requires Increasing(a) && forall i :: 0 <= i < |a| ==> x < a[i]
    ensures Increasing([x] + a)
  {
  }

  lemma IncreasingWithout(a: seq<nat>, x: nat, b: seq<nat>)
    requires Increasing(a + [x] + b)
    ensures Increasing(a + b) && x !in a + b
  {
    var all := a + [x] + b;
    assert forall i :: 0 <= i < |a| ==> all[i] == a[i];
    assert forall i :: 0 <= i < |b| ==> all[|a| + 1 + i] == b[i];
    assert all[|a|] == x;
  }

  lemma IncreasingAppend(a: seq<nat>, x: nat)
    requires Increasing(a) && forall y :: y in a ==> y < x
    ensures Increasing(a + [x])
  {
    assert forall i :: 0 <= i < |a| ==> a[i] in a;
  }

  /** Only a call can take a task off what is pending; a registration puts one behind it. */
  lemma PendingElsewhere(s: State, step: Step)
    requires Inv(s) && Enabled(s, step) && !step.Run?
    ensures Pending(Next(s, step)) == if step.RegisterTask? then Pending(s) + [s.nextId] else Pending(s)
  {
    hide Served, Ordered, Conserved;
    var s' := Next(s, step);
    if step.Take? {
      assert Held(s) == [] && Held(s') == [] + s.tasks[0..];
    } else if step.Merge? {
      var r := s.threads[step.t];
      assert r.taken[r.done..] == [] && Held(s') == [];
    } else if step.Reap? {
      assert Held(s') == Held(s);
    } else {
      assert s'.threads == s.threads || (s'.threads == s.threads + [Top] && Held(s) == [] && Held(s') == []);
    }
  }

  lemma LoopPartsKept(s: State, s': State)
    requires OneLoop(s) && InStep(s) && s'.log == s.log
    requires (s'.threads == s.threads && s'.threadRunning == s.threadRunning)
          || (!s.threadRunning && s'.threads == s.threads + [Top] && s'.threadRunning)
    ensures OneLoop(s') && InStep(s')
  {
  }

  lemma RegistrationKeeps(s: State, step: Step)
    requires Inv(s) && (step.RegisterSlot? || step.RegisterTask?)
    ensures Inv(Next(s, step))
  {
    hide Pending, OneLoop, InStep, Increasing;
    var s' := Next(s, step);
    PendingElsewhere(s, step);
    LoopPartsKept(s, s');
    if step.RegisterTask? {
      assert forall x :: x in Pending(s) ==> x in s.addedTasks;
      IncreasingAppend(Pending(s), s.nextId);
    } else {
      assert forall x :: x in s.slots ==> x in s.addedSlots;
      IncreasingAppend(s.slots, s.nextId);
    }
  }

  lemma DeregistrationKeeps(s: State, id: nat)
    requires Inv(s)
    ensures Inv(Next(s, DeregisterSlot(id)))
  {
    hide Pending;
    WithoutIncreasing(s.slots, {id});
    PendingElsewhere(s, DeregisterSlot(id));
  }

  lemma ReapKeeps(s: State, t: nat, dead: set<nat>)
    requires Inv(s) && Enabled(s, Reap(t, dead))
    ensures Inv(Next(s, Reap(t, dead)))
  {
    hide Pending;
    WithoutIncreasing(s.slots, dead);
    PendingElsewhere(s, Reap(t, dead));
  }

  lemma TakeKeeps(s: State, t: nat)
    requires Inv(s) && Enabled(s, Take(t))
    ensures Inv(Next(s, Take(t)))
  {
    hide Pending;
    PendingElsewhere(s, Take(t));
  }

  /** What is pending once a task has been called. */
  lemma RunPending(s: State, t: nat, again: bool)
    requires OneLoop(s) && Enabled(s, Run(t, again))
    ensures var r := s.threads[t]; var rest := r.taken[r.done + 1..];
      && t == |s.threads| - 1 && Pending(s) == r.kept + [r.taken[r.done]] + (rest + s.tasks)
      && Pending(Next(s, Run(t, again))) == (if again then r.kept + [r.taken[r.done]] else r.kept) + (rest + s.tasks)
  {
    var r := s.threads[t];
    assert r.taken[r.done..] == [r.taken[r.done]] + r.taken[r.done + 1..];
  }

  lemma RunKeeps(s: State, t: nat, again: bool)
    requires Inv(s) && Enabled(s, Run(t, again))
    ensures Inv(Next(s, Run(t, again)))
  {
    hide Pending, Held;
    var s' := Next(s, Run(t, again));
    var r := s.threads[t];
    var id, others := r.taken[r.done], r.taken[r.done + 1..] + s.tasks;
    RunPending(s, t, again);
    IncreasingWithout(r.kept, id, others);
    assert forall x :: x in Pending(s) <==> x == id || x in r.kept + others;
    assert forall x :: x in Pending(s') <==> (again && x == id) || x in r.kept + others;
    RunInStep(s, t, again);
  }

  lemma RunInStep(s: State, t: nat, again: bool)
    requires OneLoop(s) && InStep(s) && Enabled(s, Run(t, again))
    ensures InStep(Next(s, Run(t, again)))
  {
    var s' := Next(s, Run(t, again));
    var r := s.threads[t];
    var id := r.taken[r.done];
    assert s'.log[r.since..] == s.log[r.since..] + [Ran(id)];
    assert r.taken[..r.done + 1] == r.taken[..r.done] + [id];
  }

  lemma MergeKeeps(s: State, t: nat)
    requires Inv(s) && Enabled(s, Merge(t))
    ensures Inv(Next(s, Merge(t)))
  {
    var r := s.threads[t];
    var s' := Next(s, Merge(t));
    PendingElsewhere(s, Merge(t));
    assert r.taken[r.done..] == [] && Held(s') == [] && Pending(s') == s'.tasks;
  }

  lemma StepKeeps(s: State, step: Step)
    requires Inv(s) && Enabled(s, step)
    ensures Inv(Next(s, step))
  {
    hide Inv, Next, Enabled;
    match step {
      case RegisterSlot => RegistrationKeeps(s, step);
      case RegisterTask => RegistrationKeeps(s, step);
      case DeregisterSlot(id) => DeregistrationKeeps(s, id);
      case Reap(t, dead) => ReapKeeps(s, t, dead);
      case Take(t) => TakeKeeps(s, t);
      case Run(t, again) => RunKeeps(s, t, again);
      case Merge(t) => MergeKeeps(s, t);
    }
  }

  /** Under every interleaving of registrations, deregistrations and loop steps. */
  lemma {:induction false} ReachableInv(s: State, steps: seq<Step>)
    requires Inv(s) && IsRun(s, steps)
    ensures Inv(Exec(s, steps))
    decreases steps
  {
    hide Inv, Next, Enabled;
    if steps != [] {
      StepKeeps(s, steps[0]);
      ReachableInv(Next(s, steps[0]), steps[1..]);
    }
  }

  lemma AlwaysInv(steps: seq<Step>)
    requires IsRun(START, steps)
    ensures Inv(Exec(START, steps))
  {
    ReachableInv(START, steps);
  }

  /** How many slots and tasks are registered by these steps. */
  function Registrations(steps: seq<Step>): nat {
    if steps == [] then 0
    else (if steps[0].RegisterSlot? || steps[0].RegisterTask? then 1 else 0) + Registrations(steps[1..])
  }

  /** Slots and tasks are numbered through, in the order in which they are registered. */
  lemma {:induction false} IdsCount(s: State, steps: seq<Step>)
    requires IsRun(s, steps)
    ensures Exec(s, steps).nextId == s.nextId + Registrations(steps)
    decreases steps
  {
    if steps != [] {
      IdsCount(Next(s, steps[0]), steps[1..]);
    }
  }

  /** A loop leaves only when nothing is registered that is not gone; what comes later spawns a new one. */
  lemma LeavesOnlyWhenDone(s: State, step: Step)
    requires Inv(s) && Enabled(s, step) && s.threadRunning && !Next(s, step).threadRunning
    ensures step.Merge? && s.addedTasks == s.goneTasks && s.addedSlots == s.goneSlots
  {
    hide Inv, Pending;
    StepKeeps(s, step);
    OnlyMergeLeaves(s, step);
    AllGone(Next(s, step));
  }

  lemma OnlyMergeLeaves(s: State, step: Step)
    requires Enabled(s, step) && s.threadRunning && !Next(s, step).threadRunning
    ensures var t := Next(s, step);
      && step.Merge? && t.addedTasks == s.addedTasks && t.goneTasks == s.goneTasks
      && t.addedSlots == s.addedSlots && t.goneSlots == s.goneSlots
  {
  }

  /** Without a loop everything that was registered is gone. */
  lemma AllGone(s: State)
    requires Inv(s) && !s.threadRunning
    ensures s.addedTasks == s.goneTasks && s.addedSlots == s.goneSlots
  {
  }

  /** A task retires only by saying so when it is called. */
  lemma RetiresOnlyItself(s: State, step: Step, id: nat)
    requires Inv(s) && Enabled(s, step) && id in Pending(s) && id !in Pending(Next(s, step))
    ensures step.Run? && !step.again && Next(s, step).log == s.log + [Ran(id)]
  {
    hide Pending;
    if step.Run? {
      RunPending(s, step.t, step.again);
    } else {
      PendingElsewhere(s, step);
    }
  }

  // ---- Every task is called again ----

  function IndexOf(ids: seq<nat>, id: nat): (k: nat)
    requires id in ids
    ensures k < |ids| && ids[k] == id && id !in ids[..k]
    decreases ids
  {
    if ids[0] == id then 0 else 1 + IndexOf(ids[1..], id)
  }

  lemma {:induction false} IndexAppend(a: seq<nat>, b: seq<nat>, id: nat)
    requires id in a
    ensures IndexOf(a + b, id) == IndexOf(a, id)
    decreases a
  {
    if a[0] != id {
      assert (a + b)[1..] == a[1..] + b;
      IndexAppend(a[1..], b, id);
    }
  }

  lemma {:induction false} IndexDrop(a: seq<nat>, x: nat, b: seq<nat>, id: nat)
    requires id in a + b && id != x
    ensures id in a + [x] + b && IndexOf(a + b, id) <= IndexOf(a + [x] + b, id)
    decreases a
  {
    if a == [] {
      assert a + b == b && a + [x] + b == [x] + b && ([x] + b)[1..] == b;
    } else {
      assert (a + b)[1..] == a[1..] + b && (a + [x] + b)[1..] == a[1..] + [x] + b;
      if a[0] != id {
        assert id in a[1..] + b;
        IndexDrop(a[1..], x, b, id);
      }
    }
  }

  /** How many steps of the loop can come before a pending task is called. */
  function Wait(s: State, id: nat): nat
    requires id in Pending(s)
  {
    if s.threads == [] then 0
    else
      match s.threads[|s.threads| - 1]
      case Top => 2 + IndexOf(Pending(s), id)
      case Reaped => 1 + IndexOf(Pending(s), id)
      case Running(taken, done, kept, _) =>
        if done > |taken| then 0
        else if id in taken[done..] then IndexOf(taken[done..], id)
        else |taken| - done + 3 + IndexOf(Pending(s), id)
      case Exited => 0
  }

  predicate Calls(s: State, step: Step, id: nat) {
    Enabled(s, step) && step.Run? && s.threads[step.t].taken[s.threads[step.t].done] == id
  }

  /** Others do not delay a task, and each step of the loop that does not call it brings the call nearer. */
  lemma WaitRegistration(s: State, step: Step, id: nat)
    requires Inv(s) && Enabled(s, step) && id in Pending(s) && !step.IsLoop()
    ensures id in Pending(Next(s, step)) && Wait(Next(s, step), id) == Wait(s, id)
  {
    hide Pending, Held, Ordered, Conserved, InStep;
    PendingElsewhere(s, step);
    assert s.threadRunning && Next(s, step).threads == s.threads;
    if step.RegisterTask? {
      IndexAppend(Pending(s), [s.nextId], id);
    }
  }

  lemma WaitRun(s: State, step: Step, id: nat)
    requires Inv(s) && Enabled(s, step) && id in Pending(s) && step.Run? && !Calls(s, step, id)
    ensures id in Pending(Next(s, step)) && Wait(Next(s, step), id) < Wait(s, id)
  {
    hide Pending, Held, Served, Ordered, Conserved, InStep, IndexOf;
    var r := s.threads[step.t];
    var head, rest := r.taken[r.done], r.taken[r.done + 1..];
    var s' := Next(s, step);
    RunPending(s, step.t, step.again);
    assert r.taken[r.done..] == [head] + rest;
    assert s'.threads[|s'.threads| - 1].taken[s'.threads[|s'.threads| - 1].done..] == rest;
    if id in rest {
      IndexBehind(head, rest, id);
    } else if step.again {
      assert r.kept + [head] + (rest + s.tasks) == Pending(s);
    } else {
      IndexDrop(r.kept, head, rest + s.tasks, id);
    }
  }

  lemma IndexBehind(x: nat, rest: seq<nat>, id: nat)
    requires id in rest && id != x
    ensures IndexOf([x] + rest, id) == 1 + IndexOf(rest, id)
  {
    assert ([x] + rest)[1..] == rest;
  }

  /** The loop takes all there is. */
  lemma TakeTakesAll(s: State, t: nat)
    requires OneLoop(s) && Enabled(s, Take(t))
    ensures Pending(s) == s.tasks
  {
  }

  lemma WaitLoop(s: State, step: Step, id: nat)
    requires Inv(s) && Enabled(s, step) && id in Pending(s) && step.IsLoop() && !Calls(s, step, id)
    ensures id in Pending(Next(s, step)) && Wait(Next(s, step), id) < Wait(s, id)
  {
    hide Pending, Held, Served, Ordered, Conserved, InStep, IndexOf;
    if step.Run? {
      WaitRun(s, step, id);
    } else {
      PendingElsewhere(s, step);
      if step.Take? {
        TakeTakesAll(s, step.t);
        assert s.tasks[0..] == s.tasks;
      } else if step.Merge? {
        NothingLeft(s.threads[step.t], id);
      }
    }
  }

  lemma NothingLeft(r: Thread, id: nat)
    requires r.Running? && r.done == |r.taken|
    ensures id !in r.taken[r.done..]
  {
  }

  function LoopSteps(steps: seq<Step>): nat
    decreases steps
  {
    if steps == [] then 0 else (if steps[0].IsLoop() then 1 else 0) + LoopSteps(steps[1..])
  }

  lemma LogGrows(s: State, step: Step)
    requires Enabled(s, step)
    ensures s.log <= Next(s, step).log
  {
  }

  lemma {:induction false} LogKeepsGrowing(s: State, steps: seq<Step>)
    requires IsRun(s, steps)
    ensures s.log <= Exec(s, steps).log
    decreases steps
  {
    hide Next, Enabled;
    if steps != [] {
      LogGrows(s, steps[0]);
      LogKeepsGrowing(Next(s, steps[0]), steps[1..]);
    }
  }

  lemma CallLogs(s: State, step: Step, id: nat)
    requires Calls(s, step, id)
    ensures Next(s, step).log == s.log + [Ran(id)]
  {
  }

  /**
   * However much is registered in between, a pending task has been called again once the loop has made more
   * than `Wait` steps. A loop step is always possible while a task is pending (`LoopCanStep`).
   */
  lemma {:induction false} CalledAgain(s: State, steps: seq<Step>, id: nat)
    requires Inv(s) && IsRun(s, steps) && id in Pending(s) && LoopSteps(steps) > Wait(s, id)
    ensures s.log <= Exec(s, steps).log && Ran(id) in Exec(s, steps).log[|s.log|..]
    decreases steps
  {
    hide Inv, Next, Enabled, Calls, Wait, Pending;
    if steps != [] {
      var step, rest := steps[0], steps[1..];
      var s' := Next(s, step);
      LogGrows(s, step);
      LogKeepsGrowing(s', rest);
      var end := Exec(s', rest);
      if Calls(s, step, id) {
        CallLogs(s, step, id);
        assert end.log[|s.log|] == Ran(id);
      } else {
        StepKeeps(s, step);
        if step.IsLoop() {
          WaitLoop(s, step, id);
        } else {
          WaitRegistration(s, step, id);
        }
        CalledAgain(s', rest, id);
        assert end.log[|s.log|..][|s'.log| - |s.log|..] == end.log[|s'.log|..];
      }
    }
  }

  /** A round takes no more than the steps between: at most two rounds of the pending tasks. */
  lemma WaitIsBounded(s: State, id: nat)
    requires Inv(s) && id in Pending(s)
    ensures Wait(s, id) <= 2 * |Pending(s)| + 2
  {
  }

  /** Exactly the last spawned loop can step, and in one way up to the outcome of what it calls. */
  lemma LoopCanStep(s: State)
    requires Inv(s)
    ensures s.threadRunning <==> exists step: Step :: step.IsLoop() && Enabled(s, step)
    ensures forall step: Step :: step.IsLoop() && Enabled(s, step) ==> step.t == |s.threads| - 1
  {
    if s.threadRunning {
      var t := |s.threads| - 1;
      match s.threads[t] {
        case Top => assert Reap(t, {}).IsLoop() && Enabled(s, Reap(t, {}));
        case Reaped => assert Take(t).IsLoop() && Enabled(s, Take(t));
        case Running(taken, done, _, _) =>
          if done < |taken| {
            assert Run(t, true).IsLoop() && Enabled(s, Run(t, true));
          } else {
            assert Merge(t).IsLoop() && Enabled(s, Merge(t));
          }
        case Exited => assert false;
      }
    }
  }

  /** When a round is over, its loop has called each task it took exactly once. */
  lemma RoundCallsEachOnce(s: State, t: nat)
    requires Inv(s) && Enabled(s, Merge(t))
    ensures s.log[s.threads[t].since..] == RanAll(s.threads[t].taken)
  {
    assert s.threads[t].taken[..s.threads[t].done] == s.threads[t].taken;
  }

  /** A pass over the slots ticks every slot that is registered and alive exactly once, and no other. */
  lemma TicksEachOnce(s: State, t: nat, dead: set<nat>, slot: nat)
    requires Inv(s) && Enabled(s, Reap(t, dead))
    ensures var r := Next(s, Reap(t, dead));
      multiset(r.log[|s.log|..])[Ticked(slot)] == if slot in s.slots && slot !in dead then 1 else 0
  {
    var alive := Without(s.slots, dead);
    assert Next(s, Reap(t, dead)).log[|s.log|..] == TickAll(alive);
    WithoutIncreasing(s.slots, dead);
    TicksOf(alive, slot);
  }

  lemma {:induction false} TicksOf(slots: seq<nat>, slot: nat)
    requires Increasing(slots)
    ensures multiset(TickAll(slots))[Ticked(slot)] == if slot in slots then 1 else 0
    decreases slots
  {
    if slots != [] {
      assert TickAll(slots) == [Ticked(slots[0])] + TickAll(slots[1..]);
      assert forall i :: 1 <= i < |slots| ==> slots[i] == slots[1..][i - 1];
      TicksOf(slots[1..], slot);
    }
  }

  // ---- The scheduler ----

  /** The lock-protected lists. Each method is one critical section, or one call of a task outside the lock. */
  class Shared {
    var slots: seq<nat>
    var tasks: seq<nat>
    var nextId: nat
    var threadRunning: bool
    var threads: seq<Thread>
    /** What the slots and tasks have seen. */
    var log: seq<Event>
    ghost var addedSlots: set<nat>
    ghost var goneSlots: set<nat>
    ghost var addedTasks: set<nat>
    ghost var goneTasks: set<nat>

    ghost function View(): State
      reads this
    {
      State(slots, tasks, nextId, threadRunning, threads, log, addedSlots, goneSlots, addedTasks, goneTasks)
    }

    constructor ()
      ensures View() == START
    {
      slots, tasks, nextId, threadRunning, threads := [], [], 0, false, [];
      log, addedSlots, goneSlots, addedTasks, goneTasks := [], {}, {}, {}, {};
    }

    method EnsureRunning()
      modifies this
      ensures View() == WithLoop(old(View()))
    {
      if !threadRunning {
        threadRunning := true;
        threads := threads + [Top];
      }
    }

    method RegisterSlot() returns (id: nat)
      modifies this
      ensures id == old(nextId) && View() == Next(old(View()), Step.RegisterSlot)
    {
      id := nextId;
      nextId := nextId + 1;
      slots := slots + [id];
      addedSlots := addedSlots + {id};
      EnsureRunning();
    }

    method RegisterTask()
      modifies this
      ensures View() == Next(old(View()), Step.RegisterTask)
    {
      var id := nextId;
      nextId := nextId + 1;
      tasks := tasks + [id];
      addedTasks := addedTasks + {id};
      EnsureRunning();
    }

    method DeregisterSlot(id: nat)
      modifies this
      ensures View() == Next(old(View()), Step.DeregisterSlot(id))
    {
      goneSlots := goneSlots + if id in slots then {id} else {};
      Retain({id});
    }

    /** Keeps the slots that are not gone, in order. */
    method Retain(gone: set<nat>)
      modifies this`slots
      ensures slots == Without(old(slots), gone)
    {
      hide Without;
      var kept: seq<nat> := [];
      ghost var all := slots;
      assert all[0..] == all;
      for i := 0 to |slots|
        invariant slots == all && kept + Without(all[i..], gone) == Without(all, gone)
      {
        assert all[i..][1..] == all[i + 1..];
        WithoutStep(all[i..], gone);
        if slots[i] !in gone {
          kept := kept + [slots[i]];
        }
      }
      WithoutStep(all[|all|..], gone);
      slots := kept;
    }

    /** Reaps dead slots, then ticks the survivors. */
    method ReapAndTick(t: nat, dead: set<nat>)
      requires Enabled(View(), Reap(t, dead))
      modifies this
      ensures View() == Next(old(View()), Reap(t, dead))
    {
      goneSlots := goneSlots + set x | x in slots && x in dead;
      Retain(dead);
      TickSlots();
      threads := threads[t := Reaped];
    }

    method TickSlots()
      modifies this`log
      ensures log == old(log) + TickAll(slots)
    {
      ghost var before := log;
      for i := 0 to |slots|
        invariant log == before + TickAll(slots)[..i]
      {
        log := log + [Ticked(slots[i])];
      }
      assert TickAll(slots)[..|slots|] == TickAll(slots);
    }

    method TakeTasks(t: nat)
      requires Enabled(View(), Take(t))
      modifies this
      ensures View() == Next(old(View()), Take(t))
    {
      threads := threads[t := Running(tasks, 0, [], |log|)];
      tasks := [];
    }

    /** Calls the next task of a round; `again` is what it returns. */
    method CallTask(t: nat, again: bool)
      requires Enabled(View(), Run(t, again))
      modifies this
      ensures View() == Next(old(View()), Run(t, again))
    {
      var r := threads[t];
      var id := r.taken[r.done];
      log := log + [Ran(id)];
      if again {
        threads := threads[t := r.(done := r.done + 1, kept := r.kept + [id])];
      } else {
        threads := threads[t := r.(done := r.done + 1)];
        goneTasks := goneTasks + {id};
      }
    }

    /** Puts the kept tasks before those registered meanwhile, and decides whether to leave. */
    method MergeTasks(t: nat) returns (shouldExit: bool)
      requires Enabled(View(), Merge(t))
      modifies this
      ensures View() == Next(old(View()), Merge(t)) && shouldExit == threads[t].Exited?
    {
      var addedDuringTick := tasks;
      tasks := threads[t].kept;
      tasks := tasks + addedDuringTick;
      if slots == [] && tasks == [] {
        threadRunning := false;
        shouldExit := true;
        threads := threads[t := Exited];
      } else {
        shouldExit := false;
        threads := threads[t := Top];
      }
    }
  }
}
