/**
 Who gets the CPU: every tick and the start serve the task the strategy picks when one is runnable,
 rest on the sleep trap when none is, and leave when there is no task.
 */
module Dispatching {
  import opened KernelTypes
  import opened KernelSpec
  import opened SyncPass
  import opened Invariant
  import opened TickInvariant
  import opened Runs

  // ---- the picks in a history ---------------------------------------------------------------

  /** Every pick in the history is the strategy's answer to what it had seen by then. */
  ghost predicate PicksFollow(log: seq<Event>, p: Policy) {
    forall k :: 0 <= k < |log| && log[k].Picked? ==> log[k] == Picked(p.next(log[..k]))
  }

  function LastPick(log: seq<Event>): Option<nat> {
    if log == [] then None
    else if log[|log| - 1].Picked? then Some(log[|log| - 1].slot)
    else LastPick(log[..|log| - 1])
  }

  /** `b` continues `a` without a pick. */
  predicate NonePicked(a: seq<Event>, b: seq<Event>) {
    |a| <= |b| && b[..|a|] == a && forall n :: |a| <= n < |b| ==> !b[n].Picked?
  }

  lemma NonePickedTwice(a: seq<Event>, b: seq<Event>, c: seq<Event>)
    requires NonePicked(a, b) && NonePicked(b, c)
    ensures NonePicked(a, c)
  {
    assert forall n :: 0 <= n < |b| ==> b[n] == c[..|b|][n];
    assert c[..|a|] == c[..|b|][..|a|];
  }

  lemma {:induction false} NonePickedKeeps(a: seq<Event>, b: seq<Event>, p: Policy)
    requires NonePicked(a, b) && PicksFollow(a, p)
    ensures PicksFollow(b, p) && LastPick(b) == LastPick(a)
    decreases |b|
  {
    if |a| == |b| {
      assert b == b[..|a|];
    } else {
      var front := b[..|b| - 1];
      assert front[..|a|] == b[..|a|];
      NonePickedKeeps(a, front, p);
      forall k | 0 <= k < |b| && b[k].Picked? ensures b[k] == Picked(p.next(b[..k])) {
        assert front[k] == b[k] && front[..k] == b[..k];
      }
    }
  }

  lemma PickFollows(log: seq<Event>, p: Policy)
    requires PicksFollow(log, p)
    ensures PicksFollow(log + [Picked(p.next(log))], p) && LastPick(log + [Picked(p.next(log))]) == Some(p.next(log))
  {
    var more := log + [Picked(p.next(log))];
    assert more[..|log|] == log;
    forall k | 0 <= k < |more| && more[k].Picked? ensures more[k] == Picked(p.next(more[..k])) {
      assert k < |log| ==> log[..k] == more[..k];
    }
  }

  // ---- one dispatch ----------------------------------------------------------------------------

  predicate AwakeTask(slots: seq<Slot>, i: nat) {
    i < |slots| && slots[i].Busy() && !slots[i].Asleep()
  }

  predicate SomeAwake(slots: seq<Slot>) {
    exists i :: 0 <= i < |slots| && AwakeTask(slots, i)
  }

  predicate SomeBusy(slots: seq<Slot>) {
    exists i :: 0 <= i < |slots| && slots[i].Busy()
  }

  /** `r` is what has to come of a kernel that was in `f` with the current task `now`, when the
      strategy has seen `log` and is asked for the next task. */
  predicate Dispatched(f: FsmState, now: Option<nat>, log: seq<Event>, r: State, p: Policy) {
    if SomeAwake(r.slots) then
      var next := p.next(log);
      && AwakeTask(r.slots, next) && r.strat.log == log + [Picked(next)]
      && r.now == Some(next) && r.cpu == OnTask(next) && r.fsm == (if f == Sleeping then Waking else Switching)
    else if SomeBusy(r.slots) then
      && r.strat.log == log && r.cpu == SleepTrap && r.fsm == Sleeping
      && r.now == (if f == Sleeping then now else Some(p.first(log)))
    else
      r.strat.log == log && r.cpu == ExitTrap && r.fsm == Exiting && r.now == None
  }

  lemma ActiveIsAwake(c: State)
    requires SetsAgree(c.slots, c.strat) && forall j :: 0 <= j < |c.slots| ==> !c.slots[j].sleepPending
    ensures c.strat.active != {} <==> SomeAwake(c.slots)
    ensures c.strat.Size() != 0 <==> SomeBusy(c.slots)
  {
    if c.strat.active != {} {
      var i :| i in c.strat.active;
      assert AwakeTask(c.slots, i);
    }
    if i :| 0 <= i < |c.slots| && AwakeTask(c.slots, i) {
      assert i in c.strat.active;
    }
    if c.strat.Size() != 0 {
      SomeManaged(c.strat);
      var i :| i in c.strat.active + c.strat.asleep;
      assert c.slots[i].Busy();
    }
    if i :| 0 <= i < |c.slots| && c.slots[i].Busy() {
      ManagedIsBusy(c, i);
      NonEmpty(c, i);
    }
  }

  /** The CPU follows the pick from every running state. */
  lemma PickedContext(c: State, p: Policy)
    requires MidContext(c) && c.fsm in {Switching, Sleeping, Waking} && c.strat.active != {}
    ensures var r, next := UpdateFsm(c, p), p.next(c.strat.log);
      && r.slots == c.slots && r.strat.log == c.strat.log + [Picked(next)]
      && r.now == Some(next) && r.cpu == OnTask(next) && r.fsm == (if c.fsm == Sleeping then Waking else Switching)
  {
  }

  lemma PickedFsm(c: State, p: Policy)
    requires MidPass(c, |c.slots|, 1) && MidContext(c) && c.fsm in {Switching, Sleeping, Waking} && Lawful(p)
    requires c.strat.active != {} && SomeAwake(c.slots)
    ensures Dispatched(c.fsm, c.now, c.strat.log, UpdateFsm(c, p), p)
  {
    hide Core, MidContext, Lawful, SomeAwake, SomeBusy, UpdateFsm;
    PickOk(c, p);
    PickedContext(c, p);
  }

  lemma RestingFsm(c: State, p: Policy)
    requires MidPass(c, |c.slots|, 1) && MidContext(c) && c.fsm in {Switching, Sleeping, Waking} && Lawful(p)
    requires c.strat.active == {} && !SomeAwake(c.slots) && (c.strat.Size() != 0 <==> SomeBusy(c.slots))
    ensures Dispatched(c.fsm, c.now, c.strat.log, UpdateFsm(c, p), p)
  {
    hide Core, Lawful, SomeAwake, SomeBusy;
    if c.fsm in {Switching, Waking} {
      RunningIsManaged(c);
    }
  }

  lemma FsmDispatches(c: State, p: Policy)
    requires MidPass(c, |c.slots|, 1) && MidContext(c) && c.fsm in {Switching, Sleeping, Waking} && Lawful(p)
    ensures Dispatched(c.fsm, c.now, c.strat.log, UpdateFsm(c, p), p)
  {
    ActiveIsAwake(c);
    hide Core, MidContext, UpdateFsm, Lawful, SomeAwake, SomeBusy;
    if c.strat.active != {} { PickedFsm(c, p); } else { RestingFsm(c, p); }
  }

  // ---- the tick ----------------------------------------------------------------------------------

  lemma SlotPicksNone(s: State, i: nat, elapsed: int)
    requires i < |s.slots|
    ensures NonePicked(s.strat.log, UpdateSlot(s, i, elapsed).strat.log)
  {
  }

  lemma {:induction false} PassPicksNone(s: State, i: nat, elapsed: int)
    requires i <= |s.slots|
    ensures NonePicked(s.strat.log, UpdateSlots(s, i, elapsed).strat.log)
    decreases |s.slots| - i
  {
    hide UpdateSlot;
    if i < |s.slots| {
      hide NonePicked;
      var a := UpdateSlot(s, i, elapsed);
      SlotPicksNone(s, i, elapsed);
      PassPicksNone(a, i + 1, elapsed);
      NonePickedTwice(s.strat.log, a.strat.log, UpdateSlots(a, i + 1, elapsed).strat.log);
    }
  }

  lemma AddPicksNone(s: State, user: nat)
    ensures NonePicked(s.strat.log, AllocateAndAdd(s, user).strat.log)
  {
  }

  lemma {:induction false} ServePicksNone(s: State, i: nat)
    requires i <= |s.slots|
    ensures NonePicked(s.strat.log, ServeFrom(s, i).strat.log)
    decreases |s.slots| - i
  {
    hide AllocateAndAdd;
    if i < |s.slots| {
      hide NonePicked;
      if s.slots[i].addReq.None? {
        ServePicksNone(s, i + 1);
      } else {
        var a := ServeOne(s, i);
        AddPicksNone(s, s.slots[i].addReq.value);
        ServePicksNone(a, i + 1);
        NonePickedTwice(s.strat.log, a.strat.log, ServeFrom(a, i + 1).strat.log);
      }
    }
  }

  /** The history a tick asks the strategy with: what it has reported by then. */
  function Reported(s: State, elapsed: int): seq<Event> {
    UpdateTasks(s.(ticks := s.ticks + elapsed), elapsed).strat.log
  }

  lemma ReportsPickNone(s: State, elapsed: int)
    ensures NonePicked(s.strat.log, Reported(s, elapsed))
  {
    hide NonePicked, UpdateSlots, ServeFrom;
    var a := UpdateSyncObjects(s.(ticks := s.ticks + elapsed), elapsed);
    var b := UpdateTaskRequest(a);
    assert a.strat == s.strat;
    ServePicksNone(a.(request := false), 0);
    PassPicksNone(b, 0, elapsed);
    if a.request {
      NonePickedTwice(s.strat.log, b.strat.log, Reported(s, elapsed));
    }
  }

  /**
   The dispatch of a tick. When a task is awake after it, the strategy was asked once, after all
   reports of the tick, and the CPU is on the task it named; when all tasks sleep the CPU is on the sleep
   trap, and with no task left on the exit trap.
   */
  lemma TickDispatches(s: State, elapsed: int, p: Policy)
    requires Inv(s) && s.fsm in {Switching, Sleeping, Waking} && elapsed >= 1 && Servable(s) && Lawful(p)
    ensures Dispatched(s.fsm, s.now, Reported(s, elapsed), OnTick(s, elapsed, p), p)
    ensures NonePicked(s.strat.log, Reported(s, elapsed))
  {
    hide Inv, MidPass, MidContext, BeforeSlots, UpdateSlots, UpdateFsm, Lawful, Servable, NonePicked, Dispatched;
    ReportsPickNone(s, elapsed);
    BeforeSlotsOk(s, elapsed);
    var b := BeforeSlots(s, elapsed);
    SlotPass(b, 0, elapsed);
    FsmOfPass(b, 0, elapsed);
    PassComplete(UpdateSlots(b, 0, elapsed), elapsed);
    FsmDispatches(UpdateSlots(b, 0, elapsed), p);
    TickIs(s, elapsed, p);
    ReportedIs(s, elapsed);
  }

  lemma PassComplete(c: State, elapsed: int)
    requires MidPass(c, |c.slots|, elapsed)
    ensures MidPass(c, |c.slots|, 1)
  {
  }

  lemma ReportedIs(s: State, elapsed: int)
    ensures Reported(s, elapsed) == UpdateSlots(BeforeSlots(s, elapsed), 0, elapsed).strat.log
  {
  }

  // ---- the start -----------------------------------------------------------------------------------

  lemma BeginContext(a: State, p: Policy)
    requires a.fsm == Switching && a.strat.Size() != 0
    ensures var r, next := Begin(a, p), p.next(a.strat.log);
      r.slots == a.slots &&
      if a.strat.active != {} then
        && r.strat.log == a.strat.log + [Picked(next)] && r.fsm == Switching
        && r.now == Some(next) && r.cpu == OnTask(next)
      else
        && r.strat.log == a.strat.log && r.cpu == SleepTrap && r.fsm == Sleeping
        && r.now == Some(p.first(a.strat.log))
  {
  }

  /** The pick of a kernel whose sleeps have all been reported is awake. */
  lemma AwakeNext(a: State, p: Policy)
    requires Core(a, 0) && Lawful(p) && a.strat.active != {}
    requires forall j :: 0 <= j < |a.slots| ==> !a.slots[j].sleepPending
    ensures AwakeTask(a.slots, p.next(a.strat.log))
  {
    hide ListsAgree, Registered, WaitLogOk, UsersDistinct, SlotsOk, RequestsFlagged, WellFormed;
    assert p.next(a.strat.log) in Replay(a.strat.log).active;
  }

  lemma BeginDispatches(a: State, p: Policy)
    requires Core(a, 0) && Lawful(p) && a.fsm == Switching && a.strat.Size() != 0
    requires forall j :: 0 <= j < |a.slots| ==> !a.slots[j].sleepPending
    ensures Dispatched(Switching, None, a.strat.log, Begin(a, p), p)
  {
    ActiveIsAwake(a);
    hide Core, Lawful, SomeAwake, SomeBusy, Begin;
    BeginContext(a, p);
    if a.strat.active != {} {
      AwakeNext(a, p);
    }
  }

  /** The first context of the kernel is the task the strategy picks, if any task is awake. */
  lemma StartDispatches(s: State, p: Policy)
    requires Inv(s) && Enabled(s, Start) && Lawful(p)
    ensures Dispatched(Switching, None, DeliverInitialSleeps(s, 0).strat.log, OnStart(s, p), p)
  {
    hide Core, Lawful, Begin, Dispatched;
    assert s.Check(true) == s;
    InitialSleepsCore(s, 0);
    var d := DeliverInitialSleeps(s, 0);
    var a := d.(fsm := Switching, switches := []);
    CoreOf(d, a);
    BeginDispatches(a, p);
  }

  // ---- over runs -------------------------------------------------------------------------------------

  /** Every pick was the strategy's answer, and the CPU is on the last task picked or on no task. */
  ghost predicate Follows(s: State, p: Policy) {
    && PicksFollow(s.strat.log, p)
    && (s.cpu.OnTask? ==> LastPick(s.strat.log) == Some(s.cpu.slot))
  }

  lemma FsmLog(c: State, p: Policy)
    ensures UpdateFsm(c, p).strat.log in {c.strat.log, c.strat.log + [Picked(p.next(c.strat.log))]}
    ensures c.fsm == Exiting ==> UpdateFsm(c, p).cpu == c.cpu
  {
  }

  lemma TickPicks(s: State, elapsed: int, p: Policy)
    requires PicksFollow(s.strat.log, p)
    ensures PicksFollow(OnTick(s, elapsed, p).strat.log, p)
  {
    hide UpdateTasks, UpdateFsm, NonePicked, PicksFollow;
    var log := Reported(s, elapsed);
    ReportsPickNone(s, elapsed);
    NonePickedKeeps(s.strat.log, log, p);
    FsmLog(UpdateTasks(s.(ticks := s.ticks + elapsed), elapsed), p);
    PickFollows(log, p);
  }

  lemma ExitingStays(s: State, elapsed: int, p: Policy)
    requires Inv(s) && s.fsm == Exiting && elapsed >= 1 && Servable(s)
    ensures OnTick(s, elapsed, p).cpu == ExitTrap
  {
    hide Core, MidPass, BeforeSlots, UpdateSlots, UpdateFsm, Servable;
    BeforeSlotsOk(s, elapsed);
    var b := BeforeSlots(s, elapsed);
    FsmOfPass(b, 0, elapsed);
    FsmLog(UpdateSlots(b, 0, elapsed), p);
    TickIs(s, elapsed, p);
  }

  lemma TickFollows(s: State, elapsed: int, p: Policy)
    requires Inv(s) && Enabled(s, Tick(elapsed)) && Lawful(p) && Follows(s, p)
    ensures Follows(OnTick(s, elapsed, p), p)
  {
    hide Inv, Lawful, OnTick, Servable, PicksFollow, NonePicked, Reported, SomeAwake, SomeBusy;
    TickPicks(s, elapsed, p);
    if s.fsm == Exiting {
      ExitingStays(s, elapsed, p);
    } else {
      var r, log := OnTick(s, elapsed, p), Reported(s, elapsed);
      TickDispatches(s, elapsed, p);
      NonePickedKeeps(s.strat.log, log, p);
      PickFollows(log, p);
    }
  }

  lemma {:induction false} InitialSleepsPickNone(s: State, i: nat)
    requires i <= |s.slots|
    ensures NonePicked(s.strat.log, DeliverInitialSleeps(s, i).strat.log)
    decreases |s.slots| - i
  {
    if i < |s.slots| {
      var a := if s.slots[i].Asleep() then DeliverSleep(s, i) else s;
      assert NonePicked(s.strat.log, a.strat.log);
      InitialSleepsPickNone(a, i + 1);
      hide NonePicked;
      NonePickedTwice(s.strat.log, a.strat.log, DeliverInitialSleeps(a, i + 1).strat.log);
    }
  }

  lemma StartFollows(s: State, p: Policy)
    requires Inv(s) && Enabled(s, Start) && Lawful(p) && Follows(s, p)
    ensures Follows(OnStart(s, p), p)
  {
    hide Inv, Lawful, OnStart, PicksFollow, NonePicked, SomeAwake, SomeBusy, DeliverInitialSleeps;
    var log := DeliverInitialSleeps(s, 0).strat.log;
    StartDispatches(s, p);
    InitialSleepsPickNone(s, 0);
    NonePickedKeeps(s.strat.log, log, p);
    PickFollows(log, p);
  }

  /** The other calls leave the history and the CPU alone, unless the scheduler is not running. */
  lemma CallFollows(s: State, a: Action, p: Policy)
    requires Inv(s) && Enabled(s, a) && !a.Tick? && !a.Start?
    ensures var r := Exec(s, a, p);
      && NonePicked(s.strat.log, r.strat.log)
      && (r.cpu.OnTask? ==> r.cpu == s.cpu && r.strat == s.strat)
  {
    hide Core, Servable, OnTick, OnStart, WakeList;
    CoreLists(s);
    InRangeOfAgree(s);
  }

  lemma StepFollows(s: State, a: Action, p: Policy)
    requires Inv(s) && Enabled(s, a) && Lawful(p) && Follows(s, p)
    ensures ListsAgree(s) && Follows(Exec(s, a, p), p)
  {
    hide Inv, Enabled, Lawful, OnTick, OnStart, PicksFollow, NonePicked;
    assert ListsAgree(s) by { InvLists(s); }
    if a.Tick? {
      TickFollows(s, a.elapsed, p);
    } else if a.Start? {
      StartFollows(s, p);
    } else {
      CallFollows(s, a, p);
      NonePickedKeeps(s.strat.log, Exec(s, a, p).strat.log, p);
    }
  }

  lemma InvLists(s: State)
    requires Inv(s)
    ensures ListsAgree(s)
  {
    CoreLists(s);
  }

  lemma InitialFollows(slotCount: nat, objectCount: nat, p: Policy)
    ensures Follows(InitialState(slotCount, objectCount), p)
  {
  }

  /**
   Over every run: each task was picked by the strategy on what it had been told by then, and
   whenever the CPU executes a task it is the one picked last.
   */
  lemma {:induction false} RunFollows(states: seq<State>, actions: seq<Action>, p: Policy, k: nat)
    requires IsRun(states, actions, p) && Lawful(p) && Inv(states[0]) && Follows(states[0], p) && k < |states|
    ensures Follows(states[k], p)
  {
    hide Inv, Follows, Lawful, Enabled, Exec;
    if k > 0 {
      RunFollows(states, actions, p, k - 1);
      RunInv(states, actions, p, k - 1);
      assert Step(states[k - 1], actions[k - 1], states[k - 1 + 1], p);
      StepFollows(states[k - 1], actions[k - 1], p);
    }
  }
}
