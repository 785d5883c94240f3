/**
 What the invariant means: the strategy's view is the kernel's view, sleep and wake
 notifications alternate, contexts are handed over without a gap, and no stack is
 released while it is in use.
 */
module Safety {
  import opened KernelTypes
  import opened KernelSpec
  import opened SyncPass
  import opened Invariant
  import opened TickInvariant
  import opened Runs

  // ---- the strategy --------------------------------------------------------------------

  function BusyCount(slots: seq<Slot>): nat {
    if slots == [] then 0
    else BusyCount(slots[..|slots| - 1]) + if slots[|slots| - 1].Busy() then 1 else 0
  }

  lemma {:induction false} CountBusy(slots: seq<Slot>, busy: set<nat>)
    requires forall i: nat :: i in busy <==> i < |slots| && slots[i].Busy()
    ensures |busy| == BusyCount(slots)
  {
    if slots == [] {
      assert busy == {};
    } else {
      var last := |slots| - 1;
      CountBusy(slots[..last], busy - {last});
      if slots[last].Busy() {
        assert last in busy && busy == (busy - {last}) + {last};
      } else {
        assert busy == busy - {last};
      }
    }
  }

  /** The strategy sleeps exactly the busy tasks whose counter is negative and whose sleep
      it has been told of, and manages exactly the busy slots. */
  lemma StrategyAgrees(s: State)
    requires Inv(s)
    ensures forall i: nat :: i in s.strat.asleep <==>
              i < |s.slots| && s.slots[i].Busy() && s.slots[i].sleep < 0 && !s.slots[i].sleepPending
    ensures forall i: nat :: i in s.strat.active <==>
              i < |s.slots| && s.slots[i].Busy() && !(s.slots[i].sleep < 0 && !s.slots[i].sleepPending)
    ensures s.strat.Size() == BusyCount(s.slots)
  {
    var a, b := s.strat.active, s.strat.asleep;
    assert a !! b by {
      assert forall i :: i in a ==> Runnable(s.slots[i]);
      assert forall i :: i in b ==> Dormant(s.slots[i]);
    }
    CountBusy(s.slots, a + b);
  }

  /** Membership right after a call, for the two notifications. */
  lemma {:induction false} AfterPrefix(log: seq<Event>, m: nat)
    requires WellFormed(log) && m < |log|
    ensures WellFormed(log[..m]) && WellFormed(log[..m + 1]) && Replay(log[..m]).Accepts(log[m])
    ensures Replay(log[..m + 1]) == Replay(log[..m]).Apply(log[m])
  {
    if m + 1 == |log| {
      assert log[..m + 1] == log;
    } else {
      AfterPrefix(log[..|log| - 1], m);
      assert log[..|log| - 1][..m] == log[..m] && log[..|log| - 1][..m + 1] == log[..m + 1];
    }
  }

  /** A task that left the runnable set comes back only by a wake or as a new task. */
  lemma {:induction false} StaysInactive(log: seq<Event>, from: nat, to: nat, i: nat)
    requires WellFormed(log) && from <= to <= |log| && i !in Replay(log[..from]).active
    requires forall m :: from <= m < to ==> log[m] != Woke(i) && log[m] != Added(i)
    ensures i !in Replay(log[..to]).active
  {
    if from < to {
      StaysInactive(log, from, to - 1, i);
      AfterPrefix(log, to - 1);
    }
  }

  lemma {:induction false} StaysAwake(log: seq<Event>, from: nat, to: nat, i: nat)
    requires WellFormed(log) && from <= to <= |log| && i !in Replay(log[..from]).asleep
    requires forall m :: from <= m < to ==> log[m] != Slept(i)
    ensures i !in Replay(log[..to]).asleep
  {
    if from < to {
      StaysAwake(log, from, to - 1, i);
      AfterPrefix(log, to - 1);
    }
  }

  /** Sleep and wake notifications of one task strictly alternate in every reachable state. */
  lemma NotificationsAlternate(s: State, j: nat, k: nat, i: nat)
    requires Inv(s) && j < k < |s.strat.log|
    ensures s.strat.log[j] == Slept(i) && s.strat.log[k] == Slept(i) ==>
              exists m :: j < m < k && s.strat.log[m] in {Woke(i), Added(i)}
    ensures s.strat.log[j] == Woke(i) && s.strat.log[k] == Woke(i) ==>
              exists m :: j < m < k && s.strat.log[m] == Slept(i)
  {
    var log := s.strat.log;
    AfterPrefix(log, j);
    AfterPrefix(log, k);
    if log[j] == Slept(i) && log[k] == Slept(i) && forall m :: j < m < k ==> log[m] !in {Woke(i), Added(i)} {
      StaysInactive(log, j + 1, k, i);
      assert false;
    }
    if log[j] == Woke(i) && log[k] == Woke(i) && forall m :: j < m < k ==> log[m] != Slept(i) {
      StaysAwake(log, j + 1, k, i);
      assert false;
    }
  }

  // ---- the running context ----------------------------------------------------------------

  /** A tick either leaves the CPU where it is, or saves exactly the context that was running
      and restores the new one; it stops the platform only when no task is left. */
  lemma TickHandsOver(s: State, elapsed: int, p: Policy)
    requires Inv(s) && Enabled(s, Tick(elapsed)) && Lawful(p)
    ensures var r := OnTick(s, elapsed, p);
      || (r.switches == s.switches && r.cpu == s.cpu)
      || (r.switches == s.switches + [Switch(s.cpu, r.cpu)]
        && r.cpu in {SleepTrap} + set i | 0 <= i < |r.slots| :: OnTask(i))
      || (r.switches == s.switches && r.fsm == Exiting && s.fsm == Sleeping && r.cpu == ExitTrap && r.strat.Size() == 0)
  {
    hide Core, BeforeSlots, UpdateSlots, UpdateFsm, Lawful, MidContext, Servable;
    TickIs(s, elapsed, p);
    BeforeSlotsOk(s, elapsed);
    var b := BeforeSlots(s, elapsed);
    SlotPass(b, 0, elapsed);
    FsmOfPass(b, 0, elapsed);
    FsmHandsOver(UpdateSlots(b, 0, elapsed), p);
  }

  lemma FsmHandsOver(s: State, p: Policy)
    requires MidPass(s, |s.slots|, 1) && MidContext(s) && Lawful(p) && s.fsm != FsmNone
    ensures var r := UpdateFsm(s, p);
      || (r.switches == s.switches && r.cpu == s.cpu)
      || (r.switches == s.switches + [Switch(s.cpu, r.cpu)]
        && r.cpu in {SleepTrap} + set i | 0 <= i < |r.slots| :: OnTask(i))
      || (r.switches == s.switches && r.fsm == Exiting && s.fsm == Sleeping && r.cpu == ExitTrap && r.strat.Size() == 0)
  {
    hide Core, Lawful;
    PickOk(s, p);
    if s.fsm in {Switching, Waking} { RunningIsManaged(s); }
    if s.strat.active != {} { NonEmpty(s, p.next(s.strat.log)); }
  }

  /** In every state of every run: each requested switch saves the context that the previous
      switch (or Start) made active, and the CPU is on the sleep trap exactly while the state
      machine is sleeping, otherwise on the current task's stack. */
  lemma ContextContinuity(states: seq<State>, actions: seq<Action>, p: Policy, k: nat)
    requires IsRun(states, actions, p) && Lawful(p) && Inv(states[0]) && k < |states|
    ensures !states[k].panic
    ensures Chained(states[k].switches)
    ensures states[k].fsm in {Switching, Sleeping, Waking} ==>
              && states[k].switches != []
              && states[k].switches[|states[k].switches| - 1].active == states[k].cpu
              && (states[k].cpu == SleepTrap <==> states[k].fsm == Sleeping)
              && (states[k].fsm != Sleeping ==> states[k].now.Some? && states[k].cpu == OnTask(states[k].now.value))
  {
    RunInv(states, actions, p, k);
  }

  // ---- removal ------------------------------------------------------------------------------

  /** The pass releases a slot only if it is not current, or if it is the last task of a
      kernel that already runs on the sleep trap. */
  lemma {:induction false} PassReleases(s: State, i: nat, j: nat, elapsed: int)
    requires i <= |s.slots| && j < |s.slots| && s.now == Some(j) && s.fsm != Sleeping
    ensures UpdateSlots(s, i, elapsed).slots[j].user == s.slots[j].user
    decreases |s.slots| - i
  {
    if i < |s.slots| { PassReleases(UpdateSlot(s, i, elapsed), i + 1, j, elapsed); }
  }

  lemma TimeoutsKeepUsers(s: State, elapsed: int, j: nat)
    requires Core(s, 0) && elapsed >= 1 && j < |s.slots|
    ensures UpdateSyncObjects(s, elapsed).slots[j].user == s.slots[j].user
  {
    ArmableOfCore(s, 0);
    UpdateSyncObjectsIs(s, elapsed);
  }

  lemma BusyKeptBeforeSlots(s: State, elapsed: int, j: nat)
    requires Core(s, 0) && elapsed >= 1 && j < |s.slots| && s.slots[j].Busy()
    ensures BeforeSlots(s, elapsed).slots[j].user == s.slots[j].user
  {
    var s0 := s.(ticks := s.ticks + elapsed);
    hide Core, UpdateSyncObjects, UpdateTaskRequest;
    CoreOf(s, s0);
    TimeoutsKeepUsers(s0, elapsed, j);
    RequestsKeepBusy(UpdateSyncObjects(s0, elapsed), j);
  }

  lemma RunningUserKept(s: State, elapsed: int, j: nat)
    requires Inv(s) && elapsed >= 1 && Servable(s) && s.cpu == OnTask(j)
    ensures j < |s.slots| && s.slots[j].Busy() && s.now == Some(j) && s.fsm != Sleeping
    ensures BeforeSlots(s, elapsed).slots[j].user == s.slots[j].user
    ensures SameContext(s, BeforeSlots(s, elapsed))
  {
    hide Core, MidContext, MidPass, Servable, BeforeSlots;
    BeforeSlotsOk(s, elapsed);
    BusyKeptBeforeSlots(s, elapsed, j);
  }

  lemma RequestsKeepBusy(a: State, j: nat)
    requires j < |a.slots| && a.slots[j].Busy()
    ensures UpdateTaskRequest(a).slots[j].user == a.slots[j].user
  {
    if a.request { ServeKeepsBusy(a.(request := false), 0, j); }
  }

  /** No tick unbinds the slot whose stack the CPU is executing on, and the tick leaves the
      CPU on a stack that is still bound. */
  lemma RunningStackStaysBound(s: State, elapsed: int, p: Policy, j: nat)
    requires Inv(s) && Enabled(s, Tick(elapsed)) && Lawful(p)
    ensures s.cpu == OnTask(j) ==> j < |s.slots| && OnTick(s, elapsed, p).slots[j].user == s.slots[j].user
    ensures OnTick(s, elapsed, p).cpu == OnTask(j) ==> BusySlot(OnTick(s, elapsed, p), j)
  {
    TickInv(s, elapsed, p);
    hide Core, UpdateFsm;
    if s.cpu == OnTask(j) {
      RunningUserKept(s, elapsed, j);
      PassReleases(BeforeSlots(s, elapsed), 0, j, elapsed);
      FsmKeepsSlots(UpdateSlots(BeforeSlots(s, elapsed), 0, elapsed), p);
    }
  }

  lemma FsmKeepsSlots(s: State, p: Policy)
    ensures UpdateFsm(s, p).slots == s.slots && UpdateFsm(s, p).waiters == s.waiters
    ensures UpdateFsm(s, p).strat.active == s.strat.active && UpdateFsm(s, p).strat.asleep == s.strat.asleep
    ensures UpdateFsm(s, p).ticks == s.ticks && UpdateFsm(s, p).request == s.request
    ensures UpdateFsm(s, p).waitLog == s.waitLog && UpdateFsm(s, p).syncList == s.syncList
  {
  }
}
