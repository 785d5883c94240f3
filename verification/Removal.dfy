/**
 Draining a dynamic kernel: once every task has been scheduled for removal, two ticks reach
 the exit state unless the current task wakes first; the exact condition, whatever the slot order.
 */
module Removal {
  import opened KernelTypes
  import opened KernelSpec
  import opened SyncPass
  import opened Invariant
  import opened TickInvariant
  import opened Runs
  import opened Safety
  import opened Requests
  import opened Timing

  /** Every task is on its way out. */
  predicate AllLeaving(slots: seq<Slot>) {
    forall i :: 0 <= i < |slots| && slots[i].Busy() ==> slots[i].removePending
  }

  predicate AllAsleep(slots: seq<Slot>) {
    forall i :: 0 <= i < |slots| && slots[i].Busy() ==> slots[i].Asleep()
  }

  predicate FreeAwake(slots: seq<Slot>) {
    forall i :: 0 <= i < |slots| && !slots[i].Busy() ==> !slots[i].Asleep()
  }

  /** No slot before `upTo` is busy, but for the current task's. */
  predicate OnlyNow(s: State, upTo: nat) {
    forall i :: 0 <= i < upTo && i < |s.slots| && s.slots[i].Busy() ==> s.now == Some(i)
  }

  /** Slot `i` is the last busy one. */
  predicate LastBusy(slots: seq<Slot>, i: nat) {
    forall j :: i < j < |slots| ==> !slots[j].Busy()
  }

  /** A removal found in a running kernel goes through: the sleep of the current task outlasts
      the first tick, or a sleeping kernel meets the current task behind all others. */
  predicate DrainReady(s: State, first: int)
    requires NowBusy(s)
  {
    && AllAsleep(s.slots)
    && (s.slots[s.now.value].sleep + first < 0 || (s.fsm == Sleeping && LastBusy(s.slots, s.now.value)))
  }

  lemma FreeAwakeOf(s: State)
    requires Core(s, 0)
    ensures FreeAwake(s.slots)
  {
    assert forall i :: 0 <= i < |s.slots| ==> SlotOk(s.slots[i], 0);
  }

  // ---- the slot pass over leaving tasks ----------------------------------------------------

  lemma {:induction false} PassKeepsLeaving(s: State, i: nat, elapsed: int)
    requires i <= |s.slots| && AllLeaving(s.slots)
    ensures AllLeaving(UpdateSlots(s, i, elapsed).slots)
    decreases |s.slots| - i
  {
    hide UpdateSlot;
    if i < |s.slots| {
      SlotKeepsLeaving(s, i, elapsed);
      PassKeepsLeaving(UpdateSlot(s, i, elapsed), i + 1, elapsed);
    }
  }

  lemma SlotKeepsLeaving(s: State, i: nat, elapsed: int)
    requires i < |s.slots| && AllLeaving(s.slots)
    ensures AllLeaving(UpdateSlot(s, i, elapsed).slots)
  {
  }

  lemma DrainSlot(s: State, i: nat, elapsed: int)
    requires i < |s.slots| && elapsed >= 1
    requires s.slots[i].Busy() ==> s.slots[i].removePending && s.slots[i].Asleep()
    requires !s.slots[i].Busy() ==> !s.slots[i].Asleep()
    ensures var a := UpdateSlot(s, i, elapsed);
      && SameContext(s, a) && a.slots == s.slots[i := a.slots[i]]
      && !(!a.slots[i].Busy() && a.slots[i].Asleep())
      && (a.slots[i].Busy() ==> s.now == Some(i) && a.slots[i].removePending
                                && a.slots[i].sleep == s.slots[i].sleep + elapsed)
  {
  }

  /** One pass removes every task but, at most, the current one. */
  lemma {:induction false} PassDrains(s: State, i: nat, elapsed: int)
    requires MidPass(s, i, elapsed) && MidContext(s)
    requires OnlyNow(s, i) && FreeAwake(s.slots) && AllLeaving(s.slots)
    requires forall j :: 0 <= j < |s.slots| && s.slots[j].Busy() ==>
               s.slots[j].Asleep() && (i <= j && s.now == Some(j) ==> s.slots[j].sleep + elapsed < 0)
    ensures var r := UpdateSlots(s, i, elapsed); OnlyNow(r, |r.slots|) && AllAsleep(r.slots)
    decreases |s.slots| - i
  {
    hide Core, MidContext;
    if i < |s.slots| {
      SlotPassStep(s, i, elapsed);
      var a := UpdateSlot(s, i, elapsed);
      DrainSlot(s, i, elapsed);
      PassDrains(a, i + 1, elapsed);
    }
  }

  lemma OnlyTask(s: State, i: nat)
    requires Core(s, 0) && i < |s.slots| && s.slots[i].Busy()
    requires forall j :: 0 <= j < |s.slots| && s.slots[j].Busy() ==> j == i
    ensures s.strat.Size() == 1
  {
    if i in s.strat.active {
      assert s.strat.active == {i} && s.strat.asleep == {};
    } else {
      assert s.strat.asleep == {i} && s.strat.active == {};
    }
  }

  lemma LastGoes(s: State, elapsed: int)
    requires NowBusy(s) && MidPass(s, s.now.value, elapsed) && MidContext(s) && s.fsm == Sleeping
    requires s.slots[s.now.value].removePending && s.slots[s.now.value].Asleep()
    requires forall j :: 0 <= j < |s.slots| && s.slots[j].Busy() ==> j == s.now.value
    ensures UpdateSlots(s, s.now.value, elapsed).strat.Size() == 0
  {
    hide Core, MidContext;
    var n := s.now.value;
    OnlyTask(s, n);
    RemoveStep(s, n, elapsed);
    EmptyPass(UpdateSlot(s, n, elapsed), n + 1, elapsed);
  }

  /** A sleeping kernel that meets its current task behind all others loses it in the same pass. */
  lemma {:induction false} PassRemovesAll(s: State, i: nat, elapsed: int)
    requires MidPass(s, i, elapsed) && MidContext(s) && s.fsm == Sleeping && NowBusy(s) && i <= s.now.value
    requires AllLeaving(s.slots) && AllAsleep(s.slots) && FreeAwake(s.slots)
    requires LastBusy(s.slots, s.now.value) && forall j :: 0 <= j < i ==> !s.slots[j].Busy()
    ensures UpdateSlots(s, i, elapsed).strat.Size() == 0
    decreases |s.slots| - i
  {
    hide Core, MidContext;
    var n := s.now.value;
    if i == n {
      LastGoes(s, elapsed);
    } else {
      SlotPassStep(s, i, elapsed);
      DrainSlot(s, i, elapsed);
      PassRemovesAll(UpdateSlot(s, i, elapsed), i + 1, elapsed);
    }
  }

  lemma {:induction false} EmptyPass(s: State, i: nat, elapsed: int)
    requires Core(s, 0) && s.strat.Size() == 0 && i <= |s.slots|
    ensures UpdateSlots(s, i, elapsed) == s
    decreases |s.slots| - i
  {
    if i < |s.slots| {
      NoBusyNoRequests(s, 0);
      assert SlotOk(s.slots[i], 0);
      EmptyPass(s, i + 1, elapsed);
    }
  }

  lemma TwoTasks(s: State, i: nat, j: nat)
    requires Core(s, 0) && i < j < |s.slots| && s.slots[i].Busy() && s.slots[j].Busy()
    ensures s.strat.Size() != 1
  {
    hide ListsAgree, Registered, WaitLogOk, Genuine, UsersDistinct, SlotsOk;
    ManagedIsBusy(s, i);
    ManagedIsBusy(s, j);
    var all := s.strat.active + s.strat.asleep;
    assert s.strat.active !! s.strat.asleep;
    assert |all| == s.strat.Size();
    assert |all - {i}| == |all| - 1 && j in all - {i};
  }

  /** Otherwise the counter of the current task runs out before its removal, and it wakes. */
  lemma {:induction false} PassWakesNow(s: State, i: nat, elapsed: int)
    requires MidPass(s, i, elapsed) && MidContext(s) && NowBusy(s) && i <= s.now.value
    requires s.slots[s.now.value].Asleep() && s.slots[s.now.value].sleep + elapsed >= 0
    requires s.fsm == Sleeping ==> !LastBusy(s.slots, s.now.value)
    ensures var t := UpdateSlots(s, i, elapsed).slots[s.now.value]; t.Busy() && !t.Asleep()
    decreases |s.slots| - i
  {
    hide Core, MidContext;
    var n := s.now.value;
    var a := UpdateSlot(s, i, elapsed);
    if i == n {
      if s.fsm == Sleeping {
        var j :| n < j < |s.slots| && s.slots[j].Busy();
        TwoTasks(s, n, j);
      }
      PassKeepsAwake(a, i + 1, n, elapsed);
    } else {
      SlotPassStep(s, i, elapsed);
      OneSlotMoves(s, i, elapsed);
      if s.fsm == Sleeping {
        var j :| n < j < |s.slots| && s.slots[j].Busy();
        assert a.slots[j].Busy();
      }
      PassWakesNow(a, i + 1, elapsed);
    }
  }

  lemma OneSlotMoves(s: State, i: nat, elapsed: int)
    requires i < |s.slots|
    ensures var a := UpdateSlot(s, i, elapsed); SameContext(s, a) && a.slots == s.slots[i := a.slots[i]]
  {
  }

  // ---- ticks over leaving tasks -------------------------------------------------------------

  /** No task is waiting to be added by the next tick. */
  predicate NoneAsked(s: State) {
    s.request ==> PendingFrom(s.slots, 0) == 0
  }

  lemma {:induction false} PendingNone(slots: seq<Slot>, i: nat)
    requires i <= |slots|
    ensures PendingFrom(slots, i) == 0 <==> forall j :: i <= j < |slots| ==> slots[j].addReq.None?
    decreases |slots| - i
  {
    if i < |slots| { PendingNone(slots, i + 1); }
  }

  lemma NoneAskedServable(s: State)
    requires NoneAsked(s)
    ensures Servable(s)
  {
    PendingNone(s.slots, 0);
  }

  /** With no task to add the phases before the slot pass leave the leaving tasks alone. */
  lemma LeavingBeforeSlots(s: State, elapsed: int)
    requires Inv(s) && elapsed >= 1 && NoneAsked(s) && AllLeaving(s.slots)
    ensures BeforeSlots(s, elapsed).slots == s.slots
  {
    hide SetsAgree, UsersDistinct, Genuine, WaitLogOk;
    var s0 := s.(ticks := s.ticks + elapsed);
    CoreOf(s, s0);
    TimeoutSlots(s0, elapsed);
    var a := UpdateSyncObjects(s0, elapsed);
    forall i | 0 <= i < |s.slots| ensures AgedAll(s.slots, elapsed)[i] == s.slots[i] {
      assert SlotOk(s.slots[i], 0);
    }
    PendingNone(s.slots, 0);
    if s.request {
      ServeNothing(a.(request := false), 0);
    }
  }

  /** The state the pass hands to the state machine. */
  lemma LeavingPass(s: State, elapsed: int, p: Policy)
    requires Inv(s) && s.fsm in {Switching, Sleeping, Waking} && NoneAsked(s) && Lawful(p) && elapsed >= 1
    requires AllLeaving(s.slots)
    ensures var b := BeforeSlots(s, elapsed); var c := UpdateSlots(b, 0, elapsed);
      && MidPass(b, 0, elapsed) && MidContext(b) && SameContext(s, b) && b.slots == s.slots && FreeAwake(b.slots)
      && MidPass(c, |c.slots|, 1) && MidContext(c) && SameContext(s, c) && AllLeaving(c.slots)
      && OnTick(s, elapsed, p) == UpdateFsm(c, p) && Inv(OnTick(s, elapsed, p)) && NowBusy(s)
  {
    hide Core, MidContext, MidPass, BeforeSlots, UpdateSlots, UpdateFsm, Lawful, OnTick, Servable, NoneAsked;
    NoneAskedServable(s);
    TickInv(s, elapsed, p);
    TickIs(s, elapsed, p);
    BeforeSlotsOk(s, elapsed);
    LeavingBeforeSlots(s, elapsed);
    var b := BeforeSlots(s, elapsed);
    BusyOf(b, elapsed);
    PassKeepsLeaving(b, 0, elapsed);
    SlotPass(b, 0, elapsed);
    FsmOfPass(b, 0, elapsed);
    MidPassShorter(UpdateSlots(b, 0, elapsed), elapsed);
  }

  lemma BusyOf(b: State, elapsed: int)
    requires MidPass(b, 0, elapsed)
    ensures FreeAwake(b.slots)
  {
    FreeAwakeOf(b);
  }

  lemma MidPassShorter(c: State, elapsed: int)
    requires MidPass(c, |c.slots|, elapsed)
    ensures MidPass(c, |c.slots|, 1)
  {
  }

  lemma NothingRunnable(c: State)
    requires Core(c, 0) && AllAsleep(c.slots) && forall i :: 0 <= i < |c.slots| ==> !c.slots[i].sleepPending
    ensures c.strat.active == {}
  {
    hide ListsAgree, Registered, WaitLogOk, Genuine, UsersDistinct, SlotsOk;
    assert forall i: nat :: i !in c.strat.active;
  }

  /** With everybody asleep the machine exits or rests on the sleep trap. */
  lemma DrainedFsm(c: State, p: Policy)
    requires MidPass(c, |c.slots|, 1) && MidContext(c) && c.fsm in {Switching, Sleeping, Waking} && Lawful(p)
    requires OnlyNow(c, |c.slots|) && AllAsleep(c.slots)
    ensures var r := UpdateFsm(c, p);
      && !r.request && r.slots == c.slots
      && (r.fsm == Exiting || (r.fsm == Sleeping && OnlyNow(r, |r.slots|)))
  {
    hide Core, Replay, WellFormed, Chained;
    NothingRunnable(c);
    if c.strat.Size() != 0 {
      FirstManaged(c, p);
    }
  }

  lemma BusyNoExit(c: State, j: nat, p: Policy)
    requires Core(c, 0) && c.fsm in {Switching, Sleeping, Waking} && j < |c.slots| && c.slots[j].Busy()
    ensures UpdateFsm(c, p).fsm in {Switching, Sleeping, Waking} && UpdateFsm(c, p).slots == c.slots
    ensures UpdateFsm(c, p).request == c.request
  {
    hide Core;
    CoreManages(c, j);
    NonEmpty(c, j);
  }

  lemma CoreManages(c: State, j: nat)
    requires Core(c, 0) && j < |c.slots| && c.slots[j].Busy()
    ensures c.strat.Manages(j)
  {
    ManagedIsBusy(c, j);
  }

  // ---- awake tasks ----------------------------------------------------------------------------

  /** A running kernel between ticks, with no request announced and slot `j` awake. */
  predicate RunsOn(r: State, j: nat) {
    Inv(r) && r.fsm in {Switching, Sleeping, Waking} && !r.request && AwakeAt(r.slots, j)
  }

  lemma AwakeTick(s: State, elapsed: int, p: Policy, j: nat)
    requires Inv(s) && s.fsm in {Switching, Sleeping, Waking} && Servable(s) && Lawful(p) && elapsed >= 1
    requires AwakeAt(BeforeSlots(s, elapsed).slots, j)
    ensures RunsOn(OnTick(s, elapsed, p), j)
  {
    hide Core, MidContext, BeforeSlots, UpdateSlots, UpdateFsm, Lawful, OnTick, Servable;
    TickInv(s, elapsed, p);
    TickIs(s, elapsed, p);
    BeforeSlotsOk(s, elapsed);
    var b := BeforeSlots(s, elapsed);
    SlotPass(b, 0, elapsed);
    FsmOfPass(b, 0, elapsed);
    PassKeepsAwake(b, 0, j, elapsed);
    BusyNoExit(UpdateSlots(b, 0, elapsed), j, p);
  }

  lemma ServiceKeepsAwake(a: State, j: nat)
    requires AwakeAt(a.slots, j)
    ensures AwakeAt(UpdateTaskRequest(a).slots, j)
  {
    if a.request {
      ServeKeepsBusy(a.(request := false), 0, j);
      ServeKeepsTimers(a.(request := false), 0, j);
    }
  }

  /** A task that is awake stays, and keeps the kernel from exiting. */
  lemma AwakeStays(s: State, elapsed: int, p: Policy, j: nat)
    requires Inv(s) && s.fsm in {Switching, Sleeping, Waking} && Servable(s) && Lawful(p) && elapsed >= 1
    requires AwakeAt(s.slots, j)
    ensures RunsOn(OnTick(s, elapsed, p), j)
  {
    hide Core, ContextOk, Lawful, OnTick, Servable, UpdateSyncObjects, UpdateTaskRequest;
    var s0 := s.(ticks := s.ticks + elapsed);
    CoreOf(s, s0);
    TimeoutSlots(s0, elapsed);
    ServiceKeepsAwake(UpdateSyncObjects(s0, elapsed), j);
    AwakeTick(s, elapsed, p, j);
  }

  /** A tick that adds a task leaves it awake. */
  lemma AddedTick(s: State, elapsed: int, p: Policy) returns (k: nat)
    requires Inv(s) && s.fsm in {Switching, Sleeping, Waking} && Servable(s) && Lawful(p) && elapsed >= 1
    requires !NoneAsked(s)
    ensures RunsOn(OnTick(s, elapsed, p), k)
  {
    hide Core, ContextOk, MidContext, Lawful, OnTick, Servable, UpdateSyncObjects, UpdateTaskRequest, PendingFrom;
    PendingNone(s.slots, 0);
    var j :| 0 <= j < |s.slots| && s.slots[j].addReq.Some?;
    AgedRequests(s, elapsed);
    AfterTimeouts(s, elapsed);
    k := ServiceBinds(UpdateSyncObjects(s.(ticks := s.ticks + elapsed), elapsed), elapsed, j);
    AwakeTick(s, elapsed, p, k);
  }

  lemma LeavingAwake(s: State, j: nat)
    requires Core(s, 0) && AllLeaving(s.slots) && j < |s.slots| && s.slots[j].Busy() && !s.slots[j].Asleep()
    ensures AwakeAt(s.slots, j)
  {
    assert SlotOk(s.slots[j], 0);
  }

  /** The first tick of a drain that is not ready leaves an awake task behind. */
  lemma UnreadyTick(s: State, first: int, p: Policy) returns (j: nat)
    requires Inv(s) && s.fsm in {Switching, Sleeping, Waking} && Servable(s) && Lawful(p) && first >= 1
    requires AllLeaving(s.slots) && NowBusy(s) && !(DrainReady(s, first) && NoneAsked(s))
    ensures RunsOn(OnTick(s, first, p), j)
  {
    hide Core, MidContext, BeforeSlots, UpdateSlots, UpdateFsm, Lawful, OnTick, Servable, NoneAsked;
    if !NoneAsked(s) {
      j := AddedTick(s, first, p);
    } else if !AllAsleep(s.slots) {
      j :| 0 <= j < |s.slots| && s.slots[j].Busy() && !s.slots[j].Asleep();
      LeavingAwake(s, j);
      AwakeStays(s, first, p, j);
    } else {
      j := s.now.value;
      LeavingPass(s, first, p);
      var b := BeforeSlots(s, first);
      var c := UpdateSlots(b, 0, first);
      PassWakesNow(b, 0, first);
      LeavingAwake(c, j);
      BusyNoExit(c, j, p);
    }
  }

  /** The first tick of a drain that is ready: exit, or the sleep trap with the current task left. */
  lemma ReadyTick(s: State, first: int, p: Policy)
    requires Inv(s) && s.fsm in {Switching, Sleeping, Waking} && NoneAsked(s) && Lawful(p) && first >= 1
    requires AllLeaving(s.slots) && NowBusy(s) && DrainReady(s, first)
    ensures var r := OnTick(s, first, p);
      && Inv(r) && !r.request && AllLeaving(r.slots) && AllAsleep(r.slots)
      && (r.fsm == Exiting || (r.fsm == Sleeping && OnlyNow(r, |r.slots|)))
  {
    hide Core, MidContext, BeforeSlots, UpdateSlots, UpdateFsm, Lawful, OnTick;
    LeavingPass(s, first, p);
    var b := BeforeSlots(s, first);
    var c := UpdateSlots(b, 0, first);
    if s.slots[s.now.value].sleep + first < 0 {
      PassDrains(b, 0, first);
    } else {
      PassRemovesAll(b, 0, first);
      NobodyLeft(c);
    }
    DrainedFsm(c, p);
  }

  lemma NobodyLeft(c: State)
    requires MidPass(c, |c.slots|, 1) && c.strat.Size() == 0
    ensures OnlyNow(c, |c.slots|) && AllAsleep(c.slots)
  {
    NoBusyNoRequests(c, 0);
  }

  /** The second tick finds the current task behind all others. */
  lemma LastTick(r: State, second: int, p: Policy)
    requires Inv(r) && !r.request && r.fsm == Sleeping && OnlyNow(r, |r.slots|) && second >= 1 && Lawful(p)
    requires AllLeaving(r.slots) && AllAsleep(r.slots)
    ensures OnTick(r, second, p).fsm == Exiting
  {
    hide Core, MidContext, BeforeSlots, UpdateSlots, UpdateFsm, Lawful, OnTick;
    LeavingPass(r, second, p);
    var b := BeforeSlots(r, second);
    PassRemovesAll(b, 0, second);
    EmptyExits(UpdateSlots(b, 0, second), p);
  }

  lemma EmptyExits(c: State, p: Policy)
    requires c.fsm == Sleeping && c.strat.Size() == 0
    ensures UpdateFsm(c, p).fsm == Exiting
  {
    assert c.strat.active == {};
  }

  /**
   The drain bound, exactly. When every task of a running kernel is on its way out, two ticks of
   any lengths reach EXITING if and only if no task is waiting to be added and every task is asleep,
   and the current one's sleep outlasts the first tick, or the kernel sleeps and the current task's
   slot is the last busy one.
   */
  lemma DrainsInTwoTicks(s: State, first: int, second: int, p: Policy)
    requires Inv(s) && s.fsm in {Switching, Sleeping, Waking} && Servable(s) && Lawful(p)
    requires first >= 1 && second >= 1 && AllLeaving(s.slots)
    ensures NowBusy(s)
    ensures OnTick(s, first, p).fsm == Exiting || OnTick(OnTick(s, first, p), second, p).fsm == Exiting <==>
            DrainReady(s, first) && (s.request ==> PendingFrom(s.slots, 0) == 0)
  {
    hide Core, OnTick, Lawful, DrainReady, Servable;
    assert NowBusy(s);
    var r := OnTick(s, first, p);
    if DrainReady(s, first) && NoneAsked(s) {
      ReadyTick(s, first, p);
      if r.fsm != Exiting {
        LastTick(r, second, p);
      }
    } else {
      var j := UnreadyTick(s, first, p);
      NoneAskedServable(r);
      AwakeStays(r, second, p, j);
    }
  }

  // ---- one leaving task -------------------------------------------------------------------------

  /** The task is on its way out, and has slept no more than `elapsed` ticks since it was told so. */
  predicate LeavingAt(t: Slot, user: Option<nat>, elapsed: int) {
    && t.user == user && user.Some? && t.removePending && !t.Waiting()
    && t.Asleep() && t.sleep <= elapsed - WAIT_INFINITE
  }

  /** The call removes the task of slot `i`: another task's request, or its own exit. */
  predicate Removes(s: State, a: Action, i: nat) {
    a == Remove(i) || (a == Exit && s.cpu == OnTask(i))
  }

  /** Whether the task sleeps or not, it is on its way out after the call. */
  lemma RemovalStarts(s: State, a: Action, p: Policy, i: nat)
    requires Inv(s) && Enabled(s, a) && Removes(s, a, i)
    ensures var r := Exec(s, a, p);
      && i < |s.slots| && |r.slots| == |s.slots| && LeavingAt(r.slots[i], s.slots[i].user, 0)
      && r.slots[i].addReq == s.slots[i].addReq
      && r == s.(slots := s.slots[i := r.slots[i]])
  {
    hide ListsAgree, Servable, OnTick, OnStart, WakeList;
    InRangeOfAgree(s) by { CoreLists(s); }
  }

  /** Before the start a task is removed at once. */
  lemma RemoveTaskFrees(s: State, i: nat, p: Policy)
    requires Inv(s) && Enabled(s, RemoveTask(i)) && Lawful(p)
    ensures ListsAgree(s)
    ensures var r := Exec(s, RemoveTask(i), p);
      && |r.slots| == |s.slots| && r.slots[i].user.None? && !r.strat.Manages(i)
      && r.strat.log == s.strat.log + [Removed(i)]
      && forall j :: 0 <= j < |s.slots| && j != i ==> r.slots[j] == s.slots[j]
  {
    hide Core, ContextOk, Lawful, OnTick, OnStart;
    assert ListsAgree(s) by { CoreLists(s); }
    StepInv(s, RemoveTask(i), p);
    UnboundUnmanaged(Exec(s, RemoveTask(i), p), i);
  }

  lemma SlotFrees(s: State, i: nat, j: nat, elapsed: int)
    requires i <= j < |s.slots| && s.slots[j].removePending && s.slots[j].Asleep()
    ensures var a := UpdateSlot(s, i, elapsed); var t := a.slots[j];
      && a.now == s.now
      && (i < j ==> t == s.slots[j])
      && (i == j && s.now != Some(j) ==> t.user.None?)
      && (i == j && t.user.Some? ==> t == s.slots[j].(sleepPending := false, sleep := s.slots[j].sleep + elapsed))
  {
  }

  lemma {:induction false} PassFrees(s: State, i: nat, j: nat, elapsed: int)
    requires i <= j < |s.slots| && s.slots[j].removePending && s.slots[j].Asleep()
    ensures var t := UpdateSlots(s, i, elapsed).slots[j];
      t.user.None? || (s.now == Some(j) && t == s.slots[j].(sleepPending := false, sleep := s.slots[j].sleep + elapsed))
    decreases |s.slots| - i
  {
    hide UpdateSlot;
    SlotFrees(s, i, j, elapsed);
    if i == j {
      PassBehind(UpdateSlot(s, i, elapsed), i + 1, j, elapsed);
    } else {
      PassFrees(UpdateSlot(s, i, elapsed), i + 1, j, elapsed);
    }
  }

  lemma LeavingTimers(s: State, elapsed: int, i: nat)
    requires Inv(s) && elapsed >= 1 && i < |s.slots| && s.slots[i].Busy() && !s.slots[i].Waiting()
    ensures |BeforeSlots(s, elapsed).slots| == |s.slots|
    ensures SameTimers(BeforeSlots(s, elapsed).slots[i], s.slots[i])
  {
    hide Core;
    TimersBeforeSlots(s, elapsed, i);
  }

  /** A tick frees a leaving task that is not current; the current one at most sleeps on. */
  lemma TickFrees(s: State, elapsed: int, p: Policy, i: nat, user: Option<nat>, slept: int)
    requires Inv(s) && Enabled(s, Tick(elapsed)) && Lawful(p)
    requires i < |s.slots| && LeavingAt(s.slots[i], user, slept)
    ensures var t := OnTick(s, elapsed, p).slots[i];
      t.user.None? ||
      (s.now == Some(i) && (slept + elapsed < WAIT_INFINITE ==> LeavingAt(t, user, slept + elapsed)))
  {
    hide Inv, BeforeSlots, UpdateSlots, UpdateFsm, Lawful, Servable, MidPass, MidContext, OnTick;
    var b := BeforeSlots(s, elapsed);
    LeavingTimers(s, elapsed, i);
    BeforeSlotsOk(s, elapsed);
    PassFrees(b, 0, i, elapsed);
    TickIs(s, elapsed, p);
  }

  /** Between ticks a leaving task stays what it is, whatever is called. */
  lemma CallLeaves(s: State, a: Action, p: Policy, i: nat, user: Option<nat>, slept: int)
    requires Inv(s) && Enabled(s, a) && Lawful(p) && !a.Tick? && slept >= 0
    requires i < |s.slots| && LeavingAt(s.slots[i], user, slept)
    ensures var r := Exec(s, a, p);
      |r.slots| == |s.slots| && (LeavingAt(r.slots[i], user, slept) || r.slots[i].user.None?)
  {
    hide Core, Servable, OnTick, OnStart, WakeList;
    CoreLists(s);
    NotListed(s, i);
    if !Touches(s, a, i) {
      OthersKeepTimers(s, a, p, i);
    }
  }

  /**
   Until it is freed a leaving task stays on its way out, and every tick that did not free it found
   it current. So the first tick that finds it asleep and not current frees it; it sleeps as long as
   fewer than INT32_MAX ticks have passed.
   */
  lemma {:induction false} LeavingUntilFreed(states: seq<State>, actions: seq<Action>, p: Policy,
                                             i: nat, user: Option<nat>, k: nat)
    requires IsRun(states, actions, p) && Lawful(p) && Inv(states[0])
    requires i < |states[0].slots| && LeavingAt(states[0].slots[i], user, 0)
    requires k <= |actions| && Elapsed(actions, k) < WAIT_INFINITE
    requires forall j :: 0 < j <= k && i < |states[j].slots| ==> states[j].slots[i].Busy()
    ensures |states[k].slots| == |states[0].slots| && Elapsed(actions, k) >= 0
    ensures LeavingAt(states[k].slots[i], user, Elapsed(actions, k))
    ensures forall j :: 0 <= j < k && actions[j].Tick? ==> states[j].now == Some(i)
  {
    hide Inv, LeavingAt, Lawful, OnTick, OnStart;
    if k > 0 {
      var s, a := states[k - 1], actions[k - 1];
      assert Step(s, a, states[k - 1 + 1], p);
      LeavingUntilFreed(states, actions, p, i, user, k - 1);
      RunInv(states, actions, p, k - 1);
      if a.Tick? {
        TickFrees(s, a.elapsed, p, i, user, Elapsed(actions, k - 1));
      } else {
        CallLeaves(s, a, p, i, user, Elapsed(actions, k - 1));
      }
    }
  }

  lemma SameServable(s: State, r: State, i: nat)
    requires Servable(s) && i < |s.slots| && |r.slots| == |s.slots| && r == s.(slots := s.slots[i := r.slots[i]])
    requires r.slots[i].user == s.slots[i].user && r.slots[i].addReq == s.slots[i].addReq
    ensures Servable(r)
  {
    hide FreeCount, PendingFrom;
    FreeCountSame(s.slots, r.slots);
    PendingSame(s.slots, r.slots, 0);
    if s.request {
      forall j | 0 <= j < |r.slots| && r.slots[j].addReq.Some?
        ensures UserUnbound(r.slots, r.slots[j].addReq.value)
      {
        assert UserUnbound(s.slots, s.slots[j].addReq.value);
      }
    }
  }

  lemma UnboundUnmanaged(r: State, i: nat)
    requires Inv(r) && i < |r.slots| && r.slots[i].user.None?
    ensures !r.strat.Manages(i)
  {
    hide Genuine, ListsAgree, Registered, WaitLogOk, ContextOk, SlotsOk, UsersDistinct;
    ManagedIsBusy(r, i);
  }

  /** The removal of a task that is not current, asleep or awake, is complete after one tick. */
  lemma RemovedByNextTick(s: State, i: nat, elapsed: int, p: Policy)
    requires Inv(s) && Enabled(s, Remove(i)) && s.now != Some(i) && Lawful(p)
    requires Enabled(s, Tick(elapsed))
    ensures var r := OnTick(Exec(s, Remove(i), p), elapsed, p);
      && i < |r.slots| && r.slots[i].user.None? && !r.strat.Manages(i)
  {
    hide Inv, OnTick, Lawful, Exec, Servable;
    assert ListsAgree(s) by { SlotAndLists(s, i); }
    RemovalStarts(s, Remove(i), p, i);
    StepInv(s, Remove(i), p);
    var r := Exec(s, Remove(i), p);
    SameServable(s, r, i);
    TickFrees(r, elapsed, p, i, s.slots[i].user, 0);
    TickInv(r, elapsed, p);
    UnboundUnmanaged(OnTick(r, elapsed, p), i);
  }

  /** The exit state is entered only from the sleep trap, with no task left. */
  lemma ExitOnlyWhenEmpty(s: State, elapsed: int, p: Policy)
    requires Inv(s) && Enabled(s, Tick(elapsed)) && Lawful(p)
    ensures OnTick(s, elapsed, p).fsm == Exiting && s.fsm != Exiting ==>
              s.fsm == Sleeping && BusyCount(OnTick(s, elapsed, p).slots) == 0
  {
    hide Core, OnTick, Lawful;
    TickInv(s, elapsed, p);
    TickHandsOver(s, elapsed, p);
    var r := OnTick(s, elapsed, p);
    if r.fsm == Exiting {
      StrategyAgrees(r);
    }
  }

  /** Stopping an emptied kernel returns to the caller of the start, and tasks may be added again. */
  lemma StopReturns(s: State, p: Policy, user: nat)
    requires Inv(s) && Enabled(s, Stop) && s.slots != []
    ensures ListsAgree(s)
    ensures var r := Exec(s, Stop, p);
      r.cpu == Main && r.now.None? && r.slots == s.slots && r.strat == s.strat && Enabled(r, AddTask(user))
  {
    hide Genuine, ListsAgree, Registered, WaitLogOk, UsersDistinct, OnTick, OnStart;
    assert ListsAgree(s) by { CoreLists(s); }
    NoBusyNoRequests(s, 0);
    assert !s.slots[0].Busy();
  }
}
