/**
 Runs of the kernel: any sequence of ticks and calls whose callers meet the contracts the
 source states. Every reachable state satisfies the invariant.
 */
module Runs {
  import opened KernelTypes
  import opened KernelSpec
  import opened SyncPass
  import opened Invariant
  import opened TickInvariant

  datatype Action =
    | AddTask(user: nat)                    // before Start
    | RemoveTask(slot: nat)                 // before Start
    | Start
    | Stop
    | Tick(elapsed: int)
    | Sleep(ticks: int)                     // by the running task; Yield is Sleep(2)
    | SleepUntil(timestamp: int)
    | Wait(obj: nat, timeout: int)
    | Exit
    | SignalOne(obj: nat)                // by a task or an interrupt handler
    | SignalAll(obj: nat)
    | Suspend(slot: nat)
    | Resume(slot: nat)                     // also SleepCancel
    | Remove(slot: nat)                     // ScheduleTaskRemoval
    | Yield                                 // OnSuspend
    | PostRequest(user: nat)                // the steps of AddTask after Start
    | FlagRequest
    | AwaitRequest
    | FinishRequest

  /** The running task executes user code: it neither sleeps nor has exited. */
  predicate CallerReady(s: State) {
    && s.cpu.OnTask? && s.cpu.slot < |s.slots|
    && s.slots[s.cpu.slot].Busy()
    && !s.slots[s.cpu.slot].Asleep()
    && !s.slots[s.cpu.slot].Waiting()
    && !s.slots[s.cpu.slot].removePending
  }

  predicate CallerAt(s: State, stage: AddStage) {
    CallerReady(s) && s.slots[s.cpu.slot].stage == stage
  }

  predicate BusySlot(s: State, i: nat) {
    i < |s.slots| && s.slots[i].Busy()
  }

  predicate SleepingWaiters(s: State, ws: seq<nat>) {
    forall k :: 0 <= k < |ws| ==> ws[k] < |s.slots| && s.slots[ws[k]].Asleep()
  }

  /** The contract of each call, as the source asserts or documents it. */
  predicate Enabled(s: State, a: Action) {
    match a
    case AddTask(u) => s.fsm == FsmNone && UserUnbound(s.slots, u) && FirstFree(s.slots, 0) < |s.slots|
    case RemoveTask(i) => s.fsm == FsmNone && BusySlot(s, i) && !s.slots[i].Waiting()
    case Start => s.fsm == FsmNone && s.strat.Size() != 0
    case Stop => s.fsm == Exiting
    case Tick(e) => s.fsm != FsmNone && e >= 1 && Servable(s)
    case Sleep(n) => CallerAt(s, NoAdd) && 0 <= n <= WAIT_INFINITE
    case SleepUntil(ts) => CallerAt(s, NoAdd)
    case Wait(o, t) => CallerAt(s, NoAdd) && o < |s.waiters| && t != 0 && t <= WAIT_INFINITE
    case Exit => CallerAt(s, NoAdd)
    case SignalOne(o) => o < |s.waiters| && (s.waiters[o] != [] ==> SleepingWaiters(s, s.waiters[o][..1]))
    case SignalAll(o) => o < |s.waiters| && SleepingWaiters(s, s.waiters[o])
    case Suspend(i) => BusySlot(s, i)
    case Resume(i) => BusySlot(s, i) && !s.slots[i].Waiting() && !s.slots[i].removePending
    case Remove(i) => s.now.Some? && BusySlot(s, i) && !s.slots[i].Waiting()
    case Yield => s.now.Some? && BusySlot(s, s.now.value)
    case PostRequest(u) => CallerAt(s, NoAdd)
    case FlagRequest => CallerAt(s, Posted)
    case AwaitRequest => CallerAt(s, Flagged)
    case FinishRequest => CallerAt(s, Yielded)
  }

  function Exec(s: State, a: Action, p: Policy): State
    requires ListsAgree(s) && Enabled(s, a)
  {
    InRangeOfAgree(s);
    match a
    case AddTask(u) => AllocateAndAdd(s, u)
    case RemoveTask(i) => RemoveSlot(s, i)
    case Start => OnStart(s, p)
    case Stop => OnStop(s)
    case Tick(e) => OnTick(s, e, p)
    case Sleep(n) => OnTaskSleep(s, s.cpu.slot, n)
    case SleepUntil(ts) => OnTaskSleepUntil(s, s.cpu.slot, ts)
    case Wait(o, t) => OnTaskWait(s, s.cpu.slot, o, t)
    case Exit => ScheduleRemoval(s, s.cpu.slot)
    case SignalOne(o) => WakeOne(s, o)
    case SignalAll(o) => WakeAll(s, o)
    case Suspend(i) => SuspendTask(s, i)
    case Resume(i) => ResumeTask(s, i)
    case Remove(i) => ScheduleRemoval(s, i)
    case Yield => ForceYield(s)
    case PostRequest(u) => PostAdd(s, s.cpu.slot, u)
    case FlagRequest => FlagAdd(s, s.cpu.slot)
    case AwaitRequest => YieldAdd(s, s.cpu.slot)
    case FinishRequest => FinishAdd(s, s.cpu.slot)
  }

  // ---- every action keeps the invariant ---------------------------------------------------

  lemma InitialInv(slotCount: nat, objectCount: nat)
    ensures Inv(InitialState(slotCount, objectCount))
  {
  }

  lemma {:induction false} InitialSleepsCore(s: State, i: nat)
    requires Core(s, 0) && i <= |s.slots| && forall j :: 0 <= j < i ==> !s.slots[j].sleepPending
    ensures var r := DeliverInitialSleeps(s, i);
      && Core(r, 0) && SameContext(s, r) && r.strat.Size() == s.strat.Size()
      && (forall j :: 0 <= j < |r.slots| ==> !r.slots[j].sleepPending)
    decreases |s.slots| - i
  {
    hide Core;
    if i < |s.slots| {
      InitialSleepStep(s, i);
      InitialSleepsCore(if s.slots[i].Asleep() then DeliverSleep(s, i) else s, i + 1);
    }
  }

  lemma InitialSleepStep(s: State, i: nat)
    requires Core(s, 0) && i < |s.slots|
    ensures var r := if s.slots[i].Asleep() then DeliverSleep(s, i) else s;
      && Core(r, 0) && SameContext(s, r) && r.strat.Size() == s.strat.Size()
      && !r.slots[i].sleepPending && (forall j :: 0 <= j < |s.slots| && j != i ==> r.slots[j] == s.slots[j])
  {
    hide ListsAgree, Registered, WaitLogOk, UsersDistinct, RequestsFlagged, Genuine;
    assert SlotOk(s.slots[i], 0);
    if s.slots[i].Asleep() {
      DeliverCore(s, i);
    }
  }

  lemma StartInv(s: State, p: Policy)
    requires Inv(s) && s.fsm == FsmNone && s.strat.Size() != 0 && Lawful(p)
    ensures Inv(OnStart(s, p))
  {
    hide Core, Lawful;
    assert s.Check(true) == s by { assert s.panic == (s.panic || false); }
    InitialSleepsCore(s, 0);
    var d := DeliverInitialSleeps(s, 0);
    var a := d.(fsm := Switching, switches := []);
    CoreOf(d, a);
    var next := FetchNext(a, p);
    AwakePick(a, p);
    var b := NotePick(a, next);
    if next.None? {
      FirstManaged(a, p);
    }
    CoreOf(b, OnStart(s, p));
  }

  lemma AwakePick(a: State, p: Policy)
    requires Core(a, 0) && Lawful(p) && forall j :: 0 <= j < |a.slots| ==> !a.slots[j].sleepPending
    ensures Core(NotePick(a, FetchNext(a, p)), 0)
    ensures FetchNext(a, p).Some? ==> BusySlot(a, FetchNext(a, p).value)
  {
    if a.strat.active != {} {
      var i := p.next(a.strat.log);
      assert i in Replay(a.strat.log).active;
      assert i in a.strat.active && i < |a.slots|;
      GenuineStep(a.strat, Picked(i));
    }
  }

  lemma AddTaskInv(s: State, u: nat)
    requires Inv(s) && Enabled(s, AddTask(u))
    ensures Inv(AllocateAndAdd(s, u))
  {
    AllocateCore(s, u, 0);
  }

  lemma RemoveTaskInv(s: State, i: nat)
    requires Inv(s) && Enabled(s, RemoveTask(i))
    ensures Inv(RemoveSlot(s, i))
  {
    RemoveCore(s, i);
  }

  /** The calls that only rewrite the caller's or the target's slot. */
  lemma SlotCallInv(s: State, a: Action, p: Policy)
    requires Inv(s) && Enabled(s, a)
    requires a.Sleep? || a.SleepUntil? || a.Exit? || a.Suspend? || a.Resume? || a.Remove? || a.Yield?
    ensures Inv(Exec(s, a, p))
  {
    hide ContextOk, Registered, WaitLogOk, UsersDistinct, Genuine;
    InRangeOfAgree(s);
    var i := if a.Suspend? || a.Resume? || a.Remove? then a.slot else if a.Yield? then s.now.value else s.cpu.slot;
    var r := Exec(s, a, p);
    assert SlotOk(s.slots[i], 0);
    if r != s {
      assert r == SetSlot(s, i, r.slots[i]);
      SetSlotInv(s, i, r.slots[i]);
    }
  }

  lemma RequestCallInv(s: State, a: Action, p: Policy)
    requires Inv(s) && Enabled(s, a)
    requires a.PostRequest? || a.FlagRequest? || a.AwaitRequest? || a.FinishRequest?
    ensures Inv(Exec(s, a, p))
  {
    hide ContextOk, Registered, WaitLogOk, UsersDistinct, Genuine;
    InRangeOfAgree(s);
    var i := s.cpu.slot;
    var r := Exec(s, a, p);
    assert SlotOk(s.slots[i], 0);
    assert a.FinishRequest? ==> s.slots[i].addReq.None?;
    var f := if a.FlagRequest? then s.(request := true) else s;
    FlagInv(s);
    assert r == SetSlot(f, i, r.slots[i]);
    SetSlotInv(f, i, r.slots[i]);
  }

  lemma FlagInv(s: State)
    requires Inv(s)
    ensures Inv(s.(request := true))
  {
    var f := s.(request := true);
    assert forall o, w: nat :: BlockedOn(f, w, o) == BlockedOn(s, w, o);
  }

  lemma SignalInv(s: State, o: nat, ws: seq<nat>)
    requires Inv(s) && o < |s.waiters| && ws == s.waiters[o] && ObjectsInRange(s)
    requires Enabled(s, SignalOne(o))
    ensures Inv(WakeOne(s, o))
  {
    if ws != [] {
      assert ws[0] in ws && BlockedOn(s, ws[0], o);
      assert s.waiters[o][..1][0] == ws[0];
      WakeWaiterInv(s, ws[0], false);
    }
  }

  lemma WaitCallInv(s: State, a: Action, p: Policy)
    requires Inv(s) && Enabled(s, a) && (a.Wait? || a.SignalOne? || a.SignalAll?)
    ensures Inv(Exec(s, a, p))
  {
    hide Core, ContextOk;
    assert ListsAgree(s) by { CoreLists(s); }
    InRangeOfAgree(s);
    match a
    case Wait(o, t) => WaitInv(s, s.cpu.slot, o, t);
    case SignalOne(o) => SignalInv(s, o, s.waiters[o]);
    case SignalAll(o) => WakeListInv(s, o, s.waiters[o]);
  }

  lemma CoreLists(s: State)
    requires Core(s, 0)
    ensures ListsAgree(s)
  {
  }

  lemma LifecycleInv(s: State, a: Action, p: Policy)
    requires Inv(s) && Enabled(s, a) && Lawful(p)
    requires a.AddTask? || a.RemoveTask? || a.Start? || a.Stop? || a.Tick?
    ensures Inv(Exec(s, a, p))
  {
    hide Core, ContextOk, Lawful, OnTick, OnStart, OnStop;
    CoreLists(s);
    match a
    case AddTask(u) => AddTaskInv(s, u);
    case RemoveTask(i) => RemoveTaskInv(s, i);
    case Start => StartInv(s, p);
    case Stop => StopInv(s);
    case Tick(e) => TickInv(s, e, p);
  }

  /** One step of any run keeps the invariant; in particular no assertion fires. */
  lemma StepInv(s: State, a: Action, p: Policy)
    requires Inv(s) && Enabled(s, a) && Lawful(p)
    ensures Inv(Exec(s, a, p))
  {
    hide Core, ContextOk, Enabled, Lawful, OnTick, OnStart;
    CoreLists(s);
    if a.AddTask? || a.RemoveTask? || a.Start? || a.Stop? || a.Tick? {
      LifecycleInv(s, a, p);
    } else if a.Wait? || a.SignalOne? || a.SignalAll? {
      WaitCallInv(s, a, p);
    } else if a.PostRequest? || a.FlagRequest? || a.AwaitRequest? || a.FinishRequest? {
      RequestCallInv(s, a, p);
    } else {
      SlotCallInv(s, a, p);
    }
  }

  lemma StopInv(s: State)
    requires Inv(s) && s.fsm == Exiting
    ensures Inv(OnStop(s))
  {
    CoreOf(s, OnStop(s));
  }

  // ---- runs --------------------------------------------------------------------------------

  /** The states of a run, one more than its actions, each step allowed where it is taken. */
  ghost predicate IsRun(states: seq<State>, actions: seq<Action>, p: Policy) {
    && |states| == |actions| + 1
    && (forall k :: 0 <= k < |actions| ==> Step(states[k], actions[k], states[k + 1], p))
  }

  predicate Step(s: State, a: Action, r: State, p: Policy) {
    ListsAgree(s) && Enabled(s, a) && r == Exec(s, a, p)
  }

  /** Safety of every run of every configuration under every lawful strategy. */
  lemma {:induction false} RunInv(states: seq<State>, actions: seq<Action>, p: Policy, k: nat)
    requires IsRun(states, actions, p) && Lawful(p) && Inv(states[0]) && k < |states|
    ensures Inv(states[k])
  {
    if k > 0 {
      RunInv(states, actions, p, k - 1);
      assert Step(states[k - 1], actions[k - 1], states[k - 1 + 1], p);
      StepInv(states[k - 1], actions[k - 1], p);
    }
  }
}
