/**
 What each kernel operation does to the state. These functions are the specification
 the class `Kernel` is proved against and the subject of every kernel theorem.
 */
module KernelSpec {
  import opened KernelTypes

  // ---- frames ---------------------------------------------------------------------

  /** Only slots and strategy (and the panic flag) differ. */
  predicate TouchesTasks(s: State, r: State) {
    |r.slots| == |s.slots| && r == s.(slots := r.slots, strat := r.strat, panic := r.panic)
  }

  /** Only slots and wait lists (and the panic flag) differ. */
  predicate TouchesWaits(s: State, r: State) {
    && |r.slots| == |s.slots|
    && r == s.(slots := r.slots, waiters := r.waiters, syncList := r.syncList, waitLog := r.waitLog, panic := r.panic)
  }

  /** Only the running context, the strategy's history (and the panic flag) differ. */
  predicate TouchesContext(s: State, r: State) {
    && r == s.(strat := r.strat, now := r.now, fsm := r.fsm, cpu := r.cpu, switches := r.switches, panic := r.panic)
    && r.strat.active == s.strat.active && r.strat.asleep == s.strat.asleep
  }

  // ---- allocation, removal and requests -------------------------------------------

  /** The lowest free slot at or after `i`, or the number of slots. */
  function FirstFree(slots: seq<Slot>, i: nat): (k: nat)
    requires i <= |slots|
    ensures i <= k <= |slots|
    ensures forall j :: i <= j < k ==> slots[j].Busy()
    ensures k < |slots| ==> !slots[k].Busy()
    decreases |slots| - i
  {
    if i == |slots| || !slots[i].Busy() then i else FirstFree(slots, i + 1)
  }

  predicate UserUnbound(slots: seq<Slot>, user: nat) {
    forall i :: 0 <= i < |slots| ==> slots[i].user != Some(user)
  }

  function AllocateAndAdd(s: State, user: nat): (r: State)
    ensures TouchesTasks(s, r)
  {
    var k := FirstFree(s.slots, 0);
    if k == |s.slots| then s.Check(false)
    else
      s.Check(UserUnbound(s.slots, user))
       .(slots := s.slots[k := s.slots[k].(user := Some(user))])
       .Notify(Added(k))
  }

  function RemoveSlot(s: State, i: nat): (r: State)
    requires i < |s.slots|
    ensures TouchesTasks(s, r)
  {
    s.Notify(Removed(i)).Check(!s.slots[i].Waiting()).(slots := s.slots[i := s.slots[i].Unbound()])
  }

  function ServeFrom(s: State, i: nat): (r: State)
    requires i <= |s.slots|
    ensures TouchesTasks(s, r)
    decreases |s.slots| - i
  {
    if i == |s.slots| then s
    else if s.slots[i].addReq.None? then ServeFrom(s, i + 1)
    else
      var a := AllocateAndAdd(s, s.slots[i].addReq.value);
      ServeFrom(a.(slots := a.slots[i := a.slots[i].(addReq := None)]), i + 1)
  }

  function UpdateTaskRequest(s: State): (r: State)
    ensures TouchesTasks(s.(request := false), r)
  {
    if s.request then ServeFrom(s.(request := false), 0) else s
  }

  // ---- wait objects ----------------------------------------------------------------

  /** Unlinking an entry from a wait list. */
  function Unlinked(ws: seq<nat>, i: nat): seq<nat> {
    if ws == [] then [] else if ws[0] == i then ws[1..] else [ws[0]] + Unlinked(ws[1..], i)
  }

  predicate WaiterOk(s: State, i: nat) {
    i < |s.slots| && s.slots[i].Waiting() && s.slots[i].waitOn.value < |s.waiters|
  }

  /** `WaitObject::Wake`. */
  function WakeWaiter(s: State, i: nat, timeout: bool): (r: State)
    requires i < |s.slots|
    ensures TouchesWaits(s, r)
  {
    if !WaiterOk(s, i) then s.Check(false)
    else
      var o := s.slots[i].waitOn.value;
      s.Check(i in s.waiters[o] && s.slots[i].Asleep())
       .(waiters := s.waiters[o := Unlinked(s.waiters[o], i)],
         slots := s.slots[i := s.slots[i].(timedOut := timeout, waitLeft := 0, waitOn := None, sleep := -1)],
         waitLog := s.waitLog + [Ended(i, timeout)])
  }

  /** `WaitObject::Tick`. */
  function AgeWait(t: Slot, elapsed: int): Slot {
    if t.waitLeft != WAIT_INFINITE && !t.timedOut then
      t.(waitLeft := t.waitLeft - elapsed, timedOut := t.waitLeft - elapsed <= 0)
    else t
  }

  function TickWaiter(s: State, i: nat, elapsed: int): (r: State)
    requires i < |s.slots|
    ensures TouchesWaits(s, r)
  {
    var t := AgeWait(s.slots[i], elapsed);
    var a := s.(slots := s.slots[i := t]);
    if t.timedOut then WakeWaiter(a, i, true) else a
  }

  /** The walk of `ISyncObject::Tick` over the entries of one wait list. */
  function TickWaiters(s: State, ws: seq<nat>, elapsed: int): (r: State)
    requires forall k :: 0 <= k < |ws| ==> ws[k] < |s.slots|
    ensures TouchesWaits(s, r)
    decreases |ws|
  {
    if ws == [] then s else TickWaiters(TickWaiter(s, ws[0], elapsed), ws[1..], elapsed)
  }

  predicate InRange(ws: seq<nat>, n: nat) {
    forall k :: 0 <= k < |ws| ==> ws[k] < n
  }

  function TickObject(s: State, o: nat, elapsed: int): (r: State)
    ensures TouchesWaits(s, r)
  {
    if o >= |s.waiters| || !InRange(s.waiters[o], |s.slots|) then s.Check(false)
    else
      var a := TickWaiters(s, s.waiters[o], elapsed);
      if o < |a.waiters| && a.waiters[o] == [] then a.(syncList := Unlinked(a.syncList, o)) else a
  }

  /** The walk of `UpdateSyncObjects` over the kernel's sync list. */
  function TickObjects(s: State, objs: seq<nat>, elapsed: int): (r: State)
    ensures TouchesWaits(s, r)
    decreases |objs|
  {
    if objs == [] then s else TickObjects(TickObject(s, objs[0], elapsed), objs[1..], elapsed)
  }

  function UpdateSyncObjects(s: State, elapsed: int): (r: State)
    ensures TouchesWaits(s, r)
  {
    TickObjects(s, s.syncList, elapsed)
  }

  // ---- the per-slot pass of the tick -------------------------------------------------

  predicate Removable(s: State, i: nat)
    requires i < |s.slots|
  {
    && s.slots[i].Asleep()
    && s.slots[i].removePending
    && (s.now != Some(i) || (s.strat.Size() == 1 && s.fsm == Sleeping))
  }

  /** A pending sleep event reaches the strategy before the counter advances. */
  function DeliverSleep(s: State, i: nat): (r: State)
    requires i < |s.slots|
    ensures TouchesTasks(s, r)
  {
    if s.slots[i].sleepPending then
      s.Notify(Slept(i)).(slots := s.slots[i := s.slots[i].(sleepPending := false)])
    else s
  }

  function AdvanceSleep(s: State, i: nat, elapsed: int): (r: State)
    requires i < |s.slots|
    ensures TouchesTasks(s, r)
  {
    var a := s.(slots := s.slots[i := s.slots[i].(sleep := s.slots[i].sleep + elapsed)]);
    if a.slots[i].Asleep() then a else a.Notify(Woke(i))
  }

  function UpdateSlot(s: State, i: nat, elapsed: int): (r: State)
    requires i < |s.slots|
    ensures TouchesTasks(s, r)
  {
    if !s.slots[i].Asleep() then s
    else if Removable(s, i) then RemoveSlot(s, i)
    else AdvanceSleep(DeliverSleep(s, i), i, elapsed)
  }

  function UpdateSlots(s: State, i: nat, elapsed: int): (r: State)
    requires i <= |s.slots|
    ensures TouchesTasks(s, r)
    decreases |s.slots| - i
  {
    if i == |s.slots| then s else UpdateSlots(UpdateSlot(s, i, elapsed), i + 1, elapsed)
  }

  function Min(a: int, b: int): int { if a < b then a else b }
  function Max(a: int, b: int): int { if a > b then a else b }

  /** `GetSleepTicks`: how far one task lets the timer be suppressed. */
  function SleepTicks(t: Slot, bound: int): int {
    Max(1,
        if t.Waiting() then (if t.waitLeft > 0 then Min(bound, t.waitLeft) else bound)
        else Min(bound, Max(0, -t.sleep)))
  }

  /** The interval `UpdateTaskState` returns, over the slots as they are after the pass. */
  function SleepHint(slots: seq<Slot>, i: nat, bound: int): int
    requires i <= |slots|
    decreases |slots| - i
  {
    if i == |slots| then bound
    else SleepHint(slots, i + 1, if bound > 1 && slots[i].Busy() then SleepTicks(slots[i], bound) else bound)
  }

  // ---- the state machine ---------------------------------------------------------------

  function Transition(f: FsmState, e: FsmEvent): FsmState {
    match (f, e)
    case (Switching, EvSwitch) => Switching
    case (Switching, EvSleep) => Sleeping
    case (Switching, EvExit) => Exiting
    case (Sleeping, EvWake) => Waking
    case (Sleeping, EvExit) => Exiting
    case (Waking, EvSwitch) => Switching
    case (Waking, EvSleep) => Sleeping
    case (Waking, EvExit) => Exiting
    case _ => FsmNone
  }

  /** `FetchNextEvent`: the strategy's choice and the event it gives rise to. */
  function FetchNext(s: State, p: Policy): Option<nat> {
    if s.strat.active == {} then None else Some(p.next(s.strat.log))
  }

  function EventOf(s: State, next: Option<nat>): FsmEvent {
    if next.Some? then (if s.fsm == Sleeping then EvWake else EvSwitch)
    else if s.strat.Size() == 0 then EvExit else EvSleep
  }

  function NotePick(s: State, next: Option<nat>): (r: State)
    ensures TouchesContext(s, r)
  {
    if next.None? then s
    else s.Notify(Picked(next.value)).Check(next.value < |s.slots| && !s.slots[next.value].Asleep())
  }

  /** The platform acts on a requested switch. */
  function SwitchContext(s: State, idle: Context, active: Context): State {
    s.(switches := s.switches + [Switch(idle, active)], cpu := active)
  }

  function StackOf(now: Option<nat>): Context {
    if now.Some? then OnTask(now.value) else Main
  }

  function StateSwitch(s: State, next: nat): (r: State)
    ensures TouchesContext(s, r)
  {
    if s.now == Some(next) then s.(fsm := Switching)
    else SwitchContext(s.Check(s.now.Some?), StackOf(s.now), OnTask(next)).(now := Some(next), fsm := Switching)
  }

  function StateWake(s: State, next: nat): (r: State)
    ensures TouchesContext(s, r)
  {
    SwitchContext(s, SleepTrap, OnTask(next)).(now := Some(next), fsm := Waking)
  }

  function StateSleep(s: State, p: Policy): (r: State)
    ensures TouchesContext(s, r)
  {
    SwitchContext(s.Check(s.now.Some?), StackOf(s.now), SleepTrap)
      .(now := Some(p.first(s.strat.log)), fsm := Sleeping)
  }

  /** `StateExit` returns no switch: the platform stops and leaves through the exit trap. */
  function StateExit(s: State): (r: State)
    ensures TouchesContext(s, r)
  {
    s.(now := None, fsm := Exiting, cpu := ExitTrap)
  }

  function UpdateFsm(s: State, p: Policy): (r: State)
    ensures TouchesContext(s, r)
  {
    var next := FetchNext(s, p);
    var a := NotePick(s.Check(s.fsm != FsmNone), next);
    match Transition(s.fsm, EventOf(s, next))
    case Switching => (if next.Some? then StateSwitch(a, next.value) else a.Check(false))
    case Waking => (if next.Some? then StateWake(a, next.value) else a.Check(false))
    case Sleeping => StateSleep(a, p)
    case Exiting => StateExit(a)
    case FsmNone => a
  }

  // ---- the tick ---------------------------------------------------------------------------

  function UpdateTasks(s: State, elapsed: int): (r: State)
    ensures |r.slots| == |s.slots|
  {
    UpdateSlots(UpdateTaskRequest(UpdateSyncObjects(s, elapsed)), 0, elapsed)
  }

  function OnTick(s: State, elapsed: int, p: Policy): (r: State)
    ensures |r.slots| == |s.slots|
  {
    UpdateFsm(UpdateTasks(s.(ticks := s.ticks + elapsed), elapsed), p)
  }

  /** The interval a tick returns to the platform. */
  function TickReturn(s: State, elapsed: int): int {
    SleepHint(UpdateTasks(s.(ticks := s.ticks + elapsed), elapsed).slots, 0, TICKLESS_TICKS_MAX)
  }

  // ---- start and stop -----------------------------------------------------------------------

  function DeliverInitialSleeps(s: State, i: nat): (r: State)
    requires i <= |s.slots|
    ensures TouchesTasks(s, r)
    decreases |s.slots| - i
  {
    if i == |s.slots| then s
    else DeliverInitialSleeps(if s.slots[i].Asleep() then DeliverSleep(s, i) else s, i + 1)
  }

  function OnStart(s: State, p: Policy): State {
    Begin(DeliverInitialSleeps(s.Check(s.strat.Size() != 0), 0).(fsm := Switching, switches := []), p)
  }

  /** The choice of the first context. */
  function Begin(a: State, p: Policy): State {
    var next := FetchNext(a, p);
    var b := NotePick(a, next);
    if next.Some? then SwitchContext(b, Main, OnTask(next.value)).(now := Some(next.value))
    else if b.strat.Size() != 0 then
      SwitchContext(b, Main, SleepTrap).(now := Some(p.first(b.strat.log)), fsm := Sleeping)
    else b.Check(false)
  }

  function OnStop(s: State): State {
    s.(fsm := FsmNone, cpu := Main)
  }

  // ---- calls made between ticks -------------------------------------------------------------

  function SetSlot(s: State, i: nat, t: Slot): State
    requires i < |s.slots|
  {
    s.(slots := s.slots[i := t])
  }

  function OnTaskSleep(s: State, i: nat, ticks: int): State
    requires i < |s.slots|
  {
    if ticks > 0 then SetSlot(s, i, s.slots[i].ScheduleSleep(ticks)) else s
  }

  function OnTaskSleepUntil(s: State, i: nat, timestamp: int): State
    requires i < |s.slots|
  {
    OnTaskSleep(s, i, Min(timestamp - s.ticks, WAIT_INFINITE))
  }

  /** `OnTaskWait` up to the point where the caller starts to spin. */
  function OnTaskWait(s: State, i: nat, o: nat, timeout: int): State
    requires i < |s.slots| && o < |s.waiters|
  {
    var t := s.slots[i].(waitOn := Some(o), waitLeft := timeout, timedOut := false);
    s.Check(!s.slots[i].Waiting() && timeout != 0)
     .(slots := s.slots[i := t.ScheduleSleep(WAIT_INFINITE)],
       waiters := s.waiters[o := s.waiters[o] + [i]],
       syncList := if o in s.syncList then s.syncList else s.syncList + [o],
       waitLog := s.waitLog + [Armed(i)])
  }

  function WakeOne(s: State, o: nat): State
    requires o < |s.waiters| && InRange(s.waiters[o], |s.slots|)
  {
    if s.waiters[o] == [] then s else WakeWaiter(s, s.waiters[o][0], false)
  }

  function WakeList(s: State, ws: seq<nat>): (r: State)
    requires InRange(ws, |s.slots|)
    ensures TouchesWaits(s, r)
    decreases |ws|
  {
    if ws == [] then s else WakeList(WakeWaiter(s, ws[0], false), ws[1..])
  }

  function WakeAll(s: State, o: nat): State
    requires o < |s.waiters| && InRange(s.waiters[o], |s.slots|)
  {
    WakeList(s, s.waiters[o])
  }

  function ScheduleRemoval(s: State, i: nat): State
    requires i < |s.slots|
  {
    SetSlot(s, i, s.slots[i].ScheduleSleep(WAIT_INFINITE).(removePending := true))
  }

  function SuspendTask(s: State, i: nat): State
    requires i < |s.slots|
  {
    if s.slots[i].Asleep() then s else SetSlot(s, i, s.slots[i].ScheduleSleep(WAIT_INFINITE))
  }

  /** `ResumeTask` and `OnTaskSleepCancel`. */
  function ResumeTask(s: State, i: nat): State
    requires i < |s.slots|
  {
    if s.slots[i].Asleep() then SetSlot(s, i, s.slots[i].(sleep := -1)) else s
  }

  /** `OnSuspend` forces the current task to yield. */
  function ForceYield(s: State): State
    requires s.now.Some? && s.now.value < |s.slots|
  {
    var i := s.now.value;
    if s.slots[i].Asleep() then s else SetSlot(s, i, s.slots[i].ScheduleSleep(YIELD_TICKS))
  }

  // The steps of RequestAddTask; the tick may come between any two of them.

  function PostAdd(s: State, i: nat, user: nat): State
    requires i < |s.slots|
  {
    SetSlot(s, i, s.slots[i].(addReq := Some(user), stage := Posted))
  }

  function FlagAdd(s: State, i: nat): State
    requires i < |s.slots|
  {
    SetSlot(s, i, s.slots[i].(stage := Flagged)).(request := true)
  }

  function YieldAdd(s: State, i: nat): State
    requires i < |s.slots|
  {
    var a := SetSlot(s, i, s.slots[i].(stage := Yielded));
    if a.slots[i].addReq.Some? then OnTaskSleep(a, i, YIELD_TICKS) else a
  }

  function FinishAdd(s: State, i: nat): State
    requires i < |s.slots|
  {
    SetSlot(s.Check(s.slots[i].addReq.None?), i, s.slots[i].(stage := NoAdd))
  }
}
