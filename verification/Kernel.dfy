/**
 The kernel object: its fields, and its methods with the loops of the source, each proved
 to do exactly what the specification functions say.
 */
module KernelObject {
  import opened KernelTypes
  import opened KernelSpec
  import SyncPass
  import Invariant
  import Timing

  class Kernel {
    const storage: array<Slot>      // m_task_storage
    const policy: Policy            // the strategy's answers
    var strat: Strategy
    var taskNow: Option<nat>
    var fsmState: FsmState
    var request: bool
    var ticks: int
    var syncList: seq<nat>
    var waiters: seq<seq<nat>>
    var waitLog: seq<WaitEvent>
    var cpu: Context
    var switches: seq<Switch>
    var panicked: bool

    ghost function Now(): State
      reads this, storage
    {
      State(storage[..], strat, taskNow, fsmState, request, ticks, syncList, waiters, waitLog, cpu, switches, panicked)
    }

    constructor (slotCount: nat, objectCount: nat, policy: Policy)
      ensures fresh(storage) && this.policy == policy
      ensures Now() == InitialState(slotCount, objectCount)
    {
      storage := new Slot[slotCount](_ => FreeSlot);
      this.policy := policy;
      strat, taskNow, fsmState, request, ticks := EmptyStrategy, None, FsmNone, false, 0;
      syncList, waiters, waitLog := [], seq(objectCount, _ => []), [];
      cpu, switches, panicked := Main, [], false;
      new;
      assert storage[..] == seq(slotCount, _ => FreeSlot);
    }

    // ---- elementary updates -------------------------------------------------------------

    method Assert(ok: bool)
      modifies this`panicked
      ensures Now() == old(Now()).Check(ok)
    {
      if !ok { panicked := true; }
    }

    method Notify(e: Event)
      modifies this`strat, this`panicked
      ensures Now() == old(Now()).Notify(e)
    {
      if !strat.Accepts(e) { panicked := true; }
      strat := strat.Apply(e);
    }

    method Store(i: nat, t: Slot)
      requires i < storage.Length
      modifies storage
      ensures Now() == old(Now()).(slots := old(Now()).slots[i := t])
    {
      storage[i] := t;
    }

    // ---- allocation and removal -----------------------------------------------------------

    /** The scan of `AllocateNewTask`: the first free slot, with the collision checks. */
    method AllocateAndAddNewTask(user: nat)
      modifies this`strat, this`panicked, storage
      ensures Now() == AllocateAndAdd(old(Now()), user)
    {
      ghost var s := Now();
      var free, collision := storage.Length, false;
      for i := 0 to storage.Length
        invariant free <= storage.Length && Now() == s
        invariant free == storage.Length ==> FirstFree(s.slots, 0) == FirstFree(s.slots, i)
        invariant free < storage.Length ==> FirstFree(s.slots, 0) == free
        invariant collision <==> exists j :: 0 <= j < i && s.slots[j].user == Some(user)
      {
        if storage[i].user.Some? {
          if storage[i].user.value == user { collision := true; }
        } else if free == storage.Length {
          free := i;
        }
      }
      if free == storage.Length {
        Assert(false);
      } else {
        Assert(!collision);
        Store(free, storage[free].(user := Some(user)));
        Notify(Added(free));
      }
    }

    method RemoveTask(i: nat)
      requires i < storage.Length
      modifies this`strat, this`panicked, storage
      ensures Now() == RemoveSlot(old(Now()), i)
    {
      Notify(Removed(i));
      Assert(!storage[i].Waiting());
      Store(i, storage[i].Unbound());
    }

    method FindTaskByUserTask(user: nat) returns (found: Option<nat>)
      ensures found.Some? ==> found.value < storage.Length && storage[found.value].user == Some(user)
      ensures found.Some? ==> forall j :: 0 <= j < found.value ==> storage[j].user != Some(user)
      ensures found.None? ==> UserUnbound(storage[..], user)
    {
      found := None;
      for i := 0 to storage.Length
        invariant forall j :: 0 <= j < i ==> storage[j].user != Some(user)
      {
        if storage[i].user == Some(user) {
          return Some(i);
        }
      }
    }

    // ---- wait objects -----------------------------------------------------------------------

    /** `WaitObject::Wake`. */
    method Wake(i: nat, timeout: bool)
      requires i < storage.Length
      modifies this`waiters, this`waitLog, this`panicked, storage
      ensures Now() == WakeWaiter(old(Now()), i, timeout)
    {
      var t := storage[i];
      if t.waitOn.None? || t.waitOn.value >= |waiters| {
        Assert(false);
      } else {
        var o := t.waitOn.value;
        Assert(i in waiters[o] && t.Asleep());
        waiters := waiters[o := Unlinked(waiters[o], i)];
        waitLog := waitLog + [Ended(i, timeout)];
        Store(i, t.(timedOut := timeout, waitLeft := 0, waitOn := None, sleep := -1));
      }
    }

    /** `ISyncObject::Tick`: every waiter of the object ages; the expired are woken. */
    method TickSyncObject(o: nat, elapsed: int)
      modifies this`waiters, this`waitLog, this`panicked, this`syncList, storage
      ensures Now() == TickObject(old(Now()), o, elapsed)
    {
      if o >= |waiters| || !InRange(waiters[o], storage.Length) {
        Assert(false);
        return;
      }
      ghost var s := Now();
      var ws := waiters[o];
      var k := 0;
      while k < |ws|
        invariant k <= |ws| && InRange(ws, |Now().slots|)
        invariant TickWaiters(Now(), ws[k..], elapsed) == TickWaiters(s, ws, elapsed)
      {
        var i := ws[k];
        assert ws[k..][0] == i && ws[k..][1..] == ws[k + 1..];
        Store(i, AgeWait(storage[i], elapsed));
        if storage[i].timedOut {
          Wake(i, true);
        }
        k := k + 1;
      }
      assert ws[k..] == [];
      if o < |waiters| && waiters[o] == [] {
        syncList := Unlinked(syncList, o);
      }
    }

    method UpdateSyncObjects(elapsed: int)
      modifies this`waiters, this`waitLog, this`panicked, this`syncList, storage
      ensures Now() == KernelSpec.UpdateSyncObjects(old(Now()), elapsed)
    {
      ghost var s := Now();
      var objects := syncList;
      var k := 0;
      while k < |objects|
        invariant k <= |objects|
        invariant TickObjects(Now(), objects[k..], elapsed) == TickObjects(s, objects, elapsed)
      {
        assert objects[k..][0] == objects[k] && objects[k..][1..] == objects[k + 1..];
        TickSyncObject(objects[k], elapsed);
        k := k + 1;
      }
      assert objects[k..] == [];
    }

    method WakeOne(o: nat)
      requires o < |waiters| && InRange(waiters[o], storage.Length)
      modifies this`waiters, this`waitLog, this`panicked, storage
      ensures Now() == KernelSpec.WakeOne(old(Now()), o)
    {
      if waiters[o] != [] {
        Wake(waiters[o][0], false);
      }
    }

    /** `WakeAll` pops the front waiter until none is left. */
    method WakeAll(o: nat)
      requires o < |waiters| && SyncPass.ListsAgree(Now())
      modifies this`waiters, this`waitLog, this`panicked, storage
      ensures InRange(old(waiters[o]), |old(Now()).slots|)
      ensures Now() == WakeList(old(Now()), old(waiters[o])) && |waiters| == |old(waiters)| && waiters[o] == []
    {
      ghost var s := Now();
      SyncPass.InRangeOfAgree(s);
      while waiters[o] != []
        invariant |waiters| == |s.waiters| && SyncPass.ListsAgree(Now()) && |Now().slots| == |s.slots|
        invariant InRange(waiters[o], |Now().slots|)
        invariant WakeList(Now(), waiters[o]) == WakeList(s, s.waiters[o])
        decreases |waiters[o]|
      {
        var first := waiters[o][0];
        assert first in waiters[o] && SyncPass.BlockedOn(Now(), first, o);
        Invariant.WakeKeepsLists(Now(), first, false);
        Wake(first, false);
        SyncPass.InRangeOfAgree(Now());
      }
    }

    // ---- the tick -----------------------------------------------------------------------------

    method UpdateTaskRequest()
      modifies this`strat, this`panicked, this`request, storage
      ensures Now() == KernelSpec.UpdateTaskRequest(old(Now()))
    {
      if request {
        request := false;
        ghost var s := Now();
        var i := 0;
        while i < storage.Length
          invariant i <= storage.Length
          invariant ServeFrom(Now(), i) == ServeFrom(s, 0)
        {
          if storage[i].addReq.Some? {
            AllocateAndAddNewTask(storage[i].addReq.value);
            Store(i, storage[i].(addReq := None));
          }
          i := i + 1;
        }
      }
    }

    /** `UpdateTaskState`: removals, sleep and wake events, counters, and the next interval. */
    method UpdateTaskState(elapsed: int) returns (sleepTicks: int)
      modifies this`strat, this`panicked, storage
      ensures Now() == UpdateSlots(old(Now()), 0, elapsed)
      ensures sleepTicks == SleepHint(Now().slots, 0, TICKLESS_TICKS_MAX)
    {
      ghost var s := Now();
      ghost var last := UpdateSlots(s, 0, elapsed).slots;
      sleepTicks := TICKLESS_TICKS_MAX;
      var i := 0;
      while i < storage.Length
        invariant i <= storage.Length && |last| == storage.Length
        invariant UpdateSlots(Now(), i, elapsed) == UpdateSlots(s, 0, elapsed)
        invariant SleepHint(last, i, sleepTicks) == SleepHint(last, 0, TICKLESS_TICKS_MAX)
      {
        ghost var a := Now();
        UpdateOneTask(i, elapsed);
        Timing.PassBehind(Now(), i + 1, i, elapsed);
        if sleepTicks > 1 && storage[i].Busy() {
          sleepTicks := SleepTicks(storage[i], sleepTicks);
        }
        i := i + 1;
      }
    }

    /** The body of the loop of `UpdateTaskState`. */
    method UpdateOneTask(i: nat, elapsed: int)
      requires i < storage.Length
      modifies this`strat, this`panicked, storage
      ensures Now() == UpdateSlot(old(Now()), i, elapsed)
    {
      var t := storage[i];
      if t.Asleep() {
        if t.removePending {
          var tasksLeft := strat.Size();
          if taskNow != Some(i) || (tasksLeft == 1 && fsmState == Sleeping) {
            RemoveTask(i);
            return;
          }
        }
        if t.sleepPending {
          Notify(Slept(i));
          Store(i, storage[i].(sleepPending := false));
        }
        Store(i, storage[i].(sleep := storage[i].sleep + elapsed));
        if !storage[i].Asleep() {
          Notify(Woke(i));
        }
      }
    }

    method FetchNextEvent() returns (next: Option<nat>, event: FsmEvent)
      modifies this`strat, this`panicked
      ensures next == FetchNext(old(Now()), policy) && event == EventOf(old(Now()), next)
      ensures Now() == NotePick(old(Now()), next)
    {
      event := EvSleep;
      next := if strat.active == {} then None else Some(policy.next(strat.log));
      if next.Some? {
        event := if fsmState == Sleeping then EvWake else EvSwitch;
        Notify(Picked(next.value));
        Assert(next.value < storage.Length && !storage[next.value].Asleep());
      } else if strat.Size() == 0 {
        event := EvExit;
      }
    }

    /** The platform saves the current context and restores the new one. */
    method SwitchTo(idle: Context, active: Context)
      modifies this`switches, this`cpu
      ensures Now() == SwitchContext(old(Now()), idle, active)
      ensures cpu == active && switches == old(switches) + [Switch(idle, active)]
    {
      switches, cpu := switches + [Switch(idle, active)], active;
    }

    method StateSwitch(next: nat) returns (switched: bool, idle: Context, active: Context)
      modifies this`taskNow, this`fsmState, this`panicked, this`switches, this`cpu
      ensures Now() == KernelSpec.StateSwitch(old(Now()), next)
      ensures switches == if switched then old(switches) + [Switch(idle, active)] else old(switches)
    {
      switched, idle, active := taskNow != Some(next), StackOf(taskNow), OnTask(next);
      if switched {
        Assert(taskNow.Some?);
        SwitchTo(idle, active);
        taskNow := Some(next);
      }
      fsmState := Switching;
    }

    method StateWake(next: nat) returns (idle: Context, active: Context)
      modifies this`taskNow, this`fsmState, this`switches, this`cpu
      ensures Now() == KernelSpec.StateWake(old(Now()), next)
      ensures switches == old(switches) + [Switch(idle, active)]
    {
      idle, active := SleepTrap, OnTask(next);
      SwitchTo(idle, active);
      taskNow, fsmState := Some(next), Waking;
    }

    method StateSleep() returns (idle: Context, active: Context)
      modifies this`taskNow, this`fsmState, this`panicked, this`switches, this`cpu
      ensures Now() == KernelSpec.StateSleep(old(Now()), policy)
      ensures switches == old(switches) + [Switch(idle, active)]
    {
      Assert(taskNow.Some?);
      idle, active := StackOf(taskNow), SleepTrap;
      SwitchTo(idle, active);
      taskNow, fsmState := Some(policy.first(strat.log)), Sleeping;
    }

    method StateExit()
      modifies this`taskNow, this`fsmState, this`cpu
      ensures Now() == KernelSpec.StateExit(old(Now()))
      ensures switches == old(switches)
    {
      taskNow, fsmState, cpu := None, Exiting, ExitTrap;
    }

    /** `UpdateFsmState`: the requested switch, if any, is what the platform carries out. */
    method UpdateFsmState() returns (switched: bool, idle: Context, active: Context)
      modifies this
      ensures Now() == UpdateFsm(old(Now()), policy)
      ensures switches == if switched then old(switches) + [Switch(idle, active)] else old(switches)
    {
      hide KernelSpec.StateSwitch, KernelSpec.StateWake, KernelSpec.StateSleep, KernelSpec.StateExit, NotePick,
          TouchesContext;
      idle, active, switched := Main, Main, false;
      Assert(fsmState != FsmNone);
      var next, event := FetchNextEvent();
      match Transition(fsmState, event) {
        case Switching =>
          if next.None? { Assert(false); } else { switched, idle, active := StateSwitch(next.value); }
        case Waking =>
          if next.None? { Assert(false); } else { switched := true; idle, active := StateWake(next.value); }
        case Sleeping =>
          switched := true;
          idle, active := StateSleep();
        case Exiting =>
          StateExit();
        case FsmNone =>
      }
    }

    /** One tick. The result is the interval the platform may suppress. */
    method OnTick(elapsed: int) returns (switched: bool, idle: Context, active: Context, sleepTicks: int)
      modifies this, storage
      ensures Now() == KernelSpec.OnTick(old(Now()), elapsed, policy)
      ensures sleepTicks == TickReturn(old(Now()), elapsed)
      ensures switches == if switched then old(switches) + [Switch(idle, active)] else old(switches)
    {
      hide UpdateFsm, UpdateSlots, SleepHint, KernelSpec.UpdateTaskRequest, KernelSpec.UpdateSyncObjects;
      ticks := ticks + elapsed;
      UpdateSyncObjects(elapsed);
      UpdateTaskRequest();
      sleepTicks := UpdateTaskState(elapsed);
      switched, idle, active := UpdateFsmState();
    }

    /** Sleep events of the tasks that were put to sleep before the start. */
    method DeliverInitialSleeps()
      modifies this`strat, this`panicked, storage
      ensures Now() == KernelSpec.DeliverInitialSleeps(old(Now()), 0)
    {
      ghost var s := Now();
      var i := 0;
      while i < storage.Length
        invariant i <= storage.Length
        invariant KernelSpec.DeliverInitialSleeps(Now(), i) == KernelSpec.DeliverInitialSleeps(s, 0)
      {
        if storage[i].Asleep() && storage[i].sleepPending {
          Notify(Slept(i));
          Store(i, storage[i].(sleepPending := false));
        }
        i := i + 1;
      }
    }

    method OnStart() returns (active: Context)
      modifies this, storage
      ensures Now() == KernelSpec.OnStart(old(Now()), policy)
      ensures !Now().panic ==> active == cpu
    {
      hide KernelSpec.DeliverInitialSleeps, KernelSpec.Begin;
      Assert(strat.Size() != 0);
      DeliverInitialSleeps();
      fsmState, switches := Switching, [];
      active := Begin();
    }

    method Begin() returns (active: Context)
      modifies this`strat, this`panicked, this`switches, this`cpu, this`taskNow, this`fsmState
      ensures Now() == KernelSpec.Begin(old(Now()), policy)
      ensures !Now().panic ==> active == cpu
    {
      hide NotePick, TouchesContext;
      var next, event := FetchNextEvent();
      active := if next.Some? then OnTask(next.value) else SleepTrap;
      if next.Some? {
        SwitchTo(Main, active);
        taskNow := next;
      } else if strat.Size() != 0 {
        SwitchTo(Main, active);
        taskNow, fsmState := Some(policy.first(strat.log)), Sleeping;
      } else {
        Assert(false);
      }
    }

    // ---- calls between ticks ---------------------------------------------------------------------

    /** `ScheduleSleep`. */
    method ScheduleSleep(i: nat, sleepFor: int)
      requires i < storage.Length
      modifies storage
      ensures Now() == SetSlot(old(Now()), i, old(Now()).slots[i].ScheduleSleep(sleepFor))
    {
      var t := storage[i];
      if !t.Asleep() {
        t := t.(sleepPending := true);
      }
      Store(i, t.(sleep := -sleepFor));
    }

    method OnTaskSleep(i: nat, sleepFor: int)
      requires i < storage.Length
      modifies storage
      ensures Now() == KernelSpec.OnTaskSleep(old(Now()), i, sleepFor)
    {
      if sleepFor > 0 {
        ScheduleSleep(i, sleepFor);
      }
    }

    method OnTaskSleepUntil(i: nat, timestamp: int) returns (result: bool)
      requires i < storage.Length
      modifies storage
      ensures Now() == KernelSpec.OnTaskSleepUntil(old(Now()), i, timestamp)
      ensures result <==> timestamp > ticks
    {
      var delta := timestamp - ticks;
      result := delta > 0;
      if result {
        ScheduleSleep(i, Min(delta, WAIT_INFINITE));
      }
    }

    method OnTaskWait(i: nat, o: nat, timeout: int)
      requires i < storage.Length && o < |waiters|
      modifies this, storage
      ensures Now() == KernelSpec.OnTaskWait(old(Now()), i, o, timeout)
    {
      Assert(!storage[i].Waiting() && timeout != 0);
      Store(i, storage[i].(waitOn := Some(o), waitLeft := timeout, timedOut := false));
      waiters := waiters[o := waiters[o] + [i]];
      waitLog := waitLog + [Armed(i)];
      if o !in syncList {
        syncList := syncList + [o];
      }
      ScheduleSleep(i, WAIT_INFINITE);
    }

    method ScheduleRemoval(i: nat)
      requires i < storage.Length
      modifies storage
      ensures Now() == KernelSpec.ScheduleRemoval(old(Now()), i)
    {
      ScheduleSleep(i, WAIT_INFINITE);
      Store(i, storage[i].(removePending := true));
    }

    method SuspendTask(i: nat) returns (suspended: bool)
      requires i < storage.Length
      modifies storage
      ensures Now() == KernelSpec.SuspendTask(old(Now()), i)
      ensures suspended <==> !old(storage[i]).Asleep()
    {
      suspended := !storage[i].Asleep();
      if suspended {
        ScheduleSleep(i, WAIT_INFINITE);
      }
    }

    method ResumeTask(i: nat)
      requires i < storage.Length
      modifies storage
      ensures Now() == KernelSpec.ResumeTask(old(Now()), i)
    {
      if storage[i].Asleep() {
        Store(i, storage[i].(sleep := -1));
      }
    }
  }
}
