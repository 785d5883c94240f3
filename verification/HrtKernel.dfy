/**
 The kernel object in hard real-time mode: the same methods with their HRT branches, proved to do
 what the functions of `Hrt` say.
 */
module HrtKernelObject {
  import opened KernelTypes
  import KernelSpec
  import Hrt
  import HrtRuns

  class HrtKernel {
    const storage: array<Hrt.Task>
    const policy: Policy
    var strat: Strategy
    var taskNow: Option<nat>
    var fsmState: FsmState
    var ticks: int
    var hardFault: bool
    var panicked: bool

    ghost function Now(): Hrt.HrtState
      reads this, storage
    {
      Hrt.HrtState(storage[..], strat, taskNow, fsmState, ticks, hardFault, panicked)
    }

    /** The selected task is one of the slots. */
    predicate Valid()
      reads this
    {
      taskNow.Some? ==> taskNow.value < storage.Length
    }

    /** A kernel with all its tasks added, in order. */
    constructor (tasks: seq<Hrt.Params>, policy: Policy)
      ensures fresh(storage) && this.policy == policy
      ensures Now() == Hrt.AddTasks(Hrt.HrtState([], EmptyStrategy, None, FsmNone, 0, false, false), tasks)
    {
      hide Hrt.NewTask, Hrt.AddTasks;
      storage := new Hrt.Task[|tasks|](i requires 0 <= i < |tasks| => Hrt.NewTask(tasks[i]));
      this.policy := policy;
      strat, taskNow, fsmState, ticks, hardFault, panicked := EmptyStrategy, None, FsmNone, 0, false, false;
      new;
      ghost var start := Hrt.HrtState([], EmptyStrategy, None, FsmNone, 0, false, false);
      var k := 0;
      assert tasks[0..] == tasks && storage[..0] == [];
      while k < storage.Length
        invariant k <= storage.Length == |tasks|
        invariant forall j :: 0 <= j < |tasks| ==> storage[j] == Hrt.NewTask(tasks[j])
        invariant Hrt.AddTasks(Now().(tasks := storage[..k]), tasks[k..]) == Hrt.AddTasks(start, tasks)
      {
        HrtRuns.AddStep(Now().(tasks := storage[..k]), tasks, k);
        assert storage[..k + 1] == storage[..k] + [Hrt.NewTask(tasks[k])];
        Notify(Added(k));
        k := k + 1;
      }
      assert tasks[k..] == [] && storage[..k] == storage[..];
      HrtRuns.AddNone(Now());
    }

    method Assert(ok: bool)
      modifies this`panicked
      ensures Now() == old(Now()).Check(ok)
    {
      if !ok { panicked := true; }
    }

    method Notify(e: Event)
      modifies this`strat, this`panicked
      ensures Now() == old(Now()).Notify(e)
    {
      if !strat.Accepts(e) { panicked := true; }
      strat := strat.Apply(e);
    }

    method Store(i: nat, t: Hrt.Task)
      requires i < storage.Length
      modifies storage
      ensures Now() == old(Now()).(tasks := old(Now()).tasks[i := t])
    {
      storage[i] := t;
    }

    /** `OnTaskSwitch`: the running task has done its work. */
    method OnTaskSwitch(i: nat)
      requires i < storage.Length
      modifies storage
      ensures Now() == Hrt.Finish(old(Now()), i)
    {
      Store(i, storage[i].(done := true));
      Store(i, storage[i].ScheduleSleep(YIELD_TICKS));
    }

    method HrtOnSwitchedOut(i: nat)
      requires i < storage.Length
      modifies storage
      ensures Now() == Hrt.LeaveTask(old(Now()), i)
    {
      var spent := storage[i].duration;
      var rest := storage[i].periodicity - spent;
      if rest > 0 {
        Store(i, storage[i].ScheduleSleep(rest));
      }
      Store(i, storage[i].(duration := 0, done := false, durations := storage[i].durations + [spent]));
    }

    method UpdateOneTask(i: nat)
      requires i < storage.Length
      modifies this`strat, this`panicked, this`hardFault, storage
      ensures Now() == Hrt.AdvanceTask(old(Now()), i)
    {
      var t := storage[i];
      if t.Asleep() {
        if t.sleepPending {
          Notify(Slept(i));
        }
        Store(i, t.(sleepPending := false, sleep := t.sleep + 1));
        if !storage[i].Asleep() {
          Notify(Woke(i));
          Store(i, storage[i].(releases := t.releases + [ticks]));
        }
      } else {
        Store(i, t.(duration := t.duration + 1));
        if storage[i].duration > storage[i].deadline {
          hardFault := true;
        }
      }
    }

    method UpdateTaskState()
      modifies this`strat, this`panicked, this`hardFault, storage
      ensures Now() == Hrt.AdvanceTasks(old(Now()), 0)
    {
      ghost var s := Now();
      var i := 0;
      while i < storage.Length
        invariant i <= storage.Length && Hrt.AdvanceTasks(Now(), i) == Hrt.AdvanceTasks(s, 0)
      {
        UpdateOneTask(i);
        i := i + 1;
      }
    }

    method StateSwitch(next: nat)
      requires Valid()
      modifies this`taskNow, this`fsmState, this`panicked, storage
      ensures Now() == Hrt.SwitchTo(old(Now()), next)
    {
      Assert(taskNow.Some?);
      fsmState := Switching;
      var now := taskNow;
      if now != Some(next) {
        taskNow := Some(next);
        if now.Some? && storage[now.value].done {
          HrtOnSwitchedOut(now.value);
        }
      }
    }

    method StateSleep()
      requires Valid()
      modifies this`taskNow, this`fsmState, this`panicked, storage
      ensures Now() == Hrt.FallAsleep(old(Now()), policy)
    {
      Assert(taskNow.Some?);
      var now := taskNow;
      taskNow, fsmState := Some(policy.first(strat.log)), Sleeping;
      if now.Some? {
        HrtOnSwitchedOut(now.value);
      }
    }

    method DeliverInitialSleeps()
      modifies this`strat, this`panicked, storage
      ensures Now() == Hrt.DeliverSleeps(old(Now()), 0)
    {
      ghost var s := Now();
      var i := 0;
      while i < storage.Length
        invariant i <= storage.Length && Hrt.DeliverSleeps(Now(), i) == Hrt.DeliverSleeps(s, 0)
      {
        if storage[i].Asleep() && storage[i].sleepPending {
          Notify(Slept(i));
          Store(i, storage[i].(sleepPending := false));
        }
        i := i + 1;
      }
    }

    method OnStart()
      modifies this`strat, this`panicked, this`taskNow, this`fsmState, storage
      ensures Now() == Hrt.OnStart(old(Now()), policy)
    {
      Assert(strat.Size() != 0);
      DeliverInitialSleeps();
      fsmState := Switching;
      if strat.active != {} {
        var next := policy.next(strat.log);
        Notify(Picked(next));
        Assert(next < storage.Length && !storage[next].Asleep());
        taskNow := Some(next);
      } else {
        Assert(strat.Size() != 0);
        taskNow, fsmState := Some(policy.first(strat.log)), Sleeping;
      }
    }

    /** `UpdateFsmState`, after the tasks have been stepped. */
    method UpdateFsmState()
      requires HrtRuns.Mid(Now(), storage.Length) && Lawful(policy)
      modifies this`panicked, this`strat, this`taskNow, this`fsmState, storage
      ensures Now() == Hrt.Dispatch(old(Now()), policy)
    {
      hide Replay, WellFormed, Hrt.OnSchedule, Hrt.FaultAgrees, HrtRuns.Before;
      if strat.active != {} {
        HrtRuns.PickOk(Now(), policy);
        hide HrtRuns.After;
        var next := policy.next(strat.log);
        var event := if fsmState == Sleeping then EvWake else EvSwitch;
        Notify(Picked(next));
        Assert(!storage[next].Asleep());
        match KernelSpec.Transition(fsmState, event) {
          case Switching => StateSwitch(next);
          case Waking => taskNow, fsmState := Some(next), Waking;
          case _ =>
        }
      } else if KernelSpec.Transition(fsmState, EvSleep) == Sleeping {
        StateSleep();
      }
    }

    /** A tick keeps the accounting invariant, whatever the lawful strategy answers. */
    method OnTick()
      requires Hrt.Inv(Now()) && Lawful(policy)
      modifies this`strat, this`ticks, this`hardFault, this`panicked, this`taskNow, this`fsmState, storage
      ensures Now() == Hrt.Tick(old(Now()), policy) && Hrt.Inv(Now())
    {
      hide Hrt.Dispatch, Hrt.AdvanceTasks, Hrt.StrategyOk, Hrt.FaultAgrees, Hrt.TaskOk, HrtRuns.Mid;
      HrtRuns.TickKeeps(Now(), policy);
      HrtRuns.TickBegins(Now());
      ticks := ticks + 1;
      HrtRuns.AdvanceAllKeeps(Now(), 0);
      UpdateTaskState();
      UpdateFsmState();
    }
  }
}
