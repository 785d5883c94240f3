/**
 The hard real-time accounting kept over every run: released on time, late exactly when reported.
 */
module HrtRuns {
  import opened KernelTypes
  import Invariant
  import opened Hrt

  // ---- one task ----

  lemma AwakeStep(t: Task, at: int)
    requires OnSchedule(t) && Awake(t, at - 1)
    ensures OnSchedule(StepTask(t, at)) && Awake(StepTask(t, at), at)
    ensures Overran(StepTask(t, at)) <==> Overran(t) || Late(t, StepTask(t, at))
  {
    var u := StepTask(t, at);
    assert u.durations == t.durations;
  }

  lemma YieldedStep(t: Task, at: int)
    requires OnSchedule(t) && Finishing(t, at - 1)
    ensures OnSchedule(StepTask(t, at)) && Leaving(StepTask(t, at), at)
    ensures Overran(StepTask(t, at)) <==> Overran(t)
  {
    var u := StepTask(t, at);
    assert u.durations == t.durations;
  }

  lemma RestingStep(t: Task, at: int)
    requires OnSchedule(t) && Resting(t, at - 1)
    ensures var u := StepTask(t, at);
      OnSchedule(u) && (if t.sleep == -1 then Awake(u, at) else Resting(u, at)) && (Overran(u) <==> Overran(t))
  {
    var u := StepTask(t, at);
    assert u.durations == t.durations;
    if t.sleep == -1 {
      assert u.releases == t.releases + [at];
      assert forall k :: 0 <= k < |t.releases| ==> u.releases[k] == t.releases[k];
    }
  }

  lemma LeavingOut(t: Task, at: int)
    requires OnSchedule(t) && Leaving(t, at)
    ensures var u := t.SwitchedOut();
      OnSchedule(u) && Resting(u, at) && (Overran(u) <==> Overran(t))
  {
    var u := t.SwitchedOut();
    var n := |t.durations|;
    assert u.durations == t.durations + [t.duration];
    assert forall k :: 0 <= k < n ==> u.durations[k] == t.durations[k];
    assert u.durations[n] == t.duration;
  }

  // ---- the loop over the tasks ----

  ghost predicate Before(s: HrtState, i: nat)
    requires i < |s.tasks|
  {
    var t := s.tasks[i];
    && OnSchedule(t) && InStep(s, i)
    && (Awake(t, s.ticks - 1) || Resting(t, s.ticks - 1) || (Finishing(t, s.ticks - 1) && RunningOne(s, i)))
  }

  ghost predicate After(s: HrtState, i: nat)
    requires i < |s.tasks|
  {
    var t := s.tasks[i];
    && OnSchedule(t) && InStep(s, i)
    && (Awake(t, s.ticks) || Resting(t, s.ticks) || (Leaving(t, s.ticks) && RunningOne(s, i)))
  }

  /** The selected task is the one that runs, or the one that has just finished. */
  predicate Selected(s: HrtState) {
    && (s.fsm == Switching || s.fsm == Waking || s.fsm == Sleeping)
    && s.now.Some? && s.now.value < |s.tasks|
    && (s.fsm != Sleeping ==> !s.tasks[s.now.value].Asleep() || s.tasks[s.now.value].done)
  }

  ghost predicate Mid(s: HrtState, i: nat)
    requires i <= |s.tasks|
  {
    && !s.panic && StrategyOk(s) && FaultAgrees(s) && Selected(s)
    && (forall k :: 0 <= k < i ==> After(s, k))
    && (forall k :: i <= k < |s.tasks| ==> Before(s, k))
  }

  lemma FaultStep(s: HrtState, i: nat, u: Task, r: HrtState, late: bool)
    requires i < |s.tasks| && FaultAgrees(s)
    requires r.tasks == s.tasks[i := u] && r.fault == (s.fault || late)
    requires Overran(u) <==> Overran(s.tasks[i]) || late
    ensures FaultAgrees(r)
  {
    hide Overran;
    if r.fault {
      if late || Overran(s.tasks[i]) {
        assert Overran(r.tasks[i]);
      } else {
        var k :| 0 <= k < |s.tasks| && Overran(s.tasks[k]);
        assert Overran(r.tasks[k]);
      }
    } else if k :| 0 <= k < |r.tasks| && Overran(r.tasks[k]) {
      assert Overran(s.tasks[k]);
    }
  }

  /** What one task's step does to the strategy. */
  lemma AdvanceStrategy(s: HrtState, i: nat)
    requires i < |s.tasks| && !s.panic && StrategyOk(s) && Before(s, i)
    ensures var r := AdvanceTask(s, i);
      && !r.panic && StrategyOk(r) && InStep(r, i)
      && forall k :: k != i ==> (k in r.strat.active <==> k in s.strat.active)
                                && (k in r.strat.asleep <==> k in s.strat.asleep)
  {
    hide OnSchedule, Replay, WellFormed;
    var t := s.tasks[i];
    if t.Asleep() && t.sleepPending {
      Invariant.GenuineStep(s.strat, Slept(i));
    } else if t.sleep == -1 {
      Invariant.GenuineStep(s.strat, Woke(i));
    }
  }

  lemma AdvanceOne(s: HrtState, i: nat)
    requires i < |s.tasks| && Before(s, i)
    requires InStep(AdvanceTask(s, i), i)
    ensures var t, u := s.tasks[i], StepTask(s.tasks[i], s.ticks);
      After(AdvanceTask(s, i), i) && (Overran(u) <==> Overran(t) || Late(t, u))
  {
    hide OnSchedule, Overran;
    var t := s.tasks[i];
    if Awake(t, s.ticks - 1) {
      AwakeStep(t, s.ticks);
    } else if Resting(t, s.ticks - 1) {
      RestingStep(t, s.ticks);
    } else {
      YieldedStep(t, s.ticks);
    }
  }

  lemma AdvanceKeeps(s: HrtState, i: nat)
    requires i < |s.tasks| && Mid(s, i)
    ensures Mid(AdvanceTask(s, i), i + 1)
  {
    hide OnSchedule, Overran, FaultAgrees, StrategyOk, Late;
    var r := AdvanceTask(s, i);
    assert Before(s, i);
    AdvanceStrategy(s, i);
    AdvanceOne(s, i);
    FaultStep(s, i, r.tasks[i], r, Late(s.tasks[i], r.tasks[i]));
    forall k | 0 <= k < |s.tasks| && k != i ensures if k < i then After(r, k) else Before(r, k) {
      assert r.tasks[k] == s.tasks[k];
      assert if k < i then After(s, k) else Before(s, k);
    }
  }

  lemma {:induction false} AdvanceAllKeeps(s: HrtState, i: nat)
    requires i <= |s.tasks| && Mid(s, i)
    ensures Mid(AdvanceTasks(s, i), |s.tasks|)
    decreases |s.tasks| - i
  {
    if i < |s.tasks| {
      AdvanceKeeps(s, i);
      AdvanceAllKeeps(AdvanceTask(s, i), i + 1);
    }
  }

  // ---- the context switch ----

  /** After a switch-out nobody is on the way out any more. */
  lemma LeaveKeeps(s: HrtState, i: nat, r: HrtState)
    requires i < |s.tasks| && Mid(s, |s.tasks|) && RunningOne(s, i) && s.tasks[i].done
    requires TouchesTasks(s, r.(now := s.now, fsm := s.fsm)) && r.tasks == LeaveTask(s, i).tasks
    requires r.fault == s.fault && r.panic == s.panic && StrategyOk(r)
    requires r.strat.active == s.strat.active && r.strat.asleep == s.strat.asleep
    ensures FaultAgrees(r) && forall k :: 0 <= k < |r.tasks| ==> TaskOk(r, k)
  {
    assert After(s, i);
    LeavingOut(s.tasks[i], s.ticks);
    FaultStep(s, i, r.tasks[i], r, false);
    hide OnSchedule, Overran, FaultAgrees;
    forall k | 0 <= k < |r.tasks| ensures TaskOk(r, k) {
      assert After(s, k);
    }
  }

  /** When nobody has just yielded, the tasks stay as they are. */
  lemma StayKeeps(s: HrtState, r: HrtState)
    requires Mid(s, |s.tasks|)
    requires TouchesTasks(s, r.(now := s.now, fsm := s.fsm)) && r.tasks == s.tasks
    requires r.fault == s.fault
    requires r.strat.active == s.strat.active && r.strat.asleep == s.strat.asleep
    requires forall k :: 0 <= k < |s.tasks| ==> !s.tasks[k].done
    ensures FaultAgrees(r) && forall k :: 0 <= k < |r.tasks| ==> TaskOk(r, k)
  {
    hide OnSchedule, Overran;
    forall k | 0 <= k < |r.tasks| ensures TaskOk(r, k) {
      assert After(s, k);
    }
  }

  lemma PickOk(s: HrtState, p: Policy)
    requires Mid(s, |s.tasks|) && Lawful(p) && s.strat.active != {}
    ensures var next := p.next(s.strat.log);
      && next in s.strat.active && next < |s.tasks| && !s.tasks[next].Asleep() && !s.tasks[next].done
      && Invariant.Genuine(s.strat.Apply(Picked(next)))
  {
    hide OnSchedule, FaultAgrees, Replay, WellFormed;
    var next := p.next(s.strat.log);
    assert Invariant.Genuine(s.strat);
    assert next in Replay(s.strat.log).active;
    assert After(s, next);
    Invariant.GenuineStep(s.strat, Picked(next));
  }

  /** Only the selected task can be on its way out, and then another one is picked. */
  lemma WhoLeaves(s: HrtState, p: Policy)
    requires Mid(s, |s.tasks|) && Lawful(p) && s.strat.active != {}
    ensures forall k :: 0 <= k < |s.tasks| && s.tasks[k].done ==>
              s.now == Some(k) && s.fsm != Sleeping && p.next(s.strat.log) != k
  {
    PickOk(s, p);
    hide OnSchedule, FaultAgrees, StrategyOk;
    forall k | 0 <= k < |s.tasks| && s.tasks[k].done
      ensures s.now == Some(k) && s.fsm != Sleeping && p.next(s.strat.log) != k
    {
      assert After(s, k);
    }
  }

  lemma PickKeeps(s: HrtState, p: Policy)
    requires Mid(s, |s.tasks|) && Lawful(p) && s.strat.active != {}
    ensures Inv(Dispatch(s, p))
  {
    hide OnSchedule, FaultAgrees, Replay, WellFormed, TaskOk, After, Before;
    PickOk(s, p);
    WhoLeaves(s, p);
    var now := s.now.value;
    var r := Dispatch(s, p);
    if s.tasks[now].done {
      LeaveKeeps(s, now, r);
    } else {
      StayKeeps(s, r);
    }
  }

  lemma SleepKeeps(s: HrtState, p: Policy)
    requires Mid(s, |s.tasks|) && Lawful(p) && s.strat.active == {}
    ensures Inv(Dispatch(s, p))
  {
    hide OnSchedule, FaultAgrees, TaskOk;
    var now := s.now.value;
    assert After(s, now);
    var r := Dispatch(s, p);
    if s.fsm == Sleeping {
      forall k | 0 <= k < |s.tasks| ensures !s.tasks[k].done {
        assert After(s, k);
      }
      StayKeeps(s, r);
    } else {
      assert now in s.strat.asleep;
      assert Invariant.Genuine(s.strat);
      assert Replay(s.strat.log).Manages(p.first(s.strat.log));
      LeaveKeeps(s, now, r);
    }
  }

  lemma TickBegins(s: HrtState)
    requires Inv(s)
    ensures Mid(s.(ticks := s.ticks + 1), 0)
  {
    hide OnSchedule, Overran, StrategyOk, FaultAgrees;
    var a := s.(ticks := s.ticks + 1);
    assert TaskOk(s, s.now.value);
    forall k | 0 <= k < |a.tasks| ensures Before(a, k) {
      assert TaskOk(s, k);
    }
    FaultStepNothing(s, a);
    StrategyStepNothing(s, a);
  }

  lemma TickKeeps(s: HrtState, p: Policy)
    requires Inv(s) && Lawful(p)
    ensures Inv(Tick(s, p))
  {
    hide OnSchedule, StrategyOk, FaultAgrees, AdvanceTasks, Dispatch, TaskOk, Before, After;
    TickBegins(s);
    var a := s.(ticks := s.ticks + 1);
    AdvanceAllKeeps(a, 0);
    var b := AdvanceTasks(a, 0);
    if b.strat.active != {} {
      PickKeeps(b, p);
    } else {
      SleepKeeps(b, p);
    }
  }

  lemma StrategyStepNothing(s: HrtState, r: HrtState)
    requires StrategyOk(s) && r.strat == s.strat && |r.tasks| == |s.tasks|
    ensures StrategyOk(r)
  {
  }

  lemma FaultStepNothing(s: HrtState, r: HrtState)
    requires FaultAgrees(s) && r.tasks == s.tasks && r.fault == s.fault
    ensures FaultAgrees(r)
  {
  }

  lemma FinishKeeps(s: HrtState, i: nat)
    requires Inv(s) && Running(s, i)
    ensures Inv(Finish(s, i))
  {
    var r := Finish(s, i);
    var t, u := s.tasks[i], r.tasks[i];
    assert TaskOk(s, i);
    assert u.durations == t.durations && u.releases == t.releases;
    assert OnSchedule(u) && (Overran(u) <==> Overran(t));
    hide OnSchedule, Overran, FaultAgrees;
    FaultStep(s, i, u, r, false);
    forall k | 0 <= k < |r.tasks| ensures TaskOk(r, k) {
      assert TaskOk(s, k);
    }
  }

  // ---- from the start ----

  /** A bound task before the scheduler runs. */
  ghost predicate Bound(t: Task) {
    && OnSchedule(t) && !t.done && t.duration == 0 && t.durations == []
    && (if t.Asleep() then t.releases == [] && -t.sleep == t.delay else t.sleep == 0 && t.releases == [0])
  }

  ghost predicate Loaded(s: HrtState, i: nat)
    requires i <= |s.tasks|
  {
    && !s.panic && !s.fault && s.ticks == 0 && StrategyOk(s)
    && forall k :: 0 <= k < |s.tasks| ==>
         Bound(s.tasks[k]) && InStep(s, k) && (s.tasks[k].sleepPending <==> i <= k && s.tasks[k].Asleep())
  }

  lemma NewTaskBound(p: Params)
    requires Sound(p)
    ensures var t := NewTask(p); Bound(t) && (t.sleepPending <==> t.Asleep())
  {
  }

  lemma AddTaskLoads(s: HrtState, p: Params)
    requires Loaded(s, 0) && Sound(p)
    ensures Loaded(s.Notify(Added(|s.tasks|)).(tasks := s.tasks + [NewTask(p)]), 0)
  {
    hide Bound, NewTask, Replay, WellFormed;
    var n := |s.tasks|;
    Invariant.GenuineStep(s.strat, Added(n));
    NewTaskBound(p);
    var r := s.Notify(Added(n)).(tasks := s.tasks + [NewTask(p)]);
    forall k | 0 <= k < n
      ensures Bound(r.tasks[k]) && InStep(r, k) && (r.tasks[k].sleepPending <==> r.tasks[k].Asleep())
    {
      assert r.tasks[k] == s.tasks[k] && InStep(s, k);
    }
  }

  lemma {:induction false} AddTasksLoads(s: HrtState, ps: seq<Params>)
    requires Loaded(s, 0) && forall k :: 0 <= k < |ps| ==> Sound(ps[k])
    ensures Loaded(AddTasks(s, ps), 0) && |AddTasks(s, ps).tasks| == |s.tasks| + |ps|
    decreases |ps|
  {
    hide Loaded, NewTask, Sound;
    if ps != [] {
      AddTaskLoads(s, ps[0]);
      AddTasksLoads(s.Notify(Added(|s.tasks|)).(tasks := s.tasks + [NewTask(ps[0])]), ps[1..]);
    }
  }

  lemma AddStep(s: HrtState, ps: seq<Params>, k: nat)
    requires k < |ps|
    ensures AddTasks(s, ps[k..]) ==
            AddTasks(s.Notify(Added(|s.tasks|)).(tasks := s.tasks + [NewTask(ps[k])]), ps[k + 1..])
  {
  }

  lemma AddNone(s: HrtState)
    ensures AddTasks(s, []) == s
  {
  }

  lemma StaysBound(t: Task)
    requires Bound(t)
    ensures Bound(t.(sleepPending := false))
  {
  }

  lemma {:induction false} DeliverLoads(s: HrtState, i: nat)
    requires i <= |s.tasks| && Loaded(s, i)
    ensures Loaded(DeliverSleeps(s, i), |s.tasks|)
    decreases |s.tasks| - i
  {
    hide OnSchedule;
    if i < |s.tasks| {
      var t := s.tasks[i];
      if t.Asleep() && t.sleepPending {
        Invariant.GenuineStep(s.strat, Slept(i));
        StaysBound(t);
        DeliverLoads(s.Notify(Slept(i)).(tasks := s.tasks[i := t.(sleepPending := false)]), i + 1);
      } else {
        DeliverLoads(s, i + 1);
      }
    }
  }

  lemma BeginInv(a: HrtState, p: Policy)
    requires Loaded(a, |a.tasks|) && a.tasks != [] && Lawful(p)
    ensures Inv(Begin(a, p))
  {
    hide OnSchedule, Replay, WellFormed;
    var r := Begin(a, p);
    assert Invariant.Genuine(a.strat) && InStep(a, 0);
    if a.strat.active != {} {
      var next := p.next(a.strat.log);
      assert next in Replay(a.strat.log).active;
      assert InStep(a, next) && Bound(a.tasks[next]);
      Invariant.GenuineStep(a.strat, Picked(next));
    } else {
      assert Replay(a.strat.log).Manages(p.first(a.strat.log));
    }
    forall k | 0 <= k < |r.tasks| ensures TaskOk(r, k) && !Overran(r.tasks[k]) {
      assert Bound(a.tasks[k]) && InStep(a, k);
      OnTimeYet(a.tasks[k]);
    }
  }

  lemma OnTimeYet(t: Task)
    requires Bound(t) && !t.sleepPending
    ensures !Overran(t) && (Awake(t, 0) || Resting(t, 0))
  {
  }

  lemma BootInv(ps: seq<Params>, p: Policy)
    requires ps != [] && Lawful(p) && forall k :: 0 <= k < |ps| ==> Sound(ps[k])
    ensures Inv(Boot(ps, p))
  {
    hide OnSchedule, AddTasks, DeliverSleeps, Begin, Inv;
    var start := HrtState([], EmptyStrategy, None, FsmNone, 0, false, false);
    AddTasksLoads(start, ps);
    var s := AddTasks(start, ps);
    assert InStep(s, 0);
    assert s.strat.Size() != 0;
    DeliverLoads(s, 0);
    BeginInv(DeliverSleeps(s, 0), p);
  }

  // ---- the parameters of a task never change ----

  predicate SameParams(t: Task, u: Task) {
    t.periodicity == u.periodicity && t.deadline == u.deadline && t.delay == u.delay
  }

  predicate Unaltered(s: HrtState, r: HrtState) {
    |s.tasks| == |r.tasks| && forall k :: 0 <= k < |s.tasks| ==> SameParams(s.tasks[k], r.tasks[k])
  }

  lemma {:induction false} AdvanceUnaltered(s: HrtState, i: nat)
    requires i <= |s.tasks|
    ensures Unaltered(s, AdvanceTasks(s, i))
    decreases |s.tasks| - i
  {
    if i < |s.tasks| {
      AdvanceUnaltered(AdvanceTask(s, i), i + 1);
    }
  }

  predicate Configured(s: HrtState, ps: seq<Params>) {
    && |s.tasks| == |ps|
    && forall k :: 0 <= k < |ps| ==>
         s.tasks[k].periodicity == ps[k].periodicity && s.tasks[k].deadline == ps[k].deadline
           && s.tasks[k].delay == ps[k].delay
  }

  lemma LeaveConfigured(s: HrtState, i: nat, ps: seq<Params>)
    requires Configured(s, ps) && i < |s.tasks|
    ensures Configured(LeaveTask(s, i), ps)
  {
  }

  lemma DispatchConfigured(s: HrtState, p: Policy, ps: seq<Params>)
    requires Configured(s, ps) && (s.now.Some? ==> s.now.value < |s.tasks|)
    ensures Configured(Dispatch(s, p), ps)
  {
    hide Configured;
    assert forall r: HrtState :: r.tasks == s.tasks ==> Configured(r, ps) by { ConfiguredByTasks(s, ps); }
    if s.now.Some? {
      LeaveConfigured(s, s.now.value, ps);
      assert forall r: HrtState :: r.tasks == LeaveTask(s, s.now.value).tasks ==> Configured(r, ps) by {
        ConfiguredByTasks(LeaveTask(s, s.now.value), ps);
      }
    }
  }

  lemma ConfiguredByTasks(s: HrtState, ps: seq<Params>)
    requires Configured(s, ps)
    ensures forall r: HrtState :: r.tasks == s.tasks ==> Configured(r, ps)
  {
  }

  lemma TickConfigured(s: HrtState, p: Policy, ps: seq<Params>)
    requires Configured(s, ps) && (s.now.Some? ==> s.now.value < |s.tasks|)
    ensures Configured(Tick(s, p), ps)
  {
    hide AdvanceTasks, Dispatch;
    var a := s.(ticks := s.ticks + 1);
    AdvanceUnaltered(a, 0);
    assert Configured(AdvanceTasks(a, 0), ps) by {
      forall k | 0 <= k < |ps| ensures SameParams(a.tasks[k], AdvanceTasks(a, 0).tasks[k]) {
      }
    }
    DispatchConfigured(AdvanceTasks(a, 0), p, ps);
  }

  lemma {:induction false} AddTasksConfigured(s: HrtState, done: seq<Params>, ps: seq<Params>)
    requires Configured(s, done)
    ensures Configured(AddTasks(s, ps), done + ps)
    decreases |ps|
  {
    if ps == [] {
      assert done + ps == done;
    } else {
      AddTasksConfigured(s.Notify(Added(|s.tasks|)).(tasks := s.tasks + [NewTask(ps[0])]), done + [ps[0]], ps[1..]);
      assert done + ps == done + [ps[0]] + ps[1..];
    }
  }

  lemma {:induction false} DeliverConfigured(s: HrtState, i: nat, ps: seq<Params>)
    requires i <= |s.tasks| && Configured(s, ps)
    ensures Configured(DeliverSleeps(s, i), ps)
    decreases |s.tasks| - i
  {
    if i < |s.tasks| {
      var t := s.tasks[i];
      DeliverConfigured(if t.Asleep() && t.sleepPending
                        then s.Notify(Slept(i)).(tasks := s.tasks[i := t.(sleepPending := false)]) else s, i + 1, ps);
    }
  }

  lemma BootConfigured(ps: seq<Params>, p: Policy)
    ensures Configured(Boot(ps, p), ps)
  {
    hide AddTasks, DeliverSleeps;
    var start := HrtState([], EmptyStrategy, None, FsmNone, 0, false, false);
    AddTasksConfigured(start, [], ps);
    assert [] + ps == ps;
    var s := AddTasks(start, ps);
    DeliverConfigured(s.Check(s.strat.Size() != 0), 0, ps);
  }

  // ---- runs ----

  ghost predicate Step(s: HrtState, r: HrtState, p: Policy) {
    || (s.now.Some? && s.now.value < |s.tasks| && r == Tick(s, p))
    || (exists i :: Running(s, i) && r == Finish(s, i))
  }

  /** Every schedule of ticks and finished jobs from a start with the tasks `ps`. */
  ghost predicate IsRun(states: seq<HrtState>, ps: seq<Params>, p: Policy) {
    && ps != [] && Lawful(p) && (forall k :: 0 <= k < |ps| ==> Sound(ps[k]))
    && states != [] && states[0] == Boot(ps, p)
    && forall k :: 0 < k < |states| ==> Step(states[k - 1], states[k], p)
  }

  lemma {:induction false} RunInv(states: seq<HrtState>, ps: seq<Params>, p: Policy, k: nat)
    requires IsRun(states, ps, p) && k < |states|
    ensures Inv(states[k]) && Configured(states[k], ps)
  {
    hide Inv, Configured, Tick, Finish;
    if k == 0 {
      BootInv(ps, p);
      BootConfigured(ps, p);
    } else {
      RunInv(states, ps, p, k - 1);
      var s, r := states[k - 1], states[k];
      assert Step(s, r, p);
      if s.now.Some? && s.now.value < |s.tasks| && r == Tick(s, p) {
        TickKeeps(s, p);
        TickConfigured(s, p, ps);
      } else {
        var i :| Running(s, i) && r == Finish(s, i);
        FinishKeeps(s, i);
        FinishConfigured(s, i, ps);
      }
    }
  }

  lemma FinishConfigured(s: HrtState, i: nat, ps: seq<Params>)
    requires Configured(s, ps) && i < |s.tasks|
    ensures Configured(Finish(s, i), ps)
  {
  }

  /**
   A job that takes fewer ticks than the period never shifts the next release: from release to
   release it is `periodicity + 1` ticks whatever it took, and a longer job delays it to two
   ticks after its end. The first release comes after the start delay.
   */
  lemma ReleasesKeepPace(states: seq<HrtState>, ps: seq<Params>, p: Policy, n: nat, i: nat)
    requires IsRun(states, ps, p) && n < |states| && i < |ps|
    ensures !states[n].panic && i < |states[n].tasks|
    ensures var t := states[n].tasks[i];
      && |t.durations| <= |t.releases| <= |t.durations| + 1
      && (t.releases != [] ==> t.releases[0] == ps[i].delay)
      && forall k :: 0 < k < |t.releases| ==>
           t.releases[k] - t.releases[k - 1] ==
           if t.durations[k - 1] < ps[i].periodicity then ps[i].periodicity + 1 else t.durations[k - 1] + 2
  {
    hide AddTasks, Boot, Step;
    RunInv(states, ps, p, n);
    assert TaskOk(states[n], i);
  }

  /** No release follows the one before by the periodicity: the distance is always longer. */
  lemma NeverOnPeriod(states: seq<HrtState>, ps: seq<Params>, p: Policy, n: nat, i: nat)
    requires IsRun(states, ps, p) && n < |states| && i < |ps|
    ensures i < |states[n].tasks|
    ensures forall k :: 0 < k < |states[n].tasks[i].releases| ==>
              states[n].tasks[i].releases[k] - states[n].tasks[i].releases[k - 1] > ps[i].periodicity
  {
    hide IsRun;
    ReleasesKeepPace(states, ps, p, n, i);
  }

  /**
   An awake task has counted exactly the ticks since its release, and the fault is raised
   exactly when some job has been awake for longer than its deadline.
   */
  lemma DeadlinesAreWatched(states: seq<HrtState>, ps: seq<Params>, p: Policy, n: nat)
    requires IsRun(states, ps, p) && n < |states|
    ensures var s := states[n];
      && (s.fault <==> exists i :: 0 <= i < |s.tasks| && Overran(s.tasks[i]))
      && forall i :: 0 <= i < |s.tasks| && !s.tasks[i].Asleep() ==>
           && s.tasks[i].releases != []
           && s.tasks[i].duration == s.ticks - Last(s.tasks[i].releases)
           && (!s.fault ==> s.tasks[i].duration <= s.tasks[i].deadline)
  {
    hide AddTasks, Boot, Step;
    RunInv(states, ps, p, n);
    var s := states[n];
    forall i | 0 <= i < |s.tasks| && !s.tasks[i].Asleep()
      ensures Counting(s.tasks[i], s.ticks) && (!s.fault ==> !Overran(s.tasks[i]))
    {
      assert TaskOk(s, i);
    }
  }
}
