/**
 Who gets the CPU in hard real-time mode: the task the strategy picks, whether or not the current
 one has finished its job.
 */
module HrtDispatch {
  import opened KernelTypes
  import opened Dispatching
  import opened Hrt
  import HrtRuns
  import Invariant

  predicate SomeReleased(tasks: seq<Task>) {
    exists i :: 0 <= i < |tasks| && !tasks[i].Asleep()
  }

  /** `r` is what has to come of a kernel that was in `f` with the current task `now`, when the
      strategy has seen `log` and is asked for the next task. */
  predicate HrtDispatched(f: FsmState, now: Option<nat>, log: seq<Event>, r: HrtState, p: Policy) {
    if SomeReleased(r.tasks) then
      var next := p.next(log);
      && next < |r.tasks| && !r.tasks[next].Asleep() && r.strat.log == log + [Picked(next)]
      && r.now == Some(next) && r.fsm == (if f == Sleeping then Waking else Switching)
    else
      r.strat.log == log && r.fsm == Sleeping && r.now == (if f == Sleeping then now else Some(p.first(log)))
  }

  lemma StepPicksNone(s: HrtState, i: nat)
    requires i < |s.tasks|
    ensures NonePicked(s.strat.log, AdvanceTask(s, i).strat.log)
  {
  }

  lemma {:induction false} AdvancePicksNone(s: HrtState, i: nat)
    requires i <= |s.tasks|
    ensures NonePicked(s.strat.log, AdvanceTasks(s, i).strat.log)
    decreases |s.tasks| - i
  {
    hide AdvanceTask;
    if i < |s.tasks| {
      hide NonePicked;
      var a := AdvanceTask(s, i);
      StepPicksNone(s, i);
      AdvancePicksNone(a, i + 1);
      NonePickedTwice(s.strat.log, a.strat.log, AdvanceTasks(a, i + 1).strat.log);
    }
  }

  /** After the pass the runnable tasks are those that are awake. */
  lemma ActiveIsReleased(c: HrtState)
    requires HrtRuns.Mid(c, |c.tasks|)
    ensures c.strat.active != {} <==> SomeReleased(c.tasks)
  {
    hide OnSchedule, FaultAgrees, Replay, WellFormed;
    if c.strat.active != {} {
      var i :| i in c.strat.active;
      assert HrtRuns.After(c, i);
      assert !c.tasks[i].Asleep();
    }
    if i :| 0 <= i < |c.tasks| && !c.tasks[i].Asleep() {
      assert HrtRuns.After(c, i);
    }
  }

  /** Whom a dispatch sends to rest is asleep already. */
  lemma SameSleepers(c: HrtState, p: Policy)
    requires HrtRuns.Mid(c, |c.tasks|)
    ensures var r := Dispatch(c, p);
      forall i :: 0 <= i < |c.tasks| ==> r.tasks[i].Asleep() == c.tasks[i].Asleep()
  {
    hide OnSchedule, FaultAgrees, StrategyOk, Replay, WellFormed;
    if c.strat.active == {} {
      assert HrtRuns.After(c, c.now.value);
    }
    forall i | 0 <= i < |c.tasks| && c.tasks[i].done ensures c.tasks[i].Asleep() {
      assert HrtRuns.After(c, i);
    }
  }

  lemma SameReleased(a: seq<Task>, b: seq<Task>)
    requires |a| == |b| && forall i :: 0 <= i < |a| ==> a[i].Asleep() == b[i].Asleep()
    ensures SomeReleased(a) <==> SomeReleased(b)
  {
    if i :| 0 <= i < |a| && !a[i].Asleep() { assert !b[i].Asleep(); }
    if i :| 0 <= i < |b| && !b[i].Asleep() { assert !a[i].Asleep(); }
  }

  /** What a dispatch makes of the context and the history, whoever is current. */
  lemma DispatchContext(c: HrtState, p: Policy)
    requires c.now.Some? && c.now.value < |c.tasks| && c.fsm in {Switching, Sleeping, Waking}
    ensures var r, next := Dispatch(c, p), p.next(c.strat.log);
      if c.strat.active != {} then
        && r.strat.log == c.strat.log + [Picked(next)] && r.now == Some(next)
        && r.fsm == (if c.fsm == Sleeping then Waking else Switching)
      else
        && r.strat.log == c.strat.log && r.fsm == Sleeping
        && r.now == (if c.fsm == Sleeping then c.now else Some(p.first(c.strat.log)))
  {
    hide Task.SwitchedOut;
  }

  lemma PassDispatches(c: HrtState, p: Policy)
    requires HrtRuns.Mid(c, |c.tasks|) && Lawful(p)
    ensures HrtDispatched(c.fsm, c.now, c.strat.log, Dispatch(c, p), p)
  {
    ActiveIsReleased(c);
    SameSleepers(c, p);
    if c.strat.active != {} { HrtRuns.PickOk(c, p); }
    hide SomeReleased, Dispatch, Lawful, OnSchedule, FaultAgrees, StrategyOk, HrtRuns.After, HrtRuns.Before;
    SameReleased(c.tasks, Dispatch(c, p).tasks);
    DispatchContext(c, p);
  }

  /** The history a tick asks the strategy with. */
  function Reported(s: HrtState): seq<Event> {
    AdvanceTasks(s.(ticks := s.ticks + 1), 0).strat.log
  }

  /**
   The dispatch of a tick: when a job is released after it, the strategy was asked once, after all
   reports of the tick, and the task it named is current, even when the job of another one goes on.
   */
  lemma TickDispatches(s: HrtState, p: Policy)
    requires Inv(s) && Lawful(p)
    ensures HrtDispatched(s.fsm, s.now, Reported(s), Tick(s, p), p) && NonePicked(s.strat.log, Reported(s))
  {
    hide Inv, AdvanceTasks, Dispatch, HrtRuns.Mid, HrtDispatched, Lawful;
    var a := s.(ticks := s.ticks + 1);
    HrtRuns.TickBegins(s);
    HrtRuns.AdvanceAllKeeps(a, 0);
    AdvancePicksNone(a, 0);
    PassDispatches(AdvanceTasks(a, 0), p);
    TickIs(s, p);
  }

  lemma TickIs(s: HrtState, p: Policy)
    requires Inv(s)
    ensures s.now.Some? && s.now.value < |s.tasks|
    ensures var c := AdvanceTasks(s.(ticks := s.ticks + 1), 0);
      Tick(s, p) == Dispatch(c, p) && c.fsm == s.fsm && c.now == s.now
  {
    hide Dispatch, AdvanceTasks;
  }

  // ---- the start -----------------------------------------------------------------------------------

  /** The kernel when the start asks the strategy. */
  function Loaded(ps: seq<Params>): HrtState {
    var s := AddTasks(HrtState([], EmptyStrategy, None, FsmNone, 0, false, false), ps);
    DeliverSleeps(s.Check(s.strat.Size() != 0), 0)
  }

  lemma BeginDispatches(a: HrtState, p: Policy)
    requires HrtRuns.Loaded(a, |a.tasks|) && Lawful(p)
    ensures HrtDispatched(Switching, None, a.strat.log, Begin(a, p), p)
  {
    hide OnSchedule, Replay, WellFormed;
    assert forall i :: 0 <= i < |a.tasks| ==> InStep(a, i);
    if a.strat.active != {} {
      var next := p.next(a.strat.log);
      assert Invariant.Genuine(a.strat);
      assert next in Replay(a.strat.log).active;
      assert InStep(a, next) && !a.tasks[next].Asleep();
    }
  }

  /** The first current task is the one the strategy picks, if any task has no start delay. */
  lemma BootDispatches(ps: seq<Params>, p: Policy)
    requires ps != [] && Lawful(p) && forall k :: 0 <= k < |ps| ==> Sound(ps[k])
    ensures HrtDispatched(Switching, None, Loaded(ps).strat.log, Boot(ps, p), p)
  {
    hide HrtDispatched, AddTasks, DeliverSleeps, Begin, Lawful;
    var start := HrtState([], EmptyStrategy, None, FsmNone, 0, false, false);
    HrtRuns.AddTasksLoads(start, ps);
    var s := AddTasks(start, ps);
    assert InStep(s, 0);
    assert s.strat.Size() != 0;
    HrtRuns.DeliverLoads(s, 0);
    BeginDispatches(DeliverSleeps(s, 0), p);
  }

  // ---- over runs -----------------------------------------------------------------------------------

  /** Every pick was the strategy's answer, and a kernel that does not sleep runs the last task picked. */
  ghost predicate Follows(s: HrtState, p: Policy) {
    PicksFollow(s.strat.log, p) && (s.fsm != Sleeping ==> s.now.Some? && LastPick(s.strat.log) == s.now)
  }

  lemma TickFollows(s: HrtState, p: Policy)
    requires Inv(s) && Lawful(p) && Follows(s, p)
    ensures s.now.Some? && s.now.value < |s.tasks| && Follows(Tick(s, p), p)
  {
    hide Inv, Lawful, Tick, Reported, PicksFollow, NonePicked, SomeReleased;
    TickIs(s, p);
    TickDispatches(s, p);
    NonePickedKeeps(s.strat.log, Reported(s), p);
    PickFollows(Reported(s), p);
  }

  lemma {:induction false} AddPicksNone(s: HrtState, ps: seq<Params>)
    ensures NonePicked(s.strat.log, AddTasks(s, ps).strat.log) && AddTasks(s, ps).fsm == s.fsm
    decreases |ps|
  {
    if ps != [] {
      var a := s.Notify(Added(|s.tasks|)).(tasks := s.tasks + [NewTask(ps[0])]);
      assert NonePicked(s.strat.log, a.strat.log);
      AddPicksNone(a, ps[1..]);
      hide NonePicked;
      NonePickedTwice(s.strat.log, a.strat.log, AddTasks(a, ps[1..]).strat.log);
    }
  }

  lemma {:induction false} DeliverPicksNone(s: HrtState, i: nat)
    requires i <= |s.tasks|
    ensures NonePicked(s.strat.log, DeliverSleeps(s, i).strat.log)
    decreases |s.tasks| - i
  {
    if i < |s.tasks| {
      var t := s.tasks[i];
      var a := if t.Asleep() && t.sleepPending
        then s.Notify(Slept(i)).(tasks := s.tasks[i := t.(sleepPending := false)]) else s;
      assert NonePicked(s.strat.log, a.strat.log);
      DeliverPicksNone(a, i + 1);
      hide NonePicked;
      NonePickedTwice(s.strat.log, a.strat.log, DeliverSleeps(a, i + 1).strat.log);
    }
  }

  lemma BeginFollows(a: HrtState, p: Policy)
    requires PicksFollow(a.strat.log, p)
    ensures Follows(Begin(a, p), p)
  {
    hide PicksFollow;
    PickFollows(a.strat.log, p);
  }

  lemma BootFollows(ps: seq<Params>, p: Policy)
    ensures Follows(Boot(ps, p), p)
  {
    hide AddTasks, DeliverSleeps, Begin, Follows;
    var start := HrtState([], EmptyStrategy, None, FsmNone, 0, false, false);
    var s := AddTasks(start, ps);
    var d := s.Check(s.strat.Size() != 0);
    AddPicksNone(start, ps);
    DeliverPicksNone(d, 0);
    NonePickedKeeps([], s.strat.log, p);
    NonePickedKeeps(s.strat.log, DeliverSleeps(d, 0).strat.log, p);
    BeginFollows(DeliverSleeps(d, 0), p);
  }

  /** Over every schedule the current task of a kernel that does not sleep is the one picked last. */
  lemma {:induction false} RunFollows(states: seq<HrtState>, ps: seq<Params>, p: Policy, k: nat)
    requires HrtRuns.IsRun(states, ps, p) && k < |states|
    ensures Follows(states[k], p)
  {
    hide Inv, Tick, Finish, Boot, HrtRuns.Configured, PicksFollow;
    if k == 0 {
      BootFollows(ps, p);
    } else {
      RunFollows(states, ps, p, k - 1);
      HrtRuns.RunInv(states, ps, p, k - 1);
      var s, r := states[k - 1], states[k];
      assert HrtRuns.Step(s, r, p);
      TickFollows(s, p);
      if !(s.now.Some? && s.now.value < |s.tasks| && r == Tick(s, p)) {
        var i :| Running(s, i) && r == Finish(s, i);
        FinishFollows(s, i, p);
      }
    }
  }

  lemma FinishFollows(s: HrtState, i: nat, p: Policy)
    requires Follows(s, p) && i < |s.tasks|
    ensures Follows(Finish(s, i), p)
  {
  }
}
