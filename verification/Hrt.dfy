/**
 Hard real-time accounting (KERNEL_HRT without KERNEL_SYNC, static tasks, one tick at a time):
 how long a job may run, and when the next one is released.
 */
module Hrt {
  import opened KernelTypes
  import KernelSpec
  import Invariant

  /** A task slot with its `m_hrt` record; `releases` and `durations` observe the run. */
  datatype Task = Task(
    periodicity: int,
    deadline: int,
    delay: int,
    sleepPending: bool,
    sleep: int,
    duration: int,
    done: bool,
    releases: seq<int>,
    durations: seq<int>)
  {
    predicate Asleep() { sleep < 0 }

    function ScheduleSleep(ticks: int): Task {
      this.(sleepPending := sleepPending || !Asleep(), sleep := -ticks)
    }

    /** `HrtOnSwitchedOut` */
    function SwitchedOut(): Task {
      var rest := periodicity - duration;
      (if rest > 0 then ScheduleSleep(rest) else this)
        .(duration := 0, done := false, durations := durations + [duration])
    }

    /** The yield of a task that has done its work. */
    function Finished(): Task {
      this.(done := true).ScheduleSleep(YIELD_TICKS)
    }
  }

  datatype HrtState = HrtState(
    tasks: seq<Task>,
    strat: Strategy,
    now: Option<nat>,
    fsm: FsmState,
    ticks: int,
    fault: bool,
    panic: bool)
  {
    function Check(ok: bool): HrtState { this.(panic := panic || !ok) }

    function Notify(e: Event): HrtState {
      this.(strat := strat.Apply(e), panic := panic || !strat.Accepts(e))
    }
  }

  // ---- start ----

  datatype Params = Params(periodicity: int, deadline: int, delay: int)

  predicate Sound(p: Params) {
    0 < p.periodicity < WAIT_INFINITE && 0 < p.deadline < WAIT_INFINITE && p.delay >= 0
  }

  /** A bound slot after `HrtInit`. */
  function NewTask(p: Params): Task {
    Task(p.periodicity, p.deadline, p.delay, p.delay > 0, -p.delay, 0, false, if p.delay > 0 then [] else [0], [])
  }

  function AddTasks(s: HrtState, ps: seq<Params>): HrtState
    decreases |ps|
  {
    if ps == [] then s
    else AddTasks(s.Notify(Added(|s.tasks|)).(tasks := s.tasks + [NewTask(ps[0])]), ps[1..])
  }

  function DeliverSleeps(s: HrtState, i: nat): (r: HrtState)
    requires i <= |s.tasks|
    ensures |r.tasks| == |s.tasks|
    decreases |s.tasks| - i
  {
    if i == |s.tasks| then s
    else
      var t := s.tasks[i];
      DeliverSleeps(if t.Asleep() && t.sleepPending
                    then s.Notify(Slept(i)).(tasks := s.tasks[i := t.(sleepPending := false)]) else s, i + 1)
  }

  function Begin(a: HrtState, p: Policy): HrtState {
    if a.strat.active != {} then
      var next := p.next(a.strat.log);
      a.Notify(Picked(next)).Check(next < |a.tasks| && !a.tasks[next].Asleep()).(now := Some(next), fsm := Switching)
    else a.Check(a.strat.Size() != 0).(now := Some(p.first(a.strat.log)), fsm := Sleeping)
  }

  function OnStart(s: HrtState, p: Policy): HrtState {
    Begin(DeliverSleeps(s.Check(s.strat.Size() != 0), 0), p)
  }

  function Boot(ps: seq<Params>, p: Policy): HrtState {
    OnStart(AddTasks(HrtState([], EmptyStrategy, None, FsmNone, 0, false, false), ps), p)
  }

  // ---- the tick ----

  /** One tick of one task: a sleeper counts up, a job counts its time. */
  function StepTask(t: Task, at: int): Task {
    if t.Asleep() then
      var u := t.(sleepPending := false, sleep := t.sleep + 1);
      if u.Asleep() then u else u.(releases := u.releases + [at])
    else t.(duration := t.duration + 1)
  }

  predicate Late(t: Task, u: Task) {
    !t.Asleep() && u.duration > u.deadline
  }

  predicate TouchesTasks(s: HrtState, r: HrtState) {
    |r.tasks| == |s.tasks| && r == s.(tasks := r.tasks, strat := r.strat, fault := r.fault, panic := r.panic)
  }

  function AdvanceTask(s: HrtState, i: nat): (r: HrtState)
    requires i < |s.tasks|
    ensures TouchesTasks(s, r)
  {
    var t := s.tasks[i];
    var u := StepTask(t, s.ticks);
    var a := if t.Asleep() && t.sleepPending then s.Notify(Slept(i)) else s;
    var b := if t.Asleep() && !u.Asleep() then a.Notify(Woke(i)) else a;
    b.(tasks := s.tasks[i := u], fault := s.fault || Late(t, u))
  }

  function AdvanceTasks(s: HrtState, i: nat): (r: HrtState)
    requires i <= |s.tasks|
    ensures TouchesTasks(s, r)
    decreases |s.tasks| - i
  {
    if i == |s.tasks| then s else AdvanceTasks(AdvanceTask(s, i), i + 1)
  }

  function LeaveTask(s: HrtState, i: nat): (r: HrtState)
    requires i < |s.tasks|
    ensures |r.tasks| == |s.tasks|
  {
    s.(tasks := s.tasks[i := s.tasks[i].SwitchedOut()])
  }

  function SwitchTo(s: HrtState, next: nat): (r: HrtState)
    requires s.now.Some? ==> s.now.value < |s.tasks|
    ensures |r.tasks| == |s.tasks|
  {
    var a := s.Check(s.now.Some?).(now := Some(next), fsm := Switching);
    if s.now.Some? && s.now.value != next && s.tasks[s.now.value].done then LeaveTask(a, s.now.value) else a
  }

  function FallAsleep(s: HrtState, p: Policy): (r: HrtState)
    requires s.now.Some? ==> s.now.value < |s.tasks|
    ensures |r.tasks| == |s.tasks|
  {
    var a := s.Check(s.now.Some?).(now := Some(p.first(s.strat.log)), fsm := Sleeping);
    if s.now.Some? then LeaveTask(a, s.now.value) else a
  }

  function Dispatch(s: HrtState, p: Policy): (r: HrtState)
    requires s.now.Some? ==> s.now.value < |s.tasks|
    ensures |r.tasks| == |s.tasks|
  {
    if s.strat.active != {} then
      var next := p.next(s.strat.log);
      var a := s.Notify(Picked(next)).Check(next < |s.tasks| && !s.tasks[next].Asleep());
      match KernelSpec.Transition(s.fsm, if s.fsm == Sleeping then EvWake else EvSwitch)
      case Switching => SwitchTo(a, next)
      case Waking => a.(now := Some(next), fsm := Waking)
      case _ => a
    else
      match KernelSpec.Transition(s.fsm, EvSleep)
      case Sleeping => FallAsleep(s, p)
      case _ => s
  }

  function Tick(s: HrtState, p: Policy): HrtState
    requires s.now.Some? ==> s.now.value < |s.tasks|
  {
    Dispatch(AdvanceTasks(s.(ticks := s.ticks + 1), 0), p)
  }

  predicate Running(s: HrtState, i: nat) {
    s.now == Some(i) && (s.fsm == Switching || s.fsm == Waking) && i < |s.tasks| && !s.tasks[i].Asleep()
  }

  function Finish(s: HrtState, i: nat): HrtState
    requires i < |s.tasks|
  {
    s.(tasks := s.tasks[i := s.tasks[i].Finished()])
  }

  // ---- where a task stands ----

  function Last(xs: seq<int>): int
    requires xs != []
  {
    xs[|xs| - 1]
  }

  /** From a release to the next one, for a job that took `d` ticks. */
  function Interval(t: Task, d: int): int {
    if d < t.periodicity then t.periodicity + 1 else d + 2
  }

  function NextRelease(t: Task): int
    requires |t.releases| == |t.durations|
  {
    if t.releases == [] then t.delay else Last(t.releases) + Interval(t, Last(t.durations))
  }

  ghost predicate OnSchedule(t: Task) {
    && t.periodicity > 0
    && t.deadline > 0
    && t.duration >= 0
    && |t.durations| <= |t.releases| <= |t.durations| + 1
    && (t.releases != [] ==> t.releases[0] == t.delay)
    && forall k :: 0 < k < |t.releases| ==> t.releases[k] - t.releases[k - 1] == Interval(t, t.durations[k - 1])
  }

  /** The job is released and counts its ticks. */
  predicate Counting(t: Task, at: int) {
    |t.releases| == |t.durations| + 1 && t.duration == at - Last(t.releases)
  }

  predicate Awake(t: Task, at: int) {
    t.sleep == 0 && !t.sleepPending && !t.done && Counting(t, at)
  }

  predicate Finishing(t: Task, at: int) {
    t.sleep == -YIELD_TICKS && t.sleepPending && t.done && Counting(t, at)
  }

  /** In the tick after the yield, before the context switch. */
  predicate Leaving(t: Task, at: int) {
    t.sleep == 1 - YIELD_TICKS && !t.sleepPending && t.done && Counting(t, at - 1)
  }

  predicate Resting(t: Task, at: int) {
    && t.sleep < 0 && !t.sleepPending && !t.done && t.duration == 0
    && |t.releases| == |t.durations| && at - t.sleep == NextRelease(t)
  }

  ghost predicate Overran(t: Task) {
    t.duration > t.deadline || exists k :: 0 <= k < |t.durations| && t.durations[k] > t.deadline
  }

  /** The fault flag says exactly that some job has been awake for longer than its deadline. */
  ghost predicate FaultAgrees(s: HrtState) {
    s.fault <==> exists i :: 0 <= i < |s.tasks| && Overran(s.tasks[i])
  }

  // ---- the invariant ----

  ghost predicate StrategyOk(s: HrtState) {
    && Invariant.Genuine(s.strat)
    && (forall i :: i in s.strat.active || i in s.strat.asleep ==> i < |s.tasks|)
    && (forall i :: i in s.strat.active ==> i !in s.strat.asleep)
  }

  predicate InStep(s: HrtState, i: nat)
    requires i < |s.tasks|
  {
    var t := s.tasks[i];
    if t.Asleep() && !t.sleepPending then i in s.strat.asleep else i in s.strat.active
  }

  predicate RunningOne(s: HrtState, i: nat) {
    s.now == Some(i) && (s.fsm == Switching || s.fsm == Waking)
  }

  ghost predicate TaskOk(s: HrtState, i: nat)
    requires i < |s.tasks|
  {
    var t := s.tasks[i];
    && OnSchedule(t) && InStep(s, i)
    && (Awake(t, s.ticks) || Resting(t, s.ticks) || (Finishing(t, s.ticks) && RunningOne(s, i)))
  }

  predicate ContextOk(s: HrtState) {
    && (s.fsm == Switching || s.fsm == Waking || s.fsm == Sleeping)
    && s.now.Some? && s.now.value < |s.tasks|
    && (s.fsm == Sleeping <==> s.strat.active == {})
    && (s.fsm != Sleeping ==> s.now.value in s.strat.active)
  }

  ghost predicate Inv(s: HrtState) {
    && !s.panic && StrategyOk(s) && ContextOk(s) && FaultAgrees(s)
    && forall i :: 0 <= i < |s.tasks| ==> TaskOk(s, i)
  }
}
