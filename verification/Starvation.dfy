/**
 Round robin inside the kernel: runs from the initialised kernel in which a departure costs a
 runnable task its turn, once and for any number of ticks.
 */
module Starvation {
  import opened KernelTypes
  import opened KernelSpec
  import opened SyncPass
  import opened Invariant
  import opened Runs
  import opened Reached
  import opened RoundRobin

  const Robin: Policy := RoundRobinPolicy

  // ---- ticks of a kernel without waits and requests --------------------------------------------

  predicate Plain(s: State) {
    |s.slots| == 3 && s.syncList == [] && !s.request && s.fsm == Switching
  }

  /** The slot pass over three slots. */
  function Passed(s: State): (r: State)
    requires |s.slots| == 3
  {
    UpdateSlot(UpdateSlot(UpdateSlot(s.(ticks := s.ticks + 1), 0, 1), 1, 1), 2, 1)
  }

  lemma PassIs(s: State)
    requires |s.slots| == 3
    ensures UpdateSlots(s.(ticks := s.ticks + 1), 0, 1) == Passed(s)
  {
    hide UpdateSlot;
    var a := s.(ticks := s.ticks + 1);
    var b := UpdateSlot(UpdateSlot(a, 0, 1), 1, 1);
    assert UpdateSlots(a, 0, 1) == UpdateSlots(UpdateSlot(a, 0, 1), 1, 1);
    assert UpdateSlots(b, 2, 1) == UpdateSlots(UpdateSlot(b, 2, 1), 3, 1);
  }

  lemma PlainTick(s: State)
    requires Plain(s)
    ensures OnTick(s, 1, Robin) == UpdateFsm(Passed(s), Robin)
  {
    hide UpdateSlots, UpdateFsm, Passed;
    PassIs(s);
  }

  /** The state machine of a running kernel follows the strategy. */
  lemma PlainSwitch(c: State)
    requires c.fsm == Switching && c.now.Some? && c.strat.active != {}
    ensures var r := UpdateFsm(c, Robin); var next := Robin.next(c.strat.log);
      && r.fsm == Switching && r.now == Some(next) && r.slots == c.slots && r.syncList == c.syncList
      && r.request == c.request && r.strat == c.strat.Apply(Picked(next))
      && (next == c.now.value && next < |c.slots| && !c.slots[next].Asleep() && c.strat.Accepts(Picked(next)) ==>
            r == c.(strat := r.strat))
  {
  }

  // ---- a turn is skipped -----------------------------------------------------------------------

  function Bound(user: nat): Slot { FreeSlot.(user := Some(user)) }

  function Loading(slots: seq<Slot>, st: Strategy): State {
    State(slots, st, None, FsmNone, false, 0, [], [], [], Main, [], false)
  }

  function AllAdded(): State {
    Loading([Bound(0), Bound(1), Bound(2)], Strategy({0, 1, 2}, {}, ThreeTasks))
  }

  /** Three tasks have been started and the first runs. */
  function Began(): State {
    AllAdded().(strat := Strategy({0, 1, 2}, {}, ThreeTasks + [Picked(0)]), now := Some(0), fsm := Switching,
                cpu := OnTask(0), switches := [Switch(Main, OnTask(0))])
  }

  /** It suspends the third. */
  function ThirdLeaves(): State {
    Began().(slots := [Bound(0), Bound(1), Bound(2).(sleep := -WAIT_INFINITE, sleepPending := true)])
  }

  lemma NoWaiters(s: State)
    requires s.waiters == [] && forall i :: 0 <= i < |s.slots| ==> !s.slots[i].Waiting()
    ensures ListsAgree(s)
  {
  }

  /** The first `n` of three slots are bound. */
  function Filled(n: nat): (slots: seq<Slot>)
    ensures |slots| == 3
  {
    seq(3, j requires 0 <= j < 3 => if j < n then Bound(j) else FreeSlot)
  }

  lemma FillsFirst(i: nat)
    requires i < 3
    ensures FirstFree(Filled(i), 0) == i && UserUnbound(Filled(i), i)
    ensures Filled(i)[i := Bound(i)] == Filled(i + 1) && Bound(i) == Filled(i)[i].(user := Some(i))
  {
    hide FirstFree;
    assert !Filled(i)[i].Busy();
    assert forall j :: 0 <= j < i ==> Filled(i)[j].Busy();
  }

  lemma FilledWaits(s: State, i: nat)
    requires s.waiters == [] && s.slots == Filled(i)
    ensures ListsAgree(s)
  {
    NoWaiters(s);
  }

  lemma AddStep(st: Strategy, i: nat)
    requires Reachable(3, 0, Loading(Filled(i), st), Robin) && i < 3 && !st.Manages(i)
    ensures Reachable(3, 0, Loading(Filled(i + 1), st.Apply(Added(i))), Robin)
  {
    hide Reachable, ListsAgree, FirstFree, UserUnbound, Filled;
    var s, r := Loading(Filled(i), st), Loading(Filled(i + 1), st.Apply(Added(i)));
    assert ListsAgree(s) by { FilledWaits(s, i); }
    FillsFirst(i);
    assert Exec(s, AddTask(i), Robin) == r;
    ReachStep(3, 0, s, AddTask(i), r, Robin);
  }

  lemma ReachAdded()
    ensures Reachable(3, 0, AllAdded(), Robin)
  {
    hide Reachable;
    var e := EmptyStrategy;
    ReachStart(3, 0, Robin);
    assert InitialState(3, 0) == Loading(Filled(0), e);
    AddStep(e, 0);
    AddStep(e.Apply(Added(0)), 1);
    AddStep(e.Apply(Added(0)).Apply(Added(1)), 2);
    assert [] + [Added(0)] == [Added(0)];
    assert e.Apply(Added(0)).Apply(Added(1)).Apply(Added(2)) == AllAdded().strat && Filled(3) == AllAdded().slots;
  }

  lemma ReachBegan()
    ensures Reachable(3, 0, Began(), Robin)
  {
    hide Reachable, ListsAgree, Follow;
    var s := AllAdded();
    ReachAdded();
    NoWaiters(s);
    SkippedTurn();
    assert DeliverInitialSleeps(s, 3) == s;
    assert DeliverInitialSleeps(s, 2) == s;
    assert DeliverInitialSleeps(s, 1) == s;
    assert DeliverInitialSleeps(s, 0) == s;
    assert s.Check(true) == s && s.strat.Size() != 0;
    assert Exec(s, Start, Robin) == Began();
    ReachStep(3, 0, s, Start, Began(), Robin);
  }

  lemma ReachThirdLeaves()
    ensures Reachable(3, 0, ThirdLeaves(), Robin)
  {
    hide Reachable, ListsAgree;
    ReachBegan();
    NoWaiters(Began());
    assert Exec(Began(), Suspend(2), Robin) == ThirdLeaves();
    ReachStep(3, 0, Began(), Suspend(2), ThirdLeaves(), Robin);
  }

  lemma ReachThrough(s: State, a: Action)
    requires Reachable(3, 0, s, Robin) && Enabled(s, a)
    ensures Inv(s) && ListsAgree(s) && Reachable(3, 0, Exec(s, a, Robin), Robin) && Inv(Exec(s, a, Robin))
  {
    hide Reachable, Enabled, Exec, Core, ContextOk, Lawful;
    RoundRobinLawful();
    ReachInv(3, 0, s, Robin);
    CoreLists(s);
    ReachStep(3, 0, s, a, Exec(s, a, Robin), Robin);
    ReachInv(3, 0, Exec(s, a, Robin), Robin);
  }

  /** A task that neither leaves nor waits nor adds another one. */
  predicate Settled(t: Slot) {
    t.Busy() && !t.removePending && !t.sleepPending && !t.Waiting() && t.addReq.None?
  }

  /** Task 0 and `now` are runnable, in this order on the ring, the third task sleeps, `now` runs. */
  ghost predicate Turn(s: State, now: nat, other: nat, cursor: nat) {
    && Plain(s) && Inv(s) && s.now == Some(cursor)
    && {now, other} == {1, 2} && cursor in {0, now}
    && (forall i :: 0 <= i < 3 ==> Settled(s.slots[i]))
    && !s.slots[0].Asleep() && !s.slots[now].Asleep() && s.slots[other].Asleep()
    && Follow(s.strat.log) == Ring([0, now], [other], Some(cursor))
  }

  /** What the pass has to leave for `cursor` to be served. */
  ghost predicate Offers(c: State, now: nat, other: nat, cursor: nat) {
    && |c.slots| == 3 && {now, other} == {1, 2} && cursor in {0, now}
    && (forall i :: 0 <= i < 3 ==> Settled(c.slots[i]))
    && !c.slots[0].Asleep() && !c.slots[now].Asleep() && c.slots[other].Asleep()
    && c.strat.active != {}
    && Follow(c.strat.log).(prev := None) == Ring([0, now], [other], None)
    && Robin.next(c.strat.log) == cursor
  }

  lemma PassKeepsRest(s: State)
    requires Plain(s)
    ensures Passed(s).fsm == Switching && Passed(s).now == s.now && Passed(s).syncList == [] && !Passed(s).request
  {
    hide UpdateSlot;
  }

  lemma TickServes(s: State, now: nat, other: nat, cursor: nat)
    requires Plain(s) && s.now.Some? && Inv(OnTick(s, 1, Robin)) && Offers(Passed(s), now, other, cursor)
    ensures Turn(OnTick(s, 1, Robin), now, other, cursor) && OnTick(s, 1, Robin).slots == Passed(s).slots
  {
    hide Inv, Follow, Next, OnTick, UpdateFsm, Passed, Settled;
    var c := Passed(s);
    PlainTick(s);
    PassKeepsRest(s);
    PlainSwitch(c);
    FollowAppend(c.strat.log, Picked(cursor));
  }

  lemma ThirdPasses()
    ensures var c := Passed(ThirdLeaves());
      && c.slots == [Bound(0), Bound(1), Bound(2).(sleep := -WAIT_INFINITE + 1)]
      && c.strat == Strategy({0, 1}, {2}, ThreeTasks + [Picked(0)] + [Slept(2)])
  {
    var s := ThirdLeaves();
    var a := s.(ticks := 1);
    assert UpdateSlot(a, 0, 1) == a && UpdateSlot(a, 1, 1) == a;
    assert a.strat.Apply(Slept(2)) == Strategy({0, 1}, {2}, ThreeTasks + [Picked(0)] + [Slept(2)]);
  }

  lemma ThirdSlept()
    ensures Follow(ThreeTasks + [Picked(0)] + [Slept(2)]).(prev := None) == Ring([0, 1], [2], None)
  {
    hide Follow;
    SkippedTurn();
    FollowAppend(ThreeTasks + [Picked(0)], Slept(2));
    assert Unlinked([0, 1, 2], 2) == [0, 1];
  }

  /** The third leaves, and the first is served again although it is the turn of the second. */
  lemma FirstAgain()
    ensures Reachable(3, 0, ThirdLeaves(), Robin) && Follow(ThirdLeaves().strat.log) == Ring([0, 1, 2], [], Some(0))
    ensures var r := OnTick(ThirdLeaves(), 1, Robin);
      Reachable(3, 0, r, Robin) && Turn(r, 1, 2, 0) && |r.slots| == 3 && r.slots[2].sleep < -1
  {
    hide Reachable, Follow, Inv, Turn, OnTick, Passed, ListsAgree;
    ReachThirdLeaves();
    ReachThrough(ThirdLeaves(), Tick(1));
    SkippedTurn();
    ThirdPasses();
    ThirdSlept();
    TickServes(ThirdLeaves(), 1, 2, 0);
  }

  // ---- and again ---------------------------------------------------------------------------------

  /** What the pass does to one settled slot: it sleeps on, is reported asleep, or wakes. */
  lemma SlotSleepsOn(s: State, i: nat)
    requires i < |s.slots| && !s.slots[i].removePending && !s.slots[i].sleepPending
    ensures !s.slots[i].Asleep() ==> UpdateSlot(s, i, 1) == s
    ensures s.slots[i].sleep < -1 ==> UpdateSlot(s, i, 1) == SetSlot(s, i, s.slots[i].(sleep := s.slots[i].sleep + 1))
    ensures s.slots[i].sleep == -1 ==> UpdateSlot(s, i, 1) == SetSlot(s.Notify(Woke(i)), i, s.slots[i].(sleep := 0))
  {
  }

  lemma SlotFallsAsleep(s: State, i: nat)
    requires i < |s.slots| && !s.slots[i].removePending && s.slots[i].sleepPending && s.slots[i].sleep < -1
    ensures UpdateSlot(s, i, 1) ==
            SetSlot(s.Notify(Slept(i)), i, s.slots[i].(sleep := s.slots[i].sleep + 1, sleepPending := false))
  {
  }

  lemma NextOnRing(log: seq<Event>, now: nat)
    requires now != 0 && Follow(log).tasks == [0, now] && Follow(log).prev == Some(0)
    ensures Robin.next(log) == now
  {
    hide Follow;
  }

  lemma FirstIsActive(s: State)
    requires Inv(s) && |s.slots| == 3 && Settled(s.slots[0]) && !s.slots[0].Asleep()
    ensures 0 in s.strat.active
  {
  }

  lemma QuietPass(s: State, now: nat, other: nat)
    requires Turn(s, now, other, 0) && s.slots[other].sleep < -1
    ensures Offers(Passed(s), now, other, now)
  {
    hide Inv, Follow, UpdateSlot;
    var a := s.(ticks := s.ticks + 1);
    FirstIsActive(s);
    NextOnRing(s.strat.log, now);
    SlotSleepsOn(a, 0);
    SlotSleepsOn(a, now);
    SlotSleepsOn(a, other);
    SlotSleepsOn(UpdateSlot(a, 1, 1), 2);
  }

  /** The ring after the departure of `now` and the return of `other`, in the order of the slots. */
  lemma BatonRing(log: seq<Event>, now: nat, other: nat)
    requires {now, other} == {1, 2} && Follow(log) == Ring([0, now], [other], Some(now))
    ensures var e := if now == 1 then log + [Slept(1)] + [Woke(2)] else log + [Woke(1)] + [Slept(2)];
      Follow(e) == Ring([0, other], [now], Some(0))
  {
    hide Follow;
    if now == 1 {
      FollowAppend(log, Slept(1));
      FollowAppend(log + [Slept(1)], Woke(2));
    } else {
      FollowAppend(log, Woke(1));
      FollowAppend(log + [Woke(1)], Slept(2));
      assert Follow(log + [Woke(1)]) == Ring([0, 2, 1], [], Some(2));
      assert Unlinked([0, 2, 1], 2) == [0, 1] && After([0, 2, 1], 2) == 1 && Before([0, 1], 1) == 0;
    }
  }

  /** The state before the tick: the running task has woken the third and gone to sleep itself. */
  function Handover(s: State, now: nat, other: nat): State
    requires now < |s.slots| && other < |s.slots|
  {
    SuspendTask(ResumeTask(s, other), now)
  }

  lemma HandoverIs(s: State, now: nat, other: nat)
    requires Turn(s, now, other, now)
    ensures Handover(s, now, other) ==
            s.(slots := s.slots[other := s.slots[other].(sleep := -1)]
                               [now := s.slots[now].(sleep := -WAIT_INFINITE, sleepPending := true)])
  {
    hide Inv, Follow;
  }

  /** What the tick makes of a hand-over: one task slept, the other woke, in the order of the slots. */
  lemma BatonSlots(s: State, now: nat, other: nat)
    requires Turn(s, now, other, now)
    ensures var c := Passed(Handover(s, now, other)); var log := s.strat.log;
      && c.strat.log == (if now == 1 then log + [Slept(1)] + [Woke(2)] else log + [Woke(1)] + [Slept(2)])
      && 0 in c.strat.active
      && c.slots == s.slots[other := s.slots[other].(sleep := 0)]
                           [now := s.slots[now].(sleep := -WAIT_INFINITE + 1, sleepPending := false)]
  {
    hide Inv, Follow, UpdateSlot, Handover;
    HandoverIs(s, now, other);
    FirstIsActive(s);
    var b := Handover(s, now, other);
    var a := b.(ticks := b.ticks + 1);
    SlotSleepsOn(a, 0);
    if now == 1 {
      SlotFallsAsleep(a, 1);
      SlotSleepsOn(UpdateSlot(a, 1, 1), 2);
    } else {
      SlotSleepsOn(a, 1);
      SlotFallsAsleep(UpdateSlot(a, 1, 1), 2);
    }
  }

  lemma BatonPass(s: State, now: nat, other: nat)
    requires Turn(s, now, other, now)
    ensures var b := Handover(s, now, other);
      Plain(b) && b.now == Some(now) && Offers(Passed(b), other, now, other)
  {
    hide Inv, Follow, UpdateSlot, Passed;
    HandoverIs(s, now, other);
    BatonSlots(s, now, other);
    BatonRing(s.strat.log, now, other);
    NextOnRing(Passed(Handover(s, now, other)).strat.log, other);
  }

  /** One round: the running task wakes the third task, suspends itself, and the timer ticks. */
  function Round(now: nat, other: nat): seq<Action> { [Resume(other), Suspend(now), Tick(1)] }

  /** Task 0 is runnable and another task runs. */
  predicate Starving(s: State) {
    && |s.slots| > 0 && s.slots[0].Busy() && !s.slots[0].Asleep() && 0 in s.strat.active
    && s.cpu.OnTask? && s.cpu.slot != 0
  }

  lemma TurnStarves(s: State, now: nat, other: nat)
    requires Turn(s, now, other, now)
    ensures Starving(s) && |s.slots| == 3 && now < 3 && other < 3
  {
    FirstIsActive(s);
  }

  lemma TakeStep(s: State, a: Action)
    requires Inv(s) && Enabled(s, a)
    ensures ListsAgree(s) && Step(s, a, Exec(s, a, Robin), Robin) && Inv(Exec(s, a, Robin))
  {
    hide Core, ContextOk, Enabled, Exec, Lawful;
    CoreLists(s);
    RoundRobinLawful();
    StepInv(s, a, Robin);
  }

  lemma CallSteps(s: State, now: nat, other: nat)
    requires Turn(s, now, other, now)
    ensures var a := ResumeTask(s, other); var b := Handover(s, now, other);
      && Step(s, Resume(other), a, Robin) && Step(a, Suspend(now), b, Robin)
      && Inv(b) && Enabled(b, Tick(1)) && Starving(a) && Starving(b)
  {
    hide Inv, Follow, OnTick, ListsAgree;
    TurnStarves(s, now, other);
    TakeStep(s, Resume(other));
    TakeStep(ResumeTask(s, other), Suspend(now));
  }

  /** A round ends with the same task still waiting for its turn. */
  lemma RoundStep(s: State, now: nat, other: nat)
    requires Turn(s, now, other, now)
    ensures var a := ResumeTask(s, other); var b := Handover(s, now, other); var r := OnTick(b, 1, Robin);
      && Step(s, Resume(other), a, Robin) && Step(a, Suspend(now), b, Robin) && Step(b, Tick(1), r, Robin)
      && Starving(s) && Starving(a) && Starving(b) && Turn(r, other, now, other)
  {
    hide Inv, Follow, OnTick, ListsAgree, Turn, Enabled, Plain, Offers, Starving, Handover;
    TurnStarves(s, now, other);
    CallSteps(s, now, other);
    var b := Handover(s, now, other);
    TakeStep(b, Tick(1));
    BatonPass(s, now, other);
    TickServes(b, other, now, other);
  }

  /** `n` rounds in which the other two tasks hand the processor to each other. */
  function Rounds(now: nat, other: nat, n: nat): (actions: seq<Action>)
    ensures |actions| == 3 * n
    decreases n
  {
    if n == 0 then [] else Round(now, other) + Rounds(other, now, n - 1)
  }

  ghost predicate StarvingRun(states: seq<State>, actions: seq<Action>) {
    IsRun(states, actions, Robin) && forall k :: 0 <= k < |states| ==> Starving(states[k])
  }

  lemma {:induction false} Starve(s: State, now: nat, other: nat, n: nat) returns (states: seq<State>)
    requires Turn(s, now, other, now)
    ensures |states| == 3 * n + 1 && states[0] == s && StarvingRun(states, Rounds(now, other, n))
    decreases n
  {
    hide Turn, OnTick, Step, Starving, Handover;
    TurnStarves(s, now, other);
    states := [s];
    if n > 0 {
      RoundStep(s, now, other);
      var a, b := ResumeTask(s, other), Handover(s, now, other);
      var rest := Starve(OnTick(b, 1, Robin), other, now, n - 1);
      states := [s, a, b] + rest;
      var actions, later := Rounds(now, other, n), Rounds(other, now, n - 1);
      forall k | 0 <= k < |actions| ensures Step(states[k], actions[k], states[k + 1], Robin) {
        if k >= 3 {
          assert Step(rest[k - 3], later[k - 3], rest[k - 3 + 1], Robin);
        }
      }
    }
  }

  /** A state from which every step goes round without the first task. */
  lemma ReachTurn() returns (s: State)
    ensures Reachable(3, 0, s, Robin) && Turn(s, 1, 2, 1)
  {
    hide Reachable, Turn, OnTick, Lawful, Passed, Offers;
    FirstAgain();
    var r := OnTick(ThirdLeaves(), 1, Robin);
    TickAllowed(r);
    ReachThrough(r, Tick(1));
    s := OnTick(r, 1, Robin);
    QuietPass(r, 1, 2);
    TickServes(r, 1, 2, 1);
  }

  lemma TickAllowed(r: State)
    requires Turn(r, 1, 2, 0)
    ensures Enabled(r, Tick(1)) && Plain(r) && r.now.Some?
  {
    hide Inv, Follow;
  }

  /**
   Starvation. A run of the initialised kernel leads to a state from which two tasks hand the
   processor to each other for any number of ticks while the first task, runnable all the time,
   is never served.
   */
  lemma RunnableTaskStarves(n: nat) returns (states: seq<State>)
    ensures |states| == 3 * n + 1 && Reachable(3, 0, states[0], Robin)
    ensures StarvingRun(states, Rounds(1, 2, n))
  {
    hide Reachable, Turn;
    var s := ReachTurn();
    states := Starve(s, 1, 2, n);
  }

  /** The skipped turn in the kernel: the third of three tasks is suspended while the first runs, it is
      the turn of the second, which is runnable, and the next tick leaves the first running. */
  lemma SkippedTurnReached()
    ensures var s, r := ThirdLeaves(), OnTick(ThirdLeaves(), 1, Robin);
      && Reachable(3, 0, s, Robin) && Reachable(3, 0, r, Robin)
      && s.cpu == OnTask(0) && r.cpu == OnTask(0) && 1 in s.strat.active && 1 in r.strat.active
      && Follow(s.strat.log).prev == Some(0) && Follow(s.strat.log).tasks == [0, 1, 2]
  {
    hide Reachable, Turn, OnTick;
    FirstAgain();
    FirstServed(OnTick(ThirdLeaves(), 1, Robin));
  }

  lemma FirstServed(r: State)
    requires Turn(r, 1, 2, 0)
    ensures r.cpu == OnTask(0) && 1 in r.strat.active
  {
    hide Follow;
  }
}
