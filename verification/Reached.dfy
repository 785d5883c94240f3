/**
 Runs from the freshly initialised kernel into the states where the 32-bit sleep counter shows:
 the inputs for which the tickless interval, the infinite wait and the drain fail.
 */
module Reached {
  import opened KernelTypes
  import opened KernelSpec
  import opened SyncPass
  import opened Invariant
  import opened Runs
  import Removal
  import opened Tickless
  import Waiters

  ghost predicate Leads(start: State, states: seq<State>, actions: seq<Action>, s: State, p: Policy) {
    IsRun(states, actions, p) && states[0] == start && states[|actions|] == s
  }

  /** Some run of a kernel with these slots and objects ends in `s`. */
  ghost predicate Reachable(slotCount: nat, objectCount: nat, s: State, p: Policy) {
    exists states: seq<State>, actions: seq<Action> ::
      Leads(InitialState(slotCount, objectCount), states, actions, s, p)
  }

  lemma ReachStart(slotCount: nat, objectCount: nat, p: Policy)
    ensures Reachable(slotCount, objectCount, InitialState(slotCount, objectCount), p)
  {
    var s := InitialState(slotCount, objectCount);
    assert Leads(s, [s], [], s, p);
  }

  lemma ReachStep(slotCount: nat, objectCount: nat, s: State, a: Action, r: State, p: Policy)
    requires Reachable(slotCount, objectCount, s, p) && Step(s, a, r, p)
    ensures Reachable(slotCount, objectCount, r, p)
  {
    hide Step;
    var start := InitialState(slotCount, objectCount);
    var states, actions :| Leads(start, states, actions, s, p);
    var longer, more := states + [r], actions + [a];
    forall k | 0 <= k < |more| ensures Step(longer[k], more[k], longer[k + 1], p) {
      if k < |actions| {
        assert Step(states[k], actions[k], states[k + 1], p);
      }
    }
    assert Leads(start, longer, more, r, p);
  }

  lemma ReachInv(slotCount: nat, objectCount: nat, s: State, p: Policy)
    requires Reachable(slotCount, objectCount, s, p) && Lawful(p)
    ensures Inv(s)
  {
    hide Inv;
    var start := InitialState(slotCount, objectCount);
    var states, actions :| Leads(start, states, actions, s, p);
    InitialInv(slotCount, objectCount);
    RunInv(states, actions, p, |actions|);
  }

  // ---- one running task ------------------------------------------------------------------------

  function Loaded(objectCount: nat): State {
    State([FreeSlot.(user := Some(0))], Strategy({0}, {}, [Added(0)]), None, FsmNone, false, 0,
          [], seq(objectCount, _ => []), [], Main, [], false)
  }

  function Started(objectCount: nat): State {
    Loaded(objectCount).(strat := Strategy({0}, {}, [Added(0), Picked(0)]), now := Some(0), fsm := Switching,
                         cpu := OnTask(0), switches := [Switch(Main, OnTask(0))])
  }

  lemma OneTask(p: Policy, log: seq<Event>)
    requires Lawful(p) && WellFormed(log)
    ensures Replay(log).active == {0} ==> p.next(log) == 0
    ensures Replay(log).active == {} && Replay(log).asleep == {0} ==> p.first(log) == 0
  {
  }

  lemma ReachLoaded(objectCount: nat, p: Policy)
    ensures Reachable(1, objectCount, Loaded(objectCount), p)
  {
    var s := InitialState(1, objectCount);
    ReachStart(1, objectCount, p);
    assert s.slots == [FreeSlot];
    assert Exec(s, AddTask(0), p) == Loaded(objectCount);
    ReachStep(1, objectCount, s, AddTask(0), Loaded(objectCount), p);
  }

  lemma ReachStarted(objectCount: nat, p: Policy)
    requires Lawful(p)
    ensures Reachable(1, objectCount, Started(objectCount), p)
  {
    hide Lawful, Replay, WellFormed, Reachable;
    var s := Loaded(objectCount);
    ReachLoaded(objectCount, p);
    CoreGenuineOf(1, objectCount, s, p);
    OneTask(p, s.strat.log);
    assert DeliverInitialSleeps(s, 1) == s && DeliverInitialSleeps(s, 0) == s;
    assert s.Check(true) == s;
    assert Exec(s, Start, p) == Started(objectCount);
    ReachStep(1, objectCount, s, Start, Started(objectCount), p);
  }

  lemma CoreGenuineOf(slotCount: nat, objectCount: nat, s: State, p: Policy)
    requires Reachable(slotCount, objectCount, s, p) && Lawful(p)
    ensures WellFormed(s.strat.log) && Replay(s.strat.log) == s.strat && ListsAgree(s)
  {
    hide Reachable, Registered, SetsAgree;
    ReachInv(slotCount, objectCount, s, p);
  }

  // ---- an endless wait ----------------------------------------------------------------------------

  function Waiting(): State {
    Started(1).(slots := [Slot(Some(0), true, false, -WAIT_INFINITE, Some(0), false, WAIT_INFINITE, None, NoAdd)],
                waiters := [[0]], syncList := [0], waitLog := [Armed(0)])
  }

  /** The task of the kernel above has waited until `left` ticks remain on its sleep counter. */
  function EndlessWait(left: int): State {
    State([Slot(Some(0), false, false, -left, Some(0), false, WAIT_INFINITE, None, NoAdd)],
          Strategy({}, {0}, [Added(0), Picked(0), Slept(0)]), Some(0), Sleeping, false, WAIT_INFINITE - left,
          [0], [[0]], [Armed(0)], SleepTrap, [Switch(Main, OnTask(0)), Switch(OnTask(0), SleepTrap)], false)
  }

  lemma ReachWaiting(p: Policy)
    requires Lawful(p)
    ensures Reachable(1, 1, Waiting(), p)
  {
    hide Lawful, Replay, WellFormed, Reachable;
    var s := Started(1);
    ReachStarted(1, p);
    CoreGenuineOf(1, 1, s, p);
    assert s.waiters == [[]];
    assert Exec(s, Wait(0, WAIT_INFINITE), p) == Waiting();
    ReachStep(1, 1, s, Wait(0, WAIT_INFINITE), Waiting(), p);
  }

  /** The timeout phase of a kernel whose only task is in an endless wait changes nothing. */
  lemma NothingExpires(a: State)
    requires a.syncList == [0] && a.waiters == [[0]] && |a.slots| == 1 && a.slots[0].waitLeft == WAIT_INFINITE
    requires !a.slots[0].timedOut && !a.request
    ensures UpdateTaskRequest(UpdateSyncObjects(a, 1)) == a
  {
    assert [0][1..] == [];
    assert a.slots[0 := a.slots[0]] == a.slots;
    assert TickWaiter(a, 0, 1) == a;
    assert TickWaiters(a, [0], 1) == TickWaiters(a, [], 1);
    assert TickObject(a, 0, 1) == a;
    assert TickObjects(a, [0], 1) == TickObjects(a, [], 1);
  }

  lemma ReachEndless(p: Policy)
    requires Lawful(p)
    ensures Reachable(1, 1, EndlessWait(WAIT_INFINITE - 1), p)
  {
    hide Lawful, Replay, WellFormed, Reachable;
    var s, r := Waiting(), EndlessWait(WAIT_INFINITE - 1);
    ReachWaiting(p);
    CoreGenuineOf(1, 1, s, p);
    var a := s.(ticks := 1);
    NothingExpires(a);
    var b := a.(slots := r.slots, strat := r.strat);
    assert UpdateSlot(a, 0, 1) == b && UpdateSlots(b, 1, 1) == b;
    Invariant.GenuineStep(s.strat, Slept(0));
    OneTask(p, b.strat.log);
    assert b.Check(true) == b;
    assert UpdateFsm(b, p) == r;
    assert Exec(s, Tick(1), p) == r;
    ReachStep(1, 1, s, Tick(1), r, p);
  }

  lemma {:induction false} ReachTicks(s: State, k: int, n: nat, p: Policy)
    requires Reachable(1, 1, s, p) && Quiet(s, k) && n < k && Lawful(p)
    ensures Reachable(1, 1, Ticks(s, n, p), p)
  {
    hide Reachable, Lawful, OnTick, Core;
    if n > 0 {
      ReachTicks(s, k, n - 1, p);
      QuietTicks(s, k, n - 1, p);
      var a := Ticks(s, n - 1, p);
      CoreGenuineOf(1, 1, a, p);
      ReachStep(1, 1, a, Tick(1), Ticks(s, n, p), p);
    }
  }

  lemma EndlessIsQuiet(left: int)
    requires Inv(EndlessWait(WAIT_INFINITE - 1)) && 0 < left < WAIT_INFINITE
    ensures Quiet(EndlessWait(WAIT_INFINITE - 1), WAIT_INFINITE - 1)
    ensures Shifted(EndlessWait(WAIT_INFINITE - 1), WAIT_INFINITE - 1 - left) == EndlessWait(left)
  {
    hide Inv;
    var s, n := EndlessWait(WAIT_INFINITE - 1), WAIT_INFINITE - 1 - left;
    assert ShiftedSlots(s.slots, n) == EndlessWait(left).slots;
  }

  /** Unit ticks run the counter down to any value. */
  lemma EndlessWaitReached(left: int, p: Policy)
    requires Lawful(p) && 0 < left < WAIT_INFINITE
    ensures Reachable(1, 1, EndlessWait(left), p) && Inv(EndlessWait(left))
  {
    hide Lawful, Reachable, Inv, Quiet, Ticks, Shifted, EndlessWait;
    var s := EndlessWait(WAIT_INFINITE - 1);
    var n := WAIT_INFINITE - 1 - left;
    ReachEndless(p);
    ReachInv(1, 1, s, p);
    EndlessIsQuiet(left);
    QuietTicks(s, WAIT_INFINITE - 1, n, p);
    ReachTicks(s, WAIT_INFINITE - 1, n, p);
    ReachInv(1, 1, EndlessWait(left), p);
  }

  lemma EndlessTick(left: int, p: Policy)
    requires 1 < left < WAIT_INFINITE
    ensures OnTick(EndlessWait(left), 1, p) == EndlessWait(left - 1)
    ensures TickReturn(EndlessWait(left), 1) == TICKLESS_TICKS_MAX
  {
    var s, r := EndlessWait(left), EndlessWait(left - 1);
    var a := s.(ticks := s.ticks + 1);
    NothingExpires(a);
    assert UpdateSlot(a, 0, 1) == r && UpdateSlots(r, 1, 1) == r;
    assert r.Check(true) == r && r.strat.Size() != 0;
    assert UpdateFsm(r, p) == r;
    assert SleepHint(r.slots, 1, TICKLESS_TICKS_MAX) == TICKLESS_TICKS_MAX;
  }

  // ---- what fails there ------------------------------------------------------------------------

  /** A run after whose last tick the interval is 1000 while three ticks are left on the counter:
      one tick of length four differs from four ticks. */
  lemma OverrunExample(p: Policy)
    requires Lawful(p)
    ensures Reachable(1, 1, EndlessWait(4), p) && Reachable(1, 1, EndlessWait(3), p)
    ensures TickedFrom(EndlessWait(4), 1, EndlessWait(3), TICKLESS_TICKS_MAX, p) && NoneLeaving(EndlessWait(3).slots)
    ensures !Equivalent(OnTick(EndlessWait(3), 4, p), Ticks(EndlessWait(3), 4, p))
  {
    hide Lawful, Inv, Ticks, OnTick, TickReturn, Reachable;
    EndlessWaitReached(4, p);
    EndlessWaitReached(3, p);
    EndlessTick(4, p);
    assert !CountersLast(EndlessWait(3), 4) by {
      assert EndlessWait(3).slots[0].Waiting();
    }
    TicklessExactly(EndlessWait(4), 1, EndlessWait(3), TICKLESS_TICKS_MAX, p, 4);
  }

  /** A run in whose last tick the object's only waiter is an infinite one: no finite timeout is left,
      and yet the object stays on the sync list. */
  lemma InfiniteStaysListed(left: int, p: Policy)
    requires Lawful(p) && 1 < left < WAIT_INFINITE
    ensures var s, r := EndlessWait(left), OnTick(EndlessWait(left), 1, p);
      && Reachable(1, 1, s, p) && Reachable(1, 1, r, p)
      && s.waiters == [[0]] && s.slots[0].waitLeft == WAIT_INFINITE && r.syncList == [0]
  {
    hide Lawful, Reachable, OnTick, TickReturn, Inv;
    EndlessWaitReached(left, p);
    EndlessWaitReached(left - 1, p);
    EndlessTick(left, p);
  }

  /** A run whose last tick leaves the waiting task awake, runnable and still queued. */
  lemma InfiniteWaitExample(p: Policy)
    requires Lawful(p)
    ensures var r := OnTick(EndlessWait(1), 1, p);
      && Reachable(1, 1, r, p)
      && |r.slots| == 1 && r.slots[0].Waiting() && !r.slots[0].timedOut && !r.slots[0].Asleep()
      && !Waiters.WaitersAsleep(r)
  {
    hide Lawful, Inv, OnTick, Reachable;
    var s := EndlessWait(1);
    EndlessWaitReached(1, p);
    CoreGenuineOf(1, 1, s, p);
    Waiters.InfiniteWaitOverrun(s, 1, p, 0);
    var r := OnTick(s, 1, p);
    ReachStep(1, 1, s, Tick(1), r, p);
    WaitingSlot(r, p);
  }

  lemma WaitingSlot(r: State, p: Policy)
    requires Reachable(1, 1, r, p) && Lawful(p) && |r.slots| == 1 && r.slots[0].Waiting()
    ensures !r.slots[0].timedOut
  {
    hide Reachable;
    ReachInv(1, 1, r, p);
    assert SlotOk(r.slots[0], 0);
  }

  function Exited(): State {
    Started(0).(slots := [Slot(Some(0), true, true, -WAIT_INFINITE, None, false, 0, None, NoAdd)])
  }

  lemma ExitStep(p: Policy)
    requires ListsAgree(Started(0))
    ensures Step(Started(0), Exit, Exited(), p)
  {
    hide ListsAgree;
  }

  lemma ReachExited(p: Policy)
    requires Lawful(p)
    ensures Reachable(1, 0, Exited(), p) && Inv(Exited())
  {
    hide Lawful, Inv, Reachable, Step, ListsAgree, Exited;
    ReachStarted(0, p);
    CoreGenuineOf(1, 0, Started(0), p);
    ExitStep(p);
    ReachStep(1, 0, Started(0), Exit, Exited(), p);
    ReachInv(1, 0, Exited(), p);
  }

  /** A run in which the only task exits and the next tick is as long as its sleep: the task wakes
      up again, and two ticks do not reach the exit state. */
  lemma ExitedTaskWakes(second: int, p: Policy)
    requires Lawful(p) && second >= 1
    ensures Reachable(1, 0, Exited(), p) && Removal.AllLeaving(Exited().slots)
    ensures OnTick(Exited(), WAIT_INFINITE, p).fsm != Exiting
    ensures OnTick(OnTick(Exited(), WAIT_INFINITE, p), second, p).fsm != Exiting
  {
    hide Lawful, Inv, OnTick, Reachable;
    ReachExited(p);
    Removal.DrainsInTwoTicks(Exited(), WAIT_INFINITE, second, p);
  }
}
