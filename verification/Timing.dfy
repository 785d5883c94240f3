/**
 When a blocked or sleeping task comes back, over arbitrary runs: timeouts, signals and
 absolute wake-up times.
 */
module Timing {
  import opened KernelTypes
  import opened KernelSpec
  import opened SyncPass
  import opened Invariant
  import opened TickInvariant
  import opened Runs
  import opened Safety

  /** The fields of a slot that time acts on. */
  predicate SameTimers(a: Slot, b: Slot) {
    && a.user == b.user && a.removePending == b.removePending && a.sleep == b.sleep
    && a.waitOn == b.waitOn && a.timedOut == b.timedOut && a.waitLeft == b.waitLeft
  }

  function Advanced(t: Slot, elapsed: int): Slot {
    if t.Asleep() then t.(sleepPending := false, sleep := t.sleep + elapsed) else t
  }

  /** A slot after one tick, when it is not on its way out. */
  function Ticked(t: Slot, elapsed: int): Slot {
    Advanced(Aged(t, elapsed), elapsed)
  }

  // ---- one tick and one slot -----------------------------------------------------------

  lemma {:induction false} ServeTimers(s: State, i: nat, j: nat)
    requires i <= |s.slots| && j < |s.slots| && s.slots[j].Busy()
    ensures SameTimers(ServeFrom(s, i).slots[j], s.slots[j])
    decreases |s.slots| - i
  {
    if i < |s.slots| {
      if s.slots[i].addReq.None? { ServeTimers(s, i + 1, j); } else { ServeTimers(ServeOne(s, i), i + 1, j); }
    }
  }

  lemma {:induction false} PassBehind(s: State, i: nat, j: nat, elapsed: int)
    requires j < i <= |s.slots|
    ensures UpdateSlots(s, i, elapsed).slots[j] == s.slots[j]
    decreases |s.slots| - i
  {
    if i < |s.slots| { PassBehind(UpdateSlot(s, i, elapsed), i + 1, j, elapsed); }
  }

  lemma SlotTimers(s: State, i: nat, j: nat, elapsed: int)
    requires i <= j < |s.slots| && !s.slots[j].removePending
    ensures i < j ==> UpdateSlot(s, i, elapsed).slots[j] == s.slots[j]
    ensures i == j ==> SameTimers(UpdateSlot(s, i, elapsed).slots[j], Advanced(s.slots[j], elapsed))
  {
  }

  lemma {:induction false} PassTimers(s: State, i: nat, j: nat, elapsed: int)
    requires i <= j < |s.slots| && !s.slots[j].removePending
    ensures SameTimers(UpdateSlots(s, i, elapsed).slots[j], Advanced(s.slots[j], elapsed))
    decreases |s.slots| - i
  {
    hide UpdateSlot, Advanced;
    var a := UpdateSlot(s, i, elapsed);
    SlotTimers(s, i, j, elapsed);
    if i == j {
      PassBehind(a, i + 1, j, elapsed);
    } else {
      PassTimers(a, i + 1, j, elapsed);
    }
  }

  lemma TimersBeforeSlots(s: State, elapsed: int, i: nat)
    requires Core(s, 0) && elapsed >= 1 && i < |s.slots| && s.slots[i].Busy()
    ensures SameTimers(BeforeSlots(s, elapsed).slots[i], Aged(s.slots[i], elapsed))
  {
    var s0 := s.(ticks := s.ticks + elapsed);
    hide Core, UpdateSyncObjects, UpdateTaskRequest;
    CoreOf(s, s0);
    TimeoutSlots(s0, elapsed);
    RequestTimers(UpdateSyncObjects(s0, elapsed), i);
  }

  lemma RequestTimers(a: State, i: nat)
    requires i < |a.slots| && a.slots[i].Busy()
    ensures SameTimers(UpdateTaskRequest(a).slots[i], a.slots[i])
  {
    if a.request { ServeTimers(a.(request := false), 0, i); }
  }

  lemma TickedSlot(s: State, elapsed: int, p: Policy, i: nat)
    requires Core(s, 0) && elapsed >= 1 && i < |s.slots| && s.slots[i].Busy() && !s.slots[i].removePending
    ensures SameTimers(OnTick(s, elapsed, p).slots[i], Ticked(s.slots[i], elapsed))
  {
    hide Core, UpdateSyncObjects, UpdateTaskRequest, UpdateFsm;
    TimersBeforeSlots(s, elapsed, i);
    PassTimers(BeforeSlots(s, elapsed), 0, i, elapsed);
  }

  lemma {:induction false} ServeWaits(s: State, i: nat, j: nat)
    requires i <= |s.slots| && j < |s.slots|
    ensures ServeFrom(s, i).slots[j].waitOn == s.slots[j].waitOn
    decreases |s.slots| - i
  {
    if i < |s.slots| {
      if s.slots[i].addReq.None? { ServeWaits(s, i + 1, j); } else { ServeWaits(ServeOne(s, i), i + 1, j); }
    }
  }

  lemma {:induction false} PassWaits(s: State, i: nat, j: nat, elapsed: int)
    requires i <= |s.slots| && j < |s.slots|
    ensures UpdateSlots(s, i, elapsed).slots[j].waitOn == s.slots[j].waitOn
    decreases |s.slots| - i
  {
    if i < |s.slots| { PassWaits(UpdateSlot(s, i, elapsed), i + 1, j, elapsed); }
  }

  lemma RequestWaits(a: State, j: nat)
    requires j < |a.slots|
    ensures UpdateTaskRequest(a).slots[j].waitOn == a.slots[j].waitOn
  {
    if a.request { ServeWaits(a.(request := false), 0, j); }
  }

  /** A tick starts no wait. */
  lemma TickWaitOn(s: State, elapsed: int, p: Policy, j: nat)
    requires Core(s, 0) && elapsed >= 1 && j < |s.slots|
    ensures OnTick(s, elapsed, p).slots[j].waitOn == Aged(s.slots[j], elapsed).waitOn
  {
    var s0 := s.(ticks := s.ticks + elapsed);
    hide Core, UpdateSyncObjects, UpdateTaskRequest, UpdateFsm;
    CoreOf(s, s0);
    TimeoutSlots(s0, elapsed);
    RequestWaits(UpdateSyncObjects(s0, elapsed), j);
    PassWaits(BeforeSlots(s, elapsed), 0, j, elapsed);
  }

  // ---- the other actions -----------------------------------------------------------------

  /** The action ends the wait of slot `i` or changes its sleep. */
  predicate Touches(s: State, a: Action, i: nat) {
    || (a.SignalOne? && a.obj < |s.waiters| && s.waiters[a.obj] != [] && s.waiters[a.obj][0] == i)
    || (a.SignalAll? && a.obj < |s.waiters| && i in s.waiters[a.obj])
    || a == Resume(i) || a == Remove(i) || a == RemoveTask(i)
  }

  lemma {:induction false} WakeListSpares(s: State, ws: seq<nat>, i: nat)
    requires InRange(ws, |s.slots|) && i < |s.slots| && i !in ws
    ensures |WakeList(s, ws).slots| == |s.slots|
    ensures WakeList(s, ws).slots[i] == s.slots[i] && WakeList(s, ws).ticks == s.ticks
    decreases |ws|
  {
    if ws != [] { WakeListSpares(WakeWaiter(s, ws[0], false), ws[1..], i); }
  }

  lemma {:induction false} InitialSleepTimers(s: State, i: nat, j: nat)
    requires i <= |s.slots| && j < |s.slots|
    ensures SameTimers(DeliverInitialSleeps(s, i).slots[j], s.slots[j])
    ensures DeliverInitialSleeps(s, i).ticks == s.ticks
    decreases |s.slots| - i
  {
    if i < |s.slots| {
      InitialSleepTimers(if s.slots[i].Asleep() then DeliverSleep(s, i) else s, i + 1, j);
    }
  }

  lemma StartKeepsTimers(s: State, p: Policy, i: nat)
    requires i < |s.slots|
    ensures |OnStart(s, p).slots| == |s.slots|
    ensures SameTimers(OnStart(s, p).slots[i], s.slots[i]) && OnStart(s, p).ticks == s.ticks
  {
    InitialSleepTimers(s.Check(s.strat.Size() != 0), 0, i);
  }

  /** A call by or about another task. */
  lemma CallKeepsTimers(s: State, a: Action, p: Policy, i: nat)
    requires ListsAgree(s) && Enabled(s, a)
    requires !a.Tick? && !a.Start? && !a.SignalAll? && !a.SignalOne? && !a.AddTask?
    requires i < |s.slots| && s.slots[i].Busy() && s.slots[i].Asleep() && !Touches(s, a, i)
    ensures |Exec(s, a, p).slots| == |s.slots|
    ensures SameTimers(Exec(s, a, p).slots[i], s.slots[i]) && Exec(s, a, p).ticks == s.ticks
  {
    InRangeOfAgree(s);
    hide ListsAgree, Servable;
  }

  /** Between ticks the timers of a sleeping task move only if the call is about that task. */
  lemma OthersKeepTimers(s: State, a: Action, p: Policy, i: nat)
    requires ListsAgree(s) && Enabled(s, a) && !a.Tick?
    requires i < |s.slots| && s.slots[i].Busy() && s.slots[i].Asleep() && !Touches(s, a, i)
    ensures |Exec(s, a, p).slots| == |s.slots|
    ensures SameTimers(Exec(s, a, p).slots[i], s.slots[i]) && Exec(s, a, p).ticks == s.ticks
  {
    InRangeOfAgree(s);
    hide ListsAgree, Servable, OnTick, OnStart;
    if a.SignalAll? {
      WakeListSpares(s, s.waiters[a.obj], i);
    } else if a.Start? {
      StartKeepsTimers(s, p, i);
    } else if !a.SignalOne? && !a.AddTask? {
      CallKeepsTimers(s, a, p, i);
    }
  }

  // ---- waits ---------------------------------------------------------------------------------

  function Elapsed(actions: seq<Action>, k: nat): int
    requires k <= |actions|
  {
    if k == 0 then 0 else Elapsed(actions, k - 1) + if actions[k - 1].Tick? then actions[k - 1].elapsed else 0
  }

  /** The elapsed time at which a wait armed with `timeout` can no longer be asleep: a timeout
      that is not positive expires on the first tick, an infinite one outlives INT32_MAX ticks. */
  function Due(timeout: int): int {
    Max(timeout, 1)
  }

  predicate WaitsSince(t: Slot, user: Option<nat>, o: nat, timeout: int, elapsed: int) {
    && t.user == user && user.Some? && t.waitOn == Some(o) && !t.timedOut && !t.removePending
    && t.waitLeft == (if timeout == WAIT_INFINITE then WAIT_INFINITE else timeout - elapsed)
    && t.sleep == -WAIT_INFINITE + elapsed
  }

  ghost predicate Untouched(states: seq<State>, actions: seq<Action>, i: nat, k: nat)
    requires k <= |actions| && |states| == |actions| + 1
  {
    forall j :: 0 <= j < k ==> !Touches(states[j], actions[j], i)
  }

  lemma WaitStep(s: State, a: Action, p: Policy, i: nat, user: Option<nat>, o: nat, timeout: int, elapsed: int)
    requires Inv(s) && Enabled(s, a) && Lawful(p) && !Touches(s, a, i) && i < |s.slots|
    requires WaitsSince(s.slots[i], user, o, timeout, elapsed)
    requires 0 <= elapsed < Due(timeout) <= WAIT_INFINITE
    ensures |Exec(s, a, p).slots| == |s.slots|
    ensures var e := elapsed + (if a.Tick? then a.elapsed else 0);
      && (e < Due(timeout) ==> WaitsSince(Exec(s, a, p).slots[i], user, o, timeout, e))
      && (e >= Due(timeout) && timeout != WAIT_INFINITE ==>
            var t := Exec(s, a, p).slots[i];
            t.waitOn == None && t.timedOut && !t.Asleep() && t.user == user)
  {
    if a.Tick? {
      TickedSlot(s, a.elapsed, p, i);
    } else {
      OthersKeepTimers(s, a, p, i);
    }
  }

  /** A wait that nobody signals runs down one tick at a time, its task asleep throughout. */
  lemma {:induction false} WaitRunsDown(states: seq<State>, actions: seq<Action>, p: Policy,
                                        i: nat, user: Option<nat>, o: nat, timeout: int, k: nat)
    requires IsRun(states, actions, p) && Lawful(p) && Inv(states[0]) && i < |states[0].slots|
    requires WaitsSince(states[0].slots[i], user, o, timeout, 0) && timeout <= WAIT_INFINITE
    requires k <= |actions| && Untouched(states, actions, i, k) && Elapsed(actions, k) < Due(timeout)
    ensures |states[k].slots| == |states[0].slots| && Elapsed(actions, k) >= 0
    ensures WaitsSince(states[k].slots[i], user, o, timeout, Elapsed(actions, k))
    ensures states[k].slots[i].Asleep()
  {
    if k > 0 {
      assert Step(states[k - 1], actions[k - 1], states[k - 1 + 1], p);
      WaitRunsDown(states, actions, p, i, user, o, timeout, k - 1);
      RunInv(states, actions, p, k - 1);
      WaitStep(states[k - 1], actions[k - 1], p, i, user, o, timeout, Elapsed(actions, k - 1));
    }
  }

  /** A finite wait that nobody signals ends at exactly the first tick at which the total
      elapsed time reaches the timeout; in that tick its task wakes, with a timeout. */
  lemma WaitExpires(states: seq<State>, actions: seq<Action>, p: Policy,
                    i: nat, user: Option<nat>, o: nat, timeout: int, k: nat)
    requires IsRun(states, actions, p) && Lawful(p) && Inv(states[0]) && i < |states[0].slots|
    requires WaitsSince(states[0].slots[i], user, o, timeout, 0) && timeout < WAIT_INFINITE
    requires k < |actions| && Untouched(states, actions, i, k + 1)
    requires Elapsed(actions, k) < Due(timeout) <= Elapsed(actions, k + 1)
    ensures actions[k].Tick?
    ensures |states[k].slots| == |states[0].slots| == |states[k + 1].slots|
    ensures states[k].slots[i].waitOn == Some(o) && states[k].slots[i].Asleep()
    ensures var r := states[k + 1];
      && r.slots[i].waitOn == None && r.slots[i].timedOut && !r.slots[i].Asleep() && r.slots[i].user == user
      && i in r.strat.active
      && (forall x :: 0 <= x < |r.waiters| ==> i !in r.waiters[x])
  {
    WaitRunsDown(states, actions, p, i, user, o, timeout, k);
    RunInv(states, actions, p, k);
    RunInv(states, actions, p, k + 1);
    assert Step(states[k], actions[k], states[k + 1], p);
    WaitStep(states[k], actions[k], p, i, user, o, timeout, Elapsed(actions, k));
    assert Runnable(states[k + 1].slots[i]);
    NotListed(states[k + 1], i);
  }

  /** `OnTaskWait` arms the wait the two theorems above speak of, at the tail of the queue. */
  lemma WaitArms(s: State, o: nat, timeout: int, p: Policy)
    requires Inv(s) && Enabled(s, Wait(o, timeout))
    ensures var i := s.cpu.slot; var r := Exec(s, Wait(o, timeout), p);
      && WaitsSince(r.slots[i], s.slots[i].user, o, timeout, 0)
      && r.waiters[o] == s.waiters[o] + [i] && o in r.syncList
      && r == s.(slots := s.slots[i := r.slots[i]], waiters := s.waiters[o := r.waiters[o]],
                 syncList := r.syncList, waitLog := s.waitLog + [Armed(i)])
  {
    WaitInv(s, s.cpu.slot, o, timeout);
    var r := Exec(s, Wait(o, timeout), p);
    assert r.waiters[o][|s.waiters[o]|] == s.cpu.slot;
  }

  /** A signal releases the longest waiter, marks it as signalled and wakes it on the next
      tick, however long that tick is; the others keep their places. */
  lemma SignalReleasesFirst(s: State, o: nat, elapsed: int, p: Policy)
    requires Inv(s) && Enabled(s, SignalOne(o)) && s.waiters[o] != [] && Lawful(p) && elapsed >= 1
    ensures var i := s.waiters[o][0]; var r := Exec(s, SignalOne(o), p);
      && i < |s.slots| && |r.slots| == |s.slots| && |r.waiters| == |s.waiters|
      && r.waiters[o] == s.waiters[o][1..]
      && r.slots[i].waitOn == None && !r.slots[i].timedOut
      && !OnTick(r, elapsed, p).slots[i].Asleep() && !OnTick(r, elapsed, p).slots[i].timedOut
      && r == s.(slots := s.slots[i := r.slots[i]], waiters := s.waiters[o := r.waiters[o]],
                 waitLog := s.waitLog + [Ended(i, false)])
  {
    InRangeOfAgree(s);
    var i := s.waiters[o][0];
    assert i in s.waiters[o] && BlockedOn(s, i, o);
    assert s.waiters[o][..1][0] == i;
    WakeWaiterInv(s, i, false);
    var r := WakeWaiter(s, i, false);
    assert SlotOk(s.slots[i], 0);
    TickedSlot(r, elapsed, p, i);
  }

  lemma HeadOfList(s: State, o: nat)
    requires Inv(s) && o < |s.waiters| && s.waiters[o] != []
    ensures var w := s.waiters[o][0];
      && w < |s.slots| && s.slots[w].waitOn == Some(o) && Unlinked(s.waiters[o], w) == s.waiters[o][1..]
      && w !in s.waiters[o][1..]
  {
    var w := s.waiters[o][0];
    assert w in s.waiters[o] && BlockedOn(s, w, o);
  }

  lemma {:induction false} WakeListReleases(s: State, o: nat, ws: seq<nat>)
    requires Inv(s) && o < |s.waiters| && s.waiters[o] == ws && InRange(ws, |s.slots|)
    requires SleepingWaiters(s, ws)
    ensures var r := WakeList(s, ws);
      && |r.slots| == |s.slots| && r.waiters == s.waiters[o := []]
      && (forall w: nat :: w in ws ==>
        w < |r.slots| && r.slots[w].waitOn == None && !r.slots[w].timedOut && r.slots[w].sleep == -1)
      && r.waitLog == s.waitLog + Signalled(ws)
    decreases |ws|
  {
    hide Core, ContextOk, Distinct;
    if ws == [] {
      assert s.waitLog + [] == s.waitLog;
    } else {
      var w := ws[0];
      HeadOfList(s, o);
      WakeWaiterInv(s, w, false);
      var a := WakeWaiter(s, w, false);
      WakeListReleases(a, o, ws[1..]);
      assert w !in ws[1..];
      WakeListSpares(a, ws[1..], w);
      assert forall x: nat :: x in ws <==> x == w || x in ws[1..];
      Assoc(s.waitLog, [Ended(w, false)], Signalled(ws[1..]));
    }
  }

  function Signalled(ws: seq<nat>): seq<WaitEvent> {
    if ws == [] then [] else [Ended(ws[0], false)] + Signalled(ws[1..])
  }

  /** `WakeAll` empties the queue: every waiter is released, signalled, in FIFO order. */
  lemma SignalReleasesAll(s: State, o: nat, p: Policy)
    requires Inv(s) && Enabled(s, SignalAll(o))
    ensures var r := Exec(s, SignalAll(o), p);
      && |r.slots| == |s.slots| && r.waiters == s.waiters[o := []]
      && (forall w: nat :: w in s.waiters[o] ==>
        w < |r.slots| && r.slots[w].waitOn == None && !r.slots[w].timedOut && r.slots[w].sleep == -1)
      && (forall w: nat :: w < |s.slots| && w !in s.waiters[o] ==> r.slots[w] == s.slots[w])
      && r.waitLog == s.waitLog + Signalled(s.waiters[o])
  {
    InRangeOfAgree(s);
    WakeListReleases(s, o, s.waiters[o]);
    forall w: nat | w < |s.slots| && w !in s.waiters[o] ensures Exec(s, SignalAll(o), p).slots[w] == s.slots[w] {
      WakeListSpares(s, s.waiters[o], w);
    }
  }

  /** Every wait is ended at most once: between two ends of waits of one slot it was armed. */
  lemma {:induction false} WaitsEndOnce(log: seq<WaitEvent>, j: nat, k: nat)
    requires Alternating(log) && j < k < |log| && log[j].slot == log[k].slot && log[j].Ended? && log[k].Ended?
    ensures exists m :: j < m < k && log[m] == Armed(log[j].slot)
  {
    var last := |log| - 1;
    if k < last {
      WaitsEndOnce(log[..last], j, k);
    } else {
      LastArmed(log[..last], j, log[j].slot);
    }
  }

  lemma {:induction false} LastArmed(log: seq<WaitEvent>, j: nat, i: nat)
    requires IsArmed(log, i) && j < |log| && log[j] != Armed(i)
    requires log[j].slot == i
    ensures exists m :: j < m < |log| && log[m] == Armed(i)
  {
    var last := |log| - 1;
    if log[last].slot != i {
      LastArmed(log[..last], j, i);
    } else {
      assert log[last] == Armed(i);
    }
  }

  // ---- absolute sleeps --------------------------------------------------------------------------

  predicate SleepsUntil(t: Slot, user: Option<nat>, timestamp: int, now: int) {
    t.user == user && user.Some? && t.waitOn.None? && !t.removePending && t.sleep == now - timestamp
  }

  lemma SleepStep(s: State, a: Action, p: Policy, i: nat, user: Option<nat>, timestamp: int)
    requires Inv(s) && Enabled(s, a) && Lawful(p) && !Touches(s, a, i) && i < |s.slots|
    requires SleepsUntil(s.slots[i], user, timestamp, s.ticks) && s.ticks < timestamp
    ensures |Exec(s, a, p).slots| == |s.slots|
    ensures SleepsUntil(Exec(s, a, p).slots[i], user, timestamp, Exec(s, a, p).ticks)
  {
    if a.Tick? {
      TickedSlot(s, a.elapsed, p, i);
      TickTime(s, a.elapsed, p);
    } else {
      OthersKeepTimers(s, a, p, i);
    }
  }

  lemma TickTime(s: State, elapsed: int, p: Policy)
    requires Core(s, 0) && elapsed >= 1
    ensures OnTick(s, elapsed, p).ticks == s.ticks + elapsed
  {
    var s0 := s.(ticks := s.ticks + elapsed);
    CoreOf(s, s0);
    ArmableOfCore(s0, 0);
    hide Core;
    UpdateSyncObjectsIs(s0, elapsed);
    var a := UpdateSyncObjects(s0, elapsed);
    hide UpdateSyncObjects;
    if a.request { ServeContext(a.(request := false), 0); }
    var b := UpdateTaskRequest(a);
    FsmOfPass(b, 0, elapsed);
    FsmKeepsSlots(UpdateSlots(b, 0, elapsed), p);
  }

  /** While a task sleeps until a timestamp, its counter is the distance to it. */
  lemma {:induction false} SleepUntilCounts(states: seq<State>, actions: seq<Action>, p: Policy,
                                            i: nat, user: Option<nat>, timestamp: int, k: nat)
    requires IsRun(states, actions, p) && Lawful(p) && Inv(states[0]) && i < |states[0].slots|
    requires SleepsUntil(states[0].slots[i], user, timestamp, states[0].ticks)
    requires k <= |actions| && Untouched(states, actions, i, k)
    requires forall j :: 0 <= j < k ==> states[j].ticks < timestamp
    ensures |states[k].slots| == |states[0].slots|
    ensures SleepsUntil(states[k].slots[i], user, timestamp, states[k].ticks)
  {
    if k > 0 {
      assert Step(states[k - 1], actions[k - 1], states[k - 1 + 1], p);
      SleepUntilCounts(states, actions, p, i, user, timestamp, k - 1);
      RunInv(states, actions, p, k - 1);
      SleepStep(states[k - 1], actions[k - 1], p, i, user, timestamp);
    }
  }

  /** Exact absolute wake-up: however the elapsed time is split into ticks, the task is asleep
      in every state before the timestamp and runnable in the first state at or after it. */
  lemma WakesAtTimestamp(states: seq<State>, actions: seq<Action>, p: Policy,
                         i: nat, user: Option<nat>, timestamp: int, k: nat)
    requires IsRun(states, actions, p) && Lawful(p) && Inv(states[0]) && i < |states[0].slots|
    requires SleepsUntil(states[0].slots[i], user, timestamp, states[0].ticks)
    requires k <= |actions| && Untouched(states, actions, i, k)
    requires forall j :: 0 <= j < k ==> states[j].ticks < timestamp
    ensures |states[k].slots| == |states[0].slots|
    ensures states[k].slots[i].Asleep() <==> states[k].ticks < timestamp
    ensures states[k].ticks >= timestamp ==> i in states[k].strat.active
  {
    SleepUntilCounts(states, actions, p, i, user, timestamp, k);
    RunInv(states, actions, p, k);
  }

  /** `OnTaskSleepUntil` starts such a sleep iff the timestamp lies in the future and within
      reach of a 32-bit counter. */
  lemma SleepUntilStarts(s: State, timestamp: int, p: Policy)
    requires Inv(s) && Enabled(s, SleepUntil(timestamp))
    ensures var r := Exec(s, SleepUntil(timestamp), p); var i := s.cpu.slot;
      && (timestamp <= s.ticks <==> r == s)
      && (0 < timestamp - s.ticks <= WAIT_INFINITE <==>
            SleepsUntil(r.slots[i], s.slots[i].user, timestamp, s.ticks) && r != s)
      && (timestamp - s.ticks > WAIT_INFINITE ==>
            SleepsUntil(r.slots[i], s.slots[i].user, s.ticks + WAIT_INFINITE, s.ticks))
  {
    InRangeOfAgree(s);
    var i := s.cpu.slot;
    var r := Exec(s, SleepUntil(timestamp), p);
    if timestamp > s.ticks {
      assert r.slots[i].Asleep() && !s.slots[i].Asleep();
    }
  }

  // ---- the other sleeps ----------------------------------------------------------------------------

  /** The task a call puts to sleep, and for how long. */
  predicate PutsToSleep(s: State, a: Action, i: nat, ticks: int) {
    || (a == Sleep(ticks) && ticks > 0 && s.cpu == OnTask(i))
    || (a == Suspend(i) && ticks == WAIT_INFINITE)
    || (a == Yield && s.now == Some(i) && ticks == YIELD_TICKS)
    || (a == AwaitRequest && s.cpu == OnTask(i) && ticks == YIELD_TICKS
        && i < |s.slots| && s.slots[i].addReq.Some?)
  }

  /** A sleep, a suspension, a forced yield and the wait for a request put a task that is awake to sleep
      for exactly their ticks and change nothing else; a task that sleeps already is left alone. */
  lemma SleepStarts(s: State, a: Action, p: Policy, i: nat, ticks: int)
    requires Inv(s) && Enabled(s, a) && PutsToSleep(s, a, i, ticks)
    ensures var r := Exec(s, a, p);
      && i < |s.slots|
      && (s.slots[i].Asleep() ==> r == s)
      && (!s.slots[i].Asleep() && !s.slots[i].Waiting() && !s.slots[i].removePending ==>
            && |r.slots| == |s.slots| && r == s.(slots := s.slots[i := r.slots[i]])
            && SleepsUntil(r.slots[i], s.slots[i].user, s.ticks + ticks, s.ticks) && r.slots[i].sleepPending)
  {
    hide Inv, ListsAgree, Servable, OnTick, OnStart, WakeList;
    assert ListsAgree(s) by { SlotAndLists(s, i); }
    InRangeOfAgree(s);
  }

  /** A requester whose request has been served already goes on. */
  lemma ServedGoesOn(s: State, p: Policy)
    requires Inv(s) && Enabled(s, AwaitRequest) && s.slots[s.cpu.slot].addReq.None?
    ensures ListsAgree(s)
    ensures var r, i := Exec(s, AwaitRequest, p), s.cpu.slot;
      r == s.(slots := s.slots[i := s.slots[i].(stage := Yielded)]) && CallerAt(r, Yielded)
  {
    hide Inv, OnTick, OnStart, WakeList;
    assert ListsAgree(s) by { SlotAndLists(s, s.cpu.slot); }
  }

  /** A task that is resumed, or whose sleep is cancelled, is awake after the next tick of any length. */
  lemma ResumeWakes(s: State, i: nat, elapsed: int, p: Policy)
    requires Inv(s) && Enabled(s, Resume(i)) && Lawful(p) && elapsed >= 1
    ensures ListsAgree(s)
    ensures var r := Exec(s, Resume(i), p);
      && |r.slots| == |s.slots| && r == s.(slots := s.slots[i := r.slots[i]])
      && !OnTick(r, elapsed, p).slots[i].Asleep() && OnTick(r, elapsed, p).slots[i].user == s.slots[i].user
  {
    hide Core, ContextOk, Servable, OnTick, OnStart, WakeList, Lawful, ListsAgree;
    assert ListsAgree(s) by { SlotAndLists(s, i); }
    InRangeOfAgree(s);
    StepInv(s, Resume(i), p);
    TickedSlot(Exec(s, Resume(i), p), elapsed, p, i);
  }
}
