/**
 A waiting task is always asleep. For finite timeouts this is part of the invariant. An
 infinite wait is a sleep of INT32_MAX ticks that still counts, so for it the fact holds in
 every run that does not let such a counter run out, and fails on the tick that does.
 */
module Waiters {
  import opened KernelTypes
  import opened KernelSpec
  import opened SyncPass
  import opened Invariant
  import opened TickInvariant
  import opened Runs
  import opened Timing

  predicate WaitersAsleep(s: State) {
    forall i :: 0 <= i < |s.slots| && s.slots[i].Waiting() ==> s.slots[i].Asleep()
  }

  /** The tick ends before the counter of any infinite wait does. */
  predicate InfiniteWaitsLast(s: State, elapsed: int) {
    forall i :: 0 <= i < |s.slots| && s.slots[i].Waiting() && s.slots[i].waitLeft == WAIT_INFINITE ==>
      s.slots[i].sleep + elapsed < 0
  }

  predicate InTime(s: State, a: Action) {
    a.Tick? ==> InfiniteWaitsLast(s, a.elapsed)
  }

  lemma TickWaiterAsleep(s: State, elapsed: int, p: Policy, i: nat)
    requires Inv(s) && elapsed >= 1 && InfiniteWaitsLast(s, elapsed) && i < |s.slots|
    requires WaitersAsleep(s) && OnTick(s, elapsed, p).slots[i].Waiting()
    ensures OnTick(s, elapsed, p).slots[i].Asleep()
  {
    TickWaitOn(s, elapsed, p, i);
    assert SlotOk(s.slots[i], 0) && s.slots[i].Waiting();
    TickedSlot(s, elapsed, p, i);
  }

  lemma WakeWaiting(s: State, w: nat, i: nat)
    requires w < |s.slots| && i < |s.slots|
    ensures WakeWaiter(s, w, false).slots[i].Waiting() ==> WakeWaiter(s, w, false).slots[i] == s.slots[i]
  {
  }

  lemma AllocateWaiting(s: State, user: nat, i: nat)
    requires i < |s.slots|
    ensures AllocateAndAdd(s, user).slots[i] == s.slots[i].(user := AllocateAndAdd(s, user).slots[i].user)
  {
  }

  lemma RemoveWaiting(s: State, w: nat, i: nat)
    requires w < |s.slots| && i < |s.slots|
    ensures w != i ==> RemoveSlot(s, w).slots[i] == s.slots[i]
    ensures RemoveSlot(s, i).slots[i].waitOn == s.slots[i].waitOn
  {
  }

  lemma {:induction false} WakeListWaiting(s: State, ws: seq<nat>, i: nat)
    requires InRange(ws, |s.slots|) && i < |s.slots|
    ensures |WakeList(s, ws).slots| == |s.slots|
    ensures WakeList(s, ws).slots[i].Waiting() ==> WakeList(s, ws).slots[i] == s.slots[i]
    decreases |ws|
  {
    if ws != [] { WakeListWaiting(WakeWaiter(s, ws[0], false), ws[1..], i); }
  }

  lemma CallWaiterAsleep(s: State, a: Action, p: Policy, i: nat)
    requires Inv(s) && Enabled(s, a) && !a.Tick? && WaitersAsleep(s) && i < |s.slots|
    requires i < |Exec(s, a, p).slots| && Exec(s, a, p).slots[i].Waiting()
    ensures Exec(s, a, p).slots[i].Asleep()
  {
    hide Inv, ListsAgree, Servable, OnTick, OnStart, AllocateAndAdd, RemoveSlot, WakeWaiter, WakeList;
    SlotAndLists(s, i);
    InRangeOfAgree(s);
    if a.AddTask? {
      AllocateWaiting(s, a.user, i);
    } else if a.RemoveTask? {
      RemoveWaiting(s, a.slot, i);
    } else if a.SignalOne? && s.waiters[a.obj] != [] {
      WakeWaiting(s, s.waiters[a.obj][0], i);
    } else if a.SignalAll? {
      WakeListWaiting(s, s.waiters[a.obj], i);
    } else if a.Start? {
      StartKeepsTimers(s, p, i);
    }
  }

  lemma StepWaitersAsleep(s: State, a: Action, p: Policy)
    requires Inv(s) && Enabled(s, a) && Lawful(p) && InTime(s, a) && WaitersAsleep(s)
    ensures WaitersAsleep(Exec(s, a, p))
  {
    InRangeOfAgree(s);
    var r := Exec(s, a, p);
    ExecKeepsCount(s, a, p);
    forall i | 0 <= i < |r.slots| && r.slots[i].Waiting() ensures r.slots[i].Asleep() {
      if a.Tick? { TickWaiterAsleep(s, a.elapsed, p, i); } else { CallWaiterAsleep(s, a, p, i); }
    }
  }

  lemma ExecKeepsCount(s: State, a: Action, p: Policy)
    requires ListsAgree(s) && Enabled(s, a)
    ensures |Exec(s, a, p).slots| == |s.slots|
  {
    InRangeOfAgree(s);
    hide ListsAgree, Servable;
    if a.SignalAll? && |s.slots| > 0 {
      WakeListWaiting(s, s.waiters[a.obj], 0);
    }
  }

  /** Over every run that stays within the counters of its infinite waits, every waiting task
      is asleep, so the assertion in `Wake` cannot fire and a signal is always permitted. */
  lemma {:induction false} RunWaitersAsleep(states: seq<State>, actions: seq<Action>, p: Policy, k: nat)
    requires IsRun(states, actions, p) && Lawful(p) && Inv(states[0]) && WaitersAsleep(states[0]) && k < |states|
    requires forall j :: 0 <= j < k ==> InTime(states[j], actions[j])
    ensures WaitersAsleep(states[k])
    ensures forall o: nat :: o < |states[k].waiters| ==>
              Enabled(states[k], SignalOne(o)) && Enabled(states[k], SignalAll(o))
  {
    if k > 0 {
      RunWaitersAsleep(states, actions, p, k - 1);
      RunInv(states, actions, p, k - 1);
      assert Step(states[k - 1], actions[k - 1], states[k - 1 + 1], p);
      StepWaitersAsleep(states[k - 1], actions[k - 1], p);
    }
    RunInv(states, actions, p, k);
    SignalsAllowed(states[k]);
  }

  lemma SignalsAllowed(s: State)
    requires ListsAgree(s) && WaitersAsleep(s)
    ensures forall o: nat :: o < |s.waiters| ==> Enabled(s, SignalOne(o)) && Enabled(s, SignalAll(o))
  {
    forall o: nat | o < |s.waiters| ensures SleepingWaiters(s, s.waiters[o]) {
      forall k | 0 <= k < |s.waiters[o]| ensures s.waiters[o][k] < |s.slots| && s.slots[s.waiters[o][k]].Asleep() {
        assert s.waiters[o][k] in s.waiters[o] && BlockedOn(s, s.waiters[o][k], o);
      }
    }
  }

  /** The bound is sharp: the tick that exhausts the counter of an infinite wait leaves its
      task awake and still queued, exactly when it is out of time. */
  lemma InfiniteWaitOverrun(s: State, elapsed: int, p: Policy, i: nat)
    requires Inv(s) && Enabled(s, Tick(elapsed)) && Lawful(p)
    requires i < |s.slots| && s.slots[i].Waiting() && s.slots[i].waitLeft == WAIT_INFINITE && s.slots[i].Asleep()
    ensures var r := OnTick(s, elapsed, p);
      && r.slots[i].waitOn == s.slots[i].waitOn
      && (r.slots[i].Asleep() <==> s.slots[i].sleep + elapsed < 0)
  {
    assert SlotOk(s.slots[i], 0);
    TickedSlot(s, elapsed, p, i);
  }
}
