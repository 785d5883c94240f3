/**
 The invariant of the scheduler and the fact that every operation keeps it.
 */
module Invariant {
  import opened KernelTypes
  import opened KernelSpec
  import opened SyncPass

  // ---- the strategy and its history -----------------------------------------------

  predicate Genuine(st: Strategy) {
    WellFormed(st.log) && Replay(st.log) == st
  }

  lemma GenuineStep(st: Strategy, e: Event)
    requires Genuine(st) && st.Accepts(e)
    ensures Genuine(st.Apply(e))
  {
    assert (st.log + [e])[..|st.log|] == st.log;
  }

  /** The kernel offers the task to the scheduler. */
  predicate Runnable(t: Slot) { t.Busy() && (!t.Asleep() || t.sleepPending) }
  /** The task sleeps and the strategy has been told. */
  predicate Dormant(t: Slot) { t.Busy() && t.Asleep() && !t.sleepPending }

  /** The strategy's two sets are exactly what the slots say. */
  predicate SetsAgree(slots: seq<Slot>, st: Strategy) {
    && (forall i :: i in st.active ==> i < |slots| && Runnable(slots[i]))
    && (forall i :: i in st.asleep ==> i < |slots| && Dormant(slots[i]))
    && (forall i :: 0 <= i < |slots| && Runnable(slots[i]) ==> i in st.active)
    && (forall i :: 0 <= i < |slots| && Dormant(slots[i]) ==> i in st.asleep)
  }

  // ---- slots -----------------------------------------------------------------------

  /** `slack` is the time the sleep counters still have to advance in the current tick. */
  predicate SlotOk(t: Slot, slack: int) {
    && (!t.Busy() ==> t.sleep == 0 && !t.sleepPending && !t.removePending && !t.Waiting()
                      && t.addReq.None? && t.stage == NoAdd)
    && -WAIT_INFINITE <= t.sleep
    && (t.sleepPending ==> t.Asleep())
    && (t.Waiting() ==> !t.timedOut && !t.removePending)
    && (t.Waiting() && t.waitLeft != WAIT_INFINITE ==>
          t.Asleep() && t.waitLeft + slack < -t.sleep && (slack > 0 ==> t.waitLeft > 0))
    && (t.addReq.Some? ==> t.stage != NoAdd)
    && (t.addReq.Some? && t.stage == Yielded ==> t.Asleep())
  }

  predicate SlotsOk(slots: seq<Slot>, slack: int) {
    forall i :: 0 <= i < |slots| ==> SlotOk(slots[i], slack)
  }

  predicate UsersDistinct(slots: seq<Slot>) {
    forall i, j :: 0 <= i < j < |slots| && slots[i].Busy() ==> slots[i].user != slots[j].user
  }

  /** A request that has been announced is still announced. */
  predicate RequestsFlagged(s: State) {
    forall i :: 0 <= i < |s.slots| && s.slots[i].addReq.Some? && s.slots[i].stage != Posted ==> s.request
  }

  // ---- waits -----------------------------------------------------------------------

  predicate IsArmed(log: seq<WaitEvent>, i: nat) {
    if log == [] then false
    else if log[|log| - 1].slot == i then log[|log| - 1].Armed?
    else IsArmed(log[..|log| - 1], i)
  }

  /** How the last wait of a slot ended, unless it is still on. */
  function Outcome(log: seq<WaitEvent>, i: nat): (r: Option<bool>)
    ensures IsArmed(log, i) ==> r == None
  {
    if log == [] then None
    else
      var last := log[|log| - 1];
      if last.slot != i then Outcome(log[..|log| - 1], i)
      else if last.Armed? then None
      else Some(last.timeout)
  }

  /** Arming and ending alternate for every slot. */
  predicate Alternating(log: seq<WaitEvent>) {
    log == [] ||
    (var last := log[|log| - 1];
     Alternating(log[..|log| - 1]) && last.Armed? != IsArmed(log[..|log| - 1], last.slot))
  }

  predicate WaitLogOk(s: State) {
    && Alternating(s.waitLog)
    && (forall i :: 0 <= i < |s.slots| ==> IsArmed(s.waitLog, i) == s.slots[i].Waiting())
    && (forall i :: 0 <= i < |s.slots| && Outcome(s.waitLog, i).Some? ==>
          s.slots[i].timedOut == Outcome(s.waitLog, i).value)
  }

  lemma ArmedAfter(log: seq<WaitEvent>, e: WaitEvent)
    ensures forall i: nat :: IsArmed(log + [e], i) == if i == e.slot then e.Armed? else IsArmed(log, i)
    ensures forall i: nat :: Outcome(log + [e], i) ==
              if i != e.slot then Outcome(log, i) else if e.Armed? then None else Some(e.timeout)
    ensures Alternating(log) && e.Armed? != IsArmed(log, e.slot) ==> Alternating(log + [e])
  {
    assert (log + [e])[..|log|] == log;
  }

  // ---- the running context -----------------------------------------------------------

  predicate Chained(sw: seq<Switch>) {
    forall k :: 0 < k < |sw| ==> sw[k].idle == sw[k - 1].active
  }

  predicate NowBusy(s: State) {
    s.now.Some? && s.now.value < |s.slots| && s.slots[s.now.value].Busy()
  }

  predicate ContextOk(s: State) {
    && Chained(s.switches)
    && (s.fsm in {Switching, Sleeping, Waking} ==>
          && NowBusy(s)
          && s.cpu == (if s.fsm == Sleeping then SleepTrap else OnTask(s.now.value))
          && s.switches != [] && s.switches[|s.switches| - 1].active == s.cpu)
    && (s.fsm == Sleeping ==> s.strat.active == {})
    && (s.fsm in {FsmNone, Exiting} ==> s.now.None?)
    && (s.fsm == FsmNone ==> s.cpu == Main)
    && (s.fsm == Exiting ==> s.cpu == ExitTrap && s.strat.Size() == 0)
  }

  /** Everything but the context: this part also holds inside a tick. */
  predicate Core(s: State, slack: int) {
    && !s.panic
    && Genuine(s.strat)
    && SetsAgree(s.slots, s.strat)
    && SlotsOk(s.slots, slack)
    && UsersDistinct(s.slots)
    && RequestsFlagged(s)
    && ListsAgree(s)
    && Registered(s)
    && WaitLogOk(s)
  }

  predicate Inv(s: State) {
    Core(s, 0) && ContextOk(s)
  }

  // ---- one slot changes ---------------------------------------------------------------

  /** A slot may be rewritten when neither the strategy nor a wait list has to hear of it. */
  predicate Quietly(t: Slot, t': Slot, request: bool, slack: int) {
    && SlotOk(t', slack)
    && t'.user == t.user && t'.waitOn == t.waitOn && t'.timedOut == t.timedOut
    && Runnable(t') == Runnable(t) && Dormant(t') == Dormant(t)
    && (t'.addReq.Some? && t'.stage != Posted ==> request)
  }

  lemma SetSlotCore(s: State, i: nat, t: Slot, slack: int)
    requires Core(s, slack) && i < |s.slots| && Quietly(s.slots[i], t, s.request, slack)
    ensures Core(SetSlot(s, i, t), slack)
  {
    var r := SetSlot(s, i, t);
    assert ListsAgree(r) by {
      forall o, w: nat | 0 <= o < |r.waiters| && w in r.waiters[o] ensures BlockedOn(r, w, o) {
        assert BlockedOn(s, w, o);
      }
    }
  }

  lemma SetSlotInv(s: State, i: nat, t: Slot)
    requires Inv(s) && i < |s.slots| && Quietly(s.slots[i], t, s.request, 0)
    ensures Inv(SetSlot(s, i, t))
  {
    SetSlotCore(s, i, t, 0);
  }

  // ---- ending a wait ----------------------------------------------------------------------

  lemma {:induction false} UnlinkedMember(ws: seq<nat>, i: nat, w: nat)
    requires Distinct(ws)
    ensures w in Unlinked(ws, i) <==> w in ws && w != i
  {
    if ws != [] {
      UnlinkedMember(ws[1..], i, w);
      assert ws[0] !in ws[1..];
      assert w in ws <==> w == ws[0] || w in ws[1..];
    }
  }

  lemma {:induction false} UnlinkedDistinct(ws: seq<nat>, i: nat)
    requires Distinct(ws)
    ensures Distinct(Unlinked(ws, i))
  {
    if ws != [] && ws[0] != i {
      UnlinkedDistinct(ws[1..], i);
      UnlinkedMember(ws[1..], i, ws[0]);
      assert ws[0] !in ws[1..];
    }
  }

  lemma WakeKeepsLists(s: State, i: nat, timeout: bool)
    requires ListsAgree(s) && i < |s.slots| && s.slots[i].Waiting()
    ensures ListsAgree(WakeWaiter(s, i, timeout))
  {
    var o := s.slots[i].waitOn.value;
    var r := WakeWaiter(s, i, timeout);
    UnlinkedDistinct(s.waiters[o], i);
    forall x, w: nat | 0 <= x < |r.waiters| && w in r.waiters[x] ensures BlockedOn(r, w, x) {
      UnlinkedMember(s.waiters[o], i, w);
      assert BlockedOn(s, w, x);
    }
    forall j: nat | j < |r.slots| && r.slots[j].Waiting()
      ensures r.slots[j].waitOn.value < |r.waiters| && j in r.waiters[r.slots[j].waitOn.value]
    {
      UnlinkedMember(s.waiters[o], i, j);
    }
  }

  /** `WaitObject::Wake` on a sleeping waiter: its assertions hold and the wait is over. */
  lemma WakeWaiterCore(s: State, i: nat, timeout: bool)
    requires Core(s, 0) && i < |s.slots| && s.slots[i].Waiting() && s.slots[i].Asleep()
    ensures WaiterOk(s, i) && i in s.waiters[s.slots[i].waitOn.value]
    ensures Core(WakeWaiter(s, i, timeout), 0)
  {
    var o := s.slots[i].waitOn.value;
    var r := WakeWaiter(s, i, timeout);
    WakeKeepsLists(s, i, timeout);
    assert s.waiters[o] != [];
    ArmedAfter(s.waitLog, Ended(i, timeout));
  }

  lemma WakeWaiterInv(s: State, i: nat, timeout: bool)
    requires Inv(s) && i < |s.slots| && s.slots[i].Waiting() && s.slots[i].Asleep()
    ensures Inv(WakeWaiter(s, i, timeout))
  {
    WakeWaiterCore(s, i, timeout);
  }

  lemma {:induction false} WakeListInv(s: State, o: nat, ws: seq<nat>)
    requires Inv(s) && o < |s.waiters| && s.waiters[o] == ws && InRange(ws, |s.slots|)
    requires forall k :: 0 <= k < |ws| ==> s.slots[ws[k]].Asleep()
    ensures Inv(WakeList(s, ws)) && |WakeList(s, ws).waiters| == |s.waiters| && WakeList(s, ws).waiters[o] == []
    decreases |ws|
  {
    if ws != [] {
      assert ws[0] in ws && BlockedOn(s, ws[0], o);
      WakeWaiterInv(s, ws[0], false);
      var a := WakeWaiter(s, ws[0], false);
      WakeListInv(a, o, ws[1..]);
    }
  }

  // ---- starting a wait ----------------------------------------------------------------------

  predicate MayWait(s: State, i: nat, o: nat, timeout: int) {
    && i < |s.slots| && o < |s.waiters|
    && s.slots[i].Busy() && !s.slots[i].Asleep() && !s.slots[i].Waiting() && !s.slots[i].removePending
    && timeout != 0 && timeout <= WAIT_INFINITE
  }

  lemma NotListed(s: State, i: nat)
    requires ListsAgree(s) && i < |s.slots| && !s.slots[i].Waiting()
    ensures forall o :: 0 <= o < |s.waiters| ==> i !in s.waiters[o]
  {
    assert forall o :: 0 <= o < |s.waiters| && i in s.waiters[o] ==> BlockedOn(s, i, o);
  }

  lemma WaitLists(s: State, i: nat, o: nat, timeout: int)
    requires ListsAgree(s) && MayWait(s, i, o, timeout)
    ensures ListsAgree(OnTaskWait(s, i, o, timeout))
  {
    var r := OnTaskWait(s, i, o, timeout);
    NotListed(s, i);
    forall x, w: nat | 0 <= x < |r.waiters| && w in r.waiters[x] ensures BlockedOn(r, w, x) {
      assert w != i ==> w in s.waiters[x] && BlockedOn(s, w, x);
    }
  }

  lemma WaitRegistered(s: State, i: nat, o: nat, timeout: int)
    requires Registered(s) && MayWait(s, i, o, timeout)
    ensures Registered(OnTaskWait(s, i, o, timeout))
  {
    var r := OnTaskWait(s, i, o, timeout);
    assert o in r.syncList by {
      if o !in s.syncList { assert r.syncList[|s.syncList|] == o; }
    }
    forall x | 0 <= x < |r.waiters| && r.waiters[x] != [] ensures x in r.syncList {
      if x != o { assert x in s.syncList; }
    }
  }

  lemma WaitInv(s: State, i: nat, o: nat, timeout: int)
    requires Inv(s) && MayWait(s, i, o, timeout)
    ensures Inv(OnTaskWait(s, i, o, timeout))
  {
    hide ListsAgree, Registered, Genuine;
    WaitLists(s, i, o, timeout);
    WaitRegistered(s, i, o, timeout);
    ArmedAfter(s.waitLog, Armed(i));
  }
}
