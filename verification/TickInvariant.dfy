/**
 A tick keeps the invariant, phase by phase: timeouts, add requests, the slot pass and
 the state machine.
 */
module TickInvariant {
  import opened KernelTypes
  import opened KernelSpec
  import opened SyncPass
  import opened Invariant

  // ---- timeouts ------------------------------------------------------------------------

  predicate Unrepeated(es: seq<WaitEvent>) {
    forall j, k :: 0 <= j < k < |es| ==> es[j] != es[k]
  }

  predicate TimeoutEnds(es: seq<WaitEvent>) {
    forall k :: 0 <= k < |es| ==> es[k] == Ended(es[k].slot, true)
  }

  lemma {:induction false} EndAll(log: seq<WaitEvent>, es: seq<WaitEvent>)
    requires Alternating(log) && TimeoutEnds(es) && Unrepeated(es)
    requires forall k :: 0 <= k < |es| ==> IsArmed(log, es[k].slot)
    ensures Alternating(log + es)
    ensures forall i: nat :: IsArmed(log + es, i) == (IsArmed(log, i) && Ended(i, true) !in es)
    ensures forall i: nat :: Outcome(log + es, i) == if Ended(i, true) in es then Some(true) else Outcome(log, i)
  {
    if es == [] {
      assert log + es == log;
    } else {
      var front, last := es[..|es| - 1], es[|es| - 1];
      hide IsArmed, Outcome, Alternating;
      EndAll(log, front);
      assert es == front + [last];
      Assoc(log, front, [last]);
      assert last !in front;
      ArmedAfter(log + front, last);
      assert forall i: nat :: Ended(i, true) in es <==> Ended(i, true) in front || Ended(i, true) == last;
    }
  }

  lemma {:induction false} ExpiryLogOf(ws: seq<nat>, slots: seq<Slot>, elapsed: int)
    requires InRange(ws, |slots|) && Distinct(ws)
    ensures TimeoutEnds(ExpiryLog(ws, slots, elapsed)) && Unrepeated(ExpiryLog(ws, slots, elapsed))
    ensures forall w: nat :: Ended(w, true) in ExpiryLog(ws, slots, elapsed) <==> w in ws && Expires(slots[w], elapsed)
  {
    if ws != [] {
      hide Expires;
      ExpiryLogOf(ws[1..], slots, elapsed);
      assert ws[0] !in ws[1..];
      var head: seq<WaitEvent> := if Expires(slots[ws[0]], elapsed) then [Ended(ws[0], true)] else [];
      var rest := ExpiryLog(ws[1..], slots, elapsed);
      assert ExpiryLog(ws, slots, elapsed) == head + rest;
      JoinEnds(head, rest);
      forall w: nat ensures Ended(w, true) in head + rest <==> w in ws && Expires(slots[w], elapsed) {
        assert w in ws <==> w == ws[0] || w in ws[1..];
      }
    }
  }

  lemma JoinEnds(a: seq<WaitEvent>, b: seq<WaitEvent>)
    requires TimeoutEnds(a) && TimeoutEnds(b) && Unrepeated(a) && Unrepeated(b)
    requires forall w: nat :: !(Ended(w, true) in a && Ended(w, true) in b)
    ensures TimeoutEnds(a + b) && Unrepeated(a + b)
  {
    forall j, k | 0 <= j < k < |a + b| ensures (a + b)[j] != (a + b)[k] {
      if j < |a| <= k {
        assert a[j] in a && b[k - |a|] in b;
        assert a[j] == Ended(a[j].slot, true) && b[k - |a|] == Ended(b[k - |a|].slot, true);
      }
    }
  }

  lemma {:induction false} AllExpiriesOf(s: State, objs: seq<nat>, elapsed: int)
    requires ListsAgree(s) && ObjectsInRange(s) && InRange(objs, |s.waiters|) && Distinct(objs)
    ensures TimeoutEnds(AllExpiries(s, objs, elapsed)) && Unrepeated(AllExpiries(s, objs, elapsed))
    ensures forall w: nat :: Ended(w, true) in AllExpiries(s, objs, elapsed) <==>
              w < |s.slots| && s.slots[w].Waiting() && s.slots[w].waitOn.value in objs && Expires(s.slots[w], elapsed)
  {
    if objs != [] {
      var o, rest := objs[0], objs[1..];
      AllExpiriesOf(s, rest, elapsed);
      ExpiryLogOf(s.waiters[o], s.slots, elapsed);
      assert o !in rest;
      var a, b := ExpiryLog(s.waiters[o], s.slots, elapsed), AllExpiries(s, rest, elapsed);
      forall w: nat ensures Ended(w, true) in a <==>
        w < |s.slots| && s.slots[w].waitOn == Some(o) && Expires(s.slots[w], elapsed)
      {
        assert w in s.waiters[o] ==> BlockedOn(s, w, o);
      }
      JoinEnds(a, b);
      forall w: nat ensures Ended(w, true) in AllExpiries(s, objs, elapsed) <==>
        w < |s.slots| && s.slots[w].Waiting() && s.slots[w].waitOn.value in objs && Expires(s.slots[w], elapsed)
      {
        assert Ended(w, true) in a + b <==> Ended(w, true) in a || Ended(w, true) in b;
        assert w < |s.slots| && s.slots[w].Waiting() ==>
            (s.slots[w].waitOn.value in objs <==> s.slots[w].waitOn.value == o || s.slots[w].waitOn.value in rest);
      }
    }
  }

  lemma ArmableOfCore(s: State, slack: int)
    requires Core(s, slack)
    ensures AllArmable(s.slots)
  {
    forall i | 0 <= i < |s.slots| ensures Armable(s.slots[i]) { assert SlotOk(s.slots[i], slack); }
  }

  lemma TimeoutSlots(s: State, elapsed: int)
    requires Core(s, 0) && elapsed >= 1
    ensures UpdateSyncObjects(s, elapsed).slots == AgedAll(s.slots, elapsed)
  {
    ArmableOfCore(s, 0);
    UpdateSyncObjectsIs(s, elapsed);
  }

  lemma TimeoutsWaitLog(s: State, elapsed: int)
    requires Core(s, 0) && elapsed >= 1
    ensures WaitLogOk(UpdateSyncObjects(s, elapsed))
  {
    hide Alternating, IsArmed, Outcome, SetsAgree, UsersDistinct, Genuine, UpdateSyncObjects, AllExpiries, StillWaited;
    ArmableOfCore(s, 0);
    UpdateSyncObjectsIs(s, elapsed);
    AllExpiriesOf(s, s.syncList, elapsed);
    var es := AllExpiries(s, s.syncList, elapsed);
    forall k | 0 <= k < |es| ensures IsArmed(s.waitLog, es[k].slot) {
      assert es[k] in es;
    }
    EndAll(s.waitLog, es);
    var r := UpdateSyncObjects(s, elapsed);
    forall i: nat | i < |r.slots|
      ensures IsArmed(r.waitLog, i) == r.slots[i].Waiting()
      ensures Outcome(r.waitLog, i).Some? ==> r.slots[i].timedOut == Outcome(r.waitLog, i).value
    {
      assert SlotOk(s.slots[i], 0);
      if s.slots[i].Waiting() {
        assert s.waiters[s.slots[i].waitOn.value] != [];
      }
    }
  }

  lemma AgedSlotOk(t: Slot, elapsed: int)
    requires SlotOk(t, 0) && elapsed >= 1
    ensures SlotOk(Aged(t, elapsed), elapsed)
    ensures Runnable(Aged(t, elapsed)) == Runnable(t) && Dormant(Aged(t, elapsed)) == Dormant(t)
    ensures Aged(t, elapsed).user == t.user && Aged(t, elapsed).addReq == t.addReq && Aged(t, elapsed).stage == t.stage
  {
  }

  /** The timeout pass keeps the core; the counters are then due to advance by `elapsed`. */
  lemma TimeoutsCore(s: State, elapsed: int)
    requires Core(s, 0) && elapsed >= 1
    ensures Core(UpdateSyncObjects(s, elapsed), elapsed)
  {
    ArmableOfCore(s, 0);
    UpdateSyncObjectsIs(s, elapsed);
    TimeoutsWaitLog(s, elapsed);
    var r := UpdateSyncObjects(s, elapsed);
    forall i | 0 <= i < |s.slots|
      ensures SlotOk(r.slots[i], elapsed)
              && Runnable(r.slots[i]) == Runnable(s.slots[i]) && Dormant(r.slots[i]) == Dormant(s.slots[i])
              && r.slots[i].user == s.slots[i].user
              && r.slots[i].addReq == s.slots[i].addReq && r.slots[i].stage == s.slots[i].stage
    {
      AgedSlotOk(s.slots[i], elapsed);
    }
  }

  // ---- add requests ----------------------------------------------------------------------

  function FreeCount(slots: seq<Slot>): nat {
    if slots == [] then 0 else (if slots[0].Busy() then 0 else 1) + FreeCount(slots[1..])
  }

  function PendingFrom(slots: seq<Slot>, i: nat): nat
    requires i <= |slots|
    decreases |slots| - i
  {
    if i == |slots| then 0 else (if slots[i].addReq.Some? then 1 else 0) + PendingFrom(slots, i + 1)
  }

  lemma {:induction false} FreeCountUpdate(slots: seq<Slot>, k: nat, t: Slot)
    requires k < |slots|
    ensures FreeCount(slots[k := t]) ==
            FreeCount(slots) + (if slots[k].Busy() then 1 else 0) - (if t.Busy() then 1 else 0)
  {
    if k == 0 {
      assert slots[k := t][1..] == slots[1..];
    } else {
      assert slots[k := t][1..] == slots[1..][k - 1 := t];
      FreeCountUpdate(slots[1..], k - 1, t);
    }
  }

  lemma {:induction false} SomeFree(slots: seq<Slot>)
    requires forall j :: 0 <= j < |slots| ==> slots[j].Busy()
    ensures FreeCount(slots) == 0
  {
    if slots != [] { SomeFree(slots[1..]); }
  }

  lemma {:induction false} PendingSame(a: seq<Slot>, b: seq<Slot>, i: nat)
    requires i <= |a| == |b| && forall j :: i <= j < |a| ==> a[j].addReq == b[j].addReq
    ensures PendingFrom(a, i) == PendingFrom(b, i)
    decreases |a| - i
  {
    if i < |a| { PendingSame(a, b, i + 1); }
  }

  /** The users asked for from slot `i` on are new and asked for once. */
  predicate FreshRequests(slots: seq<Slot>, i: nat) {
    && (forall j :: i <= j < |slots| && slots[j].addReq.Some? ==> UserUnbound(slots, slots[j].addReq.value))
    && (forall j, k :: i <= j < k < |slots| && slots[j].addReq.Some? ==> slots[j].addReq != slots[k].addReq)
  }

  /** What the application owes the kernel: a free slot for each request, and new tasks only. */
  predicate Servable(s: State) {
    s.request ==> PendingFrom(s.slots, 0) <= FreeCount(s.slots) && FreshRequests(s.slots, 0)
  }

  lemma MoveSets(slots: seq<Slot>, was: Strategy, i: nat, t: Slot, st: Strategy)
    requires SetsAgree(slots, was) && i < |slots|
    requires forall j: nat :: j != i ==>
               (j in st.active <==> j in was.active) && (j in st.asleep <==> j in was.asleep)
    requires (i in st.active <==> Runnable(t)) && (i in st.asleep <==> Dormant(t))
    ensures SetsAgree(slots[i := t], st)
  {
    hide Runnable, Dormant;
  }

  lemma MoveLists(s: State, i: nat, t: Slot, r: State)
    requires ListsAgree(s) && Registered(s) && i < |s.slots| && t.waitOn == s.slots[i].waitOn
    requires r.slots == s.slots[i := t] && r.waiters == s.waiters && r.syncList == s.syncList
    ensures ListsAgree(r) && Registered(r)
  {
    forall o, w: nat | 0 <= o < |r.waiters| && w in r.waiters[o] ensures BlockedOn(r, w, o) {
      assert BlockedOn(s, w, o);
    }
  }

  lemma MoveWaitLog(s: State, i: nat, t: Slot, r: State)
    requires WaitLogOk(s) && i < |s.slots| && t.waitOn == s.slots[i].waitOn && t.timedOut == s.slots[i].timedOut
    requires r.slots == s.slots[i := t] && r.waitLog == s.waitLog
    ensures WaitLogOk(r)
  {
    hide Alternating, IsArmed, Outcome;
  }

  /** What the core says of a free slot and of the task bound to it. */
  lemma FreeSlotBound(s: State, k: nat, user: nat, slack: int)
    requires Core(s, slack) && k < |s.slots| && !s.slots[k].Busy()
    ensures !s.panic && Genuine(s.strat) && !s.strat.Manages(k)
    ensures var t := s.slots[k].(user := Some(user)); SlotOk(t, slack) && Runnable(t) && !Dormant(t) && t.addReq.None?
  {
    hide ListsAgree, Registered, WaitLogOk, Genuine, UsersDistinct;
    assert SlotOk(s.slots[k], slack);
  }

  lemma AllocateCore(s: State, user: nat, slack: int)
    requires Core(s, slack) && UserUnbound(s.slots, user) && FirstFree(s.slots, 0) < |s.slots|
    ensures Core(AllocateAndAdd(s, user), slack)
  {
    hide SetsAgree, ListsAgree, Registered, WaitLogOk, Genuine, SlotOk, Runnable, Dormant;
    var k := FirstFree(s.slots, 0);
    var r := AllocateAndAdd(s, user);
    var t := s.slots[k].(user := Some(user));
    FreeSlotBound(s, k, user, slack);
    GenuineStep(s.strat, Added(k));
    MoveSets(s.slots, s.strat, k, t, s.strat.Apply(Added(k)));
    MoveLists(s, k, t, r);
    MoveWaitLog(s, k, t, r);
  }

  /** Serving the request of slot `i`. */
  function ServeOne(s: State, i: nat): (r: State)
    requires i < |s.slots| && s.slots[i].addReq.Some?
    ensures |r.slots| == |s.slots|
  {
    var a := AllocateAndAdd(s, s.slots[i].addReq.value);
    a.(slots := a.slots[i := a.slots[i].(addReq := None)])
  }

  predicate Serving(s: State, i: nat, slack: int) {
    && Core(s, slack) && s.request && i <= |s.slots|
    && PendingFrom(s.slots, i) <= FreeCount(s.slots) && FreshRequests(s.slots, i)
    && (forall j :: 0 <= j < i ==> s.slots[j].addReq.None?)
  }

  lemma ServeOneFree(s: State, i: nat, slack: int)
    requires Serving(s, i, slack) && i < |s.slots| && s.slots[i].addReq.Some?
    ensures FirstFree(s.slots, 0) < |s.slots| && FirstFree(s.slots, 0) != i
  {
    if FirstFree(s.slots, 0) == |s.slots| {
      SomeFree(s.slots);
      assert false;
    }
    assert SlotOk(s.slots[i], slack);
  }

  lemma ServeOneCore(s: State, i: nat, slack: int)
    requires Serving(s, i, slack) && i < |s.slots| && s.slots[i].addReq.Some?
    ensures Core(ServeOne(s, i), slack) && ServeOne(s, i).request
  {
    var k := FirstFree(s.slots, 0);
    ServeOneFree(s, i, slack);
    AllocateCore(s, s.slots[i].addReq.value, slack);
    var a := AllocateAndAdd(s, s.slots[i].addReq.value);
    assert SlotOk(s.slots[i], slack);
    SetSlotCore(a, i, a.slots[i].(addReq := None), slack);
  }

  /** How serving slot `i` rewrites the slots: `k` is bound, `i` is cleared. */
  lemma ServeOneSlots(s: State, i: nat, slack: int)
    requires Serving(s, i, slack) && i < |s.slots| && s.slots[i].addReq.Some?
    ensures var k := FirstFree(s.slots, 0);
      && k < |s.slots| && k != i && !s.slots[k].Busy() && s.slots[k].addReq.None?
      && s.slots[i].Busy()
      && ServeOne(s, i).slots == s.slots[k := s.slots[k].(user := s.slots[i].addReq)][i := s.slots[i].(addReq := None)]
  {
    ServeOneFree(s, i, slack);
    assert SlotOk(s.slots[FirstFree(s.slots, 0)], slack) && SlotOk(s.slots[i], slack);
  }

  lemma RequestsStayFresh(slots: seq<Slot>, i: nat, k: nat)
    requires i < |slots| && k < |slots| && k != i && slots[k].addReq.None? && !slots[k].Busy()
    requires slots[i].addReq.Some? && FreshRequests(slots, i)
    ensures FreshRequests(slots[k := slots[k].(user := slots[i].addReq)][i := slots[i].(addReq := None)], i + 1)
  {
    var b := slots[k := slots[k].(user := slots[i].addReq)][i := slots[i].(addReq := None)];
    forall j | i + 1 <= j < |b| && b[j].addReq.Some? ensures UserUnbound(b, b[j].addReq.value) {
      assert UserUnbound(slots, slots[j].addReq.value) && slots[i].addReq != slots[j].addReq;
    }
  }

  lemma ServeOneCounts(s: State, i: nat, slack: int)
    requires Serving(s, i, slack) && i < |s.slots| && s.slots[i].addReq.Some?
    ensures var b := ServeOne(s, i);
      && PendingFrom(b.slots, i + 1) <= FreeCount(b.slots) && FreshRequests(b.slots, i + 1)
      && (forall j :: 0 <= j < i + 1 ==> b.slots[j].addReq.None?)
  {
    hide Core, SlotOk, FreshRequests;
    var k := FirstFree(s.slots, 0);
    ServeOneSlots(s, i, slack);
    var mid, b := s.slots[k := s.slots[k].(user := s.slots[i].addReq)], ServeOne(s, i);
    FreeCountUpdate(s.slots, k, mid[k]);
    FreeCountUpdate(mid, i, b.slots[i]);
    PendingSame(s.slots, b.slots, i + 1);
    RequestsStayFresh(s.slots, i, k);
  }

  lemma ServeSkip(s: State, i: nat, slack: int)
    requires Serving(s, i, slack) && i < |s.slots| && s.slots[i].addReq.None?
    ensures Serving(s, i + 1, slack)
  {
    hide Core;
  }

  lemma {:induction false} ServeCore(s: State, i: nat, slack: int)
    requires Serving(s, i, slack)
    ensures Serving(ServeFrom(s, i), |s.slots|, slack)
    decreases |s.slots| - i
  {
    hide Core, FreshRequests, FreeCount, PendingFrom, FirstFree;
    if i < |s.slots| {
      if s.slots[i].addReq.None? {
        ServeSkip(s, i, slack);
        ServeCore(s, i + 1, slack);
      } else {
        ServeOneCore(s, i, slack);
        ServeOneCounts(s, i, slack);
        ServeCore(ServeOne(s, i), i + 1, slack);
      }
    }
  }

  lemma {:induction false} ServeIgnoresFlag(s: State, i: nat, flag: bool)
    requires i <= |s.slots|
    ensures ServeFrom(s.(request := flag), i) == ServeFrom(s, i).(request := flag)
    decreases |s.slots| - i
  {
    if i < |s.slots| {
      if s.slots[i].addReq.None? {
        ServeIgnoresFlag(s, i + 1, flag);
      } else {
        var a := AllocateAndAdd(s, s.slots[i].addReq.value);
        ServeIgnoresFlag(a.(slots := a.slots[i := a.slots[i].(addReq := None)]), i + 1, flag);
      }
    }
  }

  lemma RequestsCore(s: State, slack: int)
    requires Core(s, slack) && Servable(s)
    ensures var r := UpdateTaskRequest(s);
      Core(r, slack) && !r.request
  {
    if s.request {
      ServeIgnoresFlag(s, 0, false);
      ServeCore(s, 0, slack);
    }
  }

  // ---- the slot pass -------------------------------------------------------------------------

  predicate SameContext(s: State, r: State) {
    s.now == r.now && s.fsm == r.fsm && s.cpu == r.cpu && s.switches == r.switches
  }

  /** The slot pass has reached slot `i`: the slots before it have advanced. */
  predicate MidPass(s: State, i: nat, elapsed: int) {
    && i <= |s.slots|
    && Core(s, 0) && !s.request && elapsed >= 1
    && (forall j :: 0 <= j < i ==> !s.slots[j].sleepPending)
    && (forall j :: i <= j < |s.slots| ==> SlotOk(s.slots[j], elapsed))
  }

  /** The current task survives the pass, unless it was the last one of a sleeping kernel. */
  predicate MidContext(s: State) {
    && Chained(s.switches)
    && (s.fsm in {Switching, Sleeping, Waking} ==>
          && (NowBusy(s) || (s.fsm == Sleeping && s.strat.Size() == 0))
          && s.switches != [] && s.switches[|s.switches| - 1].active == s.cpu
          && (s.fsm == Sleeping ==> s.cpu == SleepTrap)
          && (s.fsm != Sleeping ==> s.cpu == OnTask(s.now.value)))
    && (s.fsm in {FsmNone, Exiting} ==> s.now.None?)
    && (s.fsm == FsmNone ==> s.cpu == Main)
    && (s.fsm == Exiting ==> s.cpu == ExitTrap && s.strat.Size() == 0)
  }

  /** Slot `i` becomes `t`, the strategy becomes `st`: what the core needs of the two. */
  ghost predicate Movable(s: State, i: nat, t: Slot, st: Strategy)
    requires i < |s.slots|
  {
    && SlotOk(t, 0) && Genuine(st)
    && (t.user == s.slots[i].user || t.user.None?)
    && t.waitOn == s.slots[i].waitOn && t.timedOut == s.slots[i].timedOut
    && (t.addReq.Some? && t.stage != Posted ==> s.request)
    && (forall j: nat :: j != i ==>
          (j in st.active <==> j in s.strat.active) && (j in st.asleep <==> j in s.strat.asleep))
    && (i in st.active <==> Runnable(t)) && (i in st.asleep <==> Dormant(t))
  }

  lemma MoveCore(s: State, i: nat, t: Slot, st: Strategy)
    requires Core(s, 0) && i < |s.slots| && Movable(s, i, t, st)
    ensures Core(s.(slots := s.slots[i := t], strat := st), 0)
  {
    hide SetsAgree, ListsAgree, Registered, WaitLogOk, Genuine, SlotOk, Runnable, Dormant;
    var r := s.(slots := s.slots[i := t], strat := st);
    MoveSets(s.slots, s.strat, i, t, st);
    MoveLists(s, i, t, r);
    MoveWaitLog(s, i, t, r);
  }

  lemma SlotAndLists(s: State, i: nat)
    requires Inv(s) && i < |s.slots|
    ensures SlotOk(s.slots[i], 0) && ListsAgree(s)
  {
    hide Registered, WaitLogOk, SetsAgree, Genuine, UsersDistinct;
  }

  /** What the core says of one slot. */
  lemma CoreSlot(s: State, i: nat)
    requires Core(s, 0) && i < |s.slots|
    ensures !s.panic && Genuine(s.strat) && SlotOk(s.slots[i], 0)
    ensures (i in s.strat.active <==> Runnable(s.slots[i])) && (i in s.strat.asleep <==> Dormant(s.slots[i]))
    ensures s.slots[i].addReq.Some? && s.slots[i].stage != Posted ==> s.request
  {
    hide ListsAgree, Registered, WaitLogOk, Genuine, UsersDistinct;
  }

  lemma RemoveCore(s: State, i: nat)
    requires Core(s, 0) && i < |s.slots| && s.slots[i].Busy() && !s.slots[i].Waiting()
    ensures Core(RemoveSlot(s, i), 0)
    ensures RemoveSlot(s, i).strat.Size() + 1 == s.strat.Size()
  {
    hide Core, Genuine;
    CoreSlot(s, i);
    GenuineStep(s.strat, Removed(i));
    MoveCore(s, i, s.slots[i].Unbound(), s.strat.Apply(Removed(i)));
    assert i !in s.strat.active ==> s.strat.active - {i} == s.strat.active;
    assert i !in s.strat.asleep ==> s.strat.asleep - {i} == s.strat.asleep;
  }

  lemma DeliverCore(s: State, i: nat)
    requires Core(s, 0) && i < |s.slots| && s.slots[i].Asleep()
    ensures Core(DeliverSleep(s, i), 0)
    ensures DeliverSleep(s, i).strat.Size() == s.strat.Size()
  {
    hide Core, Genuine;
    CoreSlot(s, i);
    if s.slots[i].sleepPending {
      GenuineStep(s.strat, Slept(i));
      MoveCore(s, i, s.slots[i].(sleepPending := false), s.strat.Apply(Slept(i)));
      assert i in s.strat.active && i !in s.strat.asleep;
    }
  }

  lemma AdvanceCore(s: State, i: nat, elapsed: int)
    requires Core(s, 0) && !s.request && i < |s.slots| && Dormant(s.slots[i]) && elapsed >= 1
    requires SlotOk(s.slots[i], elapsed)
    ensures Core(AdvanceSleep(s, i, elapsed), 0)
  {
    hide Core, Genuine;
    CoreSlot(s, i);
    var t := s.slots[i].(sleep := s.slots[i].sleep + elapsed);
    if t.Asleep() {
      MoveCore(s, i, t, s.strat);
    } else {
      GenuineStep(s.strat, Woke(i));
      MoveCore(s, i, t, s.strat.Apply(Woke(i)));
    }
  }

  /** Sleeping and waking move a task between the sets; the strategy keeps managing it. */
  lemma MoveKeepsSize(s: State, i: nat, e: Event)
    requires Core(s, 0) && s.strat.Accepts(e) && (e == Slept(i) || e == Woke(i))
    ensures s.strat.Apply(e).Size() == s.strat.Size()
  {
    assert i in s.strat.active ==> Runnable(s.slots[i]);
    assert i in s.strat.asleep ==> Dormant(s.slots[i]);
  }

  lemma AdvanceStep(s: State, i: nat, elapsed: int)
    requires MidPass(s, i, elapsed) && MidContext(s) && i < |s.slots| && s.slots[i].Asleep() && !Removable(s, i)
    ensures var r := UpdateSlot(s, i, elapsed);
      && Core(r, 0) && r.strat.Size() == s.strat.Size() && !r.request && SameContext(s, r)
      && r.slots[i].user == s.slots[i].user && !r.slots[i].sleepPending
      && r.slots == s.slots[i := r.slots[i]]
  {
    hide ListsAgree, Registered, WaitLogOk, UsersDistinct, RequestsFlagged, Genuine, MidContext;
    assert SlotOk(s.slots[i], elapsed);
    DeliverCore(s, i);
    var a := DeliverSleep(s, i);
    AdvanceCore(a, i, elapsed);
    var t := a.slots[i].(sleep := a.slots[i].sleep + elapsed);
    if !t.Asleep() { MoveKeepsSize(a, i, Woke(i)); }
  }

  lemma RemoveStep(s: State, i: nat, elapsed: int)
    requires MidPass(s, i, elapsed) && MidContext(s) && i < |s.slots| && Removable(s, i)
    ensures var r := UpdateSlot(s, i, elapsed);
      && Core(r, 0) && r.strat.Size() + 1 == s.strat.Size() && !r.request && SameContext(s, r)
      && (s.now == Some(i) ==> r.strat.Size() == 0 && s.fsm == Sleeping)
      && !r.slots[i].sleepPending && r.slots == s.slots[i := r.slots[i]]
  {
    assert SlotOk(s.slots[i], elapsed);
    RemoveCore(s, i);
  }

  lemma MidContextKept(s: State, r: State, i: nat)
    requires MidContext(s) && SameContext(s, r) && i < |s.slots| && |r.slots| == |s.slots|
    requires r.slots == s.slots[i := r.slots[i]]
    requires s.now == Some(i) ==> r.slots[i].user == s.slots[i].user || (r.strat.Size() == 0 && s.fsm == Sleeping)
    requires r.strat.Size() <= s.strat.Size()
    ensures MidContext(r)
  {
  }

  lemma SlotPassStep(s: State, i: nat, elapsed: int)
    requires MidPass(s, i, elapsed) && MidContext(s) && i < |s.slots|
    ensures MidPass(UpdateSlot(s, i, elapsed), i + 1, elapsed) && MidContext(UpdateSlot(s, i, elapsed))
  {
    hide Core, MidContext;
    var r := UpdateSlot(s, i, elapsed);
    if !s.slots[i].Asleep() {
      assert SlotOk(s.slots[i], elapsed);
    } else if Removable(s, i) {
      RemoveStep(s, i, elapsed);
      MidContextKept(s, r, i);
    } else {
      AdvanceStep(s, i, elapsed);
      MidContextKept(s, r, i);
    }
  }

  lemma {:induction false} SlotPass(s: State, i: nat, elapsed: int)
    requires MidPass(s, i, elapsed) && MidContext(s)
    ensures MidPass(UpdateSlots(s, i, elapsed), |s.slots|, elapsed) && MidContext(UpdateSlots(s, i, elapsed))
    decreases |s.slots| - i
  {
    if i < |s.slots| {
      SlotPassStep(s, i, elapsed);
      SlotPass(UpdateSlot(s, i, elapsed), i + 1, elapsed);
    }
  }

  // ---- the state machine -----------------------------------------------------------------------

  lemma ManagedIsBusy(s: State, i: nat)
    requires SetsAgree(s.slots, s.strat)
    ensures s.strat.Manages(i) <==> i < |s.slots| && s.slots[i].Busy()
  {
  }

  /** After the slot pass every runnable task is awake, so the strategy's pick passes the
      kernel's assertion. */
  lemma PickOk(s: State, p: Policy)
    requires MidPass(s, |s.slots|, 1) && Lawful(p)
    ensures Core(NotePick(s, FetchNext(s, p)), 0)
    ensures FetchNext(s, p).Some? ==>
              var i := FetchNext(s, p).value; i < |s.slots| && s.slots[i].Busy() && !s.slots[i].Asleep()
  {
    if s.strat.active != {} {
      var i := p.next(s.strat.log);
      assert i in Replay(s.strat.log).active;
      assert i in s.strat.active && i < |s.slots|;
      GenuineStep(s.strat, Picked(i));
    }
  }

  lemma SomeManaged(st: Strategy)
    requires st.Size() != 0
    ensures st.active + st.asleep != {}
  {
    if st.active != {} {
      var x :| x in st.active;
      assert x in st.active + st.asleep;
    } else {
      var x :| x in st.asleep;
      assert x in st.active + st.asleep;
    }
  }

  lemma FirstManaged(s: State, p: Policy)
    requires Core(s, 0) && Lawful(p) && s.strat.Size() != 0
    ensures p.first(s.strat.log) < |s.slots| && s.slots[p.first(s.strat.log)].Busy()
  {
    assert Replay(s.strat.log) == s.strat;
    SomeManaged(s.strat);
    ManagedIsBusy(s, p.first(s.strat.log));
  }

  lemma NonEmpty(s: State, i: nat)
    requires s.strat.Manages(i)
    ensures s.strat.Size() != 0
  {
  }

  /** The current task of a running kernel is managed, so a sleeping kernel has a first task
      and only a sleeping kernel can run out of tasks. */
  lemma RunningIsManaged(s: State)
    requires Core(s, 0) && MidContext(s) && s.fsm in {Switching, Waking}
    ensures s.strat.Size() != 0
  {
    ManagedIsBusy(s, s.now.value);
    NonEmpty(s, s.now.value);
  }

  lemma SwitchKeepsContext(a: State, next: nat)
    requires MidContext(a) && a.fsm in {Switching, Waking} && next < |a.slots| && a.slots[next].Busy()
    ensures ContextOk(StateSwitch(a, next)) && StateSwitch(a, next).panic == a.panic
  {
  }

  lemma WakeKeepsContext(a: State, next: nat)
    requires MidContext(a) && a.fsm == Sleeping && next < |a.slots| && a.slots[next].Busy()
    ensures ContextOk(StateWake(a, next)) && StateWake(a, next).panic == a.panic
  {
  }

  lemma PickKeepsContext(s: State, next: Option<nat>)
    requires MidContext(s)
    ensures MidContext(NotePick(s, next)) && NotePick(s, next).fsm == s.fsm && NotePick(s, next).slots == s.slots
    ensures s.Check(true) == s
  {
  }

  lemma RunContext(s: State, p: Policy)
    requires Core(s, 0) && MidContext(s) && s.fsm != FsmNone && FetchNext(s, p).Some?
    requires var i := FetchNext(s, p).value; i < |s.slots| && s.slots[i].Busy() && !s.slots[i].Asleep()
    ensures ContextOk(UpdateFsm(s, p))
    ensures UpdateFsm(s, p).panic == NotePick(s, FetchNext(s, p)).panic
  {
    hide Core, MidContext, ContextOk, NotePick, StateSwitch, StateWake, StateSleep, StateExit, TouchesContext;
    var next := FetchNext(s, p);
    var a := NotePick(s, next);
    PickKeepsContext(s, next);
    NotExiting(s);
    if s.fsm == Sleeping {
      WakeKeepsContext(a, next.value);
    } else {
      SwitchKeepsContext(a, next.value);
    }
  }

  lemma NotExiting(s: State)
    requires MidContext(s) && s.strat.active != {}
    ensures s.fsm != Exiting
  {
    assert s.strat.Size() != 0;
  }

  lemma RestContext(s: State, p: Policy)
    requires Core(s, 0) && MidContext(s) && Lawful(p) && s.fsm != FsmNone && FetchNext(s, p).None?
    ensures ContextOk(UpdateFsm(s, p))
    ensures UpdateFsm(s, p).panic == NotePick(s, FetchNext(s, p)).panic
  {
    hide Core, Lawful;
    if s.fsm in {Switching, Waking} {
      RunningIsManaged(s);
    }
    if s.strat.Size() != 0 {
      FirstManaged(s, p);
    }
  }

  lemma FsmContext(s: State, p: Policy)
    requires Core(s, 0) && MidContext(s) && Lawful(p) && s.fsm != FsmNone
    requires FetchNext(s, p).Some? ==>
               var i := FetchNext(s, p).value; i < |s.slots| && s.slots[i].Busy() && !s.slots[i].Asleep()
    ensures ContextOk(UpdateFsm(s, p))
    ensures UpdateFsm(s, p).panic == NotePick(s, FetchNext(s, p)).panic
  {
    hide Core, MidContext, ContextOk, UpdateFsm, NotePick, Lawful;
    if FetchNext(s, p).Some? {
      RunContext(s, p);
    } else {
      RestContext(s, p);
    }
  }

  lemma FsmIsPick(s: State, p: Policy)
    requires s.fsm != FsmNone
    ensures UpdateFsm(s, p).strat == NotePick(s, FetchNext(s, p)).strat
  {
    assert s.Check(true) == s;
  }

  lemma FsmCore(s: State, a: State, p: Policy)
    requires Core(a, 0) && a == NotePick(s, FetchNext(s, p)) && s.fsm != FsmNone && UpdateFsm(s, p).panic == a.panic
    ensures Core(UpdateFsm(s, p), 0)
  {
    hide Core, UpdateFsm, NotePick;
    FsmIsPick(s, p);
    CoreOf(a, UpdateFsm(s, p));
  }

  /** The core does not mention the running context. */
  lemma CoreOf(a: State, r: State)
    requires Core(a, 0) && r.panic == a.panic
    requires r.slots == a.slots && r.strat == a.strat && r.request == a.request && r.syncList == a.syncList
          && r.waiters == a.waiters && r.waitLog == a.waitLog
    ensures Core(r, 0)
  {
    assert ListsAgree(r) by {
      forall o, w: nat | 0 <= o < |r.waiters| && w in r.waiters[o] ensures BlockedOn(r, w, o) {
        assert BlockedOn(a, w, o);
      }
    }
  }

  lemma FsmStep(s: State, p: Policy)
    requires MidPass(s, |s.slots|, 1) && MidContext(s) && Lawful(p) && s.fsm != FsmNone
    ensures Inv(UpdateFsm(s, p))
  {
    hide Core, MidContext, ContextOk, Lawful, UpdateFsm;
    PickOk(s, p);
    FsmContext(s, p);
    FsmCore(s, NotePick(s, FetchNext(s, p)), p);
  }

  // ---- the tick -----------------------------------------------------------------------------------

  lemma {:induction false} FreeCountSame(a: seq<Slot>, b: seq<Slot>)
    requires |a| == |b| && forall j :: 0 <= j < |a| ==> a[j].user == b[j].user
    ensures FreeCount(a) == FreeCount(b)
  {
    if a != [] { FreeCountSame(a[1..], b[1..]); }
  }

  lemma ServableAfterTimeouts(s: State, elapsed: int)
    requires Core(s, 0) && elapsed >= 1 && Servable(s)
    ensures Servable(UpdateSyncObjects(s, elapsed))
  {
    hide Core, UpdateSyncObjects;
    TimeoutSlots(s, elapsed);
    var r := UpdateSyncObjects(s, elapsed);
    FreeCountSame(s.slots, r.slots);
    PendingSame(s.slots, r.slots, 0);
    if s.request {
      forall j | 0 <= j < |r.slots| && r.slots[j].addReq.Some?
        ensures UserUnbound(r.slots, r.slots[j].addReq.value)
      {
        assert UserUnbound(s.slots, s.slots[j].addReq.value);
      }
    }
  }

  lemma SlackDrops(s: State, elapsed: int)
    requires Core(s, elapsed) && elapsed >= 1
    ensures Core(s, 0) && SlotsOk(s.slots, elapsed)
  {
    forall i | 0 <= i < |s.slots| ensures SlotOk(s.slots[i], 0) { assert SlotOk(s.slots[i], elapsed); }
  }

  lemma {:induction false} ServeContext(s: State, i: nat)
    requires i <= |s.slots|
    ensures SameContext(s, ServeFrom(s, i)) && ServeFrom(s, i).ticks == s.ticks
    decreases |s.slots| - i
  {
    if i < |s.slots| {
      if s.slots[i].addReq.None? { ServeContext(s, i + 1); } else { ServeContext(ServeOne(s, i), i + 1); }
    }
  }

  /** Serving requests takes no task away. */
  lemma {:induction false} ServeKeepsBusy(s: State, i: nat, j: nat)
    requires i <= |s.slots| && j < |s.slots| && s.slots[j].Busy()
    ensures ServeFrom(s, i).slots[j].user == s.slots[j].user
    decreases |s.slots| - i
  {
    if i < |s.slots| {
      if s.slots[i].addReq.None? { ServeKeepsBusy(s, i + 1, j); } else { ServeKeepsBusy(ServeOne(s, i), i + 1, j); }
    }
  }

  /** The state the slot pass starts from. */
  function BeforeSlots(s: State, elapsed: int): State {
    UpdateTaskRequest(UpdateSyncObjects(s.(ticks := s.ticks + elapsed), elapsed))
  }

  lemma TickIs(s: State, elapsed: int, p: Policy)
    ensures OnTick(s, elapsed, p) == UpdateFsm(UpdateSlots(BeforeSlots(s, elapsed), 0, elapsed), p)
  {
  }

  lemma NoBusyNoRequests(s: State, slack: int)
    requires Core(s, slack) && s.strat.Size() == 0
    ensures forall i :: 0 <= i < |s.slots| ==> !s.slots[i].Busy() && s.slots[i].addReq.None?
  {
    forall i: nat | i < |s.slots| ensures !s.slots[i].Busy() && s.slots[i].addReq.None? {
      assert SlotOk(s.slots[i], slack);
      ManagedIsBusy(s, i);
      assert s.strat.active == {} && s.strat.asleep == {};
    }
  }

  lemma {:induction false} ServeNothing(s: State, i: nat)
    requires i <= |s.slots| && forall j :: i <= j < |s.slots| ==> s.slots[j].addReq.None?
    ensures ServeFrom(s, i) == s
    decreases |s.slots| - i
  {
    if i < |s.slots| { ServeNothing(s, i + 1); }
  }

  lemma RequestsContext(a: State, slack: int)
    requires Core(a, slack) && MidContext(a)
    ensures SameContext(a, UpdateTaskRequest(a)) && MidContext(UpdateTaskRequest(a))
  {
    hide Core, Lawful;
    if a.request {
      var b := a.(request := false);
      ServeContext(b, 0);
      if a.fsm in {Switching, Sleeping, Waking} && NowBusy(a) {
        ServeKeepsBusy(b, 0, a.now.value);
      }
      if a.strat.Size() == 0 {
        NoBusyNoRequests(a, slack);
        ServeNothing(b, 0);
      }
    }
  }

  lemma TimeoutsContext(s: State, elapsed: int)
    requires Core(s, 0) && ContextOk(s) && elapsed >= 1
    ensures SameContext(s, UpdateSyncObjects(s, elapsed)) && MidContext(UpdateSyncObjects(s, elapsed))
  {
    ArmableOfCore(s, 0);
    UpdateSyncObjectsIs(s, elapsed);
  }

  lemma AfterTimeouts(s: State, elapsed: int)
    requires Inv(s) && elapsed >= 1 && Servable(s)
    ensures var a := UpdateSyncObjects(s.(ticks := s.ticks + elapsed), elapsed);
      Core(a, elapsed) && MidContext(a) && Servable(a) && SameContext(s, a)
  {
    var s0 := s.(ticks := s.ticks + elapsed);
    CoreOf(s, s0);
    assert ContextOk(s0) && Servable(s0);
    hide Core, ContextOk, MidContext, Servable, UpdateSyncObjects;
    TimeoutsCore(s0, elapsed);
    TimeoutsContext(s0, elapsed);
    ServableAfterTimeouts(s0, elapsed);
  }

  lemma AfterRequests(a: State, elapsed: int)
    requires Core(a, elapsed) && MidContext(a) && Servable(a) && elapsed >= 1
    ensures var b := UpdateTaskRequest(a);
      MidPass(b, 0, elapsed) && MidContext(b) && SameContext(a, b)
  {
    hide Core, MidContext, Servable, UpdateTaskRequest;
    RequestsCore(a, elapsed);
    RequestsContext(a, elapsed);
    SlackDrops(UpdateTaskRequest(a), elapsed);
  }

  lemma BeforeSlotsOk(s: State, elapsed: int)
    requires Inv(s) && elapsed >= 1 && Servable(s)
    ensures MidPass(BeforeSlots(s, elapsed), 0, elapsed) && MidContext(BeforeSlots(s, elapsed))
    ensures SameContext(s, BeforeSlots(s, elapsed))
  {
    hide Inv, MidPass, MidContext, Servable, UpdateSyncObjects, UpdateTaskRequest;
    AfterTimeouts(s, elapsed);
    AfterRequests(UpdateSyncObjects(s.(ticks := s.ticks + elapsed), elapsed), elapsed);
  }

  /** Every tick keeps the invariant, whatever time has elapsed. */
  lemma TickInv(s: State, elapsed: int, p: Policy)
    requires Inv(s) && s.fsm != FsmNone && elapsed >= 1 && Servable(s) && Lawful(p)
    ensures Inv(OnTick(s, elapsed, p))
  {
    hide Core, MidContext, ContextOk, UpdateFsm;
    BeforeSlotsOk(s, elapsed);
    var b := BeforeSlots(s, elapsed);
    SlotPass(b, 0, elapsed);
    FsmOfPass(b, 0, elapsed);
    FsmStep(UpdateSlots(b, 0, elapsed), p);
  }

  lemma {:induction false} FsmOfPass(s: State, i: nat, elapsed: int)
    requires i <= |s.slots|
    ensures SameContext(s, UpdateSlots(s, i, elapsed)) && UpdateSlots(s, i, elapsed).ticks == s.ticks
    decreases |s.slots| - i
  {
    if i < |s.slots| { FsmOfPass(UpdateSlot(s, i, elapsed), i + 1, elapsed); }
  }
}
