/**
 Tickless refines ticked. When a tick has returned the interval R, one later tick of any
 length k <= R reaches the same state as k ticks of length one: the same clock, wait lists,
 timeouts, strategy history, state machine, current task and running context. The only
 exception is an infinite wait whose 32-bit sleep counter runs out on the way.
 */
module Tickless {
  import opened KernelTypes
  import opened KernelSpec
  import opened SyncPass
  import opened Invariant
  import opened TickInvariant
  import opened Runs
  import opened Safety
  import opened Timing

  /** Consecutive ticks of length one. */
  function Ticks(s: State, n: nat, p: Policy): (r: State)
    ensures |r.slots| == |s.slots|
  {
    if n == 0 then s else OnTick(Ticks(s, n - 1, p), 1, p)
  }

  /** All non-negative sleep counters mean the same: awake. */
  function Normal(t: Slot): Slot {
    if t.Asleep() then t else t.(sleep := 0)
  }

  function Normalized(slots: seq<Slot>): (r: seq<Slot>)
    ensures |r| == |slots| && forall i :: 0 <= i < |r| ==> r[i] == Normal(slots[i])
  {
    seq(|slots|, i requires 0 <= i < |slots| => Normal(slots[i]))
  }

  /** Equal states, up to how far past zero an awake task's counter stands. */
  predicate Equivalent(a: State, b: State) {
    a.(slots := Normalized(a.slots)) == b.(slots := Normalized(b.slots))
  }

  // ---- the slot pass in closed form, when no task is leaving -----------------------------

  predicate NoneLeaving(slots: seq<Slot>) {
    forall i :: 0 <= i < |slots| ==> !slots[i].removePending
  }

  function SlotLog(t: Slot, i: nat, elapsed: int): seq<Event> {
    if !t.Asleep() then []
    else (if t.sleepPending then [Slept(i)] else []) + (if t.sleep + elapsed >= 0 then [Woke(i)] else [])
  }

  function PassLog(slots: seq<Slot>, i: nat, elapsed: int): seq<Event>
    requires i <= |slots|
    decreases |slots| - i
  {
    if i == |slots| then [] else SlotLog(slots[i], i, elapsed) + PassLog(slots, i + 1, elapsed)
  }

  function AdvancedFrom(slots: seq<Slot>, i: nat, elapsed: int): (r: seq<Slot>)
    ensures |r| == |slots|
    ensures forall j :: 0 <= j < |r| ==> r[j] == if j < i then slots[j] else Advanced(slots[j], elapsed)
  {
    seq(|slots|, j requires 0 <= j < |slots| => if j < i then slots[j] else Advanced(slots[j], elapsed))
  }

  lemma {:induction false} PassLogSuffix(a: seq<Slot>, b: seq<Slot>, i: nat, ea: int, eb: int)
    requires i <= |a| == |b|
    requires forall j :: i <= j < |a| ==> SlotLog(a[j], j, ea) == SlotLog(b[j], j, eb)
    ensures PassLog(a, i, ea) == PassLog(b, i, eb)
    decreases |a| - i
  {
    hide SlotLog;
    if i < |a| { PassLogSuffix(a, b, i + 1, ea, eb); }
  }

  /** What a pass leaves: everything but slots, strategy and panic is untouched. */
  predicate OnlySlotsAndStrategy(s: State, r: State) {
    r == s.(slots := r.slots, strat := r.strat, panic := r.panic)
  }

  lemma UpdateSlotIs(s: State, i: nat, elapsed: int)
    requires i < |s.slots| && !s.slots[i].removePending
    ensures var r := UpdateSlot(s, i, elapsed);
      && r.slots == s.slots[i := Advanced(s.slots[i], elapsed)]
      && r.strat.log == s.strat.log + SlotLog(s.slots[i], i, elapsed)
      && OnlySlotsAndStrategy(s, r)
  {
    var t := s.slots[i];
    if t.Asleep() {
      var d := DeliverSleep(s, i);
      assert d.strat.log == s.strat.log + if t.sleepPending then [Slept(i)] else [];
      assert d.slots[i] == t.(sleepPending := false);
    }
  }

  lemma AdvancedTail(slots: seq<Slot>, i: nat, elapsed: int)
    requires i < |slots|
    ensures AdvancedFrom(slots[i := Advanced(slots[i], elapsed)], i + 1, elapsed) == AdvancedFrom(slots, i, elapsed)
    ensures PassLog(slots[i := Advanced(slots[i], elapsed)], i + 1, elapsed) == PassLog(slots, i + 1, elapsed)
  {
    PassLogSuffix(slots[i := Advanced(slots[i], elapsed)], slots, i + 1, elapsed, elapsed);
  }

  lemma {:induction false} UpdateSlotsIs(s: State, i: nat, elapsed: int)
    requires i <= |s.slots| && NoneLeaving(s.slots)
    ensures var r := UpdateSlots(s, i, elapsed);
      && r.slots == AdvancedFrom(s.slots, i, elapsed)
      && r.strat.log == s.strat.log + PassLog(s.slots, i, elapsed)
      && OnlySlotsAndStrategy(s, r)
    decreases |s.slots| - i
  {
    if i == |s.slots| {
      assert AdvancedFrom(s.slots, i, elapsed) == s.slots;
      assert s.strat.log + [] == s.strat.log;
    } else {
      var a := UpdateSlot(s, i, elapsed);
      UpdateSlotIs(s, i, elapsed);
      hide UpdateSlot, SlotLog;
      UpdateSlotsIs(a, i + 1, elapsed);
      AdvancedTail(s.slots, i, elapsed);
      Assoc(s.strat.log, SlotLog(s.slots[i], i, elapsed), PassLog(s.slots, i + 1, elapsed));
    }
  }

  // ---- the timed part of a tick in closed form --------------------------------------------

  /** Between ticks, after at least one: nothing requested, nobody leaving, and the sync list
      holds only objects with waiters. */
  predicate Settled(s: State) {
    && Inv(s) && !s.request && NoneLeaving(s.slots)
    && (forall o :: o in s.syncList ==> o < |s.waiters| && s.waiters[o] != [])
  }

  lemma {:induction false} AllStillWaited(s: State, objs: seq<nat>, elapsed: int)
    requires ObjectsInRange(s) && InRange(objs, |s.waiters|)
    requires forall o: nat :: o in objs ==> Unexpired(s.waiters[o], s.slots, elapsed) != []
    ensures StillWaited(s, objs, elapsed) == objs
  {
    if objs != [] { AllStillWaited(s, objs[1..], elapsed); }
  }

  lemma SettledLists(s: State, s0: State)
    requires Settled(s) && s0 == s.(ticks := s0.ticks)
    ensures ListsAgree(s0) && Registered(s0) && AllArmable(s0.slots)
    ensures ObjectsInRange(s) && ObjectsInRange(s0) && InRange(s.syncList, |s.waiters|) && !s.request
  {
    hide Alternating, SetsAgree, UsersDistinct, Genuine;
    CoreOf(s, s0);
    ArmableOfCore(s0, 0);
    InRangeOfAgree(s0);
  }

  /** The timeout phase of a tick that has no requests to serve. */
  lemma TimeoutsAre(s: State, elapsed: int)
    requires Settled(s) && elapsed >= 1
    ensures ObjectsInRange(s)
    ensures var b := BeforeSlots(s, elapsed);
      && |b.waiters| == |s.waiters|
      && (forall o :: 0 <= o < |s.waiters| ==> b.waiters[o] == Unexpired(s.waiters[o], s.slots, elapsed))
      && b == s.(ticks := s.ticks + elapsed, slots := AgedAll(s.slots, elapsed), waiters := b.waiters,
                 syncList := StillWaited(s, s.syncList, elapsed),
                 waitLog := s.waitLog + AllExpiries(s, s.syncList, elapsed))
  {
    hide Settled, ListsAgree, Registered, AllArmable, Unexpired, StillWaited, AllExpiries, UpdateSyncObjects;
    var s0 := s.(ticks := s.ticks + elapsed);
    SettledLists(s, s0);
    UpdateSyncObjectsIs(s0, elapsed);
    ClockIrrelevant(s, s0, s.syncList, elapsed);
    assert BeforeSlots(s, elapsed) == UpdateSyncObjects(s0, elapsed);
  }

  /** The state a tick hands to the state machine. */
  lemma TasksAre(s: State, elapsed: int)
    requires Settled(s) && elapsed >= 1
    ensures ObjectsInRange(s)
    ensures var r := UpdateSlots(BeforeSlots(s, elapsed), 0, elapsed);
      && |r.waiters| == |s.waiters|
      && (forall o :: 0 <= o < |s.waiters| ==> r.waiters[o] == Unexpired(s.waiters[o], s.slots, elapsed))
      && r.slots == AdvancedFrom(AgedAll(s.slots, elapsed), 0, elapsed)
      && r.strat.log == s.strat.log + PassLog(AgedAll(s.slots, elapsed), 0, elapsed)
      && r == s.(ticks := s.ticks + elapsed, slots := r.slots, strat := r.strat, panic := r.panic,
                 waiters := r.waiters, syncList := StillWaited(s, s.syncList, elapsed),
                 waitLog := s.waitLog + AllExpiries(s, s.syncList, elapsed))
  {
    TimeoutsAre(s, elapsed);
    hide Core, BeforeSlots;
    var b := BeforeSlots(s, elapsed);
    assert NoneLeaving(b.slots);
    hide NoneLeaving, Settled;
    UpdateSlotsIs(b, 0, elapsed);
  }

  lemma {:induction false} ClockIrrelevant(s: State, r: State, objs: seq<nat>, elapsed: int)
    requires ObjectsInRange(s) && ObjectsInRange(r) && InRange(objs, |s.waiters|)
    requires r.slots == s.slots && r.waiters == s.waiters
    ensures StillWaited(r, objs, elapsed) == StillWaited(s, objs, elapsed)
    ensures AllExpiries(r, objs, elapsed) == AllExpiries(s, objs, elapsed)
  {
    if objs != [] { ClockIrrelevant(s, r, objs[1..], elapsed); }
  }

  // ---- waiting out an interval -----------------------------------------------------------------

  /** Nothing happens before the k-th tick: every task sleeps or waits for at least k ticks. */
  predicate QuietSlot(t: Slot, k: int) {
    t.Busy() ==>
      && t.Asleep() && !t.sleepPending
      && (t.Waiting() && t.waitLeft != WAIT_INFINITE ==> t.waitLeft >= k)
      && (!t.Waiting() || t.waitLeft == WAIT_INFINITE ==> -t.sleep >= k)
  }

  predicate Quiet(s: State, k: int) {
    Settled(s) && s.fsm == Sleeping && forall i :: 0 <= i < |s.slots| ==> QuietSlot(s.slots[i], k)
  }

  function ShiftedSlot(t: Slot, j: int): Slot {
    if !t.Asleep() then t
    else if t.Waiting() && t.waitLeft != WAIT_INFINITE then t.(sleep := t.sleep + j, waitLeft := t.waitLeft - j)
    else t.(sleep := t.sleep + j)
  }

  function ShiftedSlots(slots: seq<Slot>, j: int): (r: seq<Slot>)
    ensures |r| == |slots| && forall i :: 0 <= i < |r| ==> r[i] == ShiftedSlot(slots[i], j)
  {
    seq(|slots|, i requires 0 <= i < |slots| => ShiftedSlot(slots[i], j))
  }

  function Shifted(s: State, j: int): State {
    s.(ticks := s.ticks + j, slots := ShiftedSlots(s.slots, j))
  }

  lemma {:induction false} NoneExpire(ws: seq<nat>, slots: seq<Slot>, elapsed: int)
    requires InRange(ws, |slots|) && forall k :: 0 <= k < |ws| ==> !Expires(slots[ws[k]], elapsed)
    ensures Unexpired(ws, slots, elapsed) == ws && ExpiryLog(ws, slots, elapsed) == []
  {
    if ws != [] {
      assert !Expires(slots[ws[0]], elapsed);
      NoneExpire(ws[1..], slots, elapsed);
    }
  }

  lemma QuietWaiters(s: State, k: int, o: nat)
    requires Quiet(s, k) && k >= 2 && o < |s.waiters| && ObjectsInRange(s)
    ensures Unexpired(s.waiters[o], s.slots, 1) == s.waiters[o] && ExpiryLog(s.waiters[o], s.slots, 1) == []
  {
    var ws := s.waiters[o];
    forall j | 0 <= j < |ws| ensures !Expires(s.slots[ws[j]], 1) {
      assert ws[j] in ws && BlockedOn(s, ws[j], o);
      assert QuietSlot(s.slots[ws[j]], k) && SlotOk(s.slots[ws[j]], 0);
    }
    NoneExpire(ws, s.slots, 1);
  }

  lemma {:induction false} QuietExpiries(s: State, k: int, objs: seq<nat>)
    requires Quiet(s, k) && k >= 2 && ObjectsInRange(s) && InRange(objs, |s.waiters|)
    ensures AllExpiries(s, objs, 1) == []
  {
    if objs != [] {
      QuietWaiters(s, k, objs[0]);
      QuietExpiries(s, k, objs[1..]);
    }
  }

  lemma {:induction false} QuietLog(slots: seq<Slot>, i: nat, elapsed: int)
    requires i <= |slots| && forall j :: i <= j < |slots| ==> SlotLog(slots[j], j, elapsed) == []
    ensures PassLog(slots, i, elapsed) == []
    decreases |slots| - i
  {
    if i < |slots| { QuietLog(slots, i + 1, elapsed); }
  }

  lemma QuietSlots(s: State, k: int)
    requires Quiet(s, k) && k >= 2
    ensures AdvancedFrom(AgedAll(s.slots, 1), 0, 1) == ShiftedSlots(s.slots, 1)
    ensures PassLog(AgedAll(s.slots, 1), 0, 1) == []
    ensures forall i :: 0 <= i < |s.slots| ==> QuietSlot(ShiftedSlots(s.slots, 1)[i], k - 1)
  {
    forall i | 0 <= i < |s.slots|
      ensures Advanced(Aged(s.slots[i], 1), 1) == ShiftedSlot(s.slots[i], 1)
      ensures SlotLog(Aged(s.slots[i], 1), i, 1) == []
      ensures QuietSlot(ShiftedSlot(s.slots[i], 1), k - 1)
    {
      assert SlotOk(s.slots[i], 0) && QuietSlot(s.slots[i], k);
    }
    QuietLog(AgedAll(s.slots, 1), 0, 1);
  }

  lemma GenuineSame(a: Strategy, b: Strategy)
    requires Genuine(a) && Genuine(b) && a.log == b.log
    ensures a == b
  {
  }

  lemma PassCore(s: State, elapsed: int)
    requires Settled(s) && elapsed >= 1
    ensures Core(UpdateSlots(BeforeSlots(s, elapsed), 0, elapsed), 0)
  {
    hide Core, MidContext, BeforeSlots;
    assert Servable(s);
    BeforeSlotsOk(s, elapsed);
    SlotPass(BeforeSlots(s, elapsed), 0, elapsed);
  }

  /** A quiet tick leaves the wait lists, the sync list and the wait history alone. */
  lemma QuietLists(s: State, k: int)
    requires Quiet(s, k) && k >= 2 && ObjectsInRange(s) && InRange(s.syncList, |s.waiters|)
    ensures forall o: nat :: o < |s.waiters| ==> Unexpired(s.waiters[o], s.slots, 1) == s.waiters[o]
    ensures StillWaited(s, s.syncList, 1) == s.syncList
    ensures s.waitLog + AllExpiries(s, s.syncList, 1) == s.waitLog
  {
    AllWaited(s);
    forall o: nat | o < |s.waiters| ensures Unexpired(s.waiters[o], s.slots, 1) == s.waiters[o] {
      QuietWaiters(s, k, o);
    }
    hide Quiet;
    AllStillWaited(s, s.syncList, 1);
    QuietExpiries(s, k, s.syncList);
    assert s.waitLog + [] == s.waitLog;
  }

  lemma AllWaited(s: State)
    requires Settled(s)
    ensures forall o: nat :: o in s.syncList ==> o < |s.waiters| && s.waiters[o] != []
    ensures InRange(s.syncList, |s.waiters|)
  {
  }

  lemma CoreGenuine(s: State)
    requires Core(s, 0)
    ensures Genuine(s.strat) && !s.panic
  {
  }

  /** A quiet tick only moves the clock and the counters. */
  lemma QuietTasks(s: State, k: int)
    requires Quiet(s, k) && k >= 2
    ensures UpdateSlots(BeforeSlots(s, 1), 0, 1) == Shifted(s, 1)
  {
    hide Core, Genuine, BeforeSlots, UpdateSlots, SlotsOk;
    var r := UpdateSlots(BeforeSlots(s, 1), 0, 1);
    TasksAre(s, 1);
    AllWaited(s);
    PassCore(s, 1);
    CoreGenuine(s);
    CoreGenuine(r);
    QuietSlots(s, k);
    QuietLists(s, k);
    hide Quiet, Settled;
    assert r.waiters == s.waiters;
    assert s.strat.log + [] == s.strat.log;
    GenuineSame(r.strat, s.strat);
  }

  lemma CurrentManaged(s: State)
    requires Inv(s) && s.fsm == Sleeping
    ensures s.strat.Size() != 0
  {
    ManagedIsBusy(s, s.now.value);
    NonEmpty(s, s.now.value);
  }

  lemma QuietTick(s: State, k: int, p: Policy)
    requires Quiet(s, k) && k >= 2 && Lawful(p)
    ensures OnTick(s, 1, p) == Shifted(s, 1) && Quiet(Shifted(s, 1), k - 1)
  {
    hide OnTick, Core, BeforeSlots, UpdateSlots, UpdateFsm, Lawful, Genuine;
    QuietTasks(s, k);
    QuietSlots(s, k);
    TickIs(s, 1, p);
    assert Servable(s);
    TickInv(s, 1, p);
    CurrentManaged(s);
    SleepOn(Shifted(s, 1), p);
  }

  /** Asleep with nobody to run, the state machine stays where it is. */
  lemma SleepOn(s: State, p: Policy)
    requires s.fsm == Sleeping && s.strat.active == {} && s.strat.Size() != 0
    ensures UpdateFsm(s, p) == s
  {
    assert s.Check(true) == s;
  }

  lemma {:induction false} QuietTicks(s: State, k: int, j: nat, p: Policy)
    requires Quiet(s, k) && j < k && Lawful(p)
    ensures Ticks(s, j, p) == Shifted(s, j) && Quiet(Shifted(s, j), k - j)
  {
    hide Quiet, OnTick, Lawful;
    if j == 0 {
      assert ShiftedSlots(s.slots, 0) == s.slots;
    } else {
      hide Shifted;
      QuietTicks(s, k, j - 1, p);
      QuietTick(Shifted(s, j - 1), k - (j - 1), p);
      ShiftTwice(s, k, j);
    }
  }

  lemma ShiftTwice(s: State, k: int, j: nat)
    requires Quiet(s, k) && 0 < j < k
    ensures Shifted(Shifted(s, j - 1), 1) == Shifted(s, j)
  {
    forall i | 0 <= i < |s.slots|
      ensures ShiftedSlot(ShiftedSlot(s.slots[i], j - 1), 1) == ShiftedSlot(s.slots[i], j)
    {
      assert SlotOk(s.slots[i], 0) && QuietSlot(s.slots[i], k);
    }
    assert ShiftedSlots(ShiftedSlots(s.slots, j - 1), 1) == ShiftedSlots(s.slots, j);
  }

  // ---- the last tick of the interval -------------------------------------------------------

  lemma {:induction false} SameExpiry(ws: seq<nat>, a: seq<Slot>, b: seq<Slot>, ea: int, eb: int)
    requires InRange(ws, |a|) && |a| == |b|
    requires forall k :: 0 <= k < |ws| ==> Expires(a[ws[k]], ea) == Expires(b[ws[k]], eb)
    ensures Unexpired(ws, a, ea) == Unexpired(ws, b, eb)
    ensures ExpiryLog(ws, a, ea) == ExpiryLog(ws, b, eb)
  {
    if ws != [] {
      assert Expires(a[ws[0]], ea) == Expires(b[ws[0]], eb);
      SameExpiry(ws[1..], a, b, ea, eb);
    }
  }

  lemma ShiftedExpiry(s: State, k: int, o: nat)
    requires Quiet(s, k) && k >= 2 && o < |s.waiters| && ObjectsInRange(s)
    ensures Unexpired(s.waiters[o], s.slots, k) == Unexpired(s.waiters[o], ShiftedSlots(s.slots, k - 1), 1)
    ensures ExpiryLog(s.waiters[o], s.slots, k) == ExpiryLog(s.waiters[o], ShiftedSlots(s.slots, k - 1), 1)
  {
    var ws := s.waiters[o];
    forall j | 0 <= j < |ws|
      ensures Expires(s.slots[ws[j]], k) == Expires(ShiftedSlots(s.slots, k - 1)[ws[j]], 1)
    {
      assert ws[j] in ws && BlockedOn(s, ws[j], o);
      assert QuietSlot(s.slots[ws[j]], k) && SlotOk(s.slots[ws[j]], 0);
    }
    SameExpiry(ws, s.slots, ShiftedSlots(s.slots, k - 1), k, 1);
  }

  lemma {:induction false} ShiftedExpiries(s: State, k: int, objs: seq<nat>)
    requires Quiet(s, k) && k >= 2 && ObjectsInRange(s) && ObjectsInRange(Shifted(s, k - 1))
        && InRange(objs, |s.waiters|)
    ensures StillWaited(s, objs, k) == StillWaited(Shifted(s, k - 1), objs, 1)
    ensures AllExpiries(s, objs, k) == AllExpiries(Shifted(s, k - 1), objs, 1)
  {
    if objs != [] {
      ShiftedExpiry(s, k, objs[0]);
      ShiftedExpiries(s, k, objs[1..]);
    }
  }

  lemma QuietOne(s: State, i: nat, k: int)
    requires Quiet(s, k) && i < |s.slots|
    ensures QuietSlot(s.slots[i], k) && SlotOk(s.slots[i], 0)
  {
  }

  lemma ShiftedOne(t: Slot, i: nat, k: int)
    requires QuietSlot(t, k) && SlotOk(t, 0) && k >= 2
    ensures var a, b := Aged(t, k), Aged(ShiftedSlot(t, k - 1), 1);
      SlotLog(a, i, k) == SlotLog(b, i, 1) && Normal(Advanced(a, k)) == Normal(Advanced(b, 1))
  {
  }

  lemma ShiftedPass(s: State, k: int)
    requires Quiet(s, k) && k >= 2
    ensures var a := AgedAll(s.slots, k); var b := AgedAll(ShiftedSlots(s.slots, k - 1), 1);
      && Normalized(AdvancedFrom(a, 0, k)) == Normalized(AdvancedFrom(b, 0, 1))
      && PassLog(a, 0, k) == PassLog(b, 0, 1)
  {
    hide SlotLog, Normal, Advanced, Aged, ShiftedSlot, Settled, PassLog;
    var a, b := AgedAll(s.slots, k), AgedAll(ShiftedSlots(s.slots, k - 1), 1);
    forall i | 0 <= i < |s.slots|
      ensures SlotLog(a[i], i, k) == SlotLog(b[i], i, 1)
      ensures Normal(Advanced(a[i], k)) == Normal(Advanced(b[i], 1))
    {
      QuietOne(s, i, k);
      ShiftedOne(s.slots[i], i, k);
    }
    PassLogSuffix(a, b, 0, k, 1);
    assert Normalized(AdvancedFrom(a, 0, k)) == Normalized(AdvancedFrom(b, 0, 1));
  }

  /** The last k ticks in one, or only the last of them: the machine is handed the same. */
  lemma SameTasks(s: State, k: int)
    requires Quiet(s, k) && Quiet(Shifted(s, k - 1), 1) && k >= 2
    ensures Equivalent(UpdateSlots(BeforeSlots(s, k), 0, k), UpdateSlots(BeforeSlots(Shifted(s, k - 1), 1), 0, 1))
  {
    hide Core, Genuine, BeforeSlots, UpdateSlots, SlotsOk;
    var z := Shifted(s, k - 1);
    var a, b := UpdateSlots(BeforeSlots(s, k), 0, k), UpdateSlots(BeforeSlots(z, 1), 0, 1);
    TasksAre(s, k);
    TasksAre(z, 1);
    AllWaited(s);
    PassCore(s, k);
    PassCore(z, 1);
    CoreGenuine(a);
    CoreGenuine(b);
    forall o: nat | o < |s.waiters|
      ensures Unexpired(s.waiters[o], s.slots, k) == Unexpired(z.waiters[o], z.slots, 1)
    {
      ShiftedExpiry(s, k, o);
    }
    ShiftedExpiries(s, k, s.syncList);
    ShiftedPass(s, k);
    hide Quiet, Settled;
    assert a.waiters == b.waiters;
    GenuineSame(a.strat, b.strat);
  }

  /** What the state machine does once it knows where to go. */
  function Enter(a: State, next: Option<nat>, to: FsmState, p: Policy): State {
    match to
    case Switching => (if next.Some? then StateSwitch(a, next.value) else a.Check(false))
    case Waking => (if next.Some? then StateWake(a, next.value) else a.Check(false))
    case Sleeping => StateSleep(a, p)
    case Exiting => StateExit(a)
    case FsmNone => a
  }

  lemma FsmEnters(a: State, p: Policy)
    ensures var next := FetchNext(a, p);
      UpdateFsm(a, p) ==
      Enter(NotePick(a.Check(a.fsm != FsmNone), next), next, Transition(a.fsm, EventOf(a, next)), p)
  {
    hide NotePick, TouchesContext, StateSwitch, StateWake, StateSleep, StateExit, FetchNext, EventOf, Transition;
  }

  lemma EnterIgnoresSlots(a: State, slots: seq<Slot>, next: Option<nat>, to: FsmState, p: Policy)
    ensures Enter(a.(slots := slots), next, to, p) == Enter(a, next, to, p).(slots := slots)
  {
    hide TouchesContext, StateSwitch, StateWake, StateSleep, StateExit;
    StatesIgnoreSlots(a, slots, next, p);
  }

  /** The state machine looks at the slots only to see who sleeps. */
  lemma FsmIgnoresSlots(a: State, slots: seq<Slot>, p: Policy)
    requires |slots| == |a.slots| && forall i :: 0 <= i < |slots| ==> slots[i].Asleep() == a.slots[i].Asleep()
    ensures UpdateFsm(a.(slots := slots), p) == UpdateFsm(a, p).(slots := slots)
  {
    hide NotePick, TouchesContext, FetchNext, EventOf, Transition, UpdateFsm, Enter;
    var next := FetchNext(a, p);
    FsmEnters(a, p);
    FsmEnters(a.(slots := slots), p);
    EventIgnoresSlots(a, slots, next, p);
    PickIgnoresSlots(a.Check(a.fsm != FsmNone), slots, next);
    EnterIgnoresSlots(NotePick(a.Check(a.fsm != FsmNone), next), slots, next, Transition(a.fsm, EventOf(a, next)), p);
  }

  lemma EventIgnoresSlots(a: State, slots: seq<Slot>, next: Option<nat>, p: Policy)
    ensures FetchNext(a.(slots := slots), p) == FetchNext(a, p)
    ensures EventOf(a.(slots := slots), next) == EventOf(a, next)
  {
  }

  lemma StatesIgnoreSlots(a: State, slots: seq<Slot>, next: Option<nat>, p: Policy)
    ensures next.Some? ==> StateSwitch(a.(slots := slots), next.value) == StateSwitch(a, next.value).(slots := slots)
    ensures next.Some? ==> StateWake(a.(slots := slots), next.value) == StateWake(a, next.value).(slots := slots)
    ensures StateSleep(a.(slots := slots), p) == StateSleep(a, p).(slots := slots)
    ensures StateExit(a.(slots := slots)) == StateExit(a).(slots := slots)
  {
  }

  lemma PickIgnoresSlots(a: State, slots: seq<Slot>, next: Option<nat>)
    requires |slots| == |a.slots| && forall i :: 0 <= i < |slots| ==> slots[i].Asleep() == a.slots[i].Asleep()
    ensures NotePick(a.(slots := slots), next) == NotePick(a, next).(slots := slots)
  {
  }

  lemma EquivalentSlots(a: State, b: State)
    requires Equivalent(a, b)
    ensures b == a.(slots := b.slots) && |b.slots| == |a.slots| && Normalized(a.slots) == Normalized(b.slots)
    ensures forall i :: 0 <= i < |a.slots| ==> b.slots[i].Asleep() == a.slots[i].Asleep()
  {
    assert Normalized(a.slots) == Normalized(b.slots);
    assert |a.slots| == |Normalized(a.slots)|;
    forall i | 0 <= i < |a.slots| ensures b.slots[i].Asleep() == a.slots[i].Asleep() {
      assert Normalized(a.slots)[i] == Normalized(b.slots)[i];
    }
  }

  lemma SameFsm(a: State, b: State, p: Policy)
    requires Equivalent(a, b)
    ensures Equivalent(UpdateFsm(a, p), UpdateFsm(b, p))
  {
    EquivalentSlots(a, b);
    FsmIgnoresSlots(a, b.slots, p);
    hide UpdateFsm;
  }

  lemma QuietInterval(s: State, k: int, p: Policy)
    requires Quiet(s, k) && k >= 1 && Lawful(p)
    ensures Equivalent(OnTick(s, k, p), Ticks(s, k, p))
  {
    hide OnTick, Lawful, UpdateFsm, Equivalent, Quiet;
    if k == 1 {
      assert Ticks(s, 0, p) == s;
      EquivalentRefl(OnTick(s, 1, p));
    } else {
      QuietTicks(s, k, k - 1, p);
      SameTasks(s, k);
      TickIs(s, k, p);
      TickIs(Shifted(s, k - 1), 1, p);
      SameFsm(UpdateSlots(BeforeSlots(s, k), 0, k), UpdateSlots(BeforeSlots(Shifted(s, k - 1), 1), 0, 1), p);
    }
  }

  lemma EquivalentRefl(s: State)
    ensures Equivalent(s, s)
  {
  }

  // ---- what the returned interval promises -----------------------------------------------------

  lemma {:induction false} HintBounds(slots: seq<Slot>, i: nat, bound: int)
    requires i <= |slots| && SleepHint(slots, i, bound) >= 2
    ensures SleepHint(slots, i, bound) <= bound
    ensures forall j :: i <= j < |slots| && slots[j].Busy() ==>
              && (!slots[j].Waiting() ==> -slots[j].sleep >= SleepHint(slots, i, bound))
              && (slots[j].Waiting() && slots[j].waitLeft > 0 ==> slots[j].waitLeft >= SleepHint(slots, i, bound))
    decreases |slots| - i
  {
    if i < |slots| {
      HintBounds(slots, i + 1, if bound > 1 && slots[i].Busy() then SleepTicks(slots[i], bound) else bound);
    }
  }

  /** Nothing of what the bound tasks wait for, other than a signal, comes in fewer than `k` ticks. */
  predicate Suppressible(slots: seq<Slot>, i: nat, k: int) {
    forall j :: i <= j < |slots| && slots[j].Busy() ==>
      && (!slots[j].Waiting() ==> -slots[j].sleep >= k)
      && (slots[j].Waiting() && slots[j].waitLeft > 0 ==> slots[j].waitLeft >= k)
  }

  lemma {:induction false} HintGreatest(slots: seq<Slot>, i: nat, bound: int, k: int)
    requires i <= |slots| && 1 <= k <= bound && (k == 1 || Suppressible(slots, i, k))
    ensures SleepHint(slots, i, bound) >= k
    decreases |slots| - i
  {
    if i < |slots| {
      HintGreatest(slots, i + 1, if bound > 1 && slots[i].Busy() then SleepTicks(slots[i], bound) else bound, k);
    }
  }

  lemma HintExactly(slots: seq<Slot>, k: int)
    requires 2 <= k <= TICKLESS_TICKS_MAX
    ensures SleepHint(slots, 0, TICKLESS_TICKS_MAX) >= k <==> Suppressible(slots, 0, k)
  {
    if SleepHint(slots, 0, TICKLESS_TICKS_MAX) >= k {
      HintBounds(slots, 0, TICKLESS_TICKS_MAX);
    }
    if Suppressible(slots, 0, k) {
      HintGreatest(slots, 0, TICKLESS_TICKS_MAX, k);
    }
  }

  lemma {:induction false} HintInRange(slots: seq<Slot>, i: nat, bound: int)
    requires i <= |slots| && bound >= 1
    ensures 1 <= SleepHint(slots, i, bound) <= bound
    decreases |slots| - i
  {
    if i < |slots| {
      HintInRange(slots, i + 1, if bound > 1 && slots[i].Busy() then SleepTicks(slots[i], bound) else bound);
    }
  }

  /**
   The interval a tick returns is the greatest up to the maximum in which no sleep and no timeout
   of the tasks it leaves behind ends early, and one tick when there is none.
   */
  lemma ReturnsGreatest(s: State, elapsed: int, p: Policy, k: int)
    requires 2 <= k <= TICKLESS_TICKS_MAX
    ensures 1 <= TickReturn(s, elapsed) <= TICKLESS_TICKS_MAX
    ensures TickReturn(s, elapsed) >= k <==> Suppressible(OnTick(s, elapsed, p).slots, 0, k)
  {
    hide UpdateTasks, UpdateFsm;
    var slots := UpdateTasks(s.(ticks := s.ticks + elapsed), elapsed).slots;
    HintInRange(slots, 0, TICKLESS_TICKS_MAX);
    HintExactly(slots, k);
    assert OnTick(s, elapsed, p).slots == slots;
  }

  /** No infinite wait reaches the end of its 32-bit counter within k ticks. */
  predicate CountersLast(s: State, k: int) {
    forall i :: 0 <= i < |s.slots| && s.slots[i].Waiting() && s.slots[i].waitLeft == WAIT_INFINITE ==>
      k <= -s.slots[i].sleep
  }

  /** `s` is what a tick of a running kernel left behind, with `hint` its result. */
  predicate TickedFrom(s0: State, e: int, s: State, hint: int, p: Policy) {
    Inv(s0) && Enabled(s0, Tick(e)) && s == OnTick(s0, e, p) && hint == TickReturn(s0, e)
  }

  lemma AfterTickSettled(s0: State, e: int, s: State, hint: int, p: Policy)
    requires TickedFrom(s0, e, s, hint, p) && Lawful(p) && NoneLeaving(s.slots) && s.now.Some?
    ensures Settled(s) && s.fsm in {Switching, Sleeping, Waking}
    ensures hint == SleepHint(s.slots, 0, TICKLESS_TICKS_MAX)
    ensures forall i :: 0 <= i < |s.slots| ==> !s.slots[i].sleepPending
    ensures s.strat.active == {} ==> s.fsm == Sleeping
  {
    hide Core, BeforeSlots, UpdateSlots, UpdateFsm, Lawful, MidContext, Servable;
    TickInv(s0, e, p);
    BeforeSlotsOk(s0, e);
    var b := BeforeSlots(s0, e);
    SlotPass(b, 0, e);
    var c := UpdateSlots(b, 0, e);
    SyncListOfTick(s0, e);
    TickIs(s0, e, p);
    ExitingIdle(s0);
    IdleFsm(c, p);
  }

  lemma ExitingIdle(s: State)
    requires Inv(s)
    ensures s.fsm == Exiting ==> s.now.None?
  {
  }

  lemma IdleFsm(c: State, p: Policy)
    requires c.fsm != FsmNone && (c.fsm == Exiting ==> c.now.None?)
    ensures UpdateFsm(c, p).now.Some? && UpdateFsm(c, p).strat.active == {} ==> UpdateFsm(c, p).fsm == Sleeping
  {
  }

  lemma {:induction false} ServeLists(s: State, i: nat)
    requires i <= |s.slots|
    ensures ServeFrom(s, i).waiters == s.waiters && ServeFrom(s, i).syncList == s.syncList
    decreases |s.slots| - i
  {
    if i < |s.slots| {
      if s.slots[i].addReq.None? { ServeLists(s, i + 1); } else { ServeLists(ServeOne(s, i), i + 1); }
    }
  }

  lemma {:induction false} PassLists(s: State, i: nat, elapsed: int)
    requires i <= |s.slots|
    ensures UpdateSlots(s, i, elapsed).waiters == s.waiters && UpdateSlots(s, i, elapsed).syncList == s.syncList
    decreases |s.slots| - i
  {
    if i < |s.slots| { PassLists(UpdateSlot(s, i, elapsed), i + 1, elapsed); }
  }

  lemma RequestLists(a: State)
    ensures UpdateTaskRequest(a).waiters == a.waiters && UpdateTaskRequest(a).syncList == a.syncList
  {
    if a.request { ServeLists(a.(request := false), 0); }
  }

  /** After every tick the sync list holds exactly the objects that have waiters. */
  lemma SyncListOfTick(s: State, elapsed: int)
    requires Core(s, 0) && elapsed >= 1
    ensures var c := UpdateSlots(BeforeSlots(s, elapsed), 0, elapsed);
      && |c.waiters| == |s.waiters|
      && (forall o: nat :: o in c.syncList <==> o < |c.waiters| && c.waiters[o] != [])
  {
    var s0 := s.(ticks := s.ticks + elapsed);
    hide Core, UpdateSyncObjects, UpdateTaskRequest;
    CoreOf(s, s0);
    SyncListOfTimeouts(s0, elapsed);
    RequestLists(UpdateSyncObjects(s0, elapsed));
    PassLists(BeforeSlots(s, elapsed), 0, elapsed);
  }

  lemma SyncListOfTimeouts(s: State, elapsed: int)
    requires Core(s, 0) && elapsed >= 1
    ensures var a := UpdateSyncObjects(s, elapsed);
      && |a.waiters| == |s.waiters|
      && (forall o: nat :: o in a.syncList <==> o < |a.waiters| && a.waiters[o] != [])
  {
    ArmableOfCore(s, 0);
    UpdateSyncObjectsIs(s, elapsed);
    var a := UpdateSyncObjects(s, elapsed);
    forall o: nat ensures o in a.syncList <==> o < |a.waiters| && a.waiters[o] != [] {
      if o in a.syncList {
        var k :| 0 <= k < |a.syncList| && a.syncList[k] == o;
      }
    }
  }

  lemma QuietFromHint(slots: seq<Slot>, i: nat, hint: int, k: int)
    requires i < |slots| && SlotOk(slots[i], 0) && !slots[i].sleepPending
    requires 2 <= k <= hint && hint == SleepHint(slots, 0, TICKLESS_TICKS_MAX)
    requires slots[i].Waiting() && slots[i].waitLeft == WAIT_INFINITE ==> k <= -slots[i].sleep
    requires slots[i].Waiting() && slots[i].waitLeft != WAIT_INFINITE ==> slots[i].waitLeft > 0
    ensures QuietSlot(slots[i], k)
  {
    HintBounds(slots, 0, TICKLESS_TICKS_MAX);
  }

  /** The waits a tick leaves behind have time left. */
  lemma WaitsLeft(s0: State, e: int, p: Policy, i: nat)
    requires Inv(s0) && e >= 1 && i < |s0.slots| && OnTick(s0, e, p).slots[i].Waiting()
    requires OnTick(s0, e, p).slots[i].waitLeft != WAIT_INFINITE
    ensures OnTick(s0, e, p).slots[i].waitLeft > 0
  {
    hide OnTick;
    TickWaitOn(s0, e, p, i);
    assert SlotOk(s0.slots[i], 0);
    TickedSlot(s0, e, p, i);
  }

  lemma HintIsQuiet(s0: State, e: int, s: State, hint: int, p: Policy, k: int)
    requires TickedFrom(s0, e, s, hint, p) && Lawful(p) && NoneLeaving(s.slots) && s.now.Some?
    requires 2 <= k <= hint && CountersLast(s, k)
    ensures Quiet(s, k)
  {
    hide OnTick, TickReturn, Lawful, Servable, SlotOk, SetsAgree, ListsAgree, Registered, WaitLogOk, Genuine,
        UsersDistinct;
    AfterTickSettled(s0, e, s, hint, p);
    assert SlotsOk(s.slots, 0) && SetsAgree(s.slots, s.strat);
    forall i | 0 <= i < |s.slots| ensures QuietSlot(s.slots[i], k) {
      assert SlotOk(s.slots[i], 0);
      if s.slots[i].Waiting() && s.slots[i].waitLeft != WAIT_INFINITE { WaitsLeft(s0, e, p, i); }
      QuietFromHint(s.slots, i, hint, k);
    }
    assert forall i :: 0 <= i < |s.slots| ==> !Runnable(s.slots[i]);
    QuietIsIdle(s);
  }

  lemma QuietIsIdle(s: State)
    requires SetsAgree(s.slots, s.strat) && forall i :: 0 <= i < |s.slots| ==> !Runnable(s.slots[i])
    ensures s.strat.active == {}
  {
    assert forall i: nat :: i !in s.strat.active;
  }

  /** Tickless refines ticked: for every k up to the interval the last tick returned, one tick
      of length k equals k ticks of length one, provided no infinite wait's counter runs out. */
  lemma TicklessRefinesTicked(s0: State, e: int, s: State, hint: int, p: Policy, k: int)
    requires TickedFrom(s0, e, s, hint, p) && Lawful(p) && NoneLeaving(s.slots) && s.now.Some?
    requires 1 <= k <= hint && (k == 1 || CountersLast(s, k))
    ensures Equivalent(OnTick(s, k, p), Ticks(s, k, p))
  {
    hide OnTick, Lawful, Equivalent, Quiet, TickedFrom;
    if k == 1 {
      assert Ticks(s, 0, p) == s;
      EquivalentRefl(OnTick(s, 1, p));
    } else {
      HintIsQuiet(s0, e, s, hint, p, k);
      QuietInterval(s, k, p);
    }
  }

  // ---- and only then ------------------------------------------------------------------------------

  function Picks(log: seq<Event>): nat {
    if log == [] then 0 else Picks(log[..|log| - 1]) + if log[|log| - 1].Picked? then 1 else 0
  }

  lemma PickAppend(log: seq<Event>, e: Event)
    ensures Picks(log + [e]) == Picks(log) + if e.Picked? then 1 else 0
  {
    assert (log + [e])[..|log|] == log;
  }

  lemma {:induction false} PassPicks(s: State, i: nat, elapsed: int)
    requires i <= |s.slots|
    ensures Picks(UpdateSlots(s, i, elapsed).strat.log) == Picks(s.strat.log)
    decreases |s.slots| - i
  {
    if i < |s.slots| {
      SlotPicks(s, i, elapsed);
      PassPicks(UpdateSlot(s, i, elapsed), i + 1, elapsed);
    }
  }

  lemma DeliverPicks(s: State, i: nat)
    requires i < |s.slots|
    ensures Picks(DeliverSleep(s, i).strat.log) == Picks(s.strat.log)
  {
    PickAppend(s.strat.log, Slept(i));
  }

  lemma AdvancePicks(s: State, i: nat, elapsed: int)
    requires i < |s.slots|
    ensures Picks(AdvanceSleep(s, i, elapsed).strat.log) == Picks(s.strat.log)
  {
    PickAppend(s.strat.log, Woke(i));
  }

  lemma SlotPicks(s: State, i: nat, elapsed: int)
    requires i < |s.slots|
    ensures Picks(UpdateSlot(s, i, elapsed).strat.log) == Picks(s.strat.log)
  {
    hide Picks;
    PickAppend(s.strat.log, Removed(i));
    DeliverPicks(s, i);
    AdvancePicks(DeliverSleep(s, i), i, elapsed);
    hide AdvanceSleep, DeliverSleep;
  }

  /** One tick picks at most once, and does pick when it leaves a task awake. */
  lemma TickPicks(s: State, elapsed: int, p: Policy)
    requires Settled(s) && elapsed >= 1 && Lawful(p) && s.fsm != FsmNone
    ensures var r := OnTick(s, elapsed, p);
      Picks(r.strat.log) == Picks(s.strat.log) + if r.strat.active != {} then 1 else 0
  {
    hide Settled, BeforeSlots, UpdateSlots, OnTick, UpdateFsm;
    TimeoutsAre(s, elapsed);
    var b := BeforeSlots(s, elapsed);
    assert b.strat == s.strat;
    PassPicks(b, 0, elapsed);
    var c := UpdateSlots(b, 0, elapsed);
    TickIs(s, elapsed, p);
    FsmPicks(c, p);
  }

  lemma FsmPicksOnce(c: State, p: Policy)
    ensures UpdateFsm(c, p).strat == NotePick(c, FetchNext(c, p)).strat
  {
  }

  lemma FsmPicks(c: State, p: Policy)
    ensures var r := UpdateFsm(c, p);
      Picks(r.strat.log) == Picks(c.strat.log) + if r.strat.active != {} then 1 else 0
  {
    hide Picks, UpdateFsm;
    FsmKeepsSlots(c, p);
    PickAppend(c.strat.log, Picked(p.next(c.strat.log)));
    FsmPicksOnce(c, p);
  }

  /** An infinite waiter counts towards zero and then stays awake, still waiting. */
  predicate Overruns(t: Slot, o: nat, left: int) {
    t.Busy() && !t.removePending && t.waitOn == Some(o) && !t.timedOut && t.waitLeft == WAIT_INFINITE
    && (t.sleep >= 0 || t.sleep + left >= 0)
  }

  lemma SettledTick(s: State, p: Policy)
    requires Settled(s) && s.now.Some? && Lawful(p)
    ensures s.fsm != FsmNone && Inv(OnTick(s, 1, p))
    ensures Settled(OnTick(s, 1, p))
  {
    hide Core, BeforeSlots, UpdateSlots, UpdateFsm, Lawful;
    assert Servable(s) && s.fsm != FsmNone;
    TickInv(s, 1, p);
    TasksAre(s, 1);
    SyncListOfTick(s, 1);
    var c := UpdateSlots(BeforeSlots(s, 1), 0, 1);
    TickIs(s, 1, p);
    FsmKeepsSlots(c, p);
    assert NoneLeaving(c.slots);
  }

  lemma AwakeIsActive(r: State, i: nat)
    requires Inv(r) && i < |r.slots| && r.slots[i].Busy()
    ensures r.fsm != FsmNone ==> r.now.Some?
    ensures r.slots[i].sleep >= 0 ==> r.strat.active != {}
  {
    ManagedIsBusy(r, i);
    NonEmpty(r, i);
    assert r.slots[i].sleep >= 0 ==> Runnable(r.slots[i]);
  }

  lemma TickKeepsRunning(s: State, p: Policy)
    requires Settled(s) && s.now.Some? && Lawful(p)
    ensures OnTick(s, 1, p).fsm != FsmNone
  {
    var c := UpdateSlots(BeforeSlots(s, 1), 0, 1);
    assert Servable(s);
    BeforeSlotsOk(s, 1);
    hide MidPass, MidContext, BeforeSlots, Settled;
    FsmOfPass(BeforeSlots(s, 1), 0, 1);
    TickIs(s, 1, p);
    hide UpdateSlots, OnTick;
    FsmNeverNone(c, p);
  }

  lemma FsmNeverNone(c: State, p: Policy)
    requires c.fsm != FsmNone
    ensures UpdateFsm(c, p).fsm != FsmNone
  {
  }

  lemma OverrunTick(s: State, p: Policy, i: nat, o: nat, left: int)
    requires Settled(s) && s.now.Some? && Lawful(p) && i < |s.slots| && Overruns(s.slots[i], o, left)
    ensures var r := OnTick(s, 1, p);
      && Settled(r) && r.now.Some? && Overruns(r.slots[i], o, left - 1)
      && (r.slots[i].sleep >= 0 ==> r.strat.active != {})
  {
    TickedSlot(s, 1, p, i);
    hide Inv, Core, OnTick, Lawful;
    SettledTick(s, p);
    TickKeepsRunning(s, p);
    AwakeIsActive(OnTick(s, 1, p), i);
  }

  lemma {:induction false} OverrunTicks(s: State, n: nat, p: Policy, i: nat, o: nat, left: int)
    requires Settled(s) && s.now.Some? && Lawful(p) && i < |s.slots| && Overruns(s.slots[i], o, left)
    ensures var r := Ticks(s, n, p);
      && Settled(r) && r.now.Some? && Overruns(r.slots[i], o, left - n)
      && (n > 0 && r.slots[i].sleep >= 0 ==> r.strat.active != {})
      && Picks(r.strat.log) >= Picks(s.strat.log)
  {
    hide Settled, Overruns, OnTick, Lawful;
    if n > 0 {
      OverrunTicks(s, n - 1, p, i, o, left);
      var a := Ticks(s, n - 1, p);
      OverrunTick(a, p, i, o, left - (n - 1));
      SettledFsm(a);
      TickPicks(a, 1, p);
    }
  }

  lemma SettledFsm(s: State)
    requires Settled(s) && s.now.Some?
    ensures s.fsm != FsmNone
  {
  }

  lemma StartsOverrun(s: State, i: nat, k: int)
    requires Settled(s) && i < |s.slots| && s.slots[i].Busy() && s.slots[i].Waiting()
    requires s.slots[i].waitLeft == WAIT_INFINITE && k > -s.slots[i].sleep
    ensures Overruns(s.slots[i], s.slots[i].waitOn.value, k - 1)
  {
    assert SlotOk(s.slots[i], 0);
  }

  /** A counter that runs out inside the interval makes the ticked kernel pick a task twice
      where the tickless one picks once. */
  lemma OverrunDiffers(s: State, k: int, p: Policy, i: nat)
    requires Settled(s) && s.now.Some? && Lawful(p) && k >= 2
    requires i < |s.slots| && s.slots[i].Busy() && s.slots[i].Waiting() && s.slots[i].waitLeft == WAIT_INFINITE
    requires k > -s.slots[i].sleep
    ensures !Equivalent(OnTick(s, k, p), Ticks(s, k, p))
  {
    hide Core, OnTick, Lawful, ContextOk;
    var o := s.slots[i].waitOn.value;
    StartsOverrun(s, i, k);
    OverrunTicks(s, k - 2, p, i, o, k - 1);
    var a := Ticks(s, k - 2, p);
    var b := Ticks(s, k - 1, p);
    OverrunTick(a, p, i, o, 1);
    SettledFsm(a);
    TickPicks(a, 1, p);
    OverrunTick(b, p, i, o, 0);
    SettledFsm(b);
    TickPicks(b, 1, p);
    SettledFsm(s);
    TickPicks(s, k, p);
  }

  /** The exact condition: the tickless kernel matches the ticked one on an interval iff every
      infinite wait's counter lasts at least that long. */
  lemma TicklessExactly(s0: State, e: int, s: State, hint: int, p: Policy, k: int)
    requires TickedFrom(s0, e, s, hint, p) && Lawful(p) && NoneLeaving(s.slots) && s.now.Some?
    requires 1 <= k <= hint
    ensures Equivalent(OnTick(s, k, p), Ticks(s, k, p)) <==> (k == 1 || CountersLast(s, k))
  {
    if k == 1 || CountersLast(s, k) {
      TicklessRefinesTicked(s0, e, s, hint, p, k);
    } else {
      AfterTickSettled(s0, e, s, hint, p);
      var i :| 0 <= i < |s.slots| && s.slots[i].Waiting() && s.slots[i].waitLeft == WAIT_INFINITE
        && k > -s.slots[i].sleep;
      WaiterBusy(s, i);
      OverrunDiffers(s, k, p, i);
    }
  }

  lemma WaiterBusy(s: State, i: nat)
    requires Inv(s) && i < |s.slots| && s.slots[i].Waiting()
    ensures s.slots[i].Busy()
  {
    assert SlotOk(s.slots[i], 0);
  }
}
