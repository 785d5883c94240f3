/**
 Adding a task to a running kernel: no request is lost, none is served twice, and the
 assertion that closes `RequestAddTask` cannot fail.
 */
module Requests {
  import opened KernelTypes
  import opened KernelSpec
  import opened SyncPass
  import opened Invariant
  import opened TickInvariant
  import opened Runs

  predicate BoundIn(a: seq<Slot>, b: seq<Slot>, user: Option<nat>) {
    exists k :: 0 <= k < |a| && k < |b| && !a[k].Busy() && b[k].user == user
  }

  predicate AskedFor(slots: seq<Slot>, i: nat, user: Option<nat>) {
    exists j :: i <= j < |slots| && slots[j].addReq == user
  }

  /** What serving the requests of the slots from `i` on has to achieve. */
  predicate Served(s: State, r: State, i: nat)
    requires i <= |s.slots| == |r.slots|
  {
    && (forall k :: 0 <= k < |s.slots| && s.slots[k].Busy() ==> r.slots[k].user == s.slots[k].user)
    && (forall j :: i <= j < |s.slots| && s.slots[j].addReq.Some? ==> BoundIn(s.slots, r.slots, s.slots[j].addReq))
    && (forall k :: 0 <= k < |s.slots| && !s.slots[k].Busy() && r.slots[k].Busy() ==>
      AskedFor(s.slots, i, r.slots[k].user))
    && |r.strat.log| == |s.strat.log| + PendingFrom(s.slots, i)
    && r.strat.log[..|s.strat.log|] == s.strat.log
    && (forall k :: |s.strat.log| <= k < |r.strat.log| ==> r.strat.log[k].Added?)
  }

  lemma ServedNone(s: State)
    ensures Served(s, s, |s.slots|)
  {
  }

  lemma ServedSkip(s: State, r: State, i: nat)
    requires i < |s.slots| == |r.slots| && s.slots[i].addReq.None? && Served(s, r, i + 1)
    ensures Served(s, r, i)
  {
    forall k | 0 <= k < |s.slots| && !s.slots[k].Busy() && r.slots[k].Busy()
      ensures AskedFor(s.slots, i, r.slots[k].user)
    {
      var j :| i + 1 <= j < |s.slots| && s.slots[j].addReq == r.slots[k].user;
    }
  }

  lemma {:induction false} ServesAll(s: State, i: nat, slack: int)
    requires Serving(s, i, slack)
    ensures Served(s, ServeFrom(s, i), i)
    decreases |s.slots| - i
  {
    hide Core, Served, FreshRequests, FreeCount, PendingFrom;
    if i == |s.slots| {
      ServedNone(s);
    } else if s.slots[i].addReq.None? {
      ServeSkip(s, i, slack);
      ServesAll(s, i + 1, slack);
      ServedSkip(s, ServeFrom(s, i), i);
    } else {
      ServeOneCore(s, i, slack);
      ServeOneCounts(s, i, slack);
      ServesAll(ServeOne(s, i), i + 1, slack);
      ServedStep(s, ServeFrom(s, i), i, slack);
    }
  }

  lemma ServedUsers(s: seq<Slot>, a: seq<Slot>, r: seq<Slot>, i: nat, k: nat)
    requires i < |s| && k < |s| && k != i && !s[k].Busy() && s[k].addReq.None? && s[i].Busy() && s[i].addReq.Some?
    requires a == s[k := s[k].(user := s[i].addReq)][i := s[i].(addReq := None)] && |r| == |s|
    requires forall m :: 0 <= m < |a| && a[m].Busy() ==> r[m].user == a[m].user
    requires forall j :: i + 1 <= j < |a| && a[j].addReq.Some? ==> BoundIn(a, r, a[j].addReq)
    requires forall m :: 0 <= m < |a| && !a[m].Busy() && r[m].Busy() ==> AskedFor(a, i + 1, r[m].user)
    ensures forall m :: 0 <= m < |s| && s[m].Busy() ==> r[m].user == s[m].user
    ensures forall j :: i <= j < |s| && s[j].addReq.Some? ==> BoundIn(s, r, s[j].addReq)
    ensures forall m :: 0 <= m < |s| && !s[m].Busy() && r[m].Busy() ==> AskedFor(s, i, r[m].user)
  {
    assert a[k].Busy() && r[k].user == s[i].addReq;
    forall j | i <= j < |s| && s[j].addReq.Some? ensures BoundIn(s, r, s[j].addReq) {
      if j > i {
        assert BoundIn(a, r, a[j].addReq);
        var m :| 0 <= m < |a| && !a[m].Busy() && r[m].user == a[j].addReq;
        assert !s[m].Busy();
      }
    }
    forall m | 0 <= m < |s| && !s[m].Busy() && r[m].Busy() ensures AskedFor(s, i, r[m].user) {
      if m != k {
        assert AskedFor(a, i + 1, r[m].user);
        var j :| i + 1 <= j < |a| && a[j].addReq == r[m].user;
        assert s[j].addReq == r[m].user;
      }
    }
  }

  lemma ServedLog(s: seq<Event>, r: seq<Event>, k: nat)
    requires |s| + 1 <= |r| && r[..|s| + 1] == s + [Added(k)]
    requires forall m :: |s| + 1 <= m < |r| ==> r[m].Added?
    ensures r[..|s|] == s && forall m :: |s| <= m < |r| ==> r[m].Added?
  {
    assert r[..|s|] == r[..|s| + 1][..|s|];
    assert r[|s|] == r[..|s| + 1][|s|];
  }

  lemma ServedStep(s: State, r: State, i: nat, slack: int)
    requires Serving(s, i, slack) && i < |s.slots| && s.slots[i].addReq.Some? && |r.slots| == |s.slots|
    requires Served(ServeOne(s, i), r, i + 1)
    ensures Served(s, r, i)
  {
    hide Core, BoundIn, AskedFor;
    ServeOneSlots(s, i, slack);
    var k := FirstFree(s.slots, 0);
    var a := ServeOne(s, i);
    ServedUsers(s.slots, a.slots, r.slots, i, k);
    PendingSame(s.slots, a.slots, i + 1);
    assert a.strat.log == s.strat.log + [Added(k)];
    ServedLog(s.strat.log, r.strat.log, k);
  }

  /** One service: each pending request binds one slot that was free and no other slot is
      bound; the strategy is told of each new task once; nothing stays pending. */
  lemma RequestsServed(s: State, slack: int)
    requires Core(s, slack) && s.request && Servable(s)
    ensures var r := UpdateTaskRequest(s);
      && Served(s, r, 0) && UsersDistinct(r.slots) && !r.request
      && (forall j :: 0 <= j < |r.slots| ==> r.slots[j].addReq.None?)
  {
    ServeIgnoresFlag(s, 0, false);
    ServeCore(s, 0, slack);
    ServesAll(s, 0, slack);
  }

  // ---- what a service leaves behind -----------------------------------------------------

  /** The history grew from `a` to `b`, and among the new calls exactly one adds task `k`. */
  predicate AddedOnce(a: seq<Event>, b: seq<Event>, k: nat) {
    && |a| <= |b| && b[..|a|] == a
    && (exists n :: |a| <= n < |b| && b[n] == Added(k))
    && (forall m, n :: |a| <= m < n < |b| ==> !(b[m] == Added(k) && b[n] == Added(k)))
  }

  lemma {:induction false} AddsOnce(log: seq<Event>, from: nat, k: nat)
    requires WellFormed(log) && from <= |log| && !Replay(log[..from]).Manages(k)
    requires forall m :: from <= m < |log| ==> log[m].Added?
    ensures Replay(log).Manages(k) <==> exists n :: from <= n < |log| && log[n] == Added(k)
    ensures forall m, n :: from <= m < n < |log| ==> !(log[m] == Added(k) && log[n] == Added(k))
  {
    if from == |log| {
      assert log[..from] == log;
    } else {
      var last := |log| - 1;
      assert log[..last][..from] == log[..from];
      AddsOnce(log[..last], from, k);
      if log[last] == Added(k) {
        assert !Replay(log[..last]).Manages(k);
        assert forall n :: from <= n < last ==> log[..last][n] == log[n];
      } else {
        assert Replay(log).Manages(k) == Replay(log[..last]).Manages(k);
        assert forall n :: from <= n < last ==> log[n] == log[..last][n];
      }
    }
  }

  predicate AwakeAt(slots: seq<Slot>, j: nat) {
    j < |slots| && slots[j].Busy() && !slots[j].Asleep() && !slots[j].Waiting()
  }

  lemma ServeOneTimers(s: State, i: nat, j: nat)
    requires i < |s.slots| && j < |s.slots| && s.slots[i].addReq.Some?
    ensures var t := ServeOne(s, i).slots[j]; t.sleep == s.slots[j].sleep && t.waitOn == s.slots[j].waitOn
  {
    hide FirstFree, UserUnbound;
  }

  lemma ServeStep(s: State, i: nat)
    requires i < |s.slots| && s.slots[i].addReq.Some?
    ensures ServeFrom(s, i) == ServeFrom(ServeOne(s, i), i + 1)
  {
  }

  /** Serving requests writes no timer. */
  lemma {:induction false} ServeKeepsTimers(s: State, i: nat, j: nat)
    requires i <= |s.slots| && j < |s.slots|
    ensures var t := ServeFrom(s, i).slots[j]; t.sleep == s.slots[j].sleep && t.waitOn == s.slots[j].waitOn
    decreases |s.slots| - i
  {
    if i < |s.slots| {
      if s.slots[i].addReq.None? {
        ServeKeepsTimers(s, i + 1, j);
      } else {
        ServeStep(s, i);
        hide ServeFrom, ServeOne;
        ServeOneTimers(s, i, j);
        ServeKeepsTimers(ServeOne(s, i), i + 1, j);
      }
    }
  }

  lemma FreeSlotRests(a: State, k: nat, slack: int)
    requires Core(a, slack) && k < |a.slots| && !a.slots[k].Busy()
    ensures !a.slots[k].Asleep() && !a.slots[k].Waiting()
  {
    assert SlotOk(a.slots[k], slack);
  }

  /** The service of slot `j`'s request: a free slot gets the task, awake, by one call on the strategy. */
  lemma ServiceBinds(a: State, slack: int, j: nat) returns (k: nat)
    requires Core(a, slack) && Servable(a) && a.request && j < |a.slots| && a.slots[j].addReq.Some?
    ensures var r := UpdateTaskRequest(a);
      && AwakeAt(r.slots, k) && !a.slots[k].Busy() && r.slots[k].user == a.slots[j].addReq
      && r.slots[j].addReq.None? && AddedOnce(a.strat.log, r.strat.log, k)
  {
    hide Core, Servable, ServeFrom, AskedFor, AddedOnce;
    RequestsServed(a, slack);
    var r := UpdateTaskRequest(a);
    assert BoundIn(a.slots, r.slots, a.slots[j].addReq);
    k :| 0 <= k < |a.slots| && k < |r.slots| && !a.slots[k].Busy() && r.slots[k].user == a.slots[j].addReq;
    FreeSlotRests(a, k, slack);
    ServeKeepsTimers(a.(request := false), 0, k);
    RequestsCore(a, slack);
    ServiceAdds(a, r, slack, k);
  }

  lemma ServiceAdds(a: State, r: State, slack: int, k: nat)
    requires Core(a, slack) && Core(r, slack) && |a.slots| == |r.slots| && Served(a, r, 0)
    requires k < |a.slots| && !a.slots[k].Busy() && r.slots[k].Busy()
    ensures AddedOnce(a.strat.log, r.strat.log, k)
  {
    hide ListsAgree, Registered, WaitLogOk, UsersDistinct, SlotsOk, RequestsFlagged, BoundIn, AskedFor, WellFormed;
    ManagedIsBusy(a, k);
    ManagedIsBusy(r, k);
    AddsOnce(r.strat.log, |a.strat.log|, k);
  }

  // ---- over runs -----------------------------------------------------------------------

  lemma {:induction false} PassKeepsAwake(s: State, i: nat, j: nat, elapsed: int)
    requires i <= |s.slots| && j < |s.slots| && !s.slots[j].Asleep()
    ensures UpdateSlots(s, i, elapsed).slots[j] == s.slots[j]
    decreases |s.slots| - i
  {
    if i < |s.slots| {
      PassKeepsAwake(UpdateSlot(s, i, elapsed), i + 1, j, elapsed);
    }
  }

  lemma {:induction false} ServeStage(s: State, i: nat, j: nat)
    requires i <= |s.slots| && j < |s.slots|
    ensures ServeFrom(s, i).slots[j].stage == s.slots[j].stage
    ensures ServeFrom(s, i).slots[j].addReq in {s.slots[j].addReq, None}
    decreases |s.slots| - i
  {
    if i < |s.slots| {
      if s.slots[i].addReq.None? { ServeStage(s, i + 1, j); } else { ServeStage(ServeOne(s, i), i + 1, j); }
    }
  }

  lemma SlotStage(s: State, i: nat, j: nat, elapsed: int)
    requires i < |s.slots| && j < |s.slots|
    ensures var t := UpdateSlot(s, i, elapsed).slots[j];
      t.stage == NoAdd || (t.stage == s.slots[j].stage && t.addReq == s.slots[j].addReq && t.user == s.slots[j].user)
  {
  }

  lemma {:induction false} PassStage(s: State, i: nat, j: nat, elapsed: int)
    requires i <= |s.slots| && j < |s.slots|
    ensures var t := UpdateSlots(s, i, elapsed).slots[j];
      t.stage == NoAdd || (t.stage == s.slots[j].stage && t.addReq == s.slots[j].addReq && t.user == s.slots[j].user)
    decreases |s.slots| - i
  {
    hide UpdateSlot;
    if i < |s.slots| {
      SlotStage(s, i, j, elapsed);
      PassStage(UpdateSlot(s, i, elapsed), i + 1, j, elapsed);
    }
  }

  /** `user` is bound to one slot, which was free, and the strategy was told by one call. */
  predicate BindsTo(s: State, r: State, k: nat, user: Option<nat>) {
    && k < |s.slots| == |r.slots| && !s.slots[k].Busy() && r.slots[k].user == user
    && (forall m :: 0 <= m < |r.slots| && r.slots[m].user == user ==> m == k)
    && AddedOnce(s.strat.log, r.strat.log, k)
  }

  predicate BindsOnce(s: State, r: State, user: Option<nat>) {
    exists k :: 0 <= k < |s.slots| && BindsTo(s, r, k, user)
  }

  /** Before the start a task is added to the first free slot, awake, and to the strategy, once. */
  lemma AddTaskBinds(s: State, user: nat, p: Policy)
    requires Inv(s) && Enabled(s, AddTask(user)) && Lawful(p)
    ensures var r, k := Exec(s, AddTask(user), p), FirstFree(s.slots, 0);
      && BindsTo(s, r, k, Some(user)) && AwakeAt(r.slots, k)
      && forall j :: 0 <= j < |s.slots| && j != k ==> r.slots[j] == s.slots[j]
  {
    hide Core, ContextOk, Lawful, AddedOnce, OnTick, OnStart;
    assert ListsAgree(s) by { CoreLists(s); }
    var r, k := Exec(s, AddTask(user), p), FirstFree(s.slots, 0);
    StepInv(s, AddTask(user), p);
    BoundAlone(r, k);
    FreeSlotRests(s, k, 0);
    AddedLast(s.strat.log, k);
  }

  lemma AddedLast(log: seq<Event>, k: nat)
    ensures AddedOnce(log, log + [Added(k)], k)
  {
    assert (log + [Added(k)])[|log|] == Added(k);
  }

  /** Up to the slot pass a tick keeps a request or serves it. */
  lemma RequestBeforeSlots(s: State, elapsed: int, j: nat) returns (k: nat)
    requires Inv(s) && elapsed >= 1 && Servable(s) && j < |s.slots| && s.slots[j].addReq.Some?
    ensures var b := BeforeSlots(s, elapsed);
      && b.slots[j].stage == s.slots[j].stage
      && (b.slots[j].addReq == s.slots[j].addReq ||
          (&& b.slots[j].addReq.None? && AwakeAt(b.slots, k) && k < |s.slots| && !s.slots[k].Busy()
           && b.slots[k].user == s.slots[j].addReq && AddedOnce(s.strat.log, b.strat.log, k)))
  {
    AgedRequests(s, elapsed) by { assert Inv(s); }
    hide *;
    AfterTimeouts(s, elapsed);
    var a := UpdateSyncObjects(s.(ticks := s.ticks + elapsed), elapsed);
    assert BeforeSlots(s, elapsed) == UpdateTaskRequest(a) by { BeforeSlotsIs(s, elapsed); }
    assert a.strat == s.strat by { TimeoutsKeepStrategy(s, elapsed); }
    ServiceStage(a, j);
    k := j;
    if a.request {
      k := ServiceBinds(a, elapsed, j);
      assert !s.slots[k].Busy() by { SameBusy(s.slots[k], a.slots[k]); }
    }
  }

  lemma SameBusy(t: Slot, u: Slot)
    requires t.user == u.user
    ensures t.Busy() == u.Busy()
  {
  }

  lemma ServiceStage(a: State, j: nat)
    requires j < |a.slots|
    ensures UpdateTaskRequest(a).slots[j].stage == a.slots[j].stage
    ensures UpdateTaskRequest(a).slots[j].addReq in {a.slots[j].addReq, None}
    ensures !a.request ==> UpdateTaskRequest(a).slots[j].addReq == a.slots[j].addReq
  {
    if a.request { ServeStage(a.(request := false), 0, j); }
  }

  lemma TimeoutsKeepStrategy(s: State, elapsed: int)
    ensures UpdateSyncObjects(s.(ticks := s.ticks + elapsed), elapsed).strat == s.strat
  {
  }

  lemma BeforeSlotsIs(s: State, elapsed: int)
    ensures BeforeSlots(s, elapsed) == UpdateTaskRequest(UpdateSyncObjects(s.(ticks := s.ticks + elapsed), elapsed))
  {
  }

  lemma AgedRequests(s: State, elapsed: int)
    requires Core(s, 0) && elapsed >= 1
    ensures var a := UpdateSyncObjects(s.(ticks := s.ticks + elapsed), elapsed);
      forall k :: 0 <= k < |s.slots| ==>
        a.slots[k].user == s.slots[k].user && a.slots[k].addReq == s.slots[k].addReq
          && a.slots[k].stage == s.slots[k].stage
  {
    var s0 := s.(ticks := s.ticks + elapsed);
    hide Core, UpdateSyncObjects;
    CoreOf(s, s0);
    TimeoutSlots(s0, elapsed);
  }

  /** `b` continues `a` without adding a task. */
  predicate NoneAdded(a: seq<Event>, b: seq<Event>) {
    |a| <= |b| && b[..|a|] == a && forall n :: |a| <= n < |b| ==> !b[n].Added?
  }

  lemma NoneAddedTwice(a: seq<Event>, b: seq<Event>, c: seq<Event>)
    requires NoneAdded(a, b) && NoneAdded(b, c)
    ensures NoneAdded(a, c)
  {
    assert forall n :: 0 <= n < |b| ==> b[n] == c[..|b|][n];
    assert c[..|a|] == c[..|b|][..|a|];
  }

  lemma AddedThenNone(a: seq<Event>, b: seq<Event>, c: seq<Event>, k: nat)
    requires AddedOnce(a, b, k) && NoneAdded(b, c)
    ensures AddedOnce(a, c, k)
  {
    assert forall n :: 0 <= n < |b| ==> b[n] == c[..|b|][n];
    assert c[..|a|] == c[..|b|][..|a|];
    var n :| |a| <= n < |b| && b[n] == Added(k);
    assert c[n] == Added(k);
  }

  lemma SlotAddsNone(s: State, i: nat, elapsed: int)
    requires i < |s.slots|
    ensures NoneAdded(s.strat.log, UpdateSlot(s, i, elapsed).strat.log)
  {
  }

  lemma {:induction false} PassAddsNone(s: State, i: nat, elapsed: int)
    requires i <= |s.slots|
    ensures NoneAdded(s.strat.log, UpdateSlots(s, i, elapsed).strat.log)
    decreases |s.slots| - i
  {
    hide UpdateSlot;
    if i < |s.slots| {
      hide NoneAdded;
      var a := UpdateSlot(s, i, elapsed);
      SlotAddsNone(s, i, elapsed);
      PassAddsNone(a, i + 1, elapsed);
      NoneAddedTwice(s.strat.log, a.strat.log, UpdateSlots(a, i + 1, elapsed).strat.log);
    }
  }

  lemma FsmAddsNone(s: State, p: Policy)
    ensures NoneAdded(s.strat.log, UpdateFsm(s, p).strat.log)
  {
  }

  lemma RestAddsNone(b: State, elapsed: int, p: Policy)
    ensures NoneAdded(b.strat.log, UpdateFsm(UpdateSlots(b, 0, elapsed), p).strat.log)
  {
    hide NoneAdded, UpdateFsm;
    var c := UpdateSlots(b, 0, elapsed);
    PassAddsNone(b, 0, elapsed);
    FsmAddsNone(c, p);
    NoneAddedTwice(b.strat.log, c.strat.log, UpdateFsm(c, p).strat.log);
  }

  lemma BoundAlone(r: State, k: nat)
    requires Inv(r) && k < |r.slots| && r.slots[k].Busy()
    ensures forall m :: 0 <= m < |r.slots| && r.slots[m].user == r.slots[k].user ==> m == k
  {
  }

  /** A tick either keeps a request or serves it: one slot that was free is bound to the task asked
      for, and the strategy is told of it once. */
  lemma TickRequest(s: State, elapsed: int, p: Policy, j: nat)
    requires Inv(s) && s.fsm != FsmNone && elapsed >= 1 && Servable(s) && Lawful(p)
    requires j < |s.slots| && s.slots[j].addReq.Some?
    ensures var r := OnTick(s, elapsed, p);
      r.slots[j].stage != NoAdd ==>
        && r.slots[j].stage == s.slots[j].stage
        && (r.slots[j].addReq == s.slots[j].addReq || (r.slots[j].addReq.None? && BindsOnce(s, r, s.slots[j].addReq)))
  {
    hide Inv, Lawful, Servable, AddedOnce, NoneAdded, BeforeSlots, UpdateSlots, UpdateFsm, OnTick;
    var b, r := BeforeSlots(s, elapsed), OnTick(s, elapsed, p);
    var k := RequestBeforeSlots(s, elapsed, j);
    TickIs(s, elapsed, p);
    PassStage(b, 0, j, elapsed);
    if r.slots[j].stage != NoAdd && r.slots[j].addReq != s.slots[j].addReq {
      PassKeepsAwake(b, 0, k, elapsed);
      TickInv(s, elapsed, p);
      BoundAlone(r, k);
      RestAddsNone(b, elapsed, p);
      AddedThenNone(s.strat.log, b.strat.log, r.strat.log, k);
      assert BindsTo(s, r, k, s.slots[j].addReq);
    }
  }

  lemma TickKeepsNone(s: State, elapsed: int, p: Policy, j: nat)
    requires Inv(s) && elapsed >= 1 && j < |s.slots| && s.slots[j].addReq.None?
    ensures KeepsRequest(s.slots[j], OnTick(s, elapsed, p).slots[j])
  {
    AgedRequests(s, elapsed);
    hide Inv, BeforeSlots, UpdateSlots, UpdateFsm, OnTick, UpdateSyncObjects, UpdateTaskRequest;
    var b := BeforeSlots(s, elapsed);
    BeforeSlotsIs(s, elapsed);
    ServiceStage(UpdateSyncObjects(s.(ticks := s.ticks + elapsed), elapsed), j);
    TickIs(s, elapsed, p);
    PassStage(b, 0, j, elapsed);
  }

  predicate KeepsRequest(a: Slot, b: Slot) {
    b.stage == NoAdd || b.addReq == a.addReq
  }

  lemma {:induction false} WakeListRequests(s: State, ws: seq<nat>, i: nat)
    requires InRange(ws, |s.slots|) && i < |s.slots|
    ensures |WakeList(s, ws).slots| == |s.slots| && WakeList(s, ws).slots[i].addReq == s.slots[i].addReq
    decreases |ws|
  {
    if ws != [] { WakeListRequests(WakeWaiter(s, ws[0], false), ws[1..], i); }
  }

  lemma {:induction false} InitialSleepRequests(s: State, i: nat, j: nat)
    requires i <= |s.slots| && j < |s.slots|
    ensures DeliverInitialSleeps(s, i).slots[j].addReq == s.slots[j].addReq
    decreases |s.slots| - i
  {
    if i < |s.slots| {
      InitialSleepRequests(if s.slots[i].Asleep() then DeliverSleep(s, i) else s, i + 1, j);
    }
  }

  lemma StartRequests(s: State, p: Policy, j: nat)
    requires j < |s.slots|
    ensures |OnStart(s, p).slots| == |s.slots| && OnStart(s, p).slots[j].addReq == s.slots[j].addReq
  {
    InitialSleepRequests(s.Check(s.strat.Size() != 0), 0, j);
  }

  lemma CallKeepsRequest(s: State, a: Action, p: Policy, j: nat)
    requires Inv(s) && Enabled(s, a) && !a.Tick? && j < |s.slots| && s.slots[j].stage != NoAdd
    ensures |Exec(s, a, p).slots| == |s.slots| && KeepsRequest(s.slots[j], Exec(s, a, p).slots[j])
  {
    hide Inv, ListsAgree, Servable, OnTick, OnStart, WakeList;
    SlotAndLists(s, j);
    InRangeOfAgree(s);
    if a.SignalAll? {
      WakeListRequests(s, s.waiters[a.obj], j);
    } else if a.Start? {
      StartRequests(s, p, j);
    }
  }

  /** Step `a` serves the request of slot `j`. */
  predicate Serves(s: State, a: Action, r: State, j: nat, user: nat) {
    && a.Tick? && j < |s.slots| == |r.slots|
    && s.slots[j].addReq == Some(user) && r.slots[j].addReq.None?
    && BindsOnce(s, r, Some(user))
  }

  lemma StepRequest(s: State, a: Action, p: Policy, j: nat)
    requires Inv(s) && Enabled(s, a) && Lawful(p) && j < |s.slots| && s.slots[j].stage != NoAdd
    ensures var r := Exec(s, a, p);
      && |r.slots| == |s.slots|
      && (KeepsRequest(s.slots[j], r.slots[j]) ||
          (s.slots[j].addReq.Some? && Serves(s, a, r, j, s.slots[j].addReq.value)))
  {
    hide Inv, Servable, Lawful, OnTick, BindsOnce;
    assert ListsAgree(s) by { SlotAndLists(s, j); }
    if !a.Tick? {
      CallKeepsRequest(s, a, p, j);
    } else if s.slots[j].addReq.Some? {
      TickRequest(s, a.elapsed, p, j);
    } else {
      TickKeepsNone(s, a.elapsed, p, j);
    }
  }

  /** The request of slot `j` is pending from state `from` to state `x` and gone up to state `to`. */
  ghost predicate PendingUpTo(states: seq<State>, from: nat, x: nat, to: nat, j: nat, user: nat)
    requires to < |states|
  {
    forall y :: from <= y <= to ==>
      j < |states[y].slots| && states[y].slots[j].addReq == if y <= x then Some(user) else None
  }

  /** No request is lost and none is served twice: while its requester is inside the call it is
      pending until one tick serves it, and is not posted again. */
  lemma {:induction false} RequestFulfilled(states: seq<State>, actions: seq<Action>, p: Policy,
                                            from: nat, to: nat, j: nat, user: nat)
    requires IsRun(states, actions, p) && Lawful(p) && Inv(states[0]) && from <= to <= |actions|
    requires forall y :: from <= y <= to ==> j < |states[y].slots| && states[y].slots[j].stage != NoAdd
    requires states[from].slots[j].addReq == Some(user)
    ensures PendingUpTo(states, from, to, to, j, user) ||
            exists x :: from <= x < to && PendingUpTo(states, from, x, to, j, user)
                        && Serves(states[x], actions[x], states[x + 1], j, user)
  {
    hide Inv, Enabled, Lawful, Exec, Serves;
    if from < to {
      RequestFulfilled(states, actions, p, from, to - 1, j, user);
      RunInv(states, actions, p, to - 1);
      assert Step(states[to - 1], actions[to - 1], states[to - 1 + 1], p);
      StepRequest(states[to - 1], actions[to - 1], p, j);
      if PendingUpTo(states, from, to - 1, to - 1, j, user) {
        if states[to].slots[j].addReq != Some(user) {
          assert Serves(states[to - 1], actions[to - 1], states[to], j, user);
          ServesClears(states[to - 1], actions[to - 1], states[to], j, user);
          assert PendingUpTo(states, from, to - 1, to, j, user);
        }
      } else {
        var x :| from <= x < to - 1 && PendingUpTo(states, from, x, to - 1, j, user)
          && Serves(states[x], actions[x], states[x + 1], j, user);
        assert PendingUpTo(states, from, x, to, j, user);
      }
    }
  }

  lemma ServesClears(s: State, a: Action, r: State, j: nat, user: nat)
    requires Serves(s, a, r, j, user)
    ensures r.slots[j].addReq.None?
  {
  }

  /** The closing assertion of `RequestAddTask` holds whenever the requester gets there, and
      exactly one tick in between served the request, binding its task to one slot that was free. */
  lemma RequestCompletes(states: seq<State>, actions: seq<Action>, p: Policy, from: nat, to: nat, user: nat)
    requires IsRun(states, actions, p) && Lawful(p) && Inv(states[0]) && from < to < |actions|
    requires actions[from] == PostRequest(user) && actions[to] == FinishRequest
    requires states[to].cpu == states[from].cpu
    requires forall y :: from < y <= to ==>
               states[from].cpu.OnTask? && states[from].cpu.slot < |states[y].slots|
                 && states[y].slots[states[from].cpu.slot].stage != NoAdd
    ensures states[to].slots[states[to].cpu.slot].addReq.None?
    ensures exists x :: from < x < to && PendingUpTo(states, from + 1, x, to, states[to].cpu.slot, user)
                        && Serves(states[x], actions[x], states[x + 1], states[to].cpu.slot, user)
  {
    hide Inv, Lawful, OnTick, OnStart, Serves;
    assert Step(states[from], actions[from], states[from + 1], p);
    assert Step(states[to], actions[to], states[to + 1], p);
    var j := states[to].cpu.slot;
    RunInv(states, actions, p, to);
    SlotAndLists(states[to], j);
    RequestFulfilled(states, actions, p, from + 1, to, j, user);
  }
}
