/**
 The result of a wait over runs: the flag a task reads when its wait is over says TIMEOUT exactly
 when the step that ended the wait was a tick, however long it takes the task to read it.
 */
module Outcomes {
  import opened KernelTypes
  import opened KernelSpec
  import opened SyncPass
  import opened Invariant
  import opened TickInvariant
  import opened Runs
  import opened Safety
  import opened Timing

  predicate WaitsAt(s: State, i: nat) {
    i < |s.slots| && s.slots[i].Waiting()
  }

  /** What one step does to the record of slot `i`. */
  ghost predicate Recorded(s: State, r: State, i: nat, timeout: bool) {
    && |r.slots| == |s.slots|
    && (!WaitsAt(s, i) && !WaitsAt(r, i) ==> Outcome(r.waitLog, i) == Outcome(s.waitLog, i))
    && (WaitsAt(s, i) && !WaitsAt(r, i) ==> Outcome(r.waitLog, i) == Some(timeout))
  }

  /** What a tick records: ends by timeout of slots that waited, each once. */
  lemma TickLog(s: State, elapsed: int, p: Policy) returns (es: seq<WaitEvent>)
    requires Inv(s) && elapsed >= 1
    ensures OnTick(s, elapsed, p).waitLog == s.waitLog + es
    ensures TimeoutEnds(es) && Unrepeated(es)
    ensures forall w: nat :: Ended(w, true) in es ==> WaitsAt(s, w)
  {
    hide Core, ContextOk, UpdateSlots, UpdateFsm, AllExpiries, UpdateSyncObjects, UpdateTaskRequest, OnTick;
    TickIs(s, elapsed, p);
    FsmKeepsSlots(UpdateSlots(BeforeSlots(s, elapsed), 0, elapsed), p);
    var s0 := s.(ticks := s.ticks + elapsed);
    CoreOf(s, s0);
    es := Expiries(s0, elapsed);
  }

  lemma Expiries(s0: State, elapsed: int) returns (es: seq<WaitEvent>)
    requires Core(s0, 0) && elapsed >= 1
    ensures UpdateSyncObjects(s0, elapsed).waitLog == s0.waitLog + es
    ensures TimeoutEnds(es) && Unrepeated(es)
    ensures forall w: nat :: Ended(w, true) in es ==> WaitsAt(s0, w)
  {
    hide SetsAgree, UsersDistinct, Genuine, WaitLogOk, UpdateSyncObjects, AllExpiries;
    ArmableOfCore(s0, 0);
    UpdateSyncObjectsIs(s0, elapsed);
    AllExpiriesOf(s0, s0.syncList, elapsed);
    es := AllExpiries(s0, s0.syncList, elapsed);
  }

  /** A tick ends waits with a timeout, and no others. */
  lemma TickRecords(s: State, elapsed: int, p: Policy, i: nat)
    requires Inv(s) && Enabled(s, Tick(elapsed)) && Lawful(p) && i < |s.slots|
    ensures Recorded(s, OnTick(s, elapsed, p), i, true)
  {
    hide Core, ContextOk, OnTick, Servable, Lawful, Outcome, IsArmed, Alternating;
    var r := OnTick(s, elapsed, p);
    TickInv(s, elapsed, p);
    var es := TickLog(s, elapsed, p);
    RecordOf(s);
    RecordOf(r);
    forall k | 0 <= k < |es| ensures IsArmed(s.waitLog, es[k].slot) {
      assert es[k] in es && WaitsAt(s, es[k].slot);
    }
    EndAll(s.waitLog, es);
  }

  lemma RecordOf(s: State)
    requires Core(s, 0)
    ensures WaitLogOk(s)
  {
  }

  lemma {:induction false} OutcomeSignalled(log: seq<WaitEvent>, ws: seq<nat>, i: nat)
    ensures Outcome(log + Signalled(ws), i) == if i in ws then Some(false) else Outcome(log, i)
    ensures IsArmed(log + Signalled(ws), i) == (IsArmed(log, i) && i !in ws)
    decreases |ws|
  {
    if ws == [] {
      assert log + [] == log;
    } else {
      var e := Ended(ws[0], false);
      ArmedAfter(log, e);
      OutcomeSignalled(log + [e], ws[1..], i);
      Assoc(log, [e], Signalled(ws[1..]));
      assert i in ws <==> i == ws[0] || i in ws[1..];
    }
  }

  /** A signal ends waits with success. */
  lemma SignalRecords(s: State, a: Action, p: Policy, i: nat)
    requires Inv(s) && Enabled(s, a) && (a.SignalOne? || a.SignalAll?) && Lawful(p) && ListsAgree(s) && i < |s.slots|
    ensures Recorded(s, Exec(s, a, p), i, false)
  {
    hide Alternating, IsArmed, Outcome, SetsAgree, UsersDistinct, Genuine, ContextOk, Servable, Lawful, WakeList;
    InRangeOfAgree(s);
    StepInv(s, a, p);
    var ws := s.waiters[a.obj];
    if !s.slots[i].Waiting() {
      NotListed(s, i);
    }
    if a.SignalAll? {
      WakeListReleases(s, a.obj, ws);
      OutcomeSignalled(s.waitLog, ws, i);
    } else if ws != [] {
      assert ws[0] in ws && BlockedOn(s, ws[0], a.obj);
      ArmedAfter(s.waitLog, Ended(ws[0], false));
    }
  }

  /** No other call ends a wait. */
  lemma CallRecords(s: State, a: Action, p: Policy, i: nat)
    requires Inv(s) && Enabled(s, a) && !a.Tick? && !a.SignalOne? && !a.SignalAll? && Lawful(p) && ListsAgree(s)
    requires i < |s.slots|
    ensures Recorded(s, Exec(s, a, p), i, false)
  {
    hide Alternating, IsArmed, Outcome, SetsAgree, UsersDistinct, Genuine, ContextOk, Servable, Lawful;
    hide DeliverInitialSleeps, Begin;
    StepInv(s, a, p);
    if a.Wait? {
      ArmedAfter(s.waitLog, Armed(s.cpu.slot));
    } else {
      LogKept(s, a, p);
    }
  }

  lemma LogKept(s: State, a: Action, p: Policy)
    requires ListsAgree(s) && Enabled(s, a) && !a.Tick? && !a.SignalOne? && !a.SignalAll? && !a.Wait?
    ensures Exec(s, a, p).waitLog == s.waitLog && |Exec(s, a, p).slots| == |s.slots|
  {
    hide ListsAgree, Servable, DeliverInitialSleeps, Begin;
    if a.Start? {
      StartKeepsLog(s, p);
    }
  }

  lemma StartKeepsLog(s: State, p: Policy)
    ensures OnStart(s, p).waitLog == s.waitLog && |OnStart(s, p).slots| == |s.slots|
  {
  }

  lemma StepRecords(s: State, a: Action, p: Policy, i: nat)
    requires Inv(s) && Enabled(s, a) && Lawful(p) && ListsAgree(s) && i < |s.slots|
    ensures Recorded(s, Exec(s, a, p), i, a.Tick?)
  {
    hide Inv, Enabled, Lawful, Recorded, OnTick;
    match a
    case Tick(elapsed) => TickRecords(s, elapsed, p, i);
    case SignalOne(_) => SignalRecords(s, a, p, i);
    case SignalAll(_) => SignalRecords(s, a, p, i);
    case _ => CallRecords(s, a, p, i);
  }

  lemma {:induction false} OutcomeKept(states: seq<State>, actions: seq<Action>, p: Policy, k: nat, m: nat, i: nat)
    requires IsRun(states, actions, p) && Lawful(p) && Inv(states[0]) && k < m < |states|
    requires WaitsAt(states[k], i) && forall j :: k < j <= m ==> !WaitsAt(states[j], i)
    ensures |states[m].slots| == |states[k].slots| && Outcome(states[m].waitLog, i) == Some(actions[k].Tick?)
  {
    hide Inv, Enabled, Lawful, Exec;
    RunInv(states, actions, p, m - 1);
    assert Step(states[m - 1], actions[m - 1], states[m - 1 + 1], p);
    if m > k + 1 {
      OutcomeKept(states, actions, p, k, m - 1, i);
    }
    StepRecords(states[m - 1], actions[m - 1], p, i);
  }

  /**
   When a wait has ended between states `k` and `k + 1` and the task has not entered another one
   since, its result is TIMEOUT in every later state if and only if the wait was ended by a tick.
   */
  lemma ResultTellsExpiry(states: seq<State>, actions: seq<Action>, p: Policy, k: nat, m: nat, i: nat)
    requires IsRun(states, actions, p) && Lawful(p) && Inv(states[0]) && k < m < |states|
    requires WaitsAt(states[k], i) && forall j :: k < j <= m ==> !WaitsAt(states[j], i)
    ensures i < |states[m].slots| && (states[m].slots[i].timedOut <==> actions[k].Tick?)
  {
    hide Alternating, IsArmed, Outcome, SetsAgree, UsersDistinct, Genuine, ContextOk, Lawful, IsRun;
    RunInv(states, actions, p, m);
    OutcomeKept(states, actions, p, k, m, i);
  }
}
