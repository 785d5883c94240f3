/**
 The round-robin strategy: it meets the contract the kernel relies on, and while the set of
 runnable tasks does not change it serves every task once per round.
 */
module RoundRobin {
  import opened KernelTypes
  import opened LinkedList
  import opened SyncPass
  import opened KernelSpec
  import Invariant

  /** The two lists and the cursor; `tasks` is a closed loop. */
  datatype Ring = Ring(tasks: seq<nat>, sleeping: seq<nat>, prev: Option<nat>)

  const EmptyRing: Ring := Ring([], [], None)

  /** The position of `x`, or the length of the list. */
  function Find(xs: seq<nat>, x: nat): (k: nat)
    ensures k <= |xs| && (x in xs <==> k < |xs|) && (k < |xs| ==> xs[k] == x)
  {
    if xs == [] then 0 else if xs[0] == x then 0 else 1 + Find(xs[1..], x)
  }

  function After(xs: seq<nat>, x: nat): (y: nat)
    requires x in xs
    ensures y in xs
  {
    var k := Find(xs, x);
    if k + 1 < |xs| then xs[k + 1] else xs[0]
  }

  function Before(xs: seq<nat>, x: nat): (y: nat)
    requires x in xs
    ensures y in xs
  {
    var k := Find(xs, x);
    if k > 0 then xs[k - 1] else xs[|xs| - 1]
  }

  function AddTask(r: Ring, i: nat): Ring {
    var tail := r.prev == (if r.tasks == [] then None else Some(r.tasks[|r.tasks| - 1]));
    r.(tasks := r.tasks + [i], prev := if tail then Some(i) else r.prev)
  }

  /** `RemoveActive`: the cursor is set back so that the successor comes next. */
  function RemoveActive(r: Ring, i: nat): Ring
    requires i in r.tasks
  {
    var next := After(r.tasks, i);
    var rest := Unlinked(r.tasks, i);
    r.(tasks := rest, prev := if next != i && next in rest then Some(Before(rest, next)) else None)
  }

  function RemoveTask(r: Ring, i: nat): Ring {
    if i in r.tasks then RemoveActive(r, i) else r.(sleeping := Unlinked(r.sleeping, i))
  }

  function OnTaskSleep(r: Ring, i: nat): Ring {
    if i in r.tasks then var a := RemoveActive(r, i); a.(sleeping := a.sleeping + [i]) else r
  }

  function OnTaskWake(r: Ring, i: nat): Ring {
    Ring(r.tasks + [i], Unlinked(r.sleeping, i), if r.prev.None? then Some(i) else r.prev)
  }

  /** The task `GetNext` returns, null when nothing is runnable. */
  function Next(r: Ring): Option<nat> {
    if r.prev.Some? && r.prev.value in r.tasks then Some(After(r.tasks, r.prev.value)) else None
  }

  function GetNext(r: Ring): Ring {
    r.(prev := if Next(r).Some? then Next(r) else r.prev)
  }

  function First(r: Ring): nat {
    if r.tasks != [] then r.tasks[0] else if r.sleeping != [] then r.sleeping[0] else 0
  }

  function Respond(r: Ring, e: Event): Ring {
    match e
    case Added(i) => AddTask(r, i)
    case Removed(i) => RemoveTask(r, i)
    case Slept(i) => OnTaskSleep(r, i)
    case Woke(i) => OnTaskWake(r, i)
    case Picked(i) => r.(prev := Some(i))
  }

  /** The strategy after the calls in `log`. */
  function Follow(log: seq<Event>): Ring {
    if log == [] then EmptyRing else Respond(Follow(log[..|log| - 1]), log[|log| - 1])
  }

  const RoundRobinPolicy: Policy :=
    Policy((log: seq<Event>) => var n := Next(Follow(log)); if n.Some? then n.value else 0,
           (log: seq<Event>) => First(Follow(log)))

  // ---- the contract ------------------------------------------------------------------------

  /** The lists are the strategy's two sets, and the cursor stands on a runnable task. */
  ghost predicate Represents(r: Ring, st: Strategy) {
    && Distinct(r.tasks) && Distinct(r.sleeping)
    && (forall x: nat :: x in r.tasks <==> x in st.active)
    && (forall x: nat :: x in r.sleeping <==> x in st.asleep)
    && (r.prev.Some? ==> r.prev.value in r.tasks)
    && (r.prev.None? ==> r.tasks == [])
    && st.active !! st.asleep
  }

  lemma DropIs(xs: seq<nat>, x: nat)
    requires Distinct(xs)
    ensures Distinct(Unlinked(xs, x))
    ensures forall y: nat :: y in Unlinked(xs, x) <==> y in xs && y != x
  {
    Invariant.UnlinkedDistinct(xs, x);
    forall y: nat ensures y in Unlinked(xs, x) <==> y in xs && y != x {
      Invariant.UnlinkedMember(xs, x, y);
    }
  }

  lemma AppendIs(xs: seq<nat>, x: nat)
    requires Distinct(xs) && x !in xs
    ensures Distinct(xs + [x])
    ensures forall y: nat :: y in xs + [x] <==> y in xs || y == x
  {
  }

  lemma RemoveActiveIs(r: Ring, st: Strategy, i: nat)
    requires Represents(r, st) && i in r.tasks
    ensures var a := RemoveActive(r, i);
      && Distinct(a.tasks) && (forall y: nat :: y in a.tasks <==> y in r.tasks && y != i)
      && a.sleeping == r.sleeping
      && (a.prev.Some? ==> a.prev.value in a.tasks) && (a.prev.None? ==> a.tasks == [])
  {
    DropIs(r.tasks, i);
    var next := After(r.tasks, i);
    if next == i {
      var k := Find(r.tasks, i);
      assert |r.tasks| == 1;
    }
  }

  lemma {:induction false} FollowRepresents(log: seq<Event>)
    requires WellFormed(log)
    ensures Represents(Follow(log), Replay(log))
  {
    if log != [] {
      var front, e := log[..|log| - 1], log[|log| - 1];
      FollowRepresents(front);
      var r, st := Follow(front), Replay(front);
      match e
      case Added(i) => AppendIs(r.tasks, i);
      case Removed(i) =>
        if i in r.tasks { RemoveActiveIs(r, st, i); } else { DropIs(r.sleeping, i); }
      case Slept(i) =>
        RemoveActiveIs(r, st, i);
        AppendIs(r.sleeping, i);
      case Woke(i) =>
        DropIs(r.sleeping, i);
        AppendIs(r.tasks, i);
      case Picked(i) =>
    }
  }

  /** Round robin is a lawful strategy: every kernel theorem holds of it. */
  lemma RoundRobinLawful()
    ensures Lawful(RoundRobinPolicy)
  {
    forall log: seq<Event> | WellFormed(log)
      ensures Replay(log).active != {} ==> RoundRobinPolicy.next(log) in Replay(log).active
      ensures Replay(log).active + Replay(log).asleep != {} ==> Replay(log).Manages(RoundRobinPolicy.first(log))
    {
      FollowRepresents(log);
      var r, st := Follow(log), Replay(log);
      if st.active != {} {
        var x :| x in st.active;
        assert x in r.tasks;
      }
      if st.active + st.asleep != {} {
        var x :| x in st.active + st.asleep;
        assert x in r.tasks || x in r.sleeping;
      }
    }
  }

  // ---- fairness --------------------------------------------------------------------------------

  function Picks(r: Ring, n: nat): Ring {
    if n == 0 then r else GetNext(Picks(r, n - 1))
  }

  lemma {:induction false} FindAt(xs: seq<nat>, k: nat)
    requires Distinct(xs) && k < |xs|
    ensures Find(xs, xs[k]) == k
  {
    if k > 0 {
      assert xs[0] != xs[k];
      FindAt(xs[1..], k - 1);
    }
  }

  lemma {:induction false} AroundIs(i: nat, steps: nat, n: nat)
    requires i < n && steps <= n
    ensures Around(i, steps, n) == if i + steps < n then i + steps else i + steps - n
  {
    if steps > 0 { AroundIs(i, steps - 1, n); }
  }

  /** Successive picks walk round the ring. */
  lemma {:induction false} PicksWalk(r: Ring, i: nat, n: nat)
    requires Distinct(r.tasks) && i < |r.tasks| && r.prev == Some(r.tasks[i])
    ensures Picks(r, n) == r.(prev := Some(r.tasks[Around(i, n, |r.tasks|)]))
  {
    hide Find;
    if n == 0 {
      assert r.(prev := Some(r.tasks[i])) == r;
    } else {
      PicksWalk(r, i, n - 1);
      var j := Around(i, n - 1, |r.tasks|);
      FindAt(r.tasks, j);
      assert After(r.tasks, r.tasks[j]) == r.tasks[Around(i, n, |r.tasks|)];
    }
  }

  lemma TaskComesRound(r: Ring, st: Strategy, task: nat)
    requires Represents(r, st) && task in st.active
    ensures exists k :: 1 <= k <= |r.tasks| && Picks(r, k).prev == Some(task)
  {
    hide Picks, Find, Around;
    var i := Find(r.tasks, r.prev.value);
    var at := Find(r.tasks, task);
    var n := |r.tasks|;
    var k := if at > i then at - i else n - i + at;
    PicksWalk(r, i, k);
    AroundIs(i, k, n);
    assert Picks(r, k).prev == Some(task);
  }

  /** Fairness: as long as no task comes, goes, sleeps or wakes, one round of picks serves
      every runnable task exactly once. */
  lemma OneRound(r: Ring, st: Strategy, task: nat)
    requires Represents(r, st) && task in st.active
    ensures exists k :: 1 <= k <= |r.tasks| && Picks(r, k).prev == Some(task)
    ensures forall j, k :: 1 <= j < k <= |r.tasks| ==> Picks(r, j).prev != Picks(r, k).prev
  {
    hide Picks, Find, Around;
    var i := Find(r.tasks, r.prev.value);
    var n := |r.tasks|;
    TaskComesRound(r, st, task);
    forall j, m | 1 <= j < m <= n ensures Picks(r, j).prev != Picks(r, m).prev {
      PicksWalk(r, i, j);
      PicksWalk(r, i, m);
      AroundIs(i, j, n);
      AroundIs(i, m, n);
    }
  }

  lemma {:induction false} UnlinkedAround(xs: seq<nat>, x: nat)
    requires x in xs
    ensures var k := Find(xs, x); Unlinked(xs, x) == xs[..k] + xs[k + 1..]
  {
    if xs[0] != x {
      UnlinkedAround(xs[1..], x);
    }
  }

  /** When any task leaves, its successor is served next: the cursor moves even if it stood elsewhere. */
  lemma LeavingCursor(r: Ring, st: Strategy, i: nat)
    requires Represents(r, st) && i in r.tasks && |r.tasks| >= 2
    ensures Next(RemoveActive(r, i)) == Some(After(r.tasks, i))
  {
    hide Find, Unlinked;
    DropIs(r.tasks, i);
    RemoveActiveIs(r, st, i);
    UnlinkedAround(r.tasks, i);
    var rest := Unlinked(r.tasks, i);
    var next := After(r.tasks, i);
    FindAt(r.tasks, Find(r.tasks, i));
    var k := Find(rest, next);
    var before := Before(rest, next);
    FindAt(rest, if k > 0 then k - 1 else |rest| - 1);
  }

  /** The task whose turn it is after the cursor's, once `i` is gone. */
  function TurnWithout(r: Ring, i: nat): nat
    requires r.prev.Some? && r.prev.value in r.tasks
  {
    var next := After(r.tasks, r.prev.value);
    if next == i then After(r.tasks, next) else next
  }

  lemma AfterInjective(xs: seq<nat>, x: nat, y: nat)
    requires Distinct(xs) && x in xs && y in xs && After(xs, x) == After(xs, y)
    ensures x == y
  {
    hide Find;
  }

  /**
   A departure skips nobody exactly when the cursor's own task leaves, or the one after it. The
   departure of any other task sends the turn to that task's successor.
   */
  lemma DepartureKeepsTurns(r: Ring, st: Strategy, i: nat)
    requires Represents(r, st) && i in r.tasks && |r.tasks| >= 2
    ensures Next(RemoveActive(r, i)) == Some(TurnWithout(r, i)) <==>
            i == r.prev.value || i == After(r.tasks, r.prev.value)
  {
    LeavingCursor(r, st, i);
    var c := r.prev.value;
    if After(r.tasks, c) == After(r.tasks, i) {
      AfterInjective(r.tasks, c, i);
    }
    if After(r.tasks, c) == c {
      assert |r.tasks| >= 2;
    }
  }

  // ---- arrivals ----------------------------------------------------------------------------------

  lemma {:induction false} FindAppend(xs: seq<nat>, x: nat, i: nat)
    requires x in xs
    ensures Find(xs + [i], x) == Find(xs, x)
  {
    if xs[0] != x {
      assert (xs + [i])[1..] == xs[1..] + [i];
      FindAppend(xs[1..], x, i);
    }
  }

  predicate AtTail(r: Ring) {
    r.prev == if r.tasks == [] then None else Some(r.tasks[|r.tasks| - 1])
  }

  /** Who follows a task once another one stands at the end. */
  lemma AfterAppend(xs: seq<nat>, x: nat, i: nat)
    requires Distinct(xs) && x in xs && i !in xs
    ensures After(xs + [i], x) == if x == xs[|xs| - 1] then i else After(xs, x)
    ensures After(xs + [i], i) == xs[0]
  {
    hide Find;
    FindAppend(xs, x, i);
    FindAt(xs, |xs| - 1);
    AppendIs(xs, i);
    FindAt(xs + [i], |xs|);
  }

  /**
   A new task changes nobody's turn: the cursor moves only from the tail, and then onto the new task,
   so that the first task stays the next one. The new task is next only when it is the only one.
   */
  lemma AddKeepsTurns(r: Ring, st: Strategy, i: nat)
    requires Represents(r, st) && st.Accepts(Added(i))
    ensures AddTask(r, i).prev == if AtTail(r) then Some(i) else r.prev
    ensures r.tasks != [] ==> Next(AddTask(r, i)) == Next(r)
    ensures Next(AddTask(r, i)) == Some(i) <==> r.tasks == []
  {
    if r.tasks != [] {
      var c := r.prev.value;
      AfterAppend(r.tasks, c, i);
      hide Find;
      FindAt(r.tasks, |r.tasks| - 1);
    }
  }

  /** A task added while the cursor stands on the last one: the first is next, not the new one. */
  lemma NewTaskNotNext()
    ensures var r := Ring([0, 1], [], Some(1)); AtTail(r) && Next(AddTask(r, 2)) == Some(0)
  {
    assert AddTask(Ring([0, 1], [], Some(1)), 2) == Ring([0, 1, 2], [], Some(2));
  }

  /** A task that wakes is next if and only if the cursor stands on the last task or nobody is runnable;
      otherwise the turn stays where it was. */
  lemma WakeKeepsTurns(r: Ring, st: Strategy, i: nat)
    requires Represents(r, st) && st.Accepts(Woke(i))
    ensures Next(OnTaskWake(r, i)) == if AtTail(r) then Some(i) else Next(r)
    ensures Next(r) != Some(i)
  {
    if r.tasks != [] {
      var c := r.prev.value;
      AfterAppend(r.tasks, c, i);
      hide Find;
      FindAt(r.tasks, |r.tasks| - 1);
    }
  }

  /** The removal of a sleeping task leaves the turn alone. */
  lemma SleeperLeaves(r: Ring, st: Strategy, i: nat)
    requires Represents(r, st) && i in st.asleep
    ensures RemoveTask(r, i) == r.(sleeping := RemoveTask(r, i).sleeping) && Next(RemoveTask(r, i)) == Next(r)
    ensures forall x: nat :: x in RemoveTask(r, i).sleeping <==> x in r.sleeping && x != i
  {
    DropIs(r.sleeping, i);
  }

  /** When task `i` was last put on one of the two lists. */
  function Moved(log: seq<Event>, i: nat): nat {
    if log == [] then 0
    else if log[|log| - 1].slot == i && !log[|log| - 1].Picked? then |log|
    else Moved(log[..|log| - 1], i)
  }

  predicate InOrder(xs: seq<nat>, log: seq<Event>) {
    forall j, k :: 0 <= j < k < |xs| ==> Moved(log, xs[j]) < Moved(log, xs[k])
  }

  lemma {:induction false} MovedBefore(log: seq<Event>, i: nat)
    ensures Moved(log, i) <= |log|
  {
    if log != [] {
      MovedBefore(log[..|log| - 1], i);
    }
  }

  lemma OrderWithout(xs: seq<nat>, log: seq<Event>, x: nat)
    requires InOrder(xs, log)
    ensures InOrder(Unlinked(xs, x), log)
  {
    hide Unlinked, Find, Moved;
    if x in xs {
      UnlinkedAround(xs, x);
    } else {
      UnlinkedNothing(xs, x);
    }
  }

  lemma OrderDrop(xs: seq<nat>, log: seq<Event>, e: Event)
    requires InOrder(xs, log) && Distinct(xs)
    ensures InOrder(Unlinked(xs, e.slot), log + [e])
  {
    hide InOrder;
    OrderWithout(xs, log, e.slot);
    DropIs(xs, e.slot);
    OrderSame(Unlinked(xs, e.slot), log, e);
  }

  lemma {:induction false} UnlinkedNothing(xs: seq<nat>, x: nat)
    requires x !in xs
    ensures Unlinked(xs, x) == xs
  {
    if xs != [] {
      UnlinkedNothing(xs[1..], x);
    }
  }

  lemma OrderAppend(xs: seq<nat>, log: seq<Event>, e: Event)
    requires InOrder(xs, log) && Distinct(xs) && e.slot !in xs && !e.Picked?
    ensures InOrder(xs + [e.slot], log + [e])
  {
    assert (log + [e])[..|log|] == log;
    forall k | 0 <= k < |xs| ensures Moved(log + [e], xs[k]) == Moved(log, xs[k]) <= |log| {
      assert xs[k] != e.slot;
      MovedBefore(log, xs[k]);
    }
  }

  lemma OrderSame(xs: seq<nat>, log: seq<Event>, e: Event)
    requires InOrder(xs, log) && (e.Picked? || e.slot !in xs)
    ensures InOrder(xs, log + [e])
  {
    assert (log + [e])[..|log|] == log;
    assert forall k :: 0 <= k < |xs| ==> xs[k] in xs;
  }

  /** Both lists are queues: they stand in the order in which their tasks came to them. */
  lemma {:induction false} ListsInOrder(log: seq<Event>)
    requires WellFormed(log)
    ensures InOrder(Follow(log).tasks, log) && InOrder(Follow(log).sleeping, log)
  {
    if log != [] {
      var front, e := log[..|log| - 1], log[|log| - 1];
      ListsInOrder(front);
      FollowRepresents(front);
      var r := Follow(front);
      assert front + [e] == log;
      hide InOrder, Follow;
      FollowAppend(front, e);
      OrderStep(r, Replay(front), front, e);
    }
  }

  lemma OrderStep(r: Ring, st: Strategy, log: seq<Event>, e: Event)
    requires Represents(r, st) && st.Accepts(e) && InOrder(r.tasks, log) && InOrder(r.sleeping, log)
    ensures InOrder(Respond(r, e).tasks, log + [e]) && InOrder(Respond(r, e).sleeping, log + [e])
  {
    hide InOrder;
    match e
    case Added(i) =>
      OrderAppend(r.tasks, log, e);
      OrderSame(r.sleeping, log, e);
    case Removed(i) =>
      OrderDrop(r.tasks, log, e);
      OrderDrop(r.sleeping, log, e);
      if i in r.tasks { OrderSame(r.sleeping, log, e); } else { OrderSame(r.tasks, log, e); }
    case Slept(i) =>
      OrderDrop(r.tasks, log, e);
      OrderAppend(r.sleeping, log, e);
    case Woke(i) =>
      OrderDrop(r.sleeping, log, e);
      OrderAppend(r.tasks, log, e);
    case Picked(i) =>
      OrderSame(r.tasks, log, e);
      OrderSame(r.sleeping, log, e);
  }

  /** `GetFirst` names the task that has been runnable longest, or asleep longest when none is runnable. */
  lemma FirstIsLongest(log: seq<Event>, i: nat)
    requires WellFormed(log) && Replay(log).Manages(i)
    ensures var first := RoundRobinPolicy.first(log); var st := Replay(log);
      && (if st.active != {} then first in st.active else first in st.asleep)
      && ((i in st.active <==> first in st.active) && i != first ==> Moved(log, first) < Moved(log, i))
  {
    hide Follow, Moved;
    FollowRepresents(log);
    ListsInOrder(log);
    var r := Follow(log);
    var xs := if r.tasks != [] then r.tasks else r.sleeping;
    if x: nat :| x in Replay(log).active { assert x in r.tasks; }
    if i in xs {
      var k :| 0 <= k < |xs| && xs[k] == i;
    }
  }

  lemma FollowAppend(log: seq<Event>, e: Event)
    ensures Follow(log + [e]) == Respond(Follow(log), e)
  {
    assert (log + [e])[..|log|] == log;
  }

  const ThreeTasks: seq<Event> := [Added(0)] + [Added(1)] + [Added(2)]

  lemma ThreeTasksFollow()
    ensures Follow(ThreeTasks) == Ring([0, 1, 2], [], Some(2))
    ensures Invariant.Genuine(Strategy({0, 1, 2}, {}, ThreeTasks))
  {
    hide Follow, Replay, WellFormed;
    assert Follow([]) == EmptyRing && Invariant.Genuine(EmptyStrategy) by { EmptyFollow(); }
    FollowAppend([], Added(0));
    FollowAppend([Added(0)], Added(1));
    FollowAppend([Added(0)] + [Added(1)], Added(2));
    assert [] + [Added(0)] == [Added(0)];
    var one := EmptyStrategy.Apply(Added(0));
    var two := one.Apply(Added(1));
    Invariant.GenuineStep(EmptyStrategy, Added(0));
    Invariant.GenuineStep(one, Added(1));
    Invariant.GenuineStep(two, Added(2));
    assert two.Apply(Added(2)) == Strategy({0, 1, 2}, {}, ThreeTasks);
  }

  lemma EmptyFollow()
    ensures Follow([]) == EmptyRing && Invariant.Genuine(EmptyStrategy)
  {
  }

  /** Of three runnable tasks the first is picked, then the third goes to sleep: the first is served
      again, although it was the second's turn. */
  lemma SkippedTurn()
    ensures RoundRobinPolicy.next(ThreeTasks) == 0
    ensures var log := ThreeTasks + [Picked(0)];
      && WellFormed(log + [Slept(2)])
      && Follow(log) == Ring([0, 1, 2], [], Some(0)) && TurnWithout(Follow(log), 2) == 1
      && RoundRobinPolicy.next(log + [Slept(2)]) == 0
  {
    hide Follow, Replay, WellFormed;
    ThreeTasksFollow();
    var log := ThreeTasks + [Picked(0)];
    FollowAppend(ThreeTasks, Picked(0));
    FollowAppend(log, Slept(2));
    var st := Strategy({0, 1, 2}, {}, ThreeTasks);
    Invariant.GenuineStep(st, Picked(0));
    Invariant.GenuineStep(st.Apply(Picked(0)), Slept(2));
    assert Unlinked([0, 1, 2], 2) == [0, 1];
  }
}
