/**
 The timeout pass over the sync objects in closed form: although every expiry unlinks
 the entry being visited (and every emptied object the object being visited), each
 waiter ages exactly once, the survivors keep their order, and exactly the objects
 with waiters stay registered.
 */
module SyncPass {
  import opened KernelTypes
  import opened KernelSpec

  predicate Distinct(ws: seq<nat>) {
    forall j, k :: 0 <= j < k < |ws| ==> ws[j] != ws[k]
  }

  predicate BlockedOn(s: State, w: nat, o: nat) {
    w < |s.slots| && s.slots[w].waitOn == Some(o)
  }

  /** The wait lists and the slots' own records of what they wait on agree. */
  predicate ListsAgree(s: State) {
    && (forall o :: 0 <= o < |s.waiters| ==> Distinct(s.waiters[o]))
    && (forall o, w: nat :: 0 <= o < |s.waiters| && w in s.waiters[o] ==> BlockedOn(s, w, o))
    && (forall i :: 0 <= i < |s.slots| && s.slots[i].Waiting() ==>
          s.slots[i].waitOn.value < |s.waiters| && i in s.waiters[s.slots[i].waitOn.value])
  }

  /** Every object with a waiter is on the kernel's sync list, once. */
  predicate Registered(s: State) {
    && Distinct(s.syncList)
    && (forall k :: 0 <= k < |s.syncList| ==> s.syncList[k] < |s.waiters|)
    && (forall o :: 0 <= o < |s.waiters| && s.waiters[o] != [] ==> o in s.syncList)
  }

  /** A waiter that may expire is asleep and has not expired yet. */
  predicate Armable(t: Slot) {
    t.Waiting() ==> !t.timedOut && (t.waitLeft != WAIT_INFINITE ==> t.Asleep())
  }

  predicate AllArmable(slots: seq<Slot>) {
    forall i :: 0 <= i < |slots| ==> Armable(slots[i])
  }

  predicate Expires(t: Slot, elapsed: int) {
    t.waitLeft != WAIT_INFINITE && t.waitLeft - elapsed <= 0
  }

  /** A slot after one timeout pass. */
  function Aged(t: Slot, elapsed: int): Slot {
    if !t.Waiting() || t.waitLeft == WAIT_INFINITE then t
    else if Expires(t, elapsed) then t.(timedOut := true, waitLeft := 0, waitOn := None, sleep := -1)
    else t.(waitLeft := t.waitLeft - elapsed)
  }

  function AgedIf(slots: seq<Slot>, ws: seq<nat>, elapsed: int): (r: seq<Slot>)
    ensures |r| == |slots|
    ensures forall i :: 0 <= i < |r| ==> r[i] == if i in ws then Aged(slots[i], elapsed) else slots[i]
  {
    seq(|slots|, i requires 0 <= i < |slots| => if i in ws then Aged(slots[i], elapsed) else slots[i])
  }

  function AgedAll(slots: seq<Slot>, elapsed: int): (r: seq<Slot>)
    ensures |r| == |slots|
    ensures forall i :: 0 <= i < |r| ==> r[i] == Aged(slots[i], elapsed)
  {
    seq(|slots|, i requires 0 <= i < |slots| => Aged(slots[i], elapsed))
  }

  /** The waiters that outlive the pass, in order. */
  function Unexpired(ws: seq<nat>, slots: seq<Slot>, elapsed: int): seq<nat>
    requires InRange(ws, |slots|)
  {
    if ws == [] then []
    else (if Expires(slots[ws[0]], elapsed) then [] else [ws[0]]) + Unexpired(ws[1..], slots, elapsed)
  }

  function ExpiryLog(ws: seq<nat>, slots: seq<Slot>, elapsed: int): seq<WaitEvent>
    requires InRange(ws, |slots|)
  {
    if ws == [] then []
    else (if Expires(slots[ws[0]], elapsed) then [Ended(ws[0], true)] else []) + ExpiryLog(ws[1..], slots, elapsed)
  }

  lemma {:induction false} UnexpiredMember(ws: seq<nat>, slots: seq<Slot>, elapsed: int, w: nat)
    requires InRange(ws, |slots|)
    ensures w in Unexpired(ws, slots, elapsed) <==> w in ws && !Expires(slots[w], elapsed)
  {
    if ws != [] {
      UnexpiredMember(ws[1..], slots, elapsed, w);
      assert w in ws <==> w == ws[0] || w in ws[1..];
    }
  }

  lemma {:induction false} UnlinkedAt(kept: seq<nat>, i: nat, rest: seq<nat>)
    requires i !in kept
    ensures Unlinked(kept + [i] + rest, i) == kept + rest
  {
    if kept == [] {
      assert kept + [i] + rest == [i] + rest;
    } else {
      UnlinkedAt(kept[1..], i, rest);
      assert (kept + [i] + rest)[1..] == kept[1..] + [i] + rest;
      assert kept + rest == [kept[0]] + (kept[1..] + rest);
    }
  }

  lemma TickWaiterIs(s: State, i: nat, elapsed: int)
    requires i < |s.slots| && WaiterOk(s, i) && Armable(s.slots[i])
    requires i in s.waiters[s.slots[i].waitOn.value]
    ensures TickWaiter(s, i, elapsed) ==
            s.(slots := s.slots[i := Aged(s.slots[i], elapsed)],
               waiters := if Expires(s.slots[i], elapsed)
                          then s.waiters[s.slots[i].waitOn.value := Unlinked(s.waiters[s.slots[i].waitOn.value], i)]
                          else s.waiters,
               waitLog := if Expires(s.slots[i], elapsed) then s.waitLog + [Ended(i, true)] else s.waitLog)
  {
    var t := AgeWait(s.slots[i], elapsed);
    if Expires(s.slots[i], elapsed) {
      assert s.slots[i := t][i := Aged(s.slots[i], elapsed)] == s.slots[i := Aged(s.slots[i], elapsed)];
    } else {
      assert t == Aged(s.slots[i], elapsed);
    }
  }

  predicate WaitingOn(slots: seq<Slot>, ws: seq<nat>, o: nat) {
    forall k :: 0 <= k < |ws| ==> ws[k] < |slots| && slots[ws[k]].waitOn == Some(o) && Armable(slots[ws[k]])
  }

  lemma {:induction false} SameFilter(ws: seq<nat>, a: seq<Slot>, b: seq<Slot>, elapsed: int)
    requires InRange(ws, |a|) && |a| == |b|
    requires forall k :: 0 <= k < |ws| ==> a[ws[k]] == b[ws[k]]
    ensures Unexpired(ws, a, elapsed) == Unexpired(ws, b, elapsed)
    ensures ExpiryLog(ws, a, elapsed) == ExpiryLog(ws, b, elapsed)
  {
    if ws != [] {
      assert ws[0] < |a|;
      SameFilter(ws[1..], a, b, elapsed);
    }
  }

  lemma HeadApart(kept: seq<nat>, w: nat, rest: seq<nat>)
    requires Distinct(kept + [w] + rest)
    ensures w !in kept && w !in rest && Distinct(kept + rest)
  {
    var all := kept + [w] + rest;
    assert all[|kept|] == w;
    forall k | 0 <= k < |kept| ensures kept[k] != w { assert all[k] == kept[k]; }
    forall k | 0 <= k < |rest| ensures rest[k] != w { assert all[|kept| + 1 + k] == rest[k]; }
    forall j, k | 0 <= j < k < |kept + rest| ensures (kept + rest)[j] != (kept + rest)[k] {
      var j' := if j < |kept| then j else j + 1;
      var k' := if k < |kept| then k else k + 1;
      assert (kept + rest)[j] == all[j'] && (kept + rest)[k] == all[k'];
    }
  }

  /** The closed form of the walk over `ws`, `kept` being what has survived before. */
  function ListResult(s: State, o: nat, kept: seq<nat>, ws: seq<nat>, elapsed: int): State
    requires o < |s.waiters| && InRange(ws, |s.slots|)
  {
    s.(slots := AgedIf(s.slots, ws, elapsed),
       waiters := s.waiters[o := kept + Unexpired(ws, s.slots, elapsed)],
       waitLog := s.waitLog + ExpiryLog(ws, s.slots, elapsed))
  }

  lemma FirstWaiter(s: State, o: nat, kept: seq<nat>, w: nat, rest: seq<nat>, elapsed: int)
    requires o < |s.waiters| && s.waiters[o] == kept + [w] + rest && Distinct(kept + [w] + rest)
    requires WaitingOn(s.slots, [w] + rest, o)
    ensures w < |s.slots|
    ensures var kept' := if Expires(s.slots[w], elapsed) then kept else kept + [w];
      TickWaiter(s, w, elapsed) ==
        s.(slots := s.slots[w := Aged(s.slots[w], elapsed)],
           waiters := s.waiters[o := kept' + rest],
           waitLog := s.waitLog + if Expires(s.slots[w], elapsed) then [Ended(w, true)] else [])
  {
    assert ([w] + rest)[0] == w;
    assert s.waiters[o][|kept|] == w;
    HeadApart(kept, w, rest);
    UnlinkedAt(kept, w, rest);
    TickWaiterIs(s, w, elapsed);
    assert s.waiters[o := kept + [w] + rest] == s.waiters;
    assert s.waitLog + [] == s.waitLog;
  }

  lemma RestOfList(slots: seq<Slot>, w: nat, rest: seq<nat>, o: nat, elapsed: int)
    requires WaitingOn(slots, [w] + rest, o) && w !in rest && w < |slots|
    ensures InRange([w] + rest, |slots|) && InRange(rest, |slots|)
    ensures var slots' := slots[w := Aged(slots[w], elapsed)];
      && WaitingOn(slots', rest, o)
      && AgedIf(slots', rest, elapsed) == AgedIf(slots, [w] + rest, elapsed)
      && Unexpired(rest, slots', elapsed) == Unexpired(rest, slots, elapsed)
      && ExpiryLog(rest, slots', elapsed) == ExpiryLog(rest, slots, elapsed)
  {
    var ws := [w] + rest;
    var slots' := slots[w := Aged(slots[w], elapsed)];
    forall k | 0 <= k < |rest|
      ensures rest[k] < |slots| && rest[k] != w && slots[rest[k]].waitOn == Some(o) && Armable(slots[rest[k]])
    {
      assert rest[k] == ws[k + 1];
    }
    SameFilter(rest, slots', slots, elapsed);
    assert forall i :: i in ws <==> i == w || i in rest;
    assert AgedIf(slots', rest, elapsed) == AgedIf(slots, ws, elapsed);
  }

  lemma FilterHead(w: nat, rest: seq<nat>, slots: seq<Slot>, elapsed: int)
    requires InRange([w] + rest, |slots|) && InRange(rest, |slots|) && w < |slots|
    ensures Unexpired([w] + rest, slots, elapsed) ==
            (if Expires(slots[w], elapsed) then [] else [w]) + Unexpired(rest, slots, elapsed)
    ensures ExpiryLog([w] + rest, slots, elapsed) ==
            (if Expires(slots[w], elapsed) then [Ended(w, true)] else []) + ExpiryLog(rest, slots, elapsed)
  {
    assert ([w] + rest)[1..] == rest;
  }

  /** One wait list: `ws` is what is still to be visited. */
  lemma {:induction false} TickWaitersIs(s: State, o: nat, kept: seq<nat>, ws: seq<nat>, elapsed: int)
    requires o < |s.waiters| && s.waiters[o] == kept + ws && Distinct(kept + ws)
    requires WaitingOn(s.slots, ws, o)
    ensures TickWaiters(s, ws, elapsed) == ListResult(s, o, kept, ws, elapsed)
    decreases |ws|
  {
    if ws == [] {
      assert AgedIf(s.slots, ws, elapsed) == s.slots;
      assert s.waiters[o := kept + []] == s.waiters;
    } else {
      var w, rest := ws[0], ws[1..];
      assert ws == [w] + rest;
      assert kept + ws == kept + [w] + rest;
      var a := TickWaiter(s, w, elapsed);
      var kept' := if Expires(s.slots[w], elapsed) then kept else kept + [w];
      FirstWaiter(s, o, kept, w, rest, elapsed);
      HeadApart(kept, w, rest);
      RestOfList(s.slots, w, rest, o, elapsed);
      FilterHead(w, rest, s.slots, elapsed);
      TickWaitersIs(a, o, kept', rest, elapsed);
      ListStep(s, a, o, kept, kept', w, rest, elapsed);
    }
  }

  lemma Assoc<T>(a: seq<T>, b: seq<T>, c: seq<T>)
    ensures (a + b) + c == a + (b + c)
  {
  }

  lemma ListStep(s: State, a: State, o: nat, kept: seq<nat>, kept': seq<nat>, w: nat, rest: seq<nat>, elapsed: int)
    requires o < |s.waiters| && w < |s.slots| && InRange([w] + rest, |s.slots|) && InRange(rest, |s.slots|)
    requires kept' == if Expires(s.slots[w], elapsed) then kept else kept + [w]
    requires a == s.(slots := s.slots[w := Aged(s.slots[w], elapsed)],
                     waiters := s.waiters[o := kept' + rest],
                     waitLog := s.waitLog + if Expires(s.slots[w], elapsed) then [Ended(w, true)] else [])
    requires AgedIf(a.slots, rest, elapsed) == AgedIf(s.slots, [w] + rest, elapsed)
    requires Unexpired(rest, a.slots, elapsed) == Unexpired(rest, s.slots, elapsed)
    requires ExpiryLog(rest, a.slots, elapsed) == ExpiryLog(rest, s.slots, elapsed)
    ensures ListResult(a, o, kept', rest, elapsed) == ListResult(s, o, kept, [w] + rest, elapsed)
  {
    FilterHead(w, rest, s.slots, elapsed);
    var out := Unexpired(rest, s.slots, elapsed);
    var gone := if Expires(s.slots[w], elapsed) then [Ended(w, true)] else [];
    if Expires(s.slots[w], elapsed) {
      assert [] + out == out;
    } else {
      Assoc(kept, [w], out);
    }
    Assoc(s.waitLog, gone, ExpiryLog(rest, s.slots, elapsed));
    assert kept' + out == kept + Unexpired([w] + rest, s.slots, elapsed);
    assert s.waiters[o := kept' + rest][o := kept' + out] == s.waiters[o := kept' + out];
  }

  // ---- the walk over the objects ------------------------------------------------------

  predicate ObjectsInRange(s: State) {
    forall o :: 0 <= o < |s.waiters| ==> InRange(s.waiters[o], |s.slots|)
  }

  /** The wait lists after the objects `objs` have been ticked. */
  function Thinned(s: State, objs: seq<nat>, elapsed: int): (r: seq<seq<nat>>)
    requires ObjectsInRange(s)
    ensures |r| == |s.waiters|
    ensures forall o :: 0 <= o < |r| ==>
              r[o] == if o in objs then Unexpired(s.waiters[o], s.slots, elapsed) else s.waiters[o]
  {
    seq(|s.waiters|, o requires 0 <= o < |s.waiters| =>
      if o in objs then Unexpired(s.waiters[o], s.slots, elapsed) else s.waiters[o])
  }

  function AgedOn(slots: seq<Slot>, objs: seq<nat>, elapsed: int): (r: seq<Slot>)
    ensures |r| == |slots|
    ensures forall i :: 0 <= i < |r| ==>
              r[i] == if slots[i].Waiting() && slots[i].waitOn.value in objs then Aged(slots[i], elapsed) else slots[i]
  {
    seq(|slots|, i requires 0 <= i < |slots| =>
      if slots[i].Waiting() && slots[i].waitOn.value in objs then Aged(slots[i], elapsed) else slots[i])
  }

  /** The objects of `objs` that still have a waiter. */
  function StillWaited(s: State, objs: seq<nat>, elapsed: int): seq<nat>
    requires ObjectsInRange(s) && InRange(objs, |s.waiters|)
  {
    if objs == [] then []
    else
      (if Unexpired(s.waiters[objs[0]], s.slots, elapsed) == [] then [] else [objs[0]])
      + StillWaited(s, objs[1..], elapsed)
  }

  function AllExpiries(s: State, objs: seq<nat>, elapsed: int): seq<WaitEvent>
    requires ObjectsInRange(s) && InRange(objs, |s.waiters|)
  {
    if objs == [] then []
    else ExpiryLog(s.waiters[objs[0]], s.slots, elapsed) + AllExpiries(s, objs[1..], elapsed)
  }

  /** The state after the objects `objs` have been ticked, `done` having been kept before. */
  function PassResult(s: State, done: seq<nat>, objs: seq<nat>, elapsed: int): State
    requires ObjectsInRange(s) && InRange(objs, |s.waiters|)
  {
    s.(slots := AgedOn(s.slots, objs, elapsed),
       waiters := Thinned(s, objs, elapsed),
       syncList := done + StillWaited(s, objs, elapsed),
       waitLog := s.waitLog + AllExpiries(s, objs, elapsed))
  }

  lemma WaitersOf(s: State, o: nat, elapsed: int)
    requires ListsAgree(s) && AllArmable(s.slots) && o < |s.waiters|
    ensures WaitingOn(s.slots, s.waiters[o], o)
    ensures AgedIf(s.slots, s.waiters[o], elapsed) == AgedOn(s.slots, [o], elapsed)
  {
    forall k | 0 <= k < |s.waiters[o]| ensures BlockedOn(s, s.waiters[o][k], o) {
      assert s.waiters[o][k] in s.waiters[o];
    }
    forall i: nat | i < |s.slots|
      ensures AgedIf(s.slots, s.waiters[o], elapsed)[i] == AgedOn(s.slots, [o], elapsed)[i]
    {
      assert i in s.waiters[o] ==> BlockedOn(s, i, o);
    }
  }

  lemma InRangeOfAgree(s: State)
    requires ListsAgree(s)
    ensures ObjectsInRange(s)
  {
    forall o | 0 <= o < |s.waiters| ensures InRange(s.waiters[o], |s.slots|) {
      forall k | 0 <= k < |s.waiters[o]| ensures s.waiters[o][k] < |s.slots| {
        assert s.waiters[o][k] in s.waiters[o];
        assert BlockedOn(s, s.waiters[o][k], o);
      }
    }
  }

  lemma ThinnedOne(s: State, o: nat, elapsed: int)
    requires ObjectsInRange(s) && o < |s.waiters|
    ensures s.waiters[o := [] + Unexpired(s.waiters[o], s.slots, elapsed)] == Thinned(s, [o], elapsed)
  {
    var out := Unexpired(s.waiters[o], s.slots, elapsed);
    assert [] + out == out;
    assert forall x :: 0 <= x < |s.waiters| ==> s.waiters[o := out][x] == Thinned(s, [o], elapsed)[x];
  }

  lemma ObjectTick(s: State, done: seq<nat>, o: nat, rest: seq<nat>, elapsed: int)
    requires ListsAgree(s) && AllArmable(s.slots) && o < |s.waiters| && ObjectsInRange(s)
    requires s.syncList == done + [o] + rest && o !in done
    ensures TickObject(s, o, elapsed) ==
            PassResult(s, done, [o], elapsed).(syncList := done + StillWaited(s, [o], elapsed) + rest)
  {
    var ws := s.waiters[o];
    assert [] + ws == ws;
    WaitersOf(s, o, elapsed);
    TickWaitersIs(s, o, [], ws, elapsed);
    ThinnedOne(s, o, elapsed);
    UnlinkedAt(done, o, rest);
    assert [o] + [] == [o];
    ObjectsHead(s, o, [], elapsed);
    assert done + [] == done;
  }

  /** Ticking one object keeps the lists in agreement. */
  lemma StillAgrees(s: State, a: State, o: nat, elapsed: int)
    requires ListsAgree(s) && AllArmable(s.slots) && o < |s.waiters| && ObjectsInRange(s)
    requires a.slots == AgedOn(s.slots, [o], elapsed) && a.waiters == Thinned(s, [o], elapsed)
    ensures ListsAgree(a) && AllArmable(a.slots)
  {
    UnexpiredDistinct(s.waiters[o], s.slots, elapsed);
    forall x, w: nat | 0 <= x < |a.waiters| && w in a.waiters[x] ensures BlockedOn(a, w, x) {
      UnexpiredMember(s.waiters[x], s.slots, elapsed, w);
      assert BlockedOn(s, w, x);
    }
    forall i | 0 <= i < |a.slots| && a.slots[i].Waiting()
      ensures a.slots[i].waitOn.value < |a.waiters| && i in a.waiters[a.slots[i].waitOn.value]
    {
      var o := s.slots[i].waitOn.value;
      assert i in s.waiters[o];
      UnexpiredMember(s.waiters[o], s.slots, elapsed, i);
    }
  }

  /** Ticking one object leaves the others' waiters untouched. */
  lemma OthersUntouched(s: State, a: State, o: nat, x: nat, elapsed: int)
    requires ListsAgree(s) && o < |s.waiters| && ObjectsInRange(s) && ObjectsInRange(a)
    requires a.slots == AgedOn(s.slots, [o], elapsed) && a.waiters == Thinned(s, [o], elapsed)
    requires x < |s.waiters| && x != o
    ensures a.waiters[x] == s.waiters[x]
    ensures Unexpired(a.waiters[x], a.slots, elapsed) == Unexpired(s.waiters[x], s.slots, elapsed)
    ensures ExpiryLog(a.waiters[x], a.slots, elapsed) == ExpiryLog(s.waiters[x], s.slots, elapsed)
  {
    forall k | 0 <= k < |s.waiters[x]| ensures a.slots[s.waiters[x][k]] == s.slots[s.waiters[x][k]] {
      assert s.waiters[x][k] in s.waiters[x];
      assert BlockedOn(s, s.waiters[x][k], x);
    }
    SameFilter(s.waiters[x], a.slots, s.slots, elapsed);
  }

  lemma {:induction false} UnexpiredDistinct(ws: seq<nat>, slots: seq<Slot>, elapsed: int)
    requires InRange(ws, |slots|) && Distinct(ws)
    ensures Distinct(Unexpired(ws, slots, elapsed))
  {
    if ws != [] {
      UnexpiredDistinct(ws[1..], slots, elapsed);
      assert ws[0] !in ws[1..];
      UnexpiredMember(ws[1..], slots, elapsed, ws[0]);
    }
  }

  lemma {:induction false} SameObjects(s: State, a: State, objs: seq<nat>, elapsed: int)
    requires ObjectsInRange(s) && ObjectsInRange(a) && InRange(objs, |s.waiters|) && |a.waiters| == |s.waiters|
    requires forall x :: x in objs ==>
               && Unexpired(a.waiters[x], a.slots, elapsed) == Unexpired(s.waiters[x], s.slots, elapsed)
               && ExpiryLog(a.waiters[x], a.slots, elapsed) == ExpiryLog(s.waiters[x], s.slots, elapsed)
    ensures StillWaited(a, objs, elapsed) == StillWaited(s, objs, elapsed)
    ensures AllExpiries(a, objs, elapsed) == AllExpiries(s, objs, elapsed)
  {
    if objs != [] {
      assert objs[0] in objs;
      SameObjects(s, a, objs[1..], elapsed);
    }
  }

  lemma ObjectsHead(s: State, o: nat, rest: seq<nat>, elapsed: int)
    requires ObjectsInRange(s) && InRange([o] + rest, |s.waiters|) && o < |s.waiters| && InRange(rest, |s.waiters|)
    ensures StillWaited(s, [o] + rest, elapsed) ==
            (if Unexpired(s.waiters[o], s.slots, elapsed) == [] then [] else [o]) + StillWaited(s, rest, elapsed)
    ensures StillWaited(s, [o], elapsed) == if Unexpired(s.waiters[o], s.slots, elapsed) == [] then [] else [o]
    ensures AllExpiries(s, [o] + rest, elapsed) ==
            ExpiryLog(s.waiters[o], s.slots, elapsed) + AllExpiries(s, rest, elapsed)
    ensures AllExpiries(s, [o], elapsed) == ExpiryLog(s.waiters[o], s.slots, elapsed)
  {
    assert ([o] + rest)[1..] == rest;
    assert [o][1..] == [];
  }

  /** Ticking `o` and then `rest` is ticking `[o] + rest`. */
  lemma ObjectsStep(s: State, a: State, done: seq<nat>, o: nat, rest: seq<nat>, elapsed: int)
    requires ListsAgree(s) && ObjectsInRange(s) && ObjectsInRange(a)
    requires o < |s.waiters| && o !in rest && InRange(rest, |s.waiters|) && InRange([o] + rest, |s.waiters|)
    requires a == PassResult(s, done, [o], elapsed).(syncList := done + StillWaited(s, [o], elapsed) + rest)
    ensures PassResult(a, done + StillWaited(s, [o], elapsed), rest, elapsed) ==
            PassResult(s, done, [o] + rest, elapsed)
  {
    hide AgedOn, AllExpiries, StillWaited, ExpiryLog, Unexpired;
    RestUntouched(s, a, done, o, rest, elapsed);
    SameObjects(s, a, rest, elapsed);
    ObjectsHead(s, o, rest, elapsed);
    SlotsStep(s.slots, o, rest, elapsed);
    ThinnedStep(s, a, o, rest, elapsed);
    Assoc(s.waitLog, ExpiryLog(s.waiters[o], s.slots, elapsed), AllExpiries(s, rest, elapsed));
    Assoc(done, StillWaited(s, [o], elapsed), StillWaited(s, rest, elapsed));
  }

  lemma RestUntouched(s: State, a: State, done: seq<nat>, o: nat, rest: seq<nat>, elapsed: int)
    requires ListsAgree(s) && ObjectsInRange(s) && ObjectsInRange(a)
    requires o < |s.waiters| && o !in rest && InRange(rest, |s.waiters|) && InRange([o] + rest, |s.waiters|)
    requires a == PassResult(s, done, [o], elapsed).(syncList := done + StillWaited(s, [o], elapsed) + rest)
    ensures forall x :: x in rest ==>
              && Unexpired(a.waiters[x], a.slots, elapsed) == Unexpired(s.waiters[x], s.slots, elapsed)
              && ExpiryLog(a.waiters[x], a.slots, elapsed) == ExpiryLog(s.waiters[x], s.slots, elapsed)
  {
    forall x | x in rest
      ensures && Unexpired(a.waiters[x], a.slots, elapsed) == Unexpired(s.waiters[x], s.slots, elapsed)
              && ExpiryLog(a.waiters[x], a.slots, elapsed) == ExpiryLog(s.waiters[x], s.slots, elapsed)
    {
      OthersUntouched(s, a, o, x, elapsed);
    }
  }

  lemma ThinnedStep(s: State, a: State, o: nat, rest: seq<nat>, elapsed: int)
    requires ObjectsInRange(s) && ObjectsInRange(a) && o < |s.waiters| && InRange([o] + rest, |s.waiters|)
    requires a.waiters == Thinned(s, [o], elapsed) && InRange(rest, |s.waiters|)
    requires forall x :: x in rest ==>
               Unexpired(a.waiters[x], a.slots, elapsed) == Unexpired(s.waiters[x], s.slots, elapsed)
    ensures Thinned(a, rest, elapsed) == Thinned(s, [o] + rest, elapsed)
  {
    forall x: nat | x < |s.waiters|
      ensures Thinned(a, rest, elapsed)[x] == Thinned(s, [o] + rest, elapsed)[x]
    {
      assert x in [o] + rest <==> x == o || x in rest;
    }
  }

  lemma SlotsStep(slots: seq<Slot>, o: nat, rest: seq<nat>, elapsed: int)
    requires o !in rest
    ensures AgedOn(AgedOn(slots, [o], elapsed), rest, elapsed) == AgedOn(slots, [o] + rest, elapsed)
  {
    forall i | 0 <= i < |slots|
      ensures AgedOn(AgedOn(slots, [o], elapsed), rest, elapsed)[i] == AgedOn(slots, [o] + rest, elapsed)[i]
    {
      if slots[i].Waiting() {
        var x := slots[i].waitOn.value;
        assert x in [o] + rest <==> x == o || x in rest;
      }
    }
  }

  lemma {:induction false} TickObjectsIs(s: State, done: seq<nat>, objs: seq<nat>, elapsed: int)
    requires ListsAgree(s) && AllArmable(s.slots) && ObjectsInRange(s)
    requires s.syncList == done + objs && Distinct(done + objs) && InRange(objs, |s.waiters|)
    ensures TickObjects(s, objs, elapsed) == PassResult(s, done, objs, elapsed)
    decreases |objs|
  {
    if objs == [] {
      assert AgedOn(s.slots, objs, elapsed) == s.slots;
      assert Thinned(s, objs, elapsed) == s.waiters;
    } else {
      var o, rest := objs[0], objs[1..];
      assert objs == [o] + rest;
      assert done + [o] + rest == done + objs;
      HeadApart(done, o, rest);
      ObjectTick(s, done, o, rest, elapsed);
      var a := TickObject(s, o, elapsed);
      var kept := done + StillWaited(s, [o], elapsed);
      StillAgrees(s, a, o, elapsed);
      InRangeOfAgree(a);
      ObjectsHead(s, o, rest, elapsed);
      assert kept == done || kept == done + [o];
      TickObjectsIs(a, kept, rest, elapsed);
      ObjectsStep(s, a, done, o, rest, elapsed);
    }
  }

  /** The whole pass: every waiter ages once, the expired leave with a timeout, the rest keep
      their FIFO order, and the registered objects are exactly those that still have waiters. */
  lemma UpdateSyncObjectsIs(s: State, elapsed: int)
    requires ListsAgree(s) && Registered(s) && AllArmable(s.slots)
    ensures ObjectsInRange(s)
    ensures var r := UpdateSyncObjects(s, elapsed);
      && r == s.(slots := r.slots, waiters := r.waiters, syncList := r.syncList, waitLog := r.waitLog)
      && r.slots == AgedAll(s.slots, elapsed)
      && |r.waiters| == |s.waiters|
      && (forall o :: 0 <= o < |s.waiters| ==> r.waiters[o] == Unexpired(s.waiters[o], s.slots, elapsed))
      && (forall o :: 0 <= o < |s.waiters| ==> (o in r.syncList <==> r.waiters[o] != []))
      && r.syncList == StillWaited(s, s.syncList, elapsed)
      && r.waitLog == s.waitLog + AllExpiries(s, s.syncList, elapsed)
      && ListsAgree(r) && Registered(r)
  {
    assert [] + s.syncList == s.syncList;
    InRangeOfAgree(s);
    TickObjectsIs(s, [], s.syncList, elapsed);
    var r := UpdateSyncObjects(s, elapsed);
    forall i | 0 <= i < |s.slots| ensures AgedOn(s.slots, s.syncList, elapsed)[i] == Aged(s.slots[i], elapsed) {
      if s.slots[i].Waiting() {
        assert s.waiters[s.slots[i].waitOn.value] != [];
      }
    }
    assert r.slots == AgedAll(s.slots, elapsed);
    assert r.syncList == [] + StillWaited(s, s.syncList, elapsed);
    forall o: nat | o < |s.waiters|
      ensures r.waiters[o] == Unexpired(s.waiters[o], s.slots, elapsed)
      ensures o in r.syncList <==> r.waiters[o] != []
    {
      StillWaitedMember(s, s.syncList, elapsed, o);
      if o !in s.syncList {
        assert s.waiters[o] == [];
      }
    }
    PassAgrees(s, r, elapsed);
    StillWaitedDistinct(s, s.syncList, elapsed);
    forall k | 0 <= k < |r.syncList| ensures r.syncList[k] < |r.waiters| {
      StillWaitedMember(s, s.syncList, elapsed, r.syncList[k]);
    }
  }

  lemma PassAgrees(s: State, r: State, elapsed: int)
    requires ListsAgree(s) && ObjectsInRange(s)
    requires |r.waiters| == |s.waiters| && r.slots == AgedAll(s.slots, elapsed)
    requires forall o :: 0 <= o < |s.waiters| ==> r.waiters[o] == Unexpired(s.waiters[o], s.slots, elapsed)
    ensures ListsAgree(r)
  {
    forall o | 0 <= o < |r.waiters| ensures Distinct(r.waiters[o]) {
      UnexpiredDistinct(s.waiters[o], s.slots, elapsed);
    }
    forall o, w: nat | 0 <= o < |r.waiters| && w in r.waiters[o] ensures BlockedOn(r, w, o) {
      UnexpiredMember(s.waiters[o], s.slots, elapsed, w);
      assert BlockedOn(s, w, o);
    }
    forall i | 0 <= i < |r.slots| && r.slots[i].Waiting()
      ensures r.slots[i].waitOn.value < |r.waiters| && i in r.waiters[r.slots[i].waitOn.value]
    {
      var o := s.slots[i].waitOn.value;
      assert i in s.waiters[o];
      UnexpiredMember(s.waiters[o], s.slots, elapsed, i);
    }
  }

  lemma {:induction false} StillWaitedMember(s: State, objs: seq<nat>, elapsed: int, o: nat)
    requires ObjectsInRange(s) && InRange(objs, |s.waiters|)
    ensures o in StillWaited(s, objs, elapsed) <==> o in objs && Unexpired(s.waiters[o], s.slots, elapsed) != []
  {
    if objs != [] {
      StillWaitedMember(s, objs[1..], elapsed, o);
      assert o in objs <==> o == objs[0] || o in objs[1..];
    }
  }

  lemma {:induction false} StillWaitedDistinct(s: State, objs: seq<nat>, elapsed: int)
    requires ObjectsInRange(s) && InRange(objs, |s.waiters|) && Distinct(objs)
    ensures Distinct(StillWaited(s, objs, elapsed))
  {
    if objs != [] {
      StillWaitedDistinct(s, objs[1..], elapsed);
      assert objs[0] !in objs[1..];
      StillWaitedMember(s, objs[1..], elapsed, objs[0]);
    }
  }
}
