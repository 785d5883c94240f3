/**
 A wait list on the heap: `ISyncObject::Tick` walks the intrusive list while `Wake` unlinks
 the very entry being visited. Each entry carries the slot of its task.
 */
module WaitList {
  import opened KernelTypes
  import opened KernelSpec
  import opened LinkedList
  import opened SyncPass

  /** The entries whose slots outlive the pass, in order. */
  ghost function Surviving<A>(nodes: seq<A>, slots: seq<Slot>, elapsed: int): seq<A>
    requires |nodes| == |slots|
  {
    if nodes == [] then []
    else (if Expires(slots[0], elapsed) then [] else [nodes[0]]) + Surviving(nodes[1..], slots[1..], elapsed)
  }

  /** The heap walk keeps the same waiters as the kernel's specification. */
  lemma {:induction false} SurvivingIsUnexpired(ws: seq<nat>, slots: seq<Slot>, hosts: seq<Slot>, elapsed: int)
    requires InRange(ws, |slots|) && |hosts| == |ws|
    requires forall k :: 0 <= k < |ws| ==> hosts[k] == slots[ws[k]]
    ensures Surviving(ws, hosts, elapsed) == Unexpired(ws, slots, elapsed)
  {
    if ws != [] {
      assert hosts[0] == slots[ws[0]];
      SurvivingIsUnexpired(ws[1..], slots, hosts[1..], elapsed);
    }
  }

  /** What the documentation lets `Tick` return: a waiter with a finite timeout is left. */
  predicate FiniteLeft(slots: seq<Slot>, elapsed: int) {
    exists k :: 0 <= k < |slots| && slots[k].waitLeft != WAIT_INFINITE && slots[k].waitLeft > elapsed
  }

  predicate NoneInfinite(slots: seq<Slot>) {
    forall k :: 0 <= k < |slots| ==> slots[k].waitLeft != WAIT_INFINITE
  }

  lemma {:induction false} SomeSurvives<A>(nodes: seq<A>, slots: seq<Slot>, elapsed: int)
    requires |nodes| == |slots| && forall k :: 0 <= k < |slots| ==> Armable(slots[k]) && slots[k].Waiting()
    ensures Surviving(nodes, slots, elapsed) != [] <==> !NoneInfinite(slots) || FiniteLeft(slots, elapsed)
  {
    if nodes != [] {
      SomeSurvives(nodes[1..], slots[1..], elapsed);
      assert forall k :: 1 <= k < |slots| ==> slots[1..][k - 1] == slots[k];
      assert FiniteLeft(slots[1..], elapsed) ==> FiniteLeft(slots, elapsed) by {
        if FiniteLeft(slots[1..], elapsed) {
          var k :| 0 <= k < |slots[1..]| && slots[1..][k].waitLeft != WAIT_INFINITE && slots[1..][k].waitLeft > elapsed;
          assert slots[k + 1] == slots[1..][k];
        }
      }
      if FiniteLeft(slots, elapsed) && !FiniteLeft(slots[1..], elapsed) {
        var k :| 0 <= k < |slots| && slots[k].waitLeft != WAIT_INFINITE && slots[k].waitLeft > elapsed;
        assert k == 0 || slots[1..][k - 1] == slots[k];
      }
    }
  }

  ghost function Hosts(nodes: seq<Entry<Slot>>): (r: seq<Slot>)
    reads nodes
    ensures |r| == |nodes| && forall i :: 0 <= i < |r| ==> r[i] == nodes[i].host
  {
    if nodes == [] then [] else [nodes[0].host] + Hosts(nodes[1..])
  }

  /** `WaitObject::Wake`: result and time are recorded, the entry leaves the list, the task is
      due on this tick. */
  method Wake(list: ListHead<Slot>, entry: Entry<Slot>, timeout: bool, ghost pos: nat)
    requires list.Valid() && pos < |list.nodes| && list.nodes[pos] == entry
    modifies list, list.nodes
    ensures list.Valid() && list.nodes == Without(old(list.nodes), pos)
    ensures entry.head == null
    ensures entry.host == old(entry.host).(timedOut := timeout, waitLeft := 0, waitOn := None, sleep := -1)
    ensures forall x :: x in old(list.nodes) && x != entry ==> x.host == old(x.host)
  {
    list.Unlink(entry, pos);
    label Unlinked:
    entry.host := entry.host.(timedOut := timeout, waitLeft := 0, waitOn := None, sleep := -1);
    forall i | 0 <= i < |list.nodes| ensures list.Linked(i) {
      assert old@Unlinked(list.Linked(i));
    }
  }

  lemma SurvivingStep(nodes: seq<Entry<Slot>>, slots: seq<Slot>, k: nat, elapsed: int)
    requires k < |nodes| == |slots|
    ensures Surviving(nodes[..k + 1], slots[..k + 1], elapsed) ==
            Surviving(nodes[..k], slots[..k], elapsed) + if Expires(slots[k], elapsed) then [] else [nodes[k]]
    decreases k
  {
    if k == 0 {
      assert nodes[..1][1..] == [] && slots[..1][1..] == [];
    } else {
      SurvivingStep(nodes[1..], slots[1..], k - 1, elapsed);
      assert nodes[..k + 1][1..] == nodes[1..][..k] && slots[..k + 1][1..] == slots[1..][..k];
      assert nodes[..k][1..] == nodes[1..][..k - 1] && slots[..k][1..] == slots[1..][..k - 1];
    }
  }

  /** One visited entry: it ages, and leaves the list if its time is up. */
  method Visit(list: ListHead<Slot>, entry: Entry<Slot>, elapsed: int, ghost pos: nat)
    requires list.Valid() && pos < |list.nodes| && list.nodes[pos] == entry
    requires entry.host.Waiting() && Armable(entry.host)
    modifies list, list.nodes
    ensures list.Valid()
    ensures list.nodes == if Expires(old(entry.host), elapsed) then Without(old(list.nodes), pos) else old(list.nodes)
    ensures entry.host == Aged(old(entry.host), elapsed)
    ensures forall x :: x in old(list.nodes) && x != entry ==> x.host == old(x.host)
  {
    entry.host := AgeWait(entry.host, elapsed);
    forall i | 0 <= i < |list.nodes| ensures list.Linked(i) {
      assert old(list.Linked(i));
    }
    if entry.host.timedOut {
      Wake(list, entry, true, pos);
    }
  }

  /** How far the walk has come: `k` entries of `was` are visited, `kept` of them remain. */
  ghost predicate Walking(list: ListHead<Slot>, was: seq<Entry<Slot>>, slots: seq<Slot>, k: nat,
                          kept: seq<Entry<Slot>>, elapsed: int)
    requires |was| == |slots|
    reads list, list.nodes, was
  {
    && k <= |was| && list.Valid()
    && (forall i, j :: 0 <= i < j < |was| ==> was[i] != was[j])
    && (forall x :: x in list.nodes ==> x in was)
    && list.nodes == kept + was[k..]
    && kept == Surviving(was[..k], slots[..k], elapsed)
    && (forall i :: 0 <= i < k ==> was[i].host == Aged(slots[i], elapsed))
    && (forall i :: k <= i < |was| ==> was[i].host == slots[i])
  }

  /** One turn of the loop: the successor is read before the entry may leave. */
  method Turn(list: ListHead<Slot>, itr: Entry<Slot>, elapsed: int,
              ghost was: seq<Entry<Slot>>, ghost slots: seq<Slot>, ghost k: nat, ghost kept: seq<Entry<Slot>>)
    returns (next: Entry?<Slot>, ghost kept': seq<Entry<Slot>>)
    requires |was| == |slots| && Walking(list, was, slots, k, kept, elapsed) && !list.closed
    requires k < |was| && itr == was[k] && slots[k].Waiting() && Armable(slots[k])
    modifies list, list.nodes
    ensures Walking(list, was, slots, k + 1, kept', elapsed)
    ensures next == if k + 1 < |was| then was[k + 1] else null
  {
    hide Surviving, Aged, Expires, Armable, NextAt, PrevAt, Without;
    ghost var pos := |kept|;
    assert list.nodes[pos] == itr;
    list.Neighbours(pos);
    next := itr.next;
    assert k + 1 < |was| ==> list.nodes[pos + 1] == was[k + 1];
    Visit(list, itr, elapsed, pos);
    SurvivingStep(was, slots, k, elapsed);
    kept' := if Expires(slots[k], elapsed) then kept else kept + [was[k]];
    NodesStep(was, k, kept);
    assert forall x :: x in list.nodes ==> x in old(list.nodes) by { StillListed(kept + was[k..], |kept|); }
    forall i | 0 <= i < |was| && i != k ensures was[i].host == old(was[i].host) {
      assert was[i] != itr;
    }
  }

  lemma StillListed(nodes: seq<Entry<Slot>>, pos: nat)
    requires pos < |nodes|
    ensures forall x :: x in Without(nodes, pos) ==> x in nodes
  {
  }

  lemma NodesStep(was: seq<Entry<Slot>>, k: nat, kept: seq<Entry<Slot>>)
    requires k < |was|
    ensures Without(kept + was[k..], |kept|) == kept + was[k + 1..]
    ensures kept + was[k..] == kept + [was[k]] + was[k + 1..]
  {
  }

  lemma StartWalking(list: ListHead<Slot>, elapsed: int)
    requires list.Valid()
    ensures Walking(list, list.nodes, Hosts(list.nodes), 0, [], elapsed)
    ensures list.first == if list.nodes == [] then null else list.nodes[0]
  {
    assert list.nodes[0..] == list.nodes;
    assert [] + list.nodes == list.nodes;
    assert list.nodes[..0] == [];
  }

  lemma WalkingInside(list: ListHead<Slot>, was: seq<Entry<Slot>>, slots: seq<Slot>, k: nat,
                      kept: seq<Entry<Slot>>, elapsed: int)
    requires |was| == |slots| && Walking(list, was, slots, k, kept, elapsed)
    ensures list.Valid() && forall i :: 0 <= i < |list.nodes| ==> list.nodes[i] in was
  {
    assert forall i :: 0 <= i < |list.nodes| ==> list.nodes[i] in list.nodes;
  }

  lemma WalkingEnds(list: ListHead<Slot>, was: seq<Entry<Slot>>, slots: seq<Slot>, k: nat,
                    kept: seq<Entry<Slot>>, elapsed: int)
    requires k == |was| == |slots| && Walking(list, was, slots, k, kept, elapsed)
    ensures list.Valid() && list.nodes == Surviving(was, slots, elapsed)
    ensures forall i :: 0 <= i < |was| ==> was[i].host == Aged(slots[i], elapsed)
  {
    assert was[..|was|] == was && slots[..|was|] == slots && kept + was[|was|..] == kept;
  }

  /** `ISyncObject::Tick`: every waiter is visited exactly once, exactly the unexpired stay, in
      order, and the result says whether anyone is left. */
  method Tick(list: ListHead<Slot>, elapsed: int) returns (more: bool)
    requires list.Valid() && !list.closed
    requires forall i :: 0 <= i < |list.nodes| ==> list.nodes[i].host.Waiting() && Armable(list.nodes[i].host)
    modifies list, list.nodes
    ensures list.Valid() && more == (list.nodes != [])
    ensures list.nodes == Surviving(old(list.nodes), old(Hosts(list.nodes)), elapsed)
    ensures forall i :: 0 <= i < |old(list.nodes)| ==>
              old(list.nodes)[i].host == Aged(old(list.nodes[i].host), elapsed)
    ensures more == FiniteLeft(old(Hosts(list.nodes)), elapsed) <==>
            NoneInfinite(old(Hosts(list.nodes))) || FiniteLeft(old(Hosts(list.nodes)), elapsed)
  {
    hide Surviving, Aged, Armable, NextAt, PrevAt, Hosts, Walking, FiniteLeft, NoneInfinite;
    SomeSurvives(list.nodes, Hosts(list.nodes), elapsed);
    ghost var was, slots := list.nodes, Hosts(list.nodes);
    ghost var k := 0;
    ghost var kept: seq<Entry<Slot>> := [];
    var itr := list.first;
    StartWalking(list, elapsed);
    while itr != null
      invariant k <= |was| && Walking(list, was, slots, k, kept, elapsed)
      invariant itr == if k < |was| then was[k] else null
      decreases |was| - k
    {
      WalkingInside(list, was, slots, k, kept, elapsed);
      itr, kept := Turn(list, itr, elapsed, was, slots, k, kept);
      k := k + 1;
    }
    WalkingEnds(list, was, slots, k, kept, elapsed);
    more := !list.IsEmpty();
  }
}
