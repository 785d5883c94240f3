/**
 The intrusive doubly linked list under every kernel list, on the heap, in its open and its
 closed-loop form. `nodes` is the abstract sequence; `Valid` says that heads, links in both
 directions, the ends and the count all spell out that sequence.
 */
module LinkedList {

  /** The entry that follows position `i`. */
  ghost function NextAt<T>(nodes: seq<Entry<T>>, closed: bool, i: nat): Entry?<T>
    requires i < |nodes|
  {
    if i + 1 < |nodes| then nodes[i + 1] else if closed then nodes[0] else null
  }

  /** The entry that precedes position `i`. */
  ghost function PrevAt<T>(nodes: seq<Entry<T>>, closed: bool, i: nat): Entry?<T>
    requires i < |nodes|
  {
    if i > 0 then nodes[i - 1] else if closed then nodes[|nodes| - 1] else null
  }

  ghost function Inserted<A>(s: seq<A>, pos: nat, x: A): seq<A>
    requires pos <= |s|
  {
    s[..pos] + [x] + s[pos..]
  }

  ghost function Without<A>(s: seq<A>, pos: nat): seq<A>
    requires pos < |s|
  {
    s[..pos] + s[pos + 1..]
  }

  /** `steps` positions further on a ring of `n`. */
  function Around(i: nat, steps: nat, n: nat): (r: nat)
    requires i < n
    ensures r < n
  {
    if steps == 0 then i
    else
      var j := Around(i, steps - 1, n);
      if j + 1 < n then j + 1 else 0
  }

  lemma InsertedDistinct<A>(s: seq<A>, pos: nat, x: A)
    requires pos <= |s| && x !in s && forall i, j :: 0 <= i < j < |s| ==> s[i] != s[j]
    ensures forall i, j :: 0 <= i < j < |Inserted(s, pos, x)| ==> Inserted(s, pos, x)[i] != Inserted(s, pos, x)[j]
  {
  }

  lemma WithoutDistinct<A>(s: seq<A>, pos: nat)
    requires pos < |s| && forall i, j :: 0 <= i < j < |s| ==> s[i] != s[j]
    ensures forall i, j :: 0 <= i < j < |Without(s, pos)| ==> Without(s, pos)[i] != Without(s, pos)[j]
  {
  }

  /** How an insertion changes the links, position by position. */
  lemma InsertedLinks<T>(was: seq<Entry<T>>, pos: nat, e: Entry<T>, closed: bool, i: nat)
    requires pos <= |was| && i <= |was|
    ensures var now := Inserted(was, pos, e);
      && now[i] == (if i < pos then was[i] else if i == pos then e else was[i - 1])
      && NextAt(now, closed, i) ==
         (if closed && i == |was| then now[0]
          else if i + 1 == pos then e
          else if i < pos then NextAt(was, closed, i)
          else if i == pos then (if pos < |was| then was[pos] else null)
          else NextAt(was, closed, i - 1))
      && PrevAt(now, closed, i) ==
         (if closed && i == 0 then now[|was|]
          else if i == pos + 1 then e
          else if i > pos then PrevAt(was, closed, i - 1)
          else if i == pos then (if pos > 0 then was[pos - 1] else null)
          else PrevAt(was, closed, i))
  {
  }

  /** How a removal changes the links, position by position. */
  lemma RemovedLinks<T>(was: seq<Entry<T>>, pos: nat, closed: bool, i: nat)
    requires pos < |was| && i < |was| - 1
    ensures var now := Without(was, pos);
      && now[i] == (if i < pos then was[i] else was[i + 1])
      && NextAt(now, closed, i) ==
         (if closed && i == |was| - 2 then now[0]
          else if i + 1 == pos then (if pos + 1 < |was| then was[pos + 1] else null)
          else if i < pos then NextAt(was, closed, i)
          else NextAt(was, closed, i + 1))
      && PrevAt(now, closed, i) ==
         (if closed && i == 0 then now[|was| - 2]
          else if i == pos then (if pos > 0 then was[pos - 1] else null)
          else if i < pos then PrevAt(was, closed, i)
          else PrevAt(was, closed, i + 1))
  {
  }

  /** `DListEntry`, with the host object it is embedded in. */
  class Entry<T> {
    var head: ListHead?<T>
    var next: Entry?<T>
    var prev: Entry?<T>
    var host: T

    constructor (host: T)
      ensures head == null && next == null && prev == null && this.host == host
    {
      head, next, prev := null, null, null;
      this.host := host;
    }

    /** Splices this entry in between `p` and `n` and tells the neighbours. */
    method Link(h: ListHead<T>, n: Entry?<T>, p: Entry?<T>)
      requires n != this && p != this
      modifies this`head, this`next, this`prev, (if p != null then {p} else {})`next,
          (if n != null then {n} else {})`prev
      ensures head == h && next == n && prev == p
      ensures p != null ==> p.next == this
      ensures n != null ==> n.prev == this
    {
      head, next, prev := h, n, p;
      if prev != null {
        prev.next := this;
      }
      if next != null {
        next.prev := this;
      }
    }

    /** Bridges the neighbours over this entry and clears its links. */
    method Unlink()
      modifies this`head, this`next, this`prev
      modifies (if prev != null then {prev} else {})`next, (if next != null then {next} else {})`prev
      ensures head == null && next == null && prev == null
      ensures old(prev) != null && old(prev) != this ==> old(prev).next == old(next)
      ensures old(next) != null && old(next) != this ==> old(next).prev == old(prev)
    {
      if prev != null {
        prev.next := next;
      }
      if next != null {
        next.prev := prev;
      }
      head, next, prev := null, null, null;
    }
  }

  /** `DListHead`. */
  class ListHead<T> {
    const closed: bool
    var count: nat
    var first: Entry?<T>
    var last: Entry?<T>
    ghost var nodes: seq<Entry<T>>

    ghost predicate Linked(i: nat)
      requires i < |nodes|
      reads this, nodes
    {
      && nodes[i].head == this
      && nodes[i].next == NextAt(nodes, closed, i)
      && nodes[i].prev == PrevAt(nodes, closed, i)
    }

    ghost predicate Valid()
      reads this, nodes
    {
      && count == |nodes|
      && (forall i, j :: 0 <= i < j < |nodes| ==> nodes[i] != nodes[j])
      && (forall i :: 0 <= i < |nodes| ==> Linked(i))
      && first == (if nodes == [] then null else nodes[0])
      && last == (if nodes == [] then null else nodes[|nodes| - 1])
    }

    constructor (closed: bool)
      ensures Valid() && nodes == [] && this.closed == closed
    {
      this.closed := closed;
      count, first, last, nodes := 0, null, null, [];
    }

    predicate IsEmpty()
      reads this
    {
      count == 0
    }

    /** Closes the ring, or resets an emptied head. */
    method UpdateEnds()
      requires count > 0 ==> first != null && last != null
      modifies this`first, this`last
      modifies (if count > 0 && closed then {first, last} else {})
      ensures old(count) == 0 ==> first == null && last == null
      ensures old(count) > 0 ==> first == old(first) && last == old(last)
      ensures old(count) > 0 && closed ==> first.prev == last && last.next == first
      ensures old(count) > 0 && closed ==>
                first.head == old(first.head) && last.head == old(last.head)
                && first.host == old(first.host) && last.host == old(last.host)
                && (first != last ==> first.next == old(first.next) && last.prev == old(last.prev))
    {
      if count == 0 {
        first, last := null, null;
      } else if closed {
        first.prev := last;
        last.next := first;
      }
    }

    /** The pointer updates of `Link`: what every field holds afterwards. */
    method Splice(entry: Entry<T>, n: Entry?<T>, p: Entry?<T>, ghost pos: nat)
      requires Valid() && entry.head == null
      requires pos <= |nodes|
      requires p == (if pos == 0 then null else nodes[pos - 1])
      requires pos > 0 ==> n == (if pos == |nodes| then null else nodes[pos])
      modifies this`first, this`last, this`count, nodes, entry
      ensures count == |nodes| + 1
      ensures first == (if pos == 0 then entry else nodes[0])
      ensures last == (if pos == |nodes| then entry else nodes[|nodes| - 1])
      ensures entry.head == this && entry.host == old(entry.host)
      ensures entry.next == (if pos < |nodes| then nodes[pos] else if closed then first else null)
      ensures entry.prev == (if pos > 0 then nodes[pos - 1] else if closed then last else null)
      ensures forall i :: 0 <= i < |nodes| ==> nodes[i].head == this && nodes[i].host == old(nodes[i].host)
      ensures forall i :: 0 <= i < |nodes| ==>
                nodes[i].next == if i + 1 == pos then entry
                                 else if closed && i == |nodes| - 1 then first else old(nodes[i].next)
      ensures forall i :: 0 <= i < |nodes| ==>
                nodes[i].prev == if i == pos then entry else if closed && i == 0 then last else old(nodes[i].prev)
    {
      Heads();
      EndLinks();
      var following := if p == null then first else n;
      count := count + 1;
      entry.Link(this, following, p);
      if first == null || first == entry.next {
        first := entry;
      }
      if last == null || last == entry.prev {
        last := entry;
      }
      if closed {
        UpdateEnds();
      }
    }

    /** Inserts `entry` before position `pos`: between `p` and `n`, at the front when `p` is
        null (then `n` is overridden), at the back when `n` is null. */
    method Link(entry: Entry<T>, n: Entry?<T>, p: Entry?<T>, ghost pos: nat)
      requires Valid() && entry.head == null
      requires pos <= |nodes|
      requires p == (if pos == 0 then null else nodes[pos - 1])
      requires pos > 0 ==> n == (if pos == |nodes| then null else nodes[pos])
      modifies this, nodes, entry
      ensures Valid() && nodes == Inserted(old(nodes), pos, entry)
      ensures entry.host == old(entry.host)
      ensures forall x :: x in old(nodes) ==> x.host == old(x.host)
    {
      hide NextAt, PrevAt;
      ghost var was := nodes;
      Heads();
      Splice(entry, n, p, pos);
      nodes := Inserted(was, pos, entry);
      InsertedLinks(was, pos, entry, closed, 0);
      InsertedLinks(was, pos, entry, closed, |was|);
      forall i | 0 <= i < |nodes| ensures Linked(i) {
        InsertedLinks(was, pos, entry, closed, i);
        if i != pos { assert old(Linked(if i < pos then i else i - 1)); }
      }
      InsertedDistinct(was, pos, entry);
    }

    method LinkBack(entry: Entry<T>)
      requires Valid() && entry.head == null
      modifies this, nodes, entry
      ensures Valid() && nodes == old(nodes) + [entry]
      ensures entry.host == old(entry.host)
      ensures forall x :: x in old(nodes) ==> x.host == old(x.host)
    {
      ghost var n := |nodes|;
      assert nodes[..n] == nodes && nodes[n..] == [];
      Link(entry, null, last, n);
    }

    method LinkFront(entry: Entry<T>)
      requires Valid() && entry.head == null
      modifies this, nodes, entry
      ensures Valid() && nodes == [entry] + old(nodes)
      ensures entry.host == old(entry.host)
      ensures forall x :: x in old(nodes) ==> x.host == old(x.host)
    {
      assert nodes[..0] == [] && nodes[0..] == nodes;
      Link(entry, last, null, 0);
    }

    /** The pointer updates of `Unlink`. */
    method Bridge(entry: Entry<T>, ghost pos: nat)
      requires Valid() && pos < |nodes| && nodes[pos] == entry
      modifies this`first, this`last, this`count, nodes
      ensures count == |nodes| - 1
      ensures count == 0 ==> first == null && last == null
      ensures count > 0 ==> first == (if pos == 0 then nodes[1] else nodes[0])
      ensures count > 0 ==> last == (if pos == |nodes| - 1 then nodes[|nodes| - 2] else nodes[|nodes| - 1])
      ensures entry.head == null && entry.next == null && entry.prev == null
      ensures forall i :: 0 <= i < |nodes| ==> nodes[i].host == old(nodes[i].host)
      ensures forall i :: 0 <= i < |nodes| && i != pos ==> nodes[i].head == this
      ensures forall i :: 0 <= i < |nodes| && i != pos ==>
                nodes[i].next == if closed && nodes[i] == last then first
                                 else if i + 1 == pos then (if pos + 1 < |nodes| then nodes[pos + 1] else null)
                                 else old(nodes[i].next)
      ensures forall i :: 0 <= i < |nodes| && i != pos ==>
                nodes[i].prev == if closed && nodes[i] == first then last
                                 else if i == pos + 1 then (if pos > 0 then nodes[pos - 1] else null)
                                 else old(nodes[i].prev)
    {
      Heads();
      EndLinks();
      Neighbours(pos);
      if first == entry {
        first := entry.next;
      }
      if last == entry {
        last := entry.prev;
      }
      entry.Unlink();
      count := count - 1;
      UpdateEnds();
    }

    /** Removes the entry at position `pos` and leaves it unlinked. */
    method Unlink(entry: Entry<T>, ghost pos: nat)
      requires Valid() && pos < |nodes| && nodes[pos] == entry
      modifies this, nodes
      ensures Valid() && nodes == Without(old(nodes), pos)
      ensures entry.head == null && entry.next == null && entry.prev == null
      ensures forall x :: x in old(nodes) ==> x.host == old(x.host)
    {
      hide NextAt, PrevAt;
      ghost var was := nodes;
      Bridge(entry, pos);
      nodes := Without(was, pos);
      if |was| > 1 {
        RemovedLinks(was, pos, closed, 0);
        RemovedLinks(was, pos, closed, |was| - 2);
      }
      forall i | 0 <= i < |nodes| ensures Linked(i) {
        RemovedLinks(was, pos, closed, i);
        assert old(Linked(if i < pos then i else i + 1));
      }
      WithoutDistinct(was, pos);
    }

    method PopFront() returns (entry: Entry<T>)
      requires Valid() && !IsEmpty()
      modifies this, nodes
      ensures Valid() && old(nodes) == [entry] + nodes
      ensures entry.head == null && entry.next == null && entry.prev == null
      ensures forall x :: x in old(nodes) ==> x.host == old(x.host)
    {
      entry := first;
      Unlink(entry, 0);
    }

    method PopBack() returns (entry: Entry<T>)
      requires Valid() && !IsEmpty()
      modifies this, nodes
      ensures Valid() && old(nodes) == nodes + [entry]
      ensures entry.head == null && entry.next == null && entry.prev == null
      ensures forall x :: x in old(nodes) ==> x.host == old(x.host)
    {
      entry := last;
      Unlink(entry, |nodes| - 1);
    }

    /** Every entry leaves the list unlinked. */
    method Clear()
      requires Valid()
      modifies this, nodes
      ensures Valid() && nodes == []
      ensures forall x :: x in old(nodes) ==>
          x.head == null && x.next == null && x.prev == null && x.host == old(x.host)
    {
      ghost var was := nodes;
      ghost var done := 0;
      while !IsEmpty()
        invariant Valid() && done <= |was| && nodes == was[done..]
        invariant forall x :: x in was ==> x.host == old(x.host)
        invariant forall i :: 0 <= i < done ==> was[i].head == null && was[i].next == null && was[i].prev == null
        decreases count
      {
        var e := PopFront();
        assert e == was[done];
        done := done + 1;
      }
    }

    /** One step of `RelinkTo`. */
    method MoveFront(to: ListHead<T>)
      requires Valid() && to.Valid() && to != this && nodes != []
      modifies this, nodes, to, to.nodes
      ensures Valid() && to.Valid()
      ensures nodes == old(nodes)[1..] && to.nodes == old(to.nodes) + old(nodes)[..1]
      ensures forall x :: x in old(nodes) ==> x.host == old(x.host)
      ensures forall x :: x in old(to.nodes) ==> x.host == old(x.host)
    {
      Disjoint(to);
      var e := PopFront();
      forall i | 0 <= i < |to.nodes| ensures to.Linked(i) {
        assert to.nodes[i] in to.nodes && old(to.Linked(i));
      }
      forall i | 0 <= i < |nodes| ensures nodes[i] != e && nodes[i] !in to.nodes {
        assert nodes[i] == old(nodes)[i + 1] && nodes[i] in old(nodes);
      }
      label Popped:
      to.LinkBack(e);
      forall i | 0 <= i < |nodes| ensures Linked(i) {
        assert old@Popped(Linked(i));
      }
    }

    /** Moves every entry to the back of `to`, in order. */
    method RelinkTo(to: ListHead<T>)
      requires Valid() && to.Valid() && to != this && to.closed == closed
      modifies this, nodes, to, to.nodes
      ensures Valid() && to.Valid() && nodes == [] && to.nodes == old(to.nodes) + old(nodes)
      ensures forall x :: x in old(nodes) + old(to.nodes) ==> x.host == old(x.host)
    {
      ghost var was, target := nodes, to.nodes;
      ghost var done := 0;
      assert was[0..] == was && target + was[..0] == target;
      while !IsEmpty()
        invariant Valid() && to.Valid() && done <= |was|
        invariant nodes == was[done..] && to.nodes == target + was[..done]
        invariant forall x :: x in was + target ==> x.host == old(x.host)
        decreases count
      {
        assert was[..done] + was[done..][..1] == was[..done + 1];
        MoveFront(to);
        done := done + 1;
      }
    }

    /** The entry `steps` links ahead of position `i`. */
    ghost function Ahead(i: nat, steps: nat): Entry?<T>
      requires Valid() && i < |nodes|
      reads this, nodes
    {
      if steps == 0 then nodes[i]
      else
        var e := Ahead(i, steps - 1);
        if e == null || e !in nodes then null else e.next
    }

    /** A closed loop really is one: following links from any entry visits the sequence
        cyclically, and an open list runs off its end exactly once. */
    lemma {:induction false} AheadIs(i: nat, steps: nat)
      requires Valid() && i < |nodes|
      ensures closed ==> Ahead(i, steps) == nodes[Around(i, steps, |nodes|)]
      ensures !closed ==> Ahead(i, steps) == if i + steps < |nodes| then nodes[i + steps] else null
    {
      if steps > 0 {
        AheadIs(i, steps - 1);
        var at := if closed then Around(i, steps - 1, |nodes|) else i + steps - 1;
        if at < |nodes| {
          assert Linked(at);
        }
      }
    }

    lemma Heads()
      requires Valid()
      ensures forall i :: 0 <= i < |nodes| ==> nodes[i].head == this
    {
      forall i | 0 <= i < |nodes| ensures nodes[i].head == this {
        assert Linked(i);
      }
    }

    lemma EndLinks()
      requires Valid()
      ensures nodes != [] ==>
                && nodes[0].prev == (if closed then last else null)
                && nodes[|nodes| - 1].next == (if closed then first else null)
    {
      if nodes != [] { assert Linked(0) && Linked(|nodes| - 1); }
    }

    lemma Neighbours(pos: nat)
      requires Valid() && pos < |nodes|
      ensures nodes[pos].next == (if pos + 1 < |nodes| then nodes[pos + 1] else if closed then nodes[0] else null)
      ensures nodes[pos].prev == (if pos > 0 then nodes[pos - 1] else if closed then nodes[|nodes| - 1] else null)
    {
      assert Linked(pos);
    }

    /** An entry is in one list at most. */
    lemma Disjoint(other: ListHead<T>)
      requires Valid() && other.Valid() && other != this
      ensures forall x :: x in other.nodes ==> x !in nodes
    {
      Heads();
      other.Heads();
    }
  }
}
