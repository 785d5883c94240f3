/**
 The up-buffer as a stream between two independent sides: the target stores byte by byte and
 publishes `WrOff`; the host fetches byte by byte and publishes `RdOff`. Every access of one
 side may fall between any two accesses of the other.
 */
module RttStream {
  import opened RttRing

  /** `todo` is what the writer still has to post. `Storing` has chosen its block from the
      value of `RdOff` it read, and has stored `done` bytes of it. */
  datatype Writer = Choosing | Storing(chunk: seq<Byte>, done: nat)

  /** `Fetching` has read `WrOff`, decided to take `count` bytes and has `got` some of them. */
  datatype Host = Waiting | Fetching(count: nat, got: seq<Byte>)

  datatype State = State(
    buf: seq<Byte>, rd: nat, wr: nat,
    writer: Writer, todo: seq<Byte>,
    host: Host,
    submitted: seq<Byte>,   // everything the application has written so far
    received: seq<Byte>)    // everything the host has taken so far

  datatype Event =
    | Submit(data: seq<Byte>)        // a call of a writer
    | ChooseBlocking                 // _WriteBlocking reads RdOff
    | ChooseAll                      // _WriteNoCheck, called within the free space
    | Store                          // one byte of the block
    | Publish                        // WrOff is updated
    | Peek(count: nat)               // the host reads WrOff and decides
    | Fetch                          // one byte
    | Commit                         // RdOff is updated

  function InitialState(size: nat): State {
    State(seq(size, _ => 0), 0, 0, Choosing, [], Waiting, [], [])
  }

  predicate InRange(s: State) { s.rd < |s.buf| && s.wr < |s.buf| }

  predicate Enabled(s: State, e: Event) {
    InRange(s) &&
    match e
    case Submit(data) => s.writer.Choosing? && s.todo == []
    case ChooseBlocking => s.writer.Choosing?
    case ChooseAll => s.writer.Choosing? && |s.todo| <= Free(|s.buf|, s.rd, s.wr)
    case Store => s.writer.Storing? && s.writer.done < |s.writer.chunk| && s.writer.done <= |s.buf|
    case Publish => s.writer.Storing? && s.writer.done == |s.writer.chunk| && s.writer.done <= |s.buf|
    case Peek(count) => s.host.Waiting? && count <= Used(|s.buf|, s.rd, s.wr)
    case Fetch => s.host.Fetching? && |s.host.got| < s.host.count && s.host.count <= |s.buf|
    case Commit => s.host.Fetching? && |s.host.got| == s.host.count && s.host.count <= |s.buf|
  }

  function Choose(s: State, k: nat): State
    requires k <= |s.todo|
  {
    s.(writer := Storing(s.todo[..k], 0), todo := s.todo[k..])
  }

  function Step(s: State, e: Event): State
    requires Enabled(s, e)
  {
    var n := |s.buf|;
    match e
    case Submit(data) => s.(todo := data, submitted := s.submitted + data)
    case ChooseBlocking => Choose(s, BlockSize(n, s.rd, s.wr, |s.todo|))
    case ChooseAll => Choose(s, |s.todo|)
    case Store =>
      var k := s.writer.done;
      s.(buf := s.buf[Advance(n, s.wr, k) := s.writer.chunk[k]], writer := Storing(s.writer.chunk, k + 1))
    case Publish => s.(wr := Advance(n, s.wr, s.writer.done), writer := Choosing)
    case Peek(count) => s.(host := Fetching(count, []))
    case Fetch =>
      s.(host := Fetching(s.host.count, s.host.got + [s.buf[Advance(n, s.rd, |s.host.got|)]]))
    case Commit => s.(rd := Advance(n, s.rd, s.host.count), received := s.received + s.host.got, host := Waiting)
  }

  /** The block the writer is storing. */
  function InFlight(s: State): seq<Byte> {
    if s.writer.Storing? then s.writer.chunk else []
  }

  predicate StoredSoFar(s: State)
    requires InRange(s) && s.writer.Storing? && s.writer.done <= |s.writer.chunk| < |s.buf|
  {
    forall j :: 0 <= j < s.writer.done ==> s.buf[Advance(|s.buf|, s.wr, j)] == s.writer.chunk[j]
  }

  predicate Inv(s: State) {
    && InRange(s)
    && s.submitted == s.received + Pending(s.buf, s.rd, s.wr) + InFlight(s) + s.todo
    && (s.writer.Storing? ==>
          && s.writer.done <= |s.writer.chunk| <= Free(|s.buf|, s.rd, s.wr)
          && StoredSoFar(s))
    && (s.host.Fetching? ==>
          && |s.host.got| <= s.host.count <= Used(|s.buf|, s.rd, s.wr)
          && s.host.got == Pending(s.buf, s.rd, s.wr)[..|s.host.got|])
  }

  lemma InitialInv(size: nat)
    requires size > 0
    ensures Inv(InitialState(size))
  {
  }

  /** The block of `_WriteBlocking` fits the free space; it is empty only when there is nothing to
      post or no room. */
  lemma BlockFits(n: nat, rd: nat, wr: nat, bytes: nat)
    requires rd < n && wr < n
    ensures BlockSize(n, rd, wr, bytes) <= Free(n, rd, wr)
    ensures BlockSize(n, rd, wr, bytes) == 0 <==> bytes == 0 || Free(n, rd, wr) == 0
  {
  }

  /** It is the longest block that fits and does not reach past the end of the buffer. */
  lemma BlockIsLongest(n: nat, rd: nat, wr: nat, bytes: nat, k: nat)
    requires rd < n && wr < n
    ensures k <= BlockSize(n, rd, wr, bytes) <==> k <= bytes && k <= Free(n, rd, wr) && wr + k <= n
  {
  }

  /** Storing a byte of the block touches no unread byte: neither the pending bytes nor, a
      fortiori, the ones the host is fetching right now. */
  lemma StoreSparesUnread(s: State)
    requires Inv(s) && Enabled(s, Store)
    ensures Pending(Step(s, Store).buf, s.rd, s.wr) == Pending(s.buf, s.rd, s.wr)
    ensures StoredSoFar(Step(s, Store))
  {
    hide Pending;
    var n, u, k := |s.buf|, Used(|s.buf|, s.rd, s.wr), s.writer.done;
    var at := Advance(n, s.wr, k);
    var r := Step(s, Store);
    forall j | 0 <= j < u ensures Pending(r.buf, s.rd, s.wr)[j] == Pending(s.buf, s.rd, s.wr)[j] {
      PendingAt(r.buf, s.rd, s.wr, j);
      PendingAt(s.buf, s.rd, s.wr, j);
      AdvanceTwice(n, s.rd, u, k);
    }
  }

  lemma PublishAppends(s: State)
    requires Inv(s) && Enabled(s, Publish)
    ensures var wr' := Advance(|s.buf|, s.wr, s.writer.done);
      && Pending(s.buf, s.rd, wr') == Pending(s.buf, s.rd, s.wr) + s.writer.chunk
      && Used(|s.buf|, s.rd, wr') == Used(|s.buf|, s.rd, s.wr) + s.writer.done
  {
    hide Pending;
    var n, u, d := |s.buf|, Used(|s.buf|, s.rd, s.wr), s.writer.done;
    var wr' := Advance(n, s.wr, d);
    UsedAfterWrite(n, s.rd, s.wr, d);
    forall j | 0 <= j < u + d
      ensures Pending(s.buf, s.rd, wr')[j] == (Pending(s.buf, s.rd, s.wr) + s.writer.chunk)[j]
    {
      PendingAt(s.buf, s.rd, wr', j);
      if j < u {
        PendingAt(s.buf, s.rd, s.wr, j);
      } else {
        AdvanceTwice(n, s.rd, u, j - u);
      }
    }
  }

  lemma Regroup(a: seq<Byte>, b: seq<Byte>, c: seq<Byte>, d: seq<Byte>)
    ensures a + b + c + d == a + (b + c) + d && a + b + c + d == (a + b) + c + d && a + b + c + d == a + b + (c + d)
    ensures a + b + [] + d == a + b + d
  {
  }

  lemma ChooseInv(s: State, k: nat)
    requires Inv(s) && s.writer.Choosing? && k <= |s.todo| && k <= Free(|s.buf|, s.rd, s.wr)
    ensures Inv(Choose(s, k))
  {
    assert s.todo == s.todo[..k] + s.todo[k..];
    Regroup(s.received, Pending(s.buf, s.rd, s.wr), s.todo[..k], s.todo[k..]);
    Regroup(s.received, Pending(s.buf, s.rd, s.wr), [], s.todo);
  }

  lemma FetchInv(s: State)
    requires Inv(s) && Enabled(s, Fetch)
    ensures Inv(Step(s, Fetch))
  {
    PendingAt(s.buf, s.rd, s.wr, |s.host.got|);
    var p, k := Pending(s.buf, s.rd, s.wr), |s.host.got|;
    assert p[..k + 1] == p[..k] + [p[k]];
  }

  lemma CommitInv(s: State)
    requires Inv(s) && Enabled(s, Commit)
    ensures Inv(Step(s, Commit))
  {
    var p, k := Pending(s.buf, s.rd, s.wr), s.host.count;
    hide Pending, Advance, Used;
    ReadTakes(s.buf, s.rd, s.wr, k);
    UsedAfterRead(|s.buf|, s.rd, s.wr, k);
    assert p == p[..k] + p[k..];
    Regroup(s.received, p[..k], p[k..], InFlight(s) + s.todo);
    Regroup(s.received, p, InFlight(s), s.todo);
    Regroup(s.received + p[..k], p[k..], InFlight(s), s.todo);
  }

  lemma PublishInv(s: State)
    requires Inv(s) && Enabled(s, Publish)
    ensures Inv(Step(s, Publish))
  {
    PublishAppends(s);
    hide Pending, Advance, Used;
    Regroup(s.received, Pending(s.buf, s.rd, s.wr), s.writer.chunk, s.todo);
    Regroup(s.received, Pending(s.buf, s.rd, s.wr) + s.writer.chunk, [], s.todo);
    if s.host.Fetching? {
      var p, k := Pending(s.buf, s.rd, s.wr), |s.host.got|;
      assert (p + s.writer.chunk)[..k] == p[..k];
    }
  }

  lemma SubmitInv(s: State, data: seq<Byte>)
    requires Inv(s) && Enabled(s, Submit(data))
    ensures Inv(Step(s, Submit(data)))
  {
    var a := s.received + Pending(s.buf, s.rd, s.wr);
    assert a + [] + [] + data == a + [] + data;
  }

  lemma StepInv(s: State, e: Event)
    requires Inv(s) && Enabled(s, e)
    ensures Inv(Step(s, e))
  {
    match e
    case Submit(data) => SubmitInv(s, data);
    case ChooseBlocking =>
      BlockFits(|s.buf|, s.rd, s.wr, |s.todo|);
      ChooseInv(s, BlockSize(|s.buf|, s.rd, s.wr, |s.todo|));
    case ChooseAll => ChooseInv(s, |s.todo|);
    case Store => StoreSparesUnread(s);
    case Publish => PublishInv(s);
    case Peek(count) =>
    case Fetch => FetchInv(s);
    case Commit => CommitInv(s);
  }

  ghost predicate IsRun(states: seq<State>, events: seq<Event>) {
    && |states| == |events| + 1
    && (forall k :: 0 <= k < |events| ==> Moves(states[k], events[k], states[k + 1]))
  }

  predicate Moves(s: State, e: Event, r: State) {
    Enabled(s, e) && r == Step(s, e)
  }

  lemma {:induction false} RunInv(states: seq<State>, events: seq<Event>, size: nat, k: nat)
    requires IsRun(states, events) && size > 0 && states[0] == InitialState(size) && k < |states|
    ensures Inv(states[k])
  {
    hide Inv, Enabled, Step, InitialState;
    if k == 0 {
      InitialInv(size);
    } else {
      RunInv(states, events, size, k - 1);
      assert Moves(states[k - 1], events[k - 1], states[k - 1 + 1]);
      StepInv(states[k - 1], events[k - 1]);
    }
  }

  lemma FaithfulOf(s: State)
    requires Inv(s)
    ensures InRange(s) && s.received <= s.submitted
    ensures s.submitted[|s.received|..] == Pending(s.buf, s.rd, s.wr) + InFlight(s) + s.todo
  {
    hide Pending, StoredSoFar;
    Regroup(s.received, Pending(s.buf, s.rd, s.wr), InFlight(s), s.todo);
    var rest := Pending(s.buf, s.rd, s.wr) + InFlight(s) + s.todo;
    assert s.submitted == s.received + rest;
  }

  /** Over every interleaving, what the host has received is a prefix of what was written:
      nothing lost, doubled, reordered or overwritten; and what is not received yet is still
      in the buffer, in flight or waiting to be posted. */
  lemma StreamIsFaithful(states: seq<State>, events: seq<Event>, size: nat, k: nat)
    requires IsRun(states, events) && size > 0 && states[0] == InitialState(size) && k < |states|
    ensures states[k].received <= states[k].submitted
    ensures InRange(states[k]) && states[k].submitted[|states[k].received|..] ==
              Pending(states[k].buf, states[k].rd, states[k].wr) + InFlight(states[k]) + states[k].todo
  {
    hide Pending, Inv, IsRun, StoredSoFar;
    RunInv(states, events, size, k);
    FaithfulOf(states[k]);
  }

  /** Once the writer is done and the host has emptied the buffer, it has received everything. */
  lemma StreamIsComplete(states: seq<State>, events: seq<Event>, size: nat, k: nat)
    requires IsRun(states, events) && size > 0 && states[0] == InitialState(size) && k < |states|
    requires states[k].writer.Choosing? && states[k].todo == [] && states[k].rd == states[k].wr
    ensures states[k].received == states[k].submitted
  {
    StreamIsFaithful(states, events, size, k);
  }
}
