/**
 The lock-free 64-bit tick counter on a 32-bit CPU: `WriteVolatile64` stores the high half and
 then the low half, `ReadVolatile64` reads high, low, and high again and retries when the two
 high halves differ. Writer and reader interleave at every single access.
 */
module Volatile64 {

  const HALF: int := 0x1_0000_0000

  predicate IsWord(w: int) { 0 <= w < HALF }

  function Hi(v: int): int { v / HALF }
  function Lo(v: int): int { v % HALF }
  function Join(hi: int, lo: int): int { hi * HALF + lo }

  predicate Is64(v: int) { 0 <= v < HALF * HALF }

  /** What the writer is about to do; `value` is the last completely written value. */
  datatype Writer = Resting | HalfWritten(next: int)

  /** The reader's program counter and locals; `seen` and `torn` record, for the claim only,
      the counter and the writer's progress at the moment the low half was read. */
  datatype Reader =
    | Start
    | GotHi(hi: int)
    | GotLo(hi: int, lo: int, seen: int, torn: bool)
    | Done(result: int, seen: int, torn: bool)

  datatype State = State(memHi: int, memLo: int, value: int, writer: Writer, reader: Reader)

  datatype Access = WriteHi(value: int) | WriteLo | ReadHi | ReadLo | RereadHi

  function InitialState(value: int): State {
    State(Hi(value), Lo(value), value, Resting, Start)
  }

  /** A write is in progress that changes the high half. */
  predicate Straddling(s: State) {
    s.writer.HalfWritten? && Hi(s.writer.next) != Hi(s.value)
  }

  predicate Enabled(s: State, a: Access) {
    match a
    case WriteHi(v) => s.writer.Resting? && Is64(v) && s.value <= v   // single writer, counting up
    case WriteLo => s.writer.HalfWritten?
    case ReadHi => s.reader.Start?
    case ReadLo => s.reader.GotHi?
    case RereadHi => s.reader.GotLo?
  }

  function Step(s: State, a: Access): State
    requires Enabled(s, a)
  {
    match a
    case WriteHi(v) => s.(memHi := Hi(v), writer := HalfWritten(v))
    case WriteLo => s.(memLo := Lo(s.writer.next), value := s.writer.next, writer := Resting)
    case ReadHi => s.(reader := GotHi(s.memHi))
    case ReadLo => s.(reader := GotLo(s.reader.hi, s.memLo, s.value, Straddling(s)))
    case RereadHi =>
      if s.reader.hi == s.memHi
      then s.(reader := Done(Join(s.reader.hi, s.reader.lo), s.reader.seen, s.reader.torn))
      else s.(reader := Start)
  }

  /** The high word in memory never decreases and is ahead of the value only inside a write. */
  predicate Inv(s: State) {
    && Is64(s.value) && s.memLo == Lo(s.value)
    && (s.writer.Resting? ==> s.memHi == Hi(s.value))
    && (s.writer.HalfWritten? ==> Is64(s.writer.next) && s.value <= s.writer.next && s.memHi == Hi(s.writer.next))
    && (match s.reader
        case Start => true
        case GotHi(hi) => 0 <= hi <= s.memHi
        case GotLo(hi, lo, seen, torn) =>
          && Is64(seen) && lo == Lo(seen)
          && 0 <= hi <= s.memHi
          && hi <= (if torn then s.memHi else Hi(seen))
          && Hi(seen) <= s.memHi && (torn ==> Hi(seen) < s.memHi)
        case Done(result, seen, torn) =>
          && Is64(seen) && IsWord(Hi(seen)) && Lo(result) == Lo(seen)
          && (if torn then Hi(result) > Hi(seen) else result == seen))
  }

  lemma HiMonotone(a: int, b: int)
    requires 0 <= a <= b
    ensures 0 <= Hi(a) <= Hi(b)
  {
  }

  lemma Halves(v: int)
    requires v >= 0
    ensures Join(Hi(v), Lo(v)) == v && IsWord(Lo(v)) && Hi(v) >= 0
  {
  }

  lemma JoinHalves(hi: int, lo: int)
    requires hi >= 0 && IsWord(lo)
    ensures Hi(Join(hi, lo)) == hi && Lo(Join(hi, lo)) == lo
  {
  }

  lemma StepInv(s: State, a: Access)
    requires Inv(s) && Enabled(s, a)
    ensures Inv(Step(s, a))
  {
    match a
    case WriteHi(v) => HiMonotone(s.value, v);
    case WriteLo =>
    case ReadHi => Halves(s.value);
    case ReadLo =>
      Halves(s.value);
      if s.writer.HalfWritten? { HiMonotone(s.value, s.writer.next); }
    case RereadHi =>
      var r := s.reader;
      if r.hi == s.memHi {
        Halves(r.seen);
        JoinHalves(r.hi, r.lo);
      }
  }

  ghost predicate IsRun(states: seq<State>, accesses: seq<Access>) {
    && |states| == |accesses| + 1
    && (forall k :: 0 <= k < |accesses| ==> Moves(states[k], accesses[k], states[k + 1]))
  }

  predicate Moves(s: State, a: Access, r: State) {
    Enabled(s, a) && r == Step(s, a)
  }

  lemma {:induction false} RunInv(states: seq<State>, accesses: seq<Access>, start: int, k: nat)
    requires IsRun(states, accesses) && Is64(start) && states[0] == InitialState(start) && k < |states|
    ensures Inv(states[k])
  {
    if k > 0 {
      RunInv(states, accesses, start, k - 1);
      assert Moves(states[k - 1], accesses[k - 1], states[k - 1 + 1]);
      StepInv(states[k - 1], accesses[k - 1]);
    }
  }

  /** Over every interleaving: a finished read has returned the counter as it stood when the
      low half was read, if and only if that access did not fall between the two stores of a
      write that changes the high half. */
  lemma ReadIsLinearizable(states: seq<State>, accesses: seq<Access>, start: int, k: nat)
    requires IsRun(states, accesses) && Is64(start) && states[0] == InitialState(start) && k < |states|
    requires states[k].reader.Done?
    ensures states[k].reader.result == states[k].reader.seen <==> !states[k].reader.torn
  {
    RunInv(states, accesses, start, k);
  }

  /** Writes that are atomic with respect to the reader, as the tick interrupt is. */
  predicate AtomicWrites(accesses: seq<Access>) {
    forall k :: 0 <= k < |accesses| && accesses[k].WriteHi? ==> k + 1 < |accesses| && accesses[k + 1].WriteLo?
  }

  lemma {:induction false} AtomicNeverTorn(states: seq<State>, accesses: seq<Access>, start: int, k: nat)
    requires IsRun(states, accesses) && Is64(start) && states[0] == InitialState(start) && k < |states|
    requires AtomicWrites(accesses)
    ensures states[k].writer.HalfWritten? ==> k > 0 && accesses[k - 1].WriteHi?
    ensures states[k].reader.GotLo? || states[k].reader.Done? ==> !states[k].reader.torn
  {
    if k > 0 {
      AtomicNeverTorn(states, accesses, start, k - 1);
      assert Moves(states[k - 1], accesses[k - 1], states[k - 1 + 1]);
      if k > 1 && accesses[k - 2].WriteHi? { assert accesses[k - 2 + 1].WriteLo?; }
    }
  }

  /** With tick-atomic writes every read returns a value the counter really had. */
  lemma TickAtomicReads(states: seq<State>, accesses: seq<Access>, start: int, k: nat)
    requires IsRun(states, accesses) && Is64(start) && states[0] == InitialState(start) && k < |states|
    requires AtomicWrites(accesses) && states[k].reader.Done?
    ensures states[k].reader.result == states[k].reader.seen
  {
    AtomicNeverTorn(states, accesses, start, k);
    ReadIsLinearizable(states, accesses, start, k);
  }

  /** Without that, the protocol can return a value the counter never has: the carry from
      0xFFFF_FFFF to 0x1_0000_0000, read entirely between the two stores. */
  lemma TornRead()
    ensures var s0 := InitialState(0xFFFF_FFFF);
      var s1 := Step(s0, WriteHi(0x1_0000_0000));
      var s2 := Step(s1, ReadHi);
      var s3 := Step(s2, ReadLo);
      var s4 := Step(s3, RereadHi);
      s4.reader.Done? && s4.reader.torn && s4.reader.result == 0x1_FFFF_FFFF
  {
  }

  /** What the writer does on its own: the accesses of `ws` that are the writer's and possible. */
  function WriterMoves(s: State, ws: seq<Access>): (r: State)
    ensures r.reader == s.reader
    ensures ws == [] ==> r == s
    decreases |ws|
  {
    if ws == [] then s
    else
      var a := ws[0];
      WriterMoves(if (a.WriteHi? || a.WriteLo?) && Enabled(s, a) then Step(s, a) else s, ws[1..])
  }

  lemma {:induction false} MovesInv(s: State, ws: seq<Access>)
    requires Inv(s)
    ensures Inv(WriterMoves(s, ws))
    decreases |ws|
  {
    if ws != [] {
      var a := ws[0];
      if (a.WriteHi? || a.WriteLo?) && Enabled(s, a) {
        StepInv(s, a);
        MovesInv(Step(s, a), ws[1..]);
      } else {
        MovesInv(s, ws[1..]);
      }
    }
  }

  method Interfere(s: State, script: seq<seq<Access>>, t: nat) returns (r: State)
    requires Inv(s)
    ensures Inv(r) && r.reader == s.reader && (t >= |script| ==> r == s)
  {
    r := s;
    if t < |script| {
      MovesInv(s, script[t]);
      r := WriterMoves(s, script[t]);
    }
  }

  /** The loop of `ReadVolatile64` beside a writer that makes the moves `script[t]` before the
      reader's access number `t`. It ends, and the words it joins are the counter as it stood
      when the low one was read, if and only if that access did not fall into a carry. */
  method ReadVolatile64(memory: State, script: seq<seq<Access>>) returns (result: int, s: State)
    requires Inv(memory) && memory.reader.Start?
    ensures Inv(s) && s.reader.Done? && result == s.reader.result
    ensures result == s.reader.seen <==> !s.reader.torn
    ensures script == [] && memory.writer.Resting? ==> result == memory.value
  {
    s := memory;
    var t, hi, lo := 0, 0, 0;
    while true
      invariant Inv(s) && s.reader.Start? && (script == [] ==> s == memory && t == 0)
      decreases |script| - t
    {
      ghost var before := t;
      s := Interfere(s, script, t);
      hi := s.memHi;
      StepInv(s, ReadHi);
      s := Step(s, ReadHi);
      s := Interfere(s, script, t + 1);
      lo := s.memLo;
      StepInv(s, ReadLo);
      s := Step(s, ReadLo);
      s := Interfere(s, script, t + 2);
      var again := s.memHi;
      StepInv(s, RereadHi);
      s := Step(s, RereadHi);
      t := t + 3;
      if hi == again {
        break;
      }
      assert before < |script|;
    }
    result := Join(hi, lo);
    if script == [] && memory.writer.Resting? {
      Halves(memory.value);
    }
  }
}
