/**
 The SystemView sender as it works on its packet buffers and on the RTT up-channel.
 */
module SysView {
  import opened RttRing
  import opened SysViewCode
  import opened SysViewStream
  import Rtt

  datatype CString = Null | Chars(bytes: seq<Byte>)

  /** Puts `value` down from `at` on, seven bits at a time. */
  method EncodeNumber(dest: array<Byte>, at: nat, value: Word) returns (end: nat)
    requires at + 5 <= dest.Length
    modifies dest
    ensures at < end <= at + 5
    ensures dest[..at] == old(dest[..at]) && dest[at..end] == EncodeU32(value)
    ensures dest[end..] == old(dest[end..])
  {
    hide EncodeU32;
    WordLength(value);
    var data: nat := value;
    end := at;
    ghost var done: seq<Byte> := [];
    while data > 127
      invariant at <= end && end + |EncodeU32(data)| <= at + 5
      invariant dest[..at] == old(dest[..at]) && dest[end..] == old(dest[end..])
      invariant dest[at..end] == done && done + EncodeU32(data) == EncodeU32(value)
    {
      var low: Byte := data % 128 + 128;
      NumberStep(done, data);
      dest[end] := low;
      Join(dest[..], at, end, end + 1);
      done := done + [low];
      data := data / 128;
      end := end + 1;
    }
    NumberStep(done, data);
    dest[end] := data;
    Join(dest[..], at, end, end + 1);
    end := end + 1;
  }

  lemma NumberStep(done: seq<Byte>, data: nat)
    ensures data > 127 ==> done + EncodeU32(data) == done + [data % 128 + 128] + EncodeU32(data / 128)
    ensures data > 127 ==> |EncodeU32(data)| == 1 + |EncodeU32(data / 128)|
    ensures data <= 127 ==> EncodeU32(data) == [data]
  {
  }

  lemma Join(s: seq<Byte>, i: nat, j: nat, k: nat)
    requires i <= j <= k <= |s|
    ensures s[i..k] == s[i..j] + s[j..k]
  {
  }

  /** The bytes of a string before its terminator. */
  function Text(s: CString): (t: seq<Byte>)
    requires s.Chars? ==> 0 in s.bytes
  {
    match s
    case Null => []
    case Chars(bytes) => UpToZero(bytes)
  }

  function UpToZero(bytes: seq<Byte>): (t: seq<Byte>)
    requires 0 in bytes
    ensures |t| < |bytes| && t == bytes[..|t|] && bytes[|t|] == 0
    ensures forall k :: 0 <= k < |t| ==> bytes[k] != 0
  {
    if bytes[0] == 0 then [] else [bytes[0]] + UpToZero(bytes[1..])
  }

  method Length(s: CString) returns (len: nat)
    requires s.Chars? ==> 0 in s.bytes
    ensures len == |Text(s)|
  {
    hide UpToZero;
    len := 0;
    if s.Chars? {
      ghost var n := |UpToZero(s.bytes)|;
      while s.bytes[len] != 0
        invariant len <= n
        decreases n - len
      {
        len := len + 1;
      }
    }
  }

  method PutLength(dest: array<Byte>, at: nat, len: nat) returns (end: nat)
    requires at + (if len < 255 then 1 else 3) <= dest.Length
    modifies dest
    ensures end == at + if len < 255 then 1 else 3
    ensures dest[..at] == old(dest[..at]) && dest[end..] == old(dest[end..])
    ensures forall t: seq<Byte> :: |t| == len ==> dest[at..end] + t == EncodeText(t)
  {
    if len < 255 {
      dest[at] := len;
      end := at + 1;
    } else {
      dest[at], dest[at + 1], dest[at + 2] := 255, len % 256, len / 256 % 256;
      end := at + 3;
    }
  }

  method CopyText(dest: array<Byte>, at: nat, text: seq<Byte>, len: nat) returns (end: nat)
    requires len <= |text| && at + len <= dest.Length
    modifies dest
    ensures end == at + len && dest[at..end] == text[..len]
    ensures dest[..at] == old(dest[..at]) && dest[end..] == old(dest[end..])
  {
    var n := 0;
    end := at;
    while n < len
      invariant n <= len && end == at + n
      invariant forall k :: 0 <= k < dest.Length ==>
                  dest[k] == if at <= k < end then text[k - at] else old(dest[k])
    {
      dest[end] := text[n];
      end, n := end + 1, n + 1;
    }
  }

  method EncodeString(dest: array<Byte>, at: nat, s: CString, limit: nat) returns (end: nat)
    requires s.Chars? ==> 0 in s.bytes
    requires at + |EncodeText(Text(s)[..MinNat(|Text(s)|, limit)])| <= dest.Length
    modifies dest
    ensures at <= end <= dest.Length
    ensures dest[..at] == old(dest[..at]) && dest[end..] == old(dest[end..])
    ensures dest[at..end] == EncodeText(Text(s)[..MinNat(|Text(s)|, limit)])
  {
    hide UpToZero, EncodeText;
    var len := Length(s);
    if len > limit { len := limit; }
    ghost var text := Text(s)[..len];
    TextLength(text);
    var front := PutLength(dest, at, len);
    ghost var head := dest[at..front];
    assert head + text == EncodeText(text);
    ghost var before := dest[..front];
    end := CopyText(dest, front, if s.Chars? then s.bytes else [], len);
    assert before[at..] == head && before[..at] == dest[..at];
    Join(dest[..], at, front, end);
    assert dest[at..front] == head;
  }

  lemma TextLength(t: seq<Byte>)
    ensures |EncodeText(t)| == |t| + if |t| < 255 then 1 else 3
  {
  }

  /** Puts the bytes of an id or a length down in front of `at`. */
  method PutShort(packet: array<Byte>, at: nat, x: nat) returns (front: nat)
    requires 2 <= at <= packet.Length
    modifies packet
    ensures at - 2 <= front < at && packet[front..at] == Short(x)
    ensures packet[at..] == old(packet[at..])
  {
    front := at - 1;
    if x > 127 {
      packet[front] := x / 128 % 256;
      front := front - 1;
      packet[front] := x % 128 + 128;
    } else {
      packet[front] := x;
    }
  }

  /** The id, and for the framed events the length, in front of the payload. */
  method Prepend(packet: array<Byte>, start: nat, end: nat, id: nat) returns (at: nat)
    requires 4 <= start <= end <= packet.Length
    modifies packet
    ensures at <= start && packet[at..start] == Header(id, end - start)
    ensures packet[start..] == old(packet[start..])
  {
    hide Short;
    if id < 24 {
      at := start - 1;
      packet[at] := id;
      assert packet[at..start] == [id];
    } else {
      var mid := PutShort(packet, start, end - start);
      ghost var behind := packet[mid..];
      at := PutShort(packet, mid, id);
      assert packet[mid..start] == behind[..start - mid];
      assert packet[start..] == behind[start - mid..];
      Join(packet[..], at, mid, start);
      assert packet[at..start] == Short(id) + Short(end - start);
    }
  }

  /** Header in front, time difference behind: the bytes of the packet. */
  method Finish(packet: array<Byte>, start: nat, end: nat, ghost p: Packet, id: nat, delta: Word)
    returns (at: nat, stop: nat)
    requires 4 <= start <= end && end + 5 <= packet.Length
    requires p.id == id && p.delta == delta && packet[start..end] == Payload(p.body)
    modifies packet
    ensures at <= stop <= packet.Length && packet[at..stop] == Encode(p)
  {
    hide Header, Payload, EncodeU32;
    ghost var payload := packet[start..end];
    at := Prepend(packet, start, end, id);
    ghost var header := packet[at..start];
    assert packet[start..end] == payload;
    ghost var front := packet[..end];
    assert front[at..] == header + payload;
    stop := EncodeNumber(packet, end, delta);
    assert packet[at..end] == front[at..];
    Join(packet[..], at, end, stop);
  }

  lemma OverflowBytes(count: Word, delta: Word)
    ensures Encode(Packet(OVERFLOW, Fields([NumOf(count)]), delta)) == [OVERFLOW] + EncodeU32(count) + EncodeU32(delta)
  {
    hide EncodeU32;
    var values := [NumOf(count)];
    assert values[1..] == [];
    assert EncodeValues(values) == EncodeU32(count) + [];
    assert EncodeU32(count) + [] == EncodeU32(count);
  }

  /** The overflow notice, built in a buffer of eleven bytes. */
  method MakeOverflow(count: Word, delta: Word) returns (packet: array<Byte>, end: nat)
    ensures fresh(packet) && end <= packet.Length
    ensures packet[..end] == Encode(Packet(OVERFLOW, Fields([NumOf(count)]), delta))
  {
    hide EncodeU32, Encode;
    packet := new Byte[11](_ => 0);
    packet[0] := OVERFLOW;
    assert packet[..1] == [OVERFLOW];
    var mid := EncodeNumber(packet, 1, count);
    ghost var front := packet[..mid];
    assert front == packet[..1] + packet[1..mid];
    end := EncodeNumber(packet, mid, delta);
    assert packet[..end] == front + packet[mid..end];
    OverflowBytes(count, delta);
  }

  class Recorder {
    const up: Rtt.Ring
    var enableState: nat
    var lastTxTimeStamp: Word
    var dropCount: Word
    var disabledEvents: bv32
    ghost const start: Word          // the clock when recording began
    ghost var history: seq<Entry>
    ghost var received: seq<Byte>
    ghost var orderly: bool          // every event so far had a payload that suits its id

    /** The bytes of the stored packets are with the host or in the ring. */
    ghost predicate BytesAgree()
      reads this, up, up.buffer
    {
      up.Valid() && enableState <= 2 && received + up.Contents() == Stream(history)
    }

    ghost predicate Valid()
      reads this, up, up.buffer
    {
      BytesAgree() && (orderly ==> Inv(start, Now()))
    }

    ghost function Now(): Sender
      reads this
    {
      Sender(enableState, lastTxTimeStamp, dropCount, disabledEvents, history)
    }

    /** As left by the initialisation: recording is off. */
    constructor (ring: Rtt.Ring, now: Word, disabled: bv32)
      requires ring.Valid() && ring.Contents() == []
      ensures Valid() && up == ring && start == now && orderly && Now() == Fresh(now, disabled) && received == []
    {
      up, enableState, lastTxTimeStamp, dropCount, disabledEvents := ring, 0, now, 0, disabled;
      start, history, received, orderly := now, [], [], true;
    }

    method TakeBytes(count: nat)
      requires BytesAgree()
      modifies this`received, up
      ensures BytesAgree() && Now() == old(Now()) && old(received) <= received
    {
      var bytes := up.Read(count);
      JoinIs(received, bytes, up.Contents(), old(up.Contents()));
      received := received + bytes;
    }

    /** The debugger takes bytes while the target runs. */
    method HostReads(count: nat)
      requires Valid()
      modifies this`received, up
      ensures Valid() && Now() == old(Now()) && old(received) <= received
    {
      TakeBytes(count);
    }

    lemma JoinIs(a: seq<Byte>, b: seq<Byte>, c: seq<Byte>, all: seq<Byte>)
      requires all == b + c
      ensures (a + b) + c == a + all
    {
    }

    ghost function Space(): nat
      requires up.Valid()
      reads up, up.buffer
    {
      up.buffer.Length - 1 - |up.Contents()|
    }

    /** The host may take bytes before each store; the free space is what it then is. */
    method Store(bytes: seq<Byte>, ghost entry: Entry, taken: nat) returns (stored: bool, ghost space: nat)
      requires BytesAgree() && entry.Stored? && bytes == Encode(entry.packet)
      modifies this`history, this`received, up, up.buffer
      ensures BytesAgree() && old(received) <= received
      ensures stored <==> |bytes| <= space
      ensures history == if stored then old(history) + [entry] else old(history)
    {
      hide Encode, Pending, Written, Stream;
      StreamAppend(history, entry);
      TakeBytes(taken);
      space := Space();
      ghost var before := up.Contents();
      stored := up.WriteSkip(bytes);
      if stored {
        history := history + [entry];
        JoinIs(received, before, bytes, before + bytes);
      }
    }

    method TrySendOverflow(time: Word, taken: nat, ghost id: nat) returns (ghost space: nat)
      requires BytesAgree() && enableState == 2
      modifies this, up, up.buffer
      ensures BytesAgree() && old(received) <= received && orderly == old(orderly)
      ensures Now() == TryOverflow(old(Now()), id, time, space)
    {
      hide Encode, Stream, Pending;
      ghost var p := OverflowPacket(Now(), time);
      var packet, end := MakeOverflow(dropCount, (time - lastTxTimeStamp) % WORD);
      var stored;
      stored, space := Store(packet[..end], Stored(p, time), taken);
      if stored {
        lastTxTimeStamp := time;
        enableState := enableState - 1;
      } else {
        dropCount := (dropCount + 1) % WORD;
        Lose(id);
      }
    }

    /** Notes that an attempt was turned away; no byte is stored. */
    ghost method Lose(id: nat)
      requires BytesAgree()
      modifies this`history
      ensures BytesAgree() && history == old(history) + [Lost(id, Masked(disabledEvents, id))]
    {
      history := history + [Lost(id, Masked(disabledEvents, id))];
      assert history[..|history| - 1] == old(history);
    }

    /** The second half: the packet itself, in a recorder that is on. */
    method SendNow(packet: array<Byte>, from: nat, end: nat, id: nat, ghost body: Body, time: Word, taken: nat)
      returns (ghost space: nat)
      requires BytesAgree() && enableState == 1 && packet != up.buffer
      requires 4 <= from <= end && end + 5 <= packet.Length && packet[from..end] == Payload(body)
      modifies this, up, up.buffer, packet
      ensures BytesAgree() && old(received) <= received && orderly == old(orderly)
      ensures Now() == TryPacket(old(Now()), id, body, time, space)
    {
      hide Encode, Payload, Stream, Pending;
      var delta := (time - lastTxTimeStamp) % WORD;
      ghost var p := Packet(id, body, delta);
      var at, stop := Finish(packet, from, end, p, id, delta);
      var stored;
      stored, space := Store(packet[at..stop], Stored(p, time), taken);
      if stored {
        lastTxTimeStamp := time;
      } else {
        enableState := enableState + 1;
        Lose(id);
      }
    }

    method IsDisabled(id: nat) returns (disabled: bool)
      ensures disabled == Masked(disabledEvents, id)
    {
      disabled := id < 32 && disabledEvents & (1 << id) != 0;
    }

    /** `_SendPacket` on the fields and the ring. */
    method SendEither(packet: array<Byte>, from: nat, end: nat, id: nat, ghost body: Body,
                      time0: Word, taken0: nat, time1: Word, taken1: nat)
      returns (ghost a: Attempt)
      requires BytesAgree() && packet != up.buffer
      requires 4 <= from <= end && end + 5 <= packet.Length && packet[from..end] == Payload(body)
      modifies this, up, up.buffer, packet
      ensures BytesAgree() && old(received) <= received && orderly == old(orderly)
      ensures a == Attempt(id, body, time0, a.space0, time1, a.space1) && Now() == Send(old(Now()), a)
    {
      hide Payload, TryOverflow, TryPacket, Stream, Masked;
      a := Attempt(id, body, time0, 0, time1, 0);
      if enableState == 0 { return; }
      if enableState == 2 {
        ghost var space := TrySendOverflow(time0, taken0, id);
        a := a.(space0 := space);
        if enableState != 1 { return; }
      }
      var disabled := IsDisabled(id);
      if disabled { return; }
      ghost var space := SendNow(packet, from, end, id, body, time1, taken1);
      a := a.(space1 := space);
    }

    method SendPacket(packet: array<Byte>, from: nat, end: nat, id: nat, ghost body: Body,
                      time0: Word, taken0: nat, time1: Word, taken1: nat)
      returns (ghost a: Attempt)
      requires Valid() && packet != up.buffer
      requires 4 <= from <= end && end + 5 <= packet.Length && packet[from..end] == Payload(body)
      modifies this, up, up.buffer, packet
      ensures Valid() && old(received) <= received && orderly == (old(orderly) && Sendable(id, body))
      ensures a == Attempt(id, body, time0, a.space0, time1, a.space1) && Now() == Send(old(Now()), a)
    {
      hide Payload, Send, Inv, Sendable, Stream;
      ghost var before := Now();
      a := SendEither(packet, from, end, id, body, time0, taken0, time1, taken1);
      orderly := orderly && Sendable(id, body);
      if orderly {
        SendKeeps(start, before, a);
      }
    }

    /** The sync packet: ten zero bytes, or nothing. */
    method StoreSync(taken: nat) returns (ghost space: nat)
      requires BytesAgree()
      modifies `history, `received, up, up.buffer
      ensures BytesAgree() && old(received) <= received
      ensures history == old(history) + Nops(if 10 <= space then 5 else 0, lastTxTimeStamp)
    {
      hide Stream, Pending, Nops;
      var zeros: seq<Byte> := [0, 0, 0, 0, 0, 0, 0, 0, 0, 0];
      TakeBytes(taken);
      space := Space();
      ghost var contents := up.Contents();
      SyncIsNops(history, lastTxTimeStamp, 5);
      assert seq(2 * 5, _ => 0) == zeros;
      var stored := up.WriteSkip(zeros);
      if stored {
        JoinIs(received, contents, zeros, up.Contents());
        history := history + Nops(5, lastTxTimeStamp);
      } else {
        assert history + Nops(0, lastTxTimeStamp) == history;
      }
    }

    /** `SEGGER_SYSVIEW_Start` up to its sync packet. `again` is the configuration in which a
        recording that is on may be started again. */
    method Start(again: bool, taken: nat) returns (ghost space: nat)
      requires Valid()
      modifies `enableState, `history, `received, up, up.buffer
      ensures Valid() && old(received) <= received && Now() == Begin(old(Now()), again, space)
    {
      hide Inv, Stream, Pending, Nops;
      space := 0;
      if enableState == 0 || again {
        ghost var before := Now();
        enableState := 1;
        StreamAppend(history, Started);
        history := history + [Started];
        space := StoreSync(taken);
        if orderly {
          BeginKeeps(start, before, again, space);
        }
      }
    }

    method EnableEvents(mask: bv32)
      requires Valid()
      modifies `disabledEvents
      ensures Valid() && Now() == Do(old(Now()), Mask(old(disabledEvents) & !mask))
    {
      if orderly {
        MaskKeeps(start, Now(), disabledEvents & !mask);
      }
      disabledEvents := disabledEvents & !mask;
    }

    method DisableEvents(mask: bv32)
      requires Valid()
      modifies `disabledEvents
      ensures Valid() && Now() == Do(old(Now()), Mask(old(disabledEvents) | mask))
    {
      if orderly {
        MaskKeeps(start, Now(), disabledEvents | mask);
      }
      disabledEvents := disabledEvents | mask;
    }

    method Stop(packet: array<Byte>, time0: Word, taken0: nat, time1: Word, taken1: nat) returns (ghost a: Attempt)
      requires Valid() && packet != up.buffer && packet.Length >= 9
      modifies this, up, up.buffer, packet
      ensures Valid() && old(received) <= received && orderly == old(orderly)
      ensures a.id == TRACE_STOP && a.body == Fields([]) && Now() == Do(old(Now()), Action.Stop(a))
    {
      hide Send, Inv;
      a := Attempt(TRACE_STOP, Fields([]), time0, 0, time1, 0);
      if enableState != 0 {
        assert packet[4..4] == [];
        a := SendPacket(packet, 4, 4, TRACE_STOP, Fields([]), time0, taken0, time1, taken1);
        if orderly {
          StopKeeps(start, Now());
        }
        enableState := 0;
      }
    }

    /** At every moment the host's bytes are the first packets of the run, with their send times. */
    lemma HostSeesTheRun()
      requires Valid() && orderly
      ensures ReadAll(received) <= Packets(history)
      ensures Clock(start, ReadAll(received)) <= SendTimes(history)
      ensures GapsAnnounced(history)
    {
      ReceivedReadsBack(start, Now(), received, up.Contents());
    }
  }
}
