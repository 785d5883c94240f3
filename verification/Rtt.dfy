/**
 The RTT ring buffer and its writers and reader, each proved against a plain FIFO.
 */
module Rtt {
  import opened RttRing
  import opened RttOverwrite

  datatype Mode = NoBlockSkip | NoBlockTrim | BlockIfFull | OtherMode

  /** The host reads again and again: at turn `next(t)` at the latest. */
  ghost predicate KeepsReading(host: nat -> nat, next: nat -> nat) {
    forall t: nat :: next(t) >= t && host(next(t)) > 0 && (next(t) > t ==> next(t + 1) == next(t))
  }

  class Ring {
    const buffer: array<Byte>
    var wrOff: nat
    var rdOff: nat

    ghost predicate Valid()
      reads this
    {
      rdOff < buffer.Length && wrOff < buffer.Length
    }

    /** The bytes written and not yet read. */
    ghost function Contents(): seq<Byte>
      requires Valid()
      reads this, buffer
    {
      Pending(buffer[..], rdOff, wrOff)
    }

    constructor (size: nat)
      requires size > 0
      ensures Valid() && fresh(buffer) && buffer.Length == size && Contents() == []
    {
      buffer := new Byte[size](_ => 0);
      wrOff, rdOff := 0, 0;
    }

    /** The byte loop that stands for `memcpy` into the ring. */
    method Copy(at: nat, data: seq<Byte>)
      requires at + |data| <= buffer.Length
      modifies buffer
      ensures buffer[..] == old(buffer[..at]) + data + old(buffer[at + |data|..])
      ensures buffer[..] == Stored(old(buffer[..]), at, data)
    {
      var k := 0;
      while k < |data|
        invariant k <= |data|
        invariant forall i :: 0 <= i < buffer.Length ==>
                    buffer[i] == if at <= i < at + k then data[i - at] else old(buffer[i])
      {
        buffer[at + k] := data[k];
        k := k + 1;
      }
    }

    method GetAvailWriteSpace() returns (r: nat)
      requires Valid()
      ensures r == buffer.Length - 1 - |Contents()|
    {
      if rdOff <= wrOff {
        r := buffer.Length - 1 - wrOff + rdOff;
      } else {
        r := rdOff - wrOff - 1;
      }
    }

    /** Storing without reaching the end of the buffer. */
    method StoreStraight(data: seq<Byte>)
      requires Valid() && |data| + |Contents()| < buffer.Length && wrOff + |data| < buffer.Length
      modifies this`wrOff, buffer
      ensures Valid() && Contents() == old(Contents()) + data
      ensures buffer[..] == Written(old(buffer[..]), old(wrOff), data)
      ensures wrOff == Advance(buffer.Length, old(wrOff), |data|)
    {
      WriteAppends(buffer[..], rdOff, wrOff, data);
      hide Pending;
      Copy(wrOff, data);
      assert buffer[..] == Written(old(buffer[..]), wrOff, data);
      wrOff := wrOff + |data|;
    }

    /** Storing in two stretches, the second of which may be empty. */
    method StoreWrapped(data: seq<Byte>)
      requires Valid() && |data| + |Contents()| < buffer.Length && wrOff + |data| >= buffer.Length
      modifies this`wrOff, buffer
      ensures Valid() && Contents() == old(Contents()) + data
      ensures buffer[..] == Written(old(buffer[..]), old(wrOff), data)
      ensures wrOff == Advance(buffer.Length, old(wrOff), |data|)
    {
      hide Pending, Written;
      WriteAppends(buffer[..], rdOff, wrOff, data);
      WrittenWrapped(buffer[..], wrOff, data);
      ghost var was := buffer[..];
      var rem := buffer.Length - wrOff;
      Copy(wrOff, data[..rem]);
      ghost var mid := buffer[..];
      assert mid == was[..wrOff] + data[..rem];
      if |data| - rem > 0 {
        Copy(0, data[rem..]);
      } else {
        assert data[rem..] + mid[0..] == mid;
      }
      assert buffer[..] == data[rem..] + mid[|data| - rem..];
      wrOff := |data| - rem;
    }

    /** `_WriteNoCheck`: its callers have made sure that the data fits. */
    method WriteNoCheck(data: seq<Byte>)
      requires Valid() && |data| + |Contents()| < buffer.Length
      modifies this`wrOff, buffer
      ensures Valid() && Contents() == old(Contents()) + data
      ensures buffer[..] == Written(old(buffer[..]), old(wrOff), data)
      ensures wrOff == Advance(buffer.Length, old(wrOff), |data|)
    {
      var rem := buffer.Length - wrOff;
      if rem > |data| {
        StoreStraight(data);
      } else {
        StoreWrapped(data);
      }
    }

    /** `SEGGER_RTT_WriteSkipNoLock`: all or nothing, with its five cases. */
    method WriteSkip(data: seq<Byte>) returns (stored: bool)
      requires Valid()
      modifies this`wrOff, buffer
      ensures Valid()
      ensures stored <==> |data| + |old(Contents())| < buffer.Length
      ensures Contents() == if stored then old(Contents()) + data else old(Contents())
      ensures stored ==> buffer[..] == Written(old(buffer[..]), old(wrOff), data)
                         && wrOff == Advance(buffer.Length, old(wrOff), |data|)
      ensures !stored ==> buffer[..] == old(buffer[..]) && wrOff == old(wrOff)
    {
      hide Pending, Written;
      stored := false;
      if rdOff <= wrOff {
        var avail := buffer.Length - wrOff - 1;
        if avail >= |data| {
          StoreStraight(data);
          stored := true;
        } else {
          avail := avail + rdOff;
          if avail >= |data| {
            StoreWrapped(data);
            stored := true;
          }
        }
      } else {
        var avail := rdOff - wrOff - 1;
        if avail >= |data| {
          StoreStraight(data);
          stored := true;
        }
      }
    }

    /** One turn of `_WriteBlocking`: as much as fits before the wrap and before the reader. */
    method WriteChunk(data: seq<Byte>) returns (written: nat)
      requires Valid()
      modifies this`wrOff, buffer
      ensures Valid() && written <= |data| && Contents() == old(Contents()) + data[..written]
      ensures buffer[..] == Written(old(buffer[..]), old(wrOff), data[..written])
      ensures wrOff == Advance(buffer.Length, old(wrOff), written)
      ensures written == BlockSize(buffer.Length, rdOff, old(wrOff), |data|)
      ensures written == 0 ==> data == [] || |old(Contents())| == buffer.Length - 1
    {
      hide Stored;
      if rdOff > wrOff {
        written := rdOff - wrOff - 1;
      } else {
        written := buffer.Length - (wrOff - rdOff + 1);
      }
      written := MinNat(written, buffer.Length - wrOff);
      written := MinNat(written, |data|);
      WriteAppends(buffer[..], rdOff, wrOff, data[..written]);
      ghost var was, at := buffer[..], wrOff;
      Copy(wrOff, data[..written]);
      wrOff := wrOff + written;
      if wrOff == buffer.Length {
        assert data[..written][written..] + was[0..at] + data[..written][..written] == buffer[..];
        wrOff := 0;
      }
      assert buffer[..] == Written(was, at, data[..written]);
    }

    /** The reader moves on by `count` bytes. */
    method HostReads(count: nat) returns (bytes: seq<Byte>)
      requires Valid() && count <= |Contents()|
      modifies this`rdOff
      ensures Valid() && old(Contents()) == bytes + Contents() && |bytes| == count
    {
      ReadTakes(buffer[..], rdOff, wrOff, count);
      bytes := if rdOff + count <= buffer.Length then buffer[rdOff..rdOff + count]
               else buffer[rdOff..] + buffer[..rdOff + count - buffer.Length];
      rdOff := if rdOff + count < buffer.Length then rdOff + count else rdOff + count - buffer.Length;
    }

    /** `_WriteBlocking` beside a host that reads up to `host(t)` bytes before turn `t`. The loop
        goes round until all data is posted; it ends because the host keeps reading, however
        rarely: `next(t)` is the next turn in which it does. */
    method WriteBlocking(data: seq<Byte>, host: nat -> nat, ghost next: nat -> nat)
      returns (written: nat, received: seq<Byte>)
      requires Valid() && buffer.Length >= 2 && KeepsReading(host, next)
      modifies this, buffer
      ensures Valid() && written == |data|
      ensures received + Contents() == old(Contents()) + data
    {
      hide Pending, Written;
      written, received := 0, [];
      var t := 0;
      assert data[..0] == [];
      while written < |data|
        invariant written <= |data| && Valid()
        invariant received + Contents() == old(Contents()) + data[..written]
        decreases |data| - written, next(t) - t
      {
        ghost var before := Contents();
        var bytes, n := Turn(data[written..], host(t));
        assert data[..written] + data[written..][..n] == data[..written + n];
        Regroup(received, bytes, Contents(), before, data[written..][..n], old(Contents()), data[..written]);
        received := received + bytes;
        written := written + n;
        t := t + 1;
      }
      assert data[..written] == data;
    }

    lemma Regroup(received: seq<Byte>, bytes: seq<Byte>, after: seq<Byte>, before: seq<Byte>, posted: seq<Byte>,
                  start: seq<Byte>, earlier: seq<Byte>)
      requires bytes + after == before + posted && received + before == start + earlier
      ensures (received + bytes) + after == start + (earlier + posted)
    {
      assert (received + bytes) + after == received + (bytes + after);
      assert received + (before + posted) == (received + before) + posted;
    }

    /** The host reads, then the writer posts what it can. */
    method Turn(data: seq<Byte>, limit: nat) returns (bytes: seq<Byte>, written: nat)
      requires Valid()
      modifies this, buffer
      ensures Valid() && written <= |data|
      ensures bytes + Contents() == old(Contents()) + data[..written]
      ensures buffer.Length >= 2 && limit > 0 && data != [] ==> written > 0
    {
      hide Pending, Written;
      bytes := HostReads(MinNat(limit, if rdOff <= wrOff then wrOff - rdOff else buffer.Length - rdOff + wrOff));
      written := WriteChunk(data);
    }

    /** `SEGGER_RTT_WriteNoLock`: all or nothing, as much as fits, or waiting for the host. */
    method Write(data: seq<Byte>, mode: Mode, host: nat -> nat, ghost next: nat -> nat)
      returns (status: nat, received: seq<Byte>)
      requires Valid() && (mode.BlockIfFull? ==> buffer.Length >= 2 && KeepsReading(host, next))
      modifies this, buffer
      ensures Valid() && status <= |data|
      ensures received + Contents() == old(Contents()) + data[..status]
      ensures !mode.BlockIfFull? ==> received == []
      ensures mode.NoBlockSkip? ==>
                status == if |data| + |old(Contents())| < buffer.Length then |data| else 0
      ensures mode.NoBlockTrim? ==>
                status == MinNat(|data|, buffer.Length - 1 - |old(Contents())|)
      ensures mode.BlockIfFull? ==> status == |data|
      ensures mode.OtherMode? ==> status == 0
    {
      hide Pending, Written;
      received := [];
      match mode {
        case NoBlockSkip =>
          var avail := GetAvailWriteSpace();
          if avail < |data| {
            status := 0;
          } else {
            status := |data|;
            WriteNoCheck(data);
          }
        case NoBlockTrim =>
          var avail := GetAvailWriteSpace();
          status := if avail < |data| then avail else |data|;
          WriteNoCheck(data[..status]);
        case BlockIfFull =>
          status, received := WriteBlocking(data, host, next);
          assert data[..status] == data;
        case OtherMode =>
          status := 0;
      }
    }

    /** `SEGGER_RTT_ReadUpBufferNoLock` and `SEGGER_RTT_ReadNoLock`: two stretches at most. */
    method Read(size: nat) returns (bytes: seq<Byte>)
      requires Valid()
      modifies this`rdOff
      ensures Valid() && |bytes| == MinNat(|old(Contents())|, size)
      ensures old(Contents()) == bytes + Contents()
    {
      hide Pending, Used, Advance;
      var n, rd := ReadToEnd(size);
      // With room left the reader stands behind the writer; otherwise nothing more is copied.
      var m := if rd <= wrOff then MinNat(wrOff - rd, size - n) else 0;
      TwoStretches(buffer[..], rdOff, wrOff, size, n, rd, m);
      ReadTakes(buffer[..], rdOff, wrOff, n + m);
      bytes := buffer[rdOff..rdOff + n] + buffer[rd..rd + m];
      assert buffer[..][rdOff..rdOff + n] == buffer[rdOff..rdOff + n] && buffer[..][rd..rd + m] == buffer[rd..rd + m];
      Halved(Contents(), n + m);
      if bytes != [] {
        rdOff := rd + m;
      }
    }

    lemma Halved(s: seq<Byte>, k: nat)
      requires k <= |s|
      ensures s == s[..k] + s[k..] && s[0..] == s
    {
    }

    /** The stretch up to the end of the buffer, when the writer has already wrapped. */
    method ReadToEnd(size: nat) returns (n: nat, rd: nat)
      requires Valid()
      ensures n == if rdOff > wrOff then MinNat(buffer.Length - rdOff, size) else 0
      ensures rd == Advance(buffer.Length, rdOff, n)
    {
      n, rd := 0, rdOff;
      if rd > wrOff {
        n := MinNat(buffer.Length - rd, size);
        rd := rd + n;
        if rd == buffer.Length {
          rd := 0;
        }
      }
    }

    /** `SEGGER_RTT_WriteWithOverwriteNoLock`: the oldest bytes make room, and the newest bytes of
        old contents and data remain, as long as the writer does not go round a second time. */
    method WriteWithOverwrite(data: seq<Byte>)
      requires Valid() && Ends(buffer.Length, |data|)
      modifies this, buffer
      ensures Valid()
      ensures (buffer[..], wrOff) == Overwritten(old(buffer[..]), old(wrOff), data)
      ensures rdOff == Skipped(buffer.Length, old(rdOff), old(wrOff), |data|)
      ensures buffer.Length == 1 || old(wrOff) + |data| + 1 < 2 * buffer.Length ==>
                Contents() == Newest(old(Contents()) + data, buffer.Length - 1)
    {
      hide Overwritten, Pending;
      OverwriteExactly(buffer[..], rdOff, wrOff, |data|);
      assert buffer.Length == 1 || wrOff + |data| + 1 < 2 * buffer.Length ==>
          KeepsNewest(buffer[..], rdOff, wrOff, data);
      MakeRoom(|data|);
      StoreRounds(data);
    }

    /** `RdOff` moves past the bytes that have to go and wraps. */
    method MakeRoom(size: nat)
      requires Valid()
      modifies this`rdOff
      ensures Valid() && rdOff == Skipped(buffer.Length, old(rdOff), wrOff, size)
    {
      var avail: nat;
      if wrOff == rdOff {
        avail := buffer.Length - 1;
      } else if wrOff < rdOff {
        avail := rdOff - wrOff - 1;
      } else {
        avail := rdOff + buffer.Length - wrOff - 1;
      }
      if size > avail {
        ghost var target := rdOff + size - avail;
        rdOff := rdOff + (size - avail);
        while rdOff >= buffer.Length
          invariant Wrap(rdOff, buffer.Length) == Wrap(target, buffer.Length)
        {
          rdOff := rdOff - buffer.Length;
        }
      }
    }

    /** The storing loop of the overwriting writer. */
    method StoreRounds(data: seq<Byte>)
      requires wrOff < buffer.Length && Ends(buffer.Length, |data|)
      modifies this`wrOff, buffer
      ensures (buffer[..], wrOff) == Overwritten(old(buffer[..]), old(wrOff), data)
      ensures wrOff < buffer.Length
    {
      hide Rounds, Stored;
      ghost var target := Overwritten(buffer[..], wrOff, data);
      var rest, avail, more := data, buffer.Length - wrOff, true;
      while more
        invariant more ==> avail > 0 && wrOff + avail <= buffer.Length
                           && Rounds(buffer[..], wrOff, avail, rest) == target
        invariant !more ==> (buffer[..], wrOff) == target
        decreases more, |rest|
      {
        ghost var was := buffer[..];
        RoundStep(was, wrOff, avail, rest);
        if avail > |rest| {
          Copy(wrOff, rest);
          wrOff := wrOff + |rest|;
          more := false;
        } else {
          Copy(wrOff, rest[..avail]);
          wrOff := 0;
          rest := rest[avail..];
          avail := buffer.Length - 1;
          more := rest != [];
        }
      }
    }
  }
}
