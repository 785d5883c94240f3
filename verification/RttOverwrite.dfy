/**
 The overwriting writer on values, for blocks of any length: what it leaves in memory, and exactly
 when the newest bytes survive.
 */
module RttOverwrite {
  import opened RttRing

  /** The newest `limit` bytes. */
  function Newest(bytes: seq<Byte>, limit: nat): seq<Byte> {
    if |bytes| <= limit then bytes else bytes[|bytes| - limit..]
  }

  function Stored(buf: seq<Byte>, at: nat, data: seq<Byte>): (r: seq<Byte>)
    requires at + |data| <= |buf|
    ensures |r| == |buf|
  {
    buf[..at] + data + buf[at + |data|..]
  }

  /** The storing loop: memory and write offset afterwards. A round that does not finish goes back
      to the start, and from then on a round stores one byte less than the buffer holds. */
  function Rounds(buf: seq<Byte>, wr: nat, avail: nat, data: seq<Byte>): (r: (seq<Byte>, nat))
    requires (|buf| >= 2 || |data| <= avail) && avail > 0 && wr + avail <= |buf|
    ensures |r.0| == |buf| && r.1 < |buf|
    ensures wr + avail < |buf| ==> r.1 < |buf| - 1 && r.0[|buf| - 1] == buf[|buf| - 1]
    decreases |data|
  {
    if |data| < avail then (Stored(buf, wr, data), wr + |data|)
    else
      var after := Stored(buf, wr, data[..avail]);
      if |data| == avail then (after, 0) else Rounds(after, 0, |buf| - 1, data[avail..])
  }

  lemma RoundStep(buf: seq<Byte>, wr: nat, avail: nat, data: seq<Byte>)
    requires (|buf| >= 2 || |data| <= avail) && avail > 0 && wr + avail <= |buf|
    ensures |data| < avail ==> Rounds(buf, wr, avail, data) == (Stored(buf, wr, data), wr + |data|)
    ensures |data| >= avail ==>
              var after := Stored(buf, wr, data[..avail]);
              Rounds(buf, wr, avail, data) ==
              if data[avail..] == [] then (after, 0) else Rounds(after, 0, |buf| - 1, data[avail..])
  {
  }

  /** The loop ends: a second round of a buffer of one byte stores nothing, for ever. */
  predicate Ends(n: nat, size: nat) {
    n >= 2 || size <= 1
  }

  function Overwritten(buf: seq<Byte>, wr: nat, data: seq<Byte>): (r: (seq<Byte>, nat))
    requires Ends(|buf|, |data|) && wr < |buf|
    ensures |r.0| == |buf| && r.1 < |buf|
  {
    Rounds(buf, wr, |buf| - wr, data)
  }

  /** An offset taken back into the ring, one turn at a time. */
  function Wrap(x: nat, n: nat): (r: nat)
    requires n > 0
    ensures r < n && (x < n ==> r == x)
  {
    if x < n then x else Wrap(x - n, n)
  }

  /** The read offset after room has been made for `size` bytes. */
  function Skipped(n: nat, rd: nat, wr: nat, size: nat): (r: nat)
    requires rd < n && wr < n
    ensures r < n
  {
    if size > Free(n, rd, wr) then Wrap(rd + size - Free(n, rd, wr), n) else rd
  }

  /** What a reader finds after the whole call. */
  function AfterOverwrite(buf: seq<Byte>, rd: nat, wr: nat, data: seq<Byte>): seq<Byte>
    requires Ends(|buf|, |data|) && rd < |buf| && wr < |buf|
  {
    var r := Overwritten(buf, wr, data);
    Pending(r.0, Skipped(|buf|, rd, wr, |data|), r.1)
  }

  predicate KeepsNewest(buf: seq<Byte>, rd: nat, wr: nat, data: seq<Byte>)
    requires Ends(|buf|, |data|) && rd < |buf| && wr < |buf|
  {
    AfterOverwrite(buf, rd, wr, data) == Newest(Pending(buf, rd, wr) + data, |buf| - 1)
  }

  // ---- blocks shorter than the buffer ----

  lemma ShortIsWritten(buf: seq<Byte>, wr: nat, data: seq<Byte>)
    requires |buf| >= 2 && wr < |buf| && |data| < |buf|
    ensures Overwritten(buf, wr, data) == (Written(buf, wr, data), Advance(|buf|, wr, |data|))
  {
    var avail := |buf| - wr;
    if |data| < avail {
      assert Written(buf, wr, data) == buf[..wr] + data + buf[wr + |data|..];
    } else if |data| > avail {
      var b := buf[..wr] + data[..avail];
      var more := data[avail..];
      assert Stored(buf, wr, data[..avail]) == b;
      assert Rounds(b, 0, |buf| - 1, more) == (Stored(b, 0, more), |more|);
      assert Stored(b, 0, more) == more + b[|more|..];
      WrittenWrapped(buf, wr, data);
    } else {
      assert data[..avail] == data;
      assert Stored(buf, wr, data) == buf[..wr] + data;
      WrittenToEnd(buf, wr, data);
    }
  }

  lemma SkipIsAdvance(n: nat, rd: nat, wr: nat, size: nat)
    requires rd < n && wr < n && Free(n, rd, wr) < size < n
    ensures Skipped(n, rd, wr, size) == Advance(n, rd, size - Free(n, rd, wr))
    ensures size - Free(n, rd, wr) <= Used(n, rd, wr)
  {
  }

  lemma ShortKeepsNewest(buf: seq<Byte>, rd: nat, wr: nat, data: seq<Byte>)
    requires |buf| >= 2 && rd < |buf| && wr < |buf| && |data| < |buf|
    ensures KeepsNewest(buf, rd, wr, data)
  {
    hide Pending, Written, Overwritten, Advance, Skipped, Used;
    var n, free := |buf|, Free(|buf|, rd, wr);
    ShortIsWritten(buf, wr, data);
    var all := Pending(buf, rd, wr) + data;
    if |data| > free {
      var k := |data| - free;
      SkipIsAdvance(n, rd, wr, |data|);
      ReadTakes(buf, rd, wr, k);
      WriteAppends(buf, Advance(n, rd, k), wr, data);
      assert Pending(buf, rd, wr)[k..] + data == all[k..];
    } else {
      NoSkip(n, rd, wr, |data|);
      WriteAppends(buf, rd, wr, data);
    }
  }

  lemma NoSkip(n: nat, rd: nat, wr: nat, size: nat)
    requires rd < n && wr < n && size <= Free(n, rd, wr)
    ensures Skipped(n, rd, wr, size) == rd
  {
  }

  // ---- longer blocks ----

  /** Behind a block as long as the buffer the reader stands one past where the block ends. */
  lemma SkipOf(n: nat, rd: nat, wr: nat, size: nat)
    requires rd < n && wr < n && size >= n
    ensures Skipped(n, rd, wr, size) == Wrap(wr + size + 1, n)
  {
    var x := rd + size - Free(n, rd, wr);
    assert x == wr + size + 1 || x == wr + size + 1 - n;
  }

  lemma LongRounds(buf: seq<Byte>, wr: nat, data: seq<Byte>)
    requires |buf| >= 2 && wr < |buf| <= |data| && wr + |data| + 1 < 2 * |buf|
    ensures var rest := |data| - (|buf| - wr);
      Overwritten(buf, wr, data) == (data[|buf| - wr..] + (buf[..wr] + data[..|buf| - wr])[rest..], rest)
  {
    var avail, rest := |buf| - wr, |data| - (|buf| - wr);
    var b, more := buf[..wr] + data[..avail], data[avail..];
    assert Stored(buf, wr, data[..avail]) == b;
    assert Stored(b, 0, more) == more + b[rest..];
    RoundStep(buf, wr, avail, data);
    RoundStep(b, 0, |buf| - 1, more);
    assert rest == 0 ==> more + b[rest..] == b;
  }

  /** A block that wraps once leaves its last |buf| - 1 bytes, in order. */
  lemma LongKeepsNewest(buf: seq<Byte>, rd: nat, wr: nat, data: seq<Byte>)
    requires |buf| >= 2 && rd < |buf| && wr < |buf|
    requires |buf| <= |data| && wr + |data| + 1 < 2 * |buf|
    ensures KeepsNewest(buf, rd, wr, data)
  {
    hide Overwritten, Skipped;
    var n := |buf|;
    var rest := |data| - (n - wr);
    LongRounds(buf, wr, data);
    SkipOf(n, rd, wr, |data|);
    assert Wrap(wr + |data| + 1, n) == rest + 1;
    LongPending(buf, wr, data);
    NewestOf(Pending(buf, rd, wr), data, n - 1);
  }

  /** What stands behind the last write offset, and then before it. */
  lemma LongPending(buf: seq<Byte>, wr: nat, data: seq<Byte>)
    requires |buf| >= 2 && wr < |buf| <= |data| && wr + |data| + 1 < 2 * |buf|
    ensures var rest := |data| - (|buf| - wr);
      var now := data[|buf| - wr..] + (buf[..wr] + data[..|buf| - wr])[rest..];
      |now| == |buf| && now[rest + 1..] + now[..rest] == data[|data| - |buf| + 1..]
  {
    var n, avail, rest := |buf|, |buf| - wr, |data| - (|buf| - wr);
    var front := (buf[..wr] + data[..avail])[rest..];
    assert front == data[|data| - n..avail];
    var now := data[avail..] + front;
    assert now[rest + 1..] == front[1..] && now[..rest] == data[avail..];
    assert front[1..] + data[avail..] == data[|data| - n + 1..];
  }

  lemma NewestOf(before: seq<Byte>, data: seq<Byte>, limit: nat)
    requires |data| >= limit
    ensures Newest(before + data, limit) == data[|data| - limit..]
  {
  }

  /** A block that fills a second round: a byte of the first one stays behind and is read again. */
  lemma SecondRoundLoses(buf: seq<Byte>, rd: nat, wr: nat, data: seq<Byte>)
    requires |buf| >= 2 && rd < |buf| && wr < |buf| && wr + |data| + 1 >= 2 * |buf|
    requires forall k :: 0 <= k < |data| ==> data[k] == if k == |buf| - wr - 1 then 1 else 0
    ensures !KeepsNewest(buf, rd, wr, data)
  {
    var n := |buf|;
    var r := Overwritten(buf, wr, data);
    var at := Skipped(n, rd, wr, |data|);
    assert r.1 < n - 1 && r.0[n - 1] == 1;
    var left := Pending(r.0, at, r.1);
    var newest := Newest(Pending(buf, rd, wr) + data, n - 1);
    assert newest == data[|data| - (n - 1)..];
    if |left| == n - 1 {
      assert r.0[n - 1] in left;
      assert 1 !in newest;
    }
  }

  /** A buffer of one byte holds nothing before and after. */
  lemma OneByteKeepsNewest(buf: seq<Byte>, rd: nat, wr: nat, data: seq<Byte>)
    requires |buf| == 1 && rd < |buf| && wr < |buf| && |data| <= 1
    ensures KeepsNewest(buf, rd, wr, data)
  {
    hide Overwritten, Skipped;
    assert Newest(Pending(buf, rd, wr) + data, 0) == [];
  }

  /**
   The promise of the overwriting writer holds for every block of a length if and only if the
   block ends before the writer has gone round a second time, or the buffer holds nothing anyway.
   */
  lemma OverwriteExactly(buf: seq<Byte>, rd: nat, wr: nat, size: nat)
    requires Ends(|buf|, size) && rd < |buf| && wr < |buf|
    ensures (forall data: seq<Byte> :: |data| == size ==> KeepsNewest(buf, rd, wr, data)) <==>
            |buf| == 1 || wr + size + 1 < 2 * |buf|
  {
    hide KeepsNewest;
    if |buf| == 1 || wr + size + 1 < 2 * |buf| {
      forall data: seq<Byte> | |data| == size ensures KeepsNewest(buf, rd, wr, data) {
        if |buf| == 1 {
          OneByteKeepsNewest(buf, rd, wr, data);
        } else if size < |buf| {
          ShortKeepsNewest(buf, rd, wr, data);
        } else {
          LongKeepsNewest(buf, rd, wr, data);
        }
      }
    } else {
      var data: seq<Byte> := seq(size, k => if k == |buf| - wr - 1 then 1 else 0);
      SecondRoundLoses(buf, rd, wr, data);
      assert |data| == size && !KeepsNewest(buf, rd, wr, data);
    }
  }
}
