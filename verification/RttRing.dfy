/**
 The RTT up-buffer as values: positions on the ring, the bytes waiting in it, and what a
 write of a block does to memory.
 */
module RttRing {

  type Byte = b: int | 0 <= b < 256

  /** `k` bytes past `at` on a ring of `n`. */
  function Advance(n: nat, at: nat, k: nat): (r: nat)
    requires at < n && k <= n
    ensures r < n
  {
    if at + k < n then at + k else at + k - n
  }

  function Used(n: nat, rd: nat, wr: nat): (u: nat)
    requires rd < n && wr < n
    ensures u < n && Advance(n, rd, u) == wr
  {
    if rd <= wr then wr - rd else n - rd + wr
  }

  function Free(n: nat, rd: nat, wr: nat): nat
    requires rd < n && wr < n
  {
    n - 1 - Used(n, rd, wr)
  }

  /** The block `_WriteBlocking` posts in one turn. */
  function BlockSize(n: nat, rd: nat, wr: nat, bytes: nat): nat
    requires rd < n && wr < n
  {
    var room := if rd > wr then rd - wr - 1 else n - (wr - rd + 1);
    MinNat(MinNat(room, n - wr), bytes)
  }

  /** The unread bytes, oldest first. One byte of the buffer always stays unused. */
  function Pending(buf: seq<Byte>, rd: nat, wr: nat): (p: seq<Byte>)
    requires rd < |buf| && wr < |buf|
    ensures |p| == Used(|buf|, rd, wr)
  {
    if rd <= wr then buf[rd..wr] else buf[rd..] + buf[..wr]
  }

  lemma PendingAt(buf: seq<Byte>, rd: nat, wr: nat, k: nat)
    requires rd < |buf| && wr < |buf| && k < Used(|buf|, rd, wr)
    ensures Pending(buf, rd, wr)[k] == buf[Advance(|buf|, rd, k)]
  {
  }

  /** The buffer after a block has been stored from `wr` on, wrapping at the end. */
  function Written(buf: seq<Byte>, wr: nat, data: seq<Byte>): (r: seq<Byte>)
    requires wr < |buf| && |data| < |buf|
    ensures |r| == |buf|
  {
    var rem := |buf| - wr;
    if |data| < rem then buf[..wr] + data + buf[wr + |data|..]
    else data[rem..] + buf[|data| - rem..wr] + data[..rem]
  }

  lemma WrittenAt(buf: seq<Byte>, wr: nat, data: seq<Byte>, k: nat)
    requires wr < |buf| && |data| < |buf| && k < |buf|
    ensures Written(buf, wr, data)[Advance(|buf|, wr, k)] ==
            if k < |data| then data[k] else buf[Advance(|buf|, wr, k)]
  {
  }

  lemma AdvanceTwice(n: nat, at: nat, j: nat, k: nat)
    requires at < n && j + k <= n
    ensures Advance(n, Advance(n, at, j), k) == Advance(n, at, j + k)
  {
  }

  lemma UsedAfterWrite(n: nat, rd: nat, wr: nat, k: nat)
    requires rd < n && wr < n && k <= Free(n, rd, wr)
    ensures Used(n, rd, Advance(n, wr, k)) == Used(n, rd, wr) + k
  {
  }

  lemma UsedAfterRead(n: nat, rd: nat, wr: nat, k: nat)
    requires rd < n && wr < n && k <= Used(n, rd, wr)
    ensures Used(n, Advance(n, rd, k), wr) == Used(n, rd, wr) - k
  {
  }

  /** A block that fits the free space is appended: no unread byte is touched. */
  lemma WriteAppends(buf: seq<Byte>, rd: nat, wr: nat, data: seq<Byte>)
    requires rd < |buf| && wr < |buf| && |data| <= Free(|buf|, rd, wr)
    ensures Pending(Written(buf, wr, data), rd, Advance(|buf|, wr, |data|)) == Pending(buf, rd, wr) + data
  {
    hide Pending, Written;
    var n, u := |buf|, Used(|buf|, rd, wr);
    var w := Written(buf, wr, data);
    var after := Advance(n, wr, |data|);
    UsedAfterWrite(n, rd, wr, |data|);
    forall k | 0 <= k < u + |data| ensures Pending(w, rd, after)[k] == (Pending(buf, rd, wr) + data)[k] {
      PendingAt(w, rd, after, k);
      if k < u {
        PendingAt(buf, rd, wr, k);
        AdvanceTwice(n, wr, n - u, k);
        WrittenAt(buf, wr, data, n - u + k);
      } else {
        AdvanceTwice(n, rd, u, k - u);
        WrittenAt(buf, wr, data, k - u);
      }
    }
  }

  /** Reading `k` bytes takes them off the front. */
  lemma ReadTakes(buf: seq<Byte>, rd: nat, wr: nat, k: nat)
    requires rd < |buf| && wr < |buf| && k <= Used(|buf|, rd, wr)
    ensures Pending(buf, Advance(|buf|, rd, k), wr) == Pending(buf, rd, wr)[k..]
  {
    hide Pending;
    var n := |buf|;
    UsedAfterRead(n, rd, wr, k);
    forall j | 0 <= j < Used(n, rd, wr) - k
      ensures Pending(buf, Advance(n, rd, k), wr)[j] == Pending(buf, rd, wr)[k..][j]
    {
      PendingAt(buf, Advance(n, rd, k), wr, j);
      PendingAt(buf, rd, wr, k + j);
      AdvanceTwice(n, rd, k, j);
    }
  }

  lemma {:induction false} WrittenSplit(buf: seq<Byte>, wr: nat, a: seq<Byte>, b: seq<Byte>)
    requires wr < |buf| && |a| + |b| < |buf|
    ensures Written(Written(buf, wr, a), Advance(|buf|, wr, |a|), b) == Written(buf, wr, a + b)
  {
    hide Written;
    var n := |buf|;
    var x, y := Written(Written(buf, wr, a), Advance(n, wr, |a|), b), Written(buf, wr, a + b);
    forall i | 0 <= i < n ensures x[i] == y[i] {
      var k := Used(n, wr, i);
      WrittenAt(buf, wr, a + b, k);
      WrittenAt(buf, wr, a, k);
      var at := Advance(n, wr, |a|);
      if |a| <= k {
        AdvanceTwice(n, wr, |a|, k - |a|);
        WrittenAt(Written(buf, wr, a), at, b, k - |a|);
      } else {
        AdvanceTwice(n, at, n - |a|, k);
        AdvanceTwice(n, wr, |a|, n - |a|);
        WrittenAt(Written(buf, wr, a), at, b, n - |a| + k);
      }
    }
  }

  function MinNat(a: nat, b: nat): nat { if a < b then a else b }

  /** The reader's two stretches are the first `size` unread bytes, and where they end. */
  lemma TwoStretches(buf: seq<Byte>, rd: nat, wr: nat, size: nat, n: nat, at: nat, m: nat)
    requires rd < |buf| && wr < |buf|
    requires n == (if rd > wr then MinNat(|buf| - rd, size) else 0) && at == Advance(|buf|, rd, n)
    requires m == if at <= wr then MinNat(wr - at, size - n) else 0
    ensures rd + n <= |buf| && at + m <= |buf|
    ensures n + m == MinNat(Used(|buf|, rd, wr), size)
    ensures n + m > 0 ==> at + m == Advance(|buf|, rd, n + m)
    ensures buf[rd..rd + n] + buf[at..at + m] == Pending(buf, rd, wr)[..n + m]
  {
  }

  /** A block that fills the buffer to its end leaves the writer at the start. */
  lemma WrittenToEnd(buf: seq<Byte>, wr: nat, data: seq<Byte>)
    requires wr < |buf| && |data| < |buf| && wr + |data| == |buf|
    ensures Written(buf, wr, data) == buf[..wr] + data && Advance(|buf|, wr, |data|) == 0
  {
  }

  lemma WrittenWrapped(buf: seq<Byte>, wr: nat, data: seq<Byte>)
    requires wr < |buf| && |data| < |buf| && wr + |data| >= |buf|
    ensures var rem := |buf| - wr;
      var mid := buf[..wr] + data[..rem];
      Written(buf, wr, data) == data[rem..] + mid[|data| - rem..]
  {
  }
}
