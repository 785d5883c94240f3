/**
 What the sender has stored, over whole runs: the stream of stored bytes reads back as the stored
 packets, the time differences add up, and every gap is announced.
 */
module SysViewStream {
  import opened RttRing
  import opened SysViewCode

  const OVERFLOW: nat := 1
  const TRACE_STOP: nat := 11

  /** What became of an attempt to send. One that finds no room is lost, also when its event is
      masked (`ignored`). A start of the recording is noted as well. */
  datatype Entry = Stored(packet: Packet, time: Word) | Lost(id: nat, ignored: bool) | Started

  /** `_SYSVIEW_Globals` as far as sending uses it, and what became of every attempt to send. */
  datatype Sender = Sender(
    enable: nat,           // 0: off, 1: on, 2: dropping
    lastTx: Word,
    dropCount: Word,
    disabled: bv32,
    history: seq<Entry>)

  function Bit(id: nat): bv32
    requires id < 32
  {
    1 << id
  }

  predicate Has(mask: bv32, bit: bv32) {
    mask & bit != 0
  }

  predicate Masked(mask: bv32, id: nat) {
    id < 32 && Has(mask, Bit(id))
  }

  function Delta(time: Word, last: Word): Word {
    (time - last) % WORD
  }

  function OverflowPacket(s: Sender, time: Word): Packet {
    Packet(OVERFLOW, Fields([NumOf(s.dropCount)]), Delta(time, s.lastTx))
  }

  /** `_TrySendOverflowPacket`; `space` is what the ring can take at that moment. */
  function TryOverflow(s: Sender, id: nat, time: Word, space: nat): Sender {
    var p := OverflowPacket(s, time);
    if |Encode(p)| <= space then
      s.(lastTx := time, enable := 1, history := s.history + [Stored(p, time)])
    else
      s.(dropCount := (s.dropCount + 1) % WORD, history := s.history + [Lost(id, Masked(s.disabled, id))])
  }

  function TryPacket(s: Sender, id: nat, body: Body, time: Word, space: nat): Sender {
    var p := Packet(id, body, Delta(time, s.lastTx));
    if |Encode(p)| <= space then s.(lastTx := time, history := s.history + [Stored(p, time)])
    else s.(enable := 2, history := s.history + [Lost(id, Masked(s.disabled, id))])
  }

  /** One call of `_SendPacket`, with the clock and the ring's free space at its two stores. */
  datatype Attempt = Attempt(id: nat, body: Body, time0: Word, space0: nat, time1: Word, space1: nat)

  function Send(s: Sender, a: Attempt): Sender {
    if s.enable == 0 then s
    else
      var t := if s.enable == 2 then TryOverflow(s, a.id, a.time0, a.space0) else s;
      if t.enable != 1 || Masked(t.disabled, a.id) then t
      else TryPacket(t, a.id, a.body, a.time1, a.space1)
  }

  datatype Action =
    | Start(again: bool, space: nat)    // `again`: a recording that is on may be started again
    | Record(attempt: Attempt)
    | Stop(attempt: Attempt)
    | Mask(disabled: bv32)              // events are enabled or disabled

  predicate Allowed(a: Action) {
    match a
    case Record(attempt) => Sendable(attempt.id, attempt.body)
    case Stop(attempt) => Sendable(attempt.id, attempt.body) && attempt.id == TRACE_STOP
    case _ => true
  }

  /** The dummy event, which the ten zero bytes of the sync packet hold five times. */
  const Nop: Packet := Packet(0, Fields([]), 0)

  function Nops(n: nat, time: Word): (r: seq<Entry>)
    ensures |r| == n && forall k :: 0 <= k < n ==> r[k] == Stored(Nop, time)
  {
    seq(n, _ => Stored(Nop, time))
  }

  /** `SEGGER_SYSVIEW_Start` up to its sync packet; the events after it are ordinary ones. */
  function Begin(s: Sender, again: bool, space: nat): Sender {
    if s.enable != 0 && !again then s
    else
      s.(enable := 1, history := s.history + [Started] + Nops(if 10 <= space then 5 else 0, s.lastTx))
  }

  /** `SEGGER_SYSVIEW_Stop` sends its last event and then turns recording off. */
  function Do(s: Sender, a: Action): Sender {
    match a
    case Start(again, space) => Begin(s, again, space)
    case Record(attempt) => Send(s, attempt)
    case Stop(attempt) => if s.enable != 0 then Send(s, attempt).(enable := 0) else s
    case Mask(disabled) => s.(disabled := disabled)
  }

  function Run(s: Sender, actions: seq<Action>): Sender {
    if actions == [] then s
    else Do(Run(s, actions[..|actions| - 1]), actions[|actions| - 1])
  }

  /** After the initialisation: recording is off. */
  function Fresh(now: Word, disabled: bv32): Sender {
    Sender(0, now, 0, disabled, [])
  }

  // ---- What the history says ----

  function Packets(h: seq<Entry>): seq<Packet> {
    if h == [] then []
    else
      var before, e := Packets(h[..|h| - 1]), h[|h| - 1];
      if e.Stored? then before + [e.packet] else before
  }

  function SendTimes(h: seq<Entry>): seq<Word> {
    if h == [] then []
    else
      var before, e := SendTimes(h[..|h| - 1]), h[|h| - 1];
      if e.Stored? then before + [e.time] else before
  }

  /** Every byte stored so far. */
  function Stream(h: seq<Entry>): seq<Byte> {
    if h == [] then []
    else
      var before, e := Stream(h[..|h| - 1]), h[|h| - 1];
      if e.Stored? then before + Encode(e.packet) else before
  }

  /** The attempts that found no room: the packets that were dropped, and the masked events. */
  function LostCount(h: seq<Entry>): nat {
    if h == [] then 0
    else LostCount(h[..|h| - 1]) + if h[|h| - 1].Lost? then 1 else 0
  }

  /** The packets that were dropped: their events were to be recorded. */
  function Dropped(h: seq<Entry>): nat {
    if h == [] then 0
    else Dropped(h[..|h| - 1]) + if h[|h| - 1].Lost? && !h[|h| - 1].ignored then 1 else 0
  }

  function Ignored(h: seq<Entry>): nat {
    if h == [] then 0
    else Ignored(h[..|h| - 1]) + if h[|h| - 1].Lost? && h[|h| - 1].ignored then 1 else 0
  }

  lemma {:induction false} LostAreBoth(h: seq<Entry>)
    ensures LostCount(h) == Dropped(h) + Ignored(h)
  {
    if h != [] {
      LostAreBoth(h[..|h| - 1]);
    }
  }

  /** The number of unbroken stretches of losses. */
  function Gaps(h: seq<Entry>): nat {
    if h == [] then 0
    else
      var n := |h| - 1;
      Gaps(h[..n]) + if h[n].Lost? && (n == 0 || !h[n - 1].Lost?) then 1 else 0
  }

  /** The host's clock: the first time, and then one difference per packet. */
  function Clock(start: Word, packets: seq<Packet>): (r: seq<Word>)
    ensures |r| == |packets|
  {
    if packets == [] then []
    else
      var n := |packets| - 1;
      var before := Clock(start, packets[..n]);
      before + [((if n == 0 then start else before[n - 1]) + packets[n].delta) % WORD]
  }

  /** The host's reading of a byte stream, packet after packet, as far as it goes. */
  function ReadAll(s: seq<Byte>): seq<Packet>
    decreases |s|
  {
    var first := Decode(s);
    if first.Got? then [first.value] + ReadAll(first.rest) else []
  }

  // ---- Reading back ----

  ghost predicate AllSendable(h: seq<Entry>) {
    forall k :: 0 <= k < |h| && h[k].Stored? ==> Sendable(h[k].packet.id, h[k].packet.body)
  }

  lemma {:induction false} ReadStream(h: seq<Entry>, rest: seq<Byte>)
    requires AllSendable(h)
    ensures ReadAll(Stream(h) + rest) == Packets(h) + ReadAll(rest)
  {
    hide Encode, Decode, Sendable;
    if h == [] {
      assert Stream(h) + rest == rest;
    } else {
      var before, e := h[..|h| - 1], h[|h| - 1];
      if e.Stored? {
        var more := Encode(e.packet) + rest;
        PacketRoundTrip(e.packet, rest);
        assert ReadAll(more) == [e.packet] + ReadAll(rest);
        ReadStream(before, more);
        assert Stream(h) + rest == Stream(before) + more;
      } else {
        ReadStream(before, rest);
      }
    }
  }

  /** Whatever has reached the host so far reads as the first packets of the whole. */
  lemma {:induction false} ReadPrefix(a: seq<Byte>, b: seq<Byte>)
    ensures ReadAll(a) <= ReadAll(a + b)
    decreases |a|
  {
    hide Decode;
    var first := Decode(a);
    if first.Got? {
      DecodeExtends(a, b);
      ReadPrefix(first.rest, b);
    }
  }

  // ---- Runs ----

  /** Holds in every state of every run that starts with the clock at `start`. */
  ghost predicate Inv(start: Word, s: Sender) {
    s.enable <= 2 && AllSendable(s.history) && TimesAgree(start, s) && LossesAgree(s)
  }

  ghost predicate TimesAgree(start: Word, s: Sender) {
    && SendTimes(s.history) == Clock(start, Packets(s.history))
    && s.lastTx == LastOf(start, SendTimes(s.history))
  }

  ghost predicate LossesAgree(s: Sender) {
    && (s.enable == 2 ==> EndsInLoss(s.history))
    && (s.enable == 1 ==> !EndsInLoss(s.history))
    && GapsAnnounced(s.history)
    && (s.dropCount + Gaps(s.history)) % WORD == LostCount(s.history) % WORD
  }

  function LastOf(start: Word, times: seq<Word>): Word {
    if times == [] then start else times[|times| - 1]
  }

  predicate EndsInLoss(h: seq<Entry>) {
    h != [] && h[|h| - 1].Lost?
  }

  /** Entry `k` is an overflow packet; with one added for each gap it carries the number of losses. */
  predicate NoticeAt(h: seq<Entry>, k: nat)
    requires k < |h| && h[k].Stored?
  {
    var p := h[k].packet;
    && p.id == OVERFLOW && p.body.Fields? && |p.body.values| == 1 && p.body.values[0].NumOf?
    && (p.body.values[0].n + Gaps(h[..k])) % WORD == LostCount(h[..k]) % WORD
  }

  /** The packet stored after a loss is the overflow notice. */
  ghost predicate GapsAnnounced(h: seq<Entry>) {
    forall k :: 0 < k < |h| && h[k - 1].Lost? && h[k].Stored? ==> NoticeAt(h, k)
  }

  lemma AnnouncedAppend(h: seq<Entry>, e: Entry)
    requires GapsAnnounced(h) && (EndsInLoss(h) && e.Stored? ==> NoticeAt(h + [e], |h|))
    ensures GapsAnnounced(h + [e])
  {
    var next := h + [e];
    forall k | 0 < k < |next| && next[k - 1].Lost? && next[k].Stored? ensures NoticeAt(next, k) {
      if k < |h| {
        assert next[..k] == h[..k] && NoticeAt(h, k);
      }
    }
  }

  lemma DeltaReaches(time: Word, last: Word)
    ensures (last + Delta(time, last)) % WORD == time
  {
  }

  lemma ClockAppend(start: Word, ps: seq<Packet>, p: Packet)
    ensures Clock(start, ps + [p]) == Clock(start, ps) + [(LastOf(start, Clock(start, ps)) + p.delta) % WORD]
  {
    assert (ps + [p])[..|ps|] == ps;
  }

  lemma TimeAppend(h: seq<Entry>, p: Packet, time: Word)
    ensures SendTimes(h + [Stored(p, time)]) == SendTimes(h) + [time]
    ensures Packets(h + [Stored(p, time)]) == Packets(h) + [p]
  {
    assert (h + [Stored(p, time)])[..|h|] == h;
  }

  lemma StoreKeepsTime(start: Word, s: Sender, p: Packet, time: Word)
    requires TimesAgree(start, s) && p.delta == Delta(time, s.lastTx)
    ensures TimesAgree(start, s.(lastTx := time, enable := 1, history := s.history + [Stored(p, time)]))
  {
    hide Clock, SendTimes, Packets, Delta;
    TimeAppend(s.history, p, time);
    ClockAppend(start, Packets(s.history), p);
    DeltaReaches(time, s.lastTx);
  }

  lemma StoreKeepsLosses(s: Sender, p: Packet, time: Word)
    requires LossesAgree(s) && (s.enable == 1 || s.enable == 2) && (s.enable == 2 ==> p == OverflowPacket(s, time))
    ensures LossesAgree(s.(lastTx := time, enable := 1, history := s.history + [Stored(p, time)]))
  {
    var h, next := s.history, s.history + [Stored(p, time)];
    assert next[..|h|] == h;
    AnnouncedAppend(h, Stored(p, time));
  }

  lemma StoreKeeps(start: Word, s: Sender, p: Packet, time: Word, t: Sender)
    requires Inv(start, s) && Sendable(p.id, p.body) && p.delta == Delta(time, s.lastTx)
    requires (s.enable == 1 || s.enable == 2) && (s.enable == 2 ==> p == OverflowPacket(s, time))
    requires t == s.(lastTx := time, enable := 1, history := s.history + [Stored(p, time)])
    ensures Inv(start, t)
  {
    hide Sendable, TimesAgree, LossesAgree;
    StoreKeepsTime(start, s, p, time);
    StoreKeepsLosses(s, p, time);
  }

  /** An entry that is no packet leaves the times alone. */
  lemma NoteKeepsTime(start: Word, s: Sender, e: Entry, t: Sender)
    requires TimesAgree(start, s) && !e.Stored? && t.lastTx == s.lastTx && t.history == s.history + [e]
    ensures TimesAgree(start, t)
  {
    assert t.history[..|s.history|] == s.history;
  }

  lemma LossKeeps(start: Word, s: Sender, e: Entry, t: Sender)
    requires Inv(start, s) && s.enable != 0 && e.Lost?
    requires t == s.(enable := 2, history := s.history + [e],
                     dropCount := if s.enable == 1 then s.dropCount else (s.dropCount + 1) % WORD)
    ensures Inv(start, t)
  {
    hide Sendable, TimesAgree;
    var h := s.history;
    assert t.history[..|h|] == h;
    NoteKeepsTime(start, s, e, t);
    AnnouncedAppend(h, e);
    OneMore(s.dropCount, Gaps(h), LostCount(h));
    assert LostCount(t.history) == LostCount(h) + 1;
    assert Gaps(t.history) == Gaps(h) + if s.enable == 1 then 1 else 0;
  }

  lemma OneMore(d: Word, g: nat, l: nat)
    requires (d + g) % WORD == l % WORD
    ensures (d + (g + 1)) % WORD == (l + 1) % WORD
    ensures ((d + 1) % WORD + g) % WORD == (l + 1) % WORD
  {
    NextMod(d + g);
    NextMod(l);
    assert d + g + 1 == d + (g + 1);
    if d == WORD - 1 {
      assert (d + g + 1) % WORD == g % WORD;
    } else {
      assert (d + 1) % WORD + g == d + g + 1;
    }
  }

  lemma NextMod(x: nat)
    ensures (x + 1) % WORD == if x % WORD == WORD - 1 then 0 else x % WORD + 1
  {
  }

  lemma StopKeeps(start: Word, s: Sender)
    requires Inv(start, s)
    ensures Inv(start, s.(enable := 0))
  {
  }

  lemma SendKeeps(start: Word, s: Sender, a: Attempt)
    requires Inv(start, s) && Sendable(a.id, a.body)
    ensures Inv(start, Send(s, a))
  {
    hide Inv;
    if s.enable != 0 {
      Bounded(start, s);
      var t := s;
      if s.enable == 2 {
        t := TryOverflow(s, a.id, a.time0, a.space0);
        var p := OverflowPacket(s, a.time0);
        if |Encode(p)| <= a.space0 {
          StoreKeeps(start, s, p, a.time0, t);
        } else {
          LossKeeps(start, s, Lost(a.id, Masked(s.disabled, a.id)), t);
        }
      }
      if t.enable == 1 && !Masked(t.disabled, a.id) {
        var u := TryPacket(t, a.id, a.body, a.time1, a.space1);
        var p := Packet(a.id, a.body, Delta(a.time1, t.lastTx));
        if |Encode(p)| <= a.space1 {
          StoreKeeps(start, t, p, a.time1, u);
        } else {
          LossKeeps(start, t, Lost(a.id, Masked(t.disabled, a.id)), u);
        }
      }
    }
  }

  lemma Bounded(start: Word, s: Sender)
    requires Inv(start, s)
    ensures s.enable <= 2
  {
  }

  lemma MaskKeeps(start: Word, s: Sender, disabled: bv32)
    requires Inv(start, s)
    ensures Inv(start, s.(disabled := disabled))
  {
  }

  lemma MarkCounts(h: seq<Entry>)
    ensures Gaps(h + [Started]) == Gaps(h) && LostCount(h + [Started]) == LostCount(h)
  {
    assert (h + [Started])[..|h|] == h;
  }

  lemma MarkKeeps(start: Word, s: Sender)
    requires Inv(start, s)
    ensures Inv(start, s.(enable := 1, history := s.history + [Started]))
  {
    hide Sendable, TimesAgree, GapsAnnounced, Gaps, LostCount;
    MarkCounts(s.history);
    NoteKeepsTime(start, s, Started, s.(enable := 1, history := s.history + [Started]));
    AnnouncedAppend(s.history, Started);
  }

  lemma {:induction false} NopsKeep(start: Word, s: Sender, n: nat) returns (t: Sender)
    requires Inv(start, s) && s.enable == 1
    ensures t == s.(history := s.history + Nops(n, s.lastTx)) && Inv(start, t)
  {
    hide Inv;
    if n == 0 {
      t := s;
      assert s.history + Nops(0, s.lastTx) == s.history;
    } else {
      var u := NopsKeep(start, s, n - 1);
      t := u.(lastTx := s.lastTx, enable := 1, history := u.history + [Stored(Nop, s.lastTx)]);
      StoreKeeps(start, u, Nop, s.lastTx, t);
      assert t.history == s.history + Nops(n, s.lastTx);
    }
  }

  lemma BeginKeeps(start: Word, s: Sender, again: bool, space: nat)
    requires Inv(start, s)
    ensures Inv(start, Begin(s, again, space))
  {
    hide Inv;
    if s.enable == 0 || again {
      var u := s.(enable := 1, history := s.history + [Started]);
      MarkKeeps(start, s);
      var n := if 10 <= space then 5 else 0;
      var t := NopsKeep(start, u, n);
      assert t.history == Begin(s, again, space).history;
    }
  }

  /** Two zero bytes a dummy event: the ten of the sync packet are five of them. */
  lemma {:induction false} SyncIsNops(h: seq<Entry>, time: Word, n: nat)
    ensures Stream(h + Nops(n, time)) == Stream(h) + seq(2 * n, _ => 0)
  {
    if n == 0 {
      assert h + Nops(0, time) == h;
      assert Stream(h) + seq(0, _ => 0) == Stream(h);
    } else {
      hide Stream, Encode;
      var e := Stored(Nop, time);
      var fewer := Nops(n - 1, time);
      SyncIsNops(h, time, n - 1);
      StreamAppend(h + fewer, e);
      NopBytes();
      OneMoreEntry(h, time, n);
      var zeros: seq<Byte> := seq(2 * (n - 1), _ => 0);
      TwoMoreBytes(Stream(h), zeros, n);
    }
  }

  lemma OneMoreEntry(h: seq<Entry>, time: Word, n: nat)
    requires n > 0
    ensures h + Nops(n, time) == h + Nops(n - 1, time) + [Stored(Nop, time)]
  {
  }

  lemma TwoMoreBytes(b: seq<Byte>, zeros: seq<Byte>, n: nat)
    requires n > 0 && zeros == seq(2 * (n - 1), _ => 0)
    ensures b + zeros + [0, 0] == b + seq(2 * n, _ => 0)
  {
  }

  lemma NopBytes()
    ensures Encode(Nop) == [0, 0]
  {
    assert EncodeValues([]) == [];
  }

  lemma StreamAppend(h: seq<Entry>, e: Entry)
    ensures Stream(h + [e]) == if e.Stored? then Stream(h) + Encode(e.packet) else Stream(h)
  {
    assert (h + [e])[..|h|] == h;
  }

  lemma DoKeeps(start: Word, s: Sender, a: Action)
    requires Inv(start, s) && Allowed(a)
    ensures Inv(start, Do(s, a))
  {
    hide Inv, Send, Sendable, Begin;
    match a
    case Start(again, space) => BeginKeeps(start, s, again, space);
    case Record(attempt) => SendKeeps(start, s, attempt);
    case Stop(attempt) =>
      SendKeeps(start, s, attempt);
      StopKeeps(start, Send(s, attempt));
    case Mask(disabled) => MaskKeeps(start, s, disabled);
  }

  lemma {:induction false} RunKeeps(start: Word, disabled: bv32, actions: seq<Action>)
    requires forall k :: 0 <= k < |actions| ==> Allowed(actions[k])
    ensures Inv(start, Run(Fresh(start, disabled), actions))
  {
    hide Allowed, Do;
    if actions != [] {
      var n := |actions| - 1;
      RunKeeps(start, disabled, actions[..n]);
      DoKeeps(start, Run(Fresh(start, disabled), actions[..n]), actions[n]);
    }
  }

  lemma {:induction false} ClockPrefix(start: Word, ps: seq<Packet>, n: nat)
    requires n <= |ps|
    ensures Clock(start, ps[..n]) == Clock(start, ps)[..n]
  {
    if n < |ps| {
      var before := ps[..|ps| - 1];
      ClockPrefix(start, before, n);
      assert before[..n] == ps[..n];
    } else {
      assert ps[..n] == ps;
    }
  }

  lemma ReceivedReadsBack(start: Word, s: Sender, received: seq<Byte>, waiting: seq<Byte>)
    requires Inv(start, s) && received + waiting == Stream(s.history)
    ensures ReadAll(Stream(s.history)) == Packets(s.history)
    ensures ReadAll(received) <= Packets(s.history)
    ensures Clock(start, ReadAll(received)) <= SendTimes(s.history)
  {
    hide Decode, Clock, LossesAgree, Packets, SendTimes, Stream;
    var h := s.history;
    ReadStream(h, []);
    assert Stream(h) + [] == Stream(h);
    assert Packets(h) + ReadAll([]) == Packets(h);
    ReadPrefix(received, waiting);
    var n := |ReadAll(received)|;
    ClockPrefix(start, Packets(h), n);
    assert ReadAll(received) == Packets(h)[..n];
  }

  /**
   The round trip over whole runs: the stored bytes read back as the stored packets, the host's
   running clock shows each packet's send time, losses or not, and what the host has received
   so far reads as the first of them.
   */
  lemma StreamReadsBack(start: Word, disabled: bv32, actions: seq<Action>, received: seq<Byte>, waiting: seq<Byte>)
    requires forall k :: 0 <= k < |actions| ==> Allowed(actions[k])
    requires received + waiting == Stream(Run(Fresh(start, disabled), actions).history)
    ensures var h := Run(Fresh(start, disabled), actions).history;
      && ReadAll(Stream(h)) == Packets(h)
      && Clock(start, ReadAll(Stream(h))) == SendTimes(h)
      && ReadAll(received) <= Packets(h)
      && Clock(start, ReadAll(received)) <= SendTimes(h)
  {
    hide Run, ReadAll, Packets, SendTimes, Stream;
    RunKeeps(start, disabled, actions);
    ReceivedReadsBack(start, Run(Fresh(start, disabled), actions), received, waiting);
  }

  /**
   The packet stored right after a loss is an overflow packet. The count, in the sender and in every
   such packet, is the number of attempts that found no room less one for every gap; only a start
   of the recording can keep a gap from being announced.
   */
  lemma GapsAreAnnounced(start: Word, disabled: bv32, actions: seq<Action>)
    requires forall k :: 0 <= k < |actions| ==> Allowed(actions[k])
    ensures var s := Run(Fresh(start, disabled), actions);
      && GapsAnnounced(s.history)
      && s.dropCount == (Dropped(s.history) + Ignored(s.history) - Gaps(s.history)) % WORD
  {
    hide Run, Gaps, LostCount, Dropped, Ignored, GapsAnnounced, TimesAgree, AllSendable;
    RunKeeps(start, disabled, actions);
    var s := Run(Fresh(start, disabled), actions);
    LostAreBoth(s.history);
    Difference(s.dropCount, Gaps(s.history), Dropped(s.history), Ignored(s.history));
  }

  /** So the count of dropped packets is right exactly when the gaps, each of which it leaves out,
      and the masked events, each of which it takes in, are equally many modulo 2^32. */
  lemma DropCountIsShort(start: Word, disabled: bv32, actions: seq<Action>)
    requires forall k :: 0 <= k < |actions| ==> Allowed(actions[k])
    ensures var s := Run(Fresh(start, disabled), actions);
      s.dropCount == Dropped(s.history) % WORD <==> Gaps(s.history) % WORD == Ignored(s.history) % WORD
  {
    hide Run, Gaps, LostCount, Dropped, Ignored, GapsAnnounced, TimesAgree, AllSendable;
    RunKeeps(start, disabled, actions);
    var s := Run(Fresh(start, disabled), actions);
    LostAreBoth(s.history);
    Difference(s.dropCount, Gaps(s.history), Dropped(s.history), Ignored(s.history));
  }

  /** The same of what an overflow packet carries. */
  lemma NoticeIsShort(start: Word, disabled: bv32, actions: seq<Action>, k: nat)
    requires forall j :: 0 <= j < |actions| ==> Allowed(actions[j])
    requires var h := Run(Fresh(start, disabled), actions).history;
      0 < k < |h| && h[k - 1].Lost? && h[k].Stored?
    ensures var h := Run(Fresh(start, disabled), actions).history; var p := h[k].packet;
      && p.id == OVERFLOW && p.body.Fields? && |p.body.values| == 1 && p.body.values[0].NumOf?
      && (p.body.values[0].n == Dropped(h[..k]) % WORD <==> Gaps(h[..k]) % WORD == Ignored(h[..k]) % WORD)
  {
    hide Run, Gaps, LostCount, Dropped, Ignored, TimesAgree, AllSendable;
    RunKeeps(start, disabled, actions);
    var h := Run(Fresh(start, disabled), actions).history;
    assert NoticeAt(h, k);
    LostAreBoth(h[..k]);
    Difference(h[k].packet.body.values[0].n, Gaps(h[..k]), Dropped(h[..k]), Ignored(h[..k]));
  }

  lemma SameMod(a: int, b: int, k: int)
    requires a - b == WORD * k
    ensures a % WORD == b % WORD
  {
  }

  lemma Difference(d: Word, g: nat, dropped: nat, ignored: nat)
    requires (d + g) % WORD == (dropped + ignored) % WORD
    ensures d == (dropped + ignored - g) % WORD
    ensures d == dropped % WORD <==> g % WORD == ignored % WORD
  {
    var q := (d + g) / WORD - (dropped + ignored) / WORD;
    assert d + g - (dropped + ignored) == WORD * q;
    SameMod(d, dropped + ignored - g, q);
    if d == dropped % WORD {
      SameMod(g, ignored, q + dropped / WORD);
    }
    if g % WORD == ignored % WORD {
      SameMod(d, dropped, q - (g / WORD - ignored / WORD));
    }
  }

  // ---- what becomes of one event ---------------------------------------------------------------

  lemma PacketsAppend(h: seq<Entry>, e: Entry)
    ensures Packets(h + [e]) == Packets(h) + if e.Stored? then [e.packet] else []
    ensures Dropped(h + [e]) == Dropped(h) + if e.Lost? && !e.ignored then 1 else 0
  {
    assert (h + [e])[..|h|] == h;
  }

  /** The overflow packet is due and there is room for it. */
  predicate Notifies(s: Sender, a: Attempt) {
    s.enable == 2 && |Encode(OverflowPacket(s, a.time0))| <= a.space0
  }

  /** The packet of the event itself, behind the overflow packet if there is one. */
  function EventPacket(s: Sender, a: Attempt): Packet {
    Packet(a.id, a.body, Delta(a.time1, if Notifies(s, a) then a.time0 else s.lastTx))
  }

  /** The event is stored: recording is on (again), its id is not masked, and there is room. */
  predicate Records(s: Sender, a: Attempt) {
    && (s.enable == 1 || Notifies(s, a)) && !Masked(s.disabled, a.id)
    && |Encode(EventPacket(s, a))| <= a.space1
  }

  lemma NoticeExactly(s: Sender, a: Attempt)
    requires s.enable == 2
    ensures var t := TryOverflow(s, a.id, a.time0, a.space0); var full := !Notifies(s, a) && !Masked(s.disabled, a.id);
      && Packets(t.history) == Packets(s.history) + (if Notifies(s, a) then [OverflowPacket(s, a.time0)] else [])
      && Dropped(t.history) == Dropped(s.history) + (if full then 1 else 0)
      && t.enable == (if Notifies(s, a) then 1 else 2) && t.disabled == s.disabled
      && t.lastTx == if Notifies(s, a) then a.time0 else s.lastTx
  {
    hide Encode, Packets, Dropped, Masked;
    var t := TryOverflow(s, a.id, a.time0, a.space0);
    PacketsAppend(s.history, t.history[|s.history|]);
  }

  lemma PacketExactly(t: Sender, id: nat, body: Body, time: Word, space: nat)
    requires !Masked(t.disabled, id)
    ensures var p := Packet(id, body, Delta(time, t.lastTx)); var r := TryPacket(t, id, body, time, space);
      && Packets(r.history) == Packets(t.history) + (if |Encode(p)| <= space then [p] else [])
      && Dropped(r.history) == Dropped(t.history) + (if |Encode(p)| <= space then 0 else 1)
  {
    hide Encode, Packets, Dropped, Masked;
    var r := TryPacket(t, id, body, time, space);
    PacketsAppend(t.history, r.history[|t.history|]);
  }

  /** Recording is on and the event is not masked. */
  predicate Wanted(s: Sender, a: Attempt) {
    s.enable != 0 && !Masked(s.disabled, a.id)
  }

  /**
   What one event adds to the stored packets, exactly: a masked one nothing but an overflow packet
   that was due, any other its own packet when there is room. An event that is to be recorded is
   stored or dropped, and no other counts as dropped.
   */
  lemma SendExactly(s: Sender, a: Attempt)
    requires s.enable <= 2
    ensures var r := Send(s, a);
      && Packets(r.history) == Packets(s.history)
           + (if Notifies(s, a) then [OverflowPacket(s, a.time0)] else [])
           + (if Records(s, a) then [EventPacket(s, a)] else [])
      && Dropped(r.history) == Dropped(s.history) + (if Wanted(s, a) && !Records(s, a) then 1 else 0)
      && (s.enable == 0 ==> r == s)
  {
    hide Encode, Packets, Dropped, Masked, TryOverflow, TryPacket;
    if s.enable == 2 {
      NoticeExactly(s, a);
    }
    var t := if s.enable == 2 then TryOverflow(s, a.id, a.time0, a.space0) else s;
    if t.enable == 1 && !Masked(t.disabled, a.id) {
      PacketExactly(t, a.id, a.body, a.time1, a.space1);
    }
  }

  /** A call of the recorder that raises an event. */
  predicate Raises(a: Action) { a.Record? || a.Stop? }

  function CountWanted(s: Sender, actions: seq<Action>): nat {
    if actions == [] then 0
    else
      var front, a := actions[..|actions| - 1], actions[|actions| - 1];
      CountWanted(s, front) + if Raises(a) && Wanted(Run(s, front), a.attempt) then 1 else 0
  }

  function CountRecorded(s: Sender, actions: seq<Action>): nat {
    if actions == [] then 0
    else
      var front, a := actions[..|actions| - 1], actions[|actions| - 1];
      CountRecorded(s, front) + if Raises(a) && Records(Run(s, front), a.attempt) then 1 else 0
  }

  function Dummies(n: nat): seq<Packet> {
    seq(n, _ => Nop)
  }

  lemma OneMoreDummy(ps: seq<Packet>, n: nat)
    requires n > 0
    ensures ps + Dummies(n - 1) + [Nop] == ps + Dummies(n)
  {
  }

  lemma {:induction false} NopsAdd(h: seq<Entry>, n: nat, time: Word)
    ensures Packets(h + Nops(n, time)) == Packets(h) + Dummies(n)
    ensures Dropped(h + Nops(n, time)) == Dropped(h)
  {
    if n == 0 {
      assert h + Nops(0, time) == h;
      assert Packets(h) + Dummies(0) == Packets(h);
    } else {
      hide Packets, Dropped, Dummies, Nops;
      NopsAdd(h, n - 1, time);
      OneMoreEntry(h, time, n);
      PacketsAppend(h + Nops(n - 1, time), Stored(Nop, time));
      OneMoreDummy(Packets(h), n);
    }
  }

  /** What a start stores: five dummy events, which are the ten zero bytes, or nothing. */
  lemma BeginExactly(s: Sender, again: bool, space: nat)
    requires s.enable == 0 || again
    ensures var r := Begin(s, again, space); var n := if 10 <= space then 5 else 0;
      && r.enable == 1 && r.lastTx == s.lastTx && r.disabled == s.disabled && r.dropCount == s.dropCount
      && Packets(r.history) == Packets(s.history) + Dummies(n)
      && Stream(r.history) == Stream(s.history) + seq(2 * n, _ => 0)
      && Dropped(r.history) == Dropped(s.history)
  {
    hide Packets, Dropped, Stream;
    var n := if 10 <= space then 5 else 0;
    PacketsAppend(s.history, Started);
    StreamAppend(s.history, Started);
    NopsAdd(s.history + [Started], n, s.lastTx);
    SyncIsNops(s.history + [Started], s.lastTx, n);
  }

  /** A stop raises its event like any other one, and afterwards nothing is recorded. */
  lemma StopExactly(s: Sender, stop: Attempt, a: Attempt)
    requires s.enable <= 2
    ensures var r := Do(s, Stop(stop));
      && r.enable == 0 && r.history == Send(s, stop).history && Do(r, Record(a)) == r
  {
  }

  lemma DoDrops(s: Sender, a: Action)
    requires s.enable <= 2
    ensures Dropped(Do(s, a).history) == Dropped(s.history)
              + (if Raises(a) && Wanted(s, a.attempt) && !Records(s, a.attempt) then 1 else 0)
  {
    hide Send, Begin, Dropped, Packets, Wanted, Records, Notifies, EventPacket, Encode;
    match a
    case Start(again, space) =>
      if s.enable == 0 || again { BeginExactly(s, again, space); } else { BeginNothing(s, space); }
    case Record(attempt) => SendExactly(s, attempt);
    case Stop(attempt) =>
      SendExactly(s, attempt);
      if s.enable == 0 { OffWantsNothing(s, attempt); }
    case Mask(disabled) =>
  }

  lemma BeginNothing(s: Sender, space: nat)
    requires s.enable != 0
    ensures Begin(s, false, space) == s
  {
  }

  lemma OffWantsNothing(s: Sender, a: Attempt)
    requires s.enable == 0
    ensures !Wanted(s, a)
  {
  }

  /** Over every run each event that is to be recorded is stored or dropped, one by one. */
  lemma {:induction false} EventsAreConserved(start: Word, disabled: bv32, actions: seq<Action>)
    requires forall k :: 0 <= k < |actions| ==> Allowed(actions[k])
    ensures var s := Fresh(start, disabled);
      CountWanted(s, actions) == CountRecorded(s, actions) + Dropped(Run(s, actions).history)
  {
    hide Do, Wanted, Records, Allowed, Inv;
    if actions != [] {
      var front, a := actions[..|actions| - 1], actions[|actions| - 1];
      EventsAreConserved(start, disabled, front);
      RunKeeps(start, disabled, front);
      var s := Run(Fresh(start, disabled), front);
      assert s.enable <= 2 by { EnableInRange(start, s); }
      DoDrops(s, a);
      RecordsWanted(s, a);
    }
  }

  lemma EnableInRange(start: Word, s: Sender)
    requires Inv(start, s)
    ensures s.enable <= 2
  {
  }

  lemma RecordsWanted(s: Sender, a: Action)
    ensures Raises(a) && Records(s, a.attempt) ==> Wanted(s, a.attempt)
  {
  }

  /** An id that is masked all the time: the recording holds no packet with it. */
  lemma {:induction false} MaskedStayOut(start: Word, disabled: bv32, actions: seq<Action>, id: nat)
    requires forall k :: 0 <= k < |actions| ==> Allowed(actions[k])
    requires Masked(disabled, id) && id != OVERFLOW && id != Nop.id
    requires forall k :: 0 <= k < |actions| && actions[k].Mask? ==> Masked(actions[k].disabled, id)
    ensures var s := Run(Fresh(start, disabled), actions);
      && Masked(s.disabled, id) && forall k :: 0 <= k < |Packets(s.history)| ==> Packets(s.history)[k].id != id
  {
    hide Masked, Allowed, Inv;
    if actions != [] {
      hide Run, Packets;
      var front, a := actions[..|actions| - 1], actions[|actions| - 1];
      MaskedStayOut(start, disabled, front, id);
      RunKeeps(start, disabled, front);
      var s := Run(Fresh(start, disabled), front);
      assert s.enable <= 2 by { EnableInRange(start, s); }
      assert actions == front + [a];
      RunAppend(Fresh(start, disabled), front, a);
      DoAddsOthers(s, a, id);
    }
  }

  lemma DoAddsOthers(s: Sender, a: Action, id: nat)
    requires s.enable <= 2 && Masked(s.disabled, id) && id != OVERFLOW && id != Nop.id
    requires a.Mask? ==> Masked(a.disabled, id)
    requires forall k :: 0 <= k < |Packets(s.history)| ==> Packets(s.history)[k].id != id
    ensures var r := Do(s, a);
      Masked(r.disabled, id) && forall k :: 0 <= k < |Packets(r.history)| ==> Packets(r.history)[k].id != id
  {
    hide Packets, Dropped, Encode, Masked, Stream;
    match a
    case Start(again, space) =>
      if s.enable == 0 || again { BeginExactly(s, again, space); } else { BeginNothing(s, space); }
    case Record(attempt) => SendExactly(s, attempt);
    case Stop(attempt) => SendExactly(s, attempt);
    case Mask(disabled) =>
  }

  predicate Single(b: bv32) {
    b != 0 && b & (b - 1) == 0
  }

  lemma ShiftIsSingle(k: bv6)
    requires k < 32
    ensures Single(1 << k)
  {
  }

  lemma BitIsSingle(id: nat)
    requires id < 32
    ensures Single(Bit(id))
  {
    ShiftIsSingle(id as bv6);
  }

  lemma AllOrNothing(x: bv32, b: bv32)
    requires Single(b)
    ensures b != 0 && (x & b == 0 || x & b == b)
  {
  }

  lemma BitCleared(d: bv32, m: bv32, b: bv32)
    requires m & b == b
    ensures (d & !m) & b == 0
  {
  }

  lemma BitSpared(d: bv32, m: bv32, b: bv32)
    requires m & b == 0
    ensures (d & !m) & b == d & b
  {
  }

  lemma BitTaken(d: bv32, m: bv32, b: bv32)
    requires b != 0 && (m & b == 0 || m & b == b)
    ensures Has(d & !m, b) <==> Has(d, b) && !Has(m, b)
  {
    if m & b == 0 {
      BitSpared(d, m, b);
    } else {
      BitCleared(d, m, b);
    }
  }

  lemma BitAdded(d: bv32, m: bv32, b: bv32)
    ensures Has(d | m, b) <==> Has(d, b) || Has(m, b)
  {
    assert (d | m) & b == (d & b) | (m & b);
  }

  lemma BitOfBoth(d: bv32, m: bv32, b: bv32)
    requires Single(b)
    ensures Has(d & !m, b) <==> Has(d, b) && !Has(m, b)
    ensures Has(d | m, b) <==> Has(d, b) || Has(m, b)
  {
    hide Single, Has;
    AllOrNothing(m, b);
    BitTaken(d, m, b);
    BitAdded(d, m, b);
  }

  /** Enabling takes exactly its bits off the mask, and disabling adds exactly its own. */
  lemma MaskedAfter(disabled: bv32, mask: bv32, id: nat)
    ensures Masked(disabled & !mask, id) <==> Masked(disabled, id) && !Masked(mask, id)
    ensures Masked(disabled | mask, id) <==> Masked(disabled, id) || Masked(mask, id)
  {
    hide Bit, Single, Has;
    if id < 32 {
      BitIsSingle(id);
      BitOfBoth(disabled, mask, Bit(id));
    }
  }

  // ---- first inputs --------------------------------------------------------------------------

  lemma EncodeNonEmpty(p: Packet)
    ensures |Encode(p)| > 0
  {
  }

  lemma CountAppend(h: seq<Entry>, e: Entry)
    ensures Dropped(h + [e]) == Dropped(h) + if e.Lost? && !e.ignored then 1 else 0
    ensures Ignored(h + [e]) == Ignored(h) + if e.Lost? && e.ignored then 1 else 0
  {
    assert (h + [e])[..|h|] == h;
  }

  lemma RunAppend(s: Sender, actions: seq<Action>, a: Action)
    ensures Run(s, actions + [a]) == Do(Run(s, actions), a)
  {
    assert (actions + [a])[..|actions|] == actions;
  }

  /** A recording whose ring is full from the start, before and after an event. */
  function FullRing(now: Word, id: nat): Action {
    Record(Attempt(id, Fields([]), now, 0, now, 0))
  }

  lemma LossOf(now: Word, disabled: bv32)
    requires !Masked(disabled, 17)
    ensures var s := Run(Fresh(now, disabled), [Start(true, 0)] + [FullRing(now, 17)]);
      s == Sender(2, now, 0, disabled, [Started] + [Lost(17, false)])
  {
    hide Encode, Masked;
    RunAppend(Fresh(now, disabled), [Start(true, 0)], FullRing(now, 17));
    RunAppend(Fresh(now, disabled), [], Start(true, 0));
    assert [] + [Start(true, 0)] == [Start(true, 0)];
    var s := Run(Fresh(now, disabled), [Start(true, 0)]);
    assert s.history == [Started];
    EncodeNonEmpty(Packet(17, Fields([]), Delta(now, s.lastTx)));
  }

  /** One event that finds the ring full: one packet is dropped, and the count is zero. */
  lemma FirstLossUncounted(now: Word)
    ensures var actions := [Start(true, 0)] + [FullRing(now, 17)]; var s := Run(Fresh(now, 0), actions);
      && (forall k :: 0 <= k < |actions| ==> Allowed(actions[k]))
      && Dropped(s.history) == 1 && Ignored(s.history) == 0 && s.dropCount == 0
  {
    hide Run, Encode;
    LossOf(now, 0);
    CountAppend([], Started);
    CountAppend([Started], Lost(17, false));
    assert [] + [Started] == [Started];
  }

  /** A masked event behind it makes the count right, although there is a gap. */
  lemma MaskedEventCounted(now: Word, mask: bv32)
    requires Masked(mask, 18) && !Masked(mask, 17)
    ensures var actions := [Start(true, 0)] + [FullRing(now, 17)] + [FullRing(now, 18)];
      var s := Run(Fresh(now, mask), actions);
      && (forall k :: 0 <= k < |actions| ==> Allowed(actions[k]))
      && Dropped(s.history) == 1 && Ignored(s.history) == 1 && s.dropCount == 1
  {
    hide Encode, Run, Masked;
    LossOf(now, mask);
    var before := [Start(true, 0)] + [FullRing(now, 17)];
    RunAppend(Fresh(now, mask), before, FullRing(now, 18));
    var s := Run(Fresh(now, mask), before);
    EncodeNonEmpty(OverflowPacket(s, now));
    CountAppend([], Started);
    CountAppend([Started], Lost(17, false));
    CountAppend([Started] + [Lost(17, false)], Lost(18, true));
    assert [] + [Started] == [Started];
  }

  /** There is such a mask. */
  lemma OnlyEighteen()
    ensures Masked(0x4_0000, 18) && !Masked(0x4_0000, 17)
  {
  }
}
