/**
 * What the packet hook of the end host marks, records and remembers, in terms of the packets alone: the priority of
 * each packet, the statistics it enters, and the bytes that each flow has sent.
 */
module HostMarks {
  import opened Basics
  import opened FlowBuckets
  import opened EndHost
  import C = HostClassifier

  // ---------- the mark ----------

  /** A data segment that the hook looks at. */
  predicate IsData(paramPort: u16, p: TcpPacket) {
    && p.isTcp && (paramPort == 0 || p.key.localPort == paramPort || p.key.remotePort == paramPort)
    && !p.syn && !p.fin && !p.rst
  }

  /** A packet that the hook leaves alone gets no mark and changes nothing. */
  lemma IgnoredPacket(paramPort: u16, s: State, e: Event)
    requires Shaped(s)
    ensures Hook(paramPort, s, e).1.None? <==>
            !e.pkt.isTcp || (paramPort != 0 && e.pkt.key.localPort != paramPort && e.pkt.key.remotePort != paramPort)
    ensures Hook(paramPort, s, e).1.None? ==> Hook(paramPort, s, e).0 == s
  {
  }

  /** Control packets, segments of unknown flows and segments below 1400 bytes get priority 0 and teach nothing. */
  lemma SmallPacketMark(paramPort: u16, s: State, e: Event)
    requires Shaped(s) && Hook(paramPort, s, e).1.Some?
    requires e.pkt.syn || e.pkt.fin || e.pkt.rst || e.pkt.payload < 1400 || Lookup(s.table, e.pkt.key).None?
    ensures Hook(paramPort, s, e).1 == Some(0) && Hook(paramPort, s, e).0.stats == s.stats
  {
  }

  /**
   * The record of the flow of a data segment: its byte count, modulo 2^32, is noted for the queue that the hook
   * classifies it into, and apart from the count, the sequence number and the time nothing else changes.
   */
  lemma DataRecord(paramPort: u16, s: State, e: Event)
    requires Shaped(s) && Inv(s.table) && IsData(paramPort, e.pkt) && Lookup(s.table, e.pkt.key).Some?
    ensures Shaped(Hook(paramPort, s, e).0)
    ensures
      var was, now := Lookup(s.table, e.pkt.key).value, Lookup(Hook(paramPort, s, e).0.table, e.pkt.key);
      && now.Some?
      && var info := now.value;
         var q := C.Priority(s.stats, info.bytesSent % 0x1_0000_0000);
         info == was.(bytesSent := info.bytesSent, lastSeq := info.lastSeq, lastUpdateTime := e.now,
                      queueDist := was.queueDist[q := info.bytesSent % 0x1_0000_0000])
  {
    HookKeepsInv(paramPort, s, e);
    var info := Counted(Lookup(s.table, e.pkt.key).value, e.pkt, e.now);
    WrittenKeepsInv(s.table, e.pkt.key, Classified(info, C.Priority(s.stats, info.bytesSent % U32_RANGE)));
  }

  /** How many packets of up to 1500 bytes a payload makes. */
  lemma PacketsRoundUp(payload: nat)
    requires payload > 0
    ensures 1500 * (C.PacketsIn(payload) - 1) < payload <= 1500 * C.PacketsIn(payload)
  {
  }

  /** The statistics of a queue after n more packets of a flow that sent `bytes`: halved once flow_cnt passes 2560. */
  predicate Grown(was: C.QueueStat, now: C.QueueStat, bytes: nat, n: nat) {
    if was.flows + n > 2560 then
      now.flows == (was.flows + n) / 2 && now.bytes == (was.bytes + bytes * n) / 2
    else
      now.flows == was.flows + n && now.bytes == was.bytes + bytes * n
  }

  /**
   * A segment of at least 1400 bytes of a known flow is marked with the priority r that is nearest for the bytes its
   * flow has then sent, modulo 2^32, and it enters the statistics of queue r and of no other queue.
   */
  lemma LargeSegmentMark(paramPort: u16, s: State, e: Event, j: nat)
    requires Shaped(s) && Inv(s.table) && C.Moderate(s.stats)
    requires IsData(paramPort, e.pkt) && e.pkt.payload >= 1400 && Lookup(s.table, e.pkt.key).Some?
    ensures Shaped(Hook(paramPort, s, e).0) && Lookup(Hook(paramPort, s, e).0.table, e.pkt.key).Some?
    ensures Hook(paramPort, s, e).1.Some? && Hook(paramPort, s, e).1.value < 8
    ensures
      var t, r := Hook(paramPort, s, e).0, Hook(paramPort, s, e).1.value;
      var bytes := Lookup(t.table, e.pkt.key).value.bytesSent;
      && (bytes % 0x1_0000_0000 > 0 ==> C.IsNearest(s.stats, bytes % 0x1_0000_0000, r, j))
      && Grown(s.stats[r], t.stats[r], bytes, C.PacketsIn(e.pkt.payload))
      && t.stats[r].flows != s.stats[r].flows
      && forall q :: 0 <= q < 8 && q != r ==> t.stats[q] == s.stats[q]
  {
    var r := LargeSegment(paramPort, s, e);
    var t := Hook(paramPort, s, e).0;
    var bytes := Counted(Lookup(s.table, e.pkt.key).value, e.pkt, e.now).bytesSent;
    if bytes % U32_RANGE > 0 {
      C.PriorityIsNearest(s.stats, bytes % U32_RANGE, j);
    }
    PacketsRoundUp(e.pkt.payload);
    assert t.stats == s.stats[C.Priority(s.stats, bytes % U32_RANGE) := C.Recorded(s.stats[r], bytes, e.pkt.payload)];
  }

  /** After every run from an empty end host that records byte counts below 2^31, marks are the nearest priorities. */
  lemma MarkAfterRun(paramPort: u16, s: State, es: seq<Event>, e: Event, j: nat)
    requires Shaped(s) && Inv(s.table) && RecordsFit(paramPort, s, es)
    requires forall q :: 0 <= q < 8 ==> s.stats[q] == C.QueueStat(0, 0)
    requires IsData(paramPort, e.pkt) && e.pkt.payload >= 1400
    requires Lookup(EndHost.Run(paramPort, s, es).table, e.pkt.key).Some?
    ensures
      var t := EndHost.Run(paramPort, s, es);
      var (u, mark) := Hook(paramPort, t, e);
      && mark.Some? && Shaped(u) && Lookup(u.table, e.pkt.key).Some?
      && var bytes := Lookup(u.table, e.pkt.key).value.bytesSent % 0x1_0000_0000;
         bytes > 0 ==> C.IsNearest(t.stats, bytes, mark.value, j)
  {
    RunIsModerate(paramPort, s, es);
    LargeSegmentMark(paramPort, EndHost.Run(paramPort, s, es), e, j);
  }

  // ---------- the bytes of a flow ----------

  /** Across the wrap of sequence numbers, up to 67295 bytes ahead is later and up to 67295 bytes behind is not. */
  lemma SequenceOrder(x: u32, d: nat)
    requires 0 < d < 67296
    ensures SeqLarger((x + d) % 0x1_0000_0000, x) && !SeqLarger(x, (x + d) % 0x1_0000_0000) && !SeqLarger(x, x)
  {
    if x + d < 0x1_0000_0000 {
      assert (x + d) % 0x1_0000_0000 == x + d;
    } else {
      assert (x + d) % 0x1_0000_0000 == x + d - 0x1_0000_0000;
    }
  }

  /** What is known of a flow: nothing, or the bytes it has sent, its latest sequence number and when it was seen. */
  datatype Sent = Nothing | Sent(bytes: nat, last: u32, seen: int)

  predicate Newer(p: TcpPacket, last: u32) {
    SeqLarger(EndOf(p), last)
  }

  /** The sequence number of the last byte of a segment. */
  function EndOf(p: TcpPacket): u32 {
    (p.seqNo + if p.payload > 0 then p.payload - 1 else 0) % 0x1_0000_0000
  }

  /** What a packet of the flow itself adds to what is known of the flow. */
  function Learn(before: Sent, e: Event): Sent {
    var p := e.pkt;
    if p.syn then (if e.memory || before.Sent? then Sent(0, 0, e.now) else before)
    else if p.fin || p.rst || before.Nothing? then Nothing
    else if Newer(p, before.last) then Sent((before.bytes + p.payload) % 0x1_0000_0000_0000_0000, EndOf(p), e.now)
    else before.(seen := e.now)
  }

  /** What is known of a flow, judged from the packets so far alone. */
  function SentBy(paramPort: u16, es: seq<Event>, key: FlowKey): Sent {
    if es == [] then Nothing
    else
      var before, e := SentBy(paramPort, es[..|es| - 1], key), es[|es| - 1];
      if e.pkt.key != key || !e.pkt.isTcp then before
      else if paramPort != 0 && key.localPort != paramPort && key.remotePort != paramPort then before
      else Learn(before, e)
  }

  function Record(info: Option<FlowInfo>): Sent {
    match info
    case None => Nothing
    case Some(i) => Sent(i.bytesSent, i.lastSeq, i.lastUpdateTime)
  }

  ghost predicate Knows(s: State, sent: Sent, key: FlowKey)
    requires Shaped(s)
  {
    Record(Lookup(s.table, key)) == sent
  }

  /** A SYN starts a fresh record, also for a flow that is known already, unless there is no memory for a new one. */
  lemma NewRecord(paramPort: u16, s: State, e: Event)
    requires Shaped(s) && Inv(s.table) && !Ignored(paramPort, e.pkt) && e.pkt.syn
    ensures
      var known := Lookup(s.table, e.pkt.key);
      Lookup(Hook(paramPort, s, e).0.table, e.pkt.key) ==
      if e.memory || known.Some? then Some(FlowInfo(0, e.now, 0, 0, 0, 0, 0, 0, [0, 0, 0, 0, 0, 0, 0, 0])) else None
  {
    var k := e.pkt.key;
    InsertedInfo(s.table.buckets[Hash(k)], Flow(k, FreshInfo(e.now)), e.memory, k);
  }

  lemma OwnSyn(paramPort: u16, s: State, e: Event)
    requires Shaped(s) && Inv(s.table) && !Ignored(paramPort, e.pkt) && e.pkt.syn
    ensures Record(Lookup(Hook(paramPort, s, e).0.table, e.pkt.key)) == Learn(Record(Lookup(s.table, e.pkt.key)), e)
  {
    NewRecord(paramPort, s, e);
  }

  lemma OwnEnd(paramPort: u16, s: State, e: Event)
    requires Shaped(s) && Inv(s.table) && !Ignored(paramPort, e.pkt) && !e.pkt.syn && (e.pkt.fin || e.pkt.rst)
    ensures Record(Lookup(Hook(paramPort, s, e).0.table, e.pkt.key)) == Learn(Record(Lookup(s.table, e.pkt.key)), e)
  {
    var k := e.pkt.key;
    DeletedInfo(s.table.buckets[Hash(k)], k, k);
  }

  lemma CountedLearns(info: FlowInfo, e: Event, q: nat)
    requires q < C.QUEUES && !e.pkt.syn && !e.pkt.fin && !e.pkt.rst
    ensures Record(Some(Classified(Counted(info, e.pkt, e.now), q))) == Learn(Record(Some(info)), e)
  {
  }

  lemma OwnData(paramPort: u16, s: State, e: Event)
    requires Shaped(s) && Inv(s.table) && !Ignored(paramPort, e.pkt) && !e.pkt.syn && !e.pkt.fin && !e.pkt.rst
    ensures Record(Lookup(Hook(paramPort, s, e).0.table, e.pkt.key)) == Learn(Record(Lookup(s.table, e.pkt.key)), e)
  {
    var k := e.pkt.key;
    if Lookup(s.table, k).Some? {
      var info := Lookup(s.table, k).value;
      var counted := Counted(info, e.pkt, e.now);
      var q := C.Priority(s.stats, counted.bytesSent % U32_RANGE);
      WrittenKeepsInv(s.table, k, Classified(counted, q));
      CountedLearns(info, e, q);
    }
  }

  /** What the hook does to the record of the packet's own flow. */
  lemma OwnRecord(paramPort: u16, s: State, e: Event)
    requires Shaped(s) && Inv(s.table) && !Ignored(paramPort, e.pkt)
    ensures Record(Lookup(Hook(paramPort, s, e).0.table, e.pkt.key)) == Learn(Record(Lookup(s.table, e.pkt.key)), e)
  {
    if e.pkt.syn {
      OwnSyn(paramPort, s, e);
    } else if e.pkt.fin || e.pkt.rst {
      OwnEnd(paramPort, s, e);
    } else {
      OwnData(paramPort, s, e);
    }
  }

  lemma StepKnows(paramPort: u16, s: State, past: seq<Event>, e: Event, key: FlowKey)
    requires Shaped(s) && Inv(s.table) && Knows(s, SentBy(paramPort, past, key), key)
    ensures Shaped(Hook(paramPort, s, e).0) && Inv(Hook(paramPort, s, e).0.table)
    ensures Knows(Hook(paramPort, s, e).0, SentBy(paramPort, past + [e], key), key)
  {
    assert (past + [e])[..|past|] == past;
    HookKeepsInv(paramPort, s, e);
    if e.pkt.key != key {
      HookIsLocal(paramPort, s, e, key);
    } else if !Ignored(paramPort, e.pkt) {
      OwnRecord(paramPort, s, e);
    }
  }

  lemma {:induction false} RunKnows(paramPort: u16, s: State, past: seq<Event>, es: seq<Event>, key: FlowKey)
    requires Shaped(s) && Inv(s.table) && Knows(s, SentBy(paramPort, past, key), key)
    ensures Knows(EndHost.Run(paramPort, s, es), SentBy(paramPort, past + es, key), key)
    decreases |es|
  {
    if es == [] {
      assert past + [] == past;
    } else {
      StepKnows(paramPort, s, past, es[0], key);
      RunKnows(paramPort, Hook(paramPort, s, es[0]).0, past + [es[0]], es[1..], key);
      assert past + es == (past + [es[0]]) + es[1..];
    }
  }

  /** In every run from an empty table, the record of every flow is what its packets say. */
  lemma RecordsFollowPackets(paramPort: u16, s: State, es: seq<Event>, key: FlowKey)
    requires Shaped(s) && s.table == Empty()
    ensures Inv(s.table) && Knows(EndHost.Run(paramPort, s, es), SentBy(paramPort, es, key), key)
  {
    RunKnows(paramPort, s, [], es, key);
    assert [] + es == es;
  }

  // ---------- a flow in order ----------

  /** Data segments of one flow, each beginning where the one before ends. */
  ghost predicate InOrder(paramPort: u16, es: seq<Event>, key: FlowKey) {
    && (forall i :: 0 <= i < |es| ==> IsData(paramPort, es[i].pkt) && es[i].pkt.key == key && es[i].pkt.payload > 0)
    && (forall i, j :: 0 <= i < |es| && j == i + 1 < |es| ==> Follows(es[i].pkt, es[j].pkt))
  }

  predicate Follows(p: TcpPacket, next: TcpPacket) {
    next.seqNo == (p.seqNo + p.payload) % 0x1_0000_0000
  }

  lemma WrapAdd(a: nat, b: nat)
    ensures (a % 0x1_0000_0000 + b) % 0x1_0000_0000 == (a + b) % 0x1_0000_0000
  {
  }

  lemma FollowerIsNewer(p: TcpPacket, next: TcpPacket)
    requires p.payload > 0 && next.payload > 0 && Follows(p, next)
    ensures Newer(next, EndOf(p))
  {
    WrapAdd(p.seqNo + p.payload, next.payload - 1);
    WrapAdd(p.seqNo + p.payload - 1, next.payload);
    SequenceOrder(EndOf(p), next.payload);
  }

  function Payloads(es: seq<Event>): nat {
    if es == [] then 0 else Payloads(es[..|es| - 1]) + es[|es| - 1].pkt.payload
  }

  lemma AddModulo(a: nat, b: nat)
    ensures (a % 0x1_0000_0000_0000_0000 + b) % 0x1_0000_0000_0000_0000 == (a + b) % 0x1_0000_0000_0000_0000
  {
  }

  lemma LearnNewer(before: Sent, e: Event, total: nat)
    requires before.Sent? && before.bytes == total % 0x1_0000_0000_0000_0000
    requires !e.pkt.syn && !e.pkt.fin && !e.pkt.rst && Newer(e.pkt, before.last)
    ensures Learn(before, e) == Sent((total + e.pkt.payload) % 0x1_0000_0000_0000_0000, EndOf(e.pkt), e.now)
  {
    AddModulo(total, e.pkt.payload);
  }

  lemma SentOnce(paramPort: u16, es: seq<Event>, e: Event, key: FlowKey)
    requires e.pkt.key == key && e.pkt.isTcp
    requires paramPort == 0 || key.localPort == paramPort || key.remotePort == paramPort
    ensures SentBy(paramPort, es + [e], key) == Learn(SentBy(paramPort, es, key), e)
  {
    assert (es + [e])[..|es|] == es;
  }

  /** A flow that sends its data in order after its SYN is known by exactly the bytes it has sent, across any wrap. */
  lemma {:induction false} InOrderBytes(paramPort: u16, first: Event, es: seq<Event>, key: FlowKey)
    requires InOrder(paramPort, es, key) && first.pkt.key == key && first.pkt.isTcp && first.pkt.syn && first.memory
    requires paramPort == 0 || key.localPort == paramPort || key.remotePort == paramPort
    requires es != [] ==> Newer(es[0].pkt, 0)
    ensures
      var sent := SentBy(paramPort, [first] + es, key);
      && sent.Sent? && sent.bytes == Payloads(es) % 0x1_0000_0000_0000_0000
      && sent.last == if es == [] then 0 else EndOf(es[|es| - 1].pkt)
    decreases |es|
  {
    if es == [] {
      assert [first] + es == [] + [first];
      SentOnce(paramPort, [], first, key);
    } else {
      var n := |es| - 1;
      var front := es[..n];
      assert [first] + es == ([first] + front) + [es[n]];
      SentOnce(paramPort, [first] + front, es[n], key);
      InOrderBytes(paramPort, first, front, key);
      if n > 0 {
        assert front[n - 1] == es[n - 1];
        FollowerIsNewer(es[n - 1].pkt, es[n].pkt);
      }
      LearnNewer(SentBy(paramPort, [first] + front, key), es[n], Payloads(front));
    }
  }
}
