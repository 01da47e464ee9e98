/** The packet hook of the end host: flow table, classifier and statistics together. */
module EndHost {
  import opened Basics
  import opened FlowBuckets
  import opened FlowTable
  import C = HostClassifier

  /** An outgoing packet with well-formed header lengths. */
  datatype TcpPacket = TcpPacket(isTcp: bool, key: FlowKey, syn: bool, fin: bool, rst: bool, seqNo: u32, payload: u16)

  datatype Event = Event(pkt: TcpPacket, now: int, memory: bool)

  datatype State = State(table: Table, stats: seq<C.QueueStat>)

  /** pias_is_seq_larger. */
  predicate SeqLarger(a: u32, b: u32) {
    (a > b && a - b <= 4294900000) || (a < b && b - a > 4294900000)
  }

  function FreshInfo(now: int): FlowInfo {
    FlowInfo(0, now, 0, 0, 0, 0, 0, 0, [0, 0, 0, 0, 0, 0, 0, 0])
  }

  function LastByte(p: TcpPacket): u32 {
    if p.payload >= 1 then (p.seqNo + p.payload - 1) % U32_RANGE else p.seqNo
  }

  /** The flow's information after the packet is counted, before it is classified. */
  function Counted(info: FlowInfo, p: TcpPacket, now: int): FlowInfo {
    var sent :=
      if SeqLarger(LastByte(p), info.lastSeq)
      then info.(lastSeq := LastByte(p), bytesSent := (info.bytesSent + p.payload) % U64_RANGE)
      else info;
    sent.(lastUpdateTime := now)
  }

  function Classified(info: FlowInfo, q: nat): FlowInfo
    requires q < C.QUEUES
  {
    info.(queueDist := info.queueDist[q := info.bytesSent % U32_RANGE])
  }

  predicate Shaped(s: State) {
    |s.table.buckets| == HASH_RANGE && |s.stats| == C.QUEUES
  }

  predicate Ignored(paramPort: u16, p: TcpPacket) {
    !p.isTcp || (paramPort != 0 && p.key.localPort != paramPort && p.key.remotePort != paramPort)
  }

  /** qcluster_process_packet: the new state and the priority marked, or None when the packet is left alone. */
  function Hook(paramPort: u16, s: State, e: Event): (State, Option<nat>)
    requires Shaped(s)
  {
    var p := e.pkt;
    if Ignored(paramPort, p) then (s, None)
    else if p.syn then (s.(table := Apply(s.table, Insert(Flow(p.key, FreshInfo(e.now)), e.memory)).0), Some(0))
    else if p.fin || p.rst then (s.(table := Apply(s.table, Delete(p.key)).0), Some(0))
    else match Lookup(s.table, p.key)
      case None => (s, Some(0))
      case Some(stored) =>
        var info := Counted(stored, p, e.now);
        var q := C.Priority(s.stats, info.bytesSent % U32_RANGE);
        var table := Written(s.table, p.key, Classified(info, q));
        if p.payload < 1400 then (State(table, s.stats), Some(0))
        else (State(table, s.stats[q := C.Recorded(s.stats[q], info.bytesSent, p.payload)]), Some(q))
  }

  lemma HookKeepsInv(paramPort: u16, s: State, e: Event)
    requires Shaped(s) && Inv(s.table)
    ensures Shaped(Hook(paramPort, s, e).0) && Inv(Hook(paramPort, s, e).0.table)
  {
  }

  /** A packet disturbs no flow but its own. */
  lemma HookIsLocal(paramPort: u16, s: State, e: Event, k: FlowKey)
    requires Shaped(s) && Inv(s.table) && k != e.pkt.key
    ensures Shaped(Hook(paramPort, s, e).0)
    ensures Lookup(Hook(paramPort, s, e).0.table, k) == Lookup(s.table, k)
  {
    var p := e.pkt;
    InsertedInfo(s.table.buckets[Hash(p.key)], Flow(p.key, FreshInfo(e.now)), e.memory, k);
    DeletedInfo(s.table.buckets[Hash(p.key)], p.key, k);
    if Lookup(s.table, p.key).Some? {
      var info := Counted(Lookup(s.table, p.key).value, p, e.now);
      WrittenKeepsInv(s.table, p.key, Classified(info, C.Priority(s.stats, info.bytesSent % U32_RANGE)));
    }
  }

  function Run(paramPort: u16, s: State, es: seq<Event>): (t: State)
    requires Shaped(s) && Inv(s.table)
    ensures Shaped(t) && Inv(t.table)
    decreases |es|
  {
    if es == [] then s
    else HookKeepsInv(paramPort, s, es[0]); Run(paramPort, Hook(paramPort, s, es[0]).0, es[1..])
  }

  /** What a packet records in the statistics of queue q. */
  function RecordFor(paramPort: u16, s: State, e: Event, q: nat): seq<C.Record>
    requires Shaped(s)
  {
    var p := e.pkt;
    if Ignored(paramPort, p) || p.syn || p.fin || p.rst || Lookup(s.table, p.key).None? || p.payload < 1400 then []
    else
      var bytes := Counted(Lookup(s.table, p.key).value, p, e.now).bytesSent;
      if C.Priority(s.stats, bytes % U32_RANGE) == q then [C.Record(bytes, p.payload)] else []
  }

  function RecordsFor(paramPort: u16, s: State, es: seq<Event>, q: nat): seq<C.Record>
    requires Shaped(s) && Inv(s.table)
    decreases |es|
  {
    if es == [] then []
    else
      HookKeepsInv(paramPort, s, es[0]);
      RecordFor(paramPort, s, es[0], q) + RecordsFor(paramPort, Hook(paramPort, s, es[0]).0, es[1..], q)
  }

  lemma HookRecords(paramPort: u16, s: State, e: Event, q: nat)
    requires Shaped(s) && Inv(s.table) && q < C.QUEUES
    ensures Shaped(Hook(paramPort, s, e).0)
    ensures
      var rs := RecordFor(paramPort, s, e, q);
      Hook(paramPort, s, e).0.stats[q] ==
      if rs == [] then s.stats[q] else C.Recorded(s.stats[q], rs[0].bytes, rs[0].payload)
    ensures |RecordFor(paramPort, s, e, q)| <= 1
    ensures forall r :: r in RecordFor(paramPort, s, e, q) ==> 1400 <= r.payload <= 65535
  {
  }

  /** The statistics of a queue after a run are the recordings of the packets that were classified into it. */
  lemma {:induction false} RunRecords(paramPort: u16, s: State, es: seq<Event>, q: nat)
    requires Shaped(s) && Inv(s.table) && q < C.QUEUES
    ensures Run(paramPort, s, es).stats[q] == C.Recordings(s.stats[q], RecordsFor(paramPort, s, es, q))
    ensures forall r :: r in RecordsFor(paramPort, s, es, q) ==> 1400 <= r.payload <= 65535
    decreases |es|
  {
    if es != [] {
      HookKeepsInv(paramPort, s, es[0]);
      HookRecords(paramPort, s, es[0], q);
      var t, rs := Hook(paramPort, s, es[0]).0, RecordFor(paramPort, s, es[0], q);
      RunRecords(paramPort, t, es[1..], q);
      var rest := RecordsFor(paramPort, t, es[1..], q);
      if rs == [] {
        assert rs + rest == rest;
      } else {
        assert (rs + rest)[1..] == rest;
      }
    }
  }

  /**
   * In every run from an empty end host, flow_cnt of each queue is at most 2560, is 0 only if nothing was ever
   * recorded in the queue, and the average lies in the band of the byte counts recorded, up to one rounding.
   */
  lemma RunKeepsAverages(paramPort: u16, s: State, es: seq<Event>, q: nat, lo: nat, hi: nat)
    requires Shaped(s) && Inv(s.table) && q < C.QUEUES && s.stats[q] == C.QueueStat(0, 0)
    requires C.InBand(RecordsFor(paramPort, s, es, q), lo, hi)
    ensures Run(paramPort, s, es).stats[q].flows <= C.AGING
    ensures C.Within(Run(paramPort, s, es).stats[q], lo, hi)
    ensures Run(paramPort, s, es).stats[q].flows == 0 <==> RecordsFor(paramPort, s, es, q) == []
  {
    RunRecords(paramPort, s, es, q);
    var rs := RecordsFor(paramPort, s, es, q);
    C.RecordingsStayInBand(s.stats[q], rs, lo, hi);
    if rs != [] {
      C.RecordingsArePositive(s.stats[q], rs);
    }
  }

  /** Every byte count recorded during the run is below 2^31. */
  ghost predicate RecordsFit(paramPort: u16, s: State, es: seq<Event>)
    requires Shaped(s) && Inv(s.table)
  {
    forall q :: 0 <= q < C.QUEUES ==> C.InBand(RecordsFor(paramPort, s, es, q), 0, 0x7fff_ffff)
  }

  lemma RunIsModerate(paramPort: u16, s: State, es: seq<Event>)
    requires Shaped(s) && Inv(s.table) && RecordsFit(paramPort, s, es)
    requires forall q :: 0 <= q < C.QUEUES ==> s.stats[q] == C.QueueStat(0, 0)
    ensures C.Moderate(Run(paramPort, s, es).stats)
  {
    var stats := Run(paramPort, s, es).stats;
    forall q | 0 <= q < C.QUEUES && stats[q].flows > 0
      ensures C.Average(stats[q]) < 0x1_0000_0000
    {
      RunKeepsAverages(paramPort, s, es, q, 0, 0x7fff_ffff);
      C.AverageWithin(stats[q], 0x7fff_ffff);
    }
  }

  /** In every run from empty statistics that records byte counts below 2^31, each priority is the nearest one. */
  lemma PrioritiesAreNearest(paramPort: u16, s: State, es: seq<Event>, bytes: nat, j: nat)
    requires Shaped(s) && Inv(s.table) && RecordsFit(paramPort, s, es) && bytes > 0
    requires forall q :: 0 <= q < C.QUEUES ==> s.stats[q] == C.QueueStat(0, 0)
    ensures C.IsNearest(Run(paramPort, s, es).stats, bytes, C.Priority(Run(paramPort, s, es).stats, bytes), j)
  {
    RunIsModerate(paramPort, s, es);
    C.PriorityIsNearest(Run(paramPort, s, es).stats, bytes, j);
  }

  /** A large data segment of a known flow. */
  predicate IsLargeSegment(paramPort: u16, s: State, e: Event)
    requires Shaped(s)
  {
    var p := e.pkt;
    !Ignored(paramPort, p) && !p.syn && !p.fin && !p.rst && Lookup(s.table, p.key).Some? && p.payload >= 1400
  }

  lemma LargeSegment(paramPort: u16, s: State, e: Event) returns (q: nat)
    requires Shaped(s) && Inv(s.table) && IsLargeSegment(paramPort, s, e)
    ensures q < C.QUEUES && Shaped(Hook(paramPort, s, e).0) && Inv(Hook(paramPort, s, e).0.table)
    ensures
      var info := Counted(Lookup(s.table, e.pkt.key).value, e.pkt, e.now);
      && Lookup(Hook(paramPort, s, e).0.table, e.pkt.key) == Some(Classified(info, q))
      && RecordFor(paramPort, s, e, q) == [C.Record(info.bytesSent, e.pkt.payload)]
  {
    HookKeepsInv(paramPort, s, e);
    var info := Counted(Lookup(s.table, e.pkt.key).value, e.pkt, e.now);
    q := C.Priority(s.stats, info.bytesSent % U32_RANGE);
    WrittenKeepsInv(s.table, e.pkt.key, Classified(info, q));
  }

  /**
   * When a large segment is sent again, the flow's byte count and sequence number stay, but the same byte count and
   * payload are recorded in the statistics of a queue a second time.
   */
  lemma ResentSegmentIsRecordedAgain(paramPort: u16, s: State, e: Event, again: Event) returns (q: nat, r: nat)
    requires Shaped(s) && Inv(s.table) && IsLargeSegment(paramPort, s, e) && again.pkt == e.pkt
    ensures q < C.QUEUES && r < C.QUEUES && Shaped(Hook(paramPort, s, e).0)
    ensures
      var t := Hook(paramPort, s, e).0;
      var u := Hook(paramPort, t, again).0;
      && Lookup(t.table, e.pkt.key).Some? && Lookup(u.table, e.pkt.key).Some?
      && Lookup(u.table, e.pkt.key).value.bytesSent == Lookup(t.table, e.pkt.key).value.bytesSent
      && Lookup(u.table, e.pkt.key).value.lastSeq == Lookup(t.table, e.pkt.key).value.lastSeq
    ensures RecordFor(paramPort, s, e, q) == RecordFor(paramPort, Hook(paramPort, s, e).0, again, r) != []
  {
    q := LargeSegment(paramPort, s, e);
    r := LargeSegment(paramPort, Hook(paramPort, s, e).0, again);
  }

  class Host {
    const paramPort: u16
    const table: HashTable
    const stats: array<C.QueueStat>

    ghost predicate Valid()
      reads this, table, table.Repr, stats
    {
      table.Valid() && stats.Length == C.QUEUES && stats as object !in table.Repr && table as object != stats
    }

    ghost function Abs(): State
      reads table`buckets, table`size, stats
    {
      State(table.Abs(), stats[..])
    }

    constructor (paramPort: u16, key: FlowKey)
      ensures Valid() && fresh(table) && fresh(table.Repr) && fresh(stats)
      ensures this.paramPort == paramPort && Abs() == State(Empty(), seq(C.QUEUES, _ => C.QueueStat(0, 0)))
    {
      this.paramPort := paramPort;
      table := new HashTable(Flow(key, FreshInfo(0)));
      stats := new C.QueueStat[C.QUEUES](_ => C.QueueStat(0, 0));
    }

    /** get_priority, carrying the average of the current queue through the loop. */
    method GetPriority(bytes: u32) returns (q: nat)
      requires stats.Length == C.QUEUES
      ensures q == C.Priority(stats[..], bytes)
    {
      if stats[0].flows == 0 {
        return 0;
      }
      var thisAvg := stats[0].bytes / stats[0].flows;
      if thisAvg == 0 {
        return 0;
      }
      for i := 0 to 7
        invariant stats[i].flows > 0 && thisAvg == C.Average(stats[i])
        invariant C.Priority(stats[..], bytes) == C.Scan(stats[..], bytes, i)
      {
        if stats[i + 1].flows == 0 {
          return i + 1;
        }
        var nextAvg := stats[i + 1].bytes / stats[i + 1].flows;
        if nextAvg <= thisAvg {
          return i + 1;
        }
        var root := C.IntSqrt64((thisAvg * nextAvg) % U64_RANGE, C.ULONG_MAX);
        if bytes <= root {
          return i;
        }
        thisAvg := nextAvg;
      }
      return 7;
    }

    /** div_pkt: how many packets a payload makes. */
    method CountPackets(payload: u16) returns (packets: nat)
      ensures packets == C.PacketsIn(payload)
    {
      packets := 0;
      if payload > 0 {
        packets := packets + 1;
      }
      if payload > 1500 {
        packets := packets + (payload - 1) / 1500;
      }
    }

    /** The update of a queue's statistics by a large packet, with aging. */
    method Record(q: nat, bytes: u64, payload: u16)
      requires q < stats.Length
      modifies stats
      ensures stats[..] == old(stats[..])[q := C.Recorded(old(stats[q]), bytes, payload)]
    {
      var packets := CountPackets(payload);
      stats[q] := C.Added(stats[q], bytes, packets);
      if stats[q].flows > C.AGING {
        stats[q] := C.QueueStat(stats[q].bytes / 2, stats[q].flows / 2);
      }
    }

    method Process(e: Event) returns (priority: Option<nat>)
      requires Valid()
      modifies table, table.Repr, stats
      ensures Valid() && fresh(table.Repr - old(table.Repr))
      ensures (Abs(), priority) == Hook(paramPort, old(Abs()), e)
    {
      var p := e.pkt;
      if !p.isTcp {
        return None;
      }
      if paramPort != 0 && p.key.localPort != paramPort && p.key.remotePort != paramPort {
        return None;
      }
      priority := Some(0);
      if p.syn {
        var stored := table.Insert(Flow(p.key, FreshInfo(e.now)), e.memory);
      } else if p.fin || p.rst {
        var bytes := table.Delete(p.key);
      } else {
        var ptr := table.Search(p.key);
        if ptr != null {
          var q := Touch(p, e.now, ptr);
          if p.payload >= 1400 {
            priority := Some(q);
          }
        }
      }
    }

    /** The branch for a packet of a known flow. */
    method Touch(p: TcpPacket, now: int, ptr: FlowNode) returns (q: nat)
      requires Valid() && Holds(table.buckets[Hash(p.key)], p.key)
      requires
        var i := IndexOf(table.buckets[Hash(p.key)], p.key);
        && i < |table.lists[Hash(p.key)].nodes| && ptr == table.lists[Hash(p.key)].nodes[i]
      requires Lookup(table.Abs(), p.key) == Some(ptr.flow.info)
      modifies table, table.Repr, stats
      ensures Valid() && fresh(table.Repr - old(table.Repr))
      ensures
        var info := Counted(Lookup(old(table.Abs()), p.key).value, p, now);
        && q == C.Priority(old(stats[..]), info.bytesSent % U32_RANGE)
        && table.Abs() == Written(old(table.Abs()), p.key, Classified(info, q))
        && stats[..] == if p.payload < 1400 then old(stats[..])
                        else old(stats[..])[q := C.Recorded(old(stats[q]), info.bytesSent, p.payload)]
    {
      var info := Counted(ptr.flow.info, p, now);
      q := GetPriority(info.bytesSent % U32_RANGE);
      table.WriteInfo(p.key, ptr, Classified(info, q));
      if p.payload >= 1400 {
        Record(q, info.bytesSent, p.payload);
      }
    }
  }
}
