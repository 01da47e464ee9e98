/**
 * The end host's flow table as values: 256 buckets of flows and a size counter, the operations of flow.c on them,
 * and the proof that every run behaves like a finite map from 4-tuples to flow information.
 */
module FlowBuckets {
  import opened Basics

  const HASH_RANGE: nat := 256

  /** One number for each of the eight queues. */
  type PerQueue = s: seq<u32> | |s| == 8 witness [0, 0, 0, 0, 0, 0, 0, 0]

  datatype FlowKey = FlowKey(localIp: u32, remoteIp: u32, localPort: u16, remotePort: u16)

  datatype FlowInfo = FlowInfo(
    lastCopyTime: int, lastUpdateTime: int, lastTimeoutSeq: u32, lastSeq: u32, lastAck: u32,
    bytesSent: u64, timeouts: u16, messages: u16, queueDist: PerQueue)

  datatype Flow = Flow(key: FlowKey, info: FlowInfo)

  /** PIAS_Hash_Flow in unsigned 32-bit arithmetic. */
  function Hash(k: FlowKey): (h: nat)
    ensures h < HASH_RANGE
  {
    ((((k.localIp / 0x100_0000 + 1) * (k.remoteIp / 0x100_0000 + 1)) % U32_RANGE
      * (k.localPort + 1)) % U32_RANGE
     * (k.remotePort + 1)) % U32_RANGE % HASH_RANGE
  }

  lemma LowByte(z: nat)
    ensures z % U32_RANGE % HASH_RANGE == z % HASH_RANGE
  {
  }

  lemma Regroup(x: nat, k: nat, rest: nat, y: nat)
    requires x == rest + U32_RANGE * k
    ensures x * y == rest * y + U32_RANGE * (k * y)
  {
  }

  lemma LowByteTimes(x: nat, y: nat)
    ensures ((x % U32_RANGE) * y) % HASH_RANGE == (x * y) % HASH_RANGE
  {
    Regroup(x, x / U32_RANGE, x % U32_RANGE, y);
  }

  lemma Associate(a: nat, b: nat, c: nat)
    ensures a * b * c == a * (b * c)
  {
  }

  lemma LowByteOfProducts(x: nat, c: nat, d: nat)
    ensures ((x % U32_RANGE * c) % U32_RANGE * d) % U32_RANGE % HASH_RANGE == (x * c * d) % HASH_RANGE
  {
    var y := x % U32_RANGE * c;
    LowByte(y % U32_RANGE * d);
    LowByteTimes(y, d);
    Associate(x % U32_RANGE, c, d);
    LowByteTimes(x, c * d);
    Associate(x, c, d);
  }

  /** The wrap of 32-bit products does not show in the hash: it is the low byte of the true product. */
  lemma HashIsProduct(k: FlowKey)
    ensures
      var a, b := k.localIp / 0x100_0000 + 1, k.remoteIp / 0x100_0000 + 1;
      Hash(k) == (a * b * (k.localPort + 1) * (k.remotePort + 1)) % 256
  {
    var a, b := k.localIp / 0x100_0000 + 1, k.remoteIp / 0x100_0000 + 1;
    LowByteOfProducts(a * b, k.localPort + 1, k.remotePort + 1);
  }

  // ---------- one bucket ----------

  /** The position of the first flow with the key, or the length of the bucket. */
  function IndexOf(b: seq<Flow>, k: FlowKey): (i: nat)
    ensures i <= |b|
    ensures forall j :: 0 <= j < i ==> b[j].key != k
    ensures i < |b| ==> b[i].key == k
  {
    if b == [] || b[0].key == k then 0 else 1 + IndexOf(b[1..], k)
  }

  predicate Holds(b: seq<Flow>, k: FlowKey) {
    IndexOf(b, k) < |b|
  }

  function InfoOf(b: seq<Flow>, k: FlowKey): Option<FlowInfo> {
    if Holds(b, k) then Some(b[IndexOf(b, k)].info) else None
  }

  ghost predicate NoTwins(b: seq<Flow>) {
    forall i, j :: 0 <= i < j < |b| ==> b[i].key != b[j].key
  }

  function SetInfo(b: seq<Flow>, i: nat, info: FlowInfo): seq<Flow>
    requires i < |b|
  {
    b[i := b[i].(info := info)]
  }

  /** PIAS_Insert_List; `memory` says whether kmalloc would succeed. */
  function Inserted(b: seq<Flow>, f: Flow, memory: bool): seq<Flow> {
    if Holds(b, f.key) then SetInfo(b, IndexOf(b, f.key), f.info)
    else if memory then b + [f]
    else b
  }

  function Without(b: seq<Flow>, i: nat): seq<Flow>
    requires i < |b|
  {
    b[..i] + b[i + 1..]
  }

  function Deleted(b: seq<Flow>, k: FlowKey): seq<Flow> {
    if Holds(b, k) then Without(b, IndexOf(b, k)) else b
  }

  /** What PIAS_Delete_List returns: the flow's 32-bit byte count, but at least 1, or 0 if there is no such flow. */
  function DeleteResult(b: seq<Flow>, k: FlowKey): nat {
    if Holds(b, k) then AtLeastOne(b[IndexOf(b, k)].info.bytesSent % U32_RANGE) else 0
  }

  lemma PositionIsIndex(b: seq<Flow>, i: nat)
    requires NoTwins(b) && i < |b|
    ensures IndexOf(b, b[i].key) == i
  {
  }

  /** Inserting sets the information of the flow's own key and of no other key. */
  lemma InsertedInfo(b: seq<Flow>, f: Flow, memory: bool, k: FlowKey)
    requires NoTwins(b)
    ensures NoTwins(Inserted(b, f, memory))
    ensures InfoOf(Inserted(b, f, memory), k) ==
            if k == f.key && (memory || Holds(b, k)) then Some(f.info) else InfoOf(b, k)
  {
    var t := Inserted(b, f, memory);
    if Holds(b, k) {
      PositionIsIndex(t, IndexOf(b, k));
    } else if k == f.key && memory {
      PositionIsIndex(t, |b|);
    }
  }

  /** Deleting removes the key, keeps the order of the others and disturbs no other key. */
  lemma DeletedInfo(b: seq<Flow>, d: FlowKey, k: FlowKey)
    requires NoTwins(b)
    ensures NoTwins(Deleted(b, d))
    ensures InfoOf(Deleted(b, d), k) == if k == d then None else InfoOf(b, k)
  {
    var t := Deleted(b, d);
    if k != d && Holds(b, k) {
      var i := IndexOf(b, k);
      PositionIsIndex(t, if Holds(b, d) && IndexOf(b, d) < i then i - 1 else i);
    }
  }

  // ---------- the table ----------

  datatype Table = Table(buckets: seq<seq<Flow>>, size: int)

  /** Every flow sits in its own hash bucket, and no bucket holds two equal flows. */
  ghost predicate Inv(t: Table) {
    && |t.buckets| == HASH_RANGE
    && (forall h :: 0 <= h < HASH_RANGE ==> NoTwins(t.buckets[h]))
    && (forall h, i :: 0 <= h < HASH_RANGE && 0 <= i < |t.buckets[h]| ==> Hash(t.buckets[h][i].key) == h)
  }

  function Lookup(t: Table, k: FlowKey): Option<FlowInfo>
    requires |t.buckets| == HASH_RANGE
  {
    InfoOf(t.buckets[Hash(k)], k)
  }

  /** The table after a write to the information of a stored flow. */
  function Written(t: Table, k: FlowKey, info: FlowInfo): Table
    requires |t.buckets| == HASH_RANGE && Holds(t.buckets[Hash(k)], k)
  {
    var b := t.buckets[Hash(k)];
    t.(buckets := t.buckets[Hash(k) := SetInfo(b, IndexOf(b, k), info)])
  }

  /** Such a write changes the information of one key and nothing else. */
  lemma WrittenKeepsInv(t: Table, k: FlowKey, info: FlowInfo)
    requires Inv(t) && Holds(t.buckets[Hash(k)], k)
    ensures Inv(Written(t, k, info))
    ensures forall d :: Lookup(Written(t, k, info), d) == if d == k then Some(info) else Lookup(t, d)
  {
    var b := t.buckets[Hash(k)];
    assert SetInfo(b, IndexOf(b, k), info) == Inserted(b, Flow(k, info), true);
    forall d
      ensures Lookup(Written(t, k, info), d) == if d == k then Some(info) else Lookup(t, d)
    {
      InsertedInfo(b, Flow(k, info), true, d);
    }
  }

  datatype Op = Search(k: FlowKey) | Insert(f: Flow, memory: bool) | Delete(k: FlowKey) | Clear

  datatype Response = Found(info: Option<FlowInfo>) | Stored(ok: bool) | Removed(bytes: nat) | Emptied

  function Empty(): Table {
    Table(seq(HASH_RANGE, _ => []), 0)
  }

  function Apply(t: Table, op: Op): (Table, Response)
    requires |t.buckets| == HASH_RANGE
  {
    match op
    case Search(k) => (t, Found(Lookup(t, k)))
    case Insert(f, memory) =>
      var h := Hash(f.key);
      var ok := memory || Holds(t.buckets[h], f.key);
      (Table(t.buckets[h := Inserted(t.buckets[h], f, memory)], if ok then t.size + 1 else t.size), Stored(ok))
    case Delete(k) =>
      var h := Hash(k);
      var bytes := DeleteResult(t.buckets[h], k);
      (Table(t.buckets[h := Deleted(t.buckets[h], k)], if bytes > 0 then t.size - 1 else t.size), Removed(bytes))
    case Clear => (Empty(), Emptied)
  }

  lemma ApplyKeepsInv(t: Table, op: Op)
    requires Inv(t)
    ensures Inv(Apply(t, op).0)
  {
    match op
    case Search(k) =>
    case Insert(f, memory) => InsertedInfo(t.buckets[Hash(f.key)], f, memory, f.key);
    case Delete(k) => DeletedInfo(t.buckets[Hash(k)], k, k);
    case Clear =>
  }

  function Run(t: Table, ops: seq<Op>): (u: Table)
    requires |t.buckets| == HASH_RANGE
    ensures |u.buckets| == HASH_RANGE
    decreases |ops|
  {
    if ops == [] then t else Run(Apply(t, ops[0]).0, ops[1..])
  }

  function Responses(t: Table, ops: seq<Op>): seq<Response>
    requires |t.buckets| == HASH_RANGE
    decreases |ops|
  {
    if ops == [] then [] else [Apply(t, ops[0]).1] + Responses(Apply(t, ops[0]).0, ops[1..])
  }

  // ---------- refinement of a finite map ----------

  ghost predicate Represents(t: Table, m: map<FlowKey, FlowInfo>)
    requires |t.buckets| == HASH_RANGE
  {
    forall k :: Lookup(t, k) == MapLookup(m, k)
  }

  function MapLookup(m: map<FlowKey, FlowInfo>, k: FlowKey): Option<FlowInfo> {
    if k in m then Some(m[k]) else None
  }

  /** The same operation on a map. */
  function MapApply(m: map<FlowKey, FlowInfo>, op: Op): (map<FlowKey, FlowInfo>, Response) {
    match op
    case Search(k) => (m, Found(MapLookup(m, k)))
    case Insert(f, memory) =>
      var ok := memory || f.key in m;
      (if ok then m[f.key := f.info] else m, Stored(ok))
    case Delete(k) => (m - {k}, Removed(if k in m then AtLeastOne(m[k].bytesSent % U32_RANGE) else 0))
    case Clear => (map[], Emptied)
  }

  function MapRun(m: map<FlowKey, FlowInfo>, ops: seq<Op>): map<FlowKey, FlowInfo>
    decreases |ops|
  {
    if ops == [] then m else MapRun(MapApply(m, ops[0]).0, ops[1..])
  }

  function MapResponses(m: map<FlowKey, FlowInfo>, ops: seq<Op>): seq<Response>
    decreases |ops|
  {
    if ops == [] then [] else [MapApply(m, ops[0]).1] + MapResponses(MapApply(m, ops[0]).0, ops[1..])
  }

  lemma ApplyRefines(t: Table, m: map<FlowKey, FlowInfo>, op: Op)
    requires Inv(t) && Represents(t, m)
    ensures Represents(Apply(t, op).0, MapApply(m, op).0)
    ensures Apply(t, op).1 == MapApply(m, op).1
  {
    var u, n := Apply(t, op).0, MapApply(m, op).0;
    match op
    case Search(k) =>
      assert Lookup(t, k) == MapLookup(m, k);
    case Insert(f, memory) =>
      assert Lookup(t, f.key) == MapLookup(m, f.key);
      forall k
        ensures Lookup(u, k) == MapLookup(n, k)
      {
        assert Lookup(t, k) == MapLookup(m, k);
        InsertedInfo(t.buckets[Hash(f.key)], f, memory, k);
      }
    case Delete(d) =>
      assert Lookup(t, d) == MapLookup(m, d);
      forall k
        ensures Lookup(u, k) == MapLookup(n, k)
      {
        assert Lookup(t, k) == MapLookup(m, k);
        DeletedInfo(t.buckets[Hash(d)], d, k);
      }
    case Clear =>
  }

  /** Any sequence of calls on the table answers, and leaves behind, what the same calls on a map do. */
  lemma {:induction false} RunRefines(t: Table, m: map<FlowKey, FlowInfo>, ops: seq<Op>)
    requires Inv(t) && Represents(t, m)
    ensures Inv(Run(t, ops)) && Represents(Run(t, ops), MapRun(m, ops))
    ensures Responses(t, ops) == MapResponses(m, ops)
    decreases |ops|
  {
    if ops != [] {
      ApplyKeepsInv(t, ops[0]);
      ApplyRefines(t, m, ops[0]);
      RunRefines(Apply(t, ops[0]).0, MapApply(m, ops[0]).0, ops[1..]);
    }
  }

  // ---------- the size counter ----------

  function StoredFlows(buckets: seq<seq<Flow>>): nat {
    if buckets == [] then 0 else StoredFlows(buckets[..|buckets| - 1]) + |buckets[|buckets| - 1]|
  }

  lemma {:induction false} StoredFlowsUpdate(buckets: seq<seq<Flow>>, h: nat, b: seq<Flow>)
    requires h < |buckets|
    ensures StoredFlows(buckets[h := b]) == StoredFlows(buckets) - |buckets[h]| + |b|
  {
    var init := buckets[..|buckets| - 1];
    if h == |buckets| - 1 {
      assert buckets[h := b][..|buckets| - 1] == init;
    } else {
      StoredFlowsUpdate(init, h, b);
      assert buckets[h := b][..|buckets| - 1] == init[h := b];
    }
  }

  lemma {:induction false} NothingStored(buckets: seq<seq<Flow>>)
    requires forall h :: 0 <= h < |buckets| ==> buckets[h] == []
    ensures StoredFlows(buckets) == 0
  {
    if buckets != [] {
      NothingStored(buckets[..|buckets| - 1]);
    }
  }

  /** The inserts of a run, since its last clear, that found their flow already present. */
  function Reinserts(t: Table, ops: seq<Op>, before: nat): nat
    requires |t.buckets| == HASH_RANGE
    decreases |ops|
  {
    if ops == [] then before
    else
      var now := match ops[0]
        case Clear => 0
        case Insert(f, _) => if Holds(t.buckets[Hash(f.key)], f.key) then before + 1 else before
        case _ => before;
      Reinserts(Apply(t, ops[0]).0, ops[1..], now)
  }

  lemma ApplyCounts(t: Table, op: Op)
    requires |t.buckets| == HASH_RANGE
    ensures
      var u := Apply(t, op).0;
      u.size - StoredFlows(u.buckets) ==
      match op
      case Clear => 0
      case Insert(f, _) => t.size - StoredFlows(t.buckets) + if Holds(t.buckets[Hash(f.key)], f.key) then 1 else 0
      case _ => t.size - StoredFlows(t.buckets)
  {
    match op
    case Search(k) =>
    case Insert(f, memory) =>
      StoredFlowsUpdate(t.buckets, Hash(f.key), Inserted(t.buckets[Hash(f.key)], f, memory));
    case Delete(k) => StoredFlowsUpdate(t.buckets, Hash(k), Deleted(t.buckets[Hash(k)], k));
    case Clear => NothingStored(Empty().buckets);
  }

  /**
   * The size counter is the number of stored flows plus the re-inserts since the last clear: it never counts too
   * few, and it is right if and only if no flow was re-inserted.
   */
  lemma {:induction false} SizeOvercounts(t: Table, ops: seq<Op>, excess: nat)
    requires |t.buckets| == HASH_RANGE && t.size == StoredFlows(t.buckets) + excess
    ensures Run(t, ops).size == StoredFlows(Run(t, ops).buckets) + Reinserts(t, ops, excess)
    ensures Run(t, ops).size == StoredFlows(Run(t, ops).buckets) <==> Reinserts(t, ops, excess) == 0
    decreases |ops|
  {
    if ops != [] {
      ApplyCounts(t, ops[0]);
      var now := match ops[0]
        case Clear => 0
        case Insert(f, _) => if Holds(t.buckets[Hash(f.key)], f.key) then excess + 1 else excess
        case _ => excess;
      SizeOvercounts(Apply(t, ops[0]).0, ops[1..], now);
    }
  }

  /** The number of stored flows is the number of keys of the map. */
  lemma {:induction false} StoredFlowsAreKeys(t: Table, m: map<FlowKey, FlowInfo>, ops: seq<Op>)
    requires Inv(t) && Represents(t, m) && StoredFlows(t.buckets) == |m|
    ensures StoredFlows(Run(t, ops).buckets) == |MapRun(m, ops)|
    decreases |ops|
  {
    if ops != [] {
      ApplyKeepsInv(t, ops[0]);
      ApplyRefines(t, m, ops[0]);
      ApplyKeepsKeys(t, m, ops[0]);
      StoredFlowsAreKeys(Apply(t, ops[0]).0, MapApply(m, ops[0]).0, ops[1..]);
    }
  }

  lemma InsertKeepsKeys(t: Table, m: map<FlowKey, FlowInfo>, f: Flow, memory: bool)
    requires Inv(t) && Represents(t, m) && StoredFlows(t.buckets) == |m|
    ensures StoredFlows(Apply(t, Insert(f, memory)).0.buckets) == |MapApply(m, Insert(f, memory)).0|
  {
    assert Lookup(t, f.key) == MapLookup(m, f.key);
    StoredFlowsUpdate(t.buckets, Hash(f.key), Inserted(t.buckets[Hash(f.key)], f, memory));
  }

  lemma DeleteKeepsKeys(t: Table, m: map<FlowKey, FlowInfo>, k: FlowKey)
    requires Inv(t) && Represents(t, m) && StoredFlows(t.buckets) == |m|
    ensures StoredFlows(Apply(t, Delete(k)).0.buckets) == |MapApply(m, Delete(k)).0|
  {
    assert Lookup(t, k) == MapLookup(m, k);
    StoredFlowsUpdate(t.buckets, Hash(k), Deleted(t.buckets[Hash(k)], k));
    if k in m {
      assert m == (m - {k})[k := m[k]];
    } else {
      assert m - {k} == m;
    }
  }

  lemma ApplyKeepsKeys(t: Table, m: map<FlowKey, FlowInfo>, op: Op)
    requires Inv(t) && Represents(t, m) && StoredFlows(t.buckets) == |m|
    ensures StoredFlows(Apply(t, op).0.buckets) == |MapApply(m, op).0|
  {
    match op
    case Search(k) =>
    case Insert(f, memory) => InsertKeepsKeys(t, m, f, memory);
    case Delete(k) => DeleteKeepsKeys(t, m, k);
    case Clear => NothingStored(Empty().buckets);
  }

  /** From the empty table on, every sequence of calls is answered as by a map, and leaves its keys in the table. */
  lemma TableIsMap(ops: seq<Op>)
    ensures Responses(Empty(), ops) == MapResponses(map[], ops)
    ensures Inv(Run(Empty(), ops)) && Represents(Run(Empty(), ops), MapRun(map[], ops))
    ensures StoredFlows(Run(Empty(), ops).buckets) == |MapRun(map[], ops)|
    ensures Run(Empty(), ops).size == |MapRun(map[], ops)| + Reinserts(Empty(), ops, 0)
  {
    NothingStored(Empty().buckets);
    RunRefines(Empty(), map[], ops);
    StoredFlowsAreKeys(Empty(), map[], ops);
    SizeOvercounts(Empty(), ops, 0);
  }

  /** Two SYNs of one flow make the table count two flows where it stores one. */
  lemma TwiceInserted(f: Flow)
    ensures
      var t := Run(Empty(), [Insert(f, true), Insert(f, true)]);
      t.size == 2 && StoredFlows(t.buckets) == 1
  {
    var op := Insert(f, true);
    var once, m := Apply(Empty(), op).0, map[f.key := f.info];
    TableIsMap([op, op]);
    assert [op, op][1..] == [op] && [op][1..] == [];
    assert MapRun(map[], [op, op]) == MapRun(m, [op]) == m;
    assert once.buckets[Hash(f.key)] == [f];
    assert Reinserts(Empty(), [op, op], 0) == Reinserts(once, [op], 0) == Reinserts(Apply(once, op).0, [], 1);
  }
}
