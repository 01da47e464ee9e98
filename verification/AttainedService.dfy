/**
 * The least-attained-service queue of unknown.cc: repaired thresholds over aging averages, and the weight of a
 * packet as the service its message has attained.
 */
module AttainedService {
  import opened Basics
  import opened Packets
  import opened RatioDistance
  import opened RealFacts

  const QUEUES: nat := MOST_QUEUES
  const HEADER: int := 40
  const FULL: int := 1460

  datatype Config = Config(limitBytes: int, markBytes: int, marking: Marking, sqrt: real -> real)

  /** Sum and number of the values recorded in a queue, both halved when the queue ages. */
  datatype Info = Info(counting: real, distinct: real)

  datatype State = State(
    queueNum: int, qs: seq<seq<Packet>>, lastTime: map<int, int>, countItem: map<int, int>, info: seq<Info>,
    lastUpdate: real)

  function Average(i: Info): real {
    if i.distinct < 1.0 then 0.0 else i.counting / i.distinct
  }

  // ---------- thresholds ----------

  function Next(sqrt: real -> real, before: seq<real>, here: Info, next: Info): real {
    var previous := if before == [] then 0.0 else before[|before| - 1];
    if here.distinct < 1.0 then 33554432.0 + previous
    else
      var t := Larger(Average(here), GeometricMean(sqrt, Average(here), Average(next)));
      if before != [] && t <= previous then previous + FULL as real else t
  }

  /** The first n thresholds. */
  function Thresholds(sqrt: real -> real, info: seq<Info>, n: nat): (t: seq<real>)
    requires n == 0 || n < |info|
    ensures |t| == n
  {
    if n == 0 then []
    else
      var before := Thresholds(sqrt, info, n - 1);
      before + [Next(sqrt, before, info[n - 1], info[n])]
  }

  /** The first queue from i on whose threshold the value does not exceed by more than one; the last one otherwise. */
  function Choose(value: real, thresholds: seq<real>, i: nat): (q: nat)
    requires i <= |thresholds|
    ensures i <= q <= |thresholds|
    ensures forall k :: i <= k < q ==> value > thresholds[k] + 1.0
    ensures q < |thresholds| ==> value <= thresholds[q] + 1.0
    decreases |thresholds| - i
  {
    if i == |thresholds| || value <= thresholds[i] + 1.0 then i else Choose(value, thresholds, i + 1)
  }

  /** Whatever the statistics, the repaired thresholds increase strictly. */
  lemma {:induction false} ThresholdsIncrease(sqrt: real -> real, info: seq<Info>, n: nat)
    requires n == 0 || n < |info|
    ensures Increasing(Thresholds(sqrt, info, n))
  {
    if n > 0 {
      ThresholdsIncrease(sqrt, info, n - 1);
      var before, t := Thresholds(sqrt, info, n - 1), Thresholds(sqrt, info, n);
      if n > 1 {
        assert t[n - 2] == before[n - 2] && t[n - 1] > before[n - 2];
      }
      assert forall i :: 0 <= i < n - 1 ==> t[i] == before[i];
    }
  }

  /** A queue's threshold is never below its average, so no packet at or below that average passes the queue by. */
  lemma AveragesStayInFront(sqrt: real -> real, info: seq<Info>, n: nat, value: real, i: nat)
    requires i < n < |info| && info[i].distinct >= 1.0 && value <= Average(info[i]) + 1.0
    ensures Choose(value, Thresholds(sqrt, info, n), 0) <= i
  {
    ThresholdAt(sqrt, info, n, i);
  }

  lemma {:induction false} ThresholdAt(sqrt: real -> real, info: seq<Info>, n: nat, i: nat)
    requires i < n < |info|
    ensures info[i].distinct >= 1.0 ==> Thresholds(sqrt, info, n)[i] >= Average(info[i])
    ensures info[i].distinct < 1.0 && i == 0 ==> Thresholds(sqrt, info, n)[i] == 33554432.0
  {
    if i < n - 1 {
      ThresholdAt(sqrt, info, n - 1, i);
    }
  }

  /** More attained service never moves a packet to an earlier queue. */
  lemma ChooseMonotone(sqrt: real -> real, info: seq<Info>, n: nat, value: real, more: real)
    requires n < |info| && value <= more
    ensures Choose(value, Thresholds(sqrt, info, n), 0) <= Choose(more, Thresholds(sqrt, info, n), 0)
  {
  }

  // ---------- enque ----------

  function Payload(p: Packet): int {
    p.size - HEADER
  }

  predicate Counts(p: Packet) {
    p.tcp && Payload(p) > 0
  }

  predicate Shaped(s: State) {
    |s.qs| == QUEUES && |s.info| == QUEUES
  }

  /** count_item of the packet's flow once the packet is looked at. */
  function CountFor(s: State, p: Packet): int
  {
    var goesOn := p.flow in s.lastTime && s.lastTime[p.flow] == p.message && p.flow in s.countItem;
    var start := if goesOn then s.countItem[p.flow] else 0;
    if Payload(p) >= FULL then start + Payload(p) else start
  }

  /** The weight of a packet: the service its message attained if the packet is full-sized, its own size otherwise. */
  function Value(s: State, p: Packet): int {
    if Counts(p) && Payload(p) >= FULL then CountFor(s, p) else Payload(p)
  }

  function Target(c: Config, s: State, p: Packet): (q: nat)
    requires Shaped(s)
    ensures q < Clamp(s.queueNum)
  {
    if Counts(p) then Choose(Value(s, p) as real, Thresholds(c.sqrt, s.info, Clamp(s.queueNum) - 1), 0) else 0
  }

  function Recorded(i: Info, value: int): Info {
    Info(i.counting + value as real, i.distinct + 1.0)
  }

  function Aged(i: Info): Info {
    if i.distinct > 128.0 then Info(i.counting / 2.0, i.distinct / 2.0) else i
  }

  /** Update(): the queues in use age. */
  function Updated(info: seq<Info>, n: nat): (r: seq<Info>)
    ensures |r| == |info|
  {
    seq(|info|, i requires 0 <= i < |info| => if i < n then Aged(info[i]) else info[i])
  }

  /** The statistics after a counted packet, with the aging that the clock may call for. */
  function Learn(s: State, p: Packet, q: nat, value: int, clock: real): State
    requires Shaped(s) && q < QUEUES
  {
    var info := s.info[q := Recorded(s.info[q], value)];
    var ages := clock - s.lastUpdate > 1.0;
    s.(countItem := s.countItem[p.flow := CountFor(s, p)],
       lastTime := s.lastTime[p.flow := p.message],
       info := if ages then Updated(info, Clamp(s.queueNum)) else info,
       lastUpdate := if ages then clock else s.lastUpdate)
  }

  /** The packet p stored in queue q, marked if that makes the queue congested. */
  function Stored(c: Config, qs: seq<seq<Packet>>, p: Packet, q: nat): seq<seq<Packet>>
    requires q < |qs|
  {
    qs[q := qs[q] + [Marked(p, Congested(c.marking, c.markBytes, qs[q := qs[q] + [p]], q))]]
  }

  function Admit(c: Config, s: State, p: Packet, clock: real): State
    requires Shaped(s)
  {
    var q := Target(c, s, p);
    var t := s.(qs := Stored(c, s.qs, p, q));
    if Counts(p) then Learn(t, p, q, Value(s, p), clock) else t
  }

  function Enqueue(c: Config, s0: State, p: Packet, clock: real): State
    requires Shaped(s0)
  {
    var s := s0.(queueNum := Clamp(s0.queueNum));
    if Accepts(c.limitBytes, s.qs, p) then Admit(c, s, p, clock) else s
  }

  /** The first non-empty queue, in strict priority. */
  function FirstBacklogged(qs: seq<seq<Packet>>, i: nat): (q: nat)
    requires i <= |qs|
    ensures i <= q <= |qs|
    ensures forall k :: i <= k < q ==> qs[k] == []
    ensures q < |qs| ==> qs[q] != []
    decreases |qs| - i
  {
    if i == |qs| || qs[i] != [] then i else FirstBacklogged(qs, i + 1)
  }

  function Dequeue(s: State): (State, Option<Packet>)
    requires Shaped(s)
  {
    var q := FirstBacklogged(s.qs, 0);
    if q == QUEUES then (s, None) else (s.(qs := s.qs[q := s.qs[q][1..]]), Some(s.qs[q][0]))
  }

  // ---------- runs ----------

  datatype Op = Enq(p: Packet, clock: real) | Deq

  predicate OkInfo(info: seq<Info>) {
    forall i :: 0 <= i < |info| ==> info[i].distinct == 0.0 || info[i].distinct >= 1.0
  }

  /** Packets only sit in queues in use, and distinct is 0 or at least 1 in every queue. */
  predicate Inv(s: State) {
    && Shaped(s)
    && (forall i :: Clamp(s.queueNum) <= i < QUEUES ==> s.qs[i] == [])
    && (1 <= s.queueNum <= QUEUES || forall i :: 0 <= i < QUEUES ==> s.qs[i] == [])
    && OkInfo(s.info)
  }

  function Step(c: Config, s: State, op: Op): (t: State)
    requires Shaped(s)
    ensures Shaped(t)
  {
    match op
    case Enq(p, clock) => Enqueue(c, s, p, clock)
    case Deq => Dequeue(s).0
  }

  function Run(c: Config, s: State, ops: seq<Op>): (t: State)
    requires Shaped(s)
    ensures Shaped(t)
    decreases |ops|
  {
    if ops == [] then s else Run(c, Step(c, s, ops[0]), ops[1..])
  }

  lemma LearnKeepsInfo(s: State, p: Packet, q: nat, value: int, clock: real)
    requires Shaped(s) && q < QUEUES && OkInfo(s.info)
    ensures OkInfo(Learn(s, p, q, value, clock).info)
  {
  }

  lemma EnqueueKeepsInv(c: Config, s: State, p: Packet, clock: real)
    requires Inv(s)
    ensures Inv(Enqueue(c, s, p, clock))
  {
    var n := s.(queueNum := Clamp(s.queueNum));
    if Counts(p) {
      LearnKeepsInfo(n, p, Target(c, n, p), Value(n, p), clock);
    }
  }

  lemma StepKeepsInv(c: Config, s: State, op: Op)
    requires Inv(s)
    ensures Inv(Step(c, s, op))
  {
    if op.Enq? {
      EnqueueKeepsInv(c, s, op.p, op.clock);
    }
  }

  lemma {:induction false} RunKeepsInv(c: Config, s: State, ops: seq<Op>)
    requires Inv(s)
    ensures Inv(Run(c, s, ops))
    decreases |ops|
  {
    if ops != [] {
      StepKeepsInv(c, s, ops[0]);
      RunKeepsInv(c, Step(c, s, ops[0]), ops[1..]);
    }
  }

  // ---------- averages ----------

  predicate Learns(c: Config, s: State, op: Op) {
    op.Enq? && Counts(op.p) && Accepts(c.limitBytes, s.qs, op.p)
  }

  /** The value that one operation records in queue q, if it records one. */
  function ValueFor(c: Config, s: State, op: Op, q: nat): seq<int>
    requires Shaped(s)
  {
    if Learns(c, s, op) && Target(c, s.(queueNum := Clamp(s.queueNum)), op.p) == q then [Value(s, op.p)] else []
  }

  function ValuesFor(c: Config, s: State, ops: seq<Op>, q: nat): seq<int>
    requires Shaped(s)
    decreases |ops|
  {
    if ops == [] then [] else ValueFor(c, s, ops[0], q) + ValuesFor(c, Step(c, s, ops[0]), ops[1..], q)
  }

  predicate Within(i: Info, lo: int, hi: int) {
    lo as real * i.distinct <= i.counting <= hi as real * i.distinct
  }

  lemma RecordedWithin(i: Info, lo: int, hi: int, value: int)
    requires Within(i, lo, hi) && lo <= value <= hi
    ensures Within(Recorded(i, value), lo, hi)
  {
  }

  lemma AgedWithin(i: Info, lo: int, hi: int)
    requires Within(i, lo, hi)
    ensures Within(Aged(i), lo, hi)
  {
  }

  lemma StepWithin(c: Config, s: State, op: Op, q: nat, lo: int, hi: int)
    requires Shaped(s) && q < QUEUES && Within(s.info[q], lo, hi)
    requires forall v :: v in ValueFor(c, s, op, q) ==> lo <= v <= hi
    ensures Within(Step(c, s, op).info[q], lo, hi)
  {
    AgedWithin(s.info[q], lo, hi);
    if Learns(c, s, op) {
      var n := s.(queueNum := Clamp(s.queueNum));
      assert Value(n, op.p) == Value(s, op.p);
      if Target(c, n, op.p) == q {
        assert Value(s, op.p) in ValueFor(c, s, op, q);
        RecordedWithin(s.info[q], lo, hi, Value(s, op.p));
        AgedWithin(Recorded(s.info[q], Value(s, op.p)), lo, hi);
      }
    }
  }

  /** Over every run, however often it ages, a queue's average stays between the least and greatest value recorded. */
  lemma {:induction false} AverageStaysWithin(c: Config, s: State, ops: seq<Op>, q: nat, lo: int, hi: int)
    requires Shaped(s) && q < QUEUES && Within(s.info[q], lo, hi)
    requires forall v :: v in ValuesFor(c, s, ops, q) ==> lo <= v <= hi
    ensures Within(Run(c, s, ops).info[q], lo, hi)
    ensures Run(c, s, ops).info[q].distinct >= 1.0 ==> lo as real <= Average(Run(c, s, ops).info[q]) <= hi as real
    decreases |ops|
  {
    if ops == [] {
      if s.info[q].distinct >= 1.0 {
        QuotientWithin(s.info[q], lo, hi);
      }
    } else {
      var t := Step(c, s, ops[0]);
      assert forall v :: v in ValueFor(c, s, ops[0], q) ==> v in ValuesFor(c, s, ops, q);
      assert forall v :: v in ValuesFor(c, t, ops[1..], q) ==> v in ValuesFor(c, s, ops, q);
      StepWithin(c, s, ops[0], q, lo, hi);
      AverageStaysWithin(c, t, ops[1..], q, lo, hi);
    }
  }

  lemma QuotientWithin(i: Info, lo: int, hi: int)
    requires Within(i, lo, hi) && i.distinct > 0.0
    ensures lo as real <= i.counting / i.distinct <= hi as real
  {
  }

  // ---------- weights ----------

  datatype Message = NoMessage | In(id: int, bytes: int)

  /** What flow f has attained in its current message, judged from the counted packets accepted so far. */
  function Attained(accepted: seq<Packet>, f: int): Message {
    if accepted == [] then NoMessage
    else
      var before, p := Attained(accepted[..|accepted| - 1], f), accepted[|accepted| - 1];
      var bytes := if Payload(p) >= FULL then Payload(p) else 0;
      if p.flow != f then before
      else if before.In? && before.id == p.message then In(p.message, before.bytes + bytes)
      else In(p.message, bytes)
  }

  ghost predicate Tracks(s: State, accepted: seq<Packet>) {
    forall f :: match Attained(accepted, f)
      case NoMessage => f !in s.lastTime
      case In(m, n) => f in s.lastTime && s.lastTime[f] == m && f in s.countItem && s.countItem[f] == n
  }

  function AcceptedBy(c: Config, s: State, op: Op): seq<Packet> {
    if Learns(c, s, op) then [op.p] else []
  }

  function Accepted(c: Config, s: State, ops: seq<Op>): seq<Packet>
    requires Shaped(s)
    decreases |ops|
  {
    if ops == [] then [] else AcceptedBy(c, s, ops[0]) + Accepted(c, Step(c, s, ops[0]), ops[1..])
  }

  lemma CountIsAttained(s: State, accepted: seq<Packet>, p: Packet)
    requires Tracks(s, accepted)
    ensures Attained(accepted + [p], p.flow) == In(p.message, CountFor(s, p))
  {
  }

  lemma TracksStep(c: Config, s: State, op: Op, accepted: seq<Packet>)
    requires Shaped(s) && Tracks(s, accepted)
    ensures Tracks(Step(c, s, op), accepted + AcceptedBy(c, s, op))
  {
    assert accepted + [] == accepted;
    if Learns(c, s, op) {
      CountIsAttained(s, accepted, op.p);
      assert (accepted + [op.p])[..|accepted|] == accepted;
    }
  }

  lemma {:induction false} TracksRun(c: Config, s: State, ops: seq<Op>, accepted: seq<Packet>)
    requires Shaped(s) && Tracks(s, accepted)
    ensures Tracks(Run(c, s, ops), accepted + Accepted(c, s, ops))
    decreases |ops|
  {
    if ops == [] {
      assert accepted + [] == accepted;
    } else {
      TracksStep(c, s, ops[0], accepted);
      var t, here := Step(c, s, ops[0]), AcceptedBy(c, s, ops[0]);
      TracksRun(c, t, ops[1..], accepted + here);
      Prepend(accepted, here, Accepted(c, t, ops[1..]), Accepted(c, s, ops));
    }
  }

  function Initial(queueNum: int): State {
    State(queueNum, seq(QUEUES, _ => []), map[], map[], seq(QUEUES, _ => Info(0.0, 0.0)), 0.0)
  }

  /**
   * In every run from the constructor's state, the weight of a full-sized packet is the number of bytes that the
   * full-sized packets of its message, itself included, have brought so far; distinct is 0 or at least 1 throughout.
   */
  lemma WeightIsAttainedService(c: Config, queueNum: int, ops: seq<Op>, p: Packet)
    requires Counts(p) && Payload(p) >= FULL
    ensures Inv(Run(c, Initial(queueNum), ops))
    ensures Attained(Accepted(c, Initial(queueNum), ops) + [p], p.flow) ==
            In(p.message, Value(Run(c, Initial(queueNum), ops), p))
  {
    RunKeepsInv(c, Initial(queueNum), ops);
    TracksRun(c, Initial(queueNum), ops, []);
    var accepted := Accepted(c, Initial(queueNum), ops);
    assert [] + accepted == accepted;
    CountIsAttained(Run(c, Initial(queueNum), ops), accepted, p);
  }
}
