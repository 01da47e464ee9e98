/**
 * FQ_QC in numbers: thresholds as nearest averages, where a packet is stored and how it is marked, what the
 * statistics hold after a run, and how often each queue is served in a round.
 */
module CreditRules {
  import opened Basics
  import opened Packets
  import opened IntegerRoot
  import opened RatioDistance
  import opened FairQueueCredits
  import C = HostClassifier
  import R = FlowRounds

  // ---------- thresholds ----------

  /** The estimate for queue i: the average of the counts recorded for it, at least 1. */
  function Lower(sum: seq<nat>, num: seq<nat>, i: nat): nat
    requires |sum| == |num| && i + 1 < |num|
  {
    var here := if num[i] > 0 then sum[i] / num[i] else 0;
    if here > 0 then here else 1
  }

  /** The estimate for the queue behind it: the averages of both queues together, at least 1. */
  function Upper(sum: seq<nat>, num: seq<nat>, i: nat): nat
    requires |sum| == |num| && i + 1 < |num|
  {
    var here := if num[i] > 0 then sum[i] / num[i] else 0;
    var next := if num[i + 1] > 0 then sum[i + 1] / num[i + 1] else 0;
    if here + next > 0 then here + next else 1
  }

  lemma NextIsMean(sum: seq<nat>, num: seq<nat>, before: seq<nat>)
    requires |sum| == |num| && |before| + 1 < |num|
    ensures
      var i := |before|;
      var base := if i == 0 then 0 else before[i - 1];
      NextThreshold(sum, num, before) == FlooredMean(base + Lower(sum, num, i), base + Upper(sum, num, i))
  {
  }

  lemma {:induction false} ThresholdAt(sum: seq<nat>, num: seq<nat>, n: nat, i: nat)
    requires |sum| == |num| && i < n < |num|
    ensures
      var t := Thresholds(sum, num, n);
      var base := if i == 0 then 0 else t[i - 1];
      t[i] == FlooredMean(base + Lower(sum, num, i), base + Upper(sum, num, i))
  {
    var before := Thresholds(sum, num, n - 1);
    assert Thresholds(sum, num, n) == before + [NextThreshold(sum, num, before)];
    if i < n - 1 {
      ThresholdAt(sum, num, n - 1, i);
    } else {
      NextIsMean(sum, num, before);
    }
  }

  /**
   * Whatever the statistics, a count passes queue i exactly when it is nearer in ratio to the upper estimate than to
   * the lower one, both shifted by the threshold before; equal estimates are the threshold themselves.
   */
  lemma ThresholdIsMean(sum: seq<nat>, num: seq<nat>, n: nat, i: nat, count: nat)
    requires |sum| == |num| && i < n < |num| && count > 1
    ensures
      var t := Thresholds(sum, num, n);
      var before := if i == 0 then 0 else t[i - 1];
      var x, y := before + Lower(sum, num, i), before + Upper(sum, num, i);
      && x <= y
      && (x == y ==> t[i] == x)
      && (x < y ==> (count <= t[i] + 1 <==> AsNear((count - 1) as real, x as real, y as real)))
  {
    var t := Thresholds(sum, num, n);
    var before := if i == 0 then 0 else t[i - 1];
    ThresholdAt(sum, num, n, i);
    MeanPasses(before + Lower(sum, num, i), before + Upper(sum, num, i), count);
  }

  lemma MeanPasses(x: nat, y: nat, count: nat)
    requires 0 < x <= y && count > 1
    ensures x == y ==> FlooredMean(x, y) == x
    ensures x < y ==> (count <= FlooredMean(x, y) + 1 <==> AsNear((count - 1) as real, x as real, y as real))
  {
    if x == y {
      RootBetween(x, y);
    } else {
      AtMostRoot(count - 1, x * y);
      C.IntegerMeanDecides(count - 1, x, y);
    }
  }

  // ---------- enque ----------

  /** What enque does to the queues: a packet that does not fit is dropped, others are marked by the port's bytes. */
  lemma StoredAtTarget(c: Config, s: State, p: Packet)
    requires Shaped(s)
    ensures Shaped(Enqueue(c, s, p))
    ensures TotalBytes(s.qs) + p.size > c.limitBytes ==> Enqueue(c, s, p) == s.(queueNum := Clamp(s.queueNum))
    ensures TotalBytes(s.qs) + p.size <= c.limitBytes ==>
              var q := Target(s, p);
              var full := TotalBytes(s.qs) + p.size > c.markBytes;
              Enqueue(c, s, p).qs == s.qs[q := s.qs[q] + [p.(ce := p.ce || (p.ect && full))]]
  {
    var q := Target(s, p);
    BytesOfAppend(s.qs[q], p);
    TotalBytesUpdate(s.qs, q, s.qs[q] + [p]);
    EnqueueEffect(c, s, p);
  }

  // ---------- statistics ----------

  /** What the packets placed in queue q add to pkt_num: 1 and the ordinal in its message, for each of them. */
  function Booked(accepted: seq<Packet>, queues: nat, q: nat): nat
    requires queues >= 1
  {
    if accepted == [] then 0
    else
      var p := accepted[|accepted| - 1];
      var ordinal := StandingOf(accepted, p.flow).count;
      Booked(accepted[..|accepted| - 1], queues, q) + if Placement(queues, ordinal) == q then 1 + ordinal else 0
  }

  /** pkt_num holds what the accepted packets add up to. */
  ghost predicate NumBooked(s: State, accepted: seq<Packet>) {
    |s.pktNum| == 8 && forall q :: 0 <= q < 8 ==> s.pktNum[q] == Booked(accepted, Clamp(s.queueNum), q)
  }

  /** A flow is listed for the queues that packets of its current message were placed in. */
  ghost predicate FlowsListed(s: State, accepted: seq<Packet>) {
    |s.flowsIn| == 8 && forall q, f :: 0 <= q < 8 ==>
      (f in s.flowsIn[q] <==>
         var standing := StandingOf(accepted, f);
         standing.In? && q <= Placement(Clamp(s.queueNum), standing.count))
  }

  ghost predicate Books(s: State, accepted: seq<Packet>) {
    NumBooked(s, accepted) && FlowsListed(s, accepted)
  }

  lemma PlacementSteps(n: nat, ordinal: nat)
    requires n >= 1 && ordinal >= 1
    ensures Placement(n, 1) == 0
    ensures Placement(n, ordinal) <= Placement(n, ordinal + 1) <= Placement(n, ordinal) + 1
  {
  }

  lemma EnqueueNum(c: Config, s: State, p: Packet, accepted: seq<Packet>)
    requires Shaped(s) && Clamp(s.queueNum) > 1 && Tracks(s, accepted) && NumBooked(s, accepted)
    requires forall i :: 0 <= i < QUEUES ==> s.pktSum[i] == 0
    requires TotalBytes(s.qs) + p.size <= c.limitBytes
    ensures NumBooked(Enqueue(c, s, p), accepted + [p])
  {
    assert (accepted + [p])[..|accepted|] == accepted;
    TargetByOrdinal(s, p, accepted);
    TracksEnqueue(c, s, p, accepted);
    assert Enqueue(c, s, p).flowCount[p.flow] == StandingOf(accepted + [p], p.flow).count;
  }

  lemma EnqueueFlows(c: Config, s: State, p: Packet, accepted: seq<Packet>)
    requires Shaped(s) && Clamp(s.queueNum) > 1 && Tracks(s, accepted) && FlowsListed(s, accepted)
    requires forall i :: 0 <= i < QUEUES ==> s.pktSum[i] == 0
    requires TotalBytes(s.qs) + p.size <= c.limitBytes
    ensures FlowsListed(Enqueue(c, s, p), accepted + [p])
  {
    assert (accepted + [p])[..|accepted|] == accepted;
    TargetByOrdinal(s, p, accepted);
    var was := StandingOf(accepted, p.flow);
    if was.In? && was.message == p.message {
      PlacementSteps(Clamp(s.queueNum), was.count);
    }
  }

  lemma StepBooks(c: Config, s: State, op: Op, accepted: seq<Packet>)
    requires FairQueueCredits.Inv(s) && Clamp(s.queueNum) > 1 && Tracks(s, accepted) && Books(s, accepted)
    requires forall i :: 0 <= i < QUEUES ==> s.pktSum[i] == 0
    ensures Books(Step(c, s, op), accepted + AcceptedBy(c, s, op))
  {
    assert accepted + [] == accepted;
    match op
    case Enq(p) =>
      if TotalBytes(s.qs) + p.size <= c.limitBytes {
        EnqueueNum(c, s, p, accepted);
        EnqueueFlows(c, s, p, accepted);
      }
    case Deq => DequeueKeepsInv(s);
  }

  lemma {:induction false} RunBooks(c: Config, s: State, ops: seq<Op>, accepted: seq<Packet>)
    requires FairQueueCredits.Inv(s) && Clamp(s.queueNum) > 1 && Tracks(s, accepted) && Books(s, accepted)
    requires forall i :: 0 <= i < QUEUES ==> s.pktSum[i] == 0
    ensures Books(Run(c, s, ops), accepted + Accepted(c, s, ops))
    decreases |ops|
  {
    if ops == [] {
      assert accepted + [] == accepted;
    } else {
      StepKeepsInv(c, s, ops[0]);
      TracksStep(c, s, ops[0], accepted);
      StepBooks(c, s, ops[0], accepted);
      var t, here := Step(c, s, ops[0]), AcceptedBy(c, s, ops[0]);
      RunBooks(c, t, ops[1..], accepted + here);
      Prepend(accepted, here, Accepted(c, t, ops[1..]), Accepted(c, s, ops));
    }
  }

  /**
   * In every run with at least two queues from the constructor's state, pkt_num and count_flow_in are fixed by the
   * accepted packets: each packet adds 1 and its ordinal to its queue, and a flow is listed for exactly the queues that
   * packets of its current message were placed in.
   */
  lemma StatisticsByOrdinal(c: Config, queueNum: int, ops: seq<Op>)
    requires Clamp(queueNum) > 1
    ensures FairQueueCredits.Inv(Initial(queueNum))
    ensures Books(Run(c, Initial(queueNum), ops), Accepted(c, Initial(queueNum), ops))
  {
    InitialInv(queueNum);
    RunBooks(c, Initial(queueNum), ops, []);
    assert [] + Accepted(c, Initial(queueNum), ops) == Accepted(c, Initial(queueNum), ops);
  }

  // ---------- a round in numbers ----------

  function Times(queues: seq<nat>, q: nat): nat {
    if queues == [] then 0 else (if queues[0] == q then 1 else 0) + Times(queues[1..], q)
  }

  lemma {:induction false} TimesConcat(a: seq<nat>, b: seq<nat>, q: nat)
    ensures Times(a + b, q) == Times(a, q) + Times(b, q)
  {
    if a == [] {
      assert a + b == b;
    } else {
      assert (a + b)[1..] == a[1..] + b;
      TimesConcat(a[1..], b, q);
    }
  }

  lemma {:induction false} TimesRepeated(i: nat, n: nat, q: nat)
    ensures Times(R.Repeated(i, n), q) == if i == q then n else 0
  {
    if n > 0 {
      assert R.Repeated(i, n)[1..] == R.Repeated(i, n - 1);
      TimesRepeated(i, n - 1, q);
    }
  }

  ghost predicate Sorted(queues: seq<nat>) {
    forall i, j :: 0 <= i < j < |queues| ==> queues[i] <= queues[j]
  }

  lemma {:induction false} ScheduleTimes(credits: seq<nat>, i: nat, q: nat)
    requires i <= |credits|
    ensures Times(R.Schedule(credits, i), q) == if i <= q < |credits| then credits[q] else 0
    decreases |credits| - i
  {
    if i < |credits| {
      ScheduleTimes(credits, i + 1, q);
      TimesConcat(R.Repeated(i, credits[i]), R.Schedule(credits, i + 1), q);
      TimesRepeated(i, credits[i], q);
    }
  }

  ghost predicate AtLeast(queues: seq<nat>, i: nat) {
    forall k :: 0 <= k < |queues| ==> i <= queues[k]
  }

  lemma SortedBehind(i: nat, n: nat, rest: seq<nat>)
    requires Sorted(rest) && AtLeast(rest, i + 1)
    ensures Sorted(R.Repeated(i, n) + rest) && AtLeast(R.Repeated(i, n) + rest, i)
  {
    var all := R.Repeated(i, n) + rest;
    assert forall k :: 0 <= k < n ==> all[k] == i;
    assert forall k :: n <= k < |all| ==> all[k] == rest[k - n];
  }

  lemma {:induction false} ScheduleSorted(credits: seq<nat>, i: nat)
    requires i <= |credits|
    ensures Sorted(R.Schedule(credits, i)) && AtLeast(R.Schedule(credits, i), i)
    decreases |credits| - i
  {
    if i < |credits| {
      ScheduleSorted(credits, i + 1);
      SortedBehind(i, credits[i], R.Schedule(credits, i + 1));
    }
  }

  /**
   * In the services between two consecutive refills, the queues come in increasing order, and queue q comes as often
   * as there were different flows among its packets at the first refill.
   */
  lemma RoundInNumbers(c: Config, s: State, ops: seq<Op>, q: nat)
    requires FairQueueCredits.Inv(s) && Exhausted(s) && TotalBytes(s.qs) > 0 && q < 8
    requires ops != [] && ops[0] == Deq
    requires R.NoRefill(Services(c, s, ops)[1..]) && Exhausted(Run(c, s, ops))
    ensures Sorted(R.QueuesOf(Services(c, s, ops)))
    ensures Times(R.QueuesOf(Services(c, s, ops)), q) == |set i | 0 <= i < |s.qs[q]| :: s.qs[q][i].flow|
  {
    CompleteRound(c, s, ops);
    ScheduleTimes(R.DistinctFlowCounts(s.qs), 0, q);
    ScheduleSorted(R.DistinctFlowCounts(s.qs), 0);
  }
}
