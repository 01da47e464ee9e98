/**
 * FQ_QC: thresholds, flow maps and credits as the code keeps them, the invariant that couples them, and the proof
 * that every run is a run of the round robin of FlowRounds.
 */
module FairQueueCredits {
  import opened Basics
  import opened Packets
  import opened IntegerRoot
  import R = FlowRounds

  const QUEUES: nat := R.QUEUES

  datatype Config = Config(limitBytes: int, markBytes: int)

  /**
   * `flows[i]` is current_flow[i] (packets of each flow stored in queue i), `credits` is rr_times, `flowCount`
   * counts the packets of the message that each flow is in, and `messageId` remembers that message.
   */
  datatype State = State(
    queueNum: int,
    qs: seq<seq<Packet>>,
    flows: seq<map<int, nat>>,
    credits: seq<nat>,
    pktNum: seq<nat>,
    pktSum: seq<nat>,
    flowCount: map<int, nat>,
    messageId: map<int, int>,
    flowsIn: seq<set<int>>)

  // ---------- thresholds ----------

  function Average(sum: nat, num: nat): nat {
    if num > 0 then sum / num else 0
  }

  /** Qthres[0..n]. */
  function Thresholds(sum: seq<nat>, num: seq<nat>, n: nat): (thresholds: seq<nat>)
    requires |sum| == |num| && (n == 0 || n < |num|)
    ensures |thresholds| == n
  {
    if n == 0 then []
    else
      var before := Thresholds(sum, num, n - 1);
      before + [NextThreshold(sum, num, before)]
  }

  function NextThreshold(sum: seq<nat>, num: seq<nat>, before: seq<nat>): nat
    requires |before| + 1 < |num| == |sum|
  {
    ThresholdOver(if before == [] then 0 else before[|before| - 1], Average(sum[|before|], num[|before|]),
                  Average(sum[|before| + 1], num[|before| + 1]))
  }

  /** The floored geometric mean of two estimates, both shifted by the threshold before. */
  function ThresholdOver(base: nat, here: nat, next: nat): nat {
    FlooredMean(AtLeastOne(here) + base, AtLeastOne(here + next) + base)
  }

  /** The first queue from i on whose threshold the count does not exceed by more than one; the last queue otherwise. */
  function Choose(count: nat, thresholds: seq<nat>, i: nat): (q: nat)
    requires i <= |thresholds|
    ensures i <= q <= |thresholds|
    decreases |thresholds| - i
  {
    if i == |thresholds| || count <= thresholds[i] + 1 then i else Choose(count, thresholds, i + 1)
  }

  ghost predicate Spread(thresholds: seq<nat>) {
    && (|thresholds| > 0 ==> thresholds[0] >= 1)
    && forall i, j :: 0 <= i < j < |thresholds| ==> thresholds[i] + (j - i) <= thresholds[j]
  }

  lemma ThresholdAboveBase(base: nat, here: nat, next: nat)
    ensures ThresholdOver(base, here, next) >= base + 1
  {
    RootBetween(AtLeastOne(here) + base, AtLeastOne(here + next) + base);
  }

  /** Whatever the statistics, each threshold exceeds the one before it by at least one. */
  lemma {:induction false} ThresholdsSpread(sum: seq<nat>, num: seq<nat>, n: nat)
    requires |sum| == |num| && (n == 0 || n < |num|)
    ensures Spread(Thresholds(sum, num, n))
  {
    if n > 0 {
      ThresholdsSpread(sum, num, n - 1);
      var before := Thresholds(sum, num, n - 1);
      var i := n - 1;
      var base := if i > 0 then before[i - 1] else 0;
      var here, next := Average(sum[i], num[i]), Average(sum[i + 1], num[i + 1]);
      ThresholdAboveBase(base, here, next);
      assert Thresholds(sum, num, n)[i] == ThresholdOver(base, here, next);
    }
  }

  /** A larger count never moves a flow to an earlier queue. */
  lemma {:induction false} ChooseMonotone(count: nat, more: nat, thresholds: seq<nat>, i: nat)
    requires i <= |thresholds| && count <= more
    ensures Choose(count, thresholds, i) <= Choose(more, thresholds, i)
    decreases |thresholds| - i
  {
    if i < |thresholds| {
      ChooseMonotone(count, more, thresholds, i + 1);
    }
  }

  lemma {:induction false} ChooseIs(count: nat, thresholds: seq<nat>, i: nat, q: nat)
    requires i <= q <= |thresholds|
    requires forall k :: i <= k < q ==> count > thresholds[k] + 1
    requires q < |thresholds| ==> count <= thresholds[q] + 1
    ensures Choose(count, thresholds, i) == q
    decreases q - i
  {
    if i < q {
      ChooseIs(count, thresholds, i + 1, q);
    }
  }

  /** Every queue is reachable by some count. */
  lemma EveryQueueReachable(sum: seq<nat>, num: seq<nat>, n: nat, q: nat)
    requires |sum| == |num| && (n == 0 || n < |num|) && q <= n
    ensures exists count: nat :: Choose(count, Thresholds(sum, num, n), 0) == q
  {
    var thresholds := Thresholds(sum, num, n);
    ThresholdsSpread(sum, num, n);
    ChooseIs(if q == 0 then 0 else thresholds[q - 1] + 2, thresholds, 0, q);
  }

  /** pkt_sum is never written after construction, and while it is zero the thresholds are 1, 2, 3, ... */
  lemma {:induction false} FrozenThresholds(sum: seq<nat>, num: seq<nat>, n: nat)
    requires |sum| == |num| && (n == 0 || n < |num|)
    requires forall i :: 0 <= i < |sum| ==> sum[i] == 0
    ensures forall i :: 0 <= i < n ==> Thresholds(sum, num, n)[i] == i + 1
  {
    if n > 0 {
      FrozenThresholds(sum, num, n - 1);
      var i := n - 1;
      assert Average(sum[i], num[i]) == 0 && Average(sum[i + 1], num[i + 1]) == 0;
      RootIsUnique(i + 1, (i + 1) * (i + 1));
    }
  }

  // ---------- enque ----------

  predicate Known(s: State, f: int) {
    f in s.flowCount && s.queueNum > 1 && f in s.messageId
  }

  function Chosen(s: State, p: Packet): (q: nat)
    requires Shaped(s) && 1 <= s.queueNum <= QUEUES
    ensures q < s.queueNum
  {
    if Known(s, p.flow) && s.messageId[p.flow] == p.message
    then Choose(s.flowCount[p.flow], Thresholds(s.pktSum, s.pktNum, s.queueNum - 1), 0)
    else 0
  }

  function Bumped(m: map<int, nat>, f: int): map<int, nat> {
    m[f := (if f in m then m[f] else 0) + 1]
  }

  /** A known flow that starts a new message is forgotten before the packet is stored. */
  function Forget(s: State, p: Packet): State
    requires Shaped(s) && 1 <= s.queueNum <= QUEUES
  {
    if Known(s, p.flow) && s.messageId[p.flow] != p.message then
      s.(flowCount := s.flowCount[p.flow := 0],
         flowsIn := seq(QUEUES, i requires 0 <= i < QUEUES =>
           if i < s.queueNum then s.flowsIn[i] - {p.flow} else s.flowsIn[i]))
    else s
  }

  /** Storing p in queue q with the bookkeeping that follows label ENQUE. */
  function Store(c: Config, s: State, p: Packet, q: nat): State
    requires Shaped(s) && q < QUEUES
  {
    var grown := s.qs[q := s.qs[q] + [p]];
    var stored := Marked(p, TotalBytes(grown) > c.markBytes);
    var t := s.(qs := s.qs[q := s.qs[q] + [stored]], flows := s.flows[q := Bumped(s.flows[q], p.flow)]);
    if s.queueNum > 1 then
      var counted := Bumped(s.flowCount, p.flow);
      t.(flowCount := counted,
         flowsIn := s.flowsIn[q := s.flowsIn[q] + {p.flow}],
         pktNum := s.pktNum[q := s.pktNum[q] + 1 + counted[p.flow]],
         messageId := s.messageId[p.flow := p.message])
    else t
  }

  function Enqueue(c: Config, s: State, p: Packet): State
    requires Shaped(s)
  {
    var s := s.(queueNum := Clamp(s.queueNum));
    if Accepts(c.limitBytes, s.qs, p) then Store(c, Forget(s, p), p, Chosen(s, p)) else s
  }

  // ---------- deque ----------

  /** One credit per distinct flow stored in the queue. */
  function Refill(flows: seq<map<int, nat>>, credits: seq<nat>, n: nat): (r: seq<nat>)
    requires n <= |flows| == |credits|
  {
    seq(|credits|, i requires 0 <= i < |credits| => if i < n then |flows[i]| else credits[i])
  }

  function Withdrawn(m: map<int, nat>, f: int): map<int, nat>
    requires f in m && m[f] > 0
  {
    if m[f] == 1 then m - {f} else m[f := m[f] - 1]
  }

  predicate CanSpend(s: State, k: nat) {
    && Shaped(s) && k < QUEUES && s.qs[k] != [] && s.credits[k] > 0
    && s.qs[k][0].flow in s.flows[k] && s.flows[k][s.qs[k][0].flow] > 0
  }

  /** Queue k gives up its first packet and one credit. */
  function Spend(s: State, k: nat): State
    requires CanSpend(s, k)
  {
    s.(qs := s.qs[k := s.qs[k][1..]],
       credits := s.credits[k := s.credits[k] - 1],
       flows := s.flows[k := Withdrawn(s.flows[k], s.qs[k][0].flow)])
  }

  predicate Exhausted(s: State)
    requires Inv(s)
  {
    R.FirstCredit(s.credits, 0, Clamp(s.queueNum)) == Clamp(s.queueNum)
  }

  function CreditsForServing(s: State): seq<nat>
    requires Inv(s)
  {
    if Exhausted(s) then Refill(s.flows, s.credits, Clamp(s.queueNum)) else s.credits
  }

  function Dequeue(s: State): (State, Option<Service>)
    requires Inv(s)
  {
    if TotalBytes(s.qs) == 0 then (s, None)
    else
      SomeCredit(s);
      var credits := CreditsForServing(s);
      var k := R.FirstCredit(credits, 0, s.queueNum);
      var p := s.qs[k][0];
      (Spend(s.(credits := credits), k), Some(Service(k, p, Exhausted(s))))
  }

  // ---------- the coupling invariant ----------

  predicate Shaped(s: State) {
    && |s.qs| == QUEUES && |s.flows| == QUEUES && |s.credits| == QUEUES
    && |s.pktNum| == QUEUES && |s.pktSum| == QUEUES && |s.flowsIn| == QUEUES
  }

  /** How many packets of flow f the FIFO holds. */
  function Count(q: seq<Packet>, f: int): nat {
    if q == [] then 0 else (if q[0].flow == f then 1 else 0) + Count(q[1..], f)
  }

  /** m counts the packets of every flow in q and has no entry for a flow without packets. */
  ghost predicate Counts(m: map<int, nat>, q: seq<Packet>) {
    forall f :: (f in m <==> Count(q, f) > 0) && (f in m ==> m[f] == Count(q, f))
  }

  /** Flow maps mirror the FIFOs, and no queue has more credits than packets. */
  ghost predicate Inv(s: State) {
    && Shaped(s)
    && (forall i :: 0 <= i < QUEUES ==> Counts(s.flows[i], s.qs[i]))
    && (forall i :: 0 <= i < QUEUES ==> s.credits[i] <= |s.qs[i]|)
    && (forall i :: Clamp(s.queueNum) <= i < QUEUES ==> s.qs[i] == [])
    && (1 <= s.queueNum <= QUEUES || forall i :: 0 <= i < QUEUES ==> s.qs[i] == [])
  }

  lemma {:induction false} CountConcat(a: seq<Packet>, b: seq<Packet>, f: int)
    ensures Count(a + b, f) == Count(a, f) + Count(b, f)
  {
    if a == [] {
      assert a + b == b;
    } else {
      assert (a + b)[1..] == a[1..] + b;
      CountConcat(a[1..], b, f);
    }
  }

  lemma CountsAppend(m: map<int, nat>, q: seq<Packet>, p: Packet)
    requires Counts(m, q)
    ensures Counts(Bumped(m, p.flow), q + [p])
  {
    forall f
      ensures Count(q + [p], f) == Count(q, f) + if f == p.flow then 1 else 0
    {
      CountConcat(q, [p], f);
      assert [p][1..] == [];
    }
  }

  lemma CountsTail(m: map<int, nat>, q: seq<Packet>)
    requires Counts(m, q) && q != []
    ensures q[0].flow in m && m[q[0].flow] > 0
    ensures Counts(Withdrawn(m, q[0].flow), q[1..])
  {
  }

  lemma {:induction false} CountMeansMember(q: seq<Packet>, f: int)
    ensures Count(q, f) > 0 <==> f in R.Flows(q)
  {
    if q != [] {
      CountMeansMember(q[1..], f);
      assert forall i :: 1 <= i < |q| ==> q[i] == q[1..][i - 1];
      assert Count(q, f) > 0 <==> q[0].flow == f || f in R.Flows(q[1..]);
    }
  }

  /** The size of a flow map is the number of distinct flows stored, hence at most the number of packets. */
  lemma DistinctFlows(m: map<int, nat>, q: seq<Packet>)
    requires Counts(m, q)
    ensures |m| == |R.Flows(q)| <= |q|
    ensures q != [] ==> |m| > 0
  {
    R.FlowsAtMostPackets(q);
    forall f
      ensures f in m.Keys <==> f in R.Flows(q)
    {
      CountMeansMember(q, f);
    }
    assert m.Keys == R.Flows(q);
  }

  lemma RefillFits(s: State)
    requires Inv(s)
    ensures forall i :: 0 <= i < QUEUES ==> CreditsForServing(s)[i] <= |s.qs[i]|
    ensures Exhausted(s) ==> forall i :: 0 <= i < QUEUES ==> CreditsForServing(s)[i] == |R.Flows(s.qs[i])|
    ensures Exhausted(s) ==> forall i :: 0 <= i < QUEUES ==> (s.qs[i] != [] <==> CreditsForServing(s)[i] > 0)
  {
    forall i | 0 <= i < QUEUES
      ensures |s.flows[i]| == |R.Flows(s.qs[i])| <= |s.qs[i]|
      ensures s.qs[i] != [] ==> |s.flows[i]| > 0
    {
      DistinctFlows(s.flows[i], s.qs[i]);
    }
  }

  /** When bytes are stored, some queue has a credit to spend, and it is not empty. */
  lemma SomeCredit(s: State)
    requires Inv(s) && TotalBytes(s.qs) > 0
    ensures 1 <= s.queueNum <= QUEUES
    ensures
      var k := R.FirstCredit(CreditsForServing(s), 0, s.queueNum);
      k < s.queueNum && CanSpend(s.(credits := CreditsForServing(s)), k)
  {
    TotalBytesZero(s.qs);
    RefillFits(s);
    var i :| 0 <= i < QUEUES && s.qs[i] != [];
    var credits := CreditsForServing(s);
    var k := R.FirstCredit(credits, 0, s.queueNum);
    assert Exhausted(s) ==> credits[i] > 0;
    CountsTail(s.flows[k], s.qs[k]);
  }

  // ---------- steps and runs ----------

  datatype Op = Enq(p: Packet) | Deq

  /** What enque does to the queues, the flow maps and the credits. */
  lemma EnqueueEffect(c: Config, s: State, p: Packet)
    requires Shaped(s)
    ensures
      var t := Enqueue(c, s, p);
      && Shaped(t) && t.queueNum == Clamp(s.queueNum) && t.credits == s.credits && t.pktSum == s.pktSum
      && (if Accepts(c.limitBytes, s.qs, p) then
            var q := Target(s, p);
            && t.qs == s.qs[q := s.qs[q] + [Stored(c, s, p)]]
            && t.flows == s.flows[q := Bumped(s.flows[q], p.flow)]
          else
            t.qs == s.qs && t.flows == s.flows)
  {
  }

  function Target(s: State, p: Packet): (q: nat)
    requires Shaped(s)
    ensures q < Clamp(s.queueNum)
  {
    Chosen(s.(queueNum := Clamp(s.queueNum)), p)
  }

  function Stored(c: Config, s: State, p: Packet): Packet
    requires Shaped(s)
  {
    Marked(p, TotalBytes(s.qs[Target(s, p) := s.qs[Target(s, p)] + [p]]) > c.markBytes)
  }

  lemma EnqueueKeepsInv(c: Config, s: State, p: Packet)
    requires Inv(s)
    ensures Inv(Enqueue(c, s, p))
  {
    EnqueueEffect(c, s, p);
    if Accepts(c.limitBytes, s.qs, p) {
      CountsAppend(s.flows[Target(s, p)], s.qs[Target(s, p)], Stored(c, s, p));
    }
  }

  /** Serving keeps the coupling invariant; a packet leaves exactly when one is stored. */
  lemma DequeueKeepsInv(s: State)
    requires Inv(s)
    ensures Inv(Dequeue(s).0)
    ensures Dequeue(s).1.None? <==> forall i :: 0 <= i < QUEUES ==> s.qs[i] == []
  {
    TotalBytesZero(s.qs);
    if TotalBytes(s.qs) != 0 {
      SomeCredit(s);
      RefillFits(s);
      var k := R.FirstCredit(CreditsForServing(s), 0, s.queueNum);
      CountsTail(s.flows[k], s.qs[k]);
    }
  }

  function Step(c: Config, s: State, op: Op): State
    requires Inv(s)
  {
    match op
    case Enq(p) => Enqueue(c, s, p)
    case Deq => Dequeue(s).0
  }

  function Output(s: State, op: Op): seq<Service>
    requires Inv(s)
  {
    if op == Deq && Dequeue(s).1.Some? then [Dequeue(s).1.value] else []
  }

  lemma StepKeepsInv(c: Config, s: State, op: Op)
    requires Inv(s)
    ensures Inv(Step(c, s, op))
  {
    match op
    case Enq(p) => EnqueueKeepsInv(c, s, p);
    case Deq => DequeueKeepsInv(s);
  }

  /** The coupling invariant holds in every reachable state. */
  function Run(c: Config, s: State, ops: seq<Op>): (t: State)
    requires Inv(s)
    ensures Inv(t)
    decreases |ops|
  {
    if ops == [] then s
    else StepKeepsInv(c, s, ops[0]); Run(c, Step(c, s, ops[0]), ops[1..])
  }

  function Services(c: Config, s: State, ops: seq<Op>): seq<Service>
    requires Inv(s)
    decreases |ops|
  {
    if ops == [] then []
    else StepKeepsInv(c, s, ops[0]); Output(s, ops[0]) + Services(c, Step(c, s, ops[0]), ops[1..])
  }

  // ---------- refinement of the round robin ----------

  function View(s: State): R.Rounds {
    R.Rounds(s.qs, s.credits)
  }

  function EventOf(c: Config, s: State, op: Op): (e: R.Event)
    requires Inv(s)
    ensures R.OkEvent(e)
  {
    match op
    case Enq(p) => if Accepts(c.limitBytes, s.qs, p) then R.Arrive(Target(s, p), Stored(c, s, p)) else R.Drop
    case Deq => R.Serve
  }

  function Events(c: Config, s: State, ops: seq<Op>): (es: seq<R.Event>)
    requires Inv(s)
    ensures |es| == |ops| && forall i :: 0 <= i < |es| ==> R.OkEvent(es[i])
    decreases |ops|
  {
    if ops == [] then []
    else StepKeepsInv(c, s, ops[0]); [EventOf(c, s, ops[0])] + Events(c, Step(c, s, ops[0]), ops[1..])
  }

  /** Queues beyond queue_num_ are empty, so looking at all of them finds the same credit. */
  lemma ViewCredits(s: State)
    requires Inv(s)
    ensures Exhausted(s) == R.Exhausted(s.credits)
    ensures CreditsForServing(s) == R.Current(View(s))
    ensures 1 <= s.queueNum <= QUEUES ==>
              var k := R.FirstCredit(CreditsForServing(s), 0, s.queueNum);
              R.Chosen(View(s)) == if k < s.queueNum then k else QUEUES
  {
    RefillFits(s);
    R.CurrentFits(View(s));
  }

  lemma DequeueRefines(s: State)
    requires Inv(s)
    ensures R.Ok(View(s))
    ensures View(Dequeue(s).0) == R.Served(View(s)).0
    ensures Dequeue(s).1 == R.Served(View(s)).1
  {
    TotalBytesZero(s.qs);
    ViewCredits(s);
    assert R.Empty(View(s)) <==> TotalBytes(s.qs) == 0;
    if TotalBytes(s.qs) != 0 {
      SomeCredit(s);
      var k := R.FirstCredit(CreditsForServing(s), 0, s.queueNum);
      assert R.Chosen(View(s)) == k;
      assert Dequeue(s).0.qs == s.qs[k := s.qs[k][1..]];
    }
  }

  /** Every step of FQ_QC is a step of the round robin: flow maps count distinct flows without looking at queues. */
  lemma StepRefines(c: Config, s: State, op: Op)
    requires Inv(s)
    ensures R.Ok(View(s))
    ensures View(Step(c, s, op)) == R.Step(View(s), EventOf(c, s, op))
    ensures Output(s, op) == R.Output(View(s), EventOf(c, s, op))
  {
    match op {
      case Enq(p) => EnqueueEffect(c, s, p);
      case Deq =>
        DequeueRefines(s);
        DequeueKeepsInv(s);
    }
  }

  lemma {:induction false} RunRefines(c: Config, s: State, ops: seq<Op>)
    requires Inv(s)
    ensures R.Ok(View(s))
    ensures View(Run(c, s, ops)) == R.Run(View(s), Events(c, s, ops))
    ensures Services(c, s, ops) == R.Services(View(s), Events(c, s, ops))
    decreases |ops|
  {
    if ops != [] {
      StepKeepsInv(c, s, ops[0]);
      StepRefines(c, s, ops[0]);
      RunRefines(c, Step(c, s, ops[0]), ops[1..]);
      assert Events(c, s, ops)[1..] == Events(c, Step(c, s, ops[0]), ops[1..]);
    }
  }

  /** Between two consecutive refills, queue i is served once per flow it held at the first, in queue order. */
  lemma CompleteRound(c: Config, s: State, ops: seq<Op>)
    requires Inv(s) && Exhausted(s) && TotalBytes(s.qs) > 0
    requires ops != [] && ops[0] == Deq
    requires R.NoRefill(Services(c, s, ops)[1..]) && Exhausted(Run(c, s, ops))
    ensures R.QueuesOf(Services(c, s, ops)) == R.Schedule(R.DistinctFlowCounts(s.qs), 0)
  {
    TotalBytesZero(s.qs);
    RunRefines(c, s, ops);
    ViewCredits(s);
    ViewCredits(Run(c, s, ops));
    R.CompleteRound(View(s), Events(c, s, ops));
  }

  /** A packet with k packets ahead of it in its queue departs within k + 1 complete rounds after the current one. */
  lemma DepartsWithinRounds(c: Config, s: State, ops: seq<Op>, q: nat, k: nat)
    requires Inv(s) && q < QUEUES && k < |s.qs[q]|
    requires R.Refills(Services(c, s, ops)) >= k + 2
    ensures k < |Departures(Services(c, s, ops), q)|
    ensures Departures(Services(c, s, ops), q)[k] == s.qs[q][k]
  {
    RunRefines(c, s, ops);
    R.DepartsWithinRounds(View(s), Events(c, s, ops), q, k);
  }

  // ---------- which queue a packet gets ----------

  function Initial(queueNum: int): State {
    State(queueNum, seq(QUEUES, _ => []), seq(QUEUES, _ => map[]), seq(QUEUES, _ => 0), seq(QUEUES, _ => 0),
          seq(QUEUES, _ => 0), map[], map[], seq(QUEUES, _ => {}))
  }

  lemma InitialInv(queueNum: int)
    ensures Inv(Initial(queueNum))
  {
  }

  datatype Standing = Unseen | In(message: int, count: nat)

  /** How far flow f is into its current message, judged from the packets accepted so far. */
  function StandingOf(accepted: seq<Packet>, f: int): Standing {
    if accepted == [] then Unseen
    else
      var before, p := StandingOf(accepted[..|accepted| - 1], f), accepted[|accepted| - 1];
      if p.flow != f then before
      else if before.In? && before.message == p.message then In(p.message, before.count + 1)
      else In(p.message, 1)
  }

  ghost predicate Tracks(s: State, accepted: seq<Packet>) {
    forall f :: match StandingOf(accepted, f)
      case Unseen => f !in s.flowCount && f !in s.messageId
      case In(m, n) => f in s.flowCount && f in s.messageId && s.flowCount[f] == n && s.messageId[f] == m && n >= 1
  }

  /** The first three packets of a message go to queue 0, and each further packet one queue down to the last. */
  function Placement(queues: nat, ordinal: nat): nat
    requires queues >= 1
  {
    if ordinal <= 3 then 0 else if ordinal - 3 < queues then ordinal - 3 else queues - 1
  }

  function AcceptedBy(c: Config, s: State, op: Op): seq<Packet> {
    if op.Enq? && Accepts(c.limitBytes, s.qs, op.p) then [op.p] else []
  }

  function Accepted(c: Config, s: State, ops: seq<Op>): seq<Packet>
    requires Inv(s)
    decreases |ops|
  {
    if ops == [] then []
    else StepKeepsInv(c, s, ops[0]); AcceptedBy(c, s, ops[0]) + Accepted(c, Step(c, s, ops[0]), ops[1..])
  }

  lemma TracksEnqueue(c: Config, s: State, p: Packet, accepted: seq<Packet>)
    requires Shaped(s) && Clamp(s.queueNum) > 1 && Tracks(s, accepted) && Accepts(c.limitBytes, s.qs, p)
    ensures Tracks(Enqueue(c, s, p), accepted + [p])
  {
    assert (accepted + [p])[..|accepted|] == accepted;
    var t := Enqueue(c, s, p);
    var was := StandingOf(accepted, p.flow);
    assert t.messageId == s.messageId[p.flow := p.message];
    assert t.flowCount ==
           s.flowCount[p.flow := if was.In? && was.message == p.message then was.count + 1 else 1];
  }

  lemma TracksStep(c: Config, s: State, op: Op, accepted: seq<Packet>)
    requires Inv(s)
    requires Clamp(s.queueNum) > 1 ==> Tracks(s, accepted)
    ensures Clamp(Step(c, s, op).queueNum) == Clamp(s.queueNum) && Step(c, s, op).pktSum == s.pktSum
    ensures Clamp(s.queueNum) > 1 ==> Tracks(Step(c, s, op), accepted + AcceptedBy(c, s, op))
  {
    assert accepted + [] == accepted;
    if op.Enq? {
      EnqueueEffect(c, s, op.p);
      if Clamp(s.queueNum) > 1 && Accepts(c.limitBytes, s.qs, op.p) {
        TracksEnqueue(c, s, op.p, accepted);
      }
    }
  }

  lemma {:induction false} TracksRun(c: Config, s: State, ops: seq<Op>, accepted: seq<Packet>)
    requires Inv(s)
    requires Clamp(s.queueNum) > 1 ==> Tracks(s, accepted)
    ensures Clamp(Run(c, s, ops).queueNum) == Clamp(s.queueNum) && Run(c, s, ops).pktSum == s.pktSum
    ensures Clamp(s.queueNum) > 1 ==> Tracks(Run(c, s, ops), accepted + Accepted(c, s, ops))
    decreases |ops|
  {
    if ops == [] {
      assert accepted + [] == accepted;
    } else {
      StepKeepsInv(c, s, ops[0]);
      TracksStep(c, s, ops[0], accepted);
      var t, here := Step(c, s, ops[0]), AcceptedBy(c, s, ops[0]);
      TracksRun(c, t, ops[1..], accepted + here);
      Prepend(accepted, here, Accepted(c, t, ops[1..]), Accepted(c, s, ops));
    }
  }

  lemma TargetByOrdinal(s: State, p: Packet, accepted: seq<Packet>)
    requires Shaped(s) && forall i :: 0 <= i < QUEUES ==> s.pktSum[i] == 0
    requires Clamp(s.queueNum) > 1 ==> Tracks(s, accepted)
    ensures Target(s, p) == Placement(Clamp(s.queueNum), StandingOf(accepted + [p], p.flow).count)
  {
    assert (accepted + [p])[..|accepted|] == accepted;
    var n := Clamp(s.queueNum);
    FrozenThresholds(s.pktSum, s.pktNum, n - 1);
    var was := StandingOf(accepted, p.flow);
    if n > 1 && was.In? && was.message == p.message {
      ChooseIs(was.count, Thresholds(s.pktSum, s.pktNum, n - 1), 0, Placement(n, was.count + 1));
    }
  }

  /**
   * In every run from the constructor's state, the queue of an accepted packet is fixed by its ordinal within its
   * flow's current message alone: pkt_sum is never written after construction, so no traffic moves a threshold.
   */
  lemma PlacedByOrdinal(c: Config, queueNum: int, ops: seq<Op>, p: Packet)
    ensures Inv(Initial(queueNum))
    ensures
      var s := Run(c, Initial(queueNum), ops);
      var accepted := Accepted(c, Initial(queueNum), ops);
      Target(s, p) == Placement(Clamp(queueNum), StandingOf(accepted + [p], p.flow).count)
  {
    InitialInv(queueNum);
    var accepted := Accepted(c, Initial(queueNum), ops);
    TracksRun(c, Initial(queueNum), ops, []);
    assert [] + accepted == accepted;
    TargetByOrdinal(Run(c, Initial(queueNum), ops), p, accepted);
  }
}
