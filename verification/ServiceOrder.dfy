/**
 * What the least-attained-service queue does with packets and statistics: nearest averages, strict priority, order
 * within a queue, marks, and what the statistics add up to.
 */
module ServiceOrder {
  import opened Basics
  import opened Packets
  import opened RatioDistance
  import opened RealFacts
  import opened AttainedService

  // ---------- the nearest average ----------

  function Mean(i: Info): real
    requires i.distinct > 0.0
  {
    i.counting / i.distinct
  }

  /** The first n queues have learned positive averages, each larger than the one before. */
  ghost predicate Clustered(info: seq<Info>, n: nat) {
    && n <= |info|
    && (forall i :: 0 <= i < n ==> info[i].distinct >= 1.0 && info[i].counting > 0.0)
    && (forall i, j :: 0 <= i < j < n ==> Mean(info[i]) < Mean(info[j]))
  }

  function Means(info: seq<Info>, n: nat): (means: seq<real>)
    requires n <= |info| && forall i :: 0 <= i < n ==> info[i].distinct >= 1.0
    ensures |means| == n && forall i :: 0 <= i < n ==> means[i] == Mean(info[i])
  {
    seq(n, i requires 0 <= i < n => Mean(info[i]))
  }

  lemma MeanIsPositive(i: Info)
    requires i.distinct >= 1.0 && i.counting > 0.0
    ensures Mean(i) > 0.0
  {
    QuotientOrder(i.counting, i.distinct, 0.0);
  }

  lemma RootAbove(a: real, b: real, t: real)
    requires 0.0 < a < b && t >= 0.0 && t * t == a * b
    ensures t > a
  {
    StrictlyMonotone(a, a, b);
    RootOrder(t, a);
  }

  lemma RootsGrow(a: real, b: real, c: real, t: real, u: real)
    requires 0.0 < a < c && b > 0.0 && t >= 0.0 && t * t == a * b && u >= 0.0 && u * u == b * c
    ensures t < u
  {
    StrictlyMonotone(b, a, c);
    RootOrder(u, t);
  }

  /** The geometric mean of two positive averages lies above the smaller one, and grows with the larger. */
  lemma MeanGrows(sqrt: real -> real, a: real, b: real, c: real)
    requires IsSquareRoot(sqrt) && 0.0 < a < b
    ensures GeometricMean(sqrt, a, b) > a
    ensures b < c ==> GeometricMean(sqrt, a, b) < GeometricMean(sqrt, b, c)
  {
    MeanSquared(sqrt, a, b);
    RootAbove(a, b, GeometricMean(sqrt, a, b));
    if b < c {
      MeanSquared(sqrt, b, c);
      RootsGrow(a, b, c, GeometricMean(sqrt, a, b), GeometricMean(sqrt, b, c));
    }
  }

  lemma NoRepair(sqrt: real -> real, info: seq<Info>, n: nat, before: seq<real>)
    requires IsSquareRoot(sqrt) && Clustered(info, n) && |before| + 1 < n
    requires before != [] ==>
               before[|before| - 1] == GeometricMean(sqrt, Mean(info[|before| - 1]), Mean(info[|before|]))
    ensures
      var k := |before|;
      Next(sqrt, before, info[k], info[k + 1]) == GeometricMean(sqrt, Mean(info[k]), Mean(info[k + 1]))
  {
    var k := |before|;
    MeanIsPositive(info[k]);
    MeanGrows(sqrt, Mean(info[k]), Mean(info[k + 1]), 0.0);
    if k > 0 {
      MeanIsPositive(info[k - 1]);
      MeanGrows(sqrt, Mean(info[k - 1]), Mean(info[k]), Mean(info[k + 1]));
    }
  }

  /** Between learned and increasing averages no threshold needs repair. */
  lemma {:induction false} ThresholdsAreMeans(sqrt: real -> real, info: seq<Info>, n: nat, k: nat)
    requires IsSquareRoot(sqrt) && Clustered(info, n) && k < n
    ensures forall i :: 0 <= i < k ==>
              Thresholds(sqrt, info, k)[i] == GeometricMean(sqrt, Mean(info[i]), Mean(info[i + 1]))
  {
    if k > 0 {
      ThresholdsAreMeans(sqrt, info, n, k - 1);
      NoRepair(sqrt, info, n, Thresholds(sqrt, info, k - 1));
    }
  }

  lemma BelowThreshold(sqrt: real -> real, x: real, a: real, b: real)
    requires IsSquareRoot(sqrt) && x > 0.0 && 0.0 < a < b
    ensures x <= GeometricMean(sqrt, a, b) <==> AsNear(x, a, b)
  {
    MeanSquared(sqrt, a, b);
    RootOrder(x, GeometricMean(sqrt, a, b));
    MeanDecides(x, a, b);
  }

  lemma NearestChoice(sqrt: real -> real, info: seq<Info>, n: nat, value: real, j: nat)
    requires IsSquareRoot(sqrt) && 0 < n && Clustered(info, n) && value > 1.0 && j < n
    ensures
      var q := Choose(value, Thresholds(sqrt, info, n - 1), 0);
      && AsNear(value - 1.0, Mean(info[q]), Mean(info[j]))
      && (j < q ==> !AsNear(value - 1.0, Mean(info[j]), Mean(info[q])))
  {
    var means, t, x := Means(info, n), Thresholds(sqrt, info, n - 1), value - 1.0;
    var q := Choose(value, t, 0);
    ThresholdsAreMeans(sqrt, info, n, n - 1);
    MeanIsPositive(info[0]);
    if q > 0 {
      MeanIsPositive(info[q - 1]);
      assert x > t[q - 1];
      BelowThreshold(sqrt, x, means[q - 1], means[q]);
    }
    if q + 1 < n {
      MeanIsPositive(info[q]);
      assert x <= t[q];
      BelowThreshold(sqrt, x, means[q], means[q + 1]);
    }
    NearestOfAll(x, means, q, j);
  }

  /**
   * When every queue in use has learned a positive average and the averages increase, a packet of weight above 1
   * joins the queue whose average is nearest in ratio to its weight less 1, the first one if several are.
   */
  lemma WeightGoesToNearest(c: Config, s: State, p: Packet, j: nat)
    requires IsSquareRoot(c.sqrt) && Shaped(s) && p.tcp && p.size > 40 && Value(s, p) > 1
    requires Clustered(s.info, Clamp(s.queueNum)) && j < Clamp(s.queueNum)
    ensures
      var x, q := Value(s, p) as real - 1.0, Target(c, s, p);
      && AsNear(x, Mean(s.info[q]), Mean(s.info[j]))
      && (j < q ==> !AsNear(x, Mean(s.info[j]), Mean(s.info[q])))
  {
    NearestChoice(c.sqrt, s.info, Clamp(s.queueNum), Value(s, p) as real, j);
  }

  /** Thresholds of queues that have learned nothing, and repairs: both count on from the threshold before. */
  lemma {:induction false} RepairedThresholds(sqrt: real -> real, info: seq<Info>, n: nat, i: nat)
    requires i < n < |info|
    ensures
      var t := Thresholds(sqrt, info, n);
      var before := if i == 0 then 0.0 else t[i - 1];
      if info[i].distinct < 1.0 then t[i] == before + 33554432.0
      else
        var a := Mean(info[i]);
        var m := GeometricMean(sqrt, a, if info[i + 1].distinct < 1.0 then 0.0 else Mean(info[i + 1]));
        if i > 0 && a <= before && m <= before then t[i] == before + 1460.0
        else t[i] >= a && t[i] >= m && (t[i] == a || t[i] == m)
  {
    if i < n - 1 {
      RepairedThresholds(sqrt, info, n - 1, i);
    }
  }

  // ---------- enque ----------

  /** A packet without TCP payload goes to queue 0, and a packet below full size weighs what it brings. */
  lemma SmallPackets(c: Config, s: State, p: Packet)
    requires Shaped(s)
    ensures !p.tcp || p.size <= 40 ==> Target(c, s, p) == 0
    ensures p.size < 1500 ==> Value(s, p) == p.size - 40
  {
  }

  /** What enque does to the queues; a packet that does not fit changes nothing. */
  lemma StoredAtTarget(c: Config, s: State, p: Packet, clock: real)
    requires Shaped(s)
    ensures Shaped(Enqueue(c, s, p, clock))
    ensures TotalBytes(s.qs) + p.size > c.limitBytes ==>
              Enqueue(c, s, p, clock) == s.(queueNum := Clamp(s.queueNum))
    ensures TotalBytes(s.qs) + p.size <= c.limitBytes ==>
              var q := Target(c, s.(queueNum := Clamp(s.queueNum)), p);
              var full := (c.marking == PerQueue && Bytes(s.qs[q]) + p.size > c.markBytes) ||
                          (c.marking == PerPort && TotalBytes(s.qs) + p.size > c.markBytes);
              Enqueue(c, s, p, clock).qs == s.qs[q := s.qs[q] + [p.(ce := p.ce || (p.ect && full))]]
  {
    var q := Target(c, s.(queueNum := Clamp(s.queueNum)), p);
    BytesOfAppend(s.qs[q], p);
    TotalBytesUpdate(s.qs, q, s.qs[q] + [p]);
  }

  /** An accepted TCP packet with payload, as opposed to one that teaches the queue nothing. */
  predicate Teaches(c: Config, s: State, p: Packet) {
    p.tcp && p.size > 40 && TotalBytes(s.qs) + p.size <= c.limitBytes
  }

  /**
   * What enque does to the statistics: the queue of a teaching packet gains its weight and 1; when more than a second
   * has passed since the last update, the queues in use with more than 128 are then halved.
   */
  lemma StatisticsGain(c: Config, s: State, p: Packet, clock: real, i: nat)
    requires Shaped(s) && i < 8
    ensures Shaped(Enqueue(c, s, p, clock))
    ensures !Teaches(c, s, p) ==>
              Enqueue(c, s, p, clock).info == s.info && Enqueue(c, s, p, clock).lastUpdate == s.lastUpdate
    ensures Teaches(c, s, p) ==>
              var n := s.(queueNum := Clamp(s.queueNum));
              var here := if i == Target(c, n, p) then 1.0 else 0.0;
              var sum, count := s.info[i].counting + here * Value(n, p) as real, s.info[i].distinct + here;
              var ages := clock - s.lastUpdate > 1.0;
              var cut := if ages && i < n.queueNum && count > 128.0 then 2.0 else 1.0;
              && Enqueue(c, s, p, clock).lastUpdate == (if ages then clock else s.lastUpdate)
              && Enqueue(c, s, p, clock).info[i].counting * cut == sum
              && Enqueue(c, s, p, clock).info[i].distinct * cut == count
  {
  }

  // ---------- deque ----------

  /** Strict priority: the first packet of the first queue that holds one, or nothing if all are empty. */
  lemma StrictPriority(s: State)
    requires Shaped(s)
    ensures Dequeue(s).1.None? ==> Dequeue(s).0 == s && forall q :: 0 <= q < 8 ==> s.qs[q] == []
    ensures Dequeue(s).1.Some? ==>
              exists q :: 0 <= q < 8 && s.qs[q] != [] && Dequeue(s).1.value == s.qs[q][0] &&
                          Dequeue(s).0 == s.(qs := s.qs[q := s.qs[q][1..]]) &&
                          forall i :: 0 <= i < q ==> s.qs[i] == []
  {
    var q := FirstBacklogged(s.qs, 0);
    if q < 8 {
      assert s.qs[q] != [] && forall i :: 0 <= i < q ==> s.qs[i] == [];
    }
  }

  // ---------- order within a queue ----------

  /** The packet that one operation takes from queue q. */
  function Taken(c: Config, s: State, op: Op, q: nat): seq<Packet>
    requires Shaped(s) && q < 8
  {
    if op.Deq? && Dequeue(s).1.Some? && Dequeue(s).0.qs[q] != s.qs[q] then [Dequeue(s).1.value] else []
  }

  /** The packet, as stored, that one operation adds to queue q. */
  function Added(c: Config, s: State, op: Op, q: nat): seq<Packet>
    requires Shaped(s) && q < 8
  {
    if op.Enq? && TotalBytes(s.qs) + op.p.size <= c.limitBytes
       && Target(c, s.(queueNum := Clamp(s.queueNum)), op.p) == q
    then
      var full := (c.marking == PerQueue && Bytes(s.qs[q]) + op.p.size > c.markBytes) ||
                  (c.marking == PerPort && TotalBytes(s.qs) + op.p.size > c.markBytes);
      [op.p.(ce := op.p.ce || (op.p.ect && full))]
    else []
  }

  function AllTaken(c: Config, s: State, ops: seq<Op>, q: nat): seq<Packet>
    requires Shaped(s) && q < 8
    decreases |ops|
  {
    if ops == [] then [] else Taken(c, s, ops[0], q) + AllTaken(c, Step(c, s, ops[0]), ops[1..], q)
  }

  function AllAdded(c: Config, s: State, ops: seq<Op>, q: nat): seq<Packet>
    requires Shaped(s) && q < 8
    decreases |ops|
  {
    if ops == [] then [] else Added(c, s, ops[0], q) + AllAdded(c, Step(c, s, ops[0]), ops[1..], q)
  }

  lemma StepIsFifo(c: Config, s: State, op: Op, q: nat)
    requires Shaped(s) && q < 8
    ensures Taken(c, s, op, q) + Step(c, s, op).qs[q] == s.qs[q] + Added(c, s, op, q)
  {
    match op
    case Enq(p, clock) => StoredAtTarget(c, s, p, clock);
    case Deq => StrictPriority(s);
  }

  /** Over every run, what left a queue, then what it holds, is what it held, then what was accepted for it. */
  lemma {:induction false} QueuesAreFifo(c: Config, s: State, ops: seq<Op>, q: nat)
    requires Shaped(s) && q < 8
    ensures AllTaken(c, s, ops, q) + Run(c, s, ops).qs[q] == s.qs[q] + AllAdded(c, s, ops, q)
    decreases |ops|
  {
    if ops != [] {
      var op, t := ops[0], Step(c, s, ops[0]);
      StepIsFifo(c, s, op, q);
      QueuesAreFifo(c, t, ops[1..], q);
      Splice(Taken(c, s, op, q), AllTaken(c, t, ops[1..], q), Run(c, t, ops[1..]).qs[q], t.qs[q],
             AllAdded(c, t, ops[1..], q), s.qs[q], Added(c, s, op, q));
    }
  }
}
