/**
 * The arithmetic of the switch controller of qcluster.py: wrap-corrected register differences, aging, separated
 * averages, geometric-mean thresholds and the range rules made from them.
 */
module ThresholdRules {
  import opened RatioDistance
  import opened RealFacts

  const QUEUES: nat := 8
  const WRAP: int := 0x8000_0000
  const TOP: int := 0x4_0000

  // ---------- counters ----------

  /** The four lists that the controller keeps for one port. */
  datatype Port = Port(pktCounters: seq<int>, weightCounters: seq<int>, pktRec: seq<int>, weightRec: seq<int>)

  /** One reading of a port: whether this is an aging round, and the two register rows. */
  datatype Reading = Reading(ages: bool, pkt: seq<int>, weight: seq<int>)

  /** The non-negative difference that the wrap correction arrives at. */
  function Increase(now: int, before: int): int {
    if now - before < 0 then (now - before) % WRAP else now - before
  }

  predicate Shaped(p: Port) {
    |p.pktCounters| == QUEUES && |p.weightCounters| == QUEUES && |p.pktRec| == QUEUES && |p.weightRec| == QUEUES
  }

  predicate ShapedReading(r: Reading) {
    |r.pkt| == QUEUES && |r.weight| == QUEUES
  }

  function Aged(p: Port): (q: Port)
    requires Shaped(p)
    ensures Shaped(q)
  {
    p.(pktCounters := seq(QUEUES, i requires 0 <= i < QUEUES =>
         if p.pktCounters[i] > 256 then p.pktCounters[i] / 2 else p.pktCounters[i]),
       weightCounters := seq(QUEUES, i requires 0 <= i < QUEUES =>
         if p.pktCounters[i] > 256 then p.weightCounters[i] / 2 else p.weightCounters[i]))
  }

  function Absorbed(p: Port, r: Reading): (q: Port)
    requires Shaped(p) && ShapedReading(r)
    ensures Shaped(q)
  {
    Port(seq(QUEUES, i requires 0 <= i < QUEUES => p.pktCounters[i] + Increase(r.pkt[i], p.pktRec[i])),
         seq(QUEUES, i requires 0 <= i < QUEUES => p.weightCounters[i] + Increase(r.weight[i], p.weightRec[i])),
         r.pkt, r.weight)
  }

  function Updated(p: Port, r: Reading): (q: Port)
    requires Shaped(p) && ShapedReading(r)
    ensures Shaped(q)
  {
    Absorbed(if r.ages then Aged(p) else p, r)
  }

  function Initial(): Port {
    Port(seq(QUEUES, _ => 10), [8020, 3220, 1520, 720, 350, 120, 70, 20], seq(QUEUES, _ => 0), seq(QUEUES, _ => 0))
  }

  /** Every packet counter stays at least 10, and no weight counter is negative. */
  predicate Inv(p: Port) {
    && Shaped(p)
    && (forall i :: 0 <= i < QUEUES ==> p.pktCounters[i] >= 10)
    && (forall i :: 0 <= i < QUEUES ==> p.weightCounters[i] >= 0)
  }

  ghost predicate AllShaped(rs: seq<Reading>) {
    forall k :: 0 <= k < |rs| ==> ShapedReading(rs[k])
  }

  function Run(p: Port, rs: seq<Reading>): (q: Port)
    requires Shaped(p) && AllShaped(rs)
    ensures Shaped(q)
    decreases |rs|
  {
    if rs == [] then p else Run(Updated(p, rs[0]), rs[1..])
  }

  /** The packet increments of register i that a run adds up. */
  function Gained(p: Port, rs: seq<Reading>, i: nat): int
    requires Shaped(p) && AllShaped(rs) && i < QUEUES
    decreases |rs|
  {
    if rs == [] then 0
    else Increase(rs[0].pkt[i], p.pktRec[i]) + Gained(Updated(p, rs[0]), rs[1..], i)
  }

  lemma {:induction false} RunKeepsInv(p: Port, rs: seq<Reading>)
    requires Inv(p) && AllShaped(rs)
    ensures Inv(Run(p, rs))
    decreases |rs|
  {
    if rs != [] {
      RunKeepsInv(Updated(p, rs[0]), rs[1..]);
    }
  }

  predicate NeverDecreases(rs: seq<Reading>, i: nat, before: int)
    requires forall k :: 0 <= k < |rs| ==> i < |rs[k].pkt|
  {
    rs == [] || (before <= rs[0].pkt[i] && NeverDecreases(rs[1..], i, rs[0].pkt[i]))
  }

  function LastReading(p: Port, rs: seq<Reading>, i: nat): int
    requires Shaped(p) && AllShaped(rs) && i < QUEUES
  {
    if rs == [] then p.pktRec[i] else rs[|rs| - 1].pkt[i]
  }

  /** The increments of a run add up to the latest reading modulo 2^31, and exactly when readings never decrease. */
  lemma {:induction false} GainedIsReading(p: Port, rs: seq<Reading>, i: nat)
    requires Shaped(p) && AllShaped(rs) && i < QUEUES
    ensures Gained(p, rs, i) >= 0
    ensures (Gained(p, rs, i) - (LastReading(p, rs, i) - p.pktRec[i])) % WRAP == 0
    ensures NeverDecreases(rs, i, p.pktRec[i]) ==> Gained(p, rs, i) == LastReading(p, rs, i) - p.pktRec[i]
    decreases |rs|
  {
    if rs != [] {
      GainedIsReading(Updated(p, rs[0]), rs[1..], i);
      var rest := Gained(Updated(p, rs[0]), rs[1..], i);
      assert LastReading(Updated(p, rs[0]), rs[1..], i) == LastReading(p, rs, i);
      ModSum(Increase(rs[0].pkt[i], p.pktRec[i]) - (rs[0].pkt[i] - p.pktRec[i]),
             rest - (LastReading(p, rs, i) - rs[0].pkt[i]));
    }
  }

  /** Packet counters are what they started with plus the increments, except for what aging takes away. */
  lemma {:induction false} CountersFollowIncrements(p: Port, rs: seq<Reading>, i: nat)
    requires Inv(p) && AllShaped(rs) && i < QUEUES
    ensures Run(p, rs).pktCounters[i] <= p.pktCounters[i] + Gained(p, rs, i)
    ensures (forall k :: 0 <= k < |rs| ==> !rs[k].ages) ==>
              Run(p, rs).pktCounters[i] == p.pktCounters[i] + Gained(p, rs, i)
    decreases |rs|
  {
    if rs != [] {
      CountersFollowIncrements(Updated(p, rs[0]), rs[1..], i);
    }
  }

  lemma ModSum(a: int, b: int)
    requires a % WRAP == 0 && b % WRAP == 0
    ensures (a + b) % WRAP == 0
  {
  }

  /** Register i of every reading shows the true packet count modulo 2^31; less than 2^31 packets came in between. */
  ghost predicate Shows(rs: seq<Reading>, i: nat, truth: seq<int>) {
    && |truth| == |rs| + 1
    && (forall k :: 0 <= k < |rs| ==> i < |rs[k].pkt| && rs[k].pkt[i] == truth[k + 1] % WRAP)
    && (forall k :: 0 <= k < |rs| ==> 0 <= truth[k + 1] - truth[k] < WRAP)
  }

  lemma TrueIncrease(before: int, now: int)
    requires 0 <= now - before < WRAP
    ensures Increase(now % WRAP, before % WRAP) == now - before
  {
  }

  /** Wrap correction recovers the true number of packets from registers that wrap. */
  lemma {:induction false} GainedIsTrueCount(p: Port, rs: seq<Reading>, i: nat, truth: seq<int>)
    requires Shaped(p) && AllShaped(rs) && i < QUEUES && Shows(rs, i, truth)
    requires p.pktRec[i] == truth[0] % WRAP
    ensures Gained(p, rs, i) == truth[|rs|] - truth[0]
    decreases |rs|
  {
    if rs != [] {
      TrueIncrease(truth[0], truth[1]);
      assert rs[0].pkt[i] == truth[0 + 1] % WRAP;
      var later := truth[1..];
      assert forall k :: 0 <= k < |later| ==> later[k] == truth[k + 1];
      assert forall k :: 0 <= k < |rs| - 1 ==> rs[1..][k] == rs[k + 1];
      GainedIsTrueCount(Updated(p, rs[0]), rs[1..], i, later);
    }
  }

  // ---------- averages and thresholds ----------

  /** The averages of a port in ascending queue weight: list position 0 belongs to queue 7. */
  function Averages(p: Port): (a: seq<real>)
    requires Shaped(p)
    ensures |a| == QUEUES
  {
    seq(QUEUES, i requires 0 <= i < QUEUES => AverageOf(p, QUEUES - 1 - i))
  }

  function AverageOf(p: Port, i: nat): real
    requires Shaped(p) && i < QUEUES
  {
    if p.pktCounters[i] != 0 then p.weightCounters[i] as real / p.pktCounters[i] as real else 1.0
  }

  /** Each average raised to at least one above its predecessor. */
  function Separated(a: seq<real>): (s: seq<real>)
    ensures |s| == |a|
  {
    if |a| <= 1 then a
    else
      var s := Separated(a[..|a| - 1]);
      s + [Larger(a[|a| - 1], s[|a| - 2] + 1.0)]
  }

  predicate Apart(s: seq<real>, i: nat)
    requires i + 1 < |s|
  {
    s[i] + 1.0 <= s[i + 1]
  }

  /** Neighbours are at least one apart. */
  ghost predicate Gapped(s: seq<real>) {
    forall i :: 0 <= i < |s| - 1 ==> Apart(s, i)
  }

  lemma {:induction false} GapsAddUp(s: seq<real>, i: nat, j: nat)
    requires Gapped(s) && i < j < |s|
    ensures s[i] + 1.0 <= s[j]
  {
    assert Apart(s, j - 1);
    if i < j - 1 {
      GapsAddUp(s, i, j - 1);
    }
  }

  /** Averages that start at zero or above and are one apart. */
  ghost predicate Centres(s: seq<real>) {
    |s| == QUEUES && s[0] >= 0.0 && Gapped(s)
  }

  lemma CentresIncrease(s: seq<real>)
    requires Centres(s)
    ensures Increasing(s)
    ensures forall i :: 0 <= i < QUEUES ==> s[i] >= 0.0
  {
    forall i, j | 0 <= i < j < QUEUES
      ensures s[i] < s[j]
    {
      GapsAddUp(s, i, j);
    }
  }

  ghost predicate Dominates(s: seq<real>, a: seq<real>) {
    |s| == |a| && forall i :: 0 <= i < |s| ==> a[i] <= s[i]
  }

  lemma {:induction false} SeparatedIsGapped(a: seq<real>)
    ensures Dominates(Separated(a), a) && Gapped(Separated(a))
    ensures a != [] ==> Separated(a)[0] == a[0]
  {
    if |a| > 1 {
      SeparatedIsGapped(a[..|a| - 1]);
      var s, t := Separated(a[..|a| - 1]), Separated(a);
      forall i | 0 <= i < |t| - 1
        ensures Apart(t, i)
      {
        assert i < |s| - 1 ==> Apart(s, i);
      }
    }
  }

  /** Separation changes no more than it must: it is the least gapped list that dominates the averages. */
  lemma {:induction false} SeparatedIsLeast(a: seq<real>, s: seq<real>)
    requires Dominates(s, a) && Gapped(s)
    ensures Dominates(s, Separated(a))
  {
    if |a| > 1 {
      var n := |a| - 1;
      forall i | 0 <= i < n - 1
        ensures Apart(s[..n], i)
      {
        assert Apart(s, i);
      }
      SeparatedIsLeast(a[..n], s[..n]);
      assert Apart(s, n - 1);
      assert s[..n][n - 1] == s[n - 1];
    }
  }

  lemma GappedIsSeparated(a: seq<real>)
    requires Gapped(a)
    ensures Separated(a) == a
  {
    SeparatedIsGapped(a);
    SeparatedIsLeast(a, a);
  }

  /** The threshold list: geometric means of neighbours, then 2^18. */
  function Thresholds(sqrt: real -> real, s: seq<real>): (t: seq<real>)
    requires |s| == QUEUES
    ensures |t| == QUEUES
  {
    seq(QUEUES, i requires 0 <= i < QUEUES =>
      if i < QUEUES - 1 then GeometricMean(sqrt, s[i], s[i + 1]) else TOP as real)
  }

  /** Averages that are one apart have geometric means that are one apart. */
  lemma MeansAreApart(a: real, b: real, c: real, t: real, u: real)
    requires 0.0 <= a && a + 1.0 <= b && b + 1.0 <= c
    requires t >= 0.0 && t * t == a * b && u >= 0.0 && u * u == b * c
    ensures t + 1.0 <= u
  {
    TwiceMean(a, b, t);
    ShiftedProduct(a, b, c);
    assert (t + 1.0) * (t + 1.0) == t * t + 2.0 * t + 1.0;
    RootOrder(t + 1.0, u);
  }

  lemma ShiftedProduct(a: real, b: real, c: real)
    requires 0.0 <= a && a + 1.0 <= b && b + 1.0 <= c
    ensures a * b + a + b + 1.0 <= b * c
  {
    Monotone(b, a + 1.0, b);
    Monotone(b, b + 1.0, c);
  }

  /** A geometric mean is at most the arithmetic one. */
  lemma TwiceMean(a: real, b: real, t: real)
    requires 0.0 <= a <= b && t >= 0.0 && t * t == a * b
    ensures 2.0 * t <= a + b
  {
    assert (a + b) * (a + b) - (2.0 * t) * (2.0 * t) == (b - a) * (b - a);
    SquareOrder(0.0, b - a);
    RootOrder(2.0 * t, a + b);
  }

  lemma NeighbouringMeans(sqrt: real -> real, a: real, b: real, c: real)
    requires IsSquareRoot(sqrt) && 0.0 <= a && a + 1.0 <= b && b + 1.0 <= c
    ensures 0.0 <= GeometricMean(sqrt, a, b) && GeometricMean(sqrt, a, b) + 1.0 <= GeometricMean(sqrt, b, c)
  {
    MeanSquared(sqrt, a, b);
    MeanSquared(sqrt, b, c);
    MeansAreApart(a, b, c, GeometricMean(sqrt, a, b), GeometricMean(sqrt, b, c));
  }

  lemma ThresholdsAreApart(sqrt: real -> real, s: seq<real>, i: nat)
    requires IsSquareRoot(sqrt) && Centres(s) && i + 1 < QUEUES - 1
    ensures Thresholds(sqrt, s)[i] >= 0.0
    ensures Thresholds(sqrt, s)[i] + 1.0 <= Thresholds(sqrt, s)[i + 1]
  {
    CentresIncrease(s);
    assert Apart(s, i) && Apart(s, i + 1);
    NeighbouringMeans(sqrt, s[i], s[i + 1], s[i + 2]);
  }

  // ---------- range rules ----------

  /** Weights from start to end, both included, go to the queue. */
  datatype Rule = Rule(start: int, end: int, queue: int)

  function Rules(t: seq<real>): (rules: seq<Rule>)
    requires |t| == QUEUES
    ensures |rules| == QUEUES
  {
    seq(QUEUES, i requires 0 <= i < QUEUES =>
      Rule(if i == 0 then 0 else t[i - 1].Floor + 1, t[i].Floor, QUEUES - 1 - i))
  }

  /** The rules that the controller installs for a port. */
  function Installed(sqrt: real -> real, p: Port): (rules: seq<Rule>)
    requires Shaped(p)
    ensures |rules| == QUEUES
  {
    Rules(Thresholds(sqrt, Separated(Averages(p))))
  }

  predicate Matches(rule: Rule, w: int) {
    rule.start <= w <= rule.end
  }

  ghost predicate Covered(rules: seq<Rule>, w: int) {
    exists i :: 0 <= i < |rules| && Matches(rules[i], w)
  }

  /** All rules match something, no weight matches two, and exactly the weights 0 to 2^18 match one. */
  ghost predicate Partition(rules: seq<Rule>) {
    && (forall i :: 0 <= i < |rules| ==> rules[i].start <= rules[i].end)
    && (forall i, j, w :: 0 <= i < j < |rules| && Matches(rules[i], w) ==> !Matches(rules[j], w))
    && (forall w :: Covered(rules, w) <==> 0 <= w <= TOP)
  }

  /** Ends that increase strictly up to 2^18. */
  ghost predicate Ascending(t: seq<real>) {
    && |t| == QUEUES
    && t[0].Floor >= 0 && t[QUEUES - 1].Floor == TOP
    && forall i, j :: 0 <= i < j < QUEUES ==> t[i].Floor < t[j].Floor
  }

  lemma {:induction false} FirstReaching(t: seq<real>, w: int, n: nat) returns (i: nat)
    requires Ascending(t) && 0 <= w <= TOP && n < QUEUES && w <= t[n].Floor
    ensures i <= n && Matches(Rules(t)[i], w)
  {
    if n > 0 && w <= t[n - 1].Floor {
      i := FirstReaching(t, w, n - 1);
    } else {
      i := n;
    }
  }

  lemma AscendingPartitions(t: seq<real>)
    requires Ascending(t)
    ensures Partition(Rules(t))
  {
    var rules := Rules(t);
    forall w | 0 <= w <= TOP
      ensures Covered(rules, w)
    {
      var i := FirstReaching(t, w, QUEUES - 1);
    }
    forall i | 0 <= i < QUEUES
      ensures 0 <= rules[i].start <= rules[i].end <= TOP
    {
      assert i > 0 ==> t[0].Floor <= t[i - 1].Floor;
      assert t[i].Floor <= t[QUEUES - 1].Floor;
    }
    assert forall i, w :: 0 <= i < QUEUES && Matches(rules[i], w) ==> 0 <= w <= TOP;
    forall i, j, w | 0 <= i < j < QUEUES && Matches(rules[i], w)
      ensures !Matches(rules[j], w)
    {
      assert t[i].Floor <= t[j - 1].Floor;
    }
  }

  lemma FloorsApart(t: real, u: real)
    requires t + 1.0 <= u
    ensures t.Floor < u.Floor
  {
    var k := t.Floor + 1;
    assert k as real <= t + 1.0 <= u;
    assert k <= u.Floor;
  }

  lemma {:induction false} FloorsIncrease(sqrt: real -> real, s: seq<real>, i: nat, j: nat)
    requires IsSquareRoot(sqrt) && Centres(s) && i < j < QUEUES - 1
    ensures 0 <= Thresholds(sqrt, s)[i].Floor < Thresholds(sqrt, s)[j].Floor
  {
    var t := Thresholds(sqrt, s);
    ThresholdsAreApart(sqrt, s, j - 1);
    FloorsApart(t[j - 1], t[j]);
    if i < j - 1 {
      FloorsIncrease(sqrt, s, i, j - 1);
    }
  }

  /** Whether w is at most the geometric mean, told by the product. */
  predicate BelowMean(w: nat, a: real, b: real) {
    w as real * w as real <= a * b
  }

  lemma MeanReaches(sqrt: real -> real, a: real, b: real, w: nat)
    requires IsSquareRoot(sqrt) && a >= 0.0 && b >= 0.0
    ensures w <= GeometricMean(sqrt, a, b).Floor <==> BelowMean(w, a, b)
  {
    MeanSquared(sqrt, a, b);
    RootOrder(w as real, GeometricMean(sqrt, a, b));
  }

  /** The rule that a weight matches, told by the averages around it. */
  lemma MatchBetween(sqrt: real -> real, s: seq<real>, i: nat, w: nat)
    requires IsSquareRoot(sqrt) && Centres(s) && 0 < i < QUEUES - 1
    requires !BelowMean(w, s[i - 1], s[i]) && BelowMean(w, s[i], s[i + 1])
    ensures Matches(Rules(Thresholds(sqrt, s))[i], w)
    ensures forall j :: 0 <= j < i ==> !Matches(Rules(Thresholds(sqrt, s))[j], w)
  {
    CentresIncrease(s);
    MeanReaches(sqrt, s[i - 1], s[i], w);
    MeanReaches(sqrt, s[i], s[i + 1], w);
    var t := Thresholds(sqrt, s);
    forall j | 0 <= j < i - 1
      ensures t[j].Floor < t[i - 1].Floor
    {
      FloorsIncrease(sqrt, s, j, i - 1);
    }
  }

  /** The two largest averages leave room for the last range. */
  predicate FitsBelowTop(s: seq<real>)
    requires |s| == QUEUES
  {
    ProductBelow(s[QUEUES - 2], s[QUEUES - 1])
  }

  /** The product is below 2^36. */
  predicate ProductBelow(a: real, b: real) {
    a * b < 68719476736.0
  }

  lemma BelowTop(t: real, product: real)
    requires t >= 0.0 && t * t == product
    ensures t.Floor < TOP <==> product < 68719476736.0
  {
    if t < 262144.0 {
      assert t * t <= t * 262144.0;
    } else {
      assert t * t >= t * 262144.0;
      assert TOP <= t.Floor;
    }
  }

  lemma MeanBelowTop(sqrt: real -> real, a: real, b: real)
    requires IsSquareRoot(sqrt) && a >= 0.0 && b >= 0.0
    ensures GeometricMean(sqrt, a, b).Floor < TOP <==> ProductBelow(a, b)
  {
    MeanSquared(sqrt, a, b);
    BelowTop(GeometricMean(sqrt, a, b), a * b);
  }

  lemma LastThreshold(sqrt: real -> real, s: seq<real>)
    requires IsSquareRoot(sqrt) && Centres(s)
    ensures Thresholds(sqrt, s)[QUEUES - 2].Floor < TOP <==> FitsBelowTop(s)
  {
    CentresIncrease(s);
    MeanBelowTop(sqrt, s[QUEUES - 2], s[QUEUES - 1]);
  }

  /**
   * The eight installed ranges are non-empty, pairwise disjoint and cover exactly 0 to 2^18 if and only if the
   * product of the two largest separated averages is below 2^36.
   */
  lemma RulesPartition(sqrt: real -> real, s: seq<real>)
    requires IsSquareRoot(sqrt) && Centres(s)
    ensures Partition(Rules(Thresholds(sqrt, s))) <==> FitsBelowTop(s)
  {
    var t := Thresholds(sqrt, s);
    var last := QUEUES - 2;
    LastThreshold(sqrt, s);
    if FitsBelowTop(s) {
      forall i, j | 0 <= i < j < QUEUES
        ensures t[i].Floor < t[j].Floor
      {
        if j < QUEUES - 1 {
          FloorsIncrease(sqrt, s, i, j);
        } else if i < last {
          FloorsIncrease(sqrt, s, i, last);
        }
      }
      FloorsIncrease(sqrt, s, 0, 1);
      AscendingPartitions(t);
    } else {
      var rule := Rules(t)[QUEUES - 1];
      assert rule.start > rule.end;
    }
  }

  lemma SmallProduct(b: real, c: real)
    requires 0.0 <= b && b + 1.0 <= c <= 262144.0
    ensures ProductBelow(b, c)
  {
    assert b * c <= b * 262144.0;
  }

  /** It is enough that no average exceeds 2^18. */
  lemma SmallAveragesFit(s: seq<real>)
    requires Centres(s) && s[QUEUES - 1] <= TOP as real
    ensures FitsBelowTop(s)
  {
    CentresIncrease(s);
    assert Apart(s, QUEUES - 2);
    SmallProduct(s[QUEUES - 2], s[QUEUES - 1]);
  }

  // ---------- traffic ----------

  /** Since the reading before, the packets of each queue weighed at most w on average. */
  predicate Light(p: Port, r: Reading, w: int)
    requires Shaped(p) && ShapedReading(r)
  {
    forall i :: 0 <= i < QUEUES ==> Increase(r.weight[i], p.weightRec[i]) <= w * Increase(r.pkt[i], p.pktRec[i])
  }

  ghost predicate LightRun(p: Port, rs: seq<Reading>, w: int)
    requires Shaped(p) && AllShaped(rs)
    decreases |rs|
  {
    rs == [] || (Light(p, rs[0], w) && LightRun(Updated(p, rs[0]), rs[1..], w))
  }

  /** A mean weight that never brings an average within 7 of 2^18, although halving rounds packet counters down. */
  const LIGHT: int := 260104

  /** The average of a queue is at most LIGHT, or at most LIGHT and one packet more once the queue has aged. */
  predicate Balanced(pkt: int, weight: int) {
    weight <= LIGHT * pkt || (pkt >= 128 && weight <= LIGHT * (pkt + 1))
  }

  predicate AllBalanced(p: Port)
    requires Shaped(p)
  {
    forall i :: 0 <= i < QUEUES ==> Balanced(p.pktCounters[i], p.weightCounters[i])
  }

  lemma HalvingKeepsBalance(pkt: int, weight: int)
    requires Balanced(pkt, weight) && pkt > 256
    ensures Balanced(pkt / 2, weight / 2)
  {
    assert pkt <= 2 * (pkt / 2) + 1;
  }

  lemma GrowthKeepsBalance(pkt: int, weight: int, pkts: int, weights: int)
    requires Balanced(pkt, weight) && pkts >= 0 && weights <= LIGHT * pkts
    ensures Balanced(pkt + pkts, weight + weights)
  {
  }

  lemma UpdatedBalanced(p: Port, r: Reading)
    requires Inv(p) && ShapedReading(r) && AllBalanced(p) && Light(p, r, LIGHT)
    ensures AllBalanced(Updated(p, r))
  {
    var q := if r.ages then Aged(p) else p;
    forall i | 0 <= i < QUEUES
      ensures Balanced(Updated(p, r).pktCounters[i], Updated(p, r).weightCounters[i])
    {
      if p.pktCounters[i] > 256 {
        HalvingKeepsBalance(p.pktCounters[i], p.weightCounters[i]);
      }
      GrowthKeepsBalance(q.pktCounters[i], q.weightCounters[i],
                         Increase(r.pkt[i], p.pktRec[i]), Increase(r.weight[i], p.weightRec[i]));
    }
  }

  lemma {:induction false} RunBalanced(p: Port, rs: seq<Reading>)
    requires Inv(p) && AllShaped(rs) && AllBalanced(p) && LightRun(p, rs, LIGHT)
    ensures AllBalanced(Run(p, rs))
    decreases |rs|
  {
    if rs != [] {
      UpdatedBalanced(p, rs[0]);
      RunBalanced(Updated(p, rs[0]), rs[1..]);
    }
  }

  lemma BalancedAverage(p: Port, i: nat)
    requires Inv(p) && AllBalanced(p) && i < QUEUES
    ensures AverageOf(p, i) <= 262137.0
  {
    assert Balanced(p.pktCounters[i], p.weightCounters[i]);
    assert p.weightCounters[i] <= 262137 * p.pktCounters[i];
    QuotientOrder(p.weightCounters[i] as real, p.pktCounters[i] as real, 262137.0);
  }

  lemma {:induction false} SeparatedAtMost(a: seq<real>, bound: real)
    requires forall i :: 0 <= i < |a| ==> a[i] <= bound
    ensures forall i :: 0 <= i < |a| ==> Separated(a)[i] <= bound + i as real
  {
    if |a| > 1 {
      SeparatedAtMost(a[..|a| - 1], bound);
    }
  }

  lemma BalancedPartitions(sqrt: real -> real, p: Port)
    requires IsSquareRoot(sqrt) && Inv(p) && AllBalanced(p)
    ensures Partition(Installed(sqrt, p))
  {
    AveragesAreNonNegative(p);
    var a := Averages(p);
    forall i | 0 <= i < QUEUES
      ensures a[i] <= 262137.0
    {
      BalancedAverage(p, QUEUES - 1 - i);
    }
    SeparatedIsGapped(a);
    SeparatedAtMost(a, 262137.0);
    SmallAveragesFit(Separated(a));
    RulesPartition(sqrt, Separated(a));
  }

  /** As long as packets weigh at most 260104 on average between readings, every installed rule set partitions. */
  lemma LightTrafficPartitions(sqrt: real -> real, rs: seq<Reading>)
    requires IsSquareRoot(sqrt) && AllShaped(rs) && LightRun(Initial(), rs, LIGHT)
    ensures Partition(Installed(sqrt, Run(Initial(), rs)))
  {
    RunKeepsInv(Initial(), rs);
    RunBalanced(Initial(), rs);
    BalancedPartitions(sqrt, Run(Initial(), rs));
  }

  /** A weight is sent to the queue whose separated average is nearest in ratio. */
  lemma RulesPickNearest(sqrt: real -> real, s: seq<real>, w: int, i: nat, j: nat)
    requires IsSquareRoot(sqrt) && Centres(s)
    requires w > 0 && i < QUEUES && j < QUEUES && Matches(Rules(Thresholds(sqrt, s))[i], w)
    ensures AsNear(w as real, s[i], s[j])
    ensures j < i ==> !AsNear(w as real, s[j], s[i])
  {
    var x := w as real;
    if i > 0 {
      AboveThreshold(sqrt, s, w, i - 1);
    }
    if i + 1 < QUEUES {
      UpToThreshold(sqrt, s, w, i);
    }
    CentresIncrease(s);
    NearestOfAll(x, s, i, j);
  }

  lemma MeanSeparates(sqrt: real -> real, x: real, a: real, b: real)
    requires IsSquareRoot(sqrt) && x > 0.0 && 0.0 <= a < b
    ensures AsNear(x, a, b) <==> x <= GeometricMean(sqrt, a, b)
  {
    MeanSquared(sqrt, a, b);
    RootOrder(x, GeometricMean(sqrt, a, b));
    MeanDecides(x, a, b);
  }

  lemma AboveThreshold(sqrt: real -> real, s: seq<real>, w: int, i: nat)
    requires IsSquareRoot(sqrt) && Centres(s) && i + 1 < QUEUES
    requires w > Thresholds(sqrt, s)[i].Floor && w > 0
    ensures !AsNear(w as real, s[i], s[i + 1])
  {
    CentresIncrease(s);
    MeanSeparates(sqrt, w as real, s[i], s[i + 1]);
    var t := GeometricMean(sqrt, s[i], s[i + 1]);
    assert t < w as real;
  }

  lemma UpToThreshold(sqrt: real -> real, s: seq<real>, w: int, i: nat)
    requires IsSquareRoot(sqrt) && Centres(s) && i + 1 < QUEUES
    requires 0 < w <= Thresholds(sqrt, s)[i].Floor
    ensures AsNear(w as real, s[i], s[i + 1])
  {
    CentresIncrease(s);
    MeanSeparates(sqrt, w as real, s[i], s[i + 1]);
    var t := GeometricMean(sqrt, s[i], s[i + 1]);
    assert w as real <= t;
  }

  /** The branch for a packet count of zero is unreachable, and averages are never negative. */
  lemma AveragesAreNonNegative(p: Port)
    requires Inv(p)
    ensures forall i :: 0 <= i < QUEUES ==> p.pktCounters[i] != 0
    ensures forall i :: 0 <= i < QUEUES ==> Averages(p)[i] >= 0.0
  {
    forall i | 0 <= i < QUEUES
      ensures AverageOf(p, i) >= 0.0
    {
      QuotientOrder(p.weightCounters[i] as real, p.pktCounters[i] as real, 0.0);
    }
  }

  /** What the controller installs in any reachable state. */
  lemma InstalledRules(sqrt: real -> real, rs: seq<Reading>)
    requires IsSquareRoot(sqrt) && AllShaped(rs)
    ensures
      var s, rules := Separated(Averages(Run(Initial(), rs))), Installed(sqrt, Run(Initial(), rs));
      && (Partition(rules) <==> FitsBelowTop(s))
      && forall w, i, j :: w > 0 && 0 <= i < QUEUES && 0 <= j < QUEUES && Matches(rules[i], w) ==>
           AsNear(w as real, s[i], s[j]) && (j < i ==> !AsNear(w as real, s[j], s[i]))
  {
    var p := Run(Initial(), rs);
    RunKeepsInv(Initial(), rs);
    AveragesAreNonNegative(p);
    var s := Separated(Averages(p));
    SeparatedIsGapped(Averages(p));
    RulesPartition(sqrt, s);
    forall w, i, j | w > 0 && 0 <= i < QUEUES && 0 <= j < QUEUES && Matches(Installed(sqrt, p)[i], w)
      ensures AsNear(w as real, s[i], s[j]) && (j < i ==> !AsNear(w as real, s[j], s[i]))
    {
      RulesPickNearest(sqrt, s, w, i, j);
    }
  }
}
