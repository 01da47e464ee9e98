/**
 * The switch and its controller as one loop: packets are classified by the installed rules and counted in the pkt
 * and weight registers of qcluster.p4; from time to time the controller reads these and installs new rules.
 */
module SwitchLoop {
  import opened RealFacts
  import opened ThresholdRules

  /** The registers of one queue of a port; the weight register has a high half and a low half. */
  datatype Registers = Registers(pkt: nat, hi: nat, lo: nat)

  /** pkt_alu and weight_alu; a low half that would pass 2^31 - 1 restarts at 0. */
  function Count(g: Registers, w: nat): Registers {
    if g.lo + w > 2147483647 then Registers(g.pkt + 1, g.hi + 1, 0) else Registers(g.pkt + 1, g.hi, g.lo + w)
  }

  /** The weight that the controller reads from the two halves. */
  function Weight(g: Registers): int {
    g.hi * WRAP + g.lo
  }

  /** A 32-bit counter as the controller reads it. */
  function Signed(n: nat): int {
    (n + WRAP) % (2 * WRAP) - WRAP
  }

  // ---------- the switch ----------

  ghost predicate OkRules(rules: seq<Rule>) {
    forall i :: 0 <= i < |rules| ==> 0 <= rules[i].queue < QUEUES
  }

  function FirstMatch(rules: seq<Rule>, w: nat, i: nat): (k: nat)
    requires i <= |rules|
    ensures i <= k <= |rules|
    ensures forall j :: i <= j < k ==> !Matches(rules[j], w)
    ensures k < |rules| ==> Matches(rules[k], w)
    decreases |rules| - i
  {
    if i == |rules| || Matches(rules[i], w) then i else FirstMatch(rules, w, i + 1)
  }

  /** The slot that counts a packet of weight w: the queue of its rule, or slot 0 when no rule matches. */
  function Slot(rules: seq<Rule>, w: nat): (q: nat)
    requires OkRules(rules)
    ensures q < QUEUES
  {
    var k := FirstMatch(rules, w, 0);
    if k < |rules| then rules[k].queue else 0
  }

  /** Packets of the given weights pass the switch. */
  function Passed(regs: seq<Registers>, rules: seq<Rule>, weights: seq<nat>): (t: seq<Registers>)
    requires |regs| == QUEUES && OkRules(rules)
    ensures |t| == QUEUES
    decreases |weights|
  {
    if weights == [] then regs
    else
      var before, w := Passed(regs, rules, weights[..|weights| - 1]), weights[|weights| - 1];
      before[Slot(rules, w) := Count(before[Slot(rules, w)], w)]
  }

  function Shown(regs: seq<Registers>, ages: bool): (r: Reading)
    requires |regs| == QUEUES
    ensures ShapedReading(r)
  {
    Reading(ages, seq(QUEUES, i requires 0 <= i < QUEUES => Signed(regs[i].pkt)),
            seq(QUEUES, i requires 0 <= i < QUEUES => Weight(regs[i])))
  }

  // ---------- the loop ----------

  /** The packets between two readings, and whether the second reading belongs to an aging round. */
  datatype Interval = Interval(weights: seq<nat>, ages: bool)

  datatype Loop = Loop(port: Port, regs: seq<Registers>, rules: seq<Rule>)

  ghost predicate Ok(l: Loop) {
    Shaped(l.port) && |l.regs| == QUEUES && OkRules(l.rules)
  }

  /** Empty registers and no rules. */
  function Start(): Loop {
    Loop(Initial(), seq(QUEUES, _ => Registers(0, 0, 0)), [])
  }

  function Turn(sqrt: real -> real, l: Loop, i: Interval): (t: Loop)
    requires Ok(l)
    ensures Ok(t)
  {
    var regs := Passed(l.regs, l.rules, i.weights);
    var port := Updated(l.port, Shown(regs, i.ages));
    Loop(port, regs, Installed(sqrt, port))
  }

  function Turns(sqrt: real -> real, l: Loop, intervals: seq<Interval>): (t: Loop)
    requires Ok(l)
    ensures Ok(t)
    decreases |intervals|
  {
    if intervals == [] then l else Turns(sqrt, Turn(sqrt, l, intervals[0]), intervals[1..])
  }

  // ---------- light packets ----------

  /** Fewer than 2^31 packets, none of them heavier than 260104. */
  ghost predicate AllLight(i: Interval) {
    |i.weights| < WRAP && forall k :: 0 <= k < |i.weights| ==> i.weights[k] <= LIGHT
  }

  /** The low halves are in range, and the controller's records are what it read last. */
  ghost predicate InStep(l: Loop) {
    && Ok(l) && Inv(l.port)
    && (forall i :: 0 <= i < QUEUES ==> l.regs[i].lo < WRAP)
    && (forall i :: 0 <= i < QUEUES ==> l.port.pktRec[i] == Signed(l.regs[i].pkt))
    && (forall i :: 0 <= i < QUEUES ==> l.port.weightRec[i] == Weight(l.regs[i]))
  }

  lemma CountGains(g: Registers, w: nat)
    requires g.lo < WRAP
    ensures Count(g, w).lo < WRAP && Weight(g) <= Weight(Count(g, w)) <= Weight(g) + w
  {
  }

  /** What light packets add to the registers of one queue. */
  lemma {:induction false} PassedGains(regs: seq<Registers>, rules: seq<Rule>, weights: seq<nat>, i: nat)
    requires |regs| == QUEUES && OkRules(rules) && i < QUEUES && regs[i].lo < WRAP
    requires forall k :: 0 <= k < |weights| ==> weights[k] <= LIGHT
    ensures
      var g, h := regs[i], Passed(regs, rules, weights)[i];
      && h.lo < WRAP && g.pkt <= h.pkt <= g.pkt + |weights|
      && 0 <= Weight(h) - Weight(g) <= LIGHT * (h.pkt - g.pkt)
    decreases |weights|
  {
    if weights != [] {
      var front, w := weights[..|weights| - 1], weights[|weights| - 1];
      PassedGains(regs, rules, front, i);
      CountGains(Passed(regs, rules, front)[i], w);
    }
  }

  lemma SignedIncrease(before: nat, n: nat)
    requires n < WRAP
    ensures Increase(Signed(before + n), Signed(before)) == n
  {
    var a, range := before + WRAP, 2 * WRAP;
    assert (a + n) % range == if a % range + n < range then a % range + n else a % range + n - range;
  }

  lemma TurnStaysLight(sqrt: real -> real, l: Loop, i: Interval)
    requires InStep(l) && AllBalanced(l.port) && AllLight(i)
    ensures InStep(Turn(sqrt, l, i)) && AllBalanced(Turn(sqrt, l, i).port)
  {
    var regs := Passed(l.regs, l.rules, i.weights);
    var r := Shown(regs, i.ages);
    forall q | 0 <= q < QUEUES
      ensures regs[q].lo < WRAP
      ensures Increase(r.weight[q], l.port.weightRec[q]) <= LIGHT * Increase(r.pkt[q], l.port.pktRec[q])
    {
      PassedGains(l.regs, l.rules, i.weights, q);
      SignedIncrease(l.regs[q].pkt, regs[q].pkt - l.regs[q].pkt);
    }
    UpdatedBalanced(l.port, r);
    RunKeepsInv(l.port, [r]);
    assert [r][1..] == [];
  }

  lemma {:induction false} TurnsStayLight(sqrt: real -> real, l: Loop, intervals: seq<Interval>)
    requires InStep(l) && AllBalanced(l.port) && forall k :: 0 <= k < |intervals| ==> AllLight(intervals[k])
    ensures InStep(Turns(sqrt, l, intervals)) && AllBalanced(Turns(sqrt, l, intervals).port)
    ensures intervals != [] ==> Turns(sqrt, l, intervals).rules == Installed(sqrt, Turns(sqrt, l, intervals).port)
    decreases |intervals|
  {
    if intervals != [] {
      TurnStaysLight(sqrt, l, intervals[0]);
      TurnsStayLight(sqrt, Turn(sqrt, l, intervals[0]), intervals[1..]);
    }
  }

  lemma StartIsInStep()
    ensures InStep(Start()) && AllBalanced(Start().port)
  {
    assert Signed(0) == 0 && Weight(Registers(0, 0, 0)) == 0;
  }

  /** If no packet weighs more than 260104, every rule set that is ever installed partitions the weights. */
  lemma LightPacketsPartition(sqrt: real -> real, intervals: seq<Interval>)
    requires IsSquareRoot(sqrt) && intervals != []
    requires forall k :: 0 <= k < |intervals| ==> AllLight(intervals[k])
    ensures Partition(Turns(sqrt, Start(), intervals).rules)
  {
    StartIsInStep();
    TurnsStayLight(sqrt, Start(), intervals);
    BalancedPartitions(sqrt, Turns(sqrt, Start(), intervals).port);
  }

  // ---------- heavy packets ----------

  /** n packets of weight w counted in the same registers. */
  function Times(g: Registers, w: nat, n: nat): Registers {
    if n == 0 then g else Count(Times(g, w, n - 1), w)
  }

  function Equal(w: nat, n: nat): (weights: seq<nat>)
    ensures |weights| == n
  {
    seq(n, _ => w)
  }

  lemma {:induction false} EqualPassed(regs: seq<Registers>, rules: seq<Rule>, w: nat, n: nat)
    requires |regs| == QUEUES && OkRules(rules)
    ensures
      var q := Slot(rules, w);
      Passed(regs, rules, Equal(w, n)) == regs[q := Times(regs[q], w, n)]
  {
    if n > 0 {
      EqualPassed(regs, rules, w, n - 1);
      assert Equal(w, n)[..n - 1] == Equal(w, n - 1);
    }
  }

  lemma {:induction false} NoCarry(g: Registers, w: nat, n: nat)
    requires g.lo == 0 && n * w < WRAP
    ensures Times(g, w, n) == Registers(g.pkt + n, g.hi, n * w)
  {
    if n > 0 {
      assert n * w == (n - 1) * w + w;
      NoCarry(g, w, n - 1);
    }
  }

  lemma {:induction false} TimesAdd(g: Registers, w: nat, a: nat, b: nat)
    ensures Times(g, w, a + b) == Times(Times(g, w, a), w, b)
  {
    if b > 0 {
      TimesAdd(g, w, a, b - 1);
    }
  }

  /** When m packets just fill the low half, every m packets add 1 to the high half. */
  lemma {:induction false} Carries(g: Registers, w: nat, m: nat, times: nat)
    requires g.lo == 0 && m > 0 && (m - 1) * w < WRAP <= m * w
    ensures Times(g, w, m * times) == Registers(g.pkt + m * times, g.hi + times, 0)
  {
    if times > 0 {
      Carries(g, w, m, times - 1);
      var h := Times(g, w, m * (times - 1));
      assert m * times == m * (times - 1) + m;
      TimesAdd(g, w, m * (times - 1), m);
      assert m * w == (m - 1) * w + w;
      NoCarry(h, w, m - 1);
    } else {
      assert m * times == 0;
    }
  }

  lemma BatchPassed(regs: seq<Registers>, rules: seq<Rule>, q: nat, w: nat, m: nat, times: nat)
    requires |regs| == QUEUES && OkRules(rules) && q < QUEUES && Slot(rules, w) == q && regs[q].lo == 0
    requires m > 0 && (m - 1) * w < WRAP <= m * w
    ensures Passed(regs, rules, Equal(w, m * times)) ==
            regs[q := Registers(regs[q].pkt + m * times, regs[q].hi + times, 0)]
  {
    EqualPassed(regs, rules, w, m * times);
    Carries(regs[q], w, m, times);
  }

  /** An aging reading in which only slot q has grown, by n packets and carry times 2^31 of weight. */
  lemma ReadGrown(l: Loop, regs: seq<Registers>, q: nat, n: nat, carry: nat)
    requires InStep(l) && q < QUEUES && n < WRAP
    requires regs == l.regs[q := Registers(l.regs[q].pkt + n, l.regs[q].hi + carry, l.regs[q].lo)]
    ensures
      var t, p := Updated(l.port, Shown(regs, true)), Aged(l.port);
      && t.pktCounters == p.pktCounters[q := p.pktCounters[q] + n]
      && t.weightCounters == p.weightCounters[q := p.weightCounters[q] + carry * WRAP]
      && Inv(t)
  {
    SignedIncrease(l.regs[q].pkt, n);
    assert Weight(regs[q]) == Weight(l.regs[q]) + carry * WRAP;
  }

  /** m * times packets of weight w that are counted in slot q, followed by an aging reading. */
  lemma BatchTurn(sqrt: real -> real, l: Loop, q: nat, w: nat, m: nat, times: nat)
    requires InStep(l) && q < QUEUES && Slot(l.rules, w) == q && l.regs[q].lo == 0
    requires m > 0 && (m - 1) * w < WRAP <= m * w && m * times < WRAP
    ensures
      var t, p := Turn(sqrt, l, Interval(Equal(w, m * times), true)), Aged(l.port);
      && InStep(t) && t.rules == Installed(sqrt, t.port)
      && t.regs == l.regs[q := Registers(l.regs[q].pkt + m * times, l.regs[q].hi + times, 0)]
      && t.port.pktCounters == p.pktCounters[q := p.pktCounters[q] + m * times]
      && t.port.weightCounters == p.weightCounters[q := p.weightCounters[q] + times * WRAP]
  {
    var n := m * times;
    BatchPassed(l.regs, l.rules, q, w, m, times);
    ReadGrown(l, l.regs[q := Registers(l.regs[q].pkt + n, l.regs[q].hi + times, 0)], q, n, times);
  }

  /** Packet and weight counters of queues 0 and 1; all others are as at the start. */
  datatype Heavy = Heavy(n0: int, w0: int, n1: int, w1: int)

  predicate Holds(p: Port, h: Heavy) {
    && Shaped(p)
    && p.pktCounters == [h.n0, h.n1, 10, 10, 10, 10, 10, 10]
    && p.weightCounters == [h.w0, h.w1, 1520, 720, 350, 120, 70, 20]
  }

  function Halved(h: Heavy): Heavy {
    Heavy(if h.n0 > 256 then h.n0 / 2 else h.n0, if h.n0 > 256 then h.w0 / 2 else h.w0,
          if h.n1 > 256 then h.n1 / 2 else h.n1, if h.n1 > 256 then h.w1 / 2 else h.w1)
  }

  function Grown(h: Heavy, q: nat, n: int, w: int): Heavy {
    if q == 0 then h.(n0 := h.n0 + n, w0 := h.w0 + w) else h.(n1 := h.n1 + n, w1 := h.w1 + w)
  }

  lemma AgedHolds(p: Port, h: Heavy)
    requires Holds(p, h)
    ensures Holds(Aged(p), Halved(h))
  {
  }

  lemma GrownHolds(p: Port, t: Port, h: Heavy, q: nat, n: int, w: int)
    requires Holds(p, h) && Shaped(t) && q < 2
    requires t.pktCounters == p.pktCounters[q := p.pktCounters[q] + n]
    requires t.weightCounters == p.weightCounters[q := p.weightCounters[q] + w]
    ensures Holds(t, Grown(h, q, n, w))
  {
  }

  lemma HeavyTurn(sqrt: real -> real, l: Loop, h: Heavy, q: nat, w: nat, m: nat, times: nat)
    requires InStep(l) && q < 2 && Slot(l.rules, w) == q && l.regs[q].lo == 0 && l.regs[1].lo == 0
    requires m > 0 && (m - 1) * w < WRAP <= m * w && m * times < WRAP && Holds(l.port, h)
    ensures
      var t := Turn(sqrt, l, Interval(Equal(w, m * times), true));
      && InStep(t) && t.rules == Installed(sqrt, t.port) && t.regs[1].lo == 0
      && Holds(t.port, Grown(Halved(h), q, m * times, times * WRAP))
  {
    BatchTurn(sqrt, l, q, w, m, times);
    AgedHolds(l.port, h);
    var t := Turn(sqrt, l, Interval(Equal(w, m * times), true));
    GrownHolds(Aged(l.port), t.port, Halved(h), q, m * times, times * WRAP);
  }

  /** Whole numbers around the averages of queues 0 and 1. */
  predicate Around(h: Heavy, lo1: int, hi1: int, lo0: int) {
    && h.n0 > 0 && h.n1 > 0 && lo1 * h.n1 <= h.w1 <= hi1 * h.n1 && lo0 * h.n0 <= h.w0
    && 153 <= lo1 && hi1 + 1 <= lo0
  }

  lemma AveragesAround(p: Port, h: Heavy, lo1: int, hi1: int, lo0: int)
    requires Holds(p, h) && Around(h, lo1, hi1, lo0)
    ensures lo1 as real <= AverageOf(p, 1) <= hi1 as real && lo0 as real <= AverageOf(p, 0)
  {
    QuotientOrder(h.w1 as real, h.n1 as real, lo1 as real);
    QuotientOrder(h.w1 as real, h.n1 as real, hi1 as real);
    QuotientOrder(h.w0 as real, h.n0 as real, lo0 as real);
  }

  lemma HeavyAverages(p: Port, h: Heavy)
    requires Holds(p, h)
    ensures Averages(p) == [2.0, 7.0, 12.0, 35.0, 72.0, 152.0, AverageOf(p, 1), AverageOf(p, 0)]
  {
    assert AverageOf(p, 7) == 2.0 && AverageOf(p, 6) == 7.0 && AverageOf(p, 5) == 12.0;
    assert AverageOf(p, 4) == 35.0 && AverageOf(p, 3) == 72.0 && AverageOf(p, 2) == 152.0;
    assert forall i :: 0 <= i < QUEUES ==> Averages(p)[i] == AverageOf(p, 7 - i);
  }

  lemma HeavyCentres(p: Port, h: Heavy, lo1: int, hi1: int, lo0: int)
    requires Holds(p, h) && Around(h, lo1, hi1, lo0)
    ensures Separated(Averages(p)) == Averages(p) && Centres(Averages(p))
  {
    HeavyAverages(p, h);
    AveragesAround(p, h, lo1, hi1, lo0);
    GappedIsSeparated(Averages(p));
  }

  lemma ProductAtLeast(x: real, y: real, a: real, b: real)
    requires 0.0 <= a <= x && 0.0 <= b <= y
    ensures a * b <= x * y
  {
    Monotone(x, b, y);
    Monotone(b, a, x);
  }

  lemma ProductReaches(x: real, y: real, a: nat, b: nat, bound: nat)
    requires a as real <= x && b as real <= y && bound <= a * b
    ensures bound as real <= x * y
  {
    ProductAtLeast(x, y, a as real, b as real);
    assert a as real * b as real == (a * b) as real;
  }

  lemma AveragesEnclose(p: Port, h: Heavy, lo1: int, hi1: int, lo0: int, w: nat)
    requires Holds(p, h) && Around(h, lo1, hi1, lo0) && 152 * hi1 < w * w <= lo1 * lo0
    ensures !BelowMean(w, 152.0, AverageOf(p, 1)) && BelowMean(w, AverageOf(p, 1), AverageOf(p, 0))
  {
    AveragesAround(p, h, lo1, hi1, lo0);
    ProductReaches(AverageOf(p, 1), AverageOf(p, 0), lo1, lo0, w * w);
    assert w as real * w as real == (w * w) as real;
  }

  /** A weight between the means around queue 1 is counted in slot 1. */
  lemma CountedInOne(sqrt: real -> real, p: Port, h: Heavy, lo1: int, hi1: int, lo0: int, w: nat)
    requires IsSquareRoot(sqrt) && Holds(p, h) && Around(h, lo1, hi1, lo0) && 152 * hi1 < w * w <= lo1 * lo0
    ensures Slot(Installed(sqrt, p), w) == 1
  {
    HeavyAverages(p, h);
    HeavyCentres(p, h, lo1, hi1, lo0);
    AveragesEnclose(p, h, lo1, hi1, lo0, w);
    MatchBetween(sqrt, Averages(p), 6, w);
    assert FirstMatch(Installed(sqrt, p), w, 0) == 6;
  }

  lemma NotBelow(x: real, y: real, a: nat, b: nat)
    requires a as real <= x && b as real <= y && a * b >= 68719476736
    ensures !ProductBelow(x, y)
  {
    ProductReaches(x, y, a, b, 68719476736);
  }

  lemma LeaveNoRoom(p: Port, h: Heavy, lo1: int, hi1: int, lo0: int)
    requires Holds(p, h) && Around(h, lo1, hi1, lo0) && lo1 * lo0 >= 68719476736
    ensures !ProductBelow(AverageOf(p, 1), AverageOf(p, 0))
  {
    AveragesAround(p, h, lo1, hi1, lo0);
    NotBelow(AverageOf(p, 1), AverageOf(p, 0), lo1, lo0);
  }

  lemma TooHeavy(sqrt: real -> real, p: Port, h: Heavy, lo1: int, hi1: int, lo0: int)
    requires IsSquareRoot(sqrt) && Holds(p, h) && Around(h, lo1, hi1, lo0) && lo1 * lo0 >= 68719476736
    ensures !Partition(Installed(sqrt, p))
  {
    HeavyAverages(p, h);
    HeavyCentres(p, h, lo1, hi1, lo0);
    LeaveNoRoom(p, h, lo1, hi1, lo0);
    RulesPartition(sqrt, Averages(p));
  }

  // The counters after each of the intervals below.
  const FIRST := Heavy(107410, 107374190420, 10, 3220)
  const SECOND := Heavy(53705, 53687095210, 126333, 2147486868)
  const THIRD := Heavy(26852, 26843547605, 228366, 22548579914)

  /**
   * Three intervals, each ended by an aging reading: packets of weight 1000000 while no rule is installed, then
   * packets of weight 17000, then packets of weight 130000.
   */
  function HeavyIntervals(): seq<Interval> {
    [Interval(Equal(1000000, 107400), true), Interval(Equal(17000, 126323), true),
     Interval(Equal(130000, 165200), true)]
  }

  lemma Counters()
    ensures Grown(Halved(Heavy(10, 8020, 10, 3220)), 0, 107400, 50 * WRAP) == FIRST
    ensures Grown(Halved(FIRST), 1, 126323, WRAP) == SECOND
    ensures Grown(Halved(SECOND), 1, 165200, 10 * WRAP) == THIRD
    ensures Around(FIRST, 322, 322, 999666) && Around(SECOND, 16998, 17000, 999666)
    ensures Around(THIRD, 98738, 98739, 999685)
  {
  }

  /** The second packets are counted in slot 1 by the rules installed before them. */
  lemma FirstTurn(sqrt: real -> real, l: Loop)
    requires IsSquareRoot(sqrt) && l == Turn(sqrt, Start(), HeavyIntervals()[0])
    ensures InStep(l) && l.regs[1].lo == 0 && Holds(l.port, FIRST) && Slot(l.rules, 17000) == 1
  {
    StartIsInStep();
    Counters();
    HeavyTurn(sqrt, Start(), Heavy(10, 8020, 10, 3220), 0, 1000000, 2148, 50);
    CountedInOne(sqrt, l.port, FIRST, 322, 322, 999666, 17000);
  }

  /** And so are the third. */
  lemma SecondTurn(sqrt: real -> real, l: Loop, t: Loop)
    requires IsSquareRoot(sqrt) && InStep(l) && l.regs[1].lo == 0 && Holds(l.port, FIRST)
    requires Slot(l.rules, 17000) == 1 && t == Turn(sqrt, l, HeavyIntervals()[1])
    ensures InStep(t) && t.regs[1].lo == 0 && Holds(t.port, SECOND) && Slot(t.rules, 130000) == 1
  {
    Counters();
    HeavyTurn(sqrt, l, FIRST, 1, 17000, 126323, 1);
    CountedInOne(sqrt, t.port, SECOND, 16998, 17000, 999666, 130000);
  }

  lemma ThirdTurn(sqrt: real -> real, l: Loop, t: Loop)
    requires IsSquareRoot(sqrt) && InStep(l) && l.regs[1].lo == 0 && Holds(l.port, SECOND)
    requires Slot(l.rules, 130000) == 1 && t == Turn(sqrt, l, HeavyIntervals()[2])
    ensures !Partition(t.rules)
  {
    Counters();
    HeavyTurn(sqrt, l, SECOND, 1, 130000, 16520, 10);
    TooHeavy(sqrt, t.port, THIRD, 98738, 98739, 999685);
  }

  /** Heavier packets can lead the controller to rules that do not partition the weights. */
  lemma HeavyPacketsBreakPartition(sqrt: real -> real)
    requires IsSquareRoot(sqrt)
    ensures !Partition(Turns(sqrt, Start(), HeavyIntervals()).rules)
  {
    var all := HeavyIntervals();
    var l := Turn(sqrt, Start(), all[0]);
    FirstTurn(sqrt, l);
    var m := Turn(sqrt, l, all[1]);
    SecondTurn(sqrt, l, m);
    var t := Turn(sqrt, m, all[2]);
    ThirdTurn(sqrt, m, t);
    assert all[1..][1..] == [all[2]] && [all[2]][1..] == [];
    assert Turns(sqrt, Start(), all) == Turns(sqrt, m, [all[2]]) == Turns(sqrt, t, []);
  }
}
