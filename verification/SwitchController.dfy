/** The per-port state of the switch controller, updated in place by one pass of its control loop. */
module SwitchController {
  import opened RealFacts
  import opened ThresholdRules

  class PortController {
    const sqrt: real -> real
    var pktCounters: seq<int>
    var weightCounters: seq<int>
    var pktRec: seq<int>
    var weightRec: seq<int>

    ghost function Abs(): Port
      reads this
    {
      Port(pktCounters, weightCounters, pktRec, weightRec)
    }

    ghost predicate Valid()
      reads this
    {
      IsSquareRoot(sqrt) && Inv(Abs())
    }

    constructor (sqrt: real -> real)
      requires IsSquareRoot(sqrt)
      ensures Valid() && Abs() == Initial() && this.sqrt == sqrt
    {
      this.sqrt := sqrt;
      var ts := [0, 5, 10, 33, 70, 150, 320, 800];
      pktCounters := seq(QUEUES, _ => 10);
      weightCounters := seq(QUEUES, j requires 0 <= j < QUEUES => 10 * (ts[7 - j] + 2));
      pktRec, weightRec := seq(QUEUES, _ => 0), seq(QUEUES, _ => 0);
    }

    /** The wrap-correcting loop terminates with the non-negative difference. */
    static method WrappedDifference(now: int, before: int) returns (diff: int)
      ensures diff == Increase(now, before)
      ensures diff >= 0 && (diff - (now - before)) % WRAP == 0
    {
      diff := now - before;
      ghost var added := 0;
      while diff < 0
        invariant diff == now - before + added * WRAP && added >= 0
        invariant diff < WRAP || added == 0
        decreases -diff
      {
        diff := diff + WRAP;
        added := added + 1;
      }
      WrapIsModulo(now - before, added, diff);
    }

    static lemma WrapIsModulo(start: int, added: nat, diff: int)
      requires diff == start + added * WRAP && diff >= 0 && (diff < WRAP || added == 0)
      requires added > 0 <==> start < 0
      ensures diff == if start < 0 then start % WRAP else start
      ensures (diff - start) % WRAP == 0
    {
    }

    method Age()
      requires Shaped(Abs())
      modifies this
      ensures Abs() == Aged(old(Abs()))
    {
      for i := 0 to QUEUES
        invariant Shaped(Abs()) && pktRec == old(pktRec) && weightRec == old(weightRec)
        invariant forall k :: 0 <= k < i ==>
                    && pktCounters[k] == Aged(old(Abs())).pktCounters[k]
                    && weightCounters[k] == Aged(old(Abs())).weightCounters[k]
        invariant forall k :: i <= k < QUEUES ==>
                    pktCounters[k] == old(pktCounters)[k] && weightCounters[k] == old(weightCounters)[k]
      {
        if pktCounters[i] > 256 {
          pktCounters := pktCounters[i := pktCounters[i] / 2];
          weightCounters := weightCounters[i := weightCounters[i] / 2];
        }
      }
    }

    method Absorb(r: Reading)
      requires Shaped(Abs()) && ShapedReading(r)
      modifies this
      ensures Abs() == Absorbed(old(Abs()), r)
    {
      var pkt, weight := r.pkt, r.weight;
      ghost var target := Absorbed(Abs(), r);
      for i := 0 to QUEUES
        invariant Shaped(Abs())
        invariant forall k :: 0 <= k < i ==> pktCounters[k] == target.pktCounters[k] && pktRec[k] == pkt[k]
        invariant forall k :: 0 <= k < i ==> weightCounters[k] == target.weightCounters[k] && weightRec[k] == weight[k]
        invariant forall k :: i <= k < QUEUES ==> pktCounters[k] == old(pktCounters)[k] && pktRec[k] == old(pktRec)[k]
        invariant forall k :: i <= k < QUEUES ==>
                    weightCounters[k] == old(weightCounters)[k] && weightRec[k] == old(weightRec)[k]
      {
        var pktDiff := WrappedDifference(pkt[i], pktRec[i]);
        pktCounters := pktCounters[i := pktCounters[i] + pktDiff];
        pktRec := pktRec[i := pkt[i]];
        var weightDiff := WrappedDifference(weight[i], weightRec[i]);
        weightCounters := weightCounters[i := weightCounters[i] + weightDiff];
        weightRec := weightRec[i := weight[i]];
      }
      assert Abs() == target;
    }

    method CurrentAverages() returns (avgs: seq<real>)
      requires Shaped(Abs())
      ensures avgs == Averages(Abs())
    {
      avgs := [];
      for i := 0 to QUEUES
        invariant |avgs| == i && forall k :: 0 <= k < i ==> avgs[k] == AverageOf(Abs(), k)
      {
        if pktCounters[i] != 0 {
          avgs := avgs + [weightCounters[i] as real / pktCounters[i] as real];
        } else {
          avgs := avgs + [1.0];
        }
      }
      avgs := seq(QUEUES, i requires 0 <= i < QUEUES => avgs[QUEUES - 1 - i]);
    }

    /** One loop separates the averages and appends the threshold below each of them. */
    method SeparateAndMean(given: seq<real>) returns (avgs: seq<real>, thresholds: seq<real>)
      requires |given| == QUEUES
      ensures avgs == Separated(given) && thresholds == Thresholds(sqrt, avgs)
    {
      avgs, thresholds := given, [];
      for i := 1 to QUEUES
        invariant |avgs| == QUEUES && avgs[..i] == Separated(given[..i]) && avgs[i..] == given[i..]
        invariant |thresholds| == i - 1
        invariant forall k :: 0 <= k < i - 1 ==> thresholds[k] == GeometricMean(sqrt, avgs[k], avgs[k + 1])
      {
        ghost var before := avgs;
        assert avgs[i] == given[i] && avgs[i - 1] == Separated(given[..i])[i - 1];
        assert given[..i + 1][..i] == given[..i];
        avgs := avgs[i := Larger(avgs[i], avgs[i - 1] + 1.0)];
        assert avgs[..i + 1] == before[..i] + [avgs[i]];
        assert avgs[i + 1..] == before[i..][1..] == given[i + 1..];
        assert forall k :: 0 <= k < i ==> avgs[k] == before[k];
        thresholds := thresholds + [GeometricMean(sqrt, avgs[i - 1], avgs[i])];
      }
      assert given[..QUEUES] == given && avgs[..QUEUES] == avgs;
      thresholds := thresholds + [TOP as real];
    }

    method MakeRules(thresholds: seq<real>) returns (rules: seq<Rule>)
      requires |thresholds| == QUEUES
      ensures rules == Rules(thresholds)
    {
      rules := [];
      for i := 0 to QUEUES
        invariant |rules| == i && forall k :: 0 <= k < i ==> rules[k] == Rules(thresholds)[k]
      {
        var start := 0;
        if i > 0 {
          start := thresholds[i - 1].Floor + 1;
        }
        var end := thresholds[i].Floor;
        rules := rules + [Rule(start, end, 7 - i)];
      }
    }

    /**
     * One pass over the port: age if this is an aging round, absorb the registers, recompute averages and
     * thresholds, and make the rules to install.
     */
    method UpdatePort(r: Reading) returns (rules: seq<Rule>)
      requires Valid() && ShapedReading(r)
      modifies this
      ensures Valid() && Abs() == Updated(old(Abs()), r)
      ensures rules == Installed(sqrt, Abs())
      ensures Partition(rules) <==> FitsBelowTop(Separated(Averages(Abs())))
    {
      if r.ages {
        Age();
      }
      Absorb(r);
      var avgs := CurrentAverages();
      AveragesAreNonNegative(Abs());
      SeparatedIsGapped(avgs);
      var thresholds;
      avgs, thresholds := SeparateAndMean(avgs);
      rules := MakeRules(thresholds);
      RulesPartition(sqrt, avgs);
    }
  }
}
