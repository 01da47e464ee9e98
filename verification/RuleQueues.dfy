/** Which queue a rule sends its weights to: lighter packets to higher queues, each to the nearest average. */
module RuleQueues {
  import opened RatioDistance
  import opened RealFacts
  import opened ThresholdRules

  ghost predicate HasRule(rules: seq<Rule>, q: int) {
    exists i :: 0 <= i < |rules| && rules[i].queue == q
  }

  /** For every port, the rules name each of the queues 0 to 7 exactly once. */
  lemma EachQueueOnce(sqrt: real -> real, p: Port)
    requires Shaped(p)
    ensures forall q :: HasRule(Installed(sqrt, p), q) <==> 0 <= q < 8
    ensures forall i, j :: 0 <= i < j < 8 ==> Installed(sqrt, p)[i].queue != Installed(sqrt, p)[j].queue
  {
    forall q | 0 <= q < 8
      ensures HasRule(Installed(sqrt, p), q)
    {
      assert Installed(sqrt, p)[7 - q].queue == q;
    }
  }

  lemma {:induction false} RulesInOrder(sqrt: real -> real, s: seq<real>, i: nat, j: nat, w: int, v: int)
    requires IsSquareRoot(sqrt) && Centres(s) && i < j < QUEUES
    requires Matches(Rules(Thresholds(sqrt, s))[i], w) && Matches(Rules(Thresholds(sqrt, s))[j], v)
    ensures w < v
  {
    var t := Thresholds(sqrt, s);
    if i < j - 1 {
      FloorsIncrease(sqrt, s, i, j - 1);
    }
    assert w <= t[i].Floor <= t[j - 1].Floor < v;
  }

  lemma InstalledInOrder(sqrt: real -> real, p: Port, i: nat, j: nat, w: int, v: int)
    requires IsSquareRoot(sqrt) && Inv(p) && i < 8 && j < 8 && w <= v
    requires Matches(Installed(sqrt, p)[i], w) && Matches(Installed(sqrt, p)[j], v)
    ensures i <= j
  {
    AveragesAreNonNegative(p);
    SeparatedIsGapped(Averages(p));
    if j < i {
      RulesInOrder(sqrt, Separated(Averages(p)), j, i, v, w);
    }
  }

  /** In every reachable state a heavier weight never goes to a higher queue than a lighter one. */
  lemma HeavierGoesLower(sqrt: real -> real, rs: seq<Reading>, i: nat, j: nat, w: int, v: int)
    requires IsSquareRoot(sqrt) && AllShaped(rs) && i < 8 && j < 8 && w <= v
    requires Matches(Installed(sqrt, Run(Initial(), rs))[i], w) && Matches(Installed(sqrt, Run(Initial(), rs))[j], v)
    ensures Installed(sqrt, Run(Initial(), rs))[j].queue <= Installed(sqrt, Run(Initial(), rs))[i].queue
  {
    var p := Run(Initial(), rs);
    RunKeepsInv(Initial(), rs);
    InstalledInOrder(sqrt, p, i, j, w, v);
    assert Installed(sqrt, p)[i].queue == 7 - i && Installed(sqrt, p)[j].queue == 7 - j;
  }

  /** The average weight of the packets counted for queue q. */
  function Mean(p: Port, q: nat): real
    requires Inv(p) && q < 8
  {
    p.weightCounters[q] as real / p.pktCounters[q] as real
  }

  /** The averages fall by at least one from each queue to the next. */
  predicate MeansApart(p: Port)
    requires Inv(p)
  {
    forall q :: 0 <= q < 7 ==> Mean(p, q) >= Mean(p, q + 1) + 1.0
  }

  lemma AverageIsMean(p: Port, i: nat)
    requires Inv(p) && i < 8
    ensures Averages(p)[i] == Mean(p, 7 - i)
  {
    assert AverageOf(p, 7 - i) == Mean(p, 7 - i);
  }

  lemma MeansAreAverages(p: Port)
    requires Inv(p) && MeansApart(p)
    ensures Separated(Averages(p)) == Averages(p) && Centres(Averages(p))
  {
    AveragesAreNonNegative(p);
    var a := Averages(p);
    forall i | 0 <= i < 7
      ensures Apart(a, i)
    {
      AverageIsMean(p, i);
      AverageIsMean(p, i + 1);
    }
    GappedIsSeparated(a);
  }

  /**
   * In every reachable state whose averages are one apart, a weight goes to the queue whose average is nearest in
   * ratio, and on a tie to the highest of them.
   */
  lemma WeightGoesToNearest(sqrt: real -> real, rs: seq<Reading>, i: nat, w: int, q: nat)
    requires IsSquareRoot(sqrt) && AllShaped(rs) && i < 8 && q < 8 && w > 0
    requires Inv(Run(Initial(), rs)) && MeansApart(Run(Initial(), rs))
    requires Matches(Installed(sqrt, Run(Initial(), rs))[i], w)
    ensures
      var p, r := Run(Initial(), rs), Installed(sqrt, Run(Initial(), rs))[i].queue;
      && 0 <= r < 8 && AsNear(w as real, Mean(p, r), Mean(p, q))
      && (q > r ==> !AsNear(w as real, Mean(p, q), Mean(p, r)))
  {
    var p := Run(Initial(), rs);
    MeansAreAverages(p);
    AverageIsMean(p, i);
    AverageIsMean(p, 7 - q);
    RulesPickNearest(sqrt, Averages(p), w, i, 7 - q);
    assert Installed(sqrt, p)[i].queue == 7 - i;
  }
}
