/**
 * Flow-weighted round robin in its simplest form: queues of packets and credits, where a refill gives every queue
 * one credit per distinct flow that it stores. FairQueueCredits shows that FQ_QC implements it.
 */
module FlowRounds {
  import opened Basics
  import opened Packets

  const QUEUES: nat := MOST_QUEUES

  datatype Rounds = Rounds(qs: seq<seq<Packet>>, credits: seq<nat>)

  datatype Event = Arrive(q: nat, p: Packet) | Drop | Serve

  predicate Ok(r: Rounds) {
    && |r.qs| == QUEUES && |r.credits| == QUEUES
    && forall i :: 0 <= i < QUEUES ==> r.credits[i] <= |r.qs[i]|
  }

  predicate OkEvent(e: Event) {
    e.Arrive? ==> e.q < QUEUES
  }

  function Flows(q: seq<Packet>): set<int> {
    set i | 0 <= i < |q| :: q[i].flow
  }

  function DistinctFlowCounts(qs: seq<seq<Packet>>): seq<nat> {
    seq(|qs|, i requires 0 <= i < |qs| => |Flows(qs[i])|)
  }

  /** The first of the queues i to n - 1 with a credit, or n. */
  function FirstCredit(credits: seq<nat>, i: nat, n: nat): (k: nat)
    requires i <= n <= |credits|
    ensures i <= k <= n
    ensures forall j :: i <= j < k ==> credits[j] == 0
    ensures k < n ==> credits[k] != 0
    decreases n - i
  {
    if i == n || credits[i] != 0 then i else FirstCredit(credits, i + 1, n)
  }

  predicate Exhausted(credits: seq<nat>) {
    FirstCredit(credits, 0, |credits|) == |credits|
  }

  predicate Empty(r: Rounds) {
    forall i :: 0 <= i < |r.qs| ==> r.qs[i] == []
  }

  /** The credits that the next service is chosen by. */
  function Current(r: Rounds): seq<nat> {
    if Exhausted(r.credits) then DistinctFlowCounts(r.qs) else r.credits
  }

  function Chosen(r: Rounds): nat {
    FirstCredit(Current(r), 0, |Current(r)|)
  }

  lemma {:induction false} FlowsAtMostPackets(q: seq<Packet>)
    ensures |Flows(q)| <= |q|
    ensures q != [] ==> |Flows(q)| > 0
  {
    if q != [] {
      FlowsAtMostPackets(q[1..]);
      assert forall i :: 1 <= i < |q| ==> q[i] == q[1..][i - 1];
      assert Flows(q) == {q[0].flow} + Flows(q[1..]);
    }
  }

  /** A credit always stands for a stored packet, also right after a refill. */
  lemma CurrentFits(r: Rounds)
    requires Ok(r)
    ensures |Current(r)| == QUEUES
    ensures forall i :: 0 <= i < QUEUES ==> Current(r)[i] <= |r.qs[i]|
    ensures Exhausted(r.credits) ==> forall i :: 0 <= i < QUEUES ==> (r.qs[i] != [] <==> Current(r)[i] > 0)
    ensures !Empty(r) ==> Chosen(r) < QUEUES
  {
    forall i | 0 <= i < QUEUES
      ensures |Flows(r.qs[i])| <= |r.qs[i]|
      ensures r.qs[i] != [] ==> |Flows(r.qs[i])| > 0
    {
      FlowsAtMostPackets(r.qs[i]);
    }
  }

  function Served(r: Rounds): (Rounds, Option<Service>)
    requires Ok(r)
  {
    if Empty(r) then (r, None)
    else
      CurrentFits(r);
      var k, credits := Chosen(r), Current(r);
      (Rounds(r.qs[k := r.qs[k][1..]], credits[k := credits[k] - 1]),
       Some(Service(k, r.qs[k][0], Exhausted(r.credits))))
  }

  function Step(r: Rounds, e: Event): Rounds
    requires Ok(r) && OkEvent(e)
  {
    match e
    case Arrive(q, p) => r.(qs := r.qs[q := r.qs[q] + [p]])
    case Drop => r
    case Serve => Served(r).0
  }

  function Output(r: Rounds, e: Event): seq<Service>
    requires Ok(r)
  {
    if e == Serve && !Empty(r) then [Served(r).1.value] else []
  }

  lemma StepOk(r: Rounds, e: Event)
    requires Ok(r) && OkEvent(e)
    ensures Ok(Step(r, e))
  {
    CurrentFits(r);
  }

  function Run(r: Rounds, es: seq<Event>): (t: Rounds)
    requires Ok(r) && forall i :: 0 <= i < |es| ==> OkEvent(es[i])
    ensures Ok(t)
    decreases |es|
  {
    if es == [] then r else StepOk(r, es[0]); Run(Step(r, es[0]), es[1..])
  }

  function Services(r: Rounds, es: seq<Event>): seq<Service>
    requires Ok(r) && forall i :: 0 <= i < |es| ==> OkEvent(es[i])
    decreases |es|
  {
    if es == [] then [] else StepOk(r, es[0]); Output(r, es[0]) + Services(Step(r, es[0]), es[1..])
  }

  // ---------- rounds ----------

  function Repeated(q: nat, n: nat): seq<nat> {
    seq(n, _ => q)
  }

  /** The services that the credits of queues i.. stand for, in increasing queue order. */
  function Schedule(credits: seq<nat>, i: nat): seq<nat>
    requires i <= |credits|
    decreases |credits| - i
  {
    if i == |credits| then [] else Repeated(i, credits[i]) + Schedule(credits, i + 1)
  }

  function QueuesOf(out: seq<Service>): seq<nat> {
    seq(|out|, i requires 0 <= i < |out| => out[i].queue)
  }

  ghost predicate NoRefill(out: seq<Service>) {
    forall i :: 0 <= i < |out| ==> !out[i].refilled
  }

  lemma {:induction false} ScheduleTail(credits: seq<nat>, less: seq<nat>, i: nat)
    requires i <= |credits| == |less|
    requires forall j :: i <= j < |credits| ==> credits[j] == less[j]
    ensures Schedule(credits, i) == Schedule(less, i)
    decreases |credits| - i
  {
    if i < |credits| {
      ScheduleTail(credits, less, i + 1);
    }
  }

  lemma ScheduleSkip(credits: seq<nat>, i: nat)
    requires i < |credits| && credits[i] == 0
    ensures Schedule(credits, i) == Schedule(credits, i + 1)
  {
    assert [] + Schedule(credits, i + 1) == Schedule(credits, i + 1);
  }

  /** Spending the first credit takes the first service off the schedule. */
  lemma {:induction false} ScheduleSpend(credits: seq<nat>, i: nat, k: nat)
    requires i <= k < |credits| && credits[k] > 0
    requires forall j :: i <= j < k ==> credits[j] == 0
    ensures Schedule(credits, i) == [k] + Schedule(credits[k := credits[k] - 1], i)
    decreases k - i
  {
    var less := credits[k := credits[k] - 1];
    if i == k {
      ScheduleTail(credits, less, k + 1);
      var left, rest := Repeated(k, less[k]), Schedule(less, k + 1);
      assert Repeated(k, credits[k]) == [k] + left;
      assert ([k] + left) + rest == [k] + (left + rest);
    } else {
      ScheduleSpend(credits, i + 1, k);
      ScheduleSkip(credits, i);
      ScheduleSkip(less, i);
    }
  }

  lemma {:induction false} NoScheduleWithoutCredit(credits: seq<nat>, i: nat)
    requires i <= |credits| && forall j :: i <= j < |credits| ==> credits[j] == 0
    ensures Schedule(credits, i) == []
    decreases |credits| - i
  {
    if i < |credits| {
      NoScheduleWithoutCredit(credits, i + 1);
    }
  }

  /** One step: what is served plus what is still scheduled is what was scheduled. */
  lemma ScheduleStep(r: Rounds, e: Event)
    requires Ok(r) && OkEvent(e) && NoRefill(Output(r, e))
    ensures QueuesOf(Output(r, e)) + Schedule(Step(r, e).credits, 0) == Schedule(r.credits, 0)
  {
    if e == Serve && !Empty(r) {
      CurrentFits(r);
      assert !Output(r, e)[0].refilled;
      ScheduleSpend(r.credits, 0, Chosen(r));
      assert QueuesOf(Output(r, e)) == [Chosen(r)];
    } else {
      assert QueuesOf(Output(r, e)) == [];
    }
  }

  lemma QueuesOfConcat(a: seq<Service>, b: seq<Service>)
    ensures QueuesOf(a + b) == QueuesOf(a) + QueuesOf(b)
    ensures NoRefill(a + b) ==> NoRefill(a) && NoRefill(b)
  {
    assert forall i :: 0 <= i < |a| ==> a[i] == (a + b)[i];
    assert forall i :: 0 <= i < |b| ==> b[i] == (a + b)[|a| + i];
  }

  /**
   * While credits last, the services follow the schedule fixed at the last refill, in increasing queue order,
   * whatever arrives meanwhile: served so far, then still scheduled, is the schedule at the start.
   */
  lemma {:induction false} ServicesFollowSchedule(r: Rounds, es: seq<Event>)
    requires Ok(r) && forall i :: 0 <= i < |es| ==> OkEvent(es[i])
    requires NoRefill(Services(r, es))
    ensures QueuesOf(Services(r, es)) + Schedule(Run(r, es).credits, 0) == Schedule(r.credits, 0)
    decreases |es|
  {
    if es != [] {
      StepOk(r, es[0]);
      var t := Step(r, es[0]);
      QueuesOfConcat(Output(r, es[0]), Services(t, es[1..]));
      ScheduleStep(r, es[0]);
      ServicesFollowSchedule(t, es[1..]);
      Prepend(QueuesOf(Output(r, es[0])), QueuesOf(Services(t, es[1..])), Schedule(Run(t, es[1..]).credits, 0),
              Schedule(t.credits, 0));
    }
  }

  /** The first service of a round is the first of the schedule that the refill fixes. */
  lemma RoundStarts(r: Rounds)
    requires Ok(r) && !Empty(r) && Exhausted(r.credits)
    ensures QueuesOf(Output(r, Serve)) == [Chosen(r)]
    ensures Schedule(DistinctFlowCounts(r.qs), 0) == QueuesOf(Output(r, Serve)) + Schedule(Step(r, Serve).credits, 0)
  {
    CurrentFits(r);
    ScheduleSpend(Current(r), 0, Chosen(r));
  }

  /**
   * A complete round, from a refill to the moment all credits are spent, serves queue 0, then queue 1, and so
   * on, each as often as it had distinct flows at the refill.
   */
  lemma CompleteRound(r: Rounds, es: seq<Event>)
    requires Ok(r) && forall i :: 0 <= i < |es| ==> OkEvent(es[i])
    requires es != [] && es[0] == Serve && !Empty(r) && Exhausted(r.credits)
    requires NoRefill(Services(r, es)[1..])
    requires Exhausted(Run(r, es).credits)
    ensures QueuesOf(Services(r, es)) == Schedule(DistinctFlowCounts(r.qs), 0)
  {
    StepOk(r, Serve);
    RoundStarts(r);
    var t := Step(r, Serve);
    var rest := Services(t, es[1..]);
    assert Services(r, es)[1..] == rest;
    ServicesFollowSchedule(t, es[1..]);
    NoScheduleWithoutCredit(Run(t, es[1..]).credits, 0);
    QueuesOfConcat(Output(r, Serve), rest);
    assert QueuesOf(rest) + [] == QueuesOf(rest);
  }

  // ---------- waiting time ----------

  function Refills(out: seq<Service>): nat {
    if out == [] then 0 else (if out[0].refilled then 1 else 0) + Refills(out[1..])
  }

  /** A service from q uses up a credit of q; a service from elsewhere leaves the packets and credits of q alone. */
  lemma ServedCases(r: Rounds, q: nat)
    requires Ok(r) && q < QUEUES && r.qs[q] != []
    ensures !Empty(r) && Ok(Served(r).0)
    ensures
      var (t, s) := Served(r);
      && (s.value.refilled ==> r.credits[q] == 0)
      && (if s.value.queue == q then
            t.qs[q] == r.qs[q][1..]
          else
            t.qs[q] == r.qs[q] && (t.credits[q] > 0 <==> r.credits[q] > 0 || s.value.refilled))
  {
    CurrentFits(r);
  }

  lemma OneMore(first: Service, rest: seq<Service>, q: nat)
    ensures |Departures([first] + rest, q)| == |Departures(rest, q)| + (if first.queue == q then 1 else 0)
    ensures Refills([first] + rest) == Refills(rest) + (if first.refilled then 1 else 0)
  {
    assert ([first] + rest)[1..] == rest;
  }

  /**
   * At least n services of q, or one per complete round: k refills enclose k - 1 complete rounds, and a credit
   * left at the start adds one more service.
   */
  predicate Prompt(r: Rounds, out: seq<Service>, q: nat, n: nat)
    requires q < |r.credits|
  {
    |Departures(out, q)| >= Lesser(n, Refills(out) - (if r.credits[q] > 0 then 0 else 1))
  }

  lemma PromptStep(r: Rounds, q: nat, n: nat, rest: seq<Service>)
    requires Ok(r) && q < QUEUES && 0 < n <= |r.qs[q]| && !Empty(r) && Ok(Served(r).0)
    requires Prompt(Served(r).0, rest, q, if Served(r).1.value.queue == q then n - 1 else n)
    ensures Prompt(r, [Served(r).1.value] + rest, q, n)
  {
    ServedCases(r, q);
    OneMore(Served(r).1.value, rest, q);
  }

  /** A queue that starts with n packets is served at least once in every complete round until those n are gone. */
  lemma {:induction false} ServedEveryRound(r: Rounds, es: seq<Event>, q: nat, n: nat)
    requires Ok(r) && forall i :: 0 <= i < |es| ==> OkEvent(es[i])
    requires q < QUEUES && n <= |r.qs[q]|
    ensures Prompt(r, Services(r, es), q, n)
    decreases |es|
  {
    if es != [] && n > 0 {
      StepOk(r, es[0]);
      var rest := Services(Step(r, es[0]), es[1..]);
      if es[0] == Serve {
        ServedCases(r, q);
        ServedEveryRound(Served(r).0, es[1..], q, if Served(r).1.value.queue == q then n - 1 else n);
        PromptStep(r, q, n, rest);
      } else {
        assert Output(r, es[0]) + rest == rest;
        ServedEveryRound(Step(r, es[0]), es[1..], q, n);
      }
    }
  }

  // ---------- conservation ----------

  function Arrivals(es: seq<Event>, q: nat): seq<Packet> {
    if es == [] then [] else Arrival(es[0], q) + Arrivals(es[1..], q)
  }

  function Arrival(e: Event, q: nat): seq<Packet> {
    if e.Arrive? && e.q == q then [e.p] else []
  }

  lemma StepIsFifo(r: Rounds, e: Event, q: nat)
    requires Ok(r) && OkEvent(e) && q < QUEUES
    ensures Ok(Step(r, e))
    ensures Departures(Output(r, e), q) + Step(r, e).qs[q] == r.qs[q] + Arrival(e, q)
  {
    StepOk(r, e);
    if e == Serve {
      ServedIsFifo(r, q);
    }
  }

  lemma ServedIsFifo(r: Rounds, q: nat)
    requires Ok(r) && q < QUEUES
    ensures Ok(Served(r).0)
    ensures Departures(Output(r, Serve), q) + Served(r).0.qs[q] == r.qs[q]
  {
    if !Empty(r) {
      CurrentFits(r);
      assert Output(r, Serve)[1..] == [];
      var k := Chosen(r);
      assert r.qs[k] == [r.qs[k][0]] + r.qs[k][1..];
    }
  }

  /** Nothing is lost, duplicated or reordered within a queue by any run. */
  lemma {:induction false} QueuesAreFifo(r: Rounds, es: seq<Event>, q: nat)
    requires Ok(r) && q < QUEUES && forall i :: 0 <= i < |es| ==> OkEvent(es[i])
    ensures Departures(Services(r, es), q) + Run(r, es).qs[q] == r.qs[q] + Arrivals(es, q)
    decreases |es|
  {
    if es != [] {
      var t := Step(r, es[0]);
      StepIsFifo(r, es[0], q);
      QueuesAreFifo(t, es[1..], q);
      var out, later := Output(r, es[0]), Services(t, es[1..]);
      DeparturesConcat(out, later, q);
      Splice(Departures(out, q), Departures(later, q), Run(t, es[1..]).qs[q], t.qs[q],
             Arrivals(es[1..], q), r.qs[q], Arrival(es[0], q));
    }
  }

  /** A packet with k packets ahead of it is gone once k + 1 complete rounds lie behind the current one. */
  lemma DepartsWithinRounds(r: Rounds, es: seq<Event>, q: nat, k: nat)
    requires Ok(r) && q < QUEUES && k < |r.qs[q]| && forall i :: 0 <= i < |es| ==> OkEvent(es[i])
    requires Refills(Services(r, es)) >= k + 2
    ensures k < |Departures(Services(r, es), q)|
    ensures Departures(Services(r, es), q)[k] == r.qs[q][k]
  {
    ServedEveryRound(r, es, q, k + 1);
    QueuesAreFifo(r, es, q);
    var gone, left := Departures(Services(r, es), q), Run(r, es).qs[q];
    assert gone[k] == (gone + left)[k] == (r.qs[q] + Arrivals(es, q))[k];
  }
}
