/** FQ_QC as an object: arrays of queues, counters, flow maps and credits, updated in place. */
module CreditScheduler {
  import opened Basics
  import opened Packets
  import opened IntegerRoot
  import opened FairQueueCredits
  import R = FlowRounds

  class FQQC {
    const config: Config
    var queueNum: int
    var messageId: map<int, int>
    var flowCount: map<int, nat>
    const q: array<seq<Packet>>
    const countFlowIn: array<set<int>>
    const pktNum: array<nat>
    const pktSum: array<nat>
    const currentFlow: array<map<int, nat>>
    const rrTimes: array<nat>

    ghost function Abs(): State
      reads this, q, countFlowIn, pktNum, pktSum, currentFlow, rrTimes
    {
      State(queueNum, q[..], currentFlow[..], rrTimes[..], pktNum[..], pktSum[..], flowCount, messageId,
            countFlowIn[..])
    }

    ghost predicate Valid()
      reads this, q, countFlowIn, pktNum, pktSum, currentFlow, rrTimes
    {
      && pktNum != pktSum && pktNum != rrTimes && pktSum != rrTimes
      && Inv(Abs())
    }

    constructor (config: Config, queueNum: int)
      ensures Valid() && this.config == config && Abs() == Initial(queueNum)
      ensures fresh(q) && fresh(countFlowIn) && fresh(pktNum) && fresh(pktSum) && fresh(currentFlow) && fresh(rrTimes)
    {
      this.config, this.queueNum, messageId, flowCount := config, queueNum, map[], map[];
      q := new seq<Packet>[QUEUES](_ => []);
      countFlowIn := new set<int>[QUEUES](_ => {});
      pktNum := new nat[QUEUES](_ => 0);
      pktSum := new nat[QUEUES](_ => 0);
      currentFlow := new map<int, nat>[QUEUES](_ => map[]);
      rrTimes := new nat[QUEUES](_ => 0);
      new;
      assert Abs() == Initial(queueNum);
      InitialInv(queueNum);
    }

    method AverageAt(i: nat) returns (average: nat)
      requires i < pktSum.Length == pktNum.Length
      ensures average == Average(pktSum[i], pktNum[i])
    {
      average := 0;
      if pktNum[i] > 0 {
        average := pktSum[i] / pktNum[i];
      }
    }

    method NextQthres(i: nat, base: nat) returns (threshold: nat)
      requires i + 1 < pktSum.Length == pktNum.Length && (i == 0 ==> base == 0)
      ensures threshold == ThresholdOver(base, Average(pktSum[i], pktNum[i]), Average(pktSum[i + 1], pktNum[i + 1]))
    {
      var thre1 := AverageAt(i);
      var next := AverageAt(i + 1);
      var thre2 := thre1 + next;
      if thre1 < 1 {
        thre1 := 1;
      }
      if thre2 < 1 {
        thre2 := 1;
      }
      if i > 0 {
        thre1 := thre1 + base;
        thre2 := thre2 + base;
      }
      threshold := FlooredMean(thre1, thre2);
    }

    /** The loop that fills Qthres. */
    method FillThresholds(thresholds: array<nat>)
      requires 1 <= queueNum <= QUEUES && pktSum.Length == pktNum.Length == thresholds.Length == QUEUES
      requires thresholds != pktSum && thresholds != pktNum
      modifies thresholds
      ensures thresholds[..queueNum - 1] == Thresholds(pktSum[..], pktNum[..], queueNum - 1)
    {
      for i := 0 to queueNum - 1
        invariant thresholds[..i] == Thresholds(pktSum[..], pktNum[..], i)
      {
        ghost var before := thresholds[..i];
        var threshold := NextQthres(i, if i > 0 then thresholds[i - 1] else 0);
        thresholds[i] := threshold;
        assert thresholds[..i + 1] == before + [threshold];
      }
    }

    /** The loop that takes the first queue whose threshold the count fits. */
    method ChooseQueue(count: nat) returns (choice: nat)
      requires 1 <= queueNum <= QUEUES && pktSum.Length == pktNum.Length == QUEUES
      ensures choice == Choose(count, Thresholds(pktSum[..], pktNum[..], queueNum - 1), 0)
    {
      var thresholds := new nat[QUEUES];
      FillThresholds(thresholds);
      ghost var spec := thresholds[..queueNum - 1];
      choice := 0;
      while !(choice == queueNum - 1 || count <= thresholds[choice] + 1)
        invariant choice < queueNum
        invariant Choose(count, spec, 0) == Choose(count, spec, choice)
        decreases queueNum - choice
      {
        assert spec[choice] == thresholds[choice];
        choice := choice + 1;
      }
      assert choice < queueNum - 1 ==> spec[choice] == thresholds[choice];
    }

    /** Returns true when the packet is dropped for lack of room. */
    method Enque(p: Packet) returns (dropped: bool)
      requires Valid()
      modifies this, q, countFlowIn, pktNum, currentFlow
      ensures Valid() && Abs() == Enqueue(config, old(Abs()), p)
      ensures dropped <==> !Accepts(config.limitBytes, old(Abs()).qs, p)
    {
      ghost var start := Abs();
      queueNum := if queueNum > QUEUES then QUEUES else if queueNum < 1 then 1 else queueNum;
      var total := TotalByteLength(q);
      if total + p.size > config.limitBytes {
        EnqueueKeepsInv(config, start, p);
        return true;
      }
      var choice := Classify(p);
      StorePacket(p, choice);
      EnqueueKeepsInv(config, start, p);
      return false;
    }

    method Classify(p: Packet) returns (choice: nat)
      requires Shaped(Abs()) && 1 <= queueNum <= QUEUES
      modifies this`flowCount, countFlowIn
      ensures choice == Chosen(old(Abs()), p) && Abs() == Forget(old(Abs()), p)
    {
      choice := 0;
      if p.flow in flowCount && queueNum > 1 && p.flow in messageId {
        if messageId[p.flow] != p.message {
          ForgetFlow(p.flow);
          flowCount := flowCount[p.flow := 0];
        } else {
          choice := ChooseQueue(flowCount[p.flow]);
        }
      }
    }

    method ForgetFlow(flow: int)
      requires countFlowIn.Length == QUEUES && 1 <= queueNum <= QUEUES
      modifies countFlowIn
      ensures forall k :: 0 <= k < QUEUES ==>
                countFlowIn[k] == if k < queueNum then old(countFlowIn[k]) - {flow} else old(countFlowIn[k])
    {
      for i := 0 to queueNum
        invariant forall k :: 0 <= k < i ==> countFlowIn[k] == old(countFlowIn[k]) - {flow}
        invariant forall k :: i <= k < QUEUES ==> countFlowIn[k] == old(countFlowIn[k])
      {
        if flow in countFlowIn[i] {
          countFlowIn[i] := countFlowIn[i] - {flow};
        }
      }
    }

    method AddToFlow(flow: int, choice: nat)
      requires choice < currentFlow.Length
      modifies currentFlow
      ensures currentFlow[..] == old(currentFlow[..])[choice := Bumped(old(currentFlow[choice]), flow)]
    {
      if flow !in currentFlow[choice] {
        currentFlow[choice] := currentFlow[choice][flow := 0];
      }
      currentFlow[choice] := currentFlow[choice][flow := currentFlow[choice][flow] + 1];
      assert currentFlow[choice] == Bumped(old(currentFlow[choice]), flow);
    }

    method RemoveFromFlow(flow: int, choice: nat)
      requires choice < currentFlow.Length && flow in currentFlow[choice] && currentFlow[choice][flow] > 0
      modifies currentFlow
      ensures currentFlow[..] == old(currentFlow[..])[choice := Withdrawn(old(currentFlow[choice]), flow)]
    {
      currentFlow[choice] := currentFlow[choice][flow := currentFlow[choice][flow] - 1];
      if currentFlow[choice][flow] == 0 {
        currentFlow[choice] := currentFlow[choice] - {flow};
      }
      assert currentFlow[choice] == Withdrawn(old(currentFlow[choice]), flow);
    }

    /** The message bookkeeping of an accepted packet. */
    method CountPacket(p: Packet, choice: nat)
      requires choice < countFlowIn.Length && choice < pktNum.Length
      modifies this`flowCount, this`messageId, countFlowIn, pktNum
      ensures flowCount == Bumped(old(flowCount), p.flow)
      ensures messageId == old(messageId)[p.flow := p.message]
      ensures countFlowIn[..] == old(countFlowIn[..])[choice := old(countFlowIn[choice]) + {p.flow}]
      ensures pktNum[..] == old(pktNum[..])[choice := old(pktNum[choice]) + 1 + flowCount[p.flow]]
    {
      if p.flow !in flowCount {
        flowCount := flowCount[p.flow := 0];
      }
      flowCount := flowCount[p.flow := flowCount[p.flow] + 1];
      if p.flow !in countFlowIn[choice] {
        countFlowIn[choice] := countFlowIn[choice] + {p.flow};
      }
      assert countFlowIn[choice] == old(countFlowIn[choice]) + {p.flow};
      pktNum[choice] := pktNum[choice] + 1;
      pktNum[choice] := pktNum[choice] + flowCount[p.flow];
      messageId := messageId[p.flow := p.message];
    }

    method StorePacket(p: Packet, choice: nat)
      requires Shaped(Abs()) && choice < QUEUES && pktNum != pktSum && pktNum != rrTimes
      modifies this`flowCount, this`messageId, q, countFlowIn, pktNum, currentFlow
      ensures Abs() == Store(config, old(Abs()), p, choice)
    {
      AddToFlow(p.flow, choice);
      if queueNum > 1 {
        CountPacket(p, choice);
      }
      Append(p, choice);
    }

    /** The packet is stored, and marked if the port then holds too many bytes. */
    method Append(p: Packet, choice: nat)
      requires choice < q.Length
      modifies q
      ensures
        var grown := old(q[..])[choice := old(q[choice]) + [p]];
        q[..] == old(q[..])[choice := old(q[choice]) + [Marked(p, TotalBytes(grown) > config.markBytes)]]
    {
      ghost var was := q[..];
      q[choice] := q[choice] + [p];
      assert q[..] == was[choice := was[choice] + [p]];
      var total := TotalByteLength(q);
      if total > config.markBytes && p.ect {
        q[choice] := q[choice][|q[choice]| - 1 := p.(ce := true)];
      }
      assert q[choice] == was[choice] + [Marked(p, total > config.markBytes)];
    }

    method NextCredit() returns (k: nat)
      requires 0 <= queueNum <= rrTimes.Length
      ensures k == R.FirstCredit(rrTimes[..], 0, queueNum)
    {
      k := 0;
      while k < queueNum && rrTimes[k] == 0
        invariant k <= queueNum && R.FirstCredit(rrTimes[..], 0, queueNum) == R.FirstCredit(rrTimes[..], k, queueNum)
      {
        k := k + 1;
      }
    }

    method RefillCredits()
      requires 0 <= queueNum <= rrTimes.Length == currentFlow.Length
      modifies rrTimes
      ensures rrTimes[..] == Refill(currentFlow[..], old(rrTimes[..]), queueNum)
    {
      for i := 0 to queueNum
        invariant forall k :: 0 <= k < i ==> rrTimes[k] == |currentFlow[k]|
        invariant forall k :: i <= k < rrTimes.Length ==> rrTimes[k] == old(rrTimes[k])
      {
        rrTimes[i] := |currentFlow[i]|;
      }
    }

    /** Never takes from an empty queue, and returns a packet exactly when one is stored. */
    method Deque() returns (r: Option<Packet>)
      requires Valid()
      modifies q, rrTimes, currentFlow
      ensures Valid() && Abs() == Dequeue(old(Abs())).0
      ensures r == match Dequeue(old(Abs())).1 case None => None case Some(service) => Some(service.packet)
    {
      ghost var s := Abs();
      var total := TotalByteLength(q);
      if total == 0 {
        return None;
      }
      SomeCredit(s);
      var outq := NextCredit();
      if outq == queueNum {
        RefillCredits();
        outq := NextCredit();
      }
      assert rrTimes[..] == CreditsForServing(s);
      assert Abs() == s.(credits := CreditsForServing(s));
      r := Some(q[outq][0]);
      RemovePacket(outq);
      DequeueKeepsInv(s);
    }

    method RemovePacket(outq: nat)
      requires CanSpend(Abs(), outq) && pktNum != rrTimes && pktSum != rrTimes
      modifies q, rrTimes, currentFlow
      ensures Abs() == Spend(old(Abs()), outq)
    {
      rrTimes[outq] := rrTimes[outq] - 1;
      var p := q[outq][0];
      q[outq] := q[outq][1..];
      RemoveFromFlow(p.flow, outq);
    }
  }
}
