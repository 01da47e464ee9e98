/** Unknown, the least-attained-service queue, as an object updated in place. */
module LasQueue {
  import opened Basics
  import opened Packets
  import opened RealFacts
  import opened AttainedService

  class Unknown {
    const config: Config
    var queueNum: int
    var lastTime: map<int, int>
    var countItem: map<int, int>
    var lastUpdate: real
    const q: array<seq<Packet>>
    const info: array<Info>

    ghost function Abs(): State
      reads this, q, info
    {
      State(queueNum, q[..], lastTime, countItem, info[..], lastUpdate)
    }

    ghost predicate Valid()
      reads this, q, info
    {
      Inv(Abs())
    }

    constructor (config: Config, queueNum: int)
      ensures Valid() && this.config == config && Abs() == Initial(queueNum) && fresh(q) && fresh(info)
    {
      this.config, this.queueNum, lastTime, countItem, lastUpdate := config, queueNum, map[], map[], 0.0;
      q := new seq<Packet>[QUEUES](_ => []);
      info := new Info[QUEUES](_ => Info(0.0, 0.0));
      new;
      assert Abs() == Initial(queueNum);
    }

    /** The next threshold, given the ones before it. */
    method NextThreshold(before: seq<real>) returns (t: real)
      requires |before| + 1 < info.Length
      ensures t == Next(config.sqrt, before, info[|before|], info[|before| + 1])
    {
      var i := |before|;
      if info[i].distinct < 1.0 {
        if i == 0 {
          t := 33554432.0;
        } else {
          t := 33554432.0 + before[i - 1];
        }
      } else {
        t := Larger(Average(info[i]), GeometricMean(config.sqrt, Average(info[i]), Average(info[i + 1])));
        if i > 0 && t <= before[i - 1] {
          t := before[i - 1] + 1460.0;
        }
      }
    }

    method ChooseQueue(value: int) returns (choice: nat)
      requires 1 <= queueNum <= QUEUES && info.Length == QUEUES
      ensures choice == Choose(value as real, Thresholds(config.sqrt, info[..], queueNum - 1), 0)
    {
      var thresholds: seq<real> := [];
      for i := 0 to queueNum - 1
        invariant thresholds == Thresholds(config.sqrt, info[..], i)
      {
        var t := NextThreshold(thresholds);
        thresholds := thresholds + [t];
      }
      choice := 0;
      while choice < queueNum - 1 && value as real > thresholds[choice] + 1.0
        invariant choice <= queueNum - 1
        invariant Choose(value as real, thresholds, 0) == Choose(value as real, thresholds, choice)
      {
        choice := choice + 1;
      }
    }

    method Update()
      requires 1 <= queueNum <= info.Length
      modifies info
      ensures info[..] == Updated(old(info[..]), queueNum)
    {
      for i := 0 to queueNum
        invariant forall k :: 0 <= k < i ==> info[k] == Aged(old(info[k]))
        invariant forall k :: i <= k < info.Length ==> info[k] == old(info[k])
      {
        if info[i].distinct > 128.0 {
          info[i] := Info(info[i].counting / 2.0, info[i].distinct / 2.0);
        }
      }
    }

    /** The bookkeeping of a counted packet after it is stored. */
    method Remember(p: Packet, choice: nat, value: int, count: int, clock: real)
      requires Shaped(Abs()) && 1 <= queueNum <= QUEUES && choice < QUEUES
      requires count == CountFor(Abs(), p)
      modifies this`lastTime, this`countItem, this`lastUpdate, info
      ensures Abs() == Learn(old(Abs()), p, choice, value, clock)
    {
      countItem := countItem[p.flow := count];
      lastTime := lastTime[p.flow := p.message];
      info[choice] := Info(info[choice].counting + value as real, info[choice].distinct + 1.0);
      assert info[..] == old(info[..])[choice := Recorded(old(info[choice]), value)];
      if clock - lastUpdate > 1.0 {
        lastUpdate := clock;
        Update();
      }
    }

    method Store(p: Packet, choice: nat)
      requires q.Length == QUEUES && choice < QUEUES
      modifies q
      ensures q[..] == Stored(config, old(q[..]), p, choice)
    {
      ghost var before := q[..];
      q[choice] := q[choice] + [p];
      assert q[..] == before[choice := before[choice] + [p]];
      var total := TotalByteLength(q);
      if || (config.marking == PerQueue && Bytes(q[choice]) > config.markBytes)
         || (config.marking == PerPort && total > config.markBytes)
      {
        if p.ect {
          q[choice] := q[choice][|q[choice]| - 1 := p.(ce := true)];
          assert q[choice] == before[choice] + [p.(ce := true)];
        }
      }
    }

    /** The weight of a packet, the queue it belongs to and the new count of its flow. */
    method Weigh(p: Packet) returns (choice: nat, value: int, count: int)
      requires Shaped(Abs()) && 1 <= queueNum <= QUEUES
      ensures choice == Target(config, Abs(), p) && value == Value(Abs(), p)
      ensures Counts(p) ==> count == CountFor(Abs(), p)
    {
      choice, value, count := 0, p.size - HEADER, 0;
      if p.tcp && p.size - HEADER > 0 {
        if p.flow in lastTime && p.message == lastTime[p.flow] && p.flow in countItem {
          count := countItem[p.flow];
        }
        if p.size - HEADER >= FULL {
          count := count + (p.size - HEADER);
          value := count;
        }
        choice := ChooseQueue(value);
      }
    }

    /** What follows the admission test: weigh, classify, store and learn. */
    method AdmitPacket(p: Packet, clock: real)
      requires Shaped(Abs()) && 1 <= queueNum <= QUEUES
      modifies this`lastTime, this`countItem, this`lastUpdate, q, info
      ensures Abs() == Admit(config, old(Abs()), p, clock)
    {
      var choice, value, count := Weigh(p);
      Store(p, choice);
      if Counts(p) {
        Remember(p, choice, value, count, clock);
      }
    }

    method Enque(p: Packet, clock: real) returns (dropped: bool)
      requires Valid()
      modifies this, q, info
      ensures Valid() && Abs() == Enqueue(config, old(Abs()), p, clock)
      ensures dropped <==> !Accepts(config.limitBytes, old(Abs()).qs, p)
    {
      ghost var start := Abs();
      queueNum := if queueNum > QUEUES then QUEUES else if queueNum < 1 then 1 else queueNum;
      var total := TotalByteLength(q);
      dropped := total + p.size > config.limitBytes;
      if !dropped {
        AdmitPacket(p, clock);
      }
      EnqueueKeepsInv(config, start, p, clock);
    }

    /** Strict priority; a packet leaves exactly when one is stored. */
    method Deque() returns (r: Option<Packet>)
      requires Valid()
      modifies q
      ensures Valid() && (Abs(), r) == Dequeue(old(Abs()))
      ensures r.None? <==> forall i :: 0 <= i < QUEUES ==> old(q[i]) == []
    {
      ghost var s := Abs();
      TotalBytesZero(q[..]);
      var total := TotalByteLength(q);
      if total > 0 {
        for i := 0 to queueNum
          invariant q[..] == s.qs && i <= FirstBacklogged(s.qs, 0) && FirstBacklogged(s.qs, 0) < queueNum
        {
          if |q[i]| > 0 {
            r := Some(q[i][0]);
            q[i] := q[i][1..];
            assert q[..] == s.qs[i := s.qs[i][1..]];
            return;
          }
        }
      }
      r := None;
    }
  }
}
