/** FQ_Ideal as an object: packet queues in an array and the linked list of queue ids that each deque rotates. */
module RotatingList {
  import opened Basics
  import opened Packets
  import opened FairQueueIdeal

  class Qnode {
    var qid: nat
    var next: Qnode?

    /** `next` stays whatever the allocator left there. */
    constructor (qid: nat)
      ensures this.qid == qid
    {
      this.qid := qid;
      next := *;
    }
  }

  class FQIdeal {
    const config: Config
    const head: Qnode
    var tail: Qnode
    const q: array<seq<Packet>>

    /** The list behind the pointers: `head` first, then one node per queue, `tail` last. */
    ghost var nodes: seq<Qnode>

    ghost predicate Linked()
      reads this, nodes
    {
      && |nodes| == QUEUES + 1
      && nodes[0] == head && nodes[QUEUES] == tail
      && (forall i, j :: 0 <= i < j < |nodes| ==> nodes[i] != nodes[j])
      && (forall i :: 0 <= i < QUEUES ==> nodes[i].next == nodes[i + 1])
    }

    ghost function Order(): (order: seq<nat>)
      requires |nodes| == QUEUES + 1
      reads this, nodes
      ensures |order| == QUEUES
      ensures forall i :: 0 <= i < QUEUES ==> order[i] == nodes[i + 1].qid
    {
      seq(QUEUES, i requires 0 <= i < QUEUES && |nodes| == QUEUES + 1 reads this, nodes => nodes[i + 1].qid)
    }

    ghost function Abs(): State
      requires |nodes| == QUEUES + 1
      reads this, nodes, q
    {
      State(Order(), q[..])
    }

    /** In every reachable state the list holds each id once, is acyclic up to the tail, and `tail` is its last node. */
    ghost predicate Valid()
      reads this, nodes, q
    {
      Linked() && q.Length == QUEUES && Inv(Abs())
    }

    constructor (config: Config)
      ensures Valid() && fresh(q) && forall n :: n in nodes ==> fresh(n)
      ensures this.config == config
      ensures Abs() == State(seq(QUEUES, i => i), seq(QUEUES, i => []))
    {
      this.config := config;
      var qs := new seq<Packet>[QUEUES](i => []);
      var first := new Qnode(0);
      var last := first;
      ghost var list := [first];
      for i := 0 to QUEUES
        invariant |list| == i + 1 && list[0] == first && list[i] == last
        invariant fresh(qs) && qs.Length == QUEUES && qs[..] == seq(QUEUES, i => [])
        invariant forall k :: 0 <= k < |list| ==> fresh(list[k])
        invariant forall j, k :: 0 <= j < k < |list| ==> list[j] != list[k]
        invariant forall k :: 0 <= k < i ==> list[k].next == list[k + 1]
        invariant forall k :: 1 <= k <= i ==> list[k].qid == k - 1
      {
        var n := new Qnode(i);
        last.next := n;
        last := n;
        list := list + [n];
      }
      head, tail, q, nodes := first, last, qs, list;
      new;
      assert Order() == seq(QUEUES, i => i);
      forall id | 0 <= id < QUEUES
        ensures id in Order()
      {
        assert Order()[id] == id;
      }
    }

    method Enque(p: Packet) returns (dropped: bool)
      requires Valid()
      modifies q
      ensures Valid()
      ensures Abs() == Enqueue(config, old(Abs()), p)
      ensures dropped <==> !Accepts(config.limitBytes, old(Abs()).qs, p)
    {
      var total := TotalByteLength(q);
      if total + p.size > config.limitBytes {
        return true;
      }
      ghost var before := q[..];
      var m := config.hash(p.flow, p.message) % QUEUES;
      q[m] := q[m] + [p];
      assert q[..] == before[m := before[m] + [p]];
      total := TotalByteLength(q);
      if || (config.marking == PerQueue && Bytes(q[m]) > config.markBytes)
         || (config.marking == PerPort && total > config.markBytes)
      {
        if p.ect {
          q[m] := q[m][|q[m]| - 1 := p.(ce := true)];
          assert q[m] == before[m] + [p.(ce := true)];
        }
      }
      assert q[..] == Enqueue(config, old(Abs()), p).qs;
      assert Order() == old(Order());
      return false;
    }

    /** Unlinks the node behind `before` and appends a fresh node with the same id. */
    method Rotate(before: Qnode, node: Qnode, ghost k: nat)
      requires Linked() && k < QUEUES
      requires before == nodes[k] && node == nodes[k + 1]
      modifies this`tail, this`nodes, before`next, tail`next
      ensures Linked()
      ensures Order() == MoveToTail(old(Order()), k)
      ensures forall n :: n in nodes ==> n in old(nodes) || fresh(n)
    {
      if node != tail {
        assert k + 1 < QUEUES;
        before.next := node.next;
        var n := new Qnode(node.qid);
        tail.next := n;
        tail := n;
        ghost var was := nodes;
        nodes := nodes[..k + 1] + nodes[k + 2..] + [n];
        assert forall i :: 0 <= i <= k ==> nodes[i] == was[i];
        assert forall i :: k + 1 <= i < QUEUES ==> nodes[i] == was[i + 1];
      } else {
        assert nodes[QUEUES] == nodes[k + 1];
        assert k + 1 == QUEUES;
      }
    }

    /** A packet leaves exactly when one is stored, and the search never runs past the tail. */
    method Deque() returns (r: Option<Packet>)
      requires Valid()
      modifies this, nodes, q
      ensures Valid()
      ensures Abs() == Dequeue(old(Abs())).0
      ensures r == match Dequeue(old(Abs())).1 case None => None case Some(service) => Some(service.packet)
      ensures forall n :: n in nodes ==> n in old(nodes) || fresh(n)
    {
      var total := TotalByteLength(q);
      if total > 0 {
        ghost var s := Abs();
        SomeBacklogged(s);
        ghost var k := FirstBacklogged(s.order, s.qs);
        DequeueKeepsInv(s);
        var before := head;
        var node := head.next;
        for i := 0 to QUEUES
          invariant i <= k && before == nodes[i] && node == nodes[i + 1]
          invariant Linked() && q[..] == s.qs && Order() == s.order
        {
          assert s.order[i] == node.qid;
          if |q[node.qid]| > 0 {
            r := Some(q[node.qid][0]);
            q[node.qid] := q[node.qid][1..];
            break;
          }
          before := before.next;
          node := node.next;
        }
        assert Order() == s.order;
        Rotate(before, node, k);
        assert q[..] == Dequeue(s).0.qs;
      } else {
        r := None;
      }
    }
  }
}
