/** The end host's flow table on the heap: circular linked lists with a head node, one list per hash value. */
module FlowTable {
  import opened Basics
  import opened FlowBuckets

  /** A flow record and its place in a list; what the head node of a list records is never looked at. */
  class FlowNode {
    var flow: Flow
    var next: FlowNode
    var prev: FlowNode

    constructor (flow: Flow)
      ensures this.flow == flow && next == this && prev == this
    {
      this.flow := flow;
      next, prev := this, this;
    }
  }

  ghost predicate Distinct(nodes: seq<FlowNode>) {
    forall i, j :: 0 <= i < j < |nodes| ==> nodes[i] != nodes[j]
  }

  ghost function Members(nodes: seq<FlowNode>): set<object> {
    set n | n in nodes
  }

  /** The flows that the nodes record, whatever their links. */
  ghost function FlowsOf(nodes: seq<FlowNode>): (b: seq<Flow>)
    reads nodes`flow
    ensures |b| == |nodes|
    ensures forall i :: 0 <= i < |nodes| ==> b[i] == nodes[i].flow
  {
    if nodes == [] then [] else FlowsOf(nodes[..|nodes| - 1]) + [nodes[|nodes| - 1].flow]
  }

  lemma {:induction false} FlowsWithout(nodes: seq<FlowNode>, i: nat)
    requires i < |nodes|
    ensures FlowsOf(nodes[..i] + nodes[i + 1..]) == Without(FlowsOf(nodes), i)
  {
    var rest := nodes[..i] + nodes[i + 1..];
    var b := FlowsOf(nodes);
    assert forall j :: 0 <= j < i ==> FlowsOf(rest)[j] == b[j];
    assert forall j :: i <= j < |rest| ==> FlowsOf(rest)[j] == b[j + 1];
  }

  lemma MembersWithout(nodes: seq<FlowNode>, i: nat)
    requires Distinct(nodes) && i < |nodes|
    ensures Distinct(nodes[..i] + nodes[i + 1..])
    ensures Members(nodes[..i] + nodes[i + 1..]) == Members(nodes) - {nodes[i]}
  {
    var rest := nodes[..i] + nodes[i + 1..];
    forall n: FlowNode
      ensures n in rest <==> n in nodes && n != nodes[i]
    {
      if n in nodes && n != nodes[i] {
        var j :| 0 <= j < |nodes| && nodes[j] == n;
        assert rest[if j < i then j else j - 1] == n;
      }
    }
  }

  lemma MembersWith(nodes: seq<FlowNode>, n: FlowNode)
    requires Distinct(nodes) && n !in nodes
    ensures Distinct(nodes + [n]) && Members(nodes + [n]) == Members(nodes) + {n}
  {
  }

  lemma FlowsWith(nodes: seq<FlowNode>, n: FlowNode)
    ensures FlowsOf(nodes + [n]) == FlowsOf(nodes) + [n.flow]
  {
    assert (nodes + [n])[..|nodes|] == nodes;
  }

  class FlowList {
    const head: FlowNode
    var len: nat
    ghost var nodes: seq<FlowNode>
    ghost var Repr: set<object>

    /** Position i in the circle; the head closes it on both sides. */
    ghost function At(i: int): FlowNode
      reads this
    {
      if 0 <= i < |nodes| then nodes[i] else head
    }

    /** Following next and prev visits the nodes in order, in a circle through the head. */
    ghost predicate Linked()
      reads this, head, nodes
    {
      && head.next == At(0) && head.prev == At(|nodes| - 1)
      && (forall i {:trigger nodes[i].next} :: 0 <= i < |nodes| ==> nodes[i].next == At(i + 1))
      && (forall i {:trigger nodes[i].prev} :: 0 <= i < |nodes| ==> nodes[i].prev == At(i - 1))
    }

    ghost predicate Valid()
      reads this, Repr
      ensures Valid() ==> this in Repr && head in Repr
    {
      && Repr == {this, head} + Members(nodes)
      && head !in nodes && Distinct(nodes) && Linked()
      && len == |nodes|
    }

    ghost function Flows(): (b: seq<Flow>)
      reads this`nodes, nodes`flow
    {
      FlowsOf(nodes)
    }

    constructor (unused: Flow)
      ensures Valid() && nodes == [] && fresh(Repr)
    {
      var h := new FlowNode(unused);
      head, len, nodes, Repr := h, 0, [], {this, h};
    }

    method Search(k: FlowKey) returns (ptr: FlowNode?, ghost i: nat)
      requires Valid()
      ensures i == IndexOf(Flows(), k)
      ensures ptr == if Holds(Flows(), k) then nodes[IndexOf(Flows(), k)] else null
    {
      i := 0;
      var p := head.next;
      while p != head
        invariant i <= |nodes| && p == At(i)
        invariant forall j :: 0 <= j < i ==> nodes[j].flow.key != k
        decreases |nodes| - i
      {
        if p.flow.key == k {
          return p, i;
        }
        p := p.next;
        i := i + 1;
      }
      ptr := null;
    }

    /** PIAS_Insert_List: overwrites the information of a flow that is present, appends a flow that is not. */
    method Insert(f: Flow, memory: bool) returns (ok: bool)
      requires Valid()
      modifies Repr
      ensures Valid() && fresh(Repr - old(Repr))
      ensures Flows() == Inserted(old(Flows()), f, memory)
      ensures ok <==> memory || Holds(old(Flows()), f.key)
    {
      var buf, i := Search(f.key);
      if buf != null {
        WriteInfo(buf, i, f.info);
        return true;
      }
      if !memory {
        return false;
      }
      Append(f);
      return true;
    }

    /** list_add_tail of a fresh node. */
    method Append(f: Flow)
      requires Valid()
      modifies Repr
      ensures Valid() && fresh(Repr - old(Repr))
      ensures Flows() == old(Flows()) + [f]
    {
      var n := new FlowNode(f);
      MembersWith(nodes, n);
      FlowsWith(nodes, n);
      len := len + 1;
      Repr := Repr + {n};
      LinkLast(n);
    }

    /** The four pointer writes of list_add_tail. */
    method LinkLast(n: FlowNode)
      requires head !in nodes && Distinct(nodes) && Linked() && n != head && n !in nodes
      modifies this`nodes, head`prev, n`next, n`prev, At(|nodes| - 1)`next
      ensures Linked() && nodes == old(nodes) + [n]
    {
      var last := head.prev;
      head.prev := n;
      n.next := head;
      n.prev := last;
      last.next := n;
      ghost var was := nodes;
      nodes := nodes + [n];
      assert forall i :: 0 <= i < |was| ==> nodes[i] == was[i];
    }

    /** The two pointer writes of list_del. */
    method LinkAround(ptr: FlowNode, ghost i: nat)
      requires head !in nodes && Distinct(nodes) && Linked() && i < |nodes| && ptr == nodes[i]
      modifies this`nodes, At(i + 1)`prev, At(i - 1)`next
      ensures Linked() && nodes == old(nodes)[..i] + old(nodes)[i + 1..]
    {
      var before, after := ptr.prev, ptr.next;
      after.prev := before;
      before.next := after;
      ghost var was := nodes;
      nodes := nodes[..i] + nodes[i + 1..];
      assert forall j :: 0 <= j < i ==> nodes[j] == was[j];
      assert forall j :: i <= j < |nodes| ==> nodes[j] == was[j + 1];
    }

    /** list_del of the node at position i. */
    method Unlink(ptr: FlowNode, ghost i: nat)
      requires Valid() && i < |nodes| && ptr == nodes[i]
      modifies Repr
      ensures Valid() && Repr == old(Repr) - {ptr}
      ensures nodes == old(nodes)[..i] + old(nodes)[i + 1..]
      ensures Flows() == Without(old(Flows()), i)
    {
      ghost var rest := nodes[..i] + nodes[i + 1..];
      MembersWithout(nodes, i);
      FlowsWithout(nodes, i);
      len := len - 1;
      Repr := Repr - {ptr};
      LinkAround(ptr, i);
      assert nodes == rest;
    }

    /** A write of the information of the flow at position i. */
    method WriteInfo(ptr: FlowNode, ghost i: nat, info: FlowInfo)
      requires Valid() && i < |nodes| && ptr == nodes[i]
      modifies ptr`flow
      ensures Valid() && Flows() == SetInfo(old(Flows()), i, info)
    {
      ptr.flow := ptr.flow.(info := info);
    }

    method Delete(k: FlowKey) returns (result: nat)
      requires Valid()
      modifies Repr
      ensures Valid() && Repr <= old(Repr)
      ensures Flows() == Deleted(old(Flows()), k)
      ensures result == DeleteResult(old(Flows()), k)
    {
      var ptr, i := Search(k);
      if ptr == null {
        return 0;
      }
      result := ptr.flow.info.bytesSent % U32_RANGE;
      if result < 1 {
        result := 1;
      }
      Unlink(ptr, i);
    }

    method Clear()
      requires Valid()
      modifies Repr
      ensures Valid() && Repr <= old(Repr)
      ensures Flows() == []
    {
      if len > 0 {
        var ptr := head.next;
        while ptr != head
          invariant Valid() && Repr <= old(Repr) && ptr == At(0)
          decreases |nodes|
        {
          var next := ptr.next;
          Unlink(ptr, 0);
          ptr := next;
        }
      }
    }
  }

  class HashTable {
    const lists: seq<FlowList>
    var size: int
    ghost var buckets: seq<seq<Flow>>
    ghost var Repr: set<object>

    /** The lists live in disjoint parts of the heap. */
    ghost predicate Separate()
      reads this`buckets, this`Repr, lists
    {
      && |lists| == HASH_RANGE && |buckets| == HASH_RANGE && this !in Repr
      && (forall i :: 0 <= i < HASH_RANGE ==> lists[i] in Repr && lists[i].Repr <= Repr)
      && (forall i, j :: 0 <= i < HASH_RANGE && 0 <= j < HASH_RANGE && i != j ==> lists[i].Repr !! lists[j].Repr)
    }

    /** List i is well linked and holds bucket i. */
    ghost predicate ListHolds(i: nat)
      requires i < |lists| == |buckets|
      reads this`buckets, lists[i], lists[i].Repr
    {
      lists[i].Valid() && lists[i].Flows() == buckets[i]
    }

    ghost predicate Stored()
      reads this`buckets, this`Repr, Repr
    {
      && (forall i :: 0 <= i < |lists| ==> lists[i] in Repr)
      && Separate()
      && forall i :: 0 <= i < HASH_RANGE ==> ListHolds(i)
    }

    ghost predicate Valid()
      reads this, Repr
    {
      Stored() && Inv(Abs())
    }

    ghost function Abs(): Table
      reads this`buckets, this`size
    {
      Table(buckets, size)
    }

    /** Creates the 256 lists and their head nodes. */
    constructor (unused: Flow)
      ensures Valid() && Abs() == Empty() && fresh(Repr)
    {
      var ls: seq<FlowList> := [];
      ghost var owned: set<object> := {};
      for i := 0 to HASH_RANGE
        invariant |ls| == i && fresh(owned)
        invariant forall k :: 0 <= k < i ==> ls[k] in owned && ls[k].Repr <= owned && ls[k].Valid() && ls[k].nodes == []
        invariant forall j, k :: 0 <= j < i && 0 <= k < i && j != k ==> ls[j].Repr !! ls[k].Repr
      {
        var l := new FlowList(unused);
        ls := ls + [l];
        owned := owned + l.Repr;
      }
      lists, size := ls, 0;
      buckets, Repr := Empty().buckets, owned;
      new;
    }

    method Search(k: FlowKey) returns (ptr: FlowNode?)
      requires Valid()
      ensures Lookup(Abs(), k) == if ptr == null then None else Some(ptr.flow.info)
      ensures ptr != null ==>
                var i := IndexOf(buckets[Hash(k)], k);
                i < |lists[Hash(k)].nodes| && ptr == lists[Hash(k)].nodes[i]
    {
      ghost var i;
      assert ListHolds(Hash(k));
      ptr, i := lists[Hash(k)].Search(k);
    }

    method Insert(f: Flow, memory: bool) returns (ok: bool)
      requires Valid()
      modifies this, Repr
      ensures Valid() && fresh(Repr - old(Repr))
      ensures (Abs(), Response.Stored(ok)) == Apply(old(Abs()), FlowBuckets.Insert(f, memory))
    {
      ApplyKeepsInv(Abs(), FlowBuckets.Insert(f, memory));
      var h := Hash(f.key);
      ok := InsertAt(h, f, memory);
      if ok {
        size := size + 1;
      }
    }

    method InsertAt(h: nat, f: Flow, memory: bool) returns (ok: bool)
      requires Stored() && h < HASH_RANGE
      modifies this`buckets, this`Repr, Repr
      ensures Stored() && fresh(Repr - old(Repr))
      ensures buckets == old(buckets)[h := Inserted(old(buckets)[h], f, memory)]
      ensures ok <==> memory || Holds(old(buckets)[h], f.key)
    {
      assert ListHolds(h);
      ok := lists[h].Insert(f, memory);
      forall i | 0 <= i < HASH_RANGE && i != h
        ensures lists[i].Repr == old(lists[i].Repr) && lists[i].Repr !! lists[h].Repr && ListHolds(i)
      {
        assert old(ListHolds(i));
      }
      Adopt(h);
    }

    method Delete(k: FlowKey) returns (result: nat)
      requires Valid()
      modifies this, Repr
      ensures Valid() && fresh(Repr - old(Repr))
      ensures (Abs(), Removed(result)) == Apply(old(Abs()), FlowBuckets.Delete(k))
    {
      ApplyKeepsInv(Abs(), FlowBuckets.Delete(k));
      var h := Hash(k);
      result := DeleteAt(h, k);
      if result > 0 {
        size := size - 1;
      }
    }

    method DeleteAt(h: nat, k: FlowKey) returns (result: nat)
      requires Stored() && h < HASH_RANGE
      modifies this`buckets, this`Repr, Repr
      ensures Stored() && fresh(Repr - old(Repr))
      ensures buckets == old(buckets)[h := Deleted(old(buckets)[h], k)]
      ensures result == DeleteResult(old(buckets)[h], k)
    {
      assert ListHolds(h);
      result := lists[h].Delete(k);
      forall i | 0 <= i < HASH_RANGE && i != h
        ensures lists[i].Repr == old(lists[i].Repr) && lists[i].Repr !! lists[h].Repr && ListHolds(i)
      {
        assert old(ListHolds(i));
      }
      Adopt(h);
    }

    method Clear()
      requires Valid()
      modifies this, Repr
      ensures Valid() && fresh(Repr - old(Repr))
      ensures Abs() == Apply(old(Abs()), FlowBuckets.Clear).0
    {
      for h := 0 to HASH_RANGE
        invariant Stored() && fresh(Repr - old(Repr))
        invariant forall i :: 0 <= i < h ==> buckets[i] == []
      {
        ClearAt(h);
      }
      size := 0;
      assert buckets == Empty().buckets;
    }

    method ClearAt(h: nat)
      requires Stored() && h < HASH_RANGE
      modifies this`buckets, this`Repr, Repr
      ensures Stored() && fresh(Repr - old(Repr))
      ensures buckets == old(buckets)[h := []]
    {
      assert ListHolds(h);
      lists[h].Clear();
      forall i | 0 <= i < HASH_RANGE && i != h
        ensures lists[i].Repr == old(lists[i].Repr) && lists[i].Repr !! lists[h].Repr && ListHolds(i)
      {
        assert old(ListHolds(i));
      }
      Adopt(h);
    }

    /** A write through the pointer that Search returned for key k: it changes the information of k and nothing else. */
    method WriteInfo(k: FlowKey, ptr: FlowNode, info: FlowInfo)
      requires Valid() && Holds(buckets[Hash(k)], k)
      requires
        var i := IndexOf(buckets[Hash(k)], k);
        i < |lists[Hash(k)].nodes| && ptr == lists[Hash(k)].nodes[i]
      modifies this`buckets, this`Repr, Repr
      ensures Valid() && fresh(Repr - old(Repr))
      ensures Abs() == Written(old(Abs()), k, info)
    {
      var h := Hash(k);
      WrittenKeepsInv(Abs(), k, info);
      WriteAt(h, ptr, IndexOf(buckets[h], k), info);
    }

    method WriteAt(h: nat, ptr: FlowNode, ghost i: nat, info: FlowInfo)
      requires Stored() && h < HASH_RANGE && i < |lists[h].nodes| && ptr == lists[h].nodes[i]
      modifies this`buckets, this`Repr, Repr
      ensures Stored() && fresh(Repr - old(Repr))
      ensures i < |old(buckets)[h]| && buckets == old(buckets)[h := SetInfo(old(buckets)[h], i, info)]
    {
      assert ListHolds(h);
      lists[h].WriteInfo(ptr, i, info);
      forall j | 0 <= j < HASH_RANGE && j != h
        ensures lists[j].Repr == old(lists[j].Repr) && lists[j].Repr !! lists[h].Repr && ListHolds(j)
      {
        assert old(ListHolds(j));
      }
      Adopt(h);
    }

    /** Ghost bookkeeping after list h changed within its own part of the heap. */
    ghost method Adopt(h: nat)
      requires h < |lists| == HASH_RANGE && |buckets| == HASH_RANGE
      requires lists[h].Valid() && this !in Repr && this !in lists[h].Repr
      requires forall i :: 0 <= i < HASH_RANGE ==> lists[i] in Repr
      requires forall i :: 0 <= i < HASH_RANGE && i != h ==> lists[i].Repr <= Repr && ListHolds(i)
      requires forall i, j :: 0 <= i < HASH_RANGE && 0 <= j < HASH_RANGE && i != j ==> lists[i].Repr !! lists[j].Repr
      modifies this`Repr, this`buckets
      ensures Repr == old(Repr) + lists[h].Repr && buckets == old(buckets)[h := lists[h].Flows()]
      ensures Stored()
    {
      Repr := Repr + lists[h].Repr;
      buckets := buckets[h := lists[h].Flows()];
    }
  }
}
