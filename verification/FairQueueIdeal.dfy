/** The rotating fair scheduler of FQ_Ideal: a value-level specification and the theorems about its runs. */
module FairQueueIdeal {
  import opened Basics
  import opened Packets

  const QUEUES: nat := 100

  /** Bound variables of the queue object; `hash` stands for the hash of a message identifier. */
  datatype Config = Config(limitBytes: int, markBytes: int, marking: Marking, hash: (int, int) -> nat)

  /** `order` is the list of queue ids behind the list head, `qs` the packet queues. */
  datatype State = State(order: seq<nat>, qs: seq<seq<Packet>>)

  /** Every queue id is in the list exactly once. */
  ghost predicate Inv(s: State) {
    && |s.order| == QUEUES && |s.qs| == QUEUES
    && (forall i :: 0 <= i < QUEUES ==> s.order[i] < QUEUES)
    && (forall i, j :: 0 <= i < j < QUEUES ==> s.order[i] != s.order[j])
    && (forall q :: 0 <= q < QUEUES ==> q in s.order)
  }

  /** The first list position whose queue holds a packet; the list length if there is none. */
  function FirstBacklogged(order: seq<nat>, qs: seq<seq<Packet>>): (k: nat)
    requires forall i :: 0 <= i < |order| ==> order[i] < |qs|
    ensures k <= |order|
    ensures forall i :: 0 <= i < k ==> qs[order[i]] == []
    ensures k < |order| ==> qs[order[k]] != []
  {
    if order == [] || qs[order[0]] != [] then 0
    else 1 + FirstBacklogged(order[1..], qs)
  }

  function MoveToTail(order: seq<nat>, k: nat): seq<nat>
    requires k < |order|
  {
    order[..k] + order[k + 1..] + [order[k]]
  }

  lemma SomeBacklogged(s: State)
    requires Inv(s) && TotalBytes(s.qs) > 0
    ensures FirstBacklogged(s.order, s.qs) < QUEUES
  {
    TotalBytesZero(s.qs);
    var q :| 0 <= q < QUEUES && s.qs[q] != [];
    assert q in s.order;
  }

  function Target(c: Config, p: Packet): nat {
    c.hash(p.flow, p.message) % QUEUES
  }

  function Enqueue(c: Config, s: State, p: Packet): State
    requires |s.qs| == QUEUES
  {
    if !Accepts(c.limitBytes, s.qs, p) then s
    else
      var m := Target(c, p);
      var congested := Congested(c.marking, c.markBytes, s.qs[m := s.qs[m] + [p]], m);
      s.(qs := s.qs[m := s.qs[m] + [Marked(p, congested)]])
  }

  function Dequeue(s: State): (State, Option<Service>)
    requires Inv(s)
  {
    if TotalBytes(s.qs) == 0 then (s, None)
    else
      SomeBacklogged(s);
      var k := FirstBacklogged(s.order, s.qs);
      var q := s.order[k];
      (State(MoveToTail(s.order, k), s.qs[q := s.qs[q][1..]]), Some(Service(q, s.qs[q][0], false)))
  }

  // ---------- the rotating list ----------

  function Position(order: seq<nat>, q: nat): (i: nat)
    requires q in order
    ensures i < |order| && order[i] == q
  {
    if order[0] == q then 0 else 1 + Position(order[1..], q)
  }

  /** Where the id at position i stands after position k moved to the tail. */
  function Shifted(i: nat, k: nat): nat {
    if i < k then i else if i == k then QUEUES - 1 else i - 1
  }

  lemma MoveKeepsInv(s: State, k: nat)
    requires Inv(s) && k < QUEUES
    ensures Inv(s.(order := MoveToTail(s.order, k)))
    ensures forall i :: 0 <= i < QUEUES ==> MoveToTail(s.order, k)[Shifted(i, k)] == s.order[i]
  {
    var moved := MoveToTail(s.order, k);
    assert forall i :: 0 <= i < QUEUES ==> moved[Shifted(i, k)] == s.order[i];
    forall q | 0 <= q < QUEUES
      ensures q in moved
    {
      assert moved[Shifted(Position(s.order, q), k)] == q;
    }
  }

  lemma PositionIsUnique(s: State, i: nat)
    requires Inv(s) && i < QUEUES
    ensures Position(s.order, s.order[i]) == i
  {
  }

  /** Moving position k to the tail closes the gap and keeps every other pair of ids in order. */
  lemma PositionAfterMove(s: State, k: nat, q: nat)
    requires Inv(s) && k < QUEUES && q < QUEUES
    ensures Inv(s.(order := MoveToTail(s.order, k)))
    ensures Position(MoveToTail(s.order, k), q) == Shifted(Position(s.order, q), k)
  {
    MoveKeepsInv(s, k);
    PositionIsUnique(s.(order := MoveToTail(s.order, k)), Shifted(Position(s.order, q), k));
  }

  lemma DequeueKeepsInv(s: State)
    requires Inv(s)
    ensures Inv(Dequeue(s).0)
    ensures Dequeue(s).1.None? <==> forall q :: 0 <= q < QUEUES ==> s.qs[q] == []
  {
    TotalBytesZero(s.qs);
    if TotalBytes(s.qs) > 0 {
      SomeBacklogged(s);
      PositionAfterMove(s, FirstBacklogged(s.order, s.qs), 0);
    }
  }

  /** While q holds packets, a dequeue serves q or an id in front of q, and q moves up by exactly one. */
  lemma WaitStep(s: State, q: nat)
    requires Inv(s) && q < QUEUES && s.qs[q] != []
    ensures Inv(Dequeue(s).0) && Dequeue(s).1.Some?
    ensures
      var (t, r) := Dequeue(s);
      r.value.queue < QUEUES && r.value.queue in s.order &&
      (r.value.queue != q ==>
         && t.qs[q] == s.qs[q]
         && Position(s.order, r.value.queue) < Position(s.order, q)
         && Position(t.order, q) == Position(s.order, q) - 1
         && Position(t.order, r.value.queue) == QUEUES - 1)
  {
    DequeueKeepsInv(s);
    TotalBytesZero(s.qs);
    var k := FirstBacklogged(s.order, s.qs);
    SomeBacklogged(s);
    assert s.order[Position(s.order, q)] == q;
    assert k <= Position(s.order, q);
    PositionAfterMove(s, k, q);
    PositionAfterMove(s, k, s.order[k]);
  }

  // ---------- runs ----------

  datatype Op = Enq(p: Packet) | Deq

  function Step(c: Config, s: State, op: Op): State
    requires Inv(s)
  {
    match op
    case Enq(p) => Enqueue(c, s, p)
    case Deq => Dequeue(s).0
  }

  function Output(s: State, op: Op): seq<Service>
    requires Inv(s)
  {
    if op == Deq && Dequeue(s).1.Some? then [Dequeue(s).1.value] else []
  }

  lemma StepKeepsInv(c: Config, s: State, op: Op)
    requires Inv(s)
    ensures Inv(Step(c, s, op))
  {
    DequeueKeepsInv(s);
  }

  function Run(c: Config, s: State, ops: seq<Op>): State
    requires Inv(s)
    decreases |ops|
  {
    if ops == [] then s
    else StepKeepsInv(c, s, ops[0]); Run(c, Step(c, s, ops[0]), ops[1..])
  }

  /** What leaves during a run, in order. */
  function Services(c: Config, s: State, ops: seq<Op>): seq<Service>
    requires Inv(s)
    decreases |ops|
  {
    if ops == [] then []
    else StepKeepsInv(c, s, ops[0]); Output(s, ops[0]) + Services(c, Step(c, s, ops[0]), ops[1..])
  }

  function Dequeues(ops: seq<Op>): nat {
    if ops == [] then 0 else (if ops[0] == Deq then 1 else 0) + Dequeues(ops[1..])
  }

  ghost predicate NotServed(out: seq<Service>, q: nat) {
    forall i :: 0 <= i < |out| ==> out[i].queue != q
  }

  /**
   * Reachable states: starting anywhere in the invariant (the constructor establishes it), the list keeps
   * every id exactly once, stored bytes stay within a limit once they are within it.
   */
  lemma {:induction false} RunKeepsInv(c: Config, s: State, ops: seq<Op>)
    requires Inv(s)
    ensures Inv(Run(c, s, ops))
    ensures TotalBytes(s.qs) <= c.limitBytes ==> TotalBytes(Run(c, s, ops).qs) <= c.limitBytes
    decreases |ops|
  {
    if ops != [] {
      StepKeepsInv(c, s, ops[0]);
      StepBytes(c, s, ops[0]);
      RunKeepsInv(c, Step(c, s, ops[0]), ops[1..]);
    }
  }

  lemma BytesOfTail(q: seq<Packet>)
    requires q != []
    ensures Bytes(q) == q[0].size + Bytes(q[1..])
  {
    if |q| > 1 {
      BytesOfTail(q[..|q| - 1]);
      assert q[..|q| - 1][1..] == q[1..][..|q| - 2];
    }
  }

  /** Stored bytes change by exactly the packet that came or went. */
  lemma StepBytes(c: Config, s: State, op: Op)
    requires Inv(s)
    ensures TotalBytes(Step(c, s, op).qs) ==
            match op
            case Enq(p) => TotalBytes(s.qs) + (if Accepts(c.limitBytes, s.qs, p) then p.size else 0)
            case Deq => TotalBytes(s.qs) - (if Output(s, op) == [] then 0 else Output(s, op)[0].packet.size)
  {
    match op {
      case Enq(p) =>
        if Accepts(c.limitBytes, s.qs, p) {
          var m := Target(c, p);
          var stored := Marked(p, Congested(c.marking, c.markBytes, s.qs[m := s.qs[m] + [p]], m));
          BytesOfAppend(s.qs[m], stored);
          TotalBytesUpdate(s.qs, m, s.qs[m] + [stored]);
        }
      case Deq =>
        if TotalBytes(s.qs) > 0 {
          SomeBacklogged(s);
          var q := s.order[FirstBacklogged(s.order, s.qs)];
          BytesOfTail(s.qs[q]);
          TotalBytesUpdate(s.qs, q, s.qs[q][1..]);
        }
    }
  }

  ghost predicate NoRepeat(out: seq<Service>) {
    forall i, j :: 0 <= i < j < |out| ==> out[i].queue != out[j].queue
  }

  ghost predicate OnlyAhead(s: State, out: seq<Service>, q: nat)
    requires q in s.order
  {
    forall i :: 0 <= i < |out| ==> out[i].queue in s.order && Position(s.order, out[i].queue) < Position(s.order, q)
  }

  lemma NotServedConcat(a: seq<Service>, b: seq<Service>, q: nat)
    requires NotServed(a + b, q)
    ensures NotServed(a, q) && NotServed(b, q)
  {
    assert forall i :: 0 <= i < |a| ==> a[i] == (a + b)[i];
    assert forall i :: 0 <= i < |b| ==> b[i] == (a + b)[|a| + i];
  }

  lemma AheadBefore(s: State, q: nat, e: nat)
    requires Inv(s) && q < QUEUES && s.qs[q] != []
    requires Dequeue(s).1.Some? && Dequeue(s).1.value.queue != q
    requires Inv(Dequeue(s).0) && e in Dequeue(s).0.order
    requires Position(Dequeue(s).0.order, e) < Position(Dequeue(s).0.order, q)
    ensures e != Dequeue(s).1.value.queue && e in s.order && Position(s.order, e) < Position(s.order, q)
  {
    WaitStep(s, q);
    SomeBacklogged(s);
    var k, t := FirstBacklogged(s.order, s.qs), Dequeue(s).0;
    assert t.order[Position(t.order, e)] == e;
    PositionAfterMove(s, k, e);
    PositionAfterMove(s, k, q);
  }

  lemma AheadWith(s: State, first: Service, rest: seq<Service>, q: nat)
    requires q in s.order && OnlyAhead(s, rest, q) && NoRepeat(rest)
    requires first.queue in s.order && Position(s.order, first.queue) < Position(s.order, q)
    requires forall i :: 0 <= i < |rest| ==> rest[i].queue != first.queue
    ensures OnlyAhead(s, [first] + rest, q) && NoRepeat([first] + rest)
  {
    assert forall i :: 0 < i <= |rest| ==> ([first] + rest)[i] == rest[i - 1];
  }

  lemma WaitExtend(s: State, q: nat, rest: seq<Service>)
    requires Inv(s) && q < QUEUES && s.qs[q] != []
    requires Inv(Dequeue(s).0) && OnlyAhead(Dequeue(s).0, rest, q) && NoRepeat(rest)
    requires Dequeue(s).1.Some? && Dequeue(s).1.value.queue != q
    ensures OnlyAhead(s, [Dequeue(s).1.value] + rest, q) && NoRepeat([Dequeue(s).1.value] + rest)
  {
    WaitStep(s, q);
    forall i | 0 <= i < |rest|
      ensures rest[i].queue != Dequeue(s).1.value.queue && rest[i].queue in s.order
      ensures Position(s.order, rest[i].queue) < Position(s.order, q)
    {
      AheadBefore(s, q, rest[i].queue);
    }
    AheadWith(s, Dequeue(s).1.value, rest, q);
  }

  lemma EnqueueKeepsBacklog(c: Config, s: State, p: Packet, q: nat)
    requires Inv(s) && q < QUEUES && s.qs[q] != []
    ensures Enqueue(c, s, p).order == s.order && Enqueue(c, s, p).qs[q] != []
  {
  }

  /** q moves up by one place at every service it waits for, and no dequeue fails meanwhile. */
  lemma {:induction false} WaitingMovesUp(c: Config, s: State, ops: seq<Op>, q: nat)
    requires Inv(s) && q < QUEUES && s.qs[q] != []
    requires NotServed(Services(c, s, ops), q)
    ensures |Services(c, s, ops)| == Dequeues(ops)
    ensures Inv(Run(c, s, ops))
    ensures Position(Run(c, s, ops).order, q) == Position(s.order, q) - Dequeues(ops)
    decreases |ops|
  {
    if ops != [] {
      var op, t := ops[0], Step(c, s, ops[0]);
      StepKeepsInv(c, s, op);
      NotServedConcat(Output(s, op), Services(c, t, ops[1..]), q);
      if op == Deq {
        WaitStep(s, q);
        assert Output(s, op)[0].queue != q;
      } else {
        EnqueueKeepsBacklog(c, s, op.p, q);
      }
      WaitingMovesUp(c, t, ops[1..], q);
    }
  }

  /**
   * Fairness. From a state in which q holds packets until q is served, no other queue is served twice, only
   * queues in front of q are served, and at most 99 services happen: one per place by which q moved up.
   */
  lemma {:induction false} WaitingIsFair(c: Config, s: State, ops: seq<Op>, q: nat)
    requires Inv(s) && q < QUEUES && s.qs[q] != []
    requires NotServed(Services(c, s, ops), q)
    ensures NoRepeat(Services(c, s, ops)) && OnlyAhead(s, Services(c, s, ops), q)
    ensures |Services(c, s, ops)| == Dequeues(ops) <= Position(s.order, q) <= QUEUES - 1
    decreases |ops|
  {
    WaitingMovesUp(c, s, ops, q);
    if ops != [] {
      var op, t := ops[0], Step(c, s, ops[0]);
      StepKeepsInv(c, s, op);
      var rest := Services(c, t, ops[1..]);
      NotServedConcat(Output(s, op), rest, q);
      if op == Deq {
        WaitStep(s, q);
        assert Output(s, op)[0].queue != q;
        WaitingIsFair(c, t, ops[1..], q);
        WaitExtend(s, q, rest);
      } else {
        EnqueueKeepsBacklog(c, s, op.p, q);
        assert Output(s, op) + rest == rest;
        WaitingIsFair(c, t, ops[1..], q);
      }
    }
  }

  /** Liveness: a queue with packets is served once as many dequeues happened as ids stand in front of it, plus one. */
  lemma ServedInTurn(c: Config, s: State, ops: seq<Op>, q: nat)
    requires Inv(s) && q < QUEUES && s.qs[q] != []
    requires Dequeues(ops) > Position(s.order, q)
    ensures exists i :: 0 <= i < |Services(c, s, ops)| && Services(c, s, ops)[i].queue == q
  {
    if NotServed(Services(c, s, ops), q) {
      WaitingIsFair(c, s, ops, q);
      assert false;
    }
  }

  // ---------- long-run shares ----------

  /** q holds a packet whenever the scheduler is asked to choose. */
  ghost predicate StaysBacklogged(c: Config, s: State, ops: seq<Op>, q: nat)
    requires Inv(s) && q < QUEUES
    decreases |ops|
  {
    ops == [] ||
    (s.qs[q] != [] && (StepKeepsInv(c, s, ops[0]); StaysBacklogged(c, Step(c, s, ops[0]), ops[1..], q)))
  }

  function TimesServed(out: seq<Service>, q: nat): nat {
    if out == [] then 0 else (if out[0].queue == q then 1 else 0) + TimesServed(out[1..], q)
  }

  lemma {:induction false} TimesServedConcat(a: seq<Service>, b: seq<Service>, q: nat)
    ensures TimesServed(a + b, q) == TimesServed(a, q) + TimesServed(b, q)
  {
    if a == [] {
      assert a + b == b;
    } else {
      assert (a + b)[0] == a[0] && (a + b)[1..] == a[1..] + b;
      TimesServedConcat(a[1..], b, q);
    }
  }

  function Ahead(s: State, a: nat, b: nat): int
    requires Inv(s) && a < QUEUES && b < QUEUES
  {
    if Position(s.order, a) < Position(s.order, b) then 1 else 0
  }

  lemma ServedOnce(x: Service, q: nat)
    ensures TimesServed([x], q) == if x.queue == q then 1 else 0
  {
    assert [x][1..] == [];
  }

  lemma DistinctPositions(s: State, a: nat, b: nat)
    requires Inv(s) && a < QUEUES && b < QUEUES && a != b
    ensures Position(s.order, a) != Position(s.order, b)
  {
  }

  lemma ShareStep(s: State, a: nat, b: nat)
    requires Inv(s) && a < QUEUES && b < QUEUES && a != b
    requires s.qs[a] != [] && s.qs[b] != []
    ensures Inv(Dequeue(s).0) && Dequeue(s).1.Some?
    ensures
      var out := [Dequeue(s).1.value];
      TimesServed(out, a) - TimesServed(out, b) == Ahead(s, a, b) - Ahead(Dequeue(s).0, a, b)
  {
    WaitStep(s, a);
    WaitStep(s, b);
    ServedOnce(Dequeue(s).1.value, a);
    ServedOnce(Dequeue(s).1.value, b);
    DistinctPositions(s, a, b);
  }

  /**
   * Two queues that stay backlogged get equal shares over every run, however long: their service counts differ
   * by exactly the change in which of the two comes first, so by at most one.
   */
  lemma {:induction false} EqualShares(c: Config, s: State, ops: seq<Op>, a: nat, b: nat)
    requires Inv(s) && a < QUEUES && b < QUEUES && a != b
    requires StaysBacklogged(c, s, ops, a) && StaysBacklogged(c, s, ops, b)
    ensures Inv(Run(c, s, ops))
    ensures
      var out := Services(c, s, ops);
      TimesServed(out, a) - TimesServed(out, b) == Ahead(s, a, b) - Ahead(Run(c, s, ops), a, b)
    decreases |ops|
  {
    if ops != [] {
      var op, t := ops[0], Step(c, s, ops[0]);
      StepKeepsInv(c, s, op);
      EqualShares(c, t, ops[1..], a, b);
      TimesServedConcat(Output(s, op), Services(c, t, ops[1..]), a);
      TimesServedConcat(Output(s, op), Services(c, t, ops[1..]), b);
      if op == Deq {
        ShareStep(s, a, b);
      }
    }
  }

  // ---------- conservation ----------

  /** The packet, as stored, that one operation adds to queue q. */
  function Arrival(c: Config, s: State, op: Op, q: nat): seq<Packet>
    requires Inv(s) && q < QUEUES
  {
    if op.Enq? && Accepts(c.limitBytes, s.qs, op.p) && Target(c, op.p) == q
    then [Marked(op.p, Congested(c.marking, c.markBytes, s.qs[q := s.qs[q] + [op.p]], q))]
    else []
  }

  /** The packets that a run adds to queue q. */
  function Arrivals(c: Config, s: State, ops: seq<Op>, q: nat): seq<Packet>
    requires Inv(s) && q < QUEUES
    decreases |ops|
  {
    if ops == [] then []
    else StepKeepsInv(c, s, ops[0]); Arrival(c, s, ops[0], q) + Arrivals(c, Step(c, s, ops[0]), ops[1..], q)
  }

  lemma StepIsFifo(c: Config, s: State, op: Op, q: nat)
    requires Inv(s) && q < QUEUES
    ensures Inv(Step(c, s, op))
    ensures Departures(Output(s, op), q) + Step(c, s, op).qs[q] == s.qs[q] + Arrival(c, s, op, q)
  {
    StepKeepsInv(c, s, op);
    if op == Deq {
      DequeueIsFifo(s, q);
    }
  }

  lemma PoppedIsFifo(qs: seq<seq<Packet>>, x: Service, q: nat)
    requires x.queue < |qs| && q < |qs| && qs[x.queue] != [] && x.packet == qs[x.queue][0]
    ensures Departures([x], q) + qs[x.queue := qs[x.queue][1..]][q] == qs[q]
  {
    DeparturesOfOne(x, q);
  }

  lemma DequeueIsFifo(s: State, q: nat)
    requires Inv(s) && q < QUEUES
    ensures Inv(Dequeue(s).0)
    ensures Departures(Output(s, Deq), q) + Dequeue(s).0.qs[q] == s.qs[q]
  {
    DequeueKeepsInv(s);
    if TotalBytes(s.qs) != 0 {
      SomeBacklogged(s);
      PoppedIsFifo(s.qs, Dequeue(s).1.value, q);
    }
  }

  /** Nothing is lost, duplicated or reordered within a queue by any run. */
  lemma {:induction false} QueuesAreFifo(c: Config, s: State, ops: seq<Op>, q: nat)
    requires Inv(s) && q < QUEUES
    ensures Inv(Run(c, s, ops))
    ensures Departures(Services(c, s, ops), q) + Run(c, s, ops).qs[q] == s.qs[q] + Arrivals(c, s, ops, q)
    decreases |ops|
  {
    if ops != [] {
      var op, t := ops[0], Step(c, s, ops[0]);
      StepIsFifo(c, s, op, q);
      QueuesAreFifo(c, t, ops[1..], q);
      var out, later := Output(s, op), Services(c, t, ops[1..]);
      DeparturesConcat(out, later, q);
      Splice(Departures(out, q), Departures(later, q), Run(c, t, ops[1..]).qs[q], t.qs[q],
             Arrivals(c, t, ops[1..], q), s.qs[q], Arrival(c, s, op, q));
    }
  }
}
