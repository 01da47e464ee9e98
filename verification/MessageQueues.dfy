/**
 * Messages in FQ_Ideal: the hash of a message fixes its queue, so each message is served in order, and messages of
 * different queues share the link.
 */
module MessageQueues {
  import opened Basics
  import opened Packets
  import opened FairQueueIdeal

  function Initial(): State {
    State(seq(QUEUES, i => i), seq(QUEUES, _ => []))
  }

  /** Every stored packet sits in the queue that the hash of its message names. */
  ghost predicate Hashed(c: Config, s: State) {
    |s.qs| == 100 &&
    forall q, i :: 0 <= q < 100 && 0 <= i < |s.qs[q]| ==> c.hash(s.qs[q][i].flow, s.qs[q][i].message) % 100 == q
  }

  lemma InitialOk(c: Config)
    ensures Inv(Initial()) && Hashed(c, Initial())
  {
    forall q | 0 <= q < QUEUES
      ensures q in Initial().order
    {
      assert Initial().order[q] == q;
    }
  }

  /** What enque does: a packet that fits joins the queue of its message, and carries CE exactly under congestion. */
  lemma StoredWhereHashed(c: Config, s: State, p: Packet)
    requires |s.qs| == 100
    ensures TotalBytes(s.qs) + p.size > c.limitBytes ==> Enqueue(c, s, p) == s
    ensures TotalBytes(s.qs) + p.size <= c.limitBytes ==>
              var q := c.hash(p.flow, p.message) % 100;
              var full := (c.marking == PerQueue && Bytes(s.qs[q]) + p.size > c.markBytes) ||
                          (c.marking == PerPort && TotalBytes(s.qs) + p.size > c.markBytes);
              Enqueue(c, s, p) == s.(qs := s.qs[q := s.qs[q] + [p.(ce := p.ce || (p.ect && full))]])
  {
    var q := c.hash(p.flow, p.message) % 100;
    BytesOfAppend(s.qs[q], p);
    TotalBytesUpdate(s.qs, q, s.qs[q] + [p]);
  }

  lemma StepHashed(c: Config, s: State, op: Op)
    requires Inv(s) && Hashed(c, s)
    ensures Inv(Step(c, s, op)) && Hashed(c, Step(c, s, op))
  {
    StepKeepsInv(c, s, op);
    if op.Enq? {
      StoredWhereHashed(c, s, op.p);
    }
  }

  /** Over every run each stored packet is in the queue of its message. */
  lemma {:induction false} RunHashed(c: Config, s: State, ops: seq<Op>)
    requires Inv(s) && Hashed(c, s)
    ensures Inv(Run(c, s, ops)) && Hashed(c, Run(c, s, ops))
    decreases |ops|
  {
    if ops != [] {
      StepHashed(c, s, ops[0]);
      RunHashed(c, Step(c, s, ops[0]), ops[1..]);
    }
  }

  // ---------- one message ----------

  predicate IsOf(p: Packet, flow: int, message: int) {
    p.flow == flow && p.message == message
  }

  /** The ids of the packets of one message, in order. */
  function Ids(ps: seq<Packet>, flow: int, message: int): seq<nat> {
    if ps == [] then []
    else (if IsOf(ps[0], flow, message) then [ps[0].id] else []) + Ids(ps[1..], flow, message)
  }

  lemma {:induction false} IdsConcat(a: seq<Packet>, b: seq<Packet>, flow: int, message: int)
    ensures Ids(a + b, flow, message) == Ids(a, flow, message) + Ids(b, flow, message)
  {
    if a == [] {
      assert a + b == b;
    } else {
      assert (a + b)[0] == a[0] && (a + b)[1..] == a[1..] + b;
      IdsConcat(a[1..], b, flow, message);
    }
  }

  /** The packets that a run accepts, as they were sent. */
  function Accepted(c: Config, s: State, ops: seq<Op>): seq<Packet>
    requires Inv(s)
    decreases |ops|
  {
    if ops == [] then []
    else
      StepKeepsInv(c, s, ops[0]);
      AcceptedBy(c, s, ops[0]) + Accepted(c, Step(c, s, ops[0]), ops[1..])
  }

  function AcceptedBy(c: Config, s: State, op: Op): seq<Packet> {
    if op.Enq? && TotalBytes(s.qs) + op.p.size <= c.limitBytes then [op.p] else []
  }

  lemma {:induction false} DepartedIds(out: seq<Service>, q: nat, flow: int, message: int)
    requires forall i :: 0 <= i < |out| && IsOf(out[i].packet, flow, message) ==> out[i].queue == q
    ensures Ids(Packed(out), flow, message) == Ids(Departures(out, q), flow, message)
  {
    if out != [] {
      DepartedIds(out[1..], q, flow, message);
      IdsConcat(if out[0].queue == q then [out[0].packet] else [], Departures(out[1..], q), flow, message);
      assert [out[0].packet][1..] == [];
    }
  }

  /** The packets of services. */
  function Packed(out: seq<Service>): (ps: seq<Packet>)
    ensures |ps| == |out|
  {
    if out == [] then [] else [out[0].packet] + Packed(out[1..])
  }

  ghost predicate FromHashed(c: Config, out: seq<Service>) {
    forall i :: 0 <= i < |out| ==> c.hash(out[i].packet.flow, out[i].packet.message) % 100 == out[i].queue
  }

  lemma OutputHashed(c: Config, s: State, op: Op)
    requires Inv(s) && Hashed(c, s)
    ensures FromHashed(c, Output(s, op))
  {
    if Output(s, op) != [] {
      SomeBacklogged(s);
      var q := s.order[FirstBacklogged(s.order, s.qs)];
      assert Output(s, op)[0] == Service(q, s.qs[q][0], false);
    }
  }

  /** What leaves comes from the queue of its message. */
  lemma {:induction false} ServicesHashed(c: Config, s: State, ops: seq<Op>)
    requires Inv(s) && Hashed(c, s)
    ensures FromHashed(c, Services(c, s, ops))
    decreases |ops|
  {
    if ops != [] {
      StepHashed(c, s, ops[0]);
      ServicesHashed(c, Step(c, s, ops[0]), ops[1..]);
      OutputHashed(c, s, ops[0]);
    }
  }

  /** What one operation adds to the queue of a message, seen from that message. */
  lemma ArrivalIds(c: Config, s: State, op: Op, flow: int, message: int)
    requires Inv(s)
    ensures Ids(Arrival(c, s, op, c.hash(flow, message) % 100), flow, message) ==
            Ids(AcceptedBy(c, s, op), flow, message)
  {
    var q := c.hash(flow, message) % 100;
    if op.Enq? {
      var p := op.p;
      assert [p][1..] == [];
      var stored := Arrival(c, s, op, q);
      assert stored != [] ==> stored[1..] == [];
    }
  }

  lemma {:induction false} ArrivalsIds(c: Config, s: State, ops: seq<Op>, flow: int, message: int)
    requires Inv(s)
    ensures Ids(Arrivals(c, s, ops, c.hash(flow, message) % 100), flow, message) ==
            Ids(Accepted(c, s, ops), flow, message)
    decreases |ops|
  {
    if ops != [] {
      var q, op, t := c.hash(flow, message) % 100, ops[0], Step(c, s, ops[0]);
      StepKeepsInv(c, s, op);
      ArrivalsIds(c, t, ops[1..], flow, message);
      ArrivalIds(c, s, op, flow, message);
      IdsConcat(Arrival(c, s, op, q), Arrivals(c, t, ops[1..], q), flow, message);
      IdsConcat(AcceptedBy(c, s, op), Accepted(c, t, ops[1..]), flow, message);
    }
  }

  /**
   * The packets of one message leave in the order in which they were accepted: over every run, what left of it, then
   * what its queue holds of it, is what the queue held of it, then what was accepted of it.
   */
  lemma MessagesAreFifo(c: Config, s: State, ops: seq<Op>, flow: int, message: int)
    requires Inv(s) && Hashed(c, s)
    ensures Inv(Run(c, s, ops))
    ensures
      var q := c.hash(flow, message) % 100;
      Ids(Packed(Services(c, s, ops)), flow, message) + Ids(Run(c, s, ops).qs[q], flow, message) ==
      Ids(s.qs[q], flow, message) + Ids(Accepted(c, s, ops), flow, message)
  {
    var q, out := c.hash(flow, message) % 100, Services(c, s, ops);
    QueuesAreFifo(c, s, ops, q);
    ServicesHashed(c, s, ops);
    DepartedIds(out, q, flow, message);
    ArrivalsIds(c, s, ops, flow, message);
    IdsConcat(Departures(out, q), Run(c, s, ops).qs[q], flow, message);
    IdsConcat(s.qs[q], Arrivals(c, s, ops, q), flow, message);
  }

  /** From the empty queue on, the packets of a message leave in the order accepted; the rest of it is stored. */
  lemma MessagesLeaveInOrder(c: Config, ops: seq<Op>, flow: int, message: int)
    ensures Inv(Initial()) && Inv(Run(c, Initial(), ops))
    ensures
      Ids(Accepted(c, Initial(), ops), flow, message) ==
      Ids(Packed(Services(c, Initial(), ops)), flow, message) +
      Ids(Run(c, Initial(), ops).qs[c.hash(flow, message) % 100], flow, message)
  {
    InitialOk(c);
    MessagesAreFifo(c, Initial(), ops, flow, message);
  }

  /** Messages whose hashes name different queues are served equally often, up to one, while both wait. */
  lemma MessagesShareEqually(c: Config, s: State, ops: seq<Op>, f: int, m: int, g: int, n: int)
    requires Inv(s) && c.hash(f, m) % 100 != c.hash(g, n) % 100
    requires StaysBacklogged(c, s, ops, c.hash(f, m) % 100) && StaysBacklogged(c, s, ops, c.hash(g, n) % 100)
    ensures
      var a := TimesServed(Services(c, s, ops), c.hash(f, m) % 100);
      var b := TimesServed(Services(c, s, ops), c.hash(g, n) % 100);
      -1 <= a - b <= 1
  {
    EqualShares(c, s, ops, c.hash(f, m) % 100, c.hash(g, n) % 100);
  }
}
