/** Packets and the FIFO arithmetic shared by the simulated queue disciplines. */
module Packets {
  type pos = x: int | 0 < x witness 1

  /** A packet as the disciplines see it; `message` is the message the sender was in when it sent the packet. */
  datatype Packet = Packet(id: nat, flow: int, message: int, size: pos, tcp: bool, ect: bool, ce: bool)

  /** ECN: a congested queue sets CE on an ECN-capable packet and leaves every other packet alone. */
  function Marked(p: Packet, congested: bool): (m: Packet)
    ensures m.(ce := p.ce) == p
    ensures m.ce <==> p.ce || (congested && p.ect)
  {
    if congested && p.ect then p.(ce := true) else p
  }

  /** byteLength() of one FIFO. */
  function Bytes(q: seq<Packet>): nat {
    if q == [] then 0 else Bytes(q[..|q| - 1]) + q[|q| - 1].size
  }

  /** TotalByteLength() of a discipline. */
  function TotalBytes(qs: seq<seq<Packet>>): nat {
    if qs == [] then 0 else TotalBytes(qs[..|qs| - 1]) + Bytes(qs[|qs| - 1])
  }

  /** A discipline takes a packet that fits its limit and drops every other. */
  predicate Accepts(limitBytes: int, qs: seq<seq<Packet>>, p: Packet) {
    TotalBytes(qs) + p.size <= limitBytes
  }

  const MOST_QUEUES: nat := 8

  /** The configured number of queues as a number from 1 to 8. */
  function Clamp(n: int): nat {
    if n > MOST_QUEUES then MOST_QUEUES else if n < 1 then 1 else n
  }

  /** It is the nearest number from 1 to 8. */
  lemma ClampIsNearest(n: int, m: int)
    requires 1 <= m <= 8
    ensures 1 <= Clamp(n) <= 8
    ensures n <= Clamp(n) ==> Clamp(n) - n <= if m < n then n - m else m - n
    ensures Clamp(n) <= n ==> n - Clamp(n) <= if m < n then n - m else m - n
  {
  }

  datatype Marking = Disabled | PerQueue | PerPort

  /** Whether queue m, or the whole port, holds more bytes than the marking threshold. */
  predicate Congested(marking: Marking, markBytes: int, qs: seq<seq<Packet>>, m: nat)
    requires m < |qs|
  {
    || (marking == PerQueue && Bytes(qs[m]) > markBytes)
    || (marking == PerPort && TotalBytes(qs) > markBytes)
  }

  lemma BytesOfAppend(q: seq<Packet>, p: Packet)
    ensures Bytes(q + [p]) == Bytes(q) + p.size
  {
    assert (q + [p])[..|q|] == q;
  }

  /** A packet has at least one byte, so byte counts detect emptiness. */
  lemma {:induction false} TotalBytesZero(qs: seq<seq<Packet>>)
    ensures TotalBytes(qs) == 0 <==> forall i :: 0 <= i < |qs| ==> qs[i] == []
  {
    if qs != [] {
      var init, last := qs[..|qs| - 1], qs[|qs| - 1];
      TotalBytesZero(init);
      assert forall i :: 0 <= i < |init| ==> init[i] == qs[i];
      if last != [] {
        assert Bytes(last) > 0;
      }
    }
  }

  lemma {:induction false} TotalBytesUpdate(qs: seq<seq<Packet>>, i: nat, q: seq<Packet>)
    requires i < |qs|
    ensures TotalBytes(qs[i := q]) == TotalBytes(qs) - Bytes(qs[i]) + Bytes(q)
  {
    var init := qs[..|qs| - 1];
    if i == |qs| - 1 {
      assert qs[i := q][..|qs| - 1] == init;
    } else {
      TotalBytesUpdate(init, i, q);
      assert qs[i := q][..|qs| - 1] == init[i := q];
    }
  }

  lemma Prepend<T>(first: seq<T>, rest: seq<T>, end: seq<T>, whole: seq<T>)
    requires rest + end == whole
    ensures (first + rest) + end == first + whole
  {
    assert (first + rest) + end == first + (rest + end);
  }

  /** Composes two conservation equations of the form out + after == before + in. */
  lemma Splice<T>(out: seq<T>, later: seq<T>, end: seq<T>, mid: seq<T>, more: seq<T>, start: seq<T>, added: seq<T>)
    requires later + end == mid + more
    requires out + mid == start + added
    ensures (out + later) + end == start + (added + more)
  {
    calc {
      (out + later) + end;
      out + (later + end);
      (out + mid) + more;
      start + (added + more);
    }
  }

  /** A packet leaving a queue; `refilled` says whether the scheduler handed out new credits to choose it. */
  datatype Service = Service(queue: nat, packet: Packet, refilled: bool)

  /** The packets of queue q among the services of a run. */
  function Departures(out: seq<Service>, q: nat): seq<Packet> {
    if out == [] then []
    else (if out[0].queue == q then [out[0].packet] else []) + Departures(out[1..], q)
  }

  lemma DeparturesOfOne(x: Service, q: nat)
    ensures Departures([x], q) == if x.queue == q then [x.packet] else []
  {
    assert [x][1..] == [];
  }

  lemma {:induction false} DeparturesConcat(a: seq<Service>, b: seq<Service>, q: nat)
    ensures Departures(a + b, q) == Departures(a, q) + Departures(b, q)
  {
    if a == [] {
      assert a + b == b;
    } else {
      assert (a + b)[0] == a[0] && (a + b)[1..] == a[1..] + b;
      DeparturesConcat(a[1..], b, q);
      Prepend(if a[0].queue == q then [a[0].packet] else [], Departures(a[1..], q), Departures(b, q),
              Departures(a[1..] + b, q));
    }
  }

  /** The loop of TotalByteLength(). */
  method TotalByteLength(q: array<seq<Packet>>) returns (total: nat)
    ensures total == TotalBytes(q[..])
  {
    total := 0;
    for i := 0 to q.Length
      invariant total == TotalBytes(q[..i])
    {
      assert q[..i + 1][..i] == q[..i];
      total := total + Bytes(q[i]);
    }
    assert q[..q.Length] == q[..];
  }
}
