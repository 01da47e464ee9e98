/** The count-min sketch seen from its hashes: which cells a call touches and which cells a query reads. */
module SketchCells {
  import opened Basics
  import opened CountMinSketch

  /** Some row's hash of the flow names cell c. */
  ghost predicate Names(p: Params, flow: u32, c: nat)
    requires p.length > 0
  {
    exists row :: 0 <= row < p.rows && p.hash(flow, row) % p.length == c
  }

  /** The rows of the flow name different cells. */
  ghost predicate NamesApart(p: Params, flow: u32)
    requires p.length > 0
  {
    forall i, j :: 0 <= i < j < p.rows ==> p.hash(flow, i) % p.length != p.hash(flow, j) % p.length
  }

  lemma NamedIsHit(p: Params, flow: u32, c: nat)
    requires p.length > 0
    ensures Hits(p, flow, c, p.rows) > 0 <==> Names(p, flow, c)
  {
    if Hits(p, flow, c, p.rows) > 0 {
      var row := HitRow(p, flow, c, p.rows);
      assert p.hash(flow, row) % p.length == c;
    } else if Names(p, flow, c) {
      var row :| 0 <= row < p.rows && p.hash(flow, row) % p.length == c;
      RowHits(p, flow, row, p.rows);
    }
  }

  lemma {:induction false} HitOnce(p: Params, flow: u32, c: nat, n: nat)
    requires p.length > 0 && NamesApart(p, flow) && n <= p.rows
    ensures Hits(p, flow, c, n) <= 1
  {
    if n > 0 {
      HitOnce(p, flow, c, n - 1);
      if Hits(p, flow, c, n - 1) == 1 {
        var row := HitRow(p, flow, c, n - 1);
        assert p.hash(flow, row) % p.length != p.hash(flow, n - 1) % p.length;
      }
    }
  }

  /**
   * Init brings exactly the cells that the flow's hashes name to the present, each counted at least once, and leaves
   * all others alone; when the rows name different cells, each is zeroed if it was idle and grows by 1460.
   */
  lemma InitSetsNamedCells(p: Params, calls: seq<Call>, call: Call, c: nat)
    requires p.length > 0 && c < p.length
    ensures
      var s, t := Replay(p, calls), Replay(p, calls + [call]);
      if Names(p, call.flow, c) then
        && t.arrive[c] == call.now && t.counter[c] >= 1460
        && (NamesApart(p, call.flow) ==>
              t.counter[c] == (if call.now - s.arrive[c] > p.interval then 0 else s.counter[c]) + 1460)
      else
        t.arrive[c] == s.arrive[c] && t.counter[c] == s.counter[c]
  {
    assert (calls + [call])[..|calls|] == calls;
    RowsOnCell(p, Replay(p, calls), call, p.rows, c);
    NamedIsHit(p, call.flow, c);
    if NamesApart(p, call.flow) {
      HitOnce(p, call.flow, c, p.rows);
    }
  }

  /** A query is the minimum over the cells that the flow's hashes name, and 2^31 - 1 at most. */
  lemma {:induction false} QueryIsMinimum(p: Params, counter: seq<nat>, flow: u32, n: nat)
    requires p.length > 0 && |counter| == p.length
    ensures Query(p, counter, flow, n) <= 0x7fff_ffff
    ensures forall row :: 0 <= row < n ==> Query(p, counter, flow, n) <= counter[p.hash(flow, row) % p.length]
    ensures Query(p, counter, flow, n) == 0x7fff_ffff ||
            exists row :: 0 <= row < n && Query(p, counter, flow, n) == counter[p.hash(flow, row) % p.length]
  {
    if n > 0 {
      QueryIsMinimum(p, counter, flow, n - 1);
      assert Query(p, counter, flow, n) == Query(p, counter, flow, n - 1) ||
             Query(p, counter, flow, n) == counter[p.hash(flow, n - 1) % p.length];
    }
  }

  /** The estimate is exact as soon as a flow's rows name different cells, one of which no other caller's rows name. */
  lemma SeparateHashesAreExact(p: Params, calls: seq<Call>, flow: u32, row: nat)
    requires p.length > 0 && TimeOrdered(calls) && Current(p, calls, flow)
    requires forall r :: 0 <= r < p.rows ==>
               Replay(p, calls).counter[p.hash(flow, r) % p.length] < 0x1_0000_0000
    requires NamesApart(p, flow) && row < p.rows
    requires forall i :: 0 <= i < |calls| && calls[i].flow != flow ==>
               !Names(p, calls[i].flow, p.hash(flow, row) % p.length)
    ensures Estimate(p, calls, flow) == Lesser(0x7fff_ffff, 1460 * Burst(p, calls, flow))
  {
    assert NoOverflow(p, calls, flow) by {
      forall r | 0 <= r < p.rows
        ensures Replay(p, calls).counter[Position(p, flow, r)] < U32_RANGE
      {
        assert Replay(p, calls).counter[p.hash(flow, r) % p.length] < 0x1_0000_0000;
      }
    }
    var c := p.hash(flow, row) % p.length;
    HitOnce(p, flow, c, p.rows);
    RowHits(p, flow, row, p.rows);
    forall i | 0 <= i < |calls| && calls[i].flow != flow
      ensures Hits(p, calls[i].flow, c, p.rows) == 0
    {
      NamedIsHit(p, calls[i].flow, c);
    }
    QueryIsExact(p, calls, flow, row);
  }

  /** A cell that no caller's rows name still has the counter 0 and the arrival time -1. */
  lemma {:induction false} UntouchedCell(p: Params, calls: seq<Call>, c: nat)
    requires p.length > 0 && c < p.length
    requires forall i :: 0 <= i < |calls| ==> !Names(p, calls[i].flow, c)
    ensures Replay(p, calls).counter[c] == 0 && Replay(p, calls).arrive[c] == -1.0
  {
    if calls != [] {
      UntouchedCell(p, calls[..|calls| - 1], c);
      RowsOnCell(p, Replay(p, calls[..|calls| - 1]), calls[|calls| - 1], p.rows, c);
      NamedIsHit(p, calls[|calls| - 1].flow, c);
    }
  }

  /** The first call of a flow with untouched cells is reported as a new burst if it comes after interval - 1. */
  lemma FirstCallReport(p: Params, calls: seq<Call>, call: Call)
    requires p.length > 0 && p.interval >= 0.0
    requires forall i, row :: 0 <= i < |calls| && 0 <= row < p.rows ==>
               !Names(p, calls[i].flow, p.hash(call.flow, row) % p.length)
    ensures AnyExpired(p, Replay(p, calls), call, p.rows) <==> p.rows > 0 && call.now + 1.0 > p.interval
  {
    var s := Replay(p, calls);
    forall row | 0 <= row < p.rows
      ensures s.arrive[Position(p, call.flow, row)] == -1.0
    {
      assert p.hash(call.flow, row) % p.length == Position(p, call.flow, row);
      UntouchedCell(p, calls, Position(p, call.flow, row));
    }
    if call.now + 1.0 > p.interval {
      if p.rows > 0 {
        RowHits(p, call.flow, 0, p.rows);
        ExpiryIsReported(p, s, call, p.rows, Position(p, call.flow, 0));
      }
    } else {
      NoExpiry(p, s, call, p.rows);
    }
  }
}
