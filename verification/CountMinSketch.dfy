/**
 * The expiring count-min sketch of cm_sketch.h. All rows share one array of cells; a cell that was idle for longer
 * than the interval is zeroed before it counts again. A history of Init calls determines both the cells and the
 * exact per-flow burst counter that the sketch approximates.
 */
module CountMinSketch {
  import opened Basics

  const UNIT: nat := 1460
  const CAP: nat := 0x7fff_ffff

  /** The constructor's arguments; `hash(flow, row)` stands for BOBHash32. */
  datatype Params = Params(interval: real, rows: nat, length: nat, hash: (u32, nat) -> nat)

  datatype Call = Call(flow: u32, now: real)

  /** Cell contents, with counters that never wrap. */
  datatype Cells = Cells(counter: seq<nat>, arrive: seq<real>)

  function Position(p: Params, flow: u32, row: nat): (c: nat)
    requires p.length > 0
    ensures c < p.length
  {
    p.hash(flow, row) % p.length
  }

  predicate Shaped(p: Params, s: Cells) {
    p.length > 0 && |s.counter| == p.length && |s.arrive| == p.length
  }

  predicate Expired(p: Params, s: Cells, c: nat, now: real)
    requires c < |s.arrive|
  {
    now - s.arrive[c] > p.interval
  }

  function Hit(p: Params, s: Cells, c: nat, now: real): Cells
    requires Shaped(p, s) && c < p.length
  {
    Cells(s.counter[c := (if Expired(p, s, c, now) then 0 else s.counter[c]) + UNIT], s.arrive[c := now])
  }

  /** The first n rounds of the loop of Init. */
  function Rows(p: Params, s: Cells, call: Call, n: nat): (t: Cells)
    requires Shaped(p, s)
    ensures Shaped(p, t)
  {
    if n == 0 then s
    else var t := Rows(p, s, call, n - 1); Hit(p, t, Position(p, call.flow, n - 1), call.now)
  }

  /** Whether one of the first n rounds finds an expired cell: the result of Init. */
  predicate AnyExpired(p: Params, s: Cells, call: Call, n: nat)
    requires Shaped(p, s)
  {
    n > 0 &&
    (AnyExpired(p, s, call, n - 1) || Expired(p, Rows(p, s, call, n - 1), Position(p, call.flow, n - 1), call.now))
  }

  function Fresh(p: Params): Cells {
    Cells(seq(p.length, _ => 0), seq(p.length, _ => -1.0))
  }

  function Replay(p: Params, calls: seq<Call>): (s: Cells)
    requires p.length > 0
    ensures Shaped(p, s)
  {
    if calls == [] then Fresh(p)
    else Rows(p, Replay(p, calls[..|calls| - 1]), calls[|calls| - 1], p.rows)
  }

  /** Query_count on given counters: the minimum over the first n rows, capped. */
  function Query(p: Params, counter: seq<nat>, flow: u32, n: nat): (r: nat)
    requires p.length > 0 && |counter| == p.length
    ensures r <= CAP
  {
    if n == 0 then CAP else Lesser(Query(p, counter, flow, n - 1), counter[Position(p, flow, n - 1)])
  }

  // ---------- the exact counter ----------

  function LastCall(calls: seq<Call>, flow: u32): Option<real> {
    if calls == [] then None
    else if calls[|calls| - 1].flow == flow then Some(calls[|calls| - 1].now)
    else LastCall(calls[..|calls| - 1], flow)
  }

  predicate Continues(p: Params, calls: seq<Call>, call: Call) {
    LastCall(calls, call.flow).Some? && call.now - LastCall(calls, call.flow).value <= p.interval
  }

  /** The Init calls of a flow in its current burst: its latest calls with gaps of at most the interval. */
  function Burst(p: Params, calls: seq<Call>, flow: u32): nat {
    if calls == [] then 0
    else
      var before, call := calls[..|calls| - 1], calls[|calls| - 1];
      if call.flow != flow then Burst(p, before, flow)
      else if Continues(p, before, call) then Burst(p, before, flow) + 1
      else 1
  }

  ghost predicate TimeOrdered(calls: seq<Call>) {
    forall i, j :: 0 <= i < j < |calls| ==> calls[i].now <= calls[j].now
  }

  /** The burst of the flow is not over: it was just counted, or the latest call came within the interval. */
  predicate Current(p: Params, calls: seq<Call>, flow: u32) {
    LastCall(calls, flow).Some? &&
    (calls[|calls| - 1].flow == flow || calls[|calls| - 1].now - LastCall(calls, flow).value <= p.interval)
  }

  // ---------- one Init call, cell by cell ----------

  /** How many of the first n rows of a flow hit cell c. */
  function Hits(p: Params, flow: u32, c: nat, n: nat): nat
    requires p.length > 0
  {
    if n == 0 then 0 else Hits(p, flow, c, n - 1) + (if Position(p, flow, n - 1) == c then 1 else 0)
  }

  /** A call moves its cells to the present, leaves other cells alone, and counts at least once where it hits. */
  lemma {:induction false} RowsOnCell(p: Params, s: Cells, call: Call, n: nat, c: nat)
    requires Shaped(p, s) && c < p.length
    ensures
      var t := Rows(p, s, call, n);
      if Hits(p, call.flow, c, n) == 0 then
        t.counter[c] == s.counter[c] && t.arrive[c] == s.arrive[c]
      else
        && t.arrive[c] == call.now
        && UNIT <= t.counter[c] <= s.counter[c] + UNIT * Hits(p, call.flow, c, n)
        && (p.interval >= 0.0 && !Expired(p, s, c, call.now) ==>
              t.counter[c] == s.counter[c] + UNIT * Hits(p, call.flow, c, n))
        && (Hits(p, call.flow, c, n) == 1 ==>
              t.counter[c] == (if Expired(p, s, c, call.now) then 0 else s.counter[c]) + UNIT)
  {
    if n > 0 {
      RowsOnCell(p, s, call, n - 1, c);
    }
  }

  lemma {:induction false} RowHits(p: Params, flow: u32, row: nat, n: nat)
    requires p.length > 0 && row < n
    ensures Hits(p, flow, Position(p, flow, row), n) > 0
  {
    if row < n - 1 {
      RowHits(p, flow, row, n - 1);
    }
  }

  lemma {:induction false} NoExpiry(p: Params, s: Cells, call: Call, n: nat)
    requires Shaped(p, s) && p.interval >= 0.0
    requires forall row :: 0 <= row < n ==> !Expired(p, s, Position(p, call.flow, row), call.now)
    ensures !AnyExpired(p, s, call, n)
  {
    if n > 0 {
      NoExpiry(p, s, call, n - 1);
      RowsOnCell(p, s, call, n - 1, Position(p, call.flow, n - 1));
    }
  }

  // ---------- histories ----------

  lemma {:induction false} LastCallIsPast(calls: seq<Call>, flow: u32)
    requires TimeOrdered(calls) && LastCall(calls, flow).Some?
    ensures LastCall(calls, flow).value <= calls[|calls| - 1].now
  {
    var before := calls[..|calls| - 1];
    if calls[|calls| - 1].flow != flow {
      LastCallIsPast(before, flow);
    }
  }

  /** Every cell of a flow has been touched at or after the flow's last call. */
  lemma {:induction false} CellsAreRecent(p: Params, calls: seq<Call>, flow: u32, row: nat)
    requires p.length > 0 && row < p.rows && TimeOrdered(calls) && LastCall(calls, flow).Some?
    ensures Replay(p, calls).arrive[Position(p, flow, row)] >= LastCall(calls, flow).value
  {
    var before, call := calls[..|calls| - 1], calls[|calls| - 1];
    RowsOnCell(p, Replay(p, before), call, p.rows, Position(p, flow, row));
    if call.flow == flow {
      RowHits(p, flow, row, p.rows);
    } else {
      CellsAreRecent(p, before, flow, row);
      LastCallIsPast(calls, flow);
    }
  }

  /** While a burst is current, each of its cells has counted every call of the burst, whoever else used the cell. */
  lemma {:induction false} CellsCountBurst(p: Params, calls: seq<Call>, flow: u32, row: nat)
    requires p.length > 0 && row < p.rows && TimeOrdered(calls) && Current(p, calls, flow)
    ensures Replay(p, calls).counter[Position(p, flow, row)] >= UNIT * Burst(p, calls, flow)
  {
    var before, call := calls[..|calls| - 1], calls[|calls| - 1];
    var c := Position(p, flow, row);
    RowsOnCell(p, Replay(p, before), call, p.rows, c);
    if call.flow == flow {
      RowHits(p, flow, row, p.rows);
      if Continues(p, before, call) {
        CellsAreRecent(p, before, flow, row);
        CurrentBefore(p, calls, flow);
        CellsCountBurst(p, before, flow, row);
      }
    } else {
      CellsAreRecent(p, before, flow, row);
      CurrentBefore(p, calls, flow);
      CellsCountBurst(p, before, flow, row);
    }
  }

  /** A burst that is current now was current before the latest call, and then the interval is not negative. */
  lemma CurrentBefore(p: Params, calls: seq<Call>, flow: u32)
    requires calls != [] && TimeOrdered(calls) && LastCall(calls[..|calls| - 1], flow).Some?
    requires calls[|calls| - 1].now - LastCall(calls[..|calls| - 1], flow).value <= p.interval
    ensures Current(p, calls[..|calls| - 1], flow) && p.interval >= 0.0
  {
    var before := calls[..|calls| - 1];
    LastCallIsPast(before, flow);
    assert before[|before| - 1].now <= calls[|calls| - 1].now;
  }

  /** No flow but the given one hits cell c. */
  ghost predicate Private(p: Params, calls: seq<Call>, flow: u32, c: nat)
    requires p.length > 0
  {
    forall i :: 0 <= i < |calls| && calls[i].flow != flow ==> Hits(p, calls[i].flow, c, p.rows) == 0
  }

  /** A cell that one row of a flow and no other flow hits is an exact counter of that flow's current burst. */
  lemma {:induction false} PrivateCellIsExact(p: Params, calls: seq<Call>, flow: u32, c: nat)
    requires p.length > 0 && c < p.length && Hits(p, flow, c, p.rows) == 1
    requires Private(p, calls, flow, c)
    ensures Replay(p, calls).counter[c] == UNIT * Burst(p, calls, flow)
    ensures LastCall(calls, flow).Some? ==> Replay(p, calls).arrive[c] == LastCall(calls, flow).value
    ensures LastCall(calls, flow).None? ==> Burst(p, calls, flow) == 0
  {
    if calls != [] {
      var before, call := calls[..|calls| - 1], calls[|calls| - 1];
      PrivateCellIsExact(p, before, flow, c);
      RowsOnCell(p, Replay(p, before), call, p.rows, c);
    }
  }

  // ---------- what a query tells ----------

  function Wrapped(counter: seq<nat>): (w: seq<nat>)
    ensures |w| == |counter|
  {
    seq(|counter|, i requires 0 <= i < |counter| => counter[i] % U32_RANGE)
  }

  lemma WrapAdd(x: nat, k: nat)
    ensures (x % U32_RANGE + k) % U32_RANGE == (x + k) % U32_RANGE
  {
  }

  predicate NoOverflow(p: Params, calls: seq<Call>, flow: u32)
    requires p.length > 0
  {
    forall row :: 0 <= row < p.rows ==> Replay(p, calls).counter[Position(p, flow, row)] < U32_RANGE
  }

  lemma {:induction false} QueryAtLeast(p: Params, counter: seq<nat>, flow: u32, n: nat, bound: nat)
    requires p.length > 0 && |counter| == p.length
    requires forall row :: 0 <= row < n ==> counter[Position(p, flow, row)] >= bound
    ensures Query(p, counter, flow, n) >= Lesser(CAP, bound)
  {
    if n > 0 {
      QueryAtLeast(p, counter, flow, n - 1, bound);
    }
  }

  lemma {:induction false} QueryAtMost(p: Params, counter: seq<nat>, flow: u32, n: nat, row: nat)
    requires p.length > 0 && |counter| == p.length && row < n
    ensures Query(p, counter, flow, n) <= counter[Position(p, flow, row)]
  {
    if row < n - 1 {
      QueryAtMost(p, counter, flow, n - 1, row);
    }
  }

  /** Query_count after a history. */
  function Estimate(p: Params, calls: seq<Call>, flow: u32): nat
    requires p.length > 0
  {
    Query(p, Wrapped(Replay(p, calls).counter), flow, p.rows)
  }

  /** What a faultless counter would show: 1460 per call of the current burst, up to the cap. */
  function Exact(p: Params, calls: seq<Call>, flow: u32): nat {
    Lesser(CAP, UNIT * Burst(p, calls, flow))
  }

  lemma ArrayCountsBurst(p: Params, calls: seq<Call>, flow: u32, row: nat)
    requires p.length > 0 && TimeOrdered(calls) && Current(p, calls, flow) && NoOverflow(p, calls, flow) && row < p.rows
    ensures Wrapped(Replay(p, calls).counter)[Position(p, flow, row)] >= UNIT * Burst(p, calls, flow)
  {
    CellsCountBurst(p, calls, flow, row);
  }

  /** The estimate is never below the exact burst count, despite shared cells and resets by other flows. */
  lemma QueryNeverUnderestimates(p: Params, calls: seq<Call>, flow: u32)
    requires p.length > 0 && TimeOrdered(calls) && Current(p, calls, flow) && NoOverflow(p, calls, flow)
    ensures Estimate(p, calls, flow) >= Exact(p, calls, flow)
  {
    var counter, bound := Wrapped(Replay(p, calls).counter), UNIT * Burst(p, calls, flow);
    forall row | 0 <= row < p.rows
      ensures counter[Position(p, flow, row)] >= bound
    {
      ArrayCountsBurst(p, calls, flow, row);
    }
    QueryAtLeast(p, counter, flow, p.rows, bound);
  }

  /** The estimate is exact below the cap when some cell of the flow is hit by one row of it and by no other flow. */
  lemma QueryIsExact(p: Params, calls: seq<Call>, flow: u32, row: nat)
    requires p.length > 0 && TimeOrdered(calls) && Current(p, calls, flow) && NoOverflow(p, calls, flow)
    requires row < p.rows && Hits(p, flow, Position(p, flow, row), p.rows) == 1
    requires Private(p, calls, flow, Position(p, flow, row))
    ensures Estimate(p, calls, flow) == Exact(p, calls, flow)
  {
    QueryNeverUnderestimates(p, calls, flow);
    PrivateCellIsExact(p, calls, flow, Position(p, flow, row));
    QueryAtMost(p, Wrapped(Replay(p, calls).counter), flow, p.rows, row);
  }

  // ---------- overflow ----------

  /** Right after the k-th call, the estimate for its flow is not too low. */
  predicate ReadsEnough(p: Params, calls: seq<Call>, k: nat)
    requires p.length > 0 && 0 < k <= |calls|
  {
    Estimate(p, calls[..k], calls[k - 1].flow) >= Exact(p, calls[..k], calls[k - 1].flow)
  }

  /** Right after the k-th call, the cells of its flow have not overflowed. */
  predicate Fits(p: Params, calls: seq<Call>, k: nat)
    requires p.length > 0 && 0 < k <= |calls|
  {
    NoOverflow(p, calls[..k], calls[k - 1].flow)
  }

  /** The rows of each flow hit different cells. */
  ghost predicate SeparateRows(p: Params, calls: seq<Call>)
    requires p.length > 0
  {
    forall i, c: nat :: 0 <= i < |calls| && c < p.length ==> Hits(p, calls[i].flow, c, p.rows) <= 1
  }

  lemma {:induction false} HitRow(p: Params, flow: u32, c: nat, n: nat) returns (row: nat)
    requires p.length > 0 && Hits(p, flow, c, n) > 0
    ensures row < n && Position(p, flow, row) == c
  {
    row := n - 1;
    if Position(p, flow, n - 1) != c {
      row := HitRow(p, flow, c, n - 1);
    }
  }

  lemma EstimateAtMost(p: Params, calls: seq<Call>, flow: u32, c: nat)
    requires p.length > 0 && c < p.length && Hits(p, flow, c, p.rows) > 0
    ensures Estimate(p, calls, flow) <= Replay(p, calls).counter[c] % U32_RANGE
  {
    var row := HitRow(p, flow, c, p.rows);
    QueryAtMost(p, Wrapped(Replay(p, calls).counter), flow, p.rows, row);
  }

  lemma WrapLeavesLittle(was: nat, now: nat)
    requires was < U32_RANGE <= now <= was + UNIT
    ensures now % U32_RANGE < UNIT
  {
  }

  lemma LatestBurst(p: Params, before: seq<Call>, call: Call)
    ensures Burst(p, before + [call], call.flow) >= 1
  {
    assert (before + [call])[..|before|] == before;
  }

  /** An overflow of a cell that a call hits once leaves less than one unit in it, and the query shows that. */
  lemma OverflowShows(p: Params, before: seq<Call>, call: Call, c: nat)
    requires p.length > 0 && c < p.length && Hits(p, call.flow, c, p.rows) <= 1
    requires Replay(p, before).counter[c] < U32_RANGE
    requires Estimate(p, before + [call], call.flow) >= Exact(p, before + [call], call.flow)
    ensures Replay(p, before + [call]).counter[c] < U32_RANGE
  {
    var calls := before + [call];
    assert calls[..|calls| - 1] == before;
    RowsOnCell(p, Replay(p, before), call, p.rows, c);
    if Hits(p, call.flow, c, p.rows) > 0 {
      EstimateAtMost(p, calls, call.flow, c);
      LatestBurst(p, before, call);
      if Replay(p, calls).counter[c] >= U32_RANGE {
        WrapLeavesLittle(Replay(p, before).counter[c], Replay(p, calls).counter[c]);
      }
    }
  }

  lemma {:induction false} EnoughMeansFit(p: Params, calls: seq<Call>, k: nat, c: nat)
    requires p.length > 0 && SeparateRows(p, calls) && c < p.length && k <= |calls|
    requires forall j :: 0 < j <= k ==> ReadsEnough(p, calls, j)
    ensures Replay(p, calls[..k]).counter[c] < U32_RANGE
  {
    if k > 0 {
      EnoughMeansFit(p, calls, k - 1, c);
      assert calls[..k] == calls[..k - 1] + [calls[k - 1]];
      assert ReadsEnough(p, calls, k);
      OverflowShows(p, calls[..k - 1], calls[k - 1], c);
    }
  }

  /**
   * When the rows of a flow hit different cells, no estimate made right after a call is ever too low if and only if
   * no cell of a calling flow ever overflows: the first overflow is visible at once.
   */
  lemma EnoughUnlessOverflow(p: Params, calls: seq<Call>)
    requires p.length > 0 && TimeOrdered(calls) && SeparateRows(p, calls)
    ensures (forall k :: 0 < k <= |calls| ==> ReadsEnough(p, calls, k)) <==>
            (forall k :: 0 < k <= |calls| ==> Fits(p, calls, k))
  {
    if forall k :: 0 < k <= |calls| ==> ReadsEnough(p, calls, k) {
      forall k | 0 < k <= |calls|
        ensures Fits(p, calls, k)
      {
        var flow := calls[k - 1].flow;
        forall row | 0 <= row < p.rows
          ensures Replay(p, calls[..k]).counter[Position(p, flow, row)] < U32_RANGE
        {
          EnoughMeansFit(p, calls, k, Position(p, flow, row));
        }
      }
    } else {
      var k :| 0 < k <= |calls| && !ReadsEnough(p, calls, k);
      FittingReadsEnough(p, calls, k);
    }
  }

  lemma FittingReadsEnough(p: Params, calls: seq<Call>, k: nat)
    requires p.length > 0 && TimeOrdered(calls) && 0 < k <= |calls|
    ensures Fits(p, calls, k) ==> ReadsEnough(p, calls, k)
  {
    if Fits(p, calls, k) {
      QueryNeverUnderestimates(p, calls[..k], calls[k - 1].flow);
    }
  }

  /** n Init calls of one flow at one time. */
  function SameCalls(n: nat): (calls: seq<Call>)
    ensures |calls| == n
  {
    seq(n, _ => Call(0, 0.0))
  }

  lemma {:induction false} SameCallsBurst(p: Params, n: nat)
    requires p.interval >= 0.0
    ensures Burst(p, SameCalls(n), 0) == n && LastCall(SameCalls(n), 0) == if n == 0 then None else Some(0.0)
  {
    if n > 0 {
      SameCallsBurst(p, n - 1);
      assert SameCalls(n)[..n - 1] == SameCalls(n - 1);
    }
  }

  /** 2941759 calls of one flow wrap each cell that one row of it hits, and the estimate falls to 844. */
  lemma OverflowUnderestimates(p: Params, row: nat)
    requires p.interval >= 0.0 && p.length > 0
    requires row < p.rows && Hits(p, 0, Position(p, 0, row), p.rows) == 1
    ensures Current(p, SameCalls(2941759), 0) && !NoOverflow(p, SameCalls(2941759), 0)
    ensures Estimate(p, SameCalls(2941759), 0) <= 844
    ensures SeparateRows(p, SameCalls(2941759)) ==> Estimate(p, SameCalls(2941759), 0) == 844
    ensures Burst(p, SameCalls(2941759), 0) == 2941759
  {
    var calls := SameCalls(2941759);
    SameCallsBurst(p, 2941759);
    PrivateCellIsExact(p, calls, 0, Position(p, 0, row));
    QueryAtMost(p, Wrapped(Replay(p, calls).counter), 0, p.rows, row);
    if SeparateRows(p, calls) {
      forall r | 0 <= r < p.rows
        ensures Wrapped(Replay(p, calls).counter)[Position(p, 0, r)] == 844
      {
        RowHits(p, 0, r, p.rows);
        assert calls[0].flow == 0;
        PrivateCellIsExact(p, calls, 0, Position(p, 0, r));
      }
      QueryAtLeast(p, Wrapped(Replay(p, calls).counter), 0, p.rows, 844);
    }
  }

  /** Both rows of the two flows 0 and 1 share cell c, and the interval is long. */
  predicate Shared(p: Params, c: nat) {
    && p.length > 0 && c < p.length && p.rows == 2 && p.interval >= 1.0
    && forall flow: u32, row: nat :: flow < 2 && row < 2 ==> Position(p, flow, row) == c
  }

  lemma {:induction false} SharedCellCounts(p: Params, c: nat, calls: seq<Call>)
    requires Shared(p, c)
    requires forall i :: 0 <= i < |calls| ==> calls[i].flow < 2 && calls[i].now == 0.0
    ensures Replay(p, calls).counter[c] == 2 * UNIT * |calls|
    ensures Replay(p, calls).arrive[c] == if calls == [] then -1.0 else 0.0
  {
    if calls != [] {
      var before, call := calls[..|calls| - 1], calls[|calls| - 1];
      SharedCellCounts(p, c, before);
      assert Hits(p, call.flow, c, 1) == 1 + Hits(p, call.flow, c, 0) == 1;
      assert Hits(p, call.flow, c, 2) == 2;
      RowsOnCell(p, Replay(p, before), call, p.rows, c);
    }
  }

  /** The last call of the history below, which overflows without being noticed. */
  lemma HiddenOverflow(p: Params, c: nat, calls: seq<Call>)
    requires Shared(p, c) && calls == SameCalls(1470879) + [Call(1, 0.0)]
    ensures !Fits(p, calls, |calls|) && ReadsEnough(p, calls, |calls|)
  {
    assert calls[..|calls|] == calls && calls[..|calls| - 1] == SameCalls(1470879);
    SharedCellCounts(p, c, calls);
    assert Replay(p, calls).counter[c] == 4294969600;
    assert Position(p, 1, 0) == c && Position(p, 1, 1) == c;
    QueryAtLeast(p, Wrapped(Replay(p, calls).counter), 1, 2, UNIT);
    NeverCalled(p, SameCalls(1470879), 1);
  }

  /**
   * When two rows of a flow share a cell, an overflow can stay invisible: after 1470879 calls of flow 0, one call of
   * flow 1 wraps their common cell to 2304, which is still enough for a burst of one call.
   */
  lemma SharedRowsHideOverflow(p: Params, c: nat)
    requires Shared(p, c)
    ensures
      var calls := SameCalls(1470879) + [Call(1, 0.0)];
      && TimeOrdered(calls) && !Fits(p, calls, |calls|)
      && forall k :: 0 < k <= |calls| ==> ReadsEnough(p, calls, k)
  {
    var calls := SameCalls(1470879) + [Call(1, 0.0)];
    forall k | 0 < k < |calls|
      ensures ReadsEnough(p, calls, k)
    {
      SharedCellCounts(p, c, calls[..k]);
      FittingReadsEnough(p, calls, k);
    }
    HiddenOverflow(p, c, calls);
  }

  lemma {:induction false} NeverCalled(p: Params, calls: seq<Call>, flow: u32)
    requires forall i :: 0 <= i < |calls| ==> calls[i].flow != flow
    ensures LastCall(calls, flow) == None
  {
    if calls != [] {
      NeverCalled(p, calls[..|calls| - 1], flow);
    }
  }

  /** A history short enough cannot overflow any cell. */
  lemma {:induction false} CellsAreBounded(p: Params, calls: seq<Call>, c: nat)
    requires p.length > 0 && c < p.length
    ensures Replay(p, calls).counter[c] <= UNIT * (p.rows * |calls|)
  {
    if calls != [] {
      var before, call := calls[..|calls| - 1], calls[|calls| - 1];
      CellsAreBounded(p, before, c);
      RowsOnCell(p, Replay(p, before), call, p.rows, c);
      HitsAtMostRows(p, call.flow, c, p.rows);
      assert p.rows * |calls| == p.rows * |before| + p.rows;
    }
  }

  lemma {:induction false} HitsAtMostRows(p: Params, flow: u32, c: nat, n: nat)
    requires p.length > 0
    ensures Hits(p, flow, c, n) <= n
  {
    if n > 0 {
      HitsAtMostRows(p, flow, c, n - 1);
    }
  }

  lemma ShortHistoriesFit(p: Params, calls: seq<Call>, flow: u32)
    requires p.length > 0 && UNIT * (p.rows * |calls|) < U32_RANGE
    ensures NoOverflow(p, calls, flow)
  {
    forall row | 0 <= row < p.rows
      ensures Replay(p, calls).counter[Position(p, flow, row)] < U32_RANGE
    {
      CellsAreBounded(p, calls, Position(p, flow, row));
    }
  }

  /** Init reports an expired cell only when the flow really starts a new burst. */
  lemma ReportedBurstsAreNew(p: Params, calls: seq<Call>, call: Call)
    requires p.length > 0 && TimeOrdered(calls + [call])
    requires AnyExpired(p, Replay(p, calls), call, p.rows)
    ensures Burst(p, calls + [call], call.flow) == 1
  {
    assert (calls + [call])[..|calls|] == calls;
    if Continues(p, calls, call) {
      CurrentBefore(p, calls + [call], call.flow);
      assert forall i :: 0 <= i < |calls| ==> calls[i] == (calls + [call])[i];
      forall row | 0 <= row < p.rows
        ensures !Expired(p, Replay(p, calls), Position(p, call.flow, row), call.now)
      {
        CellsAreRecent(p, calls, call.flow, row);
      }
      NoExpiry(p, Replay(p, calls), call, p.rows);
      assert false;
    }
  }

  /** The first row of a flow that hits an expired cell notices, and Init remembers it. */
  lemma {:induction false} ExpiryIsReported(p: Params, s: Cells, call: Call, n: nat, c: nat)
    requires Shaped(p, s) && c < p.length && Expired(p, s, c, call.now) && Hits(p, call.flow, c, n) > 0
    ensures AnyExpired(p, s, call, n)
  {
    if Hits(p, call.flow, c, n - 1) > 0 {
      ExpiryIsReported(p, s, call, n - 1, c);
    } else {
      RowsOnCell(p, s, call, n - 1, c);
    }
  }

  lemma {:induction false} CalledBurst(p: Params, calls: seq<Call>, flow: u32)
    requires LastCall(calls, flow).Some?
    ensures Burst(p, calls, flow) >= 1
  {
    if calls[|calls| - 1].flow != flow {
      CalledBurst(p, calls[..|calls| - 1], flow);
    }
  }

  /** For a flow with a private cell and an earlier call, Init reports a new burst if and only if there is one. */
  lemma NewBurstsAreReported(p: Params, calls: seq<Call>, call: Call, row: nat)
    requires p.length > 0 && TimeOrdered(calls + [call]) && LastCall(calls, call.flow).Some?
    requires row < p.rows && Hits(p, call.flow, Position(p, call.flow, row), p.rows) == 1
    requires Private(p, calls, call.flow, Position(p, call.flow, row))
    ensures AnyExpired(p, Replay(p, calls), call, p.rows) <==> Burst(p, calls + [call], call.flow) == 1
  {
    if AnyExpired(p, Replay(p, calls), call, p.rows) {
      ReportedBurstsAreNew(p, calls, call);
    } else {
      assert (calls + [call])[..|calls|] == calls;
      CalledBurst(p, calls, call.flow);
      var c := Position(p, call.flow, row);
      PrivateCellIsExact(p, calls, call.flow, c);
      if !Continues(p, calls, call) {
        ExpiryIsReported(p, Replay(p, calls), call, p.rows, c);
      }
    }
  }

  // ---------- the object ----------

  class CMSketch {
    const params: Params
    const counter: array<u32>
    const arrive: array<real>

    /** Every Init call so far. */
    ghost var history: seq<Call>

    /** The arrays hold the replay of the history, counters modulo the range of u32. */
    ghost predicate Valid()
      reads this, counter, arrive
    {
      && params.length > 0 && counter.Length == params.length
      && counter[..] == Wrapped(Replay(params, history).counter)
      && arrive[..] == Replay(params, history).arrive
    }

    constructor (params: Params)
      requires params.length > 0
      ensures Valid() && this.params == params && history == [] && fresh(counter) && fresh(arrive)
    {
      this.params, history := params, [];
      counter := new u32[params.length](_ => 0);
      arrive := new real[params.length](_ => -1.0);
      new;
      for i := 0 to arrive.Length
        modifies arrive
        invariant forall k :: 0 <= k < i ==> arrive[k] == -1.0
      {
        arrive[i] := -1.0;
      }
      assert arrive[..] == Fresh(params).arrive;
      assert counter[..] == Wrapped(Fresh(params).counter);
    }

    /** The body of the loop of Init, on the cells t that the arrays hold. */
    method HitCell(c: nat, now: real, ghost t: Cells) returns (expired: bool)
      requires Shaped(params, t) && c < params.length
      requires counter[..] == Wrapped(t.counter) && arrive[..] == t.arrive
      modifies counter, arrive
      ensures counter[..] == Wrapped(Hit(params, t, c, now).counter)
      ensures arrive[..] == Hit(params, t, c, now).arrive
      ensures expired <==> Expired(params, t, c, now)
    {
      assert arrive[c] == t.arrive[c];
      assert counter[c] == Wrapped(t.counter)[c];
      expired := now - arrive[c] > params.interval;
      if expired {
        counter[c] := 0;
      }
      WrapAdd(t.counter[c], UNIT);
      counter[c] := (counter[c] + UNIT) % U32_RANGE;
      arrive[c] := now;
      assert counter[..] == Wrapped(t.counter)[c := Hit(params, t, c, now).counter[c] % U32_RANGE];
    }

    method Init(flow: u32, now: real) returns (expired: bool)
      requires Valid()
      modifies this`history, counter, arrive
      ensures Valid() && history == old(history) + [Call(flow, now)]
      ensures expired <==> AnyExpired(params, Replay(params, old(history)), Call(flow, now), params.rows)
    {
      ghost var s, call := Replay(params, history), Call(flow, now);
      expired := false;
      for i := 0 to params.rows
        invariant history == old(history)
        invariant counter[..] == Wrapped(Rows(params, s, call, i).counter)
        invariant arrive[..] == Rows(params, s, call, i).arrive
        invariant expired <==> AnyExpired(params, s, call, i)
      {
        var c := params.hash(flow, i) % params.length;
        var idle := HitCell(c, now, Rows(params, s, call, i));
        expired := expired || idle;
      }
      history := history + [call];
      assert history[..|history| - 1] == old(history);
    }

    /** Right after Init of the flow, and until its burst ends, the result is never below the exact burst count. */
    method QueryCount(flow: u32) returns (r: u32)
      requires Valid()
      ensures r == Query(params, counter[..], flow, params.rows)
      ensures TimeOrdered(history) && Current(params, history, flow) && NoOverflow(params, history, flow) ==>
                r >= Exact(params, history, flow)
    {
      r := CAP;
      for i := 0 to params.rows
        invariant r == Query(params, counter[..], flow, i)
      {
        var c := params.hash(flow, i) % params.length;
        r := if r < counter[c] then r else counter[c];
      }
      if TimeOrdered(history) && Current(params, history, flow) && NoOverflow(params, history, flow) {
        QueryNeverUnderestimates(params, history, flow);
      }
    }
  }
}
