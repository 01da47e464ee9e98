/**
 * The end host's classifier: the bitwise 64-bit square root, the nearest-average search over the queue statistics,
 * and the aged integer statistics themselves.
 */
module HostClassifier {
  import opened Basics
  import opened IntegerRoot
  import opened RatioDistance

  const QUEUES: nat := 8
  const ULONG_MAX: nat := 0xffff_ffff_ffff_ffff
  const AGING: nat := 2560

  // ---------- the square root loop ----------

  function Pow2(n: nat): (p: nat)
    ensures p > 0
  {
    if n == 0 then 1 else 2 * Pow2(n - 1)
  }

  /** The position of the most significant set bit, counted from 1; 0 for 0. */
  function Fls64(x: nat): (n: nat)
    ensures x > 0 ==> n > 0 && Pow2(n - 1) <= x
    ensures x < Pow2(n)
  {
    if x == 0 then 0 else 1 + Fls64(x / 2)
  }

  lemma {:induction false} Pow2Double(k: nat)
    ensures Pow2(2 * k) == Pow2(k) * Pow2(k)
  {
    if k > 0 {
      Pow2Double(k - 1);
      assert Pow2(2 * k) == 2 * (2 * Pow2(2 * (k - 1)));
      assert Pow2(k) * Pow2(k) == 4 * (Pow2(k - 1) * Pow2(k - 1));
    }
  }

  lemma {:induction false} Pow2Monotone(a: nat, b: nat)
    requires a <= b
    ensures Pow2(a) <= Pow2(b)
  {
    if a < b {
      Pow2Monotone(a, b - 1);
    }
  }

  lemma Pow2Step(k: nat, p: nat)
    requires Pow2(k) == p
    ensures Pow2(2 * k + 1) == 2 * (p * p) && Pow2(2 * k) == p * p
  {
    Pow2Double(k);
    assert Pow2(2 * k + 1) == 2 * Pow2(2 * k);
  }

  lemma Pow2Values()
    ensures Pow2(62) == 0x4000_0000_0000_0000 && Pow2(63) == 0x8000_0000_0000_0000
  {
    Pow2Step(0, 1);
    Pow2Step(1, 2);
    Pow2Step(3, 8);
    Pow2Step(7, 128);
    Pow2Step(15, 0x8000);
    Pow2Step(31, 0x8000_0000);
  }

  lemma Fls64Below(x: nat)
    requires x < 0x8000_0000_0000_0000
    ensures Fls64(x) <= 63
  {
    Pow2Values();
    if Fls64(x) > 63 {
      Pow2Monotone(63, Fls64(x) - 1);
    }
  }

  /**
   * The state of the loop: root is the part of the result found so far, a multiple of 2p or 0; the result lies
   * between root and root + 2p; x is what is left of the input, and y is 2 * p * root.
   */
  ghost predicate Halfway(input: nat, root: nat, p: nat, m: nat, x: nat, y: nat) {
    && p > 0 && m == p * p && y == 2 * (root * p)
    && root * root + x == input < (root + 2 * p) * (root + 2 * p)
    && (root == 0 || root >= 2 * p)
  }

  /** One round decides the next bit p of the root. */
  lemma NextBit(input: nat, root: nat, p: nat, m: nat, x: nat, y: nat)
    requires Halfway(input, root, p, m, x, y)
    ensures x >= y + m <==> (root + p) * (root + p) <= input
    ensures (root + p) * (root + p) == root * root + y + m
    ensures y / 2 == root * p && y / 2 + m == (root + p) * p
  {
    assert (root + p) * (root + p) == root * root + 2 * (root * p) + p * p;
    assert (root + p) * p == root * p + p * p;
  }

  /** The sum y + m of a round fits 64 bits when the input is below 2^63. */
  lemma NoCarry(input: nat, root: nat, p: nat, m: nat, x: nat, y: nat)
    requires Halfway(input, root, p, m, x, y)
    requires input < 0x8000_0000_0000_0000 && m <= 0x4000_0000_0000_0000
    ensures y + m < U64_RANGE
  {
    if root >= 2 * p {
      assert root * root >= root * (2 * p);
      assert root * (2 * p) == y;
      assert p * root >= p * (2 * p);
      assert y >= 4 * m;
    } else {
      assert root * p == 0;
    }
  }

  lemma HalveBit(p: nat)
    requires p > 1 && p % 2 == 0
    ensures (p * p) / 4 == (p / 2) * (p / 2)
  {
    var q := p / 2;
    assert p == 2 * q;
    assert p * p == 4 * (q * q);
  }

  /** A root known to a multiple of p, seen from the next lower bit. */
  lemma LowerBit(input: nat, root: nat, k: nat, m: nat, x: nat, y: nat)
    requires k > 0 && m == Pow2(k) * Pow2(k) && y == root * Pow2(k)
    requires root * root + x == input < (root + Pow2(k)) * (root + Pow2(k))
    requires root == 0 || root >= Pow2(k)
    ensures Halfway(input, root, Pow2(k - 1), m / 4, x, y)
  {
    var q := Pow2(k - 1);
    assert Pow2(k) == 2 * q;
    HalveBit(2 * q);
    assert root * (2 * q) == 2 * (root * q);
  }

  /** After bit Pow2(k) is decided, root is known to a multiple of it: go on with the next bit, or stop. */
  lemma Decided(input: nat, root: nat, k: nat, m: nat, x: nat, y: nat)
    requires m == Pow2(k) * Pow2(k) && y == root * Pow2(k)
    requires root * root + x == input < (root + Pow2(k)) * (root + Pow2(k))
    requires root == 0 || root >= Pow2(k)
    ensures k > 0 ==> Halfway(input, root, Pow2(k - 1), m / 4, x, y)
    ensures k == 0 ==> m == 1 && y * y <= input < (y + 1) * (y + 1)
  {
    if k > 0 {
      LowerBit(input, root, k, m, x, y);
    } else {
      assert y == root;
    }
  }

  /** One round of the loop decides one bit. */
  lemma RoundKeeps(input: nat, root: nat, k: nat, m: nat, x: nat, y: nat)
    requires Halfway(input, root, Pow2(k), m, x, y)
    ensures x >= y + m ==>
              && (k > 0 ==> Halfway(input, root + Pow2(k), Pow2(k - 1), m / 4, x - (y + m), y / 2 + m))
              && (k == 0 ==> m == 1 && (y / 2 + m) * (y / 2 + m) <= input < (y / 2 + m + 1) * (y / 2 + m + 1))
    ensures x < y + m ==>
              && (k > 0 ==> Halfway(input, root, Pow2(k - 1), m / 4, x, y / 2))
              && (k == 0 ==> m == 1 && (y / 2) * (y / 2) <= input < (y / 2 + 1) * (y / 2 + 1))
  {
    var p := Pow2(k);
    NextBit(input, root, p, m, x, y);
    if x >= y + m {
      assert root + 2 * p == root + p + p;
      Decided(input, root + p, k, m, x - (y + m), y / 2 + m);
    } else {
      Decided(input, root, k, m, x, y / 2);
    }
  }

  lemma FirstBitFits(input: nat, k: nat)
    requires input < 0x8000_0000_0000_0000 && 2 * k <= Fls64(input) <= 2 * k + 1
    ensures Pow2(2 * k) <= 0x4000_0000_0000_0000
  {
    Fls64Below(input);
    Pow2Monotone(2 * k, 62);
    Pow2Values();
  }

  lemma Start(input: nat, p: nat, m: nat)
    requires p > 0 && m == p * p && input < 2 * m
    ensures Halfway(input, 0, p, m, input, 0)
  {
    assert (0 + 2 * p) * (0 + 2 * p) == 4 * m;
    assert 0 * p == 0;
  }

  /** The first bit is the highest power of four that can matter. */
  lemma FirstBit(input: nat, k: nat)
    requires 2 * k <= Fls64(input) <= 2 * k + 1
    ensures Halfway(input, 0, Pow2(k), Pow2(2 * k), input, 0)
  {
    Pow2Double(k);
    Pow2Monotone(Fls64(input), 2 * k + 1);
    assert Pow2(2 * k + 1) == 2 * Pow2(2 * k);
    Start(input, Pow2(k), Pow2(2 * k));
  }

  /** The variables of the loop, and one round of it. */
  datatype Loop = Loop(m: nat, x: nat, y: nat)

  function Round(l: Loop): Loop {
    if l.x >= l.y + l.m then Loop(l.m / 4, l.x - (l.y + l.m), l.y / 2 + l.m) else Loop(l.m / 4, l.x, l.y / 2)
  }

  /** What the loop returns. */
  function Result(l: Loop): nat
    decreases l.m
  {
    if l.m == 0 then l.y else Result(Round(l))
  }

  /** No sum y + m of the loop leaves 64 bits. */
  ghost predicate NeverCarries(l: Loop)
    decreases l.m
  {
    l.m == 0 || (l.y + l.m < U64_RANGE && NeverCarries(Round(l)))
  }

  lemma {:induction false} LoopFindsRoot(input: nat, root: nat, k: nat, l: Loop)
    requires input < 0x8000_0000_0000_0000 && l.m <= 0x4000_0000_0000_0000
    requires Halfway(input, root, Pow2(k), l.m, l.x, l.y)
    ensures Result(l) == FloorSqrt(input) && NeverCarries(l)
    decreases k
  {
    var root' := if l.x >= l.y + l.m then root + Pow2(k) else root;
    NoCarry(input, root, Pow2(k), l.m, l.x, l.y);
    RoundKeeps(input, root, k, l.m, l.x, l.y);
    PositiveSquare(Pow2(k));
    if k > 0 {
      LoopFindsRoot(input, root', k - 1, Round(l));
    } else {
      RootIsUnique(Round(l).y, input);
    }
  }

  lemma PositiveSquare(p: nat)
    requires p > 0
    ensures p * p > 0
  {
  }

  lemma EvenPart(n: nat)
    ensures n - n % 2 == 2 * (n / 2) && 2 * (n / 2) <= n <= 2 * (n / 2) + 1
  {
  }

  lemma StartFindsRoot(input: nat, m: nat)
    requires input < 0x8000_0000_0000_0000 && m == Pow2(Fls64(input) - Fls64(input) % 2)
    ensures m < U64_RANGE && Result(Loop(m, input, 0)) == FloorSqrt(input) && NeverCarries(Loop(m, input, 0))
  {
    var k := Fls64(input) / 2;
    EvenPart(Fls64(input));
    FirstBitFits(input, k);
    FirstBit(input, k);
    LoopFindsRoot(input, 0, k, Loop(m, input, 0));
  }

  /** The loop itself, in 64-bit arithmetic that never wraps. */
  method BitLoop(start: Loop) returns (y: u64)
    requires start.m < U64_RANGE && start.x < U64_RANGE && start.y == 0 && NeverCarries(start)
    ensures y == Result(start)
  {
    var m: u64, x: u64 := start.m, start.x;
    y := 0;
    while m != 0
      invariant Result(Loop(m, x, y)) == Result(start) && NeverCarries(Loop(m, x, y))
      decreases m
    {
      ghost var l := Loop(m, x, y);
      var b: u64 := y + m;
      y := y / 2;
      if x >= b {
        x := x - b;
        y := y + m;
      }
      m := m / 4;
      assert Loop(m, x, y) == Round(l);
    }
  }

  /** The floored square root of every x below 2^63, by the bit loop whenever x exceeds the range of unsigned long. */
  method IntSqrt64(x: u64, ulongMax: u64) returns (y: u64)
    requires x <= ulongMax || x < 0x8000_0000_0000_0000
    ensures y == FloorSqrt(x)
  {
    if x <= ulongMax {
      y := FloorSqrt(x);
    } else {
      var m := Pow2(Fls64(x) - Fls64(x) % 2);
      StartFindsRoot(x, m);
      y := BitLoop(Loop(m, x, 0));
    }
  }

  // ---------- the nearest average ----------

  /** The running statistics of one queue: bytes_cnt and flow_cnt. */
  datatype QueueStat = QueueStat(bytes: nat, flows: nat)

  function Average(s: QueueStat): nat
    requires s.flows > 0
  {
    s.bytes / s.flows
  }

  /** The floored square root of the 64-bit product of two averages. */
  function Threshold(here: nat, next: nat): nat {
    FloorSqrt((here * next) % U64_RANGE)
  }

  /** The loop of get_priority from queue i on, whose average is already known to be usable. */
  function Scan(stats: seq<QueueStat>, bytes: nat, i: nat): (q: nat)
    requires |stats| == QUEUES && i < QUEUES && stats[i].flows > 0
    ensures i <= q < QUEUES
    decreases QUEUES - i
  {
    if i == QUEUES - 1 then i
    else if stats[i + 1].flows == 0 then i + 1
    else
      var here, next := Average(stats[i]), Average(stats[i + 1]);
      if next <= here then i + 1
      else if bytes <= Threshold(here, next) then i
      else Scan(stats, bytes, i + 1)
  }

  function Priority(stats: seq<QueueStat>, bytes: nat): (q: nat)
    requires |stats| == QUEUES
    ensures q < QUEUES
  {
    if stats[0].flows == 0 || Average(stats[0]) == 0 then 0 else Scan(stats, bytes, 0)
  }

  /** How many queues, counted from 0, have averages that are positive and strictly increasing. */
  function OrderedPrefix(stats: seq<QueueStat>): (k: nat)
    requires |stats| == QUEUES
    ensures k <= QUEUES
  {
    if stats[0].flows == 0 || Average(stats[0]) == 0 then 0 else OrderedFrom(stats, 1)
  }

  function OrderedFrom(stats: seq<QueueStat>, i: nat): (k: nat)
    requires |stats| == QUEUES && 0 < i <= QUEUES && stats[i - 1].flows > 0
    ensures i <= k <= QUEUES
    ensures forall j :: i <= j < k ==> stats[j].flows > 0
    ensures forall j :: i <= j < k ==> AveragesRise(stats, j)
    ensures k < QUEUES ==> stats[k].flows == 0 || Average(stats[k]) <= Average(stats[k - 1])
    decreases QUEUES - i
  {
    if i == QUEUES || stats[i].flows == 0 || Average(stats[i]) <= Average(stats[i - 1]) then i
    else OrderedFrom(stats, i + 1)
  }

  predicate AveragesRise(stats: seq<QueueStat>, j: nat)
    requires 0 < j < |stats|
  {
    stats[j - 1].flows > 0 && stats[j].flows > 0 && Average(stats[j - 1]) < Average(stats[j])
  }

  ghost function Centres(stats: seq<QueueStat>, k: nat): (c: seq<real>)
    requires k <= |stats| && forall i :: 0 <= i < k ==> stats[i].flows > 0
    ensures |c| == k
    ensures forall i :: 0 <= i < k ==> c[i] == Average(stats[i]) as real
  {
    seq(k, i requires 0 <= i < k => Average(stats[i]) as real)
  }

  lemma ProductFits(a: nat, b: nat)
    requires a <= 0xffff_ffff && b <= 0xffff_ffff
    ensures a * b < U64_RANGE
  {
    TimesMonotone(b, a, 0xffff_ffff);
    assert 0xffff_ffff * b <= 0xffff_ffff * 0xffff_ffff;
  }

  lemma ThresholdOfSmall(product: nat, bytes: nat)
    requires product < U64_RANGE
    ensures bytes <= FloorSqrt(product % U64_RANGE) <==> bytes * bytes <= product
  {
    assert product % U64_RANGE == product;
    AtMostRoot(bytes, product);
  }

  lemma RootOfProduct(bytes: nat, a: nat, b: nat)
    requires a <= 0xffff_ffff && b <= 0xffff_ffff
    ensures bytes <= Threshold(a, b) <==> bytes * bytes <= a * b
  {
    ProductFits(a, b);
    ThresholdOfSmall(a * b, bytes);
  }

  lemma ProductsAsReals(x: nat, a: nat, b: nat)
    ensures x * x <= a * b <==> (x as real) * (x as real) <= (a as real) * (b as real)
  {
    assert (x * x) as real == (x as real) * (x as real);
    assert (a * b) as real == (a as real) * (b as real);
  }

  lemma IntegerMeanDecides(bytes: nat, a: nat, b: nat)
    requires bytes > 0 && 0 < a < b
    ensures AsNear(bytes as real, a as real, b as real) <==> bytes * bytes <= a * b
  {
    MeanDecides(bytes as real, a as real, b as real);
    ProductsAsReals(bytes, a, b);
  }

  /** Comparing with the floored square root of the 64-bit product decides which of two averages is nearer. */
  lemma RootDecides(bytes: nat, a: nat, b: nat)
    requires bytes > 0 && 0 < a < b < 0x1_0000_0000
    ensures bytes <= Threshold(a, b) <==> AsNear(bytes as real, a as real, b as real)
  {
    RootOfProduct(bytes, a, b);
    IntegerMeanDecides(bytes, a, b);
  }

  /** Averages below 2^32, so that the product of two fits 64 bits. */
  ghost predicate Moderate(stats: seq<QueueStat>) {
    forall i :: 0 <= i < |stats| && stats[i].flows > 0 ==> Average(stats[i]) < 0x1_0000_0000
  }

  lemma OrderedRises(stats: seq<QueueStat>)
    requires |stats| == QUEUES && OrderedPrefix(stats) > 0
    ensures forall i :: 0 <= i < OrderedPrefix(stats) ==> stats[i].flows > 0
    ensures forall i :: 0 < i < OrderedPrefix(stats) ==> AveragesRise(stats, i)
  {
  }

  lemma OrderedPositive(stats: seq<QueueStat>)
    requires |stats| == QUEUES && OrderedPrefix(stats) > 0
    ensures forall i :: 0 <= i < OrderedPrefix(stats) ==> stats[i].flows > 0 && Average(stats[i]) > 0
  {
    OrderedRises(stats);
    forall i | 0 < i < OrderedPrefix(stats)
      ensures Average(stats[i]) > 0
    {
      RisesAddUp(stats, OrderedPrefix(stats), 0, i);
    }
  }

  lemma OrderedCentres(stats: seq<QueueStat>)
    requires |stats| == QUEUES && OrderedPrefix(stats) > 0
    ensures forall i :: 0 <= i < OrderedPrefix(stats) ==> stats[i].flows > 0
    ensures Increasing(Centres(stats, OrderedPrefix(stats)))
  {
    var k := OrderedPrefix(stats);
    OrderedRises(stats);
    forall i, j | 0 <= i < j < k
      ensures Average(stats[i]) < Average(stats[j])
    {
      RisesAddUp(stats, k, i, j);
    }
  }

  lemma {:induction false} RisesAddUp(stats: seq<QueueStat>, k: nat, i: nat, j: nat)
    requires i < j < k <= |stats| && forall l :: 1 <= l < k ==> AveragesRise(stats, l)
    ensures stats[i].flows > 0 && stats[j].flows > 0 && Average(stats[i]) < Average(stats[j])
  {
    assert AveragesRise(stats, j);
    if i < j - 1 {
      RisesAddUp(stats, k, i, j - 1);
    }
  }

  /** Queue i is at least as near to the byte count as queue i + 1. */
  predicate BeatsNext(stats: seq<QueueStat>, bytes: nat, i: nat)
    requires i + 1 < |stats| && stats[i].flows > 0 && stats[i + 1].flows > 0
  {
    AsNear(bytes as real, Average(stats[i]) as real, Average(stats[i + 1]) as real)
  }

  lemma ScanStep(stats: seq<QueueStat>, bytes: nat, i: nat)
    requires |stats| == QUEUES && Moderate(stats) && bytes > 0
    requires i + 1 < QUEUES && AveragesRise(stats, i + 1) && Average(stats[i]) > 0
    ensures Scan(stats, bytes, i) == if BeatsNext(stats, bytes, i) then i else Scan(stats, bytes, i + 1)
  {
    RootDecides(bytes, Average(stats[i]), Average(stats[i + 1]));
  }

  /** Where the scan stops: at a queue that beats both neighbours, or one past the last ordered queue. */
  lemma {:induction false} ScanStops(stats: seq<QueueStat>, bytes: nat, k: nat, i: nat)
    requires |stats| == QUEUES && Moderate(stats) && bytes > 0 && i < k <= QUEUES
    requires forall j :: 0 <= j < k ==> stats[j].flows > 0 && Average(stats[j]) > 0
    requires forall j :: 0 < j < k ==> AveragesRise(stats, j)
    requires k < QUEUES ==> stats[k].flows == 0 || Average(stats[k]) <= Average(stats[k - 1])
    ensures
      var r := Scan(stats, bytes, i);
      var near := if r < k then r else k - 1;
      && i <= r <= k && (k < QUEUES ==> r != k - 1)
      && (near > i ==> !BeatsNext(stats, bytes, near - 1))
      && (near + 1 < k ==> BeatsNext(stats, bytes, near))
    decreases k - i
  {
    if i + 1 < k {
      ScanStep(stats, bytes, i);
      if !BeatsNext(stats, bytes, i) {
        ScanStops(stats, bytes, k, i + 1);
      }
    }
  }

  /** Queue i is as near to the byte count as queue j, and strictly nearer if j comes first. */
  predicate Preferred(stats: seq<QueueStat>, bytes: nat, i: nat, j: nat)
    requires i < |stats| && j < |stats| && stats[i].flows > 0 && stats[j].flows > 0
  {
    var w, here, there := bytes as real, Average(stats[i]) as real, Average(stats[j]) as real;
    AsNear(w, here, there) && (j < i ==> !AsNear(w, there, here))
  }

  lemma NeighboursSuffice(stats: seq<QueueStat>, bytes: nat, i: nat, j: nat)
    requires |stats| == QUEUES && bytes > 0 && i < OrderedPrefix(stats) && j < OrderedPrefix(stats)
    requires forall l :: 0 <= l < OrderedPrefix(stats) ==> stats[l].flows > 0
    requires i > 0 ==> !BeatsNext(stats, bytes, i - 1)
    requires i + 1 < OrderedPrefix(stats) ==> BeatsNext(stats, bytes, i)
    ensures Preferred(stats, bytes, i, j)
  {
    OrderedCentres(stats);
    NearestOfAll(bytes as real, Centres(stats, OrderedPrefix(stats)), i, j);
  }

  lemma PrefixEnds(stats: seq<QueueStat>, bytes: nat)
    requires |stats| == QUEUES && OrderedPrefix(stats) > 0
    ensures stats[0].flows > 0 && Priority(stats, bytes) == Scan(stats, bytes, 0)
    ensures
      var k := OrderedPrefix(stats);
      k < QUEUES ==>
        stats[k - 1].flows > 0 && (stats[k].flows == 0 || Average(stats[k]) <= Average(stats[k - 1]))
  {
  }

  lemma PriorityStops(stats: seq<QueueStat>, bytes: nat)
    requires |stats| == QUEUES && Moderate(stats) && bytes > 0 && OrderedPrefix(stats) > 0
    ensures forall l :: 0 <= l < OrderedPrefix(stats) ==> stats[l].flows > 0
    ensures
      var k, r := OrderedPrefix(stats), Priority(stats, bytes);
      var near := if r < k then r else k - 1;
      && r <= k && (k < QUEUES ==> r != k - 1)
      && (near > 0 ==> !BeatsNext(stats, bytes, near - 1))
      && (near + 1 < k ==> BeatsNext(stats, bytes, near))
  {
    OrderedRises(stats);
    OrderedPositive(stats);
    PrefixEnds(stats, bytes);
    ScanStops(stats, bytes, OrderedPrefix(stats), 0);
  }

  /**
   * Queue r is right for a byte count, as far as queue j is concerned: with k ordered queues, r is one of them or the
   * one after them, and r, or else the last ordered queue, is preferred to queue j.
   */
  predicate IsNearest(stats: seq<QueueStat>, bytes: nat, r: nat, j: nat)
    requires |stats| == QUEUES
  {
    var k := OrderedPrefix(stats);
    var near := if r < k then r else k - 1;
    && (k == 0 ==> r == 0)
    && (j < k ==>
          && r <= k && (k < QUEUES ==> r != k - 1)
          && stats[near].flows > 0 && stats[j].flows > 0
          && Preferred(stats, bytes, near, j))
  }

  /**
   * For every state of the statistics with averages below 2^32 and every positive byte count, the chosen queue is
   * the lowest one among the k ordered queues whose average is nearest in ratio, except that bytes nearest to the
   * last ordered queue move on to the next queue when there is one. With all eight averages positive and strictly
   * increasing k is 8, and the choice is simply the nearest queue.
   */
  lemma PriorityIsNearest(stats: seq<QueueStat>, bytes: nat, j: nat)
    requires |stats| == QUEUES && Moderate(stats) && bytes > 0
    ensures IsNearest(stats, bytes, Priority(stats, bytes), j)
  {
    var k, r := OrderedPrefix(stats), Priority(stats, bytes);
    if j < k {
      PriorityStops(stats, bytes);
      NeighboursSuffice(stats, bytes, if r < k then r else k - 1, j);
    }
  }

  /** The case the classifier is made for: eight positive, strictly increasing averages. */
  lemma EightQueuesNearest(stats: seq<QueueStat>, bytes: nat, j: nat)
    requires |stats| == QUEUES && Moderate(stats) && bytes > 0 && j < QUEUES
    requires stats[0].flows > 0 && Average(stats[0]) > 0
    requires forall i :: 0 < i < QUEUES ==> AveragesRise(stats, i)
    ensures
      var r := Priority(stats, bytes);
      stats[r].flows > 0 && stats[j].flows > 0 && Preferred(stats, bytes, r, j)
  {
    OrderedToTheEnd(stats, 1);
    PriorityIsNearest(stats, bytes, j);
  }

  lemma {:induction false} OrderedToTheEnd(stats: seq<QueueStat>, i: nat)
    requires |stats| == QUEUES && 0 < i <= QUEUES && stats[i - 1].flows > 0
    requires forall l :: i <= l < QUEUES ==> AveragesRise(stats, l)
    ensures OrderedFrom(stats, i) == QUEUES
    decreases QUEUES - i
  {
    if i < QUEUES {
      assert AveragesRise(stats, i);
      OrderedToTheEnd(stats, i + 1);
    }
  }

  // ---------- aged statistics ----------

  /** How many packets of at most 1500 bytes a payload stands for. */
  function PacketsIn(payload: nat): nat {
    (if payload > 0 then 1 else 0) + (if payload > 1500 then (payload - 1) / 1500 else 0)
  }

  function Halved(s: QueueStat): QueueStat {
    QueueStat(s.bytes / 2, s.flows / 2)
  }

  /** n packets of a flow that has sent `bytes` enter the statistics. */
  function Added(s: QueueStat, bytes: nat, n: nat): QueueStat {
    QueueStat(s.bytes + bytes * n, s.flows + n)
  }

  /** The update of the queue statistics by a packet of a flow that has sent `bytes`. */
  function Recorded(s: QueueStat, bytes: nat, payload: nat): QueueStat {
    var t := Added(s, bytes, PacketsIn(payload));
    if t.flows > AGING then Halved(t) else t
  }

  /** One aging step changes the average by less than rounding: from b / f to between (b - 1) / f and b / (f - 1). */
  lemma AgingKeepsRatio(s: QueueStat)
    requires s.flows > 1
    ensures (s.bytes - 1) * Halved(s).flows <= Halved(s).bytes * s.flows
    ensures Halved(s).bytes * (s.flows - 1) <= s.bytes * Halved(s).flows
  {
    HalvesCompare(s.bytes, s.flows, s.bytes / 2, s.flows / 2);
  }

  lemma HalvesCompare(b: nat, f: nat, c: nat, g: nat)
    requires 2 * c <= b <= 2 * c + 1 && 2 * g <= f <= 2 * g + 1 && f > 1
    ensures (b - 1) * g <= c * f && c * (f - 1) <= b * g
  {
    if b > 0 {
      CrossTimes(b - 1, g, c, f);
    }
    CrossTimes(f - 1, c, g, b);
  }

  lemma CrossTimes(x: nat, y: nat, c: nat, d: nat)
    requires x <= 2 * c && 2 * y <= d
    ensures x * y <= c * d
  {
    TimesMonotone(y, x, 2 * c);
    TimesMonotone(c, 2 * y, d);
  }

  datatype Record = Record(bytes: nat, payload: nat)

  function Recordings(s: QueueStat, rs: seq<Record>): QueueStat
    decreases |rs|
  {
    if rs == [] then s else Recordings(Recorded(s, rs[0].bytes, rs[0].payload), rs[1..])
  }

  ghost predicate InBand(rs: seq<Record>, lo: nat, hi: nat) {
    forall k :: 0 <= k < |rs| ==> lo <= rs[k].bytes <= hi
  }

  /** lo * f - 1 <= b <= hi * (f + 1). */
  predicate Within(s: QueueStat, lo: nat, hi: nat) {
    lo * s.flows <= s.bytes + 1 && s.bytes <= hi * s.flows + hi
  }

  lemma AddingStaysWithin(s: QueueStat, lo: nat, hi: nat, bytes: nat, n: nat)
    requires Within(s, lo, hi) && lo <= bytes <= hi
    ensures Within(Added(s, bytes, n), lo, hi)
  {
    assert lo * n <= bytes * n <= hi * n;
    assert lo * (s.flows + n) == lo * s.flows + lo * n;
    assert hi * (s.flows + n) == hi * s.flows + hi * n;
  }

  /** Halving rounds both counters, but the rounding errors do not add up. */
  lemma HalvingStaysWithin(s: QueueStat, lo: nat, hi: nat)
    requires Within(s, lo, hi)
    ensures Within(Halved(s), lo, hi)
  {
    var f, g := s.flows, s.flows / 2;
    if f == 2 * g {
      assert lo * f == 2 * (lo * g) && hi * f == 2 * (hi * g);
    } else {
      assert f == 2 * g + 1;
      assert lo * f == 2 * (lo * g) + lo && hi * f == 2 * (hi * g) + hi;
    }
  }

  /**
   * Over every run of updates whose byte counts lie in a band, the average stays in that band up to the error of
   * one rounding, no matter how often the counters were aged, and flow_cnt never exceeds 2560.
   */
  lemma {:induction false} RecordingsStayInBand(s: QueueStat, rs: seq<Record>, lo: nat, hi: nat)
    requires Within(s, lo, hi) && InBand(rs, lo, hi) && s.flows <= AGING
    requires forall k :: 0 <= k < |rs| ==> rs[k].payload <= 65535
    ensures Within(Recordings(s, rs), lo, hi)
    ensures Recordings(s, rs).flows <= AGING
    decreases |rs|
  {
    if rs != [] {
      var n := PacketsIn(rs[0].payload);
      AddingStaysWithin(s, lo, hi, rs[0].bytes, n);
      HalvingStaysWithin(Added(s, rs[0].bytes, n), lo, hi);
      RecordingsStayInBand(Recorded(s, rs[0].bytes, rs[0].payload), rs[1..], lo, hi);
    }
  }

  /** A recording leaves a positive count, whatever aging does. */
  lemma {:induction false} RecordingsArePositive(s: QueueStat, rs: seq<Record>)
    requires s.flows > 0 || rs != []
    requires forall k :: 0 <= k < |rs| ==> rs[k].payload > 0
    ensures Recordings(s, rs).flows > 0
    decreases |rs|
  {
    if rs != [] {
      RecordingsArePositive(Recorded(s, rs[0].bytes, rs[0].payload), rs[1..]);
    }
  }

  lemma QuotientBelow(b: nat, f: nat, bound: nat)
    requires f > 0 && b < bound * f
    ensures b / f < bound
  {
    assert (b / f) * f <= b;
    if b / f >= bound {
      TimesMonotone(f, bound, b / f);
    }
  }

  lemma TwiceIsMore(f: nat, hi: nat)
    requires f > 0
    ensures hi * f + hi < (2 * hi + 1) * f
  {
    TimesMonotone(hi, 1, f);
  }

  /** A band from 0 to hi keeps averages below twice hi. */
  lemma AverageWithin(s: QueueStat, hi: nat)
    requires Within(s, 0, hi) && s.flows > 0
    ensures Average(s) <= 2 * hi
  {
    TwiceIsMore(s.flows, hi);
    QuotientBelow(s.bytes, s.flows, 2 * hi + 1);
  }

  /** In such a run the signed 64-bit byte counter cannot overflow while flows send less than 2^51 bytes. */
  lemma BytesFit(s: QueueStat, lo: nat, hi: nat)
    requires Within(s, lo, hi) && s.flows <= AGING + 44 && hi < 0x8_0000_0000_0000
    ensures s.bytes < 0x8000_0000_0000_0000
  {
    TimesMonotone(hi, s.flows, 2604);
  }
}
