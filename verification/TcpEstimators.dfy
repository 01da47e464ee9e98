/**
 * The sender's estimators of tcp.cc: the fixed-point round-trip filter (section 2 of RFC 2988), the DCTCP estimator
 * of the marked fraction and the window cut that uses it (section 3.3 of RFC 8257).
 */
module TcpEstimators {
  import opened Basics
  import opened RealFacts

  // ---------- round-trip time ----------

  /** t_srtt_ with 3 and t_rttvar_ with 2 bits to the right of the binary point, and the multiplier t_backoff_. */
  datatype Rtt = Rtt(srtt: int, rttvar: int, backoff: nat)

  /** Truncation to a 16-bit signed number. */
  function Short(x: int): int {
    (x + 0x8000) % 0x1_0000 - 0x8000
  }

  /** The smoothed value itself, t_srtt_ >> T_SRTT_BITS. */
  function Smoothed(r: Rtt): int {
    r.srtt / 8
  }

  /** The change of t_srtt_ that a sample asks for. */
  function Delta(r: Rtt, sample: int): int {
    Short(sample - Smoothed(r))
  }

  /** rtt_update with the sample already in clock ticks. */
  function Sampled(r: Rtt, sample: int): Rtt {
    if r.srtt != 0 then
      var delta := Delta(r, sample);
      var deviation := if delta < 0 then Short(-delta) else delta;
      Rtt(AtLeastOne(r.srtt + delta), AtLeastOne(r.rttvar + Short(deviation - r.rttvar / 4)), r.backoff)
    else
      Rtt(sample * 8, sample * 2, r.backoff)
  }

  /** rtt_backoff; `more` says whether the timeout may still grow beyond a multiplier of 64. */
  function BackedOff(r: Rtt, more: bool): Rtt {
    var backoff := if r.backoff < 64 || more then r.backoff * 2 else r.backoff;
    if backoff > 8 then Rtt(0, r.rttvar + Smoothed(r), backoff) else r.(backoff := backoff)
  }

  function Truncated(x: real): int {
    if x >= 0.0 then x.Floor else -((-x).Floor)
  }

  /** A measured time in ticks, at least one: rounded with the timestamp option, else advanced by the tick offset. */
  function Ticks(time: real, tick: real, timestamps: bool, offset: real): int
    requires tick > 0.0
  {
    var ticks := if timestamps then Truncated(time / tick + 0.5) else Truncated((time + offset) / tick);
    if ticks < 1 then 1 else ticks
  }

  /** Dividing by the tick preserves bounds. */
  lemma Quotient(time: real, tick: real, bound: int)
    requires tick > 0.0
    ensures time <= bound as real * tick ==> time / tick <= bound as real
    ensures time >= bound as real * tick ==> time / tick >= bound as real
    ensures time < bound as real * tick ==> time / tick < bound as real
  {
    QuotientOrder(time, tick, bound as real);
  }

  /** A time of lo to hi ticks is measured as lo to hi. */
  lemma TicksWithin(time: real, tick: real, timestamps: bool, offset: real, lo: int, hi: int)
    requires tick > 0.0 && 0.0 <= offset < tick && 1 <= lo <= hi
    requires lo as real * tick <= time <= hi as real * tick
    ensures lo <= Ticks(time, tick, timestamps, offset) <= hi
  {
    assert (hi + 1) as real * tick == hi as real * tick + tick;
    Quotient(time, tick, lo);
    Quotient(time, tick, hi);
    Quotient(time + offset, tick, lo);
    Quotient(time + offset, tick, hi + 1);
  }

  datatype RttEvent = Sample(ticks: int) | Backoff(more: bool) | Acked

  function RttStep(r: Rtt, e: RttEvent): Rtt {
    match e
    case Sample(ticks) => Sampled(r, ticks)
    case Backoff(more) => BackedOff(r, more)
    case Acked => r.(backoff := 1)
  }

  function RttRun(r: Rtt, es: seq<RttEvent>): Rtt
    decreases |es|
  {
    if es == [] then r else RttRun(RttStep(r, es[0]), es[1..])
  }

  /** No estimate yet, or a smoothed time in the range of the samples. */
  predicate InRange(r: Rtt, lo: int, hi: int) {
    r.srtt == 0 || lo <= Smoothed(r) <= hi
  }

  predicate SamplesWithin(es: seq<RttEvent>, lo: int, hi: int) {
    forall k :: 0 <= k < |es| && es[k].Sample? ==> lo <= es[k].ticks <= hi
  }

  lemma ShortFits(x: int)
    requires -0x8000 <= x <= 0x7fff
    ensures Short(x) == x
  {
  }

  /** One sample keeps the smoothed time in range, and the clamp of t_srtt_ to 1 does not fire. */
  lemma SampledInRange(r: Rtt, sample: int, lo: int, hi: int)
    requires InRange(r, lo, hi) && 1 <= lo <= sample <= hi <= lo + 0x7fff
    ensures InRange(Sampled(r, sample), lo, hi) && Sampled(r, sample).srtt != 0
    ensures r.srtt != 0 ==> Sampled(r, sample).srtt == r.srtt + (sample - Smoothed(r)) > 0
  {
    if r.srtt != 0 {
      ShortFits(sample - Smoothed(r));
    }
  }

  predicate SomeSample(es: seq<RttEvent>) {
    exists k :: 0 <= k < |es| && es[k].Sample?
  }

  predicate NoBackoff(es: seq<RttEvent>) {
    forall k :: 0 <= k < |es| ==> !es[k].Backoff?
  }

  /**
   * Over every run of samples in [lo, hi] and timer backoffs, starting without an estimate or with one in range,
   * the smoothed round-trip time stays in [lo, hi]; without a backoff it exists from the first sample on.
   */
  lemma {:induction false} EstimateStaysWithin(r: Rtt, es: seq<RttEvent>, lo: int, hi: int)
    requires InRange(r, lo, hi) && SamplesWithin(es, lo, hi) && 1 <= lo <= hi <= lo + 0x7fff
    ensures InRange(RttRun(r, es), lo, hi)
    ensures NoBackoff(es) && (r.srtt != 0 || SomeSample(es)) ==> lo <= Smoothed(RttRun(r, es)) <= hi
    decreases |es|
  {
    if es != [] {
      if es[0].Sample? {
        SampledInRange(r, es[0].ticks, lo, hi);
      }
      assert forall k :: 0 < k < |es| ==> es[k] == es[1..][k - 1];
      EstimateStaysWithin(RttStep(r, es[0]), es[1..], lo, hi);
    }
  }

  /** The deviation estimate, while there is an estimate, lies between 0 and the largest sample. */
  predicate Steady(r: Rtt, hi: int) {
    r.srtt == 0 || 0 <= r.rttvar / 4 <= hi
  }

  lemma DeviationStep(rttvar: int, deviation: int, hi: int)
    requires 0 <= rttvar / 4 <= hi && 0 <= deviation <= hi && hi > 0
    ensures 0 <= AtLeastOne(rttvar + (deviation - rttvar / 4)) / 4 <= hi
  {
  }

  lemma SampledSteady(r: Rtt, sample: int, lo: int, hi: int)
    requires InRange(r, lo, hi) && Steady(r, hi) && 1 <= lo <= sample <= hi <= 0x7fff
    ensures Steady(Sampled(r, sample), hi)
  {
    if r.srtt != 0 {
      var delta := sample - Smoothed(r);
      var deviation := if delta < 0 then -delta else delta;
      ShortFits(delta);
      ShortFits(deviation);
      ShortFits(deviation - r.rttvar / 4);
      DeviationStep(r.rttvar, deviation, hi);
    }
  }

  lemma {:induction false} DeviationStaysWithin(r: Rtt, es: seq<RttEvent>, lo: int, hi: int)
    requires InRange(r, lo, hi) && Steady(r, hi) && SamplesWithin(es, lo, hi) && 1 <= lo <= hi <= 0x7fff
    ensures Steady(RttRun(r, es), hi)
    decreases |es|
  {
    if es != [] {
      if es[0].Sample? {
        SampledInRange(r, es[0].ticks, lo, hi);
        SampledSteady(r, es[0].ticks, lo, hi);
      }
      DeviationStaysWithin(RttStep(r, es[0]), es[1..], lo, hi);
    }
  }

  /** How far t_srtt_ is from the eight fixed-point values that stand for m. */
  function Distance(r: Rtt, m: int): nat {
    if r.srtt < 8 * m then 8 * m - r.srtt else if r.srtt > 8 * m + 7 then r.srtt - (8 * m + 7) else 0
  }

  function Repeated(m: int, n: nat): seq<RttEvent> {
    seq(n, _ => Sample(m))
  }

  /** One sample of m takes the estimate nearer to m, without overshooting, unless it is there already. */
  lemma SettleStep(r: Rtt, m: int)
    requires r.srtt > 0 && m >= 1 && -0x7fff <= m - Smoothed(r) <= 0x7fff
    ensures
      var t := Sampled(r, m);
      && t.srtt > 0 && -0x7fff <= m - Smoothed(t) <= 0x7fff
      && (Distance(t, m) < Distance(r, m) || Distance(t, m) == 0)
  {
    ShortFits(m - Smoothed(r));
    assert Sampled(r, m).srtt == r.srtt + (m - Smoothed(r));
  }

  /** Under a constant round-trip time the filter settles on exactly that value and stays there. */
  lemma {:induction false} Settles(r: Rtt, m: int, n: nat)
    requires r.srtt > 0 && m >= 1 && -0x7fff <= m - Smoothed(r) <= 0x7fff && n >= Distance(r, m)
    ensures Smoothed(RttRun(r, Repeated(m, n))) == m
    decreases n
  {
    if n > 0 {
      SettleStep(r, m);
      assert Repeated(m, n)[1..] == Repeated(m, n - 1);
      Settles(Sampled(r, m), m, n - 1);
    }
  }

  /** t_rtxcur_ in ticks, where scale is 2 to the power rttvar_exp_ + 1. */
  function Timeout(r: Rtt, scale: nat): int {
    (r.rttvar * scale + r.srtt) / 8
  }

  /** The timeout is never below the smoothed time; with the usual exponent 2 it adds four deviations. */
  lemma TimeoutCoversRoundTrip(r: Rtt, lo: int, hi: int, scale: nat)
    requires InRange(r, lo, hi) && Steady(r, hi) && r.srtt != 0
    ensures lo <= Smoothed(r) <= Timeout(r, scale)
    ensures scale == 8 ==> Timeout(r, scale) <= 5 * hi + 3
  {
    assert r.rttvar * scale >= 0;
  }

  // ---------- the marked fraction ----------

  /** ecnhat_alpha_, ecnhat_g_, ecnhat_smooth_alpha_ and the counts of the current observation window. */
  datatype Estimate = Estimate(alpha: real, gain: real, smooth: bool, marked: int, total: int, recalcSeq: int)

  /** An acknowledgement, with the sender's highest_ack_, ecnhat_maxseq and size_ when it arrives. */
  datatype Ack = Ack(echo: bool, ackNo: int, highestAck: int, maxSeq: int, segment: int)

  function AckedBytes(a: Ack): int {
    if a.ackNo - a.highestAck <= 0 then a.segment else a.ackNo - a.highestAck
  }

  function Mix(gain: real, alpha: real, fraction: real): real {
    (1.0 - gain) * alpha + gain * fraction
  }

  function Fraction(marked: int, total: int): real {
    if total > 0 then marked as real / total as real else 0.0
  }

  /** update_ecnhat_alpha. */
  function Estimated(s: Estimate, a: Ack): Estimate {
    if !s.smooth then s.(alpha := Mix(s.gain, s.alpha, if a.echo then 1.0 else 0.0))
    else
      var total := s.total + AckedBytes(a);
      var marked := if a.echo then s.marked + AckedBytes(a) else s.marked;
      if a.ackNo > s.recalcSeq then
        s.(alpha := Mix(s.gain, s.alpha, Fraction(marked, total)), marked := 0, total := 0, recalcSeq := a.maxSeq)
      else
        s.(marked := marked, total := total)
  }

  predicate Unit(x: real) {
    0.0 <= x <= 1.0
  }

  predicate OkEcn(s: Estimate) {
    Unit(s.gain) && Unit(s.alpha) && 0 <= s.marked <= s.total
  }

  lemma MixIsUnit(gain: real, alpha: real, fraction: real, lo: real, hi: real)
    requires Unit(gain) && lo <= alpha <= hi && lo <= fraction <= hi
    ensures lo <= Mix(gain, alpha, fraction) <= hi
  {
    Weighted(gain, alpha - lo, fraction - lo);
    Weighted(gain, hi - alpha, hi - fraction);
  }

  lemma Weighted(gain: real, a: real, b: real)
    requires Unit(gain) && a >= 0.0 && b >= 0.0
    ensures (1.0 - gain) * a + gain * b >= 0.0
  {
    Product(1.0 - gain, a);
    Product(gain, b);
  }

  lemma FractionIsUnit(marked: int, total: int)
    requires 0 <= marked <= total
    ensures Unit(Fraction(marked, total))
  {
    if total > 0 {
      QuotientOrder(marked as real, total as real, 1.0);
      QuotientOrder(marked as real, total as real, 0.0);
    }
  }

  lemma EstimatedOk(s: Estimate, a: Ack)
    requires OkEcn(s) && a.segment > 0
    ensures OkEcn(Estimated(s, a)) && Estimated(s, a).gain == s.gain && Estimated(s, a).smooth == s.smooth
  {
    var total := s.total + AckedBytes(a);
    var marked := if a.echo then s.marked + AckedBytes(a) else s.marked;
    FractionIsUnit(marked, total);
    MixIsUnit(s.gain, s.alpha, Fraction(marked, total), 0.0, 1.0);
    MixIsUnit(s.gain, s.alpha, if a.echo then 1.0 else 0.0, 0.0, 1.0);
  }

  function EcnRun(s: Estimate, acks: seq<Ack>): Estimate
    decreases |acks|
  {
    if acks == [] then s else EcnRun(Estimated(s, acks[0]), acks[1..])
  }

  ghost predicate Segments(acks: seq<Ack>) {
    forall k :: 0 <= k < |acks| ==> acks[k].segment > 0
  }

  /** In every run the marked bytes are among the total bytes, and the estimate is a fraction. */
  lemma {:induction false} EcnRunOk(s: Estimate, acks: seq<Ack>)
    requires OkEcn(s) && Segments(acks)
    ensures OkEcn(EcnRun(s, acks))
    decreases |acks|
  {
    if acks != [] {
      EstimatedOk(s, acks[0]);
      EcnRunOk(Estimated(s, acks[0]), acks[1..]);
    }
  }

  // ---------- the estimate as a moving average over windows ----------

  function BytesOf(acks: seq<Ack>, echoOnly: bool): int {
    if acks == [] then 0
    else
      var a := acks[|acks| - 1];
      BytesOf(acks[..|acks| - 1], echoOnly) + if a.echo || !echoOnly then AckedBytes(a) else 0
  }

  /** The marked fraction of every observation window that ends within `acks`, when `open` began the current one. */
  function WindowFractions(open: seq<Ack>, recalcSeq: int, acks: seq<Ack>): seq<real>
    decreases |acks|
  {
    if acks == [] then []
    else
      var window := open + [acks[0]];
      if acks[0].ackNo > recalcSeq then
        [Fraction(BytesOf(window, true), BytesOf(window, false))] + WindowFractions([], acks[0].maxSeq, acks[1..])
      else WindowFractions(window, recalcSeq, acks[1..])
  }

  function MovingAverage(gain: real, alpha: real, fractions: seq<real>): real
    decreases |fractions|
  {
    if fractions == [] then alpha else MovingAverage(gain, Mix(gain, alpha, fractions[0]), fractions[1..])
  }

  /** The estimate after a run is the exponentially weighted moving average of the windows' marked fractions. */
  lemma {:induction false} AlphaIsMovingAverage(s: Estimate, open: seq<Ack>, acks: seq<Ack>)
    requires s.smooth && s.marked == BytesOf(open, true) && s.total == BytesOf(open, false)
    ensures EcnRun(s, acks).alpha == MovingAverage(s.gain, s.alpha, WindowFractions(open, s.recalcSeq, acks))
    decreases |acks|
  {
    if acks != [] {
      var window := open + [acks[0]];
      assert window[..|open|] == open;
      var t := Estimated(s, acks[0]);
      if acks[0].ackNo > s.recalcSeq {
        var rest := WindowFractions([], acks[0].maxSeq, acks[1..]);
        var first := Fraction(BytesOf(window, true), BytesOf(window, false));
        assert ([first] + rest)[1..] == rest;
        AlphaIsMovingAverage(t, [], acks[1..]);
      } else {
        AlphaIsMovingAverage(t, window, acks[1..]);
      }
    }
  }

  function Power(x: real, n: nat): real {
    if n == 0 then 1.0 else x * Power(x, n - 1)
  }

  /** Windows with a constant marked fraction pull the estimate to it: the error shrinks by 1 - gain per window. */
  lemma {:induction false} ErrorShrinks(gain: real, alpha: real, fraction: real, n: nat)
    ensures MovingAverage(gain, alpha, seq(n, _ => fraction)) - fraction == Power(1.0 - gain, n) * (alpha - fraction)
    decreases n
  {
    if n > 0 {
      assert seq(n, _ => fraction)[1..] == seq(n - 1, _ => fraction);
      var next := Mix(gain, alpha, fraction);
      ErrorShrinks(gain, next, fraction, n - 1);
      assert next - fraction == (1.0 - gain) * (alpha - fraction);
      Reassociate(Power(1.0 - gain, n - 1), 1.0 - gain, alpha - fraction);
    }
  }

  lemma Reassociate(a: real, b: real, c: real)
    ensures a * (b * c) == (b * a) * c
  {
  }

  // ---------- the window cut ----------

  /** ecnhat_, precision_reduce_ and decrease_num_. */
  datatype Options = Options(ecnhat: bool, precise: bool, decrease: real)

  /** The window state of a sender; `timedOut` says whether the last window action was a timeout. */
  datatype Sender = Sender(
    options: Options, rtt: Rtt, ecn: Estimate, cwnd: real, wnd: real, ssthresh: int, recover: int, maxSeq: int,
    timedOut: bool, ecnBackoff: bool, firstDecrease: bool)

  /** The size-dependent exponent of LLDCT; None is the plain DCTCP cut. */
  datatype Lldct = Lldct(sizeMin: real, sizeMax: real, weightMin: real, weightMax: real, sent: real)

  function Windowd(s: Sender): real {
    if s.cwnd < s.wnd then s.cwnd else s.wnd
  }

  function Exponent(l: Lldct): real {
    if l.sent <= l.sizeMin then l.weightMax
    else if l.sent >= l.sizeMax then l.weightMin
    else l.weightMax - (l.sent - l.sizeMin) * (l.weightMax - l.weightMin) / (l.sizeMax - l.sizeMin)
  }

  predicate OkLldct(l: Lldct) {
    l.sizeMin <= l.sizeMax && 0.0 <= l.weightMin <= l.weightMax
  }

  /** The exponent interpolates between its two ends. */
  lemma ExponentBetween(l: Lldct)
    requires OkLldct(l)
    ensures l.weightMin <= Exponent(l) <= l.weightMax
  {
    if l.sizeMin < l.sent < l.sizeMax {
      var part, whole, span := l.sent - l.sizeMin, l.sizeMax - l.sizeMin, l.weightMax - l.weightMin;
      Monotone(span, part, whole);
      Monotone(span, 0.0, part);
      assert span * part == part * span && span * whole == whole * span;
      QuotientOrder(part * span, whole, span);
      QuotientOrder(part * span, whole, 0.0);
    }
  }

  /** Powers of fractions to non-negative exponents are fractions. */
  ghost predicate IsPower(pow: (real, real) -> real) {
    forall b, w :: Unit(b) && w >= 0.0 ==> Unit(pow(b, w))
  }

  /** The reduction factor that slowdown uses. */
  function Factor(pow: (real, real) -> real, alpha: real, l: Option<Lldct>): real {
    if l.Some? then pow(alpha, Exponent(l.value)) else alpha
  }

  function Reduced(window: real, factor: real): real {
    (1.0 - factor / 2.0) * window
  }

  /** slowdown(CLOSE_CWND_ECNHAT | CLOSE_SSTHRESH_ECNHAT). */
  function Cut(s: Sender, factor: real): Sender {
    var target := Reduced(Windowd(s), factor);
    var threshold := Truncated(target);
    s.(cwnd := if target < 1.0 then 1.0 else target, ssthresh := if threshold < 2 then 2 else threshold,
       firstDecrease := false)
  }

  /** Half of the window, in whole segments unless the sender is precise. */
  function HalfWindow(s: Sender): real {
    if s.options.precise then Windowd(s) / 2.0 else Truncated(Truncated(Windowd(s)) as real / 2.0) as real
  }

  function Scaled(d: real, w: real): real {
    d * w
  }

  function DecreasedWindow(s: Sender): real {
    if s.options.precise then Scaled(s.options.decrease, Windowd(s))
    else Truncated(Scaled(s.options.decrease, Truncated(Windowd(s)) as real)) as real
  }

  /** slowdown(CLOSE_CWND_HALF | CLOSE_SSTHRESH_HALF) when the last window action was no timeout. */
  function Halved(s: Sender): Sender {
    var early := s.firstDecrease || s.cwnd < s.ssthresh as real;
    var threshold := Truncated(if early then HalfWindow(s) else DecreasedWindow(s));
    var target := if early || s.options.decrease == 0.5 then HalfWindow(s) else DecreasedWindow(s);
    s.(cwnd := if target < 1.0 then 1.0 else target, ssthresh := if threshold < 2 then 2 else threshold,
       firstDecrease := false)
  }

  /** ecn(); the factor is for senders with ecnhat_ set. */
  function Echoed(s: Sender, seqNo: int, more: bool, factor: real): Sender {
    if seqNo > s.recover || s.timedOut then
      var t := s.(recover := s.maxSeq, timedOut := false,
                  rtt := if s.cwnd <= 1.0 && s.ecnBackoff then BackedOff(s.rtt, more) else s.rtt,
                  ecnBackoff := s.cwnd <= 1.0);
      if s.options.ecnhat then Cut(t, factor) else Halved(t)
    else s
  }

  /** A cut takes at most half of the window, never adds to it beyond one segment, and leaves at least one segment. */
  lemma CutIsBounded(s: Sender, factor: real)
    requires Unit(factor)
    ensures Cut(s, factor).cwnd >= 1.0
    ensures Windowd(s) / 2.0 <= Cut(s, factor).cwnd <= Larger(1.0, Windowd(s))
    ensures Cut(s, factor).ssthresh >= 2
    ensures Cut(s, factor).ssthresh as real <= Larger(2.0, Cut(s, factor).cwnd)
  {
    TargetBetween(Windowd(s), factor);
  }

  lemma TargetBetween(w: real, factor: real)
    requires Unit(factor)
    ensures w >= 0.0 ==> w / 2.0 <= Reduced(w, factor) <= w
    ensures w < 0.0 ==> Reduced(w, factor) <= 0.0
  {
    if w >= 0.0 {
      Product(factor, w);
      Product(1.0 - factor, w);
    } else {
      Product(1.0 - factor / 2.0, -w);
    }
  }

  lemma TruncatedBetween(x: real)
    ensures x >= 0.0 ==> x - 1.0 < Truncated(x) as real <= x
    ensures x < 0.0 ==> Truncated(x) <= 0
  {
  }

  lemma HalfOfWhole(n: int)
    ensures n >= 0 ==> (n - 1) as real / 2.0 <= Truncated(n as real / 2.0) as real <= n as real / 2.0
    ensures n < 0 ==> Truncated(n as real / 2.0) <= 0
  {
    if n >= 0 {
      assert n as real / 2.0 == (n / 2) as real + (n % 2) as real / 2.0;
      assert (n as real / 2.0).Floor == n / 2;
    }
  }

  lemma HalfWindowBetween(s: Sender)
    ensures HalfWindow(s) <= Larger(1.0, Windowd(s))
    ensures Windowd(s) >= 0.0 ==> HalfWindow(s) >= Windowd(s) / 2.0 - if s.options.precise then 0.0 else 1.0
  {
    TruncatedBetween(Windowd(s));
    HalfOfWhole(Truncated(Windowd(s)));
  }

  lemma ScaledAtMost(d: real, w: real, bound: real)
    requires Unit(d) && w <= bound && 0.0 <= bound
    ensures Scaled(d, w) <= bound
  {
    if w >= 0.0 {
      Product(1.0 - d, w);
    } else {
      Product(d, -w);
    }
  }

  lemma DecreasedWindowAtMost(s: Sender)
    requires Unit(s.options.decrease)
    ensures DecreasedWindow(s) <= Larger(1.0, Windowd(s))
  {
    var d, w, bound := s.options.decrease, Windowd(s), Larger(1.0, Windowd(s));
    var whole := Truncated(w) as real;
    TruncatedBetween(w);
    ScaledAtMost(d, w, bound);
    ScaledAtMost(d, whole, bound);
    TruncatedBetween(Scaled(d, whole));
  }

  /** The classic cut leaves at least one segment too and adds nothing; a first cut takes at most half and rounding. */
  lemma HalvedIsBounded(s: Sender)
    requires Unit(s.options.decrease)
    ensures 1.0 <= Halved(s).cwnd <= Larger(1.0, Windowd(s)) && Halved(s).ssthresh >= 2
    ensures s.firstDecrease || s.options.decrease == 0.5 ==>
              Halved(s).cwnd >= Windowd(s) / 2.0 - if s.options.precise then 0.0 else 1.0
  {
    HalfWindowBetween(s);
    DecreasedWindowAtMost(s);
  }

  /** More congestion cuts at least as deep. */
  lemma CutIsMonotone(s: Sender, less: real, more: real)
    requires Unit(less) && Unit(more) && less <= more && Windowd(s) >= 0.0
    ensures Cut(s, more).cwnd <= Cut(s, less).cwnd
  {
    ReducedMonotone(Windowd(s), less, more);
  }

  lemma ReducedMonotone(w: real, less: real, more: real)
    requires w >= 0.0 && less <= more
    ensures Reduced(w, more) <= Reduced(w, less)
  {
    Monotone(w, 1.0 - more / 2.0, 1.0 - less / 2.0);
    assert w * (1.0 - more / 2.0) == Reduced(w, more) && w * (1.0 - less / 2.0) == Reduced(w, less);
  }

  lemma FactorIsUnit(pow: (real, real) -> real, alpha: real, l: Option<Lldct>)
    requires IsPower(pow) && Unit(alpha) && (l.Some? ==> OkLldct(l.value))
    ensures Unit(Factor(pow, alpha, l))
  {
    if l.Some? {
      ExponentBetween(l.value);
    }
  }

  // ---------- runs of a sender ----------

  /** WindowSet stands for whatever else sets window, threshold and recovery point; timedOut says if for a timeout. */
  datatype Event =
    | AckArrives(ack: Ack)
    | EchoArrives(seqNo: int, more: bool, lldct: Option<Lldct>)
    | WindowSet(cwnd: real, ssthresh: int, recover: int, timedOut: bool)
    | SegmentSent(seqNo: int)

  function SenderStep(pow: (real, real) -> real, s: Sender, e: Event): Sender {
    match e
    case AckArrives(ack) => s.(ecn := Estimated(s.ecn, ack))
    case EchoArrives(seqNo, more, lldct) => Echoed(s, seqNo, more, Factor(pow, s.ecn.alpha, lldct))
    case WindowSet(cwnd, ssthresh, recover, timedOut) =>
      s.(cwnd := cwnd, ssthresh := ssthresh, recover := recover, timedOut := timedOut)
    case SegmentSent(seqNo) => s.(maxSeq := if seqNo > s.maxSeq then seqNo else s.maxSeq)
  }

  function SenderRun(pow: (real, real) -> real, s: Sender, es: seq<Event>): Sender
    decreases |es|
  {
    if es == [] then s else SenderRun(pow, SenderStep(pow, s, es[0]), es[1..])
  }

  predicate OkEvent(e: Event) {
    match e
    case AckArrives(ack) => ack.segment > 0
    case EchoArrives(_, _, lldct) => lldct.Some? ==> OkLldct(lldct.value)
    case _ => true
  }

  /** Whether a congestion echo leads to a cut. */
  predicate CutsAt(s: Sender, e: Event) {
    e.EchoArrives? && (e.seqNo > s.recover || s.timedOut)
  }

  /** A cut that ecn() makes and its bounds. */
  ghost predicate BoundedCut(before: Sender, after: Sender) {
    && Unit(before.ecn.alpha)
    && 1.0 <= after.cwnd <= Larger(1.0, Windowd(before))
    && (before.options.ecnhat ==> after.cwnd >= Windowd(before) / 2.0)
  }

  /** The estimate is a fraction, and so is decrease_num_. */
  predicate OkSender(s: Sender) {
    OkEcn(s.ecn) && Unit(s.options.decrease)
  }

  lemma CutAtStep(pow: (real, real) -> real, s: Sender, e: Event)
    requires IsPower(pow) && OkSender(s) && OkEvent(e) && CutsAt(s, e)
    ensures BoundedCut(s, SenderStep(pow, s, e))
  {
    var t := s.(recover := s.maxSeq, timedOut := false,
                rtt := if s.cwnd <= 1.0 && s.ecnBackoff then BackedOff(s.rtt, e.more) else s.rtt,
                ecnBackoff := s.cwnd <= 1.0);
    var factor := Factor(pow, s.ecn.alpha, e.lldct);
    FactorIsUnit(pow, s.ecn.alpha, e.lldct);
    CutIsBounded(t, factor);
    HalvedIsBounded(t);
    assert SenderStep(pow, s, e) == if s.options.ecnhat then Cut(t, factor) else Halved(t);
  }

  lemma StepOk(pow: (real, real) -> real, s: Sender, e: Event)
    requires OkSender(s) && OkEvent(e)
    ensures OkSender(SenderStep(pow, s, e))
  {
    if e.AckArrives? {
      EstimatedOk(s.ecn, e.ack);
    }
  }

  /** After every run a further echo that cuts the window obeys the bounds of the cut. */
  lemma {:induction false} EveryCutIsBounded(pow: (real, real) -> real, s: Sender, es: seq<Event>, e: Event)
    requires IsPower(pow) && OkSender(s) && OkEvent(e) && forall k :: 0 <= k < |es| ==> OkEvent(es[k])
    requires CutsAt(SenderRun(pow, s, es), e)
    ensures BoundedCut(SenderRun(pow, s, es), SenderStep(pow, SenderRun(pow, s, es), e))
    decreases |es|
  {
    if es == [] {
      CutAtStep(pow, s, e);
    } else {
      StepOk(pow, s, es[0]);
      EveryCutIsBounded(pow, SenderStep(pow, s, es[0]), es[1..], e);
    }
  }

  /** No timeouts, and no recovery point below `limit`. */
  ghost predicate Undisturbed(es: seq<Event>, limit: int) {
    forall k :: 0 <= k < |es| && es[k].WindowSet? ==> !es[k].timedOut && es[k].recover >= limit
  }

  /** The events without the echoes of data up to `limit`. */
  function WithoutOldEchoes(es: seq<Event>, limit: int): seq<Event> {
    if es == [] then []
    else
      var rest := WithoutOldEchoes(es[1..], limit);
      if es[0].EchoArrives? && es[0].seqNo <= limit then rest else [es[0]] + rest
  }

  lemma {:induction false} OldEchoesDoNothing(pow: (real, real) -> real, s: Sender, es: seq<Event>, limit: int)
    requires s.recover >= limit && s.maxSeq >= limit && !s.timedOut && Undisturbed(es, limit)
    ensures SenderRun(pow, s, es) == SenderRun(pow, s, WithoutOldEchoes(es, limit))
    decreases |es|
  {
    if es != [] {
      var rest := WithoutOldEchoes(es[1..], limit);
      assert Undisturbed(es[1..], limit);
      OldEchoesDoNothing(pow, SenderStep(pow, s, es[0]), es[1..], limit);
      if es[0].EchoArrives? && es[0].seqNo <= limit {
        assert SenderStep(pow, s, es[0]) == s;
      } else {
        assert ([es[0]] + rest)[1..] == rest;
      }
    }
  }

  /** One cut per window of data: after a cut, echoes of data sent before it do nothing at all until a timeout. */
  lemma OneCutPerWindow(pow: (real, real) -> real, s: Sender, e: Event, es: seq<Event>)
    requires CutsAt(s, e) && Undisturbed(es, s.maxSeq)
    ensures SenderRun(pow, SenderStep(pow, s, e), es) ==
            SenderRun(pow, SenderStep(pow, s, e), WithoutOldEchoes(es, s.maxSeq))
  {
    OldEchoesDoNothing(pow, SenderStep(pow, s, e), es, s.maxSeq);
  }
}
