/** Exact laws of the TCP sender: first samples, deviation, backoff, ticks, timeout, windows cuts and their factors. */
module SenderLaws {
  import opened Basics
  import opened RealFacts
  import opened TcpEstimators

  // ---------- round-trip time ----------

  /** The first sample sets the smoothed time to itself and the deviation to half of it. */
  lemma FirstSample(r: Rtt, sample: int)
    requires r.srtt == 0
    ensures Sampled(r, sample).srtt == 8 * sample && Sampled(r, sample).rttvar == 2 * sample
    ensures Smoothed(Sampled(r, sample)) == sample && Sampled(r, sample).backoff == r.backoff
  {
  }

  /** A 16-bit difference is the difference itself up to a multiple of 2^16. */
  lemma ShortWraps(x: int)
    ensures -0x8000 <= Short(x) <= 0x7fff && (x - Short(x)) % 0x1_0000 == 0
  {
  }

  /**
   * Every later sample moves the smoothed time by an eighth of its distance, and the deviation by a quarter of the
   * distance between it and that distance, in fixed point and kept positive.
   */
  lemma LaterSample(r: Rtt, sample: int)
    requires r.srtt != 0 && -0x7fff <= sample - r.srtt / 8 <= 0x7fff && 0 <= r.rttvar <= 0x7fff
    ensures
      var t, error := Sampled(r, sample), sample - r.srtt / 8;
      var distance := if error < 0 then -error else error;
      && t.backoff == r.backoff
      && t.srtt == (if r.srtt + error >= 1 then r.srtt + error else 1)
      && t.rttvar == (if r.rttvar - r.rttvar / 4 + distance >= 1 then r.rttvar - r.rttvar / 4 + distance else 1)
  {
    var error := sample - r.srtt / 8;
    var distance := if error < 0 then -error else error;
    ShortFits(error);
    ShortFits(distance);
    ShortFits(distance - r.rttvar / 4);
  }

  function Doubled(n: nat): nat {
    if n == 0 then 1 else 2 * Doubled(n - 1)
  }

  function Backoffs(n: nat): seq<RttEvent> {
    seq(n, _ => Backoff(false))
  }

  lemma {:induction false} RunBackoff(r: Rtt, n: nat)
    ensures RttRun(r, Backoffs(n + 1)) == RttStep(RttRun(r, Backoffs(n)), Backoff(false))
    decreases n
  {
    assert Backoffs(n + 1)[0] == Backoff(false) && Backoffs(n + 1)[1..] == Backoffs(n);
    if n > 0 {
      assert Backoffs(n)[1..] == Backoffs(n - 1);
      RunBackoff(RttStep(r, Backoff(false)), n - 1);
    } else {
      assert Backoffs(0) == [];
    }
  }

  /**
   * Timeouts in a row double the multiplier from 1 up to 64; from the fourth on the estimate is dropped, and what it
   * was is added to the deviation.
   */
  lemma {:induction false} TimeoutsDouble(r: Rtt, n: nat)
    requires r.backoff == 1
    ensures
      var t := RttRun(r, Backoffs(n));
      && t.backoff == (if n < 6 then Doubled(n) else 64)
      && (if n < 4 then t.srtt == r.srtt && t.rttvar == r.rttvar
          else t.srtt == 0 && t.rttvar == r.rttvar + r.srtt / 8)
  {
    if n > 0 {
      TimeoutsDouble(r, n - 1);
      RunBackoff(r, n - 1);
      assert Doubled(1) == 2 && Doubled(2) == 4 && Doubled(3) == 8 && Doubled(4) == 16 && Doubled(5) == 32;
    }
  }

  /** A timer that may grow beyond 64 keeps doubling, and an acknowledgement resets it. */
  lemma BackoffGrows(r: Rtt)
    requires r.backoff >= 64
    ensures RttStep(r, Backoff(true)).backoff == 2 * r.backoff && RttStep(r, Backoff(false)).backoff == r.backoff
    ensures RttStep(r, Acked) == Rtt(r.srtt, r.rttvar, 1)
  {
  }

  /** With the usual exponent 2 the timeout is the smoothed time and four times the deviation. */
  lemma TimeoutIsFourDeviations(r: Rtt, scale: nat)
    ensures 8 * Timeout(r, scale) <= r.srtt + r.rttvar * scale < 8 * Timeout(r, scale) + 8
    ensures Timeout(r, 8) == r.srtt / 8 + r.rttvar
    ensures r.rttvar % 4 == 0 ==> Timeout(r, 8) == Smoothed(r) + 4 * (r.rttvar / 4)
  {
  }

  /** Times of at least a tick are rounded to the nearest tick with timestamps, and down after the offset without. */
  lemma TicksRound(time: real, tick: real, offset: real)
    requires tick > 0.0 && time >= tick && 0.0 <= offset < tick
    ensures
      var n := Ticks(time, tick, true, offset) as real;
      n * tick - tick / 2.0 <= time < n * tick + tick / 2.0
    ensures
      var n := Ticks(time, tick, false, offset) as real;
      n * tick <= time + offset < (n + 1.0) * tick
  {
    QuotientOrder(time, tick, 1.0);
    QuotientOrder(time + offset, tick, 1.0);
    RoundedQuotient(time, tick);
    FlooredQuotient(time + offset, tick);
  }

  lemma RoundedQuotient(time: real, tick: real)
    requires tick > 0.0
    ensures
      var n := (time / tick + 0.5).Floor as real;
      n * tick - tick / 2.0 <= time < n * tick + tick / 2.0
  {
    var n := (time / tick + 0.5).Floor as real;
    QuotientOrder(time, tick, n - 0.5);
    QuotientOrder(time, tick, n + 0.5);
    Halves(n, tick);
  }

  lemma FlooredQuotient(time: real, tick: real)
    requires tick > 0.0
    ensures
      var n := (time / tick).Floor as real;
      n * tick <= time < (n + 1.0) * tick
  {
    var n := (time / tick).Floor as real;
    QuotientOrder(time, tick, n);
    QuotientOrder(time, tick, n + 1.0);
  }

  lemma Halves(n: real, tick: real)
    ensures (n - 0.5) * tick == n * tick - tick / 2.0 && (n + 0.5) * tick == n * tick + tick / 2.0
  {
  }

  // ---------- the marked fraction ----------

  /** The marked fraction times the bytes is the marked bytes; without bytes it is 0. */
  lemma FractionOfBytes(marked: int, total: int)
    ensures total > 0 ==> Fraction(marked, total) * total as real == marked as real
    ensures total <= 0 ==> Fraction(marked, total) == 0.0
  {
  }

  /** New data acknowledges its bytes, and a duplicate acknowledgement counts as one segment. */
  lemma AckedBytesCases(a: Ack)
    ensures a.ackNo > a.highestAck ==> AckedBytes(a) == a.ackNo - a.highestAck
    ensures a.ackNo <= a.highestAck ==> AckedBytes(a) == a.segment
  {
  }

  /** Without smoothing, every acknowledgement pulls the estimate towards 1 or 0 by the gain. */
  lemma EachAckPulls(s: Estimate, a: Ack)
    requires !s.smooth
    ensures Estimated(s, a) == s.(alpha := Estimated(s, a).alpha)
    ensures a.echo ==> 1.0 - Estimated(s, a).alpha == (1.0 - s.gain) * (1.0 - s.alpha)
    ensures !a.echo ==> Estimated(s, a).alpha == (1.0 - s.gain) * s.alpha
  {
  }

  /** Within an observation window the counts grow, and its end moves the next end to the highest sequence number. */
  lemma WindowCounts(s: Estimate, a: Ack)
    requires s.smooth
    ensures a.ackNo <= s.recalcSeq ==>
              Estimated(s, a) == s.(total := s.total + AckedBytes(a),
                                    marked := s.marked + if a.echo then AckedBytes(a) else 0)
    ensures a.ackNo > s.recalcSeq ==>
              Estimated(s, a).recalcSeq == a.maxSeq && Estimated(s, a).total == 0 && Estimated(s, a).marked == 0
  {
  }

  // ---------- the ECN-hat cut ----------

  /** The window that a cut starts from is the smaller of cwnd_ and wnd_. */
  lemma WindowIsSmaller(s: Sender)
    ensures Windowd(s) <= s.cwnd && Windowd(s) <= s.wnd && (Windowd(s) == s.cwnd || Windowd(s) == s.wnd)
  {
  }

  /**
   * The depth of a cut is half of the factor: none for factor 0, half of the window for factor 1, and equal steps of
   * the factor take equal amounts off.
   */
  lemma CutDepth(w: real, a: real, b: real, step: real)
    ensures Reduced(w, 0.0) == w && Reduced(w, 1.0) == w / 2.0
    ensures Reduced(w, a) - Reduced(w, a + step) == Reduced(w, b) - Reduced(w, b + step)
  {
    Linear(w, a, step);
    Linear(w, b, step);
  }

  lemma Linear(w: real, a: real, step: real)
    ensures Reduced(w, a) - Reduced(w, a + step) == step / 2.0 * w
  {
  }

  /** After an ECN-hat cut the window is W - factor * W / 2 but at least 1, and the threshold its whole part or 2. */
  lemma CutIsExact(s: Sender, factor: real)
    requires Unit(factor) && Windowd(s) >= 0.0
    ensures
      var window := Windowd(s) - factor * Windowd(s) / 2.0;
      && Cut(s, factor).cwnd == (if window < 1.0 then 1.0 else window)
      && (window < 2.0 ==> Cut(s, factor).ssthresh == 2)
      && (window >= 2.0 ==> window - 1.0 < Cut(s, factor).ssthresh as real <= window)
    ensures
      var t := Cut(s, factor);
      t == s.(cwnd := t.cwnd, ssthresh := t.ssthresh, firstDecrease := false)
  {
    Depth(Windowd(s), factor);
    TruncatedBetween(Reduced(Windowd(s), factor));
    CutIsBounded(s, factor);
  }

  lemma Depth(w: real, factor: real)
    ensures Reduced(w, factor) == w - factor * w / 2.0
  {
  }

  /** The factor of DCTCP is the marked fraction; that of LLDCT is a power of it. */
  lemma FactorCases(pow: (real, real) -> real, alpha: real, l: Lldct)
    ensures Factor(pow, alpha, None) == alpha && Factor(pow, alpha, Some(l)) == pow(alpha, Exponent(l))
  {
  }

  /** The exponent of LLDCT falls linearly from its maximum at the small size to its minimum at the large size. */
  lemma ExponentIsLinear(l: Lldct)
    ensures l.sent <= l.sizeMin ==> Exponent(l) == l.weightMax
    ensures l.sizeMin < l.sent && l.sizeMax <= l.sent ==> Exponent(l) == l.weightMin
    ensures l.sizeMin < l.sent < l.sizeMax ==>
              (l.weightMax - Exponent(l)) * (l.sizeMax - l.sizeMin) ==
              (l.sent - l.sizeMin) * (l.weightMax - l.weightMin)
  {
  }

  // ---------- the classic cut ----------

  /** The first cut, and one during slow start, halves the window; later ones scale it by decrease_num_. */
  lemma HalvedIsExact(s: Sender)
    requires s.options.precise && Windowd(s) >= 0.0 && Unit(s.options.decrease)
    ensures
      var early := s.firstDecrease || s.cwnd < s.ssthresh as real;
      var window := if early then Windowd(s) / 2.0 else Scaled(s.options.decrease, Windowd(s));
      && Halved(s).cwnd == (if window < 1.0 then 1.0 else window)
      && (window < 2.0 ==> Halved(s).ssthresh == 2)
      && (window >= 2.0 ==> window - 1.0 < Halved(s).ssthresh as real <= window)
    ensures Halved(s) == s.(cwnd := Halved(s).cwnd, ssthresh := Halved(s).ssthresh, firstDecrease := false)
  {
    var w, d := Windowd(s), s.options.decrease;
    ScaledIs(d, w);
    TruncatedBetween(w / 2.0);
    TruncatedBetween(Scaled(d, w));
  }

  lemma ScaledIs(d: real, w: real)
    ensures Scaled(d, w) == d * w && (w >= 0.0 && d >= 0.0 ==> d * w >= 0.0) && (d == 0.5 ==> d * w == w / 2.0)
  {
  }

  /** A sender with whole windows does the same with the whole part of the window and of each result. */
  lemma WholeWindows(s: Sender)
    requires !s.options.precise && Windowd(s) >= 0.0 && Unit(s.options.decrease)
    ensures
      var whole, half := Windowd(s).Floor, HalfWindow(s);
      && whole as real / 2.0 - 1.0 < half <= whole as real / 2.0 && half == half.Floor as real
      && DecreasedWindow(s) == Scaled(s.options.decrease, whole as real).Floor as real
    ensures Halved(s).cwnd ==
            var early := s.firstDecrease || s.cwnd < s.ssthresh as real || s.options.decrease == 0.5;
            Larger(1.0, if early then HalfWindow(s) else DecreasedWindow(s))
  {
    var whole := Windowd(s).Floor as real;
    ScaledIs(s.options.decrease, whole);
    TruncatedBetween(whole / 2.0);
  }

  // ---------- ecn() ----------

  /**
   * A cut remembers the highest sequence number sent and forgets the timeout; an echo at a window of one segment is
   * noted at first, and backs off the timer from the second on.
   */
  lemma EchoNotes(pow: (real, real) -> real, s: Sender, seqNo: int, more: bool, l: Option<Lldct>)
    requires seqNo > s.recover || s.timedOut
    ensures
      var t := SenderStep(pow, s, EchoArrives(seqNo, more, l));
      && t.recover == s.maxSeq && !t.timedOut && (t.ecnBackoff <==> s.cwnd <= 1.0)
      && t.rtt == (if s.cwnd <= 1.0 && s.ecnBackoff then RttStep(s.rtt, Backoff(more)) else s.rtt)
      && t.ecn == s.ecn && t.wnd == s.wnd && t.maxSeq == s.maxSeq && t.options == s.options
  {
  }

  /** Echoes of data up to the recovery point change nothing, unless the last window action was a timeout. */
  lemma OldEchoIsIgnored(pow: (real, real) -> real, s: Sender, seqNo: int, more: bool, l: Option<Lldct>)
    requires seqNo <= s.recover && !s.timedOut
    ensures SenderStep(pow, s, EchoArrives(seqNo, more, l)) == s
  {
  }
}
