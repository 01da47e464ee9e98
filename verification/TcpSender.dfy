/** The fields of TcpAgent that the estimators use, and the methods that update them in place. */
module TcpSender {
  import opened Basics
  import opened RealFacts
  import opened TcpEstimators

  class TcpAgent {
    // Bound variables.
    const tick: real
    const timestamps: bool
    const gain: real
    const smooth: bool
    const options: Options
    const pow: (real, real) -> real

    var srtt: int
    var rttvar: int
    var backoff: nat
    var alpha: real
    var marked: int
    var total: int
    var recalcSeq: int
    var cwnd: real
    var wnd: real
    var ssthresh: int
    var recover: int
    var maxSeq: int
    var timedOut: bool
    var ecnBackoff: bool
    var firstDecrease: bool

    ghost function RttState(): Rtt
      reads this
    {
      Rtt(srtt, rttvar, backoff)
    }

    ghost function EcnState(): Estimate
      reads this
    {
      Estimate(alpha, gain, smooth, marked, total, recalcSeq)
    }

    ghost function Abs(): Sender
      reads this
    {
      Sender(options, RttState(), EcnState(), cwnd, wnd, ssthresh, recover, maxSeq, timedOut, ecnBackoff, firstDecrease)
    }

    ghost predicate Valid()
      reads this
    {
      tick > 0.0 && IsPower(pow) && OkEcn(EcnState()) && Unit(options.decrease)
    }

    constructor (tick: real, timestamps: bool, gain: real, alpha: real, smooth: bool, options: Options,
                 pow: (real, real) -> real, wnd: real)
      requires tick > 0.0 && Unit(gain) && Unit(alpha) && Unit(options.decrease) && IsPower(pow)
      ensures Valid() && this.tick == tick && this.timestamps == timestamps && this.pow == pow
      ensures Abs() == Sender(options, Rtt(0, 0, 1), Estimate(alpha, gain, smooth, 0, 0, 0), 0.0, wnd, 0, 0, 0,
                              false, false, true)
    {
      this.tick, this.timestamps, this.gain, this.alpha, this.smooth := tick, timestamps, gain, alpha, smooth;
      this.options, this.pow, this.wnd := options, pow, wnd;
      srtt, rttvar, backoff := 0, 0, 1;
      marked, total, recalcSeq := 0, 0, 0;
      cwnd, ssthresh, recover, maxSeq := 0.0, 0, 0, 0;
      timedOut, ecnBackoff, firstDecrease := false, false, true;
    }

    /** rtt_update: the measured time goes into the filter; offset is the part of a tick that the send time was past. */
    method RttUpdate(time: real, offset: real) returns (sample: int)
      requires Valid()
      modifies this`srtt, this`rttvar
      ensures Valid() && sample == Ticks(time, tick, timestamps, offset)
      ensures Abs() == old(Abs()).(rtt := Sampled(old(RttState()), sample))
    {
      if timestamps {
        sample := Truncated(time / tick + 0.5);
      } else {
        sample := Truncated((time + offset) / tick);
      }
      if sample < 1 {
        sample := 1;
      }
      Filter(sample);
    }

    method Filter(sample: int)
      modifies this`srtt, this`rttvar
      ensures RttState() == Sampled(old(RttState()), sample)
    {
      if srtt != 0 {
        var delta := Short(sample - srtt / 8);
        srtt := srtt + delta;
        if srtt <= 0 {
          srtt := 1;
        }
        if delta < 0 {
          delta := Short(-delta);
        }
        delta := Short(delta - rttvar / 4);
        rttvar := rttvar + delta;
        if rttvar <= 0 {
          rttvar := 1;
        }
      } else {
        srtt := sample * 8;
        rttvar := sample * 2;
      }
    }

    method RttBackoff(more: bool)
      requires Valid()
      modifies this`srtt, this`rttvar, this`backoff
      ensures Valid() && Abs() == old(Abs()).(rtt := BackedOff(old(RttState()), more))
    {
      if backoff < 64 || more {
        backoff := backoff * 2;
      }
      if backoff > 8 {
        rttvar := rttvar + srtt / 8;
        srtt := 0;
      }
    }

    /** The acknowledged bytes count, and as marked if the acknowledgement echoes congestion. */
    method Observe(a: Ack)
      modifies this`marked, this`total
      ensures total == old(total) + AckedBytes(a)
      ensures marked == old(marked) + if a.echo then AckedBytes(a) else 0
    {
      var acked := a.ackNo - a.highestAck;
      if acked <= 0 {
        acked := a.segment;
      }
      total := total + acked;
      if a.echo {
        marked := marked + acked;
      }
    }

    /** The end of an observation window. */
    method EndWindow(maxSeq: int)
      modifies this`alpha, this`marked, this`total, this`recalcSeq
      ensures alpha == Mix(gain, old(alpha), Fraction(old(marked), old(total)))
      ensures marked == total == 0 && recalcSeq == maxSeq
    {
      recalcSeq := maxSeq;
      var fraction := 0.0;
      if total > 0 {
        fraction := marked as real / total as real;
      }
      alpha := Mix(gain, alpha, fraction);
      marked := 0;
      total := 0;
    }

    /** update_ecnhat_alpha keeps the estimate a fraction. */
    method UpdateAlpha(a: Ack)
      requires Valid() && a.segment > 0
      modifies this`alpha, this`marked, this`total, this`recalcSeq
      ensures Valid() && Abs() == old(Abs()).(ecn := Estimated(old(EcnState()), a))
    {
      EstimatedOk(EcnState(), a);
      if !smooth {
        alpha := Mix(gain, alpha, if a.echo then 1.0 else 0.0);
      } else {
        Observe(a);
        if a.ackNo > recalcSeq {
          EndWindow(a.maxSeq);
        }
      }
    }

    /** halfwin and decreasewin. */
    method Windows() returns (half: real, decreased: real)
      ensures half == HalfWindow(Abs()) && decreased == DecreasedWindow(Abs())
    {
      var windowd := if cwnd < wnd then cwnd else wnd;
      if options.precise {
        half := windowd / 2.0;
        decreased := Scaled(options.decrease, windowd);
      } else {
        var window := Truncated(windowd);
        half := Truncated(window as real / 2.0) as real;
        decreased := Truncated(Scaled(options.decrease, window as real)) as real;
      }
    }

    /** The reduction factor: the estimate, or a power of it for LLDCT. */
    method ReductionFactor(lldct: Option<Lldct>) returns (b: real)
      ensures b == Factor(pow, alpha, lldct)
    {
      b := alpha;
      if lldct.Some? {
        b := pow(b, Exponent(lldct.value));
      }
    }

    /** Sets threshold and window, but at least 2 and 1. */
    method Set(threshold: int, window: real)
      modifies this`cwnd, this`ssthresh, this`firstDecrease
      ensures ssthresh == (if threshold < 2 then 2 else threshold) && cwnd == if window < 1.0 then 1.0 else window
      ensures !firstDecrease
    {
      ssthresh := if threshold < 2 then 2 else threshold;
      cwnd := if window < 1.0 then 1.0 else window;
      firstDecrease := false;
    }

    /** slowdown(CLOSE_CWND_ECNHAT | CLOSE_SSTHRESH_ECNHAT). */
    method SlowdownEcnhat(lldct: Option<Lldct>)
      modifies this`cwnd, this`ssthresh, this`firstDecrease
      ensures Abs() == Cut(old(Abs()), Factor(pow, alpha, lldct))
    {
      var b := ReductionFactor(lldct);
      var window := Reduced(if cwnd < wnd then cwnd else wnd, b);
      Set(Truncated(window), window);
    }

    /** slowdown(CLOSE_CWND_HALF | CLOSE_SSTHRESH_HALF) when the last window action was no timeout. */
    method SlowdownHalf()
      modifies this`cwnd, this`ssthresh, this`firstDecrease
      ensures Abs() == Halved(old(Abs()))
    {
      var early := firstDecrease || cwnd < ssthresh as real;
      var half, decreased := Windows();
      Set(Truncated(if early then half else decreased), if early || options.decrease == 0.5 then half else decreased);
    }

    /** slowdown with the flags that ecn() passes for the two kinds of sender. */
    method Slowdown(ecnhat: bool, lldct: Option<Lldct>)
      requires Valid() && (lldct.Some? ==> OkLldct(lldct.value))
      modifies this`cwnd, this`ssthresh, this`firstDecrease
      ensures Valid() && Abs() == if ecnhat then Cut(old(Abs()), Factor(pow, alpha, lldct)) else Halved(old(Abs()))
      ensures 1.0 <= cwnd <= Larger(1.0, Windowd(old(Abs())))
      ensures ecnhat ==> cwnd >= Windowd(old(Abs())) / 2.0
    {
      if ecnhat {
        FactorIsUnit(pow, alpha, lldct);
        CutIsBounded(Abs(), Factor(pow, alpha, lldct));
        SlowdownEcnhat(lldct);
      } else {
        HalvedIsBounded(Abs());
        SlowdownHalf();
      }
    }

    /** ecn(); `more` is passed on to rtt_backoff. */
    method Ecn(seqNo: int, more: bool, lldct: Option<Lldct>)
      requires Valid() && (lldct.Some? ==> OkLldct(lldct.value))
      modifies this
      ensures Valid() && Abs() == Echoed(old(Abs()), seqNo, more, Factor(pow, alpha, lldct))
    {
      if seqNo > recover || timedOut {
        recover := maxSeq;
        timedOut := false;
        if cwnd <= 1.0 {
          if ecnBackoff {
            RttBackoff(more);
          } else {
            ecnBackoff := true;
          }
        } else {
          ecnBackoff := false;
        }
        Slowdown(options.ecnhat, lldct);
      }
    }
  }
}
