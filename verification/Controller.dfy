/** The controller object a connection holds: mutable windows, accumulators and estimates, the
    responses selected by the law. Every method is proved to compute the function of
    Congestion.dfy that specifies it. */
module ControllerImpl {
  import opened Serial
  import opened ControlLaw
  import opened Congestion

  lemma IncreaseIgnoresAcc(c: Cc, acc: nat, acked: nat)
    ensures IncreaseOf(c.(caAcc := acc), acked) == IncreaseOf(c, acked)
  {}

  class Controller {
    var law: Law
    var cwnd: nat
    var ssthresh: nat
    var mss: nat
    var caAcc: nat
    var dupAcks: nat
    var alpha: real
    var ackedWin: nat
    var markedWin: nat
    var windowBytes: nat
    var srtt: nat
    var rttMin: nat

    function View(): Cc
      reads this
    {
      Cc(law, cwnd, ssthresh, mss, caAcc, dupAcks, alpha, ackedWin, markedWin, windowBytes, srtt, rttMin)
    }

    constructor (law: Law, mss: nat)
      ensures View() == Init(law, mss)
    {
      this.law, this.mss := law, mss;
      cwnd, ssthresh, windowBytes := InitialWindow(mss), U32_MAX, InitialWindow(mss);
      caAcc, dupAcks, ackedWin, markedWin, srtt, rttMin := 0, 0, 0, 0, 0, 0;
      alpha := 1.0;
    }

    /** Slow start by the ACK, congestion avoidance by the byte. */
    method OnAck(acked: nat)
      requires cwnd > 0 && mss > 0
      modifies this
      ensures View() == Congestion.OnAck(old(View()), acked)
    {
      hide IncreaseOf, Grow, SatAdd;
      dupAcks := 0;
      if acked == 0 { return; }
      if cwnd < ssthresh {
        cwnd := SatAdd(cwnd, MinN(acked, mss));
      } else {
        caAcc := SatAdd(caAcc, acked);
        var inc := AdditiveIncrease(acked);
        IncreaseIgnoresAcc(old(View()).(dupAcks := 0), caAcc, acked);
        ghost var c, a := cwnd, caAcc;
        while caAcc >= cwnd
          invariant cwnd > 0 && mss == old(mss)
          invariant Drain(inc, cwnd, caAcc, mss) == Drain(inc, c, a, mss)
          invariant unchanged(`law, `ssthresh, `mss, `alpha, `ackedWin, `markedWin, `windowBytes, `srtt, `rttMin)
          invariant dupAcks == 0
          decreases caAcc
        {
          caAcc := caAcc - cwnd;
          cwnd := Grow(inc, cwnd, mss);
        }
      }
    }

    method AdditiveIncrease(acked: nat) returns (inc: Increase)
      ensures inc == IncreaseOf(View(), acked)
    {
      match law {
        case Synth(prog) =>
          var seg := RunProgram(prog.inc, Signals(View(), cwnd, acked));
          inc := Real(Times(seg, mss as real));
        case _ => inc := Bytes(IntStep(View()));
      }
    }

    /** The loss response: a new threshold from the flight. */
    method LossResponse(flight: nat) returns (target: nat)
      ensures target == LossTarget(View(), flight)
    {
      match law {
        case Learned(p) => target := MaxN(Trunc(Times(flight as real, p.mdLoss)), 2 * mss);
        case Synth(prog) =>
          var seg := RunProgram(prog.md, Signals(View(), flight, 0));
          target := ToCwnd(Times(seg, mss as real), 2 * mss);
        case _ => target := MaxN(flight / 2, 2 * mss);
      }
    }

    method OnDupAck(flight: nat) returns (third: bool)
      modifies this
      ensures (View(), third) == Congestion.OnDupAck(old(View()), flight)
    {
      hide LossTarget;
      dupAcks := MinN(dupAcks + 1, 255);
      third := dupAcks == 3;
      if third {
        ssthresh := LossResponse(flight);
        cwnd, caAcc := ssthresh, 0;
      }
    }

    method EnterRecovery(flight: nat)
      modifies this
      ensures View() == Congestion.EnterRecovery(old(View()), flight)
    {
      hide LossTarget;
      ssthresh := LossResponse(flight);
      cwnd, caAcc, dupAcks := ssthresh, 0, 0;
    }

    method OnRto(flight: nat)
      modifies this
      ensures View() == Congestion.OnRto(old(View()), flight)
    {
      hide LossTarget;
      ssthresh := LossResponse(flight);
      cwnd, caAcc := mss, 0;
    }

    method SetMss(mss: nat)
      modifies this
      ensures View() == Congestion.SetMss(old(View()), mss)
    {
      this.mss, cwnd, caAcc := mss, MaxN(cwnd, mss), 0;
    }

    /** The fraction a marked round removes. */
    method EcnFraction() returns (cut: real)
      ensures cut == EcnCut(View())
    {
      match law {
        case Learned(p) => cut := Clamp(p.ecnA * alpha + p.ecnB * alpha * alpha, 0.0, p.ecnMax);
        case Synth(prog) => cut := RunProgram(prog.ecn, Signals(View(), cwnd, 0));
        case _ => cut := alpha / 2.0;
      }
    }

    method EcnResponse() returns (reduced: nat)
      ensures reduced == CutWindow(View())
    {
      hide Times, Trunc, ToCwnd, EcnCut;
      var cut := EcnFraction();
      var v := Times(cwnd as real, 1.0 - cut);
      reduced := if law.Synth? then ToCwnd(v, mss) else MaxN(Trunc(v), mss);
    }

    /** Accumulate the marked fraction; at the end of an observation window refresh the estimate
        and cut at most once. */
    method OnEcn(acked: nat, marked: nat)
      modifies this
      ensures View() == Congestion.OnEcn(old(View()), acked, marked)
    {
      hide CutWindow;
      if acked == 0 || law.Reno? { return; }
      ackedWin := SatAdd(ackedWin, acked);
      markedWin := SatAdd(markedWin, MinN(marked, acked));
      if ackedWin < windowBytes { return; }
      var fraction := markedWin as real / ackedWin as real;
      alpha := (1.0 - 1.0 / 16.0) * alpha + 1.0 / 16.0 * fraction;
      var cwndBefore := cwnd;
      if markedWin > 0 {
        cwnd := EcnResponse();
        ssthresh, caAcc := cwnd, 0;
      }
      ackedWin, markedWin, windowBytes := 0, 0, MaxN(cwndBefore, mss);
    }

    method OnRttSample(sample: nat)
      modifies this
      ensures View() == OnRtt(old(View()), sample)
    {
      match law {
        case Prague => srtt := sample;
        case Synth(_) =>
          srtt := sample;
          if sample > 0 {
            rttMin := if rttMin == 0 then sample else MinN(rttMin, sample);
          }
        case _ =>
      }
    }
  }
}
