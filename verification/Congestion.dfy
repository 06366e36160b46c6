/** The congestion controllers of tcp-core/src/congestion.rs as functions of their state. Reno,
    DCTCP, Prague, the evolved-gain controller and the synthesised-law controller share one
    skeleton and differ in the responses selected by `law`. Windows are bounded 32-bit integers;
    floating point is modelled by real numbers with the truncating cast written out. */
module Congestion {
  import opened Serial
  import opened ControlLaw

  const U32_MAX: nat := 0xFFFF_FFFF

  datatype Genome = Genome(aiGain: real, mdLoss: real, ecnA: real, ecnB: real, ecnMax: real)

  datatype Law = Reno | Dctcp | Prague | Learned(p: Genome) | Synth(prog: ControlProgram)

  datatype Cc = Cc(law: Law, cwnd: nat, ssthresh: nat, mss: nat, caAcc: nat, dupAcks: nat,
                   alpha: real, ackedWin: nat, markedWin: nat, windowBytes: nat, srtt: nat, rttMin: nat)

  // ── machine arithmetic ──────────────────────────────────────────────────────────────────────

  function MinN(a: nat, b: nat): nat { if a <= b then a else b }

  function MaxN(a: nat, b: nat): nat { if a >= b then a else b }

  /** The `as u32` cast of a float: toward zero, saturating at both ends. */
  function Trunc(x: real): nat {
    if x < 0.0 then 0 else if x >= 4294967296.0 then U32_MAX else x.Floor
  }

  /** A product of floats, named so that proofs can keep it abstract. */
  function Times(x: real, y: real): real { x * y }

  function InitialWindow(mss: nat): nat { MinN(10 * mss, MaxN(2 * mss, 14600)) }

  function Sanitized(p: Genome): Genome {
    Genome(Clamp(p.aiGain, 0.05, 8.0), Clamp(p.mdLoss, 0.1, 0.95), Clamp(p.ecnA, 0.0, 2.0),
           Clamp(p.ecnB, -1.0, 2.0), Clamp(p.ecnMax, 0.05, 0.95))
  }

  /** A synthesised window as a u32: only the liveness floor and the overflow cap. */
  function ToCwnd(v: real, floor: nat): nat {
    if v < floor as real then floor else if v > CWND_CAP as real then CWND_CAP else v.Floor
  }

  // ── the parts that differ ───────────────────────────────────────────────────────────────────

  function Signals(c: Cc, flight: nat, acked: nat): seq<real> {
    var mss := MaxN(c.mss, 1) as real;
    [c.cwnd as real / mss, flight as real / mss, acked as real / mss, c.alpha,
     if c.rttMin > 0 && c.srtt > 0 then c.srtt as real / c.rttMin as real else 1.0,
     0.5, 1.0, 2.0]
  }

  /** Prague's RTT-independent additive step. */
  function PragueStep(c: Cc): nat {
    if c.srtt == 0 then c.mss
    else Trunc(Clamp(Times(c.mss as real, c.srtt as real / 25000.0), MaxN(c.mss / 4, 1) as real, (c.mss * 4) as real))
  }

  /** Bytes added per window of acknowledged bytes, by every law but the synthesised one. */
  function IntStep(c: Cc): nat {
    match c.law
    case Prague => PragueStep(c)
    case Learned(p) => MaxN(Trunc(Times(p.aiGain, c.mss as real)), 1)
    case _ => c.mss
  }

  /** The additive increase: an integer step with a saturating add, or a synthesised real step. */
  datatype Increase = Bytes(n: nat) | Real(v: real)

  function IncreaseOf(c: Cc, acked: nat): Increase {
    match c.law
    case Synth(prog) => Real(Times(Eval(prog.inc, Signals(c, c.cwnd, acked)), c.mss as real))
    case _ => Bytes(IntStep(c))
  }

  function Grow(inc: Increase, cwnd: nat, mss: nat): (grown: nat)
    requires cwnd > 0 && mss > 0
    ensures grown > 0
  {
    match inc
    case Bytes(n) => SatAdd(cwnd, n)
    case Real(v) => ToCwnd(cwnd as real + v, mss)
  }

  /** Release one increase for each window's worth of accumulated bytes. */
  function Drain(inc: Increase, cwnd: nat, acc: nat, mss: nat): (nat, nat)
    requires cwnd > 0 && mss > 0
    decreases acc
  {
    if acc < cwnd then (cwnd, acc) else Drain(inc, Grow(inc, cwnd, mss), acc - cwnd, mss)
  }

  function LossTarget(c: Cc, flight: nat): nat {
    match c.law
    case Learned(p) => MaxN(Trunc(Times(flight as real, p.mdLoss)), 2 * c.mss)
    case Synth(prog) => ToCwnd(Times(Eval(prog.md, Signals(c, flight, 0)), c.mss as real), 2 * c.mss)
    case _ => MaxN(flight / 2, 2 * c.mss)
  }

  /** The fraction of the window an ECN-marked round removes. */
  function EcnCut(c: Cc): real {
    match c.law
    case Learned(p) => Clamp(p.ecnA * c.alpha + p.ecnB * c.alpha * c.alpha, 0.0, p.ecnMax)
    case Synth(prog) => Eval(prog.ecn, Signals(c, c.cwnd, 0))
    case _ => c.alpha / 2.0
  }

  function CutWindow(c: Cc): nat {
    var v := Times(c.cwnd as real, 1.0 - EcnCut(c));
    if c.law.Synth? then ToCwnd(v, c.mss) else MaxN(Trunc(v), c.mss)
  }

  // ── the events ──────────────────────────────────────────────────────────────────────────────

  function Init(law: Law, mss: nat): Cc {
    Cc(law, InitialWindow(mss), U32_MAX, mss, 0, 0, 1.0, 0, 0, InitialWindow(mss), 0, 0)
  }

  predicate SlowStart(c: Cc) { c.cwnd < c.ssthresh }

  function OnAck(c0: Cc, acked: nat): Cc
    requires c0.cwnd > 0 && c0.mss > 0
  {
    var c := c0.(dupAcks := 0);
    if acked == 0 then c
    else if SlowStart(c) then c.(cwnd := SatAdd(c.cwnd, MinN(acked, c.mss)))
    else
      var (cwnd, acc) := Drain(IncreaseOf(c, acked), c.cwnd, SatAdd(c.caAcc, acked), c.mss);
      c.(cwnd := cwnd, caAcc := acc)
  }

  function Lose(c: Cc, flight: nat): Cc {
    c.(ssthresh := LossTarget(c, flight), cwnd := LossTarget(c, flight), caAcc := 0)
  }

  /** The new state, and whether this was the third duplicate. */
  function OnDupAck(c: Cc, flight: nat): (Cc, bool) {
    var d := c.(dupAcks := MinN(c.dupAcks + 1, 255));
    if d.dupAcks == 3 then (Lose(d, flight), true) else (d, false)
  }

  function EnterRecovery(c: Cc, flight: nat): Cc { Lose(c, flight).(dupAcks := 0) }

  function OnRto(c: Cc, flight: nat): Cc {
    c.(ssthresh := LossTarget(c, flight), cwnd := c.mss, caAcc := 0)
  }

  function SetMss(c: Cc, mss: nat): Cc { c.(mss := mss, cwnd := MaxN(c.cwnd, mss), caAcc := 0) }

  function OnEcn(c0: Cc, acked: nat, marked: nat): Cc {
    if acked == 0 || c0.law.Reno? then c0
    else
      var c := c0.(ackedWin := SatAdd(c0.ackedWin, acked), markedWin := SatAdd(c0.markedWin, MinN(marked, acked)));
      if c.ackedWin < c.windowBytes then c else CloseRound(c)
  }

  /** An observation window closed: refresh the estimate and cut at most once. */
  function CloseRound(c0: Cc): Cc
    requires c0.ackedWin > 0
  {
    var fraction := c0.markedWin as real / c0.ackedWin as real;
    var c := c0.(alpha := (1.0 - 1.0 / 16.0) * c0.alpha + 1.0 / 16.0 * fraction);
    var d := if c.markedWin > 0 then c.(cwnd := CutWindow(c), ssthresh := CutWindow(c), caAcc := 0) else c;
    d.(ackedWin := 0, markedWin := 0, windowBytes := MaxN(c0.cwnd, c.mss))
  }

  function OnRtt(c: Cc, srtt: nat): Cc {
    match c.law
    case Prague => c.(srtt := srtt)
    case Synth(_) =>
      if srtt == 0 then c.(srtt := 0)
      else c.(srtt := srtt, rttMin := if c.rttMin == 0 then srtt else MinN(c.rttMin, srtt))
    case _ => c
  }

  // ── the safety envelope ─────────────────────────────────────────────────────────────────────

  datatype Event = Ack(n: nat) | Ecn(n: nat, marked: nat) | Rtt(srtt: nat)
                 | DupAck(flight: nat) | Rto(flight: nat) | Recovery(flight: nat)

  function Apply(c: Cc, ev: Event): Cc
    requires c.cwnd > 0 && c.mss > 0
  {
    match ev
    case Ack(n) => OnAck(c, n)
    case Ecn(n, marked) => OnEcn(c, n, marked)
    case Rtt(s) => OnRtt(c, s)
    case DupAck(f) => OnDupAck(c, f).0
    case Rto(f) => OnRto(c, f)
    case Recovery(f) => EnterRecovery(c, f)
  }

  /** The event was a loss signal that engaged the loss response. */
  predicate IsLoss(c: Cc, ev: Event) {
    match ev
    case DupAck(f) => OnDupAck(c, f).1
    case Rto(_) => true
    case Recovery(_) => true
    case _ => false
  }

  function FlightOf(ev: Event): nat {
    match ev case DupAck(f) => f case Rto(f) => f case Recovery(f) => f case _ => 0
  }

  predicate LossBounded(c: Cc, ev: Event)
    requires c.cwnd > 0 && c.mss > 0
  {
    Apply(c, ev).cwnd <= MaxN(FlightOf(ev), 2 * c.mss)
  }

  /** The five clauses: no starvation; a loss never inflates the window past the flight; after a
      loss the threshold is at least two segments; a marked round never grows the window; a clean
      ACK never shrinks it. */
  predicate Safe(c: Cc, ev: Event)
    requires c.cwnd > 0 && c.mss > 0
  {
    var d := Apply(c, ev);
    && d.cwnd >= c.mss
    && (IsLoss(c, ev) ==> LossBounded(c, ev) && d.ssthresh >= 2 * c.mss)
    && (ev.Ecn? ==> d.cwnd <= c.cwnd)
    && (ev.Ack? && ev.n > 0 ==> d.cwnd >= c.cwnd)
  }

  /** What every event keeps. */
  predicate Inv(c: Cc) {
    && 0 < c.mss <= 0xFFFF && c.mss <= c.cwnd <= U32_MAX && c.ssthresh <= U32_MAX
    && 0.0 <= c.alpha <= 1.0
    && c.markedWin <= c.ackedWin <= U32_MAX && c.mss <= c.windowBytes && c.caAcc <= U32_MAX
  }

  /** The laws the repository runs: any sanitised genome, any program after the three repairs. */
  ghost predicate Trusted(law: Law) {
    match law
    case Learned(p) => exists raw :: p == Sanitized(raw)
    case Synth(prog) => exists raw :: prog == Repaired(raw)
    case _ => true
  }

  // ── small facts about the casts ─────────────────────────────────────────────────────────────

  lemma TruncBounds(x: real, m: nat)
    requires x <= m as real && m <= U32_MAX
    ensures Trunc(x) <= m
  {}

  lemma Shrinks(x: real, k: real)
    requires 0.0 <= x && 0.0 <= k <= 1.0
    ensures 0.0 <= Times(x, k) <= x
  {}

  lemma TruncOfFraction(n: nat, k: real)
    requires 0.0 <= k <= 1.0 && n <= U32_MAX
    ensures Trunc(Times(n as real, k)) <= n
  {
    hide Times;
    Shrinks(n as real, k);
    TruncBounds(Times(n as real, k), n);
  }

  lemma ToCwndOfFraction(n: nat, k: real, floor: nat)
    requires 0.0 <= k <= 1.0 && floor <= n && floor <= CWND_CAP
    ensures floor <= ToCwnd(Times(n as real, k), floor) <= n
  {
    hide Times;
    Shrinks(n as real, k);
    ToCwndBounds(Times(n as real, k), floor, n);
  }

  lemma ScaleBack(flight: nat, mss: nat, v: real)
    requires mss > 0 && v <= flight as real / mss as real
    ensures Times(v, mss as real) <= flight as real
  {
    assert flight as real / mss as real * mss as real == flight as real;
  }

  lemma ToCwndBounds(v: real, floor: nat, m: nat)
    requires floor <= CWND_CAP
    ensures floor <= ToCwnd(v, floor) <= CWND_CAP
    ensures v <= m as real ==> ToCwnd(v, floor) <= MaxN(m, floor)
    ensures m as real <= v && m <= CWND_CAP ==> m <= ToCwnd(v, floor)
  {}

  // ── clause by clause ────────────────────────────────────────────────────────────────────────

  lemma SynthLossIsSafe(c: Cc, raw: ControlProgram, flight: nat)
    requires Inv(c) && c.law == Synth(Repaired(raw)) && flight <= U32_MAX
    ensures 2 * c.mss <= LossTarget(c, flight) <= MaxN(flight, 2 * c.mss)
    ensures LossTarget(c, flight) <= U32_MAX
  {
    var s := Signals(c, flight, 0);
    SignalFlight(c, flight);
    RepairedLossIsBounded(raw, s);
    hide Repaired, ToCwnd, Signals, Eval, Times;
    LossProduct(Eval(Repaired(raw).md, s), flight, c.mss);
  }

  lemma SignalFlight(c: Cc, flight: nat)
    requires c.mss > 0
    ensures Signals(c, flight, 0)[R_FLIGHT] == flight as real / c.mss as real
    ensures Signals(c, flight, 0)[R_FLIGHT] >= 0.0
  {}

  lemma LossProduct(seg: real, flight: nat, mss: nat)
    requires 0 < mss <= 0xFFFF && seg <= flight as real / mss as real && flight <= U32_MAX
    ensures 2 * mss <= ToCwnd(Times(seg, mss as real), 2 * mss) <= MaxN(flight, 2 * mss)
    ensures ToCwnd(Times(seg, mss as real), 2 * mss) <= U32_MAX
  {
    ScaleBack(flight, mss, seg);
    hide Times;
    ToCwndBounds(Times(seg, mss as real), 2 * mss, flight);
  }

  lemma LearnedLossIsSafe(flight: nat, mdLoss: real, mss: nat)
    requires 0.0 <= mdLoss <= 1.0 && flight <= U32_MAX
    ensures MaxN(Trunc(Times(flight as real, mdLoss)), 2 * mss) <= MaxN(flight, 2 * mss)
  {
    TruncOfFraction(flight, mdLoss);
  }

  lemma LossIsSafe(c: Cc, flight: nat)
    requires Inv(c) && Trusted(c.law) && flight <= U32_MAX
    ensures 2 * c.mss <= LossTarget(c, flight) <= MaxN(flight, 2 * c.mss)
    ensures LossTarget(c, flight) <= U32_MAX
  {
    hide Eval, Repaired, Signals, ToCwnd, Trunc, Times;
    match c.law {
      case Learned(p) =>
        LearnedLossIsSafe(flight, p.mdLoss, c.mss);
      case Synth(prog) =>
        var raw :| prog == Repaired(raw);
        SynthLossIsSafe(c, raw, flight);
      case _ =>
    }
  }

  lemma CutIsFraction(c: Cc)
    requires Inv(c) && Trusted(c.law)
    ensures 0.0 <= EcnCut(c) <= 1.0
  {
    match c.law {
      case Synth(prog) =>
        var raw :| prog == Repaired(raw);
        RepairedEcnIsHalfAlpha(raw, Signals(c, c.cwnd, 0));
      case _ =>
    }
  }

  lemma CutIsSafe(c: Cc)
    requires Inv(c) && Trusted(c.law)
    ensures c.mss <= CutWindow(c) <= c.cwnd
  {
    CutIsFraction(c);
    hide EcnCut, ToCwnd, Trunc, Trusted, Times;
    var k := 1.0 - EcnCut(c);
    ToCwndOfFraction(c.cwnd, k, c.mss);
    TruncOfFraction(c.cwnd, k);
  }

  lemma AlphaStaysAFraction(alpha: real, marked: nat, acked: nat)
    requires 0.0 <= alpha <= 1.0 && marked <= acked && acked > 0
    ensures 0.0 <= (1.0 - 1.0 / 16.0) * alpha + 1.0 / 16.0 * (marked as real / acked as real) <= 1.0
  {
    assert 0.0 <= marked as real / acked as real <= 1.0;
  }

  lemma CloseRoundIsSafe(c: Cc)
    requires Inv(c) && Trusted(c.law) && c.ackedWin > 0
    ensures Inv(CloseRound(c)) && CloseRound(c).cwnd <= c.cwnd
    ensures CloseRound(c).law == c.law && CloseRound(c).mss == c.mss
  {
    AlphaStaysAFraction(c.alpha, c.markedWin, c.ackedWin);
    var fraction := c.markedWin as real / c.ackedWin as real;
    var c1 := c.(alpha := (1.0 - 1.0 / 16.0) * c.alpha + 1.0 / 16.0 * fraction);
    assert c1.alpha <= 1.0;
    assert Inv(c1);
    assert Trusted(c1.law);
    hide CutWindow, Trusted;
    CutIsSafe(c1);
  }

  lemma EcnIsSafe(c: Cc, acked: nat, marked: nat)
    requires Inv(c) && Trusted(c.law)
    ensures Inv(OnEcn(c, acked, marked)) && OnEcn(c, acked, marked).cwnd <= c.cwnd
    ensures OnEcn(c, acked, marked).law == c.law && OnEcn(c, acked, marked).mss == c.mss
  {
    hide CloseRound, Trusted;
    if acked > 0 && !c.law.Reno? {
      var d := c.(ackedWin := SatAdd(c.ackedWin, acked), markedWin := SatAdd(c.markedWin, MinN(marked, acked)));
      assert Inv(d);
      CloseRoundIsSafe(d);
    }
  }

  /** The increase a trusted law applies never takes the window down, up to the synthesis cap. */
  predicate Raises(inc: Increase) { inc.Real? ==> inc.v >= 0.0 }

  lemma IncreaseRaises(c: Cc, acked: nat)
    requires Inv(c) && Trusted(c.law)
    ensures Raises(IncreaseOf(c, acked))
  {
    match c.law {
      case Synth(prog) =>
        var raw :| prog == Repaired(raw);
        RepairedIncreaseIsPositive(raw, Signals(c, c.cwnd, acked));
      case _ =>
    }
  }

  lemma {:induction false} DrainRaises(inc: Increase, cwnd: nat, acc: nat, mss: nat)
    requires Raises(inc) && 0 < mss <= 0xFFFF && mss <= cwnd <= U32_MAX
    ensures mss <= Drain(inc, cwnd, acc, mss).0 <= U32_MAX && Drain(inc, cwnd, acc, mss).1 <= acc
    ensures inc.Bytes? || cwnd <= CWND_CAP || acc < cwnd ==> cwnd <= Drain(inc, cwnd, acc, mss).0
    ensures inc.Real? && cwnd > CWND_CAP && acc >= cwnd ==> Drain(inc, cwnd, acc, mss).0 == CWND_CAP
    ensures inc.Real? && cwnd <= CWND_CAP ==> Drain(inc, cwnd, acc, mss).0 <= CWND_CAP
    decreases acc
  {
    if acc >= cwnd {
      if inc.Real? { ToCwndBounds(cwnd as real + inc.v, mss, cwnd); }
      DrainRaises(inc, Grow(inc, cwnd, mss), acc - cwnd, mss);
    }
  }

  lemma AckKeepsInv(c: Cc, acked: nat)
    requires Inv(c) && Trusted(c.law)
    ensures Inv(OnAck(c, acked)) && OnAck(c, acked).law == c.law && OnAck(c, acked).mss == c.mss
  {
    var d := c.(dupAcks := 0);
    IncreaseRaises(d, acked);
    DrainRaises(IncreaseOf(d, acked), d.cwnd, SatAdd(d.caAcc, acked), d.mss);
  }

  /** A clean ACK shrinks the window of a trusted controller in one case only: a synthesised law,
      in congestion avoidance, whose window had grown past the synthesis cap, when the ACK
      completes a window's worth of bytes. Its checked conversion then pulls the window back. */
  lemma AckShrinksExactlyWhen(c: Cc, acked: nat)
    requires Inv(c) && Trusted(c.law)
    ensures OnAck(c, acked).cwnd < c.cwnd <==>
            (c.law.Synth? && acked > 0 && !SlowStart(c) && c.cwnd > CWND_CAP && SatAdd(c.caAcc, acked) >= c.cwnd)
  {
    var d := c.(dupAcks := 0);
    IncreaseRaises(d, acked);
    DrainRaises(IncreaseOf(d, acked), d.cwnd, SatAdd(d.caAcc, acked), d.mss);
  }

  predicate SmallEvent(ev: Event) { FlightOf(ev) <= U32_MAX }

  /** The one case of `AckShrinksExactlyWhen`. */
  predicate Overshoots(c: Cc, ev: Event) {
    ev.Ack? && ev.n > 0 && c.law.Synth? && !SlowStart(c) && c.cwnd > CWND_CAP && SatAdd(c.caAcc, ev.n) >= c.cwnd
  }

  /** One step: the invariant, and all five clauses in every case but that one. */
  lemma StepIsSafe(c: Cc, ev: Event)
    requires Inv(c) && Trusted(c.law) && SmallEvent(ev)
    ensures Inv(Apply(c, ev)) && Apply(c, ev).law == c.law && Apply(c, ev).mss == c.mss
    ensures Safe(c, ev) <==> !Overshoots(c, ev)
  {
    hide Trusted;
    match ev {
      case Ack(n) => AckKeepsInv(c, n); AckShrinksExactlyWhen(c, n);
      case Ecn(n, marked) => EcnIsSafe(c, n, marked);
      case Rtt(_) =>
      case DupAck(f) => LossIsSafe(c.(dupAcks := MinN(c.dupAcks + 1, 255)), f);
      case Rto(f) => LossIsSafe(c, f);
      case Recovery(f) => LossIsSafe(c, f);
    }
  }

  ghost predicate AllSafe(c: Cc, events: seq<Event>)
    decreases |events|
  {
    events == [] || (c.cwnd > 0 && c.mss > 0 && Safe(c, events[0]) && AllSafe(Apply(c, events[0]), events[1..]))
  }

  ghost predicate NeverOvershoots(c: Cc, events: seq<Event>)
    decreases |events|
  {
    events == [] || (c.cwnd > 0 && c.mss > 0 && !Overshoots(c, events[0])
                     && NeverOvershoots(Apply(c, events[0]), events[1..]))
  }

  /** The envelope holds after every event of an event sequence, of any length and with any byte
      counts, if and only if no ACK of it meets a synthesised law past the synthesis cap. */
  lemma {:induction false} EnvelopeHoldsForever(c: Cc, events: seq<Event>)
    requires Inv(c) && Trusted(c.law)
    requires forall i :: 0 <= i < |events| ==> SmallEvent(events[i])
    ensures AllSafe(c, events) <==> NeverOvershoots(c, events)
    decreases |events|
  {
    hide Safe, Overshoots, Trusted;
    if events != [] {
      StepIsSafe(c, events[0]);
      hide Apply;
      EnvelopeHoldsForever(Apply(c, events[0]), events[1..]);
    }
  }

  /** For every law but the synthesised one the envelope holds over every run. */
  lemma {:induction false} FixedLawsAreSafe(c: Cc, events: seq<Event>)
    requires Inv(c) && Trusted(c.law) && !c.law.Synth?
    requires forall i :: 0 <= i < |events| ==> SmallEvent(events[i])
    ensures AllSafe(c, events)
    decreases |events|
  {
    hide Safe, Trusted;
    if events != [] {
      StepIsSafe(c, events[0]);
      hide Apply;
      FixedLawsAreSafe(Apply(c, events[0]), events[1..]);
    }
  }

  /** Whatever the program, a lossless run from the start breaks the envelope: slow start takes the
      window past the cap, and the first ACK of a whole window takes it back. */
  lemma {:induction false} Breaks(c: Cc)
    requires Inv(c) && Trusted(c.law) && c.law.Synth? && c.ssthresh == U32_MAX
    ensures exists events: seq<Event> ::
              (forall i :: 0 <= i < |events| ==> SmallEvent(events[i])) && !AllSafe(c, events)
    decreases U32_MAX - c.cwnd
  {
    hide Trusted, Safe, Drain, IncreaseOf;
    if c.cwnd < U32_MAX {
      var ev := Ack(c.mss);
      StepIsSafe(c, ev);
      Breaks(Apply(c, ev));
      var rest: seq<Event> :| (forall i :: 0 <= i < |rest| ==> SmallEvent(rest[i])) && !AllSafe(Apply(c, ev), rest);
      assert ([ev] + rest)[0] == ev && ([ev] + rest)[1..] == rest;
      assert !AllSafe(c, [ev] + rest);
    } else {
      var ev := Ack(U32_MAX);
      StepIsSafe(c, ev);
      assert Overshoots(c, ev) && !AllSafe(c, [ev]);
    }
  }

  lemma EnvelopeCanBreak(raw: ControlProgram, mss: nat)
    requires 0 < mss <= 0xFFFF
    ensures exists events: seq<Event> ::
              && (forall i :: 0 <= i < |events| ==> SmallEvent(events[i]))
              && !AllSafe(Init(Synth(Repaired(raw)), mss), events)
  {
    hide Repaired, AllSafe;
    InitIsValid(Synth(Repaired(raw)), mss);
    Breaks(Init(Synth(Repaired(raw)), mss));
  }

  lemma InitIsValid(law: Law, mss: nat)
    requires 0 < mss <= 0xFFFF
    ensures Inv(Init(law, mss))
  {}

  // ── what sanitising is for ──────────────────────────────────────────────────────────────────

  /** No loss signal, at any 32-bit flight and in any valid state, inflates the window past the flight. */
  ghost predicate NeverInflates(law: Law) {
    forall c, ev :: Inv(c) && c.law == law && SmallEvent(ev) && IsLoss(c, ev) ==> LossBounded(c, ev)
  }

  /** A genome that was not sanitised keeps the second clause if and only if its loss gain, over the
      whole range of flights, never earns one octet. */
  lemma RawLossIsSafeExactlyWhen(p: Genome)
    ensures NeverInflates(Learned(p)) <==> Times((U32_MAX - 1) as real, p.mdLoss - 1.0) < 1.0
  {
    hide Times;
    if Times((U32_MAX - 1) as real, p.mdLoss - 1.0) < 1.0 {
      forall c, ev | Inv(c) && c.law == Learned(p) && SmallEvent(ev) && IsLoss(c, ev) ensures LossBounded(c, ev) {
        SmallGain(FlightOf(ev), p.mdLoss);
      }
    } else {
      var c, ev := Init(Learned(p), 1), Recovery(U32_MAX - 1);
      LargeGain(p.mdLoss);
      assert Inv(c) && SmallEvent(ev) && IsLoss(c, ev) && !LossBounded(c, ev);
    }
  }

  lemma SmallGain(flight: nat, gain: real)
    requires flight <= U32_MAX && Times((U32_MAX - 1) as real, gain - 1.0) < 1.0
    ensures Trunc(Times(flight as real, gain)) <= flight
  {
    hide Times;
    var f, d := flight as real, gain - 1.0;
    TimesGain(f, gain);
    if flight < U32_MAX && d > 0.0 {
      TimesGrows(f, (U32_MAX - 1) as real, d);
    } else if d <= 0.0 {
      TimesGrows(0.0, f, -d);
      TimesSigns(f, d);
    }
  }

  lemma TimesGain(x: real, gain: real)
    ensures Times(x, gain) == x + Times(x, gain - 1.0)
  {}

  lemma TimesGrows(x: real, y: real, k: real)
    requires 0.0 <= x <= y && k >= 0.0
    ensures Times(x, k) <= Times(y, k) && Times(0.0, k) == 0.0
  {}

  lemma TimesSigns(x: real, k: real)
    ensures Times(x, -k) == -Times(x, k)
  {}

  lemma LargeGain(gain: real)
    requires Times((U32_MAX - 1) as real, gain - 1.0) >= 1.0
    ensures Trunc(Times((U32_MAX - 1) as real, gain)) == U32_MAX
  {
    TimesGain((U32_MAX - 1) as real, gain);
    hide Times;
  }

  /** Without sanitising, a doubling loss gain inflates the window past the flight. */
  lemma UnsanitizedLossInflates()
    ensures var p := Genome(1.0, 2.0, 0.5, 0.0, 0.5); var c := Init(Learned(p), 1000);
            Inv(c) && !Safe(c, Recovery(10000)) && !NeverInflates(Learned(p))
  {
    var p := Genome(1.0, 2.0, 0.5, 0.0, 0.5);
    RawLossIsSafeExactlyWhen(p);
    assert LossTarget(Init(Learned(p), 1000), 10000) == 20000;
  }
}
