/** What the controllers do to a window, in numbers: how much of the flight survives a loss, how much a
    window of acknowledged bytes buys, and what `alpha` estimates. Nothing here is said through the
    functions that compute it. */
module Responses {
  import opened Serial
  import opened ControlLaw
  import opened Congestion

  // ── loss ────────────────────────────────────────────────────────────────────────────────────

  /** `x` rounded down to a whole number. */
  predicate Whole(n: nat, x: real) { n as real <= x < n as real + 1.0 }

  /** The law halves the flight. */
  predicate Halves(law: Law) { law.Reno? || law.Dctcp? || law.Prague? }

  /** Half the flight, and at least two segments. */
  predicate Halved(target: nat, flight: nat, mss: nat) {
    if flight >= 4 * mss then flight - 1 <= 2 * target <= flight else target == 2 * mss
  }

  /** What is left of a flight after a loss: half of it; the part a genome keeps; or what a program
      answers, in segments. Never less than two segments. */
  predicate BacksOff(c: Cc, flight: nat, target: nat) {
    && target >= 2 * c.mss
    && match c.law
       case Learned(p) => if Times(flight as real, p.mdLoss) < (2 * c.mss) as real then target == 2 * c.mss
                          else Whole(target, Times(flight as real, p.mdLoss))
       case Synth(prog) =>
         var v := Times(Eval(prog.md, Signals(c, flight, 0)), c.mss as real);
         if v < (2 * c.mss) as real then target == 2 * c.mss
         else if v > CWND_CAP as real then target == CWND_CAP else Whole(target, v)
       case _ => Halved(target, flight, c.mss)
  }

  lemma TargetBacksOff(c: Cc, flight: nat)
    requires Inv(c) && Trusted(c.law) && flight <= U32_MAX
    ensures BacksOff(c, flight, LossTarget(c, flight))
  {
    hide BacksOff, LossTarget, Trusted;
    match c.law {
      case Learned(p) => GenomeBacksOff(c, flight);
      case Synth(prog) => ProgramBacksOff(c, flight);
      case _ => HalfBacksOff(c, flight);
    }
  }

  lemma HalfBacksOff(c: Cc, flight: nat)
    requires !c.law.Learned? && !c.law.Synth?
    ensures BacksOff(c, flight, LossTarget(c, flight))
  {}

  lemma GenomeBacksOff(c: Cc, flight: nat)
    requires Inv(c) && Trusted(c.law) && c.law.Learned? && flight <= U32_MAX
    ensures BacksOff(c, flight, LossTarget(c, flight))
  {
    Truncates(flight, c.law.p.mdLoss, c.mss);
    hide Trunc, Whole, Times;
  }

  lemma ProgramBacksOff(c: Cc, flight: nat)
    requires Inv(c) && c.law.Synth?
    ensures BacksOff(c, flight, LossTarget(c, flight))
  {
    ProgramTruncates(Eval(c.law.prog.md, Signals(c, flight, 0)), c.mss);
    hide Eval, Signals, ToCwnd, Whole, Times;
  }

  lemma ProgramTruncates(seg: real, mss: nat)
    requires 0 < mss <= 0xFFFF
    ensures var v := Times(seg, mss as real); var target := ToCwnd(v, 2 * mss);
            && target >= 2 * mss
            && if v < (2 * mss) as real then target == 2 * mss
               else if v > CWND_CAP as real then target == CWND_CAP else Whole(target, v)
  {
    hide Times;
  }

  lemma Truncates(flight: nat, gain: real, mss: nat)
    requires 0.1 <= gain <= 0.95 && flight <= U32_MAX && 0 < mss <= 0xFFFF
    ensures var x := Times(flight as real, gain); var target := MaxN(Trunc(x), 2 * mss);
            if x < (2 * mss) as real then target == 2 * mss else Whole(target, x)
  {
    Shrinks(flight as real, gain);
    hide Times;
    assert Whole(Trunc(Times(flight as real, gain)), Times(flight as real, gain));
  }

  /** The signal makes the controller respond: a timeout, a forced entry, or exactly the third
      duplicate. */
  predicate Responds(c: Cc, ev: Event) { ev.Rto? || ev.Recovery? || (ev.DupAck? && c.dupAcks == 2) }

  /** Every engaged loss response backs off: the threshold becomes what survives of the flight, the
      window becomes the threshold, or one segment after a timeout, and the accumulator is emptied.
      Another duplicate is only counted. */
  lemma LossBacksOff(c: Cc, ev: Event)
    requires Inv(c) && Trusted(c.law) && SmallEvent(ev) && (ev.DupAck? || ev.Rto? || ev.Recovery?)
    ensures var d := Apply(c, ev);
            if Responds(c, ev)
            then && IsLoss(c, ev) && BacksOff(c, FlightOf(ev), d.ssthresh) && d.caAcc == 0
                 && d.cwnd == (if ev.Rto? then c.mss else d.ssthresh)
                 && d.dupAcks == (if ev.Rto? then c.dupAcks else if ev.Recovery? then 0 else 3)
            else !IsLoss(c, ev) && d == c.(dupAcks := MinN(c.dupAcks + 1, 255))
  {
    hide LossTarget, BacksOff, Trusted;
    TargetBacksOff(c, FlightOf(ev));
    CountIgnored(c, MinN(c.dupAcks + 1, 255), FlightOf(ev));
  }

  lemma CountIgnored(c: Cc, k: nat, flight: nat)
    ensures LossTarget(c.(dupAcks := k), flight) == LossTarget(c, flight)
  {}

  /** The repository's own numbers: a third duplicate at a flight of twenty segments leaves ten. */
  lemma RenoHalvesTwenty()
    ensures var d := Apply(Init(Reno, 1000).(dupAcks := 2), DupAck(20000)); d.cwnd == d.ssthresh == 10000
  {}

  // ── growth ──────────────────────────────────────────────────────────────────────────────────

  /** The window of section 2 of RFC 6928: ten segments, at most 14600 octets, at least two segments. */
  lemma InitialWindowIs(law: Law, mss: nat)
    requires mss > 0
    ensures var w := Init(law, mss).cwnd;
            if mss <= 1460 then w == 10 * mss else if mss <= 7300 then w == 14600 else w == 2 * mss
    ensures var c := Init(law, mss);
            && (SlowStart(c) <==> c.cwnd < U32_MAX) && c.windowBytes == c.cwnd && c.alpha == 1.0
            && c.ackedWin == c.markedWin == c.caAcc == c.dupAcks == 0
  {}

  /** What one window's worth of bytes adds: a segment; a segment at a round trip of 25 ms and in
      proportion to it, between a quarter and four; or the part of a segment a genome asks for. */
  predicate StepOf(c: Cc, n: nat) {
    match c.law
    case Prague =>
      var x := Times(c.mss as real, c.srtt as real / 25000.0);
      var lo, hi := MaxN(c.mss / 4, 1), 4 * c.mss;
      if c.srtt == 0 then n == c.mss
      else if x < lo as real then n == lo else if x > hi as real then n == hi else Whole(n, x)
    case Learned(p) =>
      var x := Times(p.aiGain, c.mss as real);
      if x < 1.0 then n == 1 else Whole(n, x)
    case Synth(_) => false
    case _ => n == c.mss
  }

  lemma StepIsStep(c: Cc)
    requires Inv(c) && Trusted(c.law) && !c.law.Synth?
    ensures StepOf(c, IntStep(c))
  {
    match c.law {
      case Prague => PragueTruncates(c);
      case Learned(p) =>
        GainIsSmall(p.aiGain, c.mss);
        hide Times;
      case _ =>
    }
  }

  lemma GainIsSmall(gain: real, mss: nat)
    requires 0.0 <= gain <= 8.0 && mss <= 0xFFFF
    ensures 0.0 <= Times(gain, mss as real) <= 524280.0
  {
    assert gain * mss as real <= 8.0 * mss as real;
  }

  lemma PragueTruncates(c: Cc)
    requires 0 < c.mss <= 0xFFFF && c.law.Prague?
    ensures StepOf(c, IntStep(c))
  {
    hide Times;
    ClampTruncates(Times(c.mss as real, c.srtt as real / 25000.0), MaxN(c.mss / 4, 1), 4 * c.mss);
    hide Trunc, Clamp;
  }

  lemma ClampTruncates(x: real, lo: nat, hi: nat)
    requires lo <= hi <= U32_MAX
    ensures var n := Trunc(Clamp(x, lo as real, hi as real));
            if x < lo as real then n == lo else if x > hi as real then n == hi else Whole(n, x)
  {}

  /** The bytes of one window. */
  predicate OneWindow(c: Cc, n: nat) { c.cwnd <= c.caAcc + n < 2 * c.cwnd && c.caAcc + n <= U32_MAX }

  /** A clean ACK: in slow start the window grows by the bytes acknowledged, at most one segment; after
      it the bytes are counted, and each full window of them buys one step. */
  lemma AckGrows(c: Cc, n: nat, step: nat)
    requires Inv(c) && Trusted(c.law) && !c.law.Synth? && n > 0
    requires StepOf(c, step) && c.cwnd + MaxN(step, c.mss) <= U32_MAX
    ensures var d := OnAck(c, n);
            && (c.cwnd < c.ssthresh ==> d == c.(dupAcks := 0, cwnd := c.cwnd + (if n < c.mss then n else c.mss)))
            && (c.cwnd >= c.ssthresh && c.caAcc + n < c.cwnd ==> d == c.(dupAcks := 0, caAcc := c.caAcc + n))
            && (c.cwnd >= c.ssthresh && OneWindow(c, n) ==>
                  d == c.(dupAcks := 0, cwnd := c.cwnd + step, caAcc := c.caAcc + n - c.cwnd))
  {
    StepIsStep(c);
    OneStep(c, step, IntStep(c));
    var e := c.(dupAcks := 0);
    SameIncrease(c, e, n);
    hide IntStep, IncreaseOf, StepOf, Trusted, Inv;
    assert IncreaseOf(e, n) == Bytes(step);
    assert c.cwnd > 0 && c.mss > 0 by { InvPositive(c); }
    if c.cwnd >= c.ssthresh && OneWindow(c, n) { DrainsOnce(step, c.cwnd, c.caAcc + n, c.mss); }
  }

  lemma InvPositive(c: Cc)
    requires Inv(c)
    ensures c.cwnd > 0 && c.mss > 0 && c.cwnd <= U32_MAX
  {}

  lemma SameIncrease(c: Cc, e: Cc, n: nat)
    requires e == c.(dupAcks := 0) && !c.law.Synth?
    ensures IncreaseOf(e, n) == Bytes(IntStep(c))
  {
    hide Times, Trunc, Clamp;
  }

  lemma OneStep(c: Cc, a: nat, b: nat)
    requires StepOf(c, a) && StepOf(c, b)
    ensures a == b
  {}

  lemma DrainsOnce(step: nat, cwnd: nat, acc: nat, mss: nat)
    requires 0 < mss && 0 < cwnd <= acc < 2 * cwnd && cwnd + step <= U32_MAX
    ensures Drain(Bytes(step), cwnd, acc, mss) == (cwnd + step, acc - cwnd)
  {
    assert Drain(Bytes(step), cwnd + step, acc - cwnd, mss) == (cwnd + step, acc - cwnd);
  }

  /** A synthesised increase, below the cap: the program's answer in segments for this window and this
      ACK, rounded down. */
  lemma SynthGrows(c: Cc, n: nat, prog: ControlProgram)
    requires Inv(c) && c.law == Synth(prog) && n > 0 && c.cwnd >= c.ssthresh && OneWindow(c, n)
    ensures var v := c.cwnd as real + Times(Eval(prog.inc, Signals(c, c.cwnd, n)), c.mss as real);
            c.cwnd as real <= v <= CWND_CAP as real ==>
              Whole(OnAck(c, n).cwnd, v) && OnAck(c, n).caAcc == c.caAcc + n - c.cwnd
  {
    SynthIncrease(c, n, prog);
    var inc := IncreaseOf(c.(dupAcks := 0), n);
    var v := c.cwnd as real + inc.v;
    hide IncreaseOf, Eval, Signals, Times;
    if c.cwnd as real <= v <= CWND_CAP as real {
      var w := Grow(inc, c.cwnd, c.mss);
      assert Whole(w, v) && w >= c.cwnd;
      assert Drain(inc, w, c.caAcc + n - c.cwnd, c.mss) == (w, c.caAcc + n - c.cwnd);
    }
  }

  lemma SynthIncrease(c: Cc, n: nat, prog: ControlProgram)
    requires c.law == Synth(prog)
    ensures IncreaseOf(c.(dupAcks := 0), n) == Real(Times(Eval(prog.inc, Signals(c, c.cwnd, n)), c.mss as real))
  {
    hide Eval, Times;
  }

  // ── congestion marks ────────────────────────────────────────────────────────────────────────

  /** One ACK as the mark accounting sees it: the bytes it covers, and how many of them were marked. */
  datatype Marking = Marking(bytes: nat, marked: nat)

  function EcnRun(c: Cc, acks: seq<Marking>): Cc
    decreases |acks|
  {
    if acks == [] then c else EcnRun(OnEcn(c, acks[0].bytes, acks[0].marked), acks[1..])
  }

  function CoveredBytes(acks: seq<Marking>): nat { if acks == [] then 0 else acks[0].bytes + CoveredBytes(acks[1..]) }

  /** Marked bytes, never more than covered ones. */
  function MarkedBytes(acks: seq<Marking>): nat {
    if acks == [] then 0
    else (if acks[0].marked < acks[0].bytes then acks[0].marked else acks[0].bytes) + MarkedBytes(acks[1..])
  }

  lemma {:induction false} MarkedFits(acks: seq<Marking>)
    ensures MarkedBytes(acks) <= CoveredBytes(acks)
  {
    if acks != [] { MarkedFits(acks[1..]); }
  }

  /** Until a window's worth is covered the marks are only counted. */
  lemma {:induction false} RoundCollects(c: Cc, acks: seq<Marking>)
    requires Inv(c) && !c.law.Reno? && c.ackedWin + CoveredBytes(acks) < c.windowBytes
    requires c.ackedWin + CoveredBytes(acks) <= U32_MAX
    ensures EcnRun(c, acks)
            == c.(ackedWin := c.ackedWin + CoveredBytes(acks), markedWin := c.markedWin + MarkedBytes(acks))
    decreases |acks|
  {
    if acks != [] {
      MarkedFits(acks);
      hide CloseRound;
      RoundCollects(OnEcn(c, acks[0].bytes, acks[0].marked), acks[1..]);
    }
  }

  /** What is kept of a window after a marked round: DCTCP, Prague and every repaired program give up half
      of alpha, a genome its own bounded curve of alpha. */
  function Kept(law: Law, alpha: real): real {
    match law
    case Learned(p) =>
      var f := Curve(p, alpha);
      1.0 - (if f < 0.0 then 0.0 else if f > p.ecnMax then p.ecnMax else f)
    case _ => 1.0 - alpha / 2.0
  }

  function Curve(p: Genome, alpha: real): real { p.ecnA * alpha + p.ecnB * alpha * alpha }

  /** Rounded down, and at least a segment. */
  predicate CutBack(c: Cc, alpha: real, w: nat) {
    var x := Times(c.cwnd as real, Kept(c.law, alpha));
    if x < c.mss as real then w == c.mss
    else if c.law.Synth? && x > CWND_CAP as real then w == CWND_CAP else Whole(w, x)
  }

  /** The round that `n` more bytes complete: alpha moves a sixteenth of the way to the marked fraction of
      the round, a marked round cuts the window once, an unmarked one leaves it, and the next round is as
      long as the window was. */
  lemma RoundCloses(c: Cc, n: nat, m: nat)
    requires Inv(c) && Trusted(c.law) && !c.law.Reno? && n > 0 && c.windowBytes <= c.ackedWin + n <= U32_MAX
    ensures var d := OnEcn(c, n, m);
            var marked := c.markedWin + (if m < n then m else n);
            && d.alpha == c.alpha + (marked as real / (c.ackedWin + n) as real - c.alpha) / 16.0
            && d.ackedWin == 0 && d.markedWin == 0 && d.windowBytes == c.cwnd
            && (marked == 0 ==> d.cwnd == c.cwnd && d.ssthresh == c.ssthresh && d.caAcc == c.caAcc)
            && (marked > 0 ==> CutBack(c, d.alpha, d.cwnd) && d.ssthresh == d.cwnd && d.caAcc == 0)
  {
    hide CutWindow, CutBack, Trusted;
    var e := c.(ackedWin := c.ackedWin + n, markedWin := c.markedWin + (if m < n then m else n));
    assert OnEcn(c, n, m) == CloseRound(e);
    AlphaStaysAFraction(e.alpha, e.markedWin, e.ackedWin);
    var fraction := e.markedWin as real / e.ackedWin as real;
    var f := e.(alpha := (1.0 - 1.0 / 16.0) * e.alpha + 1.0 / 16.0 * fraction);
    CutIsBack(c, f);
  }

  lemma CutIsBack(c: Cc, f: Cc)
    requires Inv(f) && Trusted(f.law) && f.law == c.law && f.cwnd == c.cwnd && f.mss == c.mss
    ensures CutBack(c, f.alpha, CutWindow(f))
  {
    hide EcnCut, Kept, Trusted, Times;
    CutIsFraction(f);
    CutIsKept(f);
    CutTruncates(f.cwnd, 1.0 - EcnCut(f), f.mss);
  }

  lemma CutTruncates(cwnd: nat, k: real, mss: nat)
    requires 0.0 <= k <= 1.0 && cwnd <= U32_MAX && 0 < mss <= 0xFFFF
    ensures var v := Times(cwnd as real, k);
            && (if v < mss as real then MaxN(Trunc(v), mss) == mss else Whole(MaxN(Trunc(v), mss), v))
            && (if v < mss as real then ToCwnd(v, mss) == mss
                else if v > CWND_CAP as real then ToCwnd(v, mss) == CWND_CAP else Whole(ToCwnd(v, mss), v))
  {
    Shrinks(cwnd as real, k);
    hide Times;
    assert Whole(Trunc(Times(cwnd as real, k)), Times(cwnd as real, k));
  }

  lemma CutIsKept(f: Cc)
    requires Inv(f) && Trusted(f.law)
    ensures 1.0 - EcnCut(f) == Kept(f.law, f.alpha)
  {
    if f.law.Synth? {
      ProgramKeeps(f);
      hide EcnCut;
    } else if f.law.Learned? {
      GenomeKeeps(f);
      hide EcnCut, Curve;
    }
  }

  lemma GenomeKeeps(f: Cc)
    requires f.law.Learned?
    ensures EcnCut(f) == Clamp(Curve(f.law.p, f.alpha), 0.0, f.law.p.ecnMax)
  {}

  lemma ProgramKeeps(f: Cc)
    requires Inv(f) && Trusted(f.law) && f.law.Synth?
    ensures EcnCut(f) == f.alpha / 2.0
  {
    var raw :| f.law.prog == Repaired(raw);
    var s := Signals(f, f.cwnd, 0);
    assert s[R_ALPHA] == f.alpha && s[R_HALF] == 0.5;
    RepairedEcnIsHalfAlpha(raw, s);
  }

  /** A whole observation round, however its bytes are divided over ACKs. */
  lemma EcnRound(c: Cc, acks: seq<Marking>, last: Marking)
    requires Inv(c) && Trusted(c.law) && !c.law.Reno? && c.ackedWin == c.markedWin == 0 && last.bytes > 0
    requires CoveredBytes(acks) < c.windowBytes <= CoveredBytes(acks) + last.bytes <= U32_MAX
    ensures var d := OnEcn(EcnRun(c, acks), last.bytes, last.marked);
            var marked := MarkedBytes(acks) + (if last.marked < last.bytes then last.marked else last.bytes);
            && d.alpha == c.alpha + (marked as real / (CoveredBytes(acks) + last.bytes) as real - c.alpha) / 16.0
            && (marked == 0 ==> d.cwnd == c.cwnd) && (marked > 0 ==> CutBack(c, d.alpha, d.cwnd))
  {
    hide OnEcn, Trusted, CutBack;
    RoundCollects(c, acks);
    MarkedFits(acks);
    RoundCloses(EcnRun(c, acks), last.bytes, last.marked);
    SameCut(c, EcnRun(c, acks));
  }

  lemma SameCut(c: Cc, e: Cc)
    requires e.law == c.law && e.cwnd == c.cwnd && e.mss == c.mss
    ensures forall alpha, w :: CutBack(e, alpha, w) <==> CutBack(c, alpha, w)
  {
    hide Kept, Whole, Times;
  }

  predicate HasFraction(a: Marking, fraction: real) { a.marked as real == fraction * a.bytes as real }

  /** Every ACK completes a round whose marked fraction is `fraction`. */
  ghost predicate SteadyRounds(c: Cc, acks: seq<Marking>, fraction: real)
    decreases |acks|
  {
    acks == [] ||
    (&& acks[0].bytes > 0 && acks[0].marked <= acks[0].bytes && c.windowBytes <= acks[0].bytes <= U32_MAX
     && HasFraction(acks[0], fraction)
     && SteadyRounds(OnEcn(c, acks[0].bytes, acks[0].marked), acks[1..], fraction))
  }

  function Decay(k: nat): real { if k == 0 then 1.0 else 15.0 / 16.0 * Decay(k - 1) }

  /** What is left of the error after `k` rounds. */
  predicate Closer(k: nat, fraction: real, alpha: real, end: real) { end - fraction == Decay(k) * (alpha - fraction) }

  /** Alpha estimates the marked fraction: under a steady one its error shrinks by a sixteenth a round. */
  lemma {:induction false} AlphaConverges(c: Cc, acks: seq<Marking>, fraction: real)
    requires Inv(c) && Trusted(c.law) && !c.law.Reno?
    requires c.ackedWin == c.markedWin == 0 && SteadyRounds(c, acks, fraction)
    ensures Closer(|acks|, fraction, c.alpha, EcnRun(c, acks).alpha)
    decreases |acks|
  {
    hide OnEcn, Trusted, Closer, Inv, HasFraction;
    if acks == [] {
      NotYetCloser(fraction, c.alpha);
    } else {
      SteadyRound(c, acks[0], fraction);
      var d := OnEcn(c, acks[0].bytes, acks[0].marked);
      AlphaConverges(d, acks[1..], fraction);
      StepDecays(c.alpha, d.alpha, fraction, EcnRun(d, acks[1..]).alpha, |acks|);
    }
  }

  lemma NotYetCloser(fraction: real, alpha: real)
    ensures Closer(0, fraction, alpha, alpha)
  {}

  lemma SteadyRound(c: Cc, a: Marking, fraction: real)
    requires Inv(c) && Trusted(c.law) && !c.law.Reno? && c.ackedWin == c.markedWin == 0
    requires a.bytes > 0 && a.marked <= a.bytes && c.windowBytes <= a.bytes <= U32_MAX
    requires HasFraction(a, fraction)
    ensures var d := OnEcn(c, a.bytes, a.marked);
            && d.alpha == c.alpha + (fraction - c.alpha) / 16.0 && d.ackedWin == d.markedWin == 0
            && Inv(d) && d.law == c.law
  {
    hide OnEcn, Trusted, CutBack;
    RoundCloses(c, a.bytes, a.marked);
    EcnIsSafe(c, a.bytes, a.marked);
    Fraction(a.marked, a.bytes, fraction);
  }

  lemma StepDecays(alpha: real, next: real, fraction: real, end: real, k: nat)
    requires k > 0 && next == alpha + (fraction - alpha) / 16.0 && Closer(k - 1, fraction, next, end)
    ensures Closer(k, fraction, alpha, end)
  {
    var d, x := Decay(k - 1), alpha - fraction;
    assert next - fraction == 15.0 / 16.0 * x;
    hide Decay;
    assert Decay(k) == 15.0 / 16.0 * d by { DecayStep(k); }
    Multiplies(d, 15.0 / 16.0, x);
  }

  lemma DecayStep(k: nat)
    requires k > 0
    ensures Decay(k) == 15.0 / 16.0 * Decay(k - 1)
  {}

  lemma Fraction(m: nat, n: nat, fraction: real)
    requires n > 0 && m as real == fraction * n as real
    ensures m as real / n as real == fraction
  {}

  lemma Multiplies(x: real, y: real, z: real)
    ensures x * (y * z) == (y * x) * z
  {}

  // ── sanitising ──────────────────────────────────────────────────────────────────────────────

  /** `y` is the point of `[lo, hi]` nearest to `x`. */
  predicate Nearest(x: real, lo: real, hi: real, y: real) {
    lo <= y <= hi && (lo <= x <= hi ==> y == x) && (x < lo ==> y == lo) && (x > hi ==> y == hi)
  }

  /** Each gene ends at the nearest point of its range, so a sane genome is left as it is. */
  lemma SanitizedIsNearest(p: Genome)
    ensures var s := Sanitized(p);
            && Nearest(p.aiGain, 0.05, 8.0, s.aiGain) && Nearest(p.mdLoss, 0.1, 0.95, s.mdLoss)
            && Nearest(p.ecnA, 0.0, 2.0, s.ecnA) && Nearest(p.ecnB, -1.0, 2.0, s.ecnB)
            && Nearest(p.ecnMax, 0.05, 0.95, s.ecnMax) && Sanitized(s) == s
  {}

  // ── round trips and signals ─────────────────────────────────────────────────────────────────

  function RttRun(c: Cc, samples: seq<nat>): Cc
    decreases |samples|
  {
    if samples == [] then c else RttRun(OnRtt(c, samples[0]), samples[1..])
  }

  /** Prague and a synthesised law know the latest round trip; the latter also the least there ever was. */
  lemma {:induction false} RoundTripsAreKept(c: Cc, samples: seq<nat>)
    requires samples != [] && (c.law.Prague? || c.law.Synth?) && forall i :: 0 <= i < |samples| ==> samples[i] > 0
    ensures var d := RttRun(c, samples);
            && d.srtt == samples[|samples| - 1] && d.law == c.law
            && (c.law.Synth? ==> && d.rttMin > 0
                                 && (forall i :: 0 <= i < |samples| ==> d.rttMin <= samples[i])
                                 && (c.rttMin > 0 ==> d.rttMin <= c.rttMin)
                                 && ((c.rttMin > 0 && d.rttMin == c.rttMin) || d.rttMin in samples))
    decreases |samples|
  {
    var d := OnRtt(c, samples[0]);
    if samples[1..] == [] {
      assert RttRun(c, samples) == RttRun(d, []);
    } else {
      RoundTripsAreKept(d, samples[1..]);
      forall i | 0 < i < |samples| ensures samples[i] == samples[1..][i - 1] {}
    }
  }

  /** What a program is given: window, flight and acknowledged bytes in segments, the mark estimate, the
      round trip against its least, and three constants. */
  lemma SignalsMean(c: Cc, flight: nat, acked: nat)
    requires c.mss > 0
    ensures var s := Signals(c, flight, acked); var mss := c.mss as real;
            && s[0] * mss == c.cwnd as real && s[1] * mss == flight as real && s[2] * mss == acked as real
            && s[3] == c.alpha
            && (if c.rttMin > 0 && c.srtt > 0 then s[4] * c.rttMin as real == c.srtt as real else s[4] == 1.0)
            && s[5] + s[5] == 1.0 && s[6] == 1.0 && s[7] == 2.0
  {}

  /** The six operations, each by what it means for its operands. */
  lemma OperationsMean(a: real, b: real)
    ensures Compute(OpAdd, a, b) - b == a && Compute(OpSub, a, b) + b == a
    ensures b != 0.0 ==> Compute(OpDiv, a, b) * b == a
    ensures Compute(OpMul, a, 0.0) == Compute(OpDiv, a, 0.0) == 0.0
    ensures Compute(OpMul, a, b + 1.0) == Compute(OpMul, a, b) + a
    ensures Compute(OpMin, a, b) <= a && Compute(OpMin, a, b) <= b && Compute(OpMin, a, b) in {a, b}
    ensures Compute(OpMax, a, b) >= a && Compute(OpMax, a, b) >= b && Compute(OpMax, a, b) in {a, b}
  {}
}
