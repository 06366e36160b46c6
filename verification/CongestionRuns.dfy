/** Properties of whole runs of the controllers: the register machine running its seed program is
    DCTCP step for step, and how much window an ACK stream can buy. */
module CongestionRuns {
  import opened Serial
  import opened ControlLaw
  import opened Congestion

  // ── the seed program is DCTCP ───────────────────────────────────────────────────────────────

  /** Equal in everything the controller acts on; only the synthesised one watches round trips. */
  predicate Lockstep(s: Cc, d: Cc) {
    s.law == Synth(AIMD) && d.law == Dctcp && s.(law := Dctcp, srtt := d.srtt, rttMin := d.rttMin) == d
  }

  lemma SeedIncrease(s: Cc, acked: nat)
    requires s.law == Synth(AIMD) && s.mss > 0
    ensures IncreaseOf(s, acked) == Real(s.mss as real)
  {
    SeedEvaluates(OpMax, R_ONE, R_ONE, Signals(s, s.cwnd, acked));
  }

  lemma HalfOfSegments(flight: nat, mss: nat)
    requires mss > 0 && flight <= CWND_CAP
    ensures Times(Guard(flight as real / mss as real * 0.5), mss as real) == flight as real / 2.0
  {
    var f, m := flight as real, mss as real;
    var seg := f / m;
    assert seg * m == f;
    assert 0.0 <= seg && seg * 1.0 <= seg * m;
    assert Guard(seg * 0.5) == seg * 0.5;
    assert seg * 0.5 * m == f / 2.0;
  }

  lemma HalfIsFloored(flight: nat, floor: nat)
    requires flight <= CWND_CAP
    ensures ToCwnd(flight as real / 2.0, floor) == MaxN(flight / 2, floor)
  {
    assert (flight as real / 2.0).Floor == flight / 2;
  }

  lemma SeedLoss(s: Cc, d: Cc, flight: nat)
    requires Lockstep(s, d) && s.mss > 0 && flight <= CWND_CAP
    ensures LossTarget(s, flight) == LossTarget(d, flight)
  {
    SeedEvaluates(OpMul, R_FLIGHT, R_HALF, Signals(s, flight, 0));
    SignalFlight(s, flight);
    HalfOfSegments(flight, s.mss);
    HalfIsFloored(flight, 2 * s.mss);
  }

  lemma SeedCut(s: Cc, d: Cc)
    requires Lockstep(s, d) && Inv(d) && d.cwnd <= CWND_CAP
    ensures CutWindow(s) == CutWindow(d)
  {
    SeedEvaluates(OpMul, R_ALPHA, R_HALF, Signals(s, s.cwnd, 0));
    assert EcnCut(s) == EcnCut(d);
    hide Times, EcnCut;
    Shrinks(d.cwnd as real, 1.0 - d.alpha / 2.0);
  }

  lemma {:induction false} SeedDrain(cwnd: nat, acc: nat, mss: nat)
    requires 0 < mss <= cwnd <= U32_MAX
    requires Drain(Bytes(mss), cwnd, acc, mss).0 <= CWND_CAP
    ensures Drain(Real(mss as real), cwnd, acc, mss) == Drain(Bytes(mss), cwnd, acc, mss)
    decreases acc
  {
    if acc >= cwnd {
      var next := SatAdd(cwnd, mss);
      SeedDrainGrows(next, acc - cwnd, mss);
      SeedDrain(next, acc - cwnd, mss);
      assert cwnd as real + mss as real == (cwnd + mss) as real;
    }
  }

  lemma {:induction false} SeedDrainGrows(cwnd: nat, acc: nat, mss: nat)
    requires 0 < mss && 0 < cwnd <= U32_MAX
    ensures cwnd <= Drain(Bytes(mss), cwnd, acc, mss).0
    decreases acc
  {
    if acc >= cwnd { SeedDrainGrows(SatAdd(cwnd, mss), acc - cwnd, mss); }
  }

  /** One event keeps the two controllers in lockstep, through the register machine, the clamps and
      the truncating conversions, while windows and flights stay within the synthesis cap. */
  lemma LockstepStep(s: Cc, d: Cc, ev: Event)
    requires Lockstep(s, d) && Inv(d) && d.cwnd <= CWND_CAP
    requires FlightOf(ev) <= CWND_CAP && Apply(d, ev).cwnd <= CWND_CAP
    ensures Lockstep(Apply(s, ev), Apply(d, ev)) && IsLoss(s, ev) == IsLoss(d, ev)
  {
    match ev {
      case Ack(n) =>
        SeedIncrease(s.(dupAcks := 0), n);
        if n > 0 && !SlowStart(d) { SeedDrain(d.cwnd, SatAdd(d.caAcc, n), d.mss); }
      case Ecn(n, marked) => LockstepEcn(s, d, n, marked);
      case Rtt(_) =>
      case DupAck(f) =>
        SeedLoss(s.(dupAcks := MinN(s.dupAcks + 1, 255)), d.(dupAcks := MinN(d.dupAcks + 1, 255)), f);
      case Rto(f) => SeedLoss(s, d, f);
      case Recovery(f) => SeedLoss(s, d, f);
    }
  }

  lemma LockstepEcn(s: Cc, d: Cc, acked: nat, marked: nat)
    requires Lockstep(s, d) && Inv(d) && d.cwnd <= CWND_CAP
    ensures Lockstep(OnEcn(s, acked, marked), OnEcn(d, acked, marked))
  {
    if acked > 0 {
      var s1 := s.(ackedWin := SatAdd(s.ackedWin, acked), markedWin := SatAdd(s.markedWin, MinN(marked, acked)));
      var d1 := d.(ackedWin := SatAdd(d.ackedWin, acked), markedWin := SatAdd(d.markedWin, MinN(marked, acked)));
      if d1.ackedWin > 0 {
        AlphaStaysAFraction(d1.alpha, d1.markedWin, d1.ackedWin);
        var fraction := d1.markedWin as real / d1.ackedWin as real;
        var a := (1.0 - 1.0 / 16.0) * d1.alpha + 1.0 / 16.0 * fraction;
        SeedCut(s1.(alpha := a), d1.(alpha := a));
      }
    }
  }

  /** Every window along the run is within the synthesis cap. */
  ghost predicate Bounded(c: Cc, events: seq<Event>)
    decreases |events|
  {
    c.cwnd <= CWND_CAP && (events == [] || (c.cwnd > 0 && c.mss > 0 && Bounded(Apply(c, events[0]), events[1..])))
  }

  function Run(c: Cc, events: seq<Event>): Cc
    decreases |events|
  {
    if events == [] || c.cwnd == 0 || c.mss == 0 then c else Run(Apply(c, events[0]), events[1..])
  }

  /** Over any event sequence whose windows and flights stay within the cap, the synthesised
      controller running the seed program and DCTCP end in the same state. */
  lemma {:induction false} SeedIsDctcp(s: Cc, d: Cc, events: seq<Event>)
    requires Lockstep(s, d) && Inv(d) && Bounded(d, events)
    requires forall i :: 0 <= i < |events| ==> FlightOf(events[i]) <= CWND_CAP
    ensures Lockstep(Run(s, events), Run(d, events))
    decreases |events|
  {
    if events != [] {
      LockstepStep(s, d, events[0]);
      StepIsSafe(d, events[0]);
      SeedIsDctcp(Apply(s, events[0]), Apply(d, events[0]), events[1..]);
    }
  }

  lemma StartInLockstep(mss: nat)
    ensures Lockstep(Init(Synth(AIMD), mss), Init(Dctcp, mss))
  {}

  // ── ACK division ────────────────────────────────────────────────────────────────────────────

  function Sum(acks: seq<nat>): nat { if acks == [] then 0 else acks[0] + Sum(acks[1..]) }

  function AckRun(c: Cc, acks: seq<nat>): Cc
    decreases |acks|
  {
    if acks == [] || c.cwnd == 0 || c.mss == 0 then c else AckRun(OnAck(c, acks[0]), acks[1..])
  }

  /** Window plus accumulator grew by no more than the bytes acknowledged. */
  predicate Paid(c: Cc, acks: seq<nat>) {
    AckRun(c, acks).cwnd + AckRun(c, acks).caAcc <= c.cwnd + c.caAcc + Sum(acks)
  }

  lemma {:induction false} DrainPays(n: nat, cwnd: nat, acc: nat, mss: nat)
    requires 0 < mss <= cwnd <= U32_MAX && n <= mss
    ensures Drain(Bytes(n), cwnd, acc, mss).0 + Drain(Bytes(n), cwnd, acc, mss).1 <= cwnd + acc
    decreases acc
  {
    if acc >= cwnd { DrainPays(n, SatAdd(cwnd, n), acc - cwnd, mss); }
  }

  lemma OneAckPays(c: Cc, n: nat)
    requires Inv(c) && !c.law.Synth? && IntStep(c) <= c.mss
    ensures OnAck(c, n).cwnd + OnAck(c, n).caAcc <= c.cwnd + c.caAcc + n
    ensures IntStep(OnAck(c, n)) == IntStep(c)
  {
    hide Trunc, Clamp, Times;
    var d := c.(dupAcks := 0);
    assert IntStep(d) == IntStep(c) && IncreaseOf(d, n) == Bytes(IntStep(c));
    DrainPays(IntStep(d), d.cwnd, SatAdd(d.caAcc, n), d.mss);
  }

  /** However ACKs are divided, and whether they fall in slow start or in congestion avoidance, the
      window never grows past the bytes acknowledged: for every law whose step is at most one MSS. */
  lemma {:induction false} AckDivisionBound(c: Cc, acks: seq<nat>)
    requires Inv(c) && Trusted(c.law) && !c.law.Synth? && IntStep(c) <= c.mss
    ensures Paid(c, acks)
    decreases |acks|
  {
    if acks != [] {
      OneAckPays(c, acks[0]);
      AckKeepsInv(c, acks[0]);
      hide OnAck, IntStep, Trusted;
      AckDivisionBound(OnAck(c, acks[0]), acks[1..]);
    }
  }

  /** The same law, segment size and round trip, in any other valid state. */
  predicate SameController(c: Cc, d: Cc) { d.law == c.law && d.mss == c.mss && d.srtt == c.srtt && Inv(d) }

  lemma SameStep(c: Cc, d: Cc)
    requires SameController(c, d)
    ensures IntStep(d) == IntStep(c)
  {
    hide Times, Trunc, Clamp, Inv;
  }

  /** The bound is exactly the condition that one step is at most one MSS: an evolved gain above
      one, or Prague at a long round trip, can be paid more window than it acknowledged. */
  lemma AckDivisionBoundExactlyWhen(c: Cc)
    requires Inv(c) && Trusted(c.law) && !c.law.Synth?
    ensures (forall d, acks :: SameController(c, d) ==> Paid(d, acks)) <==> IntStep(c) <= c.mss
  {
    if IntStep(c) <= c.mss {
      hide Paid, IntStep, Trusted;
      forall d, acks | SameController(c, d) ensures Paid(d, acks) {
        SameStep(c, d);
        AckDivisionBound(d, acks);
      }
    } else {
      var d := c.(cwnd := c.mss, ssthresh := c.mss, caAcc := 0);
      SameStep(c, d);
      OverpaidStep(d);
      assert SameController(c, d) && !Paid(d, [c.mss]);
    }
  }

  lemma OverpaidStep(d: Cc)
    requires Inv(d) && !d.law.Synth? && d.cwnd == d.ssthresh == d.mss && d.caAcc == 0 && IntStep(d) > d.mss
    ensures !Paid(d, [d.mss])
  {
    hide Trunc, Clamp, Times, Drain, Eval, Signals;
    var e := d.(dupAcks := 0);
    var n := IntStep(d);
    assert IntStep(e) == n && IncreaseOf(e, d.mss) == Bytes(n);
    hide IntStep, IncreaseOf;
    var next := SatAdd(d.mss, n);
    DrainOnce(n, d.mss);
    assert OnAck(d, d.mss).cwnd == next && OnAck(d, d.mss).caAcc == 0;
    SumOne(d, d.mss);
  }

  lemma DrainOnce(n: nat, mss: nat)
    requires 0 < mss <= U32_MAX
    ensures Drain(Bytes(n), mss, mss, mss) == (SatAdd(mss, n), 0)
  {
    var next := SatAdd(mss, n);
    assert Drain(Bytes(n), next, 0, mss) == (next, 0);
  }

  lemma SumOne(c: Cc, n: nat)
    requires c.cwnd > 0 && c.mss > 0
    ensures Sum([n]) == n && AckRun(c, [n]) == OnAck(c, n)
  {
    assert [n][1..] == [];
  }

  // ── in congestion avoidance the split does not matter at all ────────────────────────────────

  lemma {:induction false} DrainInTwo(inc: Increase, cwnd: nat, x: nat, b: nat, mss: nat)
    requires cwnd > 0 && mss > 0
    ensures Drain(inc, cwnd, x, mss).0 > 0
    ensures Drain(inc, cwnd, x + b, mss)
         == Drain(inc, Drain(inc, cwnd, x, mss).0, Drain(inc, cwnd, x, mss).1 + b, mss)
    decreases x
  {
    if x >= cwnd { DrainInTwo(inc, Grow(inc, cwnd, mss), x - cwnd, b, mss); }
  }

  /** Any split of the same bytes leaves the identical state, absent saturation of the accumulator. */
  lemma {:induction false} SplitIsOneAck(c: Cc, acks: seq<nat>)
    requires Inv(c) && Trusted(c.law) && !c.law.Synth? && !SlowStart(c)
    requires acks != [] && forall i :: 0 <= i < |acks| ==> acks[i] > 0
    requires c.caAcc + Sum(acks) <= U32_MAX
    ensures AckRun(c, acks) == OnAck(c, Sum(acks))
    decreases |acks|
  {
    var first, rest := acks[0], acks[1..];
    AckKeepsInv(c, first);
    if rest == [] {
      assert Sum(acks) == first;
      assert AckRun(OnAck(c, first), rest) == OnAck(c, first);
    } else {
      SumPositive(rest);
      TwoAcksAreOne(c, first, Sum(rest));
      hide OnAck, Inv, Trusted;
      SplitIsOneAck(OnAck(c, first), rest);
    }
  }

  lemma TwoAcksAreOne(c: Cc, a: nat, b: nat)
    requires Inv(c) && Trusted(c.law) && !c.law.Synth? && !SlowStart(c)
    requires a > 0 && b > 0 && c.caAcc + a + b <= U32_MAX
    ensures Inv(OnAck(c, a)) && !SlowStart(OnAck(c, a)) && OnAck(c, a).caAcc <= c.caAcc + a
    ensures OnAck(OnAck(c, a), b) == OnAck(c, a + b)
  {
    AckKeepsInv(c, a);
    AckShrinksExactlyWhen(c, a);
    var e := c.(dupAcks := 0);
    var inc := Bytes(IntStep(e));
    assert IncreaseOf(e, a) == inc && IncreaseOf(e, a + b) == inc;
    DrainInTwo(inc, c.cwnd, c.caAcc + a, b, c.mss);
    DrainRaises(inc, c.cwnd, c.caAcc + a, c.mss);
    var d := OnAck(c, a);
    SameStep(e, d);
    assert IncreaseOf(d.(dupAcks := 0), b) == inc by { SameStep(d, d.(dupAcks := 0)); }
  }

  lemma {:induction false} SumPositive(acks: seq<nat>)
    requires acks != [] && forall i :: 0 <= i < |acks| ==> acks[i] > 0
    ensures Sum(acks) > 0
  {}

  lemma SplitInvariance(c: Cc, xs: seq<nat>, ys: seq<nat>)
    requires Inv(c) && Trusted(c.law) && !c.law.Synth? && !SlowStart(c)
    requires xs != [] && ys != [] && (forall i :: 0 <= i < |xs| ==> xs[i] > 0)
    requires (forall i :: 0 <= i < |ys| ==> ys[i] > 0)
    requires Sum(xs) == Sum(ys) && c.caAcc + Sum(xs) <= U32_MAX
    ensures AckRun(c, xs) == AckRun(c, ys)
  {
    SplitIsOneAck(c, xs);
    SplitIsOneAck(c, ys);
  }

  // ── when splitting matters ──────────────────────────────────────────────────────────────────

  /** A way to acknowledge `n` bytes. */
  predicate SplitOf(acks: seq<nat>, n: nat) {
    acks != [] && (forall i :: 0 <= i < |acks| ==> acks[i] > 0) && Sum(acks) == n
  }

  /** However `n` bytes are acknowledged, the same state results. */
  ghost predicate SplitsAgree(c: Cc, n: nat) {
    forall xs, ys :: SplitOf(xs, n) && SplitOf(ys, n) ==> AckRun(c, xs) == AckRun(c, ys)
  }

  /** Bytes that slow start counts in full: at most one segment, and up to the threshold at most. */
  predicate CountedInFull(c: Cc, n: nat) { n <= c.mss && c.cwnd + n <= c.ssthresh }

  lemma {:induction false} SlowStartSplit(c: Cc, acks: seq<nat>)
    requires Inv(c) && SlowStart(c) && acks != [] && (forall i :: 0 <= i < |acks| ==> acks[i] > 0)
    requires CountedInFull(c, Sum(acks))
    ensures AckRun(c, acks) == c.(dupAcks := 0, cwnd := c.cwnd + Sum(acks))
    decreases |acks|
  {
    var d := OnAck(c, acks[0]);
    assert d == c.(dupAcks := 0, cwnd := c.cwnd + acks[0]);
    if acks[1..] != [] {
      SumPositive(acks[1..]);
      SlowStartSplit(d, acks[1..]);
    }
  }

  lemma SplitsOfTwo(c: Cc, a: nat, b: nat)
    requires c.cwnd > 0 && c.mss > 0 && a > 0 && b > 0
    ensures SplitOf([a + b], a + b) && SplitOf([a, b], a + b)
    ensures AckRun(c, [a + b]) == OnAck(c, a + b)
    ensures OnAck(c, a).cwnd > 0 && OnAck(c, a).mss > 0 ==> AckRun(c, [a, b]) == OnAck(OnAck(c, a), b)
  {
    hide OnAck;
    assert [a, b][1..] == [b] && [b][1..] == [] && [a + b][1..] == [];
    assert Sum([a, b]) == a + Sum([b]);
    assert AckRun(c, [a + b]) == AckRun(OnAck(c, a + b), []);
    if OnAck(c, a).cwnd > 0 && OnAck(c, a).mss > 0 {
      assert AckRun(c, [a, b]) == AckRun(OnAck(c, a), [b]);
      assert AckRun(OnAck(c, a), [b]) == AckRun(OnAck(OnAck(c, a), b), []);
    }
  }

  lemma {:induction false} DrainSteps(n: nat, cwnd: nat, acc: nat, mss: nat)
    requires 0 < mss && 0 < cwnd <= U32_MAX
    ensures var (w, left) := Drain(Bytes(n), cwnd, acc, mss);
            && cwnd <= w
            && (acc < cwnd ==> (w, left) == (cwnd, acc))
            && (acc >= cwnd ==> w >= SatAdd(cwnd, n) && left <= acc - cwnd)
    decreases acc
  {
    if acc >= cwnd { DrainSteps(n, SatAdd(cwnd, n), acc - cwnd, mss); }
  }

  lemma StepIsPositive(c: Cc)
    requires c.mss > 0
    ensures IntStep(c) >= 1
  {
    hide Times;
  }

  /** Releasing one byte less from a window one byte larger never ends in the same state. */
  lemma {:induction false} DrainsDiffer(n: nat, w: nat, acc: nat, less: nat, k: nat, mss: nat)
    requires 0 < mss && 1 <= n <= w && k + 2 <= w && acc == less + k + 1 && w + acc < U32_MAX
    ensures Drain(Bytes(n), w, acc, mss) != Drain(Bytes(n), w + 1, less, mss)
    decreases acc
  {
    if acc >= w {
      if less >= w + 1 {
        DrainsDiffer(n, w + n, acc - w, less - (w + 1), k + 1, mss);
      } else {
        DrainSteps(n, w + n, acc - w, mss);
      }
    }
  }

  /** The shortest ways to acknowledge too much in slow start, and why they differ: up to the threshold
      first, the rest lands in the accumulator; below it, one segment per ACK is counted. */
  lemma TwoAcksDiffer(c: Cc, n: nat)
    requires Inv(c) && !c.law.Synth? && SlowStart(c)
    requires n > 1 && !CountedInFull(c, n) && c.cwnd + c.caAcc + n < U32_MAX
    requires n <= c.mss || c.cwnd + 1 < c.ssthresh || c.mss == 1
    ensures var a := if n <= c.mss then c.ssthresh - c.cwnd else 1;
            0 < a < n && Inv(OnAck(c, a)) && OnAck(OnAck(c, a), n - a) != OnAck(c, n)
  {
    StepIsPositive(c);
    hide IntStep, Trunc, Clamp, Times, Drain;
    var a := if n <= c.mss then c.ssthresh - c.cwnd else 1;
    var d := OnAck(c, a);
    assert d == c.(dupAcks := 0, cwnd := c.cwnd + a);
    SameStep(c, d);
    assert IncreaseOf(d, n - a) == Bytes(IntStep(c));
    DrainSteps(IntStep(c), d.cwnd, SatAdd(d.caAcc, n - a), d.mss);
  }

  /** What `b` more bytes come to after slow start was left by `a`. */
  lemma ThenDrains(c: Cc, a: nat, b: nat)
    requires Inv(c) && !c.law.Synth? && SlowStart(c)
    requires 0 < a <= c.mss && b > 0 && c.ssthresh <= c.cwnd + a && c.cwnd + c.caAcc + a + b < U32_MAX
    ensures Inv(OnAck(c, a))
    ensures var (w, left) := Drain(Bytes(IntStep(c)), c.cwnd + a, c.caAcc + b, c.mss);
            OnAck(OnAck(c, a), b) == c.(dupAcks := 0, cwnd := w, caAcc := left)
  {
    hide IntStep, Trunc, Clamp, Times, Drain;
    var d := OnAck(c, a);
    assert d == c.(dupAcks := 0, cwnd := c.cwnd + a);
    SameStep(c, d);
    assert IncreaseOf(d, b) == Bytes(IntStep(c));
  }

  /** One byte below the threshold, if one byte first happens to make no difference, two bytes do. */
  lemma ThreeAcksDiffer(c: Cc, n: nat)
    requires Inv(c) && !c.law.Synth? && SlowStart(c)
    requires n > c.mss > 1 && c.cwnd + 1 == c.ssthresh && c.cwnd + c.caAcc + n < U32_MAX
    ensures Inv(OnAck(c, 1)) && Inv(OnAck(c, 2))
    ensures OnAck(OnAck(c, 1), n - 1) != OnAck(c, n) || OnAck(OnAck(c, 2), n - 2) != OnAck(c, n)
  {
    hide IntStep, Drain, Inv, OnAck;
    ThenDrains(c, 1, n - 1);
    ThenDrains(c, 2, n - 2);
    if IntStep(c) <= c.cwnd + 1 {
      DrainsApart(c, n);
    } else {
      LongStep(c, n);
    }
  }

  lemma DrainsApart(c: Cc, n: nat)
    requires Inv(c) && IntStep(c) <= c.cwnd + 1 && n > c.mss > 1 && c.cwnd + c.caAcc + n < U32_MAX
    ensures Drain(Bytes(IntStep(c)), c.cwnd + 1, c.caAcc + (n - 1), c.mss)
         != Drain(Bytes(IntStep(c)), c.cwnd + 2, c.caAcc + (n - 2), c.mss)
  {
    StepIsPositive(c);
    hide IntStep, Drain;
    DrainsDiffer(IntStep(c), c.cwnd + 1, c.caAcc + n - 1, c.caAcc + n - 2, 0, c.mss);
  }

  /** A step longer than the window overshoots what one segment would have given. */
  lemma LongStep(c: Cc, n: nat)
    requires Inv(c) && !c.law.Synth? && SlowStart(c) && IntStep(c) > c.cwnd + 1
    requires n > c.mss > 1 && c.cwnd + 1 == c.ssthresh && c.cwnd + c.caAcc + n < U32_MAX
    ensures OnAck(OnAck(c, 1), n - 1) != OnAck(c, n)
  {
    ThenDrains(c, 1, n - 1);
    DrainSteps(IntStep(c), c.cwnd + 1, c.caAcc + n - 1, c.mss);
    hide IntStep, Drain;
  }

  /** Outside saturation, for every law but the synthesised one: splitting the ACK of `n` bytes makes no
      difference if and only if slow start is over or counts the bytes in full. */
  lemma SplitsAgreeExactlyWhen(c: Cc, n: nat)
    requires Inv(c) && Trusted(c.law) && !c.law.Synth? && n > 0 && c.cwnd + c.caAcc + n < U32_MAX
    ensures SplitsAgree(c, n) <==> (SlowStart(c) ==> CountedInFull(c, n))
  {
    hide AckRun, OnAck, IntStep, Trusted;
    if SlowStart(c) && !CountedInFull(c, n) {
      SplitsDisagree(c, n);
    } else {
      forall xs, ys | SplitOf(xs, n) && SplitOf(ys, n) ensures AckRun(c, xs) == AckRun(c, ys) {
        if SlowStart(c) {
          SlowStartSplit(c, xs);
          SlowStartSplit(c, ys);
        } else {
          SplitInvariance(c, xs, ys);
        }
      }
    }
  }

  lemma SplitsDisagree(c: Cc, n: nat)
    requires Inv(c) && !c.law.Synth? && n > 0 && c.cwnd + c.caAcc + n < U32_MAX
    requires SlowStart(c) && !CountedInFull(c, n)
    ensures !SplitsAgree(c, n)
  {
    hide AckRun, OnAck, IntStep;
    if n > c.mss > 1 && c.cwnd + 1 == c.ssthresh {
      ThreeAcksDiffer(c, n);
      SplitsOfTwo(c, 1, n - 1);
      SplitsOfTwo(c, 2, n - 2);
      assert AckRun(c, [n]) != AckRun(c, [1, n - 1]) || AckRun(c, [n]) != AckRun(c, [2, n - 2]);
    } else {
      TwoAcksDiffer(c, n);
      var a := if n <= c.mss then c.ssthresh - c.cwnd else 1;
      SplitsOfTwo(c, a, n - a);
      assert AckRun(c, [n]) != AckRun(c, [a, n - a]);
    }
  }

  /** Six segments acknowledged at once grow a new window by one, in six ACKs by six. */
  lemma SlowStartResidual()
    ensures var c := Init(Reno, 1000);
            && AckRun(c, [6000]).cwnd == c.cwnd + 1000
            && AckRun(c, [1000, 1000, 1000, 1000, 1000, 1000]).cwnd == c.cwnd + 6000
            && !SplitsAgree(c, 6000)
  {
    var c := Init(Reno, 1000);
    SplitsAgreeExactlyWhen(c, 6000);
    assert [6000][1..] == [];
    assert AckRun(c, [6000]) == OnAck(c, 6000);
    OneMoreAck(c, [1000, 1000, 1000, 1000, 1000, 1000], 6);
  }

  lemma {:induction false} OneMoreAck(c: Cc, acks: seq<nat>, n: nat)
    requires c.law == Reno && c.mss == 1000 && 0 < c.cwnd && c.cwnd + 1000 * n <= c.ssthresh <= U32_MAX
    requires |acks| == n && forall i :: 0 <= i < n ==> acks[i] == 1000
    ensures AckRun(c, acks).cwnd == c.cwnd + 1000 * n
    decreases n
  {
    if n > 0 { OneMoreAck(OnAck(c, 1000), acks[1..], n - 1); }
  }
}
