/** Theorems about every run of one connection against any peer: the invariant over all event
    sequences, the pool bound, no silent wedge, and a measure under which every drain ends. */
module ConnectionRuns {
  import opened Options
  import opened Runs
  import opened Rfc6675
  import opened Reassembly
  import opened Congestion
  import opened Endpoint
  import opened ReceiveSide
  import opened Connection
  import opened Sending

  // ── the remaining entry points keep the invariant ───────────────────────────────────────────

  lemma SendKeeps(e: Endpoint, data: seq<byte>)
    requires Consistent(e)
    ensures Consistent(Send(e, data).0)
    ensures e.snd.finSeq.Some? ==> Send(e, data) == (e, 0)
  {
    hide PoolInv, CcInv, Rfc6675.Valid;
  }

  lemma RecvKeeps(e: Endpoint, room: nat)
    requires Consistent(e)
    ensures Consistent(Recv(e, room).0)
  {
    ReadKeepsPool(e.rcv, MinN(room, |e.rcv.rx|), e.cfg.sack);
    hide PoolInv, CcInv, SendInv;
  }

  lemma CloseKeeps(e: Endpoint)
    requires Consistent(e)
    ensures Consistent(Close(e))
  {
    hide PoolInv, CcInv, Rfc6675.Valid;
  }

  lemma RtxTimerKeeps(e: Endpoint, env: Env)
    requires Consistent(e)
    ensures Consistent(RtxTimer(e, env))
    ensures var f := RtxTimer(e, env);
            && f.cfg == e.cfg && f.rcv == e.rcv && f.state == e.state && f.cc.law == e.cc.law
            && f.snd.una == e.snd.una && f.snd.nxt == e.snd.nxt && f.snd.tx == e.snd.tx
            && f.snd.finSeq == e.snd.finSeq && f.snd.board.sacked == e.snd.board.sacked
  {
    ConsistentFacts(e);
    LossKeeps(e.cc, Inflight(e.snd), e.cfg);
    ExitKeepsValid(e.snd.board, e.snd.una, e.snd.nxt);
    EnterLaw(e.cc, Inflight(e.snd));
    hide PoolInv, CcInv, Rfc6675.Valid, Congestion.OnRto;
  }

  lemma PersistTimerKeeps(e: Endpoint, env: Env)
    requires Consistent(e)
    ensures Consistent(PersistTimer(e, env))
  {
    ConsistentFacts(e);
    hide PoolInv, CcInv, Rfc6675.Valid;
  }

  lemma LateTimersKeep(e: Endpoint, env: Env)
    requires Consistent(e)
    ensures var e2 := if Due(e.t.timeWait, env.now) then e.(state := Closed) else e;
            Consistent(e2) &&
            Consistent(if Due(e2.t.delayedAck, env.now) then
                         e2.(rcv := e2.rcv.(needsAck := true), t := e2.t.(delayedAck := None)) else e2)
  {
    hide PoolInv, CcInv, SendInv;
    ConsistentFacts(e);
    AckFlagKeepsPool(e.rcv, e.cfg.sack);
  }

  lemma OnTimerKeeps(e: Endpoint, env: Env)
    requires Consistent(e)
    ensures Consistent(OnTimer(e, env))
  {
    hide RtxTimer, PersistTimer, Consistent;
    RtxTimerKeeps(e, env);
    PersistTimerKeeps(RtxTimer(e, env), env);
    LateTimersKeep(PersistTimer(RtxTimer(e, env), env), env);
  }

  /** Everything that can happen to a connection. */
  datatype Input = AppSend(data: seq<byte>) | AppRecv(room: nat) | AppClose
                 | Arrive(g: Segment, env: Env) | DoPoll(env: Env) | Tick(env: Env)

  function Step(e: Endpoint, ev: Input): Endpoint {
    match ev
    case AppSend(data) => Send(e, data).0
    case AppRecv(room) => Recv(e, room).0
    case AppClose => Close(e)
    case Arrive(g, env) => OnSegment(e, g, env)
    case DoPoll(env) => Poll(e, env).0
    case Tick(env) => OnTimer(e, env)
  }

  function After(e: Endpoint, events: seq<Input>): Endpoint
    decreases |events|
  {
    if events == [] then e else After(Step(e, events[0]), events[1..])
  }

  lemma StepKeeps(e: Endpoint, ev: Input)
    requires Consistent(e)
    ensures Consistent(Step(e, ev))
  {
    hide Consistent, OnSegment, Poll, OnTimer, Send, Recv;
    match ev {
      case AppSend(data) => SendKeeps(e, data);
      case AppRecv(room) => RecvKeeps(e, room);
      case AppClose => CloseKeeps(e);
      case Arrive(g, env) => OnSegmentKeeps(e, g, env);
      case DoPoll(env) => PollOk(e, env);
      case Tick(env) => OnTimerKeeps(e, env);
    }
  }

  /** Any sequence of calls and of arriving segments, whatever the peer sends, keeps the invariant:
      pool bound, scoreboard shape, recovery exclusion, timers and state included. */
  lemma {:induction false} EveryRunIsConsistent(e: Endpoint, events: seq<Input>)
    requires Consistent(e)
    ensures Consistent(After(e, events))
    decreases |events|
  {
    hide Consistent, Step;
    if events != [] {
      StepKeeps(e, events[0]);
      EveryRunIsConsistent(Step(e, events[0]), events[1..]);
    }
  }

  lemma PoolFits(r: Receiver, sack: bool)
    requires PoolInv(r, sack)
    ensures |r.rx| + Buffered(r.reasm.chunks) <= RX_BUFFER
    ensures forall i :: 0 <= i < |r.reasm.chunks| ==> |r.rx| + (End(r.reasm.chunks[i]) - r.nxt) <= RX_BUFFER
  {
    var chunks := r.reasm.chunks;
    Bounds(Spans(chunks), Floor(r), PoolEnd(r));
    forall i | 0 <= i < |chunks|
      ensures Floor(r) <= chunks[i].start < End(chunks[i]) <= PoolEnd(r) { SpansByIndex(chunks, i); }
    hide Within, Spans, WellFormed;
    if chunks != [] {
      assert Floor(r) <= chunks[0].start < End(chunks[0]) <= PoolEnd(r);
      BufferedFits(chunks, Floor(r), PoolEnd(r));
    }
  }

  /** One pool: whatever arrives, the ring and the out-of-order bytes together fit the receive buffer,
      and so do the ring and the distance from RCV.NXT to any buffered edge. */
  lemma PoolIsNeverExceeded(e: Endpoint, events: seq<Input>)
    requires Consistent(e)
    ensures var r := After(e, events).rcv;
            && |r.rx| + Buffered(r.reasm.chunks) <= RX_BUFFER
            && (forall i :: 0 <= i < |r.reasm.chunks| ==> |r.rx| + (End(r.reasm.chunks[i]) - r.nxt) <= RX_BUFFER)
  {
    hide Consistent, After, PoolInv;
    EveryRunIsConsistent(e, events);
    ConsistentFacts(After(e, events));
    PoolFits(After(e, events).rcv, After(e, events).cfg.sack);
  }

  // ── no silent wedge ─────────────────────────────────────────────────────────────────────────

  predicate Live(e: Endpoint) { !e.state.Closed? && !e.state.TimeWait? }

  /** Something is still to be acknowledged or sent. */
  predicate Owing(e: Endpoint) {
    e.snd.una < e.snd.nxt || Unsent(e.snd) > 0 || (e.snd.finQueued && !e.snd.finAcked)
  }

  lemma ArmedTimer(e: Endpoint)
    ensures e.t.rtx.Some? || e.t.persist.Some? || e.t.pace.Some? ==> PollAt(e).Some?
  {}

  /** The wake-up time is an armed deadline with none below it, and is there whenever one is armed. */
  lemma LeastDeadline(e: Endpoint)
    ensures PollAt(e).Some? ==> LeastArmed(e.t, PollAt(e).value)
    ensures PollAt(e).None? ==> forall d :: !ArmedAt(e.t, d)
  {}

  lemma {:induction false} EmptyPipe(b: Board, una: int, mss: nat)
    ensures Pipe(b, una, una, mss) == 0
  {}

  lemma QuietNew(e: Endpoint, env: Env)
    requires Consistent(e) && Live(e) && e.snd.una == e.snd.nxt && StepNew(e, env).1.None?
    ensures Owing(e) ==> StepNew(e, env).0.t.persist.Some? || StepNew(e, env).0.t.pace.Some?
  {
    ConsistentFacts(e);
    EmptyPipe(e.snd.board, e.snd.una, e.cfg.mss);
    PacedIsAlike(e, env);
    var p := Paced(e, env);
    AlikeSame(e, p);
    assert PipeOf(e) == 0 && Inflight(e.snd) == 0 && SentData(e.snd) == 0;
    assert e.cc.cwnd > 0 && MaxPayload(p) > 0;
    hide PoolInv, CcInv, SendInv, Consistent, Build, PipeOf, Alike;
  }

  lemma QuietRepair(e: Endpoint, env: Env)
    requires Consistent(e) && e.snd.una == e.snd.nxt
    ensures StepRetransmit(e, env) == StepNew(e, env)
  {
    ConsistentFacts(e);
    hide PoolInv, CcInv, Consistent, StepNew, NextSeg, PipeOf;
  }

  /** Once a poll has nothing to send, anything still owed has a deadline armed, and the wake-up time is
      the least armed: the connection can never sit waiting for nothing, nor sleep through a timer. */
  lemma NoSilentWedge(e: Endpoint, env: Env)
    requires Consistent(e) && Live(e) && Poll(e, env).1.None?
    ensures Owing(Poll(e, env).0) ==> PollAt(Poll(e, env).0).Some?
    ensures PollAt(Poll(e, env).0).Some? ==> LeastArmed(Poll(e, env).0.t, PollAt(Poll(e, env).0).value)
  {
    LeastDeadline(Poll(e, env).0);
    hide LeastArmed;
    PollOk(e, env);
    var f := Poll(e, env).0;
    assert Alike(e, f);
    AlikeSame(e, f);
    ArmedTimer(f);
    TimerRuns(f);
    if e.snd.una == e.snd.nxt {
      QuietRepair(e, env);
      assert f == StepNew(e, env).0 by { hide StepRetransmit, StepNew; }
      hide Poll, StepNew, StepRetransmit, Consistent, Alike;
      QuietNew(e, env);
    } else {
      Forward(e);
    }
  }

  lemma TimerRuns(e: Endpoint)
    requires Consistent(e)
    ensures e.snd.una < e.snd.nxt ==> e.t.rtx.Some?
  {}

  lemma Forward(e: Endpoint)
    requires Consistent(e)
    ensures e.snd.una <= e.snd.nxt
  {}

  // ── the drain loop terminates ───────────────────────────────────────────────────────────────

  /** Octets of `[lo, hi)` neither SACKed nor already resent. */
  function Open(b: Board, lo: int, hi: int): nat
    decreases hi - lo
  {
    if lo >= hi then 0
    else (if !Covered(b.sacked, lo) && !Covered(b.rexmit, lo) then 1 else 0) + Open(b, lo + 1, hi)
  }

  function Bit(b: bool): nat { if b then 1 else 0 }

  /** What is left to send, most significant first: an owed RST, data and the FIN not yet sent,
      holes not yet repaired, then the three one-shot flags. */
  datatype Debt = Debt(rst: nat, unsent: nat, holes: nat, again: nat, probe: nat, ack: nat)

  function DebtOf(e: Endpoint): Debt {
    Debt(Bit(e.owedRst.Some?),
         if DataEnd(e.snd) + 1 >= e.snd.nxt then DataEnd(e.snd) + 1 - e.snd.nxt else 0,
         Open(e.snd.board, e.snd.una, e.snd.nxt),
         Bit(e.snd.retransmit), Bit(e.snd.sendProbe), Bit(e.rcv.needsAck))
  }

  /** Lexicographically smaller. */
  predicate Less(a: Debt, b: Debt) {
    a.rst < b.rst || (a.rst == b.rst &&
    (a.unsent < b.unsent || (a.unsent == b.unsent &&
    (a.holes < b.holes || (a.holes == b.holes &&
    (a.again < b.again || (a.again == b.again &&
    (a.probe < b.probe || (a.probe == b.probe && a.ack < b.ack)))))))))
  }

  lemma {:induction false} OpenShrinks(b: Board, c: Board, x: int, lo: int, hi: int)
    requires c.sacked == b.sacked && forall y :: Covered(b.rexmit, y) ==> Covered(c.rexmit, y)
    ensures Open(c, lo, hi) <= Open(b, lo, hi)
    ensures lo <= x < hi && !Covered(b.sacked, x) && !Covered(b.rexmit, x) && Covered(c.rexmit, x) ==>
              Open(c, lo, hi) < Open(b, lo, hi)
    decreases hi - lo
  {
    if lo < hi { OpenShrinks(b, c, x, lo + 1, hi); }
  }

  /** Ending quiet never raises the debt of the flags. */
  predicate NoMore(a: Debt, b: Debt) {
    a.rst == b.rst && a.unsent == b.unsent && a.holes == b.holes && a.again <= b.again && a.probe <= b.probe
      && a.ack <= b.ack
  }

  lemma AlikeDebt(e: Endpoint, f: Endpoint)
    requires Alike(e, f)
    ensures DebtOf(f) == DebtOf(e).(again := Bit(f.snd.retransmit), probe := Bit(f.snd.sendProbe))
  {}

  /** Sending new data or the first FIN lowers the unsent count. */
  lemma UnsentFalls(e: Endpoint, f: Endpoint)
    requires Consistent(f) && SendFrame(e, f) && e.snd.nxt < f.snd.nxt
    ensures Less(DebtOf(f), DebtOf(e))
  {}

  lemma StepNewDebt(e: Endpoint, env: Env)
    requires Consistent(e) && Live(e)
    ensures StepNew(e, env).1.Some? ==> Less(DebtOf(StepNew(e, env).0), DebtOf(e))
    ensures StepNew(e, env).1.None? ==> NoMore(DebtOf(StepNew(e, env).0), DebtOf(e))
  {
    PacedIsAlike(e, env);
    var p := Paced(e, env);
    AlikeKeeps(e, p);
    AlikeSame(e, p);
    PacedFlags(e, env);
    hide Consistent, Paced, Alike, PipeOf, MaxPayload, Unsent, Inflight, SentData, DebtOf, Less;
    var n := MinN(MinN(Allowed(e, env), Unsent(p.snd)), MaxPayload(p));
    if n > 0 {
      UnsentMeansOpen(p);
      SendNewOk(p, n, env);
      NewFalls(e, p, n, env);
    } else if Allowed(e, env) == 0 && Unsent(p.snd) > 0 && Inflight(p.snd) == 0 && p.snd.wnd == 0 {
      ProbeDebt(p, env);
    } else {
      StepFinDebt(p, env);
    }
  }

  lemma PacedFlags(e: Endpoint, env: Env)
    ensures Paced(e, env).snd == e.snd && Paced(e, env).rcv == e.rcv && Paced(e, env).owedRst == e.owedRst
    ensures DebtOf(Paced(e, env)) == DebtOf(e)
  {
    hide PipeOf;
  }

  lemma NewFalls(e: Endpoint, p: Endpoint, n: nat, env: Env)
    requires n <= Unsent(p.snd) && DebtOf(p) == DebtOf(e)
    requires var (h, g) := NewNow(p, n, env); g.Some? && Consistent(h) && Emits(NewData, p, h, g.value)
    ensures Less(DebtOf(NewNow(p, n, env).0), DebtOf(e))
  {
    hide Consistent, Stamp, NewNow, Less, DebtOf;
    UnsentFalls(p, NewNow(p, n, env).0);
  }

  lemma StepFinDebt(e: Endpoint, env: Env)
    requires Consistent(e) && Live(e)
    ensures StepFin(e, env).1.Some? ==> Less(DebtOf(StepFin(e, env).0), DebtOf(e))
    ensures StepFin(e, env).1.None? ==> NoMore(DebtOf(StepFin(e, env).0), DebtOf(e))
  {
    StepFinOk(e, env);
    var (f, g) := StepFin(e, env);
    if g.Some? {
      FinShape(e, env);
      hide Consistent, StepFin, Less, DebtOf;
      UnsentFalls(e, f);
    }
  }

  lemma FinShape(e: Endpoint, env: Env)
    requires StepFin(e, env).1.Some?
    ensures SendFrame(e, StepFin(e, env).0) && e.snd.nxt < StepFin(e, env).0.snd.nxt
  {
    hide Advertise, Report, ShiftRight;
  }

  lemma ProbeDebt(p: Endpoint, env: Env)
    requires Consistent(p) && Live(p) && Unsent(p.snd) > 0 && Inflight(p.snd) == 0 && p.snd.wnd == 0
    ensures var e := PersistArmed(p, env);
            var res := if e.snd.sendProbe then ProbeNow(e) else StepFin(e, env);
            (res.1.Some? ==> Less(DebtOf(res.0), DebtOf(p))) && (res.1.None? ==> NoMore(DebtOf(res.0), DebtOf(p)))
  {
    var e := PersistArmed(p, env);
    PersistIsAlike(p, e);
    AlikeKeeps(p, e);
    assert DebtOf(e) == DebtOf(p);
    if e.snd.sendProbe {
      ProbeFalls(e);
    } else {
      hide Consistent, StepFin, DebtOf, Less;
      StepFinDebt(e, env);
    }
  }

  lemma ProbeFalls(e: Endpoint)
    requires e.snd.tx != [] && e.snd.sendProbe
    ensures ProbeNow(e).1.Some? && Less(DebtOf(ProbeNow(e).0), DebtOf(e))
  {
    hide Advertise, Report, ShiftRight, Open;
  }

  lemma RepairFalls(e: Endpoint, x: int, off: nat, n: nat, rescue: bool, env: Env)
    requires Consistent(e) && off + n <= |e.snd.tx| && n > 0 && e.snd.una <= x < e.snd.nxt
    requires !Covered(e.snd.board.sacked, x) && !Covered(e.snd.board.rexmit, x)
    ensures RepairNow(e, x, off, n, rescue, env).1.Some?
    ensures Less(DebtOf(RepairNow(e, x, off, n, rescue, env).0), DebtOf(e))
  {
    hide Consistent, Resend, Marked, Open, Covered, DebtOf, Less;
    BoardOf(e);
    MarkedCovers(e.snd.board, x, n, rescue);
    OpenShrinks(e.snd.board, Marked(e.snd.board, x, n, rescue), x, e.snd.una, e.snd.nxt);
    ResendSnd(e, off, n, env);
    ResendRst(e, off, n, env);
    HolesFall(e, Resend(e, off, n, env).0, Marked(e.snd.board, x, n, rescue));
  }

  lemma MarkedCovers(b: Board, x: int, n: nat, rescue: bool)
    requires WellFormed(b.rexmit) && n > 0
    ensures var c := Marked(b, x, n, rescue);
            c.sacked == b.sacked && Covered(c.rexmit, x) && forall y :: Covered(b.rexmit, y) ==> Covered(c.rexmit, y)
  {
    InsertExact(b.rexmit, x, x + n);
  }

  lemma HolesFall(e: Endpoint, f: Endpoint, b: Board)
    requires f.snd == e.snd && f.owedRst == e.owedRst
    requires Open(b, e.snd.una, e.snd.nxt) < Open(e.snd.board, e.snd.una, e.snd.nxt)
    ensures Less(DebtOf(f.(snd := f.snd.(board := b))), DebtOf(e))
  {
    hide Open;
  }

  lemma ResendRst(e: Endpoint, off: nat, n: nat, env: Env)
    requires off + n <= |e.snd.tx|
    ensures Resend(e, off, n, env).0.owedRst == e.owedRst && Resend(e, off, n, env).0.rcv.needsAck == e.rcv.needsAck
  {
    hide Report, ShiftRight;
  }

  lemma StepRepairDebt(e: Endpoint, env: Env)
    requires Consistent(e) && Live(e)
    ensures StepRepair(e, env).1.Some? ==> Less(DebtOf(StepRepair(e, env).0), DebtOf(e))
    ensures StepRepair(e, env).1.None? ==> NoMore(DebtOf(StepRepair(e, env).0), DebtOf(e))
  {
    hide Consistent, StepNew, DebtOf, Less, NextSeg, PipeOf, MaxPayload, UnsackedRunLen, RepairNow;
    StepNewDebt(e, env);
    if e.cfg.sack && InRecovery(e.snd.board) && e.cc.cwnd > PipeOf(e) {
      match NextSeg(e.snd.board, e.snd.una, e.snd.nxt, e.cfg.mss) {
        case None =>
        case Some((x, rescue)) =>
          HoleInside(e, x, rescue);
          var off := x - e.snd.una;
          var n := MinN(MinN(UnsackedRunLen(e.snd.board, x, e.snd.nxt), MaxPayload(e)), Monus(|e.snd.tx|, off));
          if n > 0 { RepairFalls(e, x, off, n, rescue, env); }
      }
    }
  }

  lemma StepRetransmitDebt(e: Endpoint, env: Env)
    requires Consistent(e) && Live(e)
    ensures StepRetransmit(e, env).1.Some? ==> Less(DebtOf(StepRetransmit(e, env).0), DebtOf(e))
    ensures StepRetransmit(e, env).1.None? ==> NoMore(DebtOf(StepRetransmit(e, env).0), DebtOf(e))
  {
    var e0 := e.(snd := e.snd.(retransmit := false));
    AlikeRetransmit(e);
    AlikeKeeps(e, e0);
    AlikeDebt(e, e0);
    if e.snd.retransmit && Inflight(e.snd) > 0 {
      var n := MinN(SentData(e.snd), MaxPayload(e));
      if n > 0 {
        AgainFalls(e, n, env);
      } else if e.snd.finSeq == Some(e.snd.una) && !e.snd.finAcked {
        FinAgainFalls(e, env);
      } else {
        hide Consistent, StepRepair, DebtOf, MaxPayload;
        StepRepairDebt(e0, env);
      }
    } else {
      hide Consistent, StepRepair, DebtOf;
      StepRepairDebt(e, env);
    }
  }

  lemma AgainFalls(e: Endpoint, n: nat, env: Env)
    requires e.snd.retransmit && n <= |e.snd.tx|
    ensures Less(DebtOf(Resend(e.(snd := e.snd.(retransmit := false)), 0, n, env).0), DebtOf(e))
  {
    hide Advertise, Report, ShiftRight, Open;
  }

  lemma FinAgainFalls(e: Endpoint, env: Env)
    requires e.snd.retransmit
    ensures var f := Build(e.(snd := e.snd.(retransmit := false)), e.snd.una, true, []).0;
            Less(DebtOf(f.(t := StartRtx(f.t, env))), DebtOf(e))
  {
    hide Advertise, Report, ShiftRight, Open;
  }

  lemma PureAckFalls(e: Endpoint)
    ensures PureAck(e).1.Some? ==> Less(DebtOf(PureAck(e).0), DebtOf(e))
  {
    hide Buffered, ShiftLeft, Report, ShiftRight, Open;
  }

  /** Every poll that emits something strictly lowers the debt, so from any state and at a fixed
      time the drain loop reaches the poll that emits nothing. */
  lemma PollLowersDebt(e: Endpoint, env: Env)
    requires Consistent(e) && Poll(e, env).1.Some?
    ensures Less(DebtOf(Poll(e, env).0), DebtOf(e))
  {
    if e.owedRst.Some? {
    } else if Live(e) {
      StepRetransmitDebt(e, env);
      StepRetransmitOk(e, env);
      var (e1, g) := StepRetransmit(e, env);
      PureAckFalls(e1);
      hide StepRetransmit, Consistent, Alike, DebtOf, PureAck, Emits;
    } else {
      PureAckFalls(e);
    }
  }
}
