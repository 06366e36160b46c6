/** What one poll may put on the wire, and that it keeps the invariant: new data, a resend inside
    the outstanding window, a probe, a FIN, or a pure ACK, always the bytes of the send ring. */
module Sending {
  import opened Options
  import opened Serial
  import opened Runs
  import opened Rfc6675
  import opened Reassembly
  import opened Congestion
  import opened Endpoint
  import opened ReceiveSide
  import opened Connection

  datatype Kind = NewData | Again | Probe | FirstFin | FinAgain | OnlyAck

  /** The two states differ at most in the retransmit and probe flags and in timers that are not
      part of the invariant. */
  predicate Alike(e: Endpoint, f: Endpoint) {
    && f == e.(snd := e.snd.(retransmit := f.snd.retransmit, sendProbe := f.snd.sendProbe), t := f.t)
    && f.t.rtx == e.t.rtx && f.t.timeWait == e.t.timeWait
  }

  /** The header every segment carries, and the receive side it leaves behind. */
  predicate Stamp(e: Endpoint, f: Endpoint, g: Segment) {
    && g.hasAck && !g.rst && !g.syn && g.ack == e.rcv.nxt
    && f.rcv == e.rcv.(adv := f.rcv.adv, unackedSegs := f.rcv.unackedSegs, needsAck := f.rcv.needsAck)
    && f.rcv == Advertise(e.rcv, e.cfg).(unackedSegs := f.rcv.unackedSegs, needsAck := f.rcv.needsAck)
    && g.window == MinN(ShiftRight(Ahead(f.rcv.adv, f.rcv.nxt), e.cfg.rcvWscale), 0xFFFF)
    && g.blocks == (if e.cfg.sack then Report(e.rcv.reasm.chunks, MAX_SACK_BLOCKS) else [])
    && g.ace == (if EcnEnabled(e) then e.rcv.cep % 8 else 0)
  }

  function Ahead(a: int, b: int): nat { if a >= b then a - b else 0 }

  /** What sending never touches. */
  predicate SendFrame(e: Endpoint, f: Endpoint) {
    && f.cfg == e.cfg && f.cc == e.cc && f.reset == e.reset && f.owedRst == e.owedRst
    && f.snd.una == e.snd.una && f.snd.tx == e.snd.tx && f.snd.wnd == e.snd.wnd && f.snd.gbn == e.snd.gbn
    && f.snd.wl1 == e.snd.wl1 && f.snd.wl2 == e.snd.wl2 && f.snd.aceSeen == e.snd.aceSeen
    && f.snd.finQueued == e.snd.finQueued && f.snd.finAcked == e.snd.finAcked
    && f.snd.board.sacked == e.snd.board.sacked && f.snd.board.recoveryPoint == e.snd.board.recoveryPoint
    && (f.state == e.state || f.state.FinWait1? || f.state.LastAck?)
  }

  predicate RingBytes(s: Sender, g: Segment) {
    s.una <= g.seqNo && g.seqNo + |g.payload| <= DataEnd(s) &&
    g.payload == s.tx[g.seqNo - s.una..g.seqNo - s.una + |g.payload|]
  }

  predicate IsKind(k: Kind, e: Endpoint, f: Endpoint, g: Segment) {
    match k
    case NewData =>
      && g.payload != [] && !g.fin && RingBytes(e.snd, g) && g.seqNo == e.snd.nxt
      && f.snd.nxt == e.snd.nxt + |g.payload| && f.snd.finSeq == e.snd.finSeq
      && f.snd.nxt - f.snd.una <= f.snd.wnd
    case Again =>
      && g.payload != [] && !g.fin && RingBytes(e.snd, g) && g.seqNo + |g.payload| <= e.snd.nxt
      && f.snd.nxt == e.snd.nxt && f.snd.finSeq == e.snd.finSeq
    case Probe =>
      && |g.payload| == 1 && !g.fin && RingBytes(e.snd, g) && g.seqNo == e.snd.una == e.snd.nxt && e.snd.wnd == 0
      && f.snd.nxt == e.snd.nxt && f.snd.finSeq == e.snd.finSeq
    case FirstFin =>
      && g.payload == [] && g.fin && g.seqNo == e.snd.nxt == DataEnd(e.snd) && e.snd.finSeq.None?
      && f.snd.nxt == e.snd.nxt + 1 && f.snd.finSeq == Some(g.seqNo)
    case FinAgain =>
      && g.payload == [] && g.fin && e.snd.finSeq == Some(g.seqNo) && g.seqNo == e.snd.una
      && f.snd.nxt == e.snd.nxt && f.snd.finSeq == e.snd.finSeq
    case OnlyAck =>
      && g.payload == [] && !g.fin && g.seqNo == e.snd.nxt && f.snd.nxt == e.snd.nxt && f.snd.finSeq == e.snd.finSeq
  }

  /** `g` of kind `k` was sent, taking `e` to `f`. */
  predicate Emits(k: Kind, e: Endpoint, f: Endpoint, g: Segment) {
    Stamp(e, f, g) && SendFrame(e, f) && IsKind(k, e, f, g)
  }

  lemma AlikeKeeps(e: Endpoint, f: Endpoint)
    requires Consistent(e) && Alike(e, f)
    ensures Consistent(f)
  {
    hide PoolInv, CcInv, Rfc6675.Valid;
  }

  lemma AlikeEmits(k: Kind, e0: Endpoint, e: Endpoint, f: Endpoint, g: Segment)
    requires Alike(e0, e) && Emits(k, e, f, g)
    ensures Emits(k, e0, f, g)
  {
    hide Advertise, ShiftRight, Report;
  }

  lemma BuildIs(e: Endpoint, at: int, fin: bool, payload: seq<byte>)
    requires Consistent(e)
    ensures var (f, g) := Build(e, at, fin, payload);
            && f == e.(rcv := Advertise(e.rcv, e.cfg).(unackedSegs := 0), t := e.t.(delayedAck := None))
            && Stamp(e, f, g) && g.seqNo == at && g.fin == fin && g.payload == payload
            && PoolInv(f.rcv, e.cfg.sack) && f.rcv.peerFin == e.rcv.peerFin
  {
    AdvertiseKeepsPool(e.rcv, e.cfg);
    PoolIgnoresFlags(Advertise(e.rcv, e.cfg), Advertise(e.rcv, e.cfg).(unackedSegs := 0), e.cfg.sack);
    hide PoolInv, ShiftRight, ShiftLeft, Report, Core;
  }

  /** A built segment with the retransmission timer running leaves a valid state. */
  lemma BuildKeeps(e: Endpoint, s: Sender, state: State, at: int, fin: bool, payload: seq<byte>, env: Env)
    requires Consistent(e) && SendInv(s, e.cfg.sack) && s.una < s.nxt && e.snd.una == s.una
    requires StateIs(state, s.finSeq.Some?, s.finAcked, e.rcv.peerFin)
    requires state.FinWait2? || state.TimeWait? ==> state == e.state
    requires e.t.timeWait.Some? ==> state == e.state
    ensures var f := Build(e, at, fin, payload).0;
            Consistent(f.(snd := s, t := StartRtx(f.t, env), state := state))
  {
    BuildIs(e, at, fin, payload);
    hide PoolInv, CcInv, SendInv, Stamp, Build;
  }

  lemma StampMoves(e: Endpoint, f: Endpoint, h: Endpoint, g: Segment)
    requires Stamp(e, f, g) && h.rcv == f.rcv
    ensures Stamp(e, h, g)
  {}

  // ── step by step ────────────────────────────────────────────────────────────────────────────

  /** The outcome of a step: a valid state, unchanged but for flags, or one more segment. */
  ghost predicate Outcome(e: Endpoint, res: (Endpoint, Option<Segment>)) {
    && Consistent(res.0)
    && (res.1.None? ==> Alike(e, res.0))
    && (res.1.Some? ==> exists k :: Emits(k, e, res.0, res.1.value))
  }

  lemma OutcomeFrom(e0: Endpoint, e: Endpoint, res: (Endpoint, Option<Segment>))
    requires Alike(e0, e) && Outcome(e, res)
    ensures Outcome(e0, res)
  {
    hide Consistent, Emits;
    if res.1.Some? {
      var k :| Emits(k, e, res.0, res.1.value);
      AlikeEmits(k, e0, e, res.0, res.1.value);
    }
  }

  lemma StepFinOk(e: Endpoint, env: Env)
    requires Consistent(e) && !e.state.Closed? && !e.state.TimeWait?
    ensures Outcome(e, StepFin(e, env))
  {
    hide Build, Consistent, Emits;
    AlikeRetransmit(e);
    if e.snd.finQueued && !e.snd.finAcked && e.snd.nxt == DataEnd(e.snd) {
      FirstFinOk(e, env);
      FinStep(e, env);
    }
  }

  function FinState(state: State): State {
    if state.Established? then FinWait1 else if state.CloseWait? then LastAck else state
  }

  function AfterFin(e: Endpoint, env: Env): Endpoint {
    var f := Build(e, DataEnd(e.snd), true, []).0;
    f.(snd := f.snd.(finSeq := Some(DataEnd(e.snd)), nxt := DataEnd(e.snd) + 1), t := StartRtx(f.t, env),
       state := FinState(e.state))
  }

  lemma FinStep(e: Endpoint, env: Env)
    requires e.snd.finQueued && !e.snd.finAcked && e.snd.nxt == DataEnd(e.snd)
    ensures StepFin(e, env) == (AfterFin(e, env), Some(Build(e, DataEnd(e.snd), true, []).1))
  {
    hide Advertise, Report, ShiftRight;
  }

  lemma FinMoves(e: Endpoint)
    requires Consistent(e) && !e.state.Closed? && !e.state.TimeWait? && e.snd.finQueued && e.snd.finSeq.None?
    ensures StateIs(FinState(e.state), true, e.snd.finAcked, e.rcv.peerFin)
    ensures !FinState(e.state).FinWait2? && !FinState(e.state).TimeWait? && e.t.timeWait.None?
    ensures FinState(e.state) == e.state || FinState(e.state).FinWait1? || FinState(e.state).LastAck?
  {}

  lemma FirstFinOk(e: Endpoint, env: Env)
    requires Consistent(e) && !e.state.Closed? && !e.state.TimeWait?
    requires e.snd.finQueued && !e.snd.finAcked && e.snd.nxt == DataEnd(e.snd)
    ensures Consistent(AfterFin(e, env)) && Emits(FirstFin, e, AfterFin(e, env), Build(e, DataEnd(e.snd), true, []).1)
  {
    hide Build, PoolInv, SendInv, Advertise, Consistent, Core, Stamp, Emits, CcInv, StateIs, FinState, ConfigOk,
         TimerInv;
    ConsistentFacts(e);
    var s := e.snd.(finSeq := Some(DataEnd(e.snd)), nxt := DataEnd(e.snd) + 1);
    FinSpace(e.snd, s, e.cfg.sack);
    FinMoves(e);
    OrderOf(e);
    BuildKeeps(e, s, FinState(e.state), DataEnd(e.snd), true, [], env);
    BuildIs(e, DataEnd(e.snd), true, []);
    var (f, g) := Build(e, DataEnd(e.snd), true, []);
    FinEmits(e, f, FinState(e.state), g, env);
  }

  lemma OrderOf(e: Endpoint)
    requires Consistent(e)
    ensures e.snd.una <= e.snd.nxt
  {}

  lemma FinEmits(e: Endpoint, f: Endpoint, state: State, g: Segment, env: Env)
    requires f == e.(rcv := f.rcv, t := f.t) && Stamp(e, f, g) && e.snd.finSeq.None?
    requires e.snd.nxt == DataEnd(e.snd) == g.seqNo && g.fin && g.payload == []
    requires state == e.state || state.FinWait1? || state.LastAck?
    ensures Emits(FirstFin, e, f.(snd := f.snd.(finSeq := Some(DataEnd(e.snd)), nxt := DataEnd(e.snd) + 1),
                                  t := StartRtx(f.t, env), state := state), g)
  {
    var h := f.(snd := f.snd.(finSeq := Some(DataEnd(e.snd)), nxt := DataEnd(e.snd) + 1),
                t := StartRtx(f.t, env), state := state);
    StampMoves(e, f, h, g);
    hide Stamp;
  }

  lemma FinSpace(s: Sender, s': Sender, sack: bool)
    requires SendInv(s, sack) && s.finQueued && !s.finAcked && s.nxt == DataEnd(s)
    requires s' == s.(finSeq := Some(DataEnd(s)), nxt := DataEnd(s) + 1)
    ensures SendInv(s', sack) && s.finSeq.None?
  {
    WithinWidens(s.board.sacked, s.una, s.nxt, s.una, s.nxt + 1);
    WithinWidens(s.board.rexmit, s.una, s.nxt, s.una, s.nxt + 1);
  }

  lemma PacedIsAlike(e: Endpoint, env: Env)
    ensures Alike(e, Paced(e, env))
  {
    hide PipeOf;
  }

  lemma NewSpace(s: Sender, n: nat, sack: bool)
    requires SendInv(s, sack) && 0 < n <= Unsent(s)
    ensures SentData(s) == s.nxt - s.una && s.nxt + n <= DataEnd(s)
    ensures SendInv(s.(nxt := s.nxt + n), sack)
  {
    WithinWidens(s.board.sacked, s.una, s.nxt, s.una, s.nxt + n);
    WithinWidens(s.board.rexmit, s.una, s.nxt, s.una, s.nxt + n);
  }

  /** New data fits both the peer's window and the ring. */
  lemma SendNewOk(e: Endpoint, n: nat, env: Env)
    requires Consistent(e) && !e.state.Closed? && !e.state.TimeWait? && !e.snd.finAcked
    requires 0 < n <= Unsent(e.snd) && n <= e.snd.wnd - Inflight(e.snd)
    ensures var (h, g) := NewNow(e, n, env);
            g.Some? && Consistent(h) && Emits(NewData, e, h, g.value)
  {
    hide Build, PoolInv, SendInv, Advertise, Consistent, Core, Stamp, StateIs, TimerInv, CcInv, Emits, Unsent;
    var sent := SentData(e.snd);
    ConsistentFacts(e);
    NewSpace(e.snd, n, e.cfg.sack);
    SendWindow(e.snd, e.cfg.sack);

    var p := e.snd.tx[sent..sent + n];
    BuildKeeps(e, e.snd.(nxt := e.snd.nxt + n), e.state, e.snd.nxt, false, p, env);
    BuildIs(e, e.snd.nxt, false, p);
    var (f, g) := Build(e, e.snd.nxt, false, p);
    NewEmits(e, f, n, g, env);
  }

  lemma NewEmits(e: Endpoint, f: Endpoint, n: nat, g: Segment, env: Env)
    requires f == e.(rcv := f.rcv, t := f.t) && Stamp(e, f, g) && n > 0
    requires e.snd.una <= e.snd.nxt && SentData(e.snd) == e.snd.nxt - e.snd.una && e.snd.nxt + n <= DataEnd(e.snd)
    requires n <= e.snd.wnd - Inflight(e.snd)
    requires !g.fin && g.seqNo == e.snd.nxt && g.payload == e.snd.tx[SentData(e.snd)..SentData(e.snd) + n]
    ensures Emits(NewData, e, f.(snd := f.snd.(nxt := f.snd.nxt + n), t := StartRtx(f.t, env)), g)
  {
    var h := f.(snd := f.snd.(nxt := f.snd.nxt + n), t := StartRtx(f.t, env));
    StampMoves(e, f, h, g);
    hide Stamp;
  }

  lemma ConsistentFacts(e: Endpoint)
    requires Consistent(e)
    ensures SendInv(e.snd, e.cfg.sack) && PoolInv(e.rcv, e.cfg.sack) && CcInv(e.cc, e.cfg) && ConfigOk(e.cfg)
    ensures StateIs(e.state, e.snd.finSeq.Some?, e.snd.finAcked, e.rcv.peerFin)
    ensures TimerInv(e.t, e.state, e.snd.una < e.snd.nxt)
  {}

  lemma UnsentMeansOpen(e: Endpoint)
    requires Consistent(e) && Unsent(e.snd) > 0
    ensures !e.snd.finAcked && e.snd.finSeq.None?
  {}

  lemma ProbeOk(e: Endpoint, env: Env)
    requires Consistent(e) && Unsent(e.snd) > 0 && Inflight(e.snd) == 0 && e.snd.wnd == 0
    ensures var (f, g) := Build(e.(snd := e.snd.(sendProbe := false)), e.snd.una, false, e.snd.tx[..1]);
            Consistent(f) && Emits(Probe, e, f, g)
  {
    hide Build, PoolInv, SendInv, Advertise, Consistent, Core, Stamp;
    var e1 := e.(snd := e.snd.(sendProbe := false));
    AlikeKeeps(e, e1);
    OrderOf(e);
    BuildIs(e1, e.snd.una, false, e.snd.tx[..1]);
    var (f, g) := Build(e1, e.snd.una, false, e.snd.tx[..1]);
    PlainKeeps(e1, f);
    assert Emits(Probe, e1, f, g);
    hide Emits;
    AlikeEmits(Probe, e, e1, f, g);
  }

  /** A segment that leaves the send space alone leaves a valid state. */
  lemma PlainKeeps(e: Endpoint, f: Endpoint)
    requires Consistent(e) && PoolInv(f.rcv, e.cfg.sack) && f.rcv.peerFin == e.rcv.peerFin
    requires f == e.(rcv := f.rcv, t := e.t.(delayedAck := None))
    ensures Consistent(f)
  {
    hide PoolInv, CcInv, SendInv;
  }

  lemma StepNewOk(e0: Endpoint, env: Env)
    requires Consistent(e0) && !e0.state.Closed? && !e0.state.TimeWait?
    ensures Outcome(e0, StepNew(e0, env))
  {
    var e := Paced(e0, env);
    PacedIsAlike(e0, env);
    AlikeKeeps(e0, e);
    AlikeSame(e0, e);
    hide Paced, Alike, Consistent, Emits, Build, PipeOf, StepFin, MaxPayload, Unsent, Inflight, SentData;
    var allowed := Allowed(e0, env);
    var n := MinN(MinN(allowed, Unsent(e.snd)), MaxPayload(e));
    var res := StepNew(e0, env);
    if n > 0 {
      UnsentMeansOpen(e);
      SendNewOk(e, n, env);
      AlikeEmits(NewData, e0, e, res.0, res.1.value);
    } else if allowed == 0 && Unsent(e.snd) > 0 && Inflight(e.snd) == 0 && e.snd.wnd == 0 {
      var e1 := PersistArmed(e, env);
      PersistIsAlike(e, e1);
      AlikeKeeps(e, e1);
      AlikeSame(e, e1);
      AlikeTrans(e0, e, e1);
      ProbeOrFin(e1, env);
      OutcomeFrom(e0, e1, if e1.snd.sendProbe then ProbeNow(e1) else StepFin(e1, env));
    } else {
      StepFinOk(e, env);
      OutcomeFrom(e0, e, res);
    }
  }

  lemma ProbeOrFin(e: Endpoint, env: Env)
    requires Consistent(e) && !e.state.Closed? && !e.state.TimeWait?
    requires Unsent(e.snd) > 0 && Inflight(e.snd) == 0 && e.snd.wnd == 0
    ensures Outcome(e, if e.snd.sendProbe then ProbeNow(e) else StepFin(e, env))
  {
    hide Consistent, Emits, Build, StepFin;
    if e.snd.sendProbe { ProbeOk(e, env); } else { StepFinOk(e, env); }
  }

  lemma AlikeSame(e: Endpoint, f: Endpoint)
    requires Alike(e, f)
    ensures f.state == e.state && f.cfg == e.cfg && f.rcv == e.rcv && f.cc == e.cc
    ensures f.snd == e.snd.(retransmit := f.snd.retransmit, sendProbe := f.snd.sendProbe)
    ensures Unsent(f.snd) == Unsent(e.snd) && Inflight(f.snd) == Inflight(e.snd) && SentData(f.snd) == SentData(e.snd)
    ensures MaxPayload(f) == MaxPayload(e) && PipeOf(f) == PipeOf(e)
  {
    hide Pipe;
  }

  lemma AlikeTrans(e: Endpoint, f: Endpoint, h: Endpoint)
    requires Alike(e, f) && Alike(f, h)
    ensures Alike(e, h)
  {}

  lemma PersistIsAlike(e: Endpoint, f: Endpoint)
    requires f == e.(t := f.t) && f.t.rtx == e.t.rtx && f.t.timeWait == e.t.timeWait
    ensures Alike(e, f)
  {}

  // ── resends ─────────────────────────────────────────────────────────────────────────────────

  /** A resend from inside the window with a scoreboard that marks it. */
  lemma ResendOk(e: Endpoint, off: nat, n: nat, b: Board, env: Env)
    requires Consistent(e) && !e.state.Closed? && !e.state.TimeWait?
    requires n > 0 && off + n <= |e.snd.tx| && e.snd.una + off + n <= e.snd.nxt
    requires Rfc6675.Valid(b, e.snd.una, e.snd.nxt) && b.sacked == e.snd.board.sacked
    requires b.recoveryPoint == e.snd.board.recoveryPoint && (e.cfg.sack || b == e.snd.board)
    ensures var (f, g) := Resend(e, off, n, env);
            var h := f.(snd := f.snd.(board := b));
            Consistent(h) && Emits(Again, e, h, g)
  {
    hide Build, PoolInv, SendInv, Advertise, Consistent, Core, Stamp, StateIs, TimerInv, CcInv, ConfigOk, Rfc6675.Valid;
    ConsistentFacts(e);
    var s := e.snd.(board := b);
    BoardSwap(e.snd, b, e.cfg.sack);
    LiveState(e);
    var p := e.snd.tx[off..off + n];
    BuildKeeps(e, s, e.state, e.snd.una + off, false, p, env);
    BuildIs(e, e.snd.una + off, false, p);
    ResendEmits(e, off, n, b, env);
  }

  lemma LiveState(e: Endpoint)
    requires Consistent(e) && !e.state.Closed? && !e.state.TimeWait?
    ensures e.t.timeWait.Some? ==> e.state.FinWait2?
  {}

  lemma BoardSwap(s: Sender, b: Board, sack: bool)
    requires SendInv(s, sack) && Rfc6675.Valid(b, s.una, s.nxt) && b.recoveryPoint == s.board.recoveryPoint
    requires sack || b == s.board
    ensures SendInv(s.(board := b), sack)
  {
    hide Rfc6675.Valid;
  }

  lemma ResendEmits(e: Endpoint, off: nat, n: nat, b: Board, env: Env)
    requires n > 0 && off + n <= |e.snd.tx| && e.snd.una + off + n <= e.snd.nxt
    requires b.sacked == e.snd.board.sacked && b.recoveryPoint == e.snd.board.recoveryPoint
    requires var (f, g) := Build(e, e.snd.una + off, false, e.snd.tx[off..off + n]);
             && f == e.(rcv := f.rcv, t := f.t) && Stamp(e, f, g)
             && g.seqNo == e.snd.una + off && !g.fin && g.payload == e.snd.tx[off..off + n]
    ensures var (f, g) := Resend(e, off, n, env);
            var h := f.(snd := f.snd.(board := b));
            && Emits(Again, e, h, g) && h == e.(rcv := f.rcv, t := f.t, snd := e.snd.(board := b)) && f.snd == e.snd
  {
    hide Build, Stamp;
    var (f, g) := Build(e, e.snd.una + off, false, e.snd.tx[off..off + n]);
    var (f1, g1) := Resend(e, off, n, env);
    StampMoves(e, f, f1.(snd := f1.snd.(board := b)), g);
  }

  lemma BoardOf(e: Endpoint)
    requires Consistent(e)
    ensures Rfc6675.Valid(e.snd.board, e.snd.una, e.snd.nxt) && e.snd.una <= e.snd.nxt
    ensures WellFormed(e.snd.board.sacked) && WellFormed(e.snd.board.rexmit) && 36 < e.cfg.mss
  {}

  /** The hole to repair lies inside the outstanding window and holds nothing SACKed. */
  lemma HoleInside(e: Endpoint, x: int, rescue: bool)
    requires Consistent(e) && NextSeg(e.snd.board, e.snd.una, e.snd.nxt, e.cfg.mss) == Some((x, rescue))
    ensures e.snd.una <= x < e.snd.nxt && x + UnsackedRunLen(e.snd.board, x, e.snd.nxt) <= e.snd.nxt
    ensures !Covered(e.snd.board.sacked, x) && !Covered(e.snd.board.rexmit, x)
  {
    BoardOf(e);
    NextSegIsLowest(e.snd.board, e.snd.una, e.snd.nxt, e.cfg.mss);
    UnsackedRunIsUnsacked(e.snd.board, x, e.snd.nxt);
  }

  lemma MarkedBoard(b: Board, x: int, n: nat, rescue: bool, lo: int, hi: int)
    requires Rfc6675.Valid(b, lo, hi) && lo <= x && x + n <= hi && n > 0
    ensures var c := Marked(b, x, n, rescue);
            Rfc6675.Valid(c, lo, hi) && c.sacked == b.sacked && c.recoveryPoint == b.recoveryPoint
  {
    InsertExact(b.rexmit, x, x + n);
  }

  lemma StepRepairOk(e: Endpoint, env: Env)
    requires Consistent(e) && !e.state.Closed? && !e.state.TimeWait?
    ensures Outcome(e, StepRepair(e, env))
  {
    StepNewOk(e, env);
    BoardOf(e);
    if e.cfg.sack && InRecovery(e.snd.board) && e.cc.cwnd > PipeOf(e) {
      match NextSeg(e.snd.board, e.snd.una, e.snd.nxt, e.cfg.mss) {
        case None =>
        case Some((x, rescue)) => RepairOk(e, x, rescue, env);
      }
    }
  }

  lemma RepairOk(e: Endpoint, x: int, rescue: bool, env: Env)
    requires Consistent(e) && !e.state.Closed? && !e.state.TimeWait? && Outcome(e, StepNew(e, env))
    requires e.cfg.sack && InRecovery(e.snd.board) && e.cc.cwnd > PipeOf(e)
    requires NextSeg(e.snd.board, e.snd.una, e.snd.nxt, e.cfg.mss) == Some((x, rescue))
    ensures Outcome(e, StepRepair(e, env))
  {
    hide Consistent, Emits, Build, PipeOf, StepNew, NextSeg, UnsackedRunLen, Rfc6675.Valid, MarkRexmit, Resend;
    HoleInside(e, x, rescue);
    BoardOf(e);
    var off := x - e.snd.una;
    var n := MinN(MinN(UnsackedRunLen(e.snd.board, x, e.snd.nxt), MaxPayload(e)), Monus(|e.snd.tx|, off));
    if n > 0 {
      MarkedBoard(e.snd.board, x, n, rescue, e.snd.una, e.snd.nxt);
      ResendOk(e, off, n, Marked(e.snd.board, x, n, rescue), env);
      ResendSnd(e, off, n, env);
      hide Outcome;
      assert StepRepair(e, env) == RepairNow(e, x, off, n, rescue, env);
      RepairOutcome(e, x, off, n, rescue, env);
    }
  }

  lemma RepairOutcome(e: Endpoint, x: int, off: nat, n: nat, rescue: bool, env: Env)
    requires off + n <= |e.snd.tx|
    requires var (f, g) := Resend(e, off, n, env);
             var h := f.(snd := f.snd.(board := Marked(e.snd.board, x, n, rescue)));
             Consistent(h) && Emits(Again, e, h, g)
    ensures Outcome(e, RepairNow(e, x, off, n, rescue, env))
  {
    hide Consistent, Emits, Resend, Marked;
  }

  lemma ResendSnd(e: Endpoint, off: nat, n: nat, env: Env)
    requires off + n <= |e.snd.tx|
    ensures Resend(e, off, n, env).0.snd == e.snd
  {
    hide Advertise, Report, ShiftRight;
  }

  lemma StepRetransmitOk(e: Endpoint, env: Env)
    requires Consistent(e) && !e.state.Closed? && !e.state.TimeWait?
    ensures Outcome(e, StepRetransmit(e, env))
  {
    var e0 := e.(snd := e.snd.(retransmit := false));
    AlikeRetransmit(e);
    AlikeKeeps(e, e0);
    hide Alike, Consistent, Emits, Build, StepRepair, Resend, Rfc6675.Valid;
    var res := StepRetransmit(e, env);
    if e.snd.retransmit && Inflight(e.snd) > 0 {
      var n := MinN(SentData(e.snd), MaxPayload(e));
      BoardOf(e0);
      if n > 0 {
        ResendOk(e0, 0, n, e0.snd.board, env);
        ResendSnd(e0, 0, n, env);
        assert res.0 == res.0.(snd := res.0.snd.(board := e0.snd.board));
        AlikeEmits(Again, e, e0, res.0, res.1.value);
      } else if e.snd.finSeq == Some(e.snd.una) && !e.snd.finAcked {
        FinAgainOk(e0, env);
        AlikeEmits(FinAgain, e, e0, res.0, res.1.value);
      } else {
        StepRepairOk(e0, env);
        OutcomeFrom(e, e0, res);
      }
    } else {
      StepRepairOk(e, env);
    }
  }

  lemma AlikeRetransmit(e: Endpoint)
    ensures Alike(e, e.(snd := e.snd.(retransmit := false))) && Alike(e, e)
  {}

  lemma FinAgainOk(e: Endpoint, env: Env)
    requires Consistent(e) && e.snd.finSeq == Some(e.snd.una) && !e.snd.finAcked && !e.state.TimeWait?
    ensures var (f, g) := Build(e, e.snd.una, true, []);
            var h := f.(t := StartRtx(f.t, env));
            Consistent(h) && Emits(FinAgain, e, h, g)
  {
    BuildKeeps(e, e.snd, e.state, e.snd.una, true, [], env);
    BuildIs(e, e.snd.una, true, []);
    hide Build, PoolInv, SendInv, Advertise, Consistent, Core;
  }

  lemma PureAckOk(e: Endpoint)
    requires Consistent(e)
    ensures Outcome(e, PureAck(e))
  {
    hide Build, PoolInv, SendInv, Consistent, Core, ShiftLeft, ShiftRight, Report, Buffered, Stamp, Advertise;
    AlikeRetransmit(e);
    if e.rcv.needsAck {
      ConsistentFacts(e);
      var e1 := e.(rcv := e.rcv.(needsAck := false));
      PoolIgnoresFlags(e.rcv, e1.rcv, e.cfg.sack);
      AckFlagKeeps(e, e1);
      BuildIs(e1, e.snd.nxt, false, []);
      var (f, g) := Build(e1, e.snd.nxt, false, []);
      PlainKeeps(e1, f);
      AckStamp(e, e1, f, g);
      assert Emits(OnlyAck, e, f, g);
    }
  }

  lemma AckStamp(e: Endpoint, e1: Endpoint, f: Endpoint, g: Segment)
    requires e1 == e.(rcv := e.rcv.(needsAck := false)) && Stamp(e1, f, g)
    ensures Stamp(e, f, g)
  {
    hide ShiftLeft, ShiftRight, Report, Buffered;
  }

  lemma AckFlagKeeps(e: Endpoint, f: Endpoint)
    requires Consistent(e) && f == e.(rcv := f.rcv) && PoolInv(f.rcv, e.cfg.sack) && f.rcv.peerFin == e.rcv.peerFin
    ensures Consistent(f)
  {
    hide PoolInv, CcInv, SendInv;
  }

  /** One poll: either it emits the owed RST, or nothing but flags changed, or it emits one segment
      of a known kind; the invariant stays. */
  lemma PollOk(e: Endpoint, env: Env)
    requires Consistent(e)
    ensures e.owedRst.Some? ==>
              Poll(e, env).0 == e.(owedRst := None) && Poll(e, env).1.Some? && Poll(e, env).1.value.rst
    ensures e.owedRst.None? ==> Outcome(e, Poll(e, env))
    ensures Consistent(Poll(e, env).0)
  {
    AlikeRetransmit(e);
    if e.owedRst.Some? {
      RstKeeps(e);
    } else if !e.state.Closed? && !e.state.TimeWait? {
      StepRetransmitOk(e, env);
      var (e1, g) := StepRetransmit(e, env);
      hide Consistent, Emits, StepRetransmit, Alike, PureAck;
      if g.None? {
        PureAckOk(e1);
        OutcomeFrom(e, e1, PureAck(e1));
      }
    } else {
      PureAckOk(e);
    }
  }

  lemma RstKeeps(e: Endpoint)
    requires Consistent(e)
    ensures Consistent(e.(owedRst := None))
  {
    hide PoolInv, CcInv, SendInv;
  }
}
