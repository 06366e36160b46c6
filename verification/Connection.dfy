/** The invariant of one connection, kept by every entry point whatever segments arrive. */
module Connection {
  import opened Options
  import opened Serial
  import opened Runs
  import opened Rfc6675
  import opened Reassembly
  import opened Congestion
  import opened Endpoint
  import opened ReceiveSide

  /** The segment size exceeds the largest option overhead; scales are those of RFC 7323. */
  predicate ConfigOk(cfg: Config) { 36 < cfg.mss <= 0xFFFF && cfg.sndWscale <= 14 && cfg.rcvWscale <= 14 }

  predicate PlainBoard(b: Board) { b.sacked == [] && b.rexmit == [] && b.recoveryPoint.None? }

  /** The send sequence space: SND.UNA <= SND.NXT <= end of data plus the FIN, the scoreboard inside
      the outstanding window, and never SACK recovery and a go-back-N drain at once. */
  ghost predicate SendInv(s: Sender, sack: bool) {
    && s.una <= s.nxt <= DataEnd(s) + 1 && |s.tx| <= TX_BUFFER
    && (s.finSeq.None? ==> s.nxt <= DataEnd(s) && !s.finAcked)
    && (s.finSeq.Some? ==> s.finQueued)
    && (s.finSeq.Some? && !s.finAcked ==> s.finSeq.value == DataEnd(s) && s.nxt == DataEnd(s) + 1)
    && (s.finAcked ==> s.finSeq.Some? && s.tx == [] && s.una == s.nxt == s.finSeq.value + 1)
    && Rfc6675.Valid(s.board, s.una, s.nxt)
    && (!sack ==> PlainBoard(s.board))
    && (s.board.recoveryPoint.Some? ==> s.una < s.board.recoveryPoint.value <= s.nxt && s.gbn.None?)
    && (s.gbn.Some? ==> s.una < s.gbn.value <= s.nxt)
  }

  /** The state is a function of the three teardown facts, up to which FIN came first. */
  predicate StateIs(state: State, finSent: bool, finAcked: bool, peerFin: bool) {
    match state
    case Established => !finSent && !peerFin
    case CloseWait => !finSent && peerFin
    case FinWait1 => finSent && !finAcked && !peerFin
    case FinWait2 => finSent && finAcked && !peerFin
    case Closing => finSent && !finAcked && peerFin
    case LastAck => finSent && !finAcked && peerFin
    case TimeWait => finSent && finAcked && peerFin
    case Closed => true
  }

  /** The retransmission timer runs exactly while something is outstanding; the 2MSL and
      FIN-WAIT-2 timer runs in its two states and in no other live one. */
  predicate TimerInv(t: Timers, state: State, outstanding: bool) {
    && (t.rtx.Some? <==> outstanding)
    && (state.FinWait2? || state.TimeWait? ==> t.timeWait.Some?)
    && (t.timeWait.Some? ==> state.FinWait2? || state.TimeWait? || state.Closed?)
  }

  ghost predicate CcInv(c: Cc, cfg: Config) { Congestion.Inv(c) && Trusted(c.law) && c.mss == cfg.mss }

  /** All of the invariant but the state machine, which one segment may leave behind for a moment. */
  ghost predicate Core(e: Endpoint) {
    && ConfigOk(e.cfg) && SendInv(e.snd, e.cfg.sack) && PoolInv(e.rcv, e.cfg.sack) && CcInv(e.cc, e.cfg)
    && TimerInv(e.t, e.state, e.snd.una < e.snd.nxt)
  }

  ghost predicate Consistent(e: Endpoint) {
    Core(e) && StateIs(e.state, e.snd.finSeq.Some?, e.snd.finAcked, e.rcv.peerFin)
  }

  // ── ACKs ────────────────────────────────────────────────────────────────────────────────────

  lemma CcAckKeeps(c: Cc, n: nat, cfg: Config)
    requires CcInv(c, cfg)
    ensures CcInv(CcAck(c, n), cfg)
  {
    AckKeepsInv(c, n);
  }

  lemma AckCcKeeps(e: Endpoint, g: Segment, env: Env, n: nat)
    requires CcInv(e.cc, e.cfg)
    ensures CcInv(AckCc(e, g, env, n), e.cfg)
  {
    hide Congestion.Inv, Trusted, OnAck, OnEcn, CcAck;
    CcAckKeeps(e.cc, n, e.cfg);
    var inRecovery := e.cfg.sack && InRecovery(e.snd.board);
    var c1 := if inRecovery then e.cc else CcAck(e.cc, n);
    var marked := MinN(((g.ace - e.snd.aceSeen) % 8) * e.cfg.mss, n);
    EcnKeeps(c1, n, marked, e.cfg);
    var c2 := if EcnEnabled(e) && !inRecovery then OnEcn(c1, n, marked) else c1;
    CcAckKeeps(c2, 0, e.cfg);
    var c3 := if e.cfg.sack && RecoveryReached(e.snd.board, g.ack) then CcAck(c2, 0) else c2;
    if env.srtt.Some? { RttKeeps(c3, env.srtt.value, e.cfg); }
  }

  lemma EcnKeeps(c: Cc, n: nat, marked: nat, cfg: Config)
    requires CcInv(c, cfg)
    ensures CcInv(OnEcn(c, n, marked), cfg)
  {
    EcnIsSafe(c, n, marked);
  }

  lemma RttKeeps(c: Cc, s: nat, cfg: Config)
    requires CcInv(c, cfg)
    ensures CcInv(OnRtt(c, s), cfg)
  {}

  lemma LossKeeps(c: Cc, flight: nat, cfg: Config)
    requires CcInv(c, cfg) && flight <= U32_MAX
    ensures CcInv(OnDupAck(c, flight).0, cfg) && CcInv(EnterRecovery(c, flight), cfg)
    ensures CcInv(Congestion.OnRto(c, flight), cfg)
  {
    hide LossTarget;
    LossIsSafe(c, flight);
    LossIsSafe(c.(dupAcks := MinN(c.dupAcks + 1, 255)), flight);
  }

  lemma AckBoardKeeps(e: Endpoint, ack: int)
    requires SendInv(e.snd, e.cfg.sack) && e.snd.una < ack <= e.snd.nxt
    ensures Rfc6675.Valid(AckBoard(e, ack), ack, e.snd.nxt)
    ensures !e.cfg.sack ==> PlainBoard(AckBoard(e, ack))
    ensures var rp := AckBoard(e, ack).recoveryPoint;
            rp.Some? ==> rp == e.snd.board.recoveryPoint && ack < rp.value
  {
    hide TrimBoard;
    if e.cfg.sack {
      TrimKeepsValid(e.snd.board, ack, e.snd.una, e.snd.nxt);
      ExitKeepsValid(TrimBoard(e.snd.board, ack), ack, e.snd.nxt);
      TrimKeepsPoint(e.snd.board, ack);
    }
  }

  lemma TrimKeepsPoint(b: Board, una: int)
    ensures TrimBoard(b, una).recoveryPoint == b.recoveryPoint
  {}

  lemma ExitKeepsValid(b: Board, lo: int, hi: int)
    requires Rfc6675.Valid(b, lo, hi)
    ensures Rfc6675.Valid(ExitRecovery(b), lo, hi) && Rfc6675.Valid(Rfc6675.OnRto(b), lo, hi)
  {}

  lemma AdvanceSend(e: Endpoint, g: Segment, env: Env)
    requires SendInv(e.snd, e.cfg.sack) && e.snd.una < g.ack <= e.snd.nxt
    ensures SendInv(Advance(e, g, env).snd, e.cfg.sack)
  {
    AckBoardKeeps(e, g.ack);
    hide AckCc, AckBoard, Rfc6675.Valid;
  }

  lemma AdvanceShape(e: Endpoint, g: Segment, env: Env)
    requires e.snd.una < g.ack <= e.snd.nxt && TimerInv(e.t, e.state, e.snd.una < e.snd.nxt) && !e.state.TimeWait?
    ensures var f := Advance(e, g, env);
            && f == e.(snd := f.snd, cc := AckCc(e, g, env, MinN(g.ack - e.snd.una, |e.snd.tx|)), t := f.t)
            && f.snd.nxt == e.snd.nxt && f.snd.finSeq == e.snd.finSeq && f.snd.una == g.ack
            && (e.snd.finAcked ==> f.snd.finAcked) && TimerInv(f.t, e.state, g.ack < e.snd.nxt)
  {
    hide AckCc, AckBoard;
  }

  lemma AdvanceKeeps(e: Endpoint, g: Segment, env: Env)
    requires Core(e) && e.snd.una < g.ack <= e.snd.nxt && !e.state.TimeWait?
    ensures Core(Advance(e, g, env))
    ensures var f := Advance(e, g, env);
            && f.rcv == e.rcv && f.cfg == e.cfg && f.state == e.state && f.snd.nxt == e.snd.nxt
            && f.snd.finSeq == e.snd.finSeq
            && f.snd.una == g.ack && (e.snd.finAcked ==> f.snd.finAcked) && f.cc.law == e.cc.law
  {
    hide SendInv, PoolInv, CcInv, ConfigOk, TimerInv, Advance, AckCc, StateIs;
    AckCcKeeps(e, g, env, MinN(g.ack - e.snd.una, |e.snd.tx|));
    LawStays(e, g, env, MinN(g.ack - e.snd.una, |e.snd.tx|));
    AdvanceSend(e, g, env);
    AdvanceShape(e, g, env);
  }

  lemma LawStays(e: Endpoint, g: Segment, env: Env, n: nat)
    ensures AckCc(e, g, env, n).law == e.cc.law
  {
    hide CcAck, OnEcn, OnRtt, RecoveryReached, InRecovery;
    var inRecovery := e.cfg.sack && InRecovery(e.snd.board);
    var marked := MinN(((g.ace - e.snd.aceSeen) % 8) * e.cfg.mss, n);
    EventLaw(e.cc, n, 0, 0);
    var c1 := if inRecovery then e.cc else CcAck(e.cc, n);
    EventLaw(c1, n, marked, 0);
    var c2 := if EcnEnabled(e) && !inRecovery then OnEcn(c1, n, marked) else c1;
    EventLaw(c2, 0, 0, 0);
    var c3 := if e.cfg.sack && RecoveryReached(e.snd.board, g.ack) then CcAck(c2, 0) else c2;
    if env.srtt.Some? { EventLaw(c3, 0, 0, env.srtt.value); }
  }

  /** No event changes which law a controller follows. */
  lemma EventLaw(c: Cc, n: nat, marked: nat, srtt: nat)
    ensures CcAck(c, n).law == c.law && OnEcn(c, n, marked).law == c.law && OnRtt(c, srtt).law == c.law
  {
    hide Drain, LossTarget, CutWindow, IncreaseOf;
  }

  lemma SendIgnoresWindow(s: Sender, s': Sender, sack: bool)
    requires SendInv(s, sack) && s' == s.(wnd := s'.wnd, wl1 := s'.wl1, wl2 := s'.wl2, sendProbe := s'.sendProbe)
    ensures SendInv(s', sack)
  {
    hide Rfc6675.Valid;
  }

  lemma UpdateWindowShape(e: Endpoint, g: Segment)
    ensures var f := UpdateWindow(e, g);
            && f == e.(snd := e.snd.(wnd := f.snd.wnd, wl1 := f.snd.wl1, wl2 := f.snd.wl2,
                                     sendProbe := f.snd.sendProbe), t := f.t)
            && f.t.rtx == e.t.rtx && f.t.timeWait == e.t.timeWait
  {
    hide ShiftLeft, Lt, Le, Wire;
  }

  lemma UpdateWindowKeeps(e: Endpoint, g: Segment)
    requires Core(e)
    ensures var f := UpdateWindow(e, g);
            Core(f) && f.rcv == e.rcv && f.cfg == e.cfg && f.state == e.state && f.cc == e.cc && f.owedRst == e.owedRst
            && f.snd == e.snd.(wnd := f.snd.wnd, wl1 := f.snd.wl1, wl2 := f.snd.wl2, sendProbe := f.snd.sendProbe)
            && f.t.rtx == e.t.rtx
  {
    hide UpdateWindow, SendInv, PoolInv, CcInv, ConfigOk;
    UpdateWindowShape(e, g);
    SendIgnoresWindow(e.snd, UpdateWindow(e, g).snd, e.cfg.sack);
  }

  /** What ACK processing leaves alone. */
  predicate AckFrame(e: Endpoint, f: Endpoint) {
    && f.cfg == e.cfg && f.state == e.state && f.snd.nxt == e.snd.nxt && f.snd.finSeq == e.snd.finSeq
    && f.snd.una >= e.snd.una && (e.snd.finAcked ==> f.snd.finAcked) && f.cc.law == e.cc.law
  }

  lemma ProcessAckKeeps(e: Endpoint, g: Segment, env: Env)
    requires Core(e) && !e.state.TimeWait?
    ensures Core(ProcessAck(e, g, env).0) && AckFrame(e, ProcessAck(e, g, env).0)
    ensures ProcessAck(e, g, env).1 ==>
              && ProcessAck(e, g, env).0.rcv == e.rcv
              && ProcessAck(e, g, env).0.snd.una == Larger(e.snd.una, g.ack)
  {
    hide Advance, UpdateWindow, SendInv, PoolInv, CcInv;
    if g.ack <= e.snd.nxt {
      if g.ack > e.snd.una {
        AdvanceKeeps(e, g, env);
        UpdateWindowKeeps(Advance(e, g, env), g);
      } else {
        UpdateWindowKeeps(e, g);
      }
    } else {
      AckFlagKeepsPool(e.rcv, e.cfg.sack);
    }
  }

  lemma AckFlagKeepsPool(r: Receiver, sack: bool)
    requires PoolInv(r, sack)
    ensures PoolInv(r.(needsAck := true), sack) && PoolInv(r.(needsAck := false), sack)
  {}

  // ── loss detection ──────────────────────────────────────────────────────────────────────────

  lemma LostImpliesOutstanding(b: Board, una: int, nxt: int, mss: nat)
    requires Rfc6675.Valid(b, una, nxt) && IsLost(b, una, mss)
    ensures una < nxt
  {}

  /** New blocks and possibly a new recovery point keep the send space as it was. */
  lemma BoardKeepsSend(s: Sender, b: Board, sack: bool)
    requires SendInv(s, sack) && Rfc6675.Valid(b, s.una, s.nxt) && sack
    requires b.recoveryPoint == s.board.recoveryPoint ||
             (b.recoveryPoint == Some(s.nxt) && s.una < s.nxt && s.gbn.None?)
    ensures SendInv(s.(board := b), sack)
  {}

  lemma CountDupKeeps(e: Endpoint, dup: bool)
    requires Core(e)
    ensures var c := CountDup(e.cc, dup, Inflight(e.snd)).0;
            && CcInv(c, e.cfg) && c.law == e.cc.law
            && CcInv(EnterRecovery(c, Inflight(e.snd)), e.cfg) && EnterRecovery(c, Inflight(e.snd)).law == e.cc.law
  {
    hide OnDupAck, EnterRecovery, PoolInv, CcInv;
    var flight := Inflight(e.snd);
    LossKeeps(e.cc, flight, e.cfg);
    LossKeeps(CountDup(e.cc, dup, flight).0, flight, e.cfg);
    EnterLaw(e.cc, flight);
    EnterLaw(CountDup(e.cc, dup, flight).0, flight);
  }

  lemma DetectSackKeeps(e: Endpoint, g: Segment, dup: bool, env: Env)
    requires Core(e) && (dup ==> e.snd.una < e.snd.nxt) && e.cfg.sack
    ensures Core(DetectSack(e, g, dup, env))
  {
    var s := e.snd;
    SendWindow(s, e.cfg.sack);
    UpdateExact(s.board, s.una, s.nxt, g.blocks, s.una, s.nxt);
    var b := Update(s.board, s.una, s.nxt, g.blocks);
    assert b.recoveryPoint == s.board.recoveryPoint;
    BeginKeepsValid(b, s.una, s.nxt);
    CountDupKeeps(e, dup);
    hide PoolInv, CcInv, Rfc6675.Valid, Update, CountDup, EnterRecovery, SendInv, IsLost, Inflight;
    BoardKeepsSend(s, b, true);
    var (c1, three) := CountDup(e.cc, dup, Inflight(s));
    ThirdIsDup(e.cc, dup, Inflight(s));
    if !InRecovery(b) && s.gbn.None? && (three || IsLost(b, s.una, e.cfg.mss)) {
      if !three { LostImpliesOutstanding(b, s.una, s.nxt, e.cfg.mss); }
      BoardKeepsSend(s, BeginRecovery(b, s.nxt), true);
    }
  }

  lemma ThirdIsDup(c: Cc, dup: bool, flight: nat)
    ensures CountDup(c, dup, flight).1 ==> dup
  {}

  lemma SendWindow(s: Sender, sack: bool)
    requires SendInv(s, sack)
    ensures s.una <= s.nxt && Rfc6675.Valid(s.board, s.una, s.nxt)
  {}

  lemma DetectPlainKeeps(e: Endpoint, dup: bool, env: Env)
    requires Core(e) && (dup ==> e.snd.una < e.snd.nxt)
    ensures Core(DetectPlain(e, dup, env))
  {
    CountDupKeeps(e, dup);
    ThirdIsDup(e.cc, dup, Inflight(e.snd));
    hide PoolInv, CcInv, CountDup, Rfc6675.Valid;
  }

  lemma DetectFrame(e: Endpoint, g: Segment, dup: bool, env: Env)
    ensures var f := DetectLoss(e, g, dup, env);
            && f.cfg == e.cfg && f.state == e.state && f.rcv == e.rcv
            && f.snd == e.snd.(board := f.snd.board, retransmit := f.snd.retransmit)
  {
    hide CountDup, EnterRecovery, Update, IsLost, InRecovery, BeginRecovery, Inflight;
    if e.cfg.sack {
      assert DetectLoss(e, g, dup, env) == DetectSack(e, g, dup, env);
    } else {
      assert DetectLoss(e, g, dup, env) == DetectPlain(e, dup, env);
    }
  }

  lemma DetectLaw(e: Endpoint, g: Segment, dup: bool, env: Env)
    requires Core(e)
    ensures DetectLoss(e, g, dup, env).cc.law == e.cc.law
  {
    CountDupKeeps(e, dup);
    hide CountDup, EnterRecovery, Update, IsLost, InRecovery, BeginRecovery, Inflight, Core;
  }

  lemma DetectLossKeeps(e: Endpoint, g: Segment, dup: bool, env: Env)
    requires Core(e) && (dup ==> e.snd.una < e.snd.nxt)
    ensures Core(DetectLoss(e, g, dup, env)) && AckFrame(e, DetectLoss(e, g, dup, env))
    ensures DetectLoss(e, g, dup, env).rcv == e.rcv && DetectLoss(e, g, dup, env).snd.finAcked == e.snd.finAcked
    ensures DetectLoss(e, g, dup, env).snd.una == e.snd.una && DetectLoss(e, g, dup, env).snd.tx == e.snd.tx
  {
    DetectFrame(e, g, dup, env);
    DetectLaw(e, g, dup, env);
    if e.cfg.sack { DetectSackKeeps(e, g, dup, env); } else { DetectPlainKeeps(e, dup, env); }
    hide Core, DetectSack, DetectPlain;
  }

  lemma BeginKeepsValid(b: Board, una: int, nxt: int)
    requires Rfc6675.Valid(b, una, nxt)
    ensures Rfc6675.Valid(BeginRecovery(b, nxt), una, nxt)
  {}

  lemma EnterLaw(c: Cc, flight: nat)
    ensures EnterRecovery(c, flight).law == c.law && OnDupAck(c, flight).0.law == c.law
    ensures Congestion.OnRto(c, flight).law == c.law
  {
    hide LossTarget;
  }

  // ── data, FIN, state ────────────────────────────────────────────────────────────────────────

  lemma PoolIgnoresFlags(r: Receiver, d: Receiver, sack: bool)
    requires PoolInv(r, sack)
    requires d.nxt == r.nxt && d.adv == r.adv && d.rx == r.rx && d.reasm == r.reasm && d.peerFin == r.peerFin
    ensures PoolInv(d, sack)
  {}

  lemma DataStepKeeps(e: Endpoint, g: Segment, env: Env)
    requires Core(e)
    ensures var f := DataStep(e, g, env);
            && Core(f) && f.snd == e.snd && f.cc == e.cc && f.state == e.state && f.cfg == e.cfg
            && f.rcv.nxt >= e.rcv.nxt && f.rcv.peerFin == e.rcv.peerFin
  {
    hide PoolInv, CcInv, SendInv, Absorb, InOrder, Deliver, TrimLeft, Buffered, Accepted;
    if g.payload != [] {
      AbsorbKeepsPool(e.rcv, g, e.cfg.sack);
      PoolIgnoresFlags(Absorb(e.rcv, g, e.cfg.sack), DataStep(e, g, env).rcv, e.cfg.sack);
    }
  }

  lemma ClosingStep(state: State, finSent: bool, finAcked: bool, peerFin: bool, finAcked': bool, peerFin': bool)
    requires StateIs(state, finSent, finAcked, peerFin)
    requires (finAcked ==> finAcked') && (peerFin ==> peerFin') && (finAcked' ==> finSent)
    ensures StateIs(ClosingState(state, finAcked', peerFin'), finSent, finAcked', peerFin')
  {}

  lemma RecomputeKeeps(e: Endpoint, env: Env, finAcked: bool, peerFin: bool)
    requires Core(e) && StateIs(e.state, e.snd.finSeq.Some?, finAcked, peerFin)
    requires (finAcked ==> e.snd.finAcked) && (peerFin ==> e.rcv.peerFin)
    ensures Consistent(RecomputeClosing(e, env))
    ensures RecomputeClosing(e, env) == e.(state := RecomputeClosing(e, env).state, t := RecomputeClosing(e, env).t)
  {
    hide PoolInv, CcInv, Rfc6675.Valid;
    ClosingStep(e.state, e.snd.finSeq.Some?, finAcked, peerFin, e.snd.finAcked, e.rcv.peerFin);
  }

  lemma ProcessKeeps(e: Endpoint, g: Segment, env: Env)
    requires Consistent(e) && !e.state.TimeWait?
    ensures Consistent(Process(e, g, env))
    ensures var f := Process(e, g, env);
            && f.cfg == e.cfg && f.cc.law == e.cc.law && f.snd.nxt == e.snd.nxt && f.snd.una >= e.snd.una
            && f.snd.finSeq == e.snd.finSeq && f.rcv.nxt >= e.rcv.nxt
  {
    var (e1, ok) := ProcessAck(e, g, env);
    ProcessAckKeeps(e, g, env);
    if ok {
      var dup := IsDupAck(e, g);
      assert dup ==> e1.snd.una == e.snd.una < e.snd.nxt == e1.snd.nxt by { SendOrder(e.snd, e.cfg.sack); }
      hide ProcessAck, DetectLoss, DataStep, SendInv, PoolInv, CcInv, RecomputeClosing, FinArrives, FinFromPending;
      DetectLossKeeps(e1, g, dup, env);
      var e2 := DetectLoss(e1, g, dup, env);
      DataStepKeeps(e2, g, env);
      var e3 := DataStep(e2, g, env);
      FinKeepsPool(e3.rcv, g, e.cfg.sack);
      FinOnlySets(e3.rcv, g);
      var e4 := e3.(rcv := FinFromPending(FinArrives(e3.rcv, g)));
      RecomputeKeeps(e4, env, e.snd.finAcked, e.rcv.peerFin);
    } else {
      NotOkKeeps(e, g, env);
    }
  }

  lemma SendOrder(s: Sender, sack: bool)
    requires SendInv(s, sack)
    ensures s.una <= s.nxt
  {}

  lemma FinOnlySets(r: Receiver, g: Segment)
    ensures r.peerFin ==> FinFromPending(FinArrives(r, g)).peerFin
  {}

  lemma NotOkKeeps(e: Endpoint, g: Segment, env: Env)
    requires !ProcessAck(e, g, env).1
    ensures ProcessAck(e, g, env).0 == e.(rcv := e.rcv.(needsAck := true))
  {}

  /** Every segment, well formed or not, keeps the invariant. */
  lemma OnSegmentKeeps(e: Endpoint, g: Segment, env: Env)
    requires Consistent(e)
    ensures Consistent(OnSegment(e, g, env))
    ensures var f := OnSegment(e, g, env);
            && f.cfg == e.cfg && f.cc.law == e.cc.law && f.snd.nxt == e.snd.nxt && f.snd.una >= e.snd.una
            && f.snd.finSeq == e.snd.finSeq && f.rcv.nxt >= e.rcv.nxt
  {
    hide SendInv, PoolInv, CcInv, Process;
    AckFlagKeepsPool(e.rcv, e.cfg.sack);
    TimeWaitIsDone(e);
    if !g.rst && !e.state.TimeWait? && !g.syn && Acceptable(e.rcv, g) && g.hasAck {
      ProcessKeeps(e, g, env);
    }
  }

  lemma TimeWaitIsDone(e: Endpoint)
    requires Consistent(e)
    ensures e.state.TimeWait? ==> e.snd.una == e.snd.nxt
  {}
}
