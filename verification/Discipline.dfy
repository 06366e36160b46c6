/** Recovery and teardown over whole runs of one connection, against any peer. */
module Discipline {
  import opened Options
  import opened Serial
  import opened Runs
  import opened Rfc6675
  import opened Reassembly
  import opened Congestion
  import opened Endpoint
  import opened ReceiveSide
  import opened Connection
  import opened Sending
  import opened ConnectionRuns
  import Responses

  // ── recovery ────────────────────────────────────────────────────────────────────────────────

  /** SACK recovery and the post-timeout drain exclude each other, and each has its goal inside the
      outstanding window. */
  lemma RecoveryShape(e: Endpoint, events: seq<Input>)
    requires Consistent(e)
    ensures var s := After(e, events).snd;
            && !(InRecovery(s.board) && s.gbn.Some?)
            && (InRecovery(s.board) ==> s.una < s.board.recoveryPoint.value <= s.nxt)
            && (s.gbn.Some? ==> s.una < s.gbn.value <= s.nxt)
  {
    EveryRunIsConsistent(e, events);
  }

  /** What a poll leaves alone. */
  lemma PollFrame(e: Endpoint, env: Env)
    requires Consistent(e)
    ensures var f := Poll(e, env).0;
            && f.snd.una == e.snd.una && f.snd.nxt >= e.snd.nxt && f.cc == e.cc
            && f.snd.board.recoveryPoint == e.snd.board.recoveryPoint
            && (f.state == e.state || f.state.FinWait1? || f.state.LastAck?)
  {
    PollOk(e, env);
    hide Consistent, Poll, Stamp;
    if e.owedRst.None? && Poll(e, env).1.Some? {
      var k :| Emits(k, e, Poll(e, env).0, Poll(e, env).1.value);
    }
  }

  /** Neither SND.UNA nor SND.NXT ever moves back. */
  lemma SendSpaceMovesForward(e: Endpoint, ev: Input)
    requires Consistent(e)
    ensures e.snd.una <= Step(e, ev).snd.una && e.snd.nxt <= Step(e, ev).snd.nxt
  {
    hide Consistent, OnSegment, Poll, OnTimer, Send, Recv;
    match ev {
      case Arrive(g, env) => OnSegmentKeeps(e, g, env);
      case DoPoll(env) => PollFrame(e, env);
      case Tick(env) => TimerSpaceStays(e, env);
      case _ => AppLeavesSpace(e, ev);
    }
  }

  lemma AppLeavesSpace(e: Endpoint, ev: Input)
    requires ev.AppSend? || ev.AppRecv? || ev.AppClose?
    ensures Step(e, ev).snd.una == e.snd.una && Step(e, ev).snd.nxt == e.snd.nxt && Step(e, ev).cc == e.cc
  {}

  lemma TimerSpaceStays(e: Endpoint, env: Env)
    requires Consistent(e)
    ensures OnTimer(e, env).snd.una == e.snd.una && OnTimer(e, env).snd.nxt == e.snd.nxt
  {
    hide Consistent, RtxTimer;
    RtxTimerKeeps(e, env);
  }

  lemma {:induction false} RunsMoveForward(e: Endpoint, events: seq<Input>)
    requires Consistent(e)
    ensures e.snd.una <= After(e, events).snd.una && e.snd.nxt <= After(e, events).snd.nxt
    decreases |events|
  {
    hide Consistent, Step;
    if events != [] {
      StepKeeps(e, events[0]);
      SendSpaceMovesForward(e, events[0]);
      RunsMoveForward(Step(e, events[0]), events[1..]);
    }
  }

  /** Whatever is sent again lies inside [SND.UNA, SND.NXT) and leaves SND.NXT alone. */
  lemma ResendsStayInside(e: Endpoint, env: Env)
    requires Consistent(e) && e.owedRst.None? && Poll(e, env).1.Some?
    ensures var (f, g) := Poll(e, env);
            g.value.seqNo < e.snd.nxt ==>
              && e.snd.una <= g.value.seqNo && f.snd.nxt == e.snd.nxt
              && g.value.seqNo + |g.value.payload| + (if g.value.fin then 1 else 0) <= e.snd.nxt
  {
    PollOk(e, env);
    ConsistentFacts(e);
    hide Consistent, Poll, Stamp, SendFrame, PoolInv, CcInv;
    var k :| Emits(k, e, Poll(e, env).0, Poll(e, env).1.value);
  }

  lemma AckZero(c: Cc)
    ensures CcAck(c, 0).cwnd == c.cwnd && CcAck(c, 0).ssthresh == c.ssthresh
  {}

  lemma RttHolds(c: Cc, s: nat)
    ensures OnRtt(c, s).cwnd == c.cwnd
  {}

  /** An ACK inside an episode leaves the window alone. */
  lemma AckHoldsWindow(e: Endpoint, g: Segment, env: Env, n: nat)
    requires e.cfg.sack && InRecovery(e.snd.board)
    ensures AckCc(e, g, env, n).cwnd == e.cc.cwnd
  {
    hide CcAck, OnEcn, OnRtt;
    AckZero(e.cc);
    var c3 := if e.cfg.sack && RecoveryReached(e.snd.board, g.ack) then CcAck(e.cc, 0) else e.cc;
    if env.srtt.Some? { RttHolds(c3, env.srtt.value); }
  }

  lemma ProcessAckWindow(e: Endpoint, g: Segment, env: Env)
    requires e.cfg.sack && InRecovery(e.snd.board)
    ensures ProcessAck(e, g, env).0.cc.cwnd == e.cc.cwnd
  {
    AckHoldsWindow(e, g, env, MinN(if g.ack >= e.snd.una then g.ack - e.snd.una else 0, |e.snd.tx|));
    hide AckCc, AckBoard, ShiftLeft, Lt, Le, Wire;
  }

  lemma ProcessAckBoard(e: Endpoint, g: Segment, env: Env)
    requires e.cfg.sack && InRecovery(e.snd.board)
    ensures var rp := ProcessAck(e, g, env).0.snd.board.recoveryPoint;
            && (rp == e.snd.board.recoveryPoint || rp.None?)
            && (rp.None? ==> e.snd.board.recoveryPoint.value <= ProcessAck(e, g, env).0.snd.una)
  {
    TrimKeepsPoint(e.snd.board, g.ack);
    hide AckCc, TrimBoard, ShiftLeft, Lt, Le, Wire;
  }

  lemma DetectHoldsWindow(e: Endpoint, g: Segment, dup: bool, env: Env)
    requires e.cfg.sack && InRecovery(e.snd.board)
    ensures DetectLoss(e, g, dup, env).cc == e.cc
    ensures DetectLoss(e, g, dup, env).snd.board.recoveryPoint == e.snd.board.recoveryPoint
  {
    hide AddBlocks;
  }

  /** Only loss detection moves the recovery point or the window after the ACK itself. */
  lemma TailKeepsRecovery(e: Endpoint, g: Segment, env: Env)
    ensures var (e1, ok) := ProcessAck(e, g, env);
            var e2 := DetectLoss(e1, g, IsDupAck(e, g), env);
            ok ==> Process(e, g, env).cc == e2.cc && Process(e, g, env).snd == e2.snd
    ensures !ProcessAck(e, g, env).1 ==> Process(e, g, env) == ProcessAck(e, g, env).0
  {
    hide ProcessAck, DetectLoss, Absorb, InOrder, Accepted, TrimLeft, Deliver, FinArrives, FinFromPending;
  }

  lemma DetectPoint(e: Endpoint, g: Segment, dup: bool, env: Env)
    requires e.cfg.sack && !InRecovery(e.snd.board)
    ensures var rp := DetectLoss(e, g, dup, env).snd.board.recoveryPoint; rp.None? || rp == Some(e.snd.nxt)
  {
    hide AddBlocks, CountDup, IsLost, EnterRecovery;
  }

  /** While one recovery episode lasts, whatever arrives, the window does not change. */
  lemma SegmentHoldsWindow(e: Endpoint, g: Segment, env: Env)
    requires Consistent(e) && e.cfg.sack && InRecovery(e.snd.board)
    requires OnSegment(e, g, env).snd.board.recoveryPoint == e.snd.board.recoveryPoint
    ensures OnSegment(e, g, env).cc.cwnd == e.cc.cwnd
  {
    if !g.rst && !e.state.TimeWait? && !g.syn && Acceptable(e.rcv, g) && g.hasAck {
      ConsistentFacts(e);
      ProcessAckBoard(e, g, env);
      ProcessAckWindow(e, g, env);
      ProcessAckKeeps(e, g, env);
      TailKeepsRecovery(e, g, env);
      var (e1, ok) := ProcessAck(e, g, env);
      hide Consistent, Core, ProcessAck, DetectLoss, Process, SendInv, PoolInv, CcInv;
      assert OnSegment(e, g, env) == Process(e, g, env);
      if ok {
        if InRecovery(e1.snd.board) {
          DetectHoldsWindow(e1, g, IsDupAck(e, g), env);
        } else {
          DetectPoint(e1, g, IsDupAck(e, g), env);
          RecoveryPointAhead(e1, g, env, IsDupAck(e, g));
        }
      }
    }
  }

  /** A new episode's point lies strictly above SND.UNA, so it is never a finished one's. */
  lemma RecoveryPointAhead(e: Endpoint, g: Segment, env: Env, dup: bool)
    requires Core(e) && (dup ==> e.snd.una < e.snd.nxt)
    ensures var f := DetectLoss(e, g, dup, env);
            f.snd.board.recoveryPoint.Some? ==> f.snd.board.recoveryPoint.value > e.snd.una
  {
    DetectLossKeeps(e, g, dup, env);
  }

  /** The episode with recovery point `p` is under way now and after every input. */
  ghost predicate Episode(e: Endpoint, events: seq<Input>, p: int)
    decreases |events|
  {
    e.snd.board.recoveryPoint == Some(p) && (events == [] || Episode(Step(e, events[0]), events[1..], p))
  }

  /** Over any run inside one episode the window is constant. */
  lemma {:induction false} EpisodeHoldsWindow(e: Endpoint, events: seq<Input>, p: int)
    requires Consistent(e) && Episode(e, events, p)
    ensures After(e, events).cc.cwnd == e.cc.cwnd
    decreases |events|
  {
    if events != [] {
      RecoveryNeedsSack(e);
      hide Consistent, Step;
      StepKeeps(e, events[0]);
      StepHoldsWindow(e, events[0]);
      EpisodeHoldsWindow(Step(e, events[0]), events[1..], p);
    }
  }

  lemma RecoveryNeedsSack(e: Endpoint)
    requires Consistent(e) && InRecovery(e.snd.board)
    ensures e.cfg.sack
  {}

  lemma StepHoldsWindow(e: Endpoint, ev: Input)
    requires Consistent(e) && e.cfg.sack && InRecovery(e.snd.board)
    requires Step(e, ev).snd.board.recoveryPoint == e.snd.board.recoveryPoint
    ensures Step(e, ev).cc.cwnd == e.cc.cwnd
  {
    hide Consistent, OnSegment, Poll, OnTimer, Send, Recv;
    match ev {
      case Arrive(g, env) => SegmentHoldsWindow(e, g, env);
      case DoPoll(env) => PollFrame(e, env);
      case Tick(env) => TimeoutEndsEpisode(e, env);
      case _ => AppLeavesSpace(e, ev);
    }
  }

  lemma TimeoutEndsEpisode(e: Endpoint, env: Env)
    requires e.cfg.sack && InRecovery(e.snd.board)
    ensures OnTimer(e, env).snd.board.recoveryPoint.None? || OnTimer(e, env).cc == e.cc
  {
    hide Congestion.OnRto;
  }

  // ── one rescue an episode ───────────────────────────────────────────────────────────────────

  /** The poll resends octets and marks them, although no octet of the window counts as lost. */
  ghost predicate Rescues(e: Endpoint, ev: Input) {
    && ev.DoPoll? && Step(e, ev).snd.board.rexmit != e.snd.board.rexmit
    && forall y :: e.snd.una <= y < e.snd.nxt ==> !Repairable(e.snd.board, y, e.cfg.mss)
  }

  ghost function RescueCount(e: Endpoint, events: seq<Input>): nat
    decreases |events|
  {
    if events == [] then 0
    else (if Rescues(e, events[0]) then 1 else 0) + RescueCount(Step(e, events[0]), events[1..])
  }

  /** The scoreboard is as before, or one repair named by NextSeg was marked on it. */
  ghost predicate BoardStep(e: Endpoint, b: Board) {
    || b == e.snd.board
    || exists x, n, rescue :: && NextSeg(e.snd.board, e.snd.una, e.snd.nxt, e.cfg.mss) == Some((x, rescue))
                              && b == Marked(e.snd.board, x, n, rescue)
  }

  lemma StepNewBoard(e: Endpoint, env: Env)
    ensures StepNew(e, env).0.snd.board == e.snd.board
  {
    PacedFlags(e, env);
    hide Paced, PipeOf, Advertise, Report, ShiftRight, MaxPayload;
  }

  lemma StepRepairBoard(e: Endpoint, env: Env)
    ensures BoardStep(e, StepRepair(e, env).0.snd.board)
  {
    hide StepNew, NextSeg, PipeOf, MaxPayload, UnsackedRunLen, Marked, Resend;
    StepNewBoard(e, env);
  }

  lemma PollBoard(e: Endpoint, env: Env)
    ensures BoardStep(e, Poll(e, env).0.snd.board)
  {
    hide StepRepair, BoardStep, Advertise, Report, ShiftRight, MaxPayload;
    BoardStays(e);
    if !e.state.Closed? && !e.state.TimeWait? {
      var e0 := e.(snd := e.snd.(retransmit := false));
      StepRepairBoard(e, env);
      StepRepairBoard(e0, env);
      BoardSame(e, e0, StepRepair(e0, env).0.snd.board);
    }
  }

  lemma BoardStays(e: Endpoint)
    ensures BoardStep(e, e.snd.board)
  {}

  lemma BoardSame(e: Endpoint, e0: Endpoint, b: Board)
    requires e0.snd.board == e.snd.board && e0.snd.una == e.snd.una && e0.snd.nxt == e.snd.nxt && e0.cfg == e.cfg
    ensures BoardStep(e0, b) <==> BoardStep(e, b)
  {
    hide Marked, NextSeg;
  }

  /** Within an episode the flag is set by a rescue, only by one, and stays set. */
  ghost predicate FlagMoves(e: Endpoint, ev: Input) {
    var f := Step(e, ev);
    && (e.snd.board.rescueDone ==> f.snd.board.rescueDone)
    && (Rescues(e, ev) ==> !e.snd.board.rescueDone && f.snd.board.rescueDone)
  }

  lemma PollFlag(e: Endpoint, env: Env)
    ensures FlagMoves(e, DoPoll(env))
  {
    hide Poll, NextSeg, Repairable;
    PollBoard(e, env);
    NextSegIsLowest(e.snd.board, e.snd.una, e.snd.nxt, e.cfg.mss);
  }

  lemma AckFlag(e: Endpoint, g: Segment, env: Env)
    requires e.cfg.sack && InRecovery(e.snd.board)
    ensures var b := ProcessAck(e, g, env).0.snd.board; b.recoveryPoint.Some? ==> b.rescueDone == e.snd.board.rescueDone
  {
    hide Advance, UpdateWindow, AckBoard;
    if e.snd.una < g.ack <= e.snd.nxt {
      AdvanceBoard(e, g, env);
      WindowBoard(Advance(e, g, env), g);
    }
    WindowBoard(e, g);
  }

  lemma AdvanceBoard(e: Endpoint, g: Segment, env: Env)
    requires e.snd.una < g.ack <= e.snd.nxt && e.cfg.sack
    ensures var b := Advance(e, g, env).snd.board; b.recoveryPoint.Some? ==> b.rescueDone == e.snd.board.rescueDone
  {
    hide AckCc, Trim;
  }

  lemma WindowBoard(e: Endpoint, g: Segment)
    ensures UpdateWindow(e, g).snd.board == e.snd.board
  {
    hide ShiftLeft, Lt, Le, Wire;
  }

  lemma DetectFlag(e: Endpoint, g: Segment, dup: bool, env: Env)
    requires e.cfg.sack && InRecovery(e.snd.board)
    ensures DetectLoss(e, g, dup, env).snd.board.rescueDone == e.snd.board.rescueDone
  {
    hide AddBlocks;
  }

  lemma SegmentFlag(e: Endpoint, g: Segment, env: Env)
    requires Consistent(e) && e.cfg.sack && InRecovery(e.snd.board)
    requires OnSegment(e, g, env).snd.board.recoveryPoint == e.snd.board.recoveryPoint
    ensures OnSegment(e, g, env).snd.board.rescueDone == e.snd.board.rescueDone
  {
    if !g.rst && !e.state.TimeWait? && !g.syn && Acceptable(e.rcv, g) && g.hasAck {
      ConsistentFacts(e);
      ProcessAckBoard(e, g, env);
      AckFlag(e, g, env);
      ProcessAckKeeps(e, g, env);
      TailKeepsRecovery(e, g, env);
      var (e1, ok) := ProcessAck(e, g, env);
      hide Consistent, Core, ProcessAck, DetectLoss, Process, SendInv, PoolInv, CcInv;
      assert OnSegment(e, g, env) == Process(e, g, env);
      if ok {
        if InRecovery(e1.snd.board) {
          DetectFlag(e1, g, IsDupAck(e, g), env);
        } else {
          RecoveryPointAhead(e1, g, env, IsDupAck(e, g));
          DetectPoint(e1, g, IsDupAck(e, g), env);
        }
      }
    }
  }

  lemma TimeoutFlag(e: Endpoint, env: Env)
    requires e.cfg.sack && InRecovery(e.snd.board)
    ensures OnTimer(e, env).snd.board.recoveryPoint.None? || OnTimer(e, env).snd.board == e.snd.board
  {
    hide Congestion.OnRto;
  }

  lemma EpisodeFlag(e: Endpoint, ev: Input)
    requires Consistent(e) && e.cfg.sack && InRecovery(e.snd.board)
    requires Step(e, ev).snd.board.recoveryPoint == e.snd.board.recoveryPoint
    ensures FlagMoves(e, ev)
  {
    hide Consistent, OnSegment, Poll, OnTimer;
    match ev {
      case Arrive(g, env) => SegmentFlag(e, g, env);
      case DoPoll(env) => PollFlag(e, env);
      case Tick(env) => TimeoutFlag(e, env);
      case _ =>
    }
  }

  /** Over any run inside one episode, whatever arrives and however often it polls, at most one poll
      resends octets that do not count as lost. */
  lemma {:induction false} OneRescueAnEpisode(e: Endpoint, events: seq<Input>, p: int)
    requires Consistent(e) && Episode(e, events, p)
    ensures RescueCount(e, events) <= if e.snd.board.rescueDone then 0 else 1
    decreases |events|
  {
    if events != [] {
      RecoveryNeedsSack(e);
      hide Consistent, Step, Rescues;
      StepKeeps(e, events[0]);
      EpisodeFlag(e, events[0]);
      OneRescueAnEpisode(Step(e, events[0]), events[1..], p);
    }
  }

  lemma DupIgnored(c: Cc, k: nat, flight: nat)
    ensures LossTarget(c.(dupAcks := k), flight) == LossTarget(c, flight)
  {}

  /** Entry cuts exactly once: whether by the third duplicate or by an early loss, the window and
      the threshold become what the law leaves of the flight, and the point is SND.NXT. */
  lemma EntryCutsOnce(e: Endpoint, g: Segment, dup: bool, env: Env)
    requires Core(e) && e.cfg.sack && !InRecovery(e.snd.board)
    requires InRecovery(DetectLoss(e, g, dup, env).snd.board)
    ensures var f := DetectLoss(e, g, dup, env);
            && f.snd.board.recoveryPoint == Some(e.snd.nxt)
            && f.cc.cwnd == f.cc.ssthresh && Responses.BacksOff(e.cc, e.snd.nxt - e.snd.una, f.cc.ssthresh)
            && f.t.rtx == Some(env.now + env.rto)
  {
    hide Core, DetectLoss, Inflight, Responses.BacksOff, LossTarget;
    FlightBacksOff(e);
    OrderKnown(e);
    UpdateKeepsPoint(e, g);
    EntryIs(e, g, dup, env);
    EitherCut(e.cc, dup, Inflight(e.snd));
  }

  /** The step that enters recovery. */
  lemma EntryIs(e: Endpoint, g: Segment, dup: bool, env: Env)
    requires e.cfg.sack && !InRecovery(Update(e.snd.board, e.snd.una, e.snd.nxt, g.blocks))
    requires InRecovery(DetectLoss(e, g, dup, env).snd.board)
    ensures var f := DetectLoss(e, g, dup, env); var (c1, three) := CountDup(e.cc, dup, Inflight(e.snd));
            && f.snd.board.recoveryPoint == Some(e.snd.nxt) && f.t.rtx == Some(env.now + env.rto)
            && f.cc == if three then c1 else EnterRecovery(c1, Inflight(e.snd))
  {
    hide Update, IsLost, CountDup, EnterRecovery, Inflight;
    assert DetectLoss(e, g, dup, env) == DetectSack(e, g, dup, env);
  }

  lemma FlightBacksOff(e: Endpoint)
    requires Core(e)
    ensures Responses.BacksOff(e.cc, Inflight(e.snd), LossTarget(e.cc, Inflight(e.snd)))
  {
    Responses.TargetBacksOff(e.cc, Inflight(e.snd));
    hide Responses.BacksOff, LossTarget, PoolInv;
  }

  lemma OrderKnown(e: Endpoint)
    requires Core(e)
    ensures Inflight(e.snd) == e.snd.nxt - e.snd.una
  {}

  lemma UpdateKeepsPoint(e: Endpoint, g: Segment)
    ensures Update(e.snd.board, e.snd.una, e.snd.nxt, g.blocks).recoveryPoint == e.snd.board.recoveryPoint
  {
    hide AddBlocks;
  }

  /** By the third duplicate or by force, the window ends at one loss response to the flight. */
  lemma EitherCut(c: Cc, dup: bool, flight: nat)
    ensures var (c1, three) := CountDup(c, dup, flight);
            var d := if three then c1 else EnterRecovery(c1, flight);
            d.cwnd == d.ssthresh == LossTarget(c, flight)
  {
    DupIgnored(c, MinN(c.dupAcks + 1, 255), flight);
    hide LossTarget;
  }

  /** A timeout ends the episode, collapses the window to one segment, and opens the drain. */
  lemma TimeoutTakesOver(e: Endpoint, env: Env)
    requires Consistent(e) && Due(e.t.rtx, env.now) && e.cfg.sack
    ensures var f := RtxTimer(e, env);
            && !InRecovery(f.snd.board) && f.snd.gbn == Some(e.snd.nxt) && f.snd.retransmit
            && f.cc.cwnd == e.cfg.mss && Responses.BacksOff(e.cc, e.snd.nxt - e.snd.una, f.cc.ssthresh)
            && f.snd.board.sacked == e.snd.board.sacked && f.snd.board.rexmit == []
  {
    FlightBacksOff(e);
    OrderKnown(e);
    hide LossTarget, PoolInv, SendInv, Responses.BacksOff;
  }

  // ── teardown ────────────────────────────────────────────────────────────────────────────────

  /** After any run, the state is fixed by whether the FIN was sent, whether it was acknowledged and
      whether the peer's arrived; only CLOSING and LAST-ACK record which FIN came first. */
  lemma OrderIndependent(e: Endpoint, es: seq<Input>, f: Endpoint, fs: seq<Input>)
    requires Consistent(e) && Consistent(f)
    requires var a, b := After(e, es), After(f, fs);
             && !a.state.Closed? && !b.state.Closed?
             && a.snd.finSeq.Some? == b.snd.finSeq.Some? && a.snd.finAcked == b.snd.finAcked
             && a.rcv.peerFin == b.rcv.peerFin
    ensures var a, b := After(e, es).state, After(f, fs).state;
            a == b || (a.Closing? && b.LastAck?) || (a.LastAck? && b.Closing?)
  {
    EveryRunIsConsistent(e, es);
    EveryRunIsConsistent(f, fs);
    hide PoolInv, SendInv, CcInv, After;
  }

  /** The states in which this side's FIN went first, and those in which the peer's came first. */
  predicate OwnFirst(state: State) { state.FinWait1? || state.FinWait2? || state.Closing? || state.TimeWait? }

  predicate PeerFirst(state: State) { state.CloseWait? || state.LastAck? }

  /** At some point of the run one FIN was there and the other was not: this side's, or the peer's. */
  ghost predicate Alone(e: Endpoint, events: seq<Input>, own: bool)
    decreases |events|
  {
    || (if own then e.snd.finSeq.Some? && !e.rcv.peerFin else e.snd.finSeq.None? && e.rcv.peerFin)
    || (events != [] && Alone(Step(e, events[0]), events[1..], own))
  }

  lemma StateFacts(e: Endpoint)
    requires Consistent(e) && !e.state.Closed?
    ensures e.snd.finSeq.Some? && !e.rcv.peerFin ==> OwnFirst(e.state)
    ensures e.snd.finSeq.None? && e.rcv.peerFin ==> PeerFirst(e.state)
    ensures e.state.FinWait1? ==> e.snd.finSeq.Some? && !e.rcv.peerFin
    ensures e.state.CloseWait? ==> e.snd.finSeq.None? && e.rcv.peerFin
    ensures OwnFirst(e.state) ==> e.snd.finSeq.Some?
    ensures PeerFirst(e.state) <==> e.rcv.peerFin && (e.snd.finSeq.None? || e.state.LastAck?)
    ensures e.state.Established? <==> e.snd.finSeq.None? && !e.rcv.peerFin
  {
    hide Core;
  }

  lemma StepNewState(e: Endpoint, env: Env)
    ensures var s := StepNew(e, env).0.state; s == e.state || s == FinState(e.state)
  {
    hide PipeOf, Advertise, Report, ShiftRight, MaxPayload, Unsent, Inflight;
  }

  lemma StepRepairState(e: Endpoint, env: Env)
    ensures var s := StepRepair(e, env).0.state; s == e.state || s == FinState(e.state)
  {
    hide StepNew, NextSeg, PipeOf, MaxPayload, UnsackedRunLen, Marked, Advertise, Report, ShiftRight;
    StepNewState(e, env);
  }

  /** A poll leaves the state, or moves it as the first FIN does. */
  lemma PollState(e: Endpoint, env: Env)
    ensures var s := Poll(e, env).0.state; s == e.state || s == FinState(e.state)
  {
    hide StepRepair, Advertise, Report, ShiftRight, MaxPayload;
    if !e.state.Closed? && !e.state.TimeWait? {
      StepRepairState(e, env);
      StepRepairState(e.(snd := e.snd.(retransmit := false)), env);
    }
  }

  lemma SegmentState(e: Endpoint, g: Segment, env: Env)
    requires Consistent(e)
    ensures var f := OnSegment(e, g, env);
            f.state == e.state || f.state.Closed? || f.state == ClosingState(e.state, f.snd.finAcked, f.rcv.peerFin)
  {
    hide Process, Core, ClosingState;
    if !e.state.TimeWait? { ProcessState(e, g, env); }
  }

  /** Which FIN came first is settled once, by the step out of ESTABLISHED. */
  lemma OrderStep(e: Endpoint, ev: Input)
    requires Consistent(e)
    ensures var s := Step(e, ev).state;
            && (e.state.Closed? ==> s.Closed?)
            && (OwnFirst(e.state) ==> OwnFirst(s) || s.Closed?)
            && (PeerFirst(e.state) ==> PeerFirst(s) || s.Closed?)
            && (e.state.Established? ==> s.Established? || s.FinWait1? || s.CloseWait? || s.Closed?)
  {
    hide Consistent, OnSegment, Poll, Send, Recv;
    match ev {
      case Arrive(g, env) => SegmentState(e, g, env);
      case DoPoll(env) => PollState(e, env);
      case Tick(env) => TimeWaitUntouched(e, env); hide RtxTimer, PersistTimer;
      case _ => AppState(e, ev);
    }
  }

  lemma AppState(e: Endpoint, ev: Input)
    requires ev.AppSend? || ev.AppRecv? || ev.AppClose?
    ensures Step(e, ev).state == e.state
  {}

  lemma {:induction false} ClosedStays(e: Endpoint, events: seq<Input>)
    requires Consistent(e) && e.state.Closed?
    ensures After(e, events).state.Closed?
    decreases |events|
  {
    hide Consistent, Step;
    if events != [] {
      StepKeeps(e, events[0]);
      OrderStep(e, events[0]);
      ClosedStays(Step(e, events[0]), events[1..]);
    }
  }

  lemma {:induction false} OrderIsKept(e: Endpoint, events: seq<Input>)
    requires Consistent(e) && !After(e, events).state.Closed?
    ensures var s := After(e, events).state;
            && (OwnFirst(e.state) ==> OwnFirst(s) && !Alone(e, events, false))
            && (PeerFirst(e.state) ==> PeerFirst(s) && !Alone(e, events, true))
            && (e.state.Established? ==>
                  (OwnFirst(s) <==> Alone(e, events, true)) && (PeerFirst(s) <==> Alone(e, events, false)))
    decreases |events|
  {
    hide Consistent, Step;
    if e.state.Closed? { ClosedStays(e, events); }
    StateFacts(e);
    if events != [] {
      StepKeeps(e, events[0]);
      OrderStep(e, events[0]);
      if Step(e, events[0]).state.Closed? { ClosedStays(Step(e, events[0]), events[1..]); }
      StateFacts(Step(e, events[0]));
      OrderIsKept(Step(e, events[0]), events[1..]);
    }
  }

  /** From an open connection, with both FINs there and this side's not yet acknowledged: CLOSING says
      that this side's FIN was once alone, LAST-ACK that the peer's was, over every run. */
  lemma ClosingRecordsOrder(e: Endpoint, events: seq<Input>)
    requires Consistent(e) && e.state.Established?
    requires var f := After(e, events);
             !f.state.Closed? && f.snd.finSeq.Some? && f.rcv.peerFin && !f.snd.finAcked
    ensures After(e, events).state.Closing? <==> Alone(e, events, true)
    ensures After(e, events).state.LastAck? <==> Alone(e, events, false)
  {
    EveryRunIsConsistent(e, events);
    OrderIsKept(e, events);
    hide After, Alone, Core;
  }

  /** Once the FIN has been sent the application can queue nothing more. */
  lemma NothingAfterFin(e: Endpoint, events: seq<Input>, data: seq<byte>)
    requires Consistent(e) && After(e, events).snd.finSeq.Some?
    ensures Send(After(e, events), data) == (After(e, events), 0)
  {
    EveryRunIsConsistent(e, events);
    hide After, Consistent;
    SendKeeps(After(e, events), data);
  }

  /** The three ways into Closed: a RST exactly at RCV.NXT, the ACK of our FIN in LAST-ACK, or the
      FIN-WAIT-2 / TIME-WAIT timer. */
  lemma OnlyWaysToClose(e: Endpoint, ev: Input)
    requires Consistent(e) && !e.state.Closed? && Step(e, ev).state.Closed?
    ensures match ev
            case Arrive(g, env) =>
              || (g.rst && g.seqNo == e.rcv.nxt && SeqInWindow(e.rcv, g.seqNo) && Step(e, ev).reset)
              || (e.state.LastAck? && Step(e, ev).snd.finAcked)
            case Tick(env) => (e.state.FinWait2? || e.state.TimeWait?) && Due(e.t.timeWait, env.now)
            case _ => false
  {
    match ev {
      case Arrive(g, env) =>
        if !g.rst { SegmentCloses(e, g, env); }
      case DoPoll(env) => PollStays(e, env);
      case Tick(env) =>
        ConsistentFacts(e);
        RtxTimerKeeps(e, env);
        hide RtxTimer, Consistent, PoolInv, SendInv, CcInv;
        TimeWaitUntouched(e, env);
      case _ =>
    }
  }

  lemma TimeWaitUntouched(e: Endpoint, env: Env)
    ensures PersistTimer(RtxTimer(e, env), env).t.timeWait == e.t.timeWait
    ensures PersistTimer(RtxTimer(e, env), env).state == e.state
  {
    hide Congestion.OnRto;
  }

  lemma PollStays(e: Endpoint, env: Env)
    requires Consistent(e) && !e.state.Closed?
    ensures !Poll(e, env).0.state.Closed?
  {
    hide Consistent, Poll;
    PollFrame(e, env);
  }

  lemma ProcessState(e: Endpoint, g: Segment, env: Env)
    requires Core(e) && !e.state.TimeWait?
    ensures var f := Process(e, g, env);
            f.state == e.state || f.state == ClosingState(e.state, f.snd.finAcked, f.rcv.peerFin)
  {
    ProcessAckKeeps(e, g, env);
    hide ProcessAck, DetectLoss, DataStep, FinArrives, FinFromPending, Core, ClosingState;
    var (e1, ok) := ProcessAck(e, g, env);
    if ok {
      DetectFrame(e1, g, IsDupAck(e, g), env);
      DataState(DetectLoss(e1, g, IsDupAck(e, g), env), g, env);
    }
  }

  lemma DataState(e: Endpoint, g: Segment, env: Env)
    ensures DataStep(e, g, env).state == e.state
  {
    hide Absorb, InOrder, Accepted, TrimLeft, Deliver, Buffered;
  }

  lemma SegmentCloses(e: Endpoint, g: Segment, env: Env)
    requires Consistent(e) && !e.state.Closed? && !g.rst && OnSegment(e, g, env).state.Closed?
    ensures e.state.LastAck? && OnSegment(e, g, env).snd.finAcked
  {
    if !e.state.TimeWait? && !g.syn && Acceptable(e.rcv, g) && g.hasAck {
      ProcessState(e, g, env);
      hide Process, Consistent, Core;
    }
  }
}
