/** How losses are found out: which ACKs count as duplicates and what the third does, that every block a
    segment reports is recorded, and that after a timeout each partial ACK asks for the next segment. */
module Detection {
  import opened Options
  import opened Serial
  import opened Runs
  import opened Rfc6675
  import opened Reassembly
  import opened Congestion
  import opened Endpoint
  import opened ReceiveSide
  import opened Connection
  import opened Sending
  import opened ConnectionRuns
  import opened Network
  import opened FlowControl
  import MarkFeed
  import Responses
  import Discipline

  /** A pure ACK of SND.UNA while something is outstanding (the window is not compared). */
  predicate IsDuplicate(e: Endpoint, g: Segment) {
    ReachesAck(e, g) && g.payload == [] && !g.fin && g.ack == e.snd.una < e.snd.nxt
  }

  /** No episode and no drain is under way. */
  predicate Calm(e: Endpoint) { !InRecovery(e.snd.board) && e.snd.gbn.None? }

  /** A loss was engaged: the window is what the law leaves of the flight, and the timer starts again. */
  predicate CutDown(e: Endpoint, f: Endpoint, env: Env) {
    && f.cc.cwnd == f.cc.ssthresh && Responses.BacksOff(e.cc, Inflight(e.snd), f.cc.ssthresh)
    && f.t.rtx == Some(env.now + env.rto)
  }

  lemma TailIs(e: Endpoint, g: Segment, env: Env)
    requires ReachesAck(e, g)
    ensures var d := DetectLoss(ProcessAck(e, g, env).0, g, IsDupAck(e, g), env); var f := OnSegment(e, g, env);
            && f.snd == d.snd && f.cc == d.cc && (f.t.rtx == d.t.rtx || f.state.TimeWait?)
  {
    AckAnswer(e, g, env);
    Discipline.TailKeepsRecovery(e, g, env);
    var d := DetectLoss(ProcessAck(e, g, env).0, g, IsDupAck(e, g), env);
    TailTimer(d, g, env);
    hide ProcessAck, DetectLoss, DataStep, FinArrives, FinFromPending, RecomputeClosing;
    assert OnSegment(e, g, env) == Process(e, g, env);
  }

  lemma TailTimer(e: Endpoint, g: Segment, env: Env)
    ensures var e3 := DataStep(e, g, env);
            var f := RecomputeClosing(e3.(rcv := FinFromPending(FinArrives(e3.rcv, g))), env);
            f.t.rtx == e.t.rtx || f.state.TimeWait?
  {
    hide Absorb, InOrder, Accepted, TrimLeft, Deliver, Buffered, FinArrives, FinFromPending;
  }

  /** Counting a duplicate, or an ACK that is none. */
  lemma CountIs(c: Cc, dup: bool, flight: nat)
    requires Inv(c) && Trusted(c.law) && flight <= U32_MAX
    ensures var (d, three) := CountDup(c, dup, flight);
            && (three <==> dup && c.dupAcks == 2)
            && (!three ==> d == c.(dupAcks := if dup then MinN(c.dupAcks + 1, 255) else c.dupAcks))
            && (three ==> d.cwnd == d.ssthresh && Responses.BacksOff(c, flight, d.ssthresh))
    ensures forall k :: 0 <= k <= 255 ==> var d := EnterRecovery(c.(dupAcks := k), flight);
              d.cwnd == d.ssthresh && Responses.BacksOff(c, flight, d.ssthresh)
  {
    Responses.TargetBacksOff(c, flight);
    Responses.CountIgnored(c, MinN(c.dupAcks + 1, 255), flight);
    forall k: nat ensures LossTarget(c.(dupAcks := k), flight) == LossTarget(c, flight) {
      Responses.CountIgnored(c, k, flight);
    }
    hide LossTarget, Responses.BacksOff, Trusted;
  }

  /** A duplicate leaves the send space and the controller to loss detection. */
  lemma DuplicateAck(e: Endpoint, g: Segment, env: Env)
    requires IsDuplicate(e, g)
    ensures var e1 := ProcessAck(e, g, env).0;
            SameView(e, e1) && IsDupAck(e, g)
  {
    hide ShiftLeft, Lt, Le, Wire, Advance;
  }

  lemma ControllerOk(e: Endpoint)
    requires Consistent(e)
    ensures Inv(e.cc) && Trusted(e.cc.law) && Inflight(e.snd) <= U32_MAX && e.cc.mss == e.cfg.mss
  {
    ConsistentFacts(e);
    hide Consistent, PoolInv, Rfc6675.Valid, Inv;
  }

  /** What a duplicate does: nothing to the controller while an episode or a drain is under way; the third
      one cuts the window and begins the repair; any other is counted, unless the blocks already show a
      loss. */
  predicate Counted(e: Endpoint, f: Endpoint, env: Env) {
    if e.cfg.sack && !Calm(e) then f.cc == e.cc && f.snd.board.recoveryPoint == e.snd.board.recoveryPoint
    else if e.cc.dupAcks == 2 || (e.cfg.sack && IsLost(f.snd.board, e.snd.una, e.cfg.mss)) then
      CutDown(e, f, env) && if e.cfg.sack then f.snd.board.recoveryPoint == Some(e.snd.nxt) else f.snd.retransmit
    else
      && f.cc == e.cc.(dupAcks := MinN(e.cc.dupAcks + 1, 255)) && f.snd.board.recoveryPoint == e.snd.board.recoveryPoint
      && f.snd.retransmit == e.snd.retransmit
  }

  lemma DetectCounts(e: Endpoint, e1: Endpoint, g: Segment, env: Env)
    requires Inv(e.cc) && Trusted(e.cc.law) && Inflight(e.snd) <= U32_MAX
    requires SameView(e, e1)
    ensures Counted(e, DetectLoss(e1, g, true, env), env)
  {
    hide Counted, DetectLoss, Inv, Trusted, Inflight, DetectSack, DetectPlain;
    if e.cfg.sack {
      SackCounts(e, e1, g, env);
      assert DetectLoss(e1, g, true, env) == DetectSack(e1, g, true, env) by { SackIs(e1, g, env); }
    } else {
      PlainCounts(e, e1, env);
      assert DetectLoss(e1, g, true, env) == DetectPlain(e1, true, env) by { SackIs(e1, g, env); }
    }
  }

  lemma SackIs(e: Endpoint, g: Segment, env: Env)
    ensures DetectLoss(e, g, true, env) == if e.cfg.sack then DetectSack(e, g, true, env) else DetectPlain(e, true, env)
  {
    hide DetectSack, DetectPlain;
  }

  /** Equal in all that loss detection looks at. */
  predicate SameView(e: Endpoint, e1: Endpoint) {
    && e1.cc == e.cc && e1.snd.board == e.snd.board && e1.snd.gbn == e.snd.gbn && e1.snd.retransmit == e.snd.retransmit
    && e1.snd.una == e.snd.una && e1.snd.nxt == e.snd.nxt && e1.cfg == e.cfg && e1.t.rtx == e.t.rtx
  }

  lemma PlainCounts(e: Endpoint, e1: Endpoint, env: Env)
    requires Inv(e.cc) && Trusted(e.cc.law) && Inflight(e.snd) <= U32_MAX && SameView(e, e1) && !e.cfg.sack
    ensures Counted(e, DetectPlain(e1, true, env), env)
  {
    CountIs(e.cc, true, Inflight(e.snd));
    assert Inflight(e1.snd) == Inflight(e.snd);
    hide CountDup, IsLost, Inflight, Responses.BacksOff, Inv, Trusted;
  }

  lemma SackCounts(e: Endpoint, e1: Endpoint, g: Segment, env: Env)
    requires Inv(e.cc) && Trusted(e.cc.law) && Inflight(e.snd) <= U32_MAX && SameView(e, e1) && e.cfg.sack
    ensures Counted(e, DetectSack(e1, g, true, env), env)
  {
    CountIs(e.cc, true, Inflight(e.snd));
    SackedDecides(Update(e.snd.board, e.snd.una, e.snd.nxt, g.blocks), e.snd.nxt, e.snd.una, e.cfg.mss);
    Discipline.UpdateKeepsPoint(e1, g);
    assert Inflight(e1.snd) == Inflight(e.snd);
    hide CountDup, EnterRecovery, Update, IsLost, Inflight, Responses.BacksOff, Inv, Trusted, BeginRecovery;
  }

  lemma SackedDecides(b: Board, nxt: int, x: int, mss: nat)
    ensures IsLost(BeginRecovery(b, nxt), x, mss) <==> IsLost(b, x, mss)
    ensures BeginRecovery(b, nxt).recoveryPoint == Some(nxt) && BeginRecovery(b, nxt).sacked == b.sacked
  {}

  /** Duplicate ACKs, on an arriving segment. */
  lemma DuplicatesCount(e: Endpoint, g: Segment, env: Env)
    requires Consistent(e) && IsDuplicate(e, g)
    ensures Counted(e, OnSegment(e, g, env), env)
  {
    hide Consistent, OnSegment, ProcessAck, DetectLoss, Responses.BacksOff, IsLost;
    ControllerOk(e);
    DuplicateAck(e, g, env);
    TailIs(e, g, env);
    OnSegmentKeeps(e, g, env);
    if OnSegment(e, g, env).state.TimeWait? { DoneIsWait(OnSegment(e, g, env)); }
    var e1 := ProcessAck(e, g, env).0;
    DetectCounts(e, e1, g, env);
    DetectFrame(e1, g, true, env);
  }

  lemma DoneIsWait(e: Endpoint)
    requires Consistent(e) && e.state.TimeWait?
    ensures e.snd.una == e.snd.nxt
  {
    TimeWaitIsDone(e);
  }

  // ── SACK recovery ───────────────────────────────────────────────────────────────────────────

  /** After an ACK is taken in, an episode is under way if and only if the old one has not reached its point,
      or the blocks show the oldest octet lost, or this was the third duplicate; a post-timeout drain
      begins none. */
  lemma RecoveryExactlyWhen(e: Endpoint, g: Segment, env: Env)
    requires Consistent(e) && e.cfg.sack && ReachesAck(e, g)
    ensures var f := OnSegment(e, g, env); var p := e.snd.board.recoveryPoint;
            InRecovery(f.snd.board) <==>
            || (p.Some? && f.snd.una < p.value)
            || (f.snd.gbn.None?
                && (IsLost(f.snd.board, f.snd.una, e.cfg.mss) || (IsDuplicate(e, g) && e.cc.dupAcks == 2)))
  {
    hide Consistent, OnSegment, ProcessAck, DetectLoss, IsLost, Trusted, Inv;
    TailIs(e, g, env);
    ControllerOk(e);
    PointAhead(e);
    AckPoint(e, g, env);
    var e1 := ProcessAck(e, g, env).0;
    var dup := IsDupAck(e, g);
    DetectFrame(e1, g, dup, env);
    if dup && g.ack <= e.snd.nxt { SameController(e, g, env); }
    DetectDecides(e1, g, dup, env);
  }

  lemma PointAhead(e: Endpoint)
    requires Consistent(e)
    ensures e.snd.una <= e.snd.nxt
    ensures InRecovery(e.snd.board) ==> e.snd.una < e.snd.board.recoveryPoint.value && e.snd.gbn.None?
  {
    ConsistentFacts(e);
    hide PoolInv, CcInv, Rfc6675.Valid;
  }

  lemma SameController(e: Endpoint, g: Segment, env: Env)
    requires g.ack == e.snd.una
    ensures ProcessAck(e, g, env).0.cc == e.cc
  {
    hide ShiftLeft, Lt, Le, Wire, Advance;
  }

  lemma AckPoint(e: Endpoint, g: Segment, env: Env)
    requires g.ack <= e.snd.nxt && e.cfg.sack
    requires InRecovery(e.snd.board) ==> e.snd.una < e.snd.board.recoveryPoint.value
    ensures var e1 := ProcessAck(e, g, env).0; var p := e.snd.board.recoveryPoint;
            && (InRecovery(e1.snd.board) <==> p.Some? && e1.snd.una < p.value) && e1.cfg == e.cfg
            && (InRecovery(e.snd.board) && e.snd.gbn.None? ==> e1.snd.gbn.None?)
  {
    hide Advance, UpdateWindow;
    if g.ack > e.snd.una {
      AdvancePoint(e, g, env);
      Discipline.WindowBoard(Advance(e, g, env), g);
      WindowLeavesSpace(Advance(e, g, env), g);
      UpdateWindowShape(Advance(e, g, env), g);
    } else {
      Discipline.WindowBoard(e, g);
      WindowLeavesSpace(e, g);
      UpdateWindowShape(e, g);
    }
  }

  lemma AdvancePoint(e: Endpoint, g: Segment, env: Env)
    requires e.snd.una < g.ack <= e.snd.nxt && e.cfg.sack
    ensures var f := Advance(e, g, env); var p := e.snd.board.recoveryPoint;
            && (InRecovery(f.snd.board) <==> p.Some? && g.ack < p.value) && f.snd.una == g.ack && f.cfg == e.cfg
            && (e.snd.gbn.None? ==> f.snd.gbn.None?)
  {
    hide AckCc, Trim;
  }

  lemma DetectDecides(e: Endpoint, g: Segment, dup: bool, env: Env)
    requires e.cfg.sack
    ensures var f := DetectLoss(e, g, dup, env);
            InRecovery(f.snd.board) <==>
            InRecovery(e.snd.board) ||
            (f.snd.gbn.None? && (IsLost(f.snd.board, f.snd.una, e.cfg.mss) || (dup && e.cc.dupAcks == 2)))
  {
    ThirdIs(e.cc, dup, Inflight(e.snd));
    var b := Update(e.snd.board, e.snd.una, e.snd.nxt, g.blocks);
    SackedDecides(b, e.snd.nxt, e.snd.una, e.cfg.mss);
    Discipline.UpdateKeepsPoint(e, g);
    hide CountDup, EnterRecovery, Update, IsLost, Inflight, BeginRecovery;
    assert DetectLoss(e, g, dup, env) == DetectSack(e, g, dup, env);
  }

  lemma ThirdIs(c: Cc, dup: bool, flight: nat)
    ensures CountDup(c, dup, flight).1 <==> dup && c.dupAcks == 2
  {
    hide LossTarget;
  }

  // ── blocks ──────────────────────────────────────────────────────────────────────────────────

  lemma {:induction false} BlocksAddOne(sacked: seq<Run>, una: int, nxt: int, blocks: seq<Run>, lo: int, hi: int)
    requires WellFormed(sacked) && Within(sacked, lo, hi) && lo <= una && nxt <= hi
    ensures |AddBlocks(sacked, una, nxt, blocks)| <= |sacked| + |blocks|
    decreases |blocks|
  {
    if blocks != [] {
      if ValidBlock(blocks[0], una, nxt) {
        InsertExact(sacked, Larger(blocks[0].l, una), blocks[0].r);
        BlocksAddOne(Runs.Insert(sacked, Larger(blocks[0].l, una), blocks[0].r), una, nxt, blocks[1..], lo, hi);
      } else {
        BlocksAddOne(sacked, una, nxt, blocks[1..], lo, hi);
      }
    }
  }

  /** After an ACK is taken in, the octets believed SACKed are exactly those believed so before and those of
      its valid blocks, above the new SND.UNA, as long as the board has slots for them. */
  lemma BlocksAreTaken(e: Endpoint, g: Segment, env: Env, z: int)
    requires Consistent(e) && e.cfg.sack && ReachesAck(e, g) && |e.snd.board.sacked| + |g.blocks| <= MAX_RUNS
    ensures var s := OnSegment(e, g, env).snd;
            Covered(s.board.sacked, z) <==>
            (Covered(e.snd.board.sacked, z) && z >= s.una) || InBlocks(g.blocks, s.una, s.nxt, z)
  {
    hide Consistent, OnSegment, ProcessAck, DetectLoss, Covered, InBlocks, Update;
    TailIs(e, g, env);
    NotWaiting(e, g);
    AckBlocks(e, g, env, z);
    var e1 := ProcessAck(e, g, env).0;
    var dup := IsDupAck(e, g);
    DetectFrame(e1, g, dup, env);
    DetectTakes(e1, g, dup, env);
    ExactUpdate(e1, g, z);
  }

  lemma NotWaiting(e: Endpoint, g: Segment)
    requires ReachesAck(e, g)
    ensures !e.state.TimeWait? && g.ack <= e.snd.nxt
  {}

  lemma ExactUpdate(e: Endpoint, g: Segment, z: int)
    requires Rfc6675.Valid(e.snd.board, e.snd.una, e.snd.nxt) && |e.snd.board.sacked| + |g.blocks| <= MAX_RUNS
    ensures Covered(Update(e.snd.board, e.snd.una, e.snd.nxt, g.blocks).sacked, z) <==>
            Covered(e.snd.board.sacked, z) || InBlocks(g.blocks, e.snd.una, e.snd.nxt, z)
  {
    BlocksAddOne(e.snd.board.sacked, e.snd.una, e.snd.nxt, g.blocks, e.snd.una, e.snd.nxt);
    UpdateExact(e.snd.board, e.snd.una, e.snd.nxt, g.blocks, e.snd.una, e.snd.nxt);
    hide Covered, InBlocks, Update;
  }

  lemma DetectTakes(e: Endpoint, g: Segment, dup: bool, env: Env)
    requires e.cfg.sack
    ensures DetectLoss(e, g, dup, env).snd.board.sacked == Update(e.snd.board, e.snd.una, e.snd.nxt, g.blocks).sacked
  {
    hide CountDup, EnterRecovery, Update, IsLost, Inflight;
    assert DetectLoss(e, g, dup, env) == DetectSack(e, g, dup, env);
  }

  lemma AckBlocks(e: Endpoint, g: Segment, env: Env, z: int)
    requires Consistent(e) && e.cfg.sack && !e.state.TimeWait? && g.ack <= e.snd.nxt
    ensures var s := ProcessAck(e, g, env).0.snd;
            && (Covered(s.board.sacked, z) <==> Covered(e.snd.board.sacked, z) && z >= s.una)
            && |s.board.sacked| <= |e.snd.board.sacked| && Rfc6675.Valid(s.board, s.una, s.nxt)
            && ProcessAck(e, g, env).0.cfg == e.cfg
  {
    ProcessAckKeeps(e, g, env);
    CoreBoard(ProcessAck(e, g, env).0);
    BoardOf(e);
    hide Advance, UpdateWindow, Consistent, Core, Covered;
    if g.ack > e.snd.una {
      AdvanceBlocks(e, g, env, z);
      Discipline.WindowBoard(Advance(e, g, env), g);
      WindowLeavesSpace(Advance(e, g, env), g);
    } else {
      Discipline.WindowBoard(e, g);
      WindowLeavesSpace(e, g);
      if Covered(e.snd.board.sacked, z) { CoveredWithin(e.snd.board.sacked, z, e.snd.una, e.snd.nxt); }
    }
  }

  lemma CoreBoard(e: Endpoint)
    requires Core(e)
    ensures Rfc6675.Valid(e.snd.board, e.snd.una, e.snd.nxt)
  {}

  lemma AdvanceBlocks(e: Endpoint, g: Segment, env: Env, z: int)
    requires Consistent(e) && e.cfg.sack && e.snd.una < g.ack <= e.snd.nxt
    ensures var s := Advance(e, g, env).snd;
            && (Covered(s.board.sacked, z) <==> Covered(e.snd.board.sacked, z) && z >= s.una)
            && |s.board.sacked| <= |e.snd.board.sacked|
  {
    BoardOf(e);
    TrimExact(e.snd.board.sacked, g.ack);
    hide AckCc, Consistent, Covered, Trim;
  }

  // ── after a timeout ─────────────────────────────────────────────────────────────────────────

  lemma AckDrains(e: Endpoint, g: Segment, env: Env)
    requires ReachesAck(e, g)
    ensures var s := ProcessAck(e, g, env).0.snd;
            var on := e.snd.gbn.Some? && s.una < e.snd.gbn.value && s.una != e.snd.nxt;
            if s.una == e.snd.una then s.gbn == e.snd.gbn && s.retransmit == e.snd.retransmit
            else s.gbn == (if on then e.snd.gbn else None) && s.retransmit == (e.snd.retransmit || on)
  {
    hide AckCc, AckBoard, ShiftLeft, Lt, Le, Wire;
  }

  /** After a timeout every ACK of new data below the point where SND.NXT then was asks for the next segment,
      and the drain ends exactly when that point is reached: one hole a round trip, not one a timeout. */
  lemma DrainGoesOn(e: Endpoint, g: Segment, env: Env)
    requires Consistent(e) && ReachesAck(e, g) && e.snd.gbn.Some? && OnSegment(e, g, env).snd.una > e.snd.una
    ensures var s := OnSegment(e, g, env).snd;
            if s.una < e.snd.gbn.value then s.retransmit && s.gbn == e.snd.gbn else s.gbn.None?
  {
    hide Consistent, OnSegment, ProcessAck, DetectLoss;
    TailIs(e, g, env);
    DrainInside(e);
    AckDrains(e, g, env);
    var e1 := ProcessAck(e, g, env).0;
    DetectFrame(e1, g, IsDupAck(e, g), env);
    DetectAsks(e1, g, IsDupAck(e, g), env);
  }

  lemma DrainInside(e: Endpoint)
    requires Consistent(e)
    ensures e.snd.gbn.Some? ==> e.snd.gbn.value <= e.snd.nxt
  {
    ConsistentFacts(e);
    hide PoolInv, CcInv, Rfc6675.Valid;
  }

  lemma DetectAsks(e: Endpoint, g: Segment, dup: bool, env: Env)
    ensures e.snd.retransmit ==> DetectLoss(e, g, dup, env).snd.retransmit
  {
    hide CountDup, EnterRecovery, Update, IsLost, Inflight;
    if e.cfg.sack {
      assert DetectLoss(e, g, dup, env) == DetectSack(e, g, dup, env);
    } else {
      assert DetectLoss(e, g, dup, env) == DetectPlain(e, dup, env);
    }
  }
}
