/** How an arriving segment is answered: what is acknowledged at once and what may wait, that data and FINs
    inside the window are taken and not merely not refused, and what a RST or SYN can do. */
module Answers {
  import opened Options
  import opened Serial
  import opened Runs
  import opened Rfc6675
  import opened Reassembly
  import opened Congestion
  import opened Endpoint
  import opened ReceiveSide
  import opened Connection
  import opened Sending
  import opened ConnectionRuns
  import opened Network
  import opened FlowControl
  import opened AccEcn
  import Discipline
  import Gate

  // ── when an ACK is owed (section 4.2 of RFC 5681) ───────────────────────────────────────────

  /** The data begins at or below RCV.NXT and ends above it. */
  predicate InTurn(r: Receiver, g: Segment) { g.seqNo <= r.nxt < g.seqNo + |g.payload| }

  /** In order, taken whole, and with nothing out of order waiting. */
  predicate Clean(r: Receiver, g: Segment) {
    InTurn(r, g) && |r.rx| + (g.seqNo + |g.payload| - r.nxt) <= RX_BUFFER && r.reasm.chunks == []
  }

  lemma NothingBuffered(r: Receiver, sack: bool)
    requires PoolInv(r, sack)
    ensures Buffered(r.reasm.chunks) == 0 <==> r.reasm.chunks == []
  {
    if r.reasm.chunks != [] { ChunksNonEmpty(r.reasm.chunks); }
  }

  lemma CleanIs(r: Receiver, g: Segment, sack: bool)
    requires PoolInv(r, sack) && g.payload != []
    ensures Clean(r, g) <==>
            InOrder(r, g) && Deliver(r, TrimLeft(r, g).1).1 == |TrimLeft(r, g).1| && Buffered(r.reasm.chunks) == 0
  {
    NothingBuffered(r, sack);
    hide PoolInv, Buffered;
  }

  /** What a data segment leaves of the ACK schedule. */
  predicate Scheduled(e: Endpoint, f: Endpoint, g: Segment, env: Env) {
    if !Clean(e.rcv, g) then
      f.rcv.needsAck && f.rcv.unackedSegs == e.rcv.unackedSegs && f.t.delayedAck == e.t.delayedAck
    else if e.rcv.unackedSegs >= 1 then
      f.rcv.needsAck && f.rcv.unackedSegs == 0 && f.t.delayedAck == e.t.delayedAck
    else && f.rcv.unackedSegs == 1
         && f.t.delayedAck == (if e.t.delayedAck.Some? then e.t.delayedAck else Some(env.now + DELAYED_ACK))
  }

  lemma AbsorbSchedule(r: Receiver, g: Segment, sack: bool)
    requires PoolInv(r, sack)
    ensures Absorb(r, g, sack).unackedSegs == r.unackedSegs && Absorb(r, g, sack).needsAck == r.needsAck
  {
    AbsorbKeepsPool(r, g, sack);
    hide Absorb, PoolInv;
  }

  lemma DataSchedules(e: Endpoint, g: Segment, env: Env)
    requires PoolInv(e.rcv, e.cfg.sack) && g.payload != []
    ensures Scheduled(e, DataStep(e, g, env), g, env)
    ensures e.rcv.needsAck ==> DataStep(e, g, env).rcv.needsAck
  {
    AbsorbSchedule(e.rcv, g, e.cfg.sack);
    CleanIs(e.rcv, g, e.cfg.sack);
    hide Absorb, InOrder, Accepted, TrimLeft, Deliver, Buffered, PoolInv, Clean;
  }

  lemma TailKeepsSchedule(e: Endpoint, g: Segment, env: Env)
    ensures var f := RecomputeClosing(e.(rcv := FinFromPending(FinArrives(e.rcv, g))), env);
            && f.rcv.unackedSegs == e.rcv.unackedSegs && f.t.delayedAck == e.t.delayedAck
            && (e.rcv.needsAck || g.fin ==> f.rcv.needsAck)
  {}

  lemma AckKeepsSchedule(e: Endpoint, g: Segment, env: Env)
    ensures var e1 := ProcessAck(e, g, env).0; var f := DetectLoss(e1, g, IsDupAck(e, g), env);
            && (g.ack <= e.snd.nxt ==> f.rcv == e.rcv) && f.t.delayedAck == e.t.delayedAck && f.cfg == e.cfg
  {
    AckDelay(e, g, env);
    var e1 := ProcessAck(e, g, env).0;
    DetectFrame(e1, g, IsDupAck(e, g), env);
    DetectDelay(e1, g, IsDupAck(e, g), env);
    hide ProcessAck, DetectLoss;
  }

  lemma AckDelay(e: Endpoint, g: Segment, env: Env)
    ensures var e1 := ProcessAck(e, g, env).0;
            (g.ack <= e.snd.nxt ==> e1.rcv == e.rcv) && e1.t.delayedAck == e.t.delayedAck && e1.cfg == e.cfg
  {
    hide AckCc, AckBoard, ShiftLeft, Lt, Le, Wire;
  }

  lemma DetectDelay(e: Endpoint, g: Segment, dup: bool, env: Env)
    ensures DetectLoss(e, g, dup, env).t.delayedAck == e.t.delayedAck
  {
    hide CountDup, EnterRecovery, Update, IsLost, Inflight;
    if e.cfg.sack {
      assert DetectLoss(e, g, dup, env) == DetectSack(e, g, dup, env);
    } else {
      assert DetectLoss(e, g, dup, env) == DetectPlain(e, dup, env);
    }
  }

  /** Data that is out of order, a duplicate, fills part of a gap or does not fit is acknowledged at once; so
      is every second segment that is none of these, and every FIN. Only one clean segment may wait, and at
      most 40 ms. */
  lemma SegmentSchedulesAck(e: Endpoint, g: Segment, env: Env)
    requires Consistent(e) && ReachesData(e, g)
    ensures var f := OnSegment(e, g, env);
            && ((!Clean(e.rcv, g) || e.rcv.unackedSegs >= 1 || g.fin) ==> f.rcv.needsAck)
            && f.rcv.unackedSegs == (if !Clean(e.rcv, g) then e.rcv.unackedSegs
                                     else if e.rcv.unackedSegs >= 1 then 0 else 1)
            && f.t.delayedAck == (if Clean(e.rcv, g) && e.rcv.unackedSegs == 0 && e.t.delayedAck.None?
                                  then Some(env.now + DELAYED_ACK) else e.t.delayedAck)
  {
    ConsistentFacts(e);
    AckKeepsSchedule(e, g, env);
    AckAnswer(e, g, env);
    hide ProcessAck, DetectLoss, DataStep, FinArrives, FinFromPending, RecomputeClosing, Consistent, PoolInv, Clean,
         Acceptable;
    var e2 := DetectLoss(ProcessAck(e, g, env).0, g, IsDupAck(e, g), env);
    DataSchedules(e2, g, env);
    TailKeepsSchedule(DataStep(e2, g, env), g, env);
    assert OnSegment(e, g, env) == Process(e, g, env);
  }

  /** At most one clean segment waits, and then an ACK is owed or a deadline for it is armed. */
  predicate AckPending(e: Endpoint) {
    e.rcv.unackedSegs <= 1 && (e.rcv.unackedSegs == 1 ==> e.rcv.needsAck || e.t.delayedAck.Some?)
  }

  lemma SegmentKeepsPending(e: Endpoint, g: Segment, env: Env)
    requires Consistent(e) && AckPending(e)
    ensures AckPending(OnSegment(e, g, env))
  {
    hide Process, Consistent, Clean;
    if ReachesData(e, g) {
      SegmentSchedulesAck(e, g, env);
      if e.rcv.needsAck { OwedStays(e, g, env); }
    } else if !g.rst && !e.state.TimeWait? && !g.syn && Acceptable(e.rcv, g) && g.hasAck {
      NoDataKeepsPending(e, g, env);
    }
  }

  /** An owed ACK stays owed. */
  lemma OwedStays(e: Endpoint, g: Segment, env: Env)
    requires Consistent(e) && ReachesData(e, g) && e.rcv.needsAck
    ensures OnSegment(e, g, env).rcv.needsAck
  {
    ConsistentFacts(e);
    AckKeepsSchedule(e, g, env);
    AckAnswer(e, g, env);
    hide ProcessAck, DetectLoss, DataStep, FinArrives, FinFromPending, RecomputeClosing, Consistent, PoolInv, Scheduled;
    var e2 := DetectLoss(ProcessAck(e, g, env).0, g, IsDupAck(e, g), env);
    DataSchedules(e2, g, env);
    TailKeepsSchedule(DataStep(e2, g, env), g, env);
    assert OnSegment(e, g, env) == Process(e, g, env);
  }

  lemma NoDataKeepsPending(e: Endpoint, g: Segment, env: Env)
    requires AckPending(e) && (g.payload == [] || g.ack > e.snd.nxt)
    ensures AckPending(Process(e, g, env))
  {
    AckKeepsSchedule(e, g, env);
    AckAnswer(e, g, env);
    hide ProcessAck, DetectLoss, FinArrives, FinFromPending, RecomputeClosing;
    if g.ack <= e.snd.nxt {
      TailKeepsSchedule(DetectLoss(ProcessAck(e, g, env).0, g, IsDupAck(e, g), env), g, env);
    } else {
      NotOkKeeps(e, g, env);
    }
  }

  lemma StepKeepsPending(e: Endpoint, ev: Input)
    requires Consistent(e) && AckPending(e)
    ensures AckPending(Step(e, ev))
  {
    match ev {
      case Arrive(g, env) => SegmentKeepsPending(e, g, env); hide OnSegment, Consistent;
      case DoPoll(env) => PollKeepsPending(e, env); hide Poll, Consistent;
      case Tick(env) => TimerKeepsPending(e, env); hide OnTimer, Consistent;
      case _ => hide Consistent;
    }
  }

  lemma TimerKeepsPending(e: Endpoint, env: Env)
    requires AckPending(e)
    ensures AckPending(OnTimer(e, env))
  {
    hide Congestion.OnRto, Inflight;
  }

  lemma PollKeepsPending(e: Endpoint, env: Env)
    requires AckPending(e)
    ensures AckPending(Poll(e, env).0)
  {
    hide StepRetransmit, PureAck;
    if e.owedRst.None? {
      Gate.RetransmitClears(e, env);
      PureAckKeeps(e);
      if Live(e) { PureAckKeeps(StepRetransmit(e, env).0); }
    }
  }

  lemma PureAckKeeps(e: Endpoint)
    requires AckPending(e)
    ensures AckPending(PureAck(e).0)
  {
    hide Report, ShiftRight, ShiftLeft, Buffered;
  }

  /** Over any run, against any peer, at most one data segment waits for its ACK, and never without one
      owed or a deadline armed. */
  lemma {:induction false} AcksNeverStall(e: Endpoint, events: seq<Input>)
    requires Consistent(e) && AckPending(e)
    ensures AckPending(After(e, events))
    decreases |events|
  {
    hide Consistent, Step, AckPending;
    if events != [] {
      StepKeeps(e, events[0]);
      StepKeepsPending(e, events[0]);
      AcksNeverStall(Step(e, events[0]), events[1..]);
    }
  }

  // ── data inside the window is taken ─────────────────────────────────────────────────────────

  lemma ProcessTakes(e: Endpoint, g: Segment, env: Env)
    requires g.ack <= e.snd.nxt
    ensures SameData(Process(e, g, env).rcv, Taken(e, g))
  {
    AckKeepsSchedule(e, g, env);
    AckAnswer(e, g, env);
    var e2 := DetectLoss(ProcessAck(e, g, env).0, g, IsDupAck(e, g), env);
    DataStepData(e2, g, env);
    FinSameData(DataStep(e2, g, env).rcv, if g.payload == [] then e.rcv else Absorb(e.rcv, g, e.cfg.sack), g);
    hide ProcessAck, DetectLoss, DataStep, FinArrives, FinFromPending, Absorb, SameData;
    assert Process(e, g, env).rcv == FinFromPending(FinArrives(DataStep(e2, g, env).rcv, g));
  }

  lemma AbsorbAdvances(r: Receiver, g: Segment, sack: bool)
    requires PoolInv(r, sack) && InTurn(r, g) && g.seqNo + |g.payload| <= r.adv
    ensures Absorb(r, g, sack).nxt >= g.seqNo + |g.payload|
  {
    var data := TrimLeft(r, g).1;
    InsideEdgeFits(r, data, sack);
    InOrderKeeps(r, data, sack);
    hide Within, Spans, WellFormed, DrainReasm, DiscardBelow, PoolInv;
    if sack {
      var r1 := Deliver(r, data).0;
      DrainKeeps(r1.(reasm := r1.reasm.(chunks := DiscardBelow(r1.reasm.chunks, r1.nxt))));
    }
  }

  /** In-order data inside the advertised edge moves RCV.NXT past all of it. */
  lemma InOrderDataIsTaken(e: Endpoint, g: Segment, env: Env)
    requires Consistent(e) && ReachesData(e, g) && InTurn(e.rcv, g) && g.seqNo + |g.payload| <= e.rcv.adv
    ensures OnSegment(e, g, env).rcv.nxt >= g.seqNo + |g.payload|
  {
    ConsistentFacts(e);
    ProcessTakes(e, g, env);
    AbsorbAdvances(e.rcv, g, e.cfg.sack);
    FinMovesOn(Absorb(e.rcv, g, e.cfg.sack), g);
    hide Process, Consistent, PoolInv, Absorb, FinArrives, FinFromPending, Acceptable;
    assert OnSegment(e, g, env) == Process(e, g, env);
  }

  lemma FinMovesOn(r: Receiver, g: Segment)
    ensures var f := FinFromPending(FinArrives(r, g)); f.nxt >= r.nxt && f.reasm == r.reasm
  {}

  /** What the pool has room for above RCV.NXT, at most 65535 octets and never past the advertised edge. */
  predicate Storable(r: Receiver, z: int) {
    var used := |r.rx| + Buffered(r.reasm.chunks);
    z < r.adv && z < r.nxt + (if RX_BUFFER - used < 0xFFFF then RX_BUFFER - used else 0xFFFF)
  }

  /** With SACK, each octet of a segment above a gap that the pool has room for is held. */
  lemma GapDataIsHeld(e: Endpoint, g: Segment, env: Env, z: int)
    requires Consistent(e) && ReachesData(e, g) && e.cfg.sack && g.seqNo > e.rcv.nxt
    requires g.seqNo <= z < g.seqNo + |g.payload| && Storable(e.rcv, z)
    ensures Held(OnSegment(e, g, env).rcv, z)
  {
    ConsistentFacts(e);
    ProcessTakes(e, g, env);
    GapHolds(e.rcv, g, z);
    FinMovesOn(Absorb(e.rcv, g, e.cfg.sack), g);
    hide Process, Consistent, PoolInv, Absorb, FinArrives, FinFromPending, Acceptable, ByteAt, Storable;
    assert OnSegment(e, g, env) == Process(e, g, env);
  }

  lemma GapHolds(r: Receiver, g: Segment, z: int)
    requires PoolInv(r, true) && g.seqNo > r.nxt && g.seqNo <= z < g.seqNo + |g.payload| && Storable(r, z)
    ensures Held(Absorb(r, g, true), z)
  {
    RightEdgeInPool(r, true);
    InsertRefinesMap(r.reasm, r.nxt, RightEdge(r), g.seqNo, g.payload, Floor(r), PoolEnd(r));
    hide Within, Spans, WellFormed, ByteAt, Reassembly.Insert, Buffered;
  }

  /** A FIN that gets past its ACK is taken when everything before it has been, remembered when not, and a
      remembered one is taken the moment the gap below it closes. */
  lemma FinIsNeverLost(e: Endpoint, g: Segment, env: Env)
    requires Consistent(e) && ReachesAck(e, g)
    ensures var r := OnSegment(e, g, env).rcv;
            && (e.rcv.peerFin ==> r.peerFin)
            && (g.fin ==> r.peerFin || (r.pendingFin == Some(g.seqNo + |g.payload|) && r.needsAck))
            && (!r.peerFin ==> r.pendingFin != Some(r.nxt))
            && (!g.fin && !r.peerFin ==> r.pendingFin == e.rcv.pendingFin)
  {
    AckKeepsSchedule(e, g, env);
    AckAnswer(e, g, env);
    ConsistentFacts(e);
    hide ProcessAck, DetectLoss, DataStep, FinArrives, FinFromPending, Consistent, PoolInv, Acceptable,
         RecomputeClosing;
    var e2 := DetectLoss(ProcessAck(e, g, env).0, g, IsDupAck(e, g), env);
    DataKeepsFin(e2, g, env);
    FinTaken(DataStep(e2, g, env).rcv, g);
    assert Process(e, g, env).rcv == FinFromPending(FinArrives(DataStep(e2, g, env).rcv, g))
      by { hide ReachesAck; ClosingRcv(e2, g, env); }
    assert OnSegment(e, g, env) == Process(e, g, env);
  }

  lemma ClosingRcv(e: Endpoint, g: Segment, env: Env)
    ensures RecomputeClosing(DataStep(e, g, env).(rcv := FinFromPending(FinArrives(DataStep(e, g, env).rcv, g))),
                             env).rcv
         == FinFromPending(FinArrives(DataStep(e, g, env).rcv, g))
  {
    hide DataStep, FinArrives, FinFromPending;
  }

  lemma DataKeepsFin(e: Endpoint, g: Segment, env: Env)
    requires PoolInv(e.rcv, e.cfg.sack)
    ensures var r := DataStep(e, g, env).rcv; r.peerFin == e.rcv.peerFin && r.pendingFin == e.rcv.pendingFin
  {
    DataStepData(e, g, env);
    AbsorbKeepsPool(e.rcv, g, e.cfg.sack);
    hide DataStep, Absorb, PoolInv;
  }

  lemma FinTaken(r: Receiver, g: Segment)
    ensures var f := FinFromPending(FinArrives(r, g));
            && (r.peerFin ==> f.peerFin)
            && (g.fin ==> f.peerFin || (f.pendingFin == Some(g.seqNo + |g.payload|) && f.needsAck))
            && (!f.peerFin ==> f.pendingFin != Some(f.nxt))
            && (!g.fin && !f.peerFin ==> f.pendingFin == r.pendingFin)
  {}

  // ── RST and SYN (section 3.2 and section 4 of RFC 5961) ─────────────────────────────────────

  /** The sequence number lies in the advertised window, or at RCV.NXT when that is empty. */
  predicate InWindow(r: Receiver, x: int) { r.nxt <= x < r.adv || (x == r.nxt && r.adv == r.nxt) }

  /** A RST closes the connection exactly at RCV.NXT, draws at most an ACK elsewhere in the window, and
      nothing at all outside it; a SYN never does more than draw an ACK. */
  lemma ForgedDoesNoMore(e: Endpoint, g: Segment, env: Env)
    requires g.rst || (g.syn && !e.state.TimeWait?)
    ensures var f := OnSegment(e, g, env); var owed := e.(rcv := e.rcv.(needsAck := true));
            && (!InWindow(e.rcv, g.seqNo) ==> f == e)
            && (InWindow(e.rcv, g.seqNo) && g.rst && g.seqNo == e.rcv.nxt ==> f == e.(state := Closed, reset := true))
            && (InWindow(e.rcv, g.seqNo) && !(g.rst && g.seqNo == e.rcv.nxt) ==>
                  f == if env.challengeOk then owed else e)
  {}

  /** Any other segment that takes up sequence space, all of it outside the window, only draws an ACK. */
  lemma OutsideDrawsAck(e: Endpoint, g: Segment, env: Env)
    requires !g.rst && !g.syn && !e.state.TimeWait? && SegLen(g) > 0
    requires g.seqNo + SegLen(g) <= e.rcv.nxt || e.rcv.adv <= g.seqNo || e.rcv.adv == e.rcv.nxt
    ensures OnSegment(e, g, env) == e.(rcv := e.rcv.(needsAck := true))
  {
    hide Process;
  }

  /** An ACK of what was never sent draws an ACK and changes nothing else. */
  lemma FutureAckDrawsAck(e: Endpoint, g: Segment, env: Env)
    requires !g.rst && !g.syn && !e.state.TimeWait? && Acceptable(e.rcv, g) && g.hasAck && g.ack > e.snd.nxt
    ensures OnSegment(e, g, env) == e.(rcv := e.rcv.(needsAck := true))
  {
    NotOkKeeps(e, g, env);
  }

  /** In TIME-WAIT anything but a RST is answered, and nothing else happens but that the wait begins again. */
  lemma TimeWaitAnswers(e: Endpoint, g: Segment, env: Env)
    requires e.state.TimeWait? && !g.rst
    ensures var f := OnSegment(e, g, env);
            && f == e.(rcv := e.rcv.(needsAck := true), t := f.t) && f.t.timeWait == Some(env.now + TIME_WAIT)
            && f.t.rtx.None? && f.t.persist.None? && f.t.delayedAck == e.t.delayedAck
  {}

  /** The four cases of section 3.9 of RFC 793: a segment without length is judged by its sequence number, one
      with length needs an open window and its first or its last octet in it. */
  lemma AcceptedExactlyWhen(r: Receiver, g: Segment)
    ensures SegLen(g) == 0 ==> (Acceptable(r, g) <==> InWindow(r, g.seqNo))
    ensures SegLen(g) > 0 && r.adv == r.nxt ==> !Acceptable(r, g)
    ensures SegLen(g) > 0 && r.adv != r.nxt ==>
              (Acceptable(r, g) <==> InWindow(r, g.seqNo) || InWindow(r, g.seqNo + SegLen(g) - 1))
  {}
}
