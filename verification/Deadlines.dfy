/** The five deadlines of a connection: a caller that sleeps until `PollAt` misses nothing, what each
    timer does when it is due and only then, when the retransmission timer starts and restarts, and how
    the persist interval grows. */
module Deadlines {
  import opened Options
  import opened Serial
  import opened Runs
  import opened Rfc6675
  import opened Reassembly
  import opened Congestion
  import opened Endpoint
  import opened ReceiveSide
  import opened Connection
  import opened Sending
  import opened ConnectionRuns
  import opened Network
  import opened FlowControl
  import Discipline

  // ── sleeping ────────────────────────────────────────────────────────────────────────────────

  /** Before the wake-up time no timer does anything. */
  lemma NothingBeforeDeadline(e: Endpoint, env: Env)
    requires PollAt(e).Some? ==> env.now < PollAt(e).value
    ensures OnTimer(e, env) == e
  {
    LeastDeadline(e);
    assert forall d :: ArmedAt(e.t, d) ==> env.now < d;
    hide PollAt, LeastArmed;
    assert !Due(e.t.rtx, env.now) && !Due(e.t.persist, env.now) && !Due(e.t.timeWait, env.now)
        && !Due(e.t.delayedAck, env.now);
  }

  // ── what fires ──────────────────────────────────────────────────────────────────────────────

  /** The retransmission timer: the oldest octet is sent again, a drain up to SND.NXT is opened,
      recovery is abandoned, the window is one segment, and the timer runs again. */
  predicate RtxFired(e: Endpoint, f: Endpoint, env: Env) {
    && f.snd.retransmit && f.snd.gbn == Some(e.snd.nxt) && f.t.rtx == Some(env.now + env.rto)
    && f.cc.cwnd == e.cc.mss && f.cc.caAcc == 0
    && (e.cfg.sack ==> !InRecovery(f.snd.board) && f.snd.board.rexmit == [])
  }

  predicate RtxStayed(e: Endpoint, f: Endpoint) {
    && f.snd.retransmit == e.snd.retransmit && f.snd.gbn == e.snd.gbn && f.t.rtx == e.t.rtx && f.cc == e.cc
    && f.snd.board == e.snd.board
  }

  /** The persist timer: a probe is due, and the next one after twice the interval, up to a minute. */
  predicate PersistFired(e: Endpoint, f: Endpoint, env: Env) {
    && f.snd.sendProbe && f.t.backoff == (if e.t.backoff <= PERSIST_MAX / 2 then 2 * e.t.backoff else PERSIST_MAX)
    && f.t.persist == Some(env.now + f.t.backoff)
  }

  predicate PersistStayed(e: Endpoint, f: Endpoint) {
    f.snd.sendProbe == e.snd.sendProbe && f.t.backoff == e.t.backoff && f.t.persist == e.t.persist
  }

  lemma RtxPart(e: Endpoint, env: Env)
    ensures var f := RtxTimer(e, env);
            && (if Due(e.t.rtx, env.now) then RtxFired(e, f, env) else f == e)
            && PersistStayed(e, f) && f.state == e.state && f.rcv == e.rcv && f.t.timeWait == e.t.timeWait
            && f.t.delayedAck == e.t.delayedAck && f.t.pace == e.t.pace && f.cc.mss == e.cc.mss && f.cfg == e.cfg
  {
    hide LossTarget;
  }

  lemma LatePart(e: Endpoint, env: Env)
    ensures var e1 := PersistTimer(e, env);
            && (if Due(e.t.persist, env.now) then PersistFired(e, e1, env) else PersistStayed(e, e1))
            && RtxStayed(e, e1) && e1.state == e.state && e1.rcv == e.rcv && e1.cfg == e.cfg
            && e1.t.timeWait == e.t.timeWait && e1.t.delayedAck == e.t.delayedAck && e1.t.pace == e.t.pace
  {}

  /** Each timer does its work exactly when it is due, however many are due at once. */
  lemma TimersFireExactly(e: Endpoint, env: Env)
    ensures var f := OnTimer(e, env);
            && (if Due(e.t.rtx, env.now) then RtxFired(e, f, env) else RtxStayed(e, f))
            && (if Due(e.t.persist, env.now) then PersistFired(e, f, env) else PersistStayed(e, f))
            && f.state == (if Due(e.t.timeWait, env.now) then Closed else e.state)
            && f.rcv == e.rcv.(needsAck := e.rcv.needsAck || Due(e.t.delayedAck, env.now))
            && f.t.delayedAck == (if Due(e.t.delayedAck, env.now) then None else e.t.delayedAck)
            && f.t.timeWait == e.t.timeWait && f.t.pace == e.t.pace
  {
    hide RtxTimer, PersistTimer;
    RtxPart(e, env);
    LatePart(RtxTimer(e, env), env);
  }

  /** At the wake-up time, unless it is the pacer's, at least one timer is due. */
  lemma DeadlineIsDue(e: Endpoint, env: Env)
    requires PollAt(e) == Some(env.now) && e.t.pace != Some(env.now)
    ensures Due(e.t.rtx, env.now) || Due(e.t.persist, env.now) || Due(e.t.timeWait, env.now)
            || Due(e.t.delayedAck, env.now)
  {
    LeastDeadline(e);
    hide PollAt;
  }

  // ── the retransmission timer (section 5 of RFC 6298) ────────────────────────────────────────

  lemma DetectTimer(e: Endpoint, g: Segment, dup: bool, env: Env)
    ensures var f := DetectLoss(e, g, dup, env);
            && (f.t == e.t || f.t == RestartRtx(e.t, env)) && f.snd.una == e.snd.una && f.snd.nxt == e.snd.nxt
            && (f.t != e.t ==> InRecovery(f.snd.board) || f.snd.retransmit)
  {
    hide CountDup, EnterRecovery, Update, IsLost, Inflight, InRecovery;
    if e.cfg.sack {
      BeginsRecovery(Update(e.snd.board, e.snd.una, e.snd.nxt, g.blocks), e.snd.nxt);
      assert DetectLoss(e, g, dup, env) == DetectSack(e, g, dup, env);
    } else {
      assert DetectLoss(e, g, dup, env) == DetectPlain(e, dup, env);
    }
  }

  lemma BeginsRecovery(b: Board, nxt: int)
    ensures InRecovery(BeginRecovery(b, nxt))
  {}

  lemma TailTimer(e: Endpoint, g: Segment, env: Env)
    ensures var f := RecomputeClosing(e.(rcv := FinFromPending(FinArrives(DataStep(e, g, env).rcv, g)),
                                         t := DataStep(e, g, env).t), env);
            f.t.rtx == e.t.rtx || (f.t.rtx.None? && f.state.TimeWait? && !e.state.TimeWait?)
  {
    hide Absorb, InOrder, Accepted, TrimLeft, Deliver, Buffered, FinArrives, FinFromPending;
  }

  lemma AckTimer(e: Endpoint, g: Segment, env: Env)
    requires g.ack <= e.snd.nxt
    ensures var f := ProcessAck(e, g, env).0;
            && f.snd.una == Larger(e.snd.una, g.ack) && f.snd.nxt == e.snd.nxt
            && f.t.rtx == (if g.ack <= e.snd.una then e.t.rtx
                           else if g.ack == e.snd.nxt then None else Some(env.now + env.rto))
  {
    hide AckCc, AckBoard, ShiftLeft, Lt, Le, Wire;
  }

  /** The timer a segment leaves. */
  predicate Timed(e: Endpoint, f: Endpoint, env: Env) {
    if f.snd.una > e.snd.una then f.t.rtx == (if f.snd.una == f.snd.nxt then None else Some(env.now + env.rto))
    else f.t.rtx == e.t.rtx || (f.t.rtx == Some(env.now + env.rto) && (InRecovery(f.snd.board) || f.snd.retransmit))
  }

  lemma ProcessTimer(e: Endpoint, g: Segment, env: Env)
    requires Consistent(e) && !e.state.TimeWait?
    ensures Timed(e, Process(e, g, env), env)
  {
    hide ProcessAck, DetectLoss, DataStep, FinArrives, FinFromPending, RecomputeClosing, Consistent, RestartRtx;
    ProcessKeeps(e, g, env);
    var (e1, ok) := ProcessAck(e, g, env);
    var f := Process(e, g, env);
    TimeIs(e, f, env);
    if ok {
      AckAnswer(e, g, env);
      AckTimer(e, g, env);
      var dup := IsDupAck(e, g);
      var e2 := DetectLoss(e1, g, dup, env);
      DetectTimer(e1, g, dup, env);
      DataStepData(e2, g, env);
      DataTimer(e2, g, env);
      TailTimer(e2, g, env);
      DetectFrame(e1, g, dup, env);
      var e3 := DataStep(e2, g, env);
      assert e3 == e2.(rcv := e3.rcv, t := e3.t);
      assert f == RecomputeClosing(e2.(rcv := FinFromPending(FinArrives(e3.rcv, g)), t := e3.t), env);
      ClosingFrame(e2.(rcv := FinFromPending(FinArrives(e3.rcv, g)), t := e3.t), env);
      RestartIs(e1.t, env);
    } else {
      NotOkKeeps(e, g, env);
    }
  }

  lemma RestartIs(t: Timers, env: Env)
    ensures RestartRtx(t, env).rtx == Some(env.now + env.rto)
  {}

  /** The timer runs exactly while something is outstanding. */
  lemma TimeIs(e: Endpoint, f: Endpoint, env: Env)
    requires Consistent(e) && Consistent(f)
    ensures (e.t.rtx.Some? <==> e.snd.una < e.snd.nxt) && (f.t.rtx.Some? <==> f.snd.una < f.snd.nxt)
    ensures e.snd.una <= e.snd.nxt && f.snd.una <= f.snd.nxt
  {
    ConsistentFacts(e);
    ConsistentFacts(f);
    hide PoolInv, CcInv, Rfc6675.Valid;
  }

  lemma ClosingFrame(e: Endpoint, env: Env)
    ensures RecomputeClosing(e, env).snd == e.snd
  {}

  lemma DataTimer(e: Endpoint, g: Segment, env: Env)
    ensures DataStep(e, g, env) == e.(rcv := DataStep(e, g, env).rcv, t := DataStep(e, g, env).t)
    ensures DataStep(e, g, env).t == e.t.(delayedAck := DataStep(e, g, env).t.delayedAck)
  {
    hide Absorb, InOrder, Accepted, TrimLeft, Deliver, Buffered;
  }

  /** An ACK of new data restarts the timer, or stops it when nothing is left outstanding; a loss response
      restarts it; nothing else about an arriving segment touches it. */
  lemma SegmentTimesRtx(e: Endpoint, g: Segment, env: Env)
    requires Consistent(e)
    ensures Timed(e, OnSegment(e, g, env), env)
  {
    hide Process, Consistent;
    OnSegmentKeeps(e, g, env);
    TimeIs(e, OnSegment(e, g, env), env);
    if !g.rst && !e.state.TimeWait? && !g.syn && Acceptable(e.rcv, g) && g.hasAck {
      ProcessTimer(e, g, env);
    }
  }

  /** As before, or running because it was not. */
  predicate Started(t: Timers, u: Timers, env: Env) {
    u.rtx == t.rtx || (t.rtx.None? && u.rtx == Some(env.now + env.rto))
  }

  lemma StepNewTimer(e: Endpoint, env: Env)
    ensures Started(e.t, StepNew(e, env).0.t, env)
  {
    hide PipeOf, Advertise, Report, ShiftRight, MaxPayload, Unsent, Inflight;
  }

  lemma StepRepairTimer(e: Endpoint, env: Env)
    ensures Started(e.t, StepRepair(e, env).0.t, env)
  {
    hide StepNew, NextSeg, PipeOf, MaxPayload, UnsackedRunLen, Marked, Advertise, Report, ShiftRight;
    StepNewTimer(e, env);
  }

  lemma PollTimer(e: Endpoint, env: Env)
    ensures Started(e.t, Poll(e, env).0.t, env)
  {
    hide StepRepair, Advertise, Report, ShiftRight, MaxPayload;
    if !e.state.Closed? && !e.state.TimeWait? {
      StepRepairTimer(e, env);
      StepRepairTimer(e.(snd := e.snd.(retransmit := false)), env);
    }
  }

  /** Sending starts the timer when it was not running, and never moves it when it was. */
  lemma PollTimesRtx(e: Endpoint, env: Env)
    requires Consistent(e)
    ensures var f := Poll(e, env).0;
            f.t.rtx == if e.snd.una < e.snd.nxt then e.t.rtx
                       else if f.snd.una < f.snd.nxt then Some(env.now + env.rto) else None
  {
    hide Poll, Consistent;
    PollOk(e, env);
    PollTimer(e, env);
    Discipline.PollFrame(e, env);
    TimeIs(e, Poll(e, env).0, env);
  }

  // ── the persist interval ────────────────────────────────────────────────────────────────────

  function Power(k: nat): nat { if k == 0 then 1 else 2 * Power(k - 1) }

  /** `k` wake-ups, each exactly at the persist deadline. */
  ghost function Persisted(e: Endpoint, k: nat, env: Env): Endpoint
    decreases k
  {
    if k == 0 || e.t.persist.None? then e
    else Persisted(OnTimer(e, env.(now := e.t.persist.value)), k - 1, env)
  }

  /** The interval doubles with every probe, from one second up to a minute, as long as the window stays
      closed. */
  lemma {:induction false} PersistDoubles(e: Endpoint, k: nat, j: nat, env: Env)
    requires e.t.persist.Some? && e.t.backoff == MinN(PERSIST_MIN * Power(j), PERSIST_MAX)
    ensures var f := Persisted(e, k, env);
            f.t.persist.Some? && f.t.backoff == MinN(PERSIST_MIN * Power(j + k), PERSIST_MAX)
              && (k > 0 ==> f.snd.sendProbe)
    decreases k
  {
    hide OnTimer;
    if k > 0 {
      var late := env.(now := e.t.persist.value);
      var f := OnTimer(e, late);
      TimersFireExactly(e, late);
      assert Power(j + 1) == 2 * Power(j);
      PersistDoubles(f, k - 1, j + 1, env);
      if k == 1 { assert Persisted(f, 0, env) == f; }
    }
  }

  lemma WindowPersist(e: Endpoint, g: Segment)
    ensures var f := UpdateWindow(e, g);
            if TakesWindow(e, g) && g.window > 0
            then !f.snd.sendProbe && f.t == e.t.(persist := None, backoff := PERSIST_MIN)
            else f.snd.sendProbe == e.snd.sendProbe && f.t == e.t
  {
    hide ShiftLeft, Lt, Le, Wire;
  }

  lemma AckPersist(e: Endpoint, g: Segment, env: Env)
    requires g.ack <= e.snd.nxt
    ensures var f := ProcessAck(e, g, env).0;
            if TakesWindow(e, g) && g.window > 0
            then !f.snd.sendProbe && f.t.persist.None? && f.t.backoff == PERSIST_MIN
            else f.snd.sendProbe == e.snd.sendProbe && f.t.persist == e.t.persist && f.t.backoff == e.t.backoff
  {
    hide Advance, UpdateWindow, TakesWindow;
    if g.ack > e.snd.una {
      AdvancePersist(e, g, env);
      AdvanceWindow(e, g, env);
      SameTest(e, Advance(e, g, env), g);
      WindowPersist(Advance(e, g, env), g);
    } else {
      WindowPersist(e, g);
    }
  }

  lemma SameTest(e: Endpoint, f: Endpoint, g: Segment)
    requires f.snd.wl1 == e.snd.wl1 && f.snd.wl2 == e.snd.wl2
    ensures TakesWindow(f, g) <==> TakesWindow(e, g)
  {}

  lemma AdvancePersist(e: Endpoint, g: Segment, env: Env)
    requires e.snd.una < g.ack <= e.snd.nxt
    ensures var f := Advance(e, g, env);
            f.snd.sendProbe == e.snd.sendProbe && f.t == e.t.(rtx := f.t.rtx)
  {
    hide AckCc, AckBoard;
  }

  /** A window taken open ends the persist state; nothing else about a segment does, but for the close. */
  lemma OpenWindowEndsPersist(e: Endpoint, g: Segment, env: Env)
    ensures var f := OnSegment(e, g, env);
            if ReachesAck(e, g) && TakesWindow(e, g) && g.window > 0
            then !f.snd.sendProbe && f.t.persist.None? && f.t.backoff == PERSIST_MIN
            else && f.snd.sendProbe == e.snd.sendProbe && f.t.backoff == e.t.backoff
                 && (f.t.persist == e.t.persist || (f.t.persist.None? && f.state.TimeWait?))
  {
    hide ProcessAck, DetectLoss, DataStep, TakesWindow, FinArrives, FinFromPending;
    if !g.rst && !e.state.TimeWait? && !g.syn && Acceptable(e.rcv, g) && g.hasAck {
      AckAnswer(e, g, env);
      if g.ack <= e.snd.nxt {
        AckPersist(e, g, env);
        var e1 := ProcessAck(e, g, env).0;
        DetectFrame(e1, g, IsDupAck(e, g), env);
        DetectTimer(e1, g, IsDupAck(e, g), env);
        DataTimer(DetectLoss(e1, g, IsDupAck(e, g), env), g, env);
      } else {
        NotOkKeeps(e, g, env);
      }
    }
  }

  // ── the closing deadlines ───────────────────────────────────────────────────────────────────

  lemma ProcessLeavesWait(e: Endpoint, g: Segment, env: Env)
    ensures var f := Process(e, g, env);
            if f.state == e.state then f.t.timeWait == e.t.timeWait
            else if f.state.TimeWait? then f.t.timeWait == Some(env.now + TIME_WAIT)
            else if f.state.FinWait2? then f.t.timeWait == Some(env.now + FIN_WAIT2)
            else f.t.timeWait == e.t.timeWait
  {
    hide ProcessAck, DetectLoss, DataStep, FinArrives, FinFromPending, ClosingState;
    AckLeavesWait(e, g, env);
    var (e1, ok) := ProcessAck(e, g, env);
    if ok {
      DetectFrame(e1, g, IsDupAck(e, g), env);
      DetectTimer(e1, g, IsDupAck(e, g), env);
      DataTimer(DetectLoss(e1, g, IsDupAck(e, g), env), g, env);
    }
  }

  lemma AckLeavesWait(e: Endpoint, g: Segment, env: Env)
    ensures ProcessAck(e, g, env).0.t.timeWait == e.t.timeWait && ProcessAck(e, g, env).0.state == e.state
  {
    hide AckCc, AckBoard, ShiftLeft, Lt, Le, Wire;
  }

  /** TIME-WAIT is entered for ten seconds, FIN-WAIT-2 for a minute, and a segment other than a RST in
      TIME-WAIT begins its ten seconds again. */
  lemma SegmentArmsClosing(e: Endpoint, g: Segment, env: Env)
    ensures var f := OnSegment(e, g, env);
            if f.state.TimeWait? && (f.state != e.state || !g.rst) then f.t.timeWait == Some(env.now + TIME_WAIT)
            else if f.state.FinWait2? && f.state != e.state then f.t.timeWait == Some(env.now + FIN_WAIT2)
            else f.t.timeWait == e.t.timeWait
  {
    hide Process;
    ProcessLeavesWait(e, g, env);
  }

  /** The first probe into a closed window is due a second after the poll that found it closed; later polls
      leave it. */
  lemma ClosedWindowStartsPersist(e: Endpoint, env: Env)
    requires Consistent(e) && Live(e) && e.owedRst.None?
    requires e.snd.una == e.snd.nxt && e.snd.tx != [] && e.snd.wnd == 0
    ensures var f := Poll(e, env).0;
            if e.t.persist.Some? then f.t.persist == e.t.persist && f.t.backoff == e.t.backoff
            else f.t.persist == Some(env.now + PERSIST_MIN) && f.t.backoff == PERSIST_MIN
  {
    hide Consistent, StepNew, PureAck, StepRetransmit;
    QuietRepair(e, env);
    ClosedStep(e, env);
    AckLeavesPersist(StepNew(e, env).0);
  }

  lemma AckLeavesPersist(e: Endpoint)
    ensures PureAck(e).0.t.persist == e.t.persist && PureAck(e).0.t.backoff == e.t.backoff
  {
    hide Advertise, Report, ShiftRight;
  }

  lemma ClosedStep(e: Endpoint, env: Env)
    requires Consistent(e) && e.snd.una == e.snd.nxt && e.snd.tx != [] && e.snd.wnd == 0
    ensures var f := StepNew(e, env).0;
            if e.t.persist.Some? then f.t.persist == e.t.persist && f.t.backoff == e.t.backoff
            else f.t.persist == Some(env.now + PERSIST_MIN) && f.t.backoff == PERSIST_MIN
  {
    PacedFlags(e, env);
    PacedPersist(e, env);
    hide Consistent, PipeOf, Paced, Advertise, Report, ShiftRight, MaxPayload;
  }

  lemma PacedPersist(e: Endpoint, env: Env)
    ensures Paced(e, env).t.persist == e.t.persist && Paced(e, env).t.backoff == e.t.backoff
  {
    hide PipeOf;
  }
}
