/** What lets a segment out: the congestion window over the RFC 6675 pipe, the peer's window and the pacer
    hold new data back, and nothing else does; resends and the FIN go out when they are due. Stated on
    `Poll`, whatever steps it is made of. */
module Gate {
  import opened Options
  import opened Serial
  import opened Runs
  import opened Rfc6675
  import opened Reassembly
  import opened Congestion
  import opened Endpoint
  import opened ReceiveSide
  import opened Connection
  import opened Sending
  import opened ConnectionRuns

  /** Octets counted as in the network: with SACK those of section 4 of RFC 6675, else all outstanding. */
  function InNetwork(e: Endpoint): int {
    if e.cfg.sack then Rfc6675.Pipe(e.snd.board, e.snd.una, e.snd.nxt, e.cfg.mss) else e.snd.nxt - e.snd.una
  }

  lemma PipeIs(e: Endpoint)
    requires Consistent(e)
    ensures PipeOf(e) == InNetwork(e) && Inflight(e.snd) == e.snd.nxt - e.snd.una
  {
    OrderOf(e);
    hide Consistent, Pipe;
  }

  /** Octets of the SACK option that `k` blocks take. */
  function OptionSpace(k: nat): nat { if k == 0 then 0 else 4 + 8 * k }

  /** The number of blocks the next segment carries. */
  function Blocks(e: Endpoint): nat {
    if !e.cfg.sack then 0 else if |e.rcv.reasm.chunks| <= 4 then |e.rcv.reasm.chunks| else 4
  }

  lemma LimitIs(e: Endpoint)
    requires Consistent(e)
    ensures MaxPayload(e) == e.cfg.mss - OptionSpace(Blocks(e)) > 0
  {
    ConsistentFacts(e);
    hide Consistent, SendInv, PoolInv, CcInv;
  }

  lemma BlocksStamped(e: Endpoint, f: Endpoint, g: Segment)
    requires Stamp(e, f, g)
    ensures |g.blocks| == Blocks(e)
  {
    hide Advertise, ShiftRight;
  }

  // ── what each step emits ────────────────────────────────────────────────────────────────────

  lemma BuiltPayload(e: Endpoint, at: int, fin: bool, payload: seq<byte>)
    ensures var g := Build(e, at, fin, payload).1; g.seqNo == at && g.payload == payload && g.fin == fin
  {
    hide Advertise, Report, ShiftRight;
  }

  /** The step for new data with `n` octets to send. */
  lemma StepSends(e: Endpoint, env: Env, n: nat)
    requires n == MinN(MinN(Allowed(e, env), Unsent(e.snd)), MaxPayload(e)) > 0
    ensures var (f, g) := StepNew(e, env);
            && g.Some? && g.value.seqNo == e.snd.nxt && !g.value.fin && f.snd.nxt == e.snd.nxt + n
            && g.value.payload == e.snd.tx[SentData(e.snd)..SentData(e.snd) + n]
  {
    PacedFlags(e, env);
    PacedIsAlike(e, env);
    var p := Paced(e, env);
    AlikeSame(e, p);
    hide Build, Paced, PipeOf, Alike, Allowed, MaxPayload;
    BuiltPayload(p, p.snd.nxt, false, p.snd.tx[SentData(p.snd)..SentData(p.snd) + n]);
    BuildLeaves(p, p.snd.nxt, false, p.snd.tx[SentData(p.snd)..SentData(p.snd) + n]);
  }

  /** And with none: a probe into a closed window, or the FIN. */
  lemma StepHolds(e: Endpoint, env: Env)
    requires Consistent(e) && MinN(MinN(Allowed(e, env), Unsent(e.snd)), MaxPayload(e)) == 0
    ensures var (f, g) := StepNew(e, env);
            && (g.Some? && g.value.payload != [] ==>
                  e.snd.una == e.snd.nxt == g.value.seqNo && e.snd.wnd == 0 && |g.value.payload| == 1)
            && (Unsent(e.snd) == 0 && e.snd.finQueued && !e.snd.finAcked && e.snd.nxt == DataEnd(e.snd) ==>
                  g.Some? && g.value.fin && g.value.payload == [] && g.value.seqNo == e.snd.nxt)
  {
    OrderOf(e);
    PacedFlags(e, env);
    PacedIsAlike(e, env);
    var p := Paced(e, env);
    AlikeSame(e, p);
    hide Consistent, Build, Paced, PipeOf, Alike, Allowed, MaxPayload, StepFin, ProbeNow;
    var q := PersistArmed(p, env);
    FinOrNot(p, env);
    FinOrNot(q, env);
    if e.snd.tx != [] { ProbeIs(q); }
  }

  lemma FinOrNot(e: Endpoint, env: Env)
    ensures var g := StepFin(e, env).1;
            if e.snd.finQueued && !e.snd.finAcked && e.snd.nxt == DataEnd(e.snd)
            then g.Some? && g.value.fin && g.value.payload == [] && g.value.seqNo == e.snd.nxt
            else g.None?
  {
    BuiltPayload(e, DataEnd(e.snd), true, []);
    hide Build;
  }

  lemma ProbeIs(e: Endpoint)
    requires e.snd.tx != []
    ensures var g := ProbeNow(e).1; g.Some? && g.value.seqNo == e.snd.una && |g.value.payload| == 1 && !g.value.fin
  {
    BuiltPayload(e.(snd := e.snd.(sendProbe := false)), e.snd.una, false, e.snd.tx[..1]);
    hide Build;
  }

  /** New data is not due, or the step is exactly that. */
  lemma StepNewIs(e: Endpoint, env: Env)
    requires Consistent(e)
    ensures var (f, g) := StepNew(e, env);
            var n := MinN(MinN(Allowed(e, env), Unsent(e.snd)), MaxPayload(e));
            && (n > 0 ==> g.Some? && g.value.seqNo == e.snd.nxt && !g.value.fin && f.snd.nxt == e.snd.nxt + n
                          && g.value.payload == e.snd.tx[SentData(e.snd)..SentData(e.snd) + n])
            && (n == 0 && g.Some? && g.value.payload != [] ==>
                  e.snd.una == e.snd.nxt == g.value.seqNo && e.snd.wnd == 0 && |g.value.payload| == 1)
            && (n == 0 && Unsent(e.snd) == 0 && e.snd.finQueued && !e.snd.finAcked && e.snd.nxt == DataEnd(e.snd) ==>
                  g.Some? && g.value.fin && g.value.payload == [] && g.value.seqNo == e.snd.nxt)
  {
    hide Consistent, StepNew, Allowed, MaxPayload, SentData;
    var n := MinN(MinN(Allowed(e, env), Unsent(e.snd)), MaxPayload(e));
    if n > 0 { StepSends(e, env, n); } else { StepHolds(e, env); }
  }

  lemma BuildLeaves(e: Endpoint, at: int, fin: bool, payload: seq<byte>)
    ensures Build(e, at, fin, payload).0.snd == e.snd
  {
    hide Advertise, Report, ShiftRight;
  }

  /** The step before it repairs a hole, which lies below SND.NXT, or is the step for new data. */
  lemma StepRepairIs(e: Endpoint, env: Env)
    requires Consistent(e)
    ensures var (f, g) := StepRepair(e, env);
            || (f, g) == StepNew(e, env)
            || (g.Some? && g.value.seqNo < e.snd.nxt && e.cfg.sack && InRecovery(e.snd.board) && PipeOf(e) < e.cc.cwnd
                && NextSeg(e.snd.board, e.snd.una, e.snd.nxt, e.cfg.mss).Some?)
  {
    hide Consistent, Build, PipeOf, StepNew, NextSeg, UnsackedRunLen, MaxPayload, Marked;
    if e.cfg.sack && InRecovery(e.snd.board) && e.cc.cwnd > PipeOf(e) {
      match NextSeg(e.snd.board, e.snd.una, e.snd.nxt, e.cfg.mss) {
        case None =>
        case Some((x, rescue)) =>
          HoleInside(e, x, rescue);
          var off := x - e.snd.una;
          var n := MinN(MinN(UnsackedRunLen(e.snd.board, x, e.snd.nxt), MaxPayload(e)), Monus(|e.snd.tx|, off));
          if n > 0 { BuiltPayload(e, e.snd.una + off, false, e.snd.tx[off..off + n]); }
      }
    }
  }

  /** The first step resends from SND.UNA, or leaves it to the others. */
  lemma StepRetransmitIs(e: Endpoint, env: Env)
    requires Consistent(e)
    ensures var (f, g) := StepRetransmit(e, env);
            var n := MinN(SentData(e.snd), MaxPayload(e));
            var fin := e.snd.finSeq == Some(e.snd.una) && !e.snd.finAcked;
            if e.snd.retransmit && e.snd.una < e.snd.nxt && (n > 0 || fin) then
              && g.Some? && g.value.seqNo == e.snd.una && g.value.payload == e.snd.tx[..n] && g.value.fin == (n == 0)
              && f.snd.board == e.snd.board
            else (f, g) == StepRepair(if e.snd.retransmit && e.snd.una < e.snd.nxt then Calm(e) else e, env)
  {
    OrderOf(e);
    hide Consistent, Build, StepRepair, MaxPayload;
    var e0 := Calm(e);
    var n := MinN(SentData(e.snd), MaxPayload(e));
    if n > 0 {
      BuiltPayload(e0, e0.snd.una + 0, false, e0.snd.tx[0..0 + n]);
      BuildLeaves(e0, e0.snd.una + 0, false, e0.snd.tx[0..0 + n]);
    }
    BuiltPayload(e0, e.snd.una, true, []);
    BuildLeaves(e0, e.snd.una, true, []);
  }

  /** The same with nothing asked to be resent. */
  function Calm(e: Endpoint): Endpoint { e.(snd := e.snd.(retransmit := false)) }

  lemma CalmSame(e: Endpoint, env: Env)
    requires Consistent(e)
    ensures Consistent(Calm(e)) && PipeOf(Calm(e)) == PipeOf(e) && MaxPayload(Calm(e)) == MaxPayload(e)
    ensures Allowed(Calm(e), env) == Allowed(e, env)
  {
    AlikeRetransmit(e);
    AlikeKeeps(e, Calm(e));
    hide Consistent, Pipe;
  }

  // ── new data ────────────────────────────────────────────────────────────────────────────────

  /** A poll puts octets from SND.NXT on into the network; a one-octet probe into a closed window does not
      count. */
  predicate SendsNew(e: Endpoint, g: Option<Segment>) {
    g.Some? && g.value.payload != [] && g.value.seqNo == e.snd.nxt && !(e.snd.una == e.snd.nxt && e.snd.wnd == 0)
  }

  lemma AllowedIs(e: Endpoint, env: Env)
    requires Consistent(e)
    ensures Allowed(e, env) <= Monus(e.cc.cwnd, PipeOf(e)) && Allowed(e, env) <= Monus(e.snd.wnd, e.snd.nxt - e.snd.una)
    ensures env.pace.Some? ==> Allowed(e, env) <= env.pace.value.0
  {
    OrderOf(e);
    hide Consistent, PipeOf;
  }

  /** New data and what is in the network fit the congestion window, with and without SACK; new data and what
      is outstanding fit the peer's window; and no more leaves than the pacer has credit for. */
  lemma WindowsHoldDataBack(e: Endpoint, env: Env)
    requires Consistent(e) && e.owedRst.None? && SendsNew(e, Poll(e, env).1)
    ensures var n := |Poll(e, env).1.value.payload|;
            && InNetwork(e) + n <= e.cc.cwnd
            && e.snd.nxt - e.snd.una + n <= e.snd.wnd
            && (env.pace.Some? ==> n <= env.pace.value.0)
  {
    hide Consistent, StepRetransmit, StepRepair, StepNew, PipeOf, Allowed, MaxPayload, InNetwork, Build;
    OrderOf(e);
    PipeIs(e);
    CalmSame(e, env);
    if !e.state.Closed? && !e.state.TimeWait? {
      var c := if e.snd.retransmit && e.snd.una < e.snd.nxt then Calm(e) else e;
      PureAckEmpty(StepRetransmit(e, env).0);
      StepRetransmitIs(e, env);
      StepRepairIs(c, env);
      StepNewIs(c, env);
      AllowedIs(e, env);
    } else {
      PureAckEmpty(e);
    }
  }

  lemma PureAckEmpty(e: Endpoint)
    ensures PureAck(e).1.Some? ==> PureAck(e).1.value.payload == [] && !PureAck(e).1.value.fin
    ensures PureAck(e).0.snd == e.snd
  {
    hide Advertise, Report, ShiftRight;
  }

  // ── nothing else holds it back ──────────────────────────────────────────────────────────────

  /** Octets that both windows, and a pacer if there is one, have room for. */
  function Room(e: Endpoint, env: Env): int {
    var a, b := e.cc.cwnd - InNetwork(e), e.snd.wnd - (e.snd.nxt - e.snd.una);
    var r := if a <= b then a else b;
    if env.pace.Some? && env.pace.value.0 < r then env.pace.value.0 else r
  }

  /** How much of what waits one segment takes: what there is room for, and what fits beside the blocks. */
  function Due(e: Endpoint, env: Env): int {
    var waiting, fits := |e.snd.tx| - (e.snd.nxt - e.snd.una), e.cfg.mss - OptionSpace(Blocks(e));
    var n := if waiting <= fits then waiting else fits;
    if Room(e, env) <= n then Room(e, env) else n
  }

  /** A hole of the outstanding window qualifies for a repair: lost and not yet resent, or, once an episode,
      merely unsacked below the highest SACK. */
  ghost predicate HoleDue(e: Endpoint) {
    exists z :: e.snd.una <= z < e.snd.nxt &&
                (Repairable(e.snd.board, z, e.cfg.mss) || (!e.snd.board.rescueDone && Rescuable(e.snd.board, z)))
  }

  /** Nothing is to be sent again: no oldest segment asked for, and no hole the congestion window allows. */
  ghost predicate NoResendDue(e: Endpoint) {
    && !(e.snd.retransmit && e.snd.una < e.snd.nxt)
    && !(e.cfg.sack && InRecovery(e.snd.board) && InNetwork(e) < e.cc.cwnd && HoleDue(e))
  }

  lemma NoHole(e: Endpoint)
    requires !HoleDue(e)
    ensures NextSeg(e.snd.board, e.snd.una, e.snd.nxt, e.cfg.mss).None?
  {
    NextSegIsLowest(e.snd.board, e.snd.una, e.snd.nxt, e.cfg.mss);
    hide NextSeg, Repairable, Rescuable;
  }

  lemma RoomIs(e: Endpoint, env: Env)
    requires Consistent(e)
    ensures Allowed(e, env) == if Room(e, env) >= 0 then Room(e, env) else 0
    ensures e.snd.finSeq.None? ==>
              Unsent(e.snd) == |e.snd.tx| - (e.snd.nxt - e.snd.una) && SentData(e.snd) == e.snd.nxt - e.snd.una
    ensures e.snd.finSeq.Some? ==> Unsent(e.snd) == 0
  {
    PipeIs(e);
    ConsistentFacts(e);
    hide Consistent, PipeOf, PoolInv, CcInv, InNetwork, Rfc6675.Valid;
  }

  /** A live connection with nothing to resend. */
  lemma PollIsStepNew(e: Endpoint, env: Env)
    requires Consistent(e) && Live(e) && e.owedRst.None? && NoResendDue(e)
    ensures StepNew(e, env).1.Some? ==> Poll(e, env) == StepNew(e, env)
  {
    OrderOf(e);
    PipeIs(e);
    if !HoleDue(e) { NoHole(e); }
    hide Consistent, StepNew, NextSeg, PipeOf, HoleDue, InNetwork, PureAck;
    StepRetransmitIs(e, env);
  }

  /** With nothing to resend, what both windows and the pacer have room for is sent, up to a full segment:
      nothing else holds new data back. */
  lemma SendsWhatItMay(e: Endpoint, env: Env)
    requires Consistent(e) && Live(e) && e.owedRst.None? && NoResendDue(e) && e.snd.finSeq.None? && Due(e, env) > 0
    ensures var (f, g) := Poll(e, env); var off, n := e.snd.nxt - e.snd.una, Due(e, env);
            && g.Some? && g.value.seqNo == e.snd.nxt && 0 <= off && off + n <= |e.snd.tx|
            && g.value.payload == e.snd.tx[off..off + n] && f.snd.nxt == e.snd.nxt + n
  {
    DueIs(e, env);
    StepNewIs(e, env);
    PollIsStepNew(e, env);
    hide Consistent, Poll, StepNew, Allowed, MaxPayload, NoResendDue, Due, SentData, Unsent;
  }

  lemma DueIs(e: Endpoint, env: Env)
    requires Consistent(e) && e.snd.finSeq.None? && Due(e, env) > 0
    ensures MinN(MinN(Allowed(e, env), Unsent(e.snd)), MaxPayload(e)) == Due(e, env)
    ensures SentData(e.snd) == e.snd.nxt - e.snd.una >= 0 && Due(e, env) <= |e.snd.tx| - SentData(e.snd)
  {
    RoomIs(e, env);
    LimitIs(e);
    OrderOf(e);
    hide Consistent, Allowed, MaxPayload, Room, SentData, Unsent, InNetwork;
  }

  /** With nothing to resend and all data sent, a queued FIN goes out. */
  lemma FinGoesOut(e: Endpoint, env: Env)
    requires Consistent(e) && Live(e) && e.owedRst.None? && NoResendDue(e)
    requires e.snd.finQueued && !e.snd.finAcked && e.snd.nxt == e.snd.una + |e.snd.tx|
    ensures var g := Poll(e, env).1; g.Some? && g.value.fin && g.value.payload == [] && g.value.seqNo == e.snd.nxt
  {
    AllSent(e);
    StepNewIs(e, env);
    PollIsStepNew(e, env);
    hide Consistent, Poll, StepNew, Allowed, MaxPayload, NoResendDue, Unsent, SentData;
  }

  lemma AllSent(e: Endpoint)
    requires Consistent(e) && e.snd.nxt == e.snd.una + |e.snd.tx|
    ensures Unsent(e.snd) == 0 && e.snd.nxt == DataEnd(e.snd)
  {}

  // ── resends ─────────────────────────────────────────────────────────────────────────────────

  /** When the oldest segment is asked for it is what the next poll sends: as much from SND.UNA on as is
      outstanding and fits, or the FIN when only that is. */
  lemma OldestGoesFirst(e: Endpoint, env: Env)
    requires Consistent(e) && Live(e) && e.owedRst.None? && e.snd.retransmit && e.snd.una < e.snd.nxt
    ensures var g := Poll(e, env).1;
            var sent := MinN(e.snd.nxt - e.snd.una, |e.snd.tx|);
            var n := MinN(sent, e.cfg.mss - OptionSpace(Blocks(e)));
            && g.Some? && g.value.seqNo == e.snd.una && g.value.payload == e.snd.tx[..n]
            && (g.value.fin <==> e.snd.tx == [])
  {
    LimitIs(e);
    StepRetransmitIs(e, env);
    OnlyFin(e);
    hide Consistent, StepRetransmit, MaxPayload;
  }

  lemma OnlyFin(e: Endpoint)
    requires Consistent(e) && e.snd.una < e.snd.nxt
    ensures SentData(e.snd) == MinN(e.snd.nxt - e.snd.una, |e.snd.tx|)
    ensures e.snd.tx == [] ==> e.snd.finSeq == Some(e.snd.una) && !e.snd.finAcked
  {
    ConsistentFacts(e);
    hide PoolInv, CcInv, Rfc6675.Valid;
  }

  /** No segment, new or resent, outgrows the segment size with its SACK option. */
  lemma SegmentsFit(e: Endpoint, env: Env)
    requires Consistent(e) && e.owedRst.None? && Poll(e, env).1.Some?
    ensures var g := Poll(e, env).1.value;
            |g.blocks| == Blocks(e) && |g.payload| + OptionSpace(|g.blocks|) <= e.cfg.mss
  {
    LimitIs(e);
    PollOk(e, env);
    EmittedSize(e, env);
    var (f, g) := Poll(e, env);
    hide Consistent, Poll, IsKind, SendFrame, Stamp, MaxPayload;
    var k :| Emits(k, e, f, g.value);
    BlocksStamped(e, f, g.value);
  }

  lemma EmittedSize(e: Endpoint, env: Env)
    requires Consistent(e) && e.owedRst.None? && Poll(e, env).1.Some?
    ensures |Poll(e, env).1.value.payload| <= MaxPayload(e)
  {
    CalmSame(e, env);
    hide Consistent, StepRetransmit, StepRepair, StepNew, MaxPayload, PureAck, Calm;
    if !e.state.Closed? && !e.state.TimeWait? {
      PureAckEmpty(StepRetransmit(e, env).0);
      RetransmitSize(e, env);
    } else {
      PureAckEmpty(e);
    }
  }

  lemma RetransmitSize(e: Endpoint, env: Env)
    requires Consistent(e)
    ensures var g := StepRetransmit(e, env).1; g.Some? ==> |g.value.payload| <= MaxPayload(e)
  {
    CalmSame(e, env);
    hide Consistent, StepRetransmit, StepRepair, StepNew, MaxPayload, Calm;
    StepRetransmitIs(e, env);
    var c := if e.snd.retransmit && e.snd.una < e.snd.nxt then Calm(e) else e;
    RepairSizeIs(c, env);
    NewSize(c, env);
  }

  lemma NewSize(e: Endpoint, env: Env)
    requires Consistent(e)
    ensures var g := StepNew(e, env).1; g.Some? ==> |g.value.payload| <= MaxPayload(e)
  {
    LimitIs(e);
    StepNewIs(e, env);
    hide Consistent, StepNew, MaxPayload;
  }

  lemma RepairSizeIs(e: Endpoint, env: Env)
    requires Consistent(e)
    ensures var g := StepRepair(e, env).1;
            StepRepair(e, env) == StepNew(e, env) || (g.Some? && |g.value.payload| <= MaxPayload(e))
  {
    hide Consistent, Build, PipeOf, StepNew, NextSeg, UnsackedRunLen, MaxPayload, Marked;
    if e.cfg.sack && InRecovery(e.snd.board) && e.cc.cwnd > PipeOf(e) {
      match NextSeg(e.snd.board, e.snd.una, e.snd.nxt, e.cfg.mss) {
        case None =>
        case Some((x, rescue)) =>
          var off := if x >= e.snd.una then x - e.snd.una else 0;
          var n := MinN(MinN(UnsackedRunLen(e.snd.board, x, e.snd.nxt), MaxPayload(e)), Monus(|e.snd.tx|, off));
          if n > 0 { BuiltPayload(e, e.snd.una + off, false, e.snd.tx[off..off + n]); }
      }
    }
  }

  // ── ACKs ────────────────────────────────────────────────────────────────────────────────────

  /** A connection that owes an ACK sends a segment. */
  lemma NeedyPolls(e: Endpoint, env: Env)
    requires Consistent(e) && Live(e) && e.owedRst.None? && e.rcv.needsAck
    ensures Poll(e, env).1.Some?
  {
    hide Consistent, StepRetransmit, Emits, Build;
    StepRetransmitOk(e, env);
  }

  /** An owed ACK leaves with the next poll, on whatever segment that sends. */
  lemma OwedAckLeaves(e: Endpoint, env: Env)
    requires Consistent(e) && Live(e) && e.owedRst.None? && e.rcv.needsAck
    ensures var (f, g) := Poll(e, env);
            g.Some? && g.value.hasAck && g.value.ack == e.rcv.nxt && f.rcv.unackedSegs == 0 && f.t.delayedAck.None?
  {
    NeedyPolls(e, env);
    PollOk(e, env);
    SentClears(e, env);
    var (f, g) := Poll(e, env);
    hide Consistent, Poll, IsKind, SendFrame, Advertise, ShiftRight, Report;
    var k :| Emits(k, e, f, g.value);
  }

  /** Whatever is sent satisfies a delayed ACK. */
  lemma SentClears(e: Endpoint, env: Env)
    requires Poll(e, env).1.Some? && e.owedRst.None?
    ensures Poll(e, env).0.rcv.unackedSegs == 0 && Poll(e, env).0.t.delayedAck.None?
  {
    hide StepRetransmit, PureAck;
    RetransmitClears(e, env);
    AckClears(e);
    if Live(e) { AckClears(StepRetransmit(e, env).0); }
  }

  lemma AckClears(e: Endpoint)
    ensures PureAck(e).1.Some? ==> PureAck(e).0.rcv.unackedSegs == 0 && PureAck(e).0.t.delayedAck.None?
  {
    hide Report, ShiftRight, ShiftLeft, Buffered;
  }

  lemma RetransmitClears(e: Endpoint, env: Env)
    ensures Cleared(e, StepRetransmit(e, env))
  {
    hide StepRepair, Report, ShiftRight, MaxPayload, ShiftLeft, Buffered;
    RepairClears(e, env);
    RepairClears(Calm(e), env);
  }

  predicate Cleared(e: Endpoint, res: (Endpoint, Option<Segment>)) {
    && res.0.rcv.needsAck == e.rcv.needsAck
    && (res.1.Some? ==> res.0.rcv.unackedSegs == 0 && res.0.t.delayedAck.None?)
    && (res.1.None? ==> res.0.rcv.unackedSegs == e.rcv.unackedSegs && res.0.t.delayedAck == e.t.delayedAck)
  }

  lemma NewClears(e: Endpoint, env: Env)
    ensures Cleared(e, StepNew(e, env))
  {
    hide PipeOf, Report, ShiftRight, MaxPayload, Unsent, Inflight, ShiftLeft, Buffered;
  }

  lemma RepairClears(e: Endpoint, env: Env)
    ensures Cleared(e, StepRepair(e, env))
  {
    hide StepNew, NextSeg, PipeOf, MaxPayload, UnsackedRunLen, Marked, Report, ShiftRight, ShiftLeft, Buffered;
    NewClears(e, env);
  }

  // ── the pacer ───────────────────────────────────────────────────────────────────────────────

  lemma StepNewPaces(e: Endpoint, env: Env)
    requires env.pace.Some?
    ensures StepNew(e, env).0.t.pace == Paced(e, env).t.pace
  {
    hide Paced, PipeOf, Advertise, Report, ShiftRight, MaxPayload, Unsent, Inflight;
  }

  lemma AckKeepsPace(e: Endpoint)
    ensures PureAck(e).0.t.pace == e.t.pace
  {
    hide Advertise, Report, ShiftRight;
  }

  /** When the pacer is what holds waiting data back it is to be asked again after the delay it named, and
      otherwise not at all. */
  lemma PacerWakes(e: Endpoint, env: Env)
    requires Consistent(e) && Live(e) && e.owedRst.None? && NoResendDue(e) && e.snd.finSeq.None? && env.pace.Some?
    ensures var (cap, delay) := env.pace.value;
            var binds := cap < Room(e, env.(pace := None)) && |e.snd.tx| > e.snd.nxt - e.snd.una;
            Poll(e, env).0.t.pace == if binds then Some(env.now + delay) else None
  {
    PipeIs(e);
    RoomIs(e, env);
    RoomIs(e, env.(pace := None));
    OrderOf(e);
    if !HoleDue(e) { NoHole(e); }
    StepNewPaces(e, env);
    AckKeepsPace(StepNew(e, env).0);
    hide Consistent, StepNew, NextSeg, PipeOf, HoleDue, InNetwork, PureAck;
    StepRetransmitIs(e, env);
  }

  // ── the advertised window ───────────────────────────────────────────────────────────────────

  /** What the pool can still take. */
  function FreeRoom(r: Receiver): int { RX_BUFFER - |r.rx| - Buffered(r.reasm.chunks) }

  /** Every segment but a RST advertises all the pool can take that the field can express, and says so to
      within one unit of the scale. */
  lemma RoomIsOffered(e: Endpoint, env: Env)
    requires Consistent(e) && e.owedRst.None? && Poll(e, env).1.Some?
    ensures var (f, g) := Poll(e, env);
            var most := ShiftLeft(0xFFFF, e.cfg.rcvWscale); var edge := f.rcv.adv - f.rcv.nxt;
            && f.rcv.nxt == e.rcv.nxt
            && edge >= (if FreeRoom(e.rcv) < most then FreeRoom(e.rcv) else most)
            && (g.value.window == 0xFFFF || edge < ShiftLeft(g.value.window + 1, e.cfg.rcvWscale))
  {
    hide Consistent, Poll, IsKind, SendFrame, Report, Buffered, ShiftLeft, ShiftRight;
    PollOk(e, env);
    var (f, g) := Poll(e, env);
    var k :| Emits(k, e, f, g.value);
    StampOffersRoom(e, f, g.value);
  }

  lemma StampOffersRoom(e: Endpoint, f: Endpoint, g: Segment)
    requires Stamp(e, f, g)
    ensures var most := ShiftLeft(0xFFFF, e.cfg.rcvWscale); var edge := f.rcv.adv - f.rcv.nxt;
            && f.rcv.nxt == e.rcv.nxt
            && edge >= (if FreeRoom(e.rcv) < most then FreeRoom(e.rcv) else most)
            && (g.window == 0xFFFF || edge < ShiftLeft(g.window + 1, e.cfg.rcvWscale))
  {
    ShiftLosesLess(Ahead(f.rcv.adv, f.rcv.nxt), e.cfg.rcvWscale);
    hide ShiftLeft, ShiftRight, Report, Buffered;
  }

  lemma {:induction false} ShiftLosesLess(x: nat, n: nat)
    ensures x < ShiftLeft(ShiftRight(x, n) + 1, n)
  {
    if n > 0 {
      ShiftLosesLess(x, n - 1);
      var y := ShiftRight(x, n - 1);
      ShiftGrows(y + 1, 2 * (y / 2 + 1), n - 1);
      ShiftDoubles(y / 2 + 1, n - 1);
    }
  }

  lemma {:induction false} ShiftDoubles(x: nat, n: nat)
    ensures ShiftLeft(2 * x, n) == 2 * ShiftLeft(x, n)
  {
    if n > 0 { ShiftDoubles(x, n - 1); }
  }

  lemma {:induction false} ShiftGrows(x: nat, y: nat, n: nat)
    requires x <= y
    ensures ShiftLeft(x, n) <= ShiftLeft(y, n)
  {
    if n > 0 { ShiftGrows(x, y, n - 1); }
  }

  // ── the application ─────────────────────────────────────────────────────────────────────────

  /** An open connection takes all the data offered, or as much as fills the ring; nothing when closed to
      sending. */
  lemma SendTakesWhatFits(e: Endpoint, data: seq<byte>)
    requires |e.snd.tx| <= TX_BUFFER
    ensures var (f, n) := Send(e, data);
            && n <= |data| && f.snd.tx == e.snd.tx + data[..n] && |f.snd.tx| <= TX_BUFFER
            && (e.state.Established? || e.state.CloseWait? ==> n == |data| || |f.snd.tx| == TX_BUFFER)
            && (!e.state.Established? && !e.state.CloseWait? ==> n == 0)
  {}

  /** Reading gives as much as there is room for, or all there is, in order. */
  lemma RecvGivesWhatThereIs(e: Endpoint, room: nat)
    ensures var (f, got) := Recv(e, room);
            got + f.rcv.rx == e.rcv.rx && |got| <= room && (|got| == room || f.rcv.rx == [])
  {}

  /** After a close, once all data is sent, the FIN goes out. */
  lemma ClosedSendsFin(e: Endpoint, env: Env)
    requires Consistent(e) && Live(e) && e.owedRst.None? && NoResendDue(e)
    requires !e.snd.finAcked && e.snd.nxt == e.snd.una + |e.snd.tx|
    ensures var g := Poll(Close(e), env).1;
            g.Some? && g.value.fin && g.value.payload == [] && g.value.seqNo == e.snd.nxt
  {
    CloseKeeps(e);
    CloseLeaves(e);
    hide Consistent, Poll, NoResendDue, Close;
    FinGoesOut(Close(e), env);
  }

  lemma CloseLeaves(e: Endpoint)
    ensures var f := Close(e);
            && f == e.(snd := e.snd.(finQueued := true)) && (NoResendDue(f) <==> NoResendDue(e))
            && (Live(f) <==> Live(e))
  {
    hide Rfc6675.Pipe, Repairable, Rescuable;
  }

  /** An owed RST leaves before anything else, at the sequence number it is owed for, and once. */
  lemma OwedRstLeaves(e: Endpoint, env: Env)
    requires e.owedRst.Some?
    ensures var (f, g) := Poll(e, env);
            && f == e.(owedRst := None) && g.Some?
            && g.value.rst && g.value.seqNo == e.owedRst.value && g.value.payload == []
  {}
}
