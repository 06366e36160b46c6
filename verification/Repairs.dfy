/** SACK repairs: what is marked as resent is what was put on the wire, a repair carries all of its hole
    that one segment can, and over whole runs no octet counts as resent that was not. */
module Repairs {
  import opened Options
  import opened Serial
  import opened Runs
  import opened Rfc6675
  import opened Reassembly
  import opened Congestion
  import opened Endpoint
  import opened ReceiveSide
  import opened Connection
  import opened Sending
  import opened ConnectionRuns
  import opened Network
  import opened NetworkRuns
  import opened Gate
  import Discipline

  /** The poll sent a hole of the outstanding window again, on its own account. */
  predicate IsRepair(e: Endpoint, g: Option<Segment>) {
    g.Some? && !e.snd.retransmit && g.value.payload != [] && g.value.seqNo < e.snd.nxt
  }

  /** Octet `z` is in the segment. */
  predicate Inside(g: Segment, z: int) { g.seqNo <= z < g.seqNo + |g.payload| }

  /** How much of the hole at `x` one segment takes. */
  function HoleSize(e: Endpoint, x: int): nat {
    MinN(MinN(UnsackedRunLen(e.snd.board, x, e.snd.nxt), MaxPayload(e)),
         Monus(|e.snd.tx|, if x >= e.snd.una then x - e.snd.una else 0))
  }

  /** `g` repairs the hole NextSeg named, and exactly its octets are marked. */
  ghost predicate Repaired(e: Endpoint, f: Endpoint, g: Segment, rescue: bool) {
    && e.cfg.sack && InRecovery(e.snd.board) && PipeOf(e) < e.cc.cwnd
    && NextSeg(e.snd.board, e.snd.una, e.snd.nxt, e.cfg.mss) == Some((g.seqNo, rescue))
    && e.snd.una <= g.seqNo < e.snd.nxt && |g.payload| == HoleSize(e, g.seqNo) > 0 && !g.fin
    && f.snd.board == Marked(e.snd.board, g.seqNo, |g.payload|, rescue)
  }

  lemma RepairStep(e: Endpoint, env: Env)
    requires Consistent(e)
    ensures var (f, g) := StepRepair(e, env);
            (f, g) == StepNew(e, env) || (g.Some? && exists rescue :: Repaired(e, f, g.value, rescue))
  {
    hide Consistent, Build, PipeOf, StepNew, NextSeg, UnsackedRunLen, MaxPayload, Marked;
    if e.cfg.sack && InRecovery(e.snd.board) && e.cc.cwnd > PipeOf(e) {
      match NextSeg(e.snd.board, e.snd.una, e.snd.nxt, e.cfg.mss) {
        case None =>
        case Some((x, rescue)) =>
          HoleInside(e, x, rescue);
          var off, n := x - e.snd.una, HoleSize(e, x);
          if n > 0 {
            BuiltPayload(e, e.snd.una + off, false, e.snd.tx[off..off + n]);
            assert StepRepair(e, env) == RepairNow(e, x, off, n, rescue, env);
            assert Repaired(e, StepRepair(e, env).0, StepRepair(e, env).1.value, rescue);
          }
      }
    }
  }

  /** With nothing to resend otherwise. */
  lemma CalmRepairs(e: Endpoint, env: Env)
    requires Consistent(e) && !e.snd.retransmit
    ensures var (f, g) := StepRetransmit(e, env);
            if IsRepair(e, g) then exists rescue :: Repaired(e, f, g.value, rescue) else f.snd.board == e.snd.board
  {
    RepairStep(e, env);
    StepNewIs(e, env);
    Discipline.StepNewBoard(e, env);
    OrderOf(e);
    hide Consistent, StepNew, StepRepair, Repaired, Allowed, MaxPayload, SentData, Unsent;
  }

  /** With the oldest segment asked for, nothing is marked. */
  lemma FlaggedMarksNothing(e: Endpoint, env: Env)
    requires Consistent(e) && e.snd.retransmit
    ensures StepRetransmit(e, env).0.snd.board == e.snd.board
  {
    StepRetransmitIs(e, env);
    CalmSame(e, env);
    LimitIs(e);
    NothingToRepair(e);
    var c := if e.snd.una < e.snd.nxt then Calm(e) else e;
    hide Consistent, StepRepair, StepRetransmit, MaxPayload, SentData;
    OrderOf(e);
    if c.snd.tx == [] || !InRecovery(c.snd.board) { NoRepair(c, env); }
  }

  lemma NothingToRepair(e: Endpoint)
    requires Consistent(e)
    ensures e.snd.una < e.snd.nxt && MinN(SentData(e.snd), MaxPayload(e)) == 0 ==> e.snd.tx == []
    ensures e.snd.una == e.snd.nxt ==> !InRecovery(e.snd.board)
  {
    LimitIs(e);
    ConsistentFacts(e);
    hide PoolInv, CcInv, Rfc6675.Valid;
  }

  lemma NoRepair(e: Endpoint, env: Env)
    requires Consistent(e) && (e.snd.tx == [] || !InRecovery(e.snd.board))
    ensures StepRepair(e, env).0.snd.board == e.snd.board
  {
    RepairStep(e, env);
    Discipline.StepNewBoard(e, env);
    hide Consistent, StepRepair, StepNew, MaxPayload, UnsackedRunLen, NextSeg;
  }

  /** What one poll does to the scoreboard: a repair, exactly marked, or nothing. */
  lemma PollRepairs(e: Endpoint, env: Env)
    requires Consistent(e) && e.owedRst.None?
    ensures var (f, g) := Poll(e, env);
            if IsRepair(e, g) then exists rescue :: Repaired(e, f, g.value, rescue) else f.snd.board == e.snd.board
  {
    hide Consistent, StepRetransmit, Repaired, PureAck;
    if Live(e) {
      PureAckEmpty(StepRetransmit(e, env).0);
      if e.snd.retransmit { FlaggedMarksNothing(e, env); } else { CalmRepairs(e, env); }
    } else {
      PureAckEmpty(e);
    }
  }

  lemma MarkedExactly(b: Board, x: int, n: nat, rescue: bool, z: int)
    requires WellFormed(b.rexmit) && n > 0
    ensures Covered(Marked(b, x, n, rescue).rexmit, z) <==> Covered(b.rexmit, z) || x <= z < x + n
  {
    InsertExact(b.rexmit, x, x + n);
  }

  /** An octet is newly marked as resent if and only if the poll put it on the wire as a repair. */
  lemma MarkedIsSent(e: Endpoint, env: Env, z: int)
    requires Consistent(e) && e.owedRst.None?
    ensures var (f, g) := Poll(e, env);
            Covered(f.snd.board.rexmit, z) <==> Covered(e.snd.board.rexmit, z) || (IsRepair(e, g) && Inside(g.value, z))
  {
    PollRepairs(e, env);
    BoardOf(e);
    var (f, g) := Poll(e, env);
    hide Consistent, Poll, Covered, NextSeg, Marked, HoleSize;
    if IsRepair(e, g) {
      var rescue :| Repaired(e, f, g.value, rescue);
      MarkedExactly(e.snd.board, g.value.seqNo, |g.value.payload|, rescue, z);
    }
  }

  /** A repair goes out only in recovery and only with room for it, begins at the octet the rules name, holds
      nothing SACKed, and carries all of its hole that fits beside the blocks. */
  lemma RepairIsWhole(e: Endpoint, env: Env)
    requires Consistent(e) && e.owedRst.None? && IsRepair(e, Poll(e, env).1)
    ensures var g := Poll(e, env).1.value; var end := g.seqNo + |g.payload|;
            && e.cfg.sack && InRecovery(e.snd.board) && InNetwork(e) < e.cc.cwnd
            && (Repairable(e.snd.board, g.seqNo, e.cfg.mss) || Rescuable(e.snd.board, g.seqNo))
            && (forall z :: Inside(g, z) ==> !Covered(e.snd.board.sacked, z))
            && (|| end == e.snd.nxt || Covered(e.snd.board.sacked, end) || end == DataEnd(e.snd)
                || |g.payload| + OptionSpace(|g.blocks|) == e.cfg.mss)
  {
    hide Consistent, Poll, Covered, NextSeg, Marked, Rfc6675.Pipe, UnsackedRunLen, Repairable, Rescuable, MaxPayload,
         PipeOf, InNetwork;
    PollRepairs(e, env);
    SegmentsFit(e, env);
    var (f, g) := Poll(e, env);
    var rescue :| Repaired(e, f, g.value, rescue);
    LimitIs(e);
    PipeIs(e);
    NextSegIsLowest(e.snd.board, e.snd.una, e.snd.nxt, e.cfg.mss);
    HoleEnds(e, g.value.seqNo, rescue);
  }

  lemma HoleEnds(e: Endpoint, x: int, rescue: bool)
    requires Consistent(e)
    requires NextSeg(e.snd.board, e.snd.una, e.snd.nxt, e.cfg.mss) == Some((x, rescue)) && HoleSize(e, x) > 0
    ensures var end := x + HoleSize(e, x);
            && (forall z :: x <= z < end ==> !Covered(e.snd.board.sacked, z))
            && (|| end == e.snd.nxt || Covered(e.snd.board.sacked, end) || end == DataEnd(e.snd)
                || HoleSize(e, x) == MaxPayload(e))
  {
    hide Consistent, Covered, NextSeg, UnsackedRunLen, MaxPayload;
    BoardOf(e);
    HoleInside(e, x, rescue);
    UnsackedRunIsUnsacked(e.snd.board, x, e.snd.nxt);
  }

  /** And it does go out: in recovery, with room and with the oldest segment not asked for, the hole the
      rules name is repaired if any of it is data. */
  lemma HoleIsRepaired(e: Endpoint, env: Env)
    requires Consistent(e) && Live(e) && e.owedRst.None? && !e.snd.retransmit
    requires e.cfg.sack && InRecovery(e.snd.board) && InNetwork(e) < e.cc.cwnd
    requires var h := NextSeg(e.snd.board, e.snd.una, e.snd.nxt, e.cfg.mss); h.Some? && h.value.0 < DataEnd(e.snd)
    ensures var g := Poll(e, env).1;
            IsRepair(e, g) && g.value.seqNo == NextSeg(e.snd.board, e.snd.una, e.snd.nxt, e.cfg.mss).value.0
  {
    hide Consistent, Poll, StepRepair, InNetwork, NextSeg, HoleSize, PipeOf;
    PipeIs(e);
    var (x, rescue) := NextSeg(e.snd.board, e.snd.una, e.snd.nxt, e.cfg.mss).value;
    HoleHasData(e, x, rescue);
    RepairStepIs(e, x, rescue, env);
    PollIsRepair(e, env);
  }

  lemma HoleHasData(e: Endpoint, x: int, rescue: bool)
    requires Consistent(e)
    requires NextSeg(e.snd.board, e.snd.una, e.snd.nxt, e.cfg.mss) == Some((x, rescue)) && x < DataEnd(e.snd)
    ensures HoleSize(e, x) > 0 && e.snd.una <= x < e.snd.nxt
  {
    LimitIs(e);
    BoardOf(e);
    hide Consistent, NextSeg, UnsackedRunLen, MaxPayload, Covered;
    HoleInside(e, x, rescue);
    UnsackedRunIsUnsacked(e.snd.board, x, e.snd.nxt);
  }

  lemma RepairStepIs(e: Endpoint, x: int, rescue: bool, env: Env)
    requires e.cfg.sack && InRecovery(e.snd.board) && PipeOf(e) < e.cc.cwnd && e.snd.una <= x
    requires NextSeg(e.snd.board, e.snd.una, e.snd.nxt, e.cfg.mss) == Some((x, rescue)) && HoleSize(e, x) > 0
    ensures var g := StepRepair(e, env).1; g.Some? && g.value.seqNo == x && g.value.payload != []
  {
    hide PipeOf, NextSeg, UnsackedRunLen, MaxPayload, Build, Marked;
    var off, n := x - e.snd.una, HoleSize(e, x);
    assert StepRepair(e, env) == RepairNow(e, x, off, n, rescue, env);
    BuiltPayload(e, e.snd.una + off, false, e.snd.tx[off..off + n]);
  }

  lemma PollIsRepair(e: Endpoint, env: Env)
    requires Live(e) && e.owedRst.None? && !e.snd.retransmit && StepRepair(e, env).1.Some?
    ensures Poll(e, env) == StepRepair(e, env)
  {
    hide StepRepair;
  }

  // ── over runs ───────────────────────────────────────────────────────────────────────────────

  /** Some poll of the run put octet `z` on the wire as a repair. */
  ghost predicate SentAgain(e: Endpoint, events: seq<Input>, z: int)
    decreases |events|
  {
    events != [] &&
    (|| (&& events[0].DoPoll? && e.owedRst.None? && IsRepair(e, Poll(e, events[0].env).1)
         && Inside(Poll(e, events[0].env).1.value, z))
     || SentAgain(Step(e, events[0]), events[1..], z))
  }

  /** No other input marks anything. */
  lemma OthersMarkNothing(e: Endpoint, ev: Input, z: int)
    requires Consistent(e) && Covered(Step(e, ev).snd.board.rexmit, z) && (ev.DoPoll? ==> e.owedRst.Some?)
    ensures Covered(e.snd.board.rexmit, z)
  {
    BoardOf(e);
    match ev {
      case Arrive(g, env) => SegmentMarks(e, g, env, z); hide OnSegment, Covered, Consistent;
      case Tick(env) => hide Congestion.OnRto, Consistent, Covered; TimerMarks(e, env, z);
      case _ => hide Consistent, Covered;
    }
  }

  lemma TimerMarks(e: Endpoint, env: Env, z: int)
    ensures Covered(OnTimer(e, env).snd.board.rexmit, z) ==> Covered(e.snd.board.rexmit, z)
  {
    hide Congestion.OnRto, RtxTimer, Covered;
    RtxMarks(e, env, z);
  }

  lemma RtxMarks(e: Endpoint, env: Env, z: int)
    ensures Covered(RtxTimer(e, env).snd.board.rexmit, z) ==> Covered(e.snd.board.rexmit, z)
  {
    hide Congestion.OnRto;
  }

  lemma SegmentMarks(e: Endpoint, g: Segment, env: Env, z: int)
    requires Consistent(e)
    ensures Covered(OnSegment(e, g, env).snd.board.rexmit, z) ==> Covered(e.snd.board.rexmit, z)
  {
    if !g.rst && !e.state.TimeWait? && !g.syn && Acceptable(e.rcv, g) && g.hasAck {
      AckMarks(e, g, env, z);
      TailSender(e, g, env);
      var (e1, ok) := ProcessAck(e, g, env);
      DetectMarks(e1, g, IsDupAck(e, g), env);
      hide ProcessAck, DetectLoss, Process, Covered, Consistent;
      assert OnSegment(e, g, env) == Process(e, g, env);
    }
  }

  lemma AckMarks(e: Endpoint, g: Segment, env: Env, z: int)
    requires Consistent(e)
    ensures Covered(ProcessAck(e, g, env).0.snd.board.rexmit, z) ==> Covered(e.snd.board.rexmit, z)
  {
    hide Advance, UpdateWindow, Consistent, Covered;
    if e.snd.una < g.ack <= e.snd.nxt {
      AdvanceMarks(e, g, env, z);
      Discipline.WindowBoard(Advance(e, g, env), g);
    }
    Discipline.WindowBoard(e, g);
  }

  lemma AdvanceMarks(e: Endpoint, g: Segment, env: Env, z: int)
    requires Consistent(e) && e.snd.una < g.ack <= e.snd.nxt
    ensures Covered(Advance(e, g, env).snd.board.rexmit, z) ==> Covered(e.snd.board.rexmit, z)
  {
    BoardOf(e);
    TrimExact(e.snd.board.rexmit, g.ack);
    hide AckCc, Consistent, Covered, Trim;
  }

  lemma DetectMarks(e: Endpoint, g: Segment, dup: bool, env: Env)
    ensures DetectLoss(e, g, dup, env).snd.board.rexmit == e.snd.board.rexmit
  {
    UpdateMarks(e.snd.board, e.snd.una, e.snd.nxt, g.blocks);
    hide CountDup, EnterRecovery, Update, IsLost, Inflight;
    if e.cfg.sack {
      assert DetectLoss(e, g, dup, env) == DetectSack(e, g, dup, env);
    } else {
      assert DetectLoss(e, g, dup, env) == DetectPlain(e, dup, env);
    }
  }

  lemma UpdateMarks(b: Board, una: int, nxt: int, blocks: seq<Run>)
    ensures Update(b, una, nxt, blocks).rexmit == b.rexmit
  {
    hide AddBlocks;
  }

  /** Over any run, whatever arrives: every octet that counts as resent at the end did so at the start, or
      was put on the wire again by a poll of the run. */
  lemma {:induction false} ResentWasSent(e: Endpoint, events: seq<Input>, z: int)
    requires Consistent(e) && Covered(After(e, events).snd.board.rexmit, z)
    ensures Covered(e.snd.board.rexmit, z) || SentAgain(e, events, z)
    decreases |events|
  {
    hide Consistent, Step, IsRepair, Poll, Covered;
    if events != [] {
      StepKeeps(e, events[0]);
      ResentWasSent(Step(e, events[0]), events[1..], z);
      if Covered(Step(e, events[0]).snd.board.rexmit, z) {
        if events[0].DoPoll? && e.owedRst.None? {
          MarkedIsSent(e, events[0].env, z);
          PollIsStep(e, events[0]);
        } else {
          OthersMarkNothing(e, events[0], z);
        }
      }
    }
  }

  lemma PollIsStep(e: Endpoint, ev: Input)
    requires ev.DoPoll?
    ensures Step(e, ev) == Poll(e, ev.env).0
  {
    hide Poll;
  }

  // ── across the network ──────────────────────────────────────────────────────────────────────

  /** Every octet that counts as resent is in a packet on the wire. */
  ghost predicate OnTheWire(x: Side) {
    forall z :: Covered(x.ep.snd.board.rexmit, z) ==> Carried(x, z)
  }

  ghost predicate Carried(x: Side, z: int) { exists p :: p in x.out && Inside(p.g, z) }

  lemma ActOnTheWire(x: Side, y: Side, act: Action)
    requires SenderOk(x) && OnTheWire(x) && Enabled(y, act)
    ensures OnTheWire(Act(x, act))
  {
    hide SenderOk, OnTheWire;
    SenderIsConsistent(x);
    OwesNoRst(x);
    var x' := Act(x, act);
    OutStays(x, act);
    forall z | Covered(x'.ep.snd.board.rexmit, z) ensures Carried(x', z) {
      hide Consistent, Act;
      CarriedAfter(x, act, z);
    }
    assert OnTheWire(x') by { WireFrom(x'); }
  }

  lemma WireFrom(x: Side)
    requires forall z :: Covered(x.ep.snd.board.rexmit, z) ==> Carried(x, z)
    ensures OnTheWire(x)
  {}

  lemma OutStays(x: Side, act: Action)
    ensures x.out <= Act(x, act).out
    ensures act.Xmit? && Poll(x.ep, act.env).1.Some? ==> Packet(Poll(x.ep, act.env).1.value, x.marks) in Act(x, act).out
  {
    hide Poll, OnSegment, OnTimer;
  }

  lemma CarriedAfter(x: Side, act: Action, z: int)
    requires Consistent(x.ep) && x.ep.owedRst.None? && OnTheWire(x) && Covered(Act(x, act).ep.snd.board.rexmit, z)
    ensures Carried(Act(x, act), z)
  {
    hide Consistent, Act, Covered, Step, Poll;
    OutStays(x, act);
    ActIsStep(x, act);
    if act.Xmit? {
      MarkedIsSent(x.ep, act.env, z);
      PollIsStep(x.ep, InputOf(act));
      if !Covered(x.ep.snd.board.rexmit, z) {
        assert Inside(Packet(Poll(x.ep, act.env).1.value, x.marks).g, z);
      }
    } else {
      OthersMarkNothing(x.ep, InputOf(act), z);
    }
    if Covered(x.ep.snd.board.rexmit, z) { CarriedStays(x, Act(x, act), z); }
  }

  lemma CarriedStays(x: Side, x': Side, z: int)
    requires Carried(x, z) && x.out <= x'.out
    ensures Carried(x', z)
  {}

  lemma MoveOnTheWire(n: Net, m: Move)
    requires SafeNet(n) && OnTheWire(n.a) && OnTheWire(n.b) && Possible(n, m)
    ensures OnTheWire(Do(n, m).a) && OnTheWire(Do(n, m).b)
  {
    PairParts(n.a, n.b);
    hide Pair, OnTheWire, Act, Enabled, SenderOk, Link, Outgoing;
    match m {
      case AtA(act) => ActOnTheWire(n.a, n.b, act);
      case AtB(act) => ActOnTheWire(n.b, n.a, act);
    }
  }

  lemma {:induction false} WireForever(n: Net, moves: seq<Move>)
    requires SafeNet(n) && OnTheWire(n.a) && OnTheWire(n.b) && Playable(n, moves)
    ensures OnTheWire(Reached(n, moves).a) && OnTheWire(Reached(n, moves).b)
    decreases |moves|
  {
    hide SafeNet, Do, Possible, OnTheWire;
    if moves != [] {
      MoveKeeps(n, moves[0]);
      MoveOnTheWire(n, moves[0]);
      WireForever(Do(n, moves[0]), moves[1..]);
    }
  }

  lemma BeginOnTheWire(s: Terms, t: Terms)
    ensures OnTheWire(Begin(s, t).a) && OnTheWire(Begin(s, t).b)
  {
    hide Congestion.Init, Wire;
  }

  /** In every reachable net each octet either side counts as resent is in a packet that side has sent. */
  lemma NothingIsMarkedUnsent(s: Terms, t: Terms, moves: seq<Move>)
    requires Agreed(s, t) && Playable(Begin(s, t), moves)
    ensures var m := Reached(Begin(s, t), moves); OnTheWire(m.a) && OnTheWire(m.b)
  {
    hide Reached, Playable, Begin, Agreed, SafeNet, OnTheWire;
    BeginIsSafe(s, t);
    BeginOnTheWire(s, t);
    WireForever(Begin(s, t), moves);
  }
}
