/** The zero-window probe and the stall it can cause. A probe is one octet beyond SND.NXT; a receiver
    that takes it acknowledges above SND.NXT from then on, and the sender drops those ACKs before it
    looks at their window. Exactly when a probe stalls its sender, and exactly what ends a stall. */
module WindowProbe {
  import opened Options
  import opened Serial
  import opened Runs
  import opened Rfc6675
  import opened Reassembly
  import opened Congestion
  import opened Endpoint
  import opened ReceiveSide
  import opened Connection
  import opened Sending
  import opened ConnectionRuns
  import opened Network
  import opened NetworkRuns
  import opened FlowControl
  import Discipline

  /** The receiver has taken a probe's octet: its ACKs now lie above SND.NXT. */
  predicate Stalled(x: Side, y: Side) {
    && x.ep.snd.una == x.ep.snd.nxt < y.ep.rcv.nxt && x.ep.snd.wnd == 0
    && x.ep.snd.tx != [] && x.ep.snd.finSeq.None?
  }

  /** A segment that acknowledges nothing new, passes the window test and has a window. */
  predicate Reopens(x: Side, act: Action) {
    act.Receive? && ReachesAck(x.ep, act.p.g) && TakesWindow(x.ep, act.p.g) && act.p.g.window > 0
  }

  // ── what keeps a stall and what ends it ─────────────────────────────────────────────────────

  lemma {:induction false} ShiftOfZero(x: nat, n: nat)
    ensures ShiftLeft(x, n) == 0 <==> x == 0
  {
    if n > 0 { ShiftOfZero(x, n - 1); }
  }

  lemma StalledPoll(x: Side, y: Side, env: Env)
    requires SenderOk(x) && Stalled(x, y)
    ensures Stalled(Emit(x, env), y) && Emit(x, env).ep.snd.nxt == x.ep.snd.nxt
  {
    hide Consistent, Poll, SenderOk, Stamp, Emit, Alike;
    EmitCases(x, env);
    var (f, g) := Poll(x.ep, env);
    if g.Some? {
      var k :| Emits(k, x.ep, f, g.value);
    } else {
      AlikeSpace(x, f);
    }
  }

  /** An arrival keeps the stall unless it reopens the window. */
  lemma StalledArrival(x: Side, y: Side, p: Packet, env: Env)
    requires SenderOk(x) && Stalled(x, y)
    ensures Stalled(Arrival(x, p, env), y) <==> !Reopens(x, Receive(p, env))
    ensures Arrival(x, p, env).ep.snd.nxt == x.ep.snd.nxt
  {
    hide Consistent, OnSegment, ShiftLeft, SenderOk, Covered, InSome, TakesWindow, Acceptable, Wire;
    SenderIsConsistent(x);
    ShiftOfZero(p.g.window, x.ep.cfg.sndWscale);
    SegmentWindow(x.ep, p.g, env);
    SegmentAcks(x.ep, p.g, env);
  }

  lemma StalledSender(x: Side, y: Side, act: Action)
    requires SenderOk(x) && Stalled(x, y) && Enabled(y, act)
    ensures Stalled(Act(x, act), y) <==> !Reopens(x, act)
    ensures Act(x, act).ep.snd.nxt == x.ep.snd.nxt
  {
    hide SenderOk, Emit, Arrival, ReachesAck, TakesWindow;
    match act {
      case Xmit(env) => StalledPoll(x, y, env);
      case Receive(p, env) => StalledArrival(x, y, p, env);
      case Write(data) =>
      case _ =>
        QuietSpace(x, act);
        hide Act;
    }
  }

  lemma NextMovesForward(y: Side, x: Side, act: Action)
    requires SenderOk(y) && Enabled(x, act)
    ensures y.ep.rcv.nxt <= Act(y, act).ep.rcv.nxt
  {
    hide SenderOk, Emit, OnSegment;
    match act {
      case Xmit(env) => XmitNext(y, env);
      case Receive(p, env) => SegmentNext(y, p.g, env);
      case Forged(g, env) => SegmentNext(y, g, env);
      case Timeout(env) => TimerLeaves(y.ep, env); hide OnTimer;
      case _ =>
    }
  }

  lemma XmitNext(y: Side, env: Env)
    requires SenderOk(y)
    ensures Emit(y, env).ep.rcv.nxt == y.ep.rcv.nxt && Emit(y, env).ep.snd.nxt >= y.ep.snd.nxt
    ensures forall p :: p in Emit(y, env).out && p !in y.out ==> p.g.ack == y.ep.rcv.nxt
  {
    hide Consistent, Poll, SenderOk, Emits, Emit, Alike;
    EmitCases(y, env);
    var (f, g) := Poll(y.ep, env);
    if g.Some? {
      var k :| Emits(k, y.ep, f, g.value);
      EmitsNext(k, y.ep, f, g.value);
    } else {
      AlikeSpace(y, f);
    }
  }

  lemma EmitsNext(k: Kind, e: Endpoint, f: Endpoint, g: Segment)
    requires Emits(k, e, f, g)
    ensures f.rcv.nxt == e.rcv.nxt == g.ack && e.snd.nxt <= f.snd.nxt
  {
    hide ShiftRight, Report, Advertise, RingBytes;
  }

  lemma SegmentNext(y: Side, g: Segment, env: Env)
    requires SenderOk(y)
    ensures y.ep.rcv.nxt <= OnSegment(y.ep, g, env).rcv.nxt
  {
    SenderIsConsistent(y);
    OnSegmentKeeps(y.ep, g, env);
    hide OnSegment, Consistent;
  }

  lemma StalledReceiver(x: Side, y: Side, act: Action)
    requires SenderOk(y) && Stalled(x, y) && Enabled(x, act)
    ensures Stalled(x, Act(y, act))
  {
    NextMovesForward(y, x, act);
    hide SenderOk, Act;
  }

  lemma StalledMove(n: Net, m: Move)
    requires SafeNet(n) && Stalled(n.a, n.b) && Possible(n, m)
    ensures Stalled(Do(n, m).a, Do(n, m).b) <==> !(m.AtA? && Reopens(n.a, m.act))
    ensures Do(n, m).a.ep.snd.nxt == n.a.ep.snd.nxt
  {
    PairParts(n.a, n.b);
    hide Pair, Act, Enabled, SenderOk, Link, Outgoing, Stalled, Reopens;
    match m {
      case AtA(act) => StalledSender(n.a, n.b, act);
      case AtB(act) => StalledReceiver(n.a, n.b, act);
    }
  }

  /** The sender is stalled now and after every move. */
  ghost predicate Throughout(n: Net, moves: seq<Move>)
    decreases |moves|
  {
    Stalled(n.a, n.b) && (moves == [] || Throughout(Do(n, moves[0]), moves[1..]))
  }

  ghost predicate NeverReopened(n: Net, moves: seq<Move>)
    decreases |moves|
  {
    moves == [] ||
    (!(moves[0].AtA? && Reopens(n.a, moves[0].act)) && NeverReopened(Do(n, moves[0]), moves[1..]))
  }

  /** A stall lasts exactly until a segment reopens the window, over every run of both sides and the
      network; while it lasts no new octet and no FIN is sent, although the persist timer runs. */
  lemma {:induction false} StallsExactlyUntilReopened(n: Net, moves: seq<Move>)
    requires SafeNet(n) && Stalled(n.a, n.b) && Playable(n, moves)
    ensures Throughout(n, moves) <==> NeverReopened(n, moves)
    ensures NeverReopened(n, moves) ==> Reached(n, moves).a.ep.snd.nxt == n.a.ep.snd.nxt
    decreases |moves|
  {
    hide SafeNet, Do, Possible, Stalled, Reopens;
    if moves != [] {
      MoveKeeps(n, moves[0]);
      StalledMove(n, moves[0]);
      if Stalled(Do(n, moves[0]).a, Do(n, moves[0]).b) {
        StallsExactlyUntilReopened(Do(n, moves[0]), moves[1..]);
      } else {
        NotThroughout(Do(n, moves[0]), moves[1..]);
      }
    }
  }

  lemma NotThroughout(n: Net, moves: seq<Move>)
    requires !Stalled(n.a, n.b)
    ensures !Throughout(n, moves)
  {}

  // ── only a segment older than the stall ends it ─────────────────────────────────────────────

  /** Everything `y` put on the wire after `before` acknowledges more than `bound`. */
  ghost predicate AcksAbove(y: Side, before: set<Packet>, bound: int) {
    forall p :: p in y.out && p !in before ==> p.g.ack > bound
  }

  lemma StalledAcks(n: Net, m: Move, before: set<Packet>)
    requires SafeNet(n) && Stalled(n.a, n.b) && Possible(n, m) && AcksAbove(n.b, before, n.a.ep.snd.nxt)
    ensures AcksAbove(Do(n, m).b, before, n.a.ep.snd.nxt)
  {
    PairParts(n.a, n.b);
    hide Pair, Enabled, SenderOk, Link, Outgoing, Emit, OnSegment, OnTimer;
    if m.AtB? && m.act.Xmit? { XmitNext(n.b, m.act.env); }
  }

  lemma {:induction false} StallAcks(n: Net, moves: seq<Move>, before: set<Packet>)
    requires SafeNet(n) && Throughout(n, moves) && Playable(n, moves) && AcksAbove(n.b, before, n.a.ep.snd.nxt)
    ensures AcksAbove(Reached(n, moves).b, before, n.a.ep.snd.nxt)
    ensures Reached(n, moves).a.ep.snd.nxt == n.a.ep.snd.nxt
    decreases |moves|
  {
    hide SafeNet, Do, Possible, Stalled, Reopens, AcksAbove;
    if moves != [] {
      MoveKeeps(n, moves[0]);
      StalledMove(n, moves[0]);
      StalledAcks(n, moves[0], before);
      StallAcks(Do(n, moves[0]), moves[1..], before);
    }
  }

  /** Nothing the receiver sends during a stall can end it: only a segment that was already on its
      way when the octet was taken can. */
  lemma OnlyOldSegmentsReopen(n: Net, moves: seq<Move>, p: Packet, env: Env)
    requires SafeNet(n) && Stalled(n.a, n.b) && Playable(n, moves) && NeverReopened(n, moves)
    requires p in Reached(n, moves).b.out && p !in n.b.out
    ensures !Reopens(Reached(n, moves).a, Receive(p, env))
  {
    StallsExactlyUntilReopened(n, moves);
    StallAcks(n, moves, n.b.out);
    hide SafeNet, Playable, NeverReopened, Throughout, Stalled, Acceptable, TakesWindow, Reached;
  }

  lemma {:induction false} NoneReopens(n: Net, moves: seq<Move>, before: set<Packet>)
    requires SafeNet(n) && Stalled(n.a, n.b) && Playable(n, moves) && AcksAbove(n.b, before, n.a.ep.snd.nxt)
    requires forall p :: p in before ==> p.g.window == 0
    ensures NeverReopened(n, moves)
    decreases |moves|
  {
    hide SafeNet, Do, Acceptable, TakesWindow;
    if moves != [] {
      assert !(moves[0].AtA? && Reopens(n.a, moves[0].act));
      hide Stalled, Reopens, AcksAbove, Possible;
      MoveKeeps(n, moves[0]);
      StalledMove(n, moves[0]);
      StalledAcks(n, moves[0], before);
      NoneReopens(Do(n, moves[0]), moves[1..], before);
    }
  }

  /** With no open window left on the way at or below SND.NXT the stall is permanent: no run of any
      length sends another new octet or the FIN. */
  lemma StallIsPermanent(n: Net, moves: seq<Move>)
    requires SafeNet(n) && Stalled(n.a, n.b) && Playable(n, moves)
    requires forall p :: p in n.b.out ==> p.g.window == 0 || p.g.ack > n.a.ep.snd.nxt
    ensures Stalled(Reached(n, moves).a, Reached(n, moves).b)
    ensures Reached(n, moves).a.ep.snd.nxt == n.a.ep.snd.nxt
  {
    hide SafeNet, Stalled, Playable, NeverReopened, Throughout, Reached;
    NoneReopens(n, moves, set p | p in n.b.out && p.g.window == 0);
    StallsExactlyUntilReopened(n, moves);
    EndOfThroughout(n, moves);
  }

  lemma {:induction false} EndOfThroughout(n: Net, moves: seq<Move>)
    requires Throughout(n, moves)
    ensures Stalled(Reached(n, moves).a, Reached(n, moves).b)
    decreases |moves|
  {
    hide Do, Stalled;
    if moves != [] { EndOfThroughout(Do(n, moves[0]), moves[1..]); }
  }

  // ── what a reopened window lets out ─────────────────────────────────────────────────────────

  /** A pacer, if there is one, has credit. */
  predicate Paid(env: Env) { env.pace.Some? ==> env.pace.value.0 > 0 }

  lemma OpenPolls(e: Endpoint, env: Env)
    requires Consistent(e) && Live(e) && e.owedRst.None? && Paid(env)
    requires e.snd.una == e.snd.nxt && e.snd.tx != [] && e.snd.finSeq.None? && e.snd.wnd > 0
    ensures var (f, g) := Poll(e, env);
            g.Some? && g.value.payload != [] && g.value.seqNo == e.snd.nxt < f.snd.nxt
  {
    hide PoolInv, CcInv, SendInv, Consistent, Build, Emits, PipeOf, NewNow, StepNew, StepRetransmit, Congestion.Inv;
    ConsistentFacts(e);
    QuietRepair(e, env);
    assert Poll(e, env).1.Some? ==> StepNew(e, env).1.None? || Poll(e, env) == StepNew(e, env);
    OpenSteps(e, env);
  }

  lemma OpenRoom(e: Endpoint, env: Env)
    requires Consistent(e) && Paid(env) && e.snd.una == e.snd.nxt && e.snd.wnd > 0
    ensures Allowed(e, env) > 0 && MaxPayload(e) > 0 && Inflight(e.snd) == 0
  {
    ConsistentFacts(e);
    EmptyPipe(e.snd.board, e.snd.una, e.cfg.mss);
    hide Consistent, PoolInv, SendInv;
  }

  lemma OpenSteps(e: Endpoint, env: Env)
    requires Consistent(e) && Live(e) && Paid(env)
    requires e.snd.una == e.snd.nxt && e.snd.tx != [] && e.snd.finSeq.None? && e.snd.wnd > 0
    ensures var (f, g) := StepNew(e, env);
            g.Some? && g.value.payload != [] && g.value.seqNo == e.snd.nxt < f.snd.nxt
  {
    hide Consistent, Build, Emits, PipeOf, Paced, Alike, Allowed, MaxPayload, Live;
    OpenRoom(e, env);
    PacedIsAlike(e, env);
    AlikeSame(e, Paced(e, env));
    AlikeKeeps(e, Paced(e, env));
    var n := MinN(MinN(Allowed(e, env), Unsent(e.snd)), MaxPayload(e));
    assert n > 0 && StepNew(e, env) == NewNow(Paced(e, env), n, env);
    NewIsData(Paced(e, env), n, env);
  }

  lemma NewIsData(e: Endpoint, n: nat, env: Env)
    requires 0 < n <= Unsent(e.snd)
    ensures var (f, g) := NewNow(e, n, env);
            g.Some? && g.value.payload != [] && g.value.seqNo == e.snd.nxt < f.snd.nxt
  {
    hide Advertise, Report, ShiftRight;
  }

  lemma ReopenedOpen(x: Side, y: Side, p: Packet, env: Env)
    requires SenderOk(x) && Stalled(x, y) && Live(x.ep) && Reopens(x, Receive(p, env))
    ensures var e := Arrival(x, p, env).ep;
            && Consistent(e) && Live(e) && e.owedRst.None?
            && e.snd.una == e.snd.nxt && e.snd.tx != [] && e.snd.finSeq.None? && e.snd.wnd > 0
  {
    hide Consistent, OnSegment, ShiftLeft, Covered, InSome, TakesWindow, Acceptable, Wire;
    ShiftOfZero(p.g.window, x.ep.cfg.sndWscale);
    SegmentWindow(x.ep, p.g, env);
    SegmentAcks(x.ep, p.g, env);
    SegmentOwes(x.ep, p.g, env);
    OnSegmentKeeps(x.ep, p.g, env);
    StaysOpen(x.ep, p.g, env);
  }

  lemma StaysOpen(e: Endpoint, g: Segment, env: Env)
    requires Consistent(e) && Live(e) && e.snd.finSeq.None? && !g.rst
    ensures Live(OnSegment(e, g, env))
  {
    hide OnSegment, Core;
    OnSegmentKeeps(e, g, env);
    if OnSegment(e, g, env).state.Closed? { Discipline.SegmentCloses(e, g, env); }
  }

  /** Once the window is reopened the next poll sends new data. */
  lemma ReopenedSends(x: Side, y: Side, p: Packet, env: Env, next: Env)
    requires SenderOk(x) && Stalled(x, y) && Live(x.ep) && Reopens(x, Receive(p, env)) && Paid(next)
    ensures var e := Arrival(x, p, env).ep; var (f, g) := Poll(e, next);
            g.Some? && g.value.payload != [] && g.value.seqNo == e.snd.nxt < f.snd.nxt
  {
    hide SenderOk, Consistent, Arrival, Poll, Live, Paid, Stalled, Reopens;
    ReopenedOpen(x, y, p, env);
    OpenPolls(Arrival(x, p, env).ep, next);
  }

  // ── when a probe stalls its sender ──────────────────────────────────────────────────────────

  /** Nothing outstanding, data waiting, and no window to send it in. */
  predicate WindowShut(e: Endpoint) {
    e.snd.una == e.snd.nxt && e.snd.wnd == 0 && e.snd.tx != [] && e.snd.finSeq.None?
  }

  /** A probe is on its way to a receiver that has everything before it. */
  ghost predicate Probing(x: Side, y: Side, p: Packet) {
    && Pair(x, y) && WindowShut(x.ep) && p in x.out
    && x.ep.snd.una == y.ep.rcv.nxt == p.g.seqNo && |p.g.payload| == 1 && !p.g.fin
  }

  /** The probe stalls its sender if and only if the receiver has advertised past it and the probe
      acknowledges nothing above the receiver's own SND.NXT. */
  lemma ProbeStallsExactlyWhen(x: Side, y: Side, p: Packet, env: Env)
    requires Probing(x, y, p)
    ensures Stalled(x, Arrival(y, p, env)) <==> y.ep.rcv.nxt < y.ep.rcv.adv && p.g.ack <= y.ep.snd.nxt
  {
    PairParts(x, y);
    PacketIn(x, p);
    PairParts(y, x);
    NotFinishing(x, y);
    hide Pair, Consistent, SenderOk, Link, Outgoing, Held, InSome, FinSent, Carries, OnSegment;
    OctetTakenExactlyWhen(y.ep, p.g, env);
  }

  lemma NotFinishing(x: Side, y: Side)
    requires Link(x, y) && x.ep.snd.finSeq.None? && Consistent(y.ep)
    ensures !y.ep.rcv.peerFin && !y.ep.state.TimeWait?
  {
    hide Core, Follows, Held, Covered;
  }

  lemma OctetTakenExactlyWhen(e: Endpoint, g: Segment, env: Env)
    requires Consistent(e) && !e.state.TimeWait?
    requires !g.rst && !g.syn && g.hasAck && !g.fin && |g.payload| == 1 && g.seqNo == e.rcv.nxt
    ensures e.rcv.nxt < OnSegment(e, g, env).rcv.nxt <==> e.rcv.nxt < e.rcv.adv && g.ack <= e.snd.nxt
  {
    hide Process, Consistent;
    assert Acceptable(e.rcv, g) <==> e.rcv.nxt < e.rcv.adv;
    if Acceptable(e.rcv, g) {
      if g.ack <= e.snd.nxt { OctetTaken(e, g, env); } else { AckAhead(e, g, env); }
    }
  }

  lemma AckAhead(e: Endpoint, g: Segment, env: Env)
    requires g.ack > e.snd.nxt
    ensures Process(e, g, env).rcv.nxt == e.rcv.nxt
  {
    hide UpdateWindow, Advance;
  }

  lemma OctetTaken(e: Endpoint, g: Segment, env: Env)
    requires Consistent(e) && !g.fin && |g.payload| == 1 && g.seqNo == e.rcv.nxt < e.rcv.adv && g.ack <= e.snd.nxt
    ensures e.rcv.nxt < Process(e, g, env).rcv.nxt
  {
    hide ProcessAck, DetectLoss, DataStep, Absorb, Consistent, PoolInv, FinArrives, FinFromPending;
    AckLeavesReceiver(e, g, env);
    AckAnswer(e, g, env);
    var (e1, ok) := ProcessAck(e, g, env);
    DetectFrame(e1, g, IsDupAck(e, g), env);
    var e2 := DetectLoss(e1, g, IsDupAck(e, g), env);
    ConsistentFacts(e);
    OctetAbsorbed(e.rcv, g, e.cfg.sack);
    DataStepData(e2, g, env);
    FinKeepsNext(DataStep(e2, g, env).rcv, g);
  }

  lemma FinKeepsNext(r: Receiver, g: Segment)
    ensures r.nxt <= FinFromPending(FinArrives(r, g)).nxt
  {}

  lemma OctetAbsorbed(r: Receiver, g: Segment, sack: bool)
    requires PoolInv(r, sack) && |g.payload| == 1 && g.seqNo == r.nxt < r.adv
    ensures r.nxt < Absorb(r, g, sack).nxt
  {
    InsideEdgeFits(r, g.payload, sack);
    InOrderKeeps(r, g.payload, sack);
    hide Within, Spans, WellFormed, DrainReasm, DiscardBelow, PoolInv;
    if sack {
      var r1 := Deliver(r, g.payload).0;
      DrainKeeps(r1.(reasm := r1.reasm.(chunks := DiscardBelow(r1.reasm.chunks, r1.nxt))));
    }
  }
}
