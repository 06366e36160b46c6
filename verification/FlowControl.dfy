/** Flow control across the two endpoints, data both ways. A segment can leave its receiver believing
    in more window than was ever offered; `OverstatedExactlyWhen` says exactly when. Every other step
    of either side keeps what a sender believes in and has used inside what its peer advertises. */
module FlowControl {
  import opened Options
  import opened Serial
  import opened Runs
  import opened Rfc6675
  import opened Reassembly
  import opened Congestion
  import opened Endpoint
  import opened ReceiveSide
  import opened Connection
  import opened Sending
  import opened ConnectionRuns
  import opened Network

  // ── what a segment does to the believed window ──────────────────────────────────────────────

  /** The right edge a sender believes in. */
  function Belief(s: Sender): int { s.una + s.wnd }

  /** The right edge a segment offers its receiver. */
  function Offer(g: Segment, scale: nat): int { g.ack + ShiftLeft(g.window, scale) }

  /** The segment gets as far as its ACK, and acknowledges nothing that was never sent. */
  predicate ReachesAck(e: Endpoint, g: Segment) {
    !g.rst && !e.state.TimeWait? && !g.syn && Acceptable(e.rcv, g) && g.hasAck && g.ack <= e.snd.nxt
  }

  /** The window test of the code: newer in sequence, or equal and no older in acknowledgement. */
  predicate TakesWindow(e: Endpoint, g: Segment) {
    Lt(e.snd.wl1, Wire(g.seqNo)) || (e.snd.wl1 == Wire(g.seqNo) && Le(e.snd.wl2, Wire(g.ack)))
  }

  /** A window larger than the current one counted from a SND.UNA its segment did not acknowledge, or
      a current window larger than the segment's carried along to the SND.UNA it acknowledges. */
  predicate Overstates(e: Endpoint, g: Segment) {
    && ReachesAck(e, g)
    && if TakesWindow(e, g) then g.ack < e.snd.una && ShiftLeft(g.window, e.cfg.sndWscale) > e.snd.wnd
       else g.ack > e.snd.una && ShiftLeft(g.window, e.cfg.sndWscale) < e.snd.wnd
  }

  lemma AdvanceWindow(e: Endpoint, g: Segment, env: Env)
    requires e.snd.una < g.ack <= e.snd.nxt
    ensures var f := Advance(e, g, env);
            && f.snd.una == g.ack && f.snd.wl1 == e.snd.wl1 && f.snd.wl2 == e.snd.wl2 && f.snd.wnd == e.snd.wnd
            && f.cfg == e.cfg
  {
    hide AckCc, AckBoard;
  }

  lemma UpdatedWindow(e: Endpoint, g: Segment)
    ensures var s := UpdateWindow(e, g).snd;
            && s.una == e.snd.una
            && s.wnd == (if TakesWindow(e, g) then ShiftLeft(g.window, e.cfg.sndWscale) else e.snd.wnd)
            && s.wl1 == (if TakesWindow(e, g) then Wire(g.seqNo) else e.snd.wl1)
            && s.wl2 == (if TakesWindow(e, g) then Wire(g.ack) else e.snd.wl2)
  {
    hide ShiftLeft, Wire, Lt, Le;
  }

  lemma AckWindow(e: Endpoint, g: Segment, env: Env)
    requires g.ack <= e.snd.nxt
    ensures var s := ProcessAck(e, g, env).0.snd;
            && s.una == Larger(e.snd.una, g.ack)
            && s.wnd == (if TakesWindow(e, g) then ShiftLeft(g.window, e.cfg.sndWscale) else e.snd.wnd)
            && s.wl1 == (if TakesWindow(e, g) then Wire(g.seqNo) else e.snd.wl1)
            && s.wl2 == (if TakesWindow(e, g) then Wire(g.ack) else e.snd.wl2)
  {
    hide ShiftLeft, Wire, Lt, Le, UpdateWindow, Advance;
    if g.ack > e.snd.una {
      AdvanceWindow(e, g, env);
      UpdatedWindow(Advance(e, g, env), g);
    } else {
      UpdatedWindow(e, g);
    }
  }

  /** SND.UNA and the window after any segment. */
  lemma SegmentWindow(e: Endpoint, g: Segment, env: Env)
    ensures var s := OnSegment(e, g, env).snd; var took := ReachesAck(e, g) && TakesWindow(e, g);
            && s.una == (if ReachesAck(e, g) then Larger(e.snd.una, g.ack) else e.snd.una)
            && s.wnd == (if took then ShiftLeft(g.window, e.cfg.sndWscale) else e.snd.wnd)
            && s.wl1 == (if took then Wire(g.seqNo) else e.snd.wl1)
            && s.wl2 == (if took then Wire(g.ack) else e.snd.wl2)
  {
    hide ShiftLeft, Wire, TakesWindow, ProcessAck, DetectLoss, Process;
    if !g.rst && !e.state.TimeWait? && !g.syn && Acceptable(e.rcv, g) && g.hasAck {
      var (e1, ok) := ProcessAck(e, g, env);
      TailSender(e, g, env);
      DetectFrame(e1, g, IsDupAck(e, g), env);
      AckAnswer(e, g, env);
      if g.ack <= e.snd.nxt { AckWindow(e, g, env); }
      assert OnSegment(e, g, env) == Process(e, g, env);
    }
  }

  lemma AckAnswer(e: Endpoint, g: Segment, env: Env)
    ensures ProcessAck(e, g, env).1 <==> g.ack <= e.snd.nxt
    ensures !ProcessAck(e, g, env).1 ==> ProcessAck(e, g, env).0.snd == e.snd
  {
    hide Advance, UpdateWindow;
  }

  /** A segment leaves its receiver believing in more than it did and more than the segment offers if
      and only if it overstates: nothing else about it or about the connection matters. */
  lemma OverstatedExactlyWhen(e: Endpoint, g: Segment, env: Env)
    ensures Belief(OnSegment(e, g, env).snd) > Larger(Belief(e.snd), Offer(g, e.cfg.sndWscale)) <==> Overstates(e, g)
  {
    hide ShiftLeft, OnSegment, TakesWindow, ReachesAck;
    SegmentWindow(e, g, env);
  }

  // ── the invariant ───────────────────────────────────────────────────────────────────────────

  /** The end of what was sent as new data: SND.NXT without the FIN. */
  function DataSent(s: Sender): int { if s.finSeq.Some? then s.nxt - 1 else s.nxt }

  /** What `x` believes in and has used lies inside what `y` advertises. */
  predicate Granted(x: Side, y: Side) {
    && x.ep.cfg.sndWscale == y.ep.cfg.rcvWscale
    && Belief(x.ep.snd) <= y.ep.rcv.adv && DataSent(x.ep.snd) <= y.ep.rcv.adv
  }

  /** No segment ever offered more than what is advertised now. */
  ghost predicate Offers(y: Side, adv: int) {
    forall p :: p in y.out ==> Offer(p.g, y.ep.cfg.rcvWscale) <= adv
  }

  /** Every data segment ends inside the advertised edge, except that a probe is one octet. */
  ghost predicate Inside(x: Side, adv: int) {
    forall p :: p in x.out && p.g.payload != [] ==> p.g.seqNo + |p.g.payload| <= adv || |p.g.payload| == 1
  }

  ghost predicate Flow(x: Side, y: Side) {
    Granted(x, y) && Offers(y, y.ep.rcv.adv) && Inside(x, y.ep.rcv.adv)
  }

  /** The action delivers nothing that overstates the window. */
  predicate Current(x: Side, act: Action) { act.Receive? ==> !Overstates(x.ep, act.p.g) }

  // ── the arithmetic of the window field ──────────────────────────────────────────────────────

  lemma {:induction false} ShiftHalf(x: nat, n: nat)
    ensures 2 * ShiftLeft(x / 2, n) <= ShiftLeft(x, n)
  {
    if n > 0 { ShiftHalf(x, n - 1); }
  }

  lemma {:induction false} ShiftBack(x: nat, n: nat)
    ensures ShiftLeft(ShiftRight(x, n), n) <= x
  {
    if n > 0 {
      ShiftBack(x, n - 1);
      ShiftHalf(ShiftRight(x, n - 1), n - 1);
    }
  }

  lemma {:induction false} ShiftSmaller(x: nat, y: nat, n: nat)
    requires x <= y
    ensures ShiftLeft(x, n) <= ShiftLeft(y, n)
  {
    if n > 0 { ShiftSmaller(x, y, n - 1); }
  }

  /** The window field never offers more than the edge it was cut from. */
  lemma WindowFits(adv: int, nxt: int, scale: nat)
    requires nxt <= adv
    ensures nxt + ShiftLeft(MinN(ShiftRight(Ahead(adv, nxt), scale), 0xFFFF), scale) <= adv
  {
    ShiftBack(Ahead(adv, nxt), scale);
    ShiftSmaller(MinN(ShiftRight(Ahead(adv, nxt), scale), 0xFFFF), ShiftRight(Ahead(adv, nxt), scale), scale);
    hide ShiftLeft, ShiftRight;
  }

  /** A segment never moves the advertised edge. */
  lemma SegmentAdv(e: Endpoint, g: Segment, env: Env)
    ensures OnSegment(e, g, env).rcv.adv == e.rcv.adv
  {
    ProcessAdv(e, g, env);
    hide Process;
  }

  lemma ProcessAdv(e: Endpoint, g: Segment, env: Env)
    ensures Process(e, g, env).rcv.adv == e.rcv.adv
  {
    AckLeavesReceiver(e, g, env);
    var (e1, ok) := ProcessAck(e, g, env);
    if ok {
      DetectFrame(e1, g, IsDupAck(e, g), env);
      var e2 := DetectLoss(e1, g, IsDupAck(e, g), env);
      DataStepAdv(e2, g, env);
      hide ProcessAck, DetectLoss, DataStep;
    } else {
      NotOkKeeps(e, g, env);
      hide ProcessAck;
    }
  }

  lemma DataStepAdv(e: Endpoint, g: Segment, env: Env)
    ensures DataStep(e, g, env).rcv.adv == e.rcv.adv
  {
    AbsorbAdv(e.rcv, g, e.cfg.sack);
    hide Accepted, Absorb, InOrder, Deliver, TrimLeft, Buffered;
  }

  lemma AbsorbAdv(r: Receiver, g: Segment, sack: bool)
    ensures Absorb(r, g, sack).adv == r.adv
  {
    var r1 := Deliver(r, TrimLeft(r, g).1).0;
    DrainAdv(r1.(reasm := r1.reasm.(chunks := DiscardBelow(r1.reasm.chunks, r1.nxt))));
    hide DrainReasm, RightEdge, DiscardBelow;
  }

  lemma {:induction false} DrainAdv(r: Receiver)
    ensures DrainReasm(r).adv == r.adv
    decreases |r.reasm.chunks|
  {
    var (run, rest) := Pop(r.reasm.chunks, r.nxt);
    var (r1, w) := Deliver(r.(reasm := r.reasm.(chunks := rest)), run);
    if run != [] && w == |run| { DrainAdv(r1); }
  }

  // ── the sender's steps ──────────────────────────────────────────────────────────────────────

  /** Nothing on the wire, and the send space and its window as before. */
  predicate SameSpace(x: Side, x': Side) {
    && x'.out == x.out && x'.ep.cfg == x.ep.cfg && x'.base == x.base
    && x'.ep.snd.wl1 == x.ep.snd.wl1 && x'.ep.snd.wl2 == x.ep.snd.wl2 && x'.ep.snd.una == x.ep.snd.una
    && x'.ep.snd.nxt == x.ep.snd.nxt && x'.ep.snd.wnd == x.ep.snd.wnd && x'.ep.snd.finSeq == x.ep.snd.finSeq
  }

  lemma QuietSpace(x: Side, act: Action)
    requires !act.Receive? && !act.Xmit? && (act.Forged? ==> act.g.rst || act.g.syn)
    ensures SameSpace(x, Act(x, act)) && Act(x, act).ep.rcv.adv == x.ep.rcv.adv
    ensures !act.Write? ==> Act(x, act).sent == x.sent && Act(x, act).ep.snd.tx == x.ep.snd.tx
    ensures !act.Shut? ==> Act(x, act).ep.snd.finQueued == x.ep.snd.finQueued
  {
    match act {
      case Timeout(env) => TimerSpace(x.ep, env); hide OnTimer;
      case Forged(g, env) => SegmentAdv(x.ep, g, env);
      case _ =>
    }
  }

  lemma TimerSpace(e: Endpoint, env: Env)
    ensures TimerFrame(e, OnTimer(e, env)) && OnTimer(e, env).rcv.adv == e.rcv.adv
  {
    TimerLeaves(e, env);
    hide Congestion.OnRto, TimerFrame;
  }

  lemma SpaceKeeps(x: Side, x': Side, y: Side)
    requires Flow(x, y) && SameSpace(x, x')
    ensures Flow(x', y)
  {
    hide Offers;
  }

  /** What a poll puts on the wire. */
  lemma EmitsInside(x: Side, f: Endpoint, k: Kind, g: Segment, adv: int)
    requires SenderOk(x) && Emits(k, x.ep, f, g) && DataSent(x.ep.snd) <= adv && Belief(x.ep.snd) <= adv
    ensures g.payload != [] ==> g.seqNo + |g.payload| <= adv || |g.payload| == 1
    ensures DataSent(f.snd) <= adv && f.snd.wl1 == x.ep.snd.wl1 && f.snd.wl2 == x.ep.snd.wl2
    ensures f.snd.una == x.ep.snd.una && f.snd.wnd == x.ep.snd.wnd && f.cfg == x.ep.cfg
  {
    FinEnd(x.ep);
    hide Stamp, SenderOk;
  }

  lemma FinEnd(e: Endpoint)
    requires Consistent(e)
    ensures e.snd.finSeq.Some? && e.snd.tx != [] ==> DataEnd(e.snd) <= DataSent(e.snd)
  {
    hide PoolInv, CcInv, Rfc6675.Valid;
  }

  /** What one transmission is: nothing but flags, or one segment of a known kind. */
  lemma EmitCases(x: Side, env: Env)
    requires SenderOk(x)
    ensures var (f, g) := Poll(x.ep, env);
            && Consistent(f)
            && Emit(x, env) == x.(ep := f, out := if g.Some? then x.out + {Packet(g.value, x.marks)} else x.out)
            && (g.None? ==> Alike(x.ep, f)) && (g.Some? ==> exists k :: Emits(k, x.ep, f, g.value))
  {
    SenderIsConsistent(x);
    OwesNoRst(x);
    hide SenderOk, Consistent, Poll, Emits, Alike;
    PollOk(x.ep, env);
  }

  lemma XmitFlows(x: Side, y: Side, env: Env)
    requires SenderOk(x) && Flow(x, y)
    ensures Flow(Emit(x, env), y)
  {
    hide Consistent, Poll, Emits, SenderOk, Alike, Flow, Emit, SameSpace;
    EmitCases(x, env);
    var (f, g) := Poll(x.ep, env);
    if g.Some? {
      var k :| Emits(k, x.ep, f, g.value);
      SegmentFlows(x, y, f, k, g.value);
    } else {
      AlikeSpace(x, f);
      assert x.(ep := f, out := x.out) == x.(ep := f);
      SpaceKeeps(x, Emit(x, env), y);
    }
  }

  lemma SegmentFlows(x: Side, y: Side, f: Endpoint, k: Kind, g: Segment)
    requires SenderOk(x) && Flow(x, y) && Emits(k, x.ep, f, g)
    ensures Flow(x.(ep := f, out := x.out + {Packet(g, x.marks)}), y)
  {
    hide SenderOk, Emits, Offers;
    EmitsInside(x, f, k, g, y.ep.rcv.adv);
  }

  lemma AlikeSpace(x: Side, f: Endpoint)
    requires Alike(x.ep, f)
    ensures SameSpace(x, x.(ep := f)) && f.rcv == x.ep.rcv && f.cfg == x.ep.cfg
    ensures f.snd.tx == x.ep.snd.tx && f.snd.finQueued == x.ep.snd.finQueued
  {}

  /** A segment that does not overstate moves the belief no further than what was offered. */
  lemma ReceiveFlows(x: Side, y: Side, p: Packet, env: Env)
    requires SenderOk(x) && Flow(x, y) && p in y.out && !Overstates(x.ep, p.g)
    ensures Flow(Arrival(x, p, env), y)
  {
    hide Consistent, OnSegment, SenderOk, Overstates, Belief, Offer;
    SenderIsConsistent(x);
    OverstatedExactlyWhen(x.ep, p.g, env);
    OnSegmentKeeps(x.ep, p.g, env);
  }

  lemma SenderFlows(x: Side, y: Side, act: Action)
    requires SenderOk(x) && Flow(x, y) && Enabled(y, act) && Current(x, act)
    ensures Flow(Act(x, act), y)
  {
    hide SenderOk, Flow, Emit, Arrival, SameSpace, Overstates;
    match act {
      case Xmit(env) => XmitFlows(x, y, env);
      case Receive(p, env) => ReceiveFlows(x, y, p, env);
      case _ =>
        QuietSpace(x, act);
        SpaceKeeps(x, Act(x, act), y);
    }
  }

  // ── the receiver's steps ────────────────────────────────────────────────────────────────────

  /** The edge moves right and everything already offered or sent stays inside it. */
  lemma EdgeRight(x: Side, y: Side, y': Side)
    requires Flow(x, y) && y'.ep.cfg == y.ep.cfg && y.ep.rcv.adv <= y'.ep.rcv.adv && y'.out == y.out
    ensures Flow(x, y')
  {
    hide Offer, Belief;
  }

  lemma StampOffers(e: Endpoint, f: Endpoint, g: Segment)
    requires Stamp(e, f, g)
    ensures e.rcv.adv <= f.rcv.adv && g.ack + ShiftLeft(g.window, e.cfg.rcvWscale) <= f.rcv.adv
  {
    WindowFits(f.rcv.adv, f.rcv.nxt, e.cfg.rcvWscale);
    hide ShiftLeft, ShiftRight, Report;
  }

  lemma OfferFlows(x: Side, y: Side, f: Endpoint, k: Kind, g: Segment)
    requires Flow(x, y) && Emits(k, y.ep, f, g)
    ensures Flow(x, y.(ep := f, out := y.out + {Packet(g, y.marks)}))
  {
    hide IsKind, Belief, ShiftLeft, Stamp;
    StampOffers(y.ep, f, g);
  }

  lemma ReceiverFlows(x: Side, y: Side, act: Action)
    requires SenderOk(y) && Flow(x, y) && Enabled(x, act)
    ensures Flow(x, Act(y, act))
  {
    hide SenderOk, Arrival, SameSpace, Flow, Emits, Poll, Consistent, Alike, Emit;
    match act {
      case Xmit(env) => OffersFlow(x, y, env);
      case Receive(p, env) =>
        ArrivalEdge(y, p, env);
        EdgeRight(x, y, Act(y, act));
      case _ =>
        QuietSpace(y, act);
        SpaceParts(y, Act(y, act));
        EdgeRight(x, y, Act(y, act));
    }
  }

  lemma SpaceParts(y: Side, y': Side)
    requires SameSpace(y, y')
    ensures y'.out == y.out && y'.ep.cfg == y.ep.cfg && y'.base == y.base
  {}

  lemma OffersFlow(x: Side, y: Side, env: Env)
    requires SenderOk(y) && Flow(x, y)
    ensures Flow(x, Emit(y, env))
  {
    hide Consistent, Poll, Emits, SenderOk, Alike, Flow, Emit, SameSpace;
    EmitCases(y, env);
    var (f, g) := Poll(y.ep, env);
    if g.Some? {
      var k :| Emits(k, y.ep, f, g.value);
      OfferFlows(x, y, f, k, g.value);
    } else {
      AlikeSpace(y, f);
      EdgeRight(x, y, Emit(y, env));
    }
  }

  lemma ArrivalEdge(y: Side, p: Packet, env: Env)
    requires SenderOk(y)
    ensures var y' := Arrival(y, p, env);
            y'.ep.rcv.adv == y.ep.rcv.adv && y'.out == y.out && y'.base == y.base && y'.ep.cfg == y.ep.cfg
  {
    SenderIsConsistent(y);
    SegmentAdv(y.ep, p.g, env);
    OnSegmentKeeps(y.ep, p.g, env);
    hide Consistent, OnSegment;
  }

  // ── the edge over runs of one connection ────────────────────────────────────────────────────

  /** Over any run, against any peer, the advertised edge never moves left. */
  lemma {:induction false} EdgeNeverMovesLeft(e: Endpoint, events: seq<Input>)
    requires Consistent(e)
    ensures e.rcv.adv <= After(e, events).rcv.adv
    decreases |events|
  {
    hide Consistent, Step;
    if events != [] {
      StepKeeps(e, events[0]);
      EdgeStep(e, events[0]);
      EdgeNeverMovesLeft(Step(e, events[0]), events[1..]);
    }
  }

  lemma EdgeStep(e: Endpoint, ev: Input)
    requires Consistent(e)
    ensures e.rcv.adv <= Step(e, ev).rcv.adv
  {
    match ev {
      case Arrive(g, env) => SegmentAdv(e, g, env); hide OnSegment;
      case DoPoll(env) => PollEdge(e, env); hide Poll;
      case Tick(env) => TimerSpace(e, env); hide OnTimer;
      case _ =>
    }
  }

  lemma PollEdge(e: Endpoint, env: Env)
    requires Consistent(e)
    ensures e.rcv.adv <= Poll(e, env).0.rcv.adv
  {
    PollOk(e, env);
    hide Consistent, Poll, SendFrame, IsKind, Stamp;
    if e.owedRst.None? && Poll(e, env).1.Some? {
      var k :| Emits(k, e, Poll(e, env).0, Poll(e, env).1.value);
      StampOffers(e, Poll(e, env).0, Poll(e, env).1.value);
    }
  }
}
