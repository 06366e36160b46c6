/** AccECN feedback across the two endpoints (section 3.2.2 of RFC 9768): the marks the sender
    decodes from three-bit ACE fields against the count of CE-marked data the receiver accepted. */
module AccEcn {
  import opened Options
  import opened Serial
  import opened Runs
  import opened Rfc6675
  import opened Reassembly
  import opened Congestion
  import opened Endpoint
  import opened ReceiveSide
  import opened Connection
  import opened Sending
  import opened ConnectionRuns
  import opened Network
  import opened NetworkRuns

  /** `x` sends data and decodes, `y` receives and counts. ACKs with a higher cumulative ACK carry a
      count that is no smaller, so the counts at advancing ACKs never step back. */
  ghost predicate Feedback(x: Side, y: Side) {
    && EcnEnabled(x.ep) && EcnEnabled(y.ep)
    && y.ep.rcv.cep == (ACE_INIT + y.marks) % 256
    && x.ep.snd.aceSeen == (ACE_INIT + x.lastCep) % 8
    && x.decoded <= x.lastCep <= y.marks && (x.lastCep - x.decoded) % 8 == 0
    && (x.exact <==> x.decoded == x.lastCep)
    && Acks(x.ep.snd.una, x.lastCep, y)
  }

  ghost predicate Acks(una: int, lastCep: nat, y: Side) {
    && (forall p :: p in y.out ==> p.g.ace == (ACE_INIT + p.cep) % 8 && p.cep <= y.marks && p.g.ack <= y.ep.rcv.nxt)
    && (forall p :: p in y.out && p.g.ack > una ==> p.cep >= lastCep)
    && (forall p, q :: p in y.out && q in y.out && p.g.ack < q.g.ack ==> p.cep <= q.cep)
  }

  // ── one segment ─────────────────────────────────────────────────────────────────────────────

  lemma DetectAce(e: Endpoint, g: Segment, dup: bool, env: Env)
    ensures DetectLoss(e, g, dup, env).snd.aceSeen == e.snd.aceSeen && DetectLoss(e, g, dup, env).snd.una == e.snd.una
  {
    hide DetectLoss;
    DetectFrame(e, g, dup, env);
  }

  lemma AckAce(e: Endpoint, g: Segment, env: Env)
    ensures var s := ProcessAck(e, g, env).0.snd;
            s.aceSeen == if s.una > e.snd.una && EcnEnabled(e) then g.ace % 8 else e.snd.aceSeen
    ensures ProcessAck(e, g, env).0.snd.una > e.snd.una ==> ProcessAck(e, g, env).0.snd.una == g.ack
  {
    hide AckCc, AckBoard, ShiftLeft, Lt, Le, Wire;
  }

  /** The reference count moves with the cumulative ACK and only then. */
  lemma SegmentAce(e: Endpoint, g: Segment, env: Env)
    ensures var s := OnSegment(e, g, env).snd;
            s.aceSeen == if s.una > e.snd.una && EcnEnabled(e) then g.ace % 8 else e.snd.aceSeen
    ensures OnSegment(e, g, env).snd.una > e.snd.una ==> OnSegment(e, g, env).snd.una == g.ack
  {
    if !g.rst && !e.state.TimeWait? && !g.syn && Acceptable(e.rcv, g) && g.hasAck {
      AckAce(e, g, env);
      TailSender(e, g, env);
      var (e1, ok) := ProcessAck(e, g, env);
      hide ProcessAck, DetectLoss, Process;
      DetectAce(e1, g, IsDupAck(e, g), env);
      assert OnSegment(e, g, env) == Process(e, g, env);
    }
  }

  /** The segment is processed as far as its data. */
  predicate ReachesData(e: Endpoint, g: Segment) {
    !g.rst && !e.state.TimeWait? && !g.syn && Acceptable(e.rcv, g) && g.hasAck && g.ack <= e.snd.nxt && g.payload != []
  }

  /** A mark is counted exactly when the CE-marked segment contributed accepted data: fresh in-order
      octets, or octets newly buffered. */
  lemma CountsAcceptedMarks(e: Endpoint, g: Segment, env: Env)
    requires EcnEnabled(e)
    ensures OnSegment(e, g, env).rcv.cep ==
            if ReachesData(e, g) && env.ce && Accepted(e.rcv, Absorb(e.rcv, g, e.cfg.sack))
            then (e.rcv.cep + 1) % 256 else e.rcv.cep
  {
    hide Accepted, Absorb;
    if !g.rst && !e.state.TimeWait? && !g.syn && Acceptable(e.rcv, g) && g.hasAck && g.ack <= e.snd.nxt {
      ProcessMarks(e, g, env);
      hide Process;
    }
  }

  lemma ProcessMarks(e: Endpoint, g: Segment, env: Env)
    requires EcnEnabled(e) && g.ack <= e.snd.nxt
    ensures Process(e, g, env).rcv.cep ==
            if g.payload != [] && env.ce && Accepted(e.rcv, Absorb(e.rcv, g, e.cfg.sack))
            then (e.rcv.cep + 1) % 256 else e.rcv.cep
  {
    AckLeavesReceiver(e, g, env);
    AckLaw(e, g, env);
    var (e1, ok) := ProcessAck(e, g, env);
    DetectFrame(e1, g, IsDupAck(e, g), env);
    DetectLawStays(e1, g, IsDupAck(e, g), env);
    var e2 := DetectLoss(e1, g, IsDupAck(e, g), env);
    DataMarks(e2, g, env);
    hide ProcessAck, DetectLoss, DataStep, Accepted, Absorb;
  }

  lemma AckLaw(e: Endpoint, g: Segment, env: Env)
    ensures ProcessAck(e, g, env).0.cc.law == e.cc.law
    ensures ProcessAck(e, g, env).1 <==> g.ack <= e.snd.nxt
  {
    hide Advance, UpdateWindow;
    if e.snd.una < g.ack <= e.snd.nxt {
      AdvanceLaw(e, g, env);
      UpdateWindowShape(Advance(e, g, env), g);
    } else {
      UpdateWindowShape(e, g);
    }
  }

  lemma AdvanceLaw(e: Endpoint, g: Segment, env: Env)
    requires e.snd.una < g.ack <= e.snd.nxt
    ensures Advance(e, g, env).cc.law == e.cc.law
  {
    hide AckCc, AckBoard;
    LawStays(e, g, env, MinN(g.ack - e.snd.una, |e.snd.tx|));
  }

  lemma DetectLawStays(e: Endpoint, g: Segment, dup: bool, env: Env)
    ensures DetectLoss(e, g, dup, env).cc.law == e.cc.law
  {
    var c := CountDup(e.cc, dup, Inflight(e.snd)).0;
    EnterLaw(e.cc, Inflight(e.snd));
    EnterLaw(c, Inflight(e.snd));
    hide OnDupAck, EnterRecovery, Update, IsLost, InRecovery, BeginRecovery, Inflight;
  }

  lemma DataMarks(e: Endpoint, g: Segment, env: Env)
    requires EcnEnabled(e)
    ensures var r := FinFromPending(FinArrives(DataStep(e, g, env).rcv, g));
            r.cep == if g.payload != [] && env.ce && Accepted(e.rcv, Absorb(e.rcv, g, e.cfg.sack))
                     then (e.rcv.cep + 1) % 256 else e.rcv.cep
  {
    AbsorbCep(e.rcv, g, e.cfg.sack);
    hide Accepted, Absorb, InOrder, Deliver, TrimLeft, Buffered;
  }

  lemma AbsorbCep(r: Receiver, g: Segment, sack: bool)
    ensures Absorb(r, g, sack).cep == r.cep
  {
    DrainCep(Deliver(r, TrimLeft(r, g).1).0.(reasm := Deliver(r, TrimLeft(r, g).1).0.reasm.(chunks :=
               DiscardBelow(Deliver(r, TrimLeft(r, g).1).0.reasm.chunks, Deliver(r, TrimLeft(r, g).1).0.nxt))));
    hide DrainReasm, RightEdge, DiscardBelow;
  }

  lemma {:induction false} DrainCep(r: Receiver)
    ensures DrainReasm(r).cep == r.cep
    decreases |r.reasm.chunks|
  {
    var (run, rest) := Pop(r.reasm.chunks, r.nxt);
    var (r1, w) := Deliver(r.(reasm := r.reasm.(chunks := rest)), run);
    if run != [] && w == |run| { DrainCep(r1); }
  }

  // ── each side's steps ───────────────────────────────────────────────────────────────────────

  /** What an action of `x` other than taking in a packet leaves alone. */
  predicate SameCounts(x: Side, x': Side) {
    && x'.ep.cc.law == x.ep.cc.law && x'.ep.snd.aceSeen == x.ep.snd.aceSeen && x'.ep.snd.una == x.ep.snd.una
    && x'.ep.rcv.cep == x.ep.rcv.cep && x'.ep.rcv.nxt == x.ep.rcv.nxt
    && x'.marks == x.marks && x'.decoded == x.decoded && x'.lastCep == x.lastCep && x'.exact == x.exact
  }

  lemma XmitCounts(x: Side, env: Env)
    requires SenderOk(x)
    ensures var x' := Emit(x, env);
            && SameCounts(x, x')
            && (x'.out == x.out || exists g :: x'.out == x.out + {Packet(g, x.marks)} && g.ack == x.ep.rcv.nxt &&
                                     (EcnEnabled(x.ep) ==> g.ace == x.ep.rcv.cep % 8))
  {
    PollOk(x.ep, env);
    var (f, g) := Poll(x.ep, env);
    hide Consistent, Poll, Emits;
    if g.Some? {
      var k :| Emits(k, x.ep, f, g.value);
      EmitsCounts(k, x.ep, f, g.value);
      assert Emit(x, env).out == x.out + {Packet(g.value, x.marks)};
    }
  }

  lemma EmitsCounts(k: Kind, e: Endpoint, f: Endpoint, g: Segment)
    requires Emits(k, e, f, g)
    ensures f.cc == e.cc && f.snd.aceSeen == e.snd.aceSeen && f.snd.una == e.snd.una
    ensures f.rcv.cep == e.rcv.cep && f.rcv.nxt == e.rcv.nxt && g.ack == e.rcv.nxt
    ensures EcnEnabled(e) ==> g.ace == e.rcv.cep % 8
  {
    hide Advertise, ShiftRight, Report, IsKind;
  }

  lemma QuietCounts(x: Side, act: Action)
    requires SenderOk(x) && !act.Receive? && !act.Xmit? && (act.Forged? ==> act.g.rst || act.g.syn)
    ensures SameCounts(x, Act(x, act)) && Act(x, act).out == x.out
  {
    match act {
      case Timeout(env) =>
        TimerLeaves(x.ep, env);
        hide OnTimer;
      case _ =>
    }
  }

  /** A new packet carries the current count and the current edge, so it extends the order. */
  lemma AcksExtended(una: int, lastCep: nat, y: Side, y': Side, g: Segment)
    requires Acks(una, lastCep, y) && lastCep <= y.marks && y'.out == y.out + {Packet(g, y.marks)}
    requires y'.marks == y.marks && y'.ep.rcv.nxt == y.ep.rcv.nxt && g.ack == y.ep.rcv.nxt
    requires g.ace == (ACE_INIT + y.marks) % 8
    ensures Acks(una, lastCep, y')
  {}

  lemma AcksLater(una: int, lastCep: nat, y: Side, y': Side)
    requires Acks(una, lastCep, y) && y'.out == y.out && y.marks <= y'.marks && y.ep.rcv.nxt <= y'.ep.rcv.nxt
    ensures Acks(una, lastCep, y')
  {}

  /** The receiver's counter follows the count of accepted marks. */
  predicate Counting(y: Side) { EcnEnabled(y.ep) && y.ep.rcv.cep == (ACE_INIT + y.marks) % 256 }

  lemma CountFrom(x: Side, y: Side, y': Side)
    requires Feedback(x, y) && Counting(y') && y.marks <= y'.marks && Acks(x.ep.snd.una, x.lastCep, y')
    ensures Feedback(x, y')
  {
    hide Acks;
  }

  lemma CountParts(x: Side, y: Side)
    requires Feedback(x, y)
    ensures Counting(y) && x.lastCep <= y.marks && Acks(x.ep.snd.una, x.lastCep, y) && EcnEnabled(x.ep)
    ensures x.ep.snd.aceSeen == (ACE_INIT + x.lastCep) % 8 && x.decoded <= x.lastCep && (x.lastCep - x.decoded) % 8 == 0
    ensures x.exact <==> x.decoded == x.lastCep
  {
    hide Acks;
  }

  lemma QuietCounting(y: Side, y': Side)
    requires SameCounts(y, y') && Counting(y)
    ensures Counting(y')
  {}

  /** The receiver acts. */
  lemma CountKeeps(x: Side, y: Side, act: Action)
    requires Feedback(x, y) && SenderOk(y) && Enabled(x, act)
    ensures Feedback(x, Act(y, act))
  {
    var y' := Act(y, act);
    hide Acks, SenderOk, Feedback, SameCounts, Counting, Emit, Arrival, Act;
    CountParts(x, y);
    match act {
      case Xmit(env) =>
        XmitCountKeeps(x, y, env);
        assert y' == Emit(y, env) by { ActIs(y, act); }
      case Receive(p, env) =>
        ArrivalCounts(y, p, env);
        ActIs(y, act);
        AcksLater(x.ep.snd.una, x.lastCep, y, y');
        CountFrom(x, y, y');
      case _ =>
        EnabledForged(x, act);
        QuietCounts(y, act);
        QuietCounting(y, y');
        QuietOut(x.ep.snd.una, x.lastCep, y, y');
        CountFrom(x, y, y');
    }
  }

  lemma EnabledForged(x: Side, act: Action)
    requires Enabled(x, act)
    ensures act.Forged? ==> act.g.rst || act.g.syn
  {}

  lemma ActIs(y: Side, act: Action)
    ensures act.Xmit? ==> Act(y, act) == Emit(y, act.env)
    ensures act.Receive? ==> Act(y, act) == Arrival(y, act.p, act.env)
  {
    hide Emit, Arrival, OnSegment, OnTimer;
  }

  lemma QuietOut(una: int, lastCep: nat, y: Side, y': Side)
    requires Acks(una, lastCep, y) && SameCounts(y, y') && y'.out == y.out
    ensures Acks(una, lastCep, y') && y'.marks == y.marks
  {
    AcksLater(una, lastCep, y, y');
  }

  lemma XmitCountKeeps(x: Side, y: Side, env: Env)
    requires Feedback(x, y) && SenderOk(y)
    ensures Feedback(x, Emit(y, env))
  {
    var y' := Emit(y, env);
    hide Acks, SenderOk, Feedback, SameCounts, Emit;
    CountParts(x, y);
    XmitCounts(y, env);
    SameParts(y, y');
    if y'.out == y.out {
      AcksLater(x.ep.snd.una, x.lastCep, y, y');
    } else {
      var g :| y'.out == y.out + {Packet(g, y.marks)} && g.ack == y.ep.rcv.nxt &&
               (EcnEnabled(y.ep) ==> g.ace == y.ep.rcv.cep % 8);
      LowBits(y.marks);
      AcksExtended(x.ep.snd.una, x.lastCep, y, y', g);
    }
    CountFrom(x, y, y');
  }

  lemma SameParts(y: Side, y': Side)
    requires SameCounts(y, y')
    ensures y'.marks == y.marks && y'.ep.rcv.nxt == y.ep.rcv.nxt && (Counting(y) ==> Counting(y'))
  {}

  lemma LowBits(marks: nat)
    ensures (ACE_INIT + marks) % 256 % 8 == (ACE_INIT + marks) % 8
  {
    var q := (ACE_INIT + marks) / 256;
    assert (ACE_INIT + marks) % 256 == ACE_INIT + marks - 8 * (32 * q);
    WholeTurns(ACE_INIT + marks, 32 * q);
  }

  lemma NextDiffers(cep: nat)
    ensures (cep + 1) % 256 != cep
  {}

  lemma ArrivalCounts(y: Side, p: Packet, env: Env)
    requires SenderOk(y) && Counting(y)
    ensures var y' := Arrival(y, p, env);
            && Counting(y') && y'.out == y.out && y.ep.rcv.nxt <= y'.ep.rcv.nxt && y.marks <= y'.marks <= y.marks + 1
  {
    hide SenderOk, OnSegment, Accepted, Absorb, ReachesData;
    OnSegmentKeepsSide(y, p.g, env);
    CountsAcceptedMarks(y.ep, p.g, env);
    NextDiffers(y.ep.rcv.cep);
  }

  /** The sender acts. */
  lemma DecodeKeeps(x: Side, y: Side, act: Action)
    requires Feedback(x, y) && SenderOk(x) && Enabled(y, act)
    ensures Feedback(Act(x, act), y)
  {
    hide Acks, SenderOk, Feedback, SameCounts, Emit, Arrival, Act;
    match act {
      case Xmit(env) =>
        ActIs(x, act);
        XmitCounts(x, env);
        QuietDecode(x, Act(x, act), y);
      case Receive(p, env) =>
        ActIs(x, act);
        ArrivalDecodes(x, y, p, env);
      case _ =>
        EnabledForged(y, act);
        QuietCounts(x, act);
        QuietDecode(x, Act(x, act), y);
    }
  }

  lemma QuietDecode(x: Side, x': Side, y: Side)
    requires Feedback(x, y) && SameCounts(x, x')
    ensures Feedback(x', y)
  {
    hide Acks;
  }

  lemma ArrivalDecodes(x: Side, y: Side, p: Packet, env: Env)
    requires Feedback(x, y) && SenderOk(x) && p in y.out
    ensures Feedback(Arrival(x, p, env), y)
  {
    hide SenderOk, OnSegment, Acks, Counting, Feedback;
    CountParts(x, y);
    OnSegmentKeepsSide(x, p.g, env);
    SegmentAce(x.ep, p.g, env);
    AckMoves(x.ep.snd.una, x.lastCep, y, p);
    var x' := Arrival(x, p, env);
    if x'.ep.snd.una > x.ep.snd.una {
      LowBitsOf(p.cep);
      Decoded(x.decoded, x.lastCep, p.cep);
    }
    FeedbackFrom(x', y);
  }

  lemma LowBitsOf(cep: nat)
    ensures (ACE_INIT + cep) % 8 % 8 == (ACE_INIT + cep) % 8
  {}

  lemma FeedbackFrom(x: Side, y: Side)
    requires EcnEnabled(x.ep) && Counting(y) && x.lastCep <= y.marks && Acks(x.ep.snd.una, x.lastCep, y)
    requires x.ep.snd.aceSeen == (ACE_INIT + x.lastCep) % 8
    requires x.decoded <= x.lastCep && (x.lastCep - x.decoded) % 8 == 0
    requires x.exact <==> x.decoded == x.lastCep
    ensures Feedback(x, y)
  {
    hide Acks;
  }

  lemma OnSegmentKeepsSide(x: Side, g: Segment, env: Env)
    requires SenderOk(x)
    ensures OnSegment(x.ep, g, env).cc.law == x.ep.cc.law && OnSegment(x.ep, g, env).snd.una >= x.ep.snd.una
    ensures OnSegment(x.ep, g, env).rcv.nxt >= x.ep.rcv.nxt
  {
    OnSegmentKeeps(x.ep, g, env);
    hide Consistent, OnSegment;
  }

  /** Behind an advancing ACK every later ACK counts at least as much. */
  lemma AckMoves(una: int, lastCep: nat, y: Side, p: Packet)
    requires Acks(una, lastCep, y) && p in y.out
    ensures p.g.ack > una ==> Acks(p.g.ack, p.cep, y) && lastCep <= p.cep <= y.marks
    ensures p.g.ace == (ACE_INIT + p.cep) % 8
  {}

  /** One decoding step: exact below eight new marks, otherwise short by a multiple of eight. */
  lemma Decoded(decoded: nat, last: nat, cep: nat)
    requires decoded <= last && (last - decoded) % 8 == 0
    ensures var d := decoded + ((ACE_INIT + cep) % 8 - (ACE_INIT + last) % 8) % 8;
            last <= cep ==> d <= cep && (cep - d) % 8 == 0 && (d == cep <==> decoded == last && cep < last + 8)
  {
    var a, b := (ACE_INIT + cep) / 8, (ACE_INIT + last) / 8;
    assert (ACE_INIT + cep) % 8 - (ACE_INIT + last) % 8 == cep - last - 8 * (a - b);
    WholeTurns(cep - last, a - b);
  }

  /** Whole turns of the three-bit field do not show in it. */
  lemma WholeTurns(x: int, k: int)
    ensures (x - 8 * k) % 8 == x % 8
  {}

  ghost predicate Marked(n: Net) { Feedback(n.a, n.b) && Feedback(n.b, n.a) }

  lemma MoveKeepsFeedback(n: Net, m: Move)
    requires SafeNet(n) && Marked(n) && Possible(n, m)
    ensures Marked(Do(n, m))
  {
    PairParts(n.a, n.b);
    hide Feedback, Pair, Act, Enabled, SenderOk, Link, Outgoing;
    match m {
      case AtA(act) =>
        DecodeKeeps(n.a, n.b, act);
        CountKeeps(n.b, n.a, act);
      case AtB(act) =>
        DecodeKeeps(n.b, n.a, act);
        CountKeeps(n.a, n.b, act);
    }
  }

  lemma {:induction false} FeedbackForever(n: Net, moves: seq<Move>)
    requires SafeNet(n) && Marked(n) && Playable(n, moves)
    ensures Marked(Reached(n, moves))
    decreases |moves|
  {
    hide SafeNet, Do, Possible, Marked;
    if moves != [] {
      MoveKeeps(n, moves[0]);
      MoveKeepsFeedback(n, moves[0]);
      FeedbackForever(Do(n, moves[0]), moves[1..]);
    }
  }

  lemma BeginIsMarked(s: Terms, t: Terms)
    requires !s.law.Reno? && !t.law.Reno?
    ensures Marked(Begin(s, t))
  {}

  /** What `x` decoded against the count `y` had when the latest advancing ACK left. */
  predicate DecodedRight(x: Side, y: Side) {
    && (x.decoded == x.lastCep <==> x.exact)
    && x.decoded <= x.lastCep <= y.marks && (x.lastCep - x.decoded) % 8 == 0
  }

  /** AccECN is exact: the decoded deltas sum to the receiver's count of accepted CE-marked segments
      when the latest advancing ACK left, if and only if fewer than eight marks ever fell between two
      consecutive advancing ACKs; lost, duplicated, coalesced and reordered ACKs notwithstanding.
      When that fails the sum falls short by a multiple of eight. */
  lemma EcnIsExact(s: Terms, t: Terms, moves: seq<Move>)
    requires Agreed(s, t) && Playable(Begin(s, t), moves) && !s.law.Reno? && !t.law.Reno?
    ensures var m := Reached(Begin(s, t), moves);
            DecodedRight(m.a, m.b) && DecodedRight(m.b, m.a)
  {
    hide SafeNet, Playable, Begin, Agreed, Marked, Reached, Feedback;
    BeginIsSafe(s, t);
    BeginIsMarked(s, t);
    FeedbackForever(Begin(s, t), moves);
    MarkedMeans(Reached(Begin(s, t), moves));
  }

  lemma MarkedMeans(n: Net)
    requires Marked(n)
    ensures DecodedRight(n.a, n.b) && DecodedRight(n.b, n.a)
  {
    hide Acks;
  }
}
