/** Two connections that exchange 32-bit numbers. The theorems about two endpoints speak of positions;
    here a segment that is not half the sequence space old is shown to be read as it was sent, so two
    `Tcb` objects that exchange such segments take exactly the steps those theorems are about. */
module WireRuns {
  import opened Options
  import opened Serial
  import opened Runs
  import opened Rfc6675
  import opened Reassembly
  import opened Congestion
  import opened Endpoint
  import opened ReceiveSide
  import opened Connection
  import opened Sending
  import opened ConnectionRuns
  import opened Network
  import opened NetworkRuns
  import TcbImages
  import TcbImpl
  import FlowControl

  // ── where the segments of a side lie ────────────────────────────────────────────────────────

  /** The blocks lie above the cumulative ACK, within one receive buffer. */
  predicate BlocksNear(g: Segment) {
    forall i :: 0 <= i < |g.blocks| ==>
      g.ack <= g.blocks[i].l <= g.ack + RX_BUFFER && g.ack <= g.blocks[i].r <= g.ack + RX_BUFFER
  }

  /** Everything a side has sent ends inside its stream and the FIN. */
  ghost predicate Placed(x: Side) {
    forall p :: p in x.out ==> BlocksNear(p.g) && p.g.seqNo + SegLen(p.g) <= x.base + |x.sent| + 1
  }

  lemma ReportNear(r: Receiver, sack: bool, n: nat)
    requires PoolInv(r, sack)
    ensures forall i :: 0 <= i < |Report(r.reasm.chunks, n)| ==>
              var b := Report(r.reasm.chunks, n)[i];
              r.nxt <= b.l <= r.nxt + RX_BUFFER && r.nxt <= b.r <= r.nxt + RX_BUFFER
  {
    var chunks := r.reasm.chunks;
    forall i | 0 <= i < |Report(chunks, n)|
      ensures var b := Report(chunks, n)[i]; r.nxt <= b.l <= r.nxt + RX_BUFFER && r.nxt <= b.r <= r.nxt + RX_BUFFER
    {
      ReportIsHeld(chunks, n, i);
      var j :| && 0 <= j < |chunks|
               && Report(chunks, n)[i].l == chunks[j].start && Report(chunks, n)[i].r == End(chunks[j]);
      ChunkInPool(r, sack, j);
    }
  }

  lemma ChunkInPool(r: Receiver, sack: bool, j: nat)
    requires PoolInv(r, sack) && j < |r.reasm.chunks|
    ensures r.nxt <= r.reasm.chunks[j].start <= End(r.reasm.chunks[j]) <= r.nxt + RX_BUFFER
  {
    Bounds(Spans(r.reasm.chunks), Floor(r), PoolEnd(r));
    SpansByIndex(r.reasm.chunks, j);
    hide Within, WellFormed, Spans;
  }

  lemma StampNear(e: Endpoint, f: Endpoint, g: Segment)
    requires Stamp(e, f, g) && PoolInv(e.rcv, e.cfg.sack)
    ensures BlocksNear(g)
  {
    ReportNear(e.rcv, e.cfg.sack, MAX_SACK_BLOCKS);
    hide PoolInv, Report, Advertise, ShiftRight;
  }

  lemma EmitsPlaced(x: Side, f: Endpoint, k: Kind, g: Segment)
    requires SenderOk(x) && Emits(k, x.ep, f, g)
    ensures BlocksNear(g) && g.seqNo + SegLen(g) <= x.base + |x.sent| + 1
  {
    ConsistentFacts(x.ep);
    StampNear(x.ep, f, g);
    EmitsEnd(x, f, k, g);
    hide Consistent, Emits, SenderOk, BlocksNear;
  }

  lemma EmitsEnd(x: Side, f: Endpoint, k: Kind, g: Segment)
    requires SenderOk(x) && Emits(k, x.ep, f, g)
    ensures g.seqNo + SegLen(g) <= x.base + |x.sent| + 1
  {
    ConsistentFacts(x.ep);
    FinAtEnd(x);
    FinishedRing(x);
    StampPlain(x.ep, f, g);
    hide Stamp, Consistent, PoolInv, CcInv, SendFrame, Rfc6675.Valid;
  }

  lemma StampPlain(e: Endpoint, f: Endpoint, g: Segment)
    requires Stamp(e, f, g)
    ensures !g.rst && !g.syn
  {}

  lemma XmitPlaced(x: Side, env: Env)
    requires SenderOk(x) && Placed(x)
    ensures Placed(Emit(x, env))
  {
    hide SenderOk, Emit, Poll, Consistent, Emits, Alike, BlocksNear;
    FlowControl.EmitCases(x, env);
    var (f, g) := Poll(x.ep, env);
    if g.Some? {
      var k :| Emits(k, x.ep, f, g.value);
      EmitsPlaced(x, f, k, g.value);
    }
  }

  lemma ActPlaced(x: Side, y: Side, act: Action)
    requires SenderOk(x) && Placed(x) && Enabled(y, act)
    ensures Placed(Act(x, act))
  {
    hide SenderOk, Emit, OnSegment, BlocksNear, OnTimer;
    match act {
      case Xmit(env) => XmitPlaced(x, env);
      case _ =>
    }
  }

  // ── what is young enough is read as it was sent ─────────────────────────────────────────────

  /** The sequence number and the ACK lie less than half the sequence space behind. */
  predicate Young(e: Endpoint, g: Segment) { e.rcv.nxt - HALF <= g.seqNo && e.snd.nxt - HALF <= g.ack }

  lemma StreamEnd(x: Side)
    requires SenderOk(x)
    ensures x.base + |x.sent| <= x.ep.snd.una + TX_BUFFER && x.ep.snd.una <= x.ep.snd.nxt
  {
    ConsistentFacts(x.ep);
    FinAtEnd(x);
    hide Consistent, PoolInv, CcInv, Rfc6675.Valid;
  }

  /** How far ahead of `x` anything `y` sent can lie. */
  lemma PacketAhead(x: Side, y: Side, p: Packet)
    requires Pair(x, y) && Placed(y) && p in y.out
    ensures p.g.seqNo + SegLen(p.g) <= x.ep.rcv.nxt + TX_BUFFER + 1
    ensures p.g.ack <= x.ep.snd.nxt + TX_BUFFER + 1 && BlocksNear(p.g)
  {
    PairParts(x, y);
    PacketIn(y, p);
    StreamEnd(y);
    StreamEnd(x);
    ReceivedEnd(x, y);
    hide Pair, SenderOk, Consistent, Outgoing, Link, BlocksNear, SegLen, Held, InSome, Carries, FinSent;
  }

  lemma ReceivedEnd(x: Side, y: Side)
    requires Link(x, y) && Link(y, x)
    ensures y.ep.snd.una <= x.ep.rcv.nxt && y.ep.rcv.nxt <= x.base + |x.sent| + 1
    ensures x.ep.rcv.pendingFin.Some? ==> x.ep.rcv.nxt - 1 <= x.ep.rcv.pendingFin.value == y.base + |y.sent|
  {
    hide ByteAt, Covered, Held;
  }

  /** Young segments of the peer are read as they were sent, and they and a remembered FIN lie near
      enough for every comparison the code makes. */
  lemma YoungIsRead(x: Side, y: Side, p: Packet)
    requires Pair(x, y) && Placed(y) && p in y.out && TcbImages.EdgeNear(x.ep.rcv) && Young(x.ep, p.g)
    ensures TcbImages.AsRead(x.ep, TcbImages.AsSent(p.g)) == p.g && TcbImages.Near(x.ep.rcv, p.g)
  {
    PairParts(x, y);
    PacketAhead(x, y, p);
    StreamEnd(y);
    ReceivedEnd(x, y);
    hide Pair, SenderOk, Consistent, Outgoing, Link, Placed, TcbImages.AsRead, TcbImages.AsSent;
    assert forall i :: 0 <= i < |p.g.blocks| ==>
        p.g.ack <= p.g.blocks[i].l <= p.g.ack + RX_BUFFER && p.g.ack <= p.g.blocks[i].r <= p.g.ack + RX_BUFFER;
    TcbImages.ReadsWhatWasSent(x.ep, p.g);
  }

  // ── runs ────────────────────────────────────────────────────────────────────────────────────

  /** Two sides the theorems about two endpoints apply to, held by two connections. */
  ghost predicate Joined(x: Side, y: Side) {
    Pair(x, y) && Placed(x) && Placed(y) && TcbImages.Ready(x.ep) && TcbImages.Ready(y.ep)
  }

  lemma JoinedParts(x: Side, y: Side)
    requires Joined(x, y)
    ensures Pair(x, y) && Placed(x) && Placed(y) && TcbImages.Ready(x.ep) && TcbImages.Ready(y.ep)
    ensures TcbImages.EdgeNear(x.ep.rcv) && TcbImages.EdgeNear(y.ep.rcv)
  {
    hide Pair, Placed, Consistent;
  }

  lemma ActJoined(x: Side, y: Side, act: Action)
    requires Joined(x, y) && Enabled(y, act)
    ensures Joined(Act(x, act), y)
  {
    hide Pair, Placed, TcbImages.Ready, Act, Step, Enabled, SenderOk, Outgoing, Link;
    JoinedParts(x, y);
    PairParts(x, y);
    ActKeeps(x, y, act);
    ActPlaced(x, y, act);
    ActIsStep(x, act);
    TcbImages.StepStaysReady(x.ep, InputOf(act));
  }

  lemma JoinedSwaps(x: Side, y: Side)
    requires Joined(x, y)
    ensures Joined(y, x)
  {
    hide Pair, Placed, TcbImages.Ready;
    PairSwaps(x, y);
  }

  lemma MoveJoined(n: Net, m: Move)
    requires Joined(n.a, n.b) && Possible(n, m)
    ensures Joined(Do(n, m).a, Do(n, m).b)
  {
    hide Joined, Act, Enabled;
    match m {
      case AtA(act) => ActJoined(n.a, n.b, act);
      case AtB(act) => JoinedSwaps(n.a, n.b); ActJoined(n.b, n.a, act); JoinedSwaps(Do(n, m).b, Do(n, m).a);
    }
  }

  lemma {:induction false} JoinedForever(n: Net, moves: seq<Move>)
    requires Joined(n.a, n.b) && Playable(n, moves)
    ensures Joined(Reached(n, moves).a, Reached(n, moves).b)
    decreases |moves|
  {
    hide Joined, Do, Possible;
    if moves != [] {
      MoveJoined(n, moves[0]);
      JoinedForever(Do(n, moves[0]), moves[1..]);
    }
  }

  lemma BeginJoined(s: Terms, t: Terms)
    requires Agreed(s, t)
    ensures Joined(Begin(s, t).a, Begin(s, t).b)
  {
    hide Pair, Consistent, Trusted, Congestion.Init;
    BeginIsSafe(s, t);
    FreshIsConsistent(s, t.base);
    FreshIsConsistent(t, s.base);
  }

  /** After any run from the start, whatever was lost, duplicated or reordered, each segment of `b` that
      is not half the sequence space old is read by `a` as it was sent. */
  lemma WireCarriesPositions(s: Terms, t: Terms, moves: seq<Move>, p: Packet)
    requires Agreed(s, t) && Playable(Begin(s, t), moves)
    requires var n := Reached(Begin(s, t), moves); p in n.b.out && Young(n.a.ep, p.g)
    ensures var e := Reached(Begin(s, t), moves).a.ep;
            TcbImages.AsRead(e, TcbImages.AsSent(p.g)) == p.g && TcbImages.Near(e.rcv, p.g)
  {
    hide Pair, Placed, TcbImages.Ready, Reached, Begin, Playable, TcbImages.AsRead, TcbImages.AsSent,
         TcbImages.Near, Young, Agreed, Joined, TcbImages.EdgeNear;
    BeginJoined(s, t);
    JoinedForever(Begin(s, t), moves);
    var n := Reached(Begin(s, t), moves);
    JoinedParts(n.a, n.b);
    YoungIsRead(n.a, n.b, p);
  }

  // ── the objects ─────────────────────────────────────────────────────────────────────────────

  /** A segment of the peer is handed to the object that stands for `x`: the object takes the step of
      the position model. */
  method DeliverTo(t: TcbImpl.Tcb, w: TcbImages.WireSegment, env: Env, ghost x: Side, ghost y: Side, ghost p: Packet)
    requires t.Valid() && t.at == x.ep && Joined(x, y)
    requires p in y.out && Young(x.ep, p.g) && w == TcbImages.AsSent(p.g)
    modifies t, t.tx, t.rx, t.cc, t.scoreboard, t.reasm
    ensures t.Valid() && t.at == Arrival(x, p, env).ep && Joined(Arrival(x, p, env), y)
  {
    hide TcbImpl.Tcb.Valid, Pair, Placed, TcbImages.Ready, TcbImages.Near, TcbImages.AsRead, TcbImages.AsSent,
         OnSegment, TcbImages.EdgeNear, Young, Joined;
    JoinedParts(x, y);
    YoungIsRead(x, y, p);
    ActJoined(x, y, Receive(p, env));
    t.OnSegment(w, env);
  }

  /** The object that stands for `x` is polled: what it puts on the wire is the image of what the
      position model puts there. */
  method TransmitFrom(t: TcbImpl.Tcb, env: Env, ghost x: Side, ghost y: Side) returns (w: Option<TcbImages.WireSegment>)
    requires t.Valid() && t.at == x.ep && Joined(x, y)
    modifies t, t.scoreboard
    ensures t.Valid() && t.at == Emit(x, env).ep && Joined(Emit(x, env), y)
    ensures w.Some? <==> Poll(x.ep, env).1.Some?
    ensures w.Some? ==> exists p :: p in Emit(x, env).out && w.value == TcbImages.AsSent(p.g)
  {
    hide TcbImpl.Tcb.Valid, Pair, Placed, TcbImages.Ready, TcbImages.AsSent, Poll, Joined;
    JoinedParts(x, y);
    ActJoined(x, y, Xmit(env));
    w := t.PollTransmit(env);
    assert w.Some? ==> Packet(Poll(x.ep, env).1.value, x.marks) in Emit(x, env).out;
  }
}
