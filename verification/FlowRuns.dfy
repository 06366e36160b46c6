/** Flow control over every run of two endpoints: as long as no segment overstates a sender's window,
    what it sends as new data lies left of the edge its peer advertises, and what it has sent fits. */
module FlowRuns {
  import opened Options
  import opened Serial
  import opened Runs
  import opened Rfc6675
  import opened Reassembly
  import opened Congestion
  import opened Endpoint
  import opened ReceiveSide
  import opened Connection
  import opened Sending
  import opened ConnectionRuns
  import opened Network
  import opened NetworkRuns
  import opened FlowControl

  /** No segment delivered to `a` along the run overstates its window. */
  ghost predicate AllCurrent(n: Net, moves: seq<Move>)
    decreases |moves|
  {
    moves == [] ||
    (&& Possible(n, moves[0]) && (moves[0].AtA? ==> Current(n.a, moves[0].act))
     && AllCurrent(Do(n, moves[0]), moves[1..]))
  }

  lemma MoveFlows(n: Net, m: Move)
    requires SafeNet(n) && Flow(n.a, n.b) && Possible(n, m) && (m.AtA? ==> Current(n.a, m.act))
    ensures Flow(Do(n, m).a, Do(n, m).b)
  {
    PairParts(n.a, n.b);
    hide Pair, Flow, Act, Enabled, SenderOk, Link, Outgoing, Current;
    match m {
      case AtA(act) => SenderFlows(n.a, n.b, act);
      case AtB(act) => ReceiverFlows(n.a, n.b, act);
    }
  }

  lemma {:induction false} FlowForever(n: Net, moves: seq<Move>)
    requires SafeNet(n) && Flow(n.a, n.b) && AllCurrent(n, moves)
    ensures SafeNet(Reached(n, moves)) && Flow(Reached(n, moves).a, Reached(n, moves).b)
    decreases |moves|
  {
    hide SafeNet, Do, Possible, Flow, Current;
    if moves != [] {
      MoveKeeps(n, moves[0]);
      MoveFlows(n, moves[0]);
      FlowForever(Do(n, moves[0]), moves[1..]);
    }
  }

  /** The scales agree and the first window ends inside the first advertised edge. */
  predicate Granting(s: Terms, t: Terms) {
    s.cfg.sndWscale == t.cfg.rcvWscale && s.base + s.wnd <= t.adv
  }

  lemma BeginFlows(s: Terms, t: Terms)
    requires Granting(s, t) && s.base <= t.adv
    ensures Flow(Begin(s, t).a, Begin(s, t).b)
  {
    hide Congestion.Init, Wire;
  }

  /** What `x` sends next as new data lies left of the edge `y` advertises, the edge promises no more
      than the ring can take, and every data segment ever sent, but for a one-octet probe, is
      delivered in full when it is the next in order. */
  ghost predicate Fits(x: Side, y: Side, env: Env) {
    var (f, g) := Poll(x.ep, env);
    && (g.Some? && g.value.payload != [] && f.snd.nxt > x.ep.snd.nxt ==>
          g.value.seqNo + |g.value.payload| <= y.ep.rcv.adv)
    && |y.ep.rcv.rx| + (y.ep.rcv.adv - y.ep.rcv.nxt) <= RX_BUFFER
    && AllDelivered(x, y)
  }

  ghost predicate AllDelivered(x: Side, y: Side) {
    forall p :: p in x.out && |p.g.payload| > 1 && InOrder(y.ep.rcv, p.g) ==>
      Deliver(y.ep.rcv, TrimLeft(y.ep.rcv, p.g).1).1 == |TrimLeft(y.ep.rcv, p.g).1|
  }

  /** Flow control composes, with data and FINs both ways and whatever the network does, as long as
      no segment delivered to the sender overstates its window. */
  lemma FlowControlComposes(s: Terms, t: Terms, moves: seq<Move>, env: Env)
    requires Agreed(s, t) && Granting(s, t) && AllCurrent(Begin(s, t), moves)
    ensures Fits(Reached(Begin(s, t), moves).a, Reached(Begin(s, t), moves).b, env)
  {
    hide Playable, Begin, AllCurrent, Flow, Pair, Reached, Agreed, Granting, AllDelivered, Poll;
    BeginIsSafe(s, t);
    BeginEdges(s, t);
    BeginFlows(s, t);
    FlowForever(Begin(s, t), moves);
    var m := Reached(Begin(s, t), moves);
    NewDataInside(m.a, m.b, env);
    SentFits(m.a, m.b);
  }

  /** Both directions at once. */
  lemma FlowControlComposesBothWays(s: Terms, t: Terms, moves: seq<Move>, env: Env)
    requires Agreed(s, t) && Granting(s, t) && Granting(t, s)
    requires AllCurrent(Begin(s, t), moves) && AllCurrent(Mirror(Begin(s, t)), MirrorMoves(moves))
    ensures var m := Reached(Begin(s, t), moves); Fits(m.a, m.b, env) && Fits(m.b, m.a, env)
  {
    hide AllCurrent, Agreed, Granting, Fits, Fresh, Reached;
    assert Agreed(t, s) by { AgreedSwaps(s, t); }
    assert Begin(t, s) == Mirror(Begin(s, t));
    MirrorRuns(Begin(s, t), moves);
    hide Begin;
    FlowControlComposes(s, t, moves, env);
    FlowControlComposes(t, s, MirrorMoves(moves), env);
  }

  lemma AgreedSwaps(s: Terms, t: Terms)
    requires Agreed(s, t)
    ensures Agreed(t, s)
  {}

  lemma BeginEdges(s: Terms, t: Terms)
    requires Agreed(s, t)
    ensures s.base <= t.adv
  {}

  lemma NewDataInside(x: Side, y: Side, env: Env)
    requires Pair(x, y) && Flow(x, y)
    ensures var (f, g) := Poll(x.ep, env);
            g.Some? && g.value.payload != [] && f.snd.nxt > x.ep.snd.nxt ==>
              g.value.seqNo + |g.value.payload| <= y.ep.rcv.adv
  {
    hide Consistent, Poll, Offers, Inside, Pair, SenderOk, Outgoing, Link, Stamp, Emit, Alike;
    PairParts(x, y);
    EmitCases(x, env);
    var (f, g) := Poll(x.ep, env);
    if g.Some? {
      var k :| Emits(k, x.ep, f, g.value);
    }
  }

  lemma SentFits(x: Side, y: Side)
    requires Pair(x, y) && Flow(x, y)
    ensures |y.ep.rcv.rx| + (y.ep.rcv.adv - y.ep.rcv.nxt) <= RX_BUFFER && AllDelivered(x, y)
  {
    PairParts(y, x);
    ConsistentFacts(y.ep);
    EdgePromise(y.ep.rcv, y.ep.cfg.sack);
    hide Consistent, Flow, Pair, SenderOk, Outgoing, Link, InOrder, Deliver, TrimLeft, PoolInv;
    forall p | p in x.out && |p.g.payload| > 1 && InOrder(y.ep.rcv, p.g)
      ensures Deliver(y.ep.rcv, TrimLeft(y.ep.rcv, p.g).1).1 == |TrimLeft(y.ep.rcv, p.g).1|
    {
      OneFits(x, y, p);
    }
  }

  lemma EdgePromise(r: Receiver, sack: bool)
    requires PoolInv(r, sack)
    ensures |r.rx| + (r.adv - r.nxt) <= RX_BUFFER
  {}

  lemma OneFits(x: Side, y: Side, p: Packet)
    requires Flow(x, y) && PoolInv(y.ep.rcv, y.ep.cfg.sack)
    requires p in x.out && |p.g.payload| > 1 && InOrder(y.ep.rcv, p.g)
    ensures Deliver(y.ep.rcv, TrimLeft(y.ep.rcv, p.g).1).1 == |TrimLeft(y.ep.rcv, p.g).1|
  {
    hide Granted, Offers, PoolInv, Deliver;
    TrimmedEnd(y.ep.rcv, p.g);
    InsideEdgeFits(y.ep.rcv, TrimLeft(y.ep.rcv, p.g).1, y.ep.cfg.sack);
  }

  lemma TrimmedEnd(r: Receiver, g: Segment)
    requires InOrder(r, g)
    ensures r.nxt + |TrimLeft(r, g).1| == g.seqNo + |g.payload|
  {}
}
