/** Data one way: the receiver only acknowledges. Then no ACK less than half the sequence space late
    ever overstates the window, so flow control composes with nothing asked of the segments. */
module OneWay {
  import opened Options
  import opened Serial
  import opened Runs
  import opened Rfc6675
  import opened Reassembly
  import opened Congestion
  import opened Endpoint
  import opened ReceiveSide
  import opened Connection
  import opened Sending
  import opened ConnectionRuns
  import opened Network
  import opened NetworkRuns
  import opened FlowControl
  import opened FlowRuns

  /** `y` only acknowledges: it has nothing to send and never closes. */
  predicate Silent(y: Side) {
    && y.sent == [] && y.ep.snd.tx == [] && !y.ep.snd.finQueued && y.ep.snd.finSeq.None?
    && y.ep.snd.una == y.ep.snd.nxt == y.base
  }

  /** Every segment of a silent side is a pure ACK at its one sequence number. */
  ghost predicate OnlyAcks(y: Side) { forall p :: p in y.out ==> p.g.seqNo == y.base && p.g.payload == [] }

  /** The window last taken came with the ACK of SND.UNA. */
  predicate WindowAtUna(s: Sender, base: int) { s.wl1 == Wire(base) && s.wl2 == Wire(s.una) }

  ghost predicate Quietly(x: Side, y: Side) { Silent(y) && OnlyAcks(y) && WindowAtUna(x.ep.snd, y.base) }

  /** The ACK lies less than half the sequence space behind SND.UNA. */
  predicate Timely(x: Side, act: Action) { act.Receive? ==> x.ep.snd.una - HALF < act.p.g.ack }

  predicate Quiet(act: Action) { !act.Write? && !act.Shut? }

  lemma OutstandingIsSmall(e: Endpoint)
    requires Consistent(e)
    ensures e.snd.una <= e.snd.nxt < e.snd.una + HALF
  {
    ConsistentFacts(e);
    hide Consistent, PoolInv, CcInv;
  }

  /** A silent peer's segment passes the window test exactly when its ACK is not below SND.UNA. */
  lemma TakenWhenNotOld(e: Endpoint, g: Segment)
    requires Consistent(e) && WindowAtUna(e.snd, g.seqNo) && e.snd.una - HALF < g.ack <= e.snd.nxt
    ensures TakesWindow(e, g) <==> g.ack >= e.snd.una
  {
    OutstandingIsSmall(e);
    Agree(e.snd.una, g.ack);
    Agree(g.seqNo, g.seqNo);
    hide Wire, Lt, Le, Consistent;
  }

  lemma TimelyIsCurrent(x: Side, y: Side, p: Packet)
    requires SenderOk(x) && Quietly(x, y) && p in y.out && x.ep.snd.una - HALF < p.g.ack
    ensures !Overstates(x.ep, p.g)
  {
    SenderIsConsistent(x);
    hide SenderOk, Consistent, ShiftLeft, TakesWindow, Acceptable, Wire;
    if p.g.ack <= x.ep.snd.nxt { TakenWhenNotOld(x.ep, p.g); }
  }

  lemma ReceiveQuietly(x: Side, y: Side, p: Packet, env: Env)
    requires SenderOk(x) && Quietly(x, y) && p in y.out && x.ep.snd.una - HALF < p.g.ack
    ensures Quietly(Arrival(x, p, env), y)
  {
    SenderIsConsistent(x);
    hide SenderOk, Consistent, ShiftLeft, TakesWindow, OnSegment, Wire, Acceptable;
    SegmentWindow(x.ep, p.g, env);
    if p.g.ack <= x.ep.snd.nxt { TakenWhenNotOld(x.ep, p.g); }
  }

  lemma SenderQuietly(x: Side, y: Side, act: Action)
    requires SenderOk(x) && Quietly(x, y) && Enabled(y, act) && Timely(x, act)
    ensures Quietly(Act(x, act), y) && Current(x, act)
  {
    hide SenderOk, Emit, Arrival, SameSpace, Silent, OnlyAcks, Overstates, Poll, Consistent, Emits, Alike, Wire;
    match act {
      case Xmit(env) =>
        EmitCases(x, env);
        var (f, g) := Poll(x.ep, env);
        if g.Some? {
          var k :| Emits(k, x.ep, f, g.value);
          EmitsWindow(k, x.ep, f, g.value);
        } else {
          AlikeWindow(x.ep, f);
        }
      case Receive(p, env) =>
        ReceiveQuietly(x, y, p, env);
        TimelyIsCurrent(x, y, p);
      case _ =>
        QuietSpace(x, act);
        SpaceWindow(x, Act(x, act), y.base);
    }
  }

  lemma EmitsWindow(k: Kind, e: Endpoint, f: Endpoint, g: Segment)
    requires Emits(k, e, f, g)
    ensures f.snd.una == e.snd.una && f.snd.wl1 == e.snd.wl1 && f.snd.wl2 == e.snd.wl2
  {
    hide Stamp, IsKind;
  }

  lemma AlikeWindow(e: Endpoint, f: Endpoint)
    requires Alike(e, f)
    ensures f.snd.una == e.snd.una && f.snd.wl1 == e.snd.wl1 && f.snd.wl2 == e.snd.wl2
  {}

  lemma SpaceWindow(x: Side, x': Side, base: int)
    requires SameSpace(x, x') && WindowAtUna(x.ep.snd, base)
    ensures WindowAtUna(x'.ep.snd, base)
  {}

  /** A silent side emits only pure ACKs. */
  lemma SilentEmits(y: Side, f: Endpoint, k: Kind, g: Segment)
    requires Silent(y) && Emits(k, y.ep, f, g) && Consistent(f)
    ensures g.payload == [] && !g.fin && g.seqNo == y.base && Silent(y.(ep := f))
  {
    FinNeedsClose(f);
    hide Stamp, Consistent;
  }

  lemma FinNeedsClose(e: Endpoint)
    requires Consistent(e)
    ensures e.snd.finSeq.Some? ==> e.snd.finQueued
  {}

  lemma SilentIgnoresOut(y: Side, y': Side)
    requires Silent(y) && y' == y.(out := y'.out)
    ensures Silent(y')
  {}

  lemma SilentSame(y: Side, y': Side)
    requires Silent(y) && SameSpace(y, y') && y'.sent == y.sent && y'.ep.snd.tx == y.ep.snd.tx
    requires y'.ep.snd.finQueued == y.ep.snd.finQueued
    ensures Silent(y') && y'.base == y.base && y'.out == y.out
  {}

  /** With nothing outstanding an ACK changes nothing. */
  lemma SilentReceives(y: Side, p: Packet, env: Env)
    requires SenderOk(y) && Silent(y)
    ensures Silent(Arrival(y, p, env)) && Arrival(y, p, env).base == y.base && Arrival(y, p, env).out == y.out
  {
    SenderIsConsistent(y);
    SegmentAcks(y.ep, p.g, env);
    hide Consistent, OnSegment, Covered, InSome;
  }

  lemma SilentXmit(y: Side, env: Env)
    requires SenderOk(y) && Silent(y) && OnlyAcks(y)
    ensures Silent(Emit(y, env)) && OnlyAcks(Emit(y, env)) && Emit(y, env).base == y.base
  {
    hide SenderOk, Emit, Silent, Poll, Consistent, Emits, Alike, SameSpace;
    EmitCases(y, env);
    var (f, g) := Poll(y.ep, env);
    if g.Some? {
      var k :| Emits(k, y.ep, f, g.value);
      SilentEmits(y, f, k, g.value);
      SilentIgnoresOut(y.(ep := f), Emit(y, env));
    } else {
      AlikeSpace(y, f);
      SilentSame(y, y.(ep := f));
      SilentIgnoresOut(y.(ep := f), Emit(y, env));
    }
  }

  lemma ReceiverQuietly(x: Side, y: Side, act: Action)
    requires SenderOk(y) && Quietly(x, y) && Enabled(x, act) && Quiet(act)
    ensures Quietly(x, Act(y, act))
  {
    hide SenderOk, Emit, Arrival, SameSpace, Silent, WindowAtUna;
    match act {
      case Xmit(env) => SilentXmit(y, env);
      case Receive(p, env) => SilentReceives(y, p, env);
      case _ =>
        QuietSpace(y, act);
        SilentSame(y, Act(y, act));
    }
  }

  // ── runs ────────────────────────────────────────────────────────────────────────────────────

  /** Data flows from `a` to `b` only, and no ACK arrives more than half the sequence space late. */
  predicate AToB(n: Net, m: Move) {
    match m
    case AtA(act) => Timely(n.a, act)
    case AtB(act) => Quiet(act)
  }

  ghost predicate AllOneWay(n: Net, moves: seq<Move>)
    decreases |moves|
  {
    moves == [] || (Possible(n, moves[0]) && AToB(n, moves[0]) && AllOneWay(Do(n, moves[0]), moves[1..]))
  }

  lemma MoveQuietly(n: Net, m: Move)
    requires SafeNet(n) && Quietly(n.a, n.b) && Possible(n, m) && AToB(n, m)
    ensures Quietly(Do(n, m).a, Do(n, m).b) && (m.AtA? ==> Current(n.a, m.act))
  {
    PairParts(n.a, n.b);
    hide Pair, Quietly, Act, Enabled, SenderOk, Link, Outgoing, Timely, Quiet, Current;
    match m {
      case AtA(act) => SenderQuietly(n.a, n.b, act);
      case AtB(act) => ReceiverQuietly(n.a, n.b, act);
    }
  }

  lemma {:induction false} OneWayIsCurrent(n: Net, moves: seq<Move>)
    requires SafeNet(n) && Quietly(n.a, n.b) && AllOneWay(n, moves)
    ensures AllCurrent(n, moves)
    decreases |moves|
  {
    hide SafeNet, Do, Possible, Quietly, AToB, Current;
    if moves != [] {
      MoveKeeps(n, moves[0]);
      MoveQuietly(n, moves[0]);
      OneWayIsCurrent(Do(n, moves[0]), moves[1..]);
    }
  }

  lemma BeginQuietly(s: Terms, t: Terms)
    ensures Quietly(Begin(s, t).a, Begin(s, t).b)
  {
    hide Congestion.Init, Wire;
  }

  /** With data one way, flow control composes over every run. */
  lemma OneWayComposes(s: Terms, t: Terms, moves: seq<Move>, env: Env)
    requires Agreed(s, t) && Granting(s, t) && AllOneWay(Begin(s, t), moves)
    ensures Fits(Reached(Begin(s, t), moves).a, Reached(Begin(s, t), moves).b, env)
  {
    hide Begin, AllOneWay, AllCurrent, Quietly, Agreed, Granting, Fits, SafeNet, Reached;
    BeginIsSafe(s, t);
    BeginQuietly(s, t);
    OneWayIsCurrent(Begin(s, t), moves);
    FlowControlComposes(s, t, moves, env);
  }
}
