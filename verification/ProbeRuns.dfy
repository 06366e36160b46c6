/** A stall is within reach: wherever a window has closed with everything delivered, and from the start
    of every connection whose first window is closed, some schedule of polls, one timer and one lost ACK
    ends with the sender stalled. */
module ProbeRuns {
  import opened Options
  import opened Serial
  import opened Runs
  import opened Rfc6675
  import opened Reassembly
  import opened Congestion
  import opened Endpoint
  import opened ReceiveSide
  import opened Connection
  import opened Sending
  import opened ConnectionRuns
  import opened Network
  import opened NetworkRuns
  import opened FlowControl
  import opened WindowProbe
  import Gate

  ghost predicate CanStall(n: Net) {
    exists moves :: Playable(n, moves) && Stalled(Reached(n, moves).a, Reached(n, moves).b)
  }

  lemma StallsNow(n: Net)
    requires Stalled(n.a, n.b)
    ensures CanStall(n)
  {
    assert Playable(n, []) && Reached(n, []) == n;
  }

  lemma StallsLater(n: Net, m: Move)
    requires Possible(n, m) && CanStall(Do(n, m))
    ensures CanStall(n)
  {
    hide Possible, Do, Stalled;
    var rest :| Playable(Do(n, m), rest) && Stalled(Reached(Do(n, m), rest).a, Reached(Do(n, m), rest).b);
    var moves := [m] + rest;
    assert moves[0] == m && moves[1..] == rest;
    assert Playable(n, moves) && Reached(n, moves) == Reached(Do(n, m), rest);
  }

  /** The receiver may send, and its pool has room. */
  predicate HasRoom(e: Endpoint) { Live(e) && |e.rcv.rx| + Buffered(e.rcv.reasm.chunks) < RX_BUFFER }

  /** The sender is out of window, the receiver has all that was sent and room for more. */
  ghost predicate ClosedWindow(n: Net) {
    && SafeNet(n) && Live(n.a.ep) && WindowShut(n.a.ep) && n.a.ep.snd.una == n.b.ep.rcv.nxt
    && HasRoom(n.b.ep) && n.a.ep.rcv.nxt <= n.b.ep.snd.nxt
  }

  lemma DeliveryStalls(n: Net, p: Packet, env: Env)
    requires Probing(n.a, n.b, p) && n.b.ep.rcv.nxt < n.b.ep.rcv.adv && p.g.ack <= n.b.ep.snd.nxt
    ensures CanStall(n)
  {
    hide Stalled, CanStall, Arrival;
    var m := AtB(Receive(p, env));
    assert Possible(n, m) && Do(n, m) == n.(b := Arrival(n.b, p, env)) by { hide Pair, WindowShut; }
    hide Probing, Possible, Do;
    ProbeStallsExactlyWhen(n.a, n.b, p, env);
    StallsNow(Do(n, m));
    StallsLater(n, m);
  }

  lemma {:induction false} ShiftGrows(x: nat, n: nat)
    ensures ShiftLeft(x, n) >= x
  {
    if n > 0 { ShiftGrows(x, n - 1); }
  }

  lemma RoomAdvertised(r: Receiver, cfg: Config)
    requires |r.rx| + Buffered(r.reasm.chunks) < RX_BUFFER
    ensures Advertise(r, cfg).adv > r.nxt
  {
    ShiftGrows(0xFFFF, cfg.rcvWscale);
    hide Buffered, ShiftLeft;
  }

  lemma NeedyAdvertises(y: Side, env: Env)
    requires SenderOk(y) && HasRoom(y.ep) && y.ep.rcv.needsAck
    ensures var f := Emit(y, env).ep;
            f.rcv.nxt == y.ep.rcv.nxt < f.rcv.adv && f.snd.nxt >= y.ep.snd.nxt
  {
    hide Consistent, Poll, SenderOk, Emit, Advertise, IsKind, Alike, SendFrame, ShiftRight, Report;
    SenderIsConsistent(y);
    OwesNoRst(y);
    EmitCases(y, env);
    XmitNext(y, env);
    Gate.NeedyPolls(y.ep, env);
    RoomAdvertised(y.ep.rcv, y.ep.cfg);
    var (f, g) := Poll(y.ep, env);
    var k :| Emits(k, y.ep, f, g.value);
  }

  lemma ProbingStays(x: Side, y: Side, y': Side, p: Packet)
    requires Probing(x, y, p) && Pair(x, y') && y'.ep.rcv.nxt == y.ep.rcv.nxt
    ensures Probing(x, y', p)
  {
    hide Pair, WindowShut;
  }

  lemma NeedyCanStall(n: Net, p: Packet, env: Env)
    requires Probing(n.a, n.b, p) && HasRoom(n.b.ep) && n.b.ep.rcv.needsAck && p.g.ack <= n.b.ep.snd.nxt
    ensures CanStall(n)
  {
    hide Pair, WindowShut, CanStall, HasRoom, Emit, SenderOk, Outgoing, Link;
    PairParts(n.a, n.b);
    PairSwaps(n.a, n.b);
    XmitKeeps(n.b, n.a, env);
    PairSwaps(Emit(n.b, env), n.a);
    NeedyAdvertises(n.b, env);
    var m := AtB(Xmit(env));
    assert Possible(n, m) && Do(n, m) == n.(b := Emit(n.b, env));
    ProbingStays(n.a, n.b, Emit(n.b, env), p);
    DeliveryStalls(Do(n, m), p, env);
    StallsLater(n, m);
  }

  lemma Refused(y: Side, p: Packet, env: Env)
    requires !p.g.rst && !p.g.syn && !y.ep.state.TimeWait? && !Acceptable(y.ep.rcv, p.g)
    ensures var f := Arrival(y, p, env).ep; f == y.ep.(rcv := y.ep.rcv.(needsAck := true))
  {}

  /** Delivered into a closed window the probe draws an ACK, delivered again it is taken. */
  lemma ProbingCanStall(n: Net, p: Packet, env: Env)
    requires Probing(n.a, n.b, p) && HasRoom(n.b.ep) && p.g.ack <= n.b.ep.snd.nxt
    ensures CanStall(n)
  {
    hide CanStall, Arrival, SenderOk, Outgoing, Link, Pair, WindowShut, PacketOk;
    if n.b.ep.rcv.nxt < n.b.ep.rcv.adv {
      DeliveryStalls(n, p, env);
    } else {
      RefusedProbe(n, p, env);
      NeedyCanStall(n.(b := Arrival(n.b, p, env)), p, env);
      StallsLater(n, AtB(Receive(p, env)));
    }
  }

  lemma RefusedProbe(n: Net, p: Packet, env: Env)
    requires Probing(n.a, n.b, p) && HasRoom(n.b.ep) && n.b.ep.rcv.nxt >= n.b.ep.rcv.adv
    ensures var y := Arrival(n.b, p, env);
            Probing(n.a, y, p) && HasRoom(y.ep) && y.ep.rcv.needsAck && y.ep.snd == n.b.ep.snd
  {
    hide Arrival, SenderOk, Outgoing, Link, Pair, WindowShut, Held, InSome, FinSent, Carries;
    PairParts(n.a, n.b);
    PacketIn(n.a, p);
    Refused(n.b, p, env);
    PairSwaps(n.a, n.b);
    ReceiveKeeps(n.b, n.a, p, env);
    PairSwaps(Arrival(n.b, p, env), n.a);
    ProbingStays(n.a, n.b, Arrival(n.b, p, env), p);
  }

  /** The octet at SND.UNA and nothing else. */
  predicate IsProbe(e: Endpoint, g: Segment) {
    g.seqNo == e.snd.una && |g.payload| == 1 && !g.fin && g.ack == e.rcv.nxt
  }

  /** What a poll into a closed window leaves behind. */
  predicate Persisting(e: Endpoint, f: Endpoint) {
    && f.snd == e.snd.(sendProbe := false) && f.t.persist.Some? && f.state == e.state
    && f.rcv.nxt == e.rcv.nxt && f.owedRst == e.owedRst
  }

  /** A poll into a closed window arms the persist timer, and sends the probe once that has fired. */
  lemma ShutPoll(e: Endpoint, env: Env)
    requires Consistent(e) && Live(e) && e.owedRst.None? && WindowShut(e)
    ensures var (f, g) := Poll(e, env);
            Persisting(e, f) && (e.snd.sendProbe ==> g.Some? && IsProbe(e, g.value))
  {
    hide Consistent, StepNew, StepRetransmit, PureAck, WindowShut, Persisting, IsProbe;
    QuietRepair(e, env) by { assert WindowShut(e); ShutSpace(e); }
    ShutStep(e, env);
    AckPersists(e, StepNew(e, env).0);
  }

  lemma ShutSpace(e: Endpoint)
    requires WindowShut(e)
    ensures e.snd.una == e.snd.nxt
  {}

  lemma AckPersists(e: Endpoint, f: Endpoint)
    requires Persisting(e, f)
    ensures Persisting(e, PureAck(f).0)
  {
    hide Report, ShiftRight, ShiftLeft, Buffered;
  }

  lemma ShutStep(e: Endpoint, env: Env)
    requires Consistent(e) && WindowShut(e)
    ensures var (f, g) := StepNew(e, env);
            Persisting(e, f) && (e.snd.sendProbe <==> g.Some?) && (g.Some? ==> IsProbe(e, g.value))
  {
    hide Consistent, PipeOf, Build, MaxPayload, ProbeNow, Persisting, IsProbe;
    PacedFlags(e, env);
    PacedIsAlike(e, env);
    hide Paced;
    var p := PersistArmed(Paced(e, env), env);
    assert StepNew(e, env) == if e.snd.sendProbe then ProbeNow(p) else (p, None);
    if e.snd.sendProbe { ProbePersists(e, p); } else { ArmedPersists(e, p); }
  }

  lemma ArmedPersists(e: Endpoint, p: Endpoint)
    requires p.snd == e.snd && p.rcv == e.rcv && p.state == e.state && p.owedRst == e.owedRst && p.t.persist.Some?
    requires !e.snd.sendProbe
    ensures Persisting(e, p)
  {}

  lemma ProbePersists(e: Endpoint, p: Endpoint)
    requires p.snd == e.snd && p.rcv == e.rcv && p.state == e.state && p.owedRst == e.owedRst && p.t.persist.Some?
    requires e.snd.tx != []
    ensures var (f, g) := ProbeNow(p); Persisting(e, f) && g.Some? && IsProbe(e, g.value)
  {
    hide Report, ShiftRight, ShiftLeft, Buffered;
  }

  lemma ShutXmit(n: Net, env: Env)
    requires ClosedWindow(n)
    ensures var m := n.(a := Emit(n.a, env));
            && ClosedWindow(m) && m.a.ep.t.persist.Some?
            && (n.a.ep.snd.sendProbe ==>
                  exists p :: Probing(m.a, m.b, p) && p.g.ack <= m.b.ep.snd.nxt)
  {
    hide Poll, HasRoom, SenderOk, Outgoing, Link, Pair, Consistent;
    PairParts(n.a, n.b);
    OwesNoRst(n.a);
    ShutPoll(n.a.ep, env);
    XmitKeeps(n.a, n.b, env);
    var x := Emit(n.a, env);
    if n.a.ep.snd.sendProbe {
      assert Probing(x, n.b, Packet(Poll(n.a.ep, env).1.value, n.a.marks));
    }
  }

  /** With the persist deadline reached, the probe is due. */
  lemma ShutTimer(n: Net, env: Env)
    requires ClosedWindow(n) && Due(n.a.ep.t.persist, env.now)
    ensures var m := n.(a := Act(n.a, Timeout(env)));
            ClosedWindow(m) && m.a.ep.snd.sendProbe
  {
    hide HasRoom, SenderOk, Outgoing, Link, Pair, Consistent;
    PairParts(n.a, n.b);
    TimeoutKeeps(n.a, n.b, env);
    TimerLeaves(n.a.ep, env);
    PersistFires(n.a.ep, env);
  }

  lemma PersistFires(e: Endpoint, env: Env)
    requires Consistent(e) && Live(e) && WindowShut(e) && Due(e.t.persist, env.now)
    ensures Live(OnTimer(e, env)) && OnTimer(e, env).snd.sendProbe
  {
    ConsistentFacts(e);
    hide Consistent, SendInv, PoolInv, CcInv;
  }

  lemma ReadyCanStall(n: Net, env: Env)
    requires ClosedWindow(n) && n.a.ep.snd.sendProbe
    ensures CanStall(n)
  {
    hide CanStall, Emit, HasRoom, Pair, WindowShut, Probing;
    ShutXmit(n, env);
    var m := n.(a := Emit(n.a, env));
    var p :| Probing(m.a, m.b, p) && p.g.ack <= m.b.ep.snd.nxt;
    ProbingCanStall(m, p, env);
    StallsLater(n, AtA(Xmit(env)));
  }

  /** Wherever a window has closed with everything delivered and the receiver has room again, some
      schedule stalls the sender. */
  lemma ClosedWindowCanStall(n: Net, env: Env)
    requires ClosedWindow(n)
    ensures CanStall(n)
  {
    hide CanStall, Emit, HasRoom, Pair, WindowShut, OnTimer;
    ShutXmit(n, env);
    var m := n.(a := Emit(n.a, env));
    var late := env.(now := m.a.ep.t.persist.value);
    ShutTimer(m, late);
    ReadyCanStall(m.(a := Act(m.a, Timeout(late))), late);
    StallsLater(m, AtA(Timeout(late)));
    StallsLater(n, AtA(Xmit(env)));
  }

  lemma FirstOctetWaits(s: Terms, t: Terms, octet: byte)
    requires Agreed(s, t) && s.wnd == 0
    ensures ClosedWindow(Do(Begin(s, t), AtA(Write([octet]))))
  {
    hide Pair, Agreed, Congestion.Init, Wire;
    BeginIsSafe(s, t);
    MoveKeeps(Begin(s, t), AtA(Write([octet])));
  }

  /** From the start of a connection whose first window is closed, one octet is enough. */
  lemma StallIsReachable(s: Terms, t: Terms, octet: byte, env: Env)
    requires Agreed(s, t) && s.wnd == 0
    ensures exists moves :: Playable(Begin(s, t), moves) &&
                            Stalled(Reached(Begin(s, t), moves).a, Reached(Begin(s, t), moves).b)
  {
    hide Agreed, Stalled, ClosedWindow, Begin, Do, Playable, Reached;
    FirstOctetWaits(s, t, octet);
    ClosedWindowCanStall(Do(Begin(s, t), AtA(Write([octet]))), env);
    assert Possible(Begin(s, t), AtA(Write([octet])));
    StallsLater(Begin(s, t), AtA(Write([octet])));
  }
}
