/** Both ways a segment overstates the window happen. Two runs from the start of a connection, with
    data both ways, leave a sender believing in an edge its peer never advertised: one delivers a
    segment newer in sequence but older in acknowledgement late, the other delivers it early. */
module StaleWindows {
  import opened Options
  import opened Serial
  import opened Runs
  import opened Rfc6675
  import opened Reassembly
  import opened Congestion
  import opened Endpoint
  import opened Network
  import opened NetworkRuns
  import opened FlowControl
  import opened FlowRuns
  import Connection

  /** Both sides alike: small segments, no SACK, the window scale a 256 KiB buffer needs. */
  const CFG: Config := Config(37, false, 3, 3)
  const TERMS: Terms := Terms(CFG, Reno, 0, 0xFFFF, 0xFFFF)
  const SOON: Env := Env(0, 1_000_000, None, true, false, None)
  const LATE: Env := Env(1_000_000, 1_000_000, None, true, false, None)

  // ── one poll, one buffer ────────────────────────────────────────────────────────────────────

  lemma ScaleThree(x: nat)
    ensures ShiftLeft(x, 3) == 8 * x && ShiftRight(x, 3) == x / 8
  {
    assert ShiftLeft(x, 2) == 2 * ShiftLeft(x, 1) == 4 * ShiftLeft(x, 0);
    assert ShiftRight(x, 2) == ShiftRight(x, 1) / 2 == ShiftRight(x, 0) / 2 / 2;
  }

  /** The header of a side that holds nothing out of order. */
  lemma Built(e: Endpoint, at: int, fin: bool, payload: seq<byte>)
    requires e.cfg == CFG && e.cc.law.Reno? && e.rcv.reasm.chunks == [] && |e.rcv.rx| <= RX_BUFFER
    requires e.rcv.nxt <= e.rcv.adv <= e.rcv.nxt + (RX_BUFFER - |e.rcv.rx|)
    ensures var free := RX_BUFFER - |e.rcv.rx|;
            Build(e, at, fin, payload) ==
            (e.(rcv := e.rcv.(adv := e.rcv.nxt + free, unackedSegs := 0), t := e.t.(delayedAck := None)),
             Segment(at, e.rcv.nxt, false, false, fin, true, free / 8, 0, [], payload))
  {
    ScaleThree(0xFFFF);
    ScaleThree(RX_BUFFER - |e.rcv.rx|);
  }

  /** A poll that sends new data. */
  lemma SendsNew(e: Endpoint, n: nat)
    requires e.state.Established? && e.owedRst.None? && !e.snd.retransmit && !e.cfg.sack
    requires 0 < n == MinN(MinN(MinN(Monus(e.cc.cwnd, Inflight(e.snd)), Monus(e.snd.wnd, Inflight(e.snd))),
                                Unsent(e.snd)), e.cfg.mss)
    ensures Poll(e, SOON) == NewNow(e, n, SOON)
  {
    hide Build;
  }

  // ── the segments of the runs ────────────────────────────────────────────────────────────────

  /** The data of `b`: one full segment and one octet. */
  predicate TwoSegments(data: seq<byte>) { |data| == 38 }

  function Header(at: int, ack: int, window: nat, payload: seq<byte>): Segment {
    Segment(at, ack, false, false, false, true, window, 0, [], payload)
  }

  /** From `b`: the full segment, the octet after it, and the full segment again after a timeout. */
  function First(data: seq<byte>): Packet requires TwoSegments(data) { Packet(Header(0, 0, 32768, data[..37]), 0) }
  function Second(data: seq<byte>): Packet requires TwoSegments(data) { Packet(Header(37, 0, 32768, data[37..38]), 0) }
  function Resent(data: seq<byte>): Packet requires TwoSegments(data) { Packet(Header(0, 1, 32767, data[..37]), 0) }

  /** From `a`: one octet. */
  function FromA(octet: byte): Packet { Packet(Header(0, 0, 32768, [octet]), 0) }

  // ── the states of the runs ──────────────────────────────────────────────────────────────────

  function Side0(): Side { Fresh(TERMS, 0) }

  function Holding(x: Side, data: seq<byte>): Side {
    x.(ep := x.ep.(snd := x.ep.snd.(tx := data)), sent := data)
  }

  function Sent(x: Side, nxt: int, out: set<Packet>): Side {
    x.(ep := x.ep.(snd := x.ep.snd.(nxt := nxt), rcv := x.ep.rcv.(adv := RX_BUFFER),
                   t := x.ep.t.(rtx := Some(1_000_000))), out := out)
  }

  function A1(octet: byte): Side { Holding(Side0(), [octet]) }
  function A2(octet: byte): Side { Sent(A1(octet), 1, {FromA(octet)}) }

  function B1(data: seq<byte>): Side { Holding(Side0(), data) }
  function B2(data: seq<byte>): Side requires TwoSegments(data) { Sent(B1(data), 37, {First(data)}) }
  function B3(data: seq<byte>): Side requires TwoSegments(data) { Sent(B1(data), 38, {First(data), Second(data)}) }

  /** With the octet of `a`. */
  function B4(data: seq<byte>, octet: byte): Side requires TwoSegments(data) {
    var y := B3(data);
    y.(ep := y.ep.(snd := y.ep.snd.(wnd := RX_BUFFER), rcv := y.ep.rcv.(nxt := 1, rx := [octet], unackedSegs := 1),
                   t := y.ep.t.(delayedAck := Some(DELAYED_ACK))))
  }

  /** After the timeout. */
  function B5(data: seq<byte>, octet: byte): Side requires TwoSegments(data) {
    var y := B4(data, octet);
    y.(ep := y.ep.(snd := y.ep.snd.(retransmit := true, gbn := Some(38)), cc := Congestion.OnRto(y.ep.cc, 38),
                   rcv := y.ep.rcv.(needsAck := true),
                   t := y.ep.t.(delayedAck := None, rtx := Some(2_000_000))))
  }

  /** With the first segment sent again. */
  function B6(data: seq<byte>, octet: byte): Side requires TwoSegments(data) {
    var y := B5(data, octet);
    y.(ep := y.ep.(snd := y.ep.snd.(retransmit := false), rcv := y.ep.rcv.(unackedSegs := 0)),
       out := {First(data), Second(data), Resent(data)})
  }

  // ── the steps they share ────────────────────────────────────────────────────────────────────

  lemma Writes(data: seq<byte>)
    requires |data| <= TX_BUFFER
    ensures Act(Side0(), Write(data)) == Holding(Side0(), data)
  {
    hide Congestion.Init;
    assert [] + data[..|data|] == data;
  }

  lemma AXmits(octet: byte)
    ensures Act(A1(octet), Xmit(SOON)) == A2(octet)
  {
    var e := A1(octet).ep;
    hide NewNow, Build, Poll;
    SendsNew(e, 1);
    Built(e, 0, false, [octet]);
    NewIs(e, 1, [octet]);
    assert {} + {FromA(octet)} == {FromA(octet)};
  }

  /** What `NewNow` makes of `Build`. */
  lemma NewIs(e: Endpoint, n: nat, p: seq<byte>)
    requires n <= Unsent(e.snd) && p == e.snd.tx[SentData(e.snd)..SentData(e.snd) + n]
    ensures var (f, g) := Build(e, e.snd.nxt, false, p);
            NewNow(e, n, SOON) == (f.(snd := f.snd.(nxt := f.snd.nxt + n), t := StartRtx(f.t, SOON)), Some(g))
  {
    hide Build;
  }

  lemma BXmits(data: seq<byte>)
    requires TwoSegments(data)
    ensures Act(B1(data), Xmit(SOON)) == B2(data)
  {
    var e := B1(data).ep;
    hide NewNow, Build, Poll;
    SendsNew(e, 37);
    Built(e, 0, false, data[..37]);
    NewIs(e, 37, data[..37]);
    assert {} + {First(data)} == {First(data)};
  }

  lemma BXmitsMore(data: seq<byte>)
    requires TwoSegments(data)
    ensures Act(B2(data), Xmit(SOON)) == B3(data)
  {
    var e := B2(data).ep;
    hide NewNow, Build, Poll;
    SendsNew(e, 1);
    Built(e, 37, false, data[37..38]);
    NewIs(e, 1, data[37..38]);
    assert {First(data)} + {Second(data)} == {First(data), Second(data)};
  }

  lemma BReceives(data: seq<byte>, octet: byte)
    requires TwoSegments(data)
    ensures Act(B3(data), Receive(FromA(octet), SOON)) == B4(data, octet)
  {
    ScaleThree(32768);
    hide ShiftLeft, Congestion.Init;
    var e, g := B3(data).ep, FromA(octet).g;
    assert ProcessAck(e, g, SOON) == (e.(snd := e.snd.(wnd := RX_BUFFER)), true);
    var e1 := e.(snd := e.snd.(wnd := RX_BUFFER));
    assert DetectLoss(e1, g, false, SOON) == e1;
    assert Absorb(e.rcv, g, false) == e.rcv.(nxt := 1, rx := [octet]);
    assert DataStep(e1, g, SOON) == B4(data, octet).ep;
  }

  lemma BTimesOut(data: seq<byte>, octet: byte)
    requires TwoSegments(data)
    ensures Act(B4(data, octet), Timeout(LATE)) == B5(data, octet)
  {
    hide Congestion.Init, Congestion.OnRto;
  }

  lemma BResends(data: seq<byte>, octet: byte)
    requires TwoSegments(data)
    ensures Act(B5(data, octet), Xmit(LATE)) == B6(data, octet)
  {
    hide Congestion.Init, Congestion.OnRto, Build;
    var e := B5(data, octet).ep;
    LawIsReno(data, octet);
    Built(e.(snd := e.snd.(retransmit := false)), 0, false, data[..37]);
    assert {First(data), Second(data)} + {Resent(data)} == {First(data), Second(data), Resent(data)};
  }

  lemma LawIsReno(data: seq<byte>, octet: byte)
    requires TwoSegments(data)
    ensures B5(data, octet).ep.cc.law.Reno?
  {
    hide LossTarget;
  }

  // ── the two ends of the run ─────────────────────────────────────────────────────────────────

  /** What `a` knows of its send window and of what it has received. */
  predicate Knows(e: Endpoint, una: int, wnd: nat, wl1: int, nxt: int) {
    && e.cfg == CFG && e.state.Established? && e.snd.nxt == 1 && e.rcv.adv == RX_BUFFER && e.rcv.nxt == nxt
    && e.snd.una == una && e.snd.wnd == wnd && e.snd.wl1 == Wire(wl1)
  }

  /** The resent segment arrives first: its ACK counts and its smaller window is taken. */
  lemma ResentFirst(data: seq<byte>, octet: byte)
    requires TwoSegments(data)
    ensures Knows(Arrival(A2(octet), Resent(data), SOON).ep, 1, 262136, 0, 37)
  {
    hide ShiftLeft, OnSegment, AckCc;
    var e, g := A2(octet).ep, Resent(data).g;
    ScaleThree(32767);
    SegmentWindow(e, g, SOON);
    SegmentAdv(e, g, SOON);
    Intake(e, g, 37);
  }

  /** The second segment arrives first: the gap is dropped and its window is taken. */
  lemma SecondFirst(data: seq<byte>, octet: byte)
    requires TwoSegments(data)
    ensures Knows(Arrival(A2(octet), Second(data), SOON).ep, 0, RX_BUFFER, 37, 0)
  {
    hide ShiftLeft, OnSegment, AckCc;
    var e, g := A2(octet).ep, Second(data).g;
    ScaleThree(32768);
    SegmentWindow(e, g, SOON);
    SegmentAdv(e, g, SOON);
    Intake(e, g, 0);
  }

  /** The receive half and the rest of the state after a data segment without a FIN. */
  lemma Intake(e: Endpoint, g: Segment, nxt: int)
    requires e.state.Established? && !e.cfg.sack && !e.rcv.peerFin && e.rcv.pendingFin.None?
    requires Acceptable(e.rcv, g) && !g.rst && !g.syn && g.hasAck && g.ack <= e.snd.nxt && !g.fin && g.payload != []
    requires Absorb(e.rcv, g, false).nxt == nxt && Absorb(e.rcv, g, false).peerFin == false
    requires Absorb(e.rcv, g, false).pendingFin.None?
    ensures var f := OnSegment(e, g, SOON);
            f.rcv.nxt == nxt && f.state.Established? && f.cfg == e.cfg && f.snd.nxt == e.snd.nxt
  {
    hide Absorb, DetectLoss, ProcessAck, Acceptable, InOrder, Accepted, TrimLeft, Deliver, Buffered;
    var (e1, ok) := ProcessAck(e, g, SOON);
    AckLeavesReceiver(e, g, SOON);
    AckAnswer(e, g, SOON);
    AckLeavesState(e, g);
    DetectLeaves(e1, g, IsDupAck(e, g));
  }

  lemma AckLeavesState(e: Endpoint, g: Segment)
    ensures ProcessAck(e, g, SOON).0.state == e.state && ProcessAck(e, g, SOON).0.snd.nxt == e.snd.nxt
  {
    hide AckCc, AckBoard, ShiftLeft, Lt, Le, Wire;
  }

  lemma DetectLeaves(e: Endpoint, g: Segment, dup: bool)
    ensures var f := DetectLoss(e, g, dup, SOON);
            f.state == e.state && f.rcv == e.rcv && f.cfg == e.cfg && f.snd.nxt == e.snd.nxt
  {
    Connection.DetectFrame(e, g, dup, SOON);
    hide DetectLoss;
  }

  // ── both cases from the start ───────────────────────────────────────────────────────────────

  /** `p` is on its way to `a`, overstates its window, and leaves it believing in an edge that `b` has
      never advertised; `taken` says whether its window is taken. */
  ghost predicate Misleads(n: Net, p: Packet, taken: bool) {
    && p in n.b.out && Overstates(n.a.ep, p.g) && (TakesWindow(n.a.ep, p.g) <==> taken)
    && forall env :: Belief(Arrival(n.a, p, env).ep.snd) > n.b.ep.rcv.adv
  }

  ghost predicate CanMislead(n: Net, taken: bool) {
    exists moves, p :: Playable(n, moves) && Misleads(Reached(n, moves), p, taken)
  }

  lemma MisleadsNow(n: Net, p: Packet, taken: bool)
    requires Misleads(n, p, taken)
    ensures CanMislead(n, taken)
  {
    assert Playable(n, []) && Reached(n, []) == n;
  }

  lemma MisleadsLater(n: Net, m: Move, n': Net, taken: bool)
    requires Possible(n, m) && Do(n, m) == n' && CanMislead(n', taken)
    ensures CanMislead(n, taken)
  {
    hide Possible, Do, Misleads;
    var rest, p :| Playable(Do(n, m), rest) && Misleads(Reached(Do(n, m), rest), p, taken);
    var moves := [m] + rest;
    assert moves[0] == m && moves[1..] == rest;
    assert Playable(n, moves) && Reached(n, moves) == Reached(Do(n, m), rest);
  }

  /** The last step: the second segment is late, its ACK old. */
  lemma LateMisleads(x: Side, y: Side, data: seq<byte>)
    requires TwoSegments(data) && Knows(x.ep, 1, 262136, 0, 37) && Second(data) in y.out && y.ep.rcv.adv == RX_BUFFER
    ensures Misleads(Net(x, y), Second(data), true)
  {
    hide OnSegment, ShiftLeft;
    var g := Second(data).g;
    ScaleThree(32768);
    forall env ensures Belief(Arrival(x, Second(data), env).ep.snd) > y.ep.rcv.adv { SegmentWindow(x.ep, g, env); }
  }

  /** The last step: the resent segment's ACK is new, its smaller window is not taken. */
  lemma EarlyMisleads(x: Side, y: Side, data: seq<byte>)
    requires TwoSegments(data) && Knows(x.ep, 0, RX_BUFFER, 37, 0) && Resent(data) in y.out && y.ep.rcv.adv == RX_BUFFER
    ensures Misleads(Net(x, y), Resent(data), false)
  {
    hide OnSegment, ShiftLeft;
    var g := Resent(data).g;
    ScaleThree(32767);
    forall env ensures Belief(Arrival(x, Resent(data), env).ep.snd) > y.ep.rcv.adv { SegmentWindow(x.ep, g, env); }
  }

  lemma EitherOrder(data: seq<byte>, octet: byte, taken: bool)
    requires TwoSegments(data)
    ensures CanMislead(Net(A2(octet), B6(data, octet)), taken)
  {
    hide Arrival, CanMislead, Misleads, Knows;
    var x, y := A2(octet), B6(data, octet);
    var p := if taken then Resent(data) else Second(data);
    var x' := Arrival(x, p, SOON);
    assert y.ep.rcv.adv == RX_BUFFER && Resent(data) in y.out && Second(data) in y.out;
    if taken {
      ResentFirst(data, octet);
      LateMisleads(x', y, data);
      MisleadsNow(Net(x', y), Second(data), true);
    } else {
      SecondFirst(data, octet);
      EarlyMisleads(x', y, data);
      MisleadsNow(Net(x', y), Resent(data), false);
    }
    hide A2, B6;
    MisleadsLater(Net(x, y), AtA(Receive(p, SOON)), Net(x', y), taken);
  }

  /** The second half of the run: `a`'s octet arrives, `b` times out and sends its first segment again. */
  lemma AfterExchange(data: seq<byte>, octet: byte, taken: bool)
    requires TwoSegments(data)
    ensures CanMislead(Net(A2(octet), B3(data)), taken)
  {
    hide B3, B4, B5, B6, Act, CanMislead;
    EitherOrder(data, octet, taken);
    BResends(data, octet);
    BTimesOut(data, octet);
    BReceives(data, octet);
    var x := A2(octet);
    assert FromA(octet) in x.out;
    hide A2;
    MisleadsLater(Net(x, B5(data, octet)), AtB(Xmit(LATE)), Net(x, B6(data, octet)), taken);
    MisleadsLater(Net(x, B4(data, octet)), AtB(Timeout(LATE)), Net(x, B5(data, octet)), taken);
    MisleadsLater(Net(x, B3(data)), AtB(Receive(FromA(octet), SOON)), Net(x, B4(data, octet)), taken);
  }

  lemma BeforeExchange(data: seq<byte>, octet: byte, taken: bool)
    requires TwoSegments(data)
    ensures CanMislead(Net(Side0(), Side0()), taken)
  {
    hide A1, A2, B1, B2, B3, Act, CanMislead, Side0;
    AfterExchange(data, octet, taken);
    AWrites(data, octet);
    AXmits(octet);
    BXmitsMore(data);
    BXmits(data);
    var x := Side0();
    MisleadsLater(Net(A1(octet), B3(data)), AtA(Xmit(SOON)), Net(A2(octet), B3(data)), taken);
    MisleadsLater(Net(x, B3(data)), AtA(Write([octet])), Net(A1(octet), B3(data)), taken);
    MisleadsLater(Net(x, B2(data)), AtB(Xmit(SOON)), Net(x, B3(data)), taken);
    MisleadsLater(Net(x, B1(data)), AtB(Xmit(SOON)), Net(x, B2(data)), taken);
    MisleadsLater(Net(x, x), AtB(Write(data)), Net(x, B1(data)), taken);
  }

  lemma AWrites(data: seq<byte>, octet: byte)
    requires TwoSegments(data)
    ensures Act(Side0(), Write([octet])) == A1(octet) && Act(Side0(), Write(data)) == B1(data)
  {
    hide Holding, Act, Side0;
    Writes([octet]);
    Writes(data);
  }

  /** Two sides that agree on everything, whose windows end inside the advertised edges, and a run from
      their start, of either kind, that ends with `a` misled. */
  lemma BothCasesHappen(taken: bool)
    ensures exists s, t :: Agreed(s, t) && Granting(s, t) && CanMislead(Begin(s, t), taken)
  {
    hide CanMislead;
    BeforeExchange(seq(38, _ => 0), 0, taken);
    assert Agreed(TERMS, TERMS) && Granting(TERMS, TERMS) && Begin(TERMS, TERMS) == Net(Side0(), Side0());
  }
}
