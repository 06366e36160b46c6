/** Two endpoints and a network that may lose, duplicate and reorder. What each side has ever sent
    stays in a set; a delivery picks any member, any number of times, so the model allows every
    loss, duplication and reordering. Ghost counters follow congestion marks. */
module Network {
  import opened Options
  import opened Serial
  import opened Runs
  import opened Rfc6675
  import opened Reassembly
  import opened Congestion
  import opened Endpoint
  import opened ReceiveSide
  import opened Connection
  import opened Sending
  import opened ConnectionRuns

  /** A segment in flight, with the number of CE marks its sender had accepted when it left. */
  datatype Packet = Packet(g: Segment, cep: nat)

  /** One side: the connection; where its own stream starts and every byte `send` accepted; every
      byte the application has read; everything ever put on the wire; the CE-marked segments
      accepted; and, as a data sender, the marks decoded from ACKs, the count carried by the latest
      advancing ACK, and whether fewer than eight marks ever separated two of those. */
  datatype Side = Side(ep: Endpoint, base: int, sent: seq<byte>, read: seq<byte>, out: set<Packet>,
                       marks: nat, decoded: nat, lastCep: nat, exact: bool)

  datatype Net = Net(a: Side, b: Side)

  datatype Action = Write(data: seq<byte>) | Read(room: nat) | Shut | Timeout(env: Env) | Xmit(env: Env)
                  | Receive(p: Packet, env: Env) | Forged(g: Segment, env: Env)

  /** A delivered packet was sent by the other side; a forged one is a RST or a SYN. */
  predicate Enabled(y: Side, act: Action) {
    match act
    case Receive(p, _) => p in y.out
    case Forged(g, _) => g.rst || g.syn
    case _ => true
  }

  function Emit(x: Side, env: Env): Side {
    var (f, g) := Poll(x.ep, env);
    x.(ep := f, out := if g.Some? then x.out + {Packet(g.value, x.marks)} else x.out)
  }

  function Arrival(x: Side, p: Packet, env: Env): Side {
    var f := OnSegment(x.ep, p.g, env);
    var advanced := f.snd.una > x.ep.snd.una && EcnEnabled(x.ep);
    x.(ep := f,
       marks := if f.rcv.cep != x.ep.rcv.cep then x.marks + 1 else x.marks,
       decoded := if advanced then x.decoded + (p.g.ace - x.ep.snd.aceSeen) % 8 else x.decoded,
       lastCep := if advanced then p.cep else x.lastCep,
       exact := x.exact && (advanced ==> p.cep < x.lastCep + 8))
  }

  function Act(x: Side, act: Action): Side {
    match act
    case Write(data) => var (f, n) := Send(x.ep, data); x.(ep := f, sent := x.sent + data[..MinN(n, |data|)])
    case Read(room) => var (f, got) := Recv(x.ep, room); x.(ep := f, read := x.read + got)
    case Shut => x.(ep := Close(x.ep))
    case Timeout(env) => x.(ep := OnTimer(x.ep, env))
    case Xmit(env) => Emit(x, env)
    case Receive(p, env) => Arrival(x, p, env)
    case Forged(g, env) => x.(ep := OnSegment(x.ep, g, env))
  }

  // ── the invariant ───────────────────────────────────────────────────────────────────────────

  /** The send ring is exactly the stream from SND.UNA on, and the FIN sits at its end. */
  ghost predicate SenderOk(x: Side) {
    var s := x.ep.snd;
    && Consistent(x.ep) && x.ep.owedRst.None? && x.base <= s.una
    && (!s.finAcked ==> s.una <= x.base + |x.sent| && s.tx == From(x.sent, s.una - x.base))
    && (s.finAcked ==> s.una == x.base + |x.sent| + 1)
  }

  predicate FinSent(x: Side, at: int) { x.ep.snd.finSeq == Some(at) && at == x.base + |x.sent| }

  /** A packet carries the sender's stream, its FIN only at the end of it, an ACK no higher than
      what the sender has received, and SACK blocks of octets it holds. */
  ghost predicate PacketOk(x: Side, p: Packet) {
    && !p.g.rst && !p.g.syn && p.g.hasAck
    && (p.g.payload != [] ==> Carries(p.g, x.sent, x.base))
    && (p.g.fin ==> FinSent(x, p.g.seqNo + |p.g.payload|))
    && p.g.ack <= x.ep.rcv.nxt
    && (forall z :: InSome(p.g.blocks, z) ==> Held(x.ep.rcv, z))
  }

  predicate InSome(blocks: seq<Run>, z: int) {
    blocks != [] && (blocks[0].l <= z < blocks[0].r || InSome(blocks[1..], z))
  }

  ghost predicate Outgoing(x: Side) { forall p :: p in x.out ==> PacketOk(x, p) }

  /** From `x` to `y`: no byte is freed before `y` has it, `y` has exactly a prefix of the stream,
      its FIN belief is true, and every octet `x` believes SACKed is held by `y`. */
  ghost predicate Link(x: Side, y: Side) {
    && x.ep.snd.una <= y.ep.rcv.nxt
    && Follows(y.ep.rcv, y.read, x.sent, x.base)
    && (y.ep.rcv.peerFin ==> FinSent(x, y.ep.rcv.nxt - 1))
    && (y.ep.rcv.pendingFin.Some? ==> FinSent(x, y.ep.rcv.pendingFin.value))
    && (forall z :: Covered(x.ep.snd.board.sacked, z) ==> Held(y.ep.rcv, z))
  }

  // ── what a segment does to each half ────────────────────────────────────────────────────────

  /** Equal in what the receive half holds; flags and counters may differ. */
  predicate SameData(r: Receiver, s: Receiver) {
    r.nxt == s.nxt && r.rx == s.rx && r.reasm == s.reasm && r.peerFin == s.peerFin && r.pendingFin == s.pendingFin
  }

  function Taken(e: Endpoint, g: Segment): Receiver {
    FinFromPending(FinArrives(if g.payload == [] then e.rcv else Absorb(e.rcv, g, e.cfg.sack), g))
  }

  lemma DataStepData(e: Endpoint, g: Segment, env: Env)
    ensures SameData(DataStep(e, g, env).rcv, if g.payload == [] then e.rcv else Absorb(e.rcv, g, e.cfg.sack))
    ensures DataStep(e, g, env).snd == e.snd && DataStep(e, g, env).cfg == e.cfg
  {
    hide Absorb, InOrder, Accepted, TrimLeft, Deliver, Buffered;
  }

  lemma FinSameData(r: Receiver, s: Receiver, g: Segment)
    requires SameData(r, s)
    ensures SameData(FinFromPending(FinArrives(r, g)), FinFromPending(FinArrives(s, g)))
  {}

  /** The receive half after a segment: as before, or with the segment taken in. */
  lemma SegmentReceives(e: Endpoint, g: Segment, env: Env)
    requires Consistent(e)
    ensures SameData(OnSegment(e, g, env).rcv, e.rcv) ||
            (Acceptable(e.rcv, g) && !g.rst && !g.syn && g.hasAck && SameData(OnSegment(e, g, env).rcv, Taken(e, g)))
  {
    if !g.rst && !e.state.TimeWait? && !g.syn && Acceptable(e.rcv, g) && g.hasAck {
      var (e1, ok) := ProcessAck(e, g, env);
      AckLeavesReceiver(e, g, env);
      hide ProcessAck, DetectLoss, DataStep, FinArrives, FinFromPending, Absorb, Consistent, SameData;
      if ok {
        var e2 := DetectLoss(e1, g, IsDupAck(e, g), env);
        DetectFrame(e1, g, IsDupAck(e, g), env);
        DataStepData(e2, g, env);
        FinSameData(DataStep(e2, g, env).rcv, if g.payload == [] then e.rcv else Absorb(e.rcv, g, e.cfg.sack), g);
        assert OnSegment(e, g, env).rcv == FinFromPending(FinArrives(DataStep(e2, g, env).rcv, g));
      } else {
        NotOkKeeps(e, g, env);
        assert OnSegment(e, g, env).rcv == e.rcv.(needsAck := true);
        assert SameData(e.rcv.(needsAck := true), e.rcv) by { FlagSame(e.rcv); }
      }
    }
  }

  lemma FlagSame(r: Receiver)
    ensures SameData(r.(needsAck := true), r)
  {}

  lemma AckLeavesReceiver(e: Endpoint, g: Segment, env: Env)
    ensures ProcessAck(e, g, env).1 ==> ProcessAck(e, g, env).0.rcv == e.rcv && ProcessAck(e, g, env).0.cfg == e.cfg
  {
    hide AckCc, AckBoard, ShiftLeft, Lt, Le;
  }

  /** The send half after a segment: SND.UNA stays, or moves to an ACK inside the outstanding
      window and the ring loses exactly what it covers; SACKed octets come from the blocks. */
  ghost predicate Acked(s: Sender, t: Sender, g: Segment) {
    && t.finSeq == s.finSeq && t.finQueued == s.finQueued && t.nxt == s.nxt
    && (t.una == s.una ==> t.tx == s.tx && t.finAcked == s.finAcked)
    && (t.una != s.una ==>
          && s.una < t.una == g.ack <= s.nxt && t.tx == s.tx[MinN(g.ack - s.una, |s.tx|)..]
          && t.finAcked == (s.finAcked || (s.finSeq.Some? && g.ack > s.finSeq.value)))
    && (forall z :: Covered(t.board.sacked, z) ==> Covered(s.board.sacked, z) || InSome(g.blocks, z))
  }

  lemma {:induction false} InBlocksInSome(blocks: seq<Run>, una: int, nxt: int, z: int)
    ensures InBlocks(blocks, una, nxt, z) ==> InSome(blocks, z)
  {
    if blocks != [] { InBlocksInSome(blocks[1..], una, nxt, z); }
  }

  lemma DetectBlocks(e: Endpoint, g: Segment, dup: bool, env: Env)
    requires Core(e)
    ensures forall z :: Covered(DetectLoss(e, g, dup, env).snd.board.sacked, z) ==>
              Covered(e.snd.board.sacked, z) || InSome(g.blocks, z)
  {
    SendWindow(e.snd, e.cfg.sack);
    UpdateExact(e.snd.board, e.snd.una, e.snd.nxt, g.blocks, e.snd.una, e.snd.nxt);
    forall z { InBlocksInSome(g.blocks, e.snd.una, e.snd.nxt, z); }
    DetectSacked(e, g, dup, env);
    hide DetectLoss, Update, Core;
  }

  lemma DetectSacked(e: Endpoint, g: Segment, dup: bool, env: Env)
    ensures DetectLoss(e, g, dup, env).snd.board.sacked == e.snd.board.sacked ||
            DetectLoss(e, g, dup, env).snd.board.sacked == Update(e.snd.board, e.snd.una, e.snd.nxt, g.blocks).sacked
  {
    hide CountDup, EnterRecovery, IsLost, Inflight, Update, RestartRtx;
    if e.cfg.sack { assert DetectLoss(e, g, dup, env) == DetectSack(e, g, dup, env); }
  }

  lemma AdvanceAcks(e: Endpoint, g: Segment, env: Env)
    requires Consistent(e) && e.snd.una < g.ack <= e.snd.nxt
    ensures Acked(e.snd, Advance(e, g, env).snd, g)
    ensures forall z :: Covered(Advance(e, g, env).snd.board.sacked, z) ==> Covered(e.snd.board.sacked, z)
  {
    BoardOf(e);
    TrimExact(e.snd.board.sacked, g.ack);
    hide AckCc, Consistent, Covered, Trim, InSome;
  }

  lemma WindowLeavesSpace(e: Endpoint, g: Segment)
    ensures var t := UpdateWindow(e, g).snd;
            t == e.snd.(wnd := t.wnd, wl1 := t.wl1, wl2 := t.wl2, sendProbe := t.sendProbe)
  {
    hide ShiftLeft, Lt, Le;
  }

  lemma ProcessAcks(e: Endpoint, g: Segment, env: Env)
    requires Consistent(e)
    ensures Acked(e.snd, ProcessAck(e, g, env).0.snd, g)
    ensures forall z :: Covered(ProcessAck(e, g, env).0.snd.board.sacked, z) ==> Covered(e.snd.board.sacked, z)
  {
    hide Advance, UpdateWindow, Consistent, Covered, InSome;
    if e.snd.una < g.ack <= e.snd.nxt {
      AdvanceAcks(e, g, env);
      WindowLeavesSpace(Advance(e, g, env), g);
    }
    WindowLeavesSpace(e, g);
  }

  lemma SegmentAcks(e: Endpoint, g: Segment, env: Env)
    requires Consistent(e)
    ensures Acked(e.snd, OnSegment(e, g, env).snd, g)
  {
    if !g.rst && !e.state.TimeWait? && !g.syn && Acceptable(e.rcv, g) && g.hasAck {
      ProcessAcks(e, g, env);
      ProcessAckKeeps(e, g, env);
      TailSender(e, g, env);
      var (e1, ok) := ProcessAck(e, g, env);
      hide ProcessAck, DetectLoss, Process, Consistent, Core, Covered, InSome;
      if ok {
        DetectBlocks(e1, g, IsDupAck(e, g), env);
        DetectFrame(e1, g, IsDupAck(e, g), env);
      }
      assert OnSegment(e, g, env) == Process(e, g, env);
    }
  }

  lemma TailSender(e: Endpoint, g: Segment, env: Env)
    ensures var (e1, ok) := ProcessAck(e, g, env);
            Process(e, g, env).snd == if ok then DetectLoss(e1, g, IsDupAck(e, g), env).snd else e1.snd
  {
    hide ProcessAck, DetectLoss, Absorb, InOrder, Accepted, TrimLeft, Deliver, FinArrives, FinFromPending;
  }

  // ── a side's own step keeps its own half ────────────────────────────────────────────────────

  /** Receiving moves the receive half forward and lets go of nothing. */
  lemma TakenHolds(e: Endpoint, g: Segment, z: int)
    requires Consistent(e) && Held(e.rcv, z)
    ensures Held(Taken(e, g), z)
  {
    ConsistentFacts(e);
    AbsorbHolds(e.rcv, g, e.cfg.sack, z);
    AbsorbKeepsPool(e.rcv, g, e.cfg.sack);
    FinKeepsPool(e.rcv, g, e.cfg.sack);
    FinKeepsPool(Absorb(e.rcv, g, e.cfg.sack), g, e.cfg.sack);
    hide Absorb, FinArrives, FinFromPending, ByteAt, PoolInv, Consistent;
  }

  lemma SegmentHolds(e: Endpoint, g: Segment, env: Env, z: int)
    requires Consistent(e) && Held(e.rcv, z)
    ensures Held(OnSegment(e, g, env).rcv, z)
  {
    SegmentReceives(e, g, env);
    TakenHolds(e, g, z);
    hide OnSegment, Taken, Consistent, ByteAt;
  }

  /** Taking in a true segment of the stream keeps the prefix. */
  lemma TakenFollows(x: Side, y: Side, g: Segment)
    requires Consistent(y.ep) && Follows(y.ep.rcv, y.read, x.sent, x.base)
    requires y.ep.rcv.peerFin ==> FinSent(x, y.ep.rcv.nxt - 1)
    requires y.ep.rcv.pendingFin.Some? ==> FinSent(x, y.ep.rcv.pendingFin.value)
    requires (g.payload != [] ==> Carries(g, x.sent, x.base)) && (g.fin ==> FinSent(x, g.seqNo + |g.payload|))
    ensures var r := Taken(y.ep, g);
            && Follows(r, y.read, x.sent, x.base) && (r.peerFin ==> FinSent(x, r.nxt - 1))
            && (r.pendingFin.Some? ==> FinSent(x, r.pendingFin.value))
  {
    hide Absorb, PoolInv, Consistent, ByteAt, FinSent, Carries, Follows, FinArrives, FinFromPending;
    ConsistentFacts(y.ep);
    var r0 := y.ep.rcv;
    var r1 := if g.payload == [] then r0 else Absorb(r0, g, y.ep.cfg.sack);
    if g.payload != [] { AbsorbedFollows(x, r0, g, y.ep.cfg.sack, y.read); }
    FinFollows(r1, g, x, y.read);
  }

  lemma AbsorbedFollows(x: Side, r: Receiver, g: Segment, sack: bool, read: seq<byte>)
    requires PoolInv(r, sack) && Follows(r, read, x.sent, x.base) && Carries(g, x.sent, x.base)
    requires r.peerFin ==> FinSent(x, r.nxt - 1)
    requires r.pendingFin.Some? ==> FinSent(x, r.pendingFin.value)
    ensures var d := Absorb(r, g, sack);
            && Follows(d, read, x.sent, x.base) && (d.peerFin ==> FinSent(x, d.nxt - 1))
            && (d.pendingFin.Some? ==> FinSent(x, d.pendingFin.value))
  {
    AbsorbFollows(r, g, sack, read, x.sent, x.base);
    AbsorbKeepsPool(r, g, sack);
    hide Absorb, PoolInv, Carries, ByteAt;
    if r.peerFin { FinishedStays(Absorb(r, g, sack), read, x.sent, x.base); }
  }

  lemma FinishedStays(r: Receiver, read: seq<byte>, stream: seq<byte>, base: int)
    requires Follows(r, read, stream, base) && r.peerFin
    ensures r.nxt - 1 <= base + |stream|
  {}

  lemma FinFollows(r: Receiver, g: Segment, x: Side, read: seq<byte>)
    requires Follows(r, read, x.sent, x.base)
    requires r.peerFin ==> FinSent(x, r.nxt - 1)
    requires r.pendingFin.Some? ==> FinSent(x, r.pendingFin.value)
    requires g.fin ==> FinSent(x, g.seqNo + |g.payload|)
    ensures var s := FinFromPending(FinArrives(r, g));
            && Follows(s, read, x.sent, x.base) && (s.peerFin ==> FinSent(x, s.nxt - 1))
            && (s.pendingFin.Some? ==> FinSent(x, s.pendingFin.value))
  {
    hide ByteAt;
  }

  // ── one action of one side ──────────────────────────────────────────────────────────────────

  /** What a side's own action never undoes for the other: the stream and the FIN stay, the receive
      edge moves right, and held octets stay held. */
  ghost predicate Grows(x: Side, x': Side) {
    && x'.base == x.base && x.sent <= x'.sent && x.out <= x'.out
    && (forall at :: FinSent(x, at) ==> FinSent(x', at))
    && x.ep.rcv.nxt <= x'.ep.rcv.nxt && x.ep.snd.una <= x'.ep.snd.una
    && (forall z :: Held(x.ep.rcv, z) ==> Held(x'.ep.rcv, z))
  }

  lemma CarriesGrows(g: Segment, stream: seq<byte>, more: seq<byte>, base: int)
    requires Carries(g, stream, base) && stream <= more
    ensures Carries(g, more, base)
  {}

  /** Packets already out stay true as the side grows. */
  lemma OutgoingGrows(x: Side, x': Side, p: Packet)
    requires Grows(x, x') && PacketOk(x, p)
    ensures PacketOk(x', p)
  {
    if p.g.payload != [] { CarriesGrows(p.g, x.sent, x'.sent, x.base); }
    hide Held, FinSent, Carries, InSome;
  }

  /** The peer's view of this side as its data source stays true as the side grows. */
  lemma FollowsGrows(r: Receiver, read: seq<byte>, stream: seq<byte>, more: seq<byte>, base: int)
    requires Follows(r, read, stream, base) && stream <= more
    ensures Follows(r, read, more, base)
  {
    hide ByteAt;
  }

  /** `x` acted as a data source: what `y` believes of it still holds. */
  lemma LinkFromGrown(x: Side, x': Side, y: Side)
    requires Link(x, y) && Grows(x, x') && x'.ep.snd.una <= y.ep.rcv.nxt
    requires forall z :: Covered(x'.ep.snd.board.sacked, z) ==> Covered(x.ep.snd.board.sacked, z) || Held(y.ep.rcv, z)
    ensures Link(x', y)
  {
    FollowsGrows(y.ep.rcv, y.read, x.sent, x'.sent, x.base);
    hide Follows, Covered, ByteAt;
  }

  /** `y` acted as a receiver: what it holds of `x`'s stream still is that. */
  lemma LinkToGrown(x: Side, y: Side, y': Side)
    requires Link(x, y) && Grows(y, y')
    requires Follows(y'.ep.rcv, y'.read, x.sent, x.base)
    requires y'.ep.rcv.peerFin ==> FinSent(x, y'.ep.rcv.nxt - 1)
    requires y'.ep.rcv.pendingFin.Some? ==> FinSent(x, y'.ep.rcv.pendingFin.value)
    ensures Link(x, y')
  {
    hide Follows, Covered, Held, FinSent;
  }

  // ── every action keeps the invariant ────────────────────────────────────────────────────────

  /** Two sides that may go on talking: what `Safe` says of a pair. */
  ghost predicate Pair(x: Side, y: Side) {
    SenderOk(x) && SenderOk(y) && Outgoing(x) && Outgoing(y) && Link(x, y) && Link(y, x)
  }

  lemma PairParts(x: Side, y: Side)
    requires Pair(x, y)
    ensures SenderOk(x) && SenderOk(y) && Outgoing(x) && Outgoing(y) && Link(x, y) && Link(y, x)
    ensures Consistent(x.ep)
  {}

  lemma SameDataSame(x: Side, y: Side, y': Side)
    requires Link(x, y) && SameData(y'.ep.rcv, y.ep.rcv) && y'.read == y.read
    ensures Link(x, y') && (forall z :: Held(y.ep.rcv, z) <==> Held(y'.ep.rcv, z))
  {
    hide ByteAt, Covered, FinSent;
  }

  /** An action that sends nothing and takes nothing in. */
  lemma QuietStep(x: Side, x': Side, y: Side)
    requires Pair(x, y) && SenderOk(x') && x' == x.(ep := x'.ep, sent := x'.sent)
    requires SameData(x'.ep.rcv, x.ep.rcv) && x.sent <= x'.sent
    requires forall at :: FinSent(x, at) ==> FinSent(x', at)
    requires x'.ep.snd.una == x.ep.snd.una && x'.ep.snd.board.sacked == x.ep.snd.board.sacked
    ensures Pair(x', y)
  {
    SameDataSame(y, x, x');
    hide Follows, Held, FinSent, Covered, PacketOk, SenderOk;
    OutgoingStays(x, x');
    LinkFromGrown(x, x', y);
  }

  lemma OutgoingStays(x: Side, x': Side)
    requires Outgoing(x) && Grows(x, x') && x'.out == x.out
    ensures Outgoing(x')
  {
    hide Grows, PacketOk;
    forall p | p in x'.out ensures PacketOk(x', p) { OutgoingGrows(x, x', p); }
  }

  lemma WriteKeeps(x: Side, y: Side, data: seq<byte>)
    requires Pair(x, y)
    ensures Pair(Act(x, Write(data)), y)
  {
    PairParts(x, y);
    SendKeeps(x.ep, data);
    var x' := Act(x, Write(data));
    WriteSender(x, data);
    hide Pair, SenderOk, Consistent, Send;
    SendLeaves(x.ep, data);
    QuietStep(x, x', y);
  }

  lemma SendLeaves(e: Endpoint, data: seq<byte>)
    ensures var f := Send(e, data).0; f == e.(snd := e.snd.(tx := f.snd.tx)) && SameData(f.rcv, e.rcv)
  {}

  lemma WriteSender(x: Side, data: seq<byte>)
    requires SenderOk(x) && Consistent(Send(x.ep, data).0)
    ensures SenderOk(Act(x, Write(data)))
    ensures forall at :: FinSent(x, at) ==> FinSent(Act(x, Write(data)), at)
    ensures x.sent <= Act(x, Write(data)).sent
  {
    ConsistentFacts(x.ep);
    hide PoolInv, CcInv, Consistent, Rfc6675.Valid;
  }

  lemma ReadKeeps(x: Side, y: Side, room: nat)
    requires Pair(x, y)
    ensures Pair(Act(x, Read(room)), y)
  {
    PairParts(x, y);
    RecvKeeps(x.ep, room);
    var x' := Act(x, Read(room));
    ReadSender(x, room);
    ReadLink(y, x, room);
    ReadGrows(x, room);
    hide Consistent, Pair, Act, Link, Grows, Outgoing, SenderOk;
    ReadRest(x, x', y, room);
  }

  lemma ReadSender(x: Side, room: nat)
    requires SenderOk(x) && Consistent(Recv(x.ep, room).0)
    ensures SenderOk(Act(x, Read(room)))
  {
    hide Consistent;
  }

  lemma ReadLink(y: Side, x: Side, room: nat)
    requires Link(y, x)
    ensures Link(y, Act(x, Read(room)))
  {
    hide ByteAt, Covered, FinSent;
    var n := MinN(room, |x.ep.rcv.rx|);
    assert (x.read + x.ep.rcv.rx[..n]) + x.ep.rcv.rx[n..] == x.read + x.ep.rcv.rx;
  }

  lemma ReadGrows(x: Side, room: nat)
    ensures Grows(x, Act(x, Read(room))) && Act(x, Read(room)).out == x.out
    ensures Act(x, Read(room)).ep.snd == x.ep.snd
  {
    hide ByteAt;
  }

  lemma ReadRest(x: Side, x': Side, y: Side, room: nat)
    requires Pair(x, y) && Grows(x, x') && x'.out == x.out && x'.ep.snd == x.ep.snd && SenderOk(x') && Link(y, x')
    ensures Pair(x', y)
  {
    PairParts(x, y);
    hide Grows, SenderOk, PacketOk;
    OutgoingStays(x, x');
    UnaBelow(x, y);
    hide Link, Outgoing;
    LinkFromGrown(x, x', y);
  }

  lemma UnaBelow(x: Side, y: Side)
    requires Link(x, y)
    ensures x.ep.snd.una <= y.ep.rcv.nxt
  {}

  lemma ShutKeeps(x: Side, y: Side)
    requires Pair(x, y)
    ensures Pair(Act(x, Shut), y)
  {
    PairParts(x, y);
    CloseKeeps(x.ep);
    var x' := Act(x, Shut);
    hide Consistent, Pair;
    QuietStep(x, x', y);
  }

  lemma TimeoutKeeps(x: Side, y: Side, env: Env)
    requires Pair(x, y)
    ensures Pair(Act(x, Timeout(env)), y)
  {
    PairParts(x, y);
    OnTimerKeeps(x.ep, env);
    TimerLeaves(x.ep, env);
    var x' := Act(x, Timeout(env));
    hide Consistent, Pair, OnTimer, Link, Outgoing;
    TimeoutSender(x, x');
    QuietStep(x, x', y);
  }

  lemma TimeoutSender(x: Side, x': Side)
    requires SenderOk(x) && x' == x.(ep := x'.ep) && Consistent(x'.ep) && x'.ep.owedRst == x.ep.owedRst
    requires x'.ep.snd.una == x.ep.snd.una && x'.ep.snd.tx == x.ep.snd.tx
    requires x'.ep.snd.finSeq == x.ep.snd.finSeq && x'.ep.snd.finAcked == x.ep.snd.finAcked
    ensures SenderOk(x') && forall at :: FinSent(x, at) ==> FinSent(x', at)
  {
    hide Consistent;
  }

  /** What a timer leaves alone. */
  predicate TimerFrame(e: Endpoint, f: Endpoint) {
    && f.owedRst == e.owedRst && SameData(f.rcv, e.rcv) && f.cfg == e.cfg && f.rcv.cep == e.rcv.cep
    && f.cc.law == e.cc.law
    && f.snd == e.snd.(board := f.snd.board, retransmit := f.snd.retransmit, gbn := f.snd.gbn,
                       sendProbe := f.snd.sendProbe)
    && f.snd.board.sacked == e.snd.board.sacked
  }

  lemma RtxFrame(e: Endpoint, env: Env)
    ensures TimerFrame(e, RtxTimer(e, env))
  {
    EnterLaw(e.cc, Inflight(e.snd));
    hide Congestion.OnRto;
  }

  lemma LateFrame(e0: Endpoint, e: Endpoint, env: Env)
    requires TimerFrame(e0, e)
    ensures var e1 := PersistTimer(e, env);
            var e2 := if Due(e1.t.timeWait, env.now) then e1.(state := Closed) else e1;
            TimerFrame(e0, if Due(e2.t.delayedAck, env.now) then
                             e2.(rcv := e2.rcv.(needsAck := true), t := e2.t.(delayedAck := None)) else e2)
  {}

  lemma TimerLeaves(e: Endpoint, env: Env)
    ensures TimerFrame(e, OnTimer(e, env))
  {
    hide TimerFrame, RtxTimer, PersistTimer;
    RtxFrame(e, env);
    LateFrame(e, RtxTimer(e, env), env);
  }

  /** Transmission: one packet more, about the state it leaves behind. */
  lemma XmitKeeps(x: Side, y: Side, env: Env)
    requires Pair(x, y)
    ensures Pair(Emit(x, env), y)
  {
    PairParts(x, y);
    PollOk(x.ep, env);
    OwesNoRst(x);
    var (f, g) := Poll(x.ep, env);
    var x' := Emit(x, env);
    hide Consistent, Pair, Poll, Link, Outgoing, Emits, SenderOk;
    if g.Some? {
      var k :| Emits(k, x.ep, f, g.value);
      SentSender(x, x', k, g.value);
      SentPacket(x, x', k, g.value);
      SentStep(x, x', y, Packet(g.value, x.marks));
    } else {
      AlikeSender(x, x');
      QuietStep(x, x', y);
    }
  }

  lemma OwesNoRst(x: Side)
    requires SenderOk(x)
    ensures x.ep.owedRst.None?
  {}

  lemma AlikeSender(x: Side, x': Side)
    requires SenderOk(x) && Alike(x.ep, x'.ep) && Consistent(x'.ep) && x' == x.(ep := x'.ep)
    ensures SenderOk(x') && SameData(x'.ep.rcv, x.ep.rcv) && x'.ep.snd.una == x.ep.snd.una
    ensures x'.ep.snd.board == x.ep.snd.board && forall at :: FinSent(x, at) ==> FinSent(x', at)
  {
    hide Consistent;
  }

  /** Sending leaves what is held, and the stream, in place. */
  lemma SentSender(x: Side, x': Side, k: Kind, g: Segment)
    requires SenderOk(x) && Consistent(x'.ep) && Emits(k, x.ep, x'.ep, g)
    requires x'.base == x.base && x'.sent == x.sent
    ensures SenderOk(x') && SameData(x'.ep.rcv, x.ep.rcv) && x'.ep.snd.una == x.ep.snd.una
    ensures x'.ep.snd.board.sacked == x.ep.snd.board.sacked && forall at :: FinSent(x, at) ==> FinSent(x', at)
  {
    EmitsFrame(k, x.ep, x'.ep, g);
    hide Consistent, Emits;
  }

  lemma EmitsFrame(k: Kind, e: Endpoint, f: Endpoint, g: Segment)
    requires Emits(k, e, f, g)
    ensures SendFrame(e, f) && SameData(f.rcv, e.rcv)
    ensures f.snd.finSeq == e.snd.finSeq
            || (e.snd.finSeq.None? && f.snd.finSeq == Some(g.seqNo) && g.seqNo == DataEnd(e.snd))
  {
    hide Advertise, ShiftRight, Report, RingBytes;
  }

  lemma SentPacket(x: Side, x': Side, k: Kind, g: Segment)
    requires SenderOk(x) && Emits(k, x.ep, x'.ep, g)
    requires x'.base == x.base && x'.sent == x.sent
    ensures PacketOk(x', Packet(g, x.marks))
  {
    StampHonest(x.ep, x'.ep, g);
    SentStream(x, x', k, g);
    hide Stamp, Emits, SenderOk, Held, InSome;
  }

  lemma StampHonest(e: Endpoint, f: Endpoint, g: Segment)
    requires Stamp(e, f, g)
    ensures !g.rst && !g.syn && g.hasAck && g.ack == f.rcv.nxt
    ensures forall z :: InSome(g.blocks, z) ==> Held(f.rcv, z)
  {
    forall z { ReportHolds(e.rcv.reasm.chunks, MAX_SACK_BLOCKS, z); }
    hide Advertise, Report, ShiftRight, ByteAt;
  }

  lemma ReportHolds(chunks: seq<Chunk>, n: nat, z: int)
    ensures InSome(Report(chunks, n), z) ==> ByteAt(chunks, z).Some?
  {
    if InSome(Report(chunks, n), z) {
      var i := SomeIndex(Report(chunks, n), z);
      ReportIsHeld(chunks, n, i);
      var j :| && 0 <= j < |chunks|
               && Report(chunks, n)[i].l == chunks[j].start && Report(chunks, n)[i].r == End(chunks[j]);
      ChunkHolds(chunks, j, z);
    }
  }

  lemma {:induction false} SomeIndex(blocks: seq<Run>, z: int) returns (i: nat)
    requires InSome(blocks, z)
    ensures i < |blocks| && blocks[i].l <= z < blocks[i].r
  {
    if blocks[0].l <= z < blocks[0].r { i := 0; } else { i := SomeIndex(blocks[1..], z); i := i + 1; }
  }

  lemma {:induction false} ChunkHolds(chunks: seq<Chunk>, j: nat, z: int)
    requires j < |chunks| && chunks[j].start <= z < End(chunks[j])
    ensures ByteAt(chunks, z).Some?
  {
    if j > 0 { ChunkHolds(chunks[1..], j - 1, z); }
  }

  lemma SentStream(x: Side, x': Side, k: Kind, g: Segment)
    requires SenderOk(x) && Emits(k, x.ep, x'.ep, g)
    requires x'.base == x.base && x'.sent == x.sent
    ensures g.payload != [] ==> Carries(g, x'.sent, x'.base)
    ensures g.fin ==> g.payload == [] && FinSent(x', g.seqNo)
  {
    ConsistentFacts(x.ep);
    hide Consistent, Stamp, SendFrame, PoolInv, CcInv;
    if g.payload != [] { RingIsStream(x, g); }
    FinAtEnd(x);
  }

  lemma FinAtEnd(x: Side)
    requires SenderOk(x)
    ensures x.ep.snd.finSeq.Some? ==> x.ep.snd.finSeq.value == x.base + |x.sent|
    ensures !x.ep.snd.finAcked ==> DataEnd(x.ep.snd) == x.base + |x.sent|
    ensures x.ep.snd.finSeq.None? ==> !x.ep.snd.finAcked
  {
    ConsistentFacts(x.ep);
    hide Consistent, PoolInv, CcInv;
  }

  lemma RingIsStream(x: Side, g: Segment)
    requires SenderOk(x) && g.payload != [] && RingBytes(x.ep.snd, g)
    ensures Carries(g, x.sent, x.base)
  {
    FinAtEnd(x);
    FinishedRing(x);
    hide Consistent;
  }

  lemma FinishedRing(x: Side)
    requires SenderOk(x)
    ensures x.ep.snd.finAcked ==> x.ep.snd.tx == []
  {
    ConsistentFacts(x.ep);
    hide Consistent, PoolInv, CcInv;
  }

  lemma SentStep(x: Side, x': Side, y: Side, p: Packet)
    requires Pair(x, y) && SenderOk(x') && x' == x.(ep := x'.ep, out := x.out + {p}) && PacketOk(x', p)
    requires SameData(x'.ep.rcv, x.ep.rcv)
    requires forall at :: FinSent(x, at) ==> FinSent(x', at)
    requires x'.ep.snd.una == x.ep.snd.una && x'.ep.snd.board.sacked == x.ep.snd.board.sacked
    ensures Pair(x', y)
  {
    SameDataSame(y, x, x');
    hide Follows, Held, FinSent, Covered, PacketOk, SenderOk;
    assert Grows(x, x');
    OutgoingAdds(x, x', p);
    LinkFromGrown(x, x', y);
  }

  lemma OutgoingAdds(x: Side, x': Side, p: Packet)
    requires Outgoing(x) && Grows(x, x') && x'.out == x.out + {p} && PacketOk(x', p)
    ensures Outgoing(x')
  {
    hide Grows, PacketOk;
    forall q | q in x.out ensures PacketOk(x', q) { OutgoingGrows(x, x', q); }
  }

  // ── arrivals ────────────────────────────────────────────────────────────────────────────────

  lemma SegmentOwes(e: Endpoint, g: Segment, env: Env)
    ensures OnSegment(e, g, env).owedRst == e.owedRst
  {
    OwesThrough(e, g, env);
    hide Process;
  }

  lemma OwesThrough(e: Endpoint, g: Segment, env: Env)
    ensures Process(e, g, env).owedRst == e.owedRst
  {
    AckOwes(e, g, env);
    var (e1, ok) := ProcessAck(e, g, env);
    DetectOwes(e1, g, IsDupAck(e, g), env);
    hide ProcessAck, DetectLoss, Absorb, InOrder, Accepted, TrimLeft, Deliver, FinArrives, FinFromPending;
  }

  lemma AckOwes(e: Endpoint, g: Segment, env: Env)
    ensures ProcessAck(e, g, env).0.owedRst == e.owedRst
  {
    hide AckCc, AckBoard, ShiftLeft, Lt, Le, Wire;
  }

  lemma DetectOwes(e: Endpoint, g: Segment, dup: bool, env: Env)
    ensures DetectLoss(e, g, dup, env).owedRst == e.owedRst
  {
    hide CountDup, EnterRecovery, Update, IsLost, InRecovery, BeginRecovery, Inflight;
  }

  /** The ACK frees a part of the ring, or the FIN. */
  lemma AckedSender(x: Side, x': Side, g: Segment)
    requires SenderOk(x) && Acked(x.ep.snd, x'.ep.snd, g)
    requires Consistent(x'.ep) && x'.ep.owedRst.None? && x'.base == x.base && x'.sent == x.sent
    ensures SenderOk(x') && x.ep.snd.una <= x'.ep.snd.una && forall at :: FinSent(x, at) ==> FinSent(x', at)
  {
    ConsistentFacts(x.ep);
    FinAtEnd(x);
    hide Consistent, PoolInv, CcInv, Covered, InSome, Rfc6675.Valid;
  }

  lemma ArrivalGrows(x: Side, x': Side, g: Segment, env: Env)
    requires SenderOk(x) && x' == x.(ep := OnSegment(x.ep, g, env), marks := x'.marks, decoded := x'.decoded,
                                     lastCep := x'.lastCep, exact := x'.exact)
    ensures Acked(x.ep.snd, x'.ep.snd, g) && SenderOk(x') && Grows(x, x')
  {
    OnSegmentKeeps(x.ep, g, env);
    SegmentAcks(x.ep, g, env);
    SegmentOwes(x.ep, g, env);
    AckedSender(x, x', g);
    forall z | Held(x.ep.rcv, z) ensures Held(x'.ep.rcv, z) { SegmentHolds(x.ep, g, env, z); }
    hide SenderOk, Consistent, OnSegment, Acked, Held, FinSent;
  }

  /** What an arriving ACK makes `x` believe is true of `y`. */
  lemma ArrivalBelief(x: Side, x': Side, y: Side, p: Packet)
    requires Link(x, y) && PacketOk(y, p) && Grows(x, x') && Acked(x.ep.snd, x'.ep.snd, p.g)
    ensures Link(x', y)
  {
    assert forall z :: Covered(x'.ep.snd.board.sacked, z) ==> Covered(x.ep.snd.board.sacked, z) || Held(y.ep.rcv, z);
    assert x'.ep.snd.una <= y.ep.rcv.nxt;
    hide Follows, Covered, Held, FinSent, InSome, Acked, PacketOk, Link, Grows;
    LinkFromGrown(x, x', y);
  }

  /** What arriving data makes `x` hold of `y`'s stream. */
  lemma ArrivalData(x: Side, x': Side, y: Side, p: Packet, env: Env)
    requires SenderOk(x) && Link(y, x) && PacketOk(y, p) && Grows(x, x')
    requires x'.ep == OnSegment(x.ep, p.g, env) && x'.read == x.read
    ensures Link(y, x')
  {
    hide OnSegment, Taken, Consistent, SameData, Link, PacketOk, Grows, Acceptable;
    SenderIsConsistent(x);
    SegmentReceives(x.ep, p.g, env);
    if SameData(x'.ep.rcv, x.ep.rcv) {
      SameDataSame(y, x, x');
    } else {
      TakenLink(y, x, x', p);
    }
  }

  lemma SenderIsConsistent(x: Side)
    requires SenderOk(x)
    ensures Consistent(x.ep)
  {}

  lemma TakenLink(x: Side, y: Side, y': Side, p: Packet)
    requires Consistent(y.ep) && Link(x, y) && PacketOk(x, p) && Grows(y, y')
    requires SameData(y'.ep.rcv, Taken(y.ep, p.g)) && y'.read == y.read
    ensures Link(x, y')
  {
    hide Taken, Consistent, ByteAt, Covered, FinSent, Held, InSome, Carries, Follows, SameData;
    TakenFollows(x, y, p.g);
    TakenSame(y'.ep.rcv, Taken(y.ep, p.g), y.read, x.sent, x.base);
    hide Grows;
    LinkToGrown(x, y, y');
  }

  lemma TakenSame(r: Receiver, s: Receiver, read: seq<byte>, stream: seq<byte>, base: int)
    requires SameData(r, s) && Follows(s, read, stream, base)
    ensures Follows(r, read, stream, base)
    ensures r.peerFin == s.peerFin && r.nxt == s.nxt && r.pendingFin == s.pendingFin
  {
    hide ByteAt;
  }

  lemma PacketIn(y: Side, p: Packet)
    requires Outgoing(y) && p in y.out
    ensures PacketOk(y, p)
  {
    hide PacketOk;
  }

  lemma ReceiveKeeps(x: Side, y: Side, p: Packet, env: Env)
    requires Pair(x, y) && p in y.out
    ensures Pair(Arrival(x, p, env), y)
  {
    PairParts(x, y);
    PacketIn(y, p);
    var x' := Arrival(x, p, env);
    hide Pair, SenderOk, OnSegment, Outgoing, Link, PacketOk, Grows, Acked;
    ArrivalGrows(x, x', p.g, env);
    ArrivalBelief(x, x', y, p);
    ArrivalData(x, x', y, p, env);
    OutgoingStays(x, x');
    PairFrom(x', y);
  }

  lemma PairFrom(x: Side, y: Side)
    requires SenderOk(x) && SenderOk(y) && Outgoing(x) && Outgoing(y) && Link(x, y) && Link(y, x)
    ensures Pair(x, y)
  {
    hide SenderOk, Outgoing, Link;
  }

  /** A RST or SYN from elsewhere may close the connection but never corrupts it. */
  lemma ForgedKeeps(x: Side, y: Side, g: Segment, env: Env)
    requires Pair(x, y) && (g.rst || g.syn)
    ensures Pair(x.(ep := OnSegment(x.ep, g, env)), y)
  {
    PairParts(x, y);
    var x' := x.(ep := OnSegment(x.ep, g, env));
    ArrivalGrows(x, x', g, env);
    SegmentReceives(x.ep, g, env);
    ForgedSender(x.ep, g, env);
    hide Consistent, Pair, OnSegment, Link, Outgoing, SenderOk, Acked, Taken;
    ForgedQuiet(x, x', y);
  }

  lemma ForgedQuiet(x: Side, x': Side, y: Side)
    requires Pair(x, y) && SenderOk(x') && x' == x.(ep := x'.ep)
    requires SameData(x'.ep.rcv, x.ep.rcv) && x'.ep.snd == x.ep.snd
    ensures Pair(x', y)
  {
    hide SenderOk, Outgoing, Link, Pair;
    QuietStep(x, x', y);
  }

  lemma ForgedSender(e: Endpoint, g: Segment, env: Env)
    requires g.rst || g.syn
    ensures OnSegment(e, g, env).snd == e.snd
  {}
}
