/** Theorems about every run of two endpoints over the network: stream safety, SACK honesty and the
    truth of end-of-stream. */
module NetworkRuns {
  import opened Options
  import opened Serial
  import opened Runs
  import opened Rfc6675
  import opened Reassembly
  import opened Congestion
  import opened Endpoint
  import opened ReceiveSide
  import opened Connection
  import opened Sending
  import opened ConnectionRuns
  import opened Network

  // ── runs ────────────────────────────────────────────────────────────────────────────────────

  lemma ActKeeps(x: Side, y: Side, act: Action)
    requires Pair(x, y) && Enabled(y, act)
    ensures Pair(Act(x, act), y)
  {
    hide Pair, Emit, Arrival, OnSegment;
    match act {
      case Write(data) => WriteKeeps(x, y, data);
      case Read(room) => ReadKeeps(x, y, room);
      case Shut => ShutKeeps(x, y);
      case Timeout(env) => TimeoutKeeps(x, y, env);
      case Xmit(env) => XmitKeeps(x, y, env);
      case Receive(p, env) => ReceiveKeeps(x, y, p, env);
      case Forged(g, env) => ForgedKeeps(x, y, g, env);
    }
  }

  /** The call on the connection that an action makes. */
  function InputOf(act: Action): Input {
    match act
    case Write(data) => AppSend(data)
    case Read(room) => AppRecv(room)
    case Shut => AppClose
    case Timeout(env) => Tick(env)
    case Xmit(env) => DoPoll(env)
    case Receive(p, env) => Arrive(p.g, env)
    case Forged(g, env) => Arrive(g, env)
  }

  lemma ActIsStep(x: Side, act: Action)
    ensures Act(x, act).ep == Step(x.ep, InputOf(act))
  {
    hide Poll, OnSegment, OnTimer;
  }

  /** One step of the whole: either side acts. */
  datatype Move = AtA(act: Action) | AtB(act: Action)

  predicate Possible(n: Net, m: Move) {
    match m
    case AtA(act) => Enabled(n.b, act)
    case AtB(act) => Enabled(n.a, act)
  }

  function Do(n: Net, m: Move): Net {
    match m
    case AtA(act) => n.(a := Act(n.a, act))
    case AtB(act) => n.(b := Act(n.b, act))
  }

  ghost predicate Playable(n: Net, moves: seq<Move>)
    decreases |moves|
  {
    moves == [] || (Possible(n, moves[0]) && Playable(Do(n, moves[0]), moves[1..]))
  }

  function Reached(n: Net, moves: seq<Move>): Net
    decreases |moves|
  {
    if moves == [] then n else Reached(Do(n, moves[0]), moves[1..])
  }

  ghost predicate SafeNet(n: Net) { Pair(n.a, n.b) }

  lemma PairSwaps(x: Side, y: Side)
    requires Pair(x, y)
    ensures Pair(y, x)
  {
    hide SenderOk, Outgoing, Link;
  }

  lemma MoveKeeps(n: Net, m: Move)
    requires SafeNet(n) && Possible(n, m)
    ensures SafeNet(Do(n, m))
  {
    hide Pair, Act, Enabled;
    PairSwaps(n.a, n.b);
    match m {
      case AtA(act) => ActKeeps(n.a, n.b, act);
      case AtB(act) => ActKeeps(n.b, n.a, act); PairSwaps(Do(n, m).b, Do(n, m).a);
    }
  }

  lemma {:induction false} SafeForever(n: Net, moves: seq<Move>)
    requires SafeNet(n) && Playable(n, moves)
    ensures SafeNet(Reached(n, moves))
    decreases |moves|
  {
    hide SafeNet, Do, Possible;
    if moves != [] {
      MoveKeeps(n, moves[0]);
      SafeForever(Do(n, moves[0]), moves[1..]);
    }
  }

  /** The same net with the sides exchanged, and the same run of it. */
  function Mirror(n: Net): Net { Net(n.b, n.a) }

  function MirrorMoves(moves: seq<Move>): seq<Move> {
    if moves == [] then []
    else [match moves[0] case AtA(act) => AtB(act) case AtB(act) => AtA(act)] + MirrorMoves(moves[1..])
  }

  lemma {:induction false} MirrorRuns(n: Net, moves: seq<Move>)
    ensures Playable(Mirror(n), MirrorMoves(moves)) <==> Playable(n, moves)
    ensures Reached(Mirror(n), MirrorMoves(moves)) == Mirror(Reached(n, moves))
    decreases |moves|
  {
    if moves != [] {
      hide Act, Enabled;
      MirrorRuns(Do(n, moves[0]), moves[1..]);
      assert Mirror(Do(n, moves[0])) == Do(Mirror(n), MirrorMoves(moves)[0]);
      assert MirrorMoves(moves)[1..] == MirrorMoves(moves[1..]);
    }
  }

  // ── where runs begin, and what every reachable state promises ───────────────────────────────

  /** What one side brings out of the handshake: the options it agreed to, its controller, its first
      octet, the window it was granted, and the edge it advertised. */
  datatype Terms = Terms(cfg: Config, law: Law, base: int, wnd: nat, adv: int)

  predicate Sound(t: Terms, peer: int) { ConfigOk(t.cfg) && peer <= t.adv <= peer + RX_BUFFER }

  /** A side as the handshake leaves it: nothing sent, nothing received. */
  function Fresh(t: Terms, peer: int): Side {
    Side(Opened(t.cfg, t.law, t.base, peer, t.wnd, t.adv),
         t.base, [], [], {}, 0, 0, 0, true)
  }

  /** Two established sides that expect each other's first octets. */
  function Begin(s: Terms, t: Terms): Net { Net(Fresh(s, t.base), Fresh(t, s.base)) }

  ghost predicate Agreed(s: Terms, t: Terms) {
    Sound(s, t.base) && Sound(t, s.base) && Trusted(s.law) && Trusted(t.law)
  }

  lemma FreshIsConsistent(t: Terms, peer: int)
    requires Sound(t, peer) && Trusted(t.law)
    ensures Consistent(Fresh(t, peer).ep)
  {
    InitIsValid(t.law, t.cfg.mss);
    EmptySpans(peer + 1, peer + RX_BUFFER);
  }

  lemma FreshSender(t: Terms, peer: int)
    requires Sound(t, peer) && Trusted(t.law)
    ensures SenderOk(Fresh(t, peer)) && Outgoing(Fresh(t, peer))
  {
    FreshIsConsistent(t, peer);
    hide Consistent, PacketOk;
  }

  lemma FreshLink(s: Terms, t: Terms)
    ensures Link(Fresh(s, t.base), Fresh(t, s.base))
  {
    hide Congestion.Init, Wire;
    var x, y := Fresh(s, t.base), Fresh(t, s.base);
    assert y.ep.rcv.reasm.chunks == [] && x.ep.snd.board.sacked == [];
    assert y.read + y.ep.rcv.rx == x.sent[..0];
  }

  lemma BeginIsSafe(s: Terms, t: Terms)
    requires Agreed(s, t)
    ensures SafeNet(Begin(s, t))
  {
    FreshSender(s, t.base);
    FreshSender(t, s.base);
    FreshLink(s, t);
    FreshLink(t, s);
    hide SenderOk, Outgoing, Link, Fresh;
  }

  lemma AlwaysSafe(s: Terms, t: Terms, moves: seq<Move>)
    requires Agreed(s, t) && Playable(Begin(s, t), moves)
    ensures var m := Reached(Begin(s, t), moves); Pair(m.a, m.b) && Pair(m.b, m.a)
  {
    hide Pair, Playable, Reached, Begin, Agreed;
    BeginIsSafe(s, t);
    SafeForever(Begin(s, t), moves);
    PairSwaps(Reached(Begin(s, t), moves).a, Reached(Begin(s, t), moves).b);
  }

  /** End-to-end stream safety, for every schedule of calls, losses, duplications and reorderings:
      what the application read followed by what waits in the ring is a prefix of what the other
      side's `Send` accepted; the send ring is that stream from SND.UNA on; and SND.UNA never passes
      the peer's RCV.NXT, so no byte is freed before the receiver has it. */
  lemma StreamSafety(s: Terms, t: Terms, moves: seq<Move>)
    requires Agreed(s, t) && Playable(Begin(s, t), moves)
    ensures var m := Reached(Begin(s, t), moves);
            && m.b.read + m.b.ep.rcv.rx <= m.a.sent && m.a.read + m.a.ep.rcv.rx <= m.b.sent
            && m.a.ep.snd.una <= m.b.ep.rcv.nxt && m.b.ep.snd.una <= m.a.ep.rcv.nxt
            && RingIsRest(m.a) && RingIsRest(m.b)
  {
    hide Reached, Playable, Begin, Agreed, Pair;
    AlwaysSafe(s, t, moves);
    var m := Reached(Begin(s, t), moves);
    PrefixHeld(m.a, m.b);
    PrefixHeld(m.b, m.a);
  }

  /** The ring holds the accepted stream from SND.UNA on, and is empty once the FIN is acknowledged. */
  predicate RingIsRest(x: Side) {
    var k := x.ep.snd.una - x.base;
    if 0 <= k <= |x.sent| then x.ep.snd.tx == x.sent[k..] else x.ep.snd.tx == [] && k == |x.sent| + 1
  }

  lemma PrefixHeld(x: Side, y: Side)
    requires Pair(x, y)
    ensures y.read + y.ep.rcv.rx <= x.sent && x.ep.snd.una <= y.ep.rcv.nxt && RingIsRest(x)
  {
    FinishedRing(x);
    FinAtEnd(x);
    hide Consistent, ByteAt, Outgoing;
  }

  /** Octet `z` of `x`'s stream is with `y`, with the value `x` sent: read, waiting in the ring, or
      buffered out of order. */
  predicate Arrived(x: Side, y: Side, z: int) {
    var got := y.read + y.ep.rcv.rx;
    && x.base <= z < x.base + |x.sent|
    && (|| (z - x.base < |got| && got[z - x.base] == x.sent[z - x.base])
        || ByteAt(y.ep.rcv.reasm.chunks, z) == Some(x.sent[z - x.base]))
  }

  /** If `x` believes octet `z` of its data SACKed, or has freed it, `y` has it. */
  predicate Honest(x: Side, y: Side, z: int) {
    z < x.base + |x.sent| && (Covered(x.ep.snd.board.sacked, z) || x.base <= z < x.ep.snd.una) ==> Arrived(x, y, z)
  }

  /** SACK honesty: in every reachable state, after timeouts and with stale ACKs, each data octet the
      sender believes SACKed, and each one it has freed, is with the receiver, with the value sent. */
  lemma SackHonesty(s: Terms, t: Terms, moves: seq<Move>, z: int)
    requires Agreed(s, t) && Playable(Begin(s, t), moves)
    ensures var m := Reached(Begin(s, t), moves);
            Honest(m.a, m.b, z) && Honest(m.b, m.a, z)
  {
    hide Reached, Playable, Begin, Agreed, Pair;
    AlwaysSafe(s, t, moves);
    var m := Reached(Begin(s, t), moves);
    HeldHasByte(m.a, m.b, z);
    HeldHasByte(m.b, m.a, z);
  }

  lemma HeldHasByte(x: Side, y: Side, z: int)
    requires Pair(x, y)
    ensures Honest(x, y, z)
  {
    SackedInWindow(x, z);
    hide SenderOk, Outgoing, ByteAt, Covered;
    if x.base <= z < y.ep.rcv.nxt && z < x.base + |x.sent| { DeliveredByte(x, y, z); }
  }

  lemma SackedInWindow(x: Side, z: int)
    requires SenderOk(x)
    ensures Covered(x.ep.snd.board.sacked, z) ==> x.base <= z
  {
    BoardOf(x.ep);
    if Covered(x.ep.snd.board.sacked, z) { CoveredWithin(x.ep.snd.board.sacked, z, x.ep.snd.una, x.ep.snd.nxt); }
    hide Consistent, Covered;
  }

  lemma DeliveredByte(x: Side, y: Side, z: int)
    requires Follows(y.ep.rcv, y.read, x.sent, x.base)
    requires y.ep.rcv.peerFin ==> FinSent(x, y.ep.rcv.nxt - 1)
    requires x.base <= z < y.ep.rcv.nxt && z < x.base + |x.sent|
    ensures Arrived(x, y, z)
  {
    hide ByteAt;
  }

  /** Once `y` has seen the FIN it has all of `x`'s stream, and the stream can no longer grow. */
  ghost predicate Complete(x: Side, y: Side) {
    y.ep.rcv.peerFin ==> y.read + y.ep.rcv.rx == x.sent && forall data :: Send(x.ep, data) == (x.ep, 0)
  }

  /** When the receiver believes the stream over, it has the whole of it, and nothing will be added. */
  lemma EndOfStreamIsTrue(s: Terms, t: Terms, moves: seq<Move>)
    requires Agreed(s, t) && Playable(Begin(s, t), moves)
    ensures var m := Reached(Begin(s, t), moves);
            Complete(m.a, m.b) && Complete(m.b, m.a)
  {
    hide Reached, Playable, Begin, Agreed, Pair;
    AlwaysSafe(s, t, moves);
    var m := Reached(Begin(s, t), moves);
    WholeStream(m.a, m.b);
    WholeStream(m.b, m.a);
  }

  lemma WholeStream(x: Side, y: Side)
    requires Pair(x, y)
    ensures Complete(x, y)
  {
    PairParts(x, y);
    hide Consistent, ByteAt, Outgoing, Send;
    if y.ep.rcv.peerFin {
      forall data ensures Send(x.ep, data) == (x.ep, 0) { ClosedToData(x.ep, data); }
    }
  }

  lemma ClosedToData(e: Endpoint, data: seq<byte>)
    requires Consistent(e) && e.snd.finSeq.Some?
    ensures Send(e, data) == (e, 0)
  {
    SendKeeps(e, data);
  }
}
