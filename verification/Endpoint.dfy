/** One connection, from Established on, over stream positions: the state of tcp-core/src/tcb.rs
    and the function each entry point computes. Tcb.dfy is the object on 32-bit numbers that is
    proved to compute these. The round-trip estimator, the challenge-ACK limiter and pacing enter
    as parameters (`Env`); the handshake is not part of this model. */
module Endpoint {
  import opened Options
  import opened Serial
  import opened Runs
  import opened Rfc6675
  import opened Reassembly
  import opened Congestion

  const TX_BUFFER: nat := 262144
  const RX_BUFFER: nat := 262144
  const TIME_WAIT: nat := 10_000_000
  const FIN_WAIT2: nat := 60_000_000
  const PERSIST_MIN: nat := 1_000_000
  const PERSIST_MAX: nat := 60_000_000
  const DELAYED_ACK: nat := 40_000

  datatype State = Established | FinWait1 | FinWait2 | CloseWait | Closing | LastAck | TimeWait | Closed

  /** A segment, with its sequence numbers as positions. */
  datatype Segment = Segment(seqNo: int, ack: int, rst: bool, syn: bool, fin: bool, hasAck: bool,
                             window: nat, ace: nat, blocks: seq<Run>, payload: seq<byte>)

  /** Negotiated on the handshake and constant afterwards. */
  datatype Config = Config(mss: nat, sack: bool, sndWscale: nat, rcvWscale: nat)

  datatype Sender = Sender(una: int, nxt: int, wnd: nat, wl1: u32, wl2: u32, tx: seq<byte>, board: Board,
                           retransmit: bool, gbn: Option<int>, sendProbe: bool,
                           finQueued: bool, finSeq: Option<int>, finAcked: bool, aceSeen: nat)

  datatype Receiver = Receiver(nxt: int, adv: int, rx: seq<byte>, reasm: Reasm, pendingFin: Option<int>,
                               peerFin: bool, cep: nat, needsAck: bool, unackedSegs: nat)

  /** Deadlines in microseconds. */
  datatype Timers = Timers(rtx: Option<nat>, persist: Option<nat>, backoff: nat, timeWait: Option<nat>,
                           delayedAck: Option<nat>, pace: Option<nat>)

  datatype Endpoint = Endpoint(cfg: Config, state: State, reset: bool, snd: Sender, rcv: Receiver,
                               cc: Cc, t: Timers, owedRst: Option<int>)

  /** What one call is given from outside: the clock, the current RTO, a fresh smoothed RTT if there
      is one, whether the challenge-ACK budget allows another, whether the packet was CE-marked, and
      what a pacer allows now with the delay until it allows more. */
  datatype Env = Env(now: nat, rto: nat, srtt: Option<nat>, challengeOk: bool, ce: bool, pace: Option<(nat, nat)>)

  /** The ACE counters of both ends start at 5 (section 3.2.2.2 of RFC 9768). */
  const ACE_INIT: nat := 5

  /** A connection as the handshake leaves it: its first octet is `base`, the peer's is `peer`. */
  function Opened(cfg: Config, law: Law, base: int, peer: int, wnd: nat, adv: int): Endpoint {
    Endpoint(cfg, Established, false, OpenedSender(base, peer, wnd), OpenedReceiver(peer, adv),
             Congestion.Init(law, cfg.mss), Timers(None, None, PERSIST_MIN, None, None, None), None)
  }

  function OpenedSender(base: int, peer: int, wnd: nat): Sender {
    Sender(base, base, wnd, Wire(peer), Wire(base), [], Rfc6675.EMPTY, false, None, false,
           false, None, false, ACE_INIT)
  }

  function OpenedReceiver(peer: int, adv: int): Receiver {
    Receiver(peer, adv, [], Reassembly.EMPTY, None, false, ACE_INIT, false, 0)
  }

  /** `x << n`. */
  function ShiftLeft(x: nat, n: nat): nat { if n == 0 then x else 2 * ShiftLeft(x, n - 1) }

  /** `x >> n`. */
  function ShiftRight(x: nat, n: nat): nat { if n == 0 then x else ShiftRight(x, n - 1) / 2 }

  predicate EcnEnabled(e: Endpoint) { !e.cc.law.Reno? }

  function RestartRtx(t: Timers, env: Env): Timers { t.(rtx := Some(env.now + env.rto)) }

  function StartRtx(t: Timers, env: Env): Timers { if t.rtx.None? then RestartRtx(t, env) else t }

  // ── application interface ───────────────────────────────────────────────────────────────────

  function Send(e: Endpoint, data: seq<byte>): (Endpoint, nat) {
    if e.state.Established? || e.state.CloseWait? then
      var free := if |e.snd.tx| <= TX_BUFFER then TX_BUFFER - |e.snd.tx| else 0;
      var n := MinN(|data|, free);
      (e.(snd := e.snd.(tx := e.snd.tx + data[..n])), n)
    else (e, 0)
  }

  function Recv(e: Endpoint, room: nat): (Endpoint, seq<byte>) {
    var n := MinN(room, |e.rcv.rx|);
    (e.(rcv := e.rcv.(rx := e.rcv.rx[n..])), e.rcv.rx[..n])
  }

  function Close(e: Endpoint): Endpoint { e.(snd := e.snd.(finQueued := true)) }

  // ── acceptability ───────────────────────────────────────────────────────────────────────────

  predicate SeqInWindow(r: Receiver, at: int) {
    if r.adv == r.nxt then at == r.nxt else r.nxt <= at < r.adv
  }

  function SegLen(g: Segment): nat { |g.payload| + (if g.syn then 1 else 0) + (if g.fin then 1 else 0) }

  predicate Acceptable(r: Receiver, g: Segment) {
    var zero := r.adv == r.nxt;
    if SegLen(g) == 0 then (if zero then g.seqNo == r.nxt else r.nxt <= g.seqNo < r.adv)
    else !zero && (r.nxt <= g.seqNo < r.adv || r.nxt <= g.seqNo + SegLen(g) - 1 < r.adv)
  }

  // ── ACK processing ──────────────────────────────────────────────────────────────────────────

  /** The send window follows the segment newest in sequence, then in acknowledgement. */
  function UpdateWindow(e: Endpoint, g: Segment): Endpoint {
    if Lt(e.snd.wl1, Wire(g.seqNo)) || (e.snd.wl1 == Wire(g.seqNo) && Le(e.snd.wl2, Wire(g.ack))) then
      var s := e.snd.(wnd := ShiftLeft(g.window, e.cfg.sndWscale), wl1 := Wire(g.seqNo), wl2 := Wire(g.ack));
      if g.window > 0 then
        e.(snd := s.(sendProbe := false), t := e.t.(persist := None, backoff := PERSIST_MIN))
      else e.(snd := s)
    else e
  }

  /** `OnAck` of the controller; it has a window, which `Connection.Consistent` guarantees. */
  function CcAck(c: Cc, n: nat): Cc { if c.cwnd > 0 && c.mss > 0 then OnAck(c, n) else c }

  /** The controller's share of an advancing ACK. */
  function AckCc(e: Endpoint, g: Segment, env: Env, dataAcked: nat): Cc {
    var inRecovery := e.cfg.sack && InRecovery(e.snd.board);
    var c1 := if inRecovery then e.cc else CcAck(e.cc, dataAcked);
    var c2 := if EcnEnabled(e) && !inRecovery
              then OnEcn(c1, dataAcked, MinN(((g.ace - e.snd.aceSeen) % 8) * e.cfg.mss, dataAcked)) else c1;
    var c3 := if e.cfg.sack && RecoveryReached(e.snd.board, g.ack) then CcAck(c2, 0) else c2;
    if env.srtt.Some? then OnRtt(c3, env.srtt.value) else c3
  }

  /** The scoreboard's share: trim, and leave recovery once the point is reached. */
  function AckBoard(e: Endpoint, ack: int): Board {
    if e.cfg.sack then
      var b := TrimBoard(e.snd.board, ack);
      if RecoveryReached(b, ack) then ExitRecovery(b) else b
    else e.snd.board
  }

  /** SEG.ACK in (SND.UNA, SND.NXT]: free what it covers. */
  function Advance(e: Endpoint, g: Segment, env: Env): Endpoint
    requires e.snd.una < g.ack <= e.snd.nxt
  {
    var s := e.snd;
    var dataAcked := MinN(g.ack - s.una, |s.tx|);
    var draining := s.gbn.Some? && g.ack < s.gbn.value && g.ack != s.nxt;
    e.(snd := s.(una := g.ack, tx := s.tx[dataAcked..], board := AckBoard(e, g.ack),
                 finAcked := s.finAcked || (s.finSeq.Some? && g.ack > s.finSeq.value),
                 aceSeen := if EcnEnabled(e) then g.ace % 8 else s.aceSeen,
                 retransmit := s.retransmit || draining, gbn := if draining then s.gbn else None),
       cc := AckCc(e, g, env, dataAcked),
       t := if g.ack == s.nxt then e.t.(rtx := None) else RestartRtx(e.t, env))
  }

  /** The result, and whether the segment may be processed further. */
  function ProcessAck(e: Endpoint, g: Segment, env: Env): (Endpoint, bool) {
    if g.ack > e.snd.nxt then (e.(rcv := e.rcv.(needsAck := true)), false)
    else (UpdateWindow(if g.ack > e.snd.una then Advance(e, g, env) else e, g), true)
  }

  predicate IsDupAck(e: Endpoint, g: Segment) {
    g.payload == [] && !g.fin && !g.syn && g.ack == e.snd.una && e.snd.una != e.snd.nxt
  }

  function Inflight(s: Sender): nat { if s.nxt >= s.una then s.nxt - s.una else 0 }

  /** The controller after a possible duplicate ACK, and whether that was the third. */
  function CountDup(c: Cc, dup: bool, flight: nat): (Cc, bool) {
    if dup then OnDupAck(c, flight) else (c, false)
  }

  /** With SACK: take the blocks, and enter recovery on the third duplicate or an early loss, unless
      recovery or a post-timeout drain is already under way. */
  function DetectSack(e: Endpoint, g: Segment, dup: bool, env: Env): Endpoint {
    var s := e.snd;
    var b := Update(s.board, s.una, s.nxt, g.blocks);
    if InRecovery(b) || s.gbn.Some? then e.(snd := s.(board := b))
    else
      var (c1, three) := CountDup(e.cc, dup, Inflight(s));
      if three || IsLost(b, s.una, e.cfg.mss) then
        e.(snd := s.(board := BeginRecovery(b, s.nxt)),
           cc := if three then c1 else EnterRecovery(c1, Inflight(s)), t := RestartRtx(e.t, env))
      else e.(snd := s.(board := b), cc := c1)
  }

  /** Without SACK: the third duplicate asks for a fast retransmit. */
  function DetectPlain(e: Endpoint, dup: bool, env: Env): Endpoint {
    var (c1, three) := CountDup(e.cc, dup, Inflight(e.snd));
    if three then e.(snd := e.snd.(retransmit := true), cc := c1, t := RestartRtx(e.t, env))
    else e.(cc := c1)
  }

  /** SACK blocks, duplicate ACKs and loss-recovery entry, after the cumulative ACK. */
  function DetectLoss(e: Endpoint, g: Segment, dup: bool, env: Env): Endpoint {
    if e.cfg.sack then DetectSack(e, g, dup, env) else DetectPlain(e, dup, env)
  }

  // ── data ────────────────────────────────────────────────────────────────────────────────────

  /** The lesser of the advertised edge and what the shared receive pool can still hold. */
  function RightEdge(r: Receiver): int {
    var used := |r.rx| + Buffered(r.reasm.chunks);
    var budget := if used <= RX_BUFFER then RX_BUFFER - used else 0;
    Smaller(r.nxt + MinN(budget, 0xFFFF), r.adv)
  }

  /** Write to the ring what fits. */
  function Deliver(r: Receiver, data: seq<byte>): (Receiver, nat) {
    var n := MinN(|data|, if |r.rx| <= RX_BUFFER then RX_BUFFER - |r.rx| else 0);
    (r.(rx := r.rx + data[..n], nxt := r.nxt + n), n)
  }

  /** Move runs that have become contiguous into the ring; a tail that does not fit goes back. */
  function DrainReasm(r: Receiver): Receiver
    decreases |r.reasm.chunks|
  {
    var (run, rest) := Pop(r.reasm.chunks, r.nxt);
    if run == [] then r.(reasm := r.reasm.(chunks := rest))
    else
      var (r1, w) := Deliver(r.(reasm := r.reasm.(chunks := rest)), run);
      if w < |run| then
        r1.(reasm := Reasm([Chunk(r1.nxt, run[w..], r.reasm.stamp + 1)] + rest, r.reasm.stamp + 1))
      else DrainReasm(r1)
  }

  /** The part of the payload at or above RCV.NXT, and where it begins. */
  function TrimLeft(r: Receiver, g: Segment): (int, seq<byte>) {
    if g.seqNo < r.nxt then (r.nxt, g.payload[MinN(r.nxt - g.seqNo, |g.payload|)..]) else (g.seqNo, g.payload)
  }

  predicate InOrder(r: Receiver, g: Segment) {
    TrimLeft(r, g).1 != [] && TrimLeft(r, g).0 == r.nxt
  }

  /** In-order data: write what fits, purge overtaken runs, drain what became contiguous. */
  function TakeInOrder(r: Receiver, data: seq<byte>, sack: bool): Receiver {
    var r1 := Deliver(r, data).0;
    if sack then DrainReasm(r1.(reasm := r1.reasm.(chunks := DiscardBelow(r1.reasm.chunks, r1.nxt)))) else r1
  }

  /** The receive sequence space after a data segment. */
  function Absorb(r: Receiver, g: Segment, sack: bool): Receiver {
    var (at, data) := TrimLeft(r, g);
    if data == [] then r
    else if at == r.nxt then TakeInOrder(r, data, sack)
    else if sack then r.(reasm := Reassembly.Insert(r.reasm, r.nxt, RightEdge(r), at, data))
    else r
  }

  predicate Accepted(r: Receiver, r': Receiver) {
    r'.nxt != r.nxt || Buffered(r'.reasm.chunks) > Buffered(r.reasm.chunks)
  }

  function DataStep(e: Endpoint, g: Segment, env: Env): Endpoint {
    if g.payload == [] then e
    else
      var r0 := e.rcv;
      var r1 := Absorb(r0, g, e.cfg.sack);
      var r2 := if EcnEnabled(e) && env.ce && Accepted(r0, r1) then r1.(cep := (r1.cep + 1) % 256) else r1;
      var fits := InOrder(r0, g) && Deliver(r0, TrimLeft(r0, g).1).1 == |TrimLeft(r0, g).1|;
      if fits && Buffered(r0.reasm.chunks) == 0 then
        if r2.unackedSegs + 1 >= 2 then e.(rcv := r2.(needsAck := true, unackedSegs := 0))
        else e.(rcv := r2.(unackedSegs := r2.unackedSegs + 1),
                t := if e.t.delayedAck.None? then e.t.(delayedAck := Some(env.now + DELAYED_ACK)) else e.t)
      else e.(rcv := r2.(needsAck := true))
  }

  function FinArrives(r: Receiver, g: Segment): Receiver {
    if !g.fin then r
    else
      var finAt := g.seqNo + |g.payload|;
      var r1 := if finAt == r.nxt && !r.peerFin then r.(nxt := r.nxt + 1, peerFin := true)
                else if !r.peerFin then r.(pendingFin := Some(finAt)) else r;
      r1.(needsAck := true)
  }

  function FinFromPending(r: Receiver): Receiver {
    if r.pendingFin == Some(r.nxt) && !r.peerFin
    then r.(nxt := r.nxt + 1, peerFin := true, pendingFin := None, needsAck := true) else r
  }

  function ArmTimeWait(t: Timers, now: nat): Timers {
    t.(timeWait := Some(now + TIME_WAIT), rtx := None, persist := None)
  }

  function ClosingState(state: State, finAcked: bool, peerFin: bool): State {
    match state
    case FinWait1 =>
      if finAcked && peerFin then TimeWait else if finAcked then FinWait2 else if peerFin then Closing else FinWait1
    case FinWait2 => if peerFin then TimeWait else FinWait2
    case Closing => if finAcked then TimeWait else Closing
    case LastAck => if finAcked then Closed else LastAck
    case Established => if peerFin then CloseWait else Established
    case _ => state
  }

  function RecomputeClosing(e: Endpoint, env: Env): Endpoint {
    var state := ClosingState(e.state, e.snd.finAcked, e.rcv.peerFin);
    if state == e.state then e
    else e.(state := state,
            t := if state.TimeWait? then ArmTimeWait(e.t, env.now)
                 else if state.FinWait2? then e.t.(timeWait := Some(env.now + FIN_WAIT2)) else e.t)
  }

  // ── inbound ─────────────────────────────────────────────────────────────────────────────────

  function Challenge(e: Endpoint, env: Env): Endpoint {
    if env.challengeOk then e.(rcv := e.rcv.(needsAck := true)) else e
  }

  function Process(e: Endpoint, g: Segment, env: Env): Endpoint {
    var (e1, ok) := ProcessAck(e, g, env);
    if !ok then e1
    else
      var e2 := DetectLoss(e1, g, IsDupAck(e, g), env);
      var e3 := DataStep(e2, g, env);
      var e4 := e3.(rcv := FinFromPending(FinArrives(e3.rcv, g)));
      RecomputeClosing(e4, env)
  }

  function OnSegment(e: Endpoint, g: Segment, env: Env): Endpoint {
    if g.rst then
      if !SeqInWindow(e.rcv, g.seqNo) then e
      else if g.seqNo == e.rcv.nxt then e.(state := Closed, reset := true)
      else Challenge(e, env)
    else if e.state.TimeWait? then
      e.(rcv := e.rcv.(needsAck := true), t := ArmTimeWait(e.t, env.now))
    else if g.syn then (if SeqInWindow(e.rcv, g.seqNo) then Challenge(e, env) else e)
    else if !Acceptable(e.rcv, g) then e.(rcv := e.rcv.(needsAck := true))
    else if !g.hasAck then e
    else Process(e, g, env)
  }

  // ── outbound ────────────────────────────────────────────────────────────────────────────────

  /** The right edge to advertise: free pool space, and never left of what was advertised. */
  function Advertise(r: Receiver, cfg: Config): Receiver {
    var used := |r.rx| + Buffered(r.reasm.chunks);
    var free := MinN(if used <= RX_BUFFER then RX_BUFFER - used else 0, ShiftLeft(0xFFFF, cfg.rcvWscale));
    r.(adv := Larger(r.nxt + free, r.adv))
  }

  /** Stamp a segment with the cumulative ACK, window, ACE count and SACK blocks; whatever is sent
      also satisfies a delayed ACK. */
  function Build(e: Endpoint, at: int, fin: bool, payload: seq<byte>): (Endpoint, Segment) {
    var r := Advertise(e.rcv, e.cfg).(unackedSegs := 0);
    var wnd := if r.adv >= r.nxt then r.adv - r.nxt else 0;
    (e.(rcv := r, t := e.t.(delayedAck := None)),
     Segment(at, r.nxt, false, false, fin, true, MinN(ShiftRight(wnd, e.cfg.rcvWscale), 0xFFFF),
             if EcnEnabled(e) then r.cep % 8 else 0,
             if e.cfg.sack then Report(r.reasm.chunks, MAX_SACK_BLOCKS) else [], payload))
  }

  function MaxPayload(e: Endpoint): nat {
    var n := MinN(|e.rcv.reasm.chunks|, MAX_SACK_BLOCKS);
    var opt := if e.cfg.sack && n > 0 then 4 + 8 * n else 0;
    if e.cfg.mss >= opt then e.cfg.mss - opt else 0
  }

  function SentData(s: Sender): nat { MinN(Inflight(s), |s.tx|) }

  function Unsent(s: Sender): nat { |s.tx| - SentData(s) }

  function DataEnd(s: Sender): int { s.una + |s.tx| }

  function PipeOf(e: Endpoint): nat {
    if e.cfg.sack then Pipe(e.snd.board, e.snd.una, e.snd.nxt, e.cfg.mss) else Inflight(e.snd)
  }

  function Monus(a: nat, b: nat): nat { if a >= b then a - b else 0 }

  /** A segment out of the ring that does not advance SND.NXT. */
  function Resend(e: Endpoint, off: nat, n: nat, env: Env): (Endpoint, Segment)
    requires off + n <= |e.snd.tx|
  {
    var (e1, g) := Build(e, e.snd.una + off, false, e.snd.tx[off..off + n]);
    (e1.(t := StartRtx(e1.t, env)), g)
  }

  /** Step 0: resend the oldest unacknowledged segment, or the FIN when only it is outstanding. */
  function StepRetransmit(e: Endpoint, env: Env): (Endpoint, Option<Segment>) {
    if e.snd.retransmit && Inflight(e.snd) > 0 then
      var e0 := e.(snd := e.snd.(retransmit := false));
      var n := MinN(SentData(e.snd), MaxPayload(e));
      if n > 0 then
        var (e1, g) := Resend(e0, 0, n, env);
        (e1, Some(g))
      else if e.snd.finSeq == Some(e.snd.una) && !e.snd.finAcked then
        var (e1, g) := Build(e0, e.snd.una, true, []);
        (e1.(t := StartRtx(e1.t, env)), Some(g))
      else StepRepair(e0, env)
    else StepRepair(e, env)
  }

  /** The octets are marked as resent in this episode; a rescue happens once. */
  function Marked(b: Board, x: int, n: nat, rescue: bool): Board {
    var c := MarkRexmit(b, x, x + n);
    if rescue then SetRescueDone(c) else c
  }

  function RepairNow(e: Endpoint, x: int, off: nat, n: nat, rescue: bool, env: Env): (Endpoint, Option<Segment>)
    requires off + n <= |e.snd.tx|
  {
    var (e1, g) := Resend(e, off, n, env);
    (e1.(snd := e1.snd.(board := Marked(e.snd.board, x, n, rescue))), Some(g))
  }

  /** Step 0.5: repair the next hole while the congestion window exceeds the pipe. */
  function StepRepair(e: Endpoint, env: Env): (Endpoint, Option<Segment>) {
    if e.cfg.sack && InRecovery(e.snd.board) && e.cc.cwnd > PipeOf(e) then
      match NextSeg(e.snd.board, e.snd.una, e.snd.nxt, e.cfg.mss)
      case None => StepNew(e, env)
      case Some((x, rescue)) =>
        var off := if x >= e.snd.una then x - e.snd.una else 0;
        var n := MinN(MinN(UnsackedRunLen(e.snd.board, x, e.snd.nxt), MaxPayload(e)), Monus(|e.snd.tx|, off));
        if n > 0 then RepairNow(e, x, off, n, rescue, env) else StepNew(e, env)
    else StepNew(e, env)
  }

  /** What the windows, and the pacer if there is one, allow now. */
  function Allowed(e: Endpoint, env: Env): nat {
    var room := MinN(Monus(e.cc.cwnd, PipeOf(e)), Monus(e.snd.wnd, Inflight(e.snd)));
    if env.pace.Some? then MinN(room, env.pace.value.0) else room
  }

  /** A pacer re-arms its own deadline when it is what holds data back. */
  function Paced(e: Endpoint, env: Env): Endpoint {
    match env.pace
    case None => e
    case Some((cap, delay)) =>
      var room := MinN(Monus(e.cc.cwnd, PipeOf(e)), Monus(e.snd.wnd, Inflight(e.snd)));
      e.(t := e.t.(pace := if cap < room && Unsent(e.snd) > 0 then Some(env.now + delay) else None))
  }

  function PersistArmed(e: Endpoint, env: Env): Endpoint {
    if e.t.persist.None? then e.(t := e.t.(backoff := PERSIST_MIN, persist := Some(env.now + PERSIST_MIN))) else e
  }

  /** The octet at SND.UNA, without advancing SND.NXT. */
  function ProbeNow(e: Endpoint): (Endpoint, Option<Segment>)
    requires e.snd.tx != []
  {
    var (e1, g) := Build(e.(snd := e.snd.(sendProbe := false)), e.snd.una, false, e.snd.tx[..1]);
    (e1, Some(g))
  }

  /** The next `n` unsent octets, advancing SND.NXT. */
  function NewNow(e: Endpoint, n: nat, env: Env): (Endpoint, Option<Segment>)
    requires n <= Unsent(e.snd)
  {
    var sent := SentData(e.snd);
    var (e1, g) := Build(e, e.snd.nxt, false, e.snd.tx[sent..sent + n]);
    (e1.(snd := e1.snd.(nxt := e1.snd.nxt + n), t := StartRtx(e1.t, env)), Some(g))
  }

  /** Step 1: new data, or a one-octet probe into a closed window. */
  function StepNew(e0: Endpoint, env: Env): (Endpoint, Option<Segment>) {
    var e := Paced(e0, env);
    var allowed := Allowed(e0, env);
    var n := MinN(MinN(allowed, Unsent(e.snd)), MaxPayload(e));
    if n > 0 then NewNow(e, n, env)
    else if allowed == 0 && Unsent(e.snd) > 0 && Inflight(e.snd) == 0 && e.snd.wnd == 0 then
      var e1 := PersistArmed(e, env);
      if e1.snd.sendProbe then ProbeNow(e1) else StepFin(e1, env)
    else StepFin(e, env)
  }

  /** Step 2: the FIN, once all data is sent. */
  function StepFin(e: Endpoint, env: Env): (Endpoint, Option<Segment>) {
    if e.snd.finQueued && !e.snd.finAcked && e.snd.nxt == DataEnd(e.snd) then
      var (e1, g) := Build(e, DataEnd(e.snd), true, []);
      (e1.(snd := e1.snd.(finSeq := Some(DataEnd(e.snd)), nxt := DataEnd(e.snd) + 1), t := StartRtx(e1.t, env),
           state := if e.state.Established? then FinWait1 else if e.state.CloseWait? then LastAck else e.state),
       Some(g))
    else (e, None)
  }

  function PureAck(e: Endpoint): (Endpoint, Option<Segment>) {
    if e.rcv.needsAck then
      var (e1, g) := Build(e.(rcv := e.rcv.(needsAck := false)), e.snd.nxt, false, []);
      (e1, Some(g))
    else (e, None)
  }

  function Poll(e: Endpoint, env: Env): (Endpoint, Option<Segment>) {
    if e.owedRst.Some? then
      (e.(owedRst := None), Some(Segment(e.owedRst.value, 0, true, false, false, false, 0, 0, [], [])))
    else if e.state.Closed? then (e, None)
    else if e.state.TimeWait? then PureAck(e)
    else
      var (e1, g) := StepRetransmit(e, env);
      if g.Some? then (e1, g) else PureAck(e1)
  }

  // ── timers ──────────────────────────────────────────────────────────────────────────────────

  function Earliest(a: Option<nat>, b: Option<nat>): Option<nat> {
    if a.None? then b else if b.None? then a else Some(MinN(a.value, b.value))
  }

  /** The earliest armed deadline. */
  function PollAt(e: Endpoint): Option<nat> {
    Earliest(e.t.rtx, Earliest(e.t.persist, Earliest(e.t.timeWait, Earliest(e.t.delayedAck, e.t.pace))))
  }

  /** Some timer is armed for `d`. */
  predicate ArmedAt(t: Timers, d: nat) {
    t.rtx == Some(d) || t.persist == Some(d) || t.timeWait == Some(d) || t.delayedAck == Some(d) || t.pace == Some(d)
  }

  /** A timer is armed for `d`, and none for less. */
  ghost predicate LeastArmed(t: Timers, d: nat) { ArmedAt(t, d) && forall x :: ArmedAt(t, x) ==> d <= x }

  predicate Due(d: Option<nat>, now: nat) { d.Some? && now >= d.value }

  function RtxTimer(e: Endpoint, env: Env): Endpoint {
    if Due(e.t.rtx, env.now) then
      e.(snd := e.snd.(board := if e.cfg.sack then Rfc6675.OnRto(e.snd.board) else e.snd.board,
                       retransmit := true, gbn := Some(e.snd.nxt)),
         cc := Congestion.OnRto(e.cc, Inflight(e.snd)), t := RestartRtx(e.t, env))
    else e
  }

  function PersistTimer(e: Endpoint, env: Env): Endpoint {
    if Due(e.t.persist, env.now) then
      var b := MinN(e.t.backoff * 2, PERSIST_MAX);
      e.(snd := e.snd.(sendProbe := true), t := e.t.(backoff := b, persist := Some(env.now + b)))
    else e
  }

  function OnTimer(e: Endpoint, env: Env): Endpoint {
    var e1 := PersistTimer(RtxTimer(e, env), env);
    var e2 := if Due(e1.t.timeWait, env.now) then e1.(state := Closed) else e1;
    if Due(e2.t.delayedAck, env.now) then
      e2.(rcv := e2.rcv.(needsAck := true), t := e2.t.(delayedAck := None))
    else e2
  }
}
