/** What the fields of a connection look like on the wire, and that every comparison the code makes on
    32-bit numbers is the comparison of the positions they stand for. Tcb.dfy updates these images. */
module TcbImages {
  import opened Options
  import opened Serial
  import opened Runs
  import opened Rfc6675
  import opened Reassembly
  import opened Congestion
  import opened Endpoint
  import opened ReceiveSide
  import opened Connection
  import E = Endpoint
  import Network
  import FlowControl
  import ConnectionRuns
  import Sending
  import opened Sack
  import ReassemblyImpl
  import opened Buffers

  /** A segment as it is on the wire. */
  datatype WireSegment = WireSegment(seqNo: u32, ack: u32, rst: bool, syn: bool, fin: bool, hasAck: bool,
                                     window: nat, ace: nat, blocks: seq<WireRun>, payload: seq<byte>)

  /** The segment a connection reads it as. */
  function AsRead(e: E.Endpoint, w: WireSegment): E.Segment {
    E.Segment(Unwrap(e.rcv.nxt, w.seqNo), Unwrap(e.snd.nxt, w.ack), w.rst, w.syn, w.fin, w.hasAck,
              w.window, w.ace, Positions(e.snd.nxt, w.blocks), w.payload)
  }

  /** The wire image of a segment about to leave. */
  function AsSent(g: E.Segment): WireSegment {
    WireSegment(Wire(g.seqNo), Wire(g.ack), g.rst, g.syn, g.fin, g.hasAck, g.window, g.ace, OnWire(g.blocks), g.payload)
  }

  /** A segment is read back as it was sent when it lies within half the sequence space of where the
      reader is: the assumption under which positions and wire numbers say the same. */
  lemma ReadsWhatWasSent(e: E.Endpoint, g: E.Segment)
    requires e.rcv.nxt - HALF <= g.seqNo < e.rcv.nxt + HALF && e.snd.nxt - HALF <= g.ack < e.snd.nxt + HALF
    requires forall i :: 0 <= i < |g.blocks| ==>
               e.snd.nxt - HALF <= g.blocks[i].l < e.snd.nxt + HALF
                 && e.snd.nxt - HALF <= g.blocks[i].r < e.snd.nxt + HALF
    ensures AsRead(e, AsSent(g)) == g
  {
    WireIsInverse(e.rcv.nxt, g.seqNo);
    WireIsInverse(e.snd.nxt, g.ack);
    hide Unwrap, Wire;
    forall i | 0 <= i < |g.blocks| ensures Positions(e.snd.nxt, OnWire(g.blocks))[i] == g.blocks[i] {
      WireIsInverse(e.snd.nxt, g.blocks[i].l);
      WireIsInverse(e.snd.nxt, g.blocks[i].r);
    }
    assert Positions(e.snd.nxt, OnWire(g.blocks)) == g.blocks;
  }

  function WireOption(p: Option<int>): Option<u32> { match p case None => None case Some(x) => Some(Wire(x)) }

  /** The segment lies within half the sequence space of the receiver's position (section 3.2 of RFC
      1982), and so does a remembered FIN. */
  predicate Near(r: E.Receiver, g: E.Segment) {
    && r.nxt - HALF <= g.seqNo && g.seqNo + SegLen(g) < Smaller(r.nxt, r.adv) + HALF
    && (r.pendingFin.Some? ==> r.nxt - HALF <= r.pendingFin.value && r.pendingFin.value < r.nxt + HALF)
  }

  /** RCV.NXT never runs more than one buffer past the advertised edge. */
  predicate EdgeNear(r: E.Receiver) { r.nxt - RX_BUFFER <= r.adv }

  // ── the objects a connection holds, apart from the window they are valid in ─────────────────

  ghost predicate RingRep(ring: RingBuffer, capacity: nat, bytes: seq<byte>)
    reads ring
  {
    ring.Valid() && ring.capacity == capacity && ring.buf == bytes
  }

  ghost predicate BoardRep(s: Scoreboard, b: Board)
    reads s
  {
    && s.at == b && s.sacked == OnWire(b.sacked) && s.rexmit == OnWire(b.rexmit) && s.rescueDone == b.rescueDone
    && s.recoveryPoint == WireOption(b.recoveryPoint)
  }

  lemma BoardValid(s: Scoreboard, b: Board, lo: int, hi: int)
    requires BoardRep(s, b) && Rfc6675.Valid(b, lo, hi) && 0 <= hi - lo < HALF
    ensures s.Valid(lo, hi) && s.at == b && s.recoveryPoint == WireOption(b.recoveryPoint)
  {}

  lemma BoardIsRep(s: Scoreboard, lo: int, hi: int)
    requires s.Valid(lo, hi)
    ensures BoardRep(s, s.at)
  {}

  ghost predicate ReasmRep(s: ReassemblyImpl.ReasmBuffer, r: Reasm)
    reads s
  {
    s.at == r && s.runs == ReassemblyImpl.OnWire(r.chunks) && s.bytes == Buffered(r.chunks) && s.nextStamp == r.stamp
  }

  lemma ReasmValid(s: ReassemblyImpl.ReasmBuffer, r: E.Receiver, sack: bool, lo: int, hi: int)
    requires ReasmRep(s, r.reasm) && PoolInv(r, sack) && lo <= Floor(r) && PoolEnd(r) <= hi && 0 <= hi - lo < HALF
    ensures s.Valid(lo, hi) && s.at == r.reasm && s.bytes == Buffered(r.reasm.chunks) && |s.runs| == |r.reasm.chunks|
  {
    WithinWidens(Spans(r.reasm.chunks), Floor(r), PoolEnd(r), lo, hi);
  }

  lemma ReasmIsRep(s: ReassemblyImpl.ReasmBuffer, lo: int, hi: int)
    requires s.Valid(lo, hi)
    ensures ReasmRep(s, s.at)
  {}

  // ── the plain fields of each half ───────────────────────────────────────────────────────────

  datatype SendFields = SendFields(una: u32, nxt: u32, wnd: nat, wl1: u32, wl2: u32, retransmit: bool,
                                   gbn: Option<u32>, sendProbe: bool, finQueued: bool, finSeq: Option<u32>,
                                   finAcked: bool, aceSeen: nat)

  function SendImage(s: E.Sender): SendFields {
    SendFields(Wire(s.una), Wire(s.nxt), s.wnd, s.wl1, s.wl2, s.retransmit, WireOption(s.gbn), s.sendProbe,
               s.finQueued, WireOption(s.finSeq), s.finAcked, s.aceSeen)
  }

  datatype RecvFields = RecvFields(nxt: u32, adv: u32, pendingFin: Option<u32>, peerFin: bool, cep: nat,
                                   needsAck: bool, unackedSegs: nat)

  function RecvImage(r: E.Receiver): RecvFields {
    RecvFields(Wire(r.nxt), Wire(r.adv), WireOption(r.pendingFin), r.peerFin, r.cep, r.needsAck, r.unackedSegs)
  }

  /** What a window update does to the fields. */
  lemma UpdateImage(e: E.Endpoint, g: E.Segment)
    ensures var f := UpdateWindow(e, g);
            var i := SendImage(e.snd);
            var taken := Lt(i.wl1, Wire(g.seqNo)) || (i.wl1 == Wire(g.seqNo) && Le(i.wl2, Wire(g.ack)));
            && f == e.(snd := f.snd, t := f.t) && f.snd.tx == e.snd.tx && f.snd.board == e.snd.board
            && (!taken ==> f == e)
            && (taken && g.window > 0 ==>
                  && f.t == e.t.(persist := None, backoff := PERSIST_MIN)
                  && SendImage(f.snd) == i.(wnd := ShiftLeft(g.window, e.cfg.sndWscale), wl1 := Wire(g.seqNo),
                                            wl2 := Wire(g.ack), sendProbe := false))
            && (taken && g.window == 0 ==>
                  && f.t == e.t
                  && SendImage(f.snd) == i.(wnd := ShiftLeft(g.window, e.cfg.sndWscale), wl1 := Wire(g.seqNo),
                                            wl2 := Wire(g.ack)))
  {
    hide ShiftLeft, Lt, Le, Wire;
  }

  /** The controller after the bytes and the marks of an advancing ACK. */
  function Counted(e: E.Endpoint, g: E.Segment, dataAcked: nat): Cc {
    var inRecovery := e.cfg.sack && InRecovery(e.snd.board);
    var c1 := if inRecovery then e.cc else CcAck(e.cc, dataAcked);
    if EcnEnabled(e) && !inRecovery
    then Congestion.OnEcn(c1, dataAcked, MinN(((g.ace - e.snd.aceSeen) % 8) * e.cfg.mss, dataAcked)) else c1
  }

  lemma CountedKeeps(e: E.Endpoint, g: E.Segment, dataAcked: nat)
    requires CcInv(e.cc, e.cfg)
    ensures CcInv(Counted(e, g, dataAcked), e.cfg)
  {
    CcAckKeeps(e.cc, dataAcked, e.cfg);
    var c1 := if e.cfg.sack && InRecovery(e.snd.board) then e.cc else CcAck(e.cc, dataAcked);
    EcnKeeps(c1, dataAcked, MinN(((g.ace - e.snd.aceSeen) % 8) * e.cfg.mss, dataAcked), e.cfg);
    hide CcAck, Congestion.OnEcn, CcInv, InRecovery;
  }

  lemma BoardInWindow(s: E.Sender, sack: bool)
    requires SendInv(s, sack)
    ensures 0 <= s.nxt - s.una <= TX_BUFFER + 1 < HALF && Rfc6675.Valid(s.board, s.una, s.nxt)
    ensures s.board.recoveryPoint.Some? ==> s.una < s.board.recoveryPoint.value <= s.nxt
  {}

  lemma UnaOf(s: E.Sender)
    ensures SendImage(s).una == Wire(s.una) && SendImage(s).nxt == Wire(s.nxt) && SendImage(s).aceSeen == s.aceSeen
  {}

  lemma GbnOf(s: E.Sender)
    ensures SendImage(s).gbn.Some? <==> s.gbn.Some?
  {}

  lemma ValidWindow(s: Scoreboard, lo: int, hi: int)
    requires s.Valid(lo, hi)
    ensures Rfc6675.Valid(s.at, lo, hi)
  {}

  lemma PointOf(s: Scoreboard, b: Board)
    requires BoardRep(s, b)
    ensures s.recoveryPoint.Some? <==> InRecovery(b)
  {}

  lemma CcPositive(c: Cc, cfg: Config)
    requires CcInv(c, cfg)
    ensures c.cwnd > 0 && c.mss > 0 && forall n: nat :: CcAck(c, n) == Congestion.OnAck(c, n)
  {}

  /** And after the end of recovery and the RTT sample. */
  lemma AckCcSplits(e: E.Endpoint, g: E.Segment, env: Env, n: nat)
    ensures var c2 := Counted(e, g, n);
            var c3 := if e.cfg.sack && RecoveryReached(e.snd.board, g.ack) then CcAck(c2, 0) else c2;
            AckCc(e, g, env, n) == if env.srtt.Some? then OnRtt(c3, env.srtt.value) else c3
  {
    hide CcAck, Congestion.OnEcn, OnRtt, RecoveryReached, InRecovery;
  }

  /** The send fields after an advancing ACK, in the code's own comparisons. */
  function AdvancedFields(i: SendFields, w: u32, ace: nat, ecn: bool): SendFields {
    var draining := i.gbn.Some? && Lt(w, i.gbn.value) && w != i.nxt;
    i.(una := w, finAcked := i.finAcked || (i.finSeq.Some? && Gt(w, i.finSeq.value)),
       aceSeen := if ecn then ace % 8 else i.aceSeen,
       retransmit := i.retransmit || draining, gbn := if draining then i.gbn else None)
  }

  lemma AdvanceFrame(e: E.Endpoint, g: E.Segment, env: Env)
    requires SendInv(e.snd, e.cfg.sack) && e.snd.una < g.ack <= e.snd.nxt
    ensures var f := Advance(e, g, env); var n := MinN(g.ack - e.snd.una, |e.snd.tx|);
            && f == e.(snd := f.snd, cc := AckCc(e, g, env, n), t := f.t)
            && f.snd.tx == e.snd.tx[n..] && f.snd.board == AckBoard(e, g.ack)
            && f.t == (if Wire(g.ack) == Wire(e.snd.nxt) then e.t.(rtx := None) else RestartRtx(e.t, env))
  {
    hide Wire, Lt, Gt, AckCc, AckBoard, SendInv, RestartRtx;
    AckCompares(e.snd, e.cfg.sack, g.ack);
  }

  /** The wire comparisons of an ACK in the window are those of the positions. */
  lemma AckCompares(s: E.Sender, sack: bool, ack: int)
    requires SendInv(s, sack) && s.una < ack <= s.nxt
    ensures Wire(ack) == Wire(s.nxt) <==> ack == s.nxt
    ensures s.finSeq.Some? ==> (Gt(Wire(ack), Wire(s.finSeq.value)) <==> ack > s.finSeq.value)
    ensures s.gbn.Some? ==> (Lt(Wire(ack), Wire(s.gbn.value)) <==> ack < s.gbn.value)
  {
    Agree(ack, s.nxt);
    if s.finSeq.Some? { Agree(ack, s.finSeq.value); }
    if s.gbn.Some? { Agree(ack, s.gbn.value); }
    hide Wire, Lt, Gt, Rfc6675.Valid;
  }

  lemma AdvanceFields(e: E.Endpoint, g: E.Segment, env: Env)
    requires SendInv(e.snd, e.cfg.sack) && e.snd.una < g.ack <= e.snd.nxt
    ensures SendImage(Advance(e, g, env).snd) == AdvancedFields(SendImage(e.snd), Wire(g.ack), g.ace, EcnEnabled(e))
  {
    AckCompares(e.snd, e.cfg.sack, g.ack);
    hide Wire, Lt, Gt, AckCc, AckBoard, SendInv;
  }

  /** The wire tests on an ACK are the tests on the position it is read as. */
  lemma AckReads(e: E.Endpoint, w: WireSegment)
    requires SendInv(e.snd, e.cfg.sack)
    ensures var g := AsRead(e, w);
            && w.ack == Wire(g.ack) && w.seqNo == Wire(g.seqNo)
            && (Gt(w.ack, Wire(e.snd.nxt)) <==> g.ack > e.snd.nxt)
            && (g.ack <= e.snd.nxt ==> (Gt(w.ack, Wire(e.snd.una)) <==> g.ack > e.snd.una))
            && (w.ack == Wire(e.snd.una) <==> g.ack == e.snd.una)
            && (Wire(e.snd.una) == Wire(e.snd.nxt) <==> e.snd.una == e.snd.nxt)
  {
    BoardInWindow(e.snd, e.cfg.sack);
    UnwrapIsInverse(e.snd.nxt, w.ack);
    UnwrapIsInverse(e.rcv.nxt, w.seqNo);
    var a := Unwrap(e.snd.nxt, w.ack);
    Agree(a, e.snd.nxt);
    Agree(e.snd.una, e.snd.nxt);
    hide Wire, Gt, Unwrap, SendInv;
    WireApart(a, e.snd.una, e.snd.nxt);
  }

  lemma WireApart(a: int, una: int, nxt: int)
    requires nxt - HALF <= a < nxt + HALF && nxt - TX_BUFFER - 1 <= una <= nxt
    ensures Wire(a) == Wire(una) <==> a == una
    ensures a <= nxt ==> (Gt(Wire(a), Wire(una)) <==> a > una)
  {
    if a - una < HALF { Agree(a, una); } else { WireDifference(a, una); }
  }

  lemma FlightReads(s: E.Sender, sack: bool)
    requires SendInv(s, sack)
    ensures OffsetFrom(Wire(s.nxt), Wire(s.una)) == Inflight(s) && s.una <= s.nxt
  {
    OffsetAgrees(s.nxt, s.una);
  }

  lemma BoardOnly(s: E.Sender, b: Board)
    ensures SendImage(s.(board := b)) == SendImage(s)
  {}

  lemma DetectQuiet(e: E.Endpoint, g: E.Segment, dup: bool, env: Env)
    requires InRecovery(Update(e.snd.board, e.snd.una, e.snd.nxt, g.blocks)) || e.snd.gbn.Some?
    ensures DetectSack(e, g, dup, env)
            == e.(snd := e.snd.(board := Update(e.snd.board, e.snd.una, e.snd.nxt, g.blocks)))
  {
    hide Update, InRecovery;
  }

  lemma DetectLooks(e: E.Endpoint, g: E.Segment, dup: bool, env: Env)
    requires SendInv(e.snd, e.cfg.sack)
    requires !InRecovery(Update(e.snd.board, e.snd.una, e.snd.nxt, g.blocks)) && e.snd.gbn.None?
    ensures var s := e.snd; var b := Update(s.board, s.una, s.nxt, g.blocks);
            var (c1, three) := CountDup(e.cc, dup, s.nxt - s.una);
            var lost := IsLost(b, s.una, e.cfg.mss);
            DetectSack(e, g, dup, env)
            == e.(snd := s.(board := if three || lost then BeginRecovery(b, s.nxt) else b),
                  cc := if lost && !three then Congestion.EnterRecovery(c1, s.nxt - s.una) else c1,
                  t := if three || lost then RestartRtx(e.t, env) else e.t)
  {
    FlightReads(e.snd, e.cfg.sack);
    hide Update, CountDup, IsLost, BeginRecovery, Congestion.EnterRecovery, RestartRtx, InRecovery, SendInv, OffsetFrom;
  }

  lemma DrainingValid(s: ReassemblyImpl.ReasmBuffer, r: E.Receiver)
    requires ReasmRep(s, r.reasm) && Draining(r)
    ensures s.Valid(r.nxt, PoolEnd(r)) && s.at == r.reasm && r.nxt <= PoolEnd(r) < r.nxt + HALF
  {}

  lemma CepOf(r: E.Receiver)
    ensures RecvImage(r).cep == r.cep
  {}

  lemma NxtOf(r: E.Receiver)
    ensures RecvImage(r).nxt == Wire(r.nxt) && RecvImage(r).adv == Wire(r.adv)
  {}

  lemma PopShrinks(r: E.Receiver)
    ensures var (run, rest) := Pop(r.reasm.chunks, r.nxt);
            && (run != [] ==> |rest| < |r.reasm.chunks|)
            && (run == [] ==> E.DrainReasm(r) == r.(reasm := r.reasm.(chunks := rest)))
            && (run != [] && Deliver(r.(reasm := r.reasm.(chunks := rest)), run).1 == |run| ==>
                  E.DrainReasm(r) == E.DrainReasm(Deliver(r.(reasm := r.reasm.(chunks := rest)), run).0)
                  && Deliver(r.(reasm := r.reasm.(chunks := rest)), run).0.reasm.chunks == rest)
  {}

  lemma ReasmOnly(r: E.Receiver, m: Reasm)
    ensures RecvImage(r.(reasm := m)) == RecvImage(r)
  {}

  lemma PoolFacts(r: E.Receiver, sack: bool)
    requires PoolInv(r, sack)
    ensures |r.rx| <= RX_BUFFER && r.nxt <= Floor(r) && r.adv <= r.nxt + RX_BUFFER
  {}

  /** The sequence space an absorbed segment can take: no more than the ring. */
  lemma AbsorbPoolEnd(r: E.Receiver, g: E.Segment, sack: bool)
    requires PoolInv(r, sack)
    ensures PoolEnd(E.Absorb(r, g, sack)) == PoolEnd(r) && r.nxt <= E.Absorb(r, g, sack).nxt <= r.nxt + RX_BUFFER
  {
    AbsorbKeepsPool(r, g, sack);
    PoolFacts(E.Absorb(r, g, sack), sack);
    var (at, data) := TrimLeft(r, g);
    hide Within, Spans, WellFormed, E.DrainReasm, DiscardBelow, TrimLeft, E.RightEdge, PoolInv;
    if data != [] && at == r.nxt {
      InOrderKeeps(r, data, sack);
      var r1 := E.Deliver(r, data).0;
      if sack { DrainKeeps(r1.(reasm := r1.reasm.(chunks := DiscardBelow(r1.reasm.chunks, r1.nxt)))); }
    }
  }

  lemma EdgeBounds(r: E.Receiver)
    ensures Smaller(r.nxt, r.adv) <= E.RightEdge(r)
  {}

  lemma TrimEnds(r: E.Receiver, g: E.Segment)
    requires Near(r, g)
    ensures TrimLeft(r, g).1 != [] ==> TrimLeft(r, g).0 + |TrimLeft(r, g).1| < Smaller(r.nxt, r.adv) + HALF
  {}

  lemma AcceptedReads(r: E.Receiver, g: E.Segment, sack: bool)
    requires PoolInv(r, sack)
    ensures var d := E.Absorb(r, g, sack);
            Accepted(r, d) <==> Wire(d.nxt) != Wire(r.nxt) || Buffered(d.reasm.chunks) > Buffered(r.reasm.chunks)
  {
    AbsorbPoolEnd(r, g, sack);
    Agree(E.Absorb(r, g, sack).nxt, r.nxt);
    hide E.Absorb, PoolInv, Wire, Buffered;
  }

  /** The counters and the ACK schedule after a data segment. */
  function Scheduled(i: RecvFields, marked: bool, clean: bool): RecvFields {
    var j := if marked then i.(cep := (i.cep + 1) % 256) else i;
    if !clean then j.(needsAck := true)
    else if j.unackedSegs + 1 >= 2 then j.(needsAck := true, unackedSegs := 0)
    else j.(unackedSegs := j.unackedSegs + 1)
  }

  function DelayAck(t: Timers, defer: bool, env: Env): Timers {
    if defer && t.delayedAck.None? then t.(delayedAck := Some(env.now + DELAYED_ACK)) else t
  }

  lemma DataStepIs(e: E.Endpoint, g: E.Segment, env: Env)
    requires g.payload != []
    ensures var d := E.Absorb(e.rcv, g, e.cfg.sack);
            var marked := EcnEnabled(e) && env.ce && Accepted(e.rcv, d);
            var clean := InOrder(e.rcv, g) && E.Deliver(e.rcv, TrimLeft(e.rcv, g).1).1 == |TrimLeft(e.rcv, g).1|
                         && Buffered(e.rcv.reasm.chunks) == 0;
            var f := DataStep(e, g, env);
            && RecvImage(f.rcv) == Scheduled(RecvImage(d), marked, clean) && f.rcv.rx == d.rx && f.rcv.reasm == d.reasm
            && f == e.(rcv := f.rcv, t := DelayAck(e.t, clean && d.unackedSegs == 0, env))
  {
    hide E.Absorb, Accepted, InOrder, E.Deliver, TrimLeft, Buffered, Wire, WireOption;
  }

  /** Below a whole turn of the sequence space, equal wire numbers are equal positions. */
  lemma WireSame(x: int, y: int)
    requires -MOD < x - y < MOD
    ensures Wire(x) == Wire(y) <==> x == y
  {
    WireDifference(x, y);
  }

  lemma FinFrame(r: E.Receiver, g: E.Segment)
    ensures var f := E.FinArrives(r, g);
            && f.rx == r.rx && f.reasm == r.reasm
            && E.FinFromPending(f).rx == r.rx && E.FinFromPending(f).reasm == r.reasm
            && (!f.peerFin ==>
                  f.nxt == r.nxt && (f.pendingFin == r.pendingFin || f.pendingFin == Some(g.seqNo + |g.payload|)))
  {}

  lemma FinReads(r: E.Receiver, g: E.Segment)
    requires -MOD < g.seqNo + |g.payload| - r.nxt < MOD
    requires r.pendingFin.Some? ==> -MOD < r.pendingFin.value - r.nxt < MOD
    ensures Add(Wire(g.seqNo), |g.payload|) == Wire(g.seqNo + |g.payload|)
    ensures Wire(g.seqNo + |g.payload|) == Wire(r.nxt) <==> g.seqNo + |g.payload| == r.nxt
    ensures Add(Wire(r.nxt), 1) == Wire(r.nxt + 1)
    ensures WireOption(r.pendingFin) == Some(Wire(r.nxt)) <==> r.pendingFin == Some(r.nxt)
  {
    AddIsWire(g.seqNo, |g.payload|);
    AddIsWire(r.nxt, 1);
    WireSame(g.seqNo + |g.payload|, r.nxt);
    if r.pendingFin.Some? { WireSame(r.pendingFin.value, r.nxt); }
    hide Wire, Add;
  }

  /** The trimmed start and payload, tested on the wire. */
  lemma TrimReads(r: E.Receiver, g: E.Segment)
    requires r.nxt - HALF <= g.seqNo < r.nxt + HALF
    ensures Lt(Wire(g.seqNo), Wire(r.nxt)) <==> g.seqNo < r.nxt
    ensures g.seqNo < r.nxt ==> OffsetFrom(Wire(r.nxt), Wire(g.seqNo)) == r.nxt - g.seqNo
    ensures TrimLeft(r, g).0 >= r.nxt && TrimLeft(r, g).0 < r.nxt + HALF
    ensures Wire(TrimLeft(r, g).0) == Wire(r.nxt) <==> TrimLeft(r, g).0 == r.nxt
  {
    Agree(g.seqNo, r.nxt);
    if g.seqNo < r.nxt { OffsetAgrees(r.nxt, g.seqNo); }
    hide Wire, Lt, OffsetFrom;
  }

  lemma EdgeReads(r: E.Receiver, sack: bool)
    requires PoolInv(r, sack) && EdgeNear(r)
    ensures var used := |r.rx| + Buffered(r.reasm.chunks);
            var budget := MinN(if used <= RX_BUFFER then RX_BUFFER - used else 0, 0xFFFF);
            Serial.Min(Add(Wire(r.nxt), budget), Wire(r.adv)) == Wire(E.RightEdge(r))
  {
    var used := |r.rx| + Buffered(r.reasm.chunks);
    var budget := MinN(if used <= RX_BUFFER then RX_BUFFER - used else 0, 0xFFFF);
    AddIsWire(r.nxt, budget);
    MinMaxAgree(r.nxt + budget, r.adv);
    hide Wire, Add, Serial.Min;
  }

  /** The facts the receive steps need, before and after the data has moved RCV.NXT. */
  lemma NearAfter(r: E.Receiver, g: E.Segment, d: E.Receiver)
    requires Near(r, g) && r.nxt <= d.nxt <= r.nxt + RX_BUFFER && d.pendingFin == r.pendingFin
    ensures -MOD < g.seqNo + |g.payload| - d.nxt < MOD
    ensures d.pendingFin.Some? ==> -MOD < d.pendingFin.value - d.nxt < MOD
  {}

  lemma DataMoves(e: E.Endpoint, g: E.Segment, env: Env)
    requires PoolInv(e.rcv, e.cfg.sack)
    ensures var r := DataStep(e, g, env).rcv;
            e.rcv.nxt <= r.nxt <= e.rcv.nxt + RX_BUFFER && r.pendingFin == e.rcv.pendingFin
  {
    AbsorbPoolEnd(e.rcv, g, e.cfg.sack);
    AbsorbKeepsPool(e.rcv, g, e.cfg.sack);
    hide E.Absorb, PoolInv, InOrder, Accepted, E.Deliver, TrimLeft, Buffered;
  }

  lemma FinStepsOnce(r: E.Receiver, g: E.Segment)
    ensures var f := E.FinFromPending(E.FinArrives(r, g)); f.nxt <= r.nxt + 1 && f.adv == r.adv
  {}

  /** Data is acceptable only while RCV.NXT is left of the edge, so it overshoots by one buffer at most. */
  lemma EdgeStaysNear(e: E.Endpoint, g: E.Segment, env: Env)
    requires Consistent(e) && EdgeNear(e.rcv)
    ensures EdgeNear(OnSegment(e, g, env).rcv)
  {
    StartFacts(e);
    Network.SegmentReceives(e, g, env);
    FlowControl.SegmentAdv(e, g, env);
    AbsorbPoolEnd(e.rcv, g, e.cfg.sack);
    FinStepsOnce(if g.payload == [] then e.rcv else E.Absorb(e.rcv, g, e.cfg.sack), g);
    hide OnSegment, E.Absorb, E.FinArrives, E.FinFromPending, Consistent, PoolInv, SendInv, CcInv;
  }

  lemma AckStepFacts(e: E.Endpoint, g: E.Segment, env: Env)
    requires Consistent(e) && !e.state.TimeWait?
    ensures var (f, ok) := ProcessAck(e, g, env);
            ok ==> SendInv(f.snd, f.cfg.sack) && f.rcv == e.rcv && f.cfg == e.cfg && f.snd.nxt == e.snd.nxt
  {
    ProcessAckKeeps(e, g, env);
    hide ProcessAck, PoolInv, CcInv, SendInv;
  }

  lemma StartFacts(e: E.Endpoint)
    requires Consistent(e)
    ensures SendInv(e.snd, e.cfg.sack) && PoolInv(e.rcv, e.cfg.sack) && CcInv(e.cc, e.cfg) && ConfigOk(e.cfg)
    ensures e.rcv.adv <= e.rcv.nxt + RX_BUFFER
  {}

  /** What the code needs of a connection to send from it. */
  ghost predicate Sendable(e: E.Endpoint) {
    SendInv(e.snd, e.cfg.sack) && PoolInv(e.rcv, e.cfg.sack) && ConfigOk(e.cfg) && EdgeNear(e.rcv)
  }

  lemma SendableParts(e: E.Endpoint)
    requires Sendable(e)
    ensures SendInv(e.snd, e.cfg.sack) && PoolInv(e.rcv, e.cfg.sack) && ConfigOk(e.cfg) && EdgeNear(e.rcv)
  {}

  function Sent(g: Option<E.Segment>): Option<WireSegment> {
    match g case None => None case Some(x) => Some(AsSent(x))
  }

  /** What building a segment leaves: the advertised edge, nothing unacknowledged to count. */
  lemma BuildFrame(e: E.Endpoint, x: int, fin: bool, payload: seq<byte>)
    requires PoolInv(e.rcv, e.cfg.sack)
    ensures var r := Advertise(e.rcv, e.cfg);
            var (f, g) := Build(e, x, fin, payload);
            && f == e.(rcv := r.(unackedSegs := 0), t := e.t.(delayedAck := None)) && r.adv >= r.nxt
            && RecvImage(f.rcv) == RecvImage(r).(unackedSegs := 0) && f.rcv.rx == r.rx && f.rcv.reasm == r.reasm
            && r.rx == e.rcv.rx && r.reasm == e.rcv.reasm && r.nxt == e.rcv.nxt && r.cep == e.rcv.cep
            && g == E.Segment(x, r.nxt, false, false, fin, true,
                              MinN(ShiftRight(r.adv - r.nxt, e.cfg.rcvWscale), 0xFFFF),
                              if EcnEnabled(e) then e.rcv.cep % 8 else 0,
                              if e.cfg.sack then Reassembly.Report(e.rcv.reasm.chunks, MAX_SACK_BLOCKS) else [],
                              payload)
  {
    AdvertiseKeepsPool(e.rcv, e.cfg);
    hide PoolInv, ShiftRight, ShiftLeft, Reassembly.Report, Wire, WireOption;
  }

  /** The end of the ring on the wire. */
  lemma EndReads(s: E.Sender, sack: bool)
    requires SendInv(s, sack)
    ensures Add(Wire(s.una), |s.tx|) == Wire(DataEnd(s))
    ensures Wire(s.nxt) == Wire(DataEnd(s)) <==> s.nxt == DataEnd(s)
    ensures Add(Wire(DataEnd(s)), 1) == Wire(DataEnd(s) + 1)
  {
    BoardInWindow(s, sack);
    AddIsWire(s.una, |s.tx|);
    AddIsWire(DataEnd(s), 1);
    RingFits(s, sack);
    WireSame(s.nxt, DataEnd(s));
    hide Wire, Add, SendInv;
  }

  lemma RingFits(s: E.Sender, sack: bool)
    requires SendInv(s, sack)
    ensures |s.tx| <= TX_BUFFER
  {}

  lemma FinImage(s: E.Sender)
    ensures SendImage(s.(finSeq := Some(DataEnd(s)), nxt := DataEnd(s) + 1))
         == SendImage(s).(finSeq := Some(Wire(DataEnd(s))), nxt := Wire(DataEnd(s) + 1))
  {}

  lemma NextImage(s: E.Sender, n: nat)
    ensures SendImage(s.(nxt := s.nxt + n)) == SendImage(s).(nxt := Add(Wire(s.nxt), n))
  {
    AddIsWire(s.nxt, n);
  }

  lemma FlagImage(s: E.Sender)
    ensures SendImage(s.(sendProbe := false)) == SendImage(s).(sendProbe := false)
    ensures SendImage(s.(retransmit := false)) == SendImage(s).(retransmit := false)
  {}

  /** Flags and timers do not matter to sending. */
  lemma FlagsSendable(e: E.Endpoint, f: E.Endpoint)
    requires Sendable(e) && f.cfg == e.cfg && f.rcv == e.rcv
    requires f.snd == e.snd.(retransmit := f.snd.retransmit, sendProbe := f.snd.sendProbe)
    ensures Sendable(f)
  {
    hide PoolInv, Rfc6675.Valid;
  }

  /** Steps 1 and 2 once the pacer has spoken. */
  function NewStep(e: E.Endpoint, allowed: nat, env: Env): (E.Endpoint, Option<E.Segment>) {
    var n := MinN(MinN(allowed, Unsent(e.snd)), MaxPayload(e));
    if n > 0 then NewNow(e, n, env)
    else if allowed == 0 && Unsent(e.snd) > 0 && Inflight(e.snd) == 0 && e.snd.wnd == 0 then
      var e1 := PersistArmed(e, env);
      if e1.snd.sendProbe then ProbeNow(e1) else StepFin(e1, env)
    else StepFin(e, env)
  }

  lemma StepNewSplits(e: E.Endpoint, env: Env)
    ensures StepNew(e, env) == NewStep(Paced(e, env), Allowed(e, env), env)
    ensures Paced(e, env).snd == e.snd && Paced(e, env).rcv == e.rcv && Paced(e, env).cfg == e.cfg
    ensures MaxPayload(Paced(e, env)) == MaxPayload(e)
  {
    hide NewNow, PipeOf, ProbeNow, StepFin, Inflight, Unsent;
  }

  /** The hole to repair lies inside the outstanding window. */
  lemma HoleReads(s: E.Sender, sack: bool, x: int, rescue: bool, mss: nat)
    requires SendInv(s, sack) && NextSeg(s.board, s.una, s.nxt, mss) == Some((x, rescue))
    ensures s.una <= x < s.nxt && x + UnsackedRunLen(s.board, x, s.nxt) <= s.nxt
  {
    BoardInWindow(s, sack);
    NextSegIsLowest(s.board, s.una, s.nxt, mss);
    UnsackedRunIsUnsacked(s.board, x, s.nxt);
    hide SendInv, NextSeg, UnsackedRunLen;
  }

  lemma OffsetReads(s: E.Sender, sack: bool, x: int)
    requires SendInv(s, sack) && s.una <= x <= s.nxt
    ensures OffsetFrom(Wire(x), Wire(s.una)) == x - s.una
  {
    BoardInWindow(s, sack);
    OffsetAgrees(x, s.una);
  }

  lemma FinSlotReads(s: E.Sender, sack: bool)
    requires SendInv(s, sack)
    ensures s.finSeq.Some? ==> (Wire(s.una) == Wire(s.finSeq.value) <==> s.una == s.finSeq.value)
  {
    if s.finSeq.Some? { WireSame(s.una, s.finSeq.value); }
    hide Wire;
  }

  lemma MarkedParts(b: Board, x: int, n: nat, rescue: bool)
    ensures Marked(b, x, n, rescue)
         == if rescue then Rfc6675.SetRescueDone(Rfc6675.MarkRexmit(b, x, x + n)) else Rfc6675.MarkRexmit(b, x, x + n)
  {}

  /** How much of the hole at `x` one segment takes. */
  function RepairSize(e: E.Endpoint, x: int): nat
    requires x >= e.snd.una
  {
    MinN(MinN(UnsackedRunLen(e.snd.board, x, e.snd.nxt), MaxPayload(e)), Monus(|e.snd.tx|, x - e.snd.una))
  }

  lemma RepairChoice(e: E.Endpoint, x: int, rescue: bool, env: Env)
    requires e.cfg.sack && InRecovery(e.snd.board) && e.cc.cwnd > PipeOf(e) && x >= e.snd.una
    requires NextSeg(e.snd.board, e.snd.una, e.snd.nxt, e.cfg.mss) == Some((x, rescue))
    ensures RepairSize(e, x) > 0 ==> StepRepair(e, env) == RepairNow(e, x, x - e.snd.una, RepairSize(e, x), rescue, env)
    ensures RepairSize(e, x) == 0 ==> StepRepair(e, env) == StepNew(e, env)
  {
    hide RepairNow, StepNew, MaxPayload, UnsackedRunLen, NextSeg, PipeOf, InRecovery;
  }

  lemma RetransmitChoice(e: E.Endpoint, env: Env)
    requires e.snd.retransmit && Inflight(e.snd) > 0
    ensures var e0 := e.(snd := e.snd.(retransmit := false));
            var n := MinN(SentData(e.snd), MaxPayload(e));
            var again := e.snd.finSeq == Some(e.snd.una) && !e.snd.finAcked;
            && (n > 0 ==> StepRetransmit(e, env) == (Resend(e0, 0, n, env).0, Some(Resend(e0, 0, n, env).1)))
            && (n == 0 && again ==>
                  var (f, g) := Build(e0, e.snd.una, true, []);
                  StepRetransmit(e, env) == (f.(t := StartRtx(f.t, env)), Some(g)))
            && (n == 0 && !again ==> StepRetransmit(e, env) == StepRepair(e0, env))
  {
    hide Resend, Build, MaxPayload, StepRepair, StartRtx;
  }

  /** The invariant of a connection, with the advertised edge within reach. */
  ghost predicate Ready(e: E.Endpoint) { Consistent(e) && EdgeNear(e.rcv) }

  lemma ReadyIsSendable(e: E.Endpoint)
    requires Ready(e)
    ensures Sendable(e)
  {
    StartFacts(e);
    hide Consistent, SendInv, PoolInv;
  }

  lemma PollStaysReady(e: E.Endpoint, env: Env)
    requires Ready(e)
    ensures Ready(Poll(e, env).0)
  {
    Sending.PollOk(e, env);
    FlowControl.PollEdge(e, env);
    PollNext(e, env);
    hide Poll, Consistent;
  }

  lemma PollNext(e: E.Endpoint, env: Env)
    requires Consistent(e)
    ensures Poll(e, env).0.rcv.nxt == e.rcv.nxt
  {
    Sending.PollOk(e, env);
    hide Consistent, Poll, Sending.Emits;
    if e.owedRst.None? && Poll(e, env).1.Some? {
      var k :| Sending.Emits(k, e, Poll(e, env).0, Poll(e, env).1.value);
      Network.EmitsFrame(k, e, Poll(e, env).0, Poll(e, env).1.value);
    }
  }

  /** Every entry point leaves a connection ready for the next. */
  lemma StepStaysReady(e: E.Endpoint, ev: ConnectionRuns.Input)
    requires Ready(e)
    ensures Ready(ConnectionRuns.Step(e, ev))
  {
    ConnectionRuns.StepKeeps(e, ev);
    match ev {
      case Arrive(g, env) => EdgeStaysNear(e, g, env); hide OnSegment, Consistent;
      case DoPoll(env) => PollStaysReady(e, env); hide Poll, Consistent;
      case Tick(env) => FlowControl.TimerSpace(e, env); hide OnTimer, Consistent;
      case _ => hide Consistent;
    }
  }
}
