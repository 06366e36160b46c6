/** The connection object of tcp-core/src/tcb.rs from Established on: 32-bit sequence numbers, every
    field updated in place, the rings, the scoreboard, the reassembly buffer and the controller held
    as objects. The ghost `at` is the connection of Endpoint.dfy it stands for, and every method is
    proved to compute the function of that name there; wire numbers are read as the positions
    nearest to SND.NXT and RCV.NXT. */
module TcbImpl {
  import opened Options
  import opened Serial
  import opened Runs
  import opened Rfc6675
  import opened Reassembly
  import opened Congestion
  import opened Endpoint
  import opened ReceiveSide
  import opened Connection
  import E = Endpoint
  import Network
  import FlowControl
  import ConnectionRuns
  import Sending
  import opened Sack
  import opened TcbImages
  import ReassemblyImpl
  import opened Buffers
  import opened ControllerImpl

  class Tcb {
    const cfg: Config
    const tx: RingBuffer
    const rx: RingBuffer
    const cc: Controller
    const scoreboard: Scoreboard
    const reasm: ReassemblyImpl.ReasmBuffer
    var state: E.State
    var reset: bool
    var snd: SendFields
    var rcv: RecvFields
    var deadlines: Timers
    var pendingReset: Option<u32>
    ghost var at: E.Endpoint

    /** The fields and the objects are the image of `at`. */
    function Footprint(): set<object> { {this, tx, rx, cc, scoreboard, reasm} }

    ghost predicate Valid()
      reads this, tx, rx, cc, scoreboard, reasm
    {
      && tx != rx && at.cfg == cfg && at.state == state && at.reset == reset && cc.View() == at.cc
      && at.t == deadlines && pendingReset == WireOption(at.owedRst)
      && snd == SendImage(at.snd) && rcv == RecvImage(at.rcv)
      && RingRep(tx, TX_BUFFER, at.snd.tx) && RingRep(rx, RX_BUFFER, at.rcv.rx)
      && BoardRep(scoreboard, at.snd.board) && ReasmRep(reasm, at.rcv.reasm)
    }

    lemma Assembled()
      requires tx != rx && at.cfg == cfg
      requires at.state == state && at.reset == reset
      requires cc.View() == at.cc
      requires at.t == deadlines
      requires pendingReset == WireOption(at.owedRst)
      requires snd == SendImage(at.snd)
      requires rcv == RecvImage(at.rcv)
      requires RingRep(tx, TX_BUFFER, at.snd.tx)
      requires RingRep(rx, RX_BUFFER, at.rcv.rx)
      requires BoardRep(scoreboard, at.snd.board)
      requires ReasmRep(reasm, at.rcv.reasm)
      ensures Valid()
    {}

    constructor (cfg: Config, law: Law, una: u32, rcvNxt: u32, wnd: nat, edge: u32,
                 ghost base: int, ghost peer: int, ghost adv: int)
      requires una == Wire(base) && rcvNxt == Wire(peer) && edge == Wire(adv)
      ensures Valid() && at == Opened(cfg, law, base, peer, wnd, adv)
      ensures fresh(tx) && fresh(rx) && fresh(cc) && fresh(scoreboard) && fresh(reasm)
    {
      this.cfg := cfg;
      tx := new RingBuffer(TX_BUFFER);
      rx := new RingBuffer(RX_BUFFER);
      cc := new Controller(law, cfg.mss);
      scoreboard := new Scoreboard();
      reasm := new ReassemblyImpl.ReasmBuffer();
      state, reset := Established, false;
      snd := SendFields(una, una, wnd, rcvNxt, una, false, None, false, false, None, false, ACE_INIT);
      rcv := RecvFields(rcvNxt, edge, None, false, ACE_INIT, false, 0);
      deadlines := Timers(None, None, PERSIST_MIN, None, None, None);
      pendingReset := None;
      at := Opened(cfg, law, base, peer, wnd, adv);
      new;
      BoardIsRep(scoreboard, 0, 0);
      ReasmIsRep(reasm, 0, 0);
    }

    // ── application interface ─────────────────────────────────────────────────────────────────

    method Send(data: seq<byte>) returns (n: nat)
      requires Valid()
      modifies this, tx
      ensures Valid() && (at, n) == E.Send(old(at), data)
    {
      hide BoardRep, ReasmRep;
      n := 0;
      if state.Established? || state.CloseWait? {
        n := tx.Write(data);
        at := at.(snd := at.snd.(tx := at.snd.tx + data[..n]));
      }
    }

    method Recv(dst: array<byte>) returns (n: nat)
      requires Valid()
      modifies this, rx, dst
      ensures Valid() && n <= dst.Length && (at, dst[..n]) == E.Recv(old(at), dst.Length)
    {
      hide BoardRep, ReasmRep;
      n := rx.Read(dst);
      at := at.(rcv := at.rcv.(rx := rx.buf));
      assert old(rx.buf)[..n] == dst[..n] && old(rx.buf)[n..] == rx.buf;
    }

    method Close()
      requires Valid()
      modifies this
      ensures Valid() && at == E.Close(old(at))
    {
      hide BoardRep, ReasmRep, RingRep;
      snd := snd.(finQueued := true);
      at := E.Close(at);
    }

    // ── acceptability ─────────────────────────────────────────────────────────────────────────

    predicate SeqInWindow(s: u32)
      reads this
    {
      if rcv.adv == rcv.nxt then s == rcv.nxt else Ge(s, rcv.nxt) && Lt(s, rcv.adv)
    }

    predicate SegmentAcceptable(s: u32, segLen: nat)
      reads this
    {
      var zero := rcv.adv == rcv.nxt;
      if segLen == 0 then (if zero then s == rcv.nxt else Ge(s, rcv.nxt) && Lt(s, rcv.adv))
      else
        var last := Add(s, segLen - 1);
        !zero && ((Ge(s, rcv.nxt) && Lt(s, rcv.adv)) || (Ge(last, rcv.nxt) && Lt(last, rcv.adv)))
    }

    lemma WindowAgrees(x: int, r: E.Receiver)
      requires rcv.nxt == Wire(r.nxt) && rcv.adv == Wire(r.adv) && r.nxt - RX_BUFFER <= r.adv <= r.nxt + RX_BUFFER
      requires r.nxt - HALF <= x < Smaller(r.nxt, r.adv) + HALF
      ensures SeqInWindow(Wire(x)) <==> E.SeqInWindow(r, x)
      ensures (Ge(Wire(x), rcv.nxt) && Lt(Wire(x), rcv.adv)) <==> r.nxt <= x < r.adv
    {
      Agree(x, r.nxt);
      Agree(r.adv, r.nxt);
      if x >= r.nxt { Agree(x, r.adv); }
      hide Wire, Lt, Ge;
    }

    lemma AcceptableAgrees(g: E.Segment, r: E.Receiver)
      requires rcv.nxt == Wire(r.nxt) && rcv.adv == Wire(r.adv)
      requires r.adv <= r.nxt + RX_BUFFER && Near(r, g) && EdgeNear(r)
      ensures SegmentAcceptable(Wire(g.seqNo), SegLen(g)) <==> Acceptable(r, g)
    {
      WindowAgrees(g.seqNo, r);
      Agree(g.seqNo, r.nxt);
      Agree(r.adv, r.nxt);
      if SegLen(g) > 0 {
        AddIsWire(g.seqNo, SegLen(g) - 1);
        WindowAgrees(g.seqNo + (SegLen(g) - 1), r);
      }
      hide Wire, Lt, Ge, Add, SegLen;
    }

    // ── ACK processing ────────────────────────────────────────────────────────────────────────

    method UpdateWindow(segSeq: u32, segAck: u32, segWnd: nat, ghost g: E.Segment)
      requires Valid() && segSeq == Wire(g.seqNo) && segAck == Wire(g.ack) && segWnd == g.window
      modifies this
      ensures Valid() && at == E.UpdateWindow(old(at), g)
    {
      hide ShiftLeft, Lt, Le, Wire, BoardRep, ReasmRep, RingRep, E.UpdateWindow;
      UpdateImage(at, g);
      if Lt(snd.wl1, segSeq) || (snd.wl1 == segSeq && Le(snd.wl2, segAck)) {
        snd := snd.(wnd := ShiftLeft(segWnd, cfg.sndWscale), wl1 := segSeq, wl2 := segAck);
        if segWnd > 0 {
          deadlines := deadlines.(persist := None, backoff := PERSIST_MIN);
          snd := snd.(sendProbe := false);
        }
      }
      at := E.UpdateWindow(at, g);
    }

    predicate EcnOn()
      reads cc
    {
      !cc.law.Reno?
    }

    /** The controller takes the bytes an ACK covers, and outside recovery the marks it reports. */
    method CountAck(dataAcked: nat, ace: nat, inRecovery: bool, ghost g: E.Segment)
      requires cc.View() == at.cc && CcInv(at.cc, at.cfg)
      requires at.cfg == cfg && ace == g.ace && snd.aceSeen == at.snd.aceSeen
      requires inRecovery == (cfg.sack && InRecovery(at.snd.board))
      modifies cc
      ensures cc.View() == Counted(at, g, dataAcked)
    {
      hide Congestion.OnAck, Congestion.OnEcn, CcInv, InRecovery;
      CcPositive(at.cc, cfg);
      var ecn := EcnOn();
      if !inRecovery { cc.OnAck(dataAcked); }
      if ecn && !inRecovery {
        var delta := (ace - snd.aceSeen) % 8;
        cc.OnEcn(dataAcked, MinN(delta * cfg.mss, dataAcked));
      }
    }

    /** Trim the scoreboard to the ACK; leave recovery if it has reached the recovery point. */
    method TrimScoreboard(ack: u32, ghost g: E.Segment) returns (left: bool)
      requires BoardRep(scoreboard, at.snd.board) && at.cfg == cfg && ack == Wire(g.ack)
      requires SendInv(at.snd, cfg.sack) && at.snd.una < g.ack <= at.snd.nxt
      modifies scoreboard
      ensures BoardRep(scoreboard, AckBoard(at, g.ack)) && left == (cfg.sack && RecoveryReached(at.snd.board, g.ack))
    {
      left := false;
      if cfg.sack {
        ghost var una, nxt := at.snd.una, at.snd.nxt;
        BoardInWindow(at.snd, cfg.sack);
        BoardValid(scoreboard, at.snd.board, una, nxt);
        TrimKeepsPoint(at.snd.board, g.ack);
        hide BoardRep, Scoreboard.Valid, Wire, SendInv, Rfc6675.Valid, TrimBoard;
        scoreboard.Trim(ack, g.ack, una, nxt);
        left := scoreboard.RecoveryReached(ack, g.ack, g.ack, nxt);
        if left { scoreboard.ExitRecovery(g.ack, nxt); }
        BoardIsRep(scoreboard, g.ack, nxt);
      }
    }

    /** The controller's and the scoreboard's share of an advancing ACK, in the order the code runs
        them: bytes, marks, trim, the end of recovery, the RTT sample. */
    method FeedAck(w: WireSegment, dataAcked: nat, env: Env, ghost g: E.Segment)
      requires cc.View() == at.cc && CcInv(at.cc, at.cfg) && at.cfg == cfg && snd.aceSeen == at.snd.aceSeen
      requires BoardRep(scoreboard, at.snd.board) && SendInv(at.snd, cfg.sack)
      requires g.ace == w.ace && w.ack == Wire(g.ack) && at.snd.una < g.ack <= at.snd.nxt
      modifies cc, scoreboard
      ensures cc.View() == AckCc(at, g, env, dataAcked) && BoardRep(scoreboard, AckBoard(at, g.ack))
    {
      hide SendInv, CcInv, BoardRep, AckCc, AckBoard, CcAck, Counted, Wire, OnRtt, Congestion.OnAck;
      AckCcSplits(at, g, env, dataAcked);
      var inRecovery := cfg.sack && scoreboard.recoveryPoint.Some?;
      PointOf(scoreboard, at.snd.board);
      CountAck(dataAcked, w.ace, inRecovery, g);
      CountedKeeps(at, g, dataAcked);
      CcPositive(Counted(at, g, dataAcked), cfg);
      var left := TrimScoreboard(w.ack, g);
      if left { cc.OnAck(0); }
      if env.srtt.Some? { cc.OnRttSample(env.srtt.value); }
    }

    /** The send fields and the timer at an advancing ACK. */
    method MoveUna(ack: u32, ace: nat, ecn: bool, env: Env)
      modifies `snd, `deadlines
      ensures snd == AdvancedFields(old(snd), ack, ace, ecn)
      ensures deadlines == if ack == old(snd).nxt then old(deadlines).(rtx := None) else RestartRtx(old(deadlines), env)
    {
      hide Lt, Gt, RestartRtx;
      deadlines := if ack == snd.nxt then deadlines.(rtx := None) else RestartRtx(deadlines, env);
      var draining := snd.gbn.Some? && Lt(ack, snd.gbn.value) && ack != snd.nxt;
      snd := snd.(una := ack, finAcked := snd.finAcked || (snd.finSeq.Some? && Gt(ack, snd.finSeq.value)),
                  aceSeen := if ecn then ace % 8 else snd.aceSeen,
                  retransmit := snd.retransmit || draining, gbn := if draining then snd.gbn else None);
    }

    /** SEG.ACK advances SND.UNA. */
    method AdvanceUna(w: WireSegment, env: Env, ghost g: E.Segment)
      requires Valid() && SendInv(at.snd, cfg.sack) && CcInv(at.cc, cfg)
      requires g.ace == w.ace && w.ack == Wire(g.ack) && at.snd.una < g.ack <= at.snd.nxt
      modifies this, tx, cc, scoreboard
      ensures Valid() && at == Advance(old(at), g, env)
    {
      hide SendInv, CcInv, BoardRep, ReasmRep, RingRep, AckCc, AckBoard, Wire, Advance;
      hide SendImage, RecvImage, RestartRtx, WireOption, AdvancedFields;
      ghost var f := Advance(at, g, env);
      AdvanceFrame(at, g, env);
      AdvanceFields(at, g, env);
      UnaOf(at.snd);
      var ecn := EcnOn();
      var dataAcked := FreeAcked(w.ack, at.snd, g);
      FeedAck(w, dataAcked, env, g);
      MoveUna(w.ack, w.ace, ecn, env);
      at := f;
      Assembled();
    }

    /** Free the octets the ACK covers. */
    method FreeAcked(ack: u32, ghost s: E.Sender, ghost g: E.Segment) returns (dataAcked: nat)
      requires RingRep(tx, TX_BUFFER, s.tx) && SendInv(s, cfg.sack) && snd.una == Wire(s.una)
      requires ack == Wire(g.ack) && s.una < g.ack <= s.nxt
      modifies tx
      ensures dataAcked == MinN(g.ack - s.una, |s.tx|) && RingRep(tx, TX_BUFFER, s.tx[dataAcked..])
    {
      hide SendInv, Wire, OffsetFrom;
      OffsetReads(s, cfg.sack, g.ack);
      var acked := OffsetFrom(ack, snd.una);
      dataAcked := MinN(acked, |tx.buf|);
      var freed := tx.Consume(dataAcked);
    }

    /** False when the ACK is for data never sent; the segment is then dropped. */
    method ProcessAck(w: WireSegment, env: Env, ghost g: E.Segment) returns (ok: bool)
      requires Valid() && SendInv(at.snd, cfg.sack) && CcInv(at.cc, cfg) && g == AsRead(at, w)
      modifies this, tx, cc, scoreboard
      ensures Valid() && (at, ok) == E.ProcessAck(old(at), g, env)
    {
      hide SendInv, CcInv, BoardRep, ReasmRep, RingRep, Wire, Gt, Advance, E.UpdateWindow;
      AckReads(at, w);
      UnaOf(at.snd);
      hide AsRead, SendImage;
      if Gt(w.ack, snd.nxt) {
        rcv := rcv.(needsAck := true);
        at := at.(rcv := at.rcv.(needsAck := true));
        return false;
      }
      if Gt(w.ack, snd.una) { AdvanceUna(w, env, g); }
      UpdateWindow(w.seqNo, w.ack, w.window, g);
      ok := true;
    }

    // ── loss detection ────────────────────────────────────────────────────────────────────────

    method CountDuplicate(dup: bool, flight: nat) returns (three: bool)
      modifies cc
      ensures (cc.View(), three) == CountDup(old(cc.View()), dup, flight)
    {
      hide Congestion.OnDupAck;
      three := false;
      if dup { three := cc.OnDupAck(flight); }
    }

    /** Enter recovery at SND.NXT, with the window cut unless the third duplicate has cut it. */
    method EnterEpisode(three: bool, flight: nat, env: Env, ghost b: Board, ghost una: int, ghost nxt: int)
      requires BoardRep(scoreboard, b) && Rfc6675.Valid(b, una, nxt) && 0 <= nxt - una < HALF && snd.nxt == Wire(nxt)
      modifies cc, scoreboard, `deadlines
      ensures BoardRep(scoreboard, BeginRecovery(b, nxt)) && deadlines == RestartRtx(old(deadlines), env)
      ensures cc.View() == if three then old(cc.View()) else Congestion.EnterRecovery(old(cc.View()), flight)
    {
      hide BoardRep, Congestion.EnterRecovery, Rfc6675.Valid, Scoreboard.Valid, RestartRtx, BeginRecovery, Wire;
      if !three { cc.EnterRecovery(flight); }
      BoardValid(scoreboard, b, una, nxt);
      scoreboard.BeginRecovery(snd.nxt, nxt, una, nxt);
      BoardIsRep(scoreboard, una, nxt);
      deadlines := RestartRtx(deadlines, env);
    }

    /** The third duplicate, or a loss the scoreboard shows already, starts an episode. */
    method LookForLoss(dup: bool, env: Env, ghost b: Board, ghost una: int, ghost nxt: int)
      requires BoardRep(scoreboard, b) && Rfc6675.Valid(b, una, nxt) && 0 <= nxt - una < HALF && ConfigOk(cfg)
      requires snd.una == Wire(una) && snd.nxt == Wire(nxt)
      modifies cc, scoreboard, `deadlines
      ensures var (c1, three) := CountDup(old(cc.View()), dup, nxt - una);
              var lost := IsLost(b, una, cfg.mss);
              && BoardRep(scoreboard, if three || lost then BeginRecovery(b, nxt) else b)
              && cc.View() == (if lost && !three then Congestion.EnterRecovery(c1, nxt - una) else c1)
              && deadlines == (if three || lost then RestartRtx(old(deadlines), env) else old(deadlines))
    {
      OffsetAgrees(nxt, una);
      hide BoardRep, Wire, Rfc6675.Valid, Scoreboard.Valid, CountDup, IsLost, OffsetFrom;
      hide Congestion.EnterRecovery, RestartRtx, BeginRecovery;
      var flight := OffsetFrom(snd.nxt, snd.una);
      var three := CountDuplicate(dup, flight);
      BoardValid(scoreboard, b, una, nxt);
      var lost := scoreboard.IsLost(snd.una, cfg.mss, una, una, nxt);
      if three || lost { EnterEpisode(three, flight, env, b, una, nxt); }
    }

    /** Take the SACK blocks of an ACK. */
    method TakeBlocks(w: WireSegment, ghost s: E.Sender, ghost g: E.Segment)
      requires BoardRep(scoreboard, s.board) && SendInv(s, cfg.sack) && snd.una == Wire(s.una) && snd.nxt == Wire(s.nxt)
      requires g.blocks == Positions(s.nxt, w.blocks)
      modifies scoreboard
      ensures var b := Update(s.board, s.una, s.nxt, g.blocks);
              && BoardRep(scoreboard, b) && Rfc6675.Valid(b, s.una, s.nxt)
              && (scoreboard.recoveryPoint.Some? <==> InRecovery(b))
    {
      hide SendInv, BoardRep, Wire, Rfc6675.Valid, Scoreboard.Valid, Update, Positions;
      BoardInWindow(s, cfg.sack);
      BoardValid(scoreboard, s.board, s.una, s.nxt);
      scoreboard.Update(snd.una, snd.nxt, w.blocks, s.una, s.nxt, s.una, s.nxt);
      BoardIsRep(scoreboard, s.una, s.nxt);
      ValidWindow(scoreboard, s.una, s.nxt);
      PointOf(scoreboard, Update(s.board, s.una, s.nxt, g.blocks));
    }

    /** With neither recovery nor a drain under way, look for a loss. */
    method LookUnlessBusy(dup: bool, env: Env, ghost g: E.Segment)
      requires at.cfg == cfg && SendInv(at.snd, cfg.sack) && ConfigOk(cfg) && cc.View() == at.cc && deadlines == at.t
      requires snd == SendImage(at.snd)
      requires var b := Update(at.snd.board, at.snd.una, at.snd.nxt, g.blocks);
               && BoardRep(scoreboard, b) && Rfc6675.Valid(b, at.snd.una, at.snd.nxt)
               && (scoreboard.recoveryPoint.Some? <==> InRecovery(b))
      modifies cc, scoreboard, `deadlines
      ensures var f := E.DetectSack(at, g, dup, env);
              && BoardRep(scoreboard, f.snd.board) && cc.View() == f.cc && deadlines == f.t
              && f == at.(snd := at.snd.(board := f.snd.board), cc := f.cc, t := f.t)
    {
      hide SendInv, BoardRep, Wire, Rfc6675.Valid, Update, CountDup, IsLost, ConfigOk, WireOption;
      hide Congestion.EnterRecovery, RestartRtx, BeginRecovery, SendImage, E.DetectSack, InRecovery;
      UnaOf(at.snd);
      GbnOf(at.snd);
      BoardInWindow(at.snd, cfg.sack);
      ghost var b := Update(at.snd.board, at.snd.una, at.snd.nxt, g.blocks);
      if scoreboard.recoveryPoint.None? && snd.gbn.None? {
        DetectLooks(at, g, dup, env);
        LookForLoss(dup, env, b, at.snd.una, at.snd.nxt);
      } else {
        DetectQuiet(at, g, dup, env);
      }
    }

    method DetectSack(w: WireSegment, dup: bool, env: Env, ghost g: E.Segment)
      requires Valid() && SendInv(at.snd, cfg.sack) && cfg.sack && g.blocks == Positions(at.snd.nxt, w.blocks)
      requires ConfigOk(cfg)
      modifies this, cc, scoreboard
      ensures Valid() && at == E.DetectSack(old(at), g, dup, env)
    {
      hide SendInv, BoardRep, ReasmRep, RingRep, Wire, Rfc6675.Valid, Update, ConfigOk, WireOption;
      hide Positions, SendImage, RecvImage, E.DetectSack, InRecovery;
      UnaOf(at.snd);
      ghost var f := E.DetectSack(at, g, dup, env);
      TakeBlocks(w, at.snd, g);
      LookUnlessBusy(dup, env, g);
      BoardOnly(at.snd, f.snd.board);
      at := f;
      Assembled();
    }

    method DetectLoss(w: WireSegment, dup: bool, env: Env, ghost g: E.Segment)
      requires Valid() && SendInv(at.snd, cfg.sack) && g.blocks == Positions(at.snd.nxt, w.blocks) && ConfigOk(cfg)
      modifies this, cc, scoreboard
      ensures Valid() && at == E.DetectLoss(old(at), g, dup, env)
    {
      FlightReads(at.snd, cfg.sack);
      hide SendInv, BoardRep, ReasmRep, RingRep, Wire, E.DetectSack, Positions, Inflight, RestartRtx, CountDup,
           RecvImage;
      if cfg.sack {
        DetectSack(w, dup, env, g);
      } else {
        var three := CountDuplicate(dup, OffsetFrom(snd.nxt, snd.una));
        if three {
          snd := snd.(retransmit := true);
          deadlines := RestartRtx(deadlines, env);
        }
        at := DetectPlain(at, dup, env);
        Assembled();
      }
    }

    // ── data ──────────────────────────────────────────────────────────────────────────────────

    /** The receive half is the image of `r`. */
    ghost predicate RecvOk(r: E.Receiver)
      reads `rcv, rx, reasm
    {
      rcv == RecvImage(r) && RingRep(rx, RX_BUFFER, r.rx) && ReasmRep(reasm, r.reasm)
    }

    /** Write to the ring what fits and advance RCV.NXT by it. */
    method Deliver(data: seq<byte>, ghost r: E.Receiver) returns (n: nat)
      requires RecvOk(r)
      modifies `rcv, rx
      ensures n == E.Deliver(r, data).1 && RecvOk(E.Deliver(r, data).0)
    {
      hide ReasmRep, Wire, Add;
      n := rx.Write(data);
      AddIsWire(r.nxt, n);
      rcv := rcv.(nxt := Add(rcv.nxt, n));
    }

    /** Pop runs that have become contiguous into the ring until there is none. */
    method DrainReasm(ghost r: E.Receiver)
      requires RecvOk(r) && Draining(r)
      modifies `rcv, rx, reasm
      ensures RecvOk(E.DrainReasm(r))
    {
      hide RingRep, ReasmRep, Draining, RecvImage, ReassemblyImpl.ReasmBuffer.Valid, E.Deliver, Pop;
      ghost var d := r;
      while true
        invariant RecvOk(d) && Draining(d) && E.DrainReasm(d) == E.DrainReasm(r)
        decreases |d.reasm.chunks|
      {
        DrainingValid(reasm, d);
        RunFitsWhole(d);
        NxtOf(d);
        PopShrinks(d);
        var run := reasm.PopContiguous(rcv.nxt, d.nxt, d.nxt, PoolEnd(d));
        ReasmIsRep(reasm, d.nxt, PoolEnd(d));
        ghost var rest := d.(reasm := reasm.at);
        ReasmOnly(d, reasm.at);
        if run == [] { d := rest; break; }
        var w := Deliver(run, rest);
        if w < |run| {
          assert false;
        }
        d := E.Deliver(rest, run).0;
      }
    }

    /** In-order data goes straight to the ring; overtaken runs are purged, contiguous ones follow. */
    method TakeInOrder(data: seq<byte>, ghost r: E.Receiver) returns (n: nat)
      requires RecvOk(r) && PoolInv(r, cfg.sack)
      modifies `rcv, rx, reasm
      ensures n == E.Deliver(r, data).1 && RecvOk(E.TakeInOrder(r, data, cfg.sack))
    {
      hide RingRep, ReasmRep, RecvImage, PoolInv, Draining, ReassemblyImpl.ReasmBuffer.Valid, E.DrainReasm;
      ghost var r1 := E.Deliver(r, data).0;
      PoolFacts(r, cfg.sack);
      ReasmValid(reasm, r, cfg.sack, r.nxt, PoolEnd(r));
      InOrderKeeps(r, data, cfg.sack);
      n := Deliver(data, r);
      NxtOf(r1);
      if cfg.sack {
        reasm.DiscardBelow(rcv.nxt, r1.nxt, r.nxt, PoolEnd(r));
        ReasmIsRep(reasm, r.nxt, PoolEnd(r));
        ReasmOnly(r1, reasm.at);
        DrainReasm(r1.(reasm := reasm.at));
      }
    }

    /** The lesser of the advertised edge and what the pool can still hold. */
    method ReasmRightEdge(ghost r: E.Receiver) returns (edge: u32)
      requires RecvOk(r) && PoolInv(r, cfg.sack) && EdgeNear(r)
      ensures edge == Wire(E.RightEdge(r))
    {
      hide Wire, Add, Serial.Min, PoolInv;
      EdgeReads(r, cfg.sack);
      var used := |rx.buf| + reasm.bytes;
      var budget := if used <= RX_BUFFER then RX_BUFFER - used else 0;
      edge := Serial.Min(Add(rcv.nxt, MinN(budget, 0xFFFF)), rcv.adv);
    }

    /** Out-of-order data is buffered up to the right edge. */
    method BufferAhead(seqNo: u32, data: seq<byte>, ghost x: int, ghost r: E.Receiver)
      requires RecvOk(r) && PoolInv(r, cfg.sack) && EdgeNear(r) && seqNo == Wire(x)
      requires r.nxt <= x && x + |data| < Smaller(r.nxt, r.adv) + HALF
      modifies reasm
      ensures RecvOk(r.(reasm := Reassembly.Insert(r.reasm, r.nxt, E.RightEdge(r), x, data)))
    {
      hide RingRep, ReasmRep, RecvImage, PoolInv, ReassemblyImpl.ReasmBuffer.Valid, E.RightEdge, Wire,
           Reassembly.Insert;
      var edge := ReasmRightEdge(r);
      PoolFacts(r, cfg.sack);
      EdgeBounds(r);
      ghost var lo, hi := Smaller(r.nxt, r.adv), Larger(PoolEnd(r), x + |data|);
      ReasmValid(reasm, r, cfg.sack, lo, hi);
      RightEdgeInPool(r, cfg.sack);
      NxtOf(r);
      reasm.Insert(rcv.nxt, edge, seqNo, data, r.nxt, E.RightEdge(r), x, lo, hi);
      ReasmIsRep(reasm, lo, hi);
      ReasmOnly(r, reasm.at);
    }

    /** The part at or above RCV.NXT. */
    method TrimPayload(seqNo: u32, payload: seq<byte>, ghost r: E.Receiver, ghost g: E.Segment)
      returns (first: u32, data: seq<byte>)
      requires RecvOk(r) && r.nxt - HALF <= g.seqNo < r.nxt + HALF && seqNo == Wire(g.seqNo) && payload == g.payload
      ensures (first, data) == (Wire(TrimLeft(r, g).0), TrimLeft(r, g).1)
    {
      hide RingRep, ReasmRep, Wire, Lt, OffsetFrom;
      TrimReads(r, g);
      first, data := seqNo, payload;
      if Lt(seqNo, rcv.nxt) {
        var off := MinN(OffsetFrom(rcv.nxt, seqNo), |payload|);
        first, data := rcv.nxt, payload[off..];
      }
    }

    /** The receive half takes the payload. `clean` when it was in order and all of it fitted. */
    method Absorb(w: WireSegment, ghost r: E.Receiver, ghost g: E.Segment) returns (clean: bool)
      requires RecvOk(r) && PoolInv(r, cfg.sack) && Near(r, g)
      requires EdgeNear(r) && w.seqNo == Wire(g.seqNo) && w.payload == g.payload
      modifies `rcv, rx, reasm
      ensures RecvOk(E.Absorb(r, g, cfg.sack))
      ensures clean == (InOrder(r, g) && E.Deliver(r, TrimLeft(r, g).1).1 == |TrimLeft(r, g).1|)
    {
      hide RecvOk, PoolInv, Wire, E.TakeInOrder, E.Deliver, Reassembly.Insert, E.RightEdge;
      TrimReads(r, g);
      TrimEnds(r, g);
      WireNxt(r);
      clean := false;
      var first, data := TrimPayload(w.seqNo, w.payload, r, g);
      if data != [] {
        if first == rcv.nxt {
          var n := TakeInOrder(data, r);
          clean := n == |data|;
        } else if cfg.sack {
          BufferAhead(first, data, TrimLeft(r, g).0, r);
        }
      }
    }

    lemma WireNxt(r: E.Receiver)
      requires RecvOk(r)
      ensures rcv.nxt == Wire(r.nxt)
    {}

    method ScheduleAck(marked: bool, clean: bool, env: Env)
      modifies `rcv, `deadlines
      ensures rcv == Scheduled(old(rcv), marked, clean)
      ensures deadlines == DelayAck(old(deadlines), clean && old(rcv).unackedSegs == 0, env)
    {
      if marked { rcv := rcv.(cep := (rcv.cep + 1) % 256); }
      if clean {
        rcv := rcv.(unackedSegs := rcv.unackedSegs + 1);
        if rcv.unackedSegs >= 2 {
          rcv := rcv.(needsAck := true, unackedSegs := 0);
        } else if deadlines.delayedAck.None? {
          deadlines := deadlines.(delayedAck := Some(env.now + DELAYED_ACK));
        }
      } else {
        rcv := rcv.(needsAck := true);
      }
    }

    lemma RecvParts(r: E.Receiver)
      requires RecvOk(r)
      ensures rcv == RecvImage(r) && RingRep(rx, RX_BUFFER, r.rx) && ReasmRep(reasm, r.reasm)
      ensures reasm.bytes == Buffered(r.reasm.chunks) && rcv.nxt == Wire(r.nxt) && rcv.unackedSegs == r.unackedSegs
    {}

    /** Data: into the ring or the reassembly buffer, the CE mark counted if anything was accepted, an
        ACK owed now or soon. */
    method TakePayload(w: WireSegment, env: Env, ghost r: E.Receiver, ghost g: E.Segment)
      requires RecvOk(r) && PoolInv(r, cfg.sack) && Near(r, g)
      requires EdgeNear(r) && w.seqNo == Wire(g.seqNo) && w.payload == g.payload
      modifies `rcv, `deadlines, rx, reasm
      ensures var d := E.Absorb(r, g, cfg.sack);
              var marked := EcnOn() && env.ce && Accepted(r, d);
              var clean := InOrder(r, g) && E.Deliver(r, TrimLeft(r, g).1).1 == |TrimLeft(r, g).1|
                           && Buffered(r.reasm.chunks) == 0;
              && rcv == Scheduled(RecvImage(d), marked, clean)
              && RingRep(rx, RX_BUFFER, d.rx) && ReasmRep(reasm, d.reasm)
              && deadlines == DelayAck(old(deadlines), clean && d.unackedSegs == 0, env)
    {
      hide PoolInv, Near, RingRep, ReasmRep, RecvImage, Scheduled, DelayAck, Buffered, Accepted;
      hide InOrder, E.Deliver, TrimLeft, E.Absorb, Wire, RecvOk;
      AcceptedReads(r, g, cfg.sack);
      RecvParts(r);
      var before, reasmBefore := rcv.nxt, reasm.bytes;
      var fits := Absorb(w, r, g);
      RecvParts(E.Absorb(r, g, cfg.sack));
      var accepted := rcv.nxt != before || reasm.bytes > reasmBefore;
      ScheduleAck(EcnOn() && env.ce && accepted, fits && reasmBefore == 0, env);
    }

    method TakeData(w: WireSegment, env: Env, ghost g: E.Segment)
      requires Valid() && PoolInv(at.rcv, cfg.sack) && Near(at.rcv, g) && EdgeNear(at.rcv)
      requires w.seqNo == Wire(g.seqNo) && w.payload == g.payload
      modifies this, rx, reasm
      ensures Valid() && at == DataStep(old(at), g, env)
    {
      if w.payload == [] { return; }
      hide PoolInv, Near, RingRep, ReasmRep, BoardRep, SendImage, RecvImage, Scheduled, DelayAck, Buffered, Accepted;
      hide InOrder, E.Deliver, TrimLeft, E.Absorb, DataStep, WireOption, Wire;
      DataStepIs(at, g, env);
      assert RecvOk(at.rcv);
      hide RecvOk;
      ghost var f := DataStep(at, g, env);
      TakePayload(w, env, at.rcv, g);
      at := f;
      Assembled();
    }

    // ── FIN and state ─────────────────────────────────────────────────────────────────────────

    /** The peer's FIN, at its slot or remembered until RCV.NXT reaches it. */
    method FinArrives(w: WireSegment, ghost r: E.Receiver, ghost g: E.Segment)
      requires rcv == RecvImage(r) && w.seqNo == Wire(g.seqNo) && w.payload == g.payload && w.fin == g.fin
      requires -MOD < g.seqNo + |g.payload| - r.nxt < MOD
      requires r.pendingFin.Some? ==> -MOD < r.pendingFin.value - r.nxt < MOD
      modifies `rcv
      ensures rcv == RecvImage(E.FinArrives(r, g))
    {
      FinReads(r, g);
      hide Wire, Add;
      if w.fin {
        var finAt := Add(w.seqNo, |w.payload|);
        if finAt == rcv.nxt && !rcv.peerFin {
          rcv := rcv.(nxt := Add(rcv.nxt, 1), peerFin := true);
        } else if !rcv.peerFin {
          rcv := rcv.(pendingFin := Some(finAt));
        }
        rcv := rcv.(needsAck := true);
      }
    }

    method FinFromPending(ghost r: E.Receiver)
      requires rcv == RecvImage(r)
      requires r.pendingFin.Some? && !r.peerFin ==> -MOD < r.pendingFin.value - r.nxt < MOD
      modifies `rcv
      ensures rcv == RecvImage(E.FinFromPending(r))
    {
      if r.pendingFin.Some? && !r.peerFin { WireSame(r.pendingFin.value, r.nxt); }
      AddIsWire(r.nxt, 1);
      hide Wire, Add;
      if rcv.pendingFin.Some? && rcv.pendingFin.value == rcv.nxt && !rcv.peerFin {
        rcv := rcv.(nxt := Add(rcv.nxt, 1), peerFin := true, pendingFin := None, needsAck := true);
      }
    }

    method TakeFin(w: WireSegment, ghost g: E.Segment)
      requires Valid() && w.seqNo == Wire(g.seqNo) && w.payload == g.payload && w.fin == g.fin
      requires -MOD < g.seqNo + |g.payload| - at.rcv.nxt < MOD
      requires at.rcv.pendingFin.Some? ==> -MOD < at.rcv.pendingFin.value - at.rcv.nxt < MOD
      modifies this
      ensures Valid() && at == old(at).(rcv := E.FinFromPending(E.FinArrives(old(at).rcv, g)))
    {
      hide RingRep, ReasmRep, BoardRep, SendImage, RecvImage, WireOption, Wire;
      ghost var r := at.rcv;
      FinFrame(r, g);
      hide E.FinArrives, E.FinFromPending;
      FinArrives(w, r, g);
      FinFromPending(E.FinArrives(r, g));
      at := at.(rcv := E.FinFromPending(E.FinArrives(r, g)));
      Assembled();
    }

    method RecomputeClosingState(env: Env)
      requires Valid()
      modifies this
      ensures Valid() && at == RecomputeClosing(old(at), env)
    {
      hide RingRep, ReasmRep, BoardRep, WireOption, Wire, ArmTimeWait;
      var prev := state;
      NextState();
      if state != prev {
        if state.TimeWait? {
          deadlines := ArmTimeWait(deadlines, env.now);
        } else if state.FinWait2? {
          deadlines := deadlines.(timeWait := Some(env.now + FIN_WAIT2));
        }
      }
      hide ClosingState;
      at := RecomputeClosing(at, env);
      Assembled();
    }

    method NextState()
      modifies `state
      ensures state == ClosingState(old(state), snd.finAcked, rcv.peerFin)
    {
      match state {
        case FinWait1 =>
          if snd.finAcked && rcv.peerFin { state := TimeWait; }
          else if snd.finAcked { state := FinWait2; }
          else if rcv.peerFin { state := Closing; }
        case FinWait2 => if rcv.peerFin { state := TimeWait; }
        case Closing => if snd.finAcked { state := TimeWait; }
        case LastAck => if snd.finAcked { state := Closed; }
        case Established => if rcv.peerFin { state := CloseWait; }
        case _ =>
      }
    }

    // ── inbound ───────────────────────────────────────────────────────────────────────────────

    predicate IsDup(w: WireSegment)
      reads `snd
    {
      w.payload == [] && !w.fin && !w.syn && w.ack == snd.una && snd.una != snd.nxt
    }

    lemma DupAgrees(e: E.Endpoint, w: WireSegment)
      requires snd == SendImage(e.snd) && SendInv(e.snd, e.cfg.sack)
      ensures IsDup(w) <==> IsDupAck(e, AsRead(e, w))
    {
      AckReads(e, w);
      hide Wire, Unwrap, Gt, SendInv;
    }

    /** Steps 6 to 8: data, FIN, state. */
    method TakeSegment(w: WireSegment, env: Env, ghost g: E.Segment)
      requires Valid() && PoolInv(at.rcv, cfg.sack) && Near(at.rcv, g) && EdgeNear(at.rcv)
      requires w.seqNo == Wire(g.seqNo) && w.payload == g.payload && w.fin == g.fin
      modifies this, rx, reasm
      ensures Valid()
      ensures var e := DataStep(old(at), g, env);
              at == RecomputeClosing(e.(rcv := E.FinFromPending(E.FinArrives(e.rcv, g))), env)
    {
      SameConfig();
      DataMoves(at, g, env);
      hide Valid, PoolInv, Near, Wire, DataStep, E.FinArrives, E.FinFromPending, RecomputeClosing;
      ghost var r := at.rcv;
      TakeData(w, env, g);
      NearAfter(r, g, at.rcv);
      TakeFin(w, g);
      RecomputeClosingState(env);
    }

    /** Steps 5 to 8 for an acceptable segment that carries an ACK. */
    method Process(w: WireSegment, env: Env, ghost g: E.Segment)
      requires Valid() && Consistent(at) && !at.state.TimeWait?
      requires g == AsRead(at, w) && Near(at.rcv, g) && EdgeNear(at.rcv)
      modifies this, tx, rx, cc, scoreboard, reasm
      ensures Valid() && at == E.Process(old(at), g, env)
    {
      StartFacts(at);
      AckStepFacts(at, g, env);
      DupAgrees(at, w);
      AckReads(at, w);
      SameConfig();
      hide Valid, Consistent, SendInv, PoolInv, CcInv, Near, EdgeNear, Wire, E.ProcessAck, E.DetectLoss, DataStep,
           ConfigOk;
      hide E.FinArrives, E.FinFromPending, RecomputeClosing, IsDupAck, IsDup, Unwrap;
      var dup := IsDup(w);
      var ok := ProcessAck(w, env, g);
      if !ok { return; }
      DetectFrame(at, g, dup, env);
      DetectLoss(w, dup, env, g);
      TakeSegment(w, env, g);
    }

    lemma SameConfig()
      requires Valid()
      ensures at.cfg == cfg && at.state == state && rcv == RecvImage(at.rcv) && snd == SendImage(at.snd)
    {}

    method ChallengeAck(env: Env)
      requires Valid()
      modifies this
      ensures Valid() && at == Challenge(old(at), env)
    {
      hide RingRep, ReasmRep, BoardRep;
      if env.challengeOk { OweAck(); }
    }

    method OweAck()
      requires Valid()
      modifies this
      ensures Valid() && at == old(at).(rcv := old(at).rcv.(needsAck := true))
    {
      hide RingRep, ReasmRep, BoardRep, SendImage, WireOption;
      rcv := rcv.(needsAck := true);
      at := at.(rcv := at.rcv.(needsAck := true));
      Assembled();
    }

    /** A segment arrives. Sequence numbers are read as the positions nearest to RCV.NXT and SND.NXT. */
    method OnSegment(w: WireSegment, env: Env)
      requires Valid() && Ready(at) && Near(at.rcv, AsRead(at, w))
      modifies this, tx, rx, cc, scoreboard, reasm
      ensures Valid() && Ready(at) && at == E.OnSegment(old(at), AsRead(old(at), w), env)
    {
      ghost var g := AsRead(at, w);
      StepStaysReady(at, ConnectionRuns.Arrive(g, env));
      hide ConnectionRuns.Step;
      StartFacts(at);
      AckReads(at, w);
      NxtOf(at.rcv);
      SameConfig();
      ghost var r := at.rcv;
      InWindowReads(r, g);
      hide Valid, Ready, Consistent, SendInv, PoolInv, CcInv, Near, EdgeNear, Wire, ConfigOk, Unwrap, E.Process,
           Challenge, ArmTimeWait;
      hide SeqInWindow, E.SeqInWindow, SegmentAcceptable, Acceptable;
      var segLen := |w.payload| + (if w.syn then 1 else 0) + (if w.fin then 1 else 0);
      if w.rst {
        if SeqInWindow(w.seqNo) {
          if w.seqNo == rcv.nxt { Reset(); } else { ChallengeAck(env); }
        }
      } else if state.TimeWait? {
        AckAgain(env);
      } else if w.syn {
        if SeqInWindow(w.seqNo) { ChallengeAck(env); }
      } else if !SegmentAcceptable(w.seqNo, segLen) {
        OweAck();
      } else if w.hasAck {
        Process(w, env, g);
      }
    }

    lemma InWindowReads(r: E.Receiver, g: E.Segment)
      requires rcv == RecvImage(r) && Near(r, g) && EdgeNear(r) && r.adv <= r.nxt + RX_BUFFER
      ensures SeqInWindow(Wire(g.seqNo)) <==> E.SeqInWindow(r, g.seqNo)
      ensures SegmentAcceptable(Wire(g.seqNo), SegLen(g)) <==> Acceptable(r, g)
      ensures Wire(g.seqNo) == rcv.nxt <==> g.seqNo == r.nxt
    {
      WindowAgrees(g.seqNo, r);
      AcceptableAgrees(g, r);
      Agree(g.seqNo, r.nxt);
      hide Wire, SeqInWindow, E.SeqInWindow, SegmentAcceptable, Acceptable;
    }

    method Reset()
      requires Valid()
      modifies this
      ensures Valid() && at == old(at).(state := Closed, reset := true)
    {
      hide RingRep, ReasmRep, BoardRep, SendImage, WireOption, RecvImage;
      state, reset := Closed, true;
      at := at.(state := Closed, reset := true);
      Assembled();
    }

    /** In TIME-WAIT only the ACK is repeated and the timer restarted. */
    method AckAgain(env: Env)
      requires Valid()
      modifies this
      ensures Valid() && at == old(at).(rcv := old(at).rcv.(needsAck := true), t := ArmTimeWait(old(at).t, env.now))
    {
      hide RingRep, ReasmRep, BoardRep, SendImage, WireOption, ArmTimeWait;
      rcv := rcv.(needsAck := true);
      deadlines := ArmTimeWait(deadlines, env.now);
      at := at.(rcv := at.rcv.(needsAck := true), t := ArmTimeWait(at.t, env.now));
      Assembled();
    }

    // ── outbound ──────────────────────────────────────────────────────────────────────────────

    /** Free pool space, clamped so that the right edge never moves left. */
    method AdvertisedWindow(ghost r: E.Receiver) returns (wnd: nat)
      requires RecvOk(r) && PoolInv(r, cfg.sack) && EdgeNear(r)
      modifies `rcv
      ensures RecvOk(Advertise(r, cfg)) && wnd == Advertise(r, cfg).adv - r.nxt
    {
      hide Wire, Add, Lt, PoolInv, ShiftLeft, OffsetFrom;
      RecvParts(r);
      var used := |rx.buf| + reasm.bytes;
      var free := MinN(if used <= RX_BUFFER then RX_BUFFER - used else 0, ShiftLeft(0xFFFF, cfg.rcvWscale));
      AddIsWire(r.nxt, free);
      PoolFacts(r, cfg.sack);
      Agree(r.nxt + free, r.adv);
      var candidate := Add(rcv.nxt, free);
      var right := if Lt(candidate, rcv.adv) then rcv.adv else candidate;
      OffsetAgrees(Larger(r.nxt + free, r.adv), r.nxt);
      rcv := rcv.(adv := right);
      wnd := OffsetFrom(right, rcv.nxt);
    }

    /** The payload a segment can carry beside its options. */
    method MaxSegmentPayload(ghost r: E.Receiver) returns (n: nat)
      requires RecvOk(r) && PoolInv(r, cfg.sack) && at.cfg == cfg && at.rcv == r
      ensures n == MaxPayload(at)
    {
      hide PoolInv, ReasmRep, RingRep;
      var opt := 0;
      PoolFacts(r, cfg.sack);
      ReasmValid(reasm, r, cfg.sack, r.nxt, PoolEnd(r));
      if cfg.sack && reasm.runs != [] {
        var blocks := reasm.Report(MAX_SACK_BLOCKS, r.nxt, PoolEnd(r));
        if |blocks| > 0 { opt := 4 + 8 * |blocks|; }
      }
      n := if cfg.mss >= opt then cfg.mss - opt else 0;
    }

    /** The SACK blocks to report: the buffered runs, newest first. */
    method SackBlocks(ghost r: E.Receiver) returns (blocks: seq<WireRun>)
      requires ReasmRep(reasm, r.reasm) && PoolInv(r, cfg.sack)
      ensures blocks == OnWire(if cfg.sack then Reassembly.Report(r.reasm.chunks, MAX_SACK_BLOCKS) else [])
    {
      hide PoolInv, ReasmRep, Reassembly.Report, ReassemblyImpl.ReasmBuffer.Valid;
      PoolFacts(r, cfg.sack);
      ReasmValid(reasm, r, cfg.sack, r.nxt, PoolEnd(r));
      blocks := [];
      if cfg.sack { blocks := reasm.Report(MAX_SACK_BLOCKS, r.nxt, PoolEnd(r)); }
    }

    /** A segment with the cumulative ACK, window, ACE count and SACK blocks. */
    method Build(seqNo: u32, fin: bool, payload: seq<byte>, ghost x: int) returns (w: WireSegment)
      requires Valid() && PoolInv(at.rcv, cfg.sack) && EdgeNear(at.rcv) && seqNo == Wire(x)
      modifies this
      ensures Valid() && at == E.Build(old(at), x, fin, payload).0 && w == AsSent(E.Build(old(at), x, fin, payload).1)
    {
      hide PoolInv, EdgeNear, RingRep, ReasmRep, BoardRep, SendImage, RecvImage, Wire, E.Build, Advertise,
           ShiftRight, OnWire;
      hide Reassembly.Report;
      BuildFrame(at, x, fin, payload);
      ghost var r, f := at.rcv, E.Build(at, x, fin, payload).0;
      assert RecvOk(r);
      RecvParts(r);
      CepOf(r);
      var ace := if EcnOn() then rcv.cep % 8 else 0;
      var blocks := SackBlocks(r);
      var wnd := AdvertisedWindow(r);
      RecvParts(Advertise(r, cfg));
      hide RecvOk;
      deadlines := deadlines.(delayedAck := None);
      rcv := rcv.(unackedSegs := 0);
      w := WireSegment(seqNo, rcv.nxt, false, false, fin, true, MinN(ShiftRight(wnd, cfg.rcvWscale), 0xFFFF), ace,
                       blocks, payload);
      at := f;
      Assembled();
    }

    /** A copy of the ring's bytes from `off` on. */
    method PeekRing(off: nat, n: nat) returns (payload: seq<byte>)
      requires tx.Valid() && n > 0 && off + n <= |tx.buf|
      ensures payload == tx.buf[off..off + n]
    {
      var dst := new byte[n];
      var k := tx.Peek(off, dst);
      payload := dst[..];
      assert dst[..n] == dst[..];
    }

    method StartTimer(env: Env)
      requires Valid()
      modifies this
      ensures Valid() && at == old(at).(t := StartRtx(old(at).t, env))
    {
      hide RingRep, ReasmRep, BoardRep, SendImage, RecvImage, WireOption;
      if deadlines.rtx.None? { deadlines := RestartRtx(deadlines, env); }
      at := at.(t := StartRtx(at.t, env));
      Assembled();
    }

    /** Send octets of the ring again, SND.NXT untouched. */
    method Resend(seqNo: u32, off: nat, n: nat, env: Env) returns (w: WireSegment)
      requires Valid() && Sendable(at) && n > 0 && off + n <= |at.snd.tx| && seqNo == Wire(at.snd.una + off)
      modifies this
      ensures Valid() && at == E.Resend(old(at), off, n, env).0 && w == AsSent(E.Resend(old(at), off, n, env).1)
    {
      hide Valid, Sendable, SendInv, PoolInv, EdgeNear, ConfigOk, Wire, E.Build, AsSent, StartRtx;
      RingIs();
      SendableParts(at);
      var payload := PeekRing(off, n);
      w := Build(seqNo, false, payload, at.snd.una + off);
      StartTimer(env);
    }

    lemma RingIs()
      requires Valid()
      ensures tx.Valid() && tx.buf == at.snd.tx && snd == SendImage(at.snd) && at.cfg == cfg && at.state == state
      ensures cc.cwnd == at.cc.cwnd && rcv == RecvImage(at.rcv) && snd.wnd == at.snd.wnd && deadlines == at.t
      ensures snd.una == Wire(at.snd.una) && snd.nxt == Wire(at.snd.nxt) && RecvOk(at.rcv)
      ensures snd.retransmit == at.snd.retransmit
      ensures snd.sendProbe == at.snd.sendProbe && rcv.needsAck == at.rcv.needsAck
      ensures BoardRep(scoreboard, at.snd.board) && tx != rx && (EcnOn() <==> EcnEnabled(at))
      ensures snd.finQueued == at.snd.finQueued && snd.finAcked == at.snd.finAcked
      ensures snd.finSeq == WireOption(at.snd.finSeq)
    {}

    /** Step 2: the FIN, once all data is sent. */
    method TransmitFin(env: Env) returns (w: Option<WireSegment>)
      requires Valid() && Sendable(at)
      modifies this
      ensures Valid() && at == E.StepFin(old(at), env).0 && w == Sent(E.StepFin(old(at), env).1)
    {
      hide Valid, Sendable, SendInv, PoolInv, EdgeNear, ConfigOk, Wire, AsSent, StartRtx, Add, DataEnd, BoardRep,
           RecvOk;
      hide SendImage, RecvImage;
      RingIs();
      SendableParts(at);
      EndReads(at.snd, cfg.sack);
      w := None;
      var dataEnd := Add(snd.una, |tx.buf|);
      if snd.finQueued && !snd.finAcked && snd.nxt == dataEnd {
        var g := Build(dataEnd, true, [], DataEnd(at.snd));
        RecordFin(dataEnd);
        StartTimer(env);
        EnterClosing();
        w := Some(g);
      }
    }

    /** FIN.SEQ is the end of the data, and the FIN takes one number. */
    method RecordFin(dataEnd: u32)
      requires Valid() && dataEnd == Wire(DataEnd(at.snd)) && Add(dataEnd, 1) == Wire(DataEnd(at.snd) + 1)
      modifies this
      ensures Valid()
      ensures at == old(at).(snd := old(at).snd.(finSeq := Some(DataEnd(old(at).snd)), nxt := DataEnd(old(at).snd) + 1))
    {
      hide RingRep, ReasmRep, BoardRep, SendImage, RecvImage, WireOption, Wire, Add;
      FinImage(at.snd);
      snd := snd.(finSeq := Some(dataEnd), nxt := Add(dataEnd, 1));
      at := at.(snd := at.snd.(finSeq := Some(DataEnd(at.snd)), nxt := DataEnd(at.snd) + 1));
      Assembled();
    }

    method EnterClosing()
      requires Valid()
      modifies this
      ensures Valid()
      ensures at == old(at).(state := if old(at).state.Established? then FinWait1
                                      else if old(at).state.CloseWait? then LastAck else old(at).state)
    {
      hide RingRep, ReasmRep, BoardRep, SendImage, RecvImage, WireOption;
      match state {
        case Established => state := FinWait1;
        case CloseWait => state := LastAck;
        case _ =>
      }
      at := at.(state := state);
      Assembled();
    }

    /** The octets in flight: the scoreboard's pipe with SACK, everything outstanding without. */
    method PipeEstimate() returns (pipe: nat)
      requires Valid() && Sendable(at)
      ensures pipe == PipeOf(at)
    {
      hide Valid, Sendable, SendInv, PoolInv, EdgeNear, Wire, BoardRep, Inflight, OffsetFrom, Rfc6675.Valid,
           Scoreboard.Valid, Pipe;
      RingIs();
      SendableParts(at);
      FlightReads(at.snd, cfg.sack);
      BoardInWindow(at.snd, cfg.sack);
      if cfg.sack {
        BoardValid(scoreboard, at.snd.board, at.snd.una, at.snd.nxt);
        pipe := scoreboard.Pipe(snd.una, snd.nxt, cfg.mss, at.snd.una, at.snd.nxt, at.snd.una, at.snd.nxt);
      } else {
        pipe := OffsetFrom(snd.nxt, snd.una);
      }
    }

    /** The windows, and the pacer if there is one; its deadline is armed when it is what binds. */
    method Pace(env: Env, room: nat, unsentData: nat) returns (allowed: nat)
      requires Valid() && unsentData == Unsent(at.snd)
      requires room == MinN(Monus(at.cc.cwnd, PipeOf(at)), Monus(at.snd.wnd, Inflight(at.snd)))
      modifies this
      ensures Valid() && at == Paced(old(at), env) && allowed == Allowed(old(at), env)
    {
      hide RingRep, ReasmRep, BoardRep, SendImage, RecvImage, WireOption, PipeOf, Inflight, Unsent;
      allowed := room;
      ghost var f := Paced(at, env);
      if env.pace.Some? {
        var (cap, delay) := env.pace.value;
        deadlines := deadlines.(pace := if cap < room && unsentData > 0 then Some(env.now + delay) else None);
        allowed := MinN(room, cap);
      }
      at := f;
      Assembled();
    }

    method ArmPersist(env: Env)
      requires Valid()
      modifies this
      ensures Valid() && at == PersistArmed(old(at), env)
    {
      hide RingRep, ReasmRep, BoardRep, SendImage, RecvImage, WireOption;
      if deadlines.persist.None? {
        deadlines := deadlines.(backoff := PERSIST_MIN, persist := Some(env.now + PERSIST_MIN));
      }
      at := PersistArmed(at, env);
      Assembled();
    }

    method AdvanceNxt(n: nat)
      requires Valid()
      modifies this
      ensures Valid() && at == old(at).(snd := old(at).snd.(nxt := old(at).snd.nxt + n))
    {
      hide RingRep, ReasmRep, BoardRep, SendImage, RecvImage, WireOption, Wire, Add;
      RingIs();
      NextImage(at.snd, n);
      snd := snd.(nxt := Add(snd.nxt, n));
      at := at.(snd := at.snd.(nxt := at.snd.nxt + n));
      Assembled();
    }

    /** The next unsent octets, advancing SND.NXT. */
    method SendNew(sentData: nat, n: nat, env: Env) returns (w: WireSegment)
      requires Valid() && Sendable(at) && sentData == SentData(at.snd) && 0 < n <= Unsent(at.snd)
      modifies this
      ensures Valid() && at == NewNow(old(at), n, env).0 && Some(w) == Sent(NewNow(old(at), n, env).1)
    {
      hide Valid, Sendable, SendInv, PoolInv, EdgeNear, ConfigOk, Wire, E.Build, AsSent, StartRtx, SentData,
           BoardRep, RecvOk;
      RingIs();
      SendableParts(at);
      var payload := PeekRing(sentData, n);
      w := Build(snd.nxt, false, payload, at.snd.nxt);
      AdvanceNxt(n);
      StartTimer(env);
    }

    method ClearProbe()
      requires Valid()
      modifies this
      ensures Valid() && at == old(at).(snd := old(at).snd.(sendProbe := false))
    {
      hide RingRep, ReasmRep, BoardRep, SendImage, RecvImage, WireOption;
      FlagImage(at.snd);
      snd := snd.(sendProbe := false);
      at := at.(snd := at.snd.(sendProbe := false));
      Assembled();
    }

    method ClearRetransmit()
      requires Valid()
      modifies this
      ensures Valid() && at == old(at).(snd := old(at).snd.(retransmit := false))
    {
      hide RingRep, ReasmRep, BoardRep, SendImage, RecvImage, WireOption;
      FlagImage(at.snd);
      snd := snd.(retransmit := false);
      at := at.(snd := at.snd.(retransmit := false));
      Assembled();
    }

    /** One octet at SND.UNA into a closed window. */
    method SendProbe() returns (w: WireSegment)
      requires Valid() && Sendable(at) && at.snd.tx != []
      modifies this
      ensures Valid() && at == ProbeNow(old(at)).0 && Some(w) == Sent(ProbeNow(old(at)).1)
    {
      hide Valid, Sendable, SendInv, PoolInv, EdgeNear, ConfigOk, Wire, E.Build, AsSent, BoardRep, RecvOk;
      RingIs();
      SendableParts(at);
      var octet := PeekRing(0, 1);
      var una := snd.una;
      ClearProbe();
      w := Build(una, false, octet, at.snd.una);
    }

    /** Steps 1 and 2: new data, a probe, or the FIN. */
    method TransmitNew(env: Env) returns (w: Option<WireSegment>)
      requires Valid() && Sendable(at)
      modifies this
      ensures Valid() && at == E.StepNew(old(at), env).0 && w == Sent(E.StepNew(old(at), env).1)
    {
      hide Valid, Sendable, SendInv, PoolInv, EdgeNear, ConfigOk, Wire, AsSent, BoardRep, RecvOk, OffsetFrom, PipeOf;
      hide E.StepFin, NewNow, ProbeNow, Sent, PersistArmed;
      RingIs();
      SendableParts(at);
      FlightReads(at.snd, cfg.sack);
      var inflight := OffsetFrom(snd.nxt, snd.una);
      var sentData := MinN(inflight, |tx.buf|);
      var unsentData := |tx.buf| - sentData;
      var maxPayload := MaxSegmentPayload(at.rcv);
      var pipe := PipeEstimate();
      var room := MinN(Monus(cc.cwnd, pipe), Monus(snd.wnd, inflight));
      StepNewSplits(at, env);
      FlagsSendable(at, Paced(at, env));
      hide NewStep, E.StepNew, Allowed, Paced, MaxPayload;
      var allowed := Pace(env, room, unsentData);
      w := SendAllowed(env, allowed, inflight, sentData, maxPayload);
    }

    method SendAllowed(env: Env, allowed: nat, inflight: nat, sentData: nat,
                       maxPayload: nat) returns (w: Option<WireSegment>)
      requires Valid() && Sendable(at)
      requires inflight == Inflight(at.snd) && sentData == SentData(at.snd) && maxPayload == MaxPayload(at)
      modifies this
      ensures Valid() && at == NewStep(old(at), allowed, env).0 && w == Sent(NewStep(old(at), allowed, env).1)
    {
      hide Valid, Sendable, Wire, AsSent, BoardRep, RecvOk, E.StepFin, NewNow, MaxPayload, Inflight;
      RingIs();
      var unsentData := |tx.buf| - sentData;
      var n := MinN(MinN(allowed, unsentData), maxPayload);
      if n > 0 {
        var g := SendNew(sentData, n, env);
        w := Some(g);
      } else if allowed == 0 && unsentData > 0 && inflight == 0 && snd.wnd == 0 {
        w := ProbeOrFin(env);
      } else {
        w := TransmitFin(env);
      }
    }

    /** A closed peer window: keep the persist timer running, probe when it has fired. */
    method ProbeOrFin(env: Env) returns (w: Option<WireSegment>)
      requires Valid() && Sendable(at) && at.snd.tx != []
      modifies this
      ensures Valid()
      ensures var e1 := PersistArmed(old(at), env);
              var res := if e1.snd.sendProbe then ProbeNow(e1) else E.StepFin(e1, env);
              at == res.0 && w == Sent(res.1)
    {
      hide Sendable, AsSent, E.StepFin, E.Build;
      RingIs();
      FlagsSendable(at, PersistArmed(at, env));
      ArmPersist(env);
      hide Valid, PersistArmed;
      if snd.sendProbe {
        var g := SendProbe();
        w := Some(g);
      } else {
        w := TransmitFin(env);
      }
    }

    /** Note what has just been resent, and that the rescue is spent. */
    method MarkRepaired(seqNo: u32, n: nat, rescue: bool, ghost x: int)
      requires Valid() && SendInv(at.snd, cfg.sack) && seqNo == Wire(x) && at.snd.una <= x && x + n <= at.snd.nxt
      modifies this, scoreboard
      ensures Valid()
      ensures at == old(at).(snd := old(at).snd.(board := Marked(old(at).snd.board, x, n, rescue)))
    {
      hide SendInv, BoardRep, RingRep, ReasmRep, SendImage, RecvImage, WireOption, Wire, Add, Scoreboard.Valid,
           Rfc6675.Valid;
      hide Marked, Rfc6675.MarkRexmit, Rfc6675.SetRescueDone, RecvOk;
      RingIs();
      BoardInWindow(at.snd, cfg.sack);
      ghost var b, una, nxt := at.snd.board, at.snd.una, at.snd.nxt;
      MarkedParts(b, x, n, rescue);
      BoardOnly(at.snd, Marked(b, x, n, rescue));
      AddIsWire(x, n);
      BoardValid(scoreboard, b, una, nxt);
      scoreboard.MarkRexmit(seqNo, Add(seqNo, n), x, x + n, una, nxt);
      if rescue { scoreboard.SetRescueDone(una, nxt); }
      BoardIsRep(scoreboard, una, nxt);
      at := at.(snd := at.snd.(board := Marked(b, x, n, rescue)));
      Assembled();
    }

    /** Send `n` octets of the hole at `x` again and note it. */
    method Repair(seqNo: u32, off: nat, n: nat, rescue: bool, env: Env, ghost x: int) returns (w: WireSegment)
      requires Valid() && Sendable(at) && n > 0 && off + n <= |at.snd.tx| && x == at.snd.una + off
      requires seqNo == Wire(x) && x + n <= at.snd.nxt
      modifies this, scoreboard
      ensures Valid() && at == RepairNow(old(at), x, off, n, rescue, env).0
      ensures Some(w) == Sent(RepairNow(old(at), x, off, n, rescue, env).1)
    {
      hide Valid, Sendable, PoolInv, EdgeNear, ConfigOk, Wire, AsSent, E.Resend, Marked, SendInv, RecvOk, BoardRep;
      RingIs();
      SendableParts(at);
      ResendFrame(at, off, n, env);
      w := Resend(seqNo, off, n, env);
      MarkRepaired(seqNo, n, rescue, x);
    }

    lemma ResendFrame(e: E.Endpoint, off: nat, n: nat, env: Env)
      requires off + n <= |e.snd.tx|
      ensures E.Resend(e, off, n, env).0.snd == e.snd && E.Resend(e, off, n, env).0.cfg == e.cfg
    {
      hide Advertise, Reassembly.Report, ShiftRight;
    }

    /** Step 0.5: the next hole while the window exceeds the pipe; otherwise go on to new data. */
    method TransmitRepair(env: Env) returns (w: Option<WireSegment>)
      requires Valid() && Sendable(at)
      modifies this, scoreboard
      ensures Valid() && at == E.StepRepair(old(at), env).0 && w == Sent(E.StepRepair(old(at), env).1)
    {
      hide Valid, Sendable, PoolInv, EdgeNear, ConfigOk, Wire, AsSent, SendInv, RecvOk, BoardRep, PipeOf, InRecovery;
      hide E.StepNew, Rfc6675.NextSeg, RepairNow, Sent, OffsetFrom, UnsackedRunLen, MaxPayload;
      RingIs();
      SendableParts(at);
      PointOf(scoreboard, at.snd.board);
      if cfg.sack && scoreboard.recoveryPoint.Some? {
        var pipe := PipeEstimate();
        if cc.cwnd > pipe {
          w := RepairHole(env);
          return;
        }
      }
      w := TransmitNew(env);
    }

    /** The hole the scoreboard names, if there is one. */
    method RepairHole(env: Env) returns (w: Option<WireSegment>)
      requires Valid() && Sendable(at) && cfg.sack && InRecovery(at.snd.board) && at.cc.cwnd > PipeOf(at)
      modifies this, scoreboard
      ensures Valid() && at == E.StepRepair(old(at), env).0 && w == Sent(E.StepRepair(old(at), env).1)
    {
      hide Valid, Sendable, PoolInv, EdgeNear, ConfigOk, Wire, AsSent, SendInv, RecvOk, BoardRep, PipeOf, InRecovery;
      hide E.StepNew, Rfc6675.NextSeg, RepairNow, Sent, OffsetFrom, UnsackedRunLen, MaxPayload, Scoreboard.Valid;
      RingIs();
      SendableParts(at);
      BoardInWindow(at.snd, cfg.sack);
      ghost var una, nxt := at.snd.una, at.snd.nxt;
      BoardValid(scoreboard, at.snd.board, una, nxt);
      var found := scoreboard.NextSeg(snd.una, snd.nxt, cfg.mss, una, nxt, una, nxt);
      if found.Some? {
        w := RepairAt(found.value.0, found.value.1, env, Rfc6675.NextSeg(at.snd.board, una, nxt, cfg.mss).value.0);
      } else {
        w := TransmitNew(env);
      }
    }

    /** As much of the hole at `x` as one segment takes. */
    method RepairAt(seqNo: u32, rescue: bool, env: Env, ghost x: int) returns (w: Option<WireSegment>)
      requires Valid() && Sendable(at) && cfg.sack && InRecovery(at.snd.board) && at.cc.cwnd > PipeOf(at)
      requires Rfc6675.NextSeg(at.snd.board, at.snd.una, at.snd.nxt, at.cfg.mss) == Some((x, rescue))
      requires seqNo == Wire(x)
      modifies this, scoreboard
      ensures Valid() && at == E.StepRepair(old(at), env).0 && w == Sent(E.StepRepair(old(at), env).1)
    {
      hide Valid, Sendable, PoolInv, EdgeNear, ConfigOk, Wire, AsSent, SendInv, PipeOf, InRecovery;
      hide E.StepNew, E.StepRepair, Rfc6675.NextSeg, RepairNow, RepairSize;
      ConfigIs();
      SendableParts(at);
      HoleReads(at.snd, cfg.sack, x, rescue, cfg.mss);
      RepairChoice(at, x, rescue, env);
      var off, n := MeasureHole(seqNo, x);
      if n > 0 {
        var g := Repair(seqNo, off, n, rescue, env, x);
        w := Some(g);
      } else {
        hide Sent;
        w := TransmitNew(env);
      }
    }

    lemma ConfigIs()
      requires Valid()
      ensures at.cfg == cfg
    {}

    method MeasureHole(seqNo: u32, ghost x: int) returns (off: nat, n: nat)
      requires Valid() && Sendable(at) && seqNo == Wire(x) && at.snd.una <= x <= at.snd.nxt
      requires x + Rfc6675.UnsackedRunLen(at.snd.board, x, at.snd.nxt) <= at.snd.nxt
      ensures off == x - at.snd.una && n == RepairSize(at, x) && off + n <= |at.snd.tx| + (if n == 0 then off else 0)
      ensures x + n <= at.snd.nxt
    {
      hide Valid, Sendable, PoolInv, EdgeNear, ConfigOk, Wire, SendInv, RecvOk, BoardRep, OffsetFrom,
           UnsackedRunLen, MaxPayload;
      RingIs();
      SendableParts(at);
      OffsetReads(at.snd, cfg.sack, x);
      var maxPayload := MaxSegmentPayload(at.rcv);
      off := OffsetFrom(seqNo, snd.una);
      var hole := HoleLength(seqNo, x);
      n := MinN(MinN(hole, maxPayload), Monus(|tx.buf|, off));
    }

    method HoleLength(seqNo: u32, ghost x: int) returns (len: nat)
      requires Valid() && SendInv(at.snd, cfg.sack) && seqNo == Wire(x) && at.snd.una <= x <= at.snd.nxt
      ensures len == Rfc6675.UnsackedRunLen(at.snd.board, x, at.snd.nxt)
    {
      hide Valid, SendInv, Wire, Rfc6675.UnsackedRunLen, Scoreboard.Valid, BoardRep, Rfc6675.Valid;
      RingIs();
      BoardInWindow(at.snd, cfg.sack);
      ghost var una, nxt := at.snd.una, at.snd.nxt;
      BoardValid(scoreboard, at.snd.board, una, nxt);
      len := scoreboard.UnsackedRunLen(seqNo, snd.nxt, x, nxt, una, nxt);
    }

    /** Step 0: a pending retransmission of the oldest octets, or of the FIN when only it is left. */
    method TransmitDataOrFin(env: Env) returns (w: Option<WireSegment>)
      requires Valid() && Sendable(at)
      modifies this, scoreboard
      ensures Valid() && at == E.StepRetransmit(old(at), env).0 && w == Sent(E.StepRetransmit(old(at), env).1)
    {
      hide Valid, Sendable, PoolInv, EdgeNear, ConfigOk, Wire, AsSent, SendInv, RecvOk, BoardRep, OffsetFrom;
      hide E.StepRepair, E.Build, E.Resend, MaxPayload, Sent, E.Inflight;
      RingIs();
      SendableParts(at);
      FlightReads(at.snd, cfg.sack);
      var inflight := OffsetFrom(snd.nxt, snd.una);
      if snd.retransmit && inflight > 0 {
        w := RetransmitOldest(inflight, env);
      } else {
        w := TransmitRepair(env);
      }
    }

    method RetransmitOldest(inflight: nat, env: Env) returns (w: Option<WireSegment>)
      requires Valid() && Sendable(at) && at.snd.retransmit && inflight == Inflight(at.snd) > 0
      modifies this, scoreboard
      ensures Valid() && at == E.StepRetransmit(old(at), env).0 && w == Sent(E.StepRetransmit(old(at), env).1)
    {
      hide Valid, Sendable, PoolInv, EdgeNear, ConfigOk, Wire, AsSent, SendInv, BoardRep;
      hide E.StepRepair, E.StepRetransmit, E.Build, E.Resend, MaxPayload, StartRtx;
      RingIs();
      SendableParts(at);
      ghost var e0 := at.(snd := at.snd.(retransmit := false));
      FlagsSendable(at, e0);
      RetransmitChoice(at, env);
      var maxPayload := MaxSegmentPayload(at.rcv);
      hide RecvOk;
      var n := MinN(MinN(inflight, |tx.buf|), maxPayload);
      var una := snd.una;
      ClearRetransmit();
      if n > 0 {
        var g := Resend(una, 0, n, env);
        w := Some(g);
      } else {
        w := AgainFin(env);
      }
    }

    /** The outstanding octet is the FIN: send it again; otherwise go on to repair. */
    method AgainFin(env: Env) returns (w: Option<WireSegment>)
      requires Valid() && Sendable(at)
      modifies this, scoreboard
      ensures Valid()
      ensures var e0 := old(at);
              var (f, g) := E.Build(e0, e0.snd.una, true, []);
              if e0.snd.finSeq == Some(e0.snd.una) && !e0.snd.finAcked
              then at == f.(t := StartRtx(f.t, env)) && w == Some(AsSent(g))
              else at == E.StepRepair(e0, env).0 && w == Sent(E.StepRepair(e0, env).1)
    {
      hide Valid, Sendable, PoolInv, EdgeNear, ConfigOk, Wire, AsSent, SendInv, RecvOk, BoardRep;
      hide E.StepRepair, E.Build, StartRtx, Sent;
      RingIs();
      SendableParts(at);
      FinSlotReads(at.snd, cfg.sack);
      if snd.finSeq.Some? && !snd.finAcked && snd.una == snd.finSeq.value {
        var g := Build(snd.finSeq.value, true, [], at.snd.una);
        StartTimer(env);
        w := Some(g);
      } else {
        w := TransmitRepair(env);
      }
    }

    method TakePendingReset() returns (w: WireSegment)
      requires Valid() && pendingReset.Some?
      modifies this
      ensures Valid() && at == old(at).(owedRst := None)
      ensures old(at).owedRst.Some?
      ensures w == AsSent(E.Segment(old(at).owedRst.value, 0, true, false, false, false, 0, 0, [], []))
    {
      assert OnWire([]) == [];
      hide RingRep, ReasmRep, BoardRep, SendImage, RecvImage;
      w := WireSegment(pendingReset.value, 0, true, false, false, false, 0, 0, [], []);
      pendingReset := None;
      at := at.(owedRst := None);
      Assembled();
    }

    /** An owed ACK. */
    method TransmitAck() returns (w: Option<WireSegment>)
      requires Valid() && Sendable(at)
      modifies this
      ensures Valid() && at == PureAck(old(at)).0 && w == Sent(PureAck(old(at)).1)
    {
      hide Valid, Sendable, SendInv, PoolInv, EdgeNear, ConfigOk, Wire, AsSent, RecvOk, BoardRep, E.Build;
      RingIs();
      SendableParts(at);
      w := None;
      if rcv.needsAck {
        AckTaken(at.rcv, cfg.sack);
        TakeNeedsAck();
        RingIs();
        var g := Build(snd.nxt, false, [], at.snd.nxt);
        w := Some(g);
      }
    }

    lemma AckTaken(r: E.Receiver, sack: bool)
      requires PoolInv(r, sack) && EdgeNear(r)
      ensures PoolInv(r.(needsAck := false), sack) && EdgeNear(r.(needsAck := false))
    {
      AckFlagKeepsPool(r, sack);
      hide PoolInv;
    }

    method TakeNeedsAck()
      requires Valid()
      modifies this
      ensures Valid() && at == old(at).(rcv := old(at).rcv.(needsAck := false))
    {
      hide RingRep, ReasmRep, BoardRep, SendImage, WireOption;
      rcv := rcv.(needsAck := false);
      at := at.(rcv := at.rcv.(needsAck := false));
      Assembled();
    }

    /** The next segment to send, or none. */
    method PollTransmit(env: Env) returns (w: Option<WireSegment>)
      requires Valid() && Ready(at)
      modifies this, scoreboard
      ensures Valid() && Ready(at)
      ensures at == Poll(old(at), env).0 && w == Sent(Poll(old(at), env).1)
    {
      hide Ready, Sendable, AsSent, PureAck, E.StepRetransmit, Wire;
      PollStaysReady(at, env);
      ReadyIsSendable(at);
      StateIsShown();
      hide Valid;
      if pendingReset.Some? {
        var g := TakePendingReset();
        w := Some(g);
      } else if state.Closed? {
        w := None;
      } else if state.TimeWait? {
        w := TransmitAck();
      } else {
        w := TransmitLive(env);
      }
    }

    lemma StateIsShown()
      requires Valid()
      ensures state == at.state && (pendingReset.Some? <==> at.owedRst.Some?)
    {}

    method TransmitLive(env: Env) returns (w: Option<WireSegment>)
      requires Valid() && Ready(at) && !at.state.Closed? && !at.state.TimeWait?
      modifies this, scoreboard
      ensures Valid()
      ensures var (e1, g) := E.StepRetransmit(old(at), env);
              var res := if g.Some? then (e1, g) else PureAck(e1);
              at == res.0 && w == Sent(res.1)
    {
      hide Valid, Ready, Sendable, AsSent, PureAck, E.StepRetransmit, Wire;
      ReadyIsSendable(at);
      RetransmitStaysSendable(at, env);
      w := TransmitDataOrFin(env);
      if w.None? { w := TransmitAck(); }
    }

    lemma RetransmitStaysSendable(e: E.Endpoint, env: Env)
      requires Ready(e) && !e.state.Closed? && !e.state.TimeWait?
      ensures E.StepRetransmit(e, env).1.None? ==> Sendable(E.StepRetransmit(e, env).0)
    {
      ReadyIsSendable(e);
      Sending.StepRetransmitOk(e, env);
      hide E.StepRetransmit, Consistent, Sendable, Sending.Emits;
      var f := E.StepRetransmit(e, env).0;
      if E.StepRetransmit(e, env).1.None? { FlagsSendable(e, f); }
    }

    // ── timers ────────────────────────────────────────────────────────────────────────────────

    /** The earliest armed deadline. */
    method PollAt() returns (d: Option<nat>)
      requires Valid()
      ensures d == E.PollAt(at)
      ensures d.Some? ==> LeastArmed(deadlines, d.value)
      ensures d.None? ==> forall x :: !ArmedAt(deadlines, x)
    {
      hide LeastArmed, ArmedAt, E.PollAt, EarliestOf, Earliest;
      hide RingRep, ReasmRep, BoardRep, SendImage, RecvImage, WireOption;
      ConnectionRuns.LeastDeadline(at);
      var all := [deadlines.rtx, deadlines.persist, deadlines.timeWait, deadlines.delayedAck, deadlines.pace];
      d := None;
      NoneEarliest();
      var i := |all|;
      assert all[i..] == [];
      while i > 0
        invariant 0 <= i <= |all|
        invariant d == EarliestOf(all[i..])
      {
        i := i - 1;
        EarliestStep(all, i);
        if all[i].Some? && (d.None? || all[i].value < d.value) { d := all[i]; }
      }
      assert all[0..] == all;
      FiveEarliest(all);
      PollAtIs(at);
    }

    /** A timeout: collapse the window, abandon recovery, go back to the oldest octet. */
    method FireRtx(env: Env)
      requires Valid() && SendInv(at.snd, cfg.sack)
      modifies this, cc, scoreboard
      ensures Valid() && at == RtxTimer(old(at), env)
    {
      hide Valid, SendInv, BoardRep, RecvOk, Wire, OffsetFrom, Congestion.OnRto, RestartRtx;
      RingIs();
      if deadlines.rtx.Some? && env.now >= deadlines.rtx.value {
        FlightReads(at.snd, cfg.sack);
        CollapseWindow(OffsetFrom(snd.nxt, snd.una), env);
      }
    }

    method CollapseWindow(flight: nat, env: Env)
      requires Valid() && SendInv(at.snd, cfg.sack) && Due(at.t.rtx, env.now) && flight == Inflight(at.snd)
      modifies this, cc, scoreboard
      ensures Valid() && at == RtxTimer(old(at), env)
    {
      hide SendInv, BoardRep, RecvOk, RingRep, ReasmRep, SendImage, RecvImage, Wire, WireOption, RestartRtx,
           Congestion.OnRto;
      hide Scoreboard.Valid, Rfc6675.Valid, Rfc6675.OnRto, Inflight;
      RingIs();
      ghost var b, una, nxt := at.snd.board, at.snd.una, at.snd.nxt;
      BoardInWindow(at.snd, cfg.sack);
      BoardValid(scoreboard, b, una, nxt);
      RtoImage(at.snd, cfg.sack);
      ghost var f := RtxTimer(at, env);
      cc.OnRto(flight);
      if cfg.sack { scoreboard.OnRto(una, nxt); }
      BoardIsRep(scoreboard, una, nxt);
      snd := snd.(retransmit := true, gbn := Some(snd.nxt));
      deadlines := RestartRtx(deadlines, env);
      at := f;
      Assembled();
    }

    method FirePersist(env: Env)
      requires Valid()
      modifies this
      ensures Valid() && at == PersistTimer(old(at), env)
    {
      hide BoardRep, RingRep, ReasmRep, SendImage, RecvImage, WireOption;
      ProbeImage(at.snd);
      ghost var f := PersistTimer(at, env);
      if deadlines.persist.Some? && env.now >= deadlines.persist.value {
        var b := MinN(deadlines.backoff * 2, PERSIST_MAX);
        snd := snd.(sendProbe := true);
        deadlines := deadlines.(backoff := b, persist := Some(env.now + b));
      }
      at := f;
      Assembled();
    }

    method FireTimeWait(env: Env)
      requires Valid()
      modifies this
      ensures Valid() && at == if Due(old(at).t.timeWait, env.now) then old(at).(state := Closed) else old(at)
    {
      hide BoardRep, RingRep, ReasmRep, SendImage, RecvImage, WireOption;
      if deadlines.timeWait.Some? && env.now >= deadlines.timeWait.value {
        state := Closed;
        at := at.(state := Closed);
      }
      Assembled();
    }

    method FireDelayedAck(env: Env)
      requires Valid()
      modifies this
      ensures Valid()
      ensures at == if Due(old(at).t.delayedAck, env.now)
                    then old(at).(rcv := old(at).rcv.(needsAck := true), t := old(at).t.(delayedAck := None))
                      else old(at)
    {
      hide BoardRep, RingRep, ReasmRep, SendImage, WireOption;
      if deadlines.delayedAck.Some? && env.now >= deadlines.delayedAck.value {
        rcv := rcv.(needsAck := true);
        deadlines := deadlines.(delayedAck := None);
        at := at.(rcv := at.rcv.(needsAck := true), t := at.t.(delayedAck := None));
      }
      Assembled();
    }

    /** Fire every timer whose deadline has passed. */
    method OnTimer(env: Env)
      requires Valid() && Ready(at)
      modifies this, cc, scoreboard
      ensures Valid() && Ready(at) && at == E.OnTimer(old(at), env)
    {
      hide Valid, Ready, RtxTimer, PersistTimer, Sendable, SendInv, PoolInv, EdgeNear, Wire, BoardRep;
      RingIs();
      ReadyIsSendable(at);
      SendableParts(at);
      StepStaysReady(at, ConnectionRuns.Tick(env));
      FireRtx(env);
      FirePersist(env);
      FireTimeWait(env);
      FireDelayedAck(env);
    }
  }

  lemma RtoImage(s: E.Sender, sack: bool)
    ensures var b := if sack then Rfc6675.OnRto(s.board) else s.board;
            SendImage(s.(board := b, retransmit := true, gbn := Some(s.nxt)))
            == SendImage(s).(retransmit := true, gbn := Some(SendImage(s).nxt))
  {}

  lemma ProbeImage(s: E.Sender)
    ensures SendImage(s.(sendProbe := true)) == SendImage(s).(sendProbe := true)
  {}

  function EarliestOf(ds: seq<Option<nat>>): Option<nat> {
    if ds == [] then None else Earliest(ds[0], EarliestOf(ds[1..]))
  }

  lemma EarliestStep(ds: seq<Option<nat>>, i: nat)
    requires i < |ds|
    ensures var d := EarliestOf(ds[i + 1..]);
            EarliestOf(ds[i..]) == if ds[i].Some? && (d.None? || ds[i].value < d.value) then ds[i] else d
  {
    assert ds[i..][0] == ds[i] && ds[i..][1..] == ds[i + 1..];
  }

  lemma NoneEarliest()
    ensures EarliestOf([]) == None
  {}

  lemma PollAtIs(e: E.Endpoint)
    ensures E.PollAt(e)
         == Earliest(e.t.rtx, Earliest(e.t.persist, Earliest(e.t.timeWait, Earliest(e.t.delayedAck, e.t.pace))))
  {}

  lemma FiveEarliest(ds: seq<Option<nat>>)
    requires |ds| == 5
    ensures EarliestOf(ds) == Earliest(ds[0], Earliest(ds[1], Earliest(ds[2], Earliest(ds[3], ds[4]))))
  {
    var d1, d2, d3, d4 := ds[1..], ds[2..], ds[3..], ds[4..];
    assert d1[1..] == d2 && d2[1..] == d3 && d3[1..] == d4 && d4[1..] == [];
    assert EarliestOf(d4) == Earliest(ds[4], None) == ds[4];
    assert EarliestOf(d3) == Earliest(ds[3], ds[4]);
    assert EarliestOf(d2) == Earliest(ds[2], EarliestOf(d3));
    assert EarliestOf(d1) == Earliest(ds[1], EarliestOf(d2));
  }
}
