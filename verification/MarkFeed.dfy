/** What an arriving ACK tells the congestion controller: exactly the bytes it freed, and exactly the marks
    its ACE field decodes to. With `AccEcn` that makes the marks the controller is given the marks the
    receiver counted. */
module MarkFeed {
  import opened Options
  import opened Serial
  import opened Runs
  import opened Rfc6675
  import opened Reassembly
  import opened Congestion
  import opened Endpoint
  import opened ReceiveSide
  import opened Connection
  import opened Sending
  import opened ConnectionRuns
  import opened Network
  import opened NetworkRuns
  import opened AccEcn
  import Responses
  import Discipline

  /** In SACK recovery the controller is not told of ACKs. */
  predicate Recovering(e: Endpoint) { e.cfg.sack && InRecovery(e.snd.board) }

  /** Bytes a step freed from the send ring. */
  function Freed(e: Endpoint, f: Endpoint): nat { if |f.snd.tx| <= |e.snd.tx| then |e.snd.tx| - |f.snd.tx| else 0 }

  /** `k` is the number of new marks a three-bit count shows, modulo eight. */
  predicate Shows(seen: nat, ace: nat, k: nat) { k < 8 && (seen + k) % 8 == ace % 8 }

  lemma ShownOnce(seen: nat, ace: nat, k: nat)
    requires Shows(seen, ace, k)
    ensures (ace - seen) % 8 == k
  {
    var q := (seen + k) / 8 - ace / 8;
    assert ace - seen == k - 8 * q;
    WholeTurns(k, q);
  }

  lemma ShownAlways(seen: nat, ace: nat)
    ensures Shows(seen, ace, (ace - seen) % 8)
  {
    var q := (ace - seen) / 8;
    assert seen + (ace - seen) % 8 == ace - 8 * q;
    WholeTurns(ace, q);
  }

  /** The mark account of the controller. */
  predicate SameAccount(c: Cc, d: Cc) {
    d.ackedWin == c.ackedWin && d.markedWin == c.markedWin && d.alpha == c.alpha && d.windowBytes == c.windowBytes
  }

  /** The account after `n` bytes of which `marked` were marked: counted, or, once a window's worth is
      covered, turned into a sixteenth of alpha and started again. */
  predicate Told(c: Cc, d: Cc, n: nat, marked: nat) {
    var acked, m := SatAdd(c.ackedWin, n), SatAdd(c.markedWin, marked);
    if n == 0 then SameAccount(c, d)
    else if acked < c.windowBytes then
      d.ackedWin == acked && d.markedWin == m && d.alpha == c.alpha && d.windowBytes == c.windowBytes
    else
      d.ackedWin == 0 && d.markedWin == 0 && d.alpha == c.alpha + (m as real / acked as real - c.alpha) / 16.0
  }

  /** From `e` to `f` the controller was told of the bytes freed, and of `k` marks as that many segments'
      worth of them, at most all. */
  predicate MarksTold(e: Endpoint, f: Endpoint, k: nat) {
    var n, bytes := Freed(e, f), k * e.cfg.mss;
    Told(e.cc, f.cc, n, if bytes < n then bytes else n)
  }

  lemma AccountIgnoresAcks(c: Cc, n: nat, srtt: nat)
    ensures SameAccount(c, CcAck(c, n)) && SameAccount(c, OnRtt(c, srtt)) && CcAck(c, n).mss == c.mss
    ensures OnRtt(c, srtt).cwnd == c.cwnd
  {
    hide Drain, IncreaseOf;
  }

  lemma AccountIgnoresLoss(c: Cc, dup: bool, flight: nat)
    ensures SameAccount(c, CountDup(c, dup, flight).0)
    ensures SameAccount(c, EnterRecovery(CountDup(c, dup, flight).0, flight))
  {
    hide LossTarget;
  }

  lemma EcnTells(c: Cc, n: nat, marked: nat)
    requires Inv(c) && !c.law.Reno? && marked <= n
    ensures Told(c, OnEcn(c, n, marked), n, marked)
  {
    hide CutWindow;
    var acked, m := SatAdd(c.ackedWin, n), SatAdd(c.markedWin, marked);
    if n > 0 && acked >= c.windowBytes {
      var e := c.(ackedWin := acked, markedWin := m);
      assert OnEcn(c, n, marked) == CloseRound(e);
    }
  }

  lemma SameTold(c: Cc, c1: Cc, d1: Cc, d: Cc, n: nat, marked: nat)
    requires SameAccount(c, c1) && Told(c1, d1, n, marked) && SameAccount(d1, d)
    ensures Told(c, d, n, marked)
  {}

  /** The controller after the ACK itself. */
  lemma AckTells(e: Endpoint, g: Segment, env: Env, n: nat, k: nat)
    requires CcInv(e.cc, e.cfg) && EcnEnabled(e) && Shows(e.snd.aceSeen, g.ace, k)
    ensures var d := AckCc(e, g, env, n);
            if Recovering(e) then SameAccount(e.cc, d) else Told(e.cc, d, n, MinN(k * e.cfg.mss, n))
  {
    hide CcAck, OnEcn, OnRtt, Told, SameAccount, CcInv, Shows;
    ShownOnce(e.snd.aceSeen, g.ace, k);
    var marked := MinN(k * e.cfg.mss, n);
    var c1 := if Recovering(e) then e.cc else CcAck(e.cc, n);
    AccountReflexive(e.cc);
    AccountIgnoresAcks(e.cc, n, 0);
    CcAckKeeps(e.cc, n, e.cfg);
    EventLaw(e.cc, n, 0, 0);
    AccountParts(c1, e.cfg);
    var c2 := if Recovering(e) then c1 else OnEcn(c1, n, marked);
    var c3 := if e.cfg.sack && RecoveryReached(e.snd.board, g.ack) then CcAck(c2, 0) else c2;
    AccountReflexive(c2);
    AccountIgnoresAcks(c2, 0, 0);
    var d := AckCc(e, g, env, n);
    AccountReflexive(c3);
    if env.srtt.Some? { AccountIgnoresAcks(c3, 0, env.srtt.value); }
    AccountTrans(c2, c3, d);
    if Recovering(e) {
      AccountTrans(e.cc, c2, d);
    } else {
      EcnTells(c1, n, marked);
      SameTold(e.cc, c1, c2, d, n, marked);
    }
  }

  lemma AccountReflexive(c: Cc)
    ensures SameAccount(c, c)
  {}

  lemma AccountTrans(c: Cc, d: Cc, e: Cc)
    requires SameAccount(c, d) && SameAccount(d, e)
    ensures SameAccount(c, e)
  {}

  lemma AccountParts(c: Cc, cfg: Config)
    requires CcInv(c, cfg)
    ensures Inv(c)
  {}

  lemma DetectAccount(e: Endpoint, g: Segment, dup: bool, env: Env)
    ensures SameAccount(e.cc, DetectLoss(e, g, dup, env).cc)
  {
    AccountIgnoresLoss(e.cc, dup, Inflight(e.snd));
    AccountReflexive(e.cc);
    hide CountDup, EnterRecovery, Update, IsLost, InRecovery, BeginRecovery, Inflight, SameAccount;
    if e.cfg.sack {
      assert DetectLoss(e, g, dup, env) == DetectSack(e, g, dup, env);
    } else {
      assert DetectLoss(e, g, dup, env) == DetectPlain(e, dup, env);
    }
  }

  lemma AckCcIs(e: Endpoint, g: Segment, env: Env)
    requires g.ack <= e.snd.nxt
    ensures ProcessAck(e, g, env).0.cc ==
            if g.ack > e.snd.una then AckCc(e, g, env, MinN(g.ack - e.snd.una, |e.snd.tx|)) else e.cc
  {
    hide AckCc, AckBoard, ShiftLeft, Lt, Le, Wire;
  }

  /** The account after any segment that gets as far as its ACK. */
  lemma ProcessAccount(e: Endpoint, g: Segment, env: Env)
    ensures SameAccount(ProcessAck(e, g, env).0.cc, Process(e, g, env).cc)
  {
    hide ProcessAck, DetectLoss, Process, SameAccount;
    Discipline.TailKeepsRecovery(e, g, env);
    var (e1, ok) := ProcessAck(e, g, env);
    AccountReflexive(e1.cc);
    DetectAccount(e1, g, IsDupAck(e, g), env);
  }

  /** The new marks an ACK shows reach the controller as that many segments' worth of marked bytes, at most
      the bytes the ACK freed, together with the bytes it freed; in recovery neither does. A segment that
      does not advance SND.UNA tells it nothing. */
  lemma SegmentTellsMarks(e: Endpoint, g: Segment, env: Env, k: nat)
    requires Consistent(e) && EcnEnabled(e) && Shows(e.snd.aceSeen, g.ace, k)
    ensures var f := OnSegment(e, g, env);
            if f.snd.una == e.snd.una || Recovering(e) then SameAccount(e.cc, f.cc) else MarksTold(e, f, k)
  {
    hide Process, MarksTold, SameAccount, Consistent, Shows, EcnEnabled, Recovering;
    AccountReflexive(e.cc);
    if !g.rst && !e.state.TimeWait? && !g.syn && Acceptable(e.rcv, g) && g.hasAck {
      assert OnSegment(e, g, env) == Process(e, g, env);
      ProcessTells(e, g, env, k);
    }
  }

  lemma ProcessTells(e: Endpoint, g: Segment, env: Env, k: nat)
    requires Consistent(e) && EcnEnabled(e) && Shows(e.snd.aceSeen, g.ace, k)
    ensures var f := Process(e, g, env);
            if f.snd.una == e.snd.una || Recovering(e) then SameAccount(e.cc, f.cc) else MarksTold(e, f, k)
  {
    hide Process, ProcessAck, MarksTold, SameAccount, Consistent, Shows, EcnEnabled, Recovering, AckCc;
    ProcessAccount(e, g, env);
    AckMovesUna(e, g, env);
    if g.ack <= e.snd.nxt {
      AckCcIs(e, g, env);
      if g.ack > e.snd.una { AdvanceTells(e, g, env, k); }
    } else {
      NotOkCc(e, g, env);
    }
  }

  lemma AdvanceTells(e: Endpoint, g: Segment, env: Env, k: nat)
    requires Consistent(e) && EcnEnabled(e) && Shows(e.snd.aceSeen, g.ace, k) && e.snd.una < g.ack <= e.snd.nxt
    ensures var f := Process(e, g, env);
            if Recovering(e) then SameAccount(e.cc, f.cc) else MarksTold(e, f, k)
  {
    hide Process, ProcessAck, SameAccount, Told, Consistent, Shows, EcnEnabled, Recovering, AckCc;
    var n := MinN(g.ack - e.snd.una, |e.snd.tx|);
    ConsistentFacts(e);
    AckTells(e, g, env, n, k);
    AckCcIs(e, g, env);
    ProcessAccount(e, g, env);
    FreedBytes(e, g, env);
    AccountReflexive(e.cc);
    var d, f := ProcessAck(e, g, env).0.cc, Process(e, g, env).cc;
    if Recovering(e) { AccountTrans(e.cc, d, f); }
    else { SameTold(e.cc, e.cc, d, f, n, MinN(k * e.cfg.mss, n)); }
  }

  lemma FreedBytes(e: Endpoint, g: Segment, env: Env)
    requires e.snd.una < g.ack <= e.snd.nxt
    ensures Freed(e, Process(e, g, env)) == MinN(g.ack - e.snd.una, |e.snd.tx|)
  {
    TailSender(e, g, env);
    FreedByAck(e, g, env);
    var (e1, ok) := ProcessAck(e, g, env);
    DetectFrame(e1, g, IsDupAck(e, g), env);
    hide ProcessAck, DetectLoss, Process;
  }

  lemma FreedByAck(e: Endpoint, g: Segment, env: Env)
    requires e.snd.una < g.ack <= e.snd.nxt
    ensures |ProcessAck(e, g, env).0.snd.tx| == |e.snd.tx| - MinN(g.ack - e.snd.una, |e.snd.tx|)
  {
    hide AckCc, AckBoard, ShiftLeft, Lt, Le, Wire;
  }

  lemma NotOkCc(e: Endpoint, g: Segment, env: Env)
    requires g.ack > e.snd.nxt
    ensures ProcessAck(e, g, env).0.cc == e.cc && ProcessAck(e, g, env).0.snd == e.snd
  {}

  lemma AckMovesUna(e: Endpoint, g: Segment, env: Env)
    requires Consistent(e)
    ensures Process(e, g, env).snd.una == if e.snd.una < g.ack <= e.snd.nxt then g.ack else e.snd.una
  {
    TailSender(e, g, env);
    UnaAfterAck(e, g, env);
    var (e1, ok) := ProcessAck(e, g, env);
    DetectFrame(e1, g, IsDupAck(e, g), env);
    hide ProcessAck, DetectLoss, Process;
  }

  lemma UnaAfterAck(e: Endpoint, g: Segment, env: Env)
    ensures var (e1, ok) := ProcessAck(e, g, env);
            e1.snd.una == if e.snd.una < g.ack <= e.snd.nxt then g.ack else e.snd.una
  {
    hide AckCc, AckBoard, ShiftLeft, Lt, Le, Wire;
  }

  // ── the bytes ───────────────────────────────────────────────────────────────────────────────

  /** The controller takes `n` bytes acknowledged and then, with ECN, `k` marks: `Responses` says what each
      does to the window. */
  function After(c: Cc, n: nat, k: nat): Cc
    requires c.cwnd > 0 && c.mss > 0
  {
    var d := OnAck(c, n);
    if c.law.Reno? then d else OnEcn(d, n, MinN(k * c.mss, n))
  }

  /** Window, threshold, accumulator and estimate, as the freed bytes and `k` marks leave them. */
  predicate WindowTold(e: Endpoint, f: Endpoint, k: nat) {
    && e.cc.cwnd > 0 && e.cc.mss > 0
    && var d := After(e.cc, Freed(e, f), k);
       f.cc.cwnd == d.cwnd && f.cc.ssthresh == d.ssthresh && f.cc.caAcc == d.caAcc && f.cc.alpha == d.alpha
  }

  /** An ACK of new data outside recovery that starts none moves the window exactly as the bytes it freed and
      the marks it shows do. */
  lemma SegmentMovesWindow(e: Endpoint, g: Segment, env: Env, k: nat)
    requires Consistent(e) && !Recovering(e) && Shows(e.snd.aceSeen, g.ace, k)
    requires e.snd.una < OnSegment(e, g, env).snd.una
    ensures var f := OnSegment(e, g, env); WindowTold(e, f, k) || InRecovery(f.snd.board)
  {
    hide Process, WindowTold, Consistent, Recovering, Shows;
    if !g.rst && !e.state.TimeWait? && !g.syn && Acceptable(e.rcv, g) && g.hasAck {
      assert OnSegment(e, g, env) == Process(e, g, env);
      AckMovesUna(e, g, env);
      AdvanceMoves(e, g, env, k);
    }
  }

  lemma AdvanceMoves(e: Endpoint, g: Segment, env: Env, k: nat)
    requires Consistent(e) && !Recovering(e) && Shows(e.snd.aceSeen, g.ace, k) && e.snd.una < g.ack <= e.snd.nxt
    ensures var f := Process(e, g, env); WindowTold(e, f, k) || InRecovery(f.snd.board)
  {
    hide Process, ProcessAck, AckCc, Consistent, After, DetectLoss, Recovering, Freed, Shows;
    AckCcIs(e, g, env);
    FreedBytes(e, g, env);
    WindowIsPositive(e);
    AckCcMoves(e, g, env, MinN(g.ack - e.snd.una, |e.snd.tx|), k);
    Discipline.TailKeepsRecovery(e, g, env);
    var (e1, ok) := ProcessAck(e, g, env);
    FlowAnswer(e, g, env);
    QuietDetect(e1, g, env);
    assert !IsDupAck(e, g);
  }

  lemma AckCcMoves(e: Endpoint, g: Segment, env: Env, n: nat, k: nat)
    requires !Recovering(e) && e.cc.cwnd > 0 && e.cc.mss > 0 && Shows(e.snd.aceSeen, g.ace, k) && e.cc.mss == e.cfg.mss
    ensures var c, d := AckCc(e, g, env, n), After(e.cc, n, k);
            c.cwnd == d.cwnd && c.ssthresh == d.ssthresh && c.caAcc == d.caAcc && c.alpha == d.alpha
  {
    ShownOnce(e.snd.aceSeen, g.ace, k);
    EventLaw(e.cc, n, 0, 0);
    hide OnAck, OnEcn, Shows, OnRtt;
    var d := After(e.cc, n, k);
    assert CcAck(e.cc, n) == OnAck(e.cc, n);
    assert AckCc(e, g, env, n) == if env.srtt.Some? then OnRtt(d, env.srtt.value) else d;
    if env.srtt.Some? { RttLeavesWindow(d, env.srtt.value); }
  }

  lemma RttLeavesWindow(c: Cc, s: nat)
    ensures var d := OnRtt(c, s);
            d.cwnd == c.cwnd && d.ssthresh == c.ssthresh && d.caAcc == c.caAcc && d.alpha == c.alpha
  {}

  lemma WindowIsPositive(e: Endpoint)
    requires Consistent(e)
    ensures e.cc.cwnd > 0 && e.cc.mss > 0 && e.cc.mss == e.cfg.mss
  {
    ConsistentFacts(e);
    hide Consistent, SendInv, PoolInv;
  }

  lemma FlowAnswer(e: Endpoint, g: Segment, env: Env)
    ensures ProcessAck(e, g, env).1 <==> g.ack <= e.snd.nxt
    ensures ProcessAck(e, g, env).0.cfg == e.cfg
  {
    hide AckCc, AckBoard, ShiftLeft, Lt, Le, Wire;
  }

  /** An ACK that is no duplicate moves the controller only by starting an episode. */
  lemma QuietDetect(e: Endpoint, g: Segment, env: Env)
    ensures var f := DetectLoss(e, g, false, env); f.cc == e.cc || InRecovery(f.snd.board)
  {
    hide Update, IsLost, EnterRecovery, Inflight;
    if e.cfg.sack { assert DetectLoss(e, g, false, env) == DetectSack(e, g, false, env); }
  }

  // ── across the network ──────────────────────────────────────────────────────────────────────

  /** What a delivery adds to the decoded marks is what the controller is told. */
  lemma DecodedIsTold(x: Side, p: Packet, env: Env)
    requires SenderOk(x) && EcnEnabled(x.ep) && Arrival(x, p, env).ep.snd.una > x.ep.snd.una && !Recovering(x.ep)
    ensures var x' := Arrival(x, p, env);
            0 <= x'.decoded - x.decoded < 8 && MarksTold(x.ep, x'.ep, x'.decoded - x.decoded)
  {
    hide SenderOk, Consistent, OnSegment, MarksTold, Recovering, Shows, SameAccount;
    ShownAlways(x.ep.snd.aceSeen, p.g.ace);
    SenderIsConsistent(x);
    SegmentTellsMarks(x.ep, p.g, env, (p.g.ace - x.ep.snd.aceSeen) % 8);
  }

  /** The controller of `x` is told the marks the receiver accepted since the last advancing ACK. */
  ghost predicate TrulyTold(x: Side, p: Packet, env: Env) {
    var x' := Arrival(x, p, env);
    x.lastCep <= p.cep && x'.lastCep == p.cep && MarksTold(x.ep, x'.ep, p.cep - x.lastCep)
  }

  /** In every reachable net, an advancing ACK outside recovery tells the controller the number of marks the
      receiver accepted since the last one, as long as they are fewer than eight. */
  lemma TrueMarksReachTheController(s: Terms, t: Terms, moves: seq<Move>, p: Packet, env: Env)
    requires Agreed(s, t) && Playable(Begin(s, t), moves) && !s.law.Reno? && !t.law.Reno?
    ensures var m := Reached(Begin(s, t), moves);
            (p in m.b.out && p.cep < m.a.lastCep + 8 && !Recovering(m.a.ep) &&
             Arrival(m.a, p, env).ep.snd.una > m.a.ep.snd.una) ==> TrulyTold(m.a, p, env)
  {
    hide SafeNet, Playable, Begin, Agreed, AccEcn.Marked, Reached, Recovering, MarksTold, Arrival;
    BeginIsSafe(s, t);
    BeginIsMarked(s, t);
    FeedbackForever(Begin(s, t), moves);
    SafeForever(Begin(s, t), moves);
    var m := Reached(Begin(s, t), moves);
    if p in m.b.out && p.cep < m.a.lastCep + 8 && !Recovering(m.a.ep) &&
       Arrival(m.a, p, env).ep.snd.una > m.a.ep.snd.una {
      MarksShown(m, p, env);
      DecodedIsTold(m.a, p, env);
    }
  }

  lemma MarksShown(m: Net, p: Packet, env: Env)
    requires SafeNet(m) && AccEcn.Marked(m) && p in m.b.out && p.cep < m.a.lastCep + 8
    requires Arrival(m.a, p, env).ep.snd.una > m.a.ep.snd.una
    ensures SenderOk(m.a) && EcnEnabled(m.a.ep) && m.a.lastCep <= p.cep
    ensures Arrival(m.a, p, env).lastCep == p.cep && Arrival(m.a, p, env).decoded - m.a.decoded == p.cep - m.a.lastCep
  {
    hide Pair, SenderOk, OnSegment, Feedback, Acks, Outgoing, Link;
    PairParts(m.a, m.b);
    CountParts(m.a, m.b);
    ShownMarks(m.a, m.b, p, env);
  }

  lemma ShownMarks(x: Side, y: Side, p: Packet, env: Env)
    requires Acks(x.ep.snd.una, x.lastCep, y) && p in y.out && p.cep < x.lastCep + 8 && EcnEnabled(x.ep)
    requires x.ep.snd.aceSeen == (ACE_INIT + x.lastCep) % 8 && Arrival(x, p, env).ep.snd.una > x.ep.snd.una
    ensures x.lastCep <= p.cep && Arrival(x, p, env).lastCep == p.cep
    ensures Arrival(x, p, env).decoded - x.decoded == p.cep - x.lastCep
  {
    hide OnSegment;
    SegmentAce(x.ep, p.g, env);
    AckMoves(x.ep.snd.una, x.lastCep, y, p);
    hide Acks;
    FewMarks(p.cep, x.lastCep);
  }

  lemma FewMarks(cep: nat, last: nat)
    requires last <= cep < last + 8
    ensures ((ACE_INIT + cep) % 8 - (ACE_INIT + last) % 8) % 8 == cep - last
  {
    var q := (ACE_INIT + cep) / 8 - (ACE_INIT + last) / 8;
    assert (ACE_INIT + cep) % 8 - (ACE_INIT + last) % 8 == cep - last - 8 * q;
    WholeTurns(cep - last, q);
  }

  // ── the round trip ──────────────────────────────────────────────────────────────────────────

  lemma AckCcSamples(e: Endpoint, g: Segment, env: Env, n: nat)
    ensures AckCc(e, g, env, n).srtt
            == (if env.srtt.Some? && !e.cc.law.Reno? then OnRtt(e.cc, env.srtt.value).srtt else e.cc.srtt)
  {
    hide CcAck, OnEcn, RecoveryReached, InRecovery, OnRtt;
    var inRecovery := e.cfg.sack && InRecovery(e.snd.board);
    var marked := MinN(((g.ace - e.snd.aceSeen) % 8) * e.cfg.mss, n);
    var c1 := if inRecovery then e.cc else CcAck(e.cc, n);
    SamplesIgnoreAcks(e.cc, n, marked);
    var c2 := if EcnEnabled(e) && !inRecovery then OnEcn(c1, n, marked) else c1;
    SamplesIgnoreAcks(c1, n, marked);
    var c3 := if e.cfg.sack && RecoveryReached(e.snd.board, g.ack) then CcAck(c2, 0) else c2;
    SamplesIgnoreAcks(c2, 0, 0);
    if env.srtt.Some? { SampleIs(e.cc, c3, env.srtt.value); }
  }

  lemma SampleIs(c: Cc, d: Cc, s: nat)
    requires d.srtt == c.srtt && d.law == c.law
    ensures OnRtt(d, s).srtt == OnRtt(c, s).srtt && (c.law.Reno? ==> OnRtt(d, s).srtt == c.srtt)
  {}

  lemma SamplesIgnoreAcks(c: Cc, n: nat, marked: nat)
    ensures CcAck(c, n).srtt == c.srtt && OnEcn(c, n, marked).srtt == c.srtt
    ensures CcAck(c, n).law == c.law && OnEcn(c, n, marked).law == c.law
  {
    hide Drain, IncreaseOf, CutWindow;
  }

  lemma DetectSamples(e: Endpoint, g: Segment, dup: bool, env: Env)
    ensures DetectLoss(e, g, dup, env).cc.srtt == e.cc.srtt
  {
    LossKeepsSample(e.cc, dup, Inflight(e.snd));
    hide CountDup, EnterRecovery, Update, IsLost, InRecovery, BeginRecovery, Inflight;
    if e.cfg.sack {
      assert DetectLoss(e, g, dup, env) == DetectSack(e, g, dup, env);
    } else {
      assert DetectLoss(e, g, dup, env) == DetectPlain(e, dup, env);
    }
  }

  lemma LossKeepsSample(c: Cc, dup: bool, flight: nat)
    ensures CountDup(c, dup, flight).0.srtt == c.srtt
    ensures EnterRecovery(CountDup(c, dup, flight).0, flight).srtt == c.srtt
  {
    hide LossTarget;
  }

  /** An ACK of new data hands a controller that listens the smoothed round trip, if there is one, in and out
      of recovery; no other segment does. */
  lemma SegmentTellsRoundTrip(e: Endpoint, g: Segment, env: Env)
    requires Consistent(e) && (e.cc.law.Prague? || (e.cc.law.Synth? && env.srtt != Some(0)))
    ensures var f := OnSegment(e, g, env);
            f.cc.srtt == if f.snd.una > e.snd.una && env.srtt.Some? then env.srtt.value else e.cc.srtt
  {
    hide Process, ProcessAck, DetectLoss, AckCc, Consistent;
    if !g.rst && !e.state.TimeWait? && !g.syn && Acceptable(e.rcv, g) && g.hasAck {
      assert OnSegment(e, g, env) == Process(e, g, env);
      AckMovesUna(e, g, env);
      Discipline.TailKeepsRecovery(e, g, env);
      var (e1, ok) := ProcessAck(e, g, env);
      FlowAnswer(e, g, env);
      DetectSamples(e1, g, IsDupAck(e, g), env);
      if g.ack <= e.snd.nxt {
        AckCcIs(e, g, env);
        AckCcSamples(e, g, env, MinN(if g.ack >= e.snd.una then g.ack - e.snd.una else 0, |e.snd.tx|));
      } else {
        NotOkCc(e, g, env);
      }
    }
  }
}
