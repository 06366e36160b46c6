/** What the receive side keeps, whatever the peer sends: the shared pool bound, exact delivery of
    the peer's stream, and that nothing once held is let go. */
module ReceiveSide {
  import opened Options
  import opened Runs
  import opened Reassembly
  import opened Congestion
  import opened Endpoint

  /** The lowest position a buffered run may begin at: strictly above RCV.NXT until the FIN. */
  function Floor(r: Receiver): int { if r.peerFin then r.nxt else r.nxt + 1 }

  /** The end of the pool: RCV.NXT plus what the ring can still take. */
  function PoolEnd(r: Receiver): int { r.nxt + RX_BUFFER - |r.rx| }

  /** The ring and the buffered runs fit one pool, and the advertised edge promises no more. */
  ghost predicate PoolInv(r: Receiver, sack: bool) {
    && |r.rx| <= RX_BUFFER && |r.rx| + (r.adv - r.nxt) <= RX_BUFFER
    && Sorted(r.reasm.chunks) && Within(Spans(r.reasm.chunks), Floor(r), PoolEnd(r))
    && Stamped(r.reasm) && (!sack ==> r.reasm.chunks == [])
  }

  /** The octet at `x` is with the receiver: delivered, in the ring, or buffered out of order. */
  predicate Held(r: Receiver, x: int) { x < r.nxt || ByteAt(r.reasm.chunks, x).Some? }

  /** The first `n` octets of a stream, and those from `n` on. */
  function Upto(stream: seq<byte>, n: nat): seq<byte>
    requires n <= |stream|
  {
    if n == 0 then [] else stream[..n]
  }

  function From(stream: seq<byte>, n: nat): seq<byte>
    requires n <= |stream|
  {
    if n == 0 then stream else stream[n..]
  }

  /** Everything the receiver has is the stream that starts at `base`, and what it has in order,
      together with what was read before, is a prefix of it. */
  ghost predicate Follows(r: Receiver, read: seq<byte>, stream: seq<byte>, base: int) {
    var edge := if r.peerFin then r.nxt - 1 else r.nxt;
    && base <= edge <= base + |stream|
    && read + r.rx == Upto(stream, edge - base)
    && forall x :: ByteAt(r.reasm.chunks, x).Some? ==>
         base <= x < base + |stream| && ByteAt(r.reasm.chunks, x).value == stream[x - base]
  }

  /** The segment carries the stream's own bytes. */
  predicate Carries(g: Segment, stream: seq<byte>, base: int) {
    && base <= g.seqNo && g.seqNo + |g.payload| <= base + |stream|
    && g.payload == stream[g.seqNo - base..g.seqNo - base + |g.payload|]
  }

  // ── draining ────────────────────────────────────────────────────────────────────────────────

  /** While draining, runs begin at or above RCV.NXT and end inside the pool. */
  ghost predicate Draining(r: Receiver) {
    && |r.rx| <= RX_BUFFER && Sorted(r.reasm.chunks) && Within(Spans(r.reasm.chunks), r.nxt, PoolEnd(r))
  }

  /** A run that has become contiguous always fits the ring whole: the branch that puts a tail back
      is unreachable. */
  lemma RunFitsWhole(r: Receiver)
    requires Draining(r)
    ensures var (run, rest) := Pop(r.reasm.chunks, r.nxt);
            && Deliver(r.(reasm := r.reasm.(chunks := rest)), run).1 == |run|
            && (run != [] ==> Draining(Deliver(r.(reasm := r.reasm.(chunks := rest)), run).0))
            && (run == [] ==> Within(Spans(rest), r.nxt + 1, PoolEnd(r)))
  {
    PopRestrictsMap(r.reasm.chunks, r.nxt);
    var (run, rest) := Pop(r.reasm.chunks, r.nxt);
    if run != [] {
      StartsAbove(rest, r.nxt, PoolEnd(r), r.nxt + |run|);
    } else {
      ChunksNonEmpty(r.reasm.chunks);
      StartsAbove(rest, r.nxt, PoolEnd(r), r.nxt + 1);
    }
  }

  lemma ChunksNonEmpty(chunks: seq<Chunk>)
    requires Sorted(chunks)
    ensures chunks != [] ==> chunks[0].data != []
  {}

  lemma {:induction false} DrainKeeps(r: Receiver)
    requires Draining(r) && Stamped(r.reasm)
    ensures var d := DrainReasm(r);
            && Sorted(d.reasm.chunks) && Within(Spans(d.reasm.chunks), d.nxt + 1, PoolEnd(d))
            && |d.rx| <= RX_BUFFER && PoolEnd(d) == PoolEnd(r) && d.nxt >= r.nxt && Stamped(d.reasm)
            && d == r.(nxt := d.nxt, rx := d.rx, reasm := d.reasm)
    ensures r.reasm.chunks == [] ==> DrainReasm(r).reasm.chunks == []
    decreases |r.reasm.chunks|
  {
    RunFitsWhole(r);
    hide Within, Spans, WellFormed;
    var (run, rest) := Pop(r.reasm.chunks, r.nxt);
    if run != [] {
      var r1 := Deliver(r.(reasm := r.reasm.(chunks := rest)), run).0;
      DrainKeeps(r1);
    }
  }

  lemma {:induction false} DrainHolds(r: Receiver, x: int)
    requires Draining(r) && Held(r, x)
    ensures Held(DrainReasm(r), x)
    decreases |r.reasm.chunks|
  {
    RunFitsWhole(r);
    PopRestrictsMap(r.reasm.chunks, r.nxt);
    hide Within, Spans, WellFormed, ByteAt;
    var (run, rest) := Pop(r.reasm.chunks, r.nxt);
    if run != [] {
      DrainHolds(Deliver(r.(reasm := r.reasm.(chunks := rest)), run).0, x);
    }
  }

  /** Everything in the map is the stream's. */
  ghost predicate MapFollows(chunks: seq<Chunk>, stream: seq<byte>, base: int) {
    forall x :: ByteAt(chunks, x).Some? ==>
      base <= x < base + |stream| && ByteAt(chunks, x).value == stream[x - base]
  }

  lemma {:induction false} DrainFollows(r: Receiver, read: seq<byte>, stream: seq<byte>, base: int)
    requires Draining(r) && base <= r.nxt <= base + |stream|
    requires read + r.rx == stream[..r.nxt - base] && MapFollows(r.reasm.chunks, stream, base)
    ensures var d := DrainReasm(r);
            && base <= d.nxt <= base + |stream| && read + d.rx == stream[..d.nxt - base]
            && MapFollows(d.reasm.chunks, stream, base)
    decreases |r.reasm.chunks|
  {
    hide Draining, MapFollows, ByteAt, Pop, DrainReasm;
    RunFitsWhole(r);
    DrainUnfolds(r);
    PopFollows(r, stream, base);
    var (run, rest) := Pop(r.reasm.chunks, r.nxt);
    if run != [] {
      var r1 := Deliver(r.(reasm := r.reasm.(chunks := rest)), run).0;
      Extend(read, r.rx, run, stream, r.nxt - base);
      DrainFollows(r1, read, stream, base);
    }
  }

  lemma DrainUnfolds(r: Receiver)
    ensures var (run, rest) := Pop(r.reasm.chunks, r.nxt);
            var (r1, w) := Deliver(r.(reasm := r.reasm.(chunks := rest)), run);
            && (run == [] ==> DrainReasm(r) == r.(reasm := r.reasm.(chunks := rest)))
            && (run != [] && w == |run| ==> DrainReasm(r) == DrainReasm(r1) && r1.rx == r.rx + run
                                            && r1.nxt == r.nxt + |run| && r1.reasm.chunks == rest
                                            && |rest| < |r.reasm.chunks|)
  {}

  lemma PopFollows(r: Receiver, stream: seq<byte>, base: int)
    requires Draining(r) && MapFollows(r.reasm.chunks, stream, base) && base <= r.nxt <= base + |stream|
    ensures var (run, rest) := Pop(r.reasm.chunks, r.nxt);
            && MapFollows(rest, stream, base)
            && r.nxt + |run| <= base + |stream| && run == stream[r.nxt - base..r.nxt - base + |run|]
  {
    hide Sorted, Within, ByteAt, Pop, MapFollows;
    PopRestrictsMap(r.reasm.chunks, r.nxt);
    var (run, rest) := Pop(r.reasm.chunks, r.nxt);
    RunIsStream(r.reasm.chunks, run, r.nxt, stream, base);
    RestFollows(r.reasm.chunks, rest, r.nxt, r.nxt + |run|, stream, base);
  }

  lemma RestFollows(chunks: seq<Chunk>, rest: seq<Chunk>, lo: int, hi: int, stream: seq<byte>, base: int)
    requires MapFollows(chunks, stream, base)
    requires forall x :: ByteAt(rest, x) == if lo <= x < hi then None else ByteAt(chunks, x)
    ensures MapFollows(rest, stream, base)
  {
    hide ByteAt;
  }

  lemma RunIsStream(chunks: seq<Chunk>, run: seq<byte>, at: int, stream: seq<byte>, base: int)
    requires MapFollows(chunks, stream, base) && base <= at <= base + |stream|
    requires forall k :: 0 <= k < |run| ==> ByteAt(chunks, at + k) == Some(run[k])
    ensures at + |run| <= base + |stream| && run == stream[at - base..at - base + |run|]
  {
    if run != [] { assert ByteAt(chunks, at + (|run| - 1)) == Some(run[|run| - 1]); }
    forall k | 0 <= k < |run| ensures at - base + k < |stream| && run[k] == stream[at - base + k] {
      assert ByteAt(chunks, at + k) == Some(run[k]);
    }
  }

  lemma Extend(read: seq<byte>, rx: seq<byte>, more: seq<byte>, stream: seq<byte>, n: nat)
    requires n + |more| <= |stream| && read + rx == stream[..n] && more == stream[n..n + |more|]
    ensures read + (rx + more) == stream[..n + |more|]
  {
    assert read + (rx + more) == (read + rx) + more;
  }

  // ── one data segment ────────────────────────────────────────────────────────────────────────

  lemma InsertStampsStay(r: Reasm, nxt: int, edge: int, at: int, data: seq<byte>)
    requires Sorted(r.chunks) && Stamped(r)
    ensures Stamped(Reassembly.Insert(r, nxt, edge, at, data))
  {
    if Larger(at, nxt) < Smaller(at + |data|, edge) {
      FirstBlockIsNewest(r, nxt, edge, at, data, 1);
    }
  }

  lemma RightEdgeInPool(r: Receiver, sack: bool)
    requires PoolInv(r, sack)
    ensures RightEdge(r) <= PoolEnd(r) && RightEdge(r) <= r.adv
  {}

  /** In order: the ring takes what fits, overtaken runs go, contiguous runs follow. */
  lemma InOrderKeeps(r: Receiver, data: seq<byte>, sack: bool)
    requires PoolInv(r, sack)
    ensures var r1 := Deliver(r, data).0;
            var r2 := r1.(reasm := r1.reasm.(chunks := DiscardBelow(r1.reasm.chunks, r1.nxt)));
            && Draining(r2) && Stamped(r2.reasm) && r2.nxt >= r.nxt && PoolEnd(r2) == PoolEnd(r)
            && (!sack ==> r2.reasm.chunks == [])
  {
    var r1 := Deliver(r, data).0;
    DiscardRestrictsMap(r1.reasm.chunks, r1.nxt);
  }

  lemma TakeKeepsPool(r: Receiver, data: seq<byte>, sack: bool)
    requires PoolInv(r, sack)
    ensures var d := TakeInOrder(r, data, sack);
            PoolInv(d, sack) && d.nxt >= r.nxt && d == r.(nxt := d.nxt, rx := d.rx, reasm := d.reasm)
  {
    hide Within, Spans, WellFormed, DrainReasm, DiscardBelow;
    InOrderKeeps(r, data, sack);
    var r1 := Deliver(r, data).0;
    if sack {
      var r2 := r1.(reasm := r1.reasm.(chunks := DiscardBelow(r1.reasm.chunks, r1.nxt)));
      DrainKeeps(r2);
      var d := DrainReasm(r2);
      WithinWidens(Spans(d.reasm.chunks), d.nxt + 1, PoolEnd(d), Floor(d), PoolEnd(d));
    } else {
      EmptySpans(Floor(r1), PoolEnd(r1));
    }
  }

  lemma AbsorbKeepsPool(r: Receiver, g: Segment, sack: bool)
    requires PoolInv(r, sack)
    ensures PoolInv(Absorb(r, g, sack), sack) && Absorb(r, g, sack).nxt >= r.nxt
    ensures Absorb(r, g, sack)
         == r.(nxt := Absorb(r, g, sack).nxt, rx := Absorb(r, g, sack).rx, reasm := Absorb(r, g, sack).reasm)
  {
    hide Within, Spans, WellFormed, TakeInOrder, Reassembly.Insert, RightEdge, ByteAt;
    var (at, data) := TrimLeft(r, g);
    if data != [] {
      if at == r.nxt {
        TakeKeepsPool(r, data, sack);
      } else if sack {
        RightEdgeInPool(r, sack);
        InsertRefinesMap(r.reasm, r.nxt, RightEdge(r), at, data, Floor(r), PoolEnd(r));
        InsertStampsStay(r.reasm, r.nxt, RightEdge(r), at, data);
      }
    }
  }

  lemma EmptySpans(lo: int, hi: int)
    ensures Sorted([]) && Within(Spans([]), lo, hi)
  {}

  lemma TakeHolds(r: Receiver, data: seq<byte>, sack: bool, x: int)
    requires PoolInv(r, sack) && Held(r, x)
    ensures Held(TakeInOrder(r, data, sack), x)
  {
    hide Within, Spans, WellFormed, DrainReasm, ByteAt;
    InOrderKeeps(r, data, sack);
    if sack {
      var r1 := Deliver(r, data).0;
      DiscardRestrictsMap(r1.reasm.chunks, r1.nxt);
      DrainHolds(r1.(reasm := r1.reasm.(chunks := DiscardBelow(r1.reasm.chunks, r1.nxt))), x);
    }
  }

  lemma AbsorbHolds(r: Receiver, g: Segment, sack: bool, x: int)
    requires PoolInv(r, sack) && Held(r, x)
    ensures Held(Absorb(r, g, sack), x)
  {
    hide Within, Spans, WellFormed, TakeInOrder, ByteAt, Reassembly.Insert, RightEdge;
    var (at, data) := TrimLeft(r, g);
    if data != [] {
      if at == r.nxt {
        TakeHolds(r, data, sack, x);
      } else if sack {
        RightEdgeInPool(r, sack);
        InsertRefinesMap(r.reasm, r.nxt, RightEdge(r), at, data, Floor(r), PoolEnd(r));
      }
    }
  }

  lemma TrimmedIsStream(r: Receiver, g: Segment, stream: seq<byte>, base: int)
    requires Carries(g, stream, base) && TrimLeft(r, g).1 != []
    ensures var (at, data) := TrimLeft(r, g);
            at >= r.nxt && base <= at && at + |data| <= base + |stream| && data == stream[at - base..at - base + |data|]
  {}

  lemma TakeFollows(r: Receiver, data: seq<byte>, sack: bool, read: seq<byte>, stream: seq<byte>, base: int)
    requires PoolInv(r, sack) && Follows(r, read, stream, base) && !r.peerFin
    requires r.nxt + |data| <= base + |stream| && data == stream[r.nxt - base..r.nxt - base + |data|]
    ensures Follows(TakeInOrder(r, data, sack), read, stream, base)
  {
    hide Within, Spans, WellFormed, DrainReasm, ByteAt;
    InOrderKeeps(r, data, sack);
    var r1, n := Deliver(r, data).0, Deliver(r, data).1;
    assert data[..n] == stream[r.nxt - base..r.nxt - base + n];
    Extend(read, r.rx, data[..n], stream, r.nxt - base);
    if sack {
      var r2 := r1.(reasm := r1.reasm.(chunks := DiscardBelow(r1.reasm.chunks, r1.nxt)));
      DiscardRestrictsMap(r1.reasm.chunks, r1.nxt);
      DrainFollows(r2, read, stream, base);
      DrainFin(r2);
    }
  }

  /** Whatever slice of the stream arrives, what the receiver has stays a prefix of the stream with
      stream bytes buffered above it. */
  lemma AbsorbFollows(r: Receiver, g: Segment, sack: bool, read: seq<byte>, stream: seq<byte>, base: int)
    requires PoolInv(r, sack) && Follows(r, read, stream, base) && Carries(g, stream, base)
    requires r.peerFin ==> r.nxt - 1 == base + |stream|
    ensures Follows(Absorb(r, g, sack), read, stream, base)
  {
    hide PoolInv, TrimLeft, TakeInOrder, ByteAt, Reassembly.Insert, RightEdge, Follows, Carries;
    var (at, data) := TrimLeft(r, g);
    if data != [] {
      TrimmedIsStream(r, g, stream, base);
      if at == r.nxt {
        NotFinished(r, read, stream, base);
        TakeFollows(r, data, sack, read, stream, base);
      } else if sack {
        BufferedFollows(r, at, data, sack, read, stream, base);
      }
    }
  }

  lemma NotFinished(r: Receiver, read: seq<byte>, stream: seq<byte>, base: int)
    requires Follows(r, read, stream, base)
    ensures base <= r.nxt
  {}

  lemma BufferedFollows(r: Receiver, at: int, data: seq<byte>, sack: bool, read: seq<byte>, stream: seq<byte>,
                        base: int)
    requires PoolInv(r, sack) && Follows(r, read, stream, base) && sack && at > r.nxt
    requires base <= at && at + |data| <= base + |stream| && data == stream[at - base..at - base + |data|]
    ensures Follows(r.(reasm := Reassembly.Insert(r.reasm, r.nxt, RightEdge(r), at, data)), read, stream, base)
  {
    hide Within, Spans, WellFormed, ByteAt, Reassembly.Insert, RightEdge;
    RightEdgeInPool(r, sack);
    InsertRefinesMap(r.reasm, r.nxt, RightEdge(r), at, data, Floor(r), PoolEnd(r));
  }

  lemma {:induction false} DrainFin(r: Receiver)
    ensures DrainReasm(r).peerFin == r.peerFin
    decreases |r.reasm.chunks|
  {
    var (run, rest) := Pop(r.reasm.chunks, r.nxt);
    if run != [] && Deliver(r.(reasm := r.reasm.(chunks := rest)), run).1 == |run| {
      DrainFin(Deliver(r.(reasm := r.reasm.(chunks := rest)), run).0);
    }
  }

  // ── FIN, reading, advertising ───────────────────────────────────────────────────────────────

  lemma FinKeepsPool(r: Receiver, g: Segment, sack: bool)
    requires PoolInv(r, sack)
    ensures PoolInv(FinFromPending(FinArrives(r, g)), sack)
    ensures FinFromPending(FinArrives(r, g)).nxt >= r.nxt
    ensures FinFromPending(FinArrives(r, g)).reasm == r.reasm && FinFromPending(FinArrives(r, g)).rx == r.rx
  {
    WithinWidensUp(r);
  }

  lemma WithinWidensUp(r: Receiver)
    requires Within(Spans(r.reasm.chunks), Floor(r), PoolEnd(r))
    ensures Within(Spans(r.reasm.chunks), Floor(r), PoolEnd(r) + 1)
  {
    WithinWidens(Spans(r.reasm.chunks), Floor(r), PoolEnd(r), Floor(r), PoolEnd(r) + 1);
  }

  lemma ReadKeepsPool(r: Receiver, n: nat, sack: bool)
    requires PoolInv(r, sack) && n <= |r.rx|
    ensures PoolInv(r.(rx := r.rx[n..]), sack)
  {
    WithinWidens(Spans(r.reasm.chunks), Floor(r), PoolEnd(r), Floor(r), PoolEnd(r) + n);
  }

  /** The advertised edge only moves right and never promises more than the pool holds. */
  lemma AdvertiseKeepsPool(r: Receiver, cfg: Config)
    requires PoolInv(r, cfg.sack)
    ensures PoolInv(Advertise(r, cfg), cfg.sack) && Advertise(r, cfg).adv >= r.adv && Advertise(r, cfg).adv >= r.nxt
  {
    hide ShiftLeft;
  }

  /** In-order data inside the advertised edge is always accepted in full. */
  lemma InsideEdgeFits(r: Receiver, data: seq<byte>, sack: bool)
    requires PoolInv(r, sack) && r.nxt + |data| <= r.adv
    ensures Deliver(r, data).1 == |data|
  {}
}
