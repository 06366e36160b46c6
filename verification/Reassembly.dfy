/** Out-of-order reassembly over stream positions: the run list of tcp-core/src/reasm.rs as a
    partial map from positions to bytes, first writer wins. `ByteAt` is that map. */
module Reassembly {
  import opened Options
  import opened Runs

  type byte = x: int | 0 <= x < 256

  /** Contiguous bytes from `start` on; the highest stamp marks the run touched last. */
  datatype Chunk = Chunk(start: int, data: seq<byte>, stamp: nat)

  datatype Reasm = Reasm(chunks: seq<Chunk>, stamp: nat)

  const EMPTY := Reasm([], 0)
  const MAX_SACK_BLOCKS: nat := 4

  function End(c: Chunk): int { c.start + |c.data| }

  function Spans(chunks: seq<Chunk>): (runs: seq<Run>)
    ensures |runs| == |chunks|
  {
    if chunks == [] then [] else [Run(chunks[0].start, End(chunks[0]))] + Spans(chunks[1..])
  }

  /** The byte buffered at position `x`, if any. */
  function ByteAt(chunks: seq<Chunk>, x: int): Option<byte> {
    if chunks == [] then None
    else if chunks[0].start <= x < End(chunks[0]) then Some(chunks[0].data[x - chunks[0].start])
    else ByteAt(chunks[1..], x)
  }

  /** Runs are non-empty, sorted, disjoint and non-adjacent. */
  predicate Sorted(chunks: seq<Chunk>) { WellFormed(Spans(chunks)) }

  function Buffered(chunks: seq<Chunk>): nat {
    if chunks == [] then 0 else |chunks[0].data| + Buffered(chunks[1..])
  }

  // ── insertion ───────────────────────────────────────────────────────────────────────────────

  predicate Meets(c: Chunk, lo: int, hi: int) { c.start <= hi && lo <= End(c) }

  /** New bytes at `lo` laid down first, then an overlapping or adjacent run on top of them. */
  function Overlay(lo: int, bytes: seq<byte>, c: Chunk): (merged: seq<byte>)
    requires Meets(c, lo, lo + |bytes|)
    ensures |merged| == Larger(lo + |bytes|, End(c)) - Smaller(lo, c.start)
  {
    (if lo < c.start then bytes[..c.start - lo] else []) + c.data +
    (if lo + |bytes| > End(c) then bytes[End(c) - lo..] else [])
  }

  function InsertChunk(chunks: seq<Chunk>, lo: int, bytes: seq<byte>, stamp: nat): seq<Chunk> {
    if chunks == [] then [Chunk(lo, bytes, stamp)]
    else if End(chunks[0]) < lo then [chunks[0]] + InsertChunk(chunks[1..], lo, bytes, stamp)
    else if lo + |bytes| < chunks[0].start then [Chunk(lo, bytes, stamp)] + chunks
    else InsertChunk(chunks[1..], Smaller(lo, chunks[0].start), Overlay(lo, bytes, chunks[0]), stamp)
  }

  /** Buffer `payload` at `seg`, clipped to `[rcvNxt, edge)`. */
  function Insert(r: Reasm, rcvNxt: int, edge: int, seg: int, payload: seq<byte>): Reasm {
    var lo, hi := Larger(seg, rcvNxt), Smaller(seg + |payload|, edge);
    if lo >= hi then r
    else Reasm(InsertChunk(r.chunks, lo, payload[lo - seg..hi - seg], r.stamp + 1), r.stamp + 1)
  }

  /** Drop what `rcvNxt` has overtaken; clip a straddling first run. */
  function DiscardBelow(chunks: seq<Chunk>, rcvNxt: int): seq<Chunk> {
    if chunks == [] then []
    else if End(chunks[0]) <= rcvNxt then DiscardBelow(chunks[1..], rcvNxt)
    else if chunks[0].start < rcvNxt then
      [chunks[0].(start := rcvNxt, data := chunks[0].data[rcvNxt - chunks[0].start..])] + chunks[1..]
    else chunks
  }

  /** The bytes of the first run if it begins exactly at `rcvNxt`, and what is left. */
  function Pop(chunks: seq<Chunk>, rcvNxt: int): (seq<byte>, seq<Chunk>) {
    if chunks != [] && chunks[0].start == rcvNxt then (chunks[0].data, chunks[1..]) else ([], chunks)
  }

  // ── the report ──────────────────────────────────────────────────────────────────────────────

  /** Index of the run with the highest stamp, the first of them on a tie. */
  function Newest(chunks: seq<Chunk>): (n: nat)
    requires chunks != []
    ensures n < |chunks|
  {
    if |chunks| == 1 then 0
    else
      var m := 1 + Newest(chunks[1..]);
      if chunks[m].stamp > chunks[0].stamp then m else 0
  }

  /** The runs as SACK blocks, most recently touched first, at most `n` of them. */
  function Report(chunks: seq<Chunk>, n: nat): (blocks: seq<Run>)
    decreases n
    ensures |blocks| == if |chunks| < n then |chunks| else n
  {
    if n == 0 || chunks == [] then []
    else
      var m := Newest(chunks);
      [Run(chunks[m].start, End(chunks[m]))] + Report(chunks[..m] + chunks[m + 1..], n - 1)
  }

  // ── lemmas ──────────────────────────────────────────────────────────────────────────────────

  lemma {:induction false} SpansCover(chunks: seq<Chunk>, x: int)
    ensures ByteAt(chunks, x).Some? <==> Covered(Spans(chunks), x)
  {
    if chunks != [] { SpansCover(chunks[1..], x); }
  }

  lemma {:induction false} SpansByIndex(chunks: seq<Chunk>, i: nat)
    requires i < |chunks|
    ensures Spans(chunks)[i] == Run(chunks[i].start, End(chunks[i]))
    ensures Spans(chunks[i..]) == Spans(chunks)[i..]
  {
    if i > 0 {
      SpansByIndex(chunks[1..], i - 1);
      assert chunks[1..][i - 1..] == chunks[i..];
    }
  }

  lemma {:induction false} SpansConcat(a: seq<Chunk>, b: seq<Chunk>)
    ensures Spans(a + b) == Spans(a) + Spans(b)
    ensures forall x :: ByteAt(a + b, x) == if ByteAt(a, x).Some? then ByteAt(a, x) else ByteAt(b, x)
    ensures Buffered(a + b) == Buffered(a) + Buffered(b)
  {
    if a == [] {
      assert a + b == b;
    } else {
      assert (a + b)[1..] == a[1..] + b;
      SpansConcat(a[1..], b);
    }
  }

  /** The total is the number of positions that hold a byte. */
  lemma {:induction false} BufferedCountsDomain(chunks: seq<Chunk>, lo: int, hi: int)
    requires Sorted(chunks) && Within(Spans(chunks), lo, hi)
    ensures Buffered(chunks) == CountCovered(Spans(chunks), lo, hi)
  {
    if chunks == [] {
      EmptyCounts(lo, hi);
    } else {
      CountFirst(Spans(chunks), lo, hi);
      BufferedCountsDomain(chunks[1..], lo, hi);
    }
  }

  lemma {:induction false} BufferedFits(chunks: seq<Chunk>, lo: int, hi: int)
    requires Sorted(chunks) && Within(Spans(chunks), lo, hi) && lo <= hi
    ensures Buffered(chunks) <= hi - lo
    ensures chunks != [] ==> Buffered(chunks) <= hi - chunks[0].start
  {
    if chunks != [] {
      if |chunks| > 1 { assert Spans(chunks)[1] == Spans(chunks[1..])[0]; }
      BufferedFits(chunks[1..], lo, hi);
    }
  }

  lemma OverlayBytes(lo: int, bytes: seq<byte>, c: Chunk, x: int)
    requires Meets(c, lo, lo + |bytes|)
    ensures var l := Smaller(lo, c.start); var m := Overlay(lo, bytes, c);
            l <= x < l + |m| ==>
              m[x - l] == if c.start <= x < End(c) then c.data[x - c.start] else bytes[x - lo]
    ensures var l := Smaller(lo, c.start); var m := Overlay(lo, bytes, c);
            (l <= x < l + |m|) <==> (c.start <= x < End(c) || lo <= x < lo + |bytes|)
  {}

  lemma {:induction false} InsertChunkSpans(chunks: seq<Chunk>, lo: int, bytes: seq<byte>, stamp: nat)
    requires Sorted(chunks) && bytes != []
    ensures Spans(InsertChunk(chunks, lo, bytes, stamp)) == Runs.Insert(Spans(chunks), lo, lo + |bytes|)
    ensures Sorted(InsertChunk(chunks, lo, bytes, stamp))
  {
    hide WellFormed, Spans, Overlay;
    InsertExact(Spans(chunks), lo, lo + |bytes|);
    SpansCons(Chunk(lo, bytes, stamp), chunks);
    if chunks == [] {
      assert [Chunk(lo, bytes, stamp)] + chunks == [Chunk(lo, bytes, stamp)];
    } else {
      SortedTail(chunks);
      SpansCons(chunks[0], chunks[1..]);
      assert [chunks[0]] + chunks[1..] == chunks;
      if End(chunks[0]) < lo {
        InsertChunkSpans(chunks[1..], lo, bytes, stamp);
        SpansCons(chunks[0], InsertChunk(chunks[1..], lo, bytes, stamp));
      } else if lo + |bytes| >= chunks[0].start {
        InsertChunkSpans(chunks[1..], Smaller(lo, chunks[0].start), Overlay(lo, bytes, chunks[0]), stamp);
      }
    }
  }

  lemma SpansCons(c: Chunk, rest: seq<Chunk>)
    ensures Spans([c] + rest) == [Run(c.start, End(c))] + Spans(rest) && Spans([]) == []
  {
    assert ([c] + rest)[1..] == rest;
  }

  lemma SortedTail(chunks: seq<Chunk>)
    requires Sorted(chunks) && chunks != []
    ensures Sorted(chunks[1..])
  {}

  /** Insertion lays the new bytes under the old ones. */
  lemma {:induction false} InsertChunkBytes(chunks: seq<Chunk>, lo: int, bytes: seq<byte>, stamp: nat, x: int)
    requires Sorted(chunks) && bytes != []
    ensures ByteAt(InsertChunk(chunks, lo, bytes, stamp), x)
         == if ByteAt(chunks, x).Some? then ByteAt(chunks, x)
            else if lo <= x < lo + |bytes| then Some(bytes[x - lo]) else None
  {
    hide Sorted, Overlay;
    if chunks != [] {
      SortedTail(chunks);
      RestIsAbove(chunks, x);
      if End(chunks[0]) < lo {
        InsertChunkBytes(chunks[1..], lo, bytes, stamp, x);
        assert InsertChunk(chunks, lo, bytes, stamp)[1..] == InsertChunk(chunks[1..], lo, bytes, stamp);
      } else if lo + |bytes| < chunks[0].start {
        assert InsertChunk(chunks, lo, bytes, stamp)[1..] == chunks;
      } else {
        InsertChunkBytes(chunks[1..], Smaller(lo, chunks[0].start), Overlay(lo, bytes, chunks[0]), stamp, x);
        OverlayBytes(lo, bytes, chunks[0], x);
      }
    }
  }

  lemma RestIsAbove(chunks: seq<Chunk>, x: int)
    requires Sorted(chunks) && chunks != []
    ensures ByteAt(chunks[1..], x).Some? ==> x > End(chunks[0]) > chunks[0].start
  {
    SpansCover(chunks[1..], x);
    TailAbove(Spans(chunks), x);
    hide ByteAt;
  }

  /** Reassembly refines a partial map: after `Insert` the map is the clipped new bytes overridden
      by the old ones, with nothing else added. */
  lemma InsertRefinesMap(r: Reasm, rcvNxt: int, edge: int, seg: int, payload: seq<byte>, lo: int, hi: int)
    requires Sorted(r.chunks) && Within(Spans(r.chunks), lo, hi) && lo <= Larger(seg, rcvNxt) && edge <= hi
    ensures var r' := Insert(r, rcvNxt, edge, seg, payload);
            && Sorted(r'.chunks) && Within(Spans(r'.chunks), lo, hi)
            && forall x :: ByteAt(r'.chunks, x)
                        == if ByteAt(r.chunks, x).Some? then ByteAt(r.chunks, x)
                           else if Larger(seg, rcvNxt) <= x < Smaller(seg + |payload|, edge) then Some(payload[x - seg])
                           else None
  {
    var l, h := Larger(seg, rcvNxt), Smaller(seg + |payload|, edge);
    if l < h {
      var bytes := payload[l - seg..h - seg];
      InsertChunkSpans(r.chunks, l, bytes, r.stamp + 1);
      InsertExact(Spans(r.chunks), l, h);
      assert Within(Runs.Insert(Spans(r.chunks), l, h), lo, hi);
      hide InsertChunk, WellFormed, Within, ByteAt, Spans;
      forall x
        ensures ByteAt(Insert(r, rcvNxt, edge, seg, payload).chunks, x)
             == if ByteAt(r.chunks, x).Some? then ByteAt(r.chunks, x)
                else if l <= x < h then Some(payload[x - seg]) else None
      {
        InsertChunkBytes(r.chunks, l, bytes, r.stamp + 1, x);
      }
    }
  }

  /** `DiscardBelow` restricts the map to positions from `rcvNxt` on. */
  lemma {:induction false} DiscardRestrictsMap(chunks: seq<Chunk>, rcvNxt: int)
    requires Sorted(chunks)
    ensures Sorted(DiscardBelow(chunks, rcvNxt))
    ensures forall x :: ByteAt(DiscardBelow(chunks, rcvNxt), x) == if x >= rcvNxt then ByteAt(chunks, x) else None
    ensures forall lo, hi :: Within(Spans(chunks), lo, hi) && rcvNxt <= hi ==>
              Within(Spans(DiscardBelow(chunks, rcvNxt)), rcvNxt, hi)
    ensures forall i :: 0 <= i < |DiscardBelow(chunks, rcvNxt)| ==>
              exists j :: 0 <= j < |chunks| && DiscardBelow(chunks, rcvNxt)[i].stamp == chunks[j].stamp
  {
    if chunks != [] {
      var rest := chunks[1..];
      forall x ensures ByteAt(rest, x).Some? ==> x > End(chunks[0]) {
        SpansCover(rest, x);
        TailAbove(Spans(chunks), x);
      }
      if |chunks| > 1 { assert Spans(chunks)[1] == Spans(rest)[0]; }
      if End(chunks[0]) <= rcvNxt {
        DiscardRestrictsMap(rest, rcvNxt);
        forall i | 0 <= i < |DiscardBelow(rest, rcvNxt)|
          ensures exists j :: 0 <= j < |chunks| && DiscardBelow(rest, rcvNxt)[i].stamp == chunks[j].stamp
        {
          var j :| 0 <= j < |rest| && DiscardBelow(rest, rcvNxt)[i].stamp == rest[j].stamp;
          assert rest[j] == chunks[j + 1];
        }
      } else {
        var d := DiscardBelow(chunks, rcvNxt);
        assert d[1..] == rest;
        forall i | 0 <= i < |d| ensures exists j :: 0 <= j < |chunks| && d[i].stamp == chunks[j].stamp {
          assert d[i].stamp == chunks[i].stamp;
        }
        forall lo, hi | Within(Spans(chunks), lo, hi) ensures Within(Spans(d), rcvNxt, hi) {
          StartsAbove(rest, lo, hi, rcvNxt);
        }
      }
    }
  }

  lemma {:induction false} StartsAbove(chunks: seq<Chunk>, lo: int, hi: int, x: int)
    requires Sorted(chunks) && Within(Spans(chunks), lo, hi)
    requires chunks != [] ==> chunks[0].start >= x
    ensures Within(Spans(chunks), x, hi)
  {
    if |chunks| > 1 {
      assert Spans(chunks)[1] == Spans(chunks[1..])[0];
      StartsAbove(chunks[1..], lo, hi, x);
    }
  }

  /** `Pop` takes off exactly the run at `rcvNxt`. */
  lemma PopRestrictsMap(chunks: seq<Chunk>, rcvNxt: int)
    requires Sorted(chunks)
    ensures var (data, rest) := Pop(chunks, rcvNxt);
            && Sorted(rest)
            && (forall k :: 0 <= k < |data| ==> ByteAt(chunks, rcvNxt + k) == Some(data[k]))
            && (forall x :: ByteAt(rest, x) == if rcvNxt <= x < rcvNxt + |data| then None else ByteAt(chunks, x))
            && (data == [] && chunks != [] ==> chunks[0].start != rcvNxt)
            && (data != [] && rest != [] ==> rest[0].start > rcvNxt + |data|)
  {
    if chunks != [] {
      if |chunks| > 1 { assert Spans(chunks)[1] == Spans(chunks[1..])[0]; }
      forall x ensures ByteAt(chunks[1..], x).Some? ==> x > End(chunks[0]) {
        SpansCover(chunks[1..], x);
        TailAbove(Spans(chunks), x);
      }
    }
  }

  // ── the report: every run once, newest first ────────────────────────────────────────────────

  /** Every stamp in use is at most the counter. */
  predicate Stamped(r: Reasm) { forall i :: 0 <= i < |r.chunks| ==> r.chunks[i].stamp <= r.stamp }

  lemma {:induction false} NewestIsMax(chunks: seq<Chunk>)
    requires chunks != []
    ensures forall i :: 0 <= i < |chunks| ==> chunks[i].stamp <= chunks[Newest(chunks)].stamp
    ensures forall i :: 0 <= i < Newest(chunks) ==> chunks[i].stamp < chunks[Newest(chunks)].stamp
  {
    if |chunks| > 1 {
      NewestIsMax(chunks[1..]);
      forall i | 0 <= i < |chunks| ensures chunks[i].stamp <= chunks[Newest(chunks)].stamp {
        if i > 0 { assert chunks[i] == chunks[1..][i - 1]; }
      }
      forall i | 0 <= i < Newest(chunks) ensures chunks[i].stamp < chunks[Newest(chunks)].stamp {
        if i > 0 { assert chunks[i] == chunks[1..][i - 1]; }
      }
    }
  }

  ghost predicate IsRunOf(chunks: seq<Chunk>, block: Run) {
    exists j :: 0 <= j < |chunks| && block.l == chunks[j].start && block.r == End(chunks[j])
  }

  /** Every reported block is a buffered run, so every octet of it is held. */
  lemma {:induction false} ReportIsHeld(chunks: seq<Chunk>, n: nat, i: nat)
    requires i < |Report(chunks, n)|
    ensures IsRunOf(chunks, Report(chunks, n)[i])
    decreases n
  {
    var m := Newest(chunks);
    var rest := chunks[..m] + chunks[m + 1..];
    if i > 0 {
      ReportIsHeld(rest, n - 1, i - 1);
      var block := Report(rest, n - 1)[i - 1];
      assert block == Report(chunks, n)[i];
      var j :| 0 <= j < |rest| && block.l == rest[j].start && block.r == End(rest[j]);
      assert rest[j] == chunks[if j < m then j else j + 1];
    }
  }

  /** The run an insertion produced carries the new stamp and no other run does. */
  lemma {:induction false} InsertStamps(chunks: seq<Chunk>, lo: int, bytes: seq<byte>, stamp: nat) returns (n: nat)
    requires Sorted(chunks) && bytes != []
    requires forall i :: 0 <= i < |chunks| ==> chunks[i].stamp < stamp
    ensures n < |InsertChunk(chunks, lo, bytes, stamp)|
    ensures var c := InsertChunk(chunks, lo, bytes, stamp)[n];
            c.stamp == stamp && c.start <= lo && lo + |bytes| <= End(c)
    ensures forall i :: 0 <= i < |InsertChunk(chunks, lo, bytes, stamp)| && i != n ==>
              InsertChunk(chunks, lo, bytes, stamp)[i].stamp < stamp
  {
    if chunks == [] {
      n := 0;
    } else if End(chunks[0]) < lo {
      var m := InsertStamps(chunks[1..], lo, bytes, stamp);
      n := m + 1;
      var ins := InsertChunk(chunks, lo, bytes, stamp);
      assert ins[1..] == InsertChunk(chunks[1..], lo, bytes, stamp);
      forall i | 0 <= i < |ins| && i != n ensures ins[i].stamp < stamp {
        if i > 0 { assert ins[i] == ins[1..][i - 1]; }
      }
    } else if lo + |bytes| < chunks[0].start {
      n := 0;
    } else {
      n := InsertStamps(chunks[1..], Smaller(lo, chunks[0].start), Overlay(lo, bytes, chunks[0]), stamp);
    }
  }

  /** Section 4 of RFC 2018: after an insertion that buffered anything, the first reported block
      contains the bytes just received. */
  lemma FirstBlockIsNewest(r: Reasm, rcvNxt: int, edge: int, seg: int, payload: seq<byte>, n: nat)
    requires Sorted(r.chunks) && Stamped(r) && n > 0
    requires Larger(seg, rcvNxt) < Smaller(seg + |payload|, edge)
    ensures var r' := Insert(r, rcvNxt, edge, seg, payload);
            && Stamped(r') && Report(r'.chunks, n) != []
            && Report(r'.chunks, n)[0].l <= Larger(seg, rcvNxt)
            && Smaller(seg + |payload|, edge) <= Report(r'.chunks, n)[0].r
  {
    var l, h := Larger(seg, rcvNxt), Smaller(seg + |payload|, edge);
    var m := InsertStamps(r.chunks, l, payload[l - seg..h - seg], r.stamp + 1);
    var r' := Insert(r, rcvNxt, edge, seg, payload);
    NewestIsMax(r'.chunks);
    assert Newest(r'.chunks) == m;
  }
}
