/** The reassembly buffer as tcp-core/src/reasm.rs keeps it: a vector of runs with 32-bit starts,
    edited in place and compared only by serial arithmetic, a running byte count and a stamp
    counter. Every method is proved to compute what Reassembly.dfy says over positions. */
module ReassemblyImpl {
  import opened Options
  import opened Serial
  import opened Runs
  import opened Reassembly
  import Sack

  datatype Segment = Segment(start: u32, data: seq<byte>, stamp: nat)

  function Sent(c: Chunk): Segment { Segment(Wire(c.start), c.data, c.stamp) }

  function OnWire(chunks: seq<Chunk>): (w: seq<Segment>)
    ensures |w| == |chunks|
    ensures forall i :: 0 <= i < |chunks| ==> w[i] == Sent(chunks[i])
  {
    seq(|chunks|, i requires 0 <= i < |chunks| => Sent(chunks[i]))
  }

  lemma ChunkAt(chunks: seq<Chunk>, i: int, lo: int, hi: int)
    requires Sorted(chunks) && Within(Spans(chunks), lo, hi)
    ensures 0 <= i < |chunks| ==> lo <= chunks[i].start < End(chunks[i]) <= hi
    ensures 0 <= i - 1 && i < |chunks| ==> End(chunks[i - 1]) < chunks[i].start
  {
    if 0 <= i < |chunks| {
      ByIndex(Spans(chunks), i, lo, hi);
      SpansByIndex(chunks, i);
      if i > 0 { SpansByIndex(chunks, i - 1); }
    }
  }

  lemma ChunksOrdered(chunks: seq<Chunk>, i: int, j: int)
    requires Sorted(chunks)
    ensures 0 <= i < j < |chunks| ==> chunks[i].start < End(chunks[i]) < chunks[j].start < End(chunks[j])
  {
    if 0 <= i < j < |chunks| {
      Ordered(Spans(chunks), i, j);
      SpansByIndex(chunks, i);
      SpansByIndex(chunks, j);
    }
  }

  // ── the scan for overlapping or adjacent runs ───────────────────────────────────────────────

  /** `i` runs in: `below` runs end before `[lo, hi)`, the next `count` meet it, the rest so far
      start after it; `merged` spans the block and `[lo, hi)`. */
  ghost predicate Scanned(chunks: seq<Chunk>, below: nat, count: nat, i: nat, lo: int, hi: int, merged: Run) {
    && below + count <= i <= |chunks|
    && (below > 0 ==> End(chunks[below - 1]) < lo)
    && (count > 0 ==> lo <= End(chunks[below]) && chunks[below + count - 1].start <= hi)
    && (below + count < i ==> hi < chunks[below + count].start)
    && merged == if count == 0 then Run(lo, hi)
                 else Run(Smaller(lo, chunks[below].start), Larger(hi, End(chunks[below + count - 1])))
  }

  lemma ScanStep(chunks: seq<Chunk>, below: nat, count: nat, i: nat, lo: int, hi: int, merged: Run)
    requires Sorted(chunks) && i < |chunks| && lo < hi && Scanned(chunks, below, count, i, lo, hi, merged)
    ensures Meets(chunks[i], lo, hi) ==>
              && i == below + count
              && Scanned(chunks, below, count + 1, i + 1, lo, hi,
                         Run(Smaller(merged.l, chunks[i].start), Larger(merged.r, End(chunks[i]))))
    ensures !Meets(chunks[i], lo, hi) && End(chunks[i]) < lo ==>
              i == below && count == 0 && Scanned(chunks, below + 1, count, i + 1, lo, hi, merged)
    ensures !Meets(chunks[i], lo, hi) && End(chunks[i]) >= lo ==>
              Scanned(chunks, below, count, i + 1, lo, hi, merged)
  {
    ChunksOrdered(chunks, below, i);
    ChunksOrdered(chunks, below + count - 1, i);
    ChunksOrdered(chunks, below + count, i);
    ChunkAtOwn(chunks, i);
  }

  lemma ChunkAtOwn(chunks: seq<Chunk>, i: nat)
    requires Sorted(chunks) && i < |chunks|
    ensures chunks[i].start < End(chunks[i])
  {
    ByIndex(Spans(chunks), i, 0, 0);
    SpansByIndex(chunks, i);
  }

  /** The result of an insertion: the runs below, the merged run, the runs above. */
  ghost predicate Shaped(out: seq<Chunk>, chunks: seq<Chunk>, below: nat, count: nat, stamp: nat, merged: Run)
    requires below + count <= |chunks|
  {
    && below < |out| && out == chunks[..below] + [out[below]] + chunks[below + count..]
    && out[below].start == merged.l && End(out[below]) == merged.r && out[below].stamp == stamp
  }

  lemma {:induction false} InsertShape(chunks: seq<Chunk>, below: nat, count: nat, lo: int, bytes: seq<byte>,
                                       stamp: nat, merged: Run)
    requires Sorted(chunks) && bytes != []
    requires Scanned(chunks, below, count, |chunks|, lo, lo + |bytes|, merged)
    ensures Shaped(InsertChunk(chunks, lo, bytes, stamp), chunks, below, count, stamp, merged)
  {
    if below > 0 {
      BelowOne(chunks, below, count, lo, bytes, stamp, merged);
      hide Spans, WellFormed, ByteAt, InsertChunk, Shaped, Scanned;
      InsertShape(chunks[1..], below - 1, count, lo, bytes, stamp, merged);
      ShapedCons(InsertChunk(chunks[1..], lo, bytes, stamp), chunks, below, count, stamp, merged);
    } else {
      InsertShapeMeeting(chunks, count, lo, bytes, stamp, merged);
    }
  }

  lemma {:induction false} BelowOne(chunks: seq<Chunk>, below: nat, count: nat, lo: int, bytes: seq<byte>,
                                    stamp: nat, merged: Run)
    requires Sorted(chunks) && below > 0
    requires Scanned(chunks, below, count, |chunks|, lo, lo + |bytes|, merged)
    ensures Sorted(chunks[1..]) && Scanned(chunks[1..], below - 1, count, |chunks| - 1, lo, lo + |bytes|, merged)
    ensures InsertChunk(chunks, lo, bytes, stamp) == [chunks[0]] + InsertChunk(chunks[1..], lo, bytes, stamp)
  {
    ChunksOrdered(chunks, 0, below - 1);
  }

  lemma ShapedCons(out: seq<Chunk>, chunks: seq<Chunk>, below: nat, count: nat, stamp: nat, merged: Run)
    requires 0 < below && below + count <= |chunks| && Shaped(out, chunks[1..], below - 1, count, stamp, merged)
    ensures Shaped([chunks[0]] + out, chunks, below, count, stamp, merged)
  {
    var rest := chunks[1..];
    assert rest[..below - 1] == chunks[1..below] && rest[below - 1 + count..] == chunks[below + count..];
    assert [chunks[0]] + chunks[1..below] == chunks[..below];
  }

  lemma {:induction false} InsertShapeMeeting(chunks: seq<Chunk>, count: nat, lo: int, bytes: seq<byte>, stamp: nat,
                                              merged: Run)
    requires Sorted(chunks) && bytes != []
    requires Scanned(chunks, 0, count, |chunks|, lo, lo + |bytes|, merged)
    ensures Shaped(InsertChunk(chunks, lo, bytes, stamp), chunks, 0, count, stamp, merged)
    decreases |chunks|
  {
    hide Spans, WellFormed, ByteAt, Overlay;
    if count > 0 {
      var rest := chunks[1..];
      ChunksOrdered(chunks, 0, count - 1);
      ChunksOrdered(chunks, 0, count);
      ChunksOrdered(chunks, 0, 1);
      SortedTail(chunks);
      InsertShapeMeeting(rest, count - 1, Smaller(lo, chunks[0].start), Overlay(lo, bytes, chunks[0]), stamp, merged);
      assert rest[count - 1..] == chunks[count..];
    } else if chunks != [] {
      assert chunks[0..] == chunks;
    }
  }

  lemma {:induction false} ByteAtIndex(chunks: seq<Chunk>, i: nat, x: int)
    requires Sorted(chunks) && i < |chunks| && chunks[i].start <= x < End(chunks[i])
    ensures ByteAt(chunks, x) == Some(chunks[i].data[x - chunks[i].start])
  {
    if i > 0 {
      ChunksOrdered(chunks, 0, i);
      ByteAtIndex(chunks[1..], i - 1, x);
    }
  }

  /** Inside the merged span only the block of runs that were met holds anything. */
  lemma ByteAtBlock(chunks: seq<Chunk>, below: nat, count: nat, lo: int, hi: int, merged: Run, x: int)
    requires Sorted(chunks) && lo < hi && Scanned(chunks, below, count, |chunks|, lo, hi, merged)
    requires merged.l <= x < merged.r
    ensures ByteAt(chunks, x) == ByteAt(chunks[below..below + count], x)
  {
    var b, t, a := chunks[..below], chunks[below..below + count], chunks[below + count..];
    assert chunks == b + (t + a);
    SpansConcat(b, t + a);
    SpansConcat(t, a);
    NothingBelow(chunks, below, count, lo, hi, merged, x);
    NothingAbove(chunks, below, count, lo, hi, merged, x);
  }

  lemma NothingBelow(chunks: seq<Chunk>, below: nat, count: nat, lo: int, hi: int, merged: Run, x: int)
    requires Sorted(chunks) && Scanned(chunks, below, count, |chunks|, lo, hi, merged) && merged.l <= x
    ensures ByteAt(chunks[..below], x).None?
  {
    hide Spans, WellFormed, ByteAt;
    if ByteAt(chunks[..below], x).Some? {
      var i := HeldIndex(chunks[..below], x);
      ChunksOrdered(chunks, i, below - 1);
      ChunksOrdered(chunks, i, below);
    }
  }

  lemma NothingAbove(chunks: seq<Chunk>, below: nat, count: nat, lo: int, hi: int, merged: Run, x: int)
    requires Sorted(chunks) && Scanned(chunks, below, count, |chunks|, lo, hi, merged) && x < merged.r
    ensures ByteAt(chunks[below + count..], x).None?
  {
    hide Spans, WellFormed, ByteAt;
    if ByteAt(chunks[below + count..], x).Some? {
      var i := HeldIndex(chunks[below + count..], x);
      ChunksOrdered(chunks, below + count, below + count + i);
      ChunksOrdered(chunks, below + count - 1, below + count + i);
    }
  }

  lemma {:induction false} HeldIndex(chunks: seq<Chunk>, x: int) returns (i: nat)
    requires ByteAt(chunks, x).Some?
    ensures i < |chunks| && chunks[i].start <= x < End(chunks[i])
  {
    if chunks[0].start <= x < End(chunks[0]) {
      i := 0;
    } else {
      i := HeldIndex(chunks[1..], x);
      i := i + 1;
    }
  }

  /** The bytes of the merged run, position by position. */
  ghost predicate MergedBytes(data: seq<byte>, block: seq<Chunk>, start: int, lo: int, bytes: seq<byte>) {
    forall k :: 0 <= k < |data| ==>
      data[k] == if ByteAt(block, start + k).Some? then ByteAt(block, start + k).value
                 else if lo <= start + k < lo + |bytes| then bytes[start + k - lo] else 0
  }

  lemma ScannedFits(chunks: seq<Chunk>, below: nat, count: nat, lo: int, hi: int, merged: Run)
    requires Scanned(chunks, below, count, |chunks|, lo, hi, merged)
    ensures below + count <= |chunks|
  {}

  lemma MergedIsInserted(chunks: seq<Chunk>, below: nat, count: nat, lo: int, bytes: seq<byte>, stamp: nat,
                         merged: Run, data: seq<byte>)
    requires Sorted(chunks) && bytes != []
    requires Scanned(chunks, below, count, |chunks|, lo, lo + |bytes|, merged)
    requires |data| == merged.r - merged.l && MergedBytes(data, chunks[below..below + count], merged.l, lo, bytes)
    ensures InsertChunk(chunks, lo, bytes, stamp)
         == chunks[..below] + [Chunk(merged.l, data, stamp)] + chunks[below + count..]
  {
    hide InsertChunk, ByteAt, Scanned, Sorted, Spans;
    InsertShape(chunks, below, count, lo, bytes, stamp, merged);
    InsertChunkSpans(chunks, lo, bytes, stamp);
    var out := InsertChunk(chunks, lo, bytes, stamp);
    var c := out[below];
    ScannedFits(chunks, below, count, lo, lo + |bytes|, merged);
    forall k | 0 <= k < |data| ensures c.data[k] == data[k] {
      var x := merged.l + k;
      ByteAtIndex(out, below, x);
      InsertChunkBytes(chunks, lo, bytes, stamp, x);
      ByteAtBlock(chunks, below, count, lo, lo + |bytes|, merged, x);
    }
    assert c.data == data;
  }

  lemma SerialMeet(c: Chunk, l: int, h: int, merged: Run, lo: int, hi: int)
    requires hi - lo < HALF && lo <= c.start < End(c) <= hi && lo <= merged.l <= l < h <= merged.r <= hi
    ensures Add(Wire(c.start), |c.data|) == Wire(End(c))
    ensures Meets(c, l, h) <==> Le(Wire(c.start), Wire(h)) && Le(Wire(l), Wire(End(c)))
    ensures Wire(Smaller(merged.l, c.start)) 
         == if Lt(Wire(c.start), Wire(merged.l)) then Wire(c.start) else Wire(merged.l)
    ensures Wire(Larger(merged.r, End(c))) == if Gt(Wire(End(c)), Wire(merged.r)) then Wire(End(c)) else Wire(merged.r)
  {
    AddIsWire(c.start, |c.data|);
    SerialInWindow(c.start, h, lo, hi);
    SerialInWindow(l, End(c), lo, hi);
    SerialInWindow(c.start, merged.l, lo, hi);
    SerialInWindow(End(c), merged.r, lo, hi);
  }

  lemma ScanBegins(chunks: seq<Chunk>, l: int, h: int)
    ensures Scanned(chunks, 0, 0, 0, l, h, Run(l, h))
  {}

  method ScanMeeting(runs: seq<Segment>, lo0: u32, newEnd: u32,
                     ghost chunks: seq<Chunk>, ghost l: int, ghost h: int, ghost lo: int, ghost hi: int)
    returns (mergedStart: u32, mergedEnd: u32, first: nat, count: nat, ghost below: nat, ghost merged: Run)
    requires hi - lo < HALF && Sorted(chunks) && Within(Spans(chunks), lo, hi) && runs == OnWire(chunks)
    requires lo <= l < h <= hi && lo0 == Wire(l) && newEnd == Wire(h)
    ensures below + count <= |runs| && first == (if count == 0 then |runs| else below)
    ensures mergedStart == Wire(merged.l) && mergedEnd == Wire(merged.r) && lo <= merged.l <= l < h <= merged.r <= hi
    ensures Scanned(chunks, below, count, |chunks|, l, h, merged)
  {
    hide Sorted, Within, Spans, OnWire, Wire, Add, Lt, Le, Gt, Ge, Scanned, Meets;
    mergedStart, mergedEnd, first, count, below := lo0, newEnd, |runs|, 0, 0;
    merged := Run(l, h);
    ScanBegins(chunks, l, h);
    for idx := 0 to |runs|
      invariant below + count <= idx
      invariant first == if count == 0 then |runs| else below
      invariant mergedStart == Wire(merged.l) && mergedEnd == Wire(merged.r)
      invariant lo <= merged.l <= l < h <= merged.r <= hi
      invariant Scanned(chunks, below, count, idx, l, h, merged)
    {
      ghost var c := chunks[idx];
      ScanStep(chunks, below, count, idx, l, h, merged);
      ChunkAt(chunks, idx, lo, hi);
      SerialMeet(c, l, h, merged, lo, hi);
      var runEnd := Add(runs[idx].start, |runs[idx].data|);
      if Le(runs[idx].start, newEnd) && Le(lo0, runEnd) {
        first := if count == 0 then idx else first;
        count := count + 1;
        mergedStart := if Lt(runs[idx].start, mergedStart) then runs[idx].start else mergedStart;
        mergedEnd := if Gt(runEnd, mergedEnd) then runEnd else mergedEnd;
        merged := Run(Smaller(merged.l, c.start), Larger(merged.r, End(c)));
      } else if End(c) < l {
        below := below + 1;
      }
    }
  }

  /** `copy_from_slice` into `buf[off..]`. */
  method CopyInto(buf: array<byte>, off: nat, src: seq<byte>)
    requires off + |src| <= buf.Length
    modifies buf
    ensures forall k :: 0 <= k < |src| ==> buf[..][off + k] == src[k]
    ensures forall k :: 0 <= k < buf.Length && !(off <= k < off + |src|) ==> buf[..][k] == old(buf[..])[k]
  {
    forall k | 0 <= k < |src| { buf[off + k] := src[k]; }
  }

  /** Lay down the new bytes, then every met run on top of them. */
  method BuildMerged(runs: seq<Segment>, first: nat, count: nat, mergedStart: u32, span: nat, lo0: u32,
                     bytes: seq<byte>, ghost chunks: seq<Chunk>, ghost merged: Run, ghost l: int, ghost lo: int,
                     ghost hi: int)
    returns (data: seq<byte>)
    requires hi - lo < HALF && Sorted(chunks) && runs == OnWire(chunks) && (count > 0 ==> first + count <= |runs|)
    requires lo <= merged.l <= l && l + |bytes| <= merged.r <= hi && mergedStart == Wire(merged.l) && lo0 == Wire(l)
    requires span == merged.r - merged.l
    requires forall i :: first <= i < first + count ==> merged.l <= chunks[i].start && End(chunks[i]) <= merged.r
    ensures |data| == span
    ensures MergedBytes(data, if count == 0 then [] else chunks[first..first + count], merged.l, l, bytes)
  {
    hide Wire, OffsetFrom, OnWire, Sorted, MergedBytes;
    var buf := new byte[span](_ => 0);
    OffsetAgrees(l, merged.l);
    CopyInto(buf, OffsetFrom(lo0, mergedStart), bytes);
    NewBytesOnly(buf[..], merged.l, l, bytes);
    ghost var done: seq<Chunk> := [];
    for i := first to first + count
      invariant done == if count == 0 then [] else chunks[first..i]
      invariant MergedBytes(buf[..], done, merged.l, l, bytes)
    {
      OffsetAgrees(chunks[i].start, merged.l);
      EarlierRunsDisjoint(chunks, first, i);
      LayRun(buf, OffsetFrom(runs[i].start, mergedStart), runs[i].data, done, chunks[i], merged.l, l, bytes);
      done := done + [chunks[i]];
    }
    data := buf[..];
  }

  /** One met run on top of what is there. */
  method LayRun(buf: array<byte>, off: nat, src: seq<byte>,
                ghost done: seq<Chunk>, ghost c: Chunk, ghost start: int, ghost l: int, ghost bytes: seq<byte>)
    requires MergedBytes(buf[..], done, start, l, bytes) && start <= c.start && End(c) <= start + buf.Length
    requires off == c.start - start && src == c.data
    requires forall x :: c.start <= x < End(c) ==> ByteAt(done, x).None?
    modifies buf
    ensures MergedBytes(buf[..], done + [c], start, l, bytes)
  {
    hide MergedBytes, ByteAt;
    ghost var was := buf[..];
    CopyInto(buf, off, src);
    LayOver(was, buf[..], done, c, start, l, bytes);
  }

  lemma NewBytesOnly(data: seq<byte>, start: int, lo: int, bytes: seq<byte>)
    requires start <= lo && lo + |bytes| <= start + |data|
    requires forall k :: 0 <= k < |bytes| ==> data[lo - start + k] == bytes[k]
    requires forall k :: 0 <= k < |data| && !(lo - start <= k < lo - start + |bytes|) ==> data[k] == 0
    ensures MergedBytes(data, [], start, lo, bytes)
  {
    forall k | 0 <= k < |data| && lo - start <= k < lo - start + |bytes| ensures data[k] == bytes[start + k - lo] {
      assert data[lo - start + (start + k - lo)] == bytes[start + k - lo];
    }
  }

  lemma EarlierRunsDisjoint(chunks: seq<Chunk>, first: nat, i: nat)
    requires Sorted(chunks) && first <= i < |chunks|
    ensures forall x :: chunks[i].start <= x < End(chunks[i]) ==> ByteAt(chunks[first..i], x).None?
  {
    forall x | chunks[i].start <= x < End(chunks[i]) ensures ByteAt(chunks[first..i], x).None? {
      if ByteAt(chunks[first..i], x).Some? {
        var j := HeldIndex(chunks[first..i], x);
        ChunksOrdered(chunks, first + j, i);
      }
    }
  }

  lemma One(c: Chunk, x: int)
    ensures ByteAt([c], x) == if c.start <= x < End(c) then Some(c.data[x - c.start]) else None
  {}

  /** Copying one more run over the merged bytes; runs do not overlap, so order is immaterial. */
  lemma LayOver(was: seq<byte>, now: seq<byte>, done: seq<Chunk>, c: Chunk, start: int, lo: int, bytes: seq<byte>)
    requires |was| == |now| && MergedBytes(was, done, start, lo, bytes)
    requires start <= c.start && End(c) <= start + |was|
    requires forall k :: 0 <= k < |c.data| ==> now[c.start - start + k] == c.data[k]
    requires forall k :: 0 <= k < |was| && !(c.start - start <= k < End(c) - start) ==> now[k] == was[k]
    requires forall x :: c.start <= x < End(c) ==> ByteAt(done, x).None?
    ensures MergedBytes(now, done + [c], start, lo, bytes)
  {
    SpansConcat(done, [c]);
    forall k | 0 <= k < |now|
      ensures now[k] == if ByteAt(done + [c], start + k).Some? then ByteAt(done + [c], start + k).value
                        else if lo <= start + k < lo + |bytes| then bytes[start + k - lo] else 0
    {
      One(c, start + k);
      if c.start <= start + k < End(c) {
        assert now[c.start - start + (start + k - c.start)] == c.data[start + k - c.start];
      }
    }
  }

  method RemoveBlock(runs: seq<Segment>, first: nat, count: nat, total: nat, ghost chunks: seq<Chunk>)
    returns (out: seq<Segment>, bytes: nat)
    requires runs == OnWire(chunks) && (count > 0 ==> first + count <= |runs|) && total == Buffered(chunks)
    ensures out == if count == 0 then runs else runs[..first] + runs[first + count..]
    ensures bytes == if count == 0 then total else Buffered(chunks[..first] + chunks[first + count..])
  {
    hide Buffered, OnWire;
    out, bytes := runs, total;
    if count > 0 { assert chunks[..first] + chunks[first..] == chunks; }
    for removed := 0 to count
      invariant out == if count == 0 then runs else runs[..first] + runs[first + removed..]
      invariant bytes == if count == 0 then total else Buffered(chunks[..first] + chunks[first + removed..])
    {
      ghost var b, a := chunks[..first], chunks[first + removed..];
      assert out[first] == runs[first + removed];
      assert a[1..] == chunks[first + removed + 1..];
      BufferedDrop(b, a);
      bytes := bytes - |out[first].data|;
      out := out[..first] + out[first + 1..];
    }
  }

  lemma BufferedDrop(b: seq<Chunk>, a: seq<Chunk>)
    requires a != []
    ensures Buffered(b + a) == |a[0].data| + Buffered(b + a[1..])
  {
    SpansConcat(b, a);
    SpansConcat(b, a[1..]);
  }

  method PutInOrder(runs: seq<Segment>, seg: Segment, ghost chunks: seq<Chunk>, ghost gap: nat, ghost c: Chunk,
                    ghost lo: int, ghost hi: int)
    returns (out: seq<Segment>)
    requires hi - lo < HALF && runs == OnWire(chunks) && gap <= |chunks| && seg == Sent(c) && lo <= c.start <= hi
    requires forall k :: 0 <= k < |chunks| ==>
               && lo <= chunks[k].start <= hi
               && (k < gap ==> chunks[k].start < c.start)
               && (gap <= k ==> c.start < chunks[k].start)
    ensures out == OnWire(chunks[..gap] + [c] + chunks[gap..])
  {
    var pos := 0;
    while pos < |runs| && !Lt(seg.start, runs[pos].start)
      invariant 0 <= pos <= gap
    {
      SerialInWindow(c.start, chunks[pos].start, lo, hi);
      pos := pos + 1;
    }
    if pos < |runs| { SerialInWindow(c.start, chunks[pos].start, lo, hi); }
    out := runs[..pos] + [seg] + runs[pos..];
    assert out == OnWire(chunks[..gap] + [c] + chunks[gap..]);
  }

  lemma GapOrder(chunks: seq<Chunk>, rest: seq<Chunk>, below: nat, count: nat, lo: int, hi: int, merged: Run,
                 wlo: int, whi: int)
    requires Sorted(chunks) && Within(Spans(chunks), wlo, whi) && lo < hi
    requires Scanned(chunks, below, count, |chunks|, lo, hi, merged)
    requires rest == chunks[..below] + chunks[below + count..]
    ensures forall k :: 0 <= k < |rest| ==>
              && wlo <= rest[k].start <= whi
              && (k < below ==> rest[k].start < merged.l)
              && (below <= k ==> merged.l < rest[k].start)
  {
    hide WellFormed, Within, Spans;
    forall k | 0 <= k < |rest|
      ensures wlo <= rest[k].start <= whi
      ensures k < below ==> rest[k].start < merged.l
      ensures below <= k ==> merged.l < rest[k].start
    {
      var j := if k < below then k else count + k;
      assert rest[k] == chunks[j];
      ChunkAt(chunks, j, wlo, whi);
      ChunksOrdered(chunks, j, below - 1);
      ChunksOrdered(chunks, j, below);
      ChunksOrdered(chunks, below + count, j);
    }
  }

  lemma BlockInside(chunks: seq<Chunk>, below: nat, count: nat, lo: int, hi: int, merged: Run)
    requires Sorted(chunks) && Scanned(chunks, below, count, |chunks|, lo, hi, merged)
    ensures below + count <= |chunks|
    ensures forall i :: below <= i < below + count ==> merged.l <= chunks[i].start && End(chunks[i]) <= merged.r
  {
    hide WellFormed, Spans;
    forall i | below <= i < below + count ensures merged.l <= chunks[i].start && End(chunks[i]) <= merged.r {
      ChunksOrdered(chunks, below, i);
      ChunksOrdered(chunks, i, below + count - 1);
    }
  }

  lemma BlockSlice(chunks: seq<Chunk>, below: nat, count: nat)
    requires below + count <= |chunks|
    ensures count == 0 ==> chunks[below..below + count] == [] && chunks[..below] + chunks[below + count..] == chunks
  {}

  lemma WireOf(runs: seq<Segment>, chunks: seq<Chunk>)
    requires |runs| == |chunks| && forall i :: 0 <= i < |runs| ==> runs[i] == Sent(chunks[i])
    ensures runs == OnWire(chunks)
  {}

  lemma BufferedInsert(rest: seq<Chunk>, gap: nat, c: Chunk)
    requires gap <= |rest|
    ensures Buffered(rest[..gap] + [c] + rest[gap..]) == Buffered(rest) + |c.data|
  {
    SpansConcat(rest[..gap], [c]);
    SpansConcat(rest[..gap] + [c], rest[gap..]);
    SpansConcat(rest[..gap], rest[gap..]);
    assert rest[..gap] + rest[gap..] == rest;
    assert Buffered([c]) == |c.data|;
  }

  lemma InsertKeeps(chunks: seq<Chunk>, l: int, bytes: seq<byte>, stamp: nat, lo: int, hi: int)
    requires Sorted(chunks) && Within(Spans(chunks), lo, hi) && bytes != [] && lo <= l && l + |bytes| <= hi
    ensures Sorted(InsertChunk(chunks, l, bytes, stamp)) && Within(Spans(InsertChunk(chunks, l, bytes, stamp)), lo, hi)
  {
    InsertChunkSpans(chunks, l, bytes, stamp);
    InsertExact(Spans(chunks), l, l + |bytes|);
  }

  lemma ReportStep(told: seq<Run>, left: seq<Chunk>, n: nat)
    requires left != [] && n > 0
    ensures var c := left[Newest(left)];
            var rest := left[..Newest(left)] + left[Newest(left) + 1..];
            told + Reassembly.Report(left, n) == told + [Run(c.start, End(c))] + Reassembly.Report(rest, n - 1)
  {}

  lemma ReportEnds(told: seq<Run>, left: seq<Chunk>, n: nat)
    ensures [] + Reassembly.Report(left, n) == Reassembly.Report(left, n)
    ensures n == 0 || left == [] ==> told + Reassembly.Report(left, n) == told
    ensures Sack.OnWire([]) == []
  {}

  lemma ReportWire(told: seq<Run>, run: Run)
    ensures Sack.OnWire(told + [run]) == Sack.OnWire(told) + [Sack.WireRun(Wire(run.l), Wire(run.r))]
  {}

  class ReasmBuffer {
    var runs: seq<Segment>
    var bytes: nat
    var nextStamp: nat
    ghost var at: Reasm

    /** The vector is the wire image of the position runs, all inside one window, and the running
        count is their total. */
    ghost predicate Valid(lo: int, hi: int)
      reads this
    {
      && 0 <= hi - lo < HALF && Sorted(at.chunks) && Within(Spans(at.chunks), lo, hi)
      && runs == OnWire(at.chunks) && bytes == Buffered(at.chunks) && nextStamp == at.stamp
    }

    constructor ()
      ensures at == Reassembly.EMPTY && forall lo, hi :: 0 <= hi - lo < HALF ==> Valid(lo, hi)
    {
      runs, bytes, nextStamp, at := [], 0, 0, Reassembly.EMPTY;
    }

    method Insert(rcv_nxt: u32, right_edge: u32, seg_seq: u32, payload: seq<byte>,
                  ghost nxt: int, ghost edge: int, ghost seg: int, ghost lo: int, ghost hi: int)
      requires Valid(lo, hi) && lo <= nxt <= hi && lo <= edge <= hi && lo <= seg && seg + |payload| <= hi
      requires rcv_nxt == Wire(nxt) && right_edge == Wire(edge) && seg_seq == Wire(seg)
      modifies this
      ensures Valid(lo, hi) && at == Reassembly.Insert(old(at), nxt, edge, seg, payload)
    {
      hide Wire, Ge, Add, OffsetFrom, Max, Min, Spans, Buffered, Distance;
      AddIsWire(seg, |payload|);
      var segEnd := Add(seg_seq, |payload|);
      MinMaxAgree(seg, nxt);
      MinMaxAgree(seg + |payload|, edge);
      var lo0 := Max(seg_seq, rcv_nxt);
      var hi0 := Min(segEnd, right_edge);
      ghost var l, h := Larger(seg, nxt), Smaller(seg + |payload|, edge);
      Agree(l, h);
      if Ge(lo0, hi0) { return; }
      OffsetAgrees(l, seg);
      OffsetAgrees(h, l);
      var off, len := OffsetFrom(lo0, seg_seq), OffsetFrom(hi0, lo0);
      InsertClipped(lo0, hi0, payload[off..off + len], l, h, lo, hi);
    }

    /** The merge of the clipped, non-empty bytes into the run vector. */
    method InsertClipped(lo0: u32, hi0: u32, newBytes: seq<byte>, ghost l: int, ghost h: int, ghost lo: int,
                         ghost hi: int)
      requires Valid(lo, hi) && lo <= l < h <= hi && lo0 == Wire(l) && hi0 == Wire(h) && |newBytes| == h - l
      modifies this
      ensures Valid(lo, hi)
      ensures at == Reasm(InsertChunk(old(at).chunks, l, newBytes, old(at).stamp + 1), old(at).stamp + 1)
    {
      ghost var chunks := at.chunks;
      hide Spans, WellFormed, Within, ByteAt, Buffered, InsertChunk, OnWire, Wire, OffsetFrom, Scanned, MergedBytes;
      var mergedStart, mergedEnd, first, count, below, merged := ScanMeeting(runs, lo0, hi0, chunks, l, h, lo, hi);
      OffsetAgrees(merged.r, merged.l);
      BlockInside(chunks, below, count, l, h, merged);
      var data := BuildMerged(runs, first, count, mergedStart, OffsetFrom(mergedEnd, mergedStart), lo0, newBytes,
                              chunks, merged, l, lo, hi);
      BlockSlice(chunks, below, count);
      MergedIsInserted(chunks, below, count, l, newBytes, at.stamp + 1, merged, data);
      ghost var rest := chunks[..below] + chunks[below + count..];
      GapOrder(chunks, rest, below, count, l, h, merged, lo, hi);
      runs, bytes := RemoveBlock(runs, first, count, bytes, chunks);
      assert rest[..below] == chunks[..below] && rest[below..] == chunks[below + count..];
      nextStamp := nextStamp + 1;
      ghost var c := Chunk(merged.l, data, nextStamp);
      WireOf(runs, rest);
      runs := PutInOrder(runs, Segment(mergedStart, data, nextStamp), rest, below, c, lo, hi);
      bytes := bytes + |data|;
      BufferedInsert(rest, below, c);
      at := Reasm(InsertChunk(chunks, l, newBytes, nextStamp), nextStamp);
      InsertKeeps(chunks, l, newBytes, nextStamp, lo, hi);
    }

    /** Remove and return the first run if it begins exactly at `rcv_nxt`. */
    method PopContiguous(rcv_nxt: u32, ghost nxt: int, ghost lo: int, ghost hi: int) returns (data: seq<byte>)
      requires Valid(lo, hi) && lo <= nxt <= hi && rcv_nxt == Wire(nxt)
      modifies this
      ensures Valid(lo, hi) && (data, at.chunks) == Pop(old(at).chunks, nxt) && at.stamp == old(at).stamp
    {
      data := [];
      if runs != [] {
        ChunkAt(at.chunks, 0, lo, hi);
        Agree(at.chunks[0].start, nxt);
        if runs[0].start == rcv_nxt {
          data := runs[0].data;
          runs, bytes := runs[1..], bytes - |data|;
          at := at.(chunks := at.chunks[1..]);
          WireOf(runs, at.chunks);
        }
      }
    }

    /** Purge the runs `rcv_nxt` has overtaken and clip a straddling first run. */
    method DiscardBelow(rcv_nxt: u32, ghost nxt: int, ghost lo: int, ghost hi: int)
      requires Valid(lo, hi) && lo <= nxt <= hi && rcv_nxt == Wire(nxt)
      modifies this
      ensures Valid(lo, hi) && at == old(at).(chunks := Reassembly.DiscardBelow(old(at).chunks, nxt))
    {
      hide Wire, Le, Lt, Add, OffsetFrom, ByteAt;
      while runs != []
        invariant Valid(lo, hi)
        invariant at.stamp == old(at).stamp
        invariant Reassembly.DiscardBelow(at.chunks, nxt) == Reassembly.DiscardBelow(old(at).chunks, nxt)
        decreases |runs|
      {
        ghost var c := at.chunks[0];
        ChunkAt(at.chunks, 0, lo, hi);
        AddIsWire(c.start, |c.data|);
        SerialInWindow(End(c), nxt, lo, hi);
        SerialInWindow(c.start, nxt, lo, hi);
        if Le(Add(runs[0].start, |runs[0].data|), rcv_nxt) {
          bytes, runs := bytes - |runs[0].data|, runs[1..];
          at := at.(chunks := at.chunks[1..]);
          WireOf(runs, at.chunks);
        } else if Lt(runs[0].start, rcv_nxt) {
          OffsetAgrees(nxt, c.start);
          var drop := OffsetFrom(rcv_nxt, runs[0].start);
          ghost var tail := at.chunks[1..];
          runs := [Segment(rcv_nxt, runs[0].data[drop..], runs[0].stamp)] + runs[1..];
          bytes := bytes - drop;
          at := at.(chunks := [c.(start := nxt, data := c.data[nxt - c.start..])] + tail);
          WireOf(runs, at.chunks);
          ClippedStays(at.chunks, tail, c, nxt, lo, hi);
          return;
        } else {
          return;
        }
      }
    }

    /** The runs as `(left, right)` edges, most recently touched first, at most `room` of them. */
    method Report(room: nat, ghost lo: int, ghost hi: int) returns (out: seq<Sack.WireRun>)
      requires Valid(lo, hi)
      ensures out == Sack.OnWire(Reassembly.Report(at.chunks, room))
    {
      hide Reassembly.Report, OnWire, Sack.OnWire, Newest, Wire, Add, Sorted, Within;
      out := [];
      var rest := runs;
      ghost var left := at.chunks;
      ghost var told: seq<Run> := [];
      ReportEnds(told, left, room);
      while |out| < room && rest != []
        invariant |out| <= room && rest == OnWire(left) && out == Sack.OnWire(told)
        invariant Reassembly.Report(at.chunks, room) == told + Reassembly.Report(left, room - |out|)
        decreases room - |out|
      {
        var m := NewestRun(rest, left);
        ghost var c := left[m];
        AddIsWire(c.start, |c.data|);
        ReportStep(told, left, room - |out|);
        ghost var was := told;
        told := told + [Run(c.start, End(c))];
        ReportWire(was, Run(c.start, End(c)));
        WireOf(rest[..m] + rest[m + 1..], left[..m] + left[m + 1..]);
        out := out + [Sack.WireRun(rest[m].start, Add(rest[m].start, |rest[m].data|))];
        left := left[..m] + left[m + 1..];
        rest := rest[..m] + rest[m + 1..];
      }
      ReportEnds(told, left, room - |out|);
    }

    method NewestRun(rest: seq<Segment>, ghost left: seq<Chunk>) returns (m: nat)
      requires rest == OnWire(left) && rest != []
      ensures m == Newest(left)
    {
      hide OnWire, Newest;
      m := |rest| - 1;
      var i := |rest| - 1;
      NewestLast(left);
      while i > 0
        invariant 0 <= i <= m < |rest| && m - i == Newest(left[i..])
      {
        i := i - 1;
        NewestStep(left, i);
        if !(rest[m].stamp > rest[i].stamp) { m := i; }
      }
      assert left[0..] == left;
    }
  }

  lemma NewestLast(left: seq<Chunk>)
    requires left != []
    ensures Newest(left[|left| - 1..]) == 0
  {}

  /** One more run in front: the newest so far stays, or the new one takes over on a tie. */
  lemma NewestStep(left: seq<Chunk>, i: nat)
    requires i + 1 < |left|
    ensures var n := Newest(left[i + 1..]);
            Newest(left[i..]) == if left[i + 1 + n].stamp > left[i].stamp then n + 1 else 0
  {
    assert left[i..][1..] == left[i + 1..];
  }

  lemma ClippedStays(chunks: seq<Chunk>, tail: seq<Chunk>, c: Chunk, nxt: int, lo: int, hi: int)
    requires c.start < nxt < End(c) && lo <= nxt
    requires Sorted([c] + tail) && Within(Spans([c] + tail), lo, hi)
    requires chunks == [c.(start := nxt, data := c.data[nxt - c.start..])] + tail
    ensures Sorted(chunks) && Within(Spans(chunks), lo, hi)
    ensures Buffered(chunks) == Buffered([c] + tail) - (nxt - c.start)
    ensures Reassembly.DiscardBelow([c] + tail, nxt) == chunks
  {
    assert ([c] + tail)[1..] == tail;
    assert chunks[1..] == tail;
  }
}
