/** The scoreboard as tcp-core/src/sack.rs keeps it: two vectors of 32-bit run edges, edited in
    place, compared only by serial arithmetic. Every method is proved to compute what Rfc6675.dfy
    says over positions; the ghost `at` holds those positions. */
module Sack {
  import opened Options
  import opened Serial
  import opened Runs
  import opened Rfc6675

  datatype WireRun = WireRun(l: u32, r: u32)

  function OnWire(runs: seq<Run>): (w: seq<WireRun>)
    ensures |w| == |runs|
    ensures forall i :: 0 <= i < |runs| ==> w[i] == WireRun(Wire(runs[i].l), Wire(runs[i].r))
  {
    seq(|runs|, i requires 0 <= i < |runs| => WireRun(Wire(runs[i].l), Wire(runs[i].r)))
  }

  /** Wire blocks read as the positions nearest to `center`. */
  function Positions(center: int, blocks: seq<WireRun>): (p: seq<Run>)
    ensures |p| == |blocks|
    ensures forall i :: 0 <= i < |blocks| ==> p[i] == Run(Unwrap(center, blocks[i].l), Unwrap(center, blocks[i].r))
  {
    seq(|blocks|, i requires 0 <= i < |blocks| => Run(Unwrap(center, blocks[i].l), Unwrap(center, blocks[i].r)))
  }

  /** What `Insert` will have produced, seen from step `i` of the scan: the runs below, then either
      the rest still to be merged or, once past the touching block, the merged run and the rest. */
  ghost function Pending(at: seq<Run>, below: nat, count: nat, i: nat, merged: Run): seq<Run>
    requires below + count <= i <= |at|
  {
    at[..below] + if below + count == i then Insert(at[i..], merged.l, merged.r)
                  else [merged] + at[below + count..]
  }

  lemma PendingStep(at: seq<Run>, below: nat, count: nat, i: nat, merged: Run)
    requires below + count <= i < |at|
    requires below + count < i ==> merged.r < at[i].l
    ensures at[i].r < merged.l && i == below ==>
              Pending(at, below, count, i, merged) == Pending(at, below + 1, count, i + 1, merged)
    ensures merged.r < at[i].l && merged.l <= at[i].r ==>
              Pending(at, below, count, i, merged) == Pending(at, below, count, i + 1, merged)
    ensures merged.l <= at[i].r && at[i].l <= merged.r && i == below + count ==>
              Pending(at, below, count, i, merged) ==
              Pending(at, below, count + 1, i + 1, Run(Smaller(merged.l, at[i].l), Larger(merged.r, at[i].r)))
  {
    assert at[i..][1..] == at[i + 1..];
    if at[i].r < merged.l && i == below {
      var rest := Insert(at[i + 1..], merged.l, merged.r);
      assert at[..i] + ([at[i]] + rest) == at[..i + 1] + rest;
    }
  }

  lemma PendingEnds(at: seq<Run>, below: nat, count: nat, merged: Run)
    requires below + count <= |at|
    ensures Pending(at, 0, 0, 0, merged) == Insert(at, merged.l, merged.r)
    ensures Pending(at, below, count, |at|, merged) == at[..below] + [merged] + at[below + count..]
  {
    assert at[0..] == at && at[..0] == [];
    assert at[..below] + ([merged] + at[below + count..]) == at[..below] + [merged] + at[below + count..];
  }

  /** The scan, `i` runs in: `below` runs lie below the merged span, the next `count` were merged
      into it, the rest so far lie above it. */
  ghost predicate Scanned(at: seq<Run>, below: nat, count: nat, i: nat, merged: Run, l: int, r: int, lo: int, hi: int) {
    && below + count <= i <= |at| && lo <= merged.l < merged.r <= hi
    && (count > 0 ==> merged.l <= at[below].l)
    && (below > 0 ==> at[below - 1].r < merged.l)
    && (below + count < i ==> merged.r < at[below + count].l)
    && Insert(at, l, r) == Pending(at, below, count, i, merged)
  }

  predicate Touches(run: Run, merged: Run) { run.l <= merged.r && merged.l <= run.r }

  function Merge(run: Run, merged: Run): Run { Run(Smaller(merged.l, run.l), Larger(merged.r, run.r)) }

  lemma ScanOrder(at: seq<Run>, below: nat, count: nat, i: nat, merged: Run)
    requires WellFormed(at) && below + count <= i < |at|
    requires count > 0 ==> merged.l <= at[below].l
    requires below + count < i ==> merged.r < at[below + count].l
    ensures at[i].l < at[i].r
    ensures count > 0 ==> merged.l <= at[i].l
    ensures below > 0 ==> at[below - 1].r < at[i].l
    ensures below + count < i ==> merged.r < at[i].l
  {
    Ordered(at, below, i);
    Ordered(at, below - 1, i);
    Ordered(at, below + count, i);
    ByIndex(at, i, 0, 0);
  }

  lemma ScanStep(at: seq<Run>, below: nat, count: nat, i: nat, merged: Run, l: int, r: int, lo: int, hi: int)
    requires WellFormed(at) && i < |at| && lo <= at[i].l && at[i].r <= hi
    requires Scanned(at, below, count, i, merged, l, r, lo, hi)
    ensures Touches(at[i], merged) ==>
              i == below + count && Scanned(at, below, count + 1, i + 1, Merge(at[i], merged), l, r, lo, hi)
    ensures !Touches(at[i], merged) && at[i].r < merged.l ==>
              i == below && count == 0 && Scanned(at, below + 1, count, i + 1, merged, l, r, lo, hi)
    ensures !Touches(at[i], merged) && at[i].r >= merged.l ==>
              Scanned(at, below, count, i + 1, merged, l, r, lo, hi)
  {
    hide Pending, Insert, WellFormed;
    ScanOrder(at, below, count, i, merged);
    PendingStep(at, below, count, i, merged);
  }

  lemma SerialScan(run: Run, merged: Run, lo: int, hi: int)
    requires lo <= run.l < run.r <= hi && lo <= merged.l < merged.r <= hi && hi - lo < HALF
    ensures Touches(run, merged) <==> Le(Wire(run.l), Wire(merged.r)) && Le(Wire(merged.l), Wire(run.r))
    ensures Wire(Merge(run, merged).l) == if Lt(Wire(run.l), Wire(merged.l)) then Wire(run.l) else Wire(merged.l)
    ensures Wire(Merge(run, merged).r) == if Gt(Wire(run.r), Wire(merged.r)) then Wire(run.r) else Wire(merged.r)
  {
    SerialInWindow(run.l, merged.r, lo, hi);
    SerialInWindow(merged.l, run.r, lo, hi);
    SerialInWindow(run.l, merged.l, lo, hi);
    SerialInWindow(run.r, merged.r, lo, hi);
  }

  lemma ScanBegins(at: seq<Run>, merged: Run, lo: int, hi: int)
    requires WellFormed(at) && Within(at, lo, hi) && lo <= merged.l < merged.r <= hi
    ensures Scanned(at, 0, 0, 0, merged, merged.l, merged.r, lo, hi)
  {
    PendingEnds(at, 0, 0, merged);
  }

  /** The scan of the insertion: the block of runs that overlap or touch, and the merged edges. */
  method ScanTouching(runs: seq<WireRun>, l0: u32, r0: u32,
                      ghost at: seq<Run>, ghost pl: int, ghost pr: int, ghost lo: int, ghost hi: int)
    returns (l: u32, r: u32, first: nat, count: nat, ghost below: nat, ghost merged: Run)
    requires hi - lo < HALF && WellFormed(at) && Within(at, lo, hi) && runs == OnWire(at)
    requires lo <= pl < pr <= hi && l0 == Wire(pl) && r0 == Wire(pr)
    ensures below + count <= |runs| && first == (if count == 0 then |runs| else below)
    ensures l == Wire(merged.l) && r == Wire(merged.r)
    ensures Scanned(at, below, count, |at|, merged, pl, pr, lo, hi)
  {
    hide WellFormed, Within, Insert, OnWire, Wire, Lt, Le, Gt, Ge, Pending, Scanned, Merge, Touches;
    l, r, first, count, below := l0, r0, |runs|, 0, 0;
    merged := Run(pl, pr);
    ScanBegins(at, merged, lo, hi);
    for i := 0 to |runs|
      invariant below + count <= i
      invariant first == if count == 0 then |runs| else below
      invariant l == Wire(merged.l) && r == Wire(merged.r) && lo <= merged.l < merged.r <= hi
      invariant Scanned(at, below, count, i, merged, pl, pr, lo, hi)
    {
      ByIndex(at, i, lo, hi);
      ScanStep(at, below, count, i, merged, pl, pr, lo, hi);
      SerialScan(at[i], merged, lo, hi);
      if Le(runs[i].l, r) && Le(l, runs[i].r) {
        first := if count == 0 then i else first;
        count := count + 1;
        l := if Lt(runs[i].l, l) then runs[i].l else l;
        r := if Gt(runs[i].r, r) then runs[i].r else r;
        merged := Merge(at[i], merged);
        MergedBounds(at, below, count, i + 1, merged, pl, pr, lo, hi);
      } else if at[i].r < merged.l {
        below := below + 1;
      }
    }
  }

  lemma MergedBounds(at: seq<Run>, below: nat, count: nat, i: nat, merged: Run, l: int, r: int, lo: int, hi: int)
    requires Scanned(at, below, count, i, merged, l, r, lo, hi)
    ensures lo <= merged.l < merged.r <= hi
  {}

  /** At the end of the scan the merged run sits in the gap left by the block. */
  lemma ScanResult(at: seq<Run>, below: nat, count: nat, merged: Run, l: int, r: int, lo: int, hi: int)
    requires WellFormed(at) && Within(at, lo, hi) && Scanned(at, below, count, |at|, merged, l, r, lo, hi)
    ensures lo <= merged.l < merged.r <= hi && below + count <= |at|
    ensures var rest := at[..below] + at[below + count..];
            && Insert(at, l, r) == rest[..below] + [merged] + rest[below..]
            && (forall k :: 0 <= k < |rest| ==> lo <= rest[k].l <= hi)
            && (forall k :: 0 <= k < below ==> rest[k].l < merged.l)
            && (forall k :: below <= k < |rest| ==> merged.l < rest[k].l)
  {
    PendingEnds(at, below, count, merged);
    var b: seq<Run>, a: seq<Run> := at[..below], at[below + count..];
    assert (b + a)[..below] == b && (b + a)[below..] == a;
    GapOrder(at, b, a, below, count, merged, lo, hi);
  }

  lemma GapOrder(at: seq<Run>, b: seq<Run>, a: seq<Run>, below: nat, count: nat, merged: Run, lo: int, hi: int)
    requires WellFormed(at) && Within(at, lo, hi) && below + count <= |at| && merged.l < merged.r
    requires b == at[..below] && a == at[below + count..]
    requires below > 0 ==> at[below - 1].r < merged.l
    requires below + count < |at| ==> merged.r < at[below + count].l
    ensures forall k :: 0 <= k < |b + a| ==>
              && lo <= (b + a)[k].l <= hi
              && (k < below ==> (b + a)[k].l < merged.l)
              && (below <= k ==> merged.l < (b + a)[k].l)
  {
    hide WellFormed, Within;
    forall k | 0 <= k < |b + a|
      ensures lo <= (b + a)[k].l <= hi
      ensures k < below ==> (b + a)[k].l < merged.l
      ensures below <= k ==> merged.l < (b + a)[k].l
    {
      var j := if k < below then k else count + k;
      assert (b + a)[k] == at[j];
      ByIndex(at, j, lo, hi);
      Ordered(at, j, below - 1);
      Ordered(at, below + count, j);
    }
  }

  method RemoveBlock(runs: seq<WireRun>, first: nat, count: nat) returns (out: seq<WireRun>)
    requires count > 0 ==> first + count <= |runs|
    ensures out == if count == 0 then runs else runs[..first] + runs[first + count..]
  {
    out := runs;
    var removed := 0;
    while removed < count
      invariant 0 <= removed <= count
      invariant out == if count == 0 then runs else runs[..first] + runs[first + removed..]
    {
      out := out[..first] + out[first + 1..];
      removed := removed + 1;
    }
  }

  method InsertInOrder(runs: seq<WireRun>, run: WireRun,
                       ghost at: seq<Run>, ghost gap: nat, ghost merged: Run, ghost lo: int, ghost hi: int)
    returns (out: seq<WireRun>)
    requires hi - lo < HALF && runs == OnWire(at) && gap <= |at|
    requires run == WireRun(Wire(merged.l), Wire(merged.r))
    requires lo <= merged.l <= hi && forall k :: 0 <= k < |at| ==> lo <= at[k].l <= hi
    requires forall k :: 0 <= k < gap ==> at[k].l < merged.l
    requires forall k :: gap <= k < |at| ==> merged.l < at[k].l
    ensures out == OnWire(at[..gap] + [merged] + at[gap..])
  {
    var pos := 0;
    while pos < |runs| && !Lt(run.l, runs[pos].l)
      invariant 0 <= pos <= gap
    {
      SerialInWindow(merged.l, at[pos].l, lo, hi);
      pos := pos + 1;
    }
    if pos < |runs| { SerialInWindow(merged.l, at[pos].l, lo, hi); }
    out := runs[..pos] + [run] + runs[pos..];
    assert out == OnWire(at[..gap] + [merged] + at[gap..]);
  }

  /** Insert `[l, r)` into a run vector: remove the block of runs it overlaps or touches, then put
      the merged run back in order. */
  method InsertRun(runs: seq<WireRun>, l0: u32, r0: u32,
                   ghost at: seq<Run>, ghost pl: int, ghost pr: int, ghost lo: int, ghost hi: int)
    returns (out: seq<WireRun>)
    requires hi - lo < HALF && WellFormed(at) && Within(at, lo, hi) && runs == OnWire(at)
    requires lo <= pl < pr <= hi && l0 == Wire(pl) && r0 == Wire(pr)
    ensures out == OnWire(Insert(at, pl, pr))
  {
    hide WellFormed, Within, Insert, OnWire, Wire, Scanned;
    var l, r, first, count, below, merged := ScanTouching(runs, l0, r0, at, pl, pr, lo, hi);
    out := RemoveBlock(runs, first, count);
    ScanResult(at, below, count, merged, pl, pr, lo, hi);
    ghost var rest := at[..below] + at[below + count..];
    assert out == OnWire(rest);
    out := InsertInOrder(out, WireRun(l, r), rest, below, merged, lo, hi);
  }

  function Clip(run: Run, una: int): Run { Run(Larger(run.l, una), run.r) }

  /** Trimming drops a prefix and clips the rest. */
  lemma {:induction false} TrimDropsPrefix(at: seq<Run>, d: nat, una: int)
    requires d <= |at|
    requires forall k :: 0 <= k < d ==> at[k].r <= una
    requires forall k :: d <= k < |at| ==> at[k].r > una
    ensures |Trim(at, una)| == |at| - d
    ensures forall k :: 0 <= k < |at| - d ==> Trim(at, una)[k] == Clip(at[d + k], una)
  {
    if at != [] {
      TrimDropsPrefix(at[1..], if d > 0 then d - 1 else 0, una);
    }
  }

  /** Drop runs at or below `una`, then clip the left edges that stick out below it. */
  method TrimRuns(runs: seq<WireRun>, una0: u32, ghost at: seq<Run>, ghost una: int, ghost lo: int, ghost hi: int)
    returns (out: seq<WireRun>)
    requires hi - lo < HALF && WellFormed(at) && Within(at, lo, hi) && runs == OnWire(at)
    requires lo <= una <= hi && una0 == Wire(una)
    ensures out == OnWire(Trim(at, una))
  {
    hide WellFormed, Within, Insert, Trim, OnWire, Wire, Lt, Le, Gt, Ge;
    Bounds(at, lo, hi);
    out := [];
    ghost var d := 0;
    for i := 0 to |runs|
      invariant 0 <= d <= i
      invariant forall k :: 0 <= k < d ==> at[k].r <= una
      invariant forall k :: d <= k < i ==> at[k].r > una
      invariant out == runs[d..i]
    {
      Ordered(at, d, i);
      SerialInWindow(at[i].r, una, lo, hi);
      if Gt(runs[i].r, una0) {
        out := out + [runs[i]];
      } else {
        d := d + 1;
      }
    }
    TrimDropsPrefix(at, d, una);
    for i := 0 to |out|
      invariant |out| == |runs| - d
      invariant forall k :: 0 <= k < i ==> out[k] == OnWire(Trim(at, una))[k]
      invariant forall k :: i <= k < |out| ==> out[k] == runs[d + k]
    {
      SerialInWindow(at[d + i].l, una, lo, hi);
      if Lt(out[i].l, una0) {
        out := out[i := WireRun(una0, out[i].r)];
      }
    }
  }

  // ── queries over one run vector ─────────────────────────────────────────────────────────────

  /** One unfolding, at index `i`, of every recursive query. */
  lemma SuffixStep(at: seq<Run>, i: nat, x: int, b: int)
    requires i < |at|
    ensures Covered(at[i..], x) <==> at[i].l <= x < at[i].r || Covered(at[i + 1..], x)
    ensures BytesAbove(at[i..], x) == (if at[i].l > x then at[i].r - at[i].l else 0) + BytesAbove(at[i + 1..], x)
    ensures BlocksAbove(at[i..], x) == (if at[i].l > x then 1 else 0) + BlocksAbove(at[i + 1..], x)
    ensures NextLeft(at[i..], x, b) == NextLeft(at[i + 1..], x, LeftEdge(at[i], x, b))
    ensures NextEdge(at[i..], x, b) == NextEdge(at[i + 1..], x, RightEdge(at[i], x, LeftEdge(at[i], x, b)))
  {
    assert at[i..][1..] == at[i + 1..];
  }

  function LeftEdge(run: Run, x: int, b: int): int { if run.l > x && run.l < b then run.l else b }

  function RightEdge(run: Run, x: int, b: int): int { if run.r > x && run.r < b then run.r else b }

  lemma SuffixEnds(at: seq<Run>, x: int, b: int)
    ensures at[0..] == at && at[|at|..] == []
    ensures !Covered([], x) && BytesAbove([], x) == 0 && BlocksAbove([], x) == 0
    ensures NextLeft([], x, b) == b && NextEdge([], x, b) == b
  {}

  method AnyHolds(runs: seq<WireRun>, s: u32, ghost at: seq<Run>, ghost x: int, ghost lo: int, ghost hi: int)
    returns (any: bool)
    requires hi - lo < HALF && WellFormed(at) && Within(at, lo, hi) && runs == OnWire(at)
    requires lo <= x <= hi && s == Wire(x)
    ensures any == Covered(at, x)
  {
    hide WellFormed, Within, OnWire, Wire, Lt, Ge, Covered;
    Bounds(at, lo, hi);
    SuffixEnds(at, x, 0);
    any := false;
    for i := 0 to |runs|
      invariant Covered(at, x) <==> any || Covered(at[i..], x)
    {
      SuffixStep(at, i, x, 0);
      SerialInWindow(x, at[i].l, lo, hi);
      SerialInWindow(x, at[i].r, lo, hi);
      if Ge(s, runs[i].l) && Lt(s, runs[i].r) { any := true; }
    }
  }

  method ScanEdges(runs: seq<WireRun>, s: u32, limit: u32,
                   ghost at: seq<Run>, ghost x: int, ghost b: int, ghost lo: int, ghost hi: int)
    returns (edge: u32)
    requires hi - lo < HALF && WellFormed(at) && Within(at, lo, hi) && runs == OnWire(at)
    requires lo <= x <= hi && lo <= b <= hi && s == Wire(x) && limit == Wire(b)
    ensures edge == Wire(NextEdge(at, x, b))
  {
    hide WellFormed, Within, OnWire, Wire, Lt, Gt, NextEdge;
    Bounds(at, lo, hi);
    edge := limit;
    ghost var e := b;
    SuffixEnds(at, x, b);
    for i := 0 to |runs|
      invariant lo <= e <= hi && edge == Wire(e)
      invariant NextEdge(at[i..], x, e) == NextEdge(at, x, b)
    {
      SuffixStep(at, i, x, e);
      SerialInWindow(at[i].l, x, lo, hi);
      SerialInWindow(at[i].l, e, lo, hi);
      if Gt(runs[i].l, s) && Lt(runs[i].l, edge) { edge := runs[i].l; }
      e := LeftEdge(at[i], x, e);
      SerialInWindow(at[i].r, x, lo, hi);
      SerialInWindow(at[i].r, e, lo, hi);
      if Gt(runs[i].r, s) && Lt(runs[i].r, edge) { edge := runs[i].r; }
      e := RightEdge(at[i], x, e);
    }
    SuffixEnds(at, x, e);
  }

  lemma {:induction false} BytesAboveFit(at: seq<Run>, x: int, lo: int, hi: int)
    requires WellFormed(at) && Within(at, lo, hi) && lo <= hi
    ensures 0 <= BytesAbove(at, x) <= hi - lo
    ensures at != [] ==> BytesAbove(at, x) <= hi - at[0].l
    ensures BlocksAbove(at, x) <= |at|
  {
    if at != [] { BytesAboveFit(at[1..], x, lo, hi); }
  }

  lemma {:induction false} SuffixFits(at: seq<Run>, i: nat, x: int, lo: int, hi: int)
    requires WellFormed(at) && Within(at, lo, hi) && lo <= hi && i <= |at|
    ensures 0 <= BytesAbove(at[i..], x)
  {
    if i == 0 {
      assert at[0..] == at;
      BytesAboveFit(at, x, lo, hi);
    } else {
      SuffixFits(at[1..], i - 1, x, lo, hi);
      assert at[1..][i - 1..] == at[i..];
    }
  }

  class Scoreboard {
    var sacked: seq<WireRun>
    var rexmit: seq<WireRun>
    var recoveryPoint: Option<u32>
    var rescueDone: bool
    ghost var at: Board

    /** The vectors are the wire image of the position lists, all inside one window. */
    ghost predicate Valid(lo: int, hi: int)
      reads this
    {
      && 0 <= hi - lo < HALF && Rfc6675.Valid(at, lo, hi)
      && sacked == OnWire(at.sacked) && rexmit == OnWire(at.rexmit)
      && rescueDone == at.rescueDone
      && recoveryPoint == (match at.recoveryPoint case None => None case Some(p) => Some(Wire(p)))
    }

    constructor ()
      ensures at == EMPTY && forall lo, hi :: 0 <= hi - lo < HALF ==> Valid(lo, hi)
    {
      sacked, rexmit, recoveryPoint, rescueDone, at := [], [], None, false, EMPTY;
    }

    method BeginRecovery(point: u32, ghost p: int, ghost lo: int, ghost hi: int)
      requires Valid(lo, hi) && point == Wire(p)
      modifies this
      ensures Valid(lo, hi) && at == Rfc6675.BeginRecovery(old(at), p)
    {
      recoveryPoint, rescueDone, at := Some(point), false, Rfc6675.BeginRecovery(at, p);
    }

    method RecoveryReached(snd_una: u32, ghost una: int, ghost lo: int, ghost hi: int) returns (reached: bool)
      requires Valid(lo, hi) && snd_una == Wire(una)
      requires at.recoveryPoint.Some? ==> -HALF <= una - at.recoveryPoint.value < HALF
      ensures reached == Rfc6675.RecoveryReached(at, una)
    {
      reached := recoveryPoint.Some? && Ge(snd_una, recoveryPoint.value);
      if at.recoveryPoint.Some? { Agree(una, at.recoveryPoint.value); }
    }

    method ExitRecovery(ghost lo: int, ghost hi: int)
      requires Valid(lo, hi)
      modifies this
      ensures Valid(lo, hi) && at == Rfc6675.ExitRecovery(old(at))
    {
      recoveryPoint, rexmit, rescueDone, at := None, [], false, Rfc6675.ExitRecovery(at);
    }

    method OnRto(ghost lo: int, ghost hi: int)
      requires Valid(lo, hi)
      modifies this
      ensures Valid(lo, hi) && at == Rfc6675.OnRto(old(at))
    {
      rexmit, recoveryPoint, rescueDone, at := [], None, false, Rfc6675.OnRto(at);
    }

    method SetRescueDone(ghost lo: int, ghost hi: int)
      requires Valid(lo, hi)
      modifies this
      ensures Valid(lo, hi) && at == Rfc6675.SetRescueDone(old(at))
    {
      rescueDone, at := true, Rfc6675.SetRescueDone(at);
    }

    /** Apply SACK blocks. The blocks are any 32-bit edges whatever; read as the positions nearest
        to SND.NXT they are treated exactly as `Rfc6675.Update` treats positions. */
    method Update(snd_una: u32, snd_nxt: u32, blocks: seq<WireRun>,
                  ghost una: int, ghost nxt: int, ghost lo: int, ghost hi: int)
      requires Valid(lo, hi) && lo <= una <= nxt <= hi && snd_una == Wire(una) && snd_nxt == Wire(nxt)
      modifies this
      ensures Valid(lo, hi) && at == Rfc6675.Update(old(at), una, nxt, Positions(nxt, blocks))
    {
      ghost var p := Positions(nxt, blocks);
      ghost var now := at.sacked;
      AddBlocksExact(now, una, nxt, p, lo, hi);
      UpdateExact(at, una, nxt, p, lo, hi);
      assert p[0..] == p;
      for i := 0 to |blocks|
        invariant WellFormed(now) && Within(now, lo, hi) && sacked == OnWire(now)
        invariant AddBlocks(now, una, nxt, p[i..]) == AddBlocks(at.sacked, una, nxt, p)
        invariant at == old(at) && unchanged(`rexmit, `recoveryPoint, `rescueDone)
      {
        now := AddBlock(blocks[i], p[i], snd_una, snd_nxt, now, p[i..], una, nxt, lo, hi);
        assert p[i..][1..] == p[i + 1..];
      }
      assert p[|p|..] == [];
      while |sacked| > MAX_RUNS
        invariant sacked == OnWire(now)[..|sacked|] && |sacked| <= |now|
        invariant |now| <= MAX_RUNS ==> |sacked| == |now|
        invariant |now| > MAX_RUNS ==> |sacked| >= MAX_RUNS
        invariant at == old(at) && unchanged(`rexmit, `recoveryPoint, `rescueDone)
      {
        sacked := sacked[..|sacked| - 1];
      }
      at := Rfc6675.Update(at, una, nxt, p);
      assert sacked == OnWire(at.sacked);
    }

    /** One block of `Update`: the four serial tests, the clip to SND.UNA, and the insertion. */
    method AddBlock(block: WireRun, ghost p: Run, snd_una: u32, snd_nxt: u32, ghost now: seq<Run>, ghost rest: seq<Run>,
                    ghost una: int, ghost nxt: int, ghost lo: int, ghost hi: int)
      returns (ghost next: seq<Run>)
      requires 0 <= hi - lo < HALF && lo <= una <= nxt <= hi && snd_una == Wire(una) && snd_nxt == Wire(nxt)
      requires WellFormed(now) && Within(now, lo, hi) && sacked == OnWire(now)
      requires p == Run(Unwrap(nxt, block.l), Unwrap(nxt, block.r)) && rest != [] && rest[0] == p
      modifies `sacked
      ensures WellFormed(next) && Within(next, lo, hi) && sacked == OnWire(next)
      ensures AddBlocks(now, una, nxt, rest) == AddBlocks(next, una, nxt, rest[1..])
    {
      BlockTests(block, p, una, nxt, lo, hi);
      next := now;
      if !Lt(block.l, block.r) {
        // empty or inverted
      } else if Le(block.r, snd_una) {
        // entirely at or below the cumulative ACK
      } else if Gt(block.l, snd_nxt) || Gt(block.r, snd_nxt) {
        // acknowledges data never sent
      } else {
        var l := if Lt(block.l, snd_una) then snd_una else block.l;
        if Lt(l, block.r) {
          sacked := InsertRun(sacked, l, block.r, now, Larger(p.l, una), p.r, lo, hi);
          InsertExact(now, Larger(p.l, una), p.r);
          next := Insert(now, Larger(p.l, una), p.r);
        }
      }
    }

    method Trim(snd_una: u32, ghost una: int, ghost lo: int, ghost hi: int)
      requires Valid(lo, hi) && lo <= una <= hi && snd_una == Wire(una)
      modifies this
      ensures Valid(una, hi) && at == Rfc6675.TrimBoard(old(at), una)
    {
      sacked := TrimRuns(sacked, snd_una, at.sacked, una, lo, hi);
      rexmit := TrimRuns(rexmit, snd_una, at.rexmit, una, lo, hi);
      TrimKeepsValid(at, una, lo, hi);
      at := Rfc6675.TrimBoard(at, una);
    }

    method MarkRexmit(l: u32, r: u32, ghost pl: int, ghost pr: int, ghost lo: int, ghost hi: int)
      requires Valid(lo, hi) && lo <= pl <= hi && lo <= pr <= hi && l == Wire(pl) && r == Wire(pr)
      modifies this
      ensures Valid(lo, hi) && at == Rfc6675.MarkRexmit(old(at), pl, pr)
    {
      SerialInWindow(pl, pr, lo, hi);
      if Lt(l, r) {
        rexmit := InsertRun(rexmit, l, r, at.rexmit, pl, pr, lo, hi);
        InsertExact(at.rexmit, pl, pr);
      }
      at := Rfc6675.MarkRexmit(at, pl, pr);
    }

    method IsSacked(s: u32, ghost x: int, ghost lo: int, ghost hi: int) returns (any: bool)
      requires Valid(lo, hi) && lo <= x <= hi && s == Wire(x)
      ensures any == Covered(at.sacked, x)
    {
      any := AnyHolds(sacked, s, at.sacked, x, lo, hi);
    }

    method IsRexmit(s: u32, ghost x: int, ghost lo: int, ghost hi: int) returns (any: bool)
      requires Valid(lo, hi) && lo <= x <= hi && s == Wire(x)
      ensures any == Covered(at.rexmit, x)
    {
      any := AnyHolds(rexmit, s, at.rexmit, x, lo, hi);
    }

    method NextBoundary(s: u32, limit: u32, ghost x: int, ghost b: int, ghost lo: int, ghost hi: int)
      returns (edge: u32)
      requires Valid(lo, hi) && lo <= x < b <= hi && s == Wire(x) && limit == Wire(b)
      ensures edge == Wire(Rfc6675.NextBoundary(at, x, b))
    {
      NextEdgeIsClear(at.sacked, x, b);
      edge := ScanEdges(sacked, s, limit, at.sacked, x, b, lo, hi);
      edge := ScanEdges(rexmit, s, edge, at.rexmit, x, NextEdge(at.sacked, x, b), lo, hi);
    }

    method UnsackedRunLen(s: u32, limit: u32, ghost x: int, ghost b: int, ghost lo: int, ghost hi: int)
      returns (len: u32)
      requires Valid(lo, hi) && lo <= x <= hi && lo <= b <= hi && s == Wire(x) && limit == Wire(b)
      ensures len == Rfc6675.UnsackedRunLen(at, x, b)
    {
      hide WellFormed, Within, OnWire, Wire, Lt, Gt, Le, OffsetFrom, NextLeft;
      Bounds(at.sacked, lo, hi);
      var end := limit;
      ghost var e := b;
      SuffixEnds(at.sacked, x, b);
      for i := 0 to |sacked|
        invariant lo <= e <= hi && end == Wire(e)
        invariant NextLeft(at.sacked[i..], x, e) == NextLeft(at.sacked, x, b)
      {
        SuffixStep(at.sacked, i, x, e);
        SerialInWindow(at.sacked[i].l, x, lo, hi);
        SerialInWindow(at.sacked[i].l, e, lo, hi);
        if Gt(sacked[i].l, s) && Lt(sacked[i].l, end) { end := sacked[i].l; }
        e := LeftEdge(at.sacked[i], x, e);
      }
      SuffixEnds(at.sacked, x, e);
      SerialInWindow(e, x, lo, hi);
      if e > x { OffsetAgrees(e, x); }
      len := if Le(end, s) then 0 else OffsetFrom(end, s);
    }

    method IsLost(s: u32, smss: u32, ghost x: int, ghost lo: int, ghost hi: int) returns (lost: bool)
      requires Valid(lo, hi) && lo <= x <= hi && s == Wire(x)
      ensures lost == Rfc6675.IsLost(at, x, smss)
    {
      hide WellFormed, Within, OnWire, Wire, Gt, OffsetFrom, BytesAbove, BlocksAbove;
      Bounds(at.sacked, lo, hi);
      BytesAboveFit(at.sacked, x, lo, hi);
      SuffixEnds(at.sacked, x, 0);
      var blocks: nat, bytes: u32 := 0, 0;
      for i := 0 to |sacked|
        invariant blocks + BlocksAbove(at.sacked[i..], x) == BlocksAbove(at.sacked, x)
        invariant bytes + BytesAbove(at.sacked[i..], x) == BytesAbove(at.sacked, x)
      {
        SuffixStep(at.sacked, i, x, 0);
        SerialInWindow(at.sacked[i].l, x, lo, hi);
        SuffixFits(at.sacked, i + 1, x, lo, hi);
        if Gt(sacked[i].l, s) {
          OffsetAgrees(at.sacked[i].r, at.sacked[i].l);
          blocks := blocks + 1;
          bytes := SatAdd(bytes, OffsetFrom(sacked[i].r, sacked[i].l));
        }
      }
      lost := blocks >= DUP_THRESH || bytes > (DUP_THRESH - 1) * smss;
    }

    /** SetPipe by spans of uniform status; it is the per-octet count. */
    method Pipe(snd_una: u32, snd_nxt: u32, smss: u32, ghost una: int, ghost nxt: int, ghost lo: int, ghost hi: int)
      returns (pipe: u32)
      requires Valid(lo, hi) && lo <= una <= nxt <= hi && snd_una == Wire(una) && snd_nxt == Wire(nxt)
      ensures pipe == Rfc6675.Pipe(at, una, nxt, smss)
    {
      hide Rfc6675.Valid, WellFormed, Within, OnWire, Wire, Lt, OffsetFrom, Rfc6675.Pipe, Covered, Rfc6675.IsLost,
           Rfc6675.NextBoundary;
      pipe := 0;
      var s := snd_una;
      ghost var x := una;
      while Lt(s, snd_nxt)
        invariant una <= x <= nxt && s == Wire(x) && x - una <= nxt - una
        invariant pipe + Rfc6675.Pipe(at, x, nxt, smss) == Rfc6675.Pipe(at, una, nxt, smss)
        invariant pipe <= x - una
        decreases nxt - x
      {
        SerialInWindow(x, nxt, lo, hi);
        WellFormedBoard(at, lo, hi);
        SpanIsUniform(at, x, nxt, smss);
        ghost var e := Rfc6675.NextBoundary(at, x, nxt);
        PipeOverUniformSpan(at, x, e, nxt, smss);
        OffsetAgrees(e, x);
        var end := NextBoundary(s, snd_nxt, x, nxt, lo, hi);
        var counts := SpanCounts(s, smss, x, lo, hi);
        if counts { pipe := SatAdd(pipe, OffsetFrom(end, s)); }
        s, x := end, e;
      }
      SerialInWindow(x, nxt, lo, hi);
      PipeIsBounded(at, x, nxt, smss);
    }

    method SpanCounts(s: u32, smss: u32, ghost x: int, ghost lo: int, ghost hi: int) returns (counts: bool)
      requires Valid(lo, hi) && lo <= x <= hi && s == Wire(x)
      ensures counts == InPipe(at, x, smss)
    {
      counts := false;
      var sackedHere := IsSacked(s, x, lo, hi);
      if !sackedHere {
        counts := IsRexmit(s, x, lo, hi);
        if !counts {
          var lost := IsLost(s, smss, x, lo, hi);
          counts := !lost;
        }
      }
    }

    /** Rule 1, then rule 3 of NextSeg, testing only where spans start. */
    method NextSeg(snd_una: u32, snd_nxt: u32, smss: u32, ghost una: int, ghost nxt: int, ghost lo: int, ghost hi: int)
      returns (found: Option<(u32, bool)>)
      requires Valid(lo, hi) && lo <= una <= nxt <= hi && snd_una == Wire(una) && snd_nxt == Wire(nxt)
      ensures found == match Rfc6675.NextSeg(at, una, nxt, smss)
                       case None => None
                       case Some((x, rescue)) => Some((Wire(x), rescue))
    {
      hide Rfc6675.Valid, WellFormed, Within, OnWire, Wire, Lt, FirstRepair, FirstRescue, Repairable, Rescuable;
      var repair := ScanRepair(snd_una, snd_nxt, smss, una, nxt, lo, hi);
      if repair.Some? { return Some((repair.value, false)); }
      if !rescueDone {
        var rescue := ScanRescue(snd_una, snd_nxt, una, nxt, lo, hi);
        if rescue.Some? { return Some((rescue.value, true)); }
      }
      return None;
    }

    method ScanRepair(snd_una: u32, snd_nxt: u32, smss: u32, ghost una: int, ghost nxt: int, ghost lo: int,
                      ghost hi: int)
      returns (found: Option<u32>)
      requires Valid(lo, hi) && lo <= una <= nxt <= hi && snd_una == Wire(una) && snd_nxt == Wire(nxt)
      ensures found == match FirstRepair(at, una, nxt, smss) case None => None case Some(x) => Some(Wire(x))
    {
      hide Rfc6675.Valid, WellFormed, Within, OnWire, Wire, Lt, FirstRepair, Covered, Rfc6675.IsLost,
           Rfc6675.NextBoundary;
      var s := snd_una;
      ghost var x := una;
      while Lt(s, snd_nxt)
        invariant una <= x <= nxt && s == Wire(x)
        invariant FirstRepair(at, x, nxt, smss) == FirstRepair(at, una, nxt, smss)
        decreases nxt - x
      {
        SerialInWindow(x, nxt, lo, hi);
        WellFormedBoard(at, lo, hi);
        SpanIsUniform(at, x, nxt, smss);
        ghost var e := Rfc6675.NextBoundary(at, x, nxt);
        var end := NextBoundary(s, snd_nxt, x, nxt, lo, hi);
        var sackedHere := IsSacked(s, x, lo, hi);
        var resent := IsRexmit(s, x, lo, hi);
        var lost := IsLost(s, smss, x, lo, hi);
        RepairOverSpan(at, x, e, nxt, smss);
        if !sackedHere && !resent && lost { return Some(s); }
        s, x := end, e;
      }
      SerialInWindow(x, nxt, lo, hi);
      RepairOverSpan(at, x, x, nxt, smss);
      return None;
    }

    method ScanRescue(snd_una: u32, snd_nxt: u32, ghost una: int, ghost nxt: int, ghost lo: int, ghost hi: int)
      returns (found: Option<u32>)
      requires Valid(lo, hi) && lo <= una <= nxt <= hi && snd_una == Wire(una) && snd_nxt == Wire(nxt)
      ensures found == match FirstRescue(at, una, nxt) case None => None case Some(x) => Some(Wire(x))
    {
      WellFormedBoard(at, lo, hi);
      hide Rfc6675.Valid, WellFormed, Within, OnWire, Wire, Lt, FirstRescue, Covered, Rfc6675.NextBoundary;
      if sacked == [] {
        NoRescueWithoutSack(at, una, nxt);
        return None;
      }
      var high := sacked[|sacked| - 1].r;
      ghost var h := at.sacked[|at.sacked| - 1].r;
      ByIndex(at.sacked, |at.sacked| - 1, lo, hi);
      var s := snd_una;
      ghost var x := una;
      while Lt(s, snd_nxt)
        invariant una <= x <= nxt && s == Wire(x)
        invariant FirstRescue(at, x, nxt) == FirstRescue(at, una, nxt)
        decreases nxt - x
      {
        SerialInWindow(x, nxt, lo, hi);
        SerialInWindow(x, h, lo, hi);
        SpanIsUniform(at, x, nxt, 0);
        ghost var e := Rfc6675.NextBoundary(at, x, nxt);
        var end := NextBoundary(s, snd_nxt, x, nxt, lo, hi);
        var sackedHere := IsSacked(s, x, lo, hi);
        var resent := IsRexmit(s, x, lo, hi);
        RescueOverSpan(at, x, e, nxt);
        if !sackedHere && !resent && Lt(s, high) { return Some(s); }
        s, x := end, e;
      }
      SerialInWindow(x, nxt, lo, hi);
      RescueOverSpan(at, x, x, nxt);
      return None;
    }
  }

  lemma WellFormedBoard(b: Board, lo: int, hi: int)
    requires Rfc6675.Valid(b, lo, hi)
    ensures WellFormed(b.sacked) && WellFormed(b.rexmit) && Within(b.sacked, lo, hi) && Within(b.rexmit, lo, hi)
  {}

  /** Nothing starts inside a uniform span whose first octet does not qualify. */
  lemma {:induction false} RepairOverSpan(b: Board, x: int, e: int, nxt: int, smss: nat)
    requires x <= e <= nxt
    requires forall y :: x <= y < e ==>
               && (Covered(b.sacked, y) <==> Covered(b.sacked, x))
               && (Covered(b.rexmit, y) <==> Covered(b.rexmit, x))
               && (Rfc6675.IsLost(b, y, smss) <==> Rfc6675.IsLost(b, x, smss))
    ensures x < e && Repairable(b, x, smss) ==> FirstRepair(b, x, nxt, smss) == Some(x)
    ensures x < e && !Repairable(b, x, smss) ==> FirstRepair(b, x, nxt, smss) == FirstRepair(b, e, nxt, smss)
    ensures x == nxt ==> FirstRepair(b, x, nxt, smss) == None
    decreases e - x
  {
    if x < e && !Repairable(b, x, smss) { RepairOverSpan(b, x + 1, e, nxt, smss); }
  }

  /** A span past the highest SACKed edge cannot begin below it, since that edge is a boundary. */
  lemma {:induction false} RescueOverSpan(b: Board, x: int, e: int, nxt: int)
    requires x <= e <= nxt
    requires forall y :: x <= y < e ==>
               && (Covered(b.sacked, y) <==> Covered(b.sacked, x))
               && (Covered(b.rexmit, y) <==> Covered(b.rexmit, x))
    ensures x < e && Rescuable(b, x) ==> FirstRescue(b, x, nxt) == Some(x)
    ensures x < e && !Rescuable(b, x) ==> FirstRescue(b, x, nxt) == FirstRescue(b, e, nxt)
    ensures x == nxt ==> FirstRescue(b, x, nxt) == None
    decreases e - x
  {
    if x < e && !Rescuable(b, x) { RescueOverSpan(b, x + 1, e, nxt); }
  }

  lemma {:induction false} NoRescueWithoutSack(b: Board, una: int, nxt: int)
    requires b.sacked == []
    ensures FirstRescue(b, una, nxt) == None
    decreases nxt - una
  {
    if una < nxt { NoRescueWithoutSack(b, una + 1, nxt); }
  }

  /** The serial tests of `Update` on any two 32-bit edges decide exactly `ValidBlock` of the
      positions nearest to SND.NXT. */
  lemma BlockTests(block: WireRun, p: Run, una: int, nxt: int, lo: int, hi: int)
    requires 0 <= hi - lo < HALF && lo <= una <= nxt <= hi
    requires p == Run(Unwrap(nxt, block.l), Unwrap(nxt, block.r))
    ensures ValidBlock(p, una, nxt) <==>
              && Lt(block.l, block.r) && !Le(block.r, Wire(una))
              && !Gt(block.l, Wire(nxt)) && !Gt(block.r, Wire(nxt))
    ensures ValidBlock(p, una, nxt) ==>
              var l := if Lt(block.l, Wire(una)) then Wire(una) else block.l;
              l == Wire(Larger(p.l, una)) && Lt(l, block.r) && block.r == Wire(p.r)
  {
    UnwrapIsInverse(nxt, block.l);
    UnwrapIsInverse(nxt, block.r);
    Agree(p.l, nxt);
    Agree(p.r, nxt);
    if p.r <= nxt && p.l <= nxt {
      Agree(p.r, una);
      if p.r > una {
        Agree(p.l, p.r);
        Agree(una, p.r);
        Agree(p.l, una);
      }
    }
  }
}
