/** The sender-side SACK scoreboard and the loss-recovery predicates of RFC 6675, octet by octet
    over stream positions. This is what tcp-core/src/sack.rs is for; the class in
    Scoreboard.dfy is the run-list form that walks spans. */
module Rfc6675 {
  import opened Options
  import opened Runs

  const DUP_THRESH: nat := 3
  const MAX_RUNS: nat := 128

  datatype Board = Board(sacked: seq<Run>, rexmit: seq<Run>, recoveryPoint: Option<int>, rescueDone: bool)

  const EMPTY := Board([], [], None, false)

  predicate InRecovery(b: Board) { b.recoveryPoint.Some? }

  predicate RecoveryReached(b: Board, una: int) {
    b.recoveryPoint.Some? && una >= b.recoveryPoint.value
  }

  function BeginRecovery(b: Board, point: int): Board {
    b.(recoveryPoint := Some(point), rescueDone := false)
  }

  function ExitRecovery(b: Board): Board {
    b.(recoveryPoint := None, rexmit := [], rescueDone := false)
  }

  /** The `sacked` set survives a timeout (section 5.1 of RFC 6675). */
  function OnRto(b: Board): Board {
    b.(recoveryPoint := None, rexmit := [], rescueDone := false)
  }

  // ── updates ─────────────────────────────────────────────────────────────────────────────────

  /** A block is taken when it is non-empty, reaches above the cumulative ACK, and acknowledges
      nothing unsent. */
  predicate ValidBlock(block: Run, una: int, nxt: int) {
    block.l < block.r && una < block.r && block.l <= nxt && block.r <= nxt
  }

  function AddBlocks(sacked: seq<Run>, una: int, nxt: int, blocks: seq<Run>): seq<Run>
    decreases |blocks|
  {
    if blocks == [] then sacked
    else if ValidBlock(blocks[0], una, nxt) then
      AddBlocks(Insert(sacked, Larger(blocks[0].l, una), blocks[0].r), una, nxt, blocks[1..])
    else AddBlocks(sacked, una, nxt, blocks[1..])
  }

  function Update(b: Board, una: int, nxt: int, blocks: seq<Run>): Board {
    var all := AddBlocks(b.sacked, una, nxt, blocks);
    b.(sacked := if |all| > MAX_RUNS then all[..MAX_RUNS] else all)
  }

  function TrimBoard(b: Board, una: int): Board {
    b.(sacked := Trim(b.sacked, una), rexmit := Trim(b.rexmit, una))
  }

  function MarkRexmit(b: Board, l: int, r: int): Board {
    if l < r then b.(rexmit := Insert(b.rexmit, l, r)) else b
  }

  function SetRescueDone(b: Board): Board { b.(rescueDone := true) }

  // ── RFC 6675 predicates, per octet ──────────────────────────────────────────────────────────

  /** IsLost of section 4: enough discontiguous blocks, or enough octets, SACKed above `x`. */
  predicate IsLost(b: Board, x: int, smss: nat) {
    BlocksAbove(b.sacked, x) >= DUP_THRESH || BytesAbove(b.sacked, x) > (DUP_THRESH - 1) * smss
  }

  /** SetPipe of section 4 with the single count: an unsacked octet counts once if it has been
      retransmitted or is not lost. */
  predicate InPipe(b: Board, x: int, smss: nat) {
    !Covered(b.sacked, x) && (Covered(b.rexmit, x) || !IsLost(b, x, smss))
  }

  function Pipe(b: Board, lo: int, hi: int, smss: nat): nat
    decreases hi - lo
  {
    if lo >= hi then 0 else (if InPipe(b, lo, smss) then 1 else 0) + Pipe(b, lo + 1, hi, smss)
  }

  /** Rule 1 of NextSeg: an unsacked octet, not yet retransmitted in this episode, that is lost. */
  predicate Repairable(b: Board, x: int, smss: nat) {
    !Covered(b.sacked, x) && !Covered(b.rexmit, x) && IsLost(b, x, smss)
  }

  /** Rule 3 of NextSeg: an unsacked, un-retransmitted octet below the highest SACKed edge. */
  predicate Rescuable(b: Board, x: int) {
    !Covered(b.sacked, x) && !Covered(b.rexmit, x) && b.sacked != [] && x < b.sacked[|b.sacked| - 1].r
  }

  function FirstRepair(b: Board, lo: int, hi: int, smss: nat): Option<int>
    decreases hi - lo
  {
    if lo >= hi then None
    else if Repairable(b, lo, smss) then Some(lo)
    else FirstRepair(b, lo + 1, hi, smss)
  }

  function FirstRescue(b: Board, lo: int, hi: int): Option<int>
    decreases hi - lo
  {
    if lo >= hi then None else if Rescuable(b, lo) then Some(lo) else FirstRescue(b, lo + 1, hi)
  }

  /** NextSeg of section 4: where to repair next, and whether it is the rescue. */
  function NextSeg(b: Board, una: int, nxt: int, smss: nat): Option<(int, bool)> {
    match FirstRepair(b, una, nxt, smss)
    case Some(x) => Some((x, false))
    case None =>
      if b.rescueDone then None
      else match FirstRescue(b, una, nxt)
           case Some(x) => Some((x, true))
           case None => None
  }

  /** The lowest run edge in `(s, b)`, else `b`. */
  function NextEdge(runs: seq<Run>, s: int, b: int): int {
    if runs == [] then b
    else
      var b1 := if runs[0].l > s && runs[0].l < b then runs[0].l else b;
      var b2 := if runs[0].r > s && runs[0].r < b1 then runs[0].r else b1;
      NextEdge(runs[1..], s, b2)
  }

  /** Where sacked- or rexmit-membership next changes above `s`, at most `limit`. */
  function NextBoundary(b: Board, s: int, limit: int): int {
    NextEdge(b.rexmit, s, NextEdge(b.sacked, s, limit))
  }

  /** The lowest left edge in `(s, limit)`, else `limit`. */
  function NextLeft(runs: seq<Run>, s: int, limit: int): int {
    if runs == [] then limit
    else NextLeft(runs[1..], s, if runs[0].l > s && runs[0].l < limit then runs[0].l else limit)
  }

  /** Length of the unsacked span at `x`, up to the next SACKed left edge and to `limit`. */
  function UnsackedRunLen(b: Board, x: int, limit: int): nat {
    var end := NextLeft(b.sacked, x, limit);
    if end <= x then 0 else end - x
  }

  // ── structural invariant over operation sequences ───────────────────────────────────────────

  /** Both lists well formed, with edges in `[lo, hi]`. */
  ghost predicate Valid(b: Board, lo: int, hi: int) {
    && WellFormed(b.sacked) && Within(b.sacked, lo, hi) && |b.sacked| <= MAX_RUNS
    && WellFormed(b.rexmit) && Within(b.rexmit, lo, hi)
  }

  /** `x` lies in a valid block, after clipping. */
  predicate InBlocks(blocks: seq<Run>, una: int, nxt: int, x: int) {
    blocks != [] &&
    ((ValidBlock(blocks[0], una, nxt) && Larger(blocks[0].l, una) <= x < blocks[0].r) ||
     InBlocks(blocks[1..], una, nxt, x))
  }

  lemma {:induction false} AddBlocksExact(sacked: seq<Run>, una: int, nxt: int, blocks: seq<Run>, lo: int, hi: int)
    requires WellFormed(sacked) && Within(sacked, lo, hi) && lo <= una && nxt <= hi
    ensures WellFormed(AddBlocks(sacked, una, nxt, blocks)) && Within(AddBlocks(sacked, una, nxt, blocks), lo, hi)
    ensures forall x :: Covered(AddBlocks(sacked, una, nxt, blocks), x)
                   <==> Covered(sacked, x) || InBlocks(blocks, una, nxt, x)
    decreases |blocks|
  {
    if blocks != [] {
      if ValidBlock(blocks[0], una, nxt) {
        InsertExact(sacked, Larger(blocks[0].l, una), blocks[0].r);
        AddBlocksExact(Insert(sacked, Larger(blocks[0].l, una), blocks[0].r), una, nxt, blocks[1..], lo, hi);
      } else {
        AddBlocksExact(sacked, una, nxt, blocks[1..], lo, hi);
      }
    }
  }

  /** `Update` adds exactly the octets of the valid blocks, clipped to the window; once the run cap
      bites it keeps the lowest runs and so only ever forgets. */
  lemma UpdateExact(b: Board, una: int, nxt: int, blocks: seq<Run>, lo: int, hi: int)
    requires Valid(b, lo, hi) && lo <= una && nxt <= hi
    ensures Valid(Update(b, una, nxt, blocks), lo, hi)
    ensures forall x :: Covered(Update(b, una, nxt, blocks).sacked, x)
                    ==> Covered(b.sacked, x) || InBlocks(blocks, una, nxt, x)
    ensures |AddBlocks(b.sacked, una, nxt, blocks)| <= MAX_RUNS ==>
              forall x :: Covered(Update(b, una, nxt, blocks).sacked, x)
                     <==> Covered(b.sacked, x) || InBlocks(blocks, una, nxt, x)
    ensures forall x, y :: x <= y && Covered(Update(b, una, nxt, blocks).sacked, y)
                       && (Covered(b.sacked, x) || InBlocks(blocks, una, nxt, x))
                       ==> Covered(Update(b, una, nxt, blocks).sacked, x)
  {
    AddBlocksExact(b.sacked, una, nxt, blocks, lo, hi);
    var all := AddBlocks(b.sacked, una, nxt, blocks);
    if |all| > MAX_RUNS {
      assert all == all[..MAX_RUNS] + all[MAX_RUNS..];
      Concat(all[..MAX_RUNS], all[MAX_RUNS..]);
      forall x, y | x <= y && Covered(all[..MAX_RUNS], y) && Covered(all, x)
        ensures Covered(all[..MAX_RUNS], x)
      {
        if !Covered(all[..MAX_RUNS], x) { PrefixIsLower(all[..MAX_RUNS], all[MAX_RUNS..], y, x); }
      }
    }
  }

  lemma {:induction false} PrefixIsLower(a: seq<Run>, b: seq<Run>, y: int, x: int)
    requires WellFormed(a + b) && Covered(a, y) && Covered(b, x)
    ensures y < x
  {
    assert (a + b)[1..] == a[1..] + b;
    Concat(a, b);
    if a[0].l <= y < a[0].r {
      Concat(a[1..], b);
      TailAbove(a + b, x);
    } else {
      PrefixIsLower(a[1..], b, y, x);
    }
  }

  /** One operation the scoreboard is driven by. */
  datatype Op = DoUpdate(una: int, nxt: int, blocks: seq<Run>) | DoRexmit(l: int, r: int) | DoTrim(una: int)
              | DoBegin(point: int) | DoExit | DoRto | DoRescue

  function Apply(b: Board, op: Op): Board {
    match op
    case DoUpdate(una, nxt, blocks) => Update(b, una, nxt, blocks)
    case DoRexmit(l, r) => MarkRexmit(b, l, r)
    case DoTrim(una) => TrimBoard(b, una)
    case DoBegin(point) => BeginRecovery(b, point)
    case DoExit => ExitRecovery(b)
    case DoRto => OnRto(b)
    case DoRescue => SetRescueDone(b)
  }

  function ApplyAll(b: Board, ops: seq<Op>): Board
    decreases |ops|
  {
    if ops == [] then b else ApplyAll(Apply(b, ops[0]), ops[1..])
  }

  /** The operation speaks of the window `[lo, hi]` only. */
  predicate InWindow(op: Op, lo: int, hi: int) {
    match op
    case DoUpdate(una, nxt, _) => lo <= una <= hi && nxt <= hi
    case DoRexmit(l, r) => lo <= l && r <= hi
    case DoTrim(una) => lo <= una <= hi
    case _ => true
  }

  lemma ApplyKeepsValid(b: Board, op: Op, lo: int, hi: int)
    requires Valid(b, lo, hi) && InWindow(op, lo, hi)
    ensures Valid(Apply(b, op), lo, hi)
  {
    match op {
      case DoUpdate(una, nxt, blocks) => UpdateExact(b, una, nxt, blocks, lo, hi);
      case DoRexmit(l, r) => if l < r { InsertExact(b.rexmit, l, r); }
      case DoTrim(una) =>
        TrimKeepsValid(b, una, lo, hi);
        WithinWidens(Trim(b.sacked, una), una, hi, lo, hi);
        WithinWidens(Trim(b.rexmit, una), una, hi, lo, hi);
      case _ =>
    }
  }

  lemma TrimKeepsValid(b: Board, una: int, lo: int, hi: int)
    requires Valid(b, lo, hi)
    ensures Valid(TrimBoard(b, una), una, hi)
  {
    TrimExact(b.sacked, una);
    TrimExact(b.rexmit, una);
    assert Within(Trim(b.sacked, una), una, hi);
    assert Within(Trim(b.rexmit, una), una, hi);
  }

  /** Every operation sequence, of any length, over any window keeps both lists sorted, non-empty
      and separated by gaps. */
  lemma {:induction false} AllSequencesStayValid(ops: seq<Op>, b: Board, lo: int, hi: int)
    requires Valid(b, lo, hi)
    requires forall i :: 0 <= i < |ops| ==> InWindow(ops[i], lo, hi)
    ensures Valid(ApplyAll(b, ops), lo, hi)
    decreases |ops|
  {
    if ops != [] {
      ApplyKeepsValid(b, ops[0], lo, hi);
      AllSequencesStayValid(ops[1..], Apply(b, ops[0]), lo, hi);
    }
  }

  // ── what the predicates mean ────────────────────────────────────────────────────────────────

  /** On an unsacked octet `IsLost` counts exactly the discontiguous SACKed blocks and the SACKed
      octets above it. */
  lemma LostCountsOctets(b: Board, x: int, smss: nat, lo: int, hi: int)
    requires WellFormed(b.sacked) && Within(b.sacked, lo, hi) && !Covered(b.sacked, x)
    ensures IsLost(b, x, smss) <==>
            (CountStarts(b.sacked, x + 1, hi) >= DUP_THRESH ||
             CountCovered(b.sacked, x + 1, hi) > (DUP_THRESH - 1) * smss)
  {
    AboveCountsOctets(b.sacked, x, lo, hi);
  }

  lemma LostIsDownwardClosed(b: Board, x: int, y: int, smss: nat)
    requires WellFormed(b.sacked) && x <= y && IsLost(b, y, smss)
    ensures IsLost(b, x, smss)
  {
    AboveIsMonotone(b.sacked, x, y);
  }

  /** The pipe estimate never exceeds the octets in flight. */
  lemma {:induction false} PipeIsBounded(b: Board, lo: int, hi: int, smss: nat)
    ensures Pipe(b, lo, hi, smss) <= if lo < hi then hi - lo else 0
    decreases hi - lo
  {
    if lo < hi { PipeIsBounded(b, lo + 1, hi, smss); }
  }

  /** The estimate above the new cumulative ACK is the same before and after the board is trimmed
      to it, so the order in which an ACK is processed does not matter. */
  lemma {:induction false} PipeUnchangedByTrim(b: Board, una: int, lo: int, hi: int, smss: nat)
    requires WellFormed(b.sacked) && WellFormed(b.rexmit) && una <= lo
    ensures Pipe(TrimBoard(b, una), lo, hi, smss) == Pipe(b, lo, hi, smss)
    decreases hi - lo
  {
    if lo < hi {
      TrimExact(b.sacked, una);
      TrimExact(b.rexmit, una);
      AboveSurvivesTrim(b.sacked, una, lo);
      PipeUnchangedByTrim(b, una, lo + 1, hi, smss);
    }
  }

  lemma {:induction false} FirstRepairIsLowest(b: Board, lo: int, hi: int, smss: nat)
    ensures FirstRepair(b, lo, hi, smss).Some? ==>
              var x := FirstRepair(b, lo, hi, smss).value;
              lo <= x < hi && Repairable(b, x, smss) && forall y :: lo <= y < x ==> !Repairable(b, y, smss)
    ensures FirstRepair(b, lo, hi, smss).None? ==> forall y :: lo <= y < hi ==> !Repairable(b, y, smss)
    decreases hi - lo
  {
    if lo < hi && !Repairable(b, lo, smss) { FirstRepairIsLowest(b, lo + 1, hi, smss); }
  }

  lemma {:induction false} FirstRescueIsLowest(b: Board, lo: int, hi: int)
    ensures FirstRescue(b, lo, hi).Some? ==>
              var x := FirstRescue(b, lo, hi).value;
              lo <= x < hi && Rescuable(b, x) && forall y :: lo <= y < x ==> !Rescuable(b, y)
    ensures FirstRescue(b, lo, hi).None? ==> forall y :: lo <= y < hi ==> !Rescuable(b, y)
    decreases hi - lo
  {
    if lo < hi && !Rescuable(b, lo) { FirstRescueIsLowest(b, lo + 1, hi); }
  }

  /** NextSeg: the lowest octet meeting rule 1; else, once per episode, the lowest rescue octet;
      else none, and then nothing qualifies. What it returns is never SACKed or already resent. */
  lemma NextSegIsLowest(b: Board, una: int, nxt: int, smss: nat)
    ensures match NextSeg(b, una, nxt, smss)
            case Some((x, false)) =>
              una <= x < nxt && Repairable(b, x, smss) && forall y :: una <= y < x ==> !Repairable(b, y, smss)
            case Some((x, true)) =>
              && una <= x < nxt && !b.rescueDone && Rescuable(b, x)
              && (forall y :: una <= y < nxt ==> !Repairable(b, y, smss))
              && (forall y :: una <= y < x ==> !Rescuable(b, y))
            case None =>
              && (forall y :: una <= y < nxt ==> !Repairable(b, y, smss))
              && (b.rescueDone || forall y :: una <= y < nxt ==> !Rescuable(b, y))
  {
    FirstRepairIsLowest(b, una, nxt, smss);
    FirstRescueIsLowest(b, una, nxt);
  }

  /** The span a hole is repaired with holds no SACKed octet. */
  lemma {:induction false} UnsackedRunIsUnsacked(b: Board, x: int, limit: int)
    requires WellFormed(b.sacked) && !Covered(b.sacked, x) && x < limit
    ensures 1 <= UnsackedRunLen(b, x, limit) <= limit - x
    ensures forall y :: x <= y < x + UnsackedRunLen(b, x, limit) ==> !Covered(b.sacked, y)
    ensures x + UnsackedRunLen(b, x, limit) < limit ==> Covered(b.sacked, x + UnsackedRunLen(b, x, limit))
  {
    NextLeftExact(b.sacked, x, limit);
  }

  lemma {:induction false} NextLeftExact(runs: seq<Run>, x: int, limit: int)
    requires WellFormed(runs) && !Covered(runs, x) && x < limit
    ensures x < NextLeft(runs, x, limit) <= limit
    ensures forall y :: x <= y < NextLeft(runs, x, limit) ==> !Covered(runs, y)
    ensures NextLeft(runs, x, limit) < limit ==> Covered(runs, NextLeft(runs, x, limit))
  {
    if runs != [] {
      var m := if runs[0].l > x && runs[0].l < limit then runs[0].l else limit;
      NextLeftExact(runs[1..], x, m);
      forall y | Covered(runs[1..], y) ensures y > runs[0].r { TailAbove(runs, y); }
    }
  }

  // ── spans: why testing their starts is enough ───────────────────────────────────────────────

  lemma {:induction false} NextEdgeIsClear(runs: seq<Run>, s: int, b: int)
    requires WellFormed(runs) && s < b
    ensures s < NextEdge(runs, s, b) <= b
    ensures forall x :: s <= x < NextEdge(runs, s, b) ==> (Covered(runs, x) <==> Covered(runs, s))
    ensures forall x :: s <= x < NextEdge(runs, s, b) ==>
              BytesAbove(runs, x) == BytesAbove(runs, s) && BlocksAbove(runs, x) == BlocksAbove(runs, s)
  {
    if runs != [] {
      var b1 := if runs[0].l > s && runs[0].l < b then runs[0].l else b;
      var b2 := if runs[0].r > s && runs[0].r < b1 then runs[0].r else b1;
      NextEdgeIsClear(runs[1..], s, b2);
      forall x | s <= x < NextEdge(runs, s, b)
        ensures BytesAbove(runs, x) == BytesAbove(runs, s) && BlocksAbove(runs, x) == BlocksAbove(runs, s)
      {
        assert x < b2 && (runs[0].l > x <==> runs[0].l > s);
        assert BytesAbove(runs[1..], x) == BytesAbove(runs[1..], s);
      }
    }
  }

  /** Membership and loss status are constant from `s` to the next boundary. */
  lemma SpanIsUniform(b: Board, s: int, limit: int, smss: nat)
    requires WellFormed(b.sacked) && WellFormed(b.rexmit) && s < limit
    ensures s < NextBoundary(b, s, limit) <= limit
    ensures forall x :: s <= x < NextBoundary(b, s, limit) ==>
              && (Covered(b.sacked, x) <==> Covered(b.sacked, s))
              && (Covered(b.rexmit, x) <==> Covered(b.rexmit, s))
              && (IsLost(b, x, smss) <==> IsLost(b, s, smss))
  {
    NextEdgeIsClear(b.sacked, s, limit);
    NextEdgeIsClear(b.rexmit, s, NextEdge(b.sacked, s, limit));
  }

  lemma {:induction false} PipeOverUniformSpan(b: Board, s: int, e: int, hi: int, smss: nat)
    requires s <= e <= hi
    requires forall x :: s <= x < e ==> (InPipe(b, x, smss) <==> InPipe(b, s, smss))
    ensures Pipe(b, s, hi, smss) == (if s < e && InPipe(b, s, smss) then e - s else 0) + Pipe(b, e, hi, smss)
    decreases e - s
  {
    if s < e {
      PipeOverUniformSpan(b, s + 1, e, hi, smss);
    }
  }
}
