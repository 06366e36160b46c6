/** Sorted, coalesced run lists over stream positions: the value of the `sacked` and `rexmit`
    vectors of tcp-core/src/sack.rs once their wire edges are read as positions. A run list is a
    fast form of a set of octets; `Covered` is that set. */
module Runs {

  /** The half-open span `[l, r)`. */
  datatype Run = Run(l: int, r: int)

  /** Every run is non-empty and a gap separates consecutive runs. */
  predicate WellFormed(runs: seq<Run>) {
    runs == [] ||
    (&& runs[0].l < runs[0].r
     && (|runs| > 1 ==> runs[0].r < runs[1].l)
     && WellFormed(runs[1..]))
  }

  /** All edges lie in `[lo, hi]`. */
  predicate Within(runs: seq<Run>, lo: int, hi: int) {
    runs == [] || (lo <= runs[0].l && runs[0].r <= hi && Within(runs[1..], lo, hi))
  }

  /** The octet at position `x` is in one of the runs. */
  predicate Covered(runs: seq<Run>, x: int) {
    runs != [] && (runs[0].l <= x < runs[0].r || Covered(runs[1..], x))
  }

  function Smaller(a: int, b: int): int { if a <= b then a else b }

  function Larger(a: int, b: int): int { if a >= b then a else b }

  /** Add `[l, r)`, coalescing with every run it overlaps or touches. */
  function Insert(runs: seq<Run>, l: int, r: int): seq<Run> {
    if runs == [] then [Run(l, r)]
    else if runs[0].r < l then [runs[0]] + Insert(runs[1..], l, r)
    else if r < runs[0].l then [Run(l, r)] + runs
    else Insert(runs[1..], Smaller(l, runs[0].l), Larger(r, runs[0].r))
  }

  /** Drop what lies below `una`; clip a straddling run's left edge up to it. */
  function Trim(runs: seq<Run>, una: int): seq<Run> {
    if runs == [] then []
    else if runs[0].r <= una then Trim(runs[1..], una)
    else [Run(Larger(runs[0].l, una), runs[0].r)] + Trim(runs[1..], una)
  }

  /** Octets in runs that start above `x`. */
  function BytesAbove(runs: seq<Run>, x: int): int {
    if runs == [] then 0
    else (if runs[0].l > x then runs[0].r - runs[0].l else 0) + BytesAbove(runs[1..], x)
  }

  /** Runs that start above `x`. */
  function BlocksAbove(runs: seq<Run>, x: int): nat {
    if runs == [] then 0
    else (if runs[0].l > x then 1 else 0) + BlocksAbove(runs[1..], x)
  }

  lemma {:induction false} ByIndex(runs: seq<Run>, i: nat, lo: int, hi: int)
    requires WellFormed(runs) && i < |runs|
    ensures runs[i].l < runs[i].r
    ensures WellFormed(runs[i..]) && WellFormed(runs[..i])
    ensures i > 0 ==> runs[i - 1].r < runs[i].l && runs[0].r < runs[i].l
    ensures Within(runs, lo, hi) ==> lo <= runs[i].l && runs[i].r <= hi
  {
    if i > 0 {
      ByIndex(runs[1..], i - 1, lo, hi);
      assert runs[1..][i - 1..] == runs[i..];
      assert runs[1..][..i - 1] == runs[..i][1..];
    }
  }

  lemma {:induction false} Bounds(runs: seq<Run>, lo: int, hi: int)
    requires WellFormed(runs) && Within(runs, lo, hi)
    ensures forall i :: 0 <= i < |runs| ==> lo <= runs[i].l < runs[i].r <= hi
  {
    forall i | 0 <= i < |runs| ensures lo <= runs[i].l < runs[i].r <= hi { ByIndex(runs, i, lo, hi); }
  }

  lemma Ordered(runs: seq<Run>, i: int, j: int)
    requires WellFormed(runs)
    ensures 0 <= i < j < |runs| ==> runs[i].l < runs[i].r < runs[j].l < runs[j].r
  {
    if 0 <= i < j < |runs| {
      ByIndex(runs, i, 0, 0);
      ByIndex(runs[i..], j - i, 0, 0);
    }
  }

  lemma {:induction false} TailAbove(runs: seq<Run>, x: int)
    requires WellFormed(runs) && runs != []
    ensures Covered(runs[1..], x) ==> x > runs[0].r
  {
    if |runs| > 1 { TailAbove(runs[1..], x); }
  }

  lemma {:induction false} CoveredWithin(runs: seq<Run>, x: int, lo: int, hi: int)
    requires Within(runs, lo, hi) && Covered(runs, x)
    ensures lo <= x < hi
  {
    if !(runs[0].l <= x < runs[0].r) { CoveredWithin(runs[1..], x, lo, hi); }
  }

  lemma {:induction false} WithinWidens(runs: seq<Run>, lo: int, hi: int, lo': int, hi': int)
    requires Within(runs, lo, hi) && lo' <= lo && hi <= hi'
    ensures Within(runs, lo', hi')
  {
    if runs != [] { WithinWidens(runs[1..], lo, hi, lo', hi'); }
  }

  lemma {:induction false} Concat(a: seq<Run>, b: seq<Run>)
    requires WellFormed(a + b)
    ensures WellFormed(a) && WellFormed(b)
    ensures forall x :: Covered(a + b, x) <==> Covered(a, x) || Covered(b, x)
    ensures forall lo, hi :: Within(a + b, lo, hi) <==> Within(a, lo, hi) && Within(b, lo, hi)
  {
    if a == [] {
      assert a + b == b;
    } else {
      assert (a + b)[1..] == a[1..] + b;
      Concat(a[1..], b);
      assert |a| > 1 ==> (a + b)[1] == a[1];
    }
  }

  /** `Insert` is set union, keeps the list well formed, and adds at most one run. */
  lemma {:induction false} InsertExact(runs: seq<Run>, l: int, r: int)
    requires WellFormed(runs) && l < r
    ensures WellFormed(Insert(runs, l, r))
    ensures |Insert(runs, l, r)| <= |runs| + 1
    ensures forall x :: Covered(Insert(runs, l, r), x) <==> Covered(runs, x) || l <= x < r
    ensures forall lo, hi :: Within(runs, lo, hi) && lo <= l && r <= hi ==> Within(Insert(runs, l, r), lo, hi)
    ensures Insert(runs, l, r) != []
    ensures Insert(runs, l, r)[0].l == if runs == [] then l else Smaller(l, runs[0].l)
  {
    if runs != [] {
      if runs[0].r < l {
        InsertExact(runs[1..], l, r);
        assert Insert(runs, l, r)[1..] == Insert(runs[1..], l, r);
      } else if r < runs[0].l {
        assert Insert(runs, l, r)[1..] == runs;
      } else {
        InsertExact(runs[1..], Smaller(l, runs[0].l), Larger(r, runs[0].r));
      }
    }
  }

  /** `Trim` removes exactly the octets below `una`. */
  lemma {:induction false} TrimExact(runs: seq<Run>, una: int)
    requires WellFormed(runs)
    ensures WellFormed(Trim(runs, una))
    ensures |Trim(runs, una)| <= |runs|
    ensures forall x :: Covered(Trim(runs, una), x) <==> Covered(runs, x) && x >= una
    ensures forall hi :: Within(runs, una, hi) ==> Trim(runs, una) == runs
    ensures forall lo, hi :: Within(runs, lo, hi) ==> Within(Trim(runs, una), una, hi)
    ensures Trim(runs, una) != [] ==> Trim(runs, una)[0].l >= runs[0].l
  {
    if runs != [] {
      TrimExact(runs[1..], una);
      if runs[0].r > una {
        assert Trim(runs, una)[1..] == Trim(runs[1..], una);
      }
    }
  }

  // ── what the counts above an octet mean in terms of the set ──────────────────────────────────

  /** Octets of `[lo, hi)` that are in the set. */
  function CountCovered(runs: seq<Run>, lo: int, hi: int): nat
    decreases hi - lo
  {
    if lo >= hi then 0 else (if Covered(runs, lo) then 1 else 0) + CountCovered(runs, lo + 1, hi)
  }

  /** Octets of `[lo, hi)` that are in the set while the octet before them is not: one for each
      discontiguous block of the set that starts there. */
  function CountStarts(runs: seq<Run>, lo: int, hi: int): nat
    decreases hi - lo
  {
    if lo >= hi then 0
    else (if Covered(runs, lo) && !Covered(runs, lo - 1) then 1 else 0) + CountStarts(runs, lo + 1, hi)
  }

  function Overlap(run: Run, lo: int, hi: int): nat {
    var a, b := Larger(run.l, lo), Smaller(run.r, hi);
    if a < b then b - a else 0
  }

  /** The first run of a well-formed list contributes its own octets and one start. */
  lemma {:induction false} CountFirst(runs: seq<Run>, lo: int, hi: int)
    requires WellFormed(runs) && runs != []
    ensures CountCovered(runs, lo, hi) == Overlap(runs[0], lo, hi) + CountCovered(runs[1..], lo, hi)
    ensures CountStarts(runs, lo, hi) == (if lo <= runs[0].l < hi then 1 else 0) + CountStarts(runs[1..], lo, hi)
    decreases hi - lo
  {
    if lo < hi {
      CountFirst(runs, lo + 1, hi);
      TailAbove(runs, lo);
      TailAbove(runs, lo - 1);
    }
  }

  /** Above an octet that is not in the set, the sums over runs count the octets of the set and
      its discontiguous blocks. */
  lemma {:induction false} AboveCountsOctets(runs: seq<Run>, x: int, lo: int, hi: int)
    requires WellFormed(runs) && !Covered(runs, x) && Within(runs, lo, hi)
    ensures BytesAbove(runs, x) == CountCovered(runs, x + 1, hi)
    ensures BlocksAbove(runs, x) == CountStarts(runs, x + 1, hi)
  {
    if runs == [] {
      EmptyCounts(x + 1, hi);
    } else {
      CountFirst(runs, x + 1, hi);
      AboveCountsOctets(runs[1..], x, lo, hi);
    }
  }

  lemma {:induction false} EmptyCounts(lo: int, hi: int)
    ensures CountCovered([], lo, hi) == 0 && CountStarts([], lo, hi) == 0
    decreases hi - lo
  {
    if lo < hi { EmptyCounts(lo + 1, hi); }
  }

  lemma {:induction false} AboveIsMonotone(runs: seq<Run>, x: int, y: int)
    requires WellFormed(runs) && x <= y
    ensures 0 <= BytesAbove(runs, y) <= BytesAbove(runs, x)
    ensures BlocksAbove(runs, y) <= BlocksAbove(runs, x)
  {
    if runs != [] { AboveIsMonotone(runs[1..], x, y); }
  }

  /** Trimming does not change what is counted above an octet that survives it. */
  lemma {:induction false} AboveSurvivesTrim(runs: seq<Run>, una: int, x: int)
    requires WellFormed(runs) && una <= x
    ensures BytesAbove(Trim(runs, una), x) == BytesAbove(runs, x)
    ensures BlocksAbove(Trim(runs, una), x) == BlocksAbove(runs, x)
  {
    if runs != [] {
      AboveSurvivesTrim(runs[1..], una, x);
      if runs[0].r > una {
        assert Trim(runs, una)[1..] == Trim(runs[1..], una);
      }
    }
  }
}
