/** Serial-number arithmetic for 32-bit TCP sequence numbers (tcp-core/src/seq.rs, RFC 1982).

    The rest of the project speaks of *positions*: unbounded integers that count octets of a
    stream and never wrap. `Wire` is what a position looks like on the wire. The lemmas here
    say when a comparison made on wire values is the comparison of the positions. */
module Serial {

  const MOD: int := 0x1_0000_0000
  const HALF: int := 0x8000_0000

  type u32 = x: int | 0 <= x < 0x1_0000_0000

  /** The 32-bit sequence number carried for a stream position. */
  function Wire(p: int): u32 {
    p % MOD
  }

  /** Signed distance `a - b`: the wrapped difference reinterpreted as an i32. */
  function Distance(a: u32, b: u32): int {
    var d := (a - b) % MOD;
    if d < HALF then d else d - MOD
  }

  /** Unsigned forward offset `a - b`. */
  function OffsetFrom(a: u32, b: u32): u32 {
    (a - b) % MOD
  }

  predicate Lt(a: u32, b: u32) { Distance(a, b) < 0 }
  predicate Le(a: u32, b: u32) { Distance(a, b) <= 0 }
  predicate Gt(a: u32, b: u32) { Distance(a, b) > 0 }
  predicate Ge(a: u32, b: u32) { Distance(a, b) >= 0 }

  function Min(a: u32, b: u32): u32 { if Le(a, b) then a else b }
  function Max(a: u32, b: u32): u32 { if Ge(a, b) then a else b }

  /** `seq + n`, wrapping. */
  function Add(a: u32, n: nat): u32 {
    (a + n) % MOD
  }

  /** `u32::saturating_add`. */
  function SatAdd(a: nat, b: nat): u32 {
    if a + b < MOD then a + b else MOD - 1
  }

  /** The position nearest to `center` that carries the wire value `w`. */
  function Unwrap(center: int, w: u32): int {
    center + Distance(w, Wire(center))
  }

  lemma AddIsWire(p: int, n: nat)
    ensures Add(Wire(p), n) == Wire(p + n)
  {}

  /** Two positions are less than half the space apart: every wire comparison is the comparison
      of the positions. */
  lemma Agree(x: int, y: int)
    requires -HALF <= x - y < HALF
    ensures Distance(Wire(x), Wire(y)) == x - y
    ensures Lt(Wire(x), Wire(y)) <==> x < y
    ensures Le(Wire(x), Wire(y)) <==> x <= y
    ensures Gt(Wire(x), Wire(y)) <==> x > y
    ensures Ge(Wire(x), Wire(y)) <==> x >= y
    ensures Wire(x) == Wire(y) <==> x == y
  {
    var k := x / MOD - y / MOD;
    assert x - y == k * MOD + (Wire(x) - Wire(y));
    WireDifference(x, y);
  }

  lemma WireDifference(x: int, y: int)
    ensures (Wire(x) - Wire(y)) % MOD == (x - y) % MOD
  {
    assert x == x / MOD * MOD + Wire(x);
    assert y == y / MOD * MOD + Wire(y);
    assert (x - y) % MOD == (Wire(x) - Wire(y) + (x / MOD - y / MOD) * MOD) % MOD;
  }

  /** Two positions of a window compare on the wire as they do. */
  lemma SerialInWindow(x: int, y: int, lo: int, hi: int)
    requires lo <= x <= hi && lo <= y <= hi && hi - lo < HALF
    ensures Lt(Wire(x), Wire(y)) <==> x < y
    ensures Le(Wire(x), Wire(y)) <==> x <= y
    ensures Gt(Wire(x), Wire(y)) <==> x > y
    ensures Ge(Wire(x), Wire(y)) <==> x >= y
  {
    Agree(x, y);
  }

  /** Forward offsets reach twice as far as signed distances. */
  lemma OffsetAgrees(x: int, y: int)
    requires 0 <= x - y < MOD
    ensures OffsetFrom(Wire(x), Wire(y)) == x - y
  {
    WireDifference(x, y);
  }

  lemma MinMaxAgree(x: int, y: int)
    requires -HALF < x - y < HALF
    ensures Min(Wire(x), Wire(y)) == Wire(if x <= y then x else y)
    ensures Max(Wire(x), Wire(y)) == Wire(if x >= y then x else y)
  {
    Agree(x, y);
  }

  /** Every wire value is the image of a position within half the space of a centre; that it is the
      only one is `WireIsInverse`. */
  lemma UnwrapIsInverse(center: int, w: u32)
    ensures Wire(Unwrap(center, w)) == w
    ensures center - HALF <= Unwrap(center, w) < center + HALF
  {
    var d := Distance(w, Wire(center));
    WireDifference(center + d, center);
    assert (Wire(center + d) - w) % MOD == 0 by {
      assert (center + d - center) % MOD == (w - Wire(center)) % MOD;
    }
  }

  lemma WireIsInverse(center: int, p: int)
    requires center - HALF <= p < center + HALF
    ensures Unwrap(center, Wire(p)) == p
  {
    Agree(p, center);
  }

  /** The order is antisymmetric everywhere but at exactly half the space apart, where each of two
      numbers is before the other: the reason windows must stay below 2^31. */
  lemma BothBeforeOnlyAtHalf(a: u32, b: u32)
    ensures Lt(a, b) && Lt(b, a) <==> OffsetFrom(a, b) == HALF
    ensures !Lt(a, b) && !Lt(b, a) <==> a == b
  {}
}
