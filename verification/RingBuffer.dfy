/** The bounded byte queue of tcp-core/src/buffers.rs. */
module Buffers {
  import opened Reassembly

  class RingBuffer {
    var buf: seq<byte>
    const capacity: nat

    predicate Valid()
      reads this
    {
      |buf| <= capacity
    }

    constructor (capacity: nat)
      ensures Valid() && buf == [] && this.capacity == capacity
    {
      this.capacity := capacity;
      buf := [];
    }

    function Free(): nat
      requires Valid()
      reads this
    {
      capacity - |buf|
    }

    /** Append what fits; the rest is refused. */
    method Write(data: seq<byte>) returns (n: nat)
      requires Valid()
      modifies this
      ensures Valid() && n <= |data| && buf == old(buf) + data[..n]
      ensures n == |data| || |buf| == capacity
      ensures n == if |data| <= capacity - |old(buf)| then |data| else capacity - |old(buf)|
    {
      n := if |data| <= Free() then |data| else Free();
      buf := buf + data[..n];
    }

    /** Copy bytes from `offset` on without removing them. */
    method Peek(offset: nat, dst: array<byte>) returns (n: nat)
      requires Valid()
      modifies dst
      ensures n == if offset >= |buf| then 0 else if dst.Length <= |buf| - offset then dst.Length else |buf| - offset
      ensures n > 0 ==> dst[..n] == buf[offset..offset + n]
      ensures dst[n..] == old(dst[n..])
    {
      n := 0;
      while offset + n < |buf| && n < dst.Length
        invariant n <= dst.Length && (n > 0 ==> offset + n <= |buf|)
        invariant n > 0 ==> dst[..n] == buf[offset..offset + n]
        invariant forall i :: n <= i < dst.Length ==> dst[i] == old(dst[i])
      {
        dst[n] := buf[offset + n];
        n := n + 1;
      }
    }

    /** Drop bytes off the front. */
    method Consume(k: nat) returns (n: nat)
      requires Valid()
      modifies this
      ensures Valid() && n == (if k <= |old(buf)| then k else |old(buf)|) && buf == old(buf)[n..]
    {
      n := if k <= |buf| then k else |buf|;
      buf := buf[n..];
    }

    /** Pop bytes off the front into `dst`. */
    method Read(dst: array<byte>) returns (n: nat)
      requires Valid()
      modifies this, dst
      ensures Valid() && n == if dst.Length <= |old(buf)| then dst.Length else |old(buf)|
      ensures old(buf) == dst[..n] + buf
      ensures dst[n..] == old(dst[n..])
    {
      n := if dst.Length <= |buf| then dst.Length else |buf|;
      var i := 0;
      while i < n
        invariant 0 <= i <= n <= dst.Length && |buf| == |old(buf)| - i
        invariant n <= |old(buf)| <= capacity
        invariant old(buf) == dst[..i] + buf
        invariant forall k :: n <= k < dst.Length ==> dst[k] == old(dst[k])
      {
        dst[i] := buf[0];
        buf := buf[1..];
        i := i + 1;
      }
    }
  }
}
