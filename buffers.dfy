/** The byte vector (`Vec<u8>`) that the key generator grows with `reserve`,
    hands to the native library through `as_mut_ptr`, and fixes with `set_len`.

    The allocation is modelled as the sequence `mem` whose length is the
    capacity; `len` is the logical length. Memory that `reserve` adds is not
    initialised in the original; here it reads as zero bytes. */
module Buffers {

  newtype byte = b: int | 0 <= b < 0x100

  /** `n` bytes of fresh, not yet written memory. */
  function Zeros(n: nat): (z: seq<byte>)
    ensures |z| == n
    ensures forall i :: 0 <= i < n ==> z[i] == 0
  {
    seq(n, _ => 0)
  }

  /** The allocation `mem` after `bytes` were written at its start through a raw pointer. */
  function Overwrite(mem: seq<byte>, bytes: seq<byte>): (r: seq<byte>)
    requires |bytes| <= |mem|
    ensures |r| == |mem|
    ensures r[..|bytes|] == bytes
    ensures r[|bytes|..] == mem[|bytes|..]
  {
    bytes + mem[|bytes|..]
  }

  class ByteVec {
    var mem: seq<byte>
    var len: nat

    ghost predicate Valid()
      reads this
    {
      len <= |mem|
    }

    function Capacity(): nat
      reads this
    {
      |mem|
    }

    /** The initialised prefix, what the vector holds as a slice. */
    function Contents(): (s: seq<byte>)
      reads this
      requires Valid()
      ensures |s| == len
    {
      mem[..len]
    }

    /** `Vec::new()`: no allocation, no elements. */
    constructor ()
      ensures Valid()
      ensures mem == [] && len == 0
    {
      mem := [];
      len := 0;
    }

    /** `Vec::reserve(additional)`: afterwards there is room for `len + additional`
        elements; the elements already held are kept. This model allocates exactly
        what is missing and nothing when the capacity already suffices. */
    method Reserve(additional: nat)
      requires Valid()
      modifies this`mem
      ensures Valid()
      ensures Capacity() >= len + additional
      ensures Contents() == old(Contents())
      ensures old(Capacity()) >= len + additional ==> mem == old(mem)
      ensures old(Capacity()) < len + additional ==>
                mem == old(mem) + Zeros(len + additional - old(Capacity()))
    {
      if |mem| < len + additional {
        mem := mem + Zeros(len + additional - |mem|);
      }
    }

    /** What the native library does through `as_mut_ptr()`: it stores `bytes`
        at the start of the allocation, never past its end. */
    method Write(bytes: seq<byte>)
      requires Valid()
      requires |bytes| <= Capacity()
      modifies this`mem
      ensures Valid()
      ensures mem == Overwrite(old(mem), bytes)
    {
      mem := Overwrite(mem, bytes);
    }

    /** `Vec::set_len(n)`, whose safety condition is `n <= capacity()`. */
    method SetLen(n: nat)
      requires n <= Capacity()
      modifies this`len
      ensures Valid()
      ensures len == n
    {
      len := n;
    }
  }
}
