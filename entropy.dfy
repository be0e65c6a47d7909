/** The random source of a fill run. The PCG64 generator itself is not
    modelled: a generator is any function from a seed to an endless stream of
    bytes, the little-endian bytes of its successive 64-bit outputs, and the
    run reads that stream from the front, a buffer at a time. */
module Entropy {

  newtype byte = x: int | 0 <= x < 256

  type Stream = nat -> byte

  /** The two constants a PCG64 generator is created from. */
  datatype Seed = Seed(state: nat, increment: nat)

  /** The fixed seed of every fill run (src/main.rs:119); it is what makes two
      runs with the same options write the same keys and values. */
  const FILL_SEED: Seed := Seed(0xcafef00dd15ea5e5, 0x60e11a7bf9cb254560e11a7bf9cb2545)

  /** How far a buffer of `len` bytes advances the stream. The generator
      hands out whole 64-bit words: the buffer takes `len` rounded up to a
      multiple of 8, and the unused bytes of its last word are dropped. */
  function Drawn(len: nat): (d: nat)
    ensures len <= d < len + 8 && d % 8 == 0
  {
    8 * ((len + 7) / 8)
  }

  /** The `len` bytes of the stream starting at position `from`. */
  function Window(bytes: Stream, from: nat, len: nat): (w: seq<byte>)
    ensures |w| == len
  {
    seq(len, i requires 0 <= i < len => bytes(from + i))
  }

  /** A generator in use: the stream it produces and how much of it has been
      handed out. */
  class Pcg64 {
    const bytes: Stream
    var pos: nat

    constructor (gen: Seed -> Stream, seed: Seed)
      ensures bytes == gen(seed) && pos == 0
    {
      bytes := gen(seed);
      pos := 0;
    }

    /** Overwrites all of `buf` with the next `buf.Length` bytes of the
        stream, then moves past the rest of the last word it drew from. */
    method FillBytes(buf: array<byte>)
      modifies this, buf
      ensures buf[..] == Window(bytes, old(pos), buf.Length)
      ensures pos == old(pos) + Drawn(buf.Length)
    {
      var from := pos;
      for i := 0 to buf.Length
        invariant forall k :: 0 <= k < i ==> buf[k] == bytes(from + k)
      {
        buf[i] := bytes(from + i);
      }
      pos := from + Drawn(buf.Length);
    }
  }
}
