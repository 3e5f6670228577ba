/** The fixed-capacity buffer that keeps the last bytes of a subprocess's standard error. */
module RingBuffer {
  type Byte = bv8

  /** The last `n` elements, or all of them when there are fewer. */
  function Last(s: seq<Byte>, n: nat): seq<Byte> { if |s| <= n then s else s[|s| - n..] }

  /** What a buffer with write position `w` holds, oldest byte first. */
  function Held(buf: seq<Byte>, w: nat, full: bool): seq<Byte>
    requires w <= |buf|
  {
    if full then buf[w..] + buf[..w] else buf[..w]
  }

  predicate Holds(buf: seq<Byte>, w: nat, full: bool, written: seq<Byte>) {
    && w < |buf| && Held(buf, w, full) == Last(written, |buf|)
    && (if full then |written| >= |buf| else |written| == w)
  }

  /** Overwriting the byte at `w` and advancing, wrapping at the end, drops the oldest byte. */
  lemma WriteOne(buf: seq<Byte>, w: nat, full: bool, written: seq<Byte>, b: Byte)
    requires Holds(buf, w, full, written)
    ensures var wraps := w + 1 == |buf|;
      Holds(buf[w := b], if wraps then 0 else w + 1, full || wraps, written + [b])
  {
    var buf' := buf[w := b];
    if full {
      assert buf'[w + 1..] + buf'[..w + 1] == (buf[w..] + buf[..w])[1..] + [b];
      assert Last(written + [b], |buf|) == Last(written, |buf|)[1..] + [b];
      if w + 1 == |buf| {
        assert buf'[0..] + buf'[..0] == buf'[w + 1..] + buf'[..w + 1];
      }
    } else {
      assert buf'[..w + 1] == buf[..w] + [b];
      if w + 1 == |buf| {
        assert buf'[0..] + buf'[..0] == buf'[..w + 1];
      }
    }
  }

  function Appended(s: seq<Byte>, p: seq<Byte>, n: nat): seq<Byte>
    requires n <= |p|
  {
    s + p[..n]
  }

  lemma AppendOne(s: seq<Byte>, p: seq<Byte>, n: nat)
    requires n < |p|
    ensures Appended(s, p, n + 1) == Appended(s, p, n) + [p[n]]
  {
  }

  class Ring {
    const buf: array<Byte>
    var w: nat
    var full: bool
    ghost var written: seq<Byte> // everything ever written

    ghost predicate Valid()
      reads this, buf
    {
      Holds(buf[..], w, full, written)
    }

    constructor (capacity: nat)
      requires capacity > 0
      ensures Valid() && fresh(buf) && buf.Length == capacity && written == []
    {
      buf := new Byte[capacity](_ => 0);
      w := 0;
      full := false;
      written := [];
    }

    /** The body of the loop of `Write`. */
    method WriteByte(b: Byte)
      requires Valid()
      modifies this, buf
      ensures Valid() && written == old(written) + [b]
    {
      WriteOne(buf[..], w, full, written, b);
      ghost var before := buf[..];
      buf[w] := b;
      assert buf[..] == before[w := b];
      written := written + [b];
      w := w + 1;
      if w == buf.Length {
        w := 0;
        full := true;
      }
    }

    method Write(p: seq<Byte>) returns (n: nat)
      requires Valid()
      modifies this, buf
      ensures Valid()
      ensures n == |p| && written == old(written) + p
    {
      ghost var before := written;
      for i := 0 to |p|
        invariant Valid() && written == Appended(before, p, i)
      {
        WriteByte(p[i]);
        AppendOne(before, p, i);
      }
      assert p[..|p|] == p;
      n := |p|;
    }

    /** Exactly the last bytes written, as many as fit, in order. */
    method String() returns (s: seq<Byte>)
      requires Valid()
      ensures s == Last(written, buf.Length)
    {
      if !full { return buf[..w]; }
      s := buf[w..];
      s := s + buf[..w];
    }
  }
}
