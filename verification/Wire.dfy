/** Bytes on the wire, and the bounded writer every message is built with. */
module Wire {
  import opened Inet

  type Byte = b: nat | b < 256

  type Bytes = seq<Byte>

  // ----- integers in network order

  function U16(x: nat): (b: Bytes)
    requires x < 0x1_0000
    ensures |b| == 2
  {
    [x / 256, x % 256]
  }

  function U32(x: nat): (b: Bytes)
    requires x < 0x1_0000_0000
    ensures |b| == 4
  {
    U16(x / 0x1_0000) + U16(x % 0x1_0000)
  }

  function Get16(b: Bytes, i: nat): (x: nat)
    requires i + 2 <= |b|
    ensures x < 0x1_0000
  {
    (b[i] as nat) * 256 + b[i + 1] as nat
  }

  function Get32(b: Bytes, i: nat): (x: nat)
    requires i + 4 <= |b|
    ensures x < 0x1_0000_0000
  {
    Get16(b, i) * 0x1_0000 + Get16(b, i + 2)
  }

  /** `b` has `s` at `i`. */
  predicate At(b: Bytes, i: nat, s: Bytes) {
    i + |s| <= |b| && b[i..i + |s|] == s
  }

  lemma AtFits(b: Bytes, i: nat, s: Bytes)
    requires At(b, i, s)
    ensures i + |s| <= |b|
  {
  }

  lemma AtSplit(b: Bytes, i: nat, s: Bytes, t: Bytes)
    requires At(b, i, s + t)
    ensures At(b, i, s) && At(b, i + |s|, t)
  {
    assert b[i..i + |s|] == (s + t)[..|s|];
    assert b[i + |s|..i + |s| + |t|] == (s + t)[|s|..];
  }

  lemma AtIndex(b: Bytes, i: nat, s: Bytes, j: nat)
    requires At(b, i, s) && j < |s|
    ensures b[i + j] == s[j]
  {
  }

  lemma Read16(b: Bytes, i: nat, x: nat)
    requires x < 0x1_0000 && At(b, i, U16(x))
    ensures Get16(b, i) == x
  {
    AtIndex(b, i, U16(x), 0);
    AtIndex(b, i, U16(x), 1);
  }

  lemma Read32(b: Bytes, i: nat, x: nat)
    requires x < 0x1_0000_0000 && At(b, i, U32(x))
    ensures Get32(b, i) == x
  {
    AtSplit(b, i, U16(x / 0x1_0000), U16(x % 0x1_0000));
    Read16(b, i, x / 0x1_0000);
    Read16(b, i + 2, x % 0x1_0000);
  }

  // ----- encoded addresses

  predicate U32Addr(a: Addr) {
    a < 0x1_0000_0000
  }

  /** pim_put_euaddr */
  function Unicast(a: Addr): (b: Bytes)
    requires U32Addr(a)
    ensures |b| == 6
  {
    [1, 0] + U32(a)
  }

  /** pim_put_egaddr */
  function GroupAddr(a: Addr, masklen: nat): (b: Bytes)
    requires U32Addr(a) && masklen <= 32
    ensures |b| == 8
  {
    MaskKeeps(a, masklen);
    [1, 0, 0, masklen] + U32(MaskedTo(a, masklen))
  }

  predicate IPv4(b: Bytes, at: nat)
    requires at + 2 <= |b|
  {
    b[at] == 1 && b[at + 1] == 0
  }

  lemma ReadUnicast(b: Bytes, at: nat, a: Addr)
    requires U32Addr(a) && At(b, at, Unicast(a))
    ensures IPv4(b, at) && Get32(b, at + 2) == a
  {
    AtSplit(b, at, [1, 0], U32(a));
    AtIndex(b, at, [1, 0], 0);
    AtIndex(b, at, [1, 0], 1);
    Read32(b, at + 2, a);
  }

  lemma ReadGroupAddr(b: Bytes, at: nat, a: Addr, masklen: nat)
    requires U32Addr(a) && masklen <= 32 && At(b, at, GroupAddr(a, masklen))
    ensures IPv4(b, at) && b[at + 3] == masklen && Get32(b, at + 4) == MaskedTo(a, masklen)
  {
    MaskKeeps(a, masklen);
    var s := [1, 0, 0, masklen];
    AtSplit(b, at, s, U32(MaskedTo(a, masklen)));
    AtIndex(b, at, s, 0);
    AtIndex(b, at, s, 1);
    AtIndex(b, at, s, 3);
    Read32(b, at + 4, MaskedTo(a, masklen));
  }

  // ----- the writer

  /** struct pim_writer: writes between `start` and `end` of the buffer, `p` being next.  Once a put
      does not fit the writer is full and takes nothing more. */
  class Writer {
    const buf: array<Byte>
    const start: nat
    const end: nat
    var p: nat
    var full: bool

    ghost predicate Valid()
      reads this
    {
      start <= p <= end <= buf.Length
    }

    function Left(): nat
      requires Valid()
      reads this
    {
      end - p
    }

    /** What has been written. */
    function Written(): Bytes
      requires Valid()
      reads this, buf
    {
      buf[start..p]
    }

    constructor (buf: array<Byte>, start: nat, end: nat)
      requires start <= end <= buf.Length
      ensures Valid() && this.buf == buf && this.start == start && this.end == end && !full && Written() == []
    {
      this.buf, this.start, this.end, p, full := buf, start, end, start, false;
    }

    /** pim_writer_room */
    method Room(n: nat) returns (r: bool)
      requires Valid()
      ensures r <==> !full && n <= Left()
    {
      return !full && n <= end - p;
    }

    /** pim_put: all of `s`, or nothing and the writer full.  No byte before or after it changes. */
    method Put(s: Bytes)
      requires Valid()
      modifies this, buf
      ensures Valid()
      ensures full <==> old(full) || |s| > old(Left())
      ensures !full ==> p == old(p) + |s| && Written() == old(Written()) + s
      ensures full ==> p == old(p)
      ensures forall j :: 0 <= j < buf.Length && !(old(p) <= j < p) ==> buf[j] == old(buf[j])
    {
      if full || |s| > end - p {
        full := true;
        return;
      }
      var i := 0;
      while i < |s|
        invariant 0 <= i <= |s| && Valid() && p == old(p) && !full && p + |s| <= end
        invariant forall j :: 0 <= j < buf.Length ==> buf[j] == if p <= j < p + i then s[j - p] else old(buf[j])
      {
        buf[p + i] := s[i];
        i := i + 1;
      }
      p := p + |s|;
    }
  }

  function Concat(parts: seq<Bytes>): Bytes {
    if parts == [] then [] else Concat(parts[..|parts| - 1]) + parts[|parts| - 1]
  }

  lemma ConcatAdd(parts: seq<Bytes>, s: Bytes)
    ensures Concat(parts + [s]) == Concat(parts) + s
  {
    assert (parts + [s])[..|parts|] == parts;
  }

  lemma ConcatFive(a: Bytes, b: Bytes, c: Bytes, d: Bytes, e: Bytes)
    ensures Concat([a, b, c, d, e]) == a + b + c + d + e
  {
    ConcatAdd([], a);
    ConcatAdd([a], b);
    ConcatAdd([a, b], c);
    ConcatAdd([a, b, c], d);
    ConcatAdd([a, b, c, d], e);
    assert [] + [a] == [a] && [a] + [b] == [a, b] && [a, b] + [c] == [a, b, c];
    assert [a, b, c] + [d] == [a, b, c, d] && [a, b, c, d] + [e] == [a, b, c, d, e];
  }

  lemma {:induction false} ConcatLength(parts: seq<Bytes>, i: nat)
    requires i <= |parts|
    ensures |Concat(parts[..i])| <= |Concat(parts)|
    decreases |parts|
  {
    if i < |parts| {
      ConcatLength(parts[..|parts| - 1], i);
      assert parts[..|parts| - 1][..i] == parts[..i];
    } else {
      assert parts[..i] == parts;
    }
  }

  /** A run of puts: all the parts written, or the writer full; nothing outside what it owns changes. */
  method PutAll(w: Writer, parts: seq<Bytes>)
    requires w.Valid()
    modifies w, w.buf
    ensures w.Valid() && old(w.p) <= w.p
    ensures w.full <==> old(w.full) || |Concat(parts)| > old(w.Left())
    ensures !w.full ==> w.p == old(w.p) + |Concat(parts)| && w.Written() == old(w.Written()) + Concat(parts)
    ensures forall j :: 0 <= j < w.buf.Length && !(old(w.p) <= j < w.p) ==> w.buf[j] == old(w.buf[j])
  {
    var i := 0;
    while i < |parts|
      invariant 0 <= i <= |parts| && w.Valid() && old(w.p) <= w.p
      invariant w.full <==> old(w.full) || |Concat(parts[..i])| > old(w.Left())
      invariant !w.full ==>
                w.p == old(w.p) + |Concat(parts[..i])| && w.Written() == old(w.Written()) + Concat(parts[..i])
      invariant forall j :: 0 <= j < w.buf.Length && !(old(w.p) <= j < w.p) ==> w.buf[j] == old(w.buf[j])
    {
      assert parts[..i + 1][..i] == parts[..i];
      ConcatLength(parts, i);
      w.Put(parts[i]);
      i := i + 1;
    }
    assert parts[..|parts|] == parts;
  }
}
