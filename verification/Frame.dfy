/** IP fragmentation in place: a frame that is too long for the path is halved, and the header of the
    second half is written over payload that has already gone. */
module Frame {
  import opened Wire

  const HDR := 20        // sizeof(struct ip)
  const MF := 0x2000     // more fragments, in ip_off

  // ----- IP headers

  /** htons(x), stored at `i`. */
  function Store(f: seq<Byte>, i: nat, x: nat): (g: seq<Byte>)
    requires i + 1 < |f| && x < 0x1_0000
    ensures |g| == |f| && Get16(g, i) == x
    ensures forall j :: 0 <= j < |f| && j != i && j != i + 1 ==> g[j] == f[j]
  {
    f[i := x / 256][i + 1 := x % 256]
  }

  function Len(f: seq<Byte>): nat
    requires |f| >= HDR
  {
    Get16(f, 2)
  }

  /** ip_off: the flags and the offset, in units of eight bytes. */
  function Off(f: seq<Byte>): nat
    requires |f| >= HDR
  {
    Get16(f, 6)
  }

  function More(off: nat): nat {
    if off / MF % 2 == 1 then off else off + MF
  }

  /** The headers agree on all but the length and the offset. */
  ghost predicate SameHeader(f: seq<Byte>, g: seq<Byte>)
    requires |f| >= HDR && |g| >= HDR
  {
    forall j :: 0 <= j < HDR && j != 2 && j != 3 && j != 6 && j != 7 ==> f[j] == g[j]
  }

  /** A frame that is whole: its length field is its length, and its payload ends within what an
      offset can say. */
  ghost predicate Whole(f: seq<Byte>) {
    |f| >= HDR && Len(f) == |f| && Off(f) < 0x8000 && Off(f) % MF * 8 + (|f| - HDR) <= 0xffff
  }

  // ----- fragments

  /** `g` is the fragment of `f` that carries its payload from `p` on: every fragment but the last
      has MF and ends on a multiple of eight. */
  ghost predicate Piece(f: seq<Byte>, g: seq<Byte>, p: nat) {
    && |f| >= HDR && |g| >= HDR && p + |g| <= |f| && p % 8 == 0
    && g[HDR..] == f[HDR + p..p + |g|]
    && SameHeader(f, g) && Len(g) == |g|
    && if p + |g| < |f| then Off(g) == More(Off(f)) + p / 8 && (p + |g| - HDR) % 8 == 0
       else Off(g) == Off(f) + p / 8
  }

  /** The frames `gs`, in order, carry the payload of `f` from 0 up to `q`. */
  ghost predicate Covers(f: seq<Byte>, gs: seq<seq<Byte>>, q: nat) {
    if gs == [] then q == 0
    else
      var g := gs[|gs| - 1];
      |g| >= HDR && q >= |g| - HDR && Piece(f, g, q - (|g| - HDR)) && Covers(f, gs[..|gs| - 1], q - (|g| - HDR))
  }

  /** The frames `gs`, in order, carry a leading part of the payload of `f`. */
  ghost predicate CoversPart(f: seq<Byte>, gs: seq<seq<Byte>>) {
    exists q: nat :: q + HDR <= |f| && Covers(f, gs, q)
  }

  /** The length of the first half's payload. */
  function Half(len: nat): (n: nat)
    requires len >= HDR
    ensures n <= (len - HDR) / 2 && n % 8 == 0
    ensures 68 < len ==> 24 <= n
  {
    (len - HDR) / 2 / 8 * 8
  }

  ghost function First(f: seq<Byte>, n: nat): (g: seq<Byte>)
    requires Whole(f) && HDR + n < |f|
  {
    Store(Store(f[..HDR + n], 2, HDR + n), 6, More(Off(f)))
  }

  ghost function Second(f: seq<Byte>, n: nat): (g: seq<Byte>)
    requires Whole(f) && HDR + n < |f| && n % 8 == 0
  {
    Store(Store(f[..HDR] + f[HDR + n..], 2, |f| - n), 6, Off(f) + n / 8)
  }

  lemma MoreAdds(off: nat, k: nat)
    requires off < 0x8000 && off % MF + k < MF
    ensures More(off) < 0x8000 && More(off) % MF == off % MF && More(More(off)) == More(off)
    ensures off + k < 0x8000 && (off + k) % MF == off % MF + k && More(off + k) == More(off) + k
  {
    assert (off + k) / MF == off / MF;
  }

  lemma FirstWhole(f: seq<Byte>, n: nat)
    requires Whole(f) && HDR + n < |f|
    ensures var g := First(f, n);
            && Whole(g) && |g| == HDR + n && Off(g) == More(Off(f)) && SameHeader(f, g)
            && forall j :: HDR <= j < |g| ==> g[j] == f[j]
  {
    MoreAdds(Off(f), 0);
    var g := Store(f[..HDR + n], 2, HDR + n);
    assert Store(g, 6, More(Off(f)))[2] == g[2];
  }

  lemma SecondWhole(f: seq<Byte>, n: nat)
    requires Whole(f) && HDR + n < |f| && n % 8 == 0
    ensures var g := Second(f, n);
            && Whole(g) && |g| == |f| - n && Off(g) == Off(f) + n / 8 && SameHeader(f, g)
            && forall j :: HDR <= j < |g| ==> g[j] == f[j + n]
  {
    MoreAdds(Off(f), n / 8);
    var g := Store(f[..HDR] + f[HDR + n..], 2, |f| - n);
    assert Store(g, 6, Off(f) + n / 8)[2] == g[2];
  }

  /** A fragment of the first half is a fragment of the frame. */
  lemma FirstPiece(f: seq<Byte>, n: nat, g: seq<Byte>, p: nat)
    requires Whole(f) && HDR + n < |f| && n % 8 == 0 && Piece(First(f, n), g, p)
    ensures Piece(f, g, p)
  {
    FirstWhole(f, n);
    MoreAdds(Off(f), 0);
    assert forall j :: HDR <= j < |g| ==> g[j] == g[HDR..][j - HDR];
  }

  lemma SecondBytes(f: seq<Byte>, n: nat, g: seq<Byte>, p: nat)
    requires Whole(f) && HDR + n < |f| && n % 8 == 0 && |g| >= HDR && |Second(f, n)| == |f| - n && p + |g| <= |f| - n
    requires g[HDR..] == Second(f, n)[HDR + p..p + |g|]
    requires forall j :: HDR <= j < |f| - n ==> Second(f, n)[j] == f[j + n]
    ensures g[HDR..] == f[HDR + (n + p)..(n + p) + |g|]
  {
    forall j | 0 <= j < |g| - HDR ensures g[HDR..][j] == f[HDR + (n + p)..(n + p) + |g|][j] {
      assert Second(f, n)[HDR + p..p + |g|][j] == Second(f, n)[HDR + p + j];
    }
  }

  /** A fragment of the second half is a fragment of the frame, further on. */
  lemma SecondPiece(f: seq<Byte>, n: nat, g: seq<Byte>, p: nat)
    requires Whole(f) && HDR + n < |f| && n % 8 == 0 && Piece(Second(f, n), g, p)
    ensures Piece(f, g, n + p)
  {
    SecondWhole(f, n);
    SecondOffset(f, n, p, |g|);
    hide Second, More, Whole, Off, Len, SameHeader;
    SecondBytes(f, n, g, p);
    SameHeaderTrans(f, Second(f, n), g);
  }

  lemma SameHeaderTrans(f: seq<Byte>, g: seq<Byte>, h: seq<Byte>)
    requires |f| >= HDR && |g| >= HDR && |h| >= HDR && SameHeader(f, g) && SameHeader(g, h)
    ensures SameHeader(f, h)
  {
  }

  lemma SecondOffset(f: seq<Byte>, n: nat, p: nat, len: nat)
    requires Whole(f) && HDR + n < |f| && n % 8 == 0 && p % 8 == 0 && len >= HDR
    ensures (n + p) % 8 == 0
    ensures Off(f) + n / 8 + p / 8 == Off(f) + (n + p) / 8 && More(Off(f) + n / 8) + p / 8 == More(Off(f)) + (n + p) / 8
    ensures (p + len - HDR) % 8 == 0 ==> (n + p + len - HDR) % 8 == 0
  {
    MoreAdds(Off(f), n / 8);
    assert n == 8 * (n / 8) && p == 8 * (p / 8);
    assert n + p == 8 * (n / 8 + p / 8);
  }

  lemma {:induction false} FirstCovers(f: seq<Byte>, n: nat, gs: seq<seq<Byte>>, q: nat)
    requires Whole(f) && HDR + n < |f| && n % 8 == 0 && Covers(First(f, n), gs, q)
    ensures Covers(f, gs, q)
  {
    hide Piece;
    if gs != [] {
      var g := gs[|gs| - 1];
      FirstPiece(f, n, g, q - (|g| - HDR));
      FirstCovers(f, n, gs[..|gs| - 1], q - (|g| - HDR));
    }
  }

  lemma {:induction false} SecondCovers(f: seq<Byte>, n: nat, gs: seq<seq<Byte>>, hs: seq<seq<Byte>>, q: nat)
    requires Whole(f) && HDR + n < |f| && n % 8 == 0 && Covers(f, gs, n) && Covers(Second(f, n), hs, q)
    ensures Covers(f, gs + hs, n + q)
  {
    hide Piece;
    if hs != [] {
      var h, all := hs[|hs| - 1], gs + hs;
      SecondPiece(f, n, h, q - (|h| - HDR));
      SecondCovers(f, n, gs, hs[..|hs| - 1], q - (|h| - HDR));
      assert all[..|all| - 1] == gs + hs[..|hs| - 1];
    } else {
      assert gs + hs == gs;
    }
  }

  lemma WholePiece(f: seq<Byte>)
    requires Whole(f)
    ensures Piece(f, f, 0) && Covers(f, [f], |f| - HDR)
  {
    assert [f][..0] == [];
  }

  // ----- the socket

  datatype Answer = Sent | Interrupted | TooLong | Failed

  /** What can happen to a sendto: a signal, an error, the path's MTU changing before it. */
  datatype Event = Signal | Error | Mtu(mtu: nat)

  /** The raw socket: it takes what fits the path and refuses the rest with EMSGSIZE.  `events` is
      what will go wrong, and `sent` what has left. */
  class Socket {
    const top: nat
    var mtu: nat
    var events: seq<Event>
    var sent: seq<seq<Byte>>

    /** The MTU is never below the 68 of section 3.2 of RFC 791, nor above `top`, and what has left
        fitted. */
    ghost predicate Valid()
      reads this
    {
      && 68 <= mtu <= top
      && (forall i :: 0 <= i < |events| && events[i].Mtu? ==> 68 <= events[i].mtu <= top)
      && forall i :: 0 <= i < |sent| ==> |sent[i]| <= top
    }

    constructor (top: nat, mtu: nat, events: seq<Event>)
      requires 68 <= mtu <= top && forall i :: 0 <= i < |events| && events[i].Mtu? ==> 68 <= events[i].mtu <= top
      ensures Valid() && this.top == top && this.mtu == mtu && this.events == events && sent == []
    {
      this.top, this.mtu, this.events, sent := top, mtu, events, [];
    }

    method SendTo(buf: array<Byte>, at: nat, len: nat) returns (a: Answer)
      requires Valid() && at + len <= buf.Length
      modifies this
      ensures Valid()
      ensures a == Sent ==> len <= mtu && sent == old(sent) + [buf[at..at + len]]
      ensures a != Sent ==> sent == old(sent)
      ensures a == TooLong ==> len > mtu
      ensures events == if old(events) == [] then [] else old(events)[1..]
      ensures a == Interrupted <==> old(events) != [] && old(events)[0] == Signal
      ensures a == Failed <==> old(events) != [] && old(events)[0] == Error
    {
      if events != [] {
        var e := events[0];
        events := events[1..];
        match e
        case Signal => return Interrupted;
        case Error => return Failed;
        case Mtu(m) => mtu := m;
      }
      if len > mtu { return TooLong; }
      sent := sent + [buf[at..at + len]];
      return Sent;
    }
  }

  /** htons(x), stored in the buffer. */
  method Put(buf: array<Byte>, at: nat, x: nat)
    requires at + 1 < buf.Length && x < 0x1_0000
    modifies buf
    ensures buf[..] == Store(old(buf[..]), at, x)
  {
    buf[at], buf[at + 1] := x / 256, x % 256;
  }

  /** The memcpy of a header, from `src` to `dst`. */
  method CopyHeader(buf: array<Byte>, src: nat, dst: nat)
    requires src + HDR <= dst && dst + HDR <= buf.Length
    modifies buf
    ensures buf[..] == old(buf[..dst] + buf[src..src + HDR] + buf[dst + HDR..])
  {
    var i := 0;
    while i < HDR
      invariant 0 <= i <= HDR
      invariant forall j :: 0 <= j < buf.Length ==>
                  buf[j] == if dst <= j < dst + i then old(buf[src + (j - dst)]) else old(buf[j])
    {
      buf[dst + i] := buf[src + i];
      i := i + 1;
    }
  }

  /** What the buffer holds of frame `f` while its halves are sent: the header, as far as it is the
      same for every fragment, and whatever lies outside the part in work. */
  ghost predicate HeaderLeft(b: seq<Byte>, at: nat, f: seq<Byte>) {
    |f| >= HDR && at + HDR <= |b| && SameHeader(f, b[at..at + HDR])
  }

  /** send_frame: the frame of `len` bytes at `at` is sent whole or in fragments that carry its
      payload in order; it fails only where the socket does, and then what has left is a leading
      part of it. */
  method SendFrame(s: Socket, buf: array<Byte>, at: nat, len: nat) returns (ok: bool)
    requires s.Valid() && at + len <= buf.Length && Whole(buf[at..at + len])
    modifies s, buf
    ensures s.Valid() && |s.sent| >= |old(s.sent)| && s.sent[..|old(s.sent)|] == old(s.sent)
    ensures ok ==> |s.sent| > |old(s.sent)| && Covers(old(buf[at..at + len]), s.sent[|old(s.sent)|..], len - HDR)
    ensures !ok ==> CoversPart(old(buf[at..at + len]), s.sent[|old(s.sent)|..])
    ensures HeaderLeft(buf[..], at, old(buf[at..at + len]))
    ensures forall j :: 0 <= j < buf.Length && !(at <= j < at + len) ==> buf[j] == old(buf[j])
    ensures (forall e :: e in s.events ==> e in old(s.events)) && (!ok ==> Error in old(s.events))
    decreases len, 2
  {
    ghost var f, before := buf[at..at + len], s.sent;
    var answer := s.SendTo(buf, at, len);
    while answer == Interrupted
      invariant s.Valid() && buf[..] == old(buf[..])
      invariant answer == Sent ==> s.sent == before + [f]
      invariant answer != Sent ==> s.sent == before
      invariant answer == TooLong ==> len > 68
      invariant (forall e :: e in s.events ==> e in old(s.events)) && (answer == Failed ==> Error in old(s.events))
      decreases |s.events| + if answer == Interrupted then 1 else 0
    {
      answer := s.SendTo(buf, at, len);
    }
    WholePiece(f);
    if answer == Sent { return true; }
    assert Covers(f, [], 0) && before[|before|..] == [];
    if answer == Failed { return false; }
    var n := Half(len);
    ok := SendHalves(s, buf, at, len, n);
  }

  /** ip_len and ip_off of the frame at `at`. */
  method SetFields(buf: array<Byte>, at: nat, len: nat, l: nat, off: nat)
    requires at + len <= buf.Length && HDR <= len && l < 0x1_0000 && off < 0x1_0000
    modifies buf
    ensures buf[at..at + len] == Store(Store(old(buf[at..at + len]), 2, l), 6, off)
    ensures forall j :: 0 <= j < buf.Length && !(at <= j < at + HDR) ==> buf[j] == old(buf[j])
  {
    StoreSlice(buf[..], at, len, 2, l);
    Put(buf, at + 2, l);
    StoreSlice(buf[..], at, len, 6, off);
    Put(buf, at + 6, off);
  }

  /** The first half's header: the frame's own, with its length and MF. */
  method FirstHeader(buf: array<Byte>, at: nat, len: nat, n: nat, offset: nat)
    requires at + len <= buf.Length && Whole(buf[at..at + len]) && HDR + n < len && offset == Off(buf[at..at + len])
    modifies buf
    ensures buf[at..at + HDR + n] == First(old(buf[at..at + len]), n)
    ensures forall j :: 0 <= j < buf.Length && !(at <= j < at + HDR) ==> buf[j] == old(buf[j])
  {
    MoreAdds(offset, 0);
    ghost var f := buf[at..at + len];
    assert buf[at..at + HDR + n] == f[..HDR + n];
    SetFields(buf, at, HDR + n, HDR + n, More(offset));
  }

  /** A word stored in a buffer is stored in the frame it is part of. */
  lemma StoreSlice(b: seq<Byte>, at: nat, len: nat, i: nat, x: nat)
    requires at + len <= |b| && i + 1 < len && x < 0x1_0000
    ensures Store(b, at + i, x)[at..at + len] == Store(b[at..at + len], i, x)
  {
  }

  /** The second half's header: a copy of the frame's, in front of the second half of its payload. */
  method SecondHeader(buf: array<Byte>, at: nat, len: nat, n: nat, offset: nat, ghost f: seq<Byte>)
    requires at + len <= buf.Length && Whole(f) && |f| == len && n % 8 == 0 && 24 <= n && HDR + n < len
    requires offset == Off(f)
    requires HeaderLeft(buf[..], at, f) && buf[at + HDR + n..at + len] == f[HDR + n..]
    modifies buf
    ensures buf[at + n..at + len] == Second(f, n)
    ensures forall j :: 0 <= j < buf.Length && !(at + n <= j < at + n + HDR) ==> buf[j] == old(buf[j])
  {
    OffsetFits(f, n);
    hide Whole, SameHeader, Off;
    ghost var hdr := buf[at..at + HDR];
    CopiedSlice(buf[..], at, n, len);
    CopyHeader(buf, at, at + n);
    SetFields(buf, at + n, len - n, len - n, offset + n / 8);
    SecondIs(f, n, hdr);
  }

  lemma OffsetFits(f: seq<Byte>, n: nat)
    requires Whole(f) && HDR + n < |f|
    ensures |f| < 0x1_0000 && Off(f) + n / 8 < 0x1_0000
  {
    MoreAdds(Off(f), n / 8);
  }

  lemma CopiedSlice(b: seq<Byte>, at: nat, n: nat, len: nat)
    requires HDR <= n && HDR + n < len && at + len <= |b|
    ensures var c := b[..at + n] + b[at..at + HDR] + b[at + n + HDR..];
            |c| == |b| && c[at + n..at + n + (len - n)] == b[at..at + HDR] + b[at + HDR + n..at + len]
  {
  }

  /** The second half does not depend on what the copied header has for a length and an offset. */
  lemma SecondIs(f: seq<Byte>, n: nat, hdr: seq<Byte>)
    requires Whole(f) && HDR + n < |f| && n % 8 == 0 && |hdr| == HDR && SameHeader(f, hdr)
    requires Off(f) + n / 8 < 0x1_0000
    ensures Store(Store(hdr + f[HDR + n..], 2, |f| - n), 6, Off(f) + n / 8) == Second(f, n)
  {
  }

  /** The first half, sent from where the frame is. */
  method SendFirst(s: Socket, buf: array<Byte>, at: nat, len: nat, n: nat, offset: nat) returns (ok: bool)
    requires s.Valid() && at + len <= buf.Length && Whole(buf[at..at + len]) && n % 8 == 0 && HDR + n < len
    requires offset == Off(buf[at..at + len])
    modifies s, buf
    ensures s.Valid() && |s.sent| >= |old(s.sent)| && s.sent[..|old(s.sent)|] == old(s.sent)
    ensures ok ==> |s.sent| > |old(s.sent)| && Covers(old(buf[at..at + len]), s.sent[|old(s.sent)|..], n)
    ensures !ok ==> CoversPart(old(buf[at..at + len]), s.sent[|old(s.sent)|..])
    ensures HeaderLeft(buf[..], at, old(buf[at..at + len]))
    ensures forall j :: 0 <= j < buf.Length && !(at <= j < at + HDR + n) ==> buf[j] == old(buf[j])
    ensures (forall e :: e in s.events ==> e in old(s.events)) && (!ok ==> Error in old(s.events))
    decreases len, 0
  {
    hide Covers, Whole;
    ghost var f, before := buf[at..at + len], s.sent;
    FirstHeader(buf, at, len, n, offset);
    FirstWhole(f, n);
    ok := SendFrame(s, buf, at, HDR + n);
    ghost var gs := s.sent[|before|..];
    HeaderKept(f, First(f, n), buf[..], at);
    if ok {
      FirstCovers(f, n, gs, n);
    } else {
      ghost var q: nat :| q + HDR <= |First(f, n)| && Covers(First(f, n), gs, q);
      FirstCovers(f, n, gs, q);
    }
  }

  /** The second half, sent from `n` further on, where its header goes over payload already sent. */
  method SendSecond(s: Socket, buf: array<Byte>, at: nat, len: nat, n: nat, offset: nat, ghost f: seq<Byte>)
    returns (ok: bool)
    requires s.Valid() && at + len <= buf.Length && Whole(f) && |f| == len && n % 8 == 0 && 24 <= n
    requires HDR + n < len && offset == Off(f)
    requires HeaderLeft(buf[..], at, f) && buf[at + HDR + n..at + len] == f[HDR + n..]
    modifies s, buf
    ensures s.Valid() && |s.sent| >= |old(s.sent)| && s.sent[..|old(s.sent)|] == old(s.sent)
    ensures ok ==> Covers(Second(f, n), s.sent[|old(s.sent)|..], len - n - HDR)
    ensures !ok ==> |Second(f, n)| == len - n && CoversPart(Second(f, n), s.sent[|old(s.sent)|..])
    ensures forall j :: 0 <= j < buf.Length && !(at + n <= j < at + len) ==> buf[j] == old(buf[j])
    ensures (forall e :: e in s.events ==> e in old(s.events)) && (!ok ==> Error in old(s.events))
    decreases len, 0
  {
    hide Covers, Whole;
    SecondHeader(buf, at, len, n, offset, f);
    SecondWhole(f, n);
    assert buf[at + n..at + n + (len - n)] == Second(f, n);
    ok := SendFrame(s, buf, at + n, len - n);
  }

  /** The EMSGSIZE branch: the halves of the frame, one after the other. */
  method SendHalves(s: Socket, buf: array<Byte>, at: nat, len: nat, n: nat) returns (ok: bool)
    requires s.Valid() && at + len <= buf.Length && Whole(buf[at..at + len]) && n % 8 == 0 && 24 <= n && HDR + n < len
    modifies s, buf
    ensures s.Valid() && |s.sent| >= |old(s.sent)| && s.sent[..|old(s.sent)|] == old(s.sent)
    ensures ok ==> |s.sent| > |old(s.sent)| && Covers(old(buf[at..at + len]), s.sent[|old(s.sent)|..], len - HDR)
    ensures !ok ==> CoversPart(old(buf[at..at + len]), s.sent[|old(s.sent)|..])
    ensures HeaderLeft(buf[..], at, old(buf[at..at + len]))
    ensures forall j :: 0 <= j < buf.Length && !(at <= j < at + len) ==> buf[j] == old(buf[j])
    ensures (forall e :: e in s.events ==> e in old(s.events)) && (!ok ==> Error in old(s.events))
    decreases len, 1
  {
    hide Covers, CoversPart, Whole;
    ghost var f, before := buf[at..at + len], s.sent;
    var offset := Field(buf, at, len);
    ok := SendFirst(s, buf, at, len, n, offset);
    if !ok { return; }
    ghost var mid := s.sent;
    assert buf[at + HDR + n..at + len] == f[HDR + n..];
    ok := SendSecond(s, buf, at, len, n, offset, f);
    Halved(f, n, before, mid, s.sent, ok);
  }

  method Field(buf: array<Byte>, at: nat, len: nat) returns (offset: nat)
    requires at + len <= buf.Length && len >= HDR
    ensures offset == Off(buf[at..at + len])
  {
    return (buf[at + 6] as nat) * 256 + buf[at + 7] as nat;
  }

  lemma HeaderKept(f: seq<Byte>, g: seq<Byte>, b: seq<Byte>, at: nat)
    requires |f| >= HDR && |g| >= HDR && SameHeader(f, g) && HeaderLeft(b, at, g)
    ensures HeaderLeft(b, at, f)
  {
  }

  lemma Joined(before: seq<seq<Byte>>, mid: seq<seq<Byte>>, after: seq<seq<Byte>>)
    requires |before| <= |mid| <= |after| && mid[..|before|] == before && after[..|mid|] == mid
    ensures after[..|before|] == before && after[|before|..] == mid[|before|..] + after[|mid|..]
  {
  }

  lemma Halved(f: seq<Byte>, n: nat, before: seq<seq<Byte>>, mid: seq<seq<Byte>>, after: seq<seq<Byte>>, ok: bool)
    requires Whole(f) && HDR + n < |f| && n % 8 == 0 && |before| <= |mid| <= |after|
    requires mid[..|before|] == before && after[..|mid|] == mid
    requires Covers(f, mid[|before|..], n)
    requires ok ==> Covers(Second(f, n), after[|mid|..], |f| - n - HDR)
    requires !ok ==> |Second(f, n)| == |f| - n && CoversPart(Second(f, n), after[|mid|..])
    ensures after[..|before|] == before
    ensures ok ==> Covers(f, after[|before|..], |f| - HDR)
    ensures !ok ==> CoversPart(f, after[|before|..])
  {
    hide Covers, Whole;
    var gs, hs := mid[|before|..], after[|mid|..];
    Joined(before, mid, after);
    if ok {
      SecondCovers(f, n, gs, hs, |f| - n - HDR);
    } else {
      var q: nat :| q + HDR <= |f| - n && Covers(Second(f, n), hs, q);
      SecondCovers(f, n, gs, hs, q);
    }
  }

  // ----- reassembly

  /** Where in the datagram a fragment's payload starts. */
  function Start(g: seq<Byte>): nat
    requires |g| >= HDR
  {
    Off(g) % MF * 8
  }

  predicate HasMore(g: seq<Byte>)
    requires |g| >= HDR
  {
    Off(g) / MF % 2 == 1
  }

  predicate Reaches(g: seq<Byte>, i: nat)
    requires |g| >= HDR
  {
    Start(g) <= i < Start(g) + (|g| - HDR)
  }

  /** The byte a fragment has for position `i` of the datagram. */
  function ByteAt(g: seq<Byte>, i: nat): Byte
    requires |g| >= HDR
  {
    if Reaches(g, i) then g[HDR + (i - Start(g))] else 0
  }

  /** Section 3.2 of RFC 791: a fragment's payload goes where its offset says. */
  function Place(b: map<nat, Byte>, g: seq<Byte>): map<nat, Byte>
    requires |g| >= HDR
  {
    b + map i: nat | i < Start(g) + (|g| - HDR) && Reaches(g, i) :: ByteAt(g, i)
  }

  /** The receiver's buffer after the fragments `rs`, in the order they came. */
  function Reassemble(rs: seq<seq<Byte>>): map<nat, Byte>
    requires forall i :: 0 <= i < |rs| ==> |rs[i]| >= HDR
  {
    if rs == [] then map[] else Place(Reassemble(rs[..|rs| - 1]), rs[|rs| - 1])
  }

  /** A fragment of an unfragmented frame says where it belongs, and has MF unless it is the last. */
  lemma PieceStart(f: seq<Byte>, g: seq<Byte>, p: nat)
    requires Whole(f) && Off(f) == 0 && Piece(f, g, p)
    ensures Start(g) == p && (HasMore(g) <==> p + |g| < |f|)
  {
    hide SameHeader, Len;
    assert p / 8 < MF && More(0) == MF;
    assert Off(g) == if p + |g| < |f| then MF + p / 8 else p / 8;
  }

  /** Its bytes are the frame's, where they belong. */
  lemma PieceBytes(f: seq<Byte>, g: seq<Byte>, p: nat)
    requires |f| >= HDR && |g| >= HDR && Off(f) == 0 && Start(g) == p && p + |g| <= |f|
    requires g[HDR..] == f[HDR + p..p + |g|]
    ensures forall i: nat :: Reaches(g, i) ==> Reaches(f, i) && ByteAt(g, i) == ByteAt(f, i)
  {
    hide Off;
    forall i: nat | Reaches(g, i) ensures Reaches(f, i) && ByteAt(g, i) == ByteAt(f, i) {
      assert g[HDR..][i - p] == f[HDR + p..p + |g|][i - p];
    }
  }

  ghost predicate PieceOf(f: seq<Byte>, g: seq<Byte>) {
    exists p: nat :: Piece(f, g, p)
  }

  lemma {:induction false} AllPieces(f: seq<Byte>, gs: seq<seq<Byte>>, q: nat)
    requires Covers(f, gs, q)
    ensures forall g :: g in gs ==> |g| >= HDR && PieceOf(f, g)
  {
    if gs != [] {
      var g := gs[|gs| - 1];
      AllPieces(f, gs[..|gs| - 1], q - (|g| - HDR));
      assert Piece(f, g, q - (|g| - HDR));
      assert gs == gs[..|gs| - 1] + [g];
    }
  }

  /** Every byte is in one of the fragments. */
  lemma {:induction false} Covered(f: seq<Byte>, gs: seq<seq<Byte>>, q: nat, i: nat) returns (g: seq<Byte>)
    requires Whole(f) && Off(f) == 0 && Covers(f, gs, q) && i < q
    ensures g in gs && |g| >= HDR && Reaches(g, i)
  {
    g := gs[|gs| - 1];
    var p := q - (|g| - HDR);
    PieceStart(f, g, p);
    if i < p { g := Covered(f, gs[..|gs| - 1], p, i); }
  }

  /** The buffer holds nothing but bytes of the frame. */
  ghost predicate Agrees(f: seq<Byte>, b: map<nat, Byte>)
    requires |f| >= HDR
  {
    forall i :: i in b ==> Reaches(f, i) && b[i] == ByteAt(f, i)
  }

  lemma {:induction false} PlacedAgree(f: seq<Byte>, rs: seq<seq<Byte>>)
    requires Whole(f) && Off(f) == 0 && forall i :: 0 <= i < |rs| ==> |rs[i]| >= HDR && PieceOf(f, rs[i])
    ensures Agrees(f, Reassemble(rs))
  {
    if rs != [] {
      var g, pre := rs[|rs| - 1], rs[..|rs| - 1];
      PlacedAgree(f, pre);
      assert PieceOf(f, g);
      var p: nat :| Piece(f, g, p);
      PieceStart(f, g, p);
      PieceBytes(f, g, p);
    }
  }

  lemma {:induction false} PlacedThere(rs: seq<seq<Byte>>, g: seq<Byte>, i: nat)
    requires (forall j :: 0 <= j < |rs| ==> |rs[j]| >= HDR) && g in rs && Reaches(g, i)
    ensures i in Reassemble(rs)
  {
    if g != rs[|rs| - 1] { PlacedThere(rs[..|rs| - 1], g, i); }
  }

  /** A fragment says whether the payload ends with it. */
  lemma EndMarked(f: seq<Byte>, gs: seq<seq<Byte>>, g: seq<Byte>)
    requires Whole(f) && Off(f) == 0 && Covers(f, gs, |f| - HDR) && g in gs
    ensures |g| >= HDR && (HasMore(g) <==> Start(g) + (|g| - HDR) < |f| - HDR)
  {
    AllPieces(f, gs, |f| - HDR);
    assert PieceOf(f, g);
    var p: nat :| Piece(f, g, p);
    PieceStart(f, g, p);
  }

  lemma AllPlaced(f: seq<Byte>, gs: seq<seq<Byte>>, rs: seq<seq<Byte>>, i: nat)
    requires Whole(f) && Off(f) == 0 && Covers(f, gs, |f| - HDR) && (forall g :: g in gs ==> g in rs) && i < |f| - HDR
    requires forall j :: 0 <= j < |rs| ==> |rs[j]| >= HDR
    ensures i in Reassemble(rs)
  {
    var g := Covered(f, gs, |f| - HDR, i);
    PlacedThere(rs, g, i);
  }

  lemma OwnByte(f: seq<Byte>, i: nat)
    requires |f| >= HDR && Off(f) == 0
    ensures Reaches(f, i) <==> i < |f| - HDR
    ensures i < |f| - HDR ==> ByteAt(f, i) == f[HDR..][i]
  {
  }

  /** The fragments of a frame, however repeated and reordered, reassemble to its payload. */
  lemma Reassembles(f: seq<Byte>, gs: seq<seq<Byte>>, rs: seq<seq<Byte>>, i: nat)
    requires Whole(f) && Off(f) == 0 && Covers(f, gs, |f| - HDR) && (forall g :: g in gs <==> g in rs)
    ensures forall j :: 0 <= j < |rs| ==> |rs[j]| >= HDR
    ensures i in Reassemble(rs) <==> i < |f| - HDR
    ensures i < |f| - HDR ==> Reassemble(rs)[i] == f[HDR..][i]
  {
    hide Covers, PieceOf, Reassemble, ByteAt, Reaches;
    AllPieces(f, gs, |f| - HDR);
    PlacedAgree(f, rs);
    OwnByte(f, i);
    if i < |f| - HDR { AllPlaced(f, gs, rs, i); }
  }
}