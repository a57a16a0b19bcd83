/** Auto-RP messages: the walk that reads them, and the mapping message an agent builds. */
module AutoRpWire {
  import opened Inet
  import opened Wire
  import opened AutoRp

  const HDR := 8       // AUTORP_HDR_LEN
  const RP := 6        // AUTORP_RP_LEN
  const GRP := 6       // AUTORP_GRP_LEN
  const MAX := 1024    // AUTORP_MSG_MAX

  // ----- the walk

  /** struct autorp_cursor over a buffer: how far it is, and what the counts say is still to come. */
  datatype Cursor = Cursor(p: nat, rps: nat, grps: nat, rp: Addr)

  datatype Verdict = Done | Prefix(a: Ann) | ShortRp | ShortGrp | Block

  /** autorp_parse_step: at most one RP block or one prefix. */
  function Step(b: Bytes, c: Cursor): (r: (Verdict, Cursor))
    requires c.p <= |b|
    ensures r.1.p <= |b| && c.p <= r.1.p
    ensures r.0.Prefix? || r.0.Block? <==> r.1.p > c.p
    ensures r.0.Block? ==> r.1.rps < c.rps
  {
    if c.grps > 0 then
      if |b| - c.p < GRP then (ShortGrp, c)
      else (Prefix(Ann(c.rp, Get32(b, c.p + 2), b[c.p + 1], b[c.p] % 2 == 1)), c.(p := c.p + GRP, grps := c.grps - 1))
    else if c.rps == 0 then (Done, c)
    else if |b| - c.p < RP then (ShortRp, c)
    else (Block, Cursor(c.p + RP, c.rps - 1, b[c.p + 5], Get32(b, c.p)))
  }

  /** The next prefix, blocks without one stepped over. */
  function Next(b: Bytes, c: Cursor): (r: (Verdict, Cursor))
    requires c.p <= |b|
    ensures !r.0.Block? && r.1.p <= |b| && (r.0.Prefix? ==> r.1.p > c.p)
    decreases c.rps
  {
    if Step(b, c).0.Block? then Next(b, Step(b, c).1) else Step(b, c)
  }

  /** autorp_parse_next */
  method ParseNext(b: Bytes, c: Cursor) returns (rc: Verdict, c': Cursor)
    requires c.p <= |b|
    ensures (rc, c') == Next(b, c)
  {
    c' := c;
    var r := Step(b, c);
    while r.0.Block?
      invariant c'.p <= |b| && r == Step(b, c') && Next(b, c') == Next(b, c)
      decreases c'.rps
    {
      c' := r.1;
      r := Step(b, c');
    }
    return r.0, r.1;
  }

  /** Every prefix the walk yields, in order. */
  function All(b: Bytes, c: Cursor): seq<Ann>
    requires c.p <= |b|
    decreases |b| - c.p
  {
    var (v, c') := Step(b, c);
    if v.Prefix? then [v.a] + All(b, c') else if v.Block? then All(b, c') else []
  }

  /** The calls of autorp_parse_next yield them one by one. */
  lemma {:induction false} NextYields(b: Bytes, c: Cursor)
    requires c.p <= |b|
    ensures var (v, c') := Next(b, c);
            All(b, c) == if v.Prefix? then [v.a] + All(b, c') else []
    decreases c.rps
  {
    if Step(b, c).0.Block? { NextYields(b, Step(b, c).1); }
  }

  /** DONE and SHORT, once said, are said for ever. */
  lemma {:induction false} EndIsStable(b: Bytes, c: Cursor)
    requires c.p <= |b| && !Next(b, c).0.Prefix?
    ensures Next(b, Next(b, c).1) == Next(b, c)
    decreases c.rps
  {
    if Step(b, c).0.Block? { EndIsStable(b, Step(b, c).1); }
  }

  /** What is read of a buffer cut short is a leading part of what is read of the whole. */
  lemma {:induction false} TruncationReadsLess(b: Bytes, k: nat, c: Cursor)
    requires c.p <= k <= |b|
    ensures All(b[..k], c) <= All(b, c)
    decreases |b| - c.p
  {
    var (v, c') := Step(b[..k], c);
    if v.Prefix? || v.Block? {
      assert Step(b, c) == Step(b[..k], c);
      TruncationReadsLess(b, k, c');
    }
  }

  datatype Header = Header(version: nat, type': nat, rps: nat, holdtime: nat)

  datatype Opened = TooShort | Opened(hdr: Header, c: Cursor)

  /** autorp_parse_hdr */
  function ParseHdr(b: Bytes): Opened {
    if |b| < HDR then TooShort
    else Opened(Header(b[0] / 16, b[0] % 16, b[1], Get16(b, 2)), Cursor(HDR, b[1], 0, 0))
  }

  /** So a datagram cut anywhere behind its header says a leading part of what it said whole. */
  lemma CutDatagram(b: Bytes, k: nat)
    requires HDR <= k <= |b|
    ensures ParseHdr(b[..k]) == ParseHdr(b) && All(b[..k], ParseHdr(b).c) <= All(b, ParseHdr(b).c)
  {
    hide All;
    TruncationReadsLess(b, k, ParseHdr(b).c);
  }

  // ----- the message

  predicate OnWire(a: Ann) {
    U32Addr(a.rp) && U32Addr(a.addr) && a.len <= 32
  }

  /** An RP and its prefixes. */
  datatype RpBlock = RpBlock(rp: Addr, anns: seq<Ann>)

  predicate BlockFits(x: RpBlock) {
    U32Addr(x.rp) && 0 < |x.anns| <= 255 && forall i :: 0 <= i < |x.anns| ==> OnWire(x.anns[i]) && x.anns[i].rp == x.rp
  }

  /** autorp_encode_grp */
  function Group(a: Ann): (b: Bytes)
    requires OnWire(a)
    ensures |b| == GRP
  {
    [if a.neg then 1 else 0] + [a.len] + U32(a.addr)
  }

  function Groups(s: seq<Ann>): (b: Bytes)
    requires forall i :: 0 <= i < |s| ==> OnWire(s[i])
    ensures |b| == GRP * |s|
  {
    if s == [] then [] else Group(s[0]) + Groups(s[1..])
  }

  /** autorp_encode_rp, and the prefixes behind it */
  function RpBytes(x: RpBlock): (b: Bytes)
    requires BlockFits(x)
    ensures |b| == RP + GRP * |x.anns|
  {
    U32(x.rp) + [2] + [|x.anns|] + Groups(x.anns)
  }

  function Blocks(xs: seq<RpBlock>): Bytes
    requires forall i :: 0 <= i < |xs| ==> BlockFits(xs[i])
  {
    if xs == [] then [] else Blocks(xs[..|xs| - 1]) + RpBytes(xs[|xs| - 1])
  }

  function Head(rps: Byte, hold: nat): (b: Bytes)
    requires hold < 0x1_0000
    ensures |b| == HDR
  {
    [0x12] + [rps] + U16(hold) + U32(0)
  }

  function Flat(xs: seq<RpBlock>): seq<Ann> {
    if xs == [] then [] else Flat(xs[..|xs| - 1]) + xs[|xs| - 1].anns
  }

  // ----- what is written is read

  lemma GroupBack(b: Bytes, c: Cursor, a: Ann)
    requires OnWire(a) && c.rp == a.rp && c.grps > 0 && At(b, c.p, Group(a))
    ensures c.p + GRP <= |b| && Step(b, c) == (Prefix(a), c.(p := c.p + GRP, grps := c.grps - 1))
  {
    var n := if a.neg then 1 else 0;
    AtSplit(b, c.p, [n] + [a.len], U32(a.addr));
    AtSplit(b, c.p, [n], [a.len]);
    AtIndex(b, c.p, [n], 0);
    AtIndex(b, c.p + 1, [a.len], 0);
    Read32(b, c.p + 2, a.addr);
  }

  lemma {:induction false} GroupsBack(b: Bytes, c: Cursor, s: seq<Ann>)
    requires (forall i :: 0 <= i < |s| ==> OnWire(s[i]) && s[i].rp == c.rp) && c.grps == |s| && At(b, c.p, Groups(s))
    ensures c.p + GRP * |s| <= |b| && All(b, c) == s + All(b, c.(p := c.p + GRP * |s|, grps := 0))
    decreases |s|
  {
    hide At, Group, OnWire, Step;
    AtFits(b, c.p, Groups(s));
    if s != [] {
      AtSplit(b, c.p, Group(s[0]), Groups(s[1..]));
      GroupBack(b, c, s[0]);
      GroupsBack(b, c.(p := c.p + GRP, grps := c.grps - 1), s[1..]);
    }
  }

  lemma RpBack(b: Bytes, c: Cursor, x: RpBlock)
    requires BlockFits(x) && c.grps == 0 && c.rps > 0 && At(b, c.p, RpBytes(x))
    ensures c.p + |RpBytes(x)| <= |b| && Step(b, c) == (Block, Cursor(c.p + RP, c.rps - 1, |x.anns|, x.rp))
    ensures At(b, c.p + RP, Groups(x.anns))
  {
    AtSplit(b, c.p, U32(x.rp) + [2] + [|x.anns|], Groups(x.anns));
    AtSplit(b, c.p, U32(x.rp) + [2], [|x.anns|]);
    AtSplit(b, c.p, U32(x.rp), [2]);
    Read32(b, c.p, x.rp);
    AtIndex(b, c.p + 5, [|x.anns|], 0);
  }

  lemma BlockBack(b: Bytes, c: Cursor, x: RpBlock)
    requires BlockFits(x) && c.grps == 0 && c.rps > 0 && At(b, c.p, RpBytes(x))
    ensures c.p + |RpBytes(x)| <= |b|
    ensures All(b, c) == x.anns + All(b, Cursor(c.p + |RpBytes(x)|, c.rps - 1, 0, x.rp))
  {
    hide At, RpBytes, Step, OnWire;
    RpBack(b, c, x);
    GroupsBack(b, Cursor(c.p + RP, c.rps - 1, |x.anns|, x.rp), x.anns);
  }

  /** The cursor behind `xs`. */
  function After(c: Cursor, xs: seq<RpBlock>): Cursor
    requires (forall i :: 0 <= i < |xs| ==> BlockFits(xs[i])) && c.rps >= |xs|
  {
    Cursor(c.p + |Blocks(xs)|, c.rps - |xs|, 0, if xs == [] then c.rp else xs[|xs| - 1].rp)
  }

  lemma {:induction false} BlocksBack(b: Bytes, c: Cursor, xs: seq<RpBlock>)
    requires (forall i :: 0 <= i < |xs| ==> BlockFits(xs[i])) && c.grps == 0 && c.rps >= |xs| && At(b, c.p, Blocks(xs))
    ensures After(c, xs).p <= |b| && All(b, c) == Flat(xs) + All(b, After(c, xs))
    decreases |xs|
  {
    hide RpBytes, BlockFits, All, At;
    AtFits(b, c.p, Blocks(xs));
    if xs != [] {
      var pre, x := xs[..|xs| - 1], xs[|xs| - 1];
      AtSplit(b, c.p, Blocks(pre), RpBytes(x));
      BlocksBack(b, c, pre);
      BlockBack(b, After(c, pre), x);
    }
  }

  lemma HeadBack(b: Bytes, rps: Byte, hold: nat)
    requires hold < 0x1_0000 && At(b, 0, Head(rps, hold))
    ensures ParseHdr(b) == Opened(Header(1, 2, rps, hold), Cursor(HDR, rps, 0, 0))
  {
    AtSplit(b, 0, [0x12] + [rps] + U16(hold), U32(0));
    AtSplit(b, 0, [0x12] + [rps], U16(hold));
    AtSplit(b, 0, [0x12], [rps]);
    AtIndex(b, 0, [0x12], 0);
    AtIndex(b, 1, [rps], 0);
    Read16(b, 2, hold);
  }

  /** A mapping message says its blocks' prefixes, each under its RP, and nothing else. */
  lemma MessageBack(xs: seq<RpBlock>, hold: nat)
    requires (forall i :: 0 <= i < |xs| ==> BlockFits(xs[i])) && |xs| <= 255 && hold < 0x1_0000
    ensures var b := Head(|xs|, hold) + Blocks(xs);
            var o := ParseHdr(b);
            && o == Opened(Header(1, 2, |xs|, hold), Cursor(HDR, |xs|, 0, 0))
            && All(b, o.c) == Flat(xs)
  {
    hide BlockFits, Blocks, Flat, Head;
    var b, c := Head(|xs|, hold) + Blocks(xs), Cursor(HDR, |xs|, 0, 0);
    assert At(b, 0, Head(|xs|, hold)) && At(b, HDR, Blocks(xs));
    HeadBack(b, |xs|, hold);
    BlocksBack(b, c, xs);
    assert All(b, After(c, xs)) == [];
  }

  // ----- the mapping message of an agent

  /** The resolved prefixes of one RP, in list order, among the first `n` entries. */
  ghost function Mine(s: seq<Ann>, rp: Addr, n: nat): seq<Ann>
    requires n <= |s|
  {
    if n == 0 then []
    else Mine(s, rp, n - 1) + if s[n - 1].rp == rp && Resolved(s, n - 1) then [s[n - 1]] else []
  }

  /** No entry before `i` has its RP. */
  ghost predicate FirstOf(s: seq<Ann>, i: nat)
    requires i < |s|
  {
    forall j :: 0 <= j < i ==> s[j].rp != s[i].rp
  }

  /** A block for each RP with a resolved prefix, in the order the list first names them. */
  ghost function RpBlocks(s: seq<Ann>, n: nat): seq<RpBlock>
    requires n <= |s|
  {
    if n == 0 then []
    else
      RpBlocks(s, n - 1) +
      if FirstOf(s, n - 1) && Mine(s, s[n - 1].rp, |s|) != [] then [RpBlock(s[n - 1].rp, Mine(s, s[n - 1].rp, |s|))]
      else []
  }

  lemma {:induction false} MineMembers(s: seq<Ann>, rp: Addr, n: nat)
    requires n <= |s|
    ensures forall a :: a in Mine(s, rp, n) <==> a.rp == rp && exists i :: 0 <= i < n && Resolved(s, i) && s[i] == a
  {
    if n > 0 { MineMembers(s, rp, n - 1); }
  }

  ghost predicate Once(t: seq<Ann>) {
    forall i, j :: 0 <= i < j < |t| ==> t[i] != t[j]
  }

  lemma NotAgain(s: seq<Ann>, rp: Addr, n: nat)
    requires n < |s| && Announced(s)
    ensures s[n] !in Mine(s, rp, n)
  {
    MineMembers(s, rp, n);
    forall k | 0 <= k < n ensures s[k] != s[n] { assert !(s[k].rp == s[n].rp && SamePrefix(s[k], s[n])); }
  }

  /** An entry is in the message once. */
  lemma {:induction false} MineOnce(s: seq<Ann>, rp: Addr, n: nat)
    requires n <= |s| && Announced(s)
    ensures Once(Mine(s, rp, n))
  {
    if n > 0 {
      hide Resolved, Announced;
      MineOnce(s, rp, n - 1);
      NotAgain(s, rp, n - 1);
    }
  }

  /** Each RP has one block, and it is all its resolved prefixes. */
  lemma {:induction false} BlockIs(s: seq<Ann>, n: nat, k: nat)
    requires n <= |s| && k < |RpBlocks(s, n)|
    ensures var x := RpBlocks(s, n)[k];
            x.anns == Mine(s, x.rp, |s|) && x.anns != [] && exists i :: 0 <= i < n && s[i].rp == x.rp
    ensures forall l :: 0 <= l < k ==> RpBlocks(s, n)[l].rp != RpBlocks(s, n)[k].rp
  {
    var pre := RpBlocks(s, n - 1);
    if k < |pre| {
      BlockIs(s, n - 1, k);
      forall l | 0 <= l < k ensures RpBlocks(s, n)[l].rp != RpBlocks(s, n)[k].rp { assert RpBlocks(s, n)[l] == pre[l]; }
      var i :| 0 <= i < n - 1 && s[i].rp == pre[k].rp;
      assert s[i].rp == RpBlocks(s, n)[k].rp;
    } else {
      forall l | 0 <= l < k ensures RpBlocks(s, n)[l].rp != s[n - 1].rp {
        BlockIs(s, n - 1, l);
        var i :| 0 <= i < n - 1 && s[i].rp == pre[l].rp;
      }
      assert s[n - 1].rp == RpBlocks(s, n)[k].rp;
    }
  }

  lemma {:induction false} HasBlock(s: seq<Ann>, n: nat, i: nat)
    requires i < n <= |s| && Mine(s, s[i].rp, |s|) != []
    ensures exists k :: 0 <= k < |RpBlocks(s, n)| && RpBlocks(s, n)[k].rp == s[i].rp
  {
    var pre, all := RpBlocks(s, n - 1), RpBlocks(s, n);
    if j :| 0 <= j < n - 1 && s[j].rp == s[i].rp {
      HasBlock(s, n - 1, j);
      var k :| 0 <= k < |pre| && pre[k].rp == s[j].rp;
      assert all[k] == pre[k];
    } else {
      assert FirstOf(s, n - 1) && all[|all| - 1].rp == s[i].rp;
    }
  }

  lemma {:induction false} FlatMembers(xs: seq<RpBlock>)
    ensures forall a :: a in Flat(xs) <==> exists k :: 0 <= k < |xs| && a in xs[k].anns
  {
    if xs != [] {
      var pre := xs[..|xs| - 1];
      FlatMembers(pre);
      forall a ensures a in Flat(xs) <==> exists k :: 0 <= k < |xs| && a in xs[k].anns {
        if a in Flat(pre) {
          var k :| 0 <= k < |pre| && a in pre[k].anns;
          assert a in xs[k].anns;
        }
        if k :| 0 <= k < |xs| && a in xs[k].anns { assert k < |pre| ==> a in pre[k].anns; }
      }
    }
  }

  lemma OnceConcat(a: seq<Ann>, b: seq<Ann>)
    requires Once(a) && Once(b) && forall x :: x in a ==> x !in b
    ensures Once(a + b)
  {
    var c := a + b;
    forall i, j | 0 <= i < j < |c| ensures c[i] != c[j] {
      if i < |a| <= j { assert c[i] in a && c[j] in b; }
    }
  }

  /** No prefix is in the message twice. */
  lemma {:induction false} FlatOnce(s: seq<Ann>, n: nat)
    requires n <= |s| && Announced(s)
    ensures Once(Flat(RpBlocks(s, n)))
  {
    if n > 0 {
      hide Resolved, Announced, Mine, Once, RpBlocks, Flat, FirstOf;
      FlatOnce(s, n - 1);
      FlatNext(s, n);
      var pre, rp := RpBlocks(s, n - 1), s[n - 1].rp;
      if RpBlocks(s, n) != pre {
        MineOnce(s, rp, |s|);
        MineMembers(s, rp, |s|);
        forall a | a in Flat(pre) ensures a !in Mine(s, rp, |s|) { OtherRp(s, n - 1, a); }
        OnceConcat(Flat(pre), Mine(s, rp, |s|));
      }
    }
  }

  lemma FlatNext(s: seq<Ann>, n: nat)
    requires 0 < n <= |s|
    ensures var pre, all := RpBlocks(s, n - 1), RpBlocks(s, n);
            all == pre || (FirstOf(s, n - 1) && Flat(all) == Flat(pre) + Mine(s, s[n - 1].rp, |s|))
  {
    hide Mine;
    var pre, all := RpBlocks(s, n - 1), RpBlocks(s, n);
    if |all| > |pre| { assert all[..|all| - 1] == pre; }
  }

  lemma OtherRp(s: seq<Ann>, n: nat, a: Ann)
    requires n < |s| && FirstOf(s, n) && a in Flat(RpBlocks(s, n))
    ensures a.rp != s[n].rp
  {
    var xs := RpBlocks(s, n);
    FlatMembers(xs);
    var k :| 0 <= k < |xs| && a in xs[k].anns;
    BlockIs(s, n, k);
    MineMembers(s, xs[k].rp, |s|);
    var i :| 0 <= i < n && s[i].rp == xs[k].rp;
  }

  /** When all the blocks are in the message it is the mapping of the announcements. */
  lemma AllIsMapping(s: seq<Ann>)
    ensures Mapping(s, Flat(RpBlocks(s, |s|)))
  {
    var xs := RpBlocks(s, |s|);
    FlatMembers(xs);
    forall a ensures a in Flat(xs) <==> InMapping(s, a) {
      MineMembers(s, a.rp, |s|);
      if a in Flat(xs) {
        var k :| 0 <= k < |xs| && a in xs[k].anns;
        BlockIs(s, |s|, k);
        MineMembers(s, xs[k].rp, |s|);
      }
      if InMapping(s, a) {
        var i :| 0 <= i < |s| && Resolved(s, i) && s[i] == a;
        HasBlock(s, |s|, i);
        var k :| 0 <= k < |xs| && xs[k].rp == s[i].rp;
        BlockIs(s, |s|, k);
        assert a in xs[k].anns;
      }
    }
  }

  // ----- the builder

  ghost predicate AllOnWire(s: seq<Ann>) {
    forall i :: 0 <= i < |s| ==> OnWire(s[i])
  }

  lemma {:induction false} MineOnWire(s: seq<Ann>, rp: Addr, n: nat)
    requires n <= |s| && AllOnWire(s)
    ensures forall i :: 0 <= i < |Mine(s, rp, n)| ==> OnWire(Mine(s, rp, n)[i]) && Mine(s, rp, n)[i].rp == rp
    ensures |Mine(s, rp, n)| <= n
  {
    if n > 0 { MineOnWire(s, rp, n - 1); }
  }

  lemma {:induction false} MineGrows(s: seq<Ann>, rp: Addr, n: nat, m: nat)
    requires n <= m <= |s|
    ensures |Mine(s, rp, n)| <= |Mine(s, rp, m)|
    decreases m
  {
    if n < m { MineGrows(s, rp, n, m - 1); }
  }

  lemma {:induction false} GroupsAdd(s: seq<Ann>, a: Ann)
    requires AllOnWire(s) && OnWire(a)
    ensures AllOnWire(s + [a]) && Groups(s + [a]) == Groups(s) + Group(a)
    decreases |s|
  {
    if s != [] {
      assert (s + [a])[1..] == s[1..] + [a];
      GroupsAdd(s[1..], a);
    }
  }

  /** Have this RP's prefixes already gone in under an earlier entry? */
  method HasEarlier(s: seq<Ann>, i: nat) returns (r: bool)
    requires i < |s|
    ensures r <==> !FirstOf(s, i)
  {
    var j := 0;
    while j < i
      invariant 0 <= j <= i && forall l :: 0 <= l < j ==> s[l].rp != s[i].rp
    {
      if s[j].rp == s[i].rp { return true; }
      j := j + 1;
    }
    return false;
  }

  method CountMine(s: seq<Ann>, rp: Addr) returns (n: nat)
    requires Announced(s)
    ensures n == |Mine(s, rp, |s|)|
  {
    n := 0;
    var i := 0;
    while i < |s|
      invariant 0 <= i <= |s| && n == |Mine(s, rp, i)|
    {
      if s[i].rp == rp {
        var r := IsResolved(s, i);
        if r { n := n + 1; }
      }
      i := i + 1;
    }
  }

  /** One RP's block, for which there is room. */
  method WriteBlock(w: Writer, s: seq<Ann>, rp: Addr, n: nat)
    requires w.Valid() && !w.full && Announced(s) && AllOnWire(s) && U32Addr(rp) && n == |Mine(s, rp, |s|)|
    requires 0 < n <= 255
    requires RP + GRP * n <= w.Left()
    modifies w, w.buf
    ensures w.Valid() && !w.full && BlockFits(RpBlock(rp, Mine(s, rp, |s|)))
    ensures w.p == old(w.p) + RP + GRP * n && w.Written() == old(w.Written()) + RpBytes(RpBlock(rp, Mine(s, rp, |s|)))
    ensures forall j :: 0 <= j < w.buf.Length && !(old(w.p) <= j < w.p) ==> w.buf[j] == old(w.buf[j])
  {
    hide Resolved, Group, Groups, OnWire, Announced, Mine, U32;
    ghost var head := w.Written() + (U32(rp) + [2] + [n]);
    MineOnWire(s, rp, |s|);
    PutRp(w, rp, n);
    var i := 0;
    MineStart(s, rp);
    while i < |s|
      invariant 0 <= i <= |s| && w.Valid() && !w.full && AllOnWire(Mine(s, rp, i))
      invariant w.p == old(w.p) + RP + GRP * |Mine(s, rp, i)|
      invariant w.Written() == head + Groups(Mine(s, rp, i))
      invariant forall j :: 0 <= j < w.buf.Length && !(old(w.p) <= j < w.p) ==> w.buf[j] == old(w.buf[j])
    {
      MineGrows(s, rp, i + 1, |s|);
      MineNext(s, rp, i);
      var r := false;
      if s[i].rp == rp { r := IsResolved(s, i); }
      ResolvedIs(s, i);
      if r {
        PutGroup(w, s[i]);
        assert head + Groups(Mine(s, rp, i)) + Group(s[i]) == head + Groups(Mine(s, rp, i + 1));
      }
      i := i + 1;
    }
    assert head + Groups(Mine(s, rp, |s|)) == old(w.Written()) + RpBytes(RpBlock(rp, Mine(s, rp, |s|)));
  }

  lemma MineStart(s: seq<Ann>, rp: Addr)
    ensures Mine(s, rp, 0) == [] && AllOnWire([]) && Groups([]) == []
  {
  }

  lemma MineNext(s: seq<Ann>, rp: Addr, i: nat)
    requires i < |s| && AllOnWire(s) && AllOnWire(Mine(s, rp, i))
    ensures AllOnWire(Mine(s, rp, i + 1)) && OnWire(s[i])
    ensures s[i].rp == rp && Resolved(s, i) ==>
              |Mine(s, rp, i + 1)| == |Mine(s, rp, i)| + 1 &&
                  Groups(Mine(s, rp, i + 1)) == Groups(Mine(s, rp, i)) + Group(s[i])
    ensures !(s[i].rp == rp && Resolved(s, i)) ==> Mine(s, rp, i + 1) == Mine(s, rp, i)
  {
    GroupsAdd(Mine(s, rp, i), s[i]);
  }

  lemma ResolvedIs(s: seq<Ann>, i: nat)
    requires i < |s|
    ensures Resolved(s, i) <==> Winner(s, i) && !Dropped(s, i)
  {
  }

  /** autorp_encode_rp */
  method PutRp(w: Writer, rp: Addr, n: Byte)
    requires w.Valid() && !w.full && U32Addr(rp) && RP <= w.Left()
    modifies w, w.buf
    ensures w.Valid() && !w.full && w.p == old(w.p) + RP && w.Written() == old(w.Written()) + (U32(rp) + [2] + [n])
    ensures forall j :: 0 <= j < w.buf.Length && !(old(w.p) <= j < w.p) ==> w.buf[j] == old(w.buf[j])
  {
    ConcatFive(U32(rp), [2], [n], [], []);
    PutAll(w, [U32(rp), [2], [n], [], []]);
    assert U32(rp) + [2] + [n] + [] + [] == U32(rp) + [2] + [n];
  }

  /** autorp_encode_grp */
  method PutGroup(w: Writer, a: Ann)
    requires w.Valid() && !w.full && OnWire(a) && GRP <= w.Left()
    modifies w, w.buf
    ensures w.Valid() && !w.full && w.p == old(w.p) + GRP && w.Written() == old(w.Written()) + Group(a)
    ensures forall j :: 0 <= j < w.buf.Length && !(old(w.p) <= j < w.p) ==> w.buf[j] == old(w.buf[j])
  {
    var n: Byte := if a.neg then 1 else 0;
    ConcatFive([n], [a.len], U32(a.addr), [], []);
    PutAll(w, [[n], [a.len], U32(a.addr), [], []]);
    assert [n] + [a.len] + U32(a.addr) + [] + [] == Group(a);
  }

  /** How many bytes the message is with these blocks. */
  ghost function Size(xs: seq<RpBlock>): nat {
    if xs == [] then HDR else Size(xs[..|xs| - 1]) + RP + GRP * |xs[|xs| - 1].anns|
  }

  ghost predicate AllFit(xs: seq<RpBlock>) {
    forall i :: 0 <= i < |xs| ==> BlockFits(xs[i])
  }

  /** A message that fits has at most 84 RPs, and at most 168 prefixes of one: no count wraps. */
  lemma {:induction false} CountsFit(xs: seq<RpBlock>)
    requires AllFit(xs)
    ensures HDR + (RP + GRP) * |xs| <= Size(xs)
    ensures forall i :: 0 <= i < |xs| ==> HDR + RP + GRP * |xs[i].anns| <= Size(xs)
  {
    if xs != [] {
      var pre := xs[..|xs| - 1];
      CountsFit(pre);
      forall i | 0 <= i < |xs| ensures HDR + RP + GRP * |xs[i].anns| <= Size(xs) {
        if i < |pre| { assert xs[i] == pre[i]; }
      }
    }
  }

  /** What the loop has written once it has been through the first `i` entries: the blocks of their
      RPs, each of which had room. */
  ghost predicate Packed(b: Bytes, s: seq<Ann>, i: nat, hold: nat, n: nat) {
    && i <= |s| && hold < 0x1_0000
    && n == |RpBlocks(s, i)| && AllFit(RpBlocks(s, i)) && |b| == Size(RpBlocks(s, i)) <= MAX
    && b == Head(0, hold) + Blocks(RpBlocks(s, i))
  }

  lemma PackedStart(s: seq<Ann>, hold: nat)
    requires hold < 0x1_0000
    ensures Packed(Head(0, hold), s, 0, hold, 0)
  {
    assert Head(0, hold) + [] == Head(0, hold);
  }

  lemma PackedSkip(b: Bytes, s: seq<Ann>, i: nat, hold: nat, n: nat)
    requires Packed(b, s, i, hold, n) && i < |s| && (!FirstOf(s, i) || Mine(s, s[i].rp, |s|) == [])
    ensures Packed(b, s, i + 1, hold, n)
  {
    assert RpBlocks(s, i + 1) == RpBlocks(s, i);
  }

  lemma PackedAdd(b: Bytes, s: seq<Ann>, i: nat, hold: nat, n: nat)
    requires Packed(b, s, i, hold, n) && i < |s| && FirstOf(s, i) && Mine(s, s[i].rp, |s|) != []
    requires BlockFits(RpBlock(s[i].rp, Mine(s, s[i].rp, |s|))) && |b| + RP + GRP * |Mine(s, s[i].rp, |s|)| <= MAX
    ensures Packed(b + RpBytes(RpBlock(s[i].rp, Mine(s, s[i].rp, |s|))), s, i + 1, hold, n + 1)
  {
    var x := RpBlock(s[i].rp, Mine(s, s[i].rp, |s|));
    var xs, ys := RpBlocks(s, i), RpBlocks(s, i + 1);
    assert ys == xs + [x] && ys[..|ys| - 1] == xs;
  }

  lemma {:induction false} BlocksGrow(s: seq<Ann>, i: nat, n: nat)
    requires i <= n <= |s|
    ensures RpBlocks(s, i) <= RpBlocks(s, n)
    decreases n
  {
    if i < n { BlocksGrow(s, i, n - 1); }
  }

  /** The message is the first `k` blocks, and either they are all of them or the next does not fit. */
  ghost predicate Leading(s: seq<Ann>, k: nat) {
    var xs := RpBlocks(s, |s|);
    && k <= |xs| && AllFit(xs[..k]) && Size(xs[..k]) <= MAX
    && (k == |xs| || Size(xs[..k]) + RP + GRP * |xs[k].anns| > MAX)
  }

  lemma PackedLeads(b: Bytes, s: seq<Ann>, i: nat, hold: nat, n: nat)
    requires Packed(b, s, i, hold, n)
    requires i == |s| ||
              (FirstOf(s, i) && Mine(s, s[i].rp, |s|) != [] && |b| + RP + GRP * |Mine(s, s[i].rp, |s|)| > MAX)
    ensures Leading(s, n) && b == Head(0, hold) + Blocks(RpBlocks(s, |s|)[..n])
  {
    var xs := RpBlocks(s, |s|);
    BlocksGrow(s, i, |s|);
    assert xs[..n] == RpBlocks(s, i);
    if i < |s| { BlocksGrow(s, i + 1, |s|); }
  }

  /** autorp_send_mapping: whole blocks of a leading part of the RPs, as many as fit. */
  method SendMapping(s: seq<Ann>, hold: nat) returns (sent: bool, msg: Bytes, k: nat)
    requires Announced(s) && AllOnWire(s) && hold < 0x1_0000
    ensures Leading(s, k) && k <= 84 && (sent <==> k > 0)
    ensures sent ==> msg == Head(k, hold) + Blocks(RpBlocks(s, |s|)[..k])
  {
    hide Packed, Leading, FirstOf, BlockFits, Announced, Mine, RpBytes;
    var buf := new Byte[MAX](i => 0);
    var w := new Writer(buf, 0, MAX);
    PutHead(w, hold);
    PackedStart(s, hold);
    var n := 0;
    var i := 0;
    while i < |s|
      invariant 0 <= i <= |s| && fresh(w) && fresh(w.buf) && w.buf == buf && w.Valid() && w.start == 0
      invariant w.end == MAX && !w.full
      invariant Packed(w.Written(), s, i, hold, n)
    {
      var earlier := HasEarlier(s, i);
      var count := 0;
      if !earlier { count := CountMine(s, s[i].rp); }
      if earlier || count == 0 {
        PackedSkip(w.Written(), s, i, hold, n);
      } else {
        var room := w.Room(RP + GRP * count);
        if !room { break; }
        ghost var b := w.Written();
        WriteBlock(w, s, s[i].rp, count);
        PackedAdd(b, s, i, hold, n);
        n := n + 1;
      }
      i := i + 1;
    }
    ghost var b := w.Written();
    PackedLeads(b, s, i, hold, n);
    k := n;
    LeadingCounts(s, k);
    if n == 0 { return false, [], 0; }
    w.buf[1] := n;
    HeadCounts(b, n, hold, Blocks(RpBlocks(s, |s|)[..k]));
    return true, w.Written(), k;
  }

  lemma LeadingCounts(s: seq<Ann>, k: nat)
    requires Leading(s, k)
    ensures k <= 84 && k <= |RpBlocks(s, |s|)| && AllFit(RpBlocks(s, |s|)[..k])
    ensures forall i :: 0 <= i < k ==> |RpBlocks(s, |s|)[i].anns| <= 168
  {
    var xs := RpBlocks(s, |s|)[..k];
    CountsFit(xs);
    forall i | 0 <= i < k ensures |RpBlocks(s, |s|)[i].anns| <= 168 { assert xs[i] == RpBlocks(s, |s|)[i]; }
  }

  lemma HeadCounts(b: Bytes, n: Byte, hold: nat, rest: Bytes)
    requires hold < 0x1_0000 && b == Head(0, hold) + rest
    ensures |b| >= 2 && b[1 := n] == Head(n, hold) + rest
  {
  }

  method PutHead(w: Writer, hold: nat)
    requires w.Valid() && !w.full && w.Left() >= HDR && hold < 0x1_0000 && w.start == w.p
    modifies w, w.buf
    ensures w.Valid() && !w.full && w.Written() == Head(0, hold)
  {
    ConcatFive([0x12], [0], U16(hold), U32(0), []);
    PutAll(w, [[0x12], [0], U16(hold), U32(0), []]);
    assert [0x12] + [0] + U16(hold) + U32(0) + [] == Head(0, hold);
  }

  /** Decoding what autorp_send_mapping built gives whole blocks of a leading part of the RPs; when
      all fit it gives exactly the resolved announcements, so what a router concludes from it is
      what it would from them. */
  lemma MappingSaysResolved(s: seq<Ann>, hold: nat, k: nat)
    requires Leading(s, k) && hold < 0x1_0000
    ensures k <= 84 && AllFit(RpBlocks(s, |s|)[..k])
    ensures var b := Head(k, hold) + Blocks(RpBlocks(s, |s|)[..k]);
            && ParseHdr(b).Opened? && All(b, ParseHdr(b).c) == Flat(RpBlocks(s, |s|)[..k])
            && (k == |RpBlocks(s, |s|)| ==> Mapping(s, All(b, ParseHdr(b).c)))
  {
    LeadingCounts(s, k);
    hide BlockFits, Mapping, Leading, All, RpBlocks, Flat, Blocks;
    var xs := RpBlocks(s, |s|);
    MessageBack(xs[..k], hold);
    AllIsMapping(s);
    if k == |xs| { assert xs[..k] == xs; }
  }
}
