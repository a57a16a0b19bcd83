/** Join/Prune messages, section 4.9.5 of RFC 7761: written, validated, and read back. */
module JoinPrune {
  import opened Inet
  import opened Wire

  const HEADER := 4     // the PIM header
  const MINLEN := 14    // and the upstream neighbor, group count and holdtime
  const SET := 12       // an Encoded-Group and the two counts
  const SRC := 8        // an Encoded-Source

  datatype Source = Source(addr: Addr, flags: Byte)

  datatype Group = Group(addr: Addr, masklen: nat, joins: seq<Source>, prunes: seq<Source>)

  datatype Msg = Msg(upstream: Addr, holdtime: nat, groups: seq<Group>)

  // ----- encoding

  predicate Fits(g: Group) {
    && U32Addr(g.addr) && g.masklen <= 32 && |g.joins| < 0x1_0000 && |g.prunes| < 0x1_0000
    && (forall i :: 0 <= i < |g.joins| ==> U32Addr(g.joins[i].addr))
    && (forall i :: 0 <= i < |g.prunes| ==> U32Addr(g.prunes[i].addr))
  }

  predicate Encodable(m: Msg) {
    U32Addr(m.upstream) && m.holdtime < 0x1_0000 && |m.groups| <= 255 &&
        forall i :: 0 <= i < |m.groups| ==> Fits(m.groups[i])
  }

  /** pim_put_esaddr of a whole address */
  function SourceAddr(s: Source): (b: Bytes)
    requires U32Addr(s.addr)
    ensures |b| == SRC
  {
    [1, 0, s.flags, 32] + U32(s.addr)
  }

  function Sources(ss: seq<Source>): (b: Bytes)
    requires forall i :: 0 <= i < |ss| ==> U32Addr(ss[i].addr)
    ensures |b| == SRC * |ss|
  {
    if ss == [] then [] else SourceAddr(ss[0]) + Sources(ss[1..])
  }

  function GroupSet(g: Group): (b: Bytes)
    requires Fits(g)
    ensures |b| == SET + SRC * (|g.joins| + |g.prunes|)
  {
    GroupAddr(g.addr, g.masklen) + U16(|g.joins|) + U16(|g.prunes|) + Sources(g.joins) + Sources(g.prunes)
  }

  function GroupSets(gs: seq<Group>): Bytes
    requires forall i :: 0 <= i < |gs| ==> Fits(gs[i])
  {
    if gs == [] then [] else GroupSet(gs[0]) + GroupSets(gs[1..])
  }

  /** The body, behind the PIM header. */
  function Body(m: Msg): Bytes
    requires Encodable(m)
  {
    Unicast(m.upstream) + [0, |m.groups|] + U16(m.holdtime) + GroupSets(m.groups)
  }

  // ----- validation

  datatype Verdict =
    | Ok | Short | Upstream | NoGroups | Truncated | GroupMasklen | GroupFamily | SourceFamily | SourceMasklen

  /** How many sources the set at `at` has. */
  function Count(b: Bytes, at: nat): nat
    requires at + SET <= |b|
  {
    Get16(b, at + 8) + Get16(b, at + 10)
  }

  function SourcesVerdict(b: Bytes, at: nat, n: nat): Verdict
    requires at + SRC * n <= |b|
    decreases n
  {
    if n == 0 then Ok
    else if !IPv4(b, at) then SourceFamily
    else if b[at + 3] != 32 then SourceMasklen
    else SourcesVerdict(b, at + SRC, n - 1)
  }

  function SetVerdict(b: Bytes, at: nat): (v: Verdict)
    ensures v == Ok ==>
              at + SET <= |b| && at + SET + SRC * Count(b, at) <= |b| && SourcesVerdict(b, at + SET, Count(b, at)) == Ok
  {
    if at + SET > |b| then Truncated
    else if b[at + 3] > 32 then GroupMasklen
    else if !IPv4(b, at) then GroupFamily
    else if at + SET + SRC * Count(b, at) > |b| then Truncated
    else SourcesVerdict(b, at + SET, Count(b, at))
  }

  /** pim_jp_group: where the set after the one at `at` is. */
  function Next(b: Bytes, at: nat): nat
    requires at + SET <= |b|
  {
    at + SET + SRC * Count(b, at)
  }

  function SetsVerdict(b: Bytes, at: nat, n: nat): Verdict
    decreases n
  {
    if n == 0 then Ok
    else if SetVerdict(b, at) != Ok then SetVerdict(b, at)
    else SetsVerdict(b, Next(b, at), n - 1)
  }

  function MsgVerdict(b: Bytes): Verdict {
    if |b| < MINLEN then Short
    else if !IPv4(b, HEADER) then Upstream
    else if b[HEADER + 7] == 0 then NoGroups
    else SetsVerdict(b, MINLEN, b[HEADER + 7])
  }

  /** pim_parse_jp_srcs */
  method ParseSources(b: Bytes, at: nat, len: nat) returns (rc: Verdict)
    requires at + len <= |b| && len % SRC == 0
    ensures rc == SourcesVerdict(b, at, len / SRC)
  {
    var off := 0;
    while off < len
      invariant 0 <= off <= len && off % SRC == 0
      invariant SourcesVerdict(b, at, len / SRC) == SourcesVerdict(b, at + off, (len - off) / SRC)
    {
      var p := at + off;
      assert (len - off) / SRC == (len - (off + SRC)) / SRC + 1;
      if b[p] != 1 || b[p + 1] != 0 { return SourceFamily; }
      if b[p + 3] != 32 { return SourceMasklen; }
      off := off + SRC;
    }
    return Ok;
  }

  /** pim_parse_jp: refused at the first thing that is not inside the message or not readable, with
      the bounds of the sets it has been through. */
  method ParseMsg(b: Bytes) returns (rc: Verdict, ghost bounds: seq<nat>)
    ensures rc == MsgVerdict(b)
    ensures rc == Ok ==> bounds == Walk(b, MINLEN, b[HEADER + 7])
  {
    bounds := [];
    if |b| < MINLEN { return Short, []; }
    if b[HEADER] != 1 || b[HEADER + 1] != 0 { return Upstream, []; }
    if b[HEADER + 7] == 0 { return NoGroups, []; }
    var p: nat, left: nat, n: nat := MINLEN, |b| - MINLEN, b[HEADER + 7];
    while n > 0
      invariant 0 <= n && p + left == |b|
      invariant MsgVerdict(b) == SetsVerdict(b, p, n)
      invariant SetsVerdict(b, p, n) == Ok ==> bounds + Walk(b, p, n) == Walk(b, MINLEN, b[HEADER + 7])
    {
      if left < SET { return Truncated, []; }
      if b[p + 3] > 32 { return GroupMasklen, []; }
      if b[p] != 1 || b[p + 1] != 0 { return GroupFamily, []; }
      var srclen := (Get16(b, p + 8) + Get16(b, p + 10)) * SRC;
      if left - SET < srclen { return Truncated, []; }
      assert srclen / SRC == Count(b, p);
      rc := ParseSources(b, p + SET, srclen);
      if rc != Ok { return rc, []; }
      bounds := bounds + [p];
      p, left, n := p + SET + srclen, left - SET - srclen, n - 1;
    }
    return Ok, bounds;
  }

  // ----- the second walk

  /** The sets pim_jp_group visits, from `at` on. */
  ghost function Walk(b: Bytes, at: nat, n: nat): seq<nat>
    requires SetsVerdict(b, at, n) == Ok
    decreases n
  {
    if n == 0 then [] else [at] + Walk(b, Next(b, at), n - 1)
  }

  /** pim_jp_source */
  function SourceAt(b: Bytes, srcs: nat, i: nat): Source
    requires srcs + SRC * i + SRC <= |b|
  {
    Source(Get32(b, srcs + SRC * i + 4), b[srcs + SRC * i + 2])
  }

  /** Every set of an accepted message, and every source of it, is inside the message, IPv4 and with
      the mask of a host. */
  lemma {:induction false} WalkInside(b: Bytes, at: nat, n: nat, k: nat, i: nat)
    requires SetsVerdict(b, at, n) == Ok && k < n
    ensures |Walk(b, at, n)| == n && Walk(b, at, n)[k] + SET <= |b|
    ensures var set' := Walk(b, at, n)[k];
            && b[set' + 3] <= 32 && IPv4(b, set')
            && (i < Count(b, set') ==>
                  set' + SET + SRC * i + SRC <= |b| && IPv4(b, set' + SET + SRC * i) &&
                  b[set' + SET + SRC * i + 3] == 32)
    decreases n
  {
    if k > 0 {
      WalkInside(b, Next(b, at), n - 1, k - 1, i);
    } else {
      WalkLength(b, at, n);
      if i < Count(b, at) { SourceInside(b, at + SET, Count(b, at), i); }
    }
  }

  lemma {:induction false} WalkLength(b: Bytes, at: nat, n: nat)
    requires SetsVerdict(b, at, n) == Ok
    ensures |Walk(b, at, n)| == n
    decreases n
  {
    if n > 0 { WalkLength(b, Next(b, at), n - 1); }
  }

  lemma {:induction false} SourceInside(b: Bytes, at: nat, n: nat, i: nat)
    requires at + SRC * n <= |b| && SourcesVerdict(b, at, n) == Ok && i < n
    ensures IPv4(b, at + SRC * i) && b[at + SRC * i + 3] == 32
    decreases n
  {
    if i > 0 { SourceInside(b, at + SRC, n - 1, i - 1); }
  }

  // ----- the round trip

  function ReadSources(b: Bytes, srcs: nat, from: nat, n: nat): seq<Source>
    requires srcs + SRC * (from + n) <= |b|
  {
    seq(n, i requires 0 <= i < n => SourceAt(b, srcs, from + i))
  }

  function ReadGroup(b: Bytes, at: nat): Group
    requires at + SET <= |b| && Next(b, at) <= |b|
  {
    var j, p := Get16(b, at + 8), Get16(b, at + 10);
    Group(Get32(b, at + 4), b[at + 3], ReadSources(b, at + SET, 0, j), ReadSources(b, at + SET, j, p))
  }

  function ReadGroups(b: Bytes, at: nat, n: nat): seq<Group>
    requires SetsVerdict(b, at, n) == Ok
    decreases n
  {
    if n == 0 then [] else [ReadGroup(b, at)] + ReadGroups(b, Next(b, at), n - 1)
  }

  /** What a receiver reads of an accepted message. */
  function Read(b: Bytes): Msg
    requires MsgVerdict(b) == Ok
  {
    Msg(Get32(b, HEADER + 2), Get16(b, HEADER + 8), ReadGroups(b, MINLEN, b[HEADER + 7]))
  }

  function Masked(g: Group): Group
    requires g.masklen <= 32
  {
    g.(addr := MaskedTo(g.addr, g.masklen))
  }

  lemma SourceBack(b: Bytes, at: nat, s: Source)
    requires U32Addr(s.addr) && At(b, at, SourceAddr(s))
    ensures IPv4(b, at) && b[at + 3] == 32 && SourceAt(b, at, 0) == s
  {
    var h := [1, 0, s.flags, 32];
    AtSplit(b, at, h, U32(s.addr));
    AtIndex(b, at, h, 0);
    AtIndex(b, at, h, 1);
    AtIndex(b, at, h, 2);
    AtIndex(b, at, h, 3);
    Read32(b, at + 4, s.addr);
  }

  lemma {:induction false} SourcesBack(b: Bytes, at: nat, ss: seq<Source>)
    requires (forall i :: 0 <= i < |ss| ==> U32Addr(ss[i].addr)) && At(b, at, Sources(ss))
    ensures SourcesVerdict(b, at, |ss|) == Ok
    ensures forall i :: 0 <= i < |ss| ==> SourceAt(b, at, i) == ss[i]
    decreases |ss|
  {
    if ss != [] {
      AtSplit(b, at, SourceAddr(ss[0]), Sources(ss[1..]));
      SourceBack(b, at, ss[0]);
      SourcesBack(b, at + SRC, ss[1..]);
      forall i | 0 < i < |ss|
        ensures SourceAt(b, at, i) == ss[i]
      {
        assert SourceAt(b, at + SRC, i - 1) == ss[1..][i - 1];
      }
    }
  }

  lemma GroupHeadBack(b: Bytes, at: nat, g: Group)
    requires Fits(g) && At(b, at, GroupAddr(g.addr, g.masklen) + U16(|g.joins|) + U16(|g.prunes|))
    ensures at + SET <= |b| && IPv4(b, at) && b[at + 3] == g.masklen && Get32(b, at + 4) == MaskedTo(g.addr, g.masklen)
    ensures Get16(b, at + 8) == |g.joins| && Get16(b, at + 10) == |g.prunes|
  {
    AtSplit(b, at, GroupAddr(g.addr, g.masklen) + U16(|g.joins|), U16(|g.prunes|));
    AtSplit(b, at, GroupAddr(g.addr, g.masklen), U16(|g.joins|));
    ReadGroupAddr(b, at, g.addr, g.masklen);
    Read16(b, at + 8, |g.joins|);
    Read16(b, at + 10, |g.prunes|);
  }

  lemma {:induction false} SourcesVerdictAdd(b: Bytes, at: nat, m: nat, n: nat)
    requires at + SRC * (m + n) <= |b| && SourcesVerdict(b, at, m) == Ok
    ensures SourcesVerdict(b, at, m + n) == SourcesVerdict(b, at + SRC * m, n)
    decreases m
  {
    if m > 0 { SourcesVerdictAdd(b, at + SRC, m - 1, n); }
  }

  lemma GroupSetParts(b: Bytes, at: nat, g: Group)
    requires Fits(g) && At(b, at, GroupSet(g))
    ensures At(b, at, GroupAddr(g.addr, g.masklen) + U16(|g.joins|) + U16(|g.prunes|))
    ensures At(b, at + SET, Sources(g.joins)) && At(b, at + SET + SRC * |g.joins|, Sources(g.prunes))
    ensures at + |GroupSet(g)| <= |b|
  {
    var head := GroupAddr(g.addr, g.masklen) + U16(|g.joins|) + U16(|g.prunes|);
    AtSplit(b, at, head + Sources(g.joins), Sources(g.prunes));
    AtSplit(b, at, head, Sources(g.joins));
  }

  lemma SourcesReadBack(b: Bytes, at: nat, g: Group)
    requires at + SRC * (|g.joins| + |g.prunes|) <= |b|
    requires forall i :: 0 <= i < |g.joins| ==> SourceAt(b, at, i) == g.joins[i]
    requires forall i :: 0 <= i < |g.prunes| ==> SourceAt(b, at + SRC * |g.joins|, i) == g.prunes[i]
    ensures ReadSources(b, at, 0, |g.joins|) == g.joins && ReadSources(b, at, |g.joins|, |g.prunes|) == g.prunes
  {
    var j := |g.joins|;
    forall i | 0 <= i < |g.prunes| ensures SourceAt(b, at, j + i) == g.prunes[i] {
      assert SourceAt(b, at, j + i) == SourceAt(b, at + SRC * j, i);
    }
  }

  lemma GroupBack(b: Bytes, at: nat, g: Group)
    requires Fits(g) && At(b, at, GroupSet(g))
    ensures SetVerdict(b, at) == Ok && Next(b, at) == at + |GroupSet(g)| && ReadGroup(b, at) == Masked(g)
  {
    hide At, Sources, GroupSet, GroupAddr, U16, SourceAt, SourcesVerdict, Get16, Get32, ReadSources, MaskedTo;
    var j, p := |g.joins|, |g.prunes|;
    GroupSetParts(b, at, g);
    GroupHeadBack(b, at, g);
    SourcesBack(b, at + SET, g.joins);
    SourcesBack(b, at + SET + SRC * j, g.prunes);
    SourcesVerdictAdd(b, at + SET, j, p);
    SourcesReadBack(b, at + SET, g);
  }

  ghost function MaskedAll(gs: seq<Group>): seq<Group>
    requires forall i :: 0 <= i < |gs| ==> gs[i].masklen <= 32
  {
    if gs == [] then [] else [Masked(gs[0])] + MaskedAll(gs[1..])
  }

  lemma {:induction false} GroupsBack(b: Bytes, at: nat, gs: seq<Group>)
    requires (forall i :: 0 <= i < |gs| ==> Fits(gs[i])) && At(b, at, GroupSets(gs))
    ensures SetsVerdict(b, at, |gs|) == Ok && ReadGroups(b, at, |gs|) == MaskedAll(gs)
    decreases |gs|
  {
    hide At, Fits, GroupSet, SetVerdict, ReadGroup, Next, Masked;
    if gs != [] {
      AtSplit(b, at, GroupSet(gs[0]), GroupSets(gs[1..]));
      GroupBack(b, at, gs[0]);
      GroupsBack(b, at + |GroupSet(gs[0])|, gs[1..]);
    }
  }

  /** A message of at least one group, whatever its sources, is accepted and read as it was written,
      its group addresses masked. */
  lemma RoundTrip(hdr: Bytes, m: Msg)
    requires |hdr| == HEADER && Encodable(m) && m.groups != []
    ensures MsgVerdict(hdr + Body(m)) == Ok && Read(hdr + Body(m)) == m.(groups := MaskedAll(m.groups))
  {
    var b := hdr + Body(m);
    assert At(b, HEADER, Body(m));
    var head := Unicast(m.upstream) + [0, |m.groups|] + U16(m.holdtime);
    AtSplit(b, HEADER, head, GroupSets(m.groups));
    AtSplit(b, HEADER, Unicast(m.upstream) + [0, |m.groups|], U16(m.holdtime));
    AtSplit(b, HEADER, Unicast(m.upstream), [0, |m.groups|]);
    ReadUnicast(b, HEADER, m.upstream);
    AtIndex(b, HEADER + 6, [0, |m.groups|], 1);
    Read16(b, HEADER + 8, m.holdtime);
    GroupsBack(b, MINLEN, m.groups);
  }

  // ----- the builder

  /** pim_encode_jp_source, for each of a list */
  method EncodeSources(ss: seq<Source>) returns (b: Bytes)
    requires forall i :: 0 <= i < |ss| ==> U32Addr(ss[i].addr)
    ensures b == Sources(ss)
  {
    b := [];
    var i := 0;
    assert ss[0..] == ss;
    while i < |ss|
      invariant 0 <= i <= |ss| && b + Sources(ss[i..]) == Sources(ss)
    {
      assert ss[i..][1..] == ss[i + 1..];
      b := b + SourceAddr(ss[i]);
      i := i + 1;
    }
  }

  /** pim_encode_jp_group */
  method EncodeGroup(w: Writer, g: Group)
    requires w.Valid() && Fits(g)
    modifies w, w.buf
    ensures w.Valid() && old(w.p) <= w.p
    ensures w.full <==> old(w.full) || |GroupSet(g)| > old(w.Left())
    ensures !w.full ==> w.p == old(w.p) + |GroupSet(g)| && w.Written() == old(w.Written()) + GroupSet(g)
    ensures forall j :: 0 <= j < w.buf.Length && !(old(w.p) <= j < w.p) ==> w.buf[j] == old(w.buf[j])
  {
    var joins := EncodeSources(g.joins);
    var prunes := EncodeSources(g.prunes);
    var head, j, p := GroupAddr(g.addr, g.masklen), U16(|g.joins|), U16(|g.prunes|);
    ConcatFive(head, j, p, joins, prunes);
    PutAll(w, [head, j, p, joins, prunes]);
  }

  lemma SetsStep(done: Bytes, gs: seq<Group>, i: nat)
    requires (forall i :: 0 <= i < |gs| ==> Fits(gs[i])) && i < |gs|
    ensures done + GroupSets(gs[i..]) == done + GroupSet(gs[i]) + GroupSets(gs[i + 1..])
  {
    assert gs[i..][1..] == gs[i + 1..];
  }

  /** The header with a group count of zero: pim_encode_jp_hdr. */
  function Head(m: Msg, count: Byte): (b: Bytes)
    requires Encodable(m)
    ensures |b| == MINLEN - HEADER
  {
    Unicast(m.upstream) + [0] + [count] + U16(m.holdtime)
  }

  method EncodeGroups(w: Writer, gs: seq<Group>)
    requires w.Valid() && forall i :: 0 <= i < |gs| ==> Fits(gs[i])
    modifies w, w.buf
    ensures w.Valid() && old(w.p) <= w.p
    ensures w.full <==> old(w.full) || |GroupSets(gs)| > old(w.Left())
    ensures !w.full ==> w.p == old(w.p) + |GroupSets(gs)| && w.Written() == old(w.Written()) + GroupSets(gs)
    ensures forall j :: 0 <= j < w.buf.Length && !(old(w.p) <= j < w.p) ==> w.buf[j] == old(w.buf[j])
  {
    hide Fits, GroupSet;
    ghost var before, start := w.Written(), w.p;
    var i := 0;
    assert gs[0..] == gs;
    while i < |gs|
      invariant 0 <= i <= |gs| && w.Valid() && start <= w.p
      invariant |GroupSets(gs[i..])| <= |GroupSets(gs)|
      invariant w.full <==> old(w.full) || |GroupSets(gs)| - |GroupSets(gs[i..])| > old(w.Left())
      invariant !w.full ==> w.p == start + |GroupSets(gs)| - |GroupSets(gs[i..])|
      invariant !w.full ==> w.Written() + GroupSets(gs[i..]) == before + GroupSets(gs)
      invariant forall j :: 0 <= j < w.buf.Length && !(start <= j < w.p) ==> w.buf[j] == old(w.buf[j])
    {
      SetsStep(w.Written(), gs, i);
      SetsStep([], gs, i);
      EncodeGroup(w, gs[i]);
      i := i + 1;
    }
  }

  /** pim_encode_jp_hdr: the group count is zero until the sets are packed. */
  method EncodeHead(w: Writer, m: Msg)
    requires w.Valid() && Encodable(m)
    modifies w, w.buf
    ensures w.Valid() && old(w.p) <= w.p
    ensures w.full <==> old(w.full) || |Head(m, 0)| > old(w.Left())
    ensures !w.full ==> w.p == old(w.p) + |Head(m, 0)| && w.Written() == old(w.Written()) + Head(m, 0)
    ensures forall j :: 0 <= j < w.buf.Length && !(old(w.p) <= j < w.p) ==> w.buf[j] == old(w.buf[j])
  {
    ConcatFive(Unicast(m.upstream), [0], [0], U16(m.holdtime), []);
    PutAll(w, [Unicast(m.upstream), [0], [0], U16(m.holdtime), []]);
    assert Unicast(m.upstream) + [0] + [0] + U16(m.holdtime) + [] == Head(m, 0);
  }

  /** A Join/Prune body: the header, the sets, and the group count put in once they are packed. */
  method Encode(w: Writer, m: Msg)
    requires w.Valid() && Encodable(m)
    modifies w, w.buf
    ensures w.Valid() && old(w.p) <= w.p
    ensures w.full <==> old(w.full) || |Body(m)| > old(w.Left())
    ensures !w.full ==> w.Written() == old(w.Written()) + Body(m)
    ensures forall j :: 0 <= j < w.buf.Length && !(old(w.p) <= j < w.p) ==> w.buf[j] == old(w.buf[j])
  {
    hide GroupSets, Fits;
    var start := w.p;
    ghost var before := w.Written();
    EncodeHead(w, m);
    EncodeGroups(w, m.groups);
    BodyIs(m);
    if !w.full {
      assert w.Written() == before + Head(m, 0) + GroupSets(m.groups);
      w.buf[start + 7] := |m.groups|;
      assert w.Written() == (before + Head(m, 0) + GroupSets(m.groups))[|before| + 7 := |m.groups|];
      Patched(before, m, w.Written());
    }
  }

  lemma BodyIs(m: Msg)
    requires Encodable(m)
    ensures Body(m) == Head(m, |m.groups|) + GroupSets(m.groups)
  {
    assert [0, |m.groups|] == [0] + [|m.groups|];
  }

  lemma Patched(before: Bytes, m: Msg, b: Bytes)
    requires Encodable(m) && |b| == |before| + |Body(m)| && |Body(m)| == MINLEN - HEADER + |GroupSets(m.groups)|
    requires b == (before + Head(m, 0) + GroupSets(m.groups))[|before| + 7 := |m.groups|]
    ensures b == before + Body(m)
  {
    BodyIs(m);
  }
}