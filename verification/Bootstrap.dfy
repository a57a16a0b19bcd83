/** Bootstrap messages, section 4.1 of RFC 5059: written, validated, and read back. */
module Bootstrap {
  import opened Inet
  import opened Wire

  const HEADER := 4     // the PIM header
  const MINLEN := 14    // and the tag, hash mask length, priority and BSR
  const SET := 12       // an Encoded-Group, the two counts, a reserved word
  const REC := 10       // an RP record

  datatype Rp = Rp(addr: Addr, holdtime: nat, priority: Byte)

  datatype Range = Range(addr: Addr, masklen: nat, rpCount: Byte, rps: seq<Rp>)

  datatype Msg = Msg(tag: nat, hashMasklen: nat, priority: Byte, bsr: Addr, ranges: seq<Range>)

  // ----- encoding

  predicate RpFits(r: Rp) {
    U32Addr(r.addr) && r.holdtime < 0x1_0000
  }

  predicate Fits(r: Range) {
    U32Addr(r.addr) && r.masklen <= 32 && |r.rps| <= 255 && forall i :: 0 <= i < |r.rps| ==> RpFits(r.rps[i])
  }

  predicate Encodable(m: Msg) {
    m.tag < 0x1_0000 && m.hashMasklen <= 32 && U32Addr(m.bsr) && forall i :: 0 <= i < |m.ranges| ==> Fits(m.ranges[i])
  }

  function Record(r: Rp): (b: Bytes)
    requires RpFits(r)
    ensures |b| == REC
  {
    Unicast(r.addr) + U16(r.holdtime) + [r.priority] + [0]
  }

  function Records(rs: seq<Rp>): (b: Bytes)
    requires forall i :: 0 <= i < |rs| ==> RpFits(rs[i])
    ensures |b| == REC * |rs|
  {
    if rs == [] then [] else Record(rs[0]) + Records(rs[1..])
  }

  function SetHead(r: Range): (b: Bytes)
    requires Fits(r)
    ensures |b| == SET
  {
    GroupAddr(r.addr, r.masklen) + [r.rpCount] + [|r.rps|] + U16(0)
  }

  function RangeSet(r: Range): (b: Bytes)
    requires Fits(r)
    ensures |b| == SET + REC * |r.rps|
  {
    SetHead(r) + Records(r.rps)
  }

  function Sets(rs: seq<Range>): Bytes
    requires forall i :: 0 <= i < |rs| ==> Fits(rs[i])
  {
    if rs == [] then [] else RangeSet(rs[0]) + Sets(rs[1..])
  }

  function Head(m: Msg): (b: Bytes)
    requires Encodable(m)
    ensures |b| == MINLEN - HEADER
  {
    U16(m.tag) + [m.hashMasklen] + [m.priority] + Unicast(m.bsr)
  }

  function Body(m: Msg): Bytes
    requires Encodable(m)
  {
    Head(m) + Sets(m.ranges)
  }

  // ----- validation

  datatype Verdict = Ok | Short | Family | HashMasklen | GroupMasklen | GroupFamily | Truncated

  /** pim_bsr_group: where the set after the one at `at` is. */
  function Next(b: Bytes, at: nat): nat
    requires at + SET <= |b|
  {
    at + SET + REC * b[at + 9]
  }

  function SetVerdict(b: Bytes, at: nat): Verdict
    requires at + SET <= |b|
  {
    if b[at + 3] > 32 then GroupMasklen
    else if !IPv4(b, at) then GroupFamily
    else if Next(b, at) > |b| then Truncated
    else Ok
  }

  /** The walk goes on while a set with one record still fits. */
  function SetsVerdict(b: Bytes, at: nat): Verdict
    requires at <= |b|
    decreases |b| - at
  {
    if at + SET + REC > |b| then Ok
    else if SetVerdict(b, at) != Ok then SetVerdict(b, at)
    else SetsVerdict(b, Next(b, at))
  }

  function MsgVerdict(b: Bytes): Verdict {
    if |b| < MINLEN then Short
    else if !IPv4(b, HEADER + 4) then Family
    else if b[HEADER + 2] > 32 then HashMasklen
    else SetsVerdict(b, MINLEN)
  }

  /** pim_parse_bsr, with the bounds of the sets it has been through. */
  method ParseMsg(b: Bytes) returns (rc: Verdict, numSets: nat, ghost bounds: seq<nat>)
    ensures rc == MsgVerdict(b)
    ensures rc == Ok ==> bounds == Walk(b, MINLEN) && numSets == |bounds|
  {
    numSets, bounds := 0, [];
    if |b| < MINLEN { return Short, 0, []; }
    if b[HEADER + 4] != 1 || b[HEADER + 5] != 0 { return Family, 0, []; }
    if b[HEADER + 2] > 32 { return HashMasklen, 0, []; }
    var p: nat, left: nat := MINLEN, |b| - MINLEN;
    while left >= SET + REC
      invariant p + left == |b| && numSets == |bounds|
      invariant MsgVerdict(b) == SetsVerdict(b, p)
      invariant SetsVerdict(b, p) == Ok ==> bounds + Walk(b, p) == Walk(b, MINLEN)
    {
      if b[p + 3] > 32 { return GroupMasklen, 0, []; }
      if b[p] != 1 || b[p + 1] != 0 { return GroupFamily, 0, []; }
      var rplen := b[p + 9] * REC;
      if left - SET < rplen { return Truncated, 0, []; }
      bounds := bounds + [p];
      p, left, numSets := p + SET + rplen, left - SET - rplen, numSets + 1;
    }
    return Ok, numSets, bounds;
  }

  // ----- the second walk

  /** The sets pim_bsr_group visits, from `at` on. */
  ghost function Walk(b: Bytes, at: nat): seq<nat>
    requires at <= |b| && SetsVerdict(b, at) == Ok
    decreases |b| - at
  {
    if at + SET + REC > |b| then [] else [at] + Walk(b, Next(b, at))
  }

  /** Every set of an accepted message and every record of it is inside the message. */
  lemma {:induction false} WalkInside(b: Bytes, at: nat, k: nat, i: nat)
    requires at <= |b| && SetsVerdict(b, at) == Ok && k < |Walk(b, at)|
    ensures var set' := Walk(b, at)[k];
            && set' + SET <= |b| && b[set' + 3] <= 32 && IPv4(b, set')
            && (i < b[set' + 9] ==> set' + SET + REC * i + REC <= |b|)
    decreases |b| - at
  {
    if k > 0 { WalkInside(b, Next(b, at), k - 1, i); }
  }

  // ----- the round trip

  /** pim_bsr_rp */
  function RpAt(b: Bytes, rps: nat, i: nat): Rp
    requires rps + REC * i + REC <= |b|
  {
    Rp(Get32(b, rps + REC * i + 2), Get16(b, rps + REC * i + 6), b[rps + REC * i + 8])
  }

  function ReadRange(b: Bytes, at: nat): Range
    requires at + SET <= |b| && Next(b, at) <= |b|
  {
    Range(Get32(b, at + 4), b[at + 3], b[at + 8], seq(b[at + 9], i requires 0 <= i < b[at + 9] => RpAt(b, at + SET, i)))
  }

  function ReadRanges(b: Bytes, at: nat): seq<Range>
    requires at <= |b| && SetsVerdict(b, at) == Ok
    decreases |b| - at
  {
    if at + SET + REC > |b| then [] else [ReadRange(b, at)] + ReadRanges(b, Next(b, at))
  }

  /** What a receiver reads of an accepted message. */
  function Read(b: Bytes): Msg
    requires MsgVerdict(b) == Ok
  {
    Msg(Get16(b, HEADER), b[HEADER + 2], b[HEADER + 3], Get32(b, HEADER + 6), ReadRanges(b, MINLEN))
  }

  function Masked(r: Range): Range
    requires r.masklen <= 32
  {
    r.(addr := MaskedTo(r.addr, r.masklen))
  }

  ghost function MaskedAll(rs: seq<Range>): seq<Range>
    requires forall i :: 0 <= i < |rs| ==> rs[i].masklen <= 32
  {
    if rs == [] then [] else [Masked(rs[0])] + MaskedAll(rs[1..])
  }

  /** A last set without a record is shorter than the walk asks for, and is not read. */
  function Visible(rs: seq<Range>): seq<Range> {
    if rs != [] && rs[|rs| - 1].rps == [] then rs[..|rs| - 1] else rs
  }

  lemma RecordBack(b: Bytes, at: nat, r: Rp)
    requires RpFits(r) && At(b, at, Record(r))
    ensures RpAt(b, at, 0) == r
  {
    AtSplit(b, at, Unicast(r.addr) + U16(r.holdtime) + [r.priority], [0]);
    AtSplit(b, at, Unicast(r.addr) + U16(r.holdtime), [r.priority]);
    AtSplit(b, at, Unicast(r.addr), U16(r.holdtime));
    ReadUnicast(b, at, r.addr);
    Read16(b, at + 6, r.holdtime);
    AtIndex(b, at + 8, [r.priority], 0);
  }

  lemma RpShift(b: Bytes, at: nat, i: nat)
    requires 0 < i && at + REC * i + REC <= |b|
    ensures RpAt(b, at, i) == RpAt(b, at + REC, i - 1)
  {
  }

  lemma {:induction false} RecordsBack(b: Bytes, at: nat, rs: seq<Rp>)
    requires (forall i :: 0 <= i < |rs| ==> RpFits(rs[i])) && At(b, at, Records(rs))
    ensures forall i :: 0 <= i < |rs| ==> RpAt(b, at, i) == rs[i]
    decreases |rs|
  {
    hide At, Record, RpFits, RpAt;
    AtFits(b, at, Records(rs));
    if rs != [] {
      AtSplit(b, at, Record(rs[0]), Records(rs[1..]));
      RecordBack(b, at, rs[0]);
      RecordsBack(b, at + REC, rs[1..]);
      forall i | 0 < i < |rs| ensures RpAt(b, at, i) == rs[i] {
        RpShift(b, at, i);
        assert RpAt(b, at + REC, i - 1) == rs[1..][i - 1];
      }
    }
  }

  lemma SetHeadBack(b: Bytes, at: nat, r: Range)
    requires Fits(r) && At(b, at, SetHead(r))
    ensures IPv4(b, at) && b[at + 3] == r.masklen && Get32(b, at + 4) == MaskedTo(r.addr, r.masklen)
    ensures b[at + 8] == r.rpCount && b[at + 9] == |r.rps|
  {
    AtSplit(b, at, GroupAddr(r.addr, r.masklen) + [r.rpCount] + [|r.rps|], U16(0));
    AtSplit(b, at, GroupAddr(r.addr, r.masklen) + [r.rpCount], [|r.rps|]);
    AtSplit(b, at, GroupAddr(r.addr, r.masklen), [r.rpCount]);
    ReadGroupAddr(b, at, r.addr, r.masklen);
    AtIndex(b, at + 8, [r.rpCount], 0);
    AtIndex(b, at + 9, [|r.rps|], 0);
  }

  lemma RangeBack(b: Bytes, at: nat, r: Range)
    requires Fits(r) && At(b, at, RangeSet(r))
    ensures SetVerdict(b, at) == Ok && Next(b, at) == at + |RangeSet(r)| && ReadRange(b, at) == Masked(r)
  {
    AtSplit(b, at, SetHead(r), Records(r.rps));
    SetHeadBack(b, at, r);
    RecordsBack(b, at + SET, r.rps);
  }

  lemma {:induction false} RangesBack(b: Bytes, at: nat, rs: seq<Range>)
    requires (forall i :: 0 <= i < |rs| ==> Fits(rs[i])) && At(b, at, Sets(rs)) && at + |Sets(rs)| == |b|
    ensures SetsVerdict(b, at) == Ok && ReadRanges(b, at) == MaskedAll(Visible(rs))
    decreases |rs|
  {
    if rs != [] {
      hide At, RangeSet, ReadRange, SetVerdict, Next, Masked;
      var rest := rs[1..];
      AtSplit(b, at, RangeSet(rs[0]), Sets(rest));
      RangeBack(b, at, rs[0]);
      if rest != [] || rs[0].rps != [] {
        assert rest != [] ==> |Sets(rest)| >= SET;
        RangesBack(b, at + |RangeSet(rs[0])|, rest);
        VisibleRest(rs);
      }
    }
  }

  lemma VisibleRest(rs: seq<Range>)
    requires rs != [] && (rs[1..] != [] || rs[0].rps != [])
    ensures Visible(rs) == [rs[0]] + Visible(rs[1..])
  {
    var rest := rs[1..];
    if rest != [] {
      assert rest[|rest| - 1] == rs[|rs| - 1];
      assert rs[..|rs| - 1] == [rs[0]] + rest[..|rest| - 1];
    }
    assert rs == [rs[0]] + rest;
  }

  lemma HeadBack(b: Bytes, m: Msg)
    requires Encodable(m) && At(b, HEADER, Head(m))
    ensures Get16(b, HEADER) == m.tag && b[HEADER + 2] == m.hashMasklen && b[HEADER + 3] == m.priority
    ensures IPv4(b, HEADER + 4) && Get32(b, HEADER + 6) == m.bsr
  {
    AtSplit(b, HEADER, U16(m.tag) + [m.hashMasklen] + [m.priority], Unicast(m.bsr));
    AtSplit(b, HEADER, U16(m.tag) + [m.hashMasklen], [m.priority]);
    AtSplit(b, HEADER, U16(m.tag), [m.hashMasklen]);
    Read16(b, HEADER, m.tag);
    AtIndex(b, HEADER + 2, [m.hashMasklen], 0);
    AtIndex(b, HEADER + 3, [m.priority], 0);
    ReadUnicast(b, HEADER + 4, m.bsr);
  }

  /** A message is accepted and read as it was written, its ranges masked, but for a last range
      without an RP. */
  lemma ReadsVisible(hdr: Bytes, m: Msg)
    requires |hdr| == HEADER && Encodable(m)
    ensures MsgVerdict(hdr + Body(m)) == Ok && Read(hdr + Body(m)) == m.(ranges := MaskedAll(Visible(m.ranges)))
  {
    var b := hdr + Body(m);
    assert At(b, HEADER, Body(m));
    AtSplit(b, HEADER, Head(m), Sets(m.ranges));
    HeadBack(b, m);
    RangesBack(b, MINLEN, m.ranges);
  }

  lemma {:induction false} MaskedLength(rs: seq<Range>)
    requires forall i :: 0 <= i < |rs| ==> rs[i].masklen <= 32
    ensures |MaskedAll(rs)| == |rs|
  {
    if rs != [] { MaskedLength(rs[1..]); }
  }

  /** The round trip is exact if and only if the last range has an RP. */
  lemma RoundTripExactly(hdr: Bytes, m: Msg)
    requires |hdr| == HEADER && Encodable(m)
    ensures MsgVerdict(hdr + Body(m)) == Ok
    ensures Read(hdr + Body(m)) == m.(ranges := MaskedAll(m.ranges)) <==>
              (m.ranges != [] ==> m.ranges[|m.ranges| - 1].rps != [])
  {
    ReadsVisible(hdr, m);
    MaskedLength(m.ranges);
    MaskedLength(Visible(m.ranges));
  }

  // ----- the builder

  method EncodeHead(w: Writer, m: Msg)
    requires w.Valid() && Encodable(m)
    modifies w, w.buf
    ensures w.Valid() && old(w.p) <= w.p
    ensures w.full <==> old(w.full) || |Head(m)| > old(w.Left())
    ensures !w.full ==> w.p == old(w.p) + |Head(m)| && w.Written() == old(w.Written()) + Head(m)
    ensures forall j :: 0 <= j < w.buf.Length && !(old(w.p) <= j < w.p) ==> w.buf[j] == old(w.buf[j])
  {
    ConcatFive(U16(m.tag), [m.hashMasklen], [m.priority], Unicast(m.bsr), []);
    PutAll(w, [U16(m.tag), [m.hashMasklen], [m.priority], Unicast(m.bsr), []]);
    assert U16(m.tag) + [m.hashMasklen] + [m.priority] + Unicast(m.bsr) + [] == Head(m);
  }

  lemma RecordsStep(done: Bytes, rs: seq<Rp>, i: nat)
    requires (forall j :: 0 <= j < |rs| ==> RpFits(rs[j])) && i < |rs|
    ensures done + Records(rs[i..]) == done + Record(rs[i]) + Records(rs[i + 1..])
  {
    assert rs[i..][1..] == rs[i + 1..];
  }

  /** pim_encode_bsr_rp */
  method EncodeRecord(w: Writer, r: Rp)
    requires w.Valid() && RpFits(r)
    modifies w, w.buf
    ensures w.Valid() && old(w.p) <= w.p
    ensures w.full <==> old(w.full) || REC > old(w.Left())
    ensures !w.full ==> w.p == old(w.p) + REC && w.Written() == old(w.Written()) + Record(r)
    ensures forall j :: 0 <= j < w.buf.Length && !(old(w.p) <= j < w.p) ==> w.buf[j] == old(w.buf[j])
  {
    ConcatFive(Unicast(r.addr), U16(r.holdtime), [r.priority], [0], []);
    PutAll(w, [Unicast(r.addr), U16(r.holdtime), [r.priority], [0], []]);
    assert Unicast(r.addr) + U16(r.holdtime) + [r.priority] + [0] + [] == Record(r);
  }

  /** pim_encode_bsr_group and its records */
  method EncodeRange(w: Writer, r: Range)
    requires w.Valid() && Fits(r)
    modifies w, w.buf
    ensures w.Valid() && old(w.p) <= w.p
    ensures w.full <==> old(w.full) || |RangeSet(r)| > old(w.Left())
    ensures !w.full ==> w.p == old(w.p) + |RangeSet(r)| && w.Written() == old(w.Written()) + RangeSet(r)
    ensures forall j :: 0 <= j < w.buf.Length && !(old(w.p) <= j < w.p) ==> w.buf[j] == old(w.buf[j])
  {
    hide RpFits, Record;
    ghost var before, start := w.Written(), w.p;
    ConcatFive(GroupAddr(r.addr, r.masklen), [r.rpCount], [|r.rps|], U16(0), []);
    PutAll(w, [GroupAddr(r.addr, r.masklen), [r.rpCount], [|r.rps|], U16(0), []]);
    assert GroupAddr(r.addr, r.masklen) + [r.rpCount] + [|r.rps|] + U16(0) + [] == SetHead(r);
    var i := 0;
    assert r.rps[0..] == r.rps;
    while i < |r.rps|
      invariant 0 <= i <= |r.rps| && w.Valid() && start <= w.p
      invariant w.full <==> old(w.full) || SET + REC * i > old(w.Left())
      invariant !w.full ==> w.p == start + SET + REC * i && w.Written() + Records(r.rps[i..]) == before + RangeSet(r)
      invariant forall j :: 0 <= j < w.buf.Length && !(start <= j < w.p) ==> w.buf[j] == old(w.buf[j])
    {
      RecordsStep(w.Written(), r.rps, i);
      EncodeRecord(w, r.rps[i]);
      i := i + 1;
    }
  }

  lemma SetsStep(done: Bytes, rs: seq<Range>, i: nat)
    requires (forall j :: 0 <= j < |rs| ==> Fits(rs[j])) && i < |rs|
    ensures done + Sets(rs[i..]) == done + RangeSet(rs[i]) + Sets(rs[i + 1..])
  {
    assert rs[i..][1..] == rs[i + 1..];
  }

  lemma SetsEnds(rs: seq<Range>)
    requires forall j :: 0 <= j < |rs| ==> Fits(rs[j])
    ensures Sets(rs[0..]) == Sets(rs) && Sets(rs[|rs|..]) == []
  {
    assert rs[0..] == rs;
  }

  /** A Bootstrap body in its three parts, or the writer full and nothing outside its buffer touched. */
  method Encode(w: Writer, m: Msg)
    requires w.Valid() && Encodable(m)
    modifies w, w.buf
    ensures w.Valid() && old(w.p) <= w.p
    ensures w.full <==> old(w.full) || |Body(m)| > old(w.Left())
    ensures !w.full ==> w.Written() == old(w.Written()) + Body(m)
    ensures forall j :: 0 <= j < w.buf.Length && !(old(w.p) <= j < w.p) ==> w.buf[j] == old(w.buf[j])
  {
    hide Fits, RangeSet, Head, Sets;
    SetsEnds(m.ranges);
    ghost var before, start, sets := w.Written(), w.p, Sets(m.ranges);
    EncodeHead(w, m);
    var i := 0;
    while i < |m.ranges|
      invariant 0 <= i <= |m.ranges| && w.Valid() && start <= w.p && |Sets(m.ranges[i..])| <= |sets|
      invariant w.full <==> old(w.full) || |Head(m)| + |sets| - |Sets(m.ranges[i..])| > old(w.Left())
      invariant !w.full ==> w.p == start + |Head(m)| + |sets| - |Sets(m.ranges[i..])|
      invariant !w.full ==> w.Written() + Sets(m.ranges[i..]) == before + Body(m)
      invariant forall j :: 0 <= j < w.buf.Length && !(start <= j < w.p) ==> w.buf[j] == old(w.buf[j])
    {
      SetsStep(w.Written(), m.ranges, i);
      SetsStep([], m.ranges, i);
      EncodeRange(w, m.ranges[i]);
      i := i + 1;
    }
  }
}
