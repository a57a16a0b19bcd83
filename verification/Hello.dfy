/** Hello messages, section 4.9.2 of RFC 7761: options written, walked, and read back. */
module Hello {
  import opened Inet
  import opened Wire

  const HEADER := 4      // the PIM header
  const OPT := 4         // an option's type and length
  const HOLDTIME := 1
  const LAN_DELAY := 2
  const DR_PRIO := 19
  const GENID := 20
  const ADDR_LIST := 24
  const T_BIT := 0x8000
  const MAX_ADDRS := 10922

  // ----- encoding

  datatype Msg = Msg(holdtime: nat, propagation: nat, override': nat, prio: nat, genid: nat, secondaries: seq<Addr>)

  predicate Encodable(m: Msg) {
    && m.holdtime < 0x1_0000 && m.propagation < 0x1_0000 && m.override' < 0x1_0000 && m.prio < 0x1_0000_0000
    && m.genid < 0x1_0000_0000
    && forall i :: 0 <= i < |m.secondaries| ==> U32Addr(m.secondaries[i])
  }

  function Addrs(as': seq<Addr>): (b: Bytes)
    requires forall i :: 0 <= i < |as'| ==> U32Addr(as'[i])
    ensures |b| == 6 * |as'|
  {
    if as' == [] then [] else Unicast(as'[0]) + Addrs(as'[1..])
  }

  function Option(type': nat, value: Bytes): (b: Bytes)
    requires type' < 0x1_0000 && |value| < 0x1_0000
    ensures |b| == OPT + |value|
  {
    U16(type') + U16(|value|) + value
  }

  /** The options every Hello has, the T bit clear. */
  function Fixed(m: Msg): (b: Bytes)
    requires Encodable(m)
    ensures |b| == 30
  {
    Option(HOLDTIME, U16(m.holdtime)) + Option(LAN_DELAY, U16(m.propagation % T_BIT) + U16(m.override'))
    + Option(DR_PRIO, U32(m.prio)) + Option(GENID, U32(m.genid))
  }

  /** The Address List, where there are secondary addresses. */
  function List(as': seq<Addr>): Bytes
    requires |as'| <= MAX_ADDRS && forall i :: 0 <= i < |as'| ==> U32Addr(as'[i])
  {
    if as' == [] then [] else Option(ADDR_LIST, Addrs(as'))
  }

  function Body(m: Msg): Bytes
    requires Encodable(m) && |m.secondaries| <= MAX_ADDRS
  {
    Fixed(m) + List(m.secondaries)
  }

  // ----- decoding

  /** What the walk has found; the Address List is where it is in the message. */
  datatype Opts = Opts(holdtime: Found, lanDelay: Found, tracking: bool, propagation: nat, override': nat,
                       prio: Found, genid: nat, list: Found, listLen: nat)

  datatype Found = Absent | Value(v: nat)

  const NONE := Opts(Absent, Absent, false, 0, 0, Absent, 0, Absent, 0)

  datatype Verdict = Ok | Short | BadLength

  predicate LengthOk(type': nat, len: nat) {
    && (type' == HOLDTIME ==> len == 2) && (type' == LAN_DELAY ==> len == 4)
    && (type' == DR_PRIO ==> len == 4) && (type' == GENID ==> len == 4)
  }

  /** One option, in the message and of a length it can have. */
  function Apply(b: Bytes, at: nat, o: Opts): Opts
    requires at + OPT <= |b| && at + OPT + Get16(b, at + 2) <= |b| && LengthOk(Get16(b, at), Get16(b, at + 2))
  {
    var type', len, v := Get16(b, at), Get16(b, at + 2), at + OPT;
    if type' == HOLDTIME then o.(holdtime := Value(Get16(b, v)))
    else if type' == DR_PRIO then o.(prio := Value(Get32(b, v)))
    else if type' == GENID then o.(genid := Get32(b, v))
    else if type' == LAN_DELAY then
      var delay := Get16(b, v);
      o.(lanDelay := Value(delay), tracking := delay >= T_BIT, propagation := delay % T_BIT,
          override' := Get16(b, v + 2))
    else if type' == ADDR_LIST then o.(list := Value(v), listLen := len)
    else o
  }

  function Options(b: Bytes, at: nat, o: Opts): (Verdict, Opts)
    requires at <= |b|
    decreases |b| - at
  {
    if |b| - at < OPT then (Ok, o)
    else
      var type', len := Get16(b, at), Get16(b, at + 2);
      if |b| - at < OPT + len then (Short, o)
      else if !LengthOk(type', len) then (BadLength, o)
      else Options(b, at + OPT + len, Apply(b, at, o))
  }

  /** Is the list a whole number of IPv4 entries? */
  function ListOk(b: Bytes, at: nat, n: nat): bool
    requires at + 6 * n <= |b|
    decreases n
  {
    n == 0 || (IPv4(b, at) && ListOk(b, at + 6, n - 1))
  }

  /** A list that is not is read as no list at all. */
  function Checked(b: Bytes, o: Opts): Opts
    requires o.list.Value? ==> o.list.v + o.listLen <= |b|
  {
    if o.list.Value? && (o.listLen % 6 != 0 || !ListOk(b, o.list.v, o.listLen / 6)) then
      o.(list := Absent, listLen := 0)
    else o
  }

  /** The Address List is inside the message. */
  ghost predicate Inside(b: Bytes, o: Opts) {
    o.list.Value? ==> o.list.v + o.listLen <= |b|
  }

  lemma {:induction false} OptionsInside(b: Bytes, at: nat, o: Opts)
    requires at <= |b| && Inside(b, o)
    ensures Inside(b, Options(b, at, o).1)
    decreases |b| - at
  {
    if |b| - at >= OPT {
      var type', len := Get16(b, at), Get16(b, at + 2);
      if |b| - at >= OPT + len && LengthOk(type', len) { OptionsInside(b, at + OPT + len, Apply(b, at, o)); }
    }
  }

  /** pim_parse_hello_addrs */
  method CheckList(b: Bytes, o: Opts) returns (o': Opts)
    requires Inside(b, o) && o.list.Value?
    ensures o' == Checked(b, o)
  {
    if o.listLen % 6 != 0 { return o.(list := Absent, listLen := 0); }
    var i := 0;
    while i < o.listLen
      invariant 0 <= i <= o.listLen && i % 6 == 0
      invariant ListOk(b, o.list.v, o.listLen / 6) == ListOk(b, o.list.v + i, (o.listLen - i) / 6)
    {
      assert (o.listLen - i) / 6 == (o.listLen - (i + 6)) / 6 + 1;
      if b[o.list.v + i] != 1 || b[o.list.v + i + 1] != 0 { return o.(list := Absent, listLen := 0); }
      i := i + 6;
    }
    return o;
  }

  /** pim_parse_hello */
  method Parse(b: Bytes) returns (rc: Verdict, o: Opts)
    ensures |b| < HEADER ==> rc == Short
    ensures |b| >= HEADER ==> rc == Options(b, HEADER, NONE).0
    ensures rc == Ok ==> Inside(b, Options(b, HEADER, NONE).1) && o == Checked(b, Options(b, HEADER, NONE).1)
    ensures rc == Ok && o.list.Value? ==>
              o.list.v + o.listLen <= |b| && o.listLen % 6 == 0 && ListOk(b, o.list.v, o.listLen / 6)
  {
    o := NONE;
    if |b| < HEADER { return Short, o; }
    OptionsInside(b, HEADER, NONE);
    var p: nat, left: nat := HEADER, |b| - HEADER;
    while left >= OPT
      invariant p + left == |b| && Options(b, HEADER, NONE) == Options(b, p, o)
    {
      var type', len := Get16(b, p), Get16(b, p + 2);
      if left < OPT + len { return Short, o; }
      if !LengthOk(type', len) { return BadLength, o; }
      o := Apply(b, p, o);
      p, left := p + OPT + len, left - OPT - len;
    }
    if o.list.Value? { o := CheckList(b, o); }
    return Ok, o;
  }

  /** pim_hello_addr */
  function AddrAt(b: Bytes, list: nat, i: nat): Addr
    requires list + 6 * i + 6 <= |b|
  {
    Get32(b, list + 6 * i + 2)
  }

  // ----- the round trip

  lemma {:induction false} AddrsBack(b: Bytes, at: nat, as': seq<Addr>)
    requires (forall i :: 0 <= i < |as'| ==> U32Addr(as'[i])) && At(b, at, Addrs(as'))
    ensures ListOk(b, at, |as'|) && forall i :: 0 <= i < |as'| ==> AddrAt(b, at, i) == as'[i]
    decreases |as'|
  {
    if as' != [] {
      AtSplit(b, at, Unicast(as'[0]), Addrs(as'[1..]));
      ReadUnicast(b, at, as'[0]);
      AddrsBack(b, at + 6, as'[1..]);
      forall i | 0 < i < |as'|
        ensures AddrAt(b, at, i) == as'[i]
      {
        assert AddrAt(b, at + 6, i - 1) == as'[1..][i - 1];
      }
    }
  }

  /** The walk over one written option. */
  lemma OptionBack(b: Bytes, at: nat, type': nat, value: Bytes, o: Opts)
    requires type' < 0x1_0000 && |value| < 0x1_0000 && LengthOk(type', |value|) && At(b, at, Option(type', value))
    ensures at + OPT + |value| <= |b| && Get16(b, at) == type' && Get16(b, at + 2) == |value| && At(b, at + OPT, value)
    ensures Options(b, at, o) == Options(b, at + OPT + |value|, Apply(b, at, o))
  {
    AtSplit(b, at, U16(type') + U16(|value|), value);
    AtSplit(b, at, U16(type'), U16(|value|));
    Read16(b, at, type');
    Read16(b, at + 2, |value|);
  }

  lemma FixedParts(b: Bytes, at: nat, m: Msg)
    requires Encodable(m) && At(b, at, Fixed(m))
    ensures At(b, at, Option(HOLDTIME, U16(m.holdtime)))
    ensures At(b, at + 6, Option(LAN_DELAY, U16(m.propagation % T_BIT) + U16(m.override')))
    ensures At(b, at + 14, Option(DR_PRIO, U32(m.prio))) && At(b, at + 22, Option(GENID, U32(m.genid)))
  {
    var h, l, d, g := Option(HOLDTIME, U16(m.holdtime)),
        Option(LAN_DELAY, U16(m.propagation % T_BIT) + U16(m.override')), Option(DR_PRIO, U32(m.prio)),
        Option(GENID, U32(m.genid));
    AtSplit(b, at, h + l + d, g);
    AtSplit(b, at, h + l, d);
    AtSplit(b, at, h, l);
  }

  /** What the fixed options say. */
  function Said(m: Msg): Opts
    requires Encodable(m)
  {
    Opts(Value(m.holdtime), Value(m.propagation % T_BIT), false, m.propagation % T_BIT, m.override', Value(m.prio),
        m.genid, Absent, 0)
  }

  lemma FixedBack(b: Bytes, at: nat, m: Msg)
    requires Encodable(m) && At(b, at, Fixed(m))
    ensures at + 30 <= |b| && Options(b, at, NONE) == Options(b, at + 30, Said(m))
  {
    hide Options, Option, At;
    FixedParts(b, at, m);
    var delay := U16(m.propagation % T_BIT) + U16(m.override');
    OptionBack(b, at, HOLDTIME, U16(m.holdtime), NONE);
    Read16(b, at + 4, m.holdtime);
    var o1 := Apply(b, at, NONE);
    OptionBack(b, at + 6, LAN_DELAY, delay, o1);
    AtSplit(b, at + 10, U16(m.propagation % T_BIT), U16(m.override'));
    Read16(b, at + 10, m.propagation % T_BIT);
    Read16(b, at + 12, m.override');
    var o2 := Apply(b, at + 6, o1);
    OptionBack(b, at + 14, DR_PRIO, U32(m.prio), o2);
    Read32(b, at + 18, m.prio);
    var o3 := Apply(b, at + 14, o2);
    OptionBack(b, at + 22, GENID, U32(m.genid), o3);
    Read32(b, at + 26, m.genid);
  }

  /** A Hello of up to 10922 secondary addresses is read as it was written, the T bit clear. */
  lemma RoundTrip(hdr: Bytes, m: Msg)
    requires |hdr| == HEADER && Encodable(m) && |m.secondaries| <= MAX_ADDRS
    ensures var b := hdr + Body(m);
            var (rc, o) := Options(b, HEADER, NONE);
            && rc == Ok && Inside(b, o) && Checked(b, o) == o
            && o == Said(m).(list := o.list, listLen := o.listLen)
            && o.listLen == 6 * |m.secondaries| && (o.list.Value? <==> m.secondaries != [])
            && forall i :: 0 <= i < |m.secondaries| ==> AddrAt(b, o.list.v, i) == m.secondaries[i]
  {
    hide Fixed, Option;
    var b, n := hdr + Body(m), |m.secondaries|;
    assert At(b, HEADER, Body(m));
    AtSplit(b, HEADER, Fixed(m), List(m.secondaries));
    FixedBack(b, HEADER, m);
    if m.secondaries != [] {
      OptionBack(b, HEADER + 30, ADDR_LIST, Addrs(m.secondaries), Said(m));
      AddrsBack(b, HEADER + 34, m.secondaries);
      assert 6 * n % 6 == 0 && 6 * n / 6 == n;
    }
  }

  // ----- the builder

  /** One option: type, length and value. */
  method PutOption(w: Writer, type': nat, value: Bytes, more: Bytes)
    requires w.Valid() && type' < 0x1_0000 && |value + more| < 0x1_0000
    modifies w, w.buf
    ensures w.Valid() && old(w.p) <= w.p
    ensures w.full <==> old(w.full) || OPT + |value + more| > old(w.Left())
    ensures !w.full ==>
              w.p == old(w.p) + OPT + |value + more| && w.Written() == old(w.Written()) + Option(type', value + more)
    ensures forall j :: 0 <= j < w.buf.Length && !(old(w.p) <= j < w.p) ==> w.buf[j] == old(w.buf[j])
  {
    ConcatFive(U16(type'), U16(|value + more|), value, more, []);
    PutAll(w, [U16(type'), U16(|value + more|), value, more, []]);
    assert U16(type') + U16(|value + more|) + value + more + [] == Option(type', value + more);
  }

  method EncodeFixed(w: Writer, m: Msg)
    requires w.Valid() && Encodable(m)
    modifies w, w.buf
    ensures w.Valid() && old(w.p) <= w.p
    ensures w.full <==> old(w.full) || 30 > old(w.Left())
    ensures !w.full ==> w.p == old(w.p) + 30 && w.Written() == old(w.Written()) + Fixed(m)
    ensures forall j :: 0 <= j < w.buf.Length && !(old(w.p) <= j < w.p) ==> w.buf[j] == old(w.buf[j])
  {
    hide Option, U16, U32;
    PutOption(w, HOLDTIME, U16(m.holdtime), []);
    PutOption(w, LAN_DELAY, U16(m.propagation % T_BIT), U16(m.override'));
    PutOption(w, DR_PRIO, U32(m.prio), []);
    PutOption(w, GENID, U32(m.genid), []);
    assert U16(m.holdtime) + [] == U16(m.holdtime) && U32(m.prio) + [] == U32(m.prio) &&
        U32(m.genid) + [] == U32(m.genid);
  }

  method EncodeAddrs(as': seq<Addr>) returns (b: Bytes)
    requires forall i :: 0 <= i < |as'| ==> U32Addr(as'[i])
    ensures b == Addrs(as')
  {
    b := [];
    var i := 0;
    assert as'[0..] == as';
    while i < |as'|
      invariant 0 <= i <= |as'| && b + Addrs(as'[i..]) == Addrs(as')
    {
      assert as'[i..][1..] == as'[i + 1..];
      b := b + Unicast(as'[i]);
      i := i + 1;
    }
  }

  /** pim_encode_hello: all the options, or the writer full, as it is for a list its length field
      cannot say; nothing outside its buffer changes. */
  method Encode(w: Writer, m: Msg)
    requires w.Valid() && Encodable(m)
    modifies w, w.buf
    ensures w.Valid() && old(w.p) <= w.p
    ensures w.full <==> old(w.full) || |m.secondaries| > MAX_ADDRS || |Body(m)| > old(w.Left())
    ensures !w.full ==> w.Written() == old(w.Written()) + Body(m)
    ensures forall j :: 0 <= j < w.buf.Length && !(old(w.p) <= j < w.p) ==> w.buf[j] == old(w.buf[j])
  {
    hide Fixed, Option;
    EncodeFixed(w, m);
    if m.secondaries != [] {
      if |m.secondaries| > MAX_ADDRS {
        w.full := true;
        return;
      }
      var list := EncodeAddrs(m.secondaries);
      PutOption(w, ADDR_LIST, list, []);
      assert list + [] == list;
    }
  }
}
