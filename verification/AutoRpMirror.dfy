/** The two lists of Auto-RP mappings a router keeps, what it has learned and, as a mapping agent,
    what has been announced to it: bounded, keyed, and aged. */
module AutoRpMirror {
  import opened Inet
  import opened AutoRp

  const TIMER_INTERVAL := 5
  const FOREVER := 0

  datatype Key = Key(rp: Addr, addr: Addr, len: nat)

  datatype Value = Value(neg: bool, hold: nat, origin: Addr)

  datatype Entry = Entry(key: Key, value: Value)

  // ----- a list is a table

  ghost predicate Unique(s: seq<Entry>) {
    forall i, j :: 0 <= i < j < |s| ==> s[i].key != s[j].key
  }

  type Table = map<Key, Value>

  /** What the list says of each key. */
  ghost function AsTable(s: seq<Entry>): Table {
    if s == [] then map[] else AsTable(s[1..])[s[0].key := s[0].value]
  }

  lemma {:induction false} TableAt(s: seq<Entry>)
    requires Unique(s)
    ensures forall k :: k in AsTable(s) <==> exists i :: 0 <= i < |s| && s[i].key == k
    ensures forall i :: 0 <= i < |s| ==> s[i].key in AsTable(s) && AsTable(s)[s[i].key] == s[i].value
  {
    if s != [] {
      TableAt(s[1..]);
      forall i | 0 <= i < |s| ensures s[i].key in AsTable(s) && AsTable(s)[s[i].key] == s[i].value {
        if i > 0 { assert s[i] == s[1..][i - 1] && s[i].key != s[0].key; }
      }
      forall k ensures k in AsTable(s) <==> exists i :: 0 <= i < |s| && s[i].key == k {
        if k in AsTable(s[1..]) {
          var i :| 0 <= i < |s[1..]| && s[1..][i].key == k;
          assert s[i + 1].key == k;
        }
      }
    }
  }

  // ----- a mapping learned

  ghost function Put(t: Table, k: Key, v: Value, room: bool): Table {
    if k in t || room then t[k := v] else t
  }

  lemma {:induction false} TableUpdate(s: seq<Entry>, i: nat, v: Value)
    requires Unique(s) && i < |s|
    ensures Unique(s[i := Entry(s[i].key, v)]) && AsTable(s[i := Entry(s[i].key, v)]) == AsTable(s)[s[i].key := v]
  {
    var t := s[i := Entry(s[i].key, v)];
    if i > 0 {
      TableUpdate(s[1..], i - 1, v);
      assert t[1..] == s[1..][i - 1 := Entry(s[i].key, v)];
    } else {
      assert t[1..] == s[1..];
    }
  }

  lemma TableAdd(s: seq<Entry>, e: Entry)
    requires Unique(s) && forall i :: 0 <= i < |s| ==> s[i].key != e.key
    ensures Unique([e] + s) && AsTable([e] + s) == AsTable(s)[e.key := e.value] && e.key !in AsTable(s)
  {
    TableAt(s);
    assert ([e] + s)[1..] == s;
  }

  /** autorp_map_get and the writes that follow it: the entry of the key, at the head if it is new
      and the lists have room. */
  method Keep(s: seq<Entry>, k: Key, v: Value, room: bool) returns (s': seq<Entry>, kept: bool, added: bool)
    requires Unique(s)
    ensures Unique(s') && AsTable(s') == Put(AsTable(s), k, v, room)
    ensures |s'| == |s| + if added then 1 else 0
    ensures (kept <==> k in AsTable(s) || room) && (added <==> k !in AsTable(s) && room)
    ensures forall e :: e in s' ==> e in s || e == Entry(k, v)
    ensures added ==> s' == [Entry(k, v)] + s
  {
    TableAt(s);
    var i := 0;
    while i < |s|
      invariant 0 <= i <= |s| && forall j :: 0 <= j < i ==> s[j].key != k
    {
      if s[i].key == k {
        TableUpdate(s, i, v);
        return s[i := Entry(k, v)], true, false;
      }
      i := i + 1;
    }
    if !room { return s, false, false; }
    TableAdd(s, Entry(k, v));
    return [Entry(k, v)] + s, true, true;
  }

  // ----- ageing

  predicate Expires(v: Value) {
    v.hold != FOREVER && v.hold <= TIMER_INTERVAL
  }

  function Aged(v: Value): Value {
    if v.hold == FOREVER || v.hold <= TIMER_INTERVAL then v else v.(hold := v.hold - TIMER_INTERVAL)
  }

  ghost function Tick(t: Table): Table {
    map k | k in t && !Expires(t[k]) :: Aged(t[k])
  }

  function AgedOne(e: Entry): seq<Entry> {
    if Expires(e.value) then [] else [e.(value := Aged(e.value))]
  }

  ghost function AgedList(s: seq<Entry>): seq<Entry> {
    if s == [] then [] else AgedOne(s[0]) + AgedList(s[1..])
  }

  lemma TickAdd(t: Table, k: Key, v: Value)
    requires k !in t
    ensures Tick(t[k := v]) == if Expires(v) then Tick(t) else Tick(t)[k := Aged(v)]
  {
  }

  lemma {:induction false} AgedTable(s: seq<Entry>)
    requires Unique(s)
    ensures Unique(AgedList(s)) && AsTable(AgedList(s)) == Tick(AsTable(s))
  {
    if s != [] {
      var e, rest := s[0], s[1..];
      AgedTable(rest);
      TableAt(rest);
      TickAdd(AsTable(rest), e.key, e.value);
      if !Expires(e.value) {
        TableAt(AgedList(rest));
        TableAdd(AgedList(rest), AgedOne(e)[0]);
      } else {
        assert AgedList(s) == AgedList(rest);
      }
    }
  }

  lemma AgedStep(done: seq<Entry>, s: seq<Entry>, i: nat)
    requires i < |s|
    ensures done + AgedList(s[i..]) == (done + AgedOne(s[i])) + AgedList(s[i + 1..])
  {
    assert s[i..][1..] == s[i + 1..];
  }

  lemma {:induction false} AgedFrom(s: seq<Entry>, e: Entry) returns (o: Entry)
    requires e in AgedList(s)
    ensures o in s && o.key == e.key && o.value.neg == e.value.neg
  {
    if e in AgedOne(s[0]) {
      o := s[0];
    } else {
      o := AgedFrom(s[1..], e);
    }
  }

  /** age_autorp_list: what is not refreshed counts down and goes. */
  method AgeList(s: seq<Entry>) returns (s': seq<Entry>, gone: nat)
    requires Unique(s)
    ensures s' == AgedList(s) && Unique(s') && AsTable(s') == Tick(AsTable(s))
    ensures |s'| + gone == |s|
  {
    hide AgedList;
    AgedTable(s);
    s', gone := [], 0;
    var i := 0;
    AgedEnds(s);
    while i < |s|
      invariant 0 <= i <= |s| && s' + AgedList(s[i..]) == AgedList(s) && |s'| + gone == i
    {
      AgedStep(s', s, i);
      var e := s[i];
      if e.value.hold == FOREVER {
        s' := s' + [e];
      } else if e.value.hold > TIMER_INTERVAL {
        s' := s' + [e.(value := e.value.(hold := e.value.hold - TIMER_INTERVAL))];
      } else {
        gone := gone + 1;
      }
      i := i + 1;
    }
    assert s' + [] == s';
  }

  lemma AgedEnds(s: seq<Entry>)
    ensures [] + AgedList(s[0..]) == AgedList(s) && AgedList(s[|s|..]) == []
  {
    assert s[0..] == s;
  }

  // ----- how long a mapping lasts

  datatype Event = Learned(k: Key, v: Value, room: bool) | Ticked

  ghost function Run(t: Table, es: seq<Event>): Table {
    if es == [] then t
    else
      var t' := Run(t, es[..|es| - 1]);
      match es[|es| - 1]
      case Learned(k, v, room) => Put(t', k, v, room)
      case Ticked => Tick(t')
  }

  ghost function Ticks(es: seq<Event>): nat {
    if es == [] then 0 else Ticks(es[..|es| - 1]) + if es[|es| - 1].Ticked? then 1 else 0
  }

  ghost predicate Refreshes(es: seq<Event>, k: Key) {
    exists i :: 0 <= i < |es| && es[i].Learned? && es[i].k == k
  }

  /** Not refreshed, a mapping with holdtime h is there for as long as 5 times the ticks is short of
      h, with what is left, and never becomes one that lasts for ever. */
  lemma {:induction false} Unrefreshed(t: Table, es: seq<Event>, k: Key)
    requires k in t && !Refreshes(es, k)
    ensures t[k].hold == FOREVER ==> k in Run(t, es) && Run(t, es)[k] == t[k]
    ensures t[k].hold != FOREVER ==>
              && (k in Run(t, es) <==> TIMER_INTERVAL * Ticks(es) < t[k].hold)
              && (k in Run(t, es) ==>
                    Run(t, es)[k] == t[k].(hold := t[k].hold - TIMER_INTERVAL * Ticks(es)) &&
                    Run(t, es)[k].hold != FOREVER)
  {
    if es != [] {
      var pre, e := es[..|es| - 1], es[|es| - 1];
      assert forall i :: 0 <= i < |pre| ==> pre[i] == es[i];
      Unrefreshed(t, pre, k);
      assert e.Learned? ==> e.k != k;
    }
  }

  /** So it goes at tick ceil(h / 5) and not before. */
  lemma GoneAtCeiling(t: Table, es: seq<Event>, k: Key)
    requires k in t && t[k].hold != FOREVER && !Refreshes(es, k)
    ensures k in Run(t, es) <==> Ticks(es) < (t[k].hold + (TIMER_INTERVAL - 1)) / TIMER_INTERVAL
  {
    Unrefreshed(t, es, k);
  }

  // ----- the two lists

  /** A prefix as a message has it. */
  datatype Prefix = Prefix(rp: Addr, addr: Addr, len: nat, neg: bool)

  predicate DenyHasNoRp(e: Entry) {
    e.value.neg <==> e.key.rp == 0
  }

  /** A prefix of groups, masked. */
  predicate PrefixMasked(e: Entry) {
    Masked(Ann(e.key.rp, e.key.addr, e.key.len, e.value.neg)) && Multicast(e.key.addr)
  }

  predicate RpIsHost(e: Entry) {
    ValidHost(e.key.rp)
  }

  /** What has been learned: no key twice, a deny exactly where there is no RP, and else a valid RP. */
  ghost predicate MapsOk(s: seq<Entry>) {
    Unique(s) && forall e :: e in s ==> DenyHasNoRp(e) && PrefixMasked(e) && (e.value.neg || RpIsHost(e))
  }

  /** What has been announced: no key twice, and every RP a valid one. */
  ghost predicate AnnouncedOk(s: seq<Entry>) {
    Unique(s) && forall e :: e in s ==> PrefixMasked(e) && RpIsHost(e)
  }

  /** Ageing changes neither sign nor prefix nor RP. */
  lemma AgedShape(s: seq<Entry>)
    ensures MapsOk(s) ==> MapsOk(AgedList(s))
    ensures AnnouncedOk(s) ==> AnnouncedOk(AgedList(s))
  {
    hide Unique;
    if Unique(s) { AgedTable(s); }
    forall e | e in AgedList(s)
      ensures MapsOk(s) ==> DenyHasNoRp(e) && PrefixMasked(e) && (e.value.neg || RpIsHost(e))
      ensures AnnouncedOk(s) ==> PrefixMasked(e) && RpIsHost(e)
    {
      var o := AgedFrom(s, e);
    }
  }

  /** A prefix the router takes up: of a valid RP, a prefix of groups. */
  predicate Believed(p: Prefix) {
    ValidHost(p.rp) && p.len <= 32 && Multicast(MaskedTo(p.addr, p.len))
  }

  /** The key a prefix is kept under: a learned deny has no RP. */
  function KeyOf(p: Prefix, mapping: bool): Key
    requires p.len <= 32
  {
    Key(if mapping && p.neg then 0 else p.rp, MaskedTo(p.addr, p.len), p.len)
  }

  ghost function EventOf(p: Prefix, mapping: bool, from: Addr, hold: nat, room: bool): Event
    requires p.len <= 32
  {
    Learned(KeyOf(p, mapping), Value(p.neg, hold, from), room)
  }

  /** The events are those of the prefixes believed, in order. */
  ghost predicate Heeded(ps: seq<Prefix>, mapping: bool, from: Addr, hold: nat, es: seq<Event>) {
    if ps == [] then es == []
    else
      var p, pre := ps[|ps| - 1], ps[..|ps| - 1];
      if Believed(p) then
        && es != [] && es[|es| - 1].Learned? && es[|es| - 1] == EventOf(p, mapping, from, hold, es[|es| - 1].room)
        && Heeded(pre, mapping, from, hold, es[..|es| - 1])
      else Heeded(pre, mapping, from, hold, es)
  }

  lemma RunNext(t: Table, es: seq<Event>, e: Event)
    ensures Run(t, es + [e]) ==
              match e case Learned(k, v, room) => Put(Run(t, es), k, v, room) case Ticked => Tick(Run(t, es))
    ensures (es + [e])[..|es|] == es
  {
    assert (es + [e])[..|es|] == es;
  }

  lemma EmptyRun(t: Table)
    ensures Run(t, []) == t && AllApplied(t, []) == []
  {
  }

  lemma AppliedNext(t: Table, es: seq<Event>, e: Event)
    ensures AllApplied(t, es + [e]) == AllApplied(t, es) + Applied(Run(t, es), e)
  {
    assert (es + [e])[..|es|] == es;
  }

  // ----- datagrams and ticks

  /** What the two lists go through: a datagram accepted, or age_autorp. */
  datatype Happening = Datagram(from: Addr, ps: seq<Prefix>, hold: nat, mapping: bool) | Aging

  /** Some prefix that is believed has key `k`. */
  ghost predicate Names(ps: seq<Prefix>, mapping: bool, k: Key) {
    exists i :: 0 <= i < |ps| && Believed(ps[i]) && KeyOf(ps[i], mapping) == k
  }

  /** Some datagram for the list names key `k`. */
  ghost predicate NamedIn(hs: seq<Happening>, mapping: bool, k: Key) {
    exists i :: 0 <= i < |hs| && hs[i].Datagram? && hs[i].mapping == mapping && Names(hs[i].ps, mapping, k)
  }

  ghost function Agings(hs: seq<Happening>): nat {
    if hs == [] then 0 else Agings(hs[..|hs| - 1]) + if hs[|hs| - 1].Aging? then 1 else 0
  }

  /** What is left of value `v` under key `k` after `n` ticks without a refresh: itself if it is for
      ever, else it with 5 seconds less for each tick, exactly as long as that is more than none. */
  ghost predicate Left(t: Table, k: Key, v: Value, n: nat) {
    if v.hold == FOREVER then k in t && t[k] == v
    else
      && (k in t <==> TIMER_INTERVAL * n < v.hold)
      && (k in t ==> t[k] == v.(hold := v.hold - TIMER_INTERVAL * n))
  }

  /** A datagram refreshes the keys it names and no other. */
  lemma {:induction false} HeededNames(ps: seq<Prefix>, mapping: bool, from: Addr, hold: nat, es: seq<Event>, k: Key)
    requires Heeded(ps, mapping, from, hold, es)
    ensures (Refreshes(es, k) <==> Names(ps, mapping, k)) && Ticks(es) == 0
    decreases |ps|
  {
    if ps != [] {
      var p, pre := ps[|ps| - 1], ps[..|ps| - 1];
      if Believed(p) {
        var e, es' := es[|es| - 1], es[..|es| - 1];
        HeededNames(pre, mapping, from, hold, es', k);
        RefreshesNext(es', e, k);
        assert es == es' + [e];
      } else {
        HeededNames(pre, mapping, from, hold, es, k);
      }
      NamesNext(pre, p, mapping, k);
      assert ps == pre + [p];
    }
  }

  lemma RefreshesNext(es: seq<Event>, e: Event, k: Key)
    ensures Refreshes(es + [e], k) <==> Refreshes(es, k) || (e.Learned? && e.k == k)
  {
    var all := es + [e];
    if i :| 0 <= i < |es| && es[i].Learned? && es[i].k == k { assert all[i] == es[i]; }
    assert all[|es|] == e;
  }

  lemma NamesNext(ps: seq<Prefix>, p: Prefix, mapping: bool, k: Key)
    ensures Names(ps + [p], mapping, k) <==> Names(ps, mapping, k) || (Believed(p) && KeyOf(p, mapping) == k)
  {
    var all := ps + [p];
    if i :| 0 <= i < |ps| && Believed(ps[i]) && KeyOf(ps[i], mapping) == k { assert all[i] == ps[i]; }
    assert all[|ps|] == p;
  }

  lemma NamedNext(hs: seq<Happening>, h: Happening, mapping: bool, k: Key)
    ensures NamedIn(hs + [h], mapping, k) <==>
              NamedIn(hs, mapping, k) || (h.Datagram? && h.mapping == mapping && Names(h.ps, mapping, k))
    ensures Agings(hs + [h]) == Agings(hs) + if h.Aging? then 1 else 0
  {
    hide Names;
    var all := hs + [h];
    if i :| 0 <= i < |hs| && hs[i].Datagram? && hs[i].mapping == mapping && Names(hs[i].ps, mapping, k) {
      assert all[i] == hs[i];
    }
    assert all[|hs|] == h && all[..|hs|] == hs;
  }

  lemma {:induction false} RunMore(t: Table, es: seq<Event>, more: seq<Event>)
    ensures Run(t, es + more) == Run(Run(t, es), more) && Ticks(es + more) == Ticks(es) + Ticks(more)
    ensures forall k :: Refreshes(es + more, k) <==> Refreshes(es, k) || Refreshes(more, k)
    decreases |more|
  {
    if more == [] {
      assert es + more == es;
    } else {
      var n := |more| - 1;
      RunMore(t, es, more[..n]);
      assert (es + more)[..|es| + n] == es + more[..n] && (es + more)[|es| + n] == more[n];
      forall k ensures Refreshes(es + more, k) <==> Refreshes(es, k) || Refreshes(more, k) {
        RefreshesNext(es + more[..n], more[n], k);
        RefreshesNext(more[..n], more[n], k);
        assert es + more == es + more[..n] + [more[n]] && more == more[..n] + [more[n]];
      }
    }
  }

  /** The events of one list are those its datagrams and the ticks are. */
  ghost predicate Traces(hs: seq<Happening>, mapping: bool, es: seq<Event>) {
    Ticks(es) == Agings(hs) && forall k :: Refreshes(es, k) <==> NamedIn(hs, mapping, k)
  }

  /** One more datagram or tick, with the events `more` it is for the list. */
  lemma TracesNext(hs: seq<Happening>, h: Happening, mapping: bool, t: Table, es: seq<Event>, more: seq<Event>)
    requires Traces(hs, mapping, es)
    requires h.Aging? ==> more == [Ticked]
    requires h.Datagram? && h.mapping == mapping ==> Heeded(h.ps, mapping, h.from, h.hold, more)
    requires h.Datagram? && h.mapping != mapping ==> more == []
    ensures Traces(hs + [h], mapping, es + more) && Run(t, es + more) == Run(Run(t, es), more)
  {
    hide Names, NamedIn, Refreshes, Heeded, Run;
    RunMore(t, es, more);
    if more == [Ticked] { OneTick(); }
    forall k ensures Refreshes(es + more, k) <==> NamedIn(hs + [h], mapping, k) {
      NamedNext(hs, h, mapping, k);
      if h.Datagram? && h.mapping == mapping { HeededNames(h.ps, mapping, h.from, h.hold, more, k); }
      NoneRefresh(k);
    }
    NamedNext(hs, h, mapping, Key(0, 0, 0));
    if h.Datagram? && h.mapping == mapping { HeededNames(h.ps, mapping, h.from, h.hold, more, Key(0, 0, 0)); }
  }

  lemma OneTick()
    ensures Ticks([Ticked]) == 1
  {
    assert [Ticked][..0] == [];
  }

  lemma NoneRefresh(k: Key)
    ensures !Refreshes([], k) && !Refreshes([Ticked], k)
  {
  }

  lemma NoTraces(t: Table)
    ensures Run(t, []) == t && Traces([], true, []) && Traces([], false, [])
  {
  }

  lemma RunTick(t: Table)
    ensures Run(t, [Ticked]) == Tick(t)
  {
    assert [Ticked][..0] == [];
  }

  /** What the events leave of a key that nothing names. */
  lemma LeftAfter(t: Table, hs: seq<Happening>, mapping: bool, es: seq<Event>, k: Key)
    requires Traces(hs, mapping, es) && k in t && !NamedIn(hs, mapping, k)
    ensures Left(Run(t, es), k, t[k], Agings(hs))
  {
    Unrefreshed(t, es, k);
  }

  // ----- what goes into the RP set

  /** An entry the RP set is given: the RP `rp` for a prefix of groups, kept for `hold` seconds. */
  datatype RpEntry = RpEntry(rp: Addr, hold: nat, addr: Addr, len: nat)

  const RP_SET_FOREVER := 0xffff

  /** The holdtime of autorp_apply: for ever in the one is for ever in the other and nothing else is,
      and no mapping goes on the next pass of the RP set. */
  function RpHold(hold: nat): (h: nat)
    ensures h == RP_SET_FOREVER <==> hold == FOREVER
    ensures h != 0 && (hold != FOREVER ==> hold - 1 <= h <= hold && (h < hold ==> hold == RP_SET_FOREVER))
  {
    if hold == RP_SET_FOREVER then RP_SET_FOREVER - 1 else if hold == FOREVER then RP_SET_FOREVER else hold
  }

  /** A mapping that is kept and is no deny goes into the RP set. */
  ghost function Applied(t: Table, e: Event): seq<RpEntry> {
    if e.Learned? && (e.k in t || e.room) && !e.v.neg then [RpEntry(e.k.rp, RpHold(e.v.hold), e.k.addr, e.k.len)]
    else []
  }

  ghost function AllApplied(t: Table, es: seq<Event>): seq<RpEntry> {
    if es == [] then [] else AllApplied(t, es[..|es| - 1]) + Applied(Run(t, es[..|es| - 1]), es[|es| - 1])
  }

  class Mirror {
    const limit: nat
    var maps: seq<Entry>
    var announced: seq<Entry>
    var entries: nat
    /** What the RP set has been given, in order. */
    var applied: seq<RpEntry>

    /** The counter is the two lists, within the limit; no key is there twice; a learned mapping is a
        deny exactly when it has no RP, and else has a valid one, as every announcement has; every
        prefix is one of groups, masked. */
    ghost predicate Valid()
      reads this
    {
      && entries == |maps| + |announced| <= limit
      && MapsOk(maps) && AnnouncedOk(announced)
    }

    constructor (limit: nat)
      ensures Valid() && maps == [] && announced == [] && applied == [] && this.limit == limit
    {
      this.limit, maps, announced, entries, applied := limit, [], [], 0, [];
    }

    /** autorp_learn, of a prefix whose RP is a valid host: the mapping is kept if there is room for it,
        and then goes into the RP set if it is no deny. */
    method Learn(from: Addr, p: Prefix, hold: nat)
      requires Valid() && ValidHost(p.rp)
      modifies this
      ensures Valid() && announced == old(announced)
      ensures Believed(p) ==>
                var e := EventOf(p, true, from, hold, old(entries) < limit);
                && AsTable(maps) == Put(old(AsTable(maps)), e.k, e.v, e.room)
                && applied == old(applied) + Applied(old(AsTable(maps)), e)
      ensures !Believed(p) ==> maps == old(maps) && applied == old(applied)
    {
      if p.len > 32 { return; }
      var addr := MaskedTo(p.addr, p.len);
      if !Multicast(addr) { return; }
      MaskKeeps(p.addr, p.len);
      var s, kept, added := Keep(maps, Key(if p.neg then 0 else p.rp, addr, p.len), Value(p.neg, hold, from),
          entries < limit);
      maps := s;
      if added { entries := entries + 1; }
      if kept && !p.neg { applied := applied + [RpEntry(p.rp, RpHold(hold), addr, p.len)]; }
    }

    /** autorp_announced_learn, of a prefix whose RP is a valid host: a new announcement goes to the
        head of the list. */
    method Announce(from: Addr, p: Prefix, hold: nat)
      requires Valid() && ValidHost(p.rp)
      modifies this
      ensures Valid() && maps == old(maps) && applied == old(applied)
      ensures Believed(p) ==>
                var e := EventOf(p, false, from, hold, old(entries) < limit);
                && AsTable(announced) == Put(old(AsTable(announced)), e.k, e.v, e.room)
                && (e.k !in old(AsTable(announced)) && e.room ==>
                      announced == [Entry(e.k, e.v)] + old(announced) && entries == old(entries) + 1)
      ensures !Believed(p) ==> announced == old(announced)
    {
      if p.len > 32 { return; }
      var addr := MaskedTo(p.addr, p.len);
      if !Multicast(addr) { return; }
      MaskKeeps(p.addr, p.len);
      var s, kept, added := Keep(announced, Key(p.rp, addr, p.len), Value(p.neg, hold, from), entries < limit);
      announced := s;
      if added { entries := entries + 1; }
    }

    /** The loop of accept_autorp over the prefixes of a datagram, `mapping` or announcement: the list
        it is for goes through one event for each prefix that is believed, in order, and the other
        stays as it was; what a mapping message adds goes into the RP set. */
    method Accept(from: Addr, ps: seq<Prefix>, hold: nat, mapping: bool) returns (ghost es: seq<Event>)
      requires Valid()
      modifies this
      ensures Valid() && (if mapping then announced == old(announced) else maps == old(maps))
      ensures AsTable(if mapping then maps else announced) == Run(old(AsTable(if mapping then maps else announced)), es)
      ensures Heeded(ps, mapping, from, hold, es)
      ensures applied == old(applied) + if mapping then AllApplied(old(AsTable(maps)), es) else []
    {
      hide MapsOk, AnnouncedOk, AsTable, Run, Put, Applied, AllApplied;
      es := [];
      EmptyRun(AsTable(maps));
      EmptyRun(AsTable(announced));
      var i := 0;
      while i < |ps|
        invariant 0 <= i <= |ps| && Valid() && (if mapping then announced == old(announced) else maps == old(maps))
        invariant AsTable(if mapping then maps else announced) ==
                  Run(old(AsTable(if mapping then maps else announced)), es)
        invariant Heeded(ps[..i], mapping, from, hold, es)
        invariant applied == old(applied) + if mapping then AllApplied(old(AsTable(maps)), es) else []
      {
        ghost var room := entries < limit;
        assert ps[..i + 1][..i] == ps[..i];
        if ValidHost(ps[i].rp) {
          if mapping { Learn(from, ps[i], hold); } else { Announce(from, ps[i], hold); }
          if Believed(ps[i]) {
            AppliedNext(old(AsTable(maps)), es, EventOf(ps[i], mapping, from, hold, room));
            RunNext(old(AsTable(if mapping then maps else announced)), es, EventOf(ps[i], mapping, from, hold, room));
            es := es + [EventOf(ps[i], mapping, from, hold, room)];
          }
        }
        i := i + 1;
      }
      assert ps[..|ps|] == ps;
    }

    /** age_autorp */
    method Age()
      requires Valid()
      modifies this
      ensures Valid()
      ensures AsTable(maps) == Tick(old(AsTable(maps))) && AsTable(announced) == Tick(old(AsTable(announced)))
      ensures applied == old(applied)
    {
      hide AgedList, AsTable, Tick;
      AgedShape(maps);
      AgedShape(announced);
      var s, gone := AgeList(maps);
      var s', gone' := AgeList(announced);
      maps, announced, entries := s, s', entries - gone - gone';
    }

    /** Over any datagrams and ticks, in either list, a key that no datagram for the list names again is
        there exactly while its holdtime exceeds 5 seconds for each tick, with what is left of it. */
    method Live(hs: seq<Happening>)
      requires Valid()
      modifies this
      ensures Valid()
      ensures forall k :: k in old(AsTable(maps)) && !NamedIn(hs, true, k) ==>
                Left(AsTable(maps), k, old(AsTable(maps))[k], Agings(hs))
      ensures forall k :: k in old(AsTable(announced)) && !NamedIn(hs, false, k) ==>
                Left(AsTable(announced), k, old(AsTable(announced))[k], Agings(hs))
    {
      hide MapsOk, AnnouncedOk, AsTable, Run, Traces, Left, NamedIn, Heeded, Tick, Names;
      ghost var t, u, es, fs := AsTable(maps), AsTable(announced), [], [];
      NoTraces(t);
      NoTraces(u);
      var i := 0;
      while i < |hs|
        invariant 0 <= i <= |hs| && Valid()
        invariant AsTable(maps) == Run(t, es) && AsTable(announced) == Run(u, fs)
        invariant Traces(hs[..i], true, es) && Traces(hs[..i], false, fs)
      {
        assert hs[..i + 1] == hs[..i] + [hs[i]];
        ghost var more, more': seq<Event> := [], [];
        NoTraces(AsTable(maps));
        NoTraces(AsTable(announced));
        match hs[i] {
          case Datagram(from, ps, hold, mapping) =>
            ghost var xs := Accept(from, ps, hold, mapping);
            if mapping { more := xs; } else { more' := xs; }
          case Aging =>
            RunTick(AsTable(maps));
            RunTick(AsTable(announced));
            Age();
            more, more' := [Ticked], [Ticked];
        }
        TracesNext(hs[..i], hs[i], true, t, es, more);
        TracesNext(hs[..i], hs[i], false, u, fs, more');
        es, fs := es + more, fs + more';
        i := i + 1;
      }
      assert hs[..|hs|] == hs;
      forall k | k in t && !NamedIn(hs, true, k) ensures Left(AsTable(maps), k, t[k], Agings(hs)) {
        LeftAfter(t, hs, true, es, k);
      }
      forall k | k in u && !NamedIn(hs, false, k) ensures Left(AsTable(announced), k, u[k], Agings(hs)) {
        LeftAfter(u, hs, false, fs, k);
      }
    }
  }

  /** The announcements, as the mapping agent resolves them. */
  ghost function Announcements(s: seq<Entry>): seq<Ann> {
    seq(|s|, i requires 0 <= i < |s| => Ann(s[i].key.rp, s[i].key.addr, s[i].key.len, s[i].value.neg))
  }

  /** What the router keeps is what resolution is about: masked prefixes of valid RPs, one for each RP
      and prefix. */
  lemma AnnouncementsOk(m: Mirror)
    requires m.Valid()
    ensures Announced(Announcements(m.announced))
    ensures forall a :: a in Announcements(m.announced) ==> ValidHost(a.rp) && Multicast(a.addr)
  {
    var a := Announcements(m.announced);
    forall i | 0 <= i < |a| ensures Masked(a[i]) && ValidHost(a[i].rp) && Multicast(a[i].addr) {
      assert m.announced[i] in m.announced && PrefixMasked(m.announced[i]) && RpIsHost(m.announced[i]);
    }
    forall i, j | 0 <= i < j < |a| ensures !(a[i].rp == a[j].rp && SamePrefix(a[i], a[j])) {
      assert m.announced[i].key != m.announced[j].key;
    }
  }

  /** Three announcements are enough for the list whose resolution changes a verdict. */
  method HoldsThreeLevels(hold: nat) returns (m: Mirror)
    ensures fresh(m) && m.Valid() && Announcements(m.announced) == THREE_LEVELS
  {
    m := new Mirror(3);
    var one, two := 0x0a000001, 0x0a000002;
    m.Announce(one, Prefix(one, 0xef000000, 30, false), hold);
    m.Announce(two, Prefix(two, 0xef000000, 29, true), hold);
    m.Announce(one, Prefix(one, 0xef000000, 28, false), hold);
    assert Announcements(m.announced) == THREE_LEVELS;
  }
}
