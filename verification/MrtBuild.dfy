/** What creating groups, sources and entries, and moving groups between RP chains, keeps of the
    routing table's invariant. */
module MrtBuild {
  import opened Links
  import opened Orthogonal
  import opened MrtModel
  import opened MrtSteps

  // ----- new groups and sources

  function GroupAdded(m: Memory, g: Ptr, a: Addr, p: Ptr, n: Ptr): Memory
    requires Linked(p, m.gl.link) && Linked(n, m.gl.link)
  {
    m.(gl := ListFields(LinkedBetween(m.gl.link, g, p, n), m.gl.addr[g := a]),
       gs := m.gs.(heads := m.gs.heads[g := NULL]), route := m.route[g := NULL],
       rp := m.rp.(link := m.rp.link[g := Link(NULL, NULL)], of := m.rp.of[g := NULL]))
  }

  ghost function GroupIn(v: View, k: nat, g: Ptr): View
    requires k <= |v.groups|
  {
    v.(groups := Insert(v.groups, k, g), gch := v.gch[g := []])
  }

  /** Position `k` of a list is where address `a` belongs. */
  ghost predicate Spot(l: ListFields, s: seq<Ptr>, k: nat, a: Addr) {
    && 0 < k <= |s|
    && (forall i :: 0 <= i < |s| ==> s[i] in l.addr)
    && (forall i :: 1 <= i < k ==> l.addr[s[i]] < a)
    && (forall i :: k <= i < |s| ==> a < l.addr[s[i]])
  }

  ghost predicate GroupPlace(m: Memory, v: View, k: nat, g: Ptr, a: Addr) {
    g != NULL && g !in m.gl.addr && Spot(m.gl, v.groups, k, a)
  }

  lemma AddedGroupRpChains(m: Memory, v: View, x: Pending, v': View, g: Ptr)
    requires RpSide(m.rp, v, x) && g !in v.gch && v'.rch == v.rch && v'.gch == v.gch[g := []]
    requires At(v'.groups, 0) == At(v.groups, 0)
    ensures RpChains(m.rp.(link := m.rp.link[g := Link(NULL, NULL)], of := m.rp.of[g := NULL]), v')
  {
    var rp' := m.rp.(link := m.rp.link[g := Link(NULL, NULL)], of := m.rp.of[g := NULL]);
    forall r | r in v'.rch ensures RpAt(rp', v', r) {
      assert RpAt(m.rp, v, r);
      ChainFrame(RpHead(m.rp, r), m.rp.link, rp'.link, v.rch[r]);
    }
  }

  lemma AddedGroupRp(m: Memory, v: View, x: Pending, v': View, g: Ptr)
    requires RpSide(m.rp, v, x) && g !in v.gch && v'.rch == v.rch && v'.gch == v.gch[g := []]
    requires At(v'.groups, 0) == At(v.groups, 0)
    ensures RpSide(m.rp.(link := m.rp.link[g := Link(NULL, NULL)], of := m.rp.of[g := NULL]), v',
              x.(loose := x.loose + {g}))
  {
    var rp', x' := m.rp.(link := m.rp.link[g := Link(NULL, NULL)], of := m.rp.of[g := NULL]),
        x.(loose := x.loose + {g});
    AddedGroupRpChains(m, v, x, v', g);
    assert RpAt(m.rp, v, NULL);
    forall h | h in v'.gch && h != At(v'.groups, 0) ensures GroupRpAt(rp', v', x', h) {
      if h != g { assert GroupRpAt(m.rp, v, x, h); }
    }
  }

  lemma AddedGroupEntries(m: Memory, v: View, x: Pending, v': View, g: Ptr, a: Addr)
    requires Entries(m.ent, m.route, m.gl.addr, m.sl.addr, v, x) && g !in m.gl.addr && g !in v.gch
    requires v'.gch == v.gch[g := []] && v'.sch == v.sch && v'.gkey == v.gkey && v'.skey == v.skey
    ensures Entries(m.ent, m.route[g := NULL], m.gl.addr[g := a], m.sl.addr, v', x.(loose := x.loose + {g}))
  {
    var x' := x.(loose := x.loose + {g});
    forall e | e in m.ent.grp ensures EntryAt(m.ent, m.route[g := NULL], m.gl.addr[g := a], m.sl.addr, v', x', e) {
      assert EntryAt(m.ent, m.route, m.gl.addr, m.sl.addr, v, x, e);
    }
  }

  lemma AddedGroupRoutes(m: Memory, v: View, x: Pending, v': View, g: Ptr)
    requires Routes(m.ent, m.route, v.gch) && RpLess(m.ent, m.route, v) && g !in v.gch && RpSide(m.rp, v, x)
    requires v'.gch == v.gch[g := []] && v'.rch == v.rch
    ensures Routes(m.ent, m.route[g := NULL], v'.gch) && RpLess(m.ent, m.route[g := NULL], v')
  {
    forall h | h in v'.gch
      ensures RouteAt(m.ent, m.route[g := NULL], h)
    {
      assert h != g ==> RouteAt(m.ent, m.route, h);
    }
    assert RpAt(m.rp, v, NULL);
    forall h | On(v'.rch, NULL, h) ensures RpLessAt(m.ent, m.route[g := NULL], v'.gch, h) {
      assert RpLessAt(m.ent, m.route, v.gch, h);
    }
  }

  lemma AddedGroupAllocated(m: Memory, v: View, x: Pending, k: nat, g: Ptr, a: Addr, p: Ptr, n: Ptr)
    requires GroupsAllocated(m, v.gch.Keys, x.dyingG) && g !in m.gl.addr && k <= |v.groups|
    requires Linked(p, m.gl.link) && Linked(n, m.gl.link)
    requires LinkedBetween(m.gl.link, g, p, n).Keys == m.gl.link.Keys + {g}
    ensures GroupsAllocated(GroupAdded(m, g, a, p, n), GroupIn(v, k, g).gch.Keys, x.dyingG)
    ensures GroupIn(v, k, g).gch.Keys == v.gch.Keys + {g}
  {
    assert GroupIn(v, k, g).gch.Keys == v.gch.Keys + {g};
    AddedGroupFields(m, v.gch.Keys, x.dyingG, g, a, p, n);
  }

  lemma GroupsListed(m: Memory, v: View, x: Pending)
    requires GroupsAllocated(m, v.gch.Keys, x.dyingG) && Sentinels(m, v)
    ensures v.gch.Keys <= m.gl.addr.Keys && |v.groups| > 0
  {
  }

  lemma AddedGroupOthers(m: Memory, v: View, x: Pending, k: nat, g: Ptr, a: Addr, p: Ptr, n: Ptr)
    requires GroupsAllocated(m, v.gch.Keys, x.dyingG) && SourcesAllocated(m, v.sch.Keys, x.dyingS)
    requires EntriesAllocated(m) && Sentinels(m, v)
    requires g !in m.gl.addr && 0 < k <= |v.groups| && Linked(p, m.gl.link) && Linked(n, m.gl.link)
    ensures var m', v' := GroupAdded(m, g, a, p, n), GroupIn(v, k, g);
            SourcesAllocated(m', v'.sch.Keys, x.dyingS) && EntriesAllocated(m') && Sentinels(m', v')
  {
  }

  lemma AddedGroupFields(m: Memory, listed: set<Ptr>, dying: set<Ptr>, g: Ptr, a: Addr, p: Ptr, n: Ptr)
    requires GroupsAllocated(m, listed, dying) && g !in m.gl.addr
    requires Linked(p, m.gl.link) && Linked(n, m.gl.link)
    requires LinkedBetween(m.gl.link, g, p, n).Keys == m.gl.link.Keys + {g}
    ensures GroupsAllocated(GroupAdded(m, g, a, p, n), listed + {g}, dying)
  {
    var m' := GroupAdded(m, g, a, p, n);
    assert m'.gl.addr.Keys == m.gl.addr.Keys + {g};
    assert m'.gs.heads.Keys == m.gs.heads.Keys + {g} && m'.route.Keys == m.route.Keys + {g};
    assert m'.rp.link.Keys == m.rp.link.Keys + {g} && m'.rp.of.Keys == m.rp.of.Keys + {g};
  }

  /** A new group, listed where its address belongs, has no entry and is on no RP chain. */
  lemma AddGroup(m: Memory, v: View, x: Pending, k: nat, g: Ptr, a: Addr)
    requires Partial(m, v, x) && GroupPlace(m, v, k, g, a)
    ensures Linked(At(v.groups, k - 1), m.gl.link) && Linked(At(v.groups, k), m.gl.link)
    ensures Partial(GroupAdded(m, g, a, At(v.groups, k - 1), At(v.groups, k)), GroupIn(v, k, g),
              x.(loose := x.loose + {g}))
    ensures At(GroupIn(v, k, g).groups, 0) == At(v.groups, 0)
  {
    hide Listing, Side, Entries, Routes, RpSide, RpLess, GroupsAllocated, SourcesAllocated, EntriesAllocated, Sentinels;
    GroupsListed(m, v, x);
    ListingInsert(m.gl, v.groups, v.gch.Keys, k, g, a);
    var m', v', x' := GroupAdded(m, g, a, At(v.groups, k - 1), At(v.groups, k)), GroupIn(v, k, g),
        x.(loose := x.loose + {g});
    AddedGroupRp(m, v, x, v', g);
    AddedGroupEntries(m, v, x, v', g, a);
    AddedGroupRoutes(m, v, x, v', g);
    AddedGroupAllocated(m, v, x, k, g, a, At(v.groups, k - 1), At(v.groups, k));
    AddedGroupOthers(m, v, x, k, g, a, At(v.groups, k - 1), At(v.groups, k));
    AddedOwner(GSide(m.gs, m.ent), v.skey, v.gch, g);
  }

  /** A new owner of a chain starts with an empty one. */
  lemma AddedOwner(f: Fields, key: map<Ptr, Addr>, ch: Chains, y: Ptr)
    requires Side(f, key, ch) && y !in ch
    ensures Side(f.(heads := f.heads[y := NULL]), key, ch[y := []])
  {
    var f', ch' := f.(heads := f.heads[y := NULL]), ch[y := []];
    forall z | z in ch' ensures SideAt(f', key, ch', z) { assert z != y ==> SideAt(f, key, ch, z); }
  }

  function SourceAdded(m: Memory, s: Ptr, a: Addr, iif: int, p: Ptr, n: Ptr): Memory
    requires Linked(p, m.sl.link) && Linked(n, m.sl.link)
  {
    m.(sl := ListFields(LinkedBetween(m.sl.link, s, p, n), m.sl.addr[s := a]),
       ss := m.ss.(heads := m.ss.heads[s := NULL]), srcIif := m.srcIif[s := iif])
  }

  ghost function SourceIn(v: View, k: nat, s: Ptr): View
    requires k <= |v.sources|
  {
    v.(sources := Insert(v.sources, k, s), sch := v.sch[s := []])
  }

  ghost predicate SourcePlace(m: Memory, v: View, k: nat, s: Ptr, a: Addr) {
    s != NULL && s !in m.sl.addr && Spot(m.sl, v.sources, k, a)
  }

  lemma AddedSourceEntries(m: Memory, v: View, x: Pending, v': View, s: Ptr, a: Addr)
    requires Entries(m.ent, m.route, m.gl.addr, m.sl.addr, v, x) && s !in m.sl.addr && s !in v.sch
    requires v'.sch == v.sch[s := []] && v'.gch == v.gch && v'.gkey == v.gkey && v'.skey == v.skey
    ensures Entries(m.ent, m.route, m.gl.addr, m.sl.addr[s := a], v', x)
  {
    forall e | e in m.ent.grp ensures EntryAt(m.ent, m.route, m.gl.addr, m.sl.addr[s := a], v', x, e) {
      assert EntryAt(m.ent, m.route, m.gl.addr, m.sl.addr, v, x, e);
    }
  }

  lemma AddedSourceAllocated(m: Memory, v: View, x: Pending, k: nat, s: Ptr, a: Addr, iif: int, p: Ptr, n: Ptr)
    requires SourcesAllocated(m, v.sch.Keys, x.dyingS) && EntriesAllocated(m) && Sentinels(m, v)
    requires s !in m.sl.addr && 0 < k <= |v.sources|
    requires Linked(p, m.sl.link) && Linked(n, m.sl.link)
    requires LinkedBetween(m.sl.link, s, p, n).Keys == m.sl.link.Keys + {s}
    ensures SourcesAllocated(SourceAdded(m, s, a, iif, p, n), SourceIn(v, k, s).sch.Keys, x.dyingS)
    ensures EntriesAllocated(SourceAdded(m, s, a, iif, p, n)) && SourceIn(v, k, s).sch.Keys == v.sch.Keys + {s}
    ensures Sentinels(SourceAdded(m, s, a, iif, p, n), SourceIn(v, k, s))
    ensures GroupsAllocated(m, v.gch.Keys, x.dyingG) ==>
              GroupsAllocated(SourceAdded(m, s, a, iif, p, n), v.gch.Keys, x.dyingG)
  {
  }

  lemma SourcesListed(m: Memory, v: View, x: Pending)
    requires SourcesAllocated(m, v.sch.Keys, x.dyingS) && Sentinels(m, v)
    ensures v.sch.Keys <= m.sl.addr.Keys && |v.sources| > 0
  {
  }

  /** A new source, listed where its address belongs, has no entry. */
  lemma AddSource(m: Memory, v: View, x: Pending, k: nat, s: Ptr, a: Addr, iif: int)
    requires Partial(m, v, x) && SourcePlace(m, v, k, s, a)
    ensures Linked(At(v.sources, k - 1), m.sl.link) && Linked(At(v.sources, k), m.sl.link)
    ensures Partial(SourceAdded(m, s, a, iif, At(v.sources, k - 1), At(v.sources, k)), SourceIn(v, k, s), x)
    ensures At(SourceIn(v, k, s).sources, 0) == At(v.sources, 0)
  {
    hide Listing, Side, Entries, Routes, RpSide, RpLess, GroupsAllocated, SourcesAllocated, EntriesAllocated, Sentinels;
    SourcesListed(m, v, x);
    ListingInsert(m.sl, v.sources, v.sch.Keys, k, s, a);
    var m', v' := SourceAdded(m, s, a, iif, At(v.sources, k - 1), At(v.sources, k)), SourceIn(v, k, s);
    AddedSourceEntries(m, v, x, v', s, a);
    AddedSourceAllocated(m, v, x, k, s, a, iif, At(v.sources, k - 1), At(v.sources, k));
    AddedOwner(SSide(m.ss, m.ent), v.gkey, v.sch, s);
    RpViewFrame(m.rp, v, x, v', x);
    RpLessFrame(m.ent, m.route, v, v');
  }

  // ----- new entries

  const NO_VIF := -1

  /** alloc_mrtentry for source `s` (NULL for a (*,G)) and group `g` */
  function EntryAdded(m: Memory, e: Ptr, g: Ptr, s: Ptr, flags: set<Flag>): Memory {
    m.(ent := EntryFields(m.ent.grp[e := g], m.ent.src[e := s], m.ent.flags[e := flags], m.ent.iif[e := NO_VIF]),
       gs := m.gs.(link := m.gs.link[e := Link(NULL, NULL)]), ss := m.ss.(link := m.ss.link[e := Link(NULL, NULL)]))
  }

  ghost function Keyed(v: View, e: Ptr, ga: Addr, sa: Addr): View {
    v.(gkey := v.gkey[e := ga], skey := v.skey[e := sa])
  }

  /** A pointer that is no entry is on no chain. */
  lemma FreshOff(m: Memory, v: View, x: Pending, e: Ptr)
    requires Partial(m, v, x) && e !in m.ent.grp
    ensures OffBoth(v, e)
  {
    forall y ensures !On(v.gch, y, e) && !On(v.sch, y, e) {
      if y in v.gch { assert SideAt(GSide(m.gs, m.ent), v.skey, v.gch, y); }
      if y in v.sch { assert SideAt(SSide(m.ss, m.ent), v.gkey, v.sch, y); }
    }
  }

  lemma AddedEntryEntries(m: Memory, v: View, x: Pending, e: Ptr, g: Ptr, s: Ptr, flags: set<Flag>, ga: Addr,
        sa: Addr, x': Pending)
    requires Entries(m.ent, m.route, m.gl.addr, m.sl.addr, v, x) && e !in m.ent.grp && e != NULL && OffBoth(v, e)
    requires x'.offG == x.offG + {e} && x'.offS == x.offS + {e}
    ensures Entries(EntryAdded(m, e, g, s, flags).ent, m.route, m.gl.addr, m.sl.addr, Keyed(v, e, ga, sa), x')
  {
    var m', v' := EntryAdded(m, e, g, s, flags), Keyed(v, e, ga, sa);
    forall f | f in m'.ent.grp ensures EntryAt(m'.ent, m.route, m.gl.addr, m.sl.addr, v', x', f) {
      if f != e { assert EntryAt(m.ent, m.route, m.gl.addr, m.sl.addr, v, x, f); }
    }
  }

  lemma AddedEntryRoutes(m: Memory, v: View, e: Ptr, g: Ptr, s: Ptr, flags: set<Flag>, v': View)
    requires Routes(m.ent, m.route, v.gch) && RpLess(m.ent, m.route, v) && e !in m.ent.grp && OffBoth(v, e)
    requires v'.gch == v.gch && v'.rch == v.rch
    ensures Routes(EntryAdded(m, e, g, s, flags).ent, m.route, v'.gch)
    ensures RpLess(EntryAdded(m, e, g, s, flags).ent, m.route, v')
  {
    var m' := EntryAdded(m, e, g, s, flags);
    forall h | h in v.gch ensures RouteAt(m'.ent, m.route, h) { assert RouteAt(m.ent, m.route, h); }
    forall h | On(v.rch, NULL, h)
      ensures RpLessAt(m'.ent, m.route, v'.gch, h)
    {
      assert RpLessAt(m.ent, m.route, v.gch, h);
    }
  }

  lemma AddedEntrySides(m: Memory, v: View, e: Ptr, g: Ptr, s: Ptr, flags: set<Flag>, ga: Addr, sa: Addr)
    requires Side(GSide(m.gs, m.ent), v.skey, v.gch) && Side(SSide(m.ss, m.ent), v.gkey, v.sch) && OffBoth(v, e)
    ensures var m', v' := EntryAdded(m, e, g, s, flags), Keyed(v, e, ga, sa);
            Side(GSide(m'.gs, m'.ent), v'.skey, v.gch) && Side(SSide(m'.ss, m'.ent), v'.gkey, v.sch)
  {
    var m', v' := EntryAdded(m, e, g, s, flags), Keyed(v, e, ga, sa);
    forall y | y in v.gch ensures y in m.gs.heads { assert SideAt(GSide(m.gs, m.ent), v.skey, v.gch, y); }
    forall y | y in v.sch ensures y in m.ss.heads { assert SideAt(SSide(m.ss, m.ent), v.gkey, v.sch, y); }
    SideFrame(GSide(m.gs, m.ent), v.skey, v.gch, GSide(m'.gs, m'.ent), v'.skey, v.gch);
    SideFrame(SSide(m.ss, m.ent), v.gkey, v.sch, SSide(m'.ss, m'.ent), v'.gkey, v.sch);
  }

  lemma AddedEntryAllocated(m: Memory, e: Ptr, g: Ptr, s: Ptr, flags: set<Flag>)
    requires EntriesAllocated(m)
    ensures EntriesAllocated(EntryAdded(m, e, g, s, flags))
  {
    var m' := EntryAdded(m, e, g, s, flags);
    assert m'.ent.grp.Keys == m.ent.grp.Keys + {e} && m'.ent.src.Keys == m.ent.src.Keys + {e};
    assert m'.ent.flags.Keys == m.ent.flags.Keys + {e} && m'.ent.iif.Keys == m.ent.iif.Keys + {e};
    assert m'.gs.link.Keys == m.gs.link.Keys + {e} && m'.ss.link.Keys == m.ss.link.Keys + {e};
  }

  /** A new entry starts off both chains. */
  lemma AddEntry(m: Memory, v: View, x: Pending, e: Ptr, g: Ptr, s: Ptr, flags: set<Flag>, ga: Addr, sa: Addr)
    requires Partial(m, v, x) && e !in m.ent.grp && e != NULL
    ensures Partial(EntryAdded(m, e, g, s, flags), Keyed(v, e, ga, sa), x.(offG := x.offG + {e}, offS := x.offS + {e}))
    ensures OffBoth(v, e)
  {
    hide Listing, Side, Entries, Routes, RpSide, RpLess, OffBoth;
    var v', x' := Keyed(v, e, ga, sa), x.(offG := x.offG + {e}, offS := x.offS + {e});
    FreshOff(m, v, x, e);
    AddedEntryEntries(m, v, x, e, g, s, flags, ga, sa, x');
    AddedEntryRoutes(m, v, e, g, s, flags, v');
    AddedEntryAllocated(m, e, g, s, flags);
    RpViewFrame(m.rp, v, x, v', x');
    AddedEntrySides(m, v, e, g, s, flags, ga, sa);
  }

  // ----- entries joining their chains

  function JoinToGroup(m: Memory, e: Ptr, g: Ptr, p: Ptr, n: Ptr): Memory
    requires Linked(p, m.gs.link) && Linked(n, m.gs.link)
  {
    var f := Join(GSide(m.gs, m.ent), e, g, p, n);
    m.(gs := SideFields(f.heads, f.link))
  }

  ghost function OnGroup(v: View, g: Ptr, k: nat, e: Ptr): View
    requires g in v.gch && k <= |v.gch[g]|
  {
    v.(gch := v.gch[g := Insert(v.gch[g], k, e)])
  }

  /** Position `k` of chain `s` is where key `a` belongs. */
  ghost predicate ChainPlace(s: seq<Ptr>, key: map<Ptr, Addr>, k: nat, a: Addr) {
    && k <= |s|
    && (forall i :: 0 <= i < k ==> s[i] in key && key[s[i]] < a)
    && (forall i :: k <= i < |s| ==> s[i] in key && a < key[s[i]])
  }

  lemma JoinGroupSide(m: Memory, v: View, e: Ptr, g: Ptr, k: nat)
    requires Side(GSide(m.gs, m.ent), v.skey, v.gch) && g in v.gch && e != NULL && e in m.ent.grp
    requires m.ent.grp[e] == g && e in v.skey && e in m.gs.link
    requires OffBoth(v, e) && ChainPlace(v.gch[g], v.skey, k, v.skey[e]) && g in m.gs.heads
    ensures var p, n := At(v.gch[g], k - 1), At(v.gch[g], k);
            && Linked(p, m.gs.link) && Linked(n, m.gs.link)
            && var m', v' := JoinToGroup(m, e, g, p, n), OnGroup(v, g, k, e);
            && Side(GSide(m'.gs, m'.ent), v'.skey, v'.gch)
            && v'.gch.Keys == v.gch.Keys && v'.gch[g] != []
            && m'.gs.heads.Keys == m.gs.heads.Keys && m'.gs.link.Keys == m.gs.link.Keys
            && (forall y, q :: On(v'.gch, y, q) <==> On(v.gch, y, q) || (y == g && q == e))
  {
    JoinSide(GSide(m.gs, m.ent), v.skey, v.gch, g, e, k);
    assert Insert(v.gch[g], k, e)[k] == e;
    assert m.gs.link.Keys + {e} == m.gs.link.Keys;
    var p, n := At(v.gch[g], k - 1), At(v.gch[g], k);
    assert GSide(JoinToGroup(m, e, g, p, n).gs, m.ent) == Join(GSide(m.gs, m.ent), e, g, p, n);
  }

  lemma JoinGroupEntries(m: Memory, v: View, x: Pending, e: Ptr, v': View, x': Pending)
    requires Entries(m.ent, m.route, m.gl.addr, m.sl.addr, v, x) && e in m.ent.grp && e in m.ent.flags
    requires SG in m.ent.flags[e]
    requires m.ent.grp[e] in v.gch && m.ent.grp[e] in m.gl.addr && e in v.gkey && v.gkey[e] == m.gl.addr[m.ent.grp[e]]
    requires v'.gch.Keys == v.gch.Keys && v'.sch == v.sch && v'.gkey == v.gkey && v'.skey == v.skey
    requires forall y, p :: On(v'.gch, y, p) <==> On(v.gch, y, p) || (y == m.ent.grp[e] && p == e)
    requires x'.offG == x.offG - {e} && x'.offS == x.offS
    ensures Entries(m.ent, m.route, m.gl.addr, m.sl.addr, v', x')
  {
    forall f | f in m.ent.grp ensures EntryAt(m.ent, m.route, m.gl.addr, m.sl.addr, v', x', f) {
      assert EntryAt(m.ent, m.route, m.gl.addr, m.sl.addr, v, x, f);
    }
  }

  lemma JoinRpLess(m: Memory, v: View, e: Ptr, v': View)
    requires RpLess(m.ent, m.route, v) && v'.rch == v.rch && e in m.ent.grp && e in m.ent.flags && RP !in m.ent.flags[e]
    requires forall y, p :: On(v'.gch, y, p) <==> On(v.gch, y, p) || (y == m.ent.grp[e] && p == e)
    ensures RpLess(m.ent, m.route, v')
  {
    forall h | On(v'.rch, NULL, h)
      ensures RpLessAt(m.ent, m.route, v'.gch, h)
    {
      assert RpLessAt(m.ent, m.route, v.gch, h);
    }
  }

  /** An (S,G) put on its group's chain where its source belongs. */
  lemma JoinGroup(m: Memory, v: View, x: Pending, e: Ptr, k: nat)
    requires Partial(m, v, x) && e in m.ent.grp && m.ent.grp[e] in v.gch && m.ent.grp[e] != At(v.groups, 0)
    requires OffBoth(v, e)
    requires e in m.ent.flags && SG in m.ent.flags[e] && RP !in m.ent.flags[e]
    requires e in v.skey && ChainPlace(v.gch[m.ent.grp[e]], v.skey, k, v.skey[e])
    requires m.ent.grp[e] in m.gl.addr && e in v.gkey && v.gkey[e] == m.gl.addr[m.ent.grp[e]]
    ensures var g := m.ent.grp[e];
            var p, n := At(v.gch[g], k - 1), At(v.gch[g], k);
            && Linked(p, m.gs.link) && Linked(n, m.gs.link)
            && Partial(JoinToGroup(m, e, g, p, n), OnGroup(v, g, k, e), x.(offG := x.offG - {e}))
            && (forall y, q :: On(OnGroup(v, g, k, e).gch, y, q) <==> On(v.gch, y, q) || (y == g && q == e))
  {
    hide Listing, Side, Entries, Routes, RpSide, RpLess;
    var g := m.ent.grp[e];
    NonNull(m, v, x, e);
    JoinGroupSide(m, v, e, g, k);
    var v', x' := OnGroup(v, g, k, e), x.(offG := x.offG - {e});
    JoinGroupEntries(m, v, x, e, v', x');
    RoutesFrame(m.ent, m.route, v.gch, v'.gch);
    RpViewFrame(m.rp, v, x, v', x');
    JoinRpLess(m, v, e, v');
    GroupSideAllocated(m, JoinToGroup(m, e, g, At(v.gch[g], k - 1), At(v.gch[g], k)).gs, v.gch.Keys, x.dyingG);
  }

  lemma NonNull(m: Memory, v: View, x: Pending, e: Ptr)
    requires Entries(m.ent, m.route, m.gl.addr, m.sl.addr, v, x) && e in m.ent.grp
    ensures e != NULL
  {
    assert EntryAt(m.ent, m.route, m.gl.addr, m.sl.addr, v, x, e);
  }

  function JoinToSource(m: Memory, e: Ptr, s: Ptr, p: Ptr, n: Ptr): Memory
    requires Linked(p, m.ss.link) && Linked(n, m.ss.link)
  {
    var f := Join(SSide(m.ss, m.ent), e, s, p, n);
    m.(ss := SideFields(f.heads, f.link))
  }

  ghost function OnSource(v: View, s: Ptr, k: nat, e: Ptr): View
    requires s in v.sch && k <= |v.sch[s]|
  {
    v.(sch := v.sch[s := Insert(v.sch[s], k, e)])
  }

  lemma JoinSourceSide(m: Memory, v: View, e: Ptr, s: Ptr, k: nat)
    requires Side(SSide(m.ss, m.ent), v.gkey, v.sch) && s in v.sch && e != NULL && e in m.ent.src
    requires m.ent.src[e] == s && e in v.gkey && e in m.ss.link
    requires (forall y :: !On(v.sch, y, e)) && ChainPlace(v.sch[s], v.gkey, k, v.gkey[e]) && s in m.ss.heads
    ensures var p, n := At(v.sch[s], k - 1), At(v.sch[s], k);
            && Linked(p, m.ss.link) && Linked(n, m.ss.link)
            && var m', v' := JoinToSource(m, e, s, p, n), OnSource(v, s, k, e);
            && Side(SSide(m'.ss, m'.ent), v'.gkey, v'.sch)
            && v'.sch.Keys == v.sch.Keys && v'.sch[s] != []
            && m'.ss.heads.Keys == m.ss.heads.Keys && m'.ss.link.Keys == m.ss.link.Keys
            && (forall y, q :: On(v'.sch, y, q) <==> On(v.sch, y, q) || (y == s && q == e))
  {
    JoinSide(SSide(m.ss, m.ent), v.gkey, v.sch, s, e, k);
    assert Insert(v.sch[s], k, e)[k] == e;
    assert m.ss.link.Keys + {e} == m.ss.link.Keys;
    var p, n := At(v.sch[s], k - 1), At(v.sch[s], k);
    assert SSide(JoinToSource(m, e, s, p, n).ss, m.ent) == Join(SSide(m.ss, m.ent), e, s, p, n);
  }

  lemma JoinSourceEntries(m: Memory, v: View, x: Pending, e: Ptr, v': View, x': Pending)
    requires Entries(m.ent, m.route, m.gl.addr, m.sl.addr, v, x) && e in m.ent.grp && e in m.ent.src
    requires e in m.ent.flags && SG in m.ent.flags[e]
    requires m.ent.src[e] in m.sl.addr && e in v.skey && v.skey[e] == m.sl.addr[m.ent.src[e]]
    requires v'.sch.Keys == v.sch.Keys && v'.gch == v.gch && v'.gkey == v.gkey && v'.skey == v.skey
    requires forall y, p :: On(v'.sch, y, p) <==> On(v.sch, y, p) || (y == m.ent.src[e] && p == e)
    requires x'.offS == x.offS - {e} && x'.offG == x.offG
    ensures Entries(m.ent, m.route, m.gl.addr, m.sl.addr, v', x')
  {
    forall f | f in m.ent.grp ensures EntryAt(m.ent, m.route, m.gl.addr, m.sl.addr, v', x', f) {
      assert EntryAt(m.ent, m.route, m.gl.addr, m.sl.addr, v, x, f);
    }
  }

  /** An (S,G) put on its source's chain where its group belongs. */
  lemma JoinSource(m: Memory, v: View, x: Pending, e: Ptr, k: nat)
    requires Partial(m, v, x) && e in m.ent.grp && e in m.ent.src && m.ent.src[e] in v.sch
    requires m.ent.src[e] != At(v.sources, 0)
    requires forall y :: !On(v.sch, y, e)
    requires e in m.ent.flags && SG in m.ent.flags[e]
    requires e in v.gkey && ChainPlace(v.sch[m.ent.src[e]], v.gkey, k, v.gkey[e])
    requires m.ent.src[e] in m.sl.addr && e in v.skey && v.skey[e] == m.sl.addr[m.ent.src[e]]
    ensures var s := m.ent.src[e];
            var p, n := At(v.sch[s], k - 1), At(v.sch[s], k);
            && Linked(p, m.ss.link) && Linked(n, m.ss.link)
            && Partial(JoinToSource(m, e, s, p, n), OnSource(v, s, k, e), x.(offS := x.offS - {e}))
            && (forall y, q :: On(OnSource(v, s, k, e).sch, y, q) <==> On(v.sch, y, q) || (y == s && q == e))
  {
    hide Listing, Side, Entries, Routes, RpSide, RpLess;
    var s := m.ent.src[e];
    NonNull(m, v, x, e);
    JoinSourceSide(m, v, e, s, k);
    var v', x' := OnSource(v, s, k, e), x.(offS := x.offS - {e});
    JoinSourceEntries(m, v, x, e, v', x');
    RpViewFrame(m.rp, v, x, v', x');
    RpLessFrame(m.ent, m.route, v, v');
    SourceSideAllocated(m, JoinToSource(m, e, s, At(v.sch[s], k - 1), At(v.sch[s], k)).ss, v.sch.Keys, x.dyingS);
  }

  // ----- the (*,G) of a group

  /** grp->grp_route = node */
  lemma SetRoute(m: Memory, v: View, x: Pending, e: Ptr)
    requires Partial(m, v, x) && e in m.ent.grp && e in m.ent.flags && SG !in m.ent.flags[e] && e in x.offG
    requires m.ent.grp[e] in v.gch && m.ent.grp[e] != At(v.groups, 0) && m.ent.grp[e] in m.route
    requires m.route[m.ent.grp[e]] == NULL
    requires !On(v.rch, NULL, m.ent.grp[e])
    ensures Partial(m.(route := m.route[m.ent.grp[e] := e]), v, x.(offG := x.offG - {e}))
  {
    var g := m.ent.grp[e];
    var m', x' := m.(route := m.route[g := e]), x.(offG := x.offG - {e});
    assert Entries(m.ent, m'.route, m.gl.addr, m.sl.addr, v, x') by { SetRouteEntries(m, v, x, e, x'); }
    assert Routes(m.ent, m'.route, v.gch) && RpLess(m.ent, m'.route, v) by { SetRouteRoutes(m, v, e); }
    RpPendingFrame(m.rp, v, x, x');
    assert m'.route.Keys == m.route.Keys;
  }

  lemma SetRouteEntries(m: Memory, v: View, x: Pending, e: Ptr, x': Pending)
    requires Entries(m.ent, m.route, m.gl.addr, m.sl.addr, v, x) && e in m.ent.grp && e in m.ent.flags
    requires SG !in m.ent.flags[e]
    requires m.ent.grp[e] in v.gch && m.ent.grp[e] in m.route && m.route[m.ent.grp[e]] == NULL
    requires x'.offG == x.offG - {e} && x'.offS == x.offS
    ensures Entries(m.ent, m.route[m.ent.grp[e] := e], m.gl.addr, m.sl.addr, v, x')
  {
    forall f | f in m.ent.grp ensures EntryAt(m.ent, m.route[m.ent.grp[e] := e], m.gl.addr, m.sl.addr, v, x', f) {
      assert EntryAt(m.ent, m.route, m.gl.addr, m.sl.addr, v, x, f);
    }
  }

  lemma SetRouteRoutes(m: Memory, v: View, e: Ptr)
    requires Routes(m.ent, m.route, v.gch) && RpLess(m.ent, m.route, v) && e in m.ent.grp && e in m.ent.flags
    requires SG !in m.ent.flags[e]
    requires !On(v.rch, NULL, m.ent.grp[e])
    ensures Routes(m.ent, m.route[m.ent.grp[e] := e], v.gch) && RpLess(m.ent, m.route[m.ent.grp[e] := e], v)
  {
    var route' := m.route[m.ent.grp[e] := e];
    forall h | h in v.gch ensures RouteAt(m.ent, route', h) { assert RouteAt(m.ent, m.route, h); }
    forall h | On(v.rch, NULL, h)
      ensures RpLessAt(m.ent, route', v.gch, h)
    {
      assert RpLessAt(m.ent, m.route, v.gch, h);
    }
  }

  // ----- flags and incoming interface

  function Flagged(m: Memory, e: Ptr, flags: set<Flag>): Memory {
    m.(ent := m.ent.(flags := m.ent.flags[e := flags]))
  }

  /** Changing flags other than SG, and MRTF_RP only away from the RP-less list, keeps the invariant. */
  lemma SetFlags(m: Memory, v: View, x: Pending, e: Ptr, flags: set<Flag>)
    requires Partial(m, v, x) && e in m.ent.grp && e in m.ent.flags && (SG in flags <==> SG in m.ent.flags[e])
    requires RP in flags && RP !in m.ent.flags[e] ==> !On(v.rch, NULL, m.ent.grp[e])
    ensures Partial(Flagged(m, e, flags), v, x)
  {
    hide Listing, Side, RpSide;
    var m' := Flagged(m, e, flags);
    assert Entries(m'.ent, m.route, m.gl.addr, m.sl.addr, v, x) by { SetFlagsEntries(m, v, x, e, flags); }
    assert Routes(m'.ent, m.route, v.gch) && RpLess(m'.ent, m.route, v) by { SetFlagsRoutes(m, v, x, e, flags); }
    assert m'.ent.flags.Keys == m.ent.flags.Keys;
  }

  lemma SetFlagsEntries(m: Memory, v: View, x: Pending, e: Ptr, flags: set<Flag>)
    requires Entries(m.ent, m.route, m.gl.addr, m.sl.addr, v, x) && e in m.ent.flags
    requires (SG in flags <==> SG in m.ent.flags[e])
    ensures Entries(Flagged(m, e, flags).ent, m.route, m.gl.addr, m.sl.addr, v, x)
  {
    var m' := Flagged(m, e, flags);
    forall f | f in m'.ent.grp ensures EntryAt(m'.ent, m.route, m.gl.addr, m.sl.addr, v, x, f) {
      assert EntryAt(m.ent, m.route, m.gl.addr, m.sl.addr, v, x, f);
    }
  }

  lemma SetFlagsRoutes(m: Memory, v: View, x: Pending, e: Ptr, flags: set<Flag>)
    requires Routes(m.ent, m.route, v.gch) && RpLess(m.ent, m.route, v) && Side(GSide(m.gs, m.ent), v.skey, v.gch)
    requires e in m.ent.grp && e in m.ent.flags && (SG in flags <==> SG in m.ent.flags[e])
    requires RP in flags && RP !in m.ent.flags[e] ==> !On(v.rch, NULL, m.ent.grp[e])
    ensures Routes(Flagged(m, e, flags).ent, m.route, v.gch) && RpLess(Flagged(m, e, flags).ent, m.route, v)
  {
    var m' := Flagged(m, e, flags);
    forall h | h in v.gch ensures RouteAt(m'.ent, m.route, h) { assert RouteAt(m.ent, m.route, h); }
    forall h | On(v.rch, NULL, h) ensures RpLessAt(m'.ent, m.route, v.gch, h) {
      assert RpLessAt(m.ent, m.route, v.gch, h);
      if h in v.gch { assert SideAt(GSide(m.gs, m.ent), v.skey, v.gch, h); }
    }
  }

  /** An entry's incoming interface is nothing the invariant depends on. */
  lemma SetIif(m: Memory, v: View, x: Pending, e: Ptr, iif: int)
    requires Partial(m, v, x) && e in m.ent.grp
    ensures Partial(m.(ent := m.ent.(iif := m.ent.iif[e := iif])), v, x)
  {
    hide Listing, Side, RpSide;
    SideIif(m, v, e, iif);
    var m' := m.(ent := m.ent.(iif := m.ent.iif[e := iif]));
    forall f | f in m'.ent.grp ensures EntryAt(m'.ent, m.route, m.gl.addr, m.sl.addr, v, x, f) {
      assert EntryAt(m.ent, m.route, m.gl.addr, m.sl.addr, v, x, f);
    }
    forall h | h in v.gch ensures RouteAt(m'.ent, m.route, h) { assert RouteAt(m.ent, m.route, h); }
    forall h | On(v.rch, NULL, h)
      ensures RpLessAt(m'.ent, m.route, v.gch, h)
    {
      assert RpLessAt(m.ent, m.route, v.gch, h);
    }
    assert m'.ent.iif.Keys == m.ent.iif.Keys;
  }

  lemma SideIif(m: Memory, v: View, e: Ptr, iif: int)
    ensures var ent := m.ent.(iif := m.ent.iif[e := iif]);
            GSide(m.gs, ent) == GSide(m.gs, m.ent) && SSide(m.ss, ent) == SSide(m.ss, m.ent)
  {
  }

  // ----- groups joining an RP chain

  /** Group `g`, on no chain, to the head of the chain of mapping `r`, or of the RP-less list for NULL. */
  function RpOn(rp: RpFields, g: Ptr, r: Ptr): RpFields
    requires r == NULL || r in rp.head
    requires Linked(RpHead(rp, r), rp.link)
  {
    var on := rp.(link := LinkedBetween(rp.link, g, NULL, RpHead(rp, r)), of := rp.of[g := r]);
    if r == NULL then on.(norp := g) else on.(head := rp.head[r := g])
  }

  ghost function RchOn(rch: Chains, r: Ptr, g: Ptr): Chains
    requires r in rch
  {
    rch[r := Insert(rch[r], 0, g)]
  }

  lemma RpOnChain(rp: RpFields, v: View, x: Pending, g: Ptr, r: Ptr, q: Ptr)
    requires RpSide(rp, v, x) && g in v.gch && g != At(v.groups, 0) && g in x.loose && g != NULL && r in v.rch
    requires q in v.rch
    ensures (r == NULL || r in rp.head) && Linked(RpHead(rp, r), rp.link)
    ensures var rp', v' := RpOn(rp, g, r), v.(rch := RchOn(v.rch, r, g));
            && RpAt(rp', v', q)
            && forall p :: p in v'.rch[q] <==> p in v.rch[q] || (q == r && p == g)
  {
    assert GroupRpAt(rp, v, x, g) && RpAt(rp, v, r) && RpAt(rp, v, q);
    LooseNowhere(rp, v, x, g, r);
    LooseNowhere(rp, v, x, g, q);
    LinkChain(RpHead(rp, r), rp.link, v.rch[r], 0, g);
    var rp', v' := RpOn(rp, g, r), v.(rch := RchOn(v.rch, r, g));
    if q != r {
      assert forall p :: p in v.rch[q] ==> p !in v.rch[r];
      ChainFrame(RpHead(rp, q), rp.link, rp'.link, v.rch[q]);
    } else {
      forall i | 0 <= i < |v'.rch[r]|
        ensures v'.rch[r][i] in v.rch[r] || v'.rch[r][i] == g
      {
        assert v'.rch[r][i] in v'.rch[r];
      }
    }
  }

  lemma LooseNowhere(rp: RpFields, v: View, x: Pending, g: Ptr, r: Ptr)
    requires RpSide(rp, v, x) && g in v.gch && g != At(v.groups, 0) && g in x.loose
    ensures !On(v.rch, r, g)
  {
    assert GroupRpAt(rp, v, x, g);
    if r in v.rch { assert RpAt(rp, v, r); }
  }

  lemma RpOnGroups(rp: RpFields, v: View, x: Pending, g: Ptr, r: Ptr, x': Pending)
    requires RpSide(rp, v, x) && g in v.gch && g != At(v.groups, 0) && g in x.loose && g != NULL && r in v.rch
    requires (r == NULL || r in rp.head) && Linked(RpHead(rp, r), rp.link) && x'.loose == x.loose - {g}
    ensures RpGroups(RpOn(rp, g, r), v.(rch := RchOn(v.rch, r, g)), x')
  {
    var rp', v' := RpOn(rp, g, r), v.(rch := RchOn(v.rch, r, g));
    forall h | h in v'.gch && h != At(v'.groups, 0) ensures GroupRpAt(rp', v', x', h) {
      assert GroupRpAt(rp, v, x, h) && GroupRpAt(rp, v, x, g) && RpAt(rp, v, r);
      if h == g {
        InsertMembers(v.rch[r], 0, g);
      } else if h in x.loose {
        RpOnChain(rp, v, x, g, r, NULL);
        LooseNowhere(rp, v, x, h, r);
      } else {
        RpOnChain(rp, v, x, g, r, rp.of[h]);
      }
    }
  }

  /** Putting a group on an RP chain keeps the RP side. */
  lemma RpJoins(rp: RpFields, v: View, x: Pending, g: Ptr, r: Ptr, x': Pending)
    requires RpSide(rp, v, x) && g in v.gch && g != At(v.groups, 0) && g in x.loose && g != NULL && r in v.rch
    requires x'.loose == x.loose - {g}
    ensures (r == NULL || r in rp.head) && Linked(RpHead(rp, r), rp.link)
    ensures RpSide(RpOn(rp, g, r), v.(rch := RchOn(v.rch, r, g)), x')
    ensures RpOn(rp, g, r).link.Keys == rp.link.Keys && RpOn(rp, g, r).of.Keys == rp.of.Keys
  {
    RpOnChain(rp, v, x, g, r, r);
    var rp', v' := RpOn(rp, g, r), v.(rch := RchOn(v.rch, r, g));
    forall q | q in v'.rch ensures RpAt(rp', v', q) { RpOnChain(rp, v, x, g, r, q); }
    RpOnGroups(rp, v, x, g, r, x');
    assert GroupRpAt(rp, v, x, g);
  }

  /** A group on no RP chain put on one keeps the invariant; the RP-less list takes no (*,G) and no
      entry on the shared tree. */
  lemma Attach(m: Memory, v: View, x: Pending, g: Ptr, r: Ptr)
    requires Partial(m, v, x) && g in v.gch && g != At(v.groups, 0) && g in x.loose && g != NULL && r in v.rch
    requires r == NULL ==> RpLessAt(m.ent, m.route, v.gch, g)
    ensures (r == NULL || r in m.rp.head) && Linked(RpHead(m.rp, r), m.rp.link)
    ensures Partial(m.(rp := RpOn(m.rp, g, r)), v.(rch := RchOn(v.rch, r, g)), x.(loose := x.loose - {g}))
  {
    hide Listing, Side, Routes, RpSide, GroupsAllocated;
    var v', x' := v.(rch := RchOn(v.rch, r, g)), x.(loose := x.loose - {g});
    RpJoins(m.rp, v, x, g, r, x');
    RpOnAllocated(m, v, x, RpOn(m.rp, g, r));
    EntriesAnyRp(m, v, x, v', x');
    OnlyJoined(v.rch[r], g);
    forall h | On(v'.rch, NULL, h) ensures RpLessAt(m.ent, m.route, v'.gch, h) {
      assert h != g || r != NULL ==> RpLessAt(m.ent, m.route, v.gch, h);
    }
  }

  lemma OnlyJoined(s: seq<Ptr>, g: Ptr)
    ensures forall p :: p in Insert(s, 0, g) ==> p in s || p == g
  {
  }

  lemma RpOnAllocated(m: Memory, v: View, x: Pending, rp: RpFields)
    requires GroupsAllocated(m, v.gch.Keys, x.dyingG) && rp.link.Keys == m.rp.link.Keys && rp.of.Keys == m.rp.of.Keys
    ensures GroupsAllocated(m.(rp := rp), v.gch.Keys, x.dyingG)
  {
  }

  lemma EntriesAnyRp(m: Memory, v: View, x: Pending, v': View, x': Pending)
    requires Entries(m.ent, m.route, m.gl.addr, m.sl.addr, v, x)
    requires v'.gch == v.gch && v'.sch == v.sch && v'.gkey == v.gkey && v'.skey == v.skey && x'.offG == x.offG
    requires x'.offS == x.offS
    ensures Entries(m.ent, m.route, m.gl.addr, m.sl.addr, v', x')
  {
    forall e | e in m.ent.grp ensures EntryAt(m.ent, m.route, m.gl.addr, m.sl.addr, v', x', e) {
      assert EntryAt(m.ent, m.route, m.gl.addr, m.sl.addr, v, x, e);
    }
  }

  /** grp_chain_unlink, with active_rp_grp cleared. */
  function RpLoose(rp: RpFields, g: Ptr): RpFields
    requires g in rp.link && g in rp.of && Linked(rp.link[g].prev, rp.link) && Linked(rp.link[g].next, rp.link)
    requires rp.link[g].prev == NULL && rp.of[g] != NULL ==> rp.of[g] in rp.head
  {
    RpOff(rp, g).(of := rp.of[g := NULL])
  }

  lemma LooseChains(rp: RpFields, v: View, x: Pending, g: Ptr)
    requires RpSide(rp, v, x) && g in v.gch && g != At(v.groups, 0)
    requires g in rp.link && g in rp.of && Linked(rp.link[g].prev, rp.link) && Linked(rp.link[g].next, rp.link)
    requires rp.link[g].prev == NULL && rp.of[g] != NULL ==> rp.of[g] in rp.head
    ensures RpChains(RpLoose(rp, g), v.(rch := RchOff(v.rch, rp.of[g], g)))
  {
    var rp', v' := RpLoose(rp, g), v.(rch := RchOff(v.rch, rp.of[g], g));
    forall r | r in v'.rch ensures RpAt(rp', v', r) {
      RpOffSafe(rp, v, x, g);
      RpOffChain(rp, v, x, g, r);
      assert RpAt(rp, v, r);
      forall i | 0 <= i < |v'.rch[r]|
        ensures v'.rch[r][i] in v.rch[r] && v'.rch[r][i] != g
      {
        assert v'.rch[r][i] in v'.rch[r];
      }
    }
  }

  lemma LooseGroups(rp: RpFields, v: View, x: Pending, g: Ptr, x': Pending)
    requires RpSide(rp, v, x) && g in v.gch && g != At(v.groups, 0) && x'.loose == x.loose + {g}
    requires g in rp.link && g in rp.of && Linked(rp.link[g].prev, rp.link) && Linked(rp.link[g].next, rp.link)
    requires rp.link[g].prev == NULL && rp.of[g] != NULL ==> rp.of[g] in rp.head
    ensures RpGroups(RpLoose(rp, g), v.(rch := RchOff(v.rch, rp.of[g], g)), x')
  {
    var rp', v' := RpLoose(rp, g), v.(rch := RchOff(v.rch, rp.of[g], g));
    RpOffSafe(rp, v, x, g);
    RpOffChain(rp, v, x, g, NULL);
    forall h | h in v'.gch && h != At(v'.groups, 0) ensures GroupRpAt(rp', v', x', h) {
      if h != g {
        RpOthersKeep(rp, v, x, g, h);
        assert GroupRpAt(RpOff(rp, g), v', x, h);
      }
    }
  }

  /** Taking a group off its RP chain keeps the invariant, with the group on none. */
  lemma Loosen(m: Memory, v: View, x: Pending, g: Ptr)
    requires Partial(m, v, x) && g in v.gch && g != At(v.groups, 0)
    ensures g in m.rp.link && g in m.rp.of && Linked(m.rp.link[g].prev, m.rp.link)
    ensures Linked(m.rp.link[g].next, m.rp.link)
    ensures m.rp.link[g].prev == NULL && m.rp.of[g] != NULL ==> m.rp.of[g] in m.rp.head
    ensures Partial(m.(rp := RpLoose(m.rp, g)), v.(rch := RchOff(v.rch, m.rp.of[g], g)), x.(loose := x.loose + {g}))
  {
    hide Listing, Side, Routes, RpSide, GroupsAllocated, Entries, RpLess;
    LooseSide(m.rp, v, x, g);
    var v', x' := v.(rch := RchOff(v.rch, m.rp.of[g], g)), x.(loose := x.loose + {g});
    RpOnAllocated(m, v, x, RpLoose(m.rp, g));
    EntriesAnyRp(m, v, x, v', x');
    LooseRpLess(m, v, x, g, v');
  }

  lemma LooseSide(rp: RpFields, v: View, x: Pending, g: Ptr)
    requires RpSide(rp, v, x) && g in v.gch && g != At(v.groups, 0)
    ensures g in rp.link && g in rp.of && Linked(rp.link[g].prev, rp.link) && Linked(rp.link[g].next, rp.link)
    ensures rp.link[g].prev == NULL && rp.of[g] != NULL ==> rp.of[g] in rp.head
    ensures RpSide(RpLoose(rp, g), v.(rch := RchOff(v.rch, rp.of[g], g)), x.(loose := x.loose + {g}))
    ensures RpLoose(rp, g).link.Keys == rp.link.Keys && RpLoose(rp, g).of.Keys == rp.of.Keys
  {
    hide RpChains, RpGroups;
    RpOffSafe(rp, v, x, g);
    LooseChains(rp, v, x, g);
    LooseGroups(rp, v, x, g, x.(loose := x.loose + {g}));
  }

  lemma LooseRpLess(m: Memory, v: View, x: Pending, g: Ptr, v': View)
    requires RpSide(m.rp, v, x) && RpLess(m.ent, m.route, v) && g in v.gch && g != At(v.groups, 0) && g in m.rp.of
    requires v'.rch == RchOff(v.rch, m.rp.of[g], g) && v'.gch == v.gch
    ensures RpLess(m.ent, m.route, v')
  {
    RpOffChain(m.rp, v, x, g, NULL);
    forall h | On(v'.rch, NULL, h)
      ensures RpLessAt(m.ent, m.route, v'.gch, h)
    {
      assert RpLessAt(m.ent, m.route, v.gch, h);
    }
  }
}
