/** The memory writes the routing table's operations are made of, and what each keeps of the
    invariant. */
module MrtSteps {
  import opened Links
  import opened Orthogonal
  import opened MrtModel

  // ----- the sorted lists

  lemma SortedWithout(s: seq<Ptr>, addr: map<Ptr, Addr>, k: nat)
    requires Sorted(s, addr) && 0 < k < |s|
    ensures Sorted(Without(s, k), addr)
  {
  }

  lemma SortedInsert(s: seq<Ptr>, addr: map<Ptr, Addr>, k: nat, p: Ptr, a: Addr)
    requires Sorted(s, addr) && 0 < k <= |s| && p !in s
    requires forall i :: 1 <= i < k ==> addr[s[i]] < a
    requires forall i :: k <= i < |s| ==> a < addr[s[i]]
    ensures Sorted(Insert(s, k, p), addr[p := a])
  {
  }

  lemma ListingMinus(l: ListFields, s: seq<Ptr>, nodes: set<Ptr>, p: Ptr)
    requires Listing(l, s, nodes) && p in nodes && p != s[0]
    ensures p in s && p in l.link && l.link[p].prev != NULL && Linked(l.link[p].prev, l.link)
    ensures Linked(l.link[p].next, l.link)
    ensures Unlinked(l.link, p).Keys == l.link.Keys
    ensures Listing(l.(link := Unlinked(l.link, p)), Minus(s, p), nodes - {p})
    ensures At(Minus(s, p), 0) == s[0]
  {
    assert p in NodeSet(s);
    UnlinkNode(s[0], l.link, s, p);
    ChainNeighbours(s[0], l.link, s, IndexOf(s, p));
    SortedWithout(s, l.addr, IndexOf(s, p));
    WithoutAt(s, IndexOf(s, p), 0);
  }

  lemma ListingFrame(l: ListFields, s: seq<Ptr>, nodes: set<Ptr>, l': ListFields)
    requires Listing(l, s, nodes)
    requires forall p :: p in nodes ==>
              p in l'.link && p in l'.addr && (p in l.link ==> l'.link[p] == l.link[p]) &&
              (p in l.addr ==> l'.addr[p] == l.addr[p])
    ensures Listing(l', s, nodes)
  {
    forall i | 0 <= i < |s| ensures s[i] in nodes { assert s[i] in NodeSet(s); }
    ChainFrame(s[0], l.link, l'.link, s);
  }

  lemma ListingInsert(l: ListFields, s: seq<Ptr>, nodes: set<Ptr>, k: nat, p: Ptr, a: Addr)
    requires Listing(l, s, nodes) && 0 < k <= |s| && p != NULL && p !in nodes
    requires forall i :: 1 <= i < k ==> l.addr[s[i]] < a
    requires forall i :: k <= i < |s| ==> a < l.addr[s[i]]
    ensures Linked(At(s, k - 1), l.link) && Linked(At(s, k), l.link)
    ensures LinkedBetween(l.link, p, At(s, k - 1), At(s, k)).Keys == l.link.Keys + {p}
    ensures Listing(ListFields(LinkedBetween(l.link, p, At(s, k - 1), At(s, k)), l.addr[p := a]), Insert(s, k, p),
              nodes + {p})
    ensures At(Insert(s, k, p), 0) == s[0]
  {
    assert p !in NodeSet(s);
    LinkChain(s[0], l.link, s, k, p);
    SortedInsert(s, l.addr, k, p, a);
    InsertAt(s, k, p, 0);
  }

  // ----- the RP chains

  /** grp_chain_unlink */
  function RpOff(rp: RpFields, g: Ptr): RpFields
    requires g in rp.link && g in rp.of && Linked(rp.link[g].prev, rp.link) && Linked(rp.link[g].next, rp.link)
    requires rp.link[g].prev == NULL && rp.of[g] != NULL ==> rp.of[g] in rp.head
  {
    var p, n := rp.link[g].prev, rp.link[g].next;
    var cut := rp.(link := Unlinked(rp.link, g)[g := Link(NULL, NULL)]);
    if p != NULL then cut
    else if rp.of[g] != NULL then cut.(head := rp.head[rp.of[g] := n])
    else if rp.norp == g then cut.(norp := n)
    else cut
  }

  /** The RP chains once group `g` is off the one it was on. */
  ghost function RchOff(rch: Chains, r: Ptr, g: Ptr): Chains {
    if On(rch, r, g) then rch[r := Minus(rch[r], g)] else rch
  }

  lemma RpOffSafe(rp: RpFields, v: View, x: Pending, g: Ptr)
    requires RpSide(rp, v, x) && g in v.gch && g != At(v.groups, 0)
    ensures g in rp.link && g in rp.of && Linked(rp.link[g].prev, rp.link) && Linked(rp.link[g].next, rp.link)
    ensures rp.link[g].prev == NULL && rp.of[g] != NULL ==> rp.of[g] in rp.head
    ensures RpOff(rp, g).link.Keys == rp.link.Keys && RpOff(rp, g).of == rp.of && RpOff(rp, g).head.Keys == rp.head.Keys
    ensures RpOff(rp, g).link[g] == Link(NULL, NULL)
    ensures On(v.rch, rp.of[g], g) <==> g !in x.loose
  {
    assert GroupRpAt(rp, v, x, g);
    if g !in x.loose {
      assert RpAt(rp, v, rp.of[g]);
      UnlinkNode(RpHead(rp, rp.of[g]), rp.link, v.rch[rp.of[g]], g);
    }
  }

  lemma RpOffChain(rp: RpFields, v: View, x: Pending, g: Ptr, r: Ptr)
    requires RpSide(rp, v, x) && g in v.gch && g != At(v.groups, 0) && r in v.rch
    ensures g in rp.link && g in rp.of && Linked(rp.link[g].prev, rp.link) && Linked(rp.link[g].next, rp.link)
    ensures rp.link[g].prev == NULL && rp.of[g] != NULL ==> rp.of[g] in rp.head
    ensures var rch' := RchOff(v.rch, rp.of[g], g);
            && r in rch'
            && Chain(RpHead(RpOff(rp, g), r), RpOff(rp, g).link, rch'[r])
            && forall p :: p in rch'[r] <==> p in v.rch[r] && p != g
  {
    RpOffSafe(rp, v, x, g);
    var rch', rp', q := RchOff(v.rch, rp.of[g], g), RpOff(rp, g), rp.of[g];
    assert GroupRpAt(rp, v, x, g) && RpAt(rp, v, r);
    if g in x.loose {
      ChainFrame(RpHead(rp, r), rp.link, rp'.link, v.rch[r]);
    } else {
      assert RpAt(rp, v, q);
      UnlinkNode(RpHead(rp, q), rp.link, v.rch[q], g);
      if r != q {
        assert forall p :: p in v.rch[r] ==> p !in v.rch[q];
        ChainFrame(RpHead(rp, r), rp.link, rp'.link, v.rch[r]);
      } else {
        ChainFrame(At(rch'[q], 0), Unlinked(rp.link, g), rp'.link, rch'[q]);
      }
    }
  }

  /** The table's view once group `g` is listed no more. */
  ghost function GroupOut(v: View, r: Ptr, g: Ptr): View
    requires g in v.groups
  {
    v.(groups := Minus(v.groups, g), gch := v.gch - {g}, rch := RchOff(v.rch, r, g))
  }

  ghost predicate RpMember(rp: RpFields, v: View, x: Pending, g: Ptr) {
    && RpSide(rp, v, x) && g in v.gch && g in v.groups && g != At(v.groups, 0) == At(Minus(v.groups, g), 0)
    && g in rp.link && g in rp.of && Linked(rp.link[g].prev, rp.link) && Linked(rp.link[g].next, rp.link)
    && (rp.link[g].prev == NULL && rp.of[g] != NULL ==> rp.of[g] in rp.head)
  }

  lemma RpLeavesChains(rp: RpFields, v: View, x: Pending, g: Ptr)
    requires RpMember(rp, v, x, g)
    ensures RpChains(RpOff(rp, g), GroupOut(v, rp.of[g], g))
  {
    RpOffSafe(rp, v, x, g);
    var v' := GroupOut(v, rp.of[g], g);
    forall r | r in v'.rch ensures RpAt(RpOff(rp, g), v', r) {
      RpOffChain(rp, v, x, g, r);
      assert RpAt(rp, v, r);
      forall i | 0 <= i < |v'.rch[r]|
        ensures v'.rch[r][i] in v.rch[r] && v'.rch[r][i] != g
      {
        assert v'.rch[r][i] in v'.rch[r];
      }
    }
  }

  lemma RpLeavesGroups(rp: RpFields, v: View, x: Pending, g: Ptr)
    requires RpMember(rp, v, x, g)
    ensures RpGroups(RpOff(rp, g), GroupOut(v, rp.of[g], g), x)
  {
    var v' := GroupOut(v, rp.of[g], g);
    forall h | h in v'.gch && h != At(v'.groups, 0) ensures GroupRpAt(RpOff(rp, g), v', x, h) {
      RpOthersKeep(rp, v, x, g, h);
      assert GroupRpAt(RpOff(rp, g), v.(rch := v'.rch), x, h);
    }
  }

  /** grp_chain_unlink of a group leaving the table keeps the RP chains. */
  lemma RpLeaves(rp: RpFields, v: View, x: Pending, g: Ptr)
    requires RpSide(rp, v, x) && g in v.gch && g in v.groups && g != At(v.groups, 0) == At(Minus(v.groups, g), 0)
    ensures RpMember(rp, v, x, g)
    ensures RpSide(RpOff(rp, g), GroupOut(v, rp.of[g], g), x)
  {
    RpOffSafe(rp, v, x, g);
    RpLeavesChains(rp, v, x, g);
    RpLeavesGroups(rp, v, x, g);
  }

  /** Taking `g` off its RP chain leaves every other group where it was. */
  lemma RpOthersKeep(rp: RpFields, v: View, x: Pending, g: Ptr, h: Ptr)
    requires RpSide(rp, v, x) && g in v.gch && g != At(v.groups, 0)
    requires h in v.gch && h != At(v.groups, 0) && h != g
    requires g in rp.link && g in rp.of && Linked(rp.link[g].prev, rp.link) && Linked(rp.link[g].next, rp.link)
    requires rp.link[g].prev == NULL && rp.of[g] != NULL ==> rp.of[g] in rp.head
    ensures GroupRpAt(RpOff(rp, g), v.(rch := RchOff(v.rch, rp.of[g], g)), x, h)
  {
    assert GroupRpAt(rp, v, x, h) && GroupRpAt(rp, v, x, g);
    RpOffSafe(rp, v, x, g);
    if h !in x.loose {
      RpOffChain(rp, v, x, g, rp.of[h]);
    } else {
      assert NULL in v.rch;
      RpOffChain(rp, v, x, g, NULL);
      if g !in x.loose {
        var q := rp.of[g];
        assert RpAt(rp, v, q);
        ChainNeighbours(RpHead(rp, q), rp.link, v.rch[q], IndexOf(v.rch[q], g));
        assert h !in v.rch[q];
      }
    }
  }

  // ----- groups and sources leaving the table

  ghost predicate Removable(m: Memory, v: View, x: Pending, g: Ptr) {
    && Partial(m, v, x) && g in v.gch && g != v.groups[0]
    && g in v.groups && At(Minus(v.groups, g), 0) == v.groups[0]
    && g in m.gl.link && Linked(m.gl.link[g].prev, m.gl.link) && Linked(m.gl.link[g].next, m.gl.link)
    && RpMember(m.rp, v, x, g)
    && g in m.route && g in m.gs.heads
  }

  lemma GroupRemovable(m: Memory, v: View, x: Pending, g: Ptr)
    requires Partial(m, v, x) && g in v.gch && g != At(v.groups, 0)
    ensures g !in x.dyingG && Removable(m, v, x, g)
    ensures m.gl.link[g].prev != NULL
  {
    ListingMinus(m.gl, v.groups, v.gch.Keys, g);
    RpLeaves(m.rp, v, x, g);
  }

  /** Group `g` off the group list and off its RP chain, not yet freed. */
  function GroupDetached(m: Memory, g: Ptr): Memory
    requires g in m.gl.link && Linked(m.gl.link[g].prev, m.gl.link) && Linked(m.gl.link[g].next, m.gl.link)
    requires g in m.rp.link && g in m.rp.of && Linked(m.rp.link[g].prev, m.rp.link)
    requires Linked(m.rp.link[g].next, m.rp.link)
    requires m.rp.link[g].prev == NULL && m.rp.of[g] != NULL ==> m.rp.of[g] in m.rp.head
  {
    m.(gl := m.gl.(link := Unlinked(m.gl.link, g)), rp := RpOff(m.rp, g))
  }

  ghost function GroupPending(m: Memory, v: View, x: Pending, g: Ptr): Pending
    requires g in v.gch && g in m.route
  {
    x.(offG := x.offG + NodeSet(v.gch[g]) + {m.route[g]}, dyingG := x.dyingG + {g})
  }

  lemma DetachEntry(m: Memory, v: View, x: Pending, g: Ptr, e: Ptr, v': View, x': Pending)
    requires g in v.gch && g in m.route && e in m.ent.grp
    requires EntryAt(m.ent, m.route, m.gl.addr, m.sl.addr, v, x, e)
    requires RouteAt(m.ent, m.route, g)
    requires v'.gch == v.gch - {g} && v'.sch == v.sch && v'.gkey == v.gkey && v'.skey == v.skey
    requires x'.offG == x.offG + NodeSet(v.gch[g]) + {m.route[g]} && x'.offS == x.offS
    requires forall i :: 0 <= i < |v.gch[g]| ==> v.gch[g][i] in m.ent.grp && m.ent.grp[v.gch[g][i]] == g
    ensures EntryAt(m.ent, m.route, m.gl.addr, m.sl.addr, v', x', e)
  {
    assert e in v.gch[g] ==> m.ent.grp[e] == g;
  }

  lemma DetachEntries(m: Memory, v: View, x: Pending, g: Ptr)
    requires Removable(m, v, x, g)
    ensures Entries(m.ent, m.route, m.gl.addr, m.sl.addr, GroupOut(v, m.rp.of[g], g), GroupPending(m, v, x, g))
  {
    assert SideAt(GSide(m.gs, m.ent), v.skey, v.gch, g);
    assert RouteAt(m.ent, m.route, g);
    forall e | e in m.ent.grp
      ensures EntryAt(m.ent, m.route, m.gl.addr, m.sl.addr, GroupOut(v, m.rp.of[g], g), GroupPending(m, v, x, g), e)
    {
      DetachEntry(m, v, x, g, e, GroupOut(v, m.rp.of[g], g), GroupPending(m, v, x, g));
    }
  }

  lemma DetachRpLess(m: Memory, v: View, x: Pending, g: Ptr)
    requires Removable(m, v, x, g)
    ensures RpLess(m.ent, m.route, GroupOut(v, m.rp.of[g], g))
  {
    var v' := GroupOut(v, m.rp.of[g], g);
    forall h | On(v'.rch, NULL, h) ensures RpLessAt(m.ent, m.route, v'.gch, h) {
      RpOffChain(m.rp, v, x, g, NULL);
      assert RpLessAt(m.ent, m.route, v.gch, h);
      assert forall e :: On(v'.gch, h, e) ==> On(v.gch, h, e);
    }
  }

  lemma DetachAllocated(m: Memory, m': Memory, listed: set<Ptr>, dying: set<Ptr>, g: Ptr)
    requires GroupsAllocated(m, listed, dying) && g in listed
    requires m'.gl.link.Keys == m.gl.link.Keys && m'.gl.addr == m.gl.addr && m'.gs == m.gs && m'.route == m.route
    requires m'.rp.link.Keys == m.rp.link.Keys && m'.rp.of == m.rp.of
    ensures GroupsAllocated(m', listed - {g}, dying + {g})
  {
  }

  lemma RoutesFrame(ent: EntryFields, route: map<Ptr, Ptr>, gch: Chains, gch': Chains)
    requires Routes(ent, route, gch) && gch'.Keys <= gch.Keys
    ensures Routes(ent, route, gch')
  {
    forall h | h in gch' ensures RouteAt(ent, route, h) { assert h in gch; }
  }

  /** With group `g` detached, its entries are off their group's chain and everything else is as it was. */
  lemma DetachGroup(m: Memory, v: View, x: Pending, g: Ptr)
    requires Removable(m, v, x, g)
    ensures Partial(GroupDetached(m, g), GroupOut(v, m.rp.of[g], g), GroupPending(m, v, x, g))
  {
    var m', v', x' := GroupDetached(m, g), GroupOut(v, m.rp.of[g], g), GroupPending(m, v, x, g);
    ListingMinus(m.gl, v.groups, v.gch.Keys, g);
    RpOffSafe(m.rp, v, x, g);
    DetachAllocated(m, m', v.gch.Keys, x.dyingG, g);
    assert v'.gch.Keys == v.gch.Keys - {g};
    RoutesFrame(m.ent, m.route, v.gch, v'.gch);
    RpLeaves(m.rp, v, x, g);
    assert RpSide(m'.rp, v', x') by { RpPendingFrame(m'.rp, v', x, x'); }
    DetachEntries(m, v, x, g);
    DetachRpLess(m, v, x, g);
    SideFrame(GSide(m.gs, m.ent), v.skey, v.gch, GSide(m.gs, m.ent), v.skey, v'.gch);
  }

  lemma RpPendingFrame(rp: RpFields, v: View, x: Pending, x': Pending)
    requires RpSide(rp, v, x) && forall g :: g in v.gch ==> (g in x.loose <==> g in x'.loose)
    ensures RpSide(rp, v, x')
  {
    forall g | g in v.gch && g != At(v.groups, 0) ensures GroupRpAt(rp, v, x', g) { assert GroupRpAt(rp, v, x, g); }
  }

  /** free(grp) */
  function GroupFreed(m: Memory, g: Ptr): Memory {
    m.(gl := ListFields(m.gl.link - {g}, m.gl.addr - {g}), gs := m.gs.(heads := m.gs.heads - {g}),
       route := m.route - {g}, rp := m.rp.(link := m.rp.link - {g}, of := m.rp.of - {g}))
  }

  lemma FreedRpChains(rp: RpFields, v: View, x: Pending, g: Ptr)
    requires RpSide(rp, v, x) && g !in v.gch
    ensures RpChains(rp.(link := rp.link - {g}, of := rp.of - {g}), v)
  {
    var rp' := rp.(link := rp.link - {g}, of := rp.of - {g});
    forall r | r in v.rch ensures RpAt(rp', v, r) {
      assert RpAt(rp, v, r);
      ChainFrame(RpHead(rp, r), rp.link, rp'.link, v.rch[r]);
    }
  }

  lemma FreedRp(rp: RpFields, v: View, x: Pending, g: Ptr)
    requires RpSide(rp, v, x) && g !in v.gch
    ensures RpSide(rp.(link := rp.link - {g}, of := rp.of - {g}), v, x)
  {
    var rp' := rp.(link := rp.link - {g}, of := rp.of - {g});
    FreedRpChains(rp, v, x, g);
    forall h | h in v.gch && h != At(v.groups, 0) ensures GroupRpAt(rp', v, x, h) { assert GroupRpAt(rp, v, x, h); }
  }

  lemma FreedGroupEntries(m: Memory, v: View, x: Pending, x': Pending, g: Ptr)
    requires Entries(m.ent, m.route, m.gl.addr, m.sl.addr, v, x) && g !in v.gch && x'.offG == x.offG
    requires x'.offS == x.offS
    ensures Entries(m.ent, m.route - {g}, m.gl.addr - {g}, m.sl.addr, v, x')
  {
    forall e | e in m.ent.grp ensures EntryAt(m.ent, m.route - {g}, m.gl.addr - {g}, m.sl.addr, v, x', e) {
      assert EntryAt(m.ent, m.route, m.gl.addr, m.sl.addr, v, x, e);
    }
  }

  lemma FreedGroupRoutes(m: Memory, v: View, x: Pending, g: Ptr)
    requires Routes(m.ent, m.route, v.gch) && RpLess(m.ent, m.route, v) && g !in v.gch
    requires forall h :: On(v.rch, NULL, h) ==> h != g
    ensures Routes(m.ent, m.route - {g}, v.gch) && RpLess(m.ent, m.route - {g}, v)
  {
    forall h | h in v.gch ensures RouteAt(m.ent, m.route - {g}, h) { assert RouteAt(m.ent, m.route, h); }
    forall h | On(v.rch, NULL, h)
      ensures RpLessAt(m.ent, m.route - {g}, v.gch, h)
    {
      assert RpLessAt(m.ent, m.route, v.gch, h);
    }
  }

  lemma FreedGroupAllocated(m: Memory, v: View, x: Pending, g: Ptr)
    requires GroupsAllocated(m, v.gch.Keys, x.dyingG) && SourcesAllocated(m, v.sch.Keys, x.dyingS)
    requires EntriesAllocated(m) && Sentinels(m, v)
    requires g in x.dyingG
    ensures GroupsAllocated(GroupFreed(m, g), v.gch.Keys, x.dyingG - {g}) && g !in v.gch
    ensures SourcesAllocated(GroupFreed(m, g), v.sch.Keys, x.dyingS) && EntriesAllocated(GroupFreed(m, g))
    ensures Sentinels(GroupFreed(m, g), v)
  {
  }

  lemma FreedGroupListing(m: Memory, v: View, g: Ptr)
    requires Listing(m.gl, v.groups, v.gch.Keys) && g !in v.gch
    ensures Listing(GroupFreed(m, g).gl, v.groups, v.gch.Keys)
  {
    forall i | 0 <= i < |v.groups| ensures v.groups[i] in v.gch { assert v.groups[i] in NodeSet(v.groups); }
    forall p | p in v.gch.Keys ensures p in m.gl.link && p in m.gl.addr { assert p in NodeSet(v.groups); }
    ListingFrame(m.gl, v.groups, v.gch.Keys, GroupFreed(m, g).gl);
  }

  /** Freeing a group that is off every list keeps the invariant. */
  lemma FreeGroup(m: Memory, v: View, x: Pending, g: Ptr)
    requires Partial(m, v, x) && g in x.dyingG
    ensures Partial(GroupFreed(m, g), v, x.(dyingG := x.dyingG - {g}))
  {
    hide Listing, Side, Entries, Routes, RpSide, RpLess, GroupsAllocated, SourcesAllocated, EntriesAllocated, Sentinels;
    var m', x' := GroupFreed(m, g), x.(dyingG := x.dyingG - {g});
    FreedGroupAllocated(m, v, x, g);
    FreedGroupListing(m, v, g);
    FreedOwner(GSide(m.gs, m.ent), v.skey, v.gch, g);
    FreedRp(m.rp, v, x, g);
    RpPendingFrame(m'.rp, v, x, x');
    RpLessListed(m.rp, v, x, g);
    FreedGroupEntries(m, v, x, x', g);
    FreedGroupRoutes(m, v, x, g);
  }

  /** A chain's owner that is not there any more is nothing to the chains that are. */
  lemma FreedOwner(f: Fields, key: map<Ptr, Addr>, ch: Chains, y: Ptr)
    requires Side(f, key, ch) && y !in ch
    ensures Side(f.(heads := f.heads - {y}), key, ch)
  {
    forall z | z in ch ensures SideAt(f.(heads := f.heads - {y}), key, ch, z) { assert SideAt(f, key, ch, z); }
  }

  lemma RpLessListed(rp: RpFields, v: View, x: Pending, g: Ptr)
    requires RpSide(rp, v, x) && g !in v.gch
    ensures forall h :: On(v.rch, NULL, h) ==> h != g
  {
    assert RpAt(rp, v, NULL);
  }

  // ----- sources

  function SourceDetached(m: Memory, s: Ptr): Memory
    requires s in m.sl.link && Linked(m.sl.link[s].prev, m.sl.link) && Linked(m.sl.link[s].next, m.sl.link)
  {
    m.(sl := m.sl.(link := Unlinked(m.sl.link, s)))
  }

  ghost function SourceOut(v: View, s: Ptr): View
    requires s in v.sources
  {
    v.(sources := Minus(v.sources, s), sch := v.sch - {s})
  }

  ghost function SourcePending(v: View, x: Pending, s: Ptr): Pending
    requires s in v.sch
  {
    x.(offS := x.offS + NodeSet(v.sch[s]), dyingS := x.dyingS + {s})
  }

  lemma DetachSourceEntries(m: Memory, v: View, x: Pending, s: Ptr, v': View, x': Pending)
    requires Entries(m.ent, m.route, m.gl.addr, m.sl.addr, v, x) && s in v.sch
    requires Side(SSide(m.ss, m.ent), v.gkey, v.sch)
    requires v'.sch == v.sch - {s} && v'.gch == v.gch && v'.gkey == v.gkey && v'.skey == v.skey
    requires x'.offS == x.offS + NodeSet(v.sch[s]) && x'.offG == x.offG
    ensures Entries(m.ent, m.route, m.gl.addr, m.sl.addr, v', x')
  {
    assert SideAt(SSide(m.ss, m.ent), v.gkey, v.sch, s);
    forall e | e in m.ent.grp ensures EntryAt(m.ent, m.route, m.gl.addr, m.sl.addr, v', x', e) {
      assert EntryAt(m.ent, m.route, m.gl.addr, m.sl.addr, v, x, e);
      assert e in v.sch[s] ==> m.ent.src[e] == s;
    }
  }

  lemma DetachSourceAllocated(m: Memory, m': Memory, listed: set<Ptr>, dying: set<Ptr>, s: Ptr)
    requires SourcesAllocated(m, listed, dying) && s in listed
    requires m'.sl.link.Keys == m.sl.link.Keys && m'.sl.addr == m.sl.addr && m'.ss == m.ss && m'.srcIif == m.srcIif
    ensures SourcesAllocated(m', listed - {s}, dying + {s})
  {
  }

  /** With source `s` detached, its entries are off their source's chain and everything else is as it was. */
  lemma DetachSource(m: Memory, v: View, x: Pending, s: Ptr)
    requires Partial(m, v, x) && s in v.sch && s != At(v.sources, 0)
    ensures s !in x.dyingS && s in v.sources && s in m.sl.link && m.sl.link[s].prev != NULL
    ensures Linked(m.sl.link[s].prev, m.sl.link) && Linked(m.sl.link[s].next, m.sl.link)
    ensures Partial(SourceDetached(m, s), SourceOut(v, s), SourcePending(v, x, s))
    ensures At(SourceOut(v, s).sources, 0) == At(v.sources, 0)
  {
    ListingMinus(m.sl, v.sources, v.sch.Keys, s);
    var m', v', x' := SourceDetached(m, s), SourceOut(v, s), SourcePending(v, x, s);
    DetachSourceEntries(m, v, x, s, v', x');
    SideFrame(SSide(m.ss, m.ent), v.gkey, v.sch, SSide(m.ss, m.ent), v.gkey, v'.sch);
    RpViewFrame(m.rp, v, x, v', x');
    RpLessFrame(m.ent, m.route, v, v');
    DetachSourceAllocated(m, m', v.sch.Keys, x.dyingS, s);
    assert v'.sch.Keys == v.sch.Keys - {s};
  }

  lemma RpViewFrame(rp: RpFields, v: View, x: Pending, v': View, x': Pending)
    requires RpSide(rp, v, x) && v'.rch == v.rch && v'.gch.Keys == v.gch.Keys && v'.groups == v.groups
    requires x'.loose == x.loose
    ensures RpSide(rp, v', x')
  {
    forall r | r in v.rch ensures RpAt(rp, v', r) { assert RpAt(rp, v, r); }
    forall g | g in v.gch && g != At(v.groups, 0) ensures GroupRpAt(rp, v', x', g) { assert GroupRpAt(rp, v, x, g); }
  }

  lemma RpLessFrame(ent: EntryFields, route: map<Ptr, Ptr>, v: View, v': View)
    requires RpLess(ent, route, v) && v'.rch == v.rch
    requires forall g, e :: On(v'.gch, g, e) ==> On(v.gch, g, e)
    ensures RpLess(ent, route, v')
  {
    forall g | On(v'.rch, NULL, g) ensures RpLessAt(ent, route, v'.gch, g) { assert RpLessAt(ent, route, v.gch, g); }
  }

  /** free(src) */
  function SourceFreed(m: Memory, s: Ptr): Memory {
    m.(sl := ListFields(m.sl.link - {s}, m.sl.addr - {s}), ss := m.ss.(heads := m.ss.heads - {s}),
        srcIif := m.srcIif - {s})
  }

  lemma FreedSourceEntries(m: Memory, v: View, x: Pending, x': Pending, s: Ptr)
    requires Entries(m.ent, m.route, m.gl.addr, m.sl.addr, v, x) && s !in v.sch && x'.offG == x.offG
    requires x'.offS == x.offS
    ensures Entries(m.ent, m.route, m.gl.addr, m.sl.addr - {s}, v, x')
  {
    forall e | e in m.ent.grp ensures EntryAt(m.ent, m.route, m.gl.addr, m.sl.addr - {s}, v, x', e) {
      assert EntryAt(m.ent, m.route, m.gl.addr, m.sl.addr, v, x, e);
    }
  }

  lemma FreedSourceAllocated(m: Memory, listed: set<Ptr>, dying: set<Ptr>, s: Ptr)
    requires SourcesAllocated(m, listed, dying) && s in dying
    ensures SourcesAllocated(SourceFreed(m, s), listed, dying - {s})
  {
  }

  /** Freeing a source that is off its list keeps the invariant. */
  lemma FreeSource(m: Memory, v: View, x: Pending, s: Ptr)
    requires Partial(m, v, x) && s in x.dyingS
    ensures Partial(SourceFreed(m, s), v, x.(dyingS := x.dyingS - {s}))
  {
    hide Listing, Side, Entries, Routes, RpSide, RpLess;
    var m', x' := SourceFreed(m, s), x.(dyingS := x.dyingS - {s});
    ListingFrame(m.sl, v.sources, v.sch.Keys, m'.sl);
    FreedOwner(SSide(m.ss, m.ent), v.gkey, v.sch, s);
    FreedSourceEntries(m, v, x, x', s);
    RpPendingFrame(m.rp, v, x, x');
    FreedSourceAllocated(m, v.sch.Keys, x.dyingS, s);
  }

  // ----- entries leaving their chains

  ghost predicate Cuttable(f: Fields, e: Ptr) {
    e in f.own && e in f.link && Linked(f.link[e].prev, f.link) && Linked(f.link[e].next, f.link)
  }

  /** The writes that take entry `e` off its group's chain. */
  function CutFromGroup(m: Memory, e: Ptr): Memory
    requires e in m.ent.grp && e in m.gs.link && Linked(m.gs.link[e].prev, m.gs.link)
    requires Linked(m.gs.link[e].next, m.gs.link)
  {
    var f := Cut(GSide(m.gs, m.ent), e);
    m.(gs := SideFields(f.heads, f.link))
  }

  ghost function OffGroup(v: View, g: Ptr, e: Ptr): View
    requires On(v.gch, g, e)
  {
    v.(gch := v.gch[g := Minus(v.gch[g], e)])
  }

  lemma CutGroupEntries(m: Memory, v: View, x: Pending, e: Ptr, v': View, x': Pending)
    requires Entries(m.ent, m.route, m.gl.addr, m.sl.addr, v, x) && e in m.ent.grp && On(v.gch, m.ent.grp[e], e)
    requires v'.gch.Keys == v.gch.Keys && v'.sch == v.sch && v'.gkey == v.gkey && v'.skey == v.skey
    requires forall y, p :: On(v'.gch, y, p) <==> On(v.gch, y, p) && p != e
    requires x'.offG == x.offG + {e} && x'.offS == x.offS
    ensures Entries(m.ent, m.route, m.gl.addr, m.sl.addr, v', x')
  {
    forall f | f in m.ent.grp ensures EntryAt(m.ent, m.route, m.gl.addr, m.sl.addr, v', x', f) {
      assert EntryAt(m.ent, m.route, m.gl.addr, m.sl.addr, v, x, f);
      assert EntryAt(m.ent, m.route, m.gl.addr, m.sl.addr, v, x, e);
    }
  }

  /** Rewriting `gs` over the same owners and entries keeps the allocation. */
  lemma GroupSideAllocated(m: Memory, gs: SideFields, listed: set<Ptr>, dying: set<Ptr>)
    requires GroupsAllocated(m, listed, dying) && EntriesAllocated(m)
    requires gs.heads.Keys == m.gs.heads.Keys && gs.link.Keys == m.gs.link.Keys
    ensures GroupsAllocated(m.(gs := gs), listed, dying) && EntriesAllocated(m.(gs := gs))
  {
  }

  lemma SourceSideAllocated(m: Memory, ss: SideFields, listed: set<Ptr>, dying: set<Ptr>)
    requires SourcesAllocated(m, listed, dying) && EntriesAllocated(m)
    requires ss.heads.Keys == m.ss.heads.Keys && ss.link.Keys == m.ss.link.Keys
    ensures SourcesAllocated(m.(ss := ss), listed, dying) && EntriesAllocated(m.(ss := ss))
  {
  }

  lemma GroupCutSide(m: Memory, v: View, g: Ptr, e: Ptr)
    requires Side(GSide(m.gs, m.ent), v.skey, v.gch) && On(v.gch, g, e)
    ensures Cuttable(GSide(m.gs, m.ent), e) && m.ent.grp[e] == g
    ensures var m', v' := CutFromGroup(m, e), OffGroup(v, g, e);
            && Side(GSide(m'.gs, m'.ent), v'.skey, v'.gch)
            && v'.gch.Keys == v.gch.Keys
            && m'.gs.heads.Keys == m.gs.heads.Keys && m'.gs.link.Keys == m.gs.link.Keys
            && (forall y, p :: On(v'.gch, y, p) <==> On(v.gch, y, p) && p != e)
            && (v'.gch[g] == [] <==> m.gs.link[e].prev == NULL && m.gs.link[e].next == NULL)
  {
    CutSide(GSide(m.gs, m.ent), v.skey, v.gch, g, e);
    assert GSide(CutFromGroup(m, e).gs, m.ent) == Cut(GSide(m.gs, m.ent), e);
    forall y, p ensures On(OffGroup(v, g, e).gch, y, p) <==> On(v.gch, y, p) && p != e {
      CutOn(GSide(m.gs, m.ent), v.skey, v.gch, g, e, y, p);
    }
  }

  /** Taking an entry off its group's chain keeps the invariant up to that entry. */
  lemma GroupCut(m: Memory, v: View, x: Pending, e: Ptr)
    requires Partial(m, v, x) && e in m.ent.grp && On(v.gch, m.ent.grp[e], e)
    ensures Cuttable(GSide(m.gs, m.ent), e)
    ensures Partial(CutFromGroup(m, e), OffGroup(v, m.ent.grp[e], e), x.(offG := x.offG + {e}))
    ensures var g := m.ent.grp[e];
            OffGroup(v, g, e).gch[g] == [] <==> m.gs.link[e].prev == NULL && m.gs.link[e].next == NULL
  {
    hide Listing, Side, Entries, Routes, RpSide, RpLess;
    var g := m.ent.grp[e];
    GroupCutSide(m, v, g, e);
    var v', x' := OffGroup(v, g, e), x.(offG := x.offG + {e});
    CutGroupEntries(m, v, x, e, v', x');
    RoutesFrame(m.ent, m.route, v.gch, v'.gch);
    RpViewFrame(m.rp, v, x, v', x');
    RpLessFrame(m.ent, m.route, v, v');
    GroupSideAllocated(m, CutFromGroup(m, e).gs, v.gch.Keys, x.dyingG);
  }

  /** The writes that take entry `e` off its source's chain. */
  function CutFromSource(m: Memory, e: Ptr): Memory
    requires e in m.ent.src && e in m.ss.link && Linked(m.ss.link[e].prev, m.ss.link)
    requires Linked(m.ss.link[e].next, m.ss.link)
  {
    var f := Cut(SSide(m.ss, m.ent), e);
    m.(ss := SideFields(f.heads, f.link))
  }

  ghost function OffSource(v: View, s: Ptr, e: Ptr): View
    requires On(v.sch, s, e)
  {
    v.(sch := v.sch[s := Minus(v.sch[s], e)])
  }

  lemma CutSourceEntries(m: Memory, v: View, x: Pending, e: Ptr, v': View, x': Pending)
    requires Entries(m.ent, m.route, m.gl.addr, m.sl.addr, v, x) && e in m.ent.grp && e in m.ent.src
    requires On(v.sch, m.ent.src[e], e)
    requires v'.sch.Keys == v.sch.Keys && v'.gch == v.gch && v'.gkey == v.gkey && v'.skey == v.skey
    requires forall y, p :: On(v'.sch, y, p) <==> On(v.sch, y, p) && p != e
    requires x'.offS == x.offS + {e} && x'.offG == x.offG
    ensures Entries(m.ent, m.route, m.gl.addr, m.sl.addr, v', x')
  {
    forall f | f in m.ent.grp ensures EntryAt(m.ent, m.route, m.gl.addr, m.sl.addr, v', x', f) {
      assert EntryAt(m.ent, m.route, m.gl.addr, m.sl.addr, v, x, f);
    }
  }

  lemma SourceCutSide(m: Memory, v: View, s: Ptr, e: Ptr)
    requires Side(SSide(m.ss, m.ent), v.gkey, v.sch) && On(v.sch, s, e)
    ensures Cuttable(SSide(m.ss, m.ent), e) && m.ent.src[e] == s
    ensures var m', v' := CutFromSource(m, e), OffSource(v, s, e);
            && Side(SSide(m'.ss, m'.ent), v'.gkey, v'.sch)
            && v'.sch.Keys == v.sch.Keys
            && m'.ss.heads.Keys == m.ss.heads.Keys && m'.ss.link.Keys == m.ss.link.Keys
            && (forall y, p :: On(v'.sch, y, p) <==> On(v.sch, y, p) && p != e)
            && (v'.sch[s] == [] <==> m.ss.link[e].prev == NULL && m.ss.link[e].next == NULL)
  {
    CutSide(SSide(m.ss, m.ent), v.gkey, v.sch, s, e);
    assert SSide(CutFromSource(m, e).ss, m.ent) == Cut(SSide(m.ss, m.ent), e);
    forall y, p ensures On(OffSource(v, s, e).sch, y, p) <==> On(v.sch, y, p) && p != e {
      CutOn(SSide(m.ss, m.ent), v.gkey, v.sch, s, e, y, p);
    }
  }

  /** Taking an entry off its source's chain keeps the invariant up to that entry. */
  lemma SourceCut(m: Memory, v: View, x: Pending, e: Ptr)
    requires Partial(m, v, x) && e in m.ent.grp && e in m.ent.src && On(v.sch, m.ent.src[e], e)
    ensures Cuttable(SSide(m.ss, m.ent), e)
    ensures Partial(CutFromSource(m, e), OffSource(v, m.ent.src[e], e), x.(offS := x.offS + {e}))
    ensures var s := m.ent.src[e];
            OffSource(v, s, e).sch[s] == [] <==> m.ss.link[e].prev == NULL && m.ss.link[e].next == NULL
  {
    hide Listing, Side, Entries, Routes, RpSide, RpLess;
    var s := m.ent.src[e];
    SourceCutSide(m, v, s, e);
    var v', x' := OffSource(v, s, e), x.(offS := x.offS + {e});
    CutSourceEntries(m, v, x, e, v', x');
    RpViewFrame(m.rp, v, x, v', x');
    RpLessFrame(m.ent, m.route, v, v');
    SourceSideAllocated(m, CutFromSource(m, e).ss, v.sch.Keys, x.dyingS);
  }

  /** FREE_MRTENTRY */
  function EntryFreed(m: Memory, e: Ptr): Memory {
    m.(ent := EntryFields(m.ent.grp - {e}, m.ent.src - {e}, m.ent.flags - {e}, m.ent.iif - {e}),
       gs := m.gs.(link := m.gs.link - {e}), ss := m.ss.(link := m.ss.link - {e}))
  }

  ghost predicate OffBoth(v: View, e: Ptr) {
    forall y :: !On(v.gch, y, e) && !On(v.sch, y, e)
  }

  lemma FreedEntryRoutes(m: Memory, v: View, e: Ptr)
    requires Routes(m.ent, m.route, v.gch) && RpLess(m.ent, m.route, v) && OffBoth(v, e)
    requires forall g :: g in v.gch && g in m.route ==> m.route[g] != e
    ensures Routes(EntryFreed(m, e).ent, m.route, v.gch) && RpLess(EntryFreed(m, e).ent, m.route, v)
  {
    var ent' := EntryFreed(m, e).ent;
    forall g | g in v.gch ensures RouteAt(ent', m.route, g) { assert RouteAt(m.ent, m.route, g); }
    forall g | On(v.rch, NULL, g)
      ensures RpLessAt(ent', m.route, v.gch, g)
    {
      assert RpLessAt(m.ent, m.route, v.gch, g);
    }
  }

  lemma FreedEntryEntries(m: Memory, v: View, x: Pending, e: Ptr)
    requires Entries(m.ent, m.route, m.gl.addr, m.sl.addr, v, x)
    ensures Entries(EntryFreed(m, e).ent, m.route, m.gl.addr, m.sl.addr, v, x)
  {
    var ent' := EntryFreed(m, e).ent;
    forall f | f in ent'.grp ensures EntryAt(ent', m.route, m.gl.addr, m.sl.addr, v, x, f) {
      assert EntryAt(m.ent, m.route, m.gl.addr, m.sl.addr, v, x, f);
    }
  }

  lemma FreedEntrySides(m: Memory, v: View, e: Ptr)
    requires Side(GSide(m.gs, m.ent), v.skey, v.gch) && Side(SSide(m.ss, m.ent), v.gkey, v.sch) && OffBoth(v, e)
    ensures var m' := EntryFreed(m, e);
            Side(GSide(m'.gs, m'.ent), v.skey, v.gch) && Side(SSide(m'.ss, m'.ent), v.gkey, v.sch)
  {
    var m' := EntryFreed(m, e);
    forall y | y in v.gch ensures y in m.gs.heads { assert SideAt(GSide(m.gs, m.ent), v.skey, v.gch, y); }
    forall y | y in v.sch ensures y in m.ss.heads { assert SideAt(SSide(m.ss, m.ent), v.gkey, v.sch, y); }
    SideFrame(GSide(m.gs, m.ent), v.skey, v.gch, GSide(m'.gs, m'.ent), v.skey, v.gch);
    SideFrame(SSide(m.ss, m.ent), v.gkey, v.sch, SSide(m'.ss, m'.ent), v.gkey, v.sch);
  }

  /** Freeing an entry that is off its chains and is no group's (*,G) keeps the invariant. */
  lemma FreeEntry(m: Memory, v: View, x: Pending, e: Ptr)
    requires Partial(m, v, x) && OffBoth(v, e)
    requires forall g :: g in v.gch && g in m.route ==> m.route[g] != e
    ensures Partial(EntryFreed(m, e), v, x)
  {
    hide Listing, Side, Entries, Routes, RpSide, RpLess;
    FreedEntrySides(m, v, e);
    FreedEntryRoutes(m, v, e);
    FreedEntryEntries(m, v, x, e);
  }

  /** An (S,G) taken off both chains is on nobody's. */
  lemma EntryOff(m: Memory, v: View, x: Pending, e: Ptr)
    requires Partial(m, v, x) && e in m.ent.grp && e in x.offG && (SG in m.ent.flags[e] ==> e in x.offS)
    ensures OffBoth(v, e)
    ensures SG in m.ent.flags[e] ==> forall g :: g in v.gch && g in m.route ==> m.route[g] != e
  {
    assert EntryAt(m.ent, m.route, m.gl.addr, m.sl.addr, v, x, e);
    forall y ensures !On(v.gch, y, e) && !On(v.sch, y, e) {
      if y in v.gch { assert SideAt(GSide(m.gs, m.ent), v.skey, v.gch, y); }
      if y in v.sch { assert SideAt(SSide(m.ss, m.ent), v.gkey, v.sch, y); }
    }
    forall g | g in v.gch && g in m.route && SG in m.ent.flags[e]
      ensures m.route[g] != e
    {
      assert RouteAt(m.ent, m.route, g);
    }
  }

  /** What is pending only matters for what is allocated or listed. */
  lemma Settle(m: Memory, v: View, x: Pending, x': Pending)
    requires Partial(m, v, x) && x'.dyingG == x.dyingG && x'.dyingS == x.dyingS
    requires forall e :: e in m.ent.grp ==> (e in x.offG <==> e in x'.offG) && (e in x.offS <==> e in x'.offS)
    requires forall g :: g in v.gch ==> (g in x.loose <==> g in x'.loose)
    ensures Partial(m, v, x')
  {
    forall e | e in m.ent.grp ensures EntryAt(m.ent, m.route, m.gl.addr, m.sl.addr, v, x', e) {
      assert EntryAt(m.ent, m.route, m.gl.addr, m.sl.addr, v, x, e);
    }
    RpPendingFrame(m.rp, v, x, x');
  }

  // ----- the (*,G) of a group

  lemma RouteClearedEntries(m: Memory, v: View, x: Pending, g: Ptr, x': Pending)
    requires Entries(m.ent, m.route, m.gl.addr, m.sl.addr, v, x) && Routes(m.ent, m.route, v.gch)
    requires g in v.gch && g in m.route && x'.offG == x.offG + {m.route[g]} && x'.offS == x.offS
    ensures Entries(m.ent, m.route[g := NULL], m.gl.addr, m.sl.addr, v, x')
  {
    assert RouteAt(m.ent, m.route, g);
    forall e | e in m.ent.grp ensures EntryAt(m.ent, m.route[g := NULL], m.gl.addr, m.sl.addr, v, x', e) {
      assert EntryAt(m.ent, m.route, m.gl.addr, m.sl.addr, v, x, e);
    }
  }

  lemma RouteClearedRoutes(m: Memory, v: View, g: Ptr)
    requires Routes(m.ent, m.route, v.gch) && RpLess(m.ent, m.route, v) && g in v.gch
    ensures Routes(m.ent, m.route[g := NULL], v.gch) && RpLess(m.ent, m.route[g := NULL], v)
  {
    forall h | h in v.gch ensures RouteAt(m.ent, m.route[g := NULL], h) { assert RouteAt(m.ent, m.route, h); }
    forall h | On(v.rch, NULL, h)
      ensures RpLessAt(m.ent, m.route[g := NULL], v.gch, h)
    {
      assert RpLessAt(m.ent, m.route, v.gch, h);
    }
  }

  /** grp->grp_route = NULL */
  lemma ClearRoute(m: Memory, v: View, x: Pending, g: Ptr)
    requires Partial(m, v, x) && g in v.gch && g in m.route
    ensures Partial(m.(route := m.route[g := NULL]), v, x.(offG := x.offG + {m.route[g]}))
  {
    var m', x' := m.(route := m.route[g := NULL]), x.(offG := x.offG + {m.route[g]});
    RouteClearedEntries(m, v, x, g, x');
    RouteClearedRoutes(m, v, g);
    RpPendingFrame(m.rp, v, x, x');
    assert GroupsAllocated(m', v.gch.Keys, x'.dyingG);
  }
}
