/** Searching the routing table and creating what a search does not find: find_route. */
module MrtFind {
  import opened Links
  import opened Orthogonal
  import opened MrtModel
  import opened MrtSteps
  import opened MrtBuild
  import opened Mrt
  import KernelCache
  import Inet

  // ----- the searches

  /** The walk of search_srclist and search_grplist: the node with address `a`, or the one after
      which it belongs. */
  method SearchList(l: ListFields, first: Ptr, a: Addr, ghost s: seq<Ptr>, ghost nodes: set<Ptr>)
    returns (found: bool, p: Ptr, ghost k: nat)
    requires Listing(l, s, nodes) && first == At(s, 0)
    ensures found ==> p in nodes && p != NULL && p != first && p in l.addr && l.addr[p] == a
    ensures !found ==> Spot(l, s, k, a) && p == At(s, k - 1) && p in l.link && l.link[p].next == At(s, k)
    ensures found <==> exists i :: 1 <= i < |s| && s[i] in l.addr && l.addr[s[i]] == a
  {
    found, k := false, 1;
    p := first;
    ChainNeighbours(s[0], l.link, s, 0);
    var node := l.link[p].next;
    while node != NULL
      invariant 1 <= k <= |s| && p == s[k - 1] && node == At(s, k) && !found
      invariant p in l.link && l.link[p].next == node
      invariant forall i :: 1 <= i < k ==> l.addr[s[i]] < a
      decreases |s| - k
    {
      ChainNeighbours(s[0], l.link, s, k);
      if l.addr[node] < a {
        p, node := node, l.link[node].next;
        k := k + 1;
      } else {
        if l.addr[node] == a {
          found, p := true, node;
          assert p in NodeSet(s);
          ChainDistinct(s[0], l.link, s, 0, k);
        }
        break;
      }
    }
  }

  /** The walk of search_srcmrtlink and search_grpmrtlink: the entry whose other owner has address
      `a`, or the one after which it belongs, NULL for the front. */
  method SearchChain(first: Ptr, link: LinkMap, other: map<Ptr, Ptr>, addr: map<Ptr, Addr>, a: Addr,
        ghost s: seq<Ptr>, ghost key: map<Ptr, Addr>)
    returns (found: bool, p: Ptr, ghost k: nat)
    requires Readable(first, link, other, addr, s, key)
    ensures k <= |s|
    ensures found ==> k < |s| && p == s[k] && p in key && key[p] == a
    ensures !found ==> p == At(s, k - 1) && ChainPlace(s, key, k, a)
    ensures !found ==> if p == NULL then first == At(s, k) else p in link && link[p].next == At(s, k)
    ensures found <==> exists i :: 0 <= i < |s| && s[i] in key && key[s[i]] == a
    ensures found ==> p in s && p in key && key[p] == a
  {
    found, k, p := false, 0, NULL;
    var node := first;
    while node != NULL
      invariant 0 <= k <= |s| && p == At(s, k - 1) && node == At(s, k) && !found
      invariant if p == NULL then first == node else p in link && link[p].next == node
      invariant forall i :: 0 <= i < k ==> key[s[i]] < a
      decreases |s| - k
    {
      ChainNeighbours(first, link, s, k);
      if addr[other[node]] < a {
        p, node := node, link[node].next;
        k := k + 1;
      } else {
        if addr[other[node]] == a { found, p := true, node; }
        break;
      }
    }
  }

  /** A chain a search can walk: `key` is what the walk reads through each entry's other owner. */
  ghost predicate Readable(first: Ptr, link: LinkMap, other: map<Ptr, Ptr>, addr: map<Ptr, Addr>, s: seq<Ptr>,
        key: map<Ptr, Addr>) {
    && Chain(first, link, s) && Ascending(s, key)
    && forall i :: 0 <= i < |s| ==> s[i] in other && other[s[i]] in addr && addr[other[s[i]]] == key[s[i]]
  }

  lemma GroupReadable(m: Memory, v: View, x: Pending, g: Ptr)
    requires Partial(m, v, x) && g in v.gch && x.offS == {}
    ensures g in m.gs.heads && Readable(m.gs.heads[g], m.gs.link, m.ent.src, m.sl.addr, v.gch[g], v.skey)
  {
    assert SideAt(GSide(m.gs, m.ent), v.skey, v.gch, g);
    forall i | 0 <= i < |v.gch[g]|
      ensures var e := v.gch[g][i]; e in m.ent.src && m.ent.src[e] in m.sl.addr && m.sl.addr[m.ent.src[e]] == v.skey[e]
    {
      assert On(v.gch, g, v.gch[g][i]);
      assert EntryAt(m.ent, m.route, m.gl.addr, m.sl.addr, v, x, v.gch[g][i]);
    }
  }

  lemma SourceReadable(m: Memory, v: View, x: Pending, s: Ptr)
    requires Partial(m, v, x) && s in v.sch && x.offG == {}
    ensures s in m.ss.heads && Readable(m.ss.heads[s], m.ss.link, m.ent.grp, m.gl.addr, v.sch[s], v.gkey)
  {
    assert SideAt(SSide(m.ss, m.ent), v.gkey, v.sch, s);
    forall i | 0 <= i < |v.sch[s]|
      ensures var e := v.sch[s][i]; e in m.ent.grp && m.ent.grp[e] in m.gl.addr && m.gl.addr[m.ent.grp[e]] == v.gkey[e]
    {
      assert On(v.sch, s, v.sch[s][i]);
      assert EntryAt(m.ent, m.route, m.gl.addr, m.sl.addr, v, x, v.sch[s][i]);
    }
  }

  // ----- what an entry is for

  /** `e` is the entry of source address `sa` and group address `ga`. */
  ghost predicate IsPair(ent: EntryFields, v: View, e: Ptr, sa: Addr, ga: Addr) {
    && e in ent.grp && e in ent.flags && SG in ent.flags[e]
    && e in v.skey && v.skey[e] == sa && e in v.gkey && v.gkey[e] == ga
  }

  /** `e` is the (*,G) of group address `ga`. */
  ghost predicate IsWild(ent: EntryFields, addr: map<Ptr, Addr>, e: Ptr, ga: Addr) {
    && e in ent.grp && e in ent.flags && SG !in ent.flags[e]
    && ent.grp[e] in addr && addr[ent.grp[e]] == ga
  }

  ghost predicate GroupListed(m: Memory, v: View, g: Ptr, a: Addr) {
    g in v.gch && g != At(v.groups, 0) && g in m.gl.addr && m.gl.addr[g] == a
  }

  ghost predicate SourceListed(m: Memory, v: View, s: Ptr, a: Addr) {
    s in v.sch && s != At(v.sources, 0) && s in m.sl.addr && m.sl.addr[s] == a
  }

  /** No two nodes of a list but the unused first have the same address. */
  lemma ListedOnce(l: ListFields, s: seq<Ptr>, nodes: set<Ptr>, p: Ptr, q: Ptr)
    requires Listing(l, s, nodes) && p in nodes && q in nodes && p != s[0] && q != s[0]
    requires p in l.addr && q in l.addr && l.addr[p] == l.addr[q]
    ensures p == q
  {
    assert p in NodeSet(s) && q in NodeSet(s);
    var i, j := IndexOf(s, p), IndexOf(s, q);
    assert 1 <= i && 1 <= j && s[i] == p && s[j] == q;
  }

  /** Every (S,G) is on the chain of the one group and of the one source with its addresses. */
  lemma PairPlace(m: Memory, v: View, x: Pending, e: Ptr, sa: Addr, ga: Addr)
    requires Partial(m, v, x) && x.offG == {} && x.offS == {} && IsPair(m.ent, v, e, sa, ga)
    ensures On(v.gch, m.ent.grp[e], e) && GroupListed(m, v, m.ent.grp[e], ga)
    ensures e in m.ent.src && On(v.sch, m.ent.src[e], e) && SourceListed(m, v, m.ent.src[e], sa)
  {
    assert EntryAt(m.ent, m.route, m.gl.addr, m.sl.addr, v, x, e);
  }

  /** The routing table has at most one entry for a pair. */
  lemma OnePerPair(m: Memory, v: View, x: Pending, e: Ptr, f: Ptr, sa: Addr, ga: Addr)
    requires Partial(m, v, x) && x.offG == {} && x.offS == {}
    requires IsPair(m.ent, v, e, sa, ga) && IsPair(m.ent, v, f, sa, ga)
    ensures e == f
  {
    PairPlace(m, v, x, e, sa, ga);
    PairPlace(m, v, x, f, sa, ga);
    var g := m.ent.grp[e];
    ListedOnce(m.gl, v.groups, v.gch.Keys, g, m.ent.grp[f]);
    assert SideAt(GSide(m.gs, m.ent), v.skey, v.gch, g);
    SameKey(v.gch[g], v.skey, IndexOf(v.gch[g], e), IndexOf(v.gch[g], f));
  }

  lemma SameKey(s: seq<Ptr>, key: map<Ptr, Addr>, i: nat, j: nat)
    requires Ascending(s, key) && i < |s| && j < |s| && key[s[i]] == key[s[j]]
    ensures i == j
  {
  }

  /** An entry on a source's chain for group `g` is on that group's chain for that source. */
  lemma OnGroupToo(m: Memory, v: View, x: Pending, g: Ptr, s: Ptr, f: Ptr)
    requires Partial(m, v, x) && x.offG == {} && x.offS == {}
    requires g in v.gch && g != At(v.groups, 0) && g in m.gl.addr && s in m.sl.addr
    requires On(v.sch, s, f) && f in v.gkey && v.gkey[f] == m.gl.addr[g]
    ensures f in v.gch[g] && f in v.skey && v.skey[f] == m.sl.addr[s]
  {
    assert SideAt(SSide(m.ss, m.ent), v.gkey, v.sch, s);
    assert f in m.ent.src && m.ent.src[f] == s;
    assert EntryAt(m.ent, m.route, m.gl.addr, m.sl.addr, v, x, f);
    ListedOnce(m.gl, v.groups, v.gch.Keys, g, m.ent.grp[f]);
  }

  /** A pair without an entry on its group's chain has none on its source's: the "MRT
      inconsistency" branch of create_mrtentry is not reached. */
  lemma ChainsAgree(m: Memory, v: View, x: Pending, g: Ptr, s: Ptr, f: Ptr, k: nat)
    requires Partial(m, v, x) && x.offG == {} && x.offS == {}
    requires g in v.gch && g != At(v.groups, 0) && g in m.gl.addr && s in m.sl.addr
    requires ChainPlace(v.gch[g], v.skey, k, m.sl.addr[s]) && On(v.sch, s, f) && f in v.gkey
    ensures v.gkey[f] != m.gl.addr[g]
  {
    if v.gkey[f] == m.gl.addr[g] { OnGroupToo(m, v, x, g, s, f); }
  }

  // ----- creating groups and sources

  /** No entry, mirror or kernel call has changed. */
  ghost predicate SameEntries(t: State, w: Views, t': State, w': Views) {
    && t'.m.ent == t.m.ent && t'.c == t.c && t'.calls == t.calls && w'.c == w.c
    && w'.v.gkey == w.v.gkey && w'.v.skey == w.v.skey
    && t'.m.rp.head.Keys == t.m.rp.head.Keys
    && At(w'.v.groups, 0) == At(w.v.groups, 0) && At(w'.v.sources, 0) == At(w.v.sources, 0)
  }

  /** Every group there was has the address and the chain it had. */
  ghost predicate GroupsStay(m: Memory, v: View, m': Memory, v': View) {
    && (forall g :: g in m.gl.addr ==> g in m'.gl.addr && m'.gl.addr[g] == m.gl.addr[g])
    && (forall g :: g in v.gch ==> g in v'.gch && v'.gch[g] == v.gch[g])
  }

  /** No group has address `a`. */
  ghost predicate Unlisted(m: Memory, v: View, a: Addr) {
    forall g :: !GroupListed(m, v, g, a)
  }

  /** No source has address `a`. */
  ghost predicate NoSource(m: Memory, v: View, a: Addr) {
    forall s :: !SourceListed(m, v, s, a)
  }

  /** The sources are what they were. */
  ghost predicate SameSources(t: State, w: Views, t': State, w': Views) {
    t'.m.sl == t.m.sl && t'.m.srcIif == t.m.srcIif && w'.v.sch == w.v.sch && w'.v.sources == w.v.sources
  }

  lemma NotListed(l: ListFields, s: seq<Ptr>, nodes: set<Ptr>, a: Addr, k: nat)
    requires Listing(l, s, nodes) && Spot(l, s, k, a)
    ensures forall p :: p in nodes && p != s[0] && p in l.addr ==> l.addr[p] != a
  {
    forall p | p in nodes && p != s[0] ensures p in l.addr ==> l.addr[p] != a { NoSuchGroup(l, s, nodes, a, k, p); }
  }

  lemma FilledGroupIn(m: Memory, v: View, k: nat, g: Ptr, a: Addr, p: Ptr, n: Ptr)
    requires Filled(m, v, {}, {}) && k <= |v.groups| && Linked(p, m.gl.link) && Linked(n, m.gl.link)
    requires At(GroupIn(v, k, g).groups, 0) == At(v.groups, 0)
    ensures Filled(GroupAdded(m, g, a, p, n), GroupIn(v, k, g), {g}, {})
  {
  }

  /** create_grpentry: the group with address `a`, made if there is none and `p` is memory for it. */
  method CreateGroup(t: State, ghost w: Views, first: Ptr, a: Addr, p: Ptr)
    returns (t': State, ghost w': Views, g: Ptr, ghost x: Pending)
    requires Holds(t, w, NOTHING) && Filled(t.m, w.v, {}, {}) && first == At(w.v.groups, 0)
    requires (p != NULL ==> p !in t.m.gl.addr)
    ensures g == NULL ==> t' == t && w' == w && p == NULL
    ensures g != NULL ==> Holds(t', w', x) && GroupListed(t'.m, w'.v, g, a) && Filled(t'.m, w'.v, {g}, {})
    ensures g in t.m.gl.addr ==> t.m.gl.addr[g] == a && t' == t && w' == w && x == NOTHING
    ensures g == NULL || g !in t.m.gl.addr ==> Unlisted(t.m, w.v, a) && forall f :: !IsWild(t.m.ent, t.m.gl.addr, f, a)
    ensures g != NULL && g !in t.m.gl.addr ==> g == p && g in t'.m.rp.of && t'.m.rp.of[g] == NULL
    ensures GroupsStay(t.m, w.v, t'.m, w'.v)
    ensures g != NULL ==>
              x == NOTHING ||
              (x == NOTHING.(loose := {g}) && w'.v.gch[g] == [] && g in t'.m.route && t'.m.route[g] == NULL)
    ensures SameEntries(t, w, t', w') && SameSources(t, w, t', w') && t'.m.ss == t.m.ss
  {
    hide Filled, Listing, Side, Entries, Routes, RpSide, RpLess, GroupsAllocated, SourcesAllocated, EntriesAllocated,
        Sentinels, Spot, Mirrored, KernelCache.Ok;
    t', w', x := t, w, NOTHING;
    var found, prev, k := SearchList(t.m.gl, first, a, w.v.groups, w.v.gch.Keys);
    if found {
      g := prev;
      FilledMore(t.m, w.v, {g}, {});
      return;
    }
    g := p;
    forall f ensures !IsWild(t.m.ent, t.m.gl.addr, f, a) { NoGroup(t.m, w.v, a, k, 0, f); }
    NotListed(t.m.gl, w.v.groups, w.v.gch.Keys, a, k);
    NullGroup(t.m, w.v);
    if p == NULL { return; }
    AddGroup(t.m, w.v, NOTHING, k, g, a);
    FilledGroupIn(t.m, w.v, k, g, a, prev, t.m.gl.link[prev].next);
    t' := t.(m := GroupAdded(t.m, g, a, prev, t.m.gl.link[prev].next));
    w' := w.(v := GroupIn(w.v, k, g));
    x := NOTHING.(loose := {g});
    assert x == NOTHING.(loose := NOTHING.loose + {g});
    MirroredSame(t.m.ent, w.v, w.c, w'.v, w.c);
    NewGroupStays(t.m, w.v, k, g, a, prev, t.m.gl.link[prev].next);
  }

  lemma NewGroupStays(m: Memory, v: View, k: nat, g: Ptr, a: Addr, p: Ptr, n: Ptr)
    requires Partial(m, v, NOTHING) && g !in m.gl.addr
    requires k <= |v.groups| && Linked(p, m.gl.link) && Linked(n, m.gl.link)
    ensures GroupsStay(m, v, GroupAdded(m, g, a, p, n), GroupIn(v, k, g))
  {
  }

  lemma FilledMore(m: Memory, v: View, gs: set<Ptr>, ss: set<Ptr>)
    requires Filled(m, v, {}, {})
    ensures Filled(m, v, gs, ss)
  {
  }

  datatype Option = None | Some(iif: int)

  lemma FilledSourceIn(m: Memory, v: View, gs: set<Ptr>, k: nat, s: Ptr, a: Addr, iif: int, p: Ptr, n: Ptr)
    requires Filled(m, v, gs, {}) && k <= |v.sources| && Linked(p, m.sl.link) && Linked(n, m.sl.link)
    requires At(SourceIn(v, k, s).sources, 0) == At(v.sources, 0)
    ensures Filled(SourceAdded(m, s, a, iif, p, n), SourceIn(v, k, s), gs, {s})
  {
  }

  lemma FilledButSource(m: Memory, v: View, gs: set<Ptr>, s: Ptr)
    requires Filled(m, v, gs, {})
    ensures Filled(m, v, gs, {s})
  {
  }

  /** create_srcentry: the source with address `a`, made if there is none, `p` is memory for it, and
      either set_incoming found a route (`incoming`) or the caller does without (`any`). */
  method CreateSource(t: State, ghost w: Views, first: Ptr, a: Addr, any: bool, incoming: Option, p: Ptr,
        ghost gs: set<Ptr>)
    returns (t': State, ghost w': Views, s: Ptr)
    requires Holds(t, w, NOTHING) && Filled(t.m, w.v, gs, {}) && first == At(w.v.sources, 0)
    requires (p != NULL ==> p !in t.m.sl.addr)
    ensures Holds(t', w', NOTHING) && SameEntries(t, w, t', w')
    ensures s == NULL ==> t' == t && w' == w && (p == NULL || (incoming.None? && !any))
    ensures s == NULL || s !in t.m.sl.addr ==> NoSource(t.m, w.v, a)
    ensures s != NULL && s !in t.m.sl.addr ==> s == p && (incoming.Some? || any)
    ensures s in t.m.sl.addr ==> SourceListed(t.m, w.v, s, a)
    ensures s != NULL ==> SourceListed(t'.m, w'.v, s, a) && Filled(t'.m, w'.v, gs, {s})
    ensures s != NULL && s !in t.m.sl.addr ==>
              t'.m.srcIif == t.m.srcIif[s := if incoming.Some? then incoming.iif else NO_VIF]
    ensures s in t.m.sl.addr ==> t'.m.srcIif == t.m.srcIif
    ensures t'.m.gl == t.m.gl && t'.m.gs == t.m.gs && t'.m.route == t.m.route && t'.m.rp == t.m.rp
    ensures w'.v == w.v.(sources := w'.v.sources, sch := w'.v.sch)
  {
    hide Filled, Listing, Side, Entries, Routes, RpSide, RpLess, GroupsAllocated, SourcesAllocated, EntriesAllocated,
        Sentinels, Spot, Mirrored, KernelCache.Ok;
    t', w' := t, w;
    var found, prev, k := SearchList(t.m.sl, first, a, w.v.sources, w.v.sch.Keys);
    if found {
      s := prev;
      FilledButSource(t.m, w.v, gs, s);
      return;
    }
    s := p;
    NotListed(t.m.sl, w.v.sources, w.v.sch.Keys, a, k);
    NullSource(t.m, w.v);
    if p == NULL { return; }
    if incoming.None? && !any { return t, w, NULL; }
    var iif := if incoming.None? then NO_VIF else incoming.iif;
    AddSource(t.m, w.v, NOTHING, k, s, a, iif);
    FilledSourceIn(t.m, w.v, gs, k, s, a, iif, prev, t.m.sl.link[prev].next);
    t' := t.(m := SourceAdded(t.m, s, a, iif, prev, t.m.sl.link[prev].next));
    w' := w.(v := SourceIn(w.v, k, s));
    MirroredSame(t.m.ent, w.v, w.c, w'.v, w.c);
  }

  // ----- creating entries

  lemma MirroredAdded(ent: EntryFields, v: View, c: KernelCache.View, e: Ptr, ent': EntryFields, ga: Addr, sa: Addr,
        own: map<Ptr, KernelCache.Key>)
    requires Mirrored(ent, v, c) && e !in ent.grp && ent'.grp.Keys == ent.grp.Keys + {e} && e in ent'.flags
    requires ent'.flags == ent.flags[e := ent'.flags[e]]
    requires own == if SG in ent'.flags[e] then c.own[e := KernelCache.Key(sa, ga)] else c.own
    requires c.own.Keys <= c.list.Keys
    ensures Mirrored(ent', Keyed(v, e, ga, sa), c.(list := c.list[e := []], own := own))
  {
    var v' := Keyed(v, e, ga, sa);
    forall f | f in ent'.grp ensures MirrorAt(ent', v', own, f) { if f != e { assert MirrorAt(ent, v, c.own, f); } }
  }

  /** alloc_mrtentry: a new entry, off every chain and with no mirror. */
  method AllocEntry(t: State, ghost w: Views, e: Ptr, g: Ptr, s: Ptr, flags: set<Flag>, ghost ga: Addr, ghost sa: Addr)
    returns (t': State, ghost w': Views)
    requires Holds(t, w, NOTHING) && e != NULL && e !in t.m.ent.grp
    ensures Holds(t', w', NOTHING.(offG := {e}, offS := {e})) && OffBoth(w.v, e)
    ensures t' == State(EntryAdded(t.m, e, g, s, flags), t.c.(head := t.c.head[e := NULL]), t.calls)
    ensures w'.v == Keyed(w.v, e, ga, sa) && e !in w.c.list && w'.c == w.c.(list := w.c.list[e := []], own := w'.c.own)
    ensures w'.c.own == if SG in flags then w.c.own[e := KernelCache.Key(sa, ga)] else w.c.own
  {
    hide Partial;
    AddEntry(t.m, w.v, NOTHING, e, g, s, flags, ga, sa);
    ghost var own := if SG in flags then w.c.own[e := KernelCache.Key(sa, ga)] else w.c.own;
    KernelCache.EntryAdded(t.c, w.c, e, own);
    t' := State(EntryAdded(t.m, e, g, s, flags), t.c.(head := t.c.head[e := NULL]), t.calls);
    w' := Views(Keyed(w.v, e, ga, sa), w.c.(list := w.c.list[e := []], own := own));
    MirroredAdded(t.m.ent, w.v, w.c, e, t'.m.ent, ga, sa, own);
    assert NOTHING.(offG := {e}, offS := {e}) == NOTHING.(offG := NOTHING.offG + {e}, offS := NOTHING.offS + {e});
  }

  lemma GroupEntry(m: Memory, v: View, x: Pending, g: Ptr, e: Ptr)
    requires Partial(m, v, x) && x.offS == {} && On(v.gch, g, e)
    ensures e in m.ent.grp && m.ent.grp[e] == g && e in m.ent.flags && SG in m.ent.flags[e]
    ensures g in m.gl.addr && e in v.gkey && v.gkey[e] == m.gl.addr[g]
  {
    assert SideAt(GSide(m.gs, m.ent), v.skey, v.gch, g);
    assert EntryAt(m.ent, m.route, m.gl.addr, m.sl.addr, v, x, e);
  }

  /** Keying a new entry leaves the places on the chains where they are. */
  lemma PlaceKept(s: seq<Ptr>, key: map<Ptr, Addr>, k: nat, a: Addr, e: Ptr)
    requires ChainPlace(s, key, k, a) && e !in s
    ensures ChainPlace(s, key[e := a], k, a)
  {
  }

  lemma PlaceKeptOff(v: View, e: Ptr, g: Ptr, s: Ptr, k: nat, j: nat, ga: Addr, sa: Addr)
    requires OffBoth(v, e) && g in v.gch && s in v.sch && ChainPlace(v.gch[g], v.skey, k, sa)
    requires ChainPlace(v.sch[s], v.gkey, j, ga)
    ensures ChainPlace(v.gch[g], v.skey[e := sa], k, sa) && ChainPlace(v.sch[s], v.gkey[e := ga], j, ga)
  {
    assert !On(v.gch, g, e) && !On(v.sch, s, e);
    PlaceKept(v.gch[g], v.skey, k, sa, e);
    PlaceKept(v.sch[s], v.gkey, j, ga, e);
  }

  /** insert_grpmrtlink and insert_srcmrtlink of a new (S,G), where the searches said. */
  method InsertPair(t: State, ghost w: Views, e: Ptr, g: Ptr, s: Ptr, gp: Ptr, gn: Ptr, sp: Ptr, sn: Ptr,
        ghost k: nat, ghost j: nat)
    returns (t': State, ghost w': Views)
    requires Holds(t, w, NOTHING.(offG := {e}, offS := {e})) && OffBoth(w.v, e)
    requires e in t.m.ent.grp && t.m.ent.grp[e] == g && e in t.m.ent.src && t.m.ent.src[e] == s
    requires e in t.m.ent.flags && SG in t.m.ent.flags[e] && RP !in t.m.ent.flags[e]
    requires g in t.m.gl.addr && GroupListed(t.m, w.v, g, t.m.gl.addr[g]) && e in w.v.gkey
    requires w.v.gkey[e] == t.m.gl.addr[g]
    requires s in t.m.sl.addr && SourceListed(t.m, w.v, s, t.m.sl.addr[s]) && e in w.v.skey
    requires w.v.skey[e] == t.m.sl.addr[s]
    requires ChainPlace(w.v.gch[g], w.v.skey, k, w.v.skey[e]) && gp == At(w.v.gch[g], k - 1) && gn == At(w.v.gch[g], k)
    requires ChainPlace(w.v.sch[s], w.v.gkey, j, w.v.gkey[e]) && sp == At(w.v.sch[s], j - 1) && sn == At(w.v.sch[s], j)
    ensures Holds(t', w', NOTHING)
    ensures t'.m == t.m.(gs := t'.m.gs, ss := t'.m.ss) && t'.c == t.c && t'.calls == t.calls && w'.c == w.c
    ensures w'.v == w.v.(gch := w.v.gch[g := Insert(w.v.gch[g], k, e)], sch := w.v.sch[s := Insert(w.v.sch[s], j, e)])
  {
    hide Partial, Mirrored, KernelCache.Ok;
    ghost var x := NOTHING.(offG := {e}, offS := {e});
    JoinGroup(t.m, w.v, x, e, k);
    assert {e} - {e} == {} && NOTHING.(offS := {e}) == x.(offG := x.offG - {e}) &&
        NOTHING == NOTHING.(offS := {e} - {e});
    t' := t.(m := JoinToGroup(t.m, e, g, gp, gn));
    w' := w.(v := OnGroup(w.v, g, k, e));
    assert forall y :: !On(w.v.sch, y, e);
    JoinSource(t'.m, w'.v, NOTHING.(offS := {e}), e, j);
    t' := t'.(m := JoinToSource(t'.m, e, s, sp, sn));
    w' := w'.(v := OnSource(w'.v, s, j, e));
    MirroredSame(t.m.ent, w.v, w.c, w'.v, w.c);
  }

  ghost predicate NonEmpty(ch: Chains, y: Ptr) {
    y in ch && ch[y] != []
  }

  ghost predicate OfGroup(ent: EntryFields, e: Ptr, g: Ptr) {
    e in ent.grp && ent.grp[e] == g
  }

  /** A new (S,G) on both its chains is all that has changed. */
  ghost predicate PairMade(t: State, w: Views, t': State, w': Views, e: Ptr, g: Ptr, s: Ptr, ga: Addr, sa: Addr) {
    && t'.m.ent == EntryAdded(t.m, e, g, s, {SG, NEW}).ent
    && t'.m == t.m.(ent := t'.m.ent, gs := t'.m.gs, ss := t'.m.ss)
    && t'.c == t.c.(head := t.c.head[e := NULL]) && t'.calls == t.calls
    && w'.v == Keyed(w.v, e, ga, sa).(gch := w'.v.gch, sch := w'.v.sch)
    && NonEmpty(w'.v.gch, g) && w'.v.gch == w.v.gch[g := w'.v.gch[g]]
    && NonEmpty(w'.v.sch, s) && w'.v.sch == w.v.sch[s := w'.v.sch[s]]
    && e !in w.c.list && w'.c == w.c.(list := w.c.list[e := []], own := w.c.own[e := KernelCache.Key(sa, ga)])
  }

  /** The pair has no entry. */
  ghost predicate NoPairOf(ent: EntryFields, v: View, sa: Addr, ga: Addr) {
    forall f :: !IsPair(ent, v, f, sa, ga)
  }

  /** create_mrtentry of an (S,G): the entry of the pair, made if there is none and `p` is memory
      for it.  `panic` is the "MRT inconsistency" branch. */
  method CreatePair(t: State, ghost w: Views, g: Ptr, s: Ptr, p: Ptr, ghost ga: Addr, ghost sa: Addr)
    returns (t': State, ghost w': Views, e: Ptr, panic: bool)
    requires Holds(t, w, NOTHING) && GroupListed(t.m, w.v, g, ga) && SourceListed(t.m, w.v, s, sa)
    requires p != NULL ==> p !in t.m.ent.grp
    ensures Holds(t', w', NOTHING) && !panic
    ensures e == NULL ==> t' == t && w' == w && p == NULL
    ensures e == NULL || e !in t.m.ent.grp ==> NoPairOf(t.m.ent, w.v, sa, ga)
    ensures e != NULL ==>
              IsPair(t'.m.ent, w'.v, e, sa, ga) && OfGroup(t'.m.ent, e, g) && NonEmpty(w'.v.gch, g) &&
              NonEmpty(w'.v.sch, s)
    ensures e in t.m.ent.grp ==> t' == t && w' == w
    ensures e != NULL && e !in t.m.ent.grp ==> e == p && PairMade(t, w, t', w', e, g, s, ga, sa)
  {
    hide Partial, Mirrored, KernelCache.Ok, ChainPlace, OffBoth, Readable;
    t', w', panic := t, w, false;
    GroupReadable(t.m, w.v, NOTHING, g);
    SourceReadable(t.m, w.v, NOTHING, s);
    var found, gp,
        k := SearchChain(t.m.gs.heads[g], t.m.gs.link, t.m.ent.src, t.m.sl.addr, t.m.sl.addr[s], w.v.gch[g], w.v.skey);
    if found {
      assert On(w.v.gch, g, gp);
      GroupEntry(t.m, w.v, NOTHING, g, gp);
      PairPlace(t.m, w.v, NOTHING, gp, sa, ga);
      NonNullEntry(t.m, w.v, NOTHING, gp);
      SourceIs(t.m, w.v, gp, s, sa);
      return t, w, gp, false;
    }
    var gn := if gp == NULL then t.m.gs.heads[g] else t.m.gs.link[gp].next;
    var found', sp,
        j := SearchChain(t.m.ss.heads[s], t.m.ss.link, t.m.ent.grp, t.m.gl.addr, t.m.gl.addr[g], w.v.sch[s], w.v.gkey);
    panic := found';
    if found' {
      assert On(w.v.sch, s, sp);
      ChainsAgree(t.m, w.v, NOTHING, g, s, sp, k);
    }
    var sn := if sp == NULL then t.m.ss.heads[s] else t.m.ss.link[sp].next;
    forall f ensures !IsPair(t.m.ent, w.v, f, sa, ga) { NoPair(t.m, w.v, g, ga, sa, k, f); }
    NoNullKey(t.m, w.v, NOTHING);
    e := p;
    if p == NULL { return; }
    t', w' := AllocEntry(t, w, e, g, s, {SG, NEW}, ga, sa);
    PlaceKeptOff(w.v, e, g, s, k, j, ga, sa);
    KeyedOff(w.v, e, ga, sa);
    t', w' := InsertPair(t', w', e, g, s, gp, gn, sp, sn, k, j);
  }

  lemma KeyedOff(v: View, e: Ptr, ga: Addr, sa: Addr)
    requires OffBoth(v, e)
    ensures OffBoth(Keyed(v, e, ga, sa), e)
  {
  }

  lemma NonNullEntry(m: Memory, v: View, x: Pending, e: Ptr)
    requires Partial(m, v, x) && e in m.ent.grp
    ensures e != NULL
  {
    assert EntryAt(m.ent, m.route, m.gl.addr, m.sl.addr, v, x, e);
  }

  lemma SourceIs(m: Memory, v: View, e: Ptr, s: Ptr, sa: Addr)
    requires Partial(m, v, NOTHING) && e in m.ent.src && On(v.sch, m.ent.src[e], e)
    requires SourceListed(m, v, m.ent.src[e], sa) && SourceListed(m, v, s, sa)
    ensures m.ent.src[e] == s
  {
    ListedOnce(m.sl, v.sources, v.sch.Keys, s, m.ent.src[e]);
  }

  lemma WildPlace(m: Memory, v: View, x: Pending, g: Ptr)
    requires Partial(m, v, x) && g in v.gch && g != At(v.groups, 0)
    ensures RouteAt(m.ent, m.route, g) && g in m.rp.of && g in m.rp.link
    ensures m.rp.of[g] != NULL ==> !On(v.rch, NULL, g)
    ensures m.route[g] != NULL ==> !On(v.rch, NULL, g)
    ensures m.rp.of[g] == NULL && g !in x.loose ==> m.route[g] == NULL
  {
    assert RouteAt(m.ent, m.route, g);
    assert GroupRpAt(m.rp, v, x, g) && RpAt(m.rp, v, NULL);
    if On(v.rch, NULL, g) { assert RpLessAt(m.ent, m.route, v.gch, g); }
  }

  lemma SettleWild(m: Memory, v: View, e: Ptr)
    requires Partial(m, v, NOTHING.(offS := {e})) && e in m.ent.flags && SG !in m.ent.flags[e]
    ensures Partial(m, v, NOTHING)
  {
    var x := NOTHING.(offS := {e});
    forall f | f in m.ent.grp ensures EntryAt(m.ent, m.route, m.gl.addr, m.sl.addr, v, NOTHING, f) {
      assert EntryAt(m.ent, m.route, m.gl.addr, m.sl.addr, v, x, f);
    }
    RpPendingFrame(m.rp, v, x, NOTHING);
  }

  /** A new (*,G), and nothing else, has come. */
  ghost predicate WildMade(t: State, w: Views, t': State, w': Views, e: Ptr, g: Ptr, ga: Addr) {
    && e !in t.m.ent.grp
    && t'.m.ent == EntryAdded(t.m, e, g, NULL, {WC, RP, NEW}).ent
    && t'.m == t.m.(ent := t'.m.ent, gs := t'.m.gs, ss := t'.m.ss, route := t.m.route[g := e])
    && t'.c == t.c.(head := t.c.head[e := NULL]) && t'.calls == t.calls
    && w'.v == Keyed(w.v, e, ga, 0)
    && e !in w.c.list && w'.c == w.c.(list := w.c.list[e := []])
  }

  /** create_mrtentry of a (*,G) for a group that has an RP. */
  method CreateWild(t: State, ghost w: Views, g: Ptr, p: Ptr, ghost ga: Addr)
    returns (t': State, ghost w': Views, e: Ptr)
    requires Holds(t, w, NOTHING) && GroupListed(t.m, w.v, g, ga) && g in t.m.rp.of && t.m.rp.of[g] != NULL
    requires p != NULL ==> p !in t.m.ent.grp
    ensures Holds(t', w', NOTHING) && g in t.m.route
    ensures e == NULL ==> t' == t && w' == w && t.m.route[g] == NULL && p == NULL
    ensures e != NULL ==>
              IsWild(t'.m.ent, t'.m.gl.addr, e, ga) && g in t'.m.route && t'.m.route[g] == e && OfGroup(t'.m.ent, e, g)
    ensures t.m.route[g] != NULL ==> t' == t && w' == w
    ensures t.m.route[g] == NULL && e != NULL ==> e == p && WildMade(t, w, t', w', e, g, ga)
  {
    hide Partial, Mirrored, KernelCache.Ok, OffBoth;
    WildPlace(t.m, w.v, NOTHING, g);
    if t.m.route[g] != NULL { return t, w, t.m.route[g]; }
    t', w', e := t, w, p;
    if p == NULL { return; }
    t', w' := AllocEntry(t, w, e, g, NULL, {WC, RP, NEW}, ga, 0);
    ghost var x := NOTHING.(offG := {e}, offS := {e});
    SetRoute(t'.m, w'.v, x, e);
    assert {e} - {e} == {} && NOTHING.(offS := {e}) == x.(offG := x.offG - {e});
    t' := t'.(m := t'.m.(route := t'.m.route[g := e]));
    SettleWild(t'.m, w'.v, e);
  }

  // ----- the RP of a group

  lemma OnWhichChain(rp: RpFields, v: View, x: Pending, g: Ptr)
    requires RpSide(rp, v, x) && g in v.gch && g != At(v.groups, 0) && g != NULL
    ensures g in rp.of && g in rp.link && NULL in v.rch
    ensures rp.of[g] == NULL ==> (g in x.loose <==> rp.link[g].prev == NULL && rp.norp != g)
  {
    assert GroupRpAt(rp, v, x, g) && RpAt(rp, v, NULL);
    if rp.of[g] == NULL && g !in x.loose {
      ChainNeighbours(RpHead(rp, NULL), rp.link, v.rch[NULL], IndexOf(v.rch[NULL], g));
    }
  }

  lemma OffThenOn(rp: RpFields, g: Ptr, r: Ptr)
    requires g in rp.link && g in rp.of && Linked(rp.link[g].prev, rp.link) && Linked(rp.link[g].next, rp.link)
    requires rp.link[g].prev == NULL && rp.of[g] != NULL ==> rp.of[g] in rp.head
    requires r != NULL && r in RpLoose(rp, g).head && Linked(RpHead(RpLoose(rp, g), r), RpLoose(rp, g).link)
    ensures RpOn(RpOff(rp, g), g, r) == RpOn(RpLoose(rp, g), g, r)
  {
  }

  lemma GroupNotNull(l: ListFields, s: seq<Ptr>, nodes: set<Ptr>, g: Ptr)
    requires Listing(l, s, nodes) && g in nodes
    ensures g != NULL
  {
    assert g in NodeSet(s);
  }

  lemma Reattach(m: Memory, v: View, x: Pending, g: Ptr, r: Ptr)
    requires Partial(m, v, x) && g in v.gch && g != At(v.groups, 0) && r in m.rp.head
    requires x.loose <= {g}
    ensures g in m.rp.link && g in m.rp.of && Linked(m.rp.link[g].prev, m.rp.link)
    ensures Linked(m.rp.link[g].next, m.rp.link)
    ensures m.rp.link[g].prev == NULL && m.rp.of[g] != NULL ==> m.rp.of[g] in m.rp.head
    ensures r in RpOff(m.rp, g).head && Linked(RpHead(RpOff(m.rp, g), r), RpOff(m.rp, g).link) && r != NULL
    ensures r in RchOff(v.rch, m.rp.of[g], g)
    ensures Partial(m.(rp := RpOn(RpOff(m.rp, g), g, r)), v.(rch := RchOn(RchOff(v.rch, m.rp.of[g], g), r, g)),
              x.(loose := {}))
    ensures RpOn(RpOff(m.rp, g), g, r).head.Keys == m.rp.head.Keys
  {
    hide Listing, Side, Entries, Routes, RpLess, RpChains, RpGroups, GroupsAllocated, SourcesAllocated,
        EntriesAllocated, Sentinels;
    GroupNotNull(m.gl, v.groups, v.gch.Keys, g);
    Loosen(m, v, x, g);
    var m1, v1, x1 := m.(rp := RpLoose(m.rp, g)), v.(rch := RchOff(v.rch, m.rp.of[g], g)), x.(loose := x.loose + {g});
    Attach(m1, v1, x1, g, r);
    OffThenOn(m.rp, g, r);
    assert x1.loose - {g} == {};
  }

  /** The part of find_route that settles a group's RP: a group without one takes mapping `match`,
      or goes on the RP-less list, unless the caller needs an RP and there is none. */
  method PlaceGroup(t: State, ghost w: Views, g: Ptr, match': Ptr, needRp: bool, ghost x: Pending, ghost ga: Addr)
    returns (ok: bool, t': State, ghost w': Views)
    requires Holds(t, w, x) && GroupListed(t.m, w.v, g, ga) && (match' == NULL || match' in t.m.rp.head)
    requires x == NOTHING || (x == NOTHING.(loose := {g}) && w.v.gch[g] == [] && g in t.m.route && t.m.route[g] == NULL)
    ensures !ok ==> t' == t && w' == w
    ensures ok ==> Holds(t', w', NOTHING) && g in t'.m.rp.of && (needRp ==> t'.m.rp.of[g] != NULL)
    ensures t' == t.(m := t.m.(rp := t'.m.rp)) && w' == w.(v := w.v.(rch := w'.v.rch))
    ensures t'.m.rp.head.Keys == t.m.rp.head.Keys
    ensures !ok <==> g in t.m.rp.of && t.m.rp.of[g] == NULL && match' == NULL && needRp
  {
    hide Listing, Side, Entries, Routes, RpSide, RpLess, GroupsAllocated, SourcesAllocated, EntriesAllocated,
        Sentinels, KernelCache.Ok, Mirrored;
    ok, t', w' := true, t, w;
    GroupNotNull(t.m.gl, w.v.groups, w.v.gch.Keys, g);
    OnWhichChain(t.m.rp, w.v, x, g);
    if t.m.rp.of[g] != NULL {
      LooseOf(t.m.rp, w.v, x, g);
      return;
    }
    if match' == NULL && needRp { return false, t, w; }
    if match' == NULL {
      if t.m.rp.link[g].prev == NULL && t.m.rp.norp != g {
        assert RpLessAt(t.m.ent, t.m.route, w.v.gch, g);
        Attach(t.m, w.v, x, g, NULL);
        assert x.(loose := x.loose - {g}) == NOTHING;
        t', w' := t.(m := t.m.(rp := RpOn(t.m.rp, g, NULL))), w.(v := w.v.(rch := RchOn(w.v.rch, NULL, g)));
        MirroredSame(t.m.ent, w.v, w.c, w'.v, w.c);
      }
      return;
    }
    Reattach(t.m, w.v, x, g, match');
    t', w' := t.(m := t.m.(rp := RpOn(RpOff(t.m.rp, g), g, match'))),
        w.(v := w.v.(rch := RchOn(RchOff(w.v.rch, t.m.rp.of[g], g), match', g)));
    MirroredSame(t.m.ent, w.v, w.c, w'.v, w.c);
  }

  lemma LooseOf(rp: RpFields, v: View, x: Pending, g: Ptr)
    requires RpSide(rp, v, x) && g in v.gch && g != At(v.groups, 0) && g in rp.of && rp.of[g] != NULL
    ensures g !in x.loose
  {
    assert GroupRpAt(rp, v, x, g);
  }

  // ----- what changes while find_route is at work

  /** Entry `f` is as it was, MRTF_RP aside. */
  ghost predicate KeptAt(ent: EntryFields, v: View, ent': EntryFields, v': View, f: Ptr) {
    && f in ent.grp && f in ent'.grp && ent'.grp[f] == ent.grp[f]
    && f in ent.src && f in ent'.src && ent'.src[f] == ent.src[f]
    && f in ent.flags && f in ent'.flags && ent'.flags[f] + {RP} == ent.flags[f] + {RP}
    && (f in v.gkey ==> f in v'.gkey && v'.gkey[f] == v.gkey[f])
    && (f in v.skey ==> f in v'.skey && v'.skey[f] == v.skey[f])
  }

  ghost predicate EntriesKept(ent: EntryFields, v: View, ent': EntryFields, v': View, lost: set<Ptr>) {
    forall f {:trigger KeptAt(ent, v, ent', v', f)} :: f in ent.grp ==>
      if f in lost then f !in ent'.grp else KeptAt(ent, v, ent', v', f)
  }

  /** The entries of `lost` are gone, those of `fresh'` may have come, and the others are as they were;
      without a loss no kernel call is made and what is mirrored stays. */
  ghost predicate Evolved(t: State, w: Views, t': State, w': Views, fresh': set<Ptr>, lost: set<Ptr>) {
    && t'.m.ent.grp.Keys <= t.m.ent.grp.Keys + fresh'
    && EntriesKept(t.m.ent, w.v, t'.m.ent, w'.v, lost)
    && t'.m.rp.head.Keys == t.m.rp.head.Keys
    && At(w'.v.groups, 0) == At(w.v.groups, 0) && At(w'.v.sources, 0) == At(w.v.sources, 0)
    && (lost == {} ==> t'.calls == t.calls && Pairs(t'.c, w'.c) == Pairs(t.c, w.c))
  }

  /** Every pair mirrored by some entry. */
  ghost function Pairs(c: KernelCache.Memory, v: KernelCache.View): set<KernelCache.Key> {
    set e, k | e in v.list && k in KernelCache.Keys(c, v, e) :: k
  }

  lemma KeptTrans(a: EntryFields, va: View, b: EntryFields, vb: View, c: EntryFields, vc: View, lost1: set<Ptr>,
        lost2: set<Ptr>)
    requires EntriesKept(a, va, b, vb, lost1) && EntriesKept(b, vb, c, vc, lost2)
    requires forall f :: f in c.grp && f in lost1 ==> f in b.grp
    ensures EntriesKept(a, va, c, vc, lost1 + lost2)
  {
    forall f | f in a.grp
      ensures if f in lost1 + lost2 then f !in c.grp else KeptAt(a, va, c, vc, f)
    {
      var kept, kept' := KeptAt(a, va, b, vb, f), KeptAt(b, vb, c, vc, f);
    }
  }

  lemma EvolvedTrans(t0: State, w0: Views, t1: State, w1: Views, t2: State, w2: Views, a: set<Ptr>, b: set<Ptr>,
        lost1: set<Ptr>, lost2: set<Ptr>)
    requires Evolved(t0, w0, t1, w1, a, lost1) && Evolved(t1, w1, t2, w2, b, lost2) && lost1 !! b
    ensures Evolved(t0, w0, t2, w2, a + b, lost1 + lost2)
    ensures lost1 == {} ==> Evolved(t0, w0, t2, w2, a + b, lost2)
  {
    assert lost1 == {} ==> lost1 + lost2 == lost2;
    KeptTrans(t0.m.ent, w0.v, t1.m.ent, w1.v, t2.m.ent, w2.v, lost1, lost2);
  }

  lemma SameEvolved(t: State, w: Views, t': State, w': Views, x: Pending)
    requires Holds(t, w, x) && SameEntries(t, w, t', w')
    ensures Evolved(t, w, t', w', {}, {})
  {
    forall f | f in t.m.ent.grp ensures KeptAt(t.m.ent, w.v, t'.m.ent, w'.v, f) {}
  }

  lemma PairsWithEmpty(c: KernelCache.Memory, v: KernelCache.View, e: Ptr, v': KernelCache.View, head: map<Ptr, Ptr>)
    requires e !in v.list && v'.list == v.list[e := []]
    ensures Pairs(c.(head := head), v') == Pairs(c, v)
  {
    var c' := c.(head := head);
    forall f, k | f in v.list && k in KernelCache.Keys(c, v, f) ensures k in Pairs(c', v') {
      assert f in v'.list && k in KernelCache.Keys(c', v', f);
    }
    forall f, k | f in v'.list && k in KernelCache.Keys(c', v', f) ensures k in Pairs(c, v) {
      assert f in v.list && k in KernelCache.Keys(c, v, f);
    }
  }

  lemma AddedKept(m: Memory, v: View, v': View, e: Ptr, g: Ptr, s: Ptr, flags: set<Flag>, ga: Addr, sa: Addr)
    requires EntriesAllocated(m) && e !in m.ent.grp && v'.gkey == v.gkey[e := ga] && v'.skey == v.skey[e := sa]
    ensures EntriesKept(m.ent, v, EntryAdded(m, e, g, s, flags).ent, v', {})
  {
    forall f | f in m.ent.grp ensures KeptAt(m.ent, v, EntryAdded(m, e, g, s, flags).ent, v', f) {}
  }

  /** A new entry changes nothing for the others. */
  lemma AddedEvolved(t: State, w: Views, t': State, w': Views, x: Pending, e: Ptr, g: Ptr, s: Ptr, flags: set<Flag>,
        ga: Addr, sa: Addr)
    requires Holds(t, w, x) && e !in t.m.ent.grp && e !in w.c.list
    requires t'.m.ent == EntryAdded(t.m, e, g, s, flags).ent && t'.m.rp == t.m.rp
    requires t'.c == t.c.(head := t.c.head[e := NULL]) && t'.calls == t.calls
    requires w'.v.gkey == w.v.gkey[e := ga] && w'.v.skey == w.v.skey[e := sa] && w'.v.groups == w.v.groups
    requires w'.v.sources == w.v.sources
    requires w'.c.list == w.c.list[e := []]
    ensures Evolved(t, w, t', w', {e}, {})
  {
    hide KernelCache.Ok, Mirrored, Pairs, EntriesKept, Listing, Side, Entries, Routes, RpSide, RpLess,
        GroupsAllocated, SourcesAllocated, Sentinels;
    AddedKept(t.m, w.v, w'.v, e, g, s, flags, ga, sa);
    PairsWithEmpty(t.c, w.c, e, w'.c, t.c.head[e := NULL]);
  }

  // ----- the mirrors of a new entry

  lemma MovedPairs(c: KernelCache.Memory, v: KernelCache.View, c': KernelCache.Memory, v': KernelCache.View, e: Ptr,
        wc: Ptr)
    requires KernelCache.OthersKeep(c, v, c', v', {e, wc}) && v'.list.Keys == v.list.Keys && e in v.list && wc in v.list
    requires KernelCache.Keys(c', v', e) + KernelCache.Keys(c', v', wc) ==
              KernelCache.Keys(c, v, e) + KernelCache.Keys(c, v, wc)
    ensures Pairs(c', v') == Pairs(c, v)
  {
    forall f, k | f in v.list && k in KernelCache.Keys(c, v, f) ensures k in Pairs(c', v') {
      if f == e || f == wc {
        assert k in KernelCache.Keys(c', v', e) || k in KernelCache.Keys(c', v', wc);
      } else {
        assert KernelCache.SameKeys(c, v, c', v', f);
      }
    }
    forall f, k | f in v'.list && k in KernelCache.Keys(c', v', f) ensures k in Pairs(c, v) {
      if f == e || f == wc {
        assert k in KernelCache.Keys(c, v, e) || k in KernelCache.Keys(c, v, wc);
      } else {
        assert KernelCache.SameKeys(c, v, c', v', f);
      }
    }
  }

  lemma EntryOwners(m: Memory, v: View, e: Ptr)
    requires Partial(m, v, NOTHING) && e in m.ent.grp
    ensures InPlace(m, v, e) && m.ent.grp[e] in m.gl.addr && e in m.ent.iif
    ensures SG in m.ent.flags[e] ==>
              m.ent.src[e] in m.sl.addr && IsPair(m.ent, v, e, m.sl.addr[m.ent.src[e]], m.gl.addr[m.ent.grp[e]])
    ensures RouteAt(m.ent, m.route, m.ent.grp[e])
    ensures (m.route[m.ent.grp[e]] != NULL ==> m.route[m.ent.grp[e]] in m.ent.iif)
  {
    EntryPlace(m, v, NOTHING, e);
    assert EntryAt(m.ent, m.route, m.gl.addr, m.sl.addr, v, NOTHING, e);
    assert RouteAt(m.ent, m.route, m.ent.grp[e]);
  }

  lemma MirrorOf(ent: EntryFields, v: View, c: KernelCache.View, e: Ptr)
    requires Mirrored(ent, v, c) && e in ent.grp
    ensures e in c.list && MirrorAt(ent, v, c.own, e)
  {
  }

  /** move_kernel_cache: what the (S,G) and its (*,G) mirror between them stays the same. */
  method CacheMove(t: State, ghost w: Views, e: Ptr, force: bool) returns (t': State, ghost w': Views)
    requires Holds(t, w, NOTHING) && e in t.m.ent.grp
    ensures Holds(t', w', NOTHING) && t'.m == t.m && t'.calls == t.calls && w'.v == w.v
    ensures Pairs(t'.c, w'.c) == Pairs(t.c, w.c)
    ensures SG !in t.m.ent.flags[e] ==> t' == t && w' == w
  {
    hide Partial, KernelCache.Ok, Mirrored, Pairs;
    t', w' := t, w;
    EntryOwners(t.m, w.v, e);
    if SG !in t.m.ent.flags[e] { return; }
    var wc := t.m.route[t.m.ent.grp[e]];
    if wc == NULL { return; }
    MirrorOf(t.m.ent, w.v, w.c, e);
    MirrorOf(t.m.ent, w.v, w.c, wc);
    var pair := KernelCache.Key(t.m.sl.addr[t.m.ent.src[e]], t.m.gl.addr[t.m.ent.grp[e]]);
    var c', cv' := KernelCache.Move(t.c, w.c, e, true, pair, wc, t.m.ent.iif[wc] == t.m.ent.iif[e], force);
    MovedPairs(t.c, w.c, c', cv', e, wc);
    MirroredSame(t.m.ent, w.v, w.c, w.v, cv');
    t', w' := t.(c := c'), w.(c := cv');
  }

  // ----- find_route

  lemma SetKept(ent: EntryFields, v: View, e: Ptr, iif: map<Ptr, int>, flags: set<Flag>)
    requires ent.grp.Keys == ent.src.Keys == ent.flags.Keys && e in ent.flags && flags + {RP} == ent.flags[e] + {RP}
    ensures EntriesKept(ent, v, ent.(flags := ent.flags[e := flags], iif := iif), v, {})
  {
    forall f | f in ent.grp ensures KeptAt(ent, v, ent.(flags := ent.flags[e := flags], iif := iif), v, f) {}
  }

  lemma MirroredFlags(ent: EntryFields, v: View, c: KernelCache.View, e: Ptr, iif: map<Ptr, int>, flags: set<Flag>)
    requires Mirrored(ent, v, c) && e in ent.flags && (SG in flags <==> SG in ent.flags[e])
    ensures Mirrored(ent.(flags := ent.flags[e := flags], iif := iif), v, c)
  {
    var ent' := ent.(flags := ent.flags[e := flags], iif := iif);
    forall f | f in ent'.grp ensures MirrorAt(ent', v, c.own, f) { assert MirrorAt(ent, v, c.own, f); }
  }

  /** The incoming interface an entry gets, and MRTF_RP with it where the caller asks. */
  method SetEntry(t: State, ghost w: Views, e: Ptr, iif: int, rp: bool) returns (t': State)
    requires Holds(t, w, NOTHING) && e in t.m.ent.grp && e in t.m.ent.flags
    requires rp ==> t.m.ent.grp[e] in t.m.route && t.m.route[t.m.ent.grp[e]] != NULL
    ensures Holds(t', w, NOTHING)
    ensures t'.m == t.m.(ent := t.m.ent.(flags := t'.m.ent.flags, iif := t'.m.ent.iif)) && t'.c == t.c
    ensures t'.calls == t.calls
    ensures t'.m.ent.flags == t.m.ent.flags[e := if rp then t.m.ent.flags[e] + {RP} else t.m.ent.flags[e]]
    ensures t'.m.ent.iif == t.m.ent.iif[e := iif]
    ensures Evolved(t, w, t', w, {}, {})
  {
    hide Partial, Mirrored, KernelCache.Ok, Pairs, EntriesKept, KernelCache.Paired;
    var flags := if rp then t.m.ent.flags[e] + {RP} else t.m.ent.flags[e];
    EntryOwners(t.m, w.v, e);
    WildPlace(t.m, w.v, NOTHING, t.m.ent.grp[e]);
    SetFlags(t.m, w.v, NOTHING, e, flags);
    SetIif(Flagged(t.m, e, flags), w.v, NOTHING, e, iif);
    t' := t.(m := t.m.(ent := t.m.ent.(flags := t.m.ent.flags[e := flags], iif := t.m.ent.iif[e := iif])));
    MirroredFlags(t.m.ent, w.v, w.c, e, t'.m.ent.iif, flags);
    EntryKeys(t.m, w.v, NOTHING);
    SetKept(t.m.ent, w.v, e, t'.m.ent.iif, flags);
  }

  lemma EntryKeys(m: Memory, v: View, x: Pending)
    requires Partial(m, v, x)
    ensures m.ent.grp.Keys == m.ent.src.Keys == m.ent.flags.Keys == m.ent.iif.Keys
  {
  }

  /** A still new (S,G) has the incoming interface of its (*,G), with MRTF_RP, where the caller asked
      for the shared tree and there is a (*,G); else that of its source, unless it has MRTF_RP. */
  ghost predicate Incoming(m: Memory, e: Ptr, g: Ptr, s: Ptr, rp: bool) {
    && e in m.ent.flags && e in m.ent.iif && g in m.route && s in m.srcIif
    && (NEW in m.ent.flags[e] && rp && m.route[g] != NULL ==>
          RP in m.ent.flags[e] && m.route[g] in m.ent.iif && m.ent.iif[e] == m.ent.iif[m.route[g]])
    && (NEW in m.ent.flags[e] && !(rp && m.route[g] != NULL) && RP !in m.ent.flags[e] ==> m.ent.iif[e] == m.srcIif[s])
  }

  /** The end of find_route for an (S,G): a new one takes the incoming interface of its (*,G), with
      MRTF_RP, or that of its source, and the mirror its (*,G) had for it. */
  method SetupPair(t: State, ghost w: Views, g: Ptr, s: Ptr, e: Ptr, rp: bool, ghost ga: Addr, ghost sa: Addr)
    returns (t': State, ghost w': Views)
    requires Holds(t, w, NOTHING) && GroupListed(t.m, w.v, g, ga) && SourceListed(t.m, w.v, s, sa)
    requires IsPair(t.m.ent, w.v, e, sa, ga) && OfGroup(t.m.ent, e, g)
    ensures Holds(t', w', NOTHING) && IsPair(t'.m.ent, w'.v, e, sa, ga)
    ensures Evolved(t, w, t', w', {}, {}) && Incoming(t'.m, e, g, s, rp) && OfGroup(t'.m.ent, e, g)
    ensures e in t.m.ent.flags && e in t'.m.ent.flags && (NEW in t.m.ent.flags[e] ==> NEW in t'.m.ent.flags[e])
    ensures t'.m == t.m.(ent := t'.m.ent) && w'.v == w.v
  {
    hide Partial, Mirrored, KernelCache.Ok, Pairs, EntriesKept, KernelCache.Paired;
    t', w' := t, w;
    EntryOwners(t.m, w.v, e);
    SourceKeys(t.m, w.v, NOTHING);
    assert SameEntries(t, w, t', w');
    SameEvolved(t, w, t, w, NOTHING);
    if NEW !in t.m.ent.flags[e] { return; }
    var wc := t.m.route[g];
    if wc != NULL && rp {
      t' := SetEntry(t, w, e, t.m.ent.iif[wc], true);
    } else if RP !in t.m.ent.flags[e] {
      t' := SetEntry(t, w, e, t.m.srcIif[s], false);
    }
    t', w' := CacheMove(t', w, e, false);
  }

  lemma SourceKeys(m: Memory, v: View, x: Pending)
    requires Partial(m, v, x)
    ensures m.srcIif.Keys == m.sl.addr.Keys
  {
  }

  // ----- giving up

  lemma FilledWithoutGroup(m: Memory, v: View, g: Ptr, ss: set<Ptr>, m': Memory, v': View, gone: set<Ptr>)
    requires Filled(m, v, {g}, ss) && v'.gch == v.gch - {g} && m'.route == m.route - {g}
    requires Lose(v.sch, v'.sch, gone, {})
    requires At(v'.groups, 0) == At(v.groups, 0) && At(v'.sources, 0) == At(v.sources, 0)
    ensures Filled(m', v', {}, ss)
  {
  }

  lemma FilledGroup(m: Memory, v: View, g: Ptr, ss: set<Ptr>)
    requires Filled(m, v, {g}, ss) && g in v.gch && (v.gch[g] != [] || (g in m.route && m.route[g] != NULL))
    ensures Filled(m, v, {}, ss)
  {
  }

  /** Losing nothing, no owner goes and no chain empties or fills. */
  lemma LoseNone(ch: Chains, ch': Chains)
    requires Lose(ch, ch', {}, {})
    ensures ch'.Keys == ch.Keys && forall y :: y in ch ==> (ch'[y] == [] <==> ch[y] == [])
  {
    forall y | y in ch ensures y in ch' && (ch'[y] == [] <==> ch[y] == []) {
      if y in ch' && ch[y] != [] { assert On(ch, y, ch[y][0]); }
      if y !in ch' { assert On(ch, y, ch[y][0]); }
      if y in ch' && ch'[y] != [] { assert On(ch', y, ch'[y][0]); }
    }
  }

  lemma MinusKept(ent: EntryFields, v: View, r: Ptr, v': View, lost: set<Ptr>)
    requires ent.grp.Keys == ent.src.Keys == ent.flags.Keys && v'.gkey == v.gkey && v'.skey == v.skey
    requires r in ent.grp ==> r in lost
    requires lost <= {r}
    ensures EntriesKept(ent, v, EntMinus(ent, {r}), v', lost)
  {
    forall f | f in ent.grp && f != r ensures KeptAt(ent, v, EntMinus(ent, {r}), v', f) {}
  }

  /** What giving up on group `g` takes with it: its (*,G), if that is still new and the group has no
      (S,G). */
  ghost function Forfeit(m: Memory, v: View, g: Ptr): set<Ptr> {
    if g in v.gch && v.gch[g] == [] && g in m.route && m.route[g] in m.ent.flags && NEW in m.ent.flags[m.route[g]]
    then {m.route[g]}
    else {}
  }

  lemma SettleLoose(m: Memory, v: View, g: Ptr, x: Pending)
    requires Partial(m, v, x) && (x == NOTHING || x == NOTHING.(loose := {g})) && g !in v.gch
    ensures Partial(m, v, NOTHING)
  {
    Settle(m, v, x, NOTHING);
  }

  /** delete_grpentry of a group that has no (S,G), its (*,G), if any, still new. */
  method DropGroup(t: State, ghost w: Views, g: Ptr, ghost x: Pending, ghost ss: set<Ptr>)
    returns (t': State, ghost w': Views)
    requires Holds(t, w, x) && (x == NOTHING || x == NOTHING.(loose := {g})) && Filled(t.m, w.v, {g}, ss)
    requires g in w.v.gch && g != At(w.v.groups, 0) && w.v.gch[g] == [] && g in t.m.route
    requires t.m.route[g] != NULL ==> t.m.route[g] in t.m.ent.flags && NEW in t.m.ent.flags[t.m.route[g]]
    ensures Holds(t', w', NOTHING) && Filled(t'.m, w'.v, {}, ss)
    ensures Evolved(t, w, t', w', {}, Forfeit(t.m, w.v, g)) && Paired(t, t')
    ensures w'.v.sch.Keys == w.v.sch.Keys && forall y :: y in w.v.sch ==> (w'.v.sch[y] == [] <==> w.v.sch[y] == [])
  {
    hide Partial, Mirrored, KernelCache.Ok, Pairs, EntriesKept, KernelCache.Paired, Lose, Filled;
    EntryKeys(t.m, w.v, x);
    NoNullKey(t.m, w.v, x);
    RpKeys(t.m, w.v, x);
    t', w' := DeleteGroup(t, w, g, x);
    RpKeys(t'.m, w'.v, x);
    ghost var r := t.m.route[g];
    assert NodeSet(w.v.gch[g]) == {} && {} + {r} == {r};
    LoseNone(w.v.sch, w'.v.sch);
    FilledWithoutGroup(t.m, w.v, g, ss, t'.m, w'.v, {});
    MinusKept(t.m.ent, w.v, r, w'.v, Forfeit(t.m, w.v, g));
    SettleLoose(t'.m, w'.v, g, x);
  }

  lemma RpKeys(m: Memory, v: View, x: Pending)
    requires Partial(m, v, x)
    ensures m.rp.head.Keys == v.rch.Keys - {NULL}
  {
  }

  lemma NoNullKey(m: Memory, v: View, x: Pending)
    requires Partial(m, v, x)
    ensures NULL !in m.ent.grp
  {
    NoNull(m.ent, m.route, m.gl.addr, m.sl.addr, v, x);
  }

  /** Giving up on a group: it goes if it has no (S,G) and no (*,G), or one that is still new. */
  method GiveUpGroup(t: State, ghost w: Views, g: Ptr, ghost ss: set<Ptr>, ghost ga: Addr)
    returns (t': State, ghost w': Views)
    requires Holds(t, w, NOTHING) && Filled(t.m, w.v, {g}, ss) && GroupListed(t.m, w.v, g, ga)
    ensures Holds(t', w', NOTHING) && Filled(t'.m, w'.v, {}, ss)
    ensures Evolved(t, w, t', w', {}, Forfeit(t.m, w.v, g)) && Paired(t, t')
    ensures w'.v.sch.Keys == w.v.sch.Keys && forall y :: y in w.v.sch ==> (w'.v.sch[y] == [] <==> w.v.sch[y] == [])
  {
    hide Partial, Mirrored, KernelCache.Ok, Pairs, EntriesKept, KernelCache.Paired, Filled;
    t', w' := t, w;
    WildPlace(t.m, w.v, NOTHING, g);
    ChainHead(t.m, w.v, NOTHING, g);
    if (t.m.route[g] == NULL || NEW in t.m.ent.flags[t.m.route[g]]) && t.m.gs.heads[g] == NULL {
      t', w' := DropGroup(t, w, g, NOTHING, ss);
    } else {
      FilledGroup(t.m, w.v, g, ss);
      PairedSame(t);
      assert SameEntries(t, w, t', w');
      SameEvolved(t, w, t', w', NOTHING);
    }
  }

  lemma FilledWithoutSource(m: Memory, v: View, s: Ptr, m': Memory, v': View)
    requires Filled(m, v, {}, {s}) && v'.sch == v.sch - {s} && v'.gch == v.gch && m'.route == m.route
    requires At(v'.groups, 0) == At(v.groups, 0) && At(v'.sources, 0) == At(v.sources, 0)
    ensures Filled(m', v', {}, {})
  {
  }

  lemma FilledSource(m: Memory, v: View, s: Ptr)
    requires Filled(m, v, {}, {s}) && s in v.sch && v.sch[s] != []
    ensures Filled(m, v, {}, {})
  {
  }

  lemma SourceHead(m: Memory, v: View, x: Pending, s: Ptr)
    requires Partial(m, v, x) && s in v.sch
    ensures s in m.ss.heads && (m.ss.heads[s] == NULL <==> v.sch[s] == [])
  {
    assert SideAt(SSide(m.ss, m.ent), v.gkey, v.sch, s);
  }

  /** Giving up on a source: it goes if it has no entry. */
  method GiveUpSource(t: State, ghost w: Views, s: Ptr) returns (t': State, ghost w': Views)
    requires Holds(t, w, NOTHING) && Filled(t.m, w.v, {}, {s}) && s in w.v.sch && s != At(w.v.sources, 0)
    ensures Holds(t', w', NOTHING) && Filled(t'.m, w'.v, {}, {})
    ensures Evolved(t, w, t', w', {}, {}) && Paired(t, t')
  {
    hide Partial, Mirrored, KernelCache.Ok, Pairs, EntriesKept, KernelCache.Paired, Filled;
    t', w' := t, w;
    PairedSame(t);
    SourceHead(t.m, w.v, NOTHING, s);
    if t.m.ss.heads[s] == NULL {
      t', w' := DeleteSource(t, w, s, NOTHING);
      FilledWithoutSource(t.m, w.v, s, t'.m, w'.v);
    } else {
      FilledSource(t.m, w.v, s);
    }
    assert SameEntries(t, w, t', w');
    SameEvolved(t, w, t', w', NOTHING);
  }

  // ----- the three parts of find_route that create

  /** The invariant of the routing table between operations. */
  ghost predicate Good(t: State, w: Views) {
    Holds(t, w, NOTHING) && Filled(t.m, w.v, {}, {})
  }

  /** Group `g`, at work on, is listed under its address and may be the one group with no entry. */
  ghost predicate AtWork(t: State, w: Views, g: Ptr, ga: Addr) {
    Holds(t, w, NOTHING) && GroupListed(t.m, w.v, g, ga) && Filled(t.m, w.v, {g}, {})
  }

  lemma ReplacedSame(t0: State, w0: Views, t1: State, w1: Views, t2: State, w2: Views)
    requires SameEntries(t0, w0, t1, w1) && SameEntries(t1, w1, t2, w2)
    ensures SameEntries(t0, w0, t2, w2)
  {
  }

  lemma FilledAnyRp(m: Memory, v: View, rp: RpFields, rch: Chains, gs: set<Ptr>, ss: set<Ptr>)
    requires Filled(m, v, gs, ss)
    ensures Filled(m.(rp := rp), v.(rch := rch), gs, ss)
  {
  }

  /** A group of address `ga` cannot be had: there is none and no memory for one, or it must have an RP
      and has none, nor is there one to match. */
  ghost predicate GroupRefused(m: Memory, v: View, ga: Addr, p: Ptr, match': Ptr, needRp: bool) {
    || (Unlisted(m, v, ga) && p == NULL)
    || (needRp && match' == NULL && RpLessGroup(m, v, ga))
  }

  /** No group of address `ga` has an RP. */
  ghost predicate RpLessGroup(m: Memory, v: View, ga: Addr) {
    forall g :: GroupListed(m, v, g, ga) ==> g in m.rp.of && m.rp.of[g] == NULL
  }

  /** What refusing a group comes to, whether it is listed or not. */
  lemma RefusedIs(m: Memory, v: View, ga: Addr, p: Ptr, match': Ptr, needRp: bool, g: Ptr)
    requires Partial(m, v, NOTHING)
    ensures GroupListed(m, v, g, ga) ==>
              && g in m.rp.of
              && (GroupRefused(m, v, ga, p, match', needRp) <==> needRp && match' == NULL && m.rp.of[g] == NULL)
    ensures Unlisted(m, v, ga) ==>
              (GroupRefused(m, v, ga, p, match', needRp) <==> p == NULL || (needRp && match' == NULL))
  {
    if GroupListed(m, v, g, ga) {
      assert GroupRpAt(m.rp, v, NOTHING, g);
      forall h | GroupListed(m, v, h, ga) ensures h == g { ListedOnce(m.gl, v.groups, v.gch.Keys, g, h); }
    }
  }

  /** The group of address `ga`, made if need be and settled with an RP or without. */
  method MakeGroup(t: State, ghost w: Views, first: Ptr, ga: Addr, p: Ptr, match': Ptr, needRp: bool)
    returns (t': State, ghost w': Views, g: Ptr, ok: bool)
    requires Good(t, w) && first == At(w.v.groups, 0) && (p != NULL ==> p !in t.m.gl.addr)
    requires (match' == NULL || match' in t.m.rp.head)
    ensures Evolved(t, w, t', w', {}, {}) && Paired(t, t') && (ok ==> t'.m.ent == t.m.ent)
    ensures g in t.m.gl.addr ==> t.m.gl.addr[g] == ga
    ensures !ok <==> GroupRefused(t.m, w.v, ga, p, match', needRp)
    ensures !ok ==> Good(t', w')
    ensures !ok ==> forall f :: !IsWild(t.m.ent, t.m.gl.addr, f, ga)
    ensures ok ==> GroupsStay(t.m, w.v, t'.m, w'.v)
    ensures ok ==> AtWork(t', w', g, ga) && g in t'.m.rp.of && (needRp ==> t'.m.rp.of[g] != NULL)
    ensures ok ==> SameSources(t, w, t', w')
  {
    hide Partial, Mirrored, KernelCache.Ok, Pairs, EntriesKept, KernelCache.Paired, Filled, GroupRefused, Unlisted;
    ghost var x;
    t', w', g, x := CreateGroup(t, w, first, ga, p);
    RefusedIs(t.m, w.v, ga, p, match', needRp, g);
    PairedSame(t);
    NullGroup(t.m, w.v);
    if g == NULL {
      SameEvolved(t, w, t', w', NOTHING);
      return t', w', g, false;
    }
    ghost var t1, w1 := t', w';
    WildPlace(t'.m, w'.v, x, g);
    ChainHead(t'.m, w'.v, x, g);
    ok, t', w' := PlaceGroup(t', w', g, match', needRp, x, ga);
    if ok {
      FilledAnyRp(t1.m, w1.v, t'.m.rp, w'.v.rch, {g}, {});
      assert SameEntries(t1, w1, t', w');
      ReplacedSame(t, w, t1, w1, t', w');
      SameEvolved(t, w, t', w', NOTHING);
      return;
    }
    SameEvolved(t, w, t1, w1, NOTHING);
    forall f ensures !IsWild(t.m.ent, t.m.gl.addr, f, ga) {
      if g in t.m.gl.addr && IsWild(t.m.ent, t.m.gl.addr, f, ga) { TheWild(t.m, w.v, g, ga, f); }
    }
    NoForfeit(t1.m, w1.v, x, g);
    if t'.m.gs.heads[g] == NULL && t'.m.route[g] == NULL {
      t', w' := DropGroup(t', w', g, x, {});
      EvolvedTrans(t, w, t1, w1, t', w', {}, {}, {}, {});
    } else {
      FilledGroup(t'.m, w'.v, g, {});
    }
  }

  /** A group without a (*,G) forfeits nothing. */
  lemma NoForfeit(m: Memory, v: View, x: Pending, g: Ptr)
    requires Partial(m, v, x)
    ensures g in m.route && m.route[g] == NULL ==> Forfeit(m, v, g) == {}
  {
    NoNullKey(m, v, x);
    EntryKeys(m, v, x);
  }

  lemma NullSource(m: Memory, v: View)
    requires Partial(m, v, NOTHING)
    ensures NULL !in m.sl.addr
  {
    if NULL in v.sch { GroupNotNull(m.sl, v.sources, v.sch.Keys, NULL); }
  }

  lemma NullGroup(m: Memory, v: View)
    requires Partial(m, v, NOTHING)
    ensures NULL !in m.gl.addr
  {
    if NULL in v.gch { GroupNotNull(m.gl, v.groups, v.gch.Keys, NULL); }
  }

  lemma FilledWild(m: Memory, v: View, m': Memory, v': View, g: Ptr, e: Ptr)
    requires Filled(m, v, {g}, {}) && g in v.gch && e != NULL && m'.route == m.route[g := e]
    requires v'.gch == v.gch && v'.sch == v.sch && v'.groups == v.groups && v'.sources == v.sources
    ensures Filled(m', v', {}, {})
  {
  }

  /** The (*,G) of group `g`, made if need be; a new one takes the incoming interface of the RP. */
  method MakeWild(t: State, ghost w: Views, g: Ptr, p: Ptr, rpIif: int, ghost ga: Addr)
    returns (t': State, ghost w': Views, e: Ptr)
    requires AtWork(t, w, g, ga) && g in t.m.rp.of && t.m.rp.of[g] != NULL && (p != NULL ==> p !in t.m.ent.grp)
    ensures Good(t', w') && Evolved(t, w, t', w', {p}, {}) && Paired(t, t')
    ensures e != NULL ==> AtWork(t', w', g, ga) && IsWild(t'.m.ent, t'.m.gl.addr, e, ga) && SameSources(t, w, t', w')
    ensures e != NULL ==> e in t'.m.ent.iif && (NEW in t'.m.ent.flags[e] ==> t'.m.ent.iif[e] == rpIif)
    ensures e == NULL <==> p == NULL && g in t.m.route && t.m.route[g] == NULL
    ensures e != NULL ==>
              t'.m.gl == t.m.gl && w'.v.gch == w.v.gch && (p in t'.m.ent.grp && p !in t.m.ent.grp ==> e == p)
    ensures e != NULL && e !in t.m.ent.grp ==> NEW in t'.m.ent.flags[e]
  {
    hide Partial, Mirrored, KernelCache.Ok, Pairs, EntriesKept, KernelCache.Paired, Filled;
    t', w', e := CreateWild(t, w, g, p, ga);
    PairedSame(t);
    if e == NULL {
      NoForfeit(t.m, w.v, NOTHING, g);
      t', w' := GiveUpGroup(t, w, g, {}, ga);
      return;
    }
    if t.m.route[g] != NULL {
      WildPlace(t.m, w.v, NOTHING, g);
      FilledGroup(t.m, w.v, g, {});
      assert SameEntries(t, w, t', w');
      SameEvolved(t, w, t', w', NOTHING);
    } else {
      AddedEvolved(t, w, t', w', NOTHING, e, g, NULL, {WC, RP, NEW}, ga, 0);
      FilledWild(t.m, w.v, t'.m, w'.v, g, e);
    }
    ghost var t1 := t';
    if NEW in t'.m.ent.flags[e] {
      t' := SetEntry(t', w', e, rpIif, false);
      FilledAnyEntries(t1.m, w'.v, t'.m.ent);
      EvolvedTrans(t, w, t1, w', t', w', {p}, {}, {}, {});
      t', w' := CacheMove(t', w', e, false);
    }
    EntryKeys(t'.m, w'.v, NOTHING);
    FilledButGroup(t'.m, w'.v, g);
  }

  lemma FilledAnyEntries(m: Memory, v: View, ent: EntryFields)
    requires Filled(m, v, {}, {})
    ensures Filled(m.(ent := ent), v, {}, {})
  {
  }

  lemma FilledButGroup(m: Memory, v: View, g: Ptr)
    requires Filled(m, v, {}, {})
    ensures Filled(m, v, {g}, {})
  {
  }

  lemma FilledPair(m: Memory, v: View, m': Memory, v': View, g: Ptr, s: Ptr)
    requires Filled(m, v, {g}, {s}) && m'.route == m.route && v'.groups == v.groups && v'.sources == v.sources
    requires NonEmpty(v'.gch, g) && v'.gch == v.gch[g := v'.gch[g]]
    requires NonEmpty(v'.sch, s) && v'.sch == v.sch[s := v'.sch[s]]
    ensures Filled(m', v', {}, {})
  {
  }

  /** source_resolve, `answer` being what set_incoming says. */
  method Resolve(t: State, ghost w: Views, s: Ptr, answer: Option, ghost sa: Addr) returns (t': State, ok: bool)
    requires Holds(t, w, NOTHING) && SourceListed(t.m, w.v, s, sa)
    ensures Holds(t', w, NOTHING) && t' == t.(m := t.m.(srcIif := t'.m.srcIif))
    ensures s in t.m.srcIif && (ok <==> t.m.srcIif[s] != NO_VIF || answer.Some?)
    ensures t'.m.srcIif == if t.m.srcIif[s] == NO_VIF && answer.Some? then t.m.srcIif[s := answer.iif] else t.m.srcIif
  {
    SourceKeys(t.m, w.v, NOTHING);
    if t.m.srcIif[s] != NO_VIF { return t, true; }
    SetSourceIif(t.m, w.v, s, if answer.Some? then answer.iif else NO_VIF);
    if answer.Some? { return t.(m := t.m.(srcIif := t.m.srcIif[s := answer.iif])), true; }
    assert t.m.srcIif[s := NO_VIF] == t.m.srcIif;
    return t.(m := t.m.(srcIif := t.m.srcIif[s := NO_VIF])), false;
  }

  lemma SetSourceIif(m: Memory, v: View, s: Ptr, iif: int)
    requires Partial(m, v, NOTHING) && s in m.srcIif
    ensures Partial(m.(srcIif := m.srcIif[s := iif]), v, NOTHING)
  {
    assert m.srcIif[s := iif].Keys == m.srcIif.Keys;
  }

  /** A source of address `sa` has no incoming interface, or would be made without. */
  ghost predicate NoRoute(m: Memory, v: View, sa: Addr, incoming: Option) {
    if NoSource(m, v, sa) then incoming.None? || incoming.iif == NO_VIF
    else forall s :: SourceListed(m, v, s, sa) ==> s in m.srcIif && m.srcIif[s] == NO_VIF
  }

  /** A source cannot be had: there is none and no memory or route to make one, or it has no route and
      finds none, where the entry is not for the shared tree. */
  ghost predicate SourceRefused(m: Memory, v: View, sa: Addr, rp: bool, srcPtr: Ptr, incoming: Option, answer: Option) {
    || (NoSource(m, v, sa) && (srcPtr == NULL || (!rp && incoming.None?)))
    || (!rp && NoRoute(m, v, sa, incoming) && answer.None?)
  }

  /** An (S,G) cannot be had: its source cannot, or there is no entry and no memory for one. */
  ghost predicate PairRefused(m: Memory, v: View, sa: Addr, ga: Addr, rp: bool, srcPtr: Ptr, incoming: Option,
        answer: Option, p: Ptr) {
    SourceRefused(m, v, sa, rp, srcPtr, incoming, answer) || (NoPairOf(m.ent, v, sa, ga) && p == NULL)
  }

  lemma SamePairs(ent: EntryFields, v: View, v': View, sa: Addr, ga: Addr)
    requires v'.gkey == v.gkey && v'.skey == v.skey
    ensures NoPairOf(ent, v', sa, ga) <==> NoPairOf(ent, v, sa, ga)
  {
    assert forall f :: IsPair(ent, v', f, sa, ga) <==> IsPair(ent, v, f, sa, ga);
  }

  lemma RouteOfListed(m: Memory, v: View, s: Ptr, sa: Addr, incoming: Option)
    requires Partial(m, v, NOTHING) && SourceListed(m, v, s, sa)
    ensures s in m.srcIif && !NoSource(m, v, sa) && (NoRoute(m, v, sa, incoming) <==> m.srcIif[s] == NO_VIF)
  {
    SourceKeys(m, v, NOTHING);
    forall r | SourceListed(m, v, r, sa) ensures r == s { ListedOnce(m.sl, v.sources, v.sch.Keys, s, r); }
  }

  /** The source of address `sa`, made if need be, and with a route where it must have one. */
  method ReadySource(t: State, ghost w: Views, g: Ptr, first: Ptr, sa: Addr, rp: bool, srcPtr: Ptr, incoming: Option,
        answer: Option, ghost ga: Addr)
    returns (t': State, ghost w': Views, s: Ptr, ok: bool)
    requires AtWork(t, w, g, ga) && first == At(w.v.sources, 0) && (srcPtr != NULL ==> srcPtr !in t.m.sl.addr)
    ensures !ok <==> SourceRefused(t.m, w.v, sa, rp, srcPtr, incoming, answer)
    ensures !ok ==> Good(t', w') && Evolved(t, w, t', w', {}, Forfeit(t.m, w.v, g)) && Paired(t, t')
    ensures ok ==> Holds(t', w', NOTHING) && GroupListed(t'.m, w'.v, g, ga) && SourceListed(t'.m, w'.v, s, sa)
    ensures ok ==> Filled(t'.m, w'.v, {g}, {s}) && SameEntries(t, w, t', w') && Evolved(t, w, t', w', {}, {})
    ensures ok ==> t'.m.gl == t.m.gl && Forfeit(t'.m, w'.v, g) == Forfeit(t.m, w.v, g)
  {
    hide Partial, Mirrored, KernelCache.Ok, Pairs, EntriesKept, KernelCache.Paired, Filled, NoSource;
    t', w', s := CreateSource(t, w, first, sa, rp, incoming, srcPtr, {g});
    if s in t.m.sl.addr { RouteOfListed(t.m, w.v, s, sa, incoming); }
    SameEvolved(t, w, t', w', NOTHING);
    ok := true;
    if s == NULL {
      t', w' := GiveUpGroup(t, w, g, {}, ga);
      return t', w', NULL, false;
    }
    if rp { return; }
    ghost var t1, w1 := t', w';
    t', ok := Resolve(t', w', s, answer, sa);
    FilledAnyIif(t1.m, w1.v, t'.m.srcIif, {g}, {s});
    assert SameEntries(t, w, t', w');
    SameEvolved(t, w, t', w', NOTHING);
    if !ok { t', w' := GiveUp(t, w, t', w', g, s, ga, sa); }
  }

  /** The (S,G) of source address `sa` and group `g`, made if need be, its source too. */
  method MakePair(t: State, ghost w: Views, g: Ptr, first: Ptr, sa: Addr, rp: bool, srcPtr: Ptr, incoming: Option,
        answer: Option, p: Ptr, ghost ga: Addr)
    returns (t': State, ghost w': Views, e: Ptr)
    requires AtWork(t, w, g, ga) && first == At(w.v.sources, 0)
    requires (srcPtr != NULL ==> srcPtr !in t.m.sl.addr) && (p != NULL ==> p !in t.m.ent.grp)
    ensures Good(t', w') && Evolved(t, w, t', w', {p}, if e == NULL then Forfeit(t.m, w.v, g) else {})
    ensures (e == NULL ==> Paired(t, t'))
    ensures e != NULL ==> IsPair(t'.m.ent, w'.v, e, sa, ga) && t'.m.gl == t.m.gl && OfGroup(t'.m.ent, e, g)
    ensures e != NULL ==> exists s :: SourceListed(t'.m, w'.v, s, sa) && Incoming(t'.m, e, g, s, rp)
    ensures e == NULL <==> PairRefused(t.m, w.v, sa, ga, rp, srcPtr, incoming, answer, p)
    ensures e != NULL && e !in t.m.ent.grp ==> NEW in t'.m.ent.flags[e]
  {
    hide Partial, Mirrored, KernelCache.Ok, Pairs, EntriesKept, KernelCache.Paired, Filled, NoPairOf,
        SourceRefused;
    var s, ok;
    t', w', s, ok := ReadySource(t, w, g, first, sa, rp, srcPtr, incoming, answer, ga);
    if !ok { return t', w', NULL; }
    ghost var t2, w2 := t', w';
    SamePairs(t.m.ent, w.v, w2.v, sa, ga);
    t', w', e := EnterPair(t', w', g, s, rp, p, ga, sa);
    if e == NULL {
      t', w' := GiveUp(t, w, t', w', g, s, ga, sa);
      return t', w', NULL;
    }
    EvolvedTrans(t, w, t2, w2, t', w', {}, {p}, {}, {});
  }

  /** The (S,G) of a group and a source that are there, made if need be and set up. */
  method EnterPair(t: State, ghost w: Views, g: Ptr, s: Ptr, rp: bool, p: Ptr, ghost ga: Addr, ghost sa: Addr)
    returns (t': State, ghost w': Views, e: Ptr)
    requires Holds(t, w, NOTHING) && GroupListed(t.m, w.v, g, ga) && SourceListed(t.m, w.v, s, sa)
    requires Filled(t.m, w.v, {g}, {s})
    requires p != NULL ==> p !in t.m.ent.grp
    ensures e == NULL ==> t' == t && w' == w
    ensures e == NULL <==> NoPairOf(t.m.ent, w.v, sa, ga) && p == NULL
    ensures e != NULL ==> Good(t', w') && Evolved(t, w, t', w', {p}, {}) && t'.m.gl == t.m.gl
    ensures e != NULL ==> IsPair(t'.m.ent, w'.v, e, sa, ga) && OfGroup(t'.m.ent, e, g)
    ensures e != NULL ==> SourceListed(t'.m, w'.v, s, sa) && Incoming(t'.m, e, g, s, rp)
    ensures e != NULL && e !in t.m.ent.grp ==> NEW in t'.m.ent.flags[e]
  {
    hide Partial, Mirrored, KernelCache.Ok, Pairs, EntriesKept, KernelCache.Paired, Filled, Incoming;
    var panic;
    t', w', e, panic := CreatePair(t, w, g, s, p, ga, sa);
    if e == NULL { return; }
    PairEvolved(t, w, t', w', e, g, s, p, ga, sa);
    ghost var t1, w1 := t', w';
    t', w' := SetupPair(t', w', g, s, e, rp, ga, sa);
    EvolvedTrans(t, w, t1, w1, t', w', {p}, {}, {}, {});
    FilledAnyEntries(t1.m, w1.v, t'.m.ent);
  }

  lemma FilledAnyIif(m: Memory, v: View, iif: map<Ptr, int>, gs: set<Ptr>, ss: set<Ptr>)
    requires Filled(m, v, gs, ss)
    ensures Filled(m.(srcIif := iif), v, gs, ss)
  {
  }

  lemma PairEvolved(t: State, w: Views, t': State, w': Views, e: Ptr, g: Ptr, s: Ptr, p: Ptr, ga: Addr, sa: Addr)
    requires Holds(t, w, NOTHING) && Filled(t.m, w.v, {g}, {s}) && e != NULL
    requires e in t.m.ent.grp ==> t' == t && w' == w
    requires e !in t.m.ent.grp ==> e == p && PairMade(t, w, t', w', e, g, s, ga, sa)
    requires NonEmpty(w'.v.gch, g) && NonEmpty(w'.v.sch, s)
    ensures Evolved(t, w, t', w', {p}, {}) && Filled(t'.m, w'.v, {}, {})
  {
    hide Partial, Mirrored, KernelCache.Ok, Pairs, EntriesKept, KernelCache.Paired, Filled;
    if e in t.m.ent.grp {
      assert SameEntries(t, w, t', w');
      SameEvolved(t, w, t', w', NOTHING);
      MapSame(w.v.gch, g);
      MapSame(w.v.sch, s);
    } else {
      AddedEvolved(t, w, t', w', NOTHING, e, g, s, {SG, NEW}, ga, sa);
    }
    FilledPair(t.m, w.v, t'.m, w'.v, g, s);
  }

  lemma MapSame(ch: Chains, y: Ptr)
    requires y in ch
    ensures ch == ch[y := ch[y]]
  {
  }

  /** The two deletions of a find_route that has made a group and a source but no entry. */
  method GiveUp(ghost t0: State, ghost w0: Views, t: State, ghost w: Views, g: Ptr, s: Ptr, ghost ga: Addr,
        ghost sa: Addr)
    returns (t': State, ghost w': Views)
    requires Holds(t, w, NOTHING) && GroupListed(t.m, w.v, g, ga) && SourceListed(t.m, w.v, s, sa)
    requires Filled(t.m, w.v, {g}, {s})
    requires Evolved(t0, w0, t, w, {}, {})
    ensures Good(t', w') && Evolved(t0, w0, t', w', {}, Forfeit(t.m, w.v, g)) && Paired(t, t')
  {
    hide Partial, Mirrored, KernelCache.Ok, Pairs, EntriesKept, KernelCache.Paired, Filled;
    t', w' := GiveUpGroup(t, w, g, {s}, ga);
    ghost var lost := Forfeit(t.m, w.v, g);
    EvolvedTrans(t0, w0, t, w, t', w', {}, {}, {}, lost);
    assert {} + lost == lost && lost + {} == lost;
    ghost var t1, w1 := t', w';
    t', w' := GiveUpSource(t', w', s);
    PairedTrans(t, t1, t');
    EvolvedTrans(t0, w0, t1, w1, t', w', {}, {}, lost, {});
  }

  // ----- find_route itself

  /** What the calls out of find_route answer: memory from calloc (NULL for none), rp_grp_match and
      the incoming interface of its RP, set_incoming for a new source, and again in source_resolve. */
  datatype Answers = Answers(groupPtr: Ptr, match': Ptr, rpIif: int, wildPtr: Ptr, sourcePtr: Ptr, incoming: Option,
      resolved: Option, pairPtr: Ptr)

  /** calloc gives memory nothing else lives in, and rp_grp_match a mapping there is. */
  ghost predicate Answerable(m: Memory, a: Answers) {
    && (a.groupPtr != NULL ==> a.groupPtr !in m.gl.addr)
    && (a.match' == NULL || a.match' in m.rp.head)
    && (a.wildPtr != NULL ==> a.wildPtr !in m.ent.grp)
    && (a.sourcePtr != NULL ==> a.sourcePtr !in m.sl.addr)
    && (a.pairPtr != NULL ==> a.pairPtr !in m.ent.grp && a.pairPtr != a.wildPtr)
  }

  /** The entry asked for cannot be had, as the table is and the answers are: not its group, not its
      (*,G) or not its (S,G). */
  ghost predicate Refused(m: Memory, v: View, source: Addr, group: Addr, flags: set<Flag>, a: Answers) {
    || GroupRefused(m, v, group, a.groupPtr, a.match', WC in flags || RP in flags)
    || (WC in flags && a.wildPtr == NULL && NoWildOf(m, group))
    || (SG in flags && RefusesPair(m, v, source, group, flags, a))
  }

  ghost predicate NoWildOf(m: Memory, ga: Addr) {
    forall f :: !IsWild(m.ent, m.gl.addr, f, ga)
  }

  ghost predicate RefusesPair(m: Memory, v: View, source: Addr, group: Addr, flags: set<Flag>, a: Answers) {
    PairRefused(m, v, source, group, RP in flags, a.sourcePtr, a.incoming, a.resolved, a.pairPtr)
  }

  /** Something find_route needs to create the entry asked for is not to be had. */
  predicate Lacking(a: Answers, flags: set<Flag>) {
    || a.groupPtr == NULL
    || (a.match' == NULL && (WC in flags || RP in flags))
    || (WC in flags && a.wildPtr == NULL)
    || (SG in flags &&
        (a.sourcePtr == NULL || a.pairPtr == NULL || (RP !in flags && (a.incoming.None? || a.resolved.None?))))
  }

  lemma RefusedLacks(m: Memory, v: View, source: Addr, group: Addr, flags: set<Flag>, a: Answers)
    requires Refused(m, v, source, group, flags, a)
    ensures Lacking(a, flags)
  {
  }

  lemma NoGroup(m: Memory, v: View, ga: Addr, k: nat, sa: Addr, e: Ptr)
    requires Partial(m, v, NOTHING) && Spot(m.gl, v.groups, k, ga)
    ensures !IsPair(m.ent, v, e, sa, ga) && !IsWild(m.ent, m.gl.addr, e, ga)
  {
    if IsPair(m.ent, v, e, sa, ga) {
      PairPlace(m, v, NOTHING, e, sa, ga);
      NoSuchGroup(m.gl, v.groups, v.gch.Keys, ga, k, m.ent.grp[e]);
    } else if IsWild(m.ent, m.gl.addr, e, ga) {
      EntryPlace(m, v, NOTHING, e);
      NoSuchGroup(m.gl, v.groups, v.gch.Keys, ga, k, m.ent.grp[e]);
    }
  }

  lemma NoSuchGroup(l: ListFields, s: seq<Ptr>, nodes: set<Ptr>, a: Addr, k: nat, g: Ptr)
    requires Listing(l, s, nodes) && Spot(l, s, k, a) && g in nodes && g != s[0]
    ensures g in l.addr && l.addr[g] != a
  {
    assert g in NodeSet(s);
    var i := IndexOf(s, g);
    assert s[i] == g;
  }

  lemma NoPair(m: Memory, v: View, g: Ptr, ga: Addr, sa: Addr, k: nat, e: Ptr)
    requires Partial(m, v, NOTHING) && GroupListed(m, v, g, ga) && ChainPlace(v.gch[g], v.skey, k, sa)
    ensures !IsPair(m.ent, v, e, sa, ga)
  {
    if IsPair(m.ent, v, e, sa, ga) {
      PairPlace(m, v, NOTHING, e, sa, ga);
      ListedOnce(m.gl, v.groups, v.gch.Keys, g, m.ent.grp[e]);
    }
  }

  lemma TheWild(m: Memory, v: View, g: Ptr, ga: Addr, e: Ptr)
    requires Partial(m, v, NOTHING) && GroupListed(m, v, g, ga) && IsWild(m.ent, m.gl.addr, e, ga)
    ensures g in m.route && m.route[g] == e && e != NULL
  {
    EntryPlace(m, v, NOTHING, e);
    NonNullEntry(m, v, NOTHING, e);
    ListedOnce(m.gl, v.groups, v.gch.Keys, g, m.ent.grp[e]);
  }

  /** find_route without creation: the (S,G) of the pair if the caller wants one and there is one,
      else the (*,G) of the group if the caller wants one and there is one. */
  method Lookup(t: State, ghost w: Views, grplist: Ptr, source: Addr, group: Addr, sg: bool, wc: bool) returns (e: Ptr)
    requires Good(t, w) && grplist == At(w.v.groups, 0)
    ensures e != NULL ==>
              (sg && IsPair(t.m.ent, w.v, e, source, group)) || (wc && IsWild(t.m.ent, t.m.gl.addr, e, group))
    ensures forall f :: sg && IsPair(t.m.ent, w.v, f, source, group) ==> e == f
    ensures forall f :: wc && IsWild(t.m.ent, t.m.gl.addr, f, group) ==>
              e == f || (sg && IsPair(t.m.ent, w.v, e, source, group))
  {
    hide Side, Entries, Routes, RpSide, RpLess, GroupsAllocated, SourcesAllocated, EntriesAllocated, Mirrored,
        KernelCache.Ok, Filled, Listing, Spot, ChainPlace, Readable;
    e := NULL;
    if !sg && !wc { return; }
    var found, g, k := SearchList(t.m.gl, grplist, group, w.v.groups, w.v.gch.Keys);
    if !found {
      forall f ensures !IsPair(t.m.ent, w.v, f, source, group) && !IsWild(t.m.ent, t.m.gl.addr, f, group) {
        NoGroup(t.m, w.v, group, k, source, f);
      }
      return;
    }
    GroupReadable(t.m, w.v, NOTHING, g);
    WildPlace(t.m, w.v, NOTHING, g);
    if sg {
      var found', p,
          j := SearchChain(t.m.gs.heads[g], t.m.gs.link, t.m.ent.src, t.m.sl.addr, source, w.v.gch[g], w.v.skey);
      if found' {
        GroupEntry(t.m, w.v, NOTHING, g, p);
        forall f | IsPair(t.m.ent, w.v, f, source, group)
          ensures p == f
        {
          OnePerPair(t.m, w.v, NOTHING, p, f, source, group);
        }
        NonNullEntry(t.m, w.v, NOTHING, p);
        return p;
      }
      forall f ensures !IsPair(t.m.ent, w.v, f, source, group) { NoPair(t.m, w.v, g, group, source, j, f); }
    }
    if wc && t.m.route[g] != NULL { e := t.m.route[g]; }
    forall f | IsWild(t.m.ent, t.m.gl.addr, f, group) ensures f == t.m.route[g] { TheWild(t.m, w.v, g, group, f); }
    NoNullKey(t.m, w.v, NOTHING);
  }

  /** `f` is the (*,G) of the group, still new, and the group has no (S,G). */
  ghost predicate Forfeited(m: Memory, v: View, f: Ptr, ga: Addr) {
    IsWild(m.ent, m.gl.addr, f, ga) && NEW in m.ent.flags[f] && m.ent.grp[f] in v.gch && v.gch[m.ent.grp[f]] == []
  }

  /** The entries there were are as they were, but for exactly the forfeited one if the call gave up. */
  ghost predicate Spared(m: Memory, v: View, ent': EntryFields, v': View, ga: Addr, gaveUp: bool) {
    forall f {:trigger KeptAt(m.ent, v, ent', v', f)} :: f in m.ent.grp ==>
      if gaveUp && Forfeited(m, v, f, ga) then f !in ent'.grp else KeptAt(m.ent, v, ent', v', f)
  }

  lemma NothingLost(t: State, w: Views, t': State, w': Views, new': set<Ptr>, ga: Addr, gaveUp: bool)
    requires Evolved(t, w, t', w', new', {})
    requires gaveUp ==> forall f :: !IsWild(t.m.ent, t.m.gl.addr, f, ga)
    ensures Spared(t.m, w.v, t'.m.ent, w'.v, ga, gaveUp)
  {
    forall f | f in t.m.ent.grp ensures KeptAt(t.m.ent, w.v, t'.m.ent, w'.v, f) {}
  }

  /** What giving up on group `g` loses later is what the state before forfeits. */
  lemma ForfeitIs(t: State, w: Views, t1: State, w1: Views, new': set<Ptr>, g: Ptr, ga: Addr, f: Ptr)
    requires Good(t, w) && Holds(t1, w1, NOTHING) && GroupListed(t1.m, w1.v, g, ga) && f in t.m.ent.grp
    requires Evolved(t, w, t1, w1, new', {}) && GroupsStay(t.m, w.v, t1.m, w1.v)
    ensures f in Forfeit(t1.m, w1.v, g) <==> Forfeited(t.m, w.v, f, ga)
  {
    hide Partial, Mirrored, KernelCache.Ok, Filled, Pairs;
    EntryOwners(t.m, w.v, f);
    NonNullEntry(t.m, w.v, NOTHING, f);
    WildPlace(t1.m, w1.v, NOTHING, g);
    assert KeptAt(t.m.ent, w.v, t1.m.ent, w1.v, f);
    SameFlags(t.m.ent.flags[f], t1.m.ent.flags[f]);
    if IsWild(t.m.ent, t.m.gl.addr, f, ga) { TheWild(t1.m, w1.v, g, ga, f); }
  }

  lemma SameFlags(a: set<Flag>, b: set<Flag>)
    requires b + {RP} == a + {RP}
    ensures (SG in a <==> SG in b) && (NEW in a <==> NEW in b)
  {
    assert SG in a + {RP} <==> SG in b + {RP};
    assert NEW in a + {RP} <==> NEW in b + {RP};
  }

  lemma Concluded(t: State, w: Views, t1: State, w1: Views, t': State, w': Views, new1: set<Ptr>, new': set<Ptr>,
        g: Ptr, ga: Addr)
    requires Good(t, w) && Holds(t1, w1, NOTHING) && GroupListed(t1.m, w1.v, g, ga)
    requires Evolved(t, w, t1, w1, new1, {}) && GroupsStay(t.m, w.v, t1.m, w1.v)
    requires Evolved(t, w, t', w', new', Forfeit(t1.m, w1.v, g))
    ensures Spared(t.m, w.v, t'.m.ent, w'.v, ga, true)
  {
    hide Good, Holds, Forfeit, Forfeited, GroupsStay, Pairs;
    forall f | f in t.m.ent.grp
      ensures if Forfeited(t.m, w.v, f, ga) then f !in t'.m.ent.grp else KeptAt(t.m.ent, w.v, t'.m.ent, w'.v, f)
    {
      ForfeitIs(t, w, t1, w1, new1, g, ga, f);
      var kept := KeptAt(t.m.ent, w.v, t'.m.ent, w'.v, f);
      assert if f in Forfeit(t1.m, w1.v, g) then f !in t'.m.ent.grp else kept;
    }
  }

  /** The addresses are a group's, and for an (S,G) a host's, which only an SSM group does without. */
  predicate Admissible(source: Addr, group: Addr, flags: set<Flag>, ssm: bool) {
    Inet.Multicast(group) && (SG in flags ==> Inet.ValidHost(source) || ssm)
  }

  /** The entry asked for: the (S,G) if the caller wants one, or the (*,G) if they want that. */
  ghost predicate Sought(t: State, w: Views, source: Addr, group: Addr, flags: set<Flag>, e: Ptr) {
    || (SG in flags && IsPair(t.m.ent, w.v, e, source, group))
    || (WC in flags && IsWild(t.m.ent, t.m.gl.addr, e, group))
  }

  /** The entry is as a find_route that may create leaves it: an (S,G) if one was asked for, and a new
      entry with the incoming interface it must have. */
  ghost predicate Made(t: State, w: Views, source: Addr, group: Addr, flags: set<Flag>, rpIif: int, e: Ptr) {
    && (SG in flags ==>
          && IsPair(t.m.ent, w.v, e, source, group)
          && exists g, s ::
               OfGroup(t.m.ent, e, g) && SourceListed(t.m, w.v, s, source) && Incoming(t.m, e, g, s, RP in flags))
    && (SG !in flags ==>
          e in t.m.ent.iif && e in t.m.ent.flags && (NEW in t.m.ent.flags[e] ==> t.m.ent.iif[e] == rpIif))
    && (WC in flags ==> exists f :: IsWild(t.m.ent, t.m.gl.addr, f, group) && (SG !in flags ==> f == e))
  }

  /** What a find_route that may create does, `e` being what it returns. */
  ghost predicate Built(t: State, w: Views, t': State, w': Views, source: Addr, group: Addr, flags: set<Flag>,
        a: Answers, e: Ptr) {
    && (e != NULL ==> Sought(t', w', source, group, flags, e) && Made(t', w', source, group, flags, a.rpIif, e))
    && (e == NULL <==> Refused(t.m, w.v, source, group, flags, a))
    && t'.m.ent.grp.Keys <= t.m.ent.grp.Keys + {a.wildPtr, a.pairPtr}
    && (e != NULL && e !in t.m.ent.grp ==> NEW in t'.m.ent.flags[e])
    && Spared(t.m, w.v, t'.m.ent, w'.v, group, SG in flags && e == NULL)
    && (e != NULL ==> t'.calls == t.calls && Pairs(t'.c, w'.c) == Pairs(t.c, w.c))
    && (e == NULL ==> Paired(t, t'))
  }

  /** What find_route does: without creation the entry asked for, if there is one, and an (S,G) first. */
  ghost predicate Found(t: State, w: Views, t': State, w': Views, source: Addr, group: Addr, flags: set<Flag>,
        create: bool, ssm: bool, a: Answers, e: Ptr) {
    if (SG !in flags && WC !in flags) || !Admissible(source, group, flags, ssm) then e == NULL && t' == t && w' == w
    else if create then Built(t, w, t', w', source, group, flags, a, e)
    else
      && t' == t && w' == w
      && (e != NULL ==> Sought(t, w, source, group, flags, e))
      && (forall f :: Sought(t, w, source, group, flags, f) ==>
            e == f || (SG in flags && IsPair(t.m.ent, w.v, e, source, group)))
  }

  /** find_route: the table's invariant is kept whatever memory, routes and RPs there are, and what
      is returned is the entry asked for. */
  method FindRoute(t: State, ghost w: Views, grplist: Ptr, srclist: Ptr, source: Addr, group: Addr, flags: set<Flag>,
        create: bool, ssm: bool, a: Answers)
    returns (t': State, ghost w': Views, e: Ptr)
    requires Good(t, w) && grplist == At(w.v.groups, 0) && srclist == At(w.v.sources, 0) && Answerable(t.m, a)
    ensures Good(t', w') && At(w'.v.groups, 0) == grplist && At(w'.v.sources, 0) == srclist
    ensures Found(t, w, t', w', source, group, flags, create, ssm, a, e)
    ensures t'.m.ent.grp.Keys <= t.m.ent.grp.Keys + {a.wildPtr, a.pairPtr} && (e != NULL ==> t'.calls == t.calls)
    ensures create && (SG in flags || WC in flags) && Admissible(source, group, flags, ssm) ==>
              (e == NULL <==> Refused(t.m, w.v, source, group, flags, a)) && (e == NULL ==> Lacking(a, flags))
  {
    hide Good, Made, Spared, Pairs, KernelCache.Paired, IsPair, IsWild, Refused;
    t', w', e := t, w, NULL;
    var sg, wc := SG in flags, WC in flags;
    if (sg || wc) && !Inet.Multicast(group) { return; }
    if sg && !Inet.ValidHost(source) && !ssm { return; }
    if !create {
      e := Lookup(t, w, grplist, source, group, sg, wc);
      return;
    }
    if !sg && !wc { return; }
    t', w', e := BuildRoute(t, w, grplist, srclist, source, group, flags, a);
    if e == NULL { RefusedLacks(t.m, w.v, source, group, flags, a); }
  }

  /** The part of find_route that creates. */
  method BuildRoute(t: State, ghost w: Views, grplist: Ptr, srclist: Ptr, source: Addr, group: Addr, flags: set<Flag>,
        a: Answers)
    returns (t': State, ghost w': Views, e: Ptr)
    requires Good(t, w) && grplist == At(w.v.groups, 0) && srclist == At(w.v.sources, 0) && Answerable(t.m, a)
    requires SG in flags || WC in flags
    ensures Good(t', w') && At(w'.v.groups, 0) == grplist && At(w'.v.sources, 0) == srclist
    ensures Built(t, w, t', w', source, group, flags, a, e)
  {
    hide Partial, Mirrored, KernelCache.Ok, Pairs, EntriesKept, KernelCache.Paired, Filled, Spared, Incoming,
        GroupRefused, RefusesPair, NoWildOf;
    var sg, wc, rp := SG in flags, WC in flags, RP in flags;
    e := NULL;
    NoNullKey(t.m, w.v, NOTHING);
    var g, ok;
    t', w', g, ok := MakeGroup(t, w, grplist, group, a.groupPtr, a.match', wc || rp);
    if !ok {
      NothingLost(t, w, t', w', {}, group, sg);
      return;
    }
    if !wc {
      t', w', e := BuildPair(t, w, t', w', g, srclist, source, group, flags, a);
      return;
    }
    ghost var t1, w1 := t', w';
    t', w', e := MakeWild(t', w', g, a.wildPtr, a.rpIif, group);
    PairedTrans(t, t1, t');
    EvolvedTrans(t, w, t1, w1, t', w', {}, {a.wildPtr}, {}, {});
    WildBefore(t, w, t1, w1, g, group);
    NothingLost(t, w, t', w', {a.wildPtr}, group, sg && e == NULL);
    if e == NULL || !sg { return; }
    t', w', e := BuildPair(t, w, t', w', g, srclist, source, group, flags, a);
  }

  /** The group has a (*,G) once it is settled exactly if it had one. */
  lemma WildBefore(t: State, w: Views, t1: State, w1: Views, g: Ptr, ga: Addr)
    requires Good(t, w) && Holds(t1, w1, NOTHING) && GroupListed(t1.m, w1.v, g, ga)
    requires t1.m.ent == t.m.ent && GroupsStay(t.m, w.v, t1.m, w1.v)
    ensures g in t1.m.route && (t1.m.route[g] == NULL <==> NoWildOf(t.m, ga))
    ensures NoWildOf(t.m, ga) ==> forall f :: !IsWild(t.m.ent, t.m.gl.addr, f, ga)
  {
    hide Partial, Mirrored, KernelCache.Ok, Filled;
    WildPlace(t1.m, w1.v, NOTHING, g);
    forall f ensures IsWild(t.m.ent, t.m.gl.addr, f, ga) ==> t1.m.route[g] == f && f != NULL {
      if IsWild(t.m.ent, t.m.gl.addr, f, ga) { TheWild(t1.m, w1.v, g, ga, f); }
    }
    var r := t1.m.route[g];
    if r != NULL {
      EntryOwners(t.m, w.v, r);
      assert IsWild(t.m.ent, t.m.gl.addr, r, ga);
    }
  }

  /** A new (*,G) is no entry of a pair. */
  lemma PairsBefore(t: State, w: Views, t1: State, w1: Views, new': Ptr, sa: Addr, ga: Addr)
    requires Good(t, w) && Evolved(t, w, t1, w1, {new'}, {})
    requires new' in t1.m.ent.grp && new' !in t.m.ent.grp ==> IsWild(t1.m.ent, t1.m.gl.addr, new', ga)
    ensures NoPairOf(t1.m.ent, w1.v, sa, ga) <==> NoPairOf(t.m.ent, w.v, sa, ga)
  {
    hide Partial, Mirrored, KernelCache.Ok, Filled, Pairs;
    forall f ensures IsPair(t1.m.ent, w1.v, f, sa, ga) <==> IsPair(t.m.ent, w.v, f, sa, ga) {
      var kept := KeptAt(t.m.ent, w.v, t1.m.ent, w1.v, f);
      if f in t.m.ent.grp {
        EntryOwners(t.m, w.v, f);
        SameFlags(t.m.ent.flags[f], t1.m.ent.flags[f]);
      }
    }
  }

  /** While only the group is worked on, the (S,G) is refused or not as it was. */
  lemma SameRefusal(t: State, w: Views, t1: State, w1: Views, source: Addr, group: Addr, flags: set<Flag>, a: Answers)
    requires SameSources(t, w, t1, w1)
    requires NoPairOf(t1.m.ent, w1.v, source, group) <==> NoPairOf(t.m.ent, w.v, source, group)
    ensures RefusesPair(t1.m, w1.v, source, group, flags, a) <==> RefusesPair(t.m, w.v, source, group, flags, a)
  {
    hide NoPairOf;
    assert forall s :: SourceListed(t1.m, w1.v, s, source) <==> SourceListed(t.m, w.v, s, source);
  }

  lemma WildStays(t: State, w: Views, t': State, w': Views, f: Ptr, ga: Addr)
    requires EntriesKept(t.m.ent, w.v, t'.m.ent, w'.v, {}) && IsWild(t.m.ent, t.m.gl.addr, f, ga) && t'.m.gl == t.m.gl
    ensures IsWild(t'.m.ent, t'.m.gl.addr, f, ga)
  {
    assert KeptAt(t.m.ent, w.v, t'.m.ent, w'.v, f);
    SameFlags(t.m.ent.flags[f], t'.m.ent.flags[f]);
  }

  lemma PairBefore(t: State, w: Views, t': State, w': Views, e: Ptr)
    requires EntriesKept(t.m.ent, w.v, t'.m.ent, w'.v, {}) && e in t'.m.ent.flags && SG in t'.m.ent.flags[e]
    ensures e in t.m.ent.grp ==> e in t.m.ent.flags && SG in t.m.ent.flags[e]
  {
    if e in t.m.ent.grp {
      assert KeptAt(t.m.ent, w.v, t'.m.ent, w'.v, e);
      SameFlags(t.m.ent.flags[e], t'.m.ent.flags[e]);
    }
  }

  /** The end of find_route for an (S,G), `t0` being the table find_route was called on. */
  method BuildPair(ghost t0: State, ghost w0: Views, t: State, ghost w: Views, g: Ptr, srclist: Ptr, source: Addr,
        group: Addr, flags: set<Flag>, a: Answers)
    returns (t': State, ghost w': Views, e: Ptr)
    requires Good(t0, w0) && AtWork(t, w, g, group) && srclist == At(w.v.sources, 0) && SG in flags
    requires a.sourcePtr != NULL ==> a.sourcePtr !in t.m.sl.addr
    requires a.pairPtr != NULL ==> a.pairPtr !in t.m.ent.grp
    requires Evolved(t0, w0, t, w, {a.wildPtr}, {}) && GroupsStay(t0.m, w0.v, t.m, w.v) && Paired(t0, t)
    requires a.wildPtr in t.m.ent.grp && a.wildPtr !in t0.m.ent.grp ==> IsWild(t.m.ent, t.m.gl.addr, a.wildPtr, group)
    requires WC in flags ==> exists f :: IsWild(t.m.ent, t.m.gl.addr, f, group)
    requires SameSources(t0, w0, t, w)
    requires !GroupRefused(t0.m, w0.v, group, a.groupPtr, a.match', WC in flags || RP in flags)
    requires WC in flags && a.wildPtr == NULL ==> !NoWildOf(t0.m, group)
    ensures Good(t', w') && At(w'.v.groups, 0) == At(w0.v.groups, 0) && At(w'.v.sources, 0) == At(w0.v.sources, 0)
    ensures Built(t0, w0, t', w', source, group, flags, a, e)
  {
    hide Partial, Mirrored, KernelCache.Ok, Pairs, EntriesKept, KernelCache.Paired, Filled, Spared, Incoming,
        GroupsStay, GroupRefused, PairRefused, NoWildOf, NoPairOf;
    PairsBefore(t0, w0, t, w, a.wildPtr, source, group);
    SameRefusal(t0, w0, t, w, source, group, flags, a);
    t', w', e := MakePair(t, w, g, srclist, source, RP in flags, a.sourcePtr, a.incoming, a.resolved, a.pairPtr, group);
    EvolvedTrans(t0, w0, t, w, t', w', {a.wildPtr}, {a.pairPtr}, {}, if e == NULL then Forfeit(t.m, w.v, g) else {});
    if e == NULL {
      PairedTrans(t0, t, t');
      Concluded(t0, w0, t, w, t', w', {a.wildPtr}, {a.wildPtr} + {a.pairPtr}, g, group);
    } else {
      NothingLost(t0, w0, t', w', {a.wildPtr} + {a.pairPtr}, group, false);
      PairBefore(t, w, t', w', e);
      if WC in flags {
        ghost var f :| IsWild(t.m.ent, t.m.gl.addr, f, group);
        WildStays(t, w, t', w', f, group);
      }
    }
  }

  /** Where a (*,G) may be forfeited, its group has an RP and no (S,G). */
  lemma ForfeitedGroup(t: State, w: Views, source: Addr, group: Addr, flags: set<Flag>, a: Answers, f: Ptr)
    requires Good(t, w) && Forfeited(t.m, w.v, f, group)
    ensures !GroupRefused(t.m, w.v, group, a.groupPtr, a.match', WC in flags || RP in flags)
    ensures !NoWildOf(t.m, group) && NoPairOf(t.m.ent, w.v, source, group)
  {
    hide Partial, Mirrored, KernelCache.Ok, Filled;
    var g := t.m.ent.grp[f];
    EntryOwners(t.m, w.v, f);
    NonNullEntry(t.m, w.v, NOTHING, f);
    WildPlace(t.m, w.v, NOTHING, g);
    RefusedIs(t.m, w.v, group, a.groupPtr, a.match', WC in flags || RP in flags, g);
    forall p ensures !IsPair(t.m.ent, w.v, p, source, group) {
      if IsPair(t.m.ent, w.v, p, source, group) {
        PairPlace(t.m, w.v, NOTHING, p, source, group);
        GroupOnce(t.m, w.v, g, t.m.ent.grp[p], group);
      }
    }
  }

  lemma GroupOnce(m: Memory, v: View, g: Ptr, h: Ptr, ga: Addr)
    requires Partial(m, v, NOTHING) && GroupListed(m, v, g, ga) && GroupListed(m, v, h, ga)
    ensures g == h
  {
    ListedOnce(m.gl, v.groups, v.gch.Keys, g, h);
  }

  /** An entry is gone after find_route exactly if the call was to create an (S,G) of admissible
      addresses, the entry is the group's (*,G), still new, in a group without (S,G), and there is no
      memory for the (S,G) or its source cannot be had. */
  lemma LostExactly(t: State, w: Views, t': State, w': Views, source: Addr, group: Addr, flags: set<Flag>,
        create: bool, ssm: bool, a: Answers, e: Ptr, f: Ptr)
    requires Good(t, w) && f in t.m.ent.grp && Found(t, w, t', w', source, group, flags, create, ssm, a, e)
    ensures f !in t'.m.ent.grp <==>
              && create && SG in flags && Admissible(source, group, flags, ssm) && Forfeited(t.m, w.v, f, group)
              && (a.pairPtr == NULL ||
                    SourceRefused(t.m, w.v, source, RP in flags, a.sourcePtr, a.incoming, a.resolved))
  {
    hide Good, Made, Pairs, KernelCache.Paired, Forfeited, SourceRefused, GroupRefused, NoWildOf, NoPairOf;
    var kept := KeptAt(t.m.ent, w.v, t'.m.ent, w'.v, f);
    if Forfeited(t.m, w.v, f, group) { ForfeitedGroup(t, w, source, group, flags, a, f); }
  }
}
