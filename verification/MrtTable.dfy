/** The multicast routing table of the daemon: its global lists, the operations on them, and what
    holds between any two of them. */
module MrtTable {
  import opened Links
  import opened Orthogonal
  import opened MrtModel
  import opened MrtBuild
  import opened Mrt
  import opened MrtFind
  import opened MrtRp
  import KernelCache
  import Inet

  // ----- what the invariant says

  /** The group chains and the source chains hold exactly the (S,G) entries, each on the one chain
      of its group and on the one chain of its source. */
  lemma BothSidesAgree(t: State, w: Views, e: Ptr)
    requires Good(t, w)
    ensures forall g :: On(w.v.gch, g, e) <==>
              e in t.m.ent.grp && e in t.m.ent.flags && SG in t.m.ent.flags[e] && g == t.m.ent.grp[e]
    ensures forall s :: On(w.v.sch, s, e) <==>
              e in t.m.ent.src && e in t.m.ent.flags && SG in t.m.ent.flags[e] && s == t.m.ent.src[e]
  {
    var m, v := t.m, w.v;
    forall g
      ensures On(v.gch, g, e) <==> e in m.ent.grp && e in m.ent.flags && SG in m.ent.flags[e] && g == m.ent.grp[e]
    {
      if On(v.gch, g, e) { GroupEntry(m, v, NOTHING, g, e); }
      if e in m.ent.grp { assert EntryAt(m.ent, m.route, m.gl.addr, m.sl.addr, v, NOTHING, e); }
    }
    forall s
      ensures On(v.sch, s, e) <==> e in m.ent.src && e in m.ent.flags && SG in m.ent.flags[e] && s == m.ent.src[e]
    {
      if On(v.sch, s, e) { assert SideAt(SSide(m.ss, m.ent), v.gkey, v.sch, s); }
      if e in m.ent.grp { assert EntryAt(m.ent, m.route, m.gl.addr, m.sl.addr, v, NOTHING, e); }
    }
  }

  /** A chain holds no entry twice, its links lead through it both ways, and its keys ascend. */
  lemma GroupChainOrdered(t: State, w: Views, g: Ptr, i: nat, j: nat)
    requires Good(t, w) && g in w.v.gch && i < j < |w.v.gch[g]|
    ensures var a, b := w.v.gch[g][i], w.v.gch[g][j];
            && a != b && a in w.v.skey && b in w.v.skey && w.v.skey[a] < w.v.skey[b]
            && a in t.m.gs.link && t.m.gs.link[a] == Link(w.v.gch[g][i + 1], At(w.v.gch[g], i - 1))
  {
    assert SideAt(GSide(t.m.gs, t.m.ent), w.v.skey, w.v.gch, g);
    ChainNeighbours(t.m.gs.heads[g], t.m.gs.link, w.v.gch[g], i);
    ChainDistinct(t.m.gs.heads[g], t.m.gs.link, w.v.gch[g], i, j);
  }

  lemma SourceChainOrdered(t: State, w: Views, s: Ptr, i: nat, j: nat)
    requires Good(t, w) && s in w.v.sch && i < j < |w.v.sch[s]|
    ensures var a, b := w.v.sch[s][i], w.v.sch[s][j];
            && a != b && a in w.v.gkey && b in w.v.gkey && w.v.gkey[a] < w.v.gkey[b]
            && a in t.m.ss.link && t.m.ss.link[a] == Link(w.v.sch[s][i + 1], At(w.v.sch[s], i - 1))
  {
    assert SideAt(SSide(t.m.ss, t.m.ent), w.v.gkey, w.v.sch, s);
    ChainNeighbours(t.m.ss.heads[s], t.m.ss.link, w.v.sch[s], i);
    ChainDistinct(t.m.ss.heads[s], t.m.ss.link, w.v.sch[s], i, j);
  }

  /** An entry's mirrors ascend by group and source, and MRTF_KERNEL_CACHE says whether there are
      any; an (S,G) has at most one, of its own pair. */
  lemma MirrorsOrdered(t: State, w: Views, e: Ptr)
    requires Good(t, w) && e in t.m.ent.grp
    ensures e in w.c.list && KernelCache.Ascending(w.c.list[e], t.c.key)
    ensures e in t.c.cached <==> w.c.list[e] != []
    ensures e in t.m.ent.flags && SG in t.m.ent.flags[e] && w.c.list[e] != [] ==>
              |w.c.list[e]| == 1 && e in w.v.skey && e in w.v.gkey &&
                  t.c.key[w.c.list[e][0]] == KernelCache.Key(w.v.skey[e], w.v.gkey[e])
  {
    MirrorOf(t.m.ent, w.v, w.c, e);
    assert KernelCache.ListOk(t.c, w.c, e) && KernelCache.KindOk(t.c, w.c, e);
  }

  /** A group is on the chain of the mapping it uses, or on the RP-less list, and on no other; on
      the RP-less list it has no (*,G) and no entry on the shared tree. */
  lemma OneRpChain(t: State, w: Views, g: Ptr)
    requires Good(t, w) && g in w.v.gch && g != At(w.v.groups, 0)
    ensures g in t.m.rp.of && forall r :: On(w.v.rch, r, g) <==> r == t.m.rp.of[g]
    ensures t.m.rp.of[g] == NULL ==> g in t.m.route && t.m.route[g] == NULL
    ensures forall e :: t.m.rp.of[g] == NULL && On(w.v.gch, g, e) ==> e in t.m.ent.flags && RP !in t.m.ent.flags[e]
  {
    var m, v := t.m, w.v;
    assert GroupRpAt(m.rp, v, NOTHING, g);
    forall r | On(v.rch, r, g) ensures r == m.rp.of[g] { assert RpAt(m.rp, v, r); }
    if m.rp.of[g] == NULL { assert RpLessAt(m.ent, m.route, v.gch, g); }
  }

  /** No group and no source is left with nothing. */
  lemma NoneLeftEmpty(t: State, w: Views)
    requires Good(t, w)
    ensures forall g :: g in w.v.gch && g != At(w.v.groups, 0) ==>
              (exists e :: On(w.v.gch, g, e)) ||
                  (g in t.m.route && t.m.route[g] in t.m.ent.grp && t.m.ent.grp[t.m.route[g]] == g)
    ensures forall s :: s in w.v.sch && s != At(w.v.sources, 0) ==> exists e :: On(w.v.sch, s, e)
  {
    forall g | g in w.v.gch && g != At(w.v.groups, 0)
      ensures (exists e :: On(w.v.gch, g, e)) ||
                (g in t.m.route && t.m.route[g] in t.m.ent.grp && t.m.ent.grp[t.m.route[g]] == g)
    {
      assert RouteAt(t.m.ent, t.m.route, g);
      if w.v.gch[g] != [] { assert On(w.v.gch, g, w.v.gch[g][0]); }
    }
    forall s | s in w.v.sch && s != At(w.v.sources, 0) ensures exists e :: On(w.v.sch, s, e) {
      assert On(w.v.sch, s, w.v.sch[s][0]);
    }
  }

  // ----- the empty table

  /** What init_pim_mrt makes, the nodes `gp` and `sp` being the unused firsts. */
  function Empty(gp: Ptr, sp: Ptr, mappings: set<Ptr>): State {
    State(Memory(ListFields(map[gp := Link(NULL, NULL)], map[gp := 0]),
                 ListFields(map[sp := Link(NULL, NULL)], map[sp := 0]),
                 SideFields(map[gp := NULL], map[]), SideFields(map[sp := NULL], map[]),
                 EntryFields(map[], map[], map[], map[]), map[gp := NULL],
                 RpFields(map[gp := Link(NULL, NULL)], map[gp := NULL], map r | r in mappings :: NULL, NULL),
                 map[sp := NO_VIF]),
          KernelCache.Memory(map[], {}, map[], map[]), [])
  }

  ghost function EmptyViews(gp: Ptr, sp: Ptr, mappings: set<Ptr>): Views {
    Views(View([gp], [sp], map[gp := []], map[sp := []], map r | r in mappings + {NULL} :: [], map[], map[]),
          KernelCache.View(map[], map[], map[]))
  }

  lemma EmptyLists(gp: Ptr, sp: Ptr, mappings: set<Ptr>)
    requires gp != NULL && sp != NULL && NULL !in mappings
    ensures var m, v := Empty(gp, sp, mappings).m, EmptyViews(gp, sp, mappings).v;
            && Listing(m.gl, v.groups, v.gch.Keys) && Listing(m.sl, v.sources, v.sch.Keys)
            && RpSide(m.rp, v, NOTHING)
  {
    var m, v := Empty(gp, sp, mappings).m, EmptyViews(gp, sp, mappings).v;
    assert NodeSet([gp]) == {gp} == v.gch.Keys && NodeSet([sp]) == {sp} == v.sch.Keys;
    assert v.rch.Keys == m.rp.head.Keys + {NULL};
    forall r | r in v.rch ensures RpAt(m.rp, v, r) {}
  }

  lemma EmptyGood(gp: Ptr, sp: Ptr, mappings: set<Ptr>)
    requires gp != NULL && sp != NULL && NULL !in mappings
    ensures Good(Empty(gp, sp, mappings), EmptyViews(gp, sp, mappings))
  {
    EmptyLists(gp, sp, mappings);
    var m, v := Empty(gp, sp, mappings).m, EmptyViews(gp, sp, mappings).v;
    hide Listing, RpSide;
    assert Side(GSide(m.gs, m.ent), v.skey, v.gch) && Side(SSide(m.ss, m.ent), v.gkey, v.sch);
    assert forall h :: !On(v.rch, NULL, h);
  }

  // ----- the table

  class RoutingTable {
    var t: State
    var grplist: Ptr
    var srclist: Ptr
    ghost var w: Views

    ghost predicate Valid()
      reads this
    {
      Good(t, w) && grplist == At(w.v.groups, 0) && srclist == At(w.v.sources, 0)
    }

    /** init_pim_mrt of a table that was not there before. */
    constructor (gp: Ptr, sp: Ptr, mappings: set<Ptr>)
      requires gp != NULL && sp != NULL && NULL !in mappings
      ensures Valid() && t == Empty(gp, sp, mappings) && grplist == gp && srclist == sp
    {
      t, w, grplist, srclist := Empty(gp, sp, mappings), EmptyViews(gp, sp, mappings), gp, sp;
      EmptyGood(gp, sp, mappings);
    }

    /** find_route */
    method Find(source: Addr, group: Addr, flags: set<Flag>, create: bool, ssm: bool, a: Answers) returns (e: Ptr)
      requires Valid() && Answerable(t.m, a)
      modifies this
      ensures Valid()
      ensures Found(old(t), old(w), t, w, source, group, flags, create, ssm, a, e)
    {
      hide Good, Found;
      var t', e';
      ghost var w';
      t', w', e' := FindRoute(t, w, grplist, srclist, source, group, flags, create, ssm, a);
      t, w, e := t', w', e';
    }

    /** delete_mrtentry */
    method Delete(e: Ptr)
      requires Valid() && e in t.m.ent.grp
      modifies this
      ensures Valid() && t.m.ent == EntMinus(old(t.m.ent), {e}) && Paired(old(t), t)
      ensures InPlace(old(t.m), old(w.v), e) && EntryDeleted(old(t.m), old(w.v), e, t.m, w.v)
    {
      hide Partial, Filled, KernelCache.Ok, Mirrored, KernelCache.Paired, EntMinus;
      var t';
      ghost var w';
      t', w' := DeleteEntry(t, w, e, NOTHING);
      FilledDeleted(t.m, w.v, e, t'.m, w'.v, {}, {});
      t, w := t', w';
    }

    /** delete_grpentry */
    method DeleteOfGroup(g: Ptr)
      requires Valid() && g in w.v.gch && g != grplist
      modifies this
      ensures Valid() && w.v.gch == old(w.v.gch) - {g} && Paired(old(t), t)
      ensures g in old(t.m.route) && t.m.ent == EntMinus(old(t.m.ent), NodeSet(old(w.v.gch)[g]) + {old(t.m.route)[g]})
      ensures Lose(old(w.v.sch), w.v.sch, NodeSet(old(w.v.gch)[g]), {})
    {
      hide Partial, Filled, KernelCache.Ok, Mirrored, KernelCache.Paired, Lose, EntMinus;
      var t';
      ghost var w';
      t', w' := DeleteGroup(t, w, g, NOTHING);
      FilledButGroup(t.m, w.v, g);
      FilledWithoutGroup(t.m, w.v, g, {}, t'.m, w'.v, NodeSet(w.v.gch[g]));
      t, w := t', w';
    }

    /** delete_srcentry */
    method DeleteOfSource(s: Ptr)
      requires Valid() && s in w.v.sch && s != srclist
      modifies this
      ensures Valid() && w.v.sch == old(w.v.sch) - {s} && Paired(old(t), t)
      ensures t.m.ent == EntMinus(old(t.m.ent), NodeSet(old(w.v.sch)[s]))
      ensures Lose(old(w.v.gch), w.v.gch, NodeSet(old(w.v.sch)[s]), Routed(old(t.m.route)))
    {
      hide Partial, KernelCache.Ok, Mirrored, KernelCache.Paired, Lose, EntMinus, Filled;
      var t';
      ghost var w';
      t', w' := DeleteSource(t, w, s, NOTHING);
      FilledLessSource(t.m, w.v, s, t'.m, w'.v, NodeSet(w.v.sch[s]));
      t, w := t', w';
    }

    /** The chains of remap_grpentry, `match'` being what rp_grp_match answers. */
    method RemapGroup(g: Ptr, match': Ptr)
      requires Valid() && g in w.v.gch && g != grplist && (match' == NULL || match' in t.m.rp.head)
      modifies this
      ensures Valid() && Paired(old(t), t)
      ensures match' != NULL ==> w.v.gch == old(w.v.gch) && t.m.ent == old(t.m.ent) && On(w.v.rch, match', g)
      ensures match' == NULL && HasSourceTree(old(w.v.gch)[g], old(t.m.ent.flags)) ==>
                && w.v.gch == old(w.v.gch)[g := SourceTree(old(w.v.gch)[g], old(t.m.ent.flags))]
                && On(w.v.rch, NULL, g) && g in old(t.m.route)
                && t.m.ent ==
                      EntMinus(old(t.m.ent), SharedTree(old(w.v.gch)[g], old(t.m.ent.flags)) + {old(t.m.route)[g]})
      ensures match' == NULL && !HasSourceTree(old(w.v.gch)[g], old(t.m.ent.flags)) ==>
                && w.v.gch == old(w.v.gch) - {g} && g in old(t.m.route)
                && t.m.ent == EntMinus(old(t.m.ent), NodeSet(old(w.v.gch)[g]) + {old(t.m.route)[g]})
    {
      hide Partial, KernelCache.Ok, Mirrored, KernelCache.Paired, SourceTree, SharedTree, HasSourceTree, Filled,
          EntMinus;
      GroupAddr(t.m, w.v, g);
      var t';
      ghost var w';
      t', w' := Remap(t, w, g, match', t.m.gl.addr[g]);
      t, w := t', w';
    }

    /** add_kernel_cache of pair `k` to entry `e`, which for an (S,G) is its own, `p` being memory
        for a mirror. */
    method Mirror(e: Ptr, k: KernelCache.Key, force: bool, p: Ptr)
      requires Valid() && e in t.m.ent.grp && (p != NULL ==> p !in t.c.link)
      requires e in t.m.ent.flags && (SG in t.m.ent.flags[e] ==> IsPair(t.m.ent, w.v, e, k.source, k.group))
      modifies this
      ensures Valid() && t.m == old(t.m) && t.calls == old(t.calls)
      ensures e in w.c.list && (p != NULL ==> k in KernelCache.Keys(t.c, w.c, e))
      ensures Pairs(t.c, w.c) == old(Pairs(t.c, w.c)) + if p != NULL then {k} else {}
    {
      hide Partial, KernelCache.Ok, Mirrored, KernelCache.OthersKeep, KernelCache.Keys, KernelCache.SameKeys, Filled,
          Pairs;
      EntryOwners(t.m, w.v, e);
      MirrorOf(t.m.ent, w.v, w.c, e);
      var sg, wc := SG in t.m.ent.flags[e], t.m.route[t.m.ent.grp[e]];
      if wc != NULL { MirrorOf(t.m.ent, w.v, w.c, wc); }
      var c';
      ghost var cv';
      c', cv' := KernelCache.Add(t.c, w.c, e, sg, k, wc, wc != NULL && t.m.ent.iif[wc] == t.m.ent.iif[e], force, k, p);
      AddedPairs(t.c, w.c, c', cv', e, if sg && wc != NULL then wc else e, wc, if p != NULL then {k} else {});
      MirroredSame(t.m.ent, w.v, w.c, w.v, cv');
      t, w := t.(c := c'), w.(c := cv');
    }

    /** delete_single_kernel_cache_addr of pair `k` from entry `e`. */
    method Unmirror(e: Ptr, k: KernelCache.Key)
      requires Valid() && e in t.m.ent.grp
      modifies this
      ensures Valid() && t.m == old(t.m) && Paired(old(t), t)
      ensures e in old(w.c.list) && e in w.c.list
      ensures KernelCache.OthersKeep(old(t.c), old(w.c), t.c, w.c, {e})
      ensures var was := old(KernelCache.Keys(t.c, w.c, e));
              KernelCache.Keys(t.c, w.c, e) == was - {k} && t.calls == old(t.calls) + if k in was then [k] else []
    {
      hide Partial, KernelCache.Ok, Mirrored, KernelCache.OthersKeep, KernelCache.Keys, KernelCache.Paired, Filled;
      MirrorOf(t.m.ent, w.v, w.c, e);
      var c', calls;
      ghost var cv';
      c', cv', calls := KernelCache.DeletePair(t.c, w.c, e, k);
      KernelCache.PairedAfter(t.c.key, c'.key, t.calls, calls);
      MirroredSame(t.m.ent, w.v, w.c, w.v, cv');
      t, w := t.(c := c', calls := t.calls + calls), w.(c := cv');
    }
  }

  /** The only entry there is, a new (*,G), is what giving up on its group takes. */
  lemma AloneForfeited(t: State, w: Views, e: Ptr, ga: Addr)
    requires Good(t, w) && IsWild(t.m.ent, t.m.gl.addr, e, ga) && NEW in t.m.ent.flags[e]
    requires t.m.ent.grp.Keys <= {e, NULL}
    ensures Forfeited(t.m, w.v, e, ga)
  {
    hide Partial, Mirrored, KernelCache.Ok, Filled;
    EntryOwners(t.m, w.v, e);
    var chain := w.v.gch[t.m.ent.grp[e]];
    if chain != [] {
      BothSidesAgree(t, w, chain[0]);
      assert On(w.v.gch, t.m.ent.grp[e], chain[0]);
      NonNullEntry(t.m, w.v, NOTHING, chain[0]);
    }
  }

  /** A find_route for an (S,G) that finds no memory for its source takes the (*,G) that another
      find_route returned just before. */
  method NewWildTaken() returns (table: RoutingTable, e: Ptr, f: Ptr)
    ensures fresh(table) && table.Valid() && e != NULL && f == NULL && e !in table.t.m.ent.grp
  {
    hide Good, Spared, Pairs, KernelCache.Paired, Incoming, Forfeited, NoPairOf;
    var source, group := 0x0a000001, 0xe1000001;
    table := new RoutingTable(1, 2, {3});
    e := table.Find(source, group, {WC}, true, false, Answers(4, 3, 0, 5, NULL, None, None, NULL));
    ghost var t, w := table.t, table.w;
    assert IsWild(t.m.ent, t.m.gl.addr, e, group) && NEW in t.m.ent.flags[e];
    AloneForfeited(t, w, e, group);
    var none := Answers(NULL, NULL, 0, NULL, NULL, None, None, NULL);
    f := table.Find(source, group, {SG}, true, false, none);
    ForfeitedGroup(t, w, source, group, {SG}, none, e);
    LostExactly(t, w, table.t, table.w, source, group, {SG}, true, false, none, f, e);
  }

  /** An (S,G) that exists is what find_route returns for it, memory or none, but where its source has
      no route and finds none. */
  lemma PairReturned(t: State, w: Views, t': State, w': Views, source: Addr, group: Addr, flags: set<Flag>,
        ssm: bool, a: Answers, e: Ptr, f: Ptr)
    requires Good(t, w) && Good(t', w') && Found(t, w, t', w', source, group, flags, true, ssm, a, e)
    requires SG in flags && WC !in flags && RP !in flags && Admissible(source, group, flags, ssm)
    requires IsPair(t.m.ent, w.v, f, source, group)
    ensures f in t.m.ent.src && t.m.ent.src[f] in t.m.srcIif
    ensures if t.m.srcIif[t.m.ent.src[f]] != NO_VIF || a.resolved.Some? then e == f else e == NULL
  {
    hide Partial, Mirrored, KernelCache.Ok, Filled, Pairs, KernelCache.Paired, Incoming;
    PairPlace(t.m, w.v, NOTHING, f, source, group);
    RouteOfListed(t.m, w.v, t.m.ent.src[f], source, a.incoming);
    RefusedIs(t.m, w.v, group, a.groupPtr, a.match', false, t.m.ent.grp[f]);
    assert e == NULL <==> t.m.srcIif[t.m.ent.src[f]] == NO_VIF && a.resolved.None?;
    if e != NULL {
      assert KeptAt(t.m.ent, w.v, t'.m.ent, w'.v, f);
      SameFlags(t.m.ent.flags[f], t'.m.ent.flags[f]);
      OnePerPair(t'.m, w'.v, NOTHING, e, f, source, group);
    }
  }

  /** Where entry `e`, with `f` or alone, gains the pairs `new'`, so do all entries together. */
  lemma AddedPairs(c: KernelCache.Memory, v: KernelCache.View, c': KernelCache.Memory, v': KernelCache.View, e: Ptr,
        f: Ptr, wc: Ptr, new': set<KernelCache.Key>)
    requires KernelCache.OthersKeep(c, v, c', v', {e, wc}) && v'.list.Keys == v.list.Keys && e in v.list
    requires f in v.list && (f == e || f == wc)
    requires f != wc && wc in v.list && wc != e ==> KernelCache.SameKeys(c, v, c', v', wc)
    requires KernelCache.Keys(c', v', e) + KernelCache.Keys(c', v', f) ==
              KernelCache.Keys(c, v, e) + KernelCache.Keys(c, v, f) + new'
    ensures Pairs(c', v') == Pairs(c, v) + new'
  {
    forall k ensures k in Pairs(c', v') <==> k in Pairs(c, v) + new' {
      if x :| x in v.list && k in KernelCache.Keys(c, v, x) {
        if x != e && x != f { assert KernelCache.SameKeys(c, v, c', v', x); }
        assert k in KernelCache.Keys(c', v', x) || k in KernelCache.Keys(c', v', e) || k in KernelCache.Keys(c', v', f);
      }
      if k in new' { assert k in KernelCache.Keys(c', v', e) || k in KernelCache.Keys(c', v', f); }
      if x :| x in v'.list && k in KernelCache.Keys(c', v', x) {
        if x != e && x != f { assert KernelCache.SameKeys(c, v, c', v', x); }
        assert k in new' || k in KernelCache.Keys(c, v, x) || k in KernelCache.Keys(c, v, e) ||
            k in KernelCache.Keys(c, v, f);
      }
    }
  }

  lemma GroupAddr(m: Memory, v: View, g: Ptr)
    requires Partial(m, v, NOTHING) && g in v.gch
    ensures g in m.gl.addr
  {
  }

  lemma FilledLessSource(m: Memory, v: View, s: Ptr, m': Memory, v': View, gone: set<Ptr>)
    requires Filled(m, v, {}, {}) && v'.sch == v.sch - {s} && Lose(v.gch, v'.gch, gone, Routed(m.route))
    requires forall g :: g in v'.gch ==> g in m'.route && g in m.route && m'.route[g] == m.route[g]
    requires At(v'.groups, 0) == At(v.groups, 0) && At(v'.sources, 0) == At(v.sources, 0)
    ensures Filled(m', v', {}, {})
  {
  }
}
