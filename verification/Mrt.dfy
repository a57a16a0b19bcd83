/** The routing table's deletes: an entry, a group and a source, each taking with it what it leaves
    with nothing, so that delete_grpentry and delete_srcentry call each other. */
module Mrt {
  import opened Links
  import opened Orthogonal
  import opened MrtModel
  import opened MrtSteps
  import KernelCache

  /** Every entry has a list of kernel cache mirrors, and an (S,G)'s own pair is its addresses. */
  ghost predicate MirrorAt(ent: EntryFields, v: View, own: map<Ptr, KernelCache.Key>, e: Ptr) {
    && e in ent.flags
    && (e in own <==> SG in ent.flags[e])
    && (e in own ==> e in v.gkey && e in v.skey && own[e] == KernelCache.Key(v.skey[e], v.gkey[e]))
  }

  ghost predicate Mirrored(ent: EntryFields, v: View, c: KernelCache.View) {
    && c.list.Keys == ent.grp.Keys
    && forall e {:trigger MirrorAt(ent, v, c.own, e)} :: e in ent.grp ==> MirrorAt(ent, v, c.own, e)
  }

  function EntMinus(ent: EntryFields, gone: set<Ptr>): EntryFields {
    EntryFields(ent.grp - gone, ent.src - gone, ent.flags - gone, ent.iif - gone)
  }

  /** The chains `ch` are `ch0` without the entries of `gone`; an owner that is no longer there had
      no other entry, and none is left with nothing unless `spare` keeps it or it had nothing. */
  ghost predicate Lose(ch0: Chains, ch: Chains, gone: set<Ptr>, spare: set<Ptr>) {
    && ch.Keys <= ch0.Keys
    && (forall y, e :: On(ch, y, e) <==> y in ch && On(ch0, y, e) && e !in gone)
    && (forall y, e :: y !in ch && On(ch0, y, e) ==> e in gone)
    && (forall y :: y in ch0 && y !in ch ==> ch0[y] != [] && y !in spare)
    && (forall y :: y in ch && ch[y] == [] ==> ch0[y] == [] || y in spare)
  }

  lemma LoseNothing(ch: Chains, spare: set<Ptr>)
    ensures Lose(ch, ch, {}, spare)
  {
  }

  /** One more entry gone, its owner too if it was the last. */
  lemma LoseOne(ch0: Chains, ch: Chains, gone: set<Ptr>, spare: set<Ptr>, y: Ptr, e: Ptr, ch': Chains)
    requires Lose(ch0, ch, gone, spare) && On(ch, y, e)
    requires forall z, p :: On(ch[y := Minus(ch[y], e)], z, p) <==> On(ch, z, p) && p != e
    requires ch' == if Minus(ch[y], e) == [] && y !in spare then ch - {y} else ch[y := Minus(ch[y], e)]
    ensures Lose(ch0, ch', gone + {e}, spare)
  {
    var c := ch[y := Minus(ch[y], e)];
    forall z, p ensures On(ch', z, p) <==> z in ch' && On(ch0, z, p) && p !in gone + {e} {
      assert z in ch' ==> ch'[z] == c[z];
      assert On(c, z, p) <==> On(ch, z, p) && p != e;
    }
    forall z, p | z !in ch' && On(ch0, z, p) ensures p in gone + {e} {
      assert On(c, z, p) <==> On(ch, z, p) && p != e;
    }
    assert On(ch0, y, e);
  }

  lemma MirroredFreed(ent: EntryFields, v: View, c: KernelCache.View, e: Ptr)
    requires Mirrored(ent, v, c)
    ensures Mirrored(EntMinus(ent, {e}), v, c.(list := c.list - {e}, own := c.own - {e}))
  {
    var ent', c' := EntMinus(ent, {e}), c.(list := c.list - {e}, own := c.own - {e});
    forall f | f in ent'.grp ensures MirrorAt(ent', v, c'.own, f) { assert MirrorAt(ent, v, c.own, f); }
  }

  lemma MirroredSame(ent: EntryFields, v: View, c: KernelCache.View, v': View, c': KernelCache.View)
    requires Mirrored(ent, v, c) && c'.list.Keys == c.list.Keys && c'.own == c.own && v'.gkey == v.gkey
    requires v'.skey == v.skey
    ensures Mirrored(ent, v', c')
  {
    forall f | f in ent.grp ensures MirrorAt(ent, v', c'.own, f) { assert MirrorAt(ent, v, c.own, f); }
  }

  /** The table and its kernel cache mirrors, with the k_del_mfc made so far. */
  datatype State = State(m: Memory, c: KernelCache.Memory, calls: seq<KernelCache.Key>)

  datatype Views = Views(v: View, c: KernelCache.View)

  /** The invariant, up to what the operation in progress has taken out of its place. */
  ghost predicate Holds(t: State, w: Views, x: Pending) {
    && Partial(t.m, w.v, x)
    && KernelCache.Ok(t.c, w.c)
    && Mirrored(t.m.ent, w.v, w.c)
  }

  /** Every mirror gone between two states is one k_del_mfc made. */
  ghost predicate Paired(t: State, t': State) {
    KernelCache.Paired(t.c.key, t.calls, t'.c.key, t'.calls)
  }

  lemma PairedSame(t: State)
    ensures Paired(t, t)
  {
    KernelCache.PairedSame(t.c.key, t.calls);
  }

  lemma PairedTrans(t0: State, t1: State, t2: State)
    requires Paired(t0, t1) && Paired(t1, t2)
    ensures Paired(t0, t2)
  {
    KernelCache.PairedTrans(t0.c.key, t0.calls, t1.c.key, t1.calls, t2.c.key, t2.calls);
  }

  /** delete_mrtentry_all_kernel_cache, for an entry about to go. */
  method Uncache(t: State, ghost w: Views, e: Ptr, ghost x: Pending) returns (t': State, ghost w': Views)
    requires Holds(t, w, x) && e in t.m.ent.grp
    ensures Holds(t', w', x) && e !in t'.c.cached
    ensures t'.m == t.m && w'.v == w.v
    ensures e in w.c.list && t'.calls == t.calls + KernelCache.KeySeq(w.c.list[e], t.c.key) && Paired(t, t')
  {
    hide KernelCache.Paired;
    var c', cv', calls := KernelCache.DeleteAll(t.c, w.c, e);
    KernelCache.ListPaired(t.c, w.c, e, t.calls);
    MirroredSame(t.m.ent, w.v, w.c, w.v, cv');
    t', w' := State(t.m, c', t.calls + calls), Views(w.v, cv');
  }

  /** FREE_MRTENTRY of an entry off its chains. */
  method FreeEntry(t: State, ghost w: Views, e: Ptr, ghost x: Pending, ghost x': Pending)
    returns (t': State, ghost w': Views)
    requires Holds(t, w, x') && e in t.m.ent.grp && e !in t.c.cached && OffBoth(w.v, e)
    requires forall g :: g in w.v.gch && g in t.m.route ==> t.m.route[g] != e
    requires x' == x.(offG := x'.offG, offS := x'.offS)
    requires x.offG <= x'.offG <= x.offG + {e} && x.offS <= x'.offS <= x.offS + {e}
    ensures Holds(t', w', x)
    ensures t'.m == EntryFreed(t.m, e) && w'.v == w.v && t'.calls == t.calls && t'.c.key == t.c.key
  {
    KernelCache.EntryGone(t.c, w.c, e);
    MirroredFreed(t.m.ent, w.v, w.c, e);
    MrtSteps.FreeEntry(t.m, w.v, x', e);
    Settle(EntryFreed(t.m, e), w.v, x', x);
    t' := t.(m := EntryFreed(t.m, e), c := t.c.(head := t.c.head - {e}));
    w' := w.(c := w.c.(list := w.c.list - {e}, own := w.c.own - {e}));
  }

  lemma UpdateThenRemove(ch: Chains, y: Ptr, s: seq<Ptr>)
    ensures ch[y := s] - {y} == ch - {y}
  {
  }

  /** The step of delete_grpentry that takes one of the dying group's entries off its source's
      chain, with the source if it was the last. */
  method DropFromSource(t: State, ghost w: Views, e: Ptr, ghost x: Pending) returns (t': State, ghost w': Views)
    requires Holds(t, w, x) && e in t.m.ent.grp && SG in t.m.ent.flags[e] && e in x.offG && e !in x.offS
    ensures Holds(t', w', x)
    ensures t'.m.ent == EntMinus(t.m.ent, {e}) && t'.m.gs == t.m.gs.(link := t.m.gs.link - {e})
    ensures t'.m.gl == t.m.gl && t'.m.route == t.m.route && t'.m.rp == t.m.rp
    ensures w'.v == w.v.(sch := w'.v.sch, sources := w'.v.sources)
    ensures At(w'.v.sources, 0) == At(w.v.sources, 0)
    ensures var s := t.m.ent.src[e];
            && On(w.v.sch, s, e)
            && (forall y, p :: On(w.v.sch[s := Minus(w.v.sch[s], e)], y, p) <==> On(w.v.sch, y, p) && p != e)
            && w'.v.sch == if Minus(w.v.sch[s], e) == [] then w.v.sch - {s} else w.v.sch[s := Minus(w.v.sch[s], e)]
    ensures Paired(t, t')
    decreases 1, 0
  {
    hide KernelCache.Paired;
    t', w' := Uncache(t, w, e, x);
    ghost var t1 := t';
    assert EntryAt(t.m.ent, t.m.route, t.m.gl.addr, t.m.sl.addr, w.v, x, e);
    SourceCut(t.m, w.v, x, e);
    var s := t.m.ent.src[e];
    SourceCutSide(t.m, w.v, s, e);
    var last := t.m.ss.link[e].prev == NULL && t.m.ss.link[e].next == NULL;
    ghost var x' := x.(offS := x.offS + {e});
    MirroredSame(t.m.ent, w.v, w'.c, OffSource(w.v, s, e), w'.c);
    t', w' := t'.(m := CutFromSource(t.m, e)), w'.(v := OffSource(w.v, s, e));
    if last {
      UpdateThenRemove(w.v.sch, s, Minus(w.v.sch[s], e));
      t', w' := DeleteSource(t', w', s, x');
    }
    PairedSame(t1);
    PairedTrans(t, t1, t');
    EntryOff(t'.m, w'.v, x', e);
    t', w' := FreeEntry(t', w', e, x, x');
  }

  /** The first `i` nodes of a chain. */
  function First(s: seq<Ptr>, i: nat): set<Ptr>
    requires i <= |s|
  {
    NodeSet(s[..i])
  }

  lemma FirstNone(s: seq<Ptr>, ent: EntryFields, l: LinkMap)
    ensures First(s, 0) == {} && First(s, |s|) == NodeSet(s)
    ensures EntMinus(ent, First(s, 0)) == ent && l - First(s, 0) == l
  {
    assert s[..|s|] == s;
  }

  lemma FirstNext(s: seq<Ptr>, i: nat, ent: EntryFields, l: LinkMap)
    requires i < |s|
    ensures First(s, i + 1) == First(s, i) + {s[i]}
    ensures EntMinus(EntMinus(ent, First(s, i)), {s[i]}) == EntMinus(ent, First(s, i + 1))
    ensures (l - First(s, i)) - {s[i]} == l - First(s, i + 1)
  {
    assert s[..i + 1] == s[..i] + [s[i]];
    assert First(s, i + 1) == First(s, i) + {s[i]};
  }

  /** The groups that have a (*,G). */
  ghost function Routed(route: map<Ptr, Ptr>): set<Ptr> {
    set g | g in route && route[g] != NULL
  }

  /** The step of delete_srcentry that takes one of the dying source's entries off its group's
      chain, with the group if it was the last and there is no (*,G). */
  method DropFromGroup(t: State, ghost w: Views, e: Ptr, ghost x: Pending) returns (t': State, ghost w': Views)
    requires Holds(t, w, x) && e in t.m.ent.grp && SG in t.m.ent.flags[e] && e in x.offS && e !in x.offG
    ensures Holds(t', w', x)
    ensures t'.m.ent == EntMinus(t.m.ent, {e}) && t'.m.ss == t.m.ss.(link := t.m.ss.link - {e})
    ensures t'.m.sl == t.m.sl && t'.m.srcIif == t.m.srcIif
    ensures w'.v == w.v.(gch := w'.v.gch, groups := w'.v.groups, rch := w'.v.rch)
    ensures At(w'.v.groups, 0) == At(w.v.groups, 0)
    ensures var g := t.m.ent.grp[e];
            && On(w.v.gch, g, e) && g in t.m.route
            && (forall y, p :: On(w.v.gch[g := Minus(w.v.gch[g], e)], y, p) <==> On(w.v.gch, y, p) && p != e)
            && var gone := Minus(w.v.gch[g], e) == [] && t.m.route[g] == NULL;
            && w'.v.gch == (if gone then w.v.gch - {g} else w.v.gch[g := Minus(w.v.gch[g], e)])
            && t'.m.route == (if gone then t.m.route - {g} else t.m.route)
    ensures Paired(t, t')
    decreases 1, 0
  {
    hide KernelCache.Paired;
    t', w' := Uncache(t, w, e, x);
    ghost var t1 := t';
    assert EntryAt(t.m.ent, t.m.route, t.m.gl.addr, t.m.sl.addr, w.v, x, e);
    var g := t.m.ent.grp[e];
    GroupCut(t.m, w.v, x, e);
    GroupCutSide(t.m, w.v, g, e);
    assert RouteAt(t.m.ent, t.m.route, g);
    var last := t.m.gs.link[e].prev == NULL && t.m.gs.link[e].next == NULL;
    ghost var x' := x.(offG := x.offG + {e});
    MirroredSame(t.m.ent, w.v, w'.c, OffGroup(w.v, g, e), w'.c);
    t', w' := t'.(m := CutFromGroup(t.m, e)), w'.(v := OffGroup(w.v, g, e));
    if last && t.m.route[g] == NULL {
      UpdateThenRemove(w.v.gch, g, Minus(w.v.gch[g], e));
      t', w' := DeleteGroup(t', w', g, x');
    }
    PairedSame(t1);
    PairedTrans(t, t1, t');
    EntryOff(t'.m, w'.v, x', e);
    t', w' := FreeEntry(t', w', e, x, x');
  }

  /** Entry `i` of a dead owner's chain, still there to walk: allocated, off the owner's side
      (`off`) and not yet off the other (`on`). */
  ghost predicate WalkAt(ent: EntryFields, link: LinkMap, ch: seq<Ptr>, off: set<Ptr>, on: set<Ptr>, i: int)
    requires 0 <= i < |ch|
  {
    && ch[i] != NULL && ch[i] in ent.grp && ch[i] in ent.src && ch[i] in ent.flags && SG in ent.flags[ch[i]]
    && ch[i] in link && link[ch[i]].next == At(ch, i + 1)
    && ch[i] in off && ch[i] !in on
    && ch[i] !in First(ch, i)
  }

  ghost predicate Walk(ent: EntryFields, link: LinkMap, ch: seq<Ptr>, off: set<Ptr>, on: set<Ptr>) {
    NULL !in ch && forall i :: 0 <= i < |ch| ==> WalkAt(ent, link, ch, off, on, i)
  }

  lemma SourceWalk(m: Memory, v: View, x: Pending, s: Ptr)
    requires Partial(m, v, x) && s in v.sch && forall e :: e in v.sch[s] ==> e !in x.offG
    ensures s in m.ss.heads && m.ss.heads[s] == At(v.sch[s], 0)
    ensures Walk(m.ent, m.ss.link, v.sch[s], x.offS + NodeSet(v.sch[s]), x.offG)
  {
    var ch := v.sch[s];
    assert SideAt(SSide(m.ss, m.ent), v.gkey, v.sch, s);
    forall i | 0 <= i < |ch| ensures WalkAt(m.ent, m.ss.link, ch, x.offS + NodeSet(ch), x.offG, i) {
      ChainNeighbours(m.ss.heads[s], m.ss.link, ch, i);
      forall j | 0 <= j < i ensures ch[j] != ch[i] { ChainDistinct(m.ss.heads[s], m.ss.link, ch, j, i); }
      assert On(v.sch, s, ch[i]);
      assert EntryAt(m.ent, m.route, m.gl.addr, m.sl.addr, v, x, ch[i]);
    }
  }

  /** The next entry of a walk, once those before it are freed. */
  lemma WalkStep(ent: EntryFields, link: LinkMap, ch: seq<Ptr>, off: set<Ptr>, on: set<Ptr>, i: nat)
    requires Walk(ent, link, ch, off, on) && i < |ch|
    ensures var ent', link', e := EntMinus(ent, First(ch, i)), link - First(ch, i), ch[i];
            && e in ent.grp && e in ent'.grp && ent'.grp[e] == ent.grp[e]
            && e in ent.src && e in ent'.src && ent'.src[e] == ent.src[e]
            && e in ent'.flags && SG in ent'.flags[e]
            && e in link' && link'[e].next == At(ch, i + 1)
            && e in off && e !in on
            && First(ch, i + 1) == First(ch, i) + {e}
            && EntMinus(ent', {e}) == EntMinus(ent, First(ch, i + 1))
            && link' - {e} == link - First(ch, i + 1)
  {
    assert WalkAt(ent, link, ch, off, on, i);
    FirstNext(ch, i, ent, link);
  }

  lemma EndOfWalk(ent: EntryFields, link: LinkMap, ch: seq<Ptr>, off: set<Ptr>, on: set<Ptr>, i: nat)
    requires Walk(ent, link, ch, off, on) && i <= |ch| && At(ch, i) == NULL
    ensures i == |ch|
  {
  }

  lemma AllRouted(t: State, w: Views, x: Pending)
    requires Holds(t, w, x)
    ensures forall g :: g in w.v.gch ==> g in t.m.route
  {
    assert forall g :: g in w.v.gch ==> RouteAt(t.m.ent, t.m.route, g);
  }

  /** The loop of delete_srcentry over the dead source's entries. */
  method DropFromGroups(t: State, ghost w: Views, first: Ptr, ghost ch: seq<Ptr>, ghost x: Pending)
    returns (t': State, ghost w': Views)
    requires Holds(t, w, x) && first == At(ch, 0) && Walk(t.m.ent, t.m.ss.link, ch, x.offS, x.offG)
    ensures Holds(t', w', x)
    ensures t'.m.ent == EntMinus(t.m.ent, NodeSet(ch)) && t'.m.sl == t.m.sl && t'.m.srcIif == t.m.srcIif
    ensures w'.v == w.v.(gch := w'.v.gch, groups := w'.v.groups, rch := w'.v.rch)
    ensures At(w'.v.groups, 0) == At(w.v.groups, 0)
    ensures Lose(w.v.gch, w'.v.gch, NodeSet(ch), Routed(t.m.route))
    ensures forall g :: g in w'.v.gch ==> g in t'.m.route && g in t.m.route && t'.m.route[g] == t.m.route[g]
    ensures ch == [] ==> t' == t && w' == w
    ensures Paired(t, t')
    decreases |ch|, 1
  {
    hide Holds, Lose, Walk, First, EntMinus, KernelCache.Paired;
    t', w' := t, w;
    PairedSame(t);
    LoseNothing(w.v.gch, Routed(t.m.route));
    FirstNone(ch, t.m.ent, t.m.ss.link);
    AllRouted(t, w, x);
    var node := first;
    ghost var i := 0;
    while node != NULL
      invariant 0 <= i <= |ch| && node == At(ch, i)
      invariant Holds(t', w', x)
      invariant t'.m.ent == EntMinus(t.m.ent, First(ch, i)) && t'.m.sl == t.m.sl && t'.m.srcIif == t.m.srcIif
      invariant t'.m.ss.link == t.m.ss.link - First(ch, i)
      invariant w'.v == w.v.(gch := w'.v.gch, groups := w'.v.groups, rch := w'.v.rch)
      invariant Lose(w.v.gch, w'.v.gch, First(ch, i), Routed(t.m.route))
      invariant forall g :: g in w'.v.gch ==> g in t'.m.route && g in t.m.route && t'.m.route[g] == t.m.route[g]
      invariant At(w'.v.groups, 0) == At(w.v.groups, 0)
      invariant i == 0 ==> t' == t && w' == w
      invariant Paired(t, t')
      decreases |ch| - i
    {
      WalkStep(t.m.ent, t.m.ss.link, ch, x.offS, x.offG, i);
      ghost var w0, t0, g := w', t', t.m.ent.grp[ch[i]];
      var next := t'.m.ss.link[node].next;
      t', w' := DropFromGroup(t', w', node, x);
      PairedTrans(t, t0, t');
      assert g in Routed(t.m.route) <==> t0.m.route[g] != NULL by { assert g in w0.v.gch; }
      LoseOne(w.v.gch, w0.v.gch, First(ch, i), Routed(t.m.route), g, node, w'.v.gch);
      node := next;
      i := i + 1;
    }
    EndOfWalk(t.m.ent, t.m.ss.link, ch, x.offS, x.offG, i);
  }

  lemma SettleSource(m: Memory, v: View, x: Pending, s: Ptr, ch: seq<Ptr>, x1: Pending)
    requires Partial(m, v, x1.(dyingS := x1.dyingS - {s})) && s !in x.dyingS
    requires x1 == x.(offS := x.offS + NodeSet(ch), dyingS := x.dyingS + {s})
    requires m.ent.grp.Keys !! NodeSet(ch)
    ensures Partial(m, v, x)
  {
    Settle(m, v, x1.(dyingS := x1.dyingS - {s}), x);
  }

  /** delete_srcentry: the source goes, with its entries and every group they leave with nothing. */
  method DeleteSource(t: State, ghost w: Views, s: Ptr, ghost x: Pending) returns (t': State, ghost w': Views)
    requires Holds(t, w, x) && s in w.v.sch && s != At(w.v.sources, 0)
    requires forall e :: e in w.v.sch[s] ==> e !in x.offG
    ensures Holds(t', w', x)
    ensures t'.m.ent == EntMinus(t.m.ent, NodeSet(w.v.sch[s]))
    ensures w'.v.sch == w.v.sch - {s} && w'.v.gkey == w.v.gkey && w'.v.skey == w.v.skey
    ensures Lose(w.v.gch, w'.v.gch, NodeSet(w.v.sch[s]), Routed(t.m.route))
    ensures forall g :: g in w'.v.gch ==> g in t'.m.route && g in t.m.route && t'.m.route[g] == t.m.route[g]
    ensures At(w'.v.sources, 0) == At(w.v.sources, 0) && At(w'.v.groups, 0) == At(w.v.groups, 0)
    ensures w.v.sch[s] == [] ==>
              && s in w.v.sources && s in t.m.sl.link && Linked(t.m.sl.link[s].prev, t.m.sl.link)
              && Linked(t.m.sl.link[s].next, t.m.sl.link)
              && t' == t.(m := SourceFreed(SourceDetached(t.m, s), s)) && w' == w.(v := SourceOut(w.v, s))
    ensures Paired(t, t')
    decreases |w.v.sch[s]|, 2
  {
    hide Partial, Lose, Walk, KernelCache.Paired;
    DetachSource(t.m, w.v, x, s);
    SourceWalk(t.m, w.v, x, s);
    ghost var x1 := SourcePending(w.v, x, s);
    t', w' := t.(m := SourceDetached(t.m, s)), w.(v := SourceOut(w.v, s));
    MirroredSame(t.m.ent, w.v, w.c, w'.v, w.c);
    t', w' := DropFromGroups(t', w', t.m.ss.heads[s], w.v.sch[s], x1);
    MrtSteps.FreeSource(t'.m, w'.v, x1, s);
    t' := t'.(m := SourceFreed(t'.m, s));
    SettleSource(t'.m, w'.v, x, s, w.v.sch[s], x1);
  }

  lemma GroupWalk(m: Memory, v: View, x: Pending, g: Ptr)
    requires Partial(m, v, x) && g in v.gch && forall e :: e in v.gch[g] ==> e !in x.offS
    ensures g in m.gs.heads && m.gs.heads[g] == At(v.gch[g], 0)
    ensures Walk(m.ent, m.gs.link, v.gch[g], x.offG + NodeSet(v.gch[g]), x.offS)
  {
    var ch := v.gch[g];
    assert SideAt(GSide(m.gs, m.ent), v.skey, v.gch, g);
    forall i | 0 <= i < |ch| ensures WalkAt(m.ent, m.gs.link, ch, x.offG + NodeSet(ch), x.offS, i) {
      ChainNeighbours(m.gs.heads[g], m.gs.link, ch, i);
      forall j | 0 <= j < i ensures ch[j] != ch[i] { ChainDistinct(m.gs.heads[g], m.gs.link, ch, j, i); }
      assert On(v.gch, g, ch[i]);
      assert EntryAt(m.ent, m.route, m.gl.addr, m.sl.addr, v, x, ch[i]);
    }
  }

  /** The loop of delete_grpentry over the dead group's entries. */
  method DropFromSources(t: State, ghost w: Views, first: Ptr, ghost ch: seq<Ptr>, ghost x: Pending)
    returns (t': State, ghost w': Views)
    requires Holds(t, w, x) && first == At(ch, 0) && Walk(t.m.ent, t.m.gs.link, ch, x.offG, x.offS)
    ensures Holds(t', w', x)
    ensures t'.m.ent == EntMinus(t.m.ent, NodeSet(ch))
    ensures t'.m.gl == t.m.gl && t'.m.route == t.m.route && t'.m.rp == t.m.rp
    ensures w'.v == w.v.(sch := w'.v.sch, sources := w'.v.sources)
    ensures At(w'.v.sources, 0) == At(w.v.sources, 0)
    ensures Lose(w.v.sch, w'.v.sch, NodeSet(ch), {})
    ensures ch == [] ==> t' == t && w' == w
    ensures Paired(t, t')
    decreases |ch|, 1
  {
    hide Holds, Lose, Walk, First, EntMinus, KernelCache.Paired;
    t', w' := t, w;
    PairedSame(t);
    LoseNothing(w.v.sch, {});
    FirstNone(ch, t.m.ent, t.m.gs.link);
    var node := first;
    ghost var i := 0;
    while node != NULL
      invariant 0 <= i <= |ch| && node == At(ch, i)
      invariant Holds(t', w', x)
      invariant t'.m.ent == EntMinus(t.m.ent, First(ch, i)) && t'.m.gs.link == t.m.gs.link - First(ch, i)
      invariant t'.m.gl == t.m.gl && t'.m.route == t.m.route && t'.m.rp == t.m.rp
      invariant w'.v == w.v.(sch := w'.v.sch, sources := w'.v.sources)
      invariant Lose(w.v.sch, w'.v.sch, First(ch, i), {})
      invariant At(w'.v.sources, 0) == At(w.v.sources, 0)
      invariant i == 0 ==> t' == t && w' == w
      invariant Paired(t, t')
      decreases |ch| - i
    {
      WalkStep(t.m.ent, t.m.gs.link, ch, x.offG, x.offS, i);
      ghost var w0, t0 := w', t';
      var next := t'.m.gs.link[node].next;
      t', w' := DropFromSource(t', w', node, x);
      PairedTrans(t, t0, t');
      LoseOne(w.v.sch, w0.v.sch, First(ch, i), {}, t0.m.ent.src[node], node, w'.v.sch);
      node := next;
      i := i + 1;
    }
    EndOfWalk(t.m.ent, t.m.gs.link, ch, x.offG, x.offS, i);
  }

  /** The (*,G) of a group that has just left the table is on no chain and no other group's. */
  lemma DetachedRoute(m: Memory, v: View, x: Pending, g: Ptr)
    requires Partial(m, v, x) && g in x.dyingG && g in m.route && RouteAt(m.ent, m.route, g) && m.route[g] in x.offG
    requires m.route[g] != NULL
    ensures m.route[g] in m.ent.grp && OffBoth(v, m.route[g])
    ensures forall h :: h in v.gch && h in m.route ==> m.route[h] != m.route[g]
  {
    EntryOff(m, v, x, m.route[g]);
    forall h | h in v.gch && h in m.route ensures m.route[h] != m.route[g] { assert RouteAt(m.ent, m.route, h); }
  }

  /** The (*,G) of a group being deleted, freed with its mirrors. */
  method FreeRoute(t: State, ghost w: Views, g: Ptr, ghost x: Pending) returns (t': State, ghost w': Views)
    requires Holds(t, w, x) && g in x.dyingG && g in t.m.route && RouteAt(t.m.ent, t.m.route, g)
    requires t.m.route[g] in x.offG
    ensures Holds(t', w', x)
    ensures t'.m.ent == EntMinus(t.m.ent, {t.m.route[g]}) && t'.m.gs == t.m.gs.(link := t.m.gs.link - {t.m.route[g]})
    ensures t'.m.route == t.m.route && t'.m.gl == t.m.gl && t'.m.rp == t.m.rp && w'.v == w.v
    ensures t.m.route[g] == NULL ==> t' == t && w' == w
    ensures Paired(t, t')
  {
    hide KernelCache.Paired;
    t', w' := t, w;
    PairedSame(t);
    if t.m.route[g] != NULL {
      var r := t.m.route[g];
      DetachedRoute(t.m, w.v, x, g);
      t', w' := Uncache(t, w, r, x);
      t', w' := FreeEntry(t', w', r, x, x);
    } else {
      NoNullEntry(t.m, w.v, x);
    }
  }

  lemma NoNullEntry(m: Memory, v: View, x: Pending)
    requires Partial(m, v, x)
    ensures EntMinus(m.ent, {NULL}) == m.ent && m.gs.link - {NULL} == m.gs.link
  {
    NoNull(m.ent, m.route, m.gl.addr, m.sl.addr, v, x);
    NullMinus(m);
  }

  lemma NullMinus(m: Memory)
    requires EntriesAllocated(m) && NULL !in m.ent.grp
    ensures EntMinus(m.ent, {NULL}) == m.ent && m.gs.link - {NULL} == m.gs.link
  {
  }

  lemma NoNull(ent: EntryFields, route: map<Ptr, Ptr>, ga: map<Ptr, Addr>, sa: map<Ptr, Addr>, v: View, x: Pending)
    requires Entries(ent, route, ga, sa, v, x)
    ensures NULL !in ent.grp
  {
    assert forall e :: e in ent.grp ==> EntryAt(ent, route, ga, sa, v, x, e);
  }

  /** delete_grpentry: the group goes, with its (*,G), its entries and every source they leave with
      nothing.  It leaves its RP chain before its (*,G) is freed here and after in C; the two touch
      no field in common. */
  method DeleteGroup(t: State, ghost w: Views, g: Ptr, ghost x: Pending) returns (t': State, ghost w': Views)
    requires Holds(t, w, x) && g in w.v.gch && g != At(w.v.groups, 0)
    requires forall e :: e in w.v.gch[g] ==> e !in x.offS
    ensures Holds(t', w', x)
    ensures Removable(t.m, w.v, x, g)
    ensures t'.m.ent == EntMinus(t.m.ent, NodeSet(w.v.gch[g]) + {t.m.route[g]}) && t'.m.route == t.m.route - {g}
    ensures w'.v == GroupOut(w.v, t.m.rp.of[g], g).(sch := w'.v.sch, sources := w'.v.sources)
    ensures Lose(w.v.sch, w'.v.sch, NodeSet(w.v.gch[g]), {})
    ensures At(w'.v.sources, 0) == At(w.v.sources, 0) && At(w'.v.groups, 0) == At(w.v.groups, 0)
    ensures w.v.gch[g] == [] && t.m.route[g] == NULL ==>
              && t' == t.(m := GroupFreed(GroupDetached(t.m, g), g)) && w' == w.(v := GroupOut(w.v, t.m.rp.of[g], g))
    ensures Paired(t, t')
    decreases |w.v.gch[g]|, 2
  {
    GroupRemovable(t.m, w.v, x, g);
    DetachGroup(t.m, w.v, x, g);
    GroupWalk(t.m, w.v, x, g);
    assert RouteAt(t.m.ent, t.m.route, g);
    ghost var ch, x1 := w.v.gch[g], GroupPending(t.m, w.v, x, g);
    RouteNotWalked(t.m.ent, t.m.gs.link, ch, x.offG + NodeSet(ch), x.offS, t.m.route[g], x1.offG);
    var first := t.m.gs.heads[g];
    t', w' := t.(m := GroupDetached(t.m, g)), w.(v := GroupOut(w.v, t.m.rp.of[g], g));
    MirroredSame(t.m.ent, w.v, w.c, w'.v, w.c);
    hide Lose, Walk, EntMinus, Partial, KernelCache.Paired;
    t', w' := FreeRoute(t', w', g, x1);
    ghost var t1 := t';
    t', w' := DropFromSources(t', w', first, ch, x1);
    PairedTrans(t, t1, t');
    RouteAndChain(t.m.ent, t.m.route[g], ch);
    FreeGroup(t'.m, w'.v, x1, g);
    t' := t'.(m := GroupFreed(t'.m, g));
    SettleGroup(t.m, t'.m, w'.v, x, g, ch, x1);
  }

  /** Freeing the (*,G) leaves the walk over the (S,G) as it was. */
  lemma RouteNotWalked(ent: EntryFields, link: LinkMap, ch: seq<Ptr>, off: set<Ptr>, on: set<Ptr>, r: Ptr,
        off': set<Ptr>)
    requires Walk(ent, link, ch, off, on) && off <= off'
    requires r != NULL ==> r in ent.flags && SG !in ent.flags[r]
    ensures Walk(EntMinus(ent, {r}), link - {r}, ch, off', on)
  {
    forall i | 0 <= i < |ch| ensures WalkAt(EntMinus(ent, {r}), link - {r}, ch, off', on, i) {
      assert WalkAt(ent, link, ch, off, on, i);
    }
  }

  lemma RouteAndChain(ent: EntryFields, r: Ptr, ch: seq<Ptr>)
    ensures EntMinus(EntMinus(ent, {r}), NodeSet(ch)) == EntMinus(ent, NodeSet(ch) + {r})
    ensures EntMinus(ent, NodeSet(ch) + {r}).grp.Keys !! NodeSet(ch) + {r}
  {
  }

  lemma SettleGroup(m: Memory, m': Memory, v: View, x: Pending, g: Ptr, ch: seq<Ptr>, x1: Pending)
    requires Partial(m', v, x1.(dyingG := x1.dyingG - {g})) && g in m.route && g !in x.dyingG
    requires x1 == x.(offG := x.offG + NodeSet(ch) + {m.route[g]}, dyingG := x.dyingG + {g})
    requires m'.ent.grp.Keys !! NodeSet(ch) + {m.route[g]}
    ensures Partial(m', v, x)
  {
    Settle(m', v, x1.(dyingG := x1.dyingG - {g}), x);
  }

  ghost predicate InPlace(m: Memory, v: View, e: Ptr) {
    && e in m.ent.grp && e in m.ent.src && e in m.ent.flags
    && (SG in m.ent.flags[e] ==>
          On(v.gch, m.ent.grp[e], e) && On(v.sch, m.ent.src[e], e) && m.ent.src[e] != At(v.sources, 0))
    && m.ent.grp[e] in v.gch && m.ent.grp[e] in m.route && m.ent.grp[e] != At(v.groups, 0)
    && (SG !in m.ent.flags[e] ==> m.route[m.ent.grp[e]] == e)
  }

  /** Where an entry that nothing is pending for is. */
  lemma EntryPlace(m: Memory, v: View, x: Pending, e: Ptr)
    requires Partial(m, v, x) && e in m.ent.grp && e !in x.offG && e !in x.offS
    ensures InPlace(m, v, e)
  {
    assert EntryAt(m.ent, m.route, m.gl.addr, m.sl.addr, v, x, e);
    assert RouteAt(m.ent, m.route, m.ent.grp[e]);
  }

  /** The half of delete_mrtentry that takes an (S,G) off its group's chain, with the group if that
      leaves it with nothing. */
  method LeaveGroup(t: State, ghost w: Views, e: Ptr, ghost x: Pending) returns (t': State, ghost w': Views)
    requires Holds(t, w, x) && InPlace(t.m, w.v, e) && SG in t.m.ent.flags[e] && e !in x.offG
    ensures Holds(t', w', x.(offG := x.offG + {e}))
    ensures t'.m.ent == t.m.ent && t'.m.ss == t.m.ss && t'.m.sl == t.m.sl && t'.calls == t.calls && t'.c.key == t.c.key
    ensures w'.v == w.v.(gch := w'.v.gch, groups := w'.v.groups, rch := w'.v.rch)
    ensures At(w'.v.groups, 0) == At(w.v.groups, 0)
    ensures var g := t.m.ent.grp[e];
            var gone := Minus(w.v.gch[g], e) == [] && t.m.route[g] == NULL;
            && w'.v.gch == (if gone then w.v.gch - {g} else w.v.gch[g := Minus(w.v.gch[g], e)])
            && t'.m.route == (if gone then t.m.route - {g} else t.m.route)
            && (!gone ==> t'.m.rp == t.m.rp && w'.v.rch == w.v.rch && w'.v.groups == w.v.groups)
  {
    var g := t.m.ent.grp[e];
    GroupCut(t.m, w.v, x, e);
    hide Partial;
    var last := t.m.gs.link[e].prev == NULL && t.m.gs.link[e].next == NULL;
    ghost var x' := x.(offG := x.offG + {e});
    MirroredSame(t.m.ent, w.v, w.c, OffGroup(w.v, g, e), w.c);
    t', w' := t.(m := CutFromGroup(t.m, e)), w.(v := OffGroup(w.v, g, e));
    if last && t.m.route[g] == NULL {
      UpdateThenRemove(w.v.gch, g, Minus(w.v.gch[g], e));
      t', w' := DeleteGroup(t', w', g, x');
    }
  }

  /** delete_mrtentry of a (*,G): it leaves its group, with the group if it has no (S,G). */
  method DeleteWildcard(t: State, ghost w: Views, e: Ptr, ghost x: Pending) returns (t': State, ghost w': Views)
    requires Holds(t, w, x) && InPlace(t.m, w.v, e) && SG !in t.m.ent.flags[e] && e !in t.c.cached
    ensures Holds(t', w', x)
    ensures t'.m.ent == EntMinus(t.m.ent, {e}) && t'.calls == t.calls && t'.c.key == t.c.key
    ensures w'.v.gkey == w.v.gkey && w'.v.skey == w.v.skey && w'.v.sch == w.v.sch
    ensures At(w'.v.groups, 0) == At(w.v.groups, 0) && At(w'.v.sources, 0) == At(w.v.sources, 0)
    ensures var g := t.m.ent.grp[e];
            && w'.v.gch == (if w.v.gch[g] == [] then w.v.gch - {g} else w.v.gch)
            && t'.m.route == (if w.v.gch[g] == [] then t.m.route - {g} else t.m.route[g := NULL])
            && (w.v.gch[g] != [] ==> t'.m.rp == t.m.rp && w'.v.rch == w.v.rch && w'.v.groups == w.v.groups)
  {
    hide Partial;
    var g := t.m.ent.grp[e];
    ghost var x' := x.(offG := x.offG + {e});
    ClearRoute(t.m, w.v, x, g);
    ChainHead(t.m, w.v, x, g);
    t', w' := t.(m := t.m.(route := t.m.route[g := NULL])), w;
    if t.m.gs.heads[g] == NULL {
      RouteRemoved(t.m.route, g);
      t', w' := DeleteGroup(t', w', g, x');
    }
    RouteFree(t'.m, w'.v, x', e);
    t', w' := FreeEntry(t', w', e, x, x');
  }

  lemma ChainHead(m: Memory, v: View, x: Pending, g: Ptr)
    requires Partial(m, v, x) && g in v.gch
    ensures g in m.gs.heads && (m.gs.heads[g] == NULL <==> v.gch[g] == [])
  {
    assert SideAt(GSide(m.gs, m.ent), v.skey, v.gch, g);
  }

  /** What delete_mrtentry leaves of the chains. */
  ghost predicate EntryDeleted(m: Memory, v: View, e: Ptr, m': Memory, v': View)
    requires InPlace(m, v, e)
  {
    var g, s := m.ent.grp[e], m.ent.src[e];
    if SG in m.ent.flags[e] then
      var gone := Minus(v.gch[g], e) == [] && m.route[g] == NULL;
      && v'.gch == (if gone then v.gch - {g} else v.gch[g := Minus(v.gch[g], e)])
      && m'.route == (if gone then m.route - {g} else m.route)
      && v'.sch == (if Minus(v.sch[s], e) == [] then v.sch - {s} else v.sch[s := Minus(v.sch[s], e)])
      && (!gone ==> m'.rp == m.rp && v'.rch == v.rch && v'.groups == v.groups)
    else
      && v'.sch == v.sch
      && v'.gch == (if v.gch[g] == [] then v.gch - {g} else v.gch)
      && m'.route == (if v.gch[g] == [] then m.route - {g} else m.route[g := NULL])
      && (v.gch[g] != [] ==> m'.rp == m.rp && v'.rch == v.rch && v'.groups == v.groups)
  }

  /** delete_mrtentry: an (S,G) leaves both its chains, with its group and its source if they are
      left with nothing; a (*,G) leaves its group, with the group if it has no (S,G). */
  method DeleteEntry(t: State, ghost w: Views, e: Ptr, ghost x: Pending) returns (t': State, ghost w': Views)
    requires Holds(t, w, x) && e in t.m.ent.grp && e !in x.offG && e !in x.offS
    ensures InPlace(t.m, w.v, e)
    ensures Holds(t', w', x)
    ensures t'.m.ent == EntMinus(t.m.ent, {e})
    ensures w'.v.gkey == w.v.gkey && w'.v.skey == w.v.skey
    ensures At(w'.v.groups, 0) == At(w.v.groups, 0) && At(w'.v.sources, 0) == At(w.v.sources, 0)
    ensures EntryDeleted(t.m, w.v, e, t'.m, w'.v)
    ensures Paired(t, t')
  {
    hide Partial, KernelCache.Paired;
    EntryPlace(t.m, w.v, x, e);
    t', w' := Uncache(t, w, e, x);
    ghost var t1 := t';
    if SG in t.m.ent.flags[e] {
      ghost var x' := x.(offG := x.offG + {e});
      t', w' := LeaveGroup(t', w', e, x);
      t', w' := DropFromSource(t', w', e, x');
      PairedTrans(t, t1, t');
      FreedSettle(t'.m, w'.v, x', x, e);
    } else {
      t', w' := DeleteWildcard(t', w', e, x);
    }
  }

  lemma RouteRemoved(route: map<Ptr, Ptr>, g: Ptr)
    ensures route[g := NULL] - {g} == route - {g}
  {
  }

  lemma FreedSettle(m: Memory, v: View, x': Pending, x: Pending, e: Ptr)
    requires Partial(m, v, x') && x' == x.(offG := x.offG + {e}) && e !in m.ent.grp
    ensures Partial(m, v, x)
  {
    Settle(m, v, x', x);
  }

  lemma RouteFree(m: Memory, v: View, x: Pending, e: Ptr)
    requires Partial(m, v, x) && e in m.ent.grp && e in x.offG && SG !in m.ent.flags[e]
    requires m.ent.grp[e] in v.gch ==> m.ent.grp[e] in m.route && m.route[m.ent.grp[e]] == NULL
    ensures OffBoth(v, e)
    ensures forall g :: g in v.gch && g in m.route ==> m.route[g] != e
  {
    EntryOff(m, v, x, e);
    NoNull(m.ent, m.route, m.gl.addr, m.sl.addr, v, x);
    forall g | g in v.gch && g in m.route ensures m.route[g] != e { assert RouteAt(m.ent, m.route, g); }
  }
}
