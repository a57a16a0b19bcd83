/** Groups changing RP: remap_grpentry, and what a group that has lost its last RP keeps. */
module MrtRp {
  import opened Links
  import opened Orthogonal
  import opened MrtModel
  import opened MrtSteps
  import opened MrtBuild
  import opened Mrt
  import opened MrtFind
  import KernelCache

  predicate OnRpt(flags: map<Ptr, set<Flag>>, e: Ptr) {
    e in flags && RP in flags[e]
  }

  /** The entries of a chain that are on a source tree, in order. */
  function SourceTree(s: seq<Ptr>, flags: map<Ptr, set<Flag>>): seq<Ptr> {
    if s == [] then []
    else SourceTree(s[..|s| - 1], flags) + if OnRpt(flags, s[|s| - 1]) then [] else [s[|s| - 1]]
  }

  lemma {:induction false} SourceTreeMembers(s: seq<Ptr>, flags: map<Ptr, set<Flag>>)
    ensures forall e :: e in SourceTree(s, flags) <==> e in s && !OnRpt(flags, e)
  {
    if s != [] { SourceTreeMembers(s[..|s| - 1], flags); }
  }

  lemma SourceTreeNext(s: seq<Ptr>, flags: map<Ptr, set<Flag>>, i: nat)
    requires i < |s|
    ensures SourceTree(s[..i + 1], flags) == SourceTree(s[..i], flags) + if OnRpt(flags, s[i]) then [] else [s[i]]
  {
    assert s[..i + 1][..i] == s[..i];
  }

  /** The entries of a chain that are on the shared tree. */
  ghost function SharedTree(s: seq<Ptr>, flags: map<Ptr, set<Flag>>): set<Ptr> {
    set e | e in s && OnRpt(flags, e)
  }

  /** Deleting one entry leaves no group and no source empty that was not. */
  lemma FilledDeleted(m: Memory, v: View, e: Ptr, m': Memory, v': View, gs: set<Ptr>, ss: set<Ptr>)
    requires Filled(m, v, gs, ss) && InPlace(m, v, e) && EntryDeleted(m, v, e, m', v')
    requires At(v'.groups, 0) == At(v.groups, 0) && At(v'.sources, 0) == At(v.sources, 0)
    ensures Filled(m', v', gs, ss)
  {
  }

  lemma {:induction false} FirstIndex(a: seq<Ptr>, e: Ptr, b: seq<Ptr>)
    requires e !in a
    ensures e in a + [e] + b && IndexOf(a + [e] + b, e) == |a|
  {
    var s := a + [e] + b;
    assert s[|a|] == e;
    if a != [] {
      assert s[1..] == a[1..] + [e] + b;
      FirstIndex(a[1..], e, b);
    }
  }

  lemma MinusMiddle(a: seq<Ptr>, e: Ptr, b: seq<Ptr>)
    requires e !in a
    ensures e in a + [e] + b && Minus(a + [e] + b, e) == a + b
  {
    FirstIndex(a, e, b);
  }

  lemma NodeAt(m: Memory, v: View, x: Pending, g: Ptr, i: nat)
    requires Partial(m, v, x) && g in v.gch && i < |v.gch[g]|
    ensures var e := v.gch[g][i];
            && e != NULL && e in m.gs.link && m.gs.link[e].next == At(v.gch[g], i + 1)
            && e in m.ent.grp && m.ent.grp[e] == g && e in m.ent.flags && SG in m.ent.flags[e]
            && e !in v.gch[g][..i]
  {
    var s, e := v.gch[g], v.gch[g][i];
    assert SideAt(GSide(m.gs, m.ent), v.skey, v.gch, g);
    ChainNeighbours(m.gs.heads[g], m.gs.link, s, i);
    assert On(v.gch, g, e);
    assert EntryAt(m.ent, m.route, m.gl.addr, m.sl.addr, v, x, e);
    forall j | 0 <= j < i ensures s[j] != e { ChainDistinct(m.gs.heads[g], m.gs.link, s, j, i); }
  }

  lemma HeadOf(m: Memory, v: View, x: Pending, g: Ptr)
    requires Partial(m, v, x) && g in v.gch
    ensures g in m.gs.heads && m.gs.heads[g] == At(v.gch[g], 0) && NULL !in v.gch[g]
  {
    assert SideAt(GSide(m.gs, m.ent), v.skey, v.gch, g);
  }

  lemma SharedTreeNext(s: seq<Ptr>, ent: EntryFields, i: nat)
    requires i < |s|
    ensures OnRpt(ent.flags, s[i]) ==>
              EntMinus(EntMinus(ent, SharedTree(s[..i], ent.flags)), {s[i]}) ==
                  EntMinus(ent, SharedTree(s[..i + 1], ent.flags))
    ensures !OnRpt(ent.flags, s[i]) ==> SharedTree(s[..i + 1], ent.flags) == SharedTree(s[..i], ent.flags)
  {
    assert s[..i + 1] == s[..i] + [s[i]];
    if OnRpt(ent.flags, s[i]) {
      assert SharedTree(s[..i + 1], ent.flags) == SharedTree(s[..i], ent.flags) + {s[i]};
    }
  }

  lemma SharedTreeNone(s: seq<Ptr>, ent: EntryFields)
    ensures EntMinus(ent, SharedTree(s[..0], ent.flags)) == ent && s[..|s|] == s
  {
    assert SharedTree(s[..0], ent.flags) == {};
  }

  /** How far the loop is: the entries before position `i` that are on the source tree, then the rest. */
  ghost predicate Sifted(ch: Chains, g: Ptr, s: seq<Ptr>, flags: map<Ptr, set<Flag>>, i: nat) {
    g in ch && i <= |s| && ch[g] == SourceTree(s[..i], flags) + s[i..]
  }

  lemma SiftedAt(ch: Chains, g: Ptr, s: seq<Ptr>, flags: map<Ptr, set<Flag>>, i: nat, ch': Chains)
    requires Sifted(ch, g, s, flags, i) && i < |s| && s[i] !in s[..i]
    ensures |SourceTree(s[..i], flags)| < |ch[g]| && ch[g][|SourceTree(s[..i], flags)|] == s[i] && s[i] in ch[g]
    ensures At(ch[g], |SourceTree(s[..i], flags)| + 1) == At(s, i + 1)
    ensures !OnRpt(flags, s[i]) ==> Sifted(ch, g, s, flags, i + 1)
    ensures OnRpt(flags, s[i]) && ch' == ch[g := Minus(ch[g], s[i])] ==> Sifted(ch', g, s, flags, i + 1)
  {
    var a := SourceTree(s[..i], flags);
    SourceTreeMembers(s[..i], flags);
    SourceTreeNext(s, flags, i);
    assert s[i..] == [s[i]] + s[i + 1..];
    assert ch[g] == a + [s[i]] + s[i + 1..];
    MinusMiddle(a, s[i], s[i + 1..]);
  }

  lemma SiftedKeeps(ch: Chains, g: Ptr, s: seq<Ptr>, flags: map<Ptr, set<Flag>>, i: nat, k: Ptr)
    requires Sifted(ch, g, s, flags, i) && k in s && !OnRpt(flags, k)
    ensures k in ch[g]
  {
    SourceTreeMembers(s[..i], flags);
    assert s == s[..i] + s[i..];
  }

  lemma MinusStays(s: seq<Ptr>, e: Ptr, k: Ptr)
    requires e in s && k in s && k != e
    ensures Minus(s, e) != []
  {
    var i, j := IndexOf(s, e), IndexOf(s, k);
  }

  /** What the loop leaves as it was. */
  ghost predicate OnlyEntriesGo(t: State, w: Views, t': State, w': Views, g: Ptr) {
    && g in w'.v.gch && w'.v.gch == w.v.gch[g := w'.v.gch[g]]
    && t'.m.route == t.m.route && t'.m.rp == t.m.rp && w'.v.rch == w.v.rch && w'.v.groups == w.v.groups
    && At(w'.v.sources, 0) == At(w.v.sources, 0) && w'.v.gkey == w.v.gkey && w'.v.skey == w.v.skey
    && Paired(t, t')
  }

  lemma OnlyEntriesTrans(t: State, w: Views, t1: State, w1: Views, t2: State, w2: Views, g: Ptr)
    requires OnlyEntriesGo(t, w, t1, w1, g) && OnlyEntriesGo(t1, w1, t2, w2, g)
    ensures OnlyEntriesGo(t, w, t2, w2, g)
  {
    PairedTrans(t, t1, t2);
  }

  /** One round of the loop: the entry goes if it is on the shared tree, and its group does not, as
      entry `k` stays. */
  method SiftOne(t: State, ghost w: Views, g: Ptr, node: Ptr, ghost x: Pending, ghost j: nat, ghost k: Ptr)
    returns (t': State, ghost w': Views, next: Ptr)
    requires Holds(t, w, x) && x.offG == {} && x.offS == {} && Filled(t.m, w.v, {}, {})
    requires g in w.v.gch && j < |w.v.gch[g]| && w.v.gch[g][j] == node && k in w.v.gch[g] && !OnRpt(t.m.ent.flags, k)
    ensures Holds(t', w', x) && Filled(t'.m, w'.v, {}, {}) && OnlyEntriesGo(t, w, t', w', g)
    ensures next == At(w.v.gch[g], j + 1)
    ensures OnRpt(t.m.ent.flags, node) ==>
              w'.v.gch[g] == Minus(w.v.gch[g], node) && t'.m.ent == EntMinus(t.m.ent, {node})
    ensures !OnRpt(t.m.ent.flags, node) ==> t' == t && w' == w
  {
    hide Partial, Mirrored, KernelCache.Ok, Filled, EntMinus, KernelCache.Paired;
    t', w' := t, w;
    PairedSame(t);
    NodeAt(t.m, w.v, x, g, j);
    next := t.m.gs.link[node].next;
    if RP in t.m.ent.flags[node] {
      MinusStays(w.v.gch[g], node, k);
      t', w' := DeleteEntry(t, w, node, x);
      FilledDeleted(t.m, w.v, node, t'.m, w'.v, {}, {});
    } else {
      SiftedStart(w.v.gch, g, t.m.ent.flags);
    }
  }

  /** The loop is at position `i` of the chain `s` it started on. */
  ghost predicate Sifting(t: State, w: Views, t': State, w': Views, g: Ptr, i: nat) {
    && g in w.v.gch && i <= |w.v.gch[g]|
    && OnlyEntriesGo(t, w, t', w', g)
    && Sifted(w'.v.gch, g, w.v.gch[g], t.m.ent.flags, i)
    && t'.m.ent == EntMinus(t.m.ent, SharedTree(w.v.gch[g][..i], t.m.ent.flags))
  }

  lemma SiftingStart(t: State, w: Views, g: Ptr)
    requires g in w.v.gch
    ensures Sifting(t, w, t, w, g, 0)
  {
    PairedSame(t);
    SharedTreeNone(w.v.gch[g], t.m.ent);
    SiftedStart(w.v.gch, g, t.m.ent.flags);
  }

  lemma SiftingEnd(t: State, w: Views, t': State, w': Views, g: Ptr)
    requires g in w.v.gch && Sifting(t, w, t', w', g, |w.v.gch[g]|)
    ensures OnlyEntriesGo(t, w, t', w', g)
    ensures w'.v.gch[g] == SourceTree(w.v.gch[g], t.m.ent.flags)
    ensures t'.m.ent == EntMinus(t.m.ent, SharedTree(w.v.gch[g], t.m.ent.flags))
  {
    SharedTreeNone(w.v.gch[g], t.m.ent);
    SiftedEnd(w'.v.gch, g, w.v.gch[g], t.m.ent.flags);
  }

  /** One round, seen from the start of the loop. */
  method SiftNext(ghost t0: State, ghost w0: Views, t: State, ghost w: Views, g: Ptr, node: Ptr, ghost x: Pending,
        ghost i: nat, ghost k: Ptr)
    returns (t': State, ghost w': Views, next: Ptr)
    requires Holds(t, w, x) && x.offG == {} && x.offS == {} && Filled(t.m, w.v, {}, {})
    requires Holds(t0, w0, x) && Sifting(t0, w0, t, w, g, i) && i < |w0.v.gch[g]| && node == w0.v.gch[g][i]
    requires k in w0.v.gch[g] && !OnRpt(t0.m.ent.flags, k)
    ensures Holds(t', w', x) && Filled(t'.m, w'.v, {}, {}) && Sifting(t0, w0, t', w', g, i + 1)
    ensures next == At(w0.v.gch[g], i + 1)
  {
    hide Holds, Filled, SourceTree, SharedTree, EntMinus, Sifted, KernelCache.Paired;
    ghost var s, flags := w0.v.gch[g], t0.m.ent.flags;
    NodeHeld(t0, w0, x, g, i);
    SiftedAt(w.v.gch, g, s, flags, i, w.v.gch);
    SharedTreeNext(s, t0.m.ent, i);
    SiftedKeeps(w.v.gch, g, s, flags, i, k);
    FlagsSame(t0.m.ent, s, i, node);
    FlagsSame(t0.m.ent, s, i, k);
    t', w', next := SiftOne(t, w, g, node, x, |SourceTree(s[..i], flags)|, k);
    SiftedAt(w.v.gch, g, s, flags, i, w'.v.gch);
    OnlyEntriesTrans(t0, w0, t, w, t', w', g);
  }

  /** The loop of grp_keep_without_rp over the group's entries: those on the shared tree go, and
      with `k` staying, the group does not. */
  method DropSharedTree(t: State, ghost w: Views, g: Ptr, ghost x: Pending, ghost k: Ptr)
    returns (t': State, ghost w': Views)
    requires Holds(t, w, x) && x.offG == {} && x.offS == {} && Filled(t.m, w.v, {}, {})
    requires g in w.v.gch && k in w.v.gch[g] && !OnRpt(t.m.ent.flags, k)
    ensures Holds(t', w', x) && Filled(t'.m, w'.v, {}, {}) && OnlyEntriesGo(t, w, t', w', g)
    ensures w'.v.gch[g] == SourceTree(w.v.gch[g], t.m.ent.flags)
    ensures t'.m.ent == EntMinus(t.m.ent, SharedTree(w.v.gch[g], t.m.ent.flags))
  {
    hide Holds, Filled, Sifting, SourceTree, SharedTree, EntMinus;
    t', w' := t, w;
    SiftingStart(t, w, g);
    WalkStart(t, w, x, g);
    ghost var i := 0;
    var node := t.m.gs.heads[g];
    while node != NULL
      invariant 0 <= i <= |w.v.gch[g]| && node == At(w.v.gch[g], i)
      invariant Holds(t', w', x) && Filled(t'.m, w'.v, {}, {}) && Sifting(t, w, t', w', g, i)
      decreases |w.v.gch[g]| - i
    {
      t', w', node := SiftNext(t, w, t', w', g, node, x, i, k);
      i := i + 1;
    }
    SiftingEnd(t, w, t', w', g);
  }

  lemma NodeHeld(t: State, w: Views, x: Pending, g: Ptr, i: nat)
    requires Holds(t, w, x) && g in w.v.gch && i < |w.v.gch[g]|
    ensures w.v.gch[g][i] !in w.v.gch[g][..i]
  {
    NodeAt(t.m, w.v, x, g, i);
  }

  lemma WalkStart(t: State, w: Views, x: Pending, g: Ptr)
    requires Holds(t, w, x) && g in w.v.gch
    ensures g in t.m.gs.heads && t.m.gs.heads[g] == At(w.v.gch[g], 0) && NULL !in w.v.gch[g]
  {
    HeadOf(t.m, w.v, x, g);
  }

  lemma FlagsSame(ent: EntryFields, s: seq<Ptr>, i: nat, e: Ptr)
    requires i <= |s| && (OnRpt(ent.flags, e) ==> e !in s[..i])
    ensures OnRpt(EntMinus(ent, SharedTree(s[..i], ent.flags)).flags, e) <==> OnRpt(ent.flags, e)
  {
  }

  lemma SiftedStart(ch: Chains, g: Ptr, flags: map<Ptr, set<Flag>>)
    requires g in ch
    ensures Sifted(ch, g, ch[g], flags, 0) && ch == ch[g := ch[g]]
  {
  }

  lemma SiftedEnd(ch: Chains, g: Ptr, s: seq<Ptr>, flags: map<Ptr, set<Flag>>)
    requires Sifted(ch, g, s, flags, |s|)
    ensures ch[g] == SourceTree(s, flags)
  {
    assert s[..|s|] == s;
  }

  // ----- grp_keep_without_rp

  /** Some entry of a chain is on a source tree. */
  ghost predicate HasSourceTree(s: seq<Ptr>, flags: map<Ptr, set<Flag>>) {
    exists i :: 0 <= i < |s| && !OnRpt(flags, s[i])
  }

  /** The loop of grp_keep_without_rp that looks for an entry to keep. */
  method FindSourceTree(t: State, ghost w: Views, g: Ptr, ghost x: Pending) returns (keep: bool, ghost k: Ptr)
    requires Holds(t, w, x) && g in w.v.gch
    ensures keep <==> HasSourceTree(w.v.gch[g], t.m.ent.flags)
    ensures keep ==> k in w.v.gch[g] && !OnRpt(t.m.ent.flags, k)
  {
    hide Holds;
    WalkStart(t, w, x, g);
    var node := t.m.gs.heads[g];
    keep, k := false, NULL;
    ghost var i := 0;
    while node != NULL
      invariant 0 <= i <= |w.v.gch[g]| && node == At(w.v.gch[g], i) && !keep
      invariant forall j :: 0 <= j < i ==> OnRpt(t.m.ent.flags, w.v.gch[g][j])
      decreases |w.v.gch[g]| - i
    {
      NodeRead(t, w, x, g, i);
      if RP !in t.m.ent.flags[node] {
        keep, k := true, node;
        return;
      }
      node := t.m.gs.link[node].next;
      i := i + 1;
    }
  }

  lemma NodeRead(t: State, w: Views, x: Pending, g: Ptr, i: nat)
    requires Holds(t, w, x) && g in w.v.gch && i < |w.v.gch[g]|
    ensures var e := w.v.gch[g][i];
            e in t.m.ent.flags && e in t.m.gs.link && t.m.gs.link[e].next == At(w.v.gch[g], i + 1)
  {
    NodeAt(t.m, w.v, x, g, i);
  }

  /** The group's RP pointers cleared. */
  function RpCleared(t: State, g: Ptr): State {
    t.(m := t.m.(rp := t.m.rp.(of := t.m.rp.of[g := NULL], link := t.m.rp.link[g := Link(NULL, NULL)])))
  }

  /** `delete_mrtentry(grp->grp_route)` of a group that has (S,G) entries. */
  method DropWild(t: State, ghost w: Views, g: Ptr, ghost x: Pending) returns (t': State, ghost w': Views)
    requires Holds(t, w, x) && x.offG == {} && x.offS == {} && Filled(t.m, w.v, {}, {})
    requires g in w.v.gch && g != At(w.v.groups, 0) && w.v.gch[g] != []
    ensures Holds(t', w', x) && Filled(t'.m, w'.v, {}, {})
    ensures g in t.m.route && t'.m.ent == EntMinus(t.m.ent, {t.m.route[g]})
    ensures t'.m.route == t.m.route[g := NULL] && t'.m.rp == t.m.rp
    ensures w'.v.gch == w.v.gch && w'.v.rch == w.v.rch && w'.v.groups == w.v.groups
    ensures At(w'.v.sources, 0) == At(w.v.sources, 0)
    ensures w'.v.gkey == w.v.gkey && w'.v.skey == w.v.skey && Paired(t, t')
  {
    hide Partial, Mirrored, KernelCache.Ok, Filled, KernelCache.Paired;
    t', w' := t, w;
    PairedSame(t);
    WildPlace(t.m, w.v, x, g);
    if t.m.route[g] != NULL {
      t', w' := DeleteEntry(t, w, t.m.route[g], x);
      FilledDeleted(t.m, w.v, t.m.route[g], t'.m, w'.v, {}, {});
    } else {
      NoNullEntry(t.m, w.v, x);
      assert t.m.route[g := NULL] == t.m.route;
    }
  }

  lemma SourceTreeRpLess(m: Memory, v: View, x: Pending, g: Ptr, s: seq<Ptr>, flags: map<Ptr, set<Flag>>)
    requires Partial(m, v, x) && x.offS == {} && g in v.gch && g in m.route && m.route[g] == NULL
    requires v.gch[g] == SourceTree(s, flags)
    requires forall e :: e in m.ent.flags ==> e in flags && m.ent.flags[e] == flags[e]
    ensures RpLessAt(m.ent, m.route, v.gch, g)
  {
    SourceTreeMembers(s, flags);
    forall e | On(v.gch, g, e) ensures e in m.ent.flags && RP !in m.ent.flags[e] { GroupEntry(m, v, x, g, e); }
  }

  lemma WildNotWalked(m: Memory, v: View, x: Pending, g: Ptr)
    requires Partial(m, v, x) && g in v.gch && g in m.route
    ensures m.route[g] !in v.gch[g]
  {
    assert RouteAt(m.ent, m.route, g);
    HeadOf(m, v, x, g);
    if m.route[g] in v.gch[g] { NodeAt(m, v, x, g, IndexOf(v.gch[g], m.route[g])); }
  }

  lemma {:induction false} SourceTreeFrame(s: seq<Ptr>, flags: map<Ptr, set<Flag>>, flags': map<Ptr, set<Flag>>)
    requires forall e :: e in s ==> (OnRpt(flags, e) <==> OnRpt(flags', e))
    ensures SourceTree(s, flags) == SourceTree(s, flags') && SharedTree(s, flags) == SharedTree(s, flags')
  {
    if s != [] { SourceTreeFrame(s[..|s| - 1], flags, flags'); }
  }

  lemma MinusBoth(ent: EntryFields, r: Ptr, gone: set<Ptr>)
    ensures EntMinus(EntMinus(ent, {r}), gone) == EntMinus(ent, gone + {r})
  {
  }

  /** grp_keep_without_rp, for a group remap_grpentry has taken off its RP's chain: with an (S,G) on
      the source tree it stays, RP-less, with exactly those; the (*,G) and the entries on the shared
      tree go, and the group itself is never freed. */
  method KeepWithoutRp(t: State, ghost w: Views, g: Ptr, ghost ga: Addr)
    returns (keep: bool, t': State, ghost w': Views)
    requires g in t.m.rp.of && g in t.m.rp.link && Holds(RpCleared(t, g), w, NOTHING.(loose := {g}))
    requires GroupListed(t.m, w.v, g, ga) && Filled(t.m, w.v, {}, {})
    ensures keep <==> HasSourceTree(w.v.gch[g], t.m.ent.flags)
    ensures !keep ==> t' == RpCleared(t, g) && w' == w
    ensures keep ==> Good(t', w') && g in t.m.route
    ensures keep ==> w'.v.gch == w.v.gch[g := SourceTree(w.v.gch[g], t.m.ent.flags)] && On(w'.v.rch, NULL, g)
    ensures keep ==> t'.m.ent == EntMinus(t.m.ent, SharedTree(w.v.gch[g], t.m.ent.flags) + {t.m.route[g]})
    ensures keep ==> t'.m.route == t.m.route[g := NULL] && Paired(t, t')
    ensures At(w'.v.groups, 0) == At(w.v.groups, 0) && At(w'.v.sources, 0) == At(w.v.sources, 0)
  {
    hide Partial, Mirrored, KernelCache.Ok, Filled, SourceTree, SharedTree, HasSourceTree, KernelCache.Paired;
    ghost var x, k := NOTHING.(loose := {g}), NULL;
    t', w' := RpCleared(t, g), w;
    FilledAnyRp(t.m, w.v, t'.m.rp, w.v.rch, {}, {});
    keep, k := FindSourceTree(t', w', g, x);
    if !keep { return; }
    ghost var s, flags := w.v.gch[g], t.m.ent.flags;
    WildPlace(t'.m, w'.v, x, g);
    WildNotWalked(t'.m, w'.v, x, g);
    t', w' := DropWild(t', w', g, x);
    SourceTreeFrame(s, flags, t'.m.ent.flags);
    ghost var t1 := t';
    t', w' := DropSharedTree(t', w', g, x, k);
    PairedTrans(t, t1, t');
    MinusBoth(t.m.ent, t.m.route[g], SharedTree(s, flags));
    SourceTreeRpLess(t'.m, w'.v, x, g, s, flags);
    t', w' := LinkNorp(t', w', g, x);
  }

  /** grp_norp_link */
  method LinkNorp(t: State, ghost w: Views, g: Ptr, ghost x: Pending) returns (t': State, ghost w': Views)
    requires Holds(t, w, x) && x == NOTHING.(loose := {g}) && g in w.v.gch && g != At(w.v.groups, 0)
    requires Filled(t.m, w.v, {}, {})
    requires RpLessAt(t.m.ent, t.m.route, w.v.gch, g)
    ensures Good(t', w') && On(w'.v.rch, NULL, g)
    ensures t' == t.(m := t.m.(rp := t'.m.rp)) && w' == w.(v := w.v.(rch := w'.v.rch))
  {
    hide Listing, Side, Entries, Routes, RpSide, RpLess, RpLessAt, GroupsAllocated, SourcesAllocated,
        EntriesAllocated, Sentinels, KernelCache.Ok, Mirrored, Filled;
    GroupNotNull(t.m.gl, w.v.groups, w.v.gch.Keys, g);
    OnWhichChain(t.m.rp, w.v, x, g);
    Attach(t.m, w.v, x, g, NULL);
    assert x.(loose := x.loose - {g}) == NOTHING;
    t', w' := t.(m := t.m.(rp := RpOn(t.m.rp, g, NULL))), w.(v := w.v.(rch := RchOn(w.v.rch, NULL, g)));
    MirroredSame(t.m.ent, w.v, w.c, w'.v, w.c);
    FilledAnyRp(t.m, w.v, t'.m.rp, w'.v.rch, {}, {});
    InsertMembers(w.v.rch[NULL], 0, g);
  }

  // ----- remap_grpentry

  lemma OffThenCleared(t: State, w: Views, g: Ptr)
    requires Good(t, w) && g in w.v.gch && g != At(w.v.groups, 0)
    ensures g in t.m.rp.link && g in t.m.rp.of && Linked(t.m.rp.link[g].prev, t.m.rp.link)
    ensures Linked(t.m.rp.link[g].next, t.m.rp.link)
    ensures t.m.rp.link[g].prev == NULL && t.m.rp.of[g] != NULL ==> t.m.rp.of[g] in t.m.rp.head
    ensures var t1 := t.(m := t.m.(rp := RpOff(t.m.rp, g)));
            var w1 := w.(v := w.v.(rch := RchOff(w.v.rch, t.m.rp.of[g], g)));
            && g in t1.m.rp.of && g in t1.m.rp.link
            && Holds(RpCleared(t1, g), w1, NOTHING.(loose := {g})) && Filled(t1.m, w1.v, {}, {})
  {
    hide Partial, KernelCache.Ok, Mirrored, Filled, KernelCache.Paired;
    Loosen(t.m, w.v, NOTHING, g);
    OffClears(t.m.rp, g);
    var rch := RchOff(w.v.rch, t.m.rp.of[g], g);
    MirroredSame(t.m.ent, w.v, w.c, w.v.(rch := rch), w.c);
    FilledAnyRp(t.m, w.v, RpOff(t.m.rp, g), rch, {}, {});
    assert NOTHING.(loose := {g}) == NOTHING.(loose := NOTHING.loose + {g});
  }

  lemma OffClears(rp: RpFields, g: Ptr)
    requires g in rp.link && g in rp.of && Linked(rp.link[g].prev, rp.link) && Linked(rp.link[g].next, rp.link)
    requires rp.link[g].prev == NULL && rp.of[g] != NULL ==> rp.of[g] in rp.head
    ensures var off := RpOff(rp, g);
            g in off.of && g in off.link &&
                RpLoose(rp, g) == off.(of := off.of[g := NULL], link := off.link[g := Link(NULL, NULL)])
  {
    var off := RpOff(rp, g);
    assert off.link[g := Link(NULL, NULL)] == off.link;
  }

  /** The chains of remap_grpentry: group `g` leaves its RP for mapping `match'`, or with none is kept
      RP-less with its source trees, or goes for want of any. */
  method Remap(t: State, ghost w: Views, g: Ptr, match': Ptr, ghost ga: Addr) returns (t': State, ghost w': Views)
    requires Good(t, w) && GroupListed(t.m, w.v, g, ga) && (match' == NULL || match' in t.m.rp.head)
    ensures Good(t', w') && Paired(t, t')
    ensures match' != NULL ==> t' == t.(m := t.m.(rp := t'.m.rp)) && On(w'.v.rch, match', g) && w'.v.gch == w.v.gch
    ensures match' == NULL && HasSourceTree(w.v.gch[g], t.m.ent.flags) ==>
              && w'.v.gch == w.v.gch[g := SourceTree(w.v.gch[g], t.m.ent.flags)] && On(w'.v.rch, NULL, g)
              && g in t.m.route
              && t'.m.ent == EntMinus(t.m.ent, SharedTree(w.v.gch[g], t.m.ent.flags) + {t.m.route[g]})
    ensures match' == NULL && !HasSourceTree(w.v.gch[g], t.m.ent.flags) ==>
              && w'.v.gch == w.v.gch - {g} && g in t.m.route
              && t'.m.ent == EntMinus(t.m.ent, NodeSet(w.v.gch[g]) + {t.m.route[g]})
    ensures At(w'.v.groups, 0) == At(w.v.groups, 0) && At(w'.v.sources, 0) == At(w.v.sources, 0)
  {
    hide Partial, Mirrored, KernelCache.Ok, Filled, SourceTree, SharedTree, HasSourceTree, Lose, KernelCache.Paired;
    OffThenCleared(t, w, g);
    PairedSame(t);
    if match' != NULL {
      Reattach(t.m, w.v, NOTHING, g, match');
      t' := t.(m := t.m.(rp := RpOn(RpOff(t.m.rp, g), g, match')));
      w' := w.(v := w.v.(rch := RchOn(RchOff(w.v.rch, t.m.rp.of[g], g), match', g)));
      MirroredSame(t.m.ent, w.v, w.c, w'.v, w.c);
      FilledAnyRp(t.m, w.v, t'.m.rp, w'.v.rch, {}, {});
      InsertMembers(RchOff(w.v.rch, t.m.rp.of[g], g)[match'], 0, g);
      assert NOTHING == NOTHING.(loose := {});
      return;
    }
    t', w' := t.(m := t.m.(rp := RpOff(t.m.rp, g))), w.(v := w.v.(rch := RchOff(w.v.rch, t.m.rp.of[g], g)));
    var keep;
    keep, t', w' := KeepWithoutRp(t', w', g, ga);
    if !keep {
      FilledAnyRp(t.m, w.v, t'.m.rp, w'.v.rch, {}, {});
      FilledButGroup(t'.m, w'.v, g);
      ghost var t1, w1, x := t', w', NOTHING.(loose := {g});
      t', w' := DeleteGroup(t', w', g, x);
      FilledWithoutGroup(t1.m, w1.v, g, {}, t'.m, w'.v, NodeSet(w1.v.gch[g]));
      SettleLoose(t'.m, w'.v, g, x);
    }
  }
}
