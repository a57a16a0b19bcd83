/** The mirrors of the kernel's forwarding cache that routing entries keep.

    Every routing entry has a list of mirrors, linked through `link`.  A (*,G) entry mirrors any
    number of (source, group) pairs, sorted; an (S,G) entry mirrors at most its own. */
module KernelCache {
  import opened Links

  /** An IPv4 address in host order. */
  type Addr = nat

  datatype Key = Key(source: Addr, group: Addr)

  /** The fields of the C structures: of each routing entry its `kernel_cache` and whether it has
      MRTF_KERNEL_CACHE, of each mirror its links and its pair. */
  datatype Memory = Memory(head: map<Ptr, Ptr>, cached: set<Ptr>, link: LinkMap, key: map<Ptr, Key>)

  /** Which mirrors each entry's list threads, whose list each mirror is on, and the pair of each
      (S,G) entry. */
  datatype View = View(list: map<Ptr, seq<Ptr>>, owner: map<Ptr, Ptr>, own: map<Ptr, Key>)

  predicate Before(a: Key, b: Key) {
    a.group < b.group || (a.group == b.group && a.source < b.source)
  }

  ghost predicate Ascending(s: seq<Ptr>, key: map<Ptr, Key>) {
    && (forall i :: 0 <= i < |s| ==> s[i] in key)
    && forall i, j :: 0 <= i < j < |s| ==> Before(key[s[i]], key[s[j]])
  }

  function KeyAt(key: map<Ptr, Key>, p: Ptr): Key {
    if p in key then key[p] else Key(0, 0)
  }

  ghost function KeysOf(s: seq<Ptr>, key: map<Ptr, Key>): set<Key> {
    set p | p in s :: KeyAt(key, p)
  }

  ghost function KeySeq(s: seq<Ptr>, key: map<Ptr, Key>): seq<Key> {
    seq(|s|, i requires 0 <= i < |s| => KeyAt(key, s[i]))
  }

  /** Entry `e`'s list: threaded, sorted, all its own. */
  ghost predicate ListOk(m: Memory, v: View, e: Ptr)
    requires e in v.list
  {
    && e in m.head
    && Chain(m.head[e], m.link, v.list[e])
    && Ascending(v.list[e], m.key)
    && forall i :: 0 <= i < |v.list[e]| ==> v.list[e][i] in v.owner && v.owner[v.list[e][i]] == e
  }

  /** Mirror `n` is on the list of the entry that owns it. */
  ghost predicate Held(v: View, n: Ptr)
    requires n in v.owner
  {
    v.owner[n] in v.list && n in v.list[v.owner[n]]
  }

  ghost predicate Lists(m: Memory, v: View) {
    && m.head.Keys == v.list.Keys
    && (forall e {:trigger ListOk(m, v, e)} :: e in v.list ==> ListOk(m, v, e))
    && (forall n {:trigger Held(v, n)} :: n in v.owner ==> Held(v, n))
  }

  /** MRTF_KERNEL_CACHE says the list is not empty; an (S,G) mirrors its own pair or nothing. */
  ghost predicate KindOk(m: Memory, v: View, e: Ptr)
    requires e in v.list
  {
    && (e in m.cached <==> v.list[e] != [])
    && (e in v.own ==>
          |v.list[e]| <= 1 && (v.list[e] != [] ==> v.list[e][0] in m.key && m.key[v.list[e][0]] == v.own[e]))
  }

  ghost predicate Kinds(m: Memory, v: View) {
    && m.cached <= v.list.Keys
    && v.own.Keys <= v.list.Keys
    && (forall e {:trigger KindOk(m, v, e)} :: e in v.list ==> KindOk(m, v, e))
  }

  /** Every list is threaded, sorted and apart from the others, every mirror is on one, and the
      flags agree with the lists. */
  ghost predicate Ok(m: Memory, v: View) {
    && m.link.Keys == m.key.Keys == v.owner.Keys
    && Lists(m, v)
    && Kinds(m, v)
  }

  /** The pairs entry `e` mirrors. */
  ghost function Keys(m: Memory, v: View, e: Ptr): set<Key>
    requires e in v.list
  {
    KeysOf(v.list[e], m.key)
  }

  ghost predicate SameKeys(m: Memory, v: View, m': Memory, v': View, e: Ptr) {
    e in v.list && e in v'.list && Keys(m', v', e) == Keys(m, v, e)
  }

  /** Every entry but those of `except` mirrors what it did. */
  ghost predicate OthersKeep(m: Memory, v: View, m': Memory, v': View, except: set<Ptr>) {
    forall e {:trigger SameKeys(m, v, m', v', e)} :: e in v.list && e !in except ==> SameKeys(m, v, m', v', e)
  }

  /** The lists do not depend on links and pairs of nodes on none of them. */
  lemma ListsFrame(m: Memory, v: View, m': Memory)
    requires Lists(m, v) && m'.head == m.head
    requires forall n :: n in v.owner && n in m.link ==> n in m'.link && m'.link[n] == m.link[n]
    requires forall n :: n in v.owner && n in m.key ==> n in m'.key && m'.key[n] == m.key[n]
    ensures Lists(m', v)
    ensures forall f :: f in v.list ==> KeysOf(v.list[f], m'.key) == KeysOf(v.list[f], m.key)
  {
    forall f | f in v.list
      ensures ListOk(m', v, f)
      ensures KeysOf(v.list[f], m'.key) == KeysOf(v.list[f], m.key)
    {
      assert ListOk(m, v, f);
      ChainFrame(m.head[f], m.link, m'.link, v.list[f]);
      assert forall p :: p in v.list[f] ==> KeyAt(m'.key, p) == KeyAt(m.key, p);
    }
  }

  lemma AscendingWithout(s: seq<Ptr>, key: map<Ptr, Key>, k: nat)
    requires Ascending(s, key) && k < |s|
    ensures Ascending(Without(s, k), key)
  {
  }

  lemma AscendingInsert(s: seq<Ptr>, key: map<Ptr, Key>, k: nat, e: Ptr)
    requires Ascending(s, key) && k <= |s| && e in key
    requires forall i :: 0 <= i < k ==> Before(key[s[i]], key[e])
    requires forall i :: k <= i < |s| ==> Before(key[e], key[s[i]])
    ensures Ascending(Insert(s, k, e), key)
  {
  }

  lemma TakenOwned(s: seq<Ptr>, owner: map<Ptr, Ptr>, e: Ptr, i: nat)
    requires i < |s|
    requires forall j :: 0 <= j < |s| ==> s[j] in owner && owner[s[j]] == e
    requires forall p :: p in Without(s, i) <==> p in s && p != s[i]
    ensures var t := Without(s, i);
            forall j :: 0 <= j < |t| ==> t[j] in owner - {s[i]} && (owner - {s[i]})[t[j]] == e
  {
    var t := Without(s, i);
    forall j | 0 <= j < |t| ensures t[j] in s && t[j] != s[i] { assert t[j] in t; }
  }

  lemma JoinedOwned(s: seq<Ptr>, owner: map<Ptr, Ptr>, e: Ptr, i: nat, n: Ptr)
    requires i <= |s| && n !in owner
    requires forall j :: 0 <= j < |s| ==> s[j] in owner && owner[s[j]] == e
    ensures var t := Insert(s, i, n);
            forall j :: 0 <= j < |t| ==> t[j] in owner[n := e] && owner[n := e][t[j]] == e
  {
    InsertMembers(s, i, n);
    var t := Insert(s, i, n);
    forall j | 0 <= j < |t| ensures t[j] in s || t[j] == n { assert t[j] in t; }
  }

  /** The writes that take node `n` off entry `e`'s list, flag aside. */
  function Cut(m: Memory, e: Ptr, n: Ptr): Memory
    requires n in m.link && Linked(m.link[n].prev, m.link) && Linked(m.link[n].next, m.link)
  {
    m.(head := if m.link[n].prev == NULL then m.head[e := m.link[n].next] else m.head,
       link := Unlinked(m.link, n))
  }

  function CutView(v: View, e: Ptr, i: nat): View
    requires e in v.list && i < |v.list[e]|
  {
    v.(list := v.list[e := Without(v.list[e], i)], owner := v.owner - {v.list[e][i]})
  }

  /** Taking node `i` off entry `e`'s list leaves every list in order. */
  lemma CutNode(m: Memory, v: View, e: Ptr, i: nat)
    requires Lists(m, v) && e in v.list && i < |v.list[e]|
    ensures var n := v.list[e][i];
            && n in m.link && n in m.key && n in v.owner
            && Linked(m.link[n].prev, m.link) && Linked(m.link[n].next, m.link)
            && Cut(m, e, n).link.Keys == m.link.Keys
            && Lists(Cut(m, e, n), CutView(v, e, i))
            && (Cut(m, e, n).head[e] == NULL <==> |v.list[e]| == 1)
            && (m.link[n].prev == NULL ==> (m.link[n].next == NULL <==> |v.list[e]| == 1))
            && (|v.list[e]| == 1 ==> m.link[n].prev == NULL)
  {
    var s, n := v.list[e], v.list[e][i];
    assert ListOk(m, v, e);
    UnlinkChain(m.head[e], m.link, s, i);
    ChainNeighbours(m.head[e], m.link, s, i);
    AscendingWithout(s, m.key, i);
    var m', v' := Cut(m, e, n), CutView(v, e, i);
    forall f | f in v'.list ensures ListOk(m', v', f) {
      assert ListOk(m, v, f);
      if f != e {
        assert forall p :: p in v.list[f] ==> p !in s;
        ChainFrame(m.head[f], m.link, m'.link, v.list[f]);
      } else {
        TakenOwned(s, v.owner, e, i);
      }
    }
    forall k | k in v'.owner ensures Held(v', k) { assert Held(v, k); }
  }

  /** The writes that put node `n` on entry `e`'s list between `p` and `q`, flag included. */
  function Join(m: Memory, e: Ptr, n: Ptr, p: Ptr, q: Ptr): Memory
    requires Linked(p, m.link) && Linked(q, m.link)
  {
    m.(head := if p == NULL then m.head[e := n] else m.head,
       cached := m.cached + {e},
       link := LinkedBetween(m.link, n, p, q))
  }

  function JoinView(v: View, e: Ptr, k: nat, n: Ptr): View
    requires e in v.list && k <= |v.list[e]|
  {
    v.(list := v.list[e := Insert(v.list[e], k, n)], owner := v.owner[n := e])
  }

  ghost predicate Joinable(m: Memory, v: View, e: Ptr, k: nat, n: Ptr) {
    && Lists(m, v) && e in v.list && k <= |v.list[e]|
    && n != NULL && n !in v.owner && n in m.key
    && (forall i :: 0 <= i < k ==> v.list[e][i] in m.key && Before(m.key[v.list[e][i]], m.key[n]))
    && (forall i :: k <= i < |v.list[e]| ==> v.list[e][i] in m.key && Before(m.key[n], m.key[v.list[e][i]]))
    && Linked(At(v.list[e], k - 1), m.link) && Linked(At(v.list[e], k), m.link)
  }

  lemma JoinOwn(m: Memory, v: View, e: Ptr, k: nat, n: Ptr)
    requires Joinable(m, v, e, k, n)
    ensures ListOk(Join(m, e, n, At(v.list[e], k - 1), At(v.list[e], k)), JoinView(v, e, k, n), e)
  {
    var s := v.list[e];
    assert ListOk(m, v, e);
    LinkChain(m.head[e], m.link, s, k, n);
    AscendingInsert(s, m.key, k, n);
    JoinedOwned(s, v.owner, e, k, n);
    if 0 < k { assert s[k - 1] != NULL; }
  }

  lemma JoinOther(m: Memory, v: View, e: Ptr, k: nat, n: Ptr, f: Ptr)
    requires Joinable(m, v, e, k, n) && f in v.list && f != e
    ensures ListOk(Join(m, e, n, At(v.list[e], k - 1), At(v.list[e], k)), JoinView(v, e, k, n), f)
  {
    var s := v.list[e];
    assert ListOk(m, v, e) && ListOk(m, v, f);
    LinkChain(m.head[e], m.link, s, k, n);
    assert forall p :: p in v.list[f] ==> p !in s && p != n;
    ChainFrame(m.head[f], m.link, Join(m, e, n, At(s, k - 1), At(s, k)).link, v.list[f]);
  }

  /** Putting node `n` on entry `e`'s list, where its pair belongs, keeps every list in order. */
  lemma JoinNode(m: Memory, v: View, e: Ptr, k: nat, n: Ptr)
    requires Lists(m, v) && e in v.list && k <= |v.list[e]|
    requires n != NULL && n !in v.owner && n in m.key
    requires forall i :: 0 <= i < k ==> v.list[e][i] in m.key && Before(m.key[v.list[e][i]], m.key[n])
    requires forall i :: k <= i < |v.list[e]| ==> v.list[e][i] in m.key && Before(m.key[n], m.key[v.list[e][i]])
    ensures Joinable(m, v, e, k, n)
    ensures var p, q := At(v.list[e], k - 1), At(v.list[e], k);
            && Join(m, e, n, p, q).link.Keys == m.link.Keys + {n}
            && Lists(Join(m, e, n, p, q), JoinView(v, e, k, n))
  {
    hide ListOk;
    var s := v.list[e];
    JoinPlace(m, v, e, k, n);
    var m', v' := Join(m, e, n, At(s, k - 1), At(s, k)), JoinView(v, e, k, n);
    forall f | f in v'.list ensures ListOk(m', v', f) {
      if f == e { JoinOwn(m, v, e, k, n); } else { JoinOther(m, v, e, k, n, f); }
    }
    InsertMembers(s, k, n);
    forall j | j in v'.owner ensures Held(v', j) { assert j != n ==> Held(v, j); }
  }

  lemma JoinPlace(m: Memory, v: View, e: Ptr, k: nat, n: Ptr)
    requires Lists(m, v) && e in v.list && k <= |v.list[e]| && n != NULL && n !in v.owner
    ensures Linked(At(v.list[e], k - 1), m.link) && Linked(At(v.list[e], k), m.link)
    ensures LinkedBetween(m.link, n, At(v.list[e], k - 1), At(v.list[e], k)).Keys == m.link.Keys + {n}
    ensures 0 < k ==> At(v.list[e], k - 1) != NULL
  {
    assert ListOk(m, v, e);
    LinkChain(m.head[e], m.link, v.list[e], k, n);
  }

  function FreeNodesOf(m: Memory, gone: set<Ptr>): Memory {
    m.(link := m.link - gone, key := m.key - gone)
  }

  /** With entry `e`'s nodes freed the other lists are in order and mirror what they did. */
  lemma DropList(m: Memory, v: View, e: Ptr)
    requires Lists(m, v) && e in v.list
    ensures var gone := NodeSet(v.list[e]);
            var m' := FreeNodesOf(m, gone).(head := m.head[e := NULL]);
            && Lists(m', v.(list := v.list[e := []], owner := v.owner - gone))
            && forall f :: f in v.list && f != e ==> KeysOf(v.list[f], m'.key) == KeysOf(v.list[f], m.key)
  {
    var gone := NodeSet(v.list[e]);
    var m1, v' := m.(head := m.head[e := NULL]), v.(list := v.list[e := []], owner := v.owner - gone);
    assert ListOk(m, v, e);
    forall f | f in v'.list ensures ListOk(m1, v', f) { assert ListOk(m, v, f); }
    forall n | n in v'.owner ensures Held(v', n) { assert Held(v, n); }
    ListsFrame(m1, v', FreeNodesOf(m1, gone));
    assert forall f :: f in v.list && f != e ==> f in v'.list && v'.list[f] == v.list[f];
  }

  lemma KeysWithout(s: seq<Ptr>, key: map<Ptr, Key>, i: nat)
    requires Ascending(s, key) && i < |s|
    ensures KeysOf(Without(s, i), key) == KeysOf(s, key) - {key[s[i]]}
  {
    forall j | 0 <= j < |s| && j != i ensures s[j] != s[i] && key[s[j]] != key[s[i]] {
      assert Before(key[s[j]], key[s[i]]) || Before(key[s[i]], key[s[j]]);
    }
    WithoutMembers(s, i);
  }

  lemma KeysInsert(s: seq<Ptr>, key: map<Ptr, Key>, i: nat, n: Ptr)
    requires i <= |s| && n in key
    ensures KeysOf(Insert(s, i, n), key) == KeysOf(s, key) + {key[n]}
  {
    InsertMembers(s, i, n);
    assert forall p :: p in s ==> p in Insert(s, i, n) && KeyAt(key, p) in KeysOf(Insert(s, i, n), key);
    assert n in Insert(s, i, n) && KeyAt(key, n) in KeysOf(Insert(s, i, n), key);
  }

  // ----- the whole operations

  /** Where only `e`'s list, flag and nodes changed, the others are as they were. */
  lemma OnlyChanged(m: Memory, v: View, m': Memory, v': View, e: Ptr)
    requires Ok(m, v) && e in v.list
    requires Lists(m', v') && m'.link.Keys == m'.key.Keys == v'.owner.Keys
    requires v'.own == v.own && e in v'.list && v'.list == v.list[e := v'.list[e]]
    requires m'.cached <= m.cached + {e} && m.cached <= m'.cached + {e}
    requires forall n :: n in v.owner && v.owner[n] != e ==> n in m'.key && m'.key[n] == m.key[n]
    requires KindOk(m', v', e)
    ensures Ok(m', v') && OthersKeep(m, v, m', v', {e})
  {
    forall f | f in v.list && f != e ensures KindOk(m', v', f) && SameKeys(m, v, m', v', f) {
      assert ListOk(m, v, f) && KindOk(m, v, f);
      assert forall p :: p in v.list[f] ==> KeyAt(m'.key, p) == KeyAt(m.key, p);
    }
  }

  function Cleared(m: Memory, e: Ptr): Memory {
    m.(head := m.head[e := NULL], cached := m.cached - {e})
  }

  /** All of `e`'s mirrors deleted: everything is in order and only `e` lost pairs. */
  lemma AfterDeleteAll(m: Memory, v: View, e: Ptr)
    requires Ok(m, v) && e in v.list
    ensures var gone := NodeSet(v.list[e]);
            var m', v' := Cleared(FreeNodesOf(m, gone), e), v.(list := v.list[e := []], owner := v.owner - gone);
            Ok(m', v') && OthersKeep(m, v, m', v', {e})
  {
    var gone := NodeSet(v.list[e]);
    var m', v' := Cleared(FreeNodesOf(m, gone), e), v.(list := v.list[e := []], owner := v.owner - gone);
    DropList(m, v, e);
    var m1 := FreeNodesOf(m, gone).(head := m.head[e := NULL]);
    assert ListOk(m, v, e);
    forall f | f in v'.list ensures ListOk(m', v', f) { assert ListOk(m1, v', f); }
    OnlyChanged(m, v, m', v', e);
  }

  function Deleted(m: Memory, e: Ptr, n: Ptr): Memory
    requires n in m.link && Linked(m.link[n].prev, m.link) && Linked(m.link[n].next, m.link)
  {
    var c := Cut(m, e, n);
    FreeNodesOf(if m.link[n].prev == NULL && m.link[n].next == NULL then c.(cached := c.cached - {e}) else c, {n})
  }

  /** One mirror deleted from `e`'s list: everything is in order and only `e` lost that pair. */
  lemma AfterDelete(m: Memory, v: View, e: Ptr, i: nat)
    requires Ok(m, v) && e in v.list && i < |v.list[e]|
    ensures var n := v.list[e][i];
            && n in m.link && n in m.key
            && Linked(m.link[n].prev, m.link) && Linked(m.link[n].next, m.link)
            && var m', v' := Deleted(m, e, n), CutView(v, e, i);
            && Ok(m', v') && OthersKeep(m, v, m', v', {e})
            && Keys(m', v', e) == Keys(m, v, e) - {m.key[n]}
  {
    var n := v.list[e][i];
    CutNode(m, v, e, i);
    assert ListOk(m, v, e) && KindOk(m, v, e);
    KeysWithout(v.list[e], m.key, i);
    var m', v' := Deleted(m, e, n), CutView(v, e, i);
    ListsFrame(Cut(m, e, n), v', FreeNodesOf(Cut(m, e, n), {n}));
    forall f | f in v'.list ensures ListOk(m', v', f) { assert ListOk(FreeNodesOf(Cut(m, e, n), {n}), v', f); }
    assert KindOk(m', v', e);
    OnlyChanged(m, v, m', v', e);
  }

  /** A mirror added to a (*,G)'s list, or to an (S,G)'s empty one: only `e` gained the pair. */
  lemma AfterAdd(m: Memory, v: View, e: Ptr, i: nat, n: Ptr, k: Key)
    requires Ok(m, v) && e in v.list && i <= |v.list[e]|
    requires n != NULL && n !in m.link
    requires e in v.own ==> k == v.own[e] && v.list[e] == []
    requires forall j :: 0 <= j < i ==> v.list[e][j] in m.key && Before(m.key[v.list[e][j]], k)
    requires forall j :: i <= j < |v.list[e]| ==> v.list[e][j] in m.key && Before(k, m.key[v.list[e][j]])
    ensures var p, q := At(v.list[e], i - 1), At(v.list[e], i);
            && Linked(p, m.link) && Linked(q, m.link)
            && var m', v' := Join(m.(key := m.key[n := k]), e, n, p, q), JoinView(v, e, i, n);
            && Ok(m', v') && OthersKeep(m, v, m', v', {e})
            && Keys(m', v', e) == Keys(m, v, e) + {k}
  {
    hide Lists, Kinds, KeysOf, Joinable, OthersKeep;
    var m1 := m.(key := m.key[n := k]);
    ListsFrame(m, v, m1);
    JoinNode(m1, v, e, i, n);
    KeysInsert(v.list[e], m1.key, i, n);
    var m', v' := Join(m1, e, n, At(v.list[e], i - 1), At(v.list[e], i)), JoinView(v, e, i, n);
    JoinedKind(m', v', e, i, n);
    OnlyChanged(m, v, m', v', e);
  }

  lemma JoinedKind(m: Memory, v: View, e: Ptr, i: nat, n: Ptr)
    requires e in v.list && i < |v.list[e]| && v.list[e][i] == n && e in m.cached
    requires e in v.own ==> |v.list[e]| == 1 && n in m.key && m.key[n] == v.own[e]
    ensures KindOk(m, v, e)
  {
  }

  /** The writes of move_kernel_cache once it found node `n` on the (*,G)'s list: `n` leaves `w`,
      what `e` mirrored is freed, and `n` becomes the whole of `e`'s list. */
  function Moved(m: Memory, e: Ptr, w: Ptr, n: Ptr): Memory
    requires e in m.head && w != e
    requires n in m.link && Linked(m.link[n].prev, m.link) && Linked(m.link[n].next, m.link)
  {
    var c := Cut(m, w, n);
    var f := if w in c.head && c.head[w] == NULL then c.(cached := c.cached - {w}) else c;
    var d := if m.head[e] != NULL then FreeNodesOf(f, {m.head[e]}) else f;
    d.(cached := d.cached + {e}, head := d.head[e := n], link := d.link[n := Link(NULL, NULL)])
  }

  ghost function MovedView(v: View, e: Ptr, w: Ptr, i: nat): View
    requires w in v.list && i < |v.list[w]| && e in v.list && e != w
  {
    var n := v.list[w][i];
    v.(list := v.list[w := Without(v.list[w], i)][e := [n]],
       owner := ((v.owner - {n}) - NodeSet(v.list[e]))[n := e])
  }

  /** Cutting `n` out of `w`'s list, dropping `e`'s and joining `n` to it keeps every list in order. */
  lemma CutDropJoin(m: Memory, v: View, e: Ptr, w: Ptr, i: nat, gone: set<Ptr>)
    requires Lists(m, v) && e in v.list && w in v.list && w != e && i < |v.list[w]|
    requires gone == NodeSet(v.list[e])
    ensures var n := v.list[w][i];
            && n in m.link && n in m.key && n !in gone
            && Linked(m.link[n].prev, m.link) && Linked(m.link[n].next, m.link)
            && var c := Cut(m, w, n);
            && c.link.Keys == m.link.Keys
            && (c.head[w] == NULL <==> |v.list[w]| == 1)
            && w in c.head && Lists(Rejoined(m, e, w, n, gone), MovedView(v, e, w, i))
  {
    var n := v.list[w][i];
    CutNode(m, v, w, i);
    assert ListOk(m, v, w) && ListOk(m, v, e);
    var c, v1 := Cut(m, w, n), CutView(v, w, i);
    assert v1.list[e] == v.list[e];
    DropList(c, v1, e);
    var d, v2 := FreeNodesOf(c, gone).(head := c.head[e := NULL]),
        v1.(list := v1.list[e := []], owner := v1.owner - gone);
    JoinNode(d, v2, e, 0, n);
    assert Insert([], 0, n) == [n];
    assert MovedView(v, e, w, i) == JoinView(v2, e, 0, n);
  }

  lemma MovedLists(m: Memory, v: View, e: Ptr, w: Ptr, i: nat)
    requires Ok(m, v) && e in v.own && w in v.list && w != e
    requires i < |v.list[w]|
    ensures var n := v.list[w][i];
            && e in m.head && n in m.link && n in m.key
            && Linked(m.link[n].prev, m.link) && Linked(m.link[n].next, m.link)
            && var m', v' := Moved(m, e, w, n), MovedView(v, e, w, i);
            && Lists(m', v')
            && m'.link.Keys == m'.key.Keys == v'.owner.Keys
            && m'.cached == (if |v.list[w]| == 1 then m.cached - {w} else m.cached) + {e}
            && m'.key == m.key - NodeSet(v.list[e])
  {
    hide Lists, Kinds, Cut, Join, MovedView, FreeNodesOf;
    OwnList(m, v, e);
    var n, gone := v.list[w][i], NodeSet(v.list[e]);
    CutDropJoin(m, v, e, w, i, gone);
    var j, m', v' := Rejoined(m, e, w, n, gone), Moved(m, e, w, n), MovedView(v, e, w, i);
    MovedIs(m, e, w, n, gone);
    MovedNodes(m, e, w, n, gone);
    ListsAnyFlag(j, v', m');
    MovedOwners(m, v, e, w, i);
  }

  /** `n` cut out of `w`'s list, `e`'s nodes dropped, and `n` joined to it. */
  function Rejoined(m: Memory, e: Ptr, w: Ptr, n: Ptr, gone: set<Ptr>): Memory
    requires n in m.link && Linked(m.link[n].prev, m.link) && Linked(m.link[n].next, m.link)
  {
    var c := Cut(m, w, n);
    Join(FreeNodesOf(c, gone).(head := c.head[e := NULL]), e, n, NULL, NULL)
  }

  /** What move_kernel_cache writes is that, the flag of `w` aside. */
  lemma MovedIs(m: Memory, e: Ptr, w: Ptr, n: Ptr, gone: set<Ptr>)
    requires e in m.head && w != e && n in m.link && Linked(m.link[n].prev, m.link) && Linked(m.link[n].next, m.link)
    requires gone == (if m.head[e] == NULL then {} else {m.head[e]}) && n !in gone
    requires Cut(m, w, n).link.Keys == m.link.Keys
    ensures var j, m' := Rejoined(m, e, w, n, gone), Moved(m, e, w, n);
            && m'.head == j.head && m'.link == j.link && m'.key == j.key == m.key - gone
            && m'.cached ==
                  (if w in Cut(m, w, n).head && Cut(m, w, n).head[w] == NULL then m.cached - {w} else m.cached) + {e}
  {
  }

  lemma MovedNodes(m: Memory, e: Ptr, w: Ptr, n: Ptr, gone: set<Ptr>)
    requires n in m.link && Linked(m.link[n].prev, m.link) && Linked(m.link[n].next, m.link)
    requires n !in gone && Cut(m, w, n).link.Keys == m.link.Keys
    ensures Rejoined(m, e, w, n, gone).link.Keys == m.link.Keys - gone
  {
  }

  lemma MovedOwners(m: Memory, v: View, e: Ptr, w: Ptr, i: nat)
    requires Lists(m, v) && e in v.list && w in v.list && w != e && i < |v.list[w]|
    ensures MovedView(v, e, w, i).owner.Keys == v.owner.Keys - NodeSet(v.list[e])
  {
    OnTheList(m, v, e);
    OnTheList(m, v, w);
    assert v.list[w][i] in v.list[w];
  }

  lemma OnTheList(m: Memory, v: View, e: Ptr)
    requires Lists(m, v) && e in v.list
    ensures forall p :: p in v.list[e] ==> p in v.owner && v.owner[p] == e
  {
    assert ListOk(m, v, e);
  }

  lemma ListsAnyFlag(m: Memory, v: View, m': Memory)
    requires Lists(m, v) && m'.head == m.head && m'.link == m.link && m'.key == m.key
    ensures Lists(m', v)
  {
    forall f | f in v.list ensures ListOk(m', v, f) { assert ListOk(m, v, f); }
  }

  /** The list of an (S,G) is its head, if it has one. */
  lemma OwnList(m: Memory, v: View, e: Ptr)
    requires Ok(m, v) && e in v.own
    ensures e in v.list && e in m.head && NodeSet(v.list[e]) == if m.head[e] == NULL then {} else {m.head[e]}
  {
    assert ListOk(m, v, e) && KindOk(m, v, e);
  }

  lemma MovedKinds(m: Memory, v: View, e: Ptr, w: Ptr, i: nat, m': Memory, f: Ptr)
    requires Ok(m, v) && e in v.own && w in v.list && w !in v.own && f in v.list
    requires i < |v.list[w]| && v.list[w][i] in m.key && m.key[v.list[w][i]] == v.own[e]
    requires m'.cached == (if |v.list[w]| == 1 then m.cached - {w} else m.cached) + {e}
    requires m'.key == m.key - NodeSet(v.list[e])
    ensures KindOk(m', MovedView(v, e, w, i), f)
    ensures f != e && f != w ==> SameKeys(m, v, m', MovedView(v, e, w, i), f)
  {
    assert ListOk(m, v, f) && KindOk(m, v, f);
    assert ListOk(m, v, w) && ListOk(m, v, e);
    assert f != e ==> forall p :: p in v.list[f] ==> KeyAt(m'.key, p) == KeyAt(m.key, p);
  }

  lemma MovedKeys(m: Memory, v: View, e: Ptr, w: Ptr, i: nat, key': map<Ptr, Key>)
    requires Lists(m, v) && e in v.own && e in v.list && w in v.list && w != e
    requires i < |v.list[w]| && v.list[w][i] in m.key && m.key[v.list[w][i]] == v.own[e]
    requires key' == m.key - NodeSet(v.list[e])
    ensures KeysOf([v.list[w][i]], key') == {v.own[e]}
    ensures KeysOf(Without(v.list[w], i), key') == KeysOf(v.list[w], m.key) - {v.own[e]}
  {
    assert ListOk(m, v, w) && ListOk(m, v, e);
    var s, n := v.list[w], v.list[w][i];
    KeysWithout(s, m.key, i);
    assert forall p :: p in s ==> p !in v.list[e] && KeyAt(key', p) == KeyAt(m.key, p);
    forall p | p in Without(s, i) ensures p in s { assert Without(s, i) == s[..i] + s[i + 1..]; }
    assert n in [n] && KeyAt(key', n) == v.own[e];
  }

  /** A mirror moved from the (*,G) `w` to the (S,G) `e`: the pairs the two mirror between them are
      the same, no pair is on both, and no other entry is affected. */
  lemma AfterMove(m: Memory, v: View, e: Ptr, w: Ptr, i: nat)
    requires Ok(m, v) && e in v.own && w in v.list && w !in v.own
    requires i < |v.list[w]| && v.list[w][i] in m.key && m.key[v.list[w][i]] == v.own[e]
    ensures var n := v.list[w][i];
            && e in m.head && n in m.link
            && Linked(m.link[n].prev, m.link) && Linked(m.link[n].next, m.link)
            && var m', v' := Moved(m, e, w, n), MovedView(v, e, w, i);
            && Ok(m', v') && OthersKeep(m, v, m', v', {e, w}) && m'.link.Keys <= m.link.Keys
            && Keys(m', v', e) == {v.own[e]}
            && Keys(m', v', w) == Keys(m, v, w) - {v.own[e]}
            && m'.key == m.key - if m.head[e] == NULL then {} else {m.head[e]}
  {
    OwnList(m, v, e);
    MovedLists(m, v, e, w, i);
    var m', v' := Moved(m, e, w, v.list[w][i]), MovedView(v, e, w, i);
    MovedKeys(m, v, e, w, i, m'.key);
    forall f | f in v.list ensures KindOk(m', v', f) && (f != e && f != w ==> SameKeys(m, v, m', v', f)) {
      MovedKinds(m, v, e, w, i, m', f);
    }
  }

  lemma EntryStays(m: Memory, v: View, m': Memory, v': View, f: Ptr)
    requires f in v.list && ListOk(m, v, f) && KindOk(m, v, f)
    requires f in v'.list && v'.list[f] == v.list[f] && v'.owner == v.owner
    requires m'.link == m.link && m'.key == m.key && m'.cached == m.cached
    requires f in m'.head && m'.head[f] == m.head[f]
    requires f in v'.own ==> f in v.own && v'.own[f] == v.own[f]
    ensures ListOk(m', v', f) && KindOk(m', v', f)
  {
  }

  lemma EmptyListOk(m: Memory, v: View, e: Ptr)
    requires e in v.list && v.list[e] == [] && e in m.head && m.head[e] == NULL && e !in m.cached
    ensures ListOk(m, v, e) && KindOk(m, v, e)
  {
  }

  lemma EntryAdded(m: Memory, v: View, e: Ptr, own: map<Ptr, Key>)
    requires Ok(m, v) && e !in v.list && (own == v.own || (e in own && own == v.own[e := own[e]]))
    ensures Ok(m.(head := m.head[e := NULL]), v.(list := v.list[e := []], own := own))
  {
    hide ListOk, KindOk;
    var m', v' := m.(head := m.head[e := NULL]), v.(list := v.list[e := []], own := own);
    forall f | f in v'.list ensures ListOk(m', v', f) && KindOk(m', v', f) {
      if f == e { EmptyListOk(m', v', e); } else { EntryStays(m, v, m', v', f); }
    }
    forall n | n in v'.owner ensures Held(v', n) { assert Held(v, n); }
  }

  lemma EntryGone(m: Memory, v: View, e: Ptr)
    requires Ok(m, v) && e in v.list && e !in m.cached
    ensures m.head[e] == NULL
    ensures Ok(m.(head := m.head - {e}), v.(list := v.list - {e}, own := v.own - {e}))
  {
    assert ListOk(m, v, e) && KindOk(m, v, e);
    var m', v' := m.(head := m.head - {e}), v.(list := v.list - {e}, own := v.own - {e});
    forall f | f in v'.list ensures ListOk(m', v', f) && KindOk(m', v', f) { EntryStays(m, v, m', v', f); }
    forall n | n in v'.owner ensures Held(v', n) { assert Held(v, n); }
  }

  /** What an (S,G) can mirror is its own pair, and the flag says whether it does. */
  lemma OwnKeys(m: Memory, v: View, e: Ptr)
    requires Ok(m, v) && e in v.own
    ensures Keys(m, v, e) == if e in m.cached then {v.own[e]} else {}
    ensures e !in m.cached ==> v.list[e] == []
  {
    assert ListOk(m, v, e) && KindOk(m, v, e);
    if e in m.cached { assert v.list[e] == [v.list[e][0]] && KeyAt(m.key, v.list[e][0]) == v.own[e]; }
  }

  lemma NothingChanged(m: Memory, v: View, except: set<Ptr>)
    ensures OthersKeep(m, v, m, v, except)
  {
  }

  // ----- every mirror that goes is a k_del_mfc

  ghost function MirrorsOf(key: map<Ptr, Key>, k: Key): set<Ptr> {
    set n | n in key && key[n] == k
  }

  /** How many mirrors are of pair `k`. */
  ghost function Count(key: map<Ptr, Key>, k: Key): nat {
    |MirrorsOf(key, k)|
  }

  /** Between two states, the mirrors gone and the k_del_mfc made are the same, pair by pair. */
  ghost predicate Paired(key: map<Ptr, Key>, calls: seq<Key>, key': map<Ptr, Key>, calls': seq<Key>) {
    && calls <= calls'
    && forall k :: Count(key, k) == Count(key', k) + multiset(calls'[|calls|..])[k]
  }

  lemma PairedSame(key: map<Ptr, Key>, calls: seq<Key>)
    ensures Paired(key, calls, key, calls)
  {
    assert calls[|calls|..] == [];
  }

  lemma PairedTrans(k1: map<Ptr, Key>, c1: seq<Key>, k2: map<Ptr, Key>, c2: seq<Key>, k3: map<Ptr, Key>, c3: seq<Key>)
    requires Paired(k1, c1, k2, c2) && Paired(k2, c2, k3, c3)
    ensures Paired(k1, c1, k3, c3)
  {
    assert c3[|c1|..] == c2[|c1|..] + c3[|c2|..];
  }

  lemma PairedAfter(key: map<Ptr, Key>, key': map<Ptr, Key>, before: seq<Key>, calls: seq<Key>)
    requires Paired(key, [], key', calls)
    ensures Paired(key, before, key', before + calls)
  {
    assert (before + calls)[|before|..] == calls == calls[0..];
  }

  lemma CountOne(key: map<Ptr, Key>, n: Ptr, k: Key)
    requires n in key
    ensures Count(key, k) == Count(key - {n}, k) + if key[n] == k then 1 else 0
  {
    assert MirrorsOf(key - {n}, k) == MirrorsOf(key, k) - {n};
  }

  /** One mirror freed and its pair deleted from the kernel are a pair. */
  lemma OnePaired(key: map<Ptr, Key>, n: Ptr)
    requires n in key
    ensures Paired(key, [], key - {n}, [key[n]])
  {
    assert [key[n]][0..] == [key[n]];
    forall k ensures Count(key, k) == Count(key - {n}, k) + multiset([key[n]])[k] { CountOne(key, n, k); }
  }

  lemma {:induction false} CountList(key: map<Ptr, Key>, s: seq<Ptr>, i: nat, k: Key)
    requires i <= |s| && (forall j :: 0 <= j < |s| ==> s[j] in key) && forall j, l :: 0 <= j < l < |s| ==> s[j] != s[l]
    ensures Count(key, k) == Count(key - NodeSet(s[..i]), k) + multiset(KeySeq(s, key)[..i])[k]
  {
    if i == 0 {
      assert key - NodeSet(s[..0]) == key;
    } else {
      CountList(key, s, i - 1, k);
      var rest := key - NodeSet(s[..i - 1]);
      CountOne(rest, s[i - 1], k);
      assert s[..i] == s[..i - 1] + [s[i - 1]];
      assert rest - {s[i - 1]} == key - NodeSet(s[..i]);
      assert KeySeq(s, key)[..i] == KeySeq(s, key)[..i - 1] + [key[s[i - 1]]];
    }
  }

  /** Deleting all mirrors of an entry pairs each with one k_del_mfc. */
  lemma ListPaired(m: Memory, v: View, e: Ptr, calls: seq<Key>)
    requires Ok(m, v) && e in v.list
    ensures Paired(m.key, calls, m.key - NodeSet(v.list[e]), calls + KeySeq(v.list[e], m.key))
  {
    var s := v.list[e];
    assert ListOk(m, v, e);
    forall j, l | 0 <= j < l < |s| ensures s[j] != s[l] { ChainDistinct(m.head[e], m.link, s, j, l); }
    assert (calls + KeySeq(s, m.key))[|calls|..] == KeySeq(s, m.key)[..|s|] && s[..|s|] == s;
    forall k ensures Count(m.key, k) == Count(m.key - NodeSet(s), k) + multiset(KeySeq(s, m.key))[k] {
      CountList(m.key, s, |s|, k);
      assert KeySeq(s, m.key)[..|s|] == KeySeq(s, m.key);
    }
  }

  // ----- the mirrors and what the kernel has

  /** The pairs that are mirrored. */
  ghost function MirroredPairs(key: map<Ptr, Key>): set<Key> {
    set n | n in key :: key[n]
  }

  lemma MirroredCount(key: map<Ptr, Key>, k: Key)
    ensures k in MirroredPairs(key) <==> Count(key, k) > 0
  {
    if k in MirroredPairs(key) {
      var n :| n in key && key[n] == k;
      assert n in MirrorsOf(key, k);
    }
    if Count(key, k) > 0 {
      var n :| n in MirrorsOf(key, k);
    }
  }

  /** What the kernel has left of `cache` once it has deleted the pairs of `calls`. */
  ghost function KernelLess(cache: set<Key>, calls: seq<Key>): set<Key> {
    cache - set k | k in calls
  }

  /** Where the mirrors were what the kernel had, they still are exactly if no pair that the kernel was
      told to delete is mirrored a second time; and what the kernel has is mirrored in any case. */
  lemma AgreeExactly(key: map<Ptr, Key>, calls: seq<Key>, key': map<Ptr, Key>, calls': seq<Key>)
    requires Paired(key, calls, key', calls')
    ensures var now := KernelLess(MirroredPairs(key), calls'[|calls|..]);
            && now <= MirroredPairs(key') <= MirroredPairs(key)
            && (now == MirroredPairs(key') <==> forall k :: k in calls'[|calls|..] ==> Count(key', k) == 0)
  {
    var new' := calls'[|calls|..];
    forall k ensures k in MirroredPairs(key') ==> k in MirroredPairs(key)
             ensures k in MirroredPairs(key') <==> Count(key', k) > 0
             ensures k in MirroredPairs(key) && k !in new' ==> k in MirroredPairs(key')
    {
      MirroredCount(key, k);
      MirroredCount(key', k);
      assert multiset(new')[k] > 0 <==> k in new';
    }
  }

  /** Before the call: mirrors and kernel will agree exactly if each pair is to be deleted as often as it
      is mirrored. */
  lemma AgreeBefore(key: map<Ptr, Key>, key': map<Ptr, Key>, calls: seq<Key>)
    requires Paired(key, [], key', calls)
    ensures KernelLess(MirroredPairs(key), calls) == MirroredPairs(key') <==>
              forall k :: k in calls ==> Count(key, k) == multiset(calls)[k]
  {
    hide Count, MirroredPairs;
    AgreeExactly(key, [], key', calls);
    assert calls[0..] == calls;
    assert forall k :: Count(key, k) == Count(key', k) + multiset(calls)[k];
  }

  /** Deleting pair `k` from entry `e` keeps mirrors and kernel in agreement exactly if `e` does not
      mirror it or nobody else does. */
  lemma PairAgrees(m: Memory, v: View, e: Ptr, k: Key, key': map<Ptr, Key>)
    requires e in v.list && Paired(m.key, [], key', if k in Keys(m, v, e) then [k] else [])
    ensures var calls := if k in Keys(m, v, e) then [k] else [];
            KernelLess(MirroredPairs(m.key), calls) == MirroredPairs(key') <==>
              (k in Keys(m, v, e) ==> Count(m.key, k) == 1)
  {
    hide Keys, Paired, Count, MirroredPairs;
    AgreeBefore(m.key, key', if k in Keys(m, v, e) then [k] else []);
  }

  /** Every pair of an ascending list is there once. */
  lemma OnceInList(s: seq<Ptr>, key: map<Ptr, Key>, k: Key)
    requires Ascending(s, key) && k in KeySeq(s, key)
    ensures multiset(KeySeq(s, key))[k] == 1
  {
    var ks := KeySeq(s, key);
    forall i, j | 0 <= i < j < |ks| ensures ks[i] != ks[j] { assert Before(key[s[i]], key[s[j]]); }
    OnceInSeq(ks, k);
  }

  lemma OnceInSeq(ks: seq<Key>, k: Key)
    requires k in ks && forall i, j :: 0 <= i < j < |ks| ==> ks[i] != ks[j]
    ensures multiset(ks)[k] == 1
  {
    var i :| 0 <= i < |ks| && ks[i] == k;
    assert ks == ks[..i] + [k] + ks[i + 1..];
    assert k !in multiset(ks[..i]) && k !in multiset(ks[i + 1..]);
  }

  /** Deleting all mirrors of entry `e` does exactly if no other entry mirrors a pair of them. */
  lemma AllAgree(m: Memory, v: View, e: Ptr)
    requires Ok(m, v) && e in v.list
    ensures KernelLess(MirroredPairs(m.key), KeySeq(v.list[e], m.key)) == MirroredPairs(m.key - NodeSet(v.list[e])) <==>
              forall k :: k in Keys(m, v, e) ==> Count(m.key, k) == 1
  {
    hide Count, MirroredPairs, Paired;
    var s := v.list[e];
    var calls := KeySeq(s, m.key);
    ListPaired(m, v, e, []);
    assert [] + calls == calls;
    AgreeBefore(m.key, m.key - NodeSet(s), calls);
    assert ListOk(m, v, e);
    KeysListed(s, m.key);
    forall k | k in calls ensures multiset(calls)[k] == 1 { OnceInList(s, m.key, k); }
  }

  lemma KeysListed(s: seq<Ptr>, key: map<Ptr, Key>)
    ensures forall k :: k in KeySeq(s, key) <==> k in KeysOf(s, key)
  {
    forall k | k in KeysOf(s, key) ensures k in KeySeq(s, key) {
      var p :| p in s && KeyAt(key, p) == k;
      assert KeySeq(s, key)[IndexOf(s, p)] == k;
    }
  }

  /** As long as no pair is mirrored twice, the mirrors stay what the kernel has. */
  lemma AgreeIfOnce(key: map<Ptr, Key>, calls: seq<Key>, key': map<Ptr, Key>, calls': seq<Key>)
    requires Paired(key, calls, key', calls') && forall k :: Count(key, k) <= 1
    ensures KernelLess(MirroredPairs(key), calls'[|calls|..]) == MirroredPairs(key')
    ensures forall k :: Count(key', k) <= 1
  {
    AgreeExactly(key, calls, key', calls');
    forall k | k in calls'[|calls|..] ensures Count(key', k) == 0 {
      assert multiset(calls'[|calls|..])[k] > 0;
    }
  }

  // ----- the operations, on the memory they are given; `calls` are the k_del_mfc made, in order

  /** The nodes of `e`'s list are freed, each with one k_del_mfc, in list order. */
  method FreeList(m: Memory, ghost v: View, e: Ptr) returns (m': Memory, calls: seq<Key>)
    requires Ok(m, v) && e in v.list
    ensures m' == FreeNodesOf(m, NodeSet(v.list[e]))
    ensures calls == KeySeq(v.list[e], m.key)
  {
    ghost var s := v.list[e];
    assert ListOk(m, v, e);
    m', calls := m, [];
    var node := m.head[e];
    ghost var i := 0;
    while node != NULL
      invariant 0 <= i <= |s| && node == At(s, i)
      invariant m' == FreeNodesOf(m, NodeSet(s[..i]))
      invariant calls == KeySeq(s, m.key)[..i]
      decreases |s| - i
    {
      ChainNeighbours(m.head[e], m.link, s, i);
      forall j | 0 <= j < i ensures s[j] != s[i] { ChainDistinct(m.head[e], m.link, s, j, i); }
      var prev := node;
      node := m'.link[node].next;
      calls := calls + [m'.key[prev]];
      m' := m'.(link := m'.link - {prev}, key := m'.key - {prev});
      assert s[..i + 1] == s[..i] + [s[i]];
      i := i + 1;
    }
    assert i == |s| && s[..i] == s;
  }

  /** delete_mrtentry_all_kernel_cache: every mirror of `e` goes, each with one k_del_mfc, in list order. */
  method DeleteAll(m: Memory, ghost v: View, e: Ptr) returns (m': Memory, ghost v': View, calls: seq<Key>)
    requires Ok(m, v) && e in v.list
    ensures Ok(m', v') && e !in m'.cached
    ensures v'.list == v.list[e := []] && v'.own == v.own
    ensures calls == KeySeq(v.list[e], m.key) && m'.key == m.key - NodeSet(v.list[e])
    ensures OthersKeep(m, v, m', v', {e})
  {
    m', v', calls := m, v, [];
    if e !in m.cached {
      assert KindOk(m, v, e);
      assert v.list == v.list[e := []];
      NothingChanged(m, v, {e});
      return;
    }
    AfterDeleteAll(m, v, e);
    m', calls := FreeList(m, v, e);
    m' := m'.(head := m'.head[e := NULL], cached := m'.cached - {e});
    v' := v.(list := v.list[e := []], owner := v.owner - NodeSet(v.list[e]));
  }

  /** The walk every search of a list makes: past the pairs before `k`, to the first not before it. */
  method Seek(m: Memory, ghost v: View, e: Ptr, k: Key) returns (prev: Ptr, node: Ptr, found: bool, ghost i: nat)
    requires Ok(m, v) && e in v.list
    ensures i <= |v.list[e]| && prev == At(v.list[e], i - 1) && node == At(v.list[e], i)
    ensures found ==> i < |v.list[e]| && node in m.key && m.key[node] == k
    ensures found <==> k in Keys(m, v, e)
    ensures forall j :: 0 <= j < i ==> v.list[e][j] in m.key && Before(m.key[v.list[e][j]], k)
    ensures !found ==> forall j :: i <= j < |v.list[e]| ==> v.list[e][j] in m.key && Before(k, m.key[v.list[e][j]])
  {
    assert ListOk(m, v, e);
    ghost var s := v.list[e];
    i, prev, node, found := 0, NULL, m.head[e], false;
    while node != NULL
      invariant i <= |s| && prev == At(s, i - 1) && node == At(s, i) && !found
      invariant forall j :: 0 <= j < i ==> Before(m.key[s[j]], k)
      decreases |s| - i
    {
      ChainNeighbours(m.head[e], m.link, s, i);
      if Before(m.key[node], k) {
        prev, node := node, m.link[node].next;
        i := i + 1;
      } else {
        found := m.key[node] == k;
        break;
      }
    }
    if found { assert KeyAt(m.key, s[i]) == k; }
  }

  /** delete_single_kernel_cache: one mirror goes, with one k_del_mfc; the flag follows the list. */
  method DeleteNode(m: Memory, ghost v: View, e: Ptr, node: Ptr, ghost i: nat)
    returns (m': Memory, ghost v': View, calls: seq<Key>)
    requires Ok(m, v) && e in v.list && i < |v.list[e]| && node == v.list[e][i]
    ensures Ok(m', v') && v'.list.Keys == v.list.Keys && v'.own == v.own
    ensures node in m.key && calls == [m.key[node]] && m'.key == m.key - {node}
    ensures Keys(m', v', e) == Keys(m, v, e) - {m.key[node]}
    ensures OthersKeep(m, v, m', v', {e})
  {
    AfterDelete(m, v, e, i);
    calls := [m.key[node]];
    m' := Deleted(m, e, node);
    v' := CutView(v, e, i);
  }

  /** delete_single_kernel_cache_addr: the mirror of pair `k` goes, with one k_del_mfc, if there is one. */
  method DeletePair(m: Memory, ghost v: View, e: Ptr, k: Key) returns (m': Memory, ghost v': View, calls: seq<Key>)
    requires Ok(m, v) && e in v.list
    ensures Ok(m', v') && v'.list.Keys == v.list.Keys && v'.own == v.own
    ensures calls == if k in Keys(m, v, e) then [k] else []
    ensures Keys(m', v', e) == Keys(m, v, e) - {k}
    ensures OthersKeep(m, v, m', v', {e}) && Paired(m.key, [], m'.key, calls)
  {
    hide Paired;
    m', v', calls := m, v, [];
    PairedSame(m.key, []);
    var _, node, found, i := Seek(m, v, e, k);
    if found {
      m', v', calls := DeleteNode(m, v, e, node, i);
      OnePaired(m.key, node);
    } else {
      NothingChanged(m, v, {e});
    }
  }

  lemma HasHead(m: Memory, v: View, e: Ptr)
    requires Ok(m, v) && e in v.list
    ensures e in m.head
  {
  }

  /** Freeing what an (S,G) mirrors, while `n` mirrors its pair too, is one deletion left out if it
      mirrors anything, and takes no pair out of what is mirrored. */
  lemma MovedPaired(m: Memory, v: View, e: Ptr, w: Ptr, n: Ptr)
    requires Ok(m, v) && e in v.own && w in v.list && w != e && n in v.list[w] && n in m.key && m.key[n] == v.own[e]
    ensures e in m.head && e in v.list
    ensures var key' := m.key - if m.head[e] == NULL then {} else {m.head[e]};
            && (Paired(m.key, [], key', []) <==> v.own[e] !in Keys(m, v, e))
            && MirroredPairs(key') == MirroredPairs(m.key)
  {
    hide Paired, MirroredPairs, Count;
    OwnList(m, v, e);
    OwnKeys(m, v, e);
    OnTheList(m, v, e);
    OnTheList(m, v, w);
    assert ListOk(m, v, e) && KindOk(m, v, e);
    if m.head[e] == NULL {
      assert m.key - {} == m.key;
      PairedSame(m.key, []);
    } else {
      FreedUnpaired(m.key, m.head[e], n);
    }
  }

  lemma FreedUnpaired(key: map<Ptr, Key>, h: Ptr, n: Ptr)
    requires h in key && n in key && h != n && key[h] == key[n]
    ensures !Paired(key, [], key - {h}, []) && MirroredPairs(key - {h}) == MirroredPairs(key)
  {
    var calls: seq<Key> := [];
    assert calls[0..] == [];
    CountOne(key, h, key[h]);
    forall x | x in key ensures key[x] in MirroredPairs(key - {h}) {
      var y := if x == h then n else x;
      assert y in key - {h} && (key - {h})[y] == key[x];
    }
  }

  /** move_kernel_cache: an (S,G) takes over the mirror of its pair from its (*,G), when there is
      one and the two have the same incoming interface or the caller insists.  Between them they
      mirror the pairs they did, and no k_del_mfc is made: the mirror the (S,G) had is freed, which
      leaves a deletion out exactly if both mirrored the pair. */
  method Move(m: Memory, ghost v: View, e: Ptr, sg: bool, pair: Key, wc: Ptr, sameIif: bool, force: bool)
    returns (m': Memory, ghost v': View)
    requires Ok(m, v) && e in v.list && (sg <==> e in v.own) && (sg ==> pair == v.own[e])
    requires sg && wc != NULL ==> wc in v.list && wc !in v.own
    ensures Ok(m', v') && v'.list.Keys == v.list.Keys && v'.own == v.own && m'.link.Keys <= m.link.Keys
    ensures OthersKeep(m, v, m', v', {e, wc})
    ensures sg && wc != NULL && (sameIif || force) && pair in Keys(m, v, wc) ==>
              Keys(m', v', e) == {pair} && Keys(m', v', wc) == Keys(m, v, wc) - {pair}
    ensures !(sg && wc != NULL && (sameIif || force) && pair in Keys(m, v, wc)) ==> m' == m && v' == v
    ensures sg && wc != NULL ==> Keys(m', v', e) + Keys(m', v', wc) == Keys(m, v, e) + Keys(m, v, wc)
    ensures e in m.head && m'.key == m.key -
              if sg && wc != NULL && (sameIif || force) && pair in Keys(m, v, wc) && m.head[e] != NULL
              then {m.head[e]} else {}
    ensures Paired(m.key, [], m'.key, []) <==>
              !(sg && wc != NULL && (sameIif || force) && pair in Keys(m, v, wc) && pair in Keys(m, v, e))
    ensures MirroredPairs(m'.key) == MirroredPairs(m.key)
  {
    hide Ok, OthersKeep, KeysOf, Paired, MirroredPairs, Moved;
    m', v' := m, v;
    HasHead(m, v, e);
    NothingChanged(m, v, {e, wc});
    PairedSame(m.key, []);
    if !sg || wc == NULL { return; }
    if !sameIif && !force { return; }
    var _, node, found, i := Seek(m, v, wc, pair);
    if found {
      OwnKeys(m, v, e);
      AfterMove(m, v, e, wc, i);
      MovedPaired(m, v, e, wc, node);
      m' := Moved(m, e, wc, node);
      v' := MovedView(v, e, wc, i);
    }
  }

  /** The part of add_kernel_cache after the move: `e` mirrors pair `k` too, unless memory ran out
      (`p` NULL). */
  method Put(m: Memory, ghost v: View, e: Ptr, sg: bool, k: Key, p: Ptr) returns (m': Memory, ghost v': View)
    requires Ok(m, v) && e in v.list && (sg <==> e in v.own) && (sg ==> k == v.own[e])
    requires p != NULL ==> p !in m.link
    ensures Ok(m', v') && v'.list.Keys == v.list.Keys && v'.own == v.own
    ensures OthersKeep(m, v, m', v', {e})
    ensures Keys(m', v', e) == Keys(m, v, e) + if p != NULL then {k} else {}
    ensures (p != NULL ==> e in m'.cached) && m'.link.Keys <= m.link.Keys + {p}
  {
    assert ListOk(m, v, e) && KindOk(m, v, e);
    m', v' := m, v;
    NothingChanged(m, v, {e});
    var prev, next, found, i := Seek(m, v, e, k);
    if sg {
      OwnKeys(m, v, e);
      if e in m.cached { return; }
    } else if found {
      return;
    }
    if p == NULL { return; }
    AfterAdd(m, v, e, i, p, k);
    m' := Join(m.(key := m.key[p := k]), e, p, prev, next);
    v' := JoinView(v, e, i, p);
  }

  /** add_kernel_cache: move_kernel_cache, then the pair added where it belongs. */
  method Add(m: Memory, ghost v: View, e: Ptr, sg: bool, pair: Key, wc: Ptr, sameIif: bool, force: bool, k: Key, p: Ptr)
    returns (m': Memory, ghost v': View)
    requires Ok(m, v) && e in v.list && (sg <==> e in v.own) && (sg ==> pair == v.own[e] == k)
    requires sg && wc != NULL ==> wc in v.list && wc !in v.own
    requires p != NULL ==> p !in m.link
    ensures Ok(m', v') && v'.list.Keys == v.list.Keys && v'.own == v.own
    ensures OthersKeep(m, v, m', v', {e, wc})
    ensures p != NULL ==> k in Keys(m', v', e) && e in m'.cached
    ensures m'.link.Keys <= m.link.Keys + {p}
    ensures sg && wc != NULL ==>
              Keys(m', v', e) + Keys(m', v', wc) == Keys(m, v, e) + Keys(m, v, wc) + if p != NULL then {k} else {}
    ensures !(sg && wc != NULL) ==> Keys(m', v', e) == Keys(m, v, e) + if p != NULL then {k} else {}
    ensures !(sg && wc != NULL) && wc in v.list && wc != e ==> SameKeys(m, v, m', v', wc)
  {
    var m1, v1 := Move(m, v, e, sg, pair, wc, sameIif, force);
    m', v' := Put(m1, v1, e, sg, k, p);
    forall f | f in v.list && f != e && f != wc ensures SameKeys(m, v, m', v', f) {
      assert SameKeys(m, v, m1, v1, f) && SameKeys(m1, v1, m', v', f);
    }
    if wc in v.list && wc != e { assert SameKeys(m1, v1, m', v', wc); }
  }

  /** An (S,G) `e` mirrors its pair, then its (*,G) `w` mirrors it too. */
  method MirrorTwice(pair: Key, e: Ptr, w: Ptr) returns (m: Memory, ghost v: View)
    requires e != NULL && w != NULL && e != w
    ensures Ok(m, v) && e in v.list && w in v.list && e in v.own && v.own[e] == pair && w !in v.own
    ensures pair in Keys(m, v, e) && pair in Keys(m, v, w)
  {
    hide OthersKeep, KeysOf, Lists, Kinds;
    m := Memory(map[e := NULL, w := NULL], {}, map[], map[]);
    v := View(map[e := [], w := []], map[], map[e := pair]);
    NoMirrors(m, v);
    m, v := Add(m, v, e, true, pair, w, false, false, pair, 1);
    ghost var m1, v1 := m, v;
    m, v := Add(m, v, w, false, pair, NULL, false, false, pair, 2);
    Others(m1, v1, m, v, {w, NULL}, e);
  }

  /** Moving a pair both mirror frees a mirror that no k_del_mfc answers for. */
  method MovedTwice(pair: Key, e: Ptr, w: Ptr) returns (m: Memory, m': Memory, n: Ptr)
    requires e != NULL && w != NULL && e != w
    ensures n in m.key && m.key[n] == pair && m'.key == m.key - {n}
    ensures !Paired(m.key, [], m'.key, [])
  {
    hide OthersKeep, KeysOf, Paired, MirroredPairs, Lists, Kinds;
    ghost var v, v';
    m, v := MirrorTwice(pair, e, w);
    OwnMirror(m, v, e);
    n := m.head[e];
    m', v' := Move(m, v, e, true, pair, w, false, true);
  }

  /** Deleting it from the (S,G) leaves the (*,G) mirroring a pair the kernel no longer has. */
  method DeletedOnce(pair: Key, e: Ptr, w: Ptr) returns (m: Memory, m': Memory, calls: seq<Key>)
    requires e != NULL && w != NULL && e != w
    ensures Paired(m.key, [], m'.key, calls)
    ensures pair in MirroredPairs(m'.key) && pair !in KernelLess(MirroredPairs(m.key), calls)
  {
    hide OthersKeep, KeysOf, Paired, MirroredPairs, Lists, Kinds;
    ghost var v, v';
    m, v := MirrorTwice(pair, e, w);
    m', v', calls := DeletePair(m, v, e, pair);
    Others(m, v, m', v', {e}, w);
    ListedMirror(m', v', w, pair);
  }

  lemma ListedMirror(m: Memory, v: View, e: Ptr, k: Key)
    requires Ok(m, v) && e in v.list && k in Keys(m, v, e)
    ensures k in MirroredPairs(m.key)
  {
    assert ListOk(m, v, e);
  }

  lemma NoMirrors(m: Memory, v: View)
    requires m.link == map[] && m.key == map[] && m.cached == {} && v.owner == map[] && m.head.Keys == v.list.Keys
    requires (forall e :: e in v.list ==> v.list[e] == [] && m.head[e] == NULL) && v.own.Keys <= v.list.Keys
    ensures Ok(m, v)
  {
    forall e | e in v.list ensures ListOk(m, v, e) && KindOk(m, v, e) { EmptyListOk(m, v, e); }
  }

  lemma Others(m: Memory, v: View, m': Memory, v': View, except: set<Ptr>, e: Ptr)
    requires OthersKeep(m, v, m', v', except) && e in v.list && e !in except
    ensures SameKeys(m, v, m', v', e)
  {
  }

  /** Where an (S,G) mirrors its pair, the head of its list is the mirror. */
  lemma OwnMirror(m: Memory, v: View, e: Ptr)
    requires Ok(m, v) && e in v.own && e in v.list && v.own[e] in Keys(m, v, e)
    ensures e in m.head && m.head[e] != NULL && m.head[e] in m.key && m.key[m.head[e]] == v.own[e]
  {
    assert ListOk(m, v, e) && KindOk(m, v, e);
  }
}
