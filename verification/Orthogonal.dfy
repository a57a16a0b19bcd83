/** One direction of the routing table's orthogonal list, for either direction.

    A routing entry hangs off two chains at once: its group's, sorted by source address, and its
    source's, sorted by group address.  `Side` is the invariant of one of the two; the group side
    reads it with the groups as owners and the source addresses as keys, the source side the other
    way round, so what is proved here is used for both. */
module Orthogonal {
  import opened Links

  type Addr = nat

  /** The fields one side reads: each owner's `mrtlink`, each entry's links in this direction and
      its owner. */
  datatype Fields = Fields(heads: map<Ptr, Ptr>, link: LinkMap, own: map<Ptr, Ptr>)

  type Chains = map<Ptr, seq<Ptr>>

  /** `e` is on the chain of owner `x`. */
  ghost predicate On(ch: Chains, x: Ptr, e: Ptr) {
    x in ch && e in ch[x]
  }

  ghost predicate Ascending(s: seq<Ptr>, key: map<Ptr, Addr>) {
    && (forall i :: 0 <= i < |s| ==> s[i] in key)
    && forall i, j :: 0 <= i < j < |s| ==> key[s[i]] < key[s[j]]
  }

  /** Owner `x`'s chain is threaded, strictly ascending and all its own. */
  ghost predicate SideAt(f: Fields, key: map<Ptr, Addr>, ch: Chains, x: Ptr)
    requires x in ch
  {
    && x in f.heads
    && Chain(f.heads[x], f.link, ch[x])
    && Ascending(ch[x], key)
    && forall i :: 0 <= i < |ch[x]| ==> ch[x][i] in f.own && f.own[ch[x][i]] == x
  }

  ghost predicate Side(f: Fields, key: map<Ptr, Addr>, ch: Chains) {
    forall x {:trigger SideAt(f, key, ch, x)} :: x in ch ==> SideAt(f, key, ch, x)
  }

  /** The writes that take entry `e` off the chain of its owner. */
  function Cut(f: Fields, e: Ptr): Fields
    requires e in f.own && e in f.link && Linked(f.link[e].prev, f.link) && Linked(f.link[e].next, f.link)
  {
    f.(heads := if f.link[e].prev == NULL then f.heads[f.own[e] := f.link[e].next] else f.heads,
       link := Unlinked(f.link, e))
  }

  /** The writes that put entry `e` on the chain of `x`, after `p` or first, before `n` or last. */
  function Join(f: Fields, e: Ptr, x: Ptr, p: Ptr, n: Ptr): Fields
    requires Linked(p, f.link) && Linked(n, f.link)
  {
    f.(heads := if p == NULL then f.heads[x := e] else f.heads, link := LinkedBetween(f.link, e, p, n))
  }

  /** A side only depends on the owners it has and the entries on their chains. */
  lemma SideFrame(f: Fields, key: map<Ptr, Addr>, ch: Chains, f': Fields, key': map<Ptr, Addr>, ch': Chains)
    requires Side(f, key, ch)
    requires forall x :: x in ch' ==>
              x in ch && ch'[x] == ch[x] && x in f'.heads && (x in f.heads ==> f'.heads[x] == f.heads[x])
    requires forall x, e :: On(ch', x, e) ==>
               && (e in f.link ==> e in f'.link && f'.link[e] == f.link[e])
               && (e in f.own ==> e in f'.own && f'.own[e] == f.own[e])
               && (e in key ==> e in key' && key'[e] == key[e])
    ensures Side(f', key', ch')
  {
    forall x | x in ch' ensures SideAt(f', key', ch', x) {
      assert SideAt(f, key, ch, x);
      forall i | 0 <= i < |ch[x]| ensures On(ch', x, ch[x][i]) {}
      ChainFrame(f.heads[x], f.link, f'.link, ch[x]);
    }
  }

  lemma AscendingWithout(s: seq<Ptr>, key: map<Ptr, Addr>, k: nat)
    requires Ascending(s, key) && k < |s|
    ensures Ascending(Without(s, k), key)
  {
  }

  lemma AscendingInsert(s: seq<Ptr>, key: map<Ptr, Addr>, k: nat, e: Ptr)
    requires Ascending(s, key) && k <= |s| && e in key
    requires forall i :: 0 <= i < k ==> key[s[i]] < key[e]
    requires forall i :: k <= i < |s| ==> key[e] < key[s[i]]
    ensures Ascending(Insert(s, k, e), key)
  {
  }

  /** Taking an entry off its owner's chain keeps every chain of this side. */
  lemma CutSide(f: Fields, key: map<Ptr, Addr>, ch: Chains, x: Ptr, e: Ptr)
    requires Side(f, key, ch) && On(ch, x, e)
    ensures e in f.own && f.own[e] == x && e in f.link && x in f.heads
    ensures Linked(f.link[e].prev, f.link) && Linked(f.link[e].next, f.link)
    ensures Cut(f, e).link.Keys == f.link.Keys && Cut(f, e).heads.Keys == f.heads.Keys
    ensures Side(Cut(f, e), key, ch[x := Minus(ch[x], e)])
    ensures Minus(ch[x], e) == [] <==> f.link[e].prev == NULL && f.link[e].next == NULL
  {
    var s := ch[x];
    assert SideAt(f, key, ch, x);
    UnlinkNode(f.heads[x], f.link, s, e);
    AscendingWithout(s, key, IndexOf(s, e));
    var f', ch' := Cut(f, e), ch[x := Minus(s, e)];
    forall y | y in ch' && y != x ensures SideAt(f', key, ch', y) {
      assert SideAt(f, key, ch, y);
      assert forall p :: p in ch[y] ==> p !in s;
      ChainFrame(f.heads[y], f.link, f'.link, ch[y]);
    }
    forall i | 0 <= i < |ch'[x]| ensures ch'[x][i] in s { assert ch'[x][i] in ch'[x]; }
    assert SideAt(f', key, ch', x);
  }

  /** With entry `e` off its chain the others are where they were. */
  lemma CutOn(f: Fields, key: map<Ptr, Addr>, ch: Chains, x: Ptr, e: Ptr, y: Ptr, p: Ptr)
    requires Side(f, key, ch) && On(ch, x, e)
    ensures On(ch[x := Minus(ch[x], e)], y, p) <==> On(ch, y, p) && p != e
  {
    assert SideAt(f, key, ch, x);
    UnlinkNode(f.heads[x], f.link, ch[x], e);
    if y in ch { assert SideAt(f, key, ch, y); }
  }

  /** Entry `e`, on no chain yet, belongs at position `k` of the chain of its owner `x`. */
  ghost predicate Joinable(f: Fields, key: map<Ptr, Addr>, ch: Chains, x: Ptr, e: Ptr, k: nat) {
    && Side(f, key, ch) && x in ch && k <= |ch[x]|
    && e != NULL && e in f.own && f.own[e] == x && e in key
    && (forall y :: !On(ch, y, e))
    && (forall i :: 0 <= i < k ==> ch[x][i] in key && key[ch[x][i]] < key[e])
    && (forall i :: k <= i < |ch[x]| ==> ch[x][i] in key && key[e] < key[ch[x][i]])
  }

  lemma JoinPlace(f: Fields, key: map<Ptr, Addr>, ch: Chains, x: Ptr, e: Ptr, k: nat)
    requires Joinable(f, key, ch, x, e, k)
    ensures Linked(At(ch[x], k - 1), f.link) && Linked(At(ch[x], k), f.link)
    ensures var f' := Join(f, e, x, At(ch[x], k - 1), At(ch[x], k));
            f'.link.Keys == f.link.Keys + {e} && f'.heads.Keys == f.heads.Keys
  {
    assert SideAt(f, key, ch, x) && !On(ch, x, e);
    LinkChain(f.heads[x], f.link, ch[x], k, e);
  }

  lemma JoinOwn(f: Fields, key: map<Ptr, Addr>, ch: Chains, x: Ptr, e: Ptr, k: nat)
    requires Joinable(f, key, ch, x, e, k) && Linked(At(ch[x], k - 1), f.link) && Linked(At(ch[x], k), f.link)
    ensures SideAt(Join(f, e, x, At(ch[x], k - 1), At(ch[x], k)), key, ch[x := Insert(ch[x], k, e)], x)
  {
    var s := ch[x];
    assert SideAt(f, key, ch, x) && !On(ch, x, e);
    LinkChain(f.heads[x], f.link, s, k, e);
    AscendingInsert(s, key, k, e);
    if 0 < k { assert s[k - 1] != NULL; }
    InsertMembers(s, k, e);
    var s' := Insert(s, k, e);
    forall i | 0 <= i < |s'| ensures s'[i] in s || s'[i] == e { assert s'[i] in s'; }
  }

  lemma JoinOther(f: Fields, key: map<Ptr, Addr>, ch: Chains, x: Ptr, e: Ptr, k: nat, y: Ptr)
    requires Joinable(f, key, ch, x, e, k) && Linked(At(ch[x], k - 1), f.link) && Linked(At(ch[x], k), f.link)
    requires y in ch && y != x
    ensures SideAt(Join(f, e, x, At(ch[x], k - 1), At(ch[x], k)), key, ch[x := Insert(ch[x], k, e)], y)
  {
    var s := ch[x];
    assert SideAt(f, key, ch, x) && SideAt(f, key, ch, y) && !On(ch, x, e) && !On(ch, y, e);
    LinkChain(f.heads[x], f.link, s, k, e);
    assert forall p :: p in ch[y] ==> p !in s && p != e;
    ChainFrame(f.heads[y], f.link, Join(f, e, x, At(s, k - 1), At(s, k)).link, ch[y]);
  }

  /** Putting an entry on a chain, where its key belongs, keeps every chain. */
  lemma JoinSide(f: Fields, key: map<Ptr, Addr>, ch: Chains, x: Ptr, e: Ptr, k: nat)
    requires Side(f, key, ch) && x in ch && k <= |ch[x]|
    requires e != NULL && e in f.own && f.own[e] == x && e in key
    requires forall y :: !On(ch, y, e)
    requires forall i :: 0 <= i < k ==> ch[x][i] in key && key[ch[x][i]] < key[e]
    requires forall i :: k <= i < |ch[x]| ==> ch[x][i] in key && key[e] < key[ch[x][i]]
    ensures Linked(At(ch[x], k - 1), f.link) && Linked(At(ch[x], k), f.link)
    ensures var f' := Join(f, e, x, At(ch[x], k - 1), At(ch[x], k));
            && f'.link.Keys == f.link.Keys + {e} && f'.heads.Keys == f.heads.Keys
            && Side(f', key, ch[x := Insert(ch[x], k, e)])
    ensures forall y, p :: On(ch[x := Insert(ch[x], k, e)], y, p) <==> On(ch, y, p) || (y == x && p == e)
  {
    hide SideAt, Join, Linked;
    JoinPlace(f, key, ch, x, e, k);
    var s := ch[x];
    var f', ch' := Join(f, e, x, At(s, k - 1), At(s, k)), ch[x := Insert(s, k, e)];
    forall y | y in ch' ensures SideAt(f', key, ch', y) {
      if y == x { JoinOwn(f, key, ch, x, e, k); } else { JoinOther(f, key, ch, x, e, k, y); }
    }
    InsertMembers(s, k, e);
    forall y, p ensures On(ch', y, p) <==> On(ch, y, p) || (y == x && p == e) {}
  }
}
