/** The intrusive doubly linked lists of the daemon's tables.

    A C structure lives at a pointer, and each pair of link fields of a structure is a map from
    pointers to `Link`.  The domain of the map is the set of allocated structures: `free` takes a
    pointer out of it, so reading or writing through a null or freed pointer cannot be verified.
    `Chain` says which sequence of nodes a list head reaches. */
module Links {

  type Ptr = nat

  const NULL: Ptr := 0

  datatype Link = Link(next: Ptr, prev: Ptr)

  type LinkMap = map<Ptr, Link>

  /** The node at position `i`, or NULL past either end. */
  function At(s: seq<Ptr>, i: int): Ptr {
    if 0 <= i < |s| then s[i] else NULL
  }

  function NodeSet(s: seq<Ptr>): set<Ptr> {
    set p | p in s
  }

  /** Node `i` of `s` is linked to its neighbours. */
  ghost predicate Threaded(l: LinkMap, s: seq<Ptr>, i: int)
    requires 0 <= i < |s|
  {
    s[i] in l && l[s[i]] == Link(At(s, i + 1), At(s, i - 1))
  }

  /** From head `h`, the links of `l` thread exactly the nodes of `s`, in both directions. */
  ghost predicate Chain(h: Ptr, l: LinkMap, s: seq<Ptr>) {
    && h == At(s, 0)
    && (forall i :: 0 <= i < |s| ==> s[i] != NULL && s[i] in l)
    && forall i :: 0 <= i < |s| ==> Threaded(l, s, i)
  }

  /** A chain never visits a node twice. */
  lemma {:induction false} ChainDistinct(h: Ptr, l: LinkMap, s: seq<Ptr>, i: nat, j: nat)
    requires Chain(h, l, s) && i < j < |s|
    ensures s[i] != s[j]
  {
    if s[i] == s[j] {
      assert Threaded(l, s, i) && Threaded(l, s, j);
      if i > 0 { ChainDistinct(h, l, s, i - 1, j - 1); }
    }
  }

  function Without(s: seq<Ptr>, k: nat): seq<Ptr>
    requires k < |s|
  {
    s[..k] + s[k + 1..]
  }

  function Insert(s: seq<Ptr>, k: nat, e: Ptr): seq<Ptr>
    requires k <= |s|
  {
    s[..k] + [e] + s[k..]
  }

  predicate Linked(p: Ptr, l: LinkMap) {
    p == NULL || p in l
  }

  /** The two writes that take `e` out from between its neighbours. */
  function Unlinked(l: LinkMap, e: Ptr): LinkMap
    requires e in l && Linked(l[e].prev, l) && Linked(l[e].next, l)
  {
    var p, n := l[e].prev, l[e].next;
    var l1 := if p == NULL then l else l[p := l[p].(next := n)];
    if n == NULL then l1 else l1[n := l1[n].(prev := p)]
  }

  /** The writes that put `e` between `p` and `n`, either of which may be NULL. */
  function LinkedBetween(l: LinkMap, e: Ptr, p: Ptr, n: Ptr): LinkMap
    requires Linked(p, l) && Linked(n, l)
  {
    var l1 := l[e := Link(n, p)];
    var l2 := if p == NULL then l1 else l1[p := l1[p].(next := e)];
    if n == NULL then l2 else l2[n := l2[n].(prev := e)]
  }

  lemma ChainFrame(h: Ptr, l: LinkMap, l': LinkMap, s: seq<Ptr>)
    requires Chain(h, l, s)
    requires forall p :: p in s ==> p in l' && l'[p] == l[p]
    ensures Chain(h, l', s)
  {
    forall i | 0 <= i < |s| ensures Threaded(l', s, i) { assert Threaded(l, s, i); }
  }

  lemma ChainNeighbours(h: Ptr, l: LinkMap, s: seq<Ptr>, k: nat)
    requires Chain(h, l, s) && k < |s|
    ensures s[k] in l && l[s[k]] == Link(At(s, k + 1), At(s, k - 1))
    ensures Linked(At(s, k + 1), l) && Linked(At(s, k - 1), l)
    ensures l[s[k]].prev == NULL <==> k == 0
    ensures l[s[k]].next == NULL <==> k + 1 == |s|
  {
    assert Threaded(l, s, k);
    if k + 1 < |s| { assert Threaded(l, s, k + 1); }
    if 0 < k { assert Threaded(l, s, k - 1); }
  }

  lemma WithoutMembers(s: seq<Ptr>, k: nat)
    requires k < |s| && (forall j :: 0 <= j < |s| && j != k ==> s[j] != s[k])
    ensures forall p :: p in Without(s, k) <==> p in s && p != s[k]
  {
    var t := Without(s, k);
    forall p | p in s && p != s[k]
      ensures p in t
    {
      var i :| 0 <= i < |s| && s[i] == p;
      assert t[if i < k then i else i - 1] == p;
    }
  }

  lemma InsertMembers(s: seq<Ptr>, k: nat, e: Ptr)
    requires k <= |s|
    ensures forall p :: p in Insert(s, k, e) <==> p in s || p == e
  {
    assert s == s[..k] + s[k..];
    assert Insert(s, k, e)[k] == e;
  }

  lemma WithoutAt(s: seq<Ptr>, k: nat, i: int)
    requires k < |s| && 0 <= i + 1
    ensures At(Without(s, k), i) == if i < k then At(s, i) else At(s, i + 1)
  {
  }

  lemma InsertAt(s: seq<Ptr>, k: nat, e: Ptr, i: int)
    requires k <= |s| && 0 <= i + 1
    ensures At(Insert(s, k, e), i) == if i < k then At(s, i) else if i == k then e else At(s, i - 1)
  {
  }

  /** What the two writes of `Unlinked` leave in each node of the list. */
  lemma UnlinkedLink(h: Ptr, l: LinkMap, s: seq<Ptr>, k: nat, j: nat)
    requires Chain(h, l, s) && k < |s| && j < |s|
    requires s[k] in l && Linked(l[s[k]].prev, l) && Linked(l[s[k]].next, l)
    ensures s[j] in Unlinked(l, s[k])
    ensures Unlinked(l, s[k])[s[j]] ==
            Link(if j + 1 == k then At(s, k + 1) else At(s, j + 1),
                 if j == k + 1 then At(s, k - 1) else At(s, j - 1))
  {
    ChainNeighbours(h, l, s, k);
    ChainNeighbours(h, l, s, j);
    Apart(h, l, s, j, k - 1);
    Apart(h, l, s, j, k + 1);
  }

  lemma Apart(h: Ptr, l: LinkMap, s: seq<Ptr>, i: nat, j: int)
    requires Chain(h, l, s) && i < |s|
    ensures i != j ==> s[i] != At(s, j)
  {
    if 0 <= j < |s| {
      if i < j { ChainDistinct(h, l, s, i, j); }
      if j < i { ChainDistinct(h, l, s, j, i); }
    }
  }

  lemma UnlinkedThreads(h: Ptr, l: LinkMap, s: seq<Ptr>, k: nat)
    requires Chain(h, l, s) && k < |s|
    requires s[k] in l && Linked(l[s[k]].prev, l) && Linked(l[s[k]].next, l)
    ensures Chain(At(Without(s, k), 0), Unlinked(l, s[k]), Without(s, k))
  {
    var t := Without(s, k);
    forall i | 0 <= i < |t|
      ensures Threaded(Unlinked(l, s[k]), t, i)
    {
      WithoutAt(s, k, i); WithoutAt(s, k, i + 1); WithoutAt(s, k, i - 1);
      UnlinkedLink(h, l, s, k, if i < k then i else i + 1);
    }
  }

  /** Taking a node out leaves a well-linked list of the others and touches no link outside it. */
  lemma UnlinkChain(h: Ptr, l: LinkMap, s: seq<Ptr>, k: nat)
    requires Chain(h, l, s) && k < |s|
    ensures s[k] in l && Linked(l[s[k]].prev, l) && Linked(l[s[k]].next, l)
    ensures var l' := Unlinked(l, s[k]);
            && l'.Keys == l.Keys
            && l'[s[k]] == l[s[k]]
            && Chain(At(Without(s, k), 0), l', Without(s, k))
            && forall p :: p in l && p !in s ==> l'[p] == l[p]
    ensures forall p :: p in Without(s, k) <==> p in s && p != s[k]
    ensures At(Without(s, k), 0) == if l[s[k]].prev == NULL then l[s[k]].next else h
  {
    ChainNeighbours(h, l, s, k);
    forall j | 0 <= j < |s| && j != k ensures s[j] != s[k] { Apart(h, l, s, j, k); }
    WithoutMembers(s, k);
    WithoutAt(s, k, 0);
    UnlinkedThreads(h, l, s, k);
    UnlinkedLink(h, l, s, k, k);
  }

  /** What the writes of `LinkedBetween` leave in each node of the list. */
  lemma LinkedLink(h: Ptr, l: LinkMap, s: seq<Ptr>, k: nat, e: Ptr, j: nat)
    requires Chain(h, l, s) && k <= |s| && j < |s| && e !in s
    requires Linked(At(s, k - 1), l) && Linked(At(s, k), l)
    ensures s[j] in LinkedBetween(l, e, At(s, k - 1), At(s, k))
    ensures LinkedBetween(l, e, At(s, k - 1), At(s, k))[s[j]] ==
            Link(if j + 1 == k then e else At(s, j + 1),
                 if j == k then e else At(s, j - 1))
  {
    ChainNeighbours(h, l, s, j);
    Apart(h, l, s, j, k - 1);
    Apart(h, l, s, j, k);
  }

  lemma LinkedThreads(h: Ptr, l: LinkMap, s: seq<Ptr>, k: nat, e: Ptr)
    requires Chain(h, l, s) && k <= |s| && e != NULL && e !in s
    requires Linked(At(s, k - 1), l) && Linked(At(s, k), l)
    ensures Chain(At(Insert(s, k, e), 0), LinkedBetween(l, e, At(s, k - 1), At(s, k)), Insert(s, k, e))
  {
    var l', t := LinkedBetween(l, e, At(s, k - 1), At(s, k)), Insert(s, k, e);
    forall i | 0 <= i < |t|
      ensures Threaded(l', t, i)
    {
      InsertAt(s, k, e, i); InsertAt(s, k, e, i + 1); InsertAt(s, k, e, i - 1);
      if i != k { LinkedLink(h, l, s, k, e, if i < k then i else i - 1); }
    }
  }

  /** Putting a fresh node in at position `k` leaves a well-linked list. */
  lemma LinkChain(h: Ptr, l: LinkMap, s: seq<Ptr>, k: nat, e: Ptr)
    requires Chain(h, l, s) && k <= |s| && e != NULL && e !in s
    ensures Linked(At(s, k - 1), l) && Linked(At(s, k), l)
    ensures var l' := LinkedBetween(l, e, At(s, k - 1), At(s, k));
            && l'.Keys == l.Keys + {e}
            && Chain(if k == 0 then e else h, l', Insert(s, k, e))
            && forall p :: p in l && p !in s && p != e ==> l'[p] == l[p]
    ensures forall p :: p in Insert(s, k, e) <==> p in s || p == e
  {
    InsertMembers(s, k, e);
    InsertAt(s, k, e, 0);
    if 0 < k { ChainNeighbours(h, l, s, k - 1); }
    if k < |s| { ChainNeighbours(h, l, s, k); }
    LinkedThreads(h, l, s, k, e);
  }

  function IndexOf(s: seq<Ptr>, p: Ptr): (k: nat)
    requires p in s
    ensures k < |s| && s[k] == p
  {
    if s[0] == p then 0 else 1 + IndexOf(s[1..], p)
  }

  /** The list without node `p`. */
  function Minus(s: seq<Ptr>, p: Ptr): seq<Ptr>
    requires p in s
  {
    Without(s, IndexOf(s, p))
  }

  /** Taking a node out leaves a well-linked list of the others and touches no link outside it. */
  lemma UnlinkNode(h: Ptr, l: LinkMap, s: seq<Ptr>, p: Ptr)
    requires Chain(h, l, s) && p in s
    ensures p in l && Linked(l[p].prev, l) && Linked(l[p].next, l)
    ensures var l' := Unlinked(l, p);
            && l'.Keys == l.Keys
            && l'[p] == l[p]
            && Chain(At(Minus(s, p), 0), l', Minus(s, p))
            && forall q :: q in l && q !in s ==> l'[q] == l[q]
    ensures forall q :: q in Minus(s, p) <==> q in s && q != p
    ensures At(Minus(s, p), 0) == if l[p].prev == NULL then l[p].next else h
    ensures Minus(s, p) == [] <==> l[p].prev == NULL && l[p].next == NULL
  {
    UnlinkChain(h, l, s, IndexOf(s, p));
    ChainNeighbours(h, l, s, IndexOf(s, p));
  }
}
