/** The memory of the multicast routing table and its invariant.

    The table is an orthogonal list: a sorted list of sources and one of groups, each behind an
    unused first node, and (S,G) entries threaded on the chain of their group and on the chain of
    their source.  A group may also have one (*,G) entry, and is on exactly one third chain: that
    of the RP mapping it uses, or the RP-less list. */
module MrtModel {
  import opened Links
  import opened Orthogonal

  datatype Flag = SG | WC | RP | NEW

  /** `next`, `prev` and the address of each node of the group list or the source list. */
  datatype ListFields = ListFields(link: LinkMap, addr: map<Ptr, Addr>)

  /** `mrtlink` of each owner, and each entry's links on its chain. */
  datatype SideFields = SideFields(heads: map<Ptr, Ptr>, link: LinkMap)

  /** `group`, `source`, `flags` and `incoming` of each routing entry. */
  datatype EntryFields = EntryFields(grp: map<Ptr, Ptr>, src: map<Ptr, Ptr>, flags: map<Ptr, set<Flag>>, iif: map<Ptr,
      int>)

  /** `rpnext`, `rpprev` and `active_rp_grp` of each group, `grplink` of each RP mapping, and
      `grp_norp_list`. */
  datatype RpFields = RpFields(link: LinkMap, of: map<Ptr, Ptr>, head: map<Ptr, Ptr>, norp: Ptr)

  datatype Memory = Memory(gl: ListFields, sl: ListFields, gs: SideFields, ss: SideFields,
                           ent: EntryFields, route: map<Ptr, Ptr>, rp: RpFields, srcIif: map<Ptr, int>)

  /** What the lists and chains thread, and the addresses each entry is for. */
  datatype View = View(groups: seq<Ptr>, sources: seq<Ptr>, gch: Chains, sch: Chains, rch: Chains,
                       gkey: map<Ptr, Addr>, skey: map<Ptr, Addr>)

  /** What an operation in progress has taken out of its place: entries off the chain of their
      group or of their source, unlisted groups and sources not yet freed, and groups on no RP
      chain. */
  datatype Pending = Pending(offG: set<Ptr>, offS: set<Ptr>, dyingG: set<Ptr>, dyingS: set<Ptr>, loose: set<Ptr>)

  const NOTHING := Pending({}, {}, {}, {}, {})

  function GSide(gs: SideFields, ent: EntryFields): Fields {
    Fields(gs.heads, gs.link, ent.grp)
  }

  function SSide(ss: SideFields, ent: EntryFields): Fields {
    Fields(ss.heads, ss.link, ent.src)
  }

  /** Strictly ascending after the unused first node. */
  ghost predicate Sorted(s: seq<Ptr>, addr: map<Ptr, Addr>) {
    && (forall i :: 0 <= i < |s| ==> s[i] in addr)
    && forall i, j :: 1 <= i < j < |s| ==> addr[s[i]] < addr[s[j]]
  }

  /** The nodes of a list: threaded both ways, strictly ascending after the unused first one. */
  ghost predicate Listing(l: ListFields, s: seq<Ptr>, nodes: set<Ptr>) {
    && |s| > 0
    && Chain(s[0], l.link, s)
    && NodeSet(s) == nodes
    && Sorted(s, l.addr)
  }

  /** An (S,G) is on the chain of its group and on that of its source, under its own addresses; any
      other entry is its group's (*,G). */
  ghost predicate EntryAt(m: EntryFields, route: map<Ptr, Ptr>, ga: map<Ptr, Addr>, sa: map<Ptr, Addr>, v: View,
        x: Pending, e: Ptr)
    requires e in m.grp
  {
    && e in m.src && e in m.flags && e != NULL
    && (On(v.gch, m.grp[e], e) ==> m.grp[e] in ga && e in v.gkey && v.gkey[e] == ga[m.grp[e]])
    && (On(v.sch, m.src[e], e) ==> m.src[e] in sa && e in v.skey && v.skey[e] == sa[m.src[e]])
    && (SG in m.flags[e] ==>
          && (On(v.gch, m.grp[e], e) <==> e !in x.offG)
          && (On(v.sch, m.src[e], e) <==> e !in x.offS))
    && (SG !in m.flags[e] ==>
          && !On(v.gch, m.grp[e], e)
          && !On(v.sch, m.src[e], e)
          && (e in x.offG || (m.grp[e] in v.gch && m.grp[e] in route && route[m.grp[e]] == e)))
  }

  ghost predicate Entries(m: EntryFields, route: map<Ptr, Ptr>, ga: map<Ptr, Addr>, sa: map<Ptr, Addr>, v: View,
        x: Pending) {
    forall e {:trigger EntryAt(m, route, ga, sa, v, x, e)} :: e in m.grp ==> EntryAt(m, route, ga, sa, v, x, e)
  }

  /** A group's (*,G), if any, is an entry of that group and not an (S,G). */
  ghost predicate RouteAt(m: EntryFields, route: map<Ptr, Ptr>, g: Ptr) {
    && g in route
    && (route[g] != NULL ==>
          route[g] in m.grp && m.grp[route[g]] == g && route[g] in m.flags && SG !in m.flags[route[g]])
  }

  ghost predicate Routes(m: EntryFields, route: map<Ptr, Ptr>, gch: Chains) {
    forall g {:trigger RouteAt(m, route, g)} :: g in gch ==> RouteAt(m, route, g)
  }

  function RpHead(rp: RpFields, r: Ptr): Ptr {
    if r in rp.head then rp.head[r] else rp.norp
  }

  /** The chain of RP mapping `r`, or the RP-less list for NULL: threaded, its groups all listed and
      all using that mapping. */
  ghost predicate RpAt(rp: RpFields, v: View, r: Ptr)
    requires r in v.rch
  {
    && Chain(RpHead(rp, r), rp.link, v.rch[r])
    && forall i :: 0 <= i < |v.rch[r]| ==>
                     v.rch[r][i] in rp.of && rp.of[v.rch[r][i]] == r && v.rch[r][i] in v.gch &&
                         v.rch[r][i] != At(v.groups, 0)
  }

  /** A listed group is on the chain of the mapping it uses. */
  ghost predicate GroupRpAt(rp: RpFields, v: View, x: Pending, g: Ptr) {
    && g in rp.of && g in rp.link
    && if g in x.loose then
         rp.link[g] == Link(NULL, NULL) && rp.of[g] == NULL && !On(v.rch, NULL, g)
       else
         On(v.rch, rp.of[g], g)
  }

  ghost predicate RpChains(rp: RpFields, v: View) {
    forall r {:trigger RpAt(rp, v, r)} :: r in v.rch ==> RpAt(rp, v, r)
  }

  ghost predicate RpGroups(rp: RpFields, v: View, x: Pending) {
    forall g {:trigger GroupRpAt(rp, v, x, g)} :: g in v.gch && g != At(v.groups, 0) ==> GroupRpAt(rp, v, x, g)
  }

  ghost predicate RpSide(rp: RpFields, v: View, x: Pending) {
    && NULL !in rp.head
    && v.rch.Keys == rp.head.Keys + {NULL}
    && RpChains(rp, v)
    && RpGroups(rp, v, x)
  }

  /** A group without an RP holds no (*,G) and no entry on the shared tree. */
  ghost predicate RpLessAt(m: EntryFields, route: map<Ptr, Ptr>, gch: Chains, g: Ptr) {
    && g in route && route[g] == NULL
    && forall e :: On(gch, g, e) ==> e in m.flags && RP !in m.flags[e]
  }

  ghost predicate RpLess(m: EntryFields, route: map<Ptr, Ptr>, v: View) {
    forall g {:trigger RpLessAt(m, route, v.gch, g)} :: On(v.rch, NULL, g) ==> RpLessAt(m, route, v.gch, g)
  }

  /** Every field of every allocated group is there, and the allocated groups are the listed ones
      and those dying. */
  ghost predicate GroupsAllocated(m: Memory, listed: set<Ptr>, dying: set<Ptr>) {
    && m.gl.link.Keys == m.gl.addr.Keys
    && m.gs.heads.Keys == m.gl.addr.Keys
    && m.route.Keys == m.gl.addr.Keys
    && m.rp.link.Keys == m.gl.addr.Keys
    && m.rp.of.Keys == m.gl.addr.Keys
    && m.gl.addr.Keys == listed + dying
    && listed !! dying
  }

  ghost predicate SourcesAllocated(m: Memory, listed: set<Ptr>, dying: set<Ptr>) {
    && m.sl.link.Keys == m.sl.addr.Keys
    && m.ss.heads.Keys == m.sl.addr.Keys
    && m.srcIif.Keys == m.sl.addr.Keys
    && m.sl.addr.Keys == listed + dying
    && listed !! dying
  }

  ghost predicate EntriesAllocated(m: Memory) {
    && m.ent.src.Keys == m.ent.grp.Keys
    && m.ent.flags.Keys == m.ent.grp.Keys
    && m.ent.iif.Keys == m.ent.grp.Keys
    && m.gs.link.Keys == m.ent.grp.Keys
    && m.ss.link.Keys == m.ent.grp.Keys
  }

  /** The unused first nodes hold nothing. */
  ghost predicate Sentinels(m: Memory, v: View) {
    && |v.groups| > 0 && v.groups[0] in v.gch && v.gch[v.groups[0]] == []
    && v.groups[0] in m.route && m.route[v.groups[0]] == NULL
    && |v.sources| > 0 && v.sources[0] in v.sch && v.sch[v.sources[0]] == []
  }

  /** The invariant, up to what operation in progress `x` has taken out of its place. */
  ghost predicate Partial(m: Memory, v: View, x: Pending) {
    && GroupsAllocated(m, v.gch.Keys, x.dyingG)
    && SourcesAllocated(m, v.sch.Keys, x.dyingS)
    && EntriesAllocated(m)
    && Sentinels(m, v)
    && Listing(m.gl, v.groups, v.gch.Keys)
    && Listing(m.sl, v.sources, v.sch.Keys)
    && Side(GSide(m.gs, m.ent), v.skey, v.gch)
    && Side(SSide(m.ss, m.ent), v.gkey, v.sch)
    && Entries(m.ent, m.route, m.gl.addr, m.sl.addr, v, x)
    && Routes(m.ent, m.route, v.gch)
    && RpSide(m.rp, v, x)
    && RpLess(m.ent, m.route, v)
  }

  /** Every group but the unused first and those of `but` has an entry. */
  ghost predicate GroupsFilled(route: map<Ptr, Ptr>, gch: Chains, first: Ptr, but: set<Ptr>) {
    forall g :: g in gch && g != first && g !in but ==> gch[g] != [] || (g in route && route[g] != NULL)
  }

  ghost predicate SourcesFilled(sch: Chains, first: Ptr, but: set<Ptr>) {
    forall s :: s in sch && s != first && s !in but ==> sch[s] != []
  }

  /** No group and no source without an entry, but those of `gs` and `ss`. */
  ghost predicate Filled(m: Memory, v: View, gs: set<Ptr>, ss: set<Ptr>) {
    GroupsFilled(m.route, v.gch, At(v.groups, 0), gs) && SourcesFilled(v.sch, At(v.sources, 0), ss)
  }
}
