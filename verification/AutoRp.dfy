/** Auto-RP: which announced group prefixes a mapping agent puts in its message, and what that does
    to the longest match that says whether a group has no RP. */
module AutoRp {
  import opened Inet

  /** An announced prefix: `addr` is masked to `len`; a negative one denies the groups it covers. */
  datatype Ann = Ann(rp: Addr, addr: Addr, len: nat, neg: bool)

  // ----- prefixes

  predicate Masked(a: Ann) {
    a.len <= 32 && a.addr == MaskedTo(a.addr, a.len)
  }

  /** Does the prefix cover the group? */
  predicate Matches(a: Ann, g: Addr) {
    a.len <= 32 && Net(g, a.len) == Net(a.addr, a.len)
  }

  /** Two prefixes of one group: the shorter covers the longer, and the same length is the same prefix. */
  lemma Nested(a: Ann, b: Ann, g: Addr)
    requires Masked(a) && Masked(b) && Matches(a, g) && Matches(b, g) && a.len <= b.len
    ensures Matches(a, b.addr) && (a.len == b.len ==> a.addr == b.addr)
  {
    NetShorter(g, a.len, b.len);
    NetShorter(b.addr, a.len, b.len);
  }

  /** What covers a prefix covers the groups in it. */
  lemma CoverMatches(a: Ann, b: Ann, g: Addr)
    requires Matches(a, b.addr) && Matches(b, g) && a.len <= b.len
    ensures Matches(a, g)
  {
    NetShorter(g, a.len, b.len);
    NetShorter(b.addr, a.len, b.len);
  }

  // ----- the rules of the mapping agent

  predicate SamePrefix(a: Ann, b: Ann) {
    a.addr == b.addr && a.len == b.len
  }

  /** Rule 2: at one prefix a deny beats an RP, and the higher RP address the lower. */
  predicate Beats(a: Ann, b: Ann) {
    SamePrefix(a, b) && ((a.neg && !b.neg) || (a.neg == b.neg && a.rp > b.rp))
  }

  /** Rule 3: a shorter prefix of the same RP and sign covers it. */
  predicate Subsumes(a: Ann, b: Ann) {
    a.rp == b.rp && a.neg == b.neg && a.len < b.len && Matches(a, b.addr)
  }

  /** The announced list: prefixes masked, one entry for each RP and prefix. */
  ghost predicate Announced(s: seq<Ann>) {
    && (forall i :: 0 <= i < |s| ==> Masked(s[i]))
    && forall i, j :: 0 <= i < j < |s| ==> !(s[i].rp == s[j].rp && SamePrefix(s[i], s[j]))
  }

  ghost predicate Winner(s: seq<Ann>, i: nat)
    requires i < |s|
  {
    forall j :: 0 <= j < |s| ==> !Beats(s[j], s[i])
  }

  ghost predicate Dropped(s: seq<Ann>, i: nat)
    requires i < |s|
  {
    exists j :: 0 <= j < |s| && Subsumes(s[j], s[i])
  }

  /** autorp_resolved: entry `i` goes in the message if it wins its prefix and none of its RP's own
      prefixes says the same. */
  method IsResolved(s: seq<Ann>, i: nat) returns (r: bool)
    requires i < |s| && Announced(s)
    ensures r <==> Winner(s, i) && !Dropped(s, i)
  {
    var map', k := s[i], 0;
    while k < |s|
      invariant 0 <= k <= |s|
      invariant forall j :: 0 <= j < k ==> !Beats(s[j], map') && !Subsumes(s[j], map')
    {
      var other := s[k];
      if k != i {
        if other.rp == map'.rp && other.neg == map'.neg && other.len < map'.len &&
            Net(map'.addr, other.len) == Net(other.addr, other.len) {
          assert Subsumes(other, map');
          return false;
        }
        if other.addr == map'.addr && other.len == map'.len {
          if other.neg && !map'.neg {
            assert Beats(other, map');
            return false;
          }
          if other.neg == map'.neg && other.rp > map'.rp {
            assert Beats(other, map');
            return false;
          }
        }
      }
      k := k + 1;
    }
    return true;
  }

  ghost predicate Resolved(s: seq<Ann>, i: nat)
    requires i < |s|
  {
    Winner(s, i) && !Dropped(s, i)
  }

  // ----- the longest match

  /** Entry `i` is a longest match of group `g`. */
  ghost predicate Longest(s: seq<Ann>, g: Addr, i: nat)
    requires i < |s|
  {
    Matches(s[i], g) && forall j :: 0 <= j < |s| && Matches(s[j], g) ==> s[j].len <= s[i].len
  }

  /** The group has no RP: some longest match is a deny. */
  ghost predicate Denied(s: seq<Ann>, g: Addr) {
    exists i :: 0 <= i < |s| && Longest(s, g, i) && s[i].neg
  }

  /** autorp_denied: one pass, keeping the length of the longest match so far and its sign. */
  method IsDenied(s: seq<Ann>, g: Addr) returns (denied: bool)
    requires forall i :: 0 <= i < |s| ==> s[i].len <= 32
    ensures denied <==> Denied(s, g)
  {
    var best: int := -1;
    var k := 0;
    denied := false;
    while k < |s|
      invariant 0 <= k <= |s| && -1 <= best
      invariant forall j :: 0 <= j < k && Matches(s[j], g) ==> s[j].len <= best
      invariant best == -1 ==> !denied
      invariant best >= 0 ==> exists j :: 0 <= j < k && Matches(s[j], g) && s[j].len == best
      invariant denied <==> exists j :: 0 <= j < k && Matches(s[j], g) && s[j].len == best && s[j].neg
    {
      var m := s[k];
      if Net(g, m.len) == Net(m.addr, m.len) && m.len >= best {
        assert Matches(s[k], g);
        if m.len > best {
          best, denied := m.len, m.neg;
        } else if m.neg {
          denied := true;
        }
      }
      k := k + 1;
    }
    if denied {
      var j :| 0 <= j < |s| && Matches(s[j], g) && s[j].len == best && s[j].neg;
      assert Longest(s, g, j);
    }
  }

  // ----- who wins a prefix

  lemma BeatsTrans(a: Ann, b: Ann, c: Ann)
    ensures Beats(a, b) && Beats(b, c) ==> Beats(a, c)
    ensures !Beats(a, a)
  {
  }

  /** Of the entries for one prefix, the best of the first `k`. */
  lemma {:induction false} BestOf(s: seq<Ann>, i: nat, k: nat) returns (w: nat)
    requires i < |s| && k <= |s|
    ensures w < |s| && SamePrefix(s[w], s[i]) && (w == i || Beats(s[w], s[i]))
    ensures forall j :: 0 <= j < k ==> !Beats(s[j], s[w])
  {
    w := i;
    if k > 0 {
      w := BestOf(s, i, k - 1);
      var n := k - 1;
      if Beats(s[n], s[w]) {
        forall j | 0 <= j < k ensures !Beats(s[j], s[n]) { BeatsTrans(s[j], s[n], s[w]); }
        BeatsTrans(s[n], s[w], s[i]);
        w := n;
      }
    }
  }

  /** Every prefix has a winner, a deny if there is one. */
  lemma WinnerOf(s: seq<Ann>, i: nat) returns (w: nat)
    requires i < |s|
    ensures w < |s| && SamePrefix(s[w], s[i]) && Winner(s, w) && (s[i].neg ==> s[w].neg)
  {
    w := BestOf(s, i, |s|);
  }

  lemma WinnersAgree(s: seq<Ann>, i: nat, j: nat)
    requires i < |s| && j < |s| && Winner(s, i) && SamePrefix(s[i], s[j])
    ensures s[j].neg ==> s[i].neg
  {
    assert !Beats(s[j], s[i]);
  }

  /** Of the first `k` entries that match, one no longer than any. */
  lemma {:induction false} ShortestMatch(s: seq<Ann>, g: Addr, i: nat, k: nat) returns (m: nat)
    requires i < |s| && Matches(s[i], g) && k <= |s|
    ensures m < |s| && Matches(s[m], g) && forall j :: 0 <= j < k && Matches(s[j], g) ==> s[m].len <= s[j].len
  {
    m := i;
    if k > 0 {
      m := ShortestMatch(s, g, i, k - 1);
      if Matches(s[k - 1], g) && s[k - 1].len < s[m].len { m := k - 1; }
    }
  }

  lemma {:induction false} LongestMatch(s: seq<Ann>, g: Addr, i: nat, k: nat) returns (m: nat)
    requires i < |s| && Matches(s[i], g) && k <= |s|
    ensures m < |s| && Matches(s[m], g) && forall j :: 0 <= j < k && Matches(s[j], g) ==> s[j].len <= s[m].len
  {
    m := i;
    if k > 0 {
      m := LongestMatch(s, g, i, k - 1);
      if Matches(s[k - 1], g) && s[k - 1].len > s[m].len { m := k - 1; }
    }
  }

  /** Resolution leaves no group uncovered: what some announcement covers, a resolved one covers. */
  lemma CoverageKept(s: seq<Ann>, g: Addr, i: nat) returns (u: nat)
    requires Announced(s) && i < |s| && Matches(s[i], g)
    ensures u < |s| && Resolved(s, u) && Matches(s[u], g)
    ensures (forall j :: 0 <= j < |s| ==> !s[j].neg) ==> !s[u].neg
  {
    var m := ShortestMatch(s, g, i, |s|);
    u := WinnerOf(s, m);
    forall j | 0 <= j < |s| ensures !Subsumes(s[j], s[u]) {
      if Subsumes(s[j], s[u]) { CoverMatches(s[j], s[u], g); }
    }
  }

  /** Resolved entry `u` is the longest resolved match of `g`: every longer one's winner is dropped. */
  ghost predicate Nearest(s: seq<Ann>, g: Addr, u: nat)
    requires u < |s|
  {
    && Resolved(s, u) && Matches(s[u], g)
    && forall j :: 0 <= j < |s| && Matches(s[j], g) && s[j].len > s[u].len && Winner(s, j) ==> Dropped(s, j)
  }

  lemma {:induction false} NearestOf(s: seq<Ann>, g: Addr, u: nat, k: nat) returns (n: nat)
    requires u < |s| && Resolved(s, u) && Matches(s[u], g) && k <= |s|
    ensures n < |s| && Resolved(s, n) && Matches(s[n], g)
    ensures forall j :: 0 <= j < k && Matches(s[j], g) && s[j].len > s[n].len && Winner(s, j) ==> Dropped(s, j)
  {
    n := u;
    if k > 0 {
      n := NearestOf(s, g, u, k - 1);
      if Matches(s[k - 1], g) && s[k - 1].len > s[n].len && Resolved(s, k - 1) { n := k - 1; }
    }
  }

  // ----- what resolution does to the verdict

  ghost predicate InMapping(s: seq<Ann>, a: Ann) {
    exists i :: 0 <= i < |s| && Resolved(s, i) && s[i] == a
  }

  /** `t` holds the resolved entries of `s` and no other. */
  ghost predicate Mapping(s: seq<Ann>, t: seq<Ann>) {
    forall a :: a in t <==> InMapping(s, a)
  }

  /** The verdict over the announcements is the sign of the winner of the longest match. */
  lemma VerdictOfAnnounced(s: seq<Ann>, g: Addr, i: nat)
    requires Announced(s) && i < |s| && Longest(s, g, i) && Winner(s, i)
    ensures Denied(s, g) <==> s[i].neg
  {
    if Denied(s, g) {
      var j :| 0 <= j < |s| && Longest(s, g, j) && s[j].neg;
      Nested(s[i], s[j], g);
      WinnersAgree(s, i, j);
    }
  }

  lemma MappingLonger(s: seq<Ann>, g: Addr, t: seq<Ann>, u: nat, a: Ann)
    requires Announced(s) && u < |s| && Nearest(s, g, u) && Mapping(s, t) && a in t && Matches(a, g)
    ensures a.len <= s[u].len && (a.len == s[u].len && a.neg ==> s[u].neg)
  {
    var i :| 0 <= i < |s| && Resolved(s, i) && s[i] == a;
    if a.len == s[u].len {
      Nested(s[u], a, g);
      WinnersAgree(s, u, i);
    }
  }

  /** The verdict over the mapping is the sign of the longest prefix whose winner rule 3 lets pass. */
  lemma VerdictOfMapping(s: seq<Ann>, g: Addr, t: seq<Ann>, u: nat)
    requires Announced(s) && u < |s| && Nearest(s, g, u) && Mapping(s, t)
    ensures Denied(t, g) <==> s[u].neg
  {
    assert InMapping(s, s[u]);
    forall j | 0 <= j < |t| && Matches(t[j], g)
      ensures t[j].len <= s[u].len && (t[j].len == s[u].len && t[j].neg ==> s[u].neg)
    {
      MappingLonger(s, g, t, u, t[j]);
    }
    var k :| 0 <= k < |t| && t[k] == s[u];
    assert Longest(t, g, k);
  }

  /** Some group has entry `w` for a longest match. */
  ghost predicate Decides(s: seq<Ann>, w: nat)
    requires w < |s|
  {
    exists g :: Longest(s, g, w)
  }

  /** Entry `k` is in the message, covers entry `w` and says the opposite, and rule 3 has dropped every
      winner from the length of `w` down to that of `k`. */
  ghost predicate Supplants(s: seq<Ann>, k: nat, w: nat)
    requires k < |s| && w < |s|
  {
    && Resolved(s, k) && s[k].neg != s[w].neg && s[k].len < s[w].len && Matches(s[k], s[w].addr)
    && forall v :: 0 <= v < |s| && Winner(s, v) && Matches(s[v], s[w].addr) && s[k].len < s[v].len <= s[w].len ==>
          Dropped(s, v)
  }

  lemma NearestSupplants(s: seq<Ann>, g: Addr, u: nat, w: nat)
    requires Announced(s) && u < |s| && w < |s| && Nearest(s, g, u) && Longest(s, g, w) && Winner(s, w)
    ensures s[u].neg != s[w].neg ==> Supplants(s, u, w)
  {
    Nested(s[u], s[w], g);
    if s[u].len == s[w].len {
      WinnersAgree(s, u, w);
      WinnersAgree(s, w, u);
    }
    forall v | 0 <= v < |s| && Winner(s, v) && Matches(s[v], s[w].addr) && s[u].len < s[v].len <= s[w].len
      ensures Dropped(s, v)
    {
      CoverMatches(s[v], s[w], g);
    }
  }

  lemma SupplantsNearest(s: seq<Ann>, g: Addr, k: nat, w: nat)
    requires Announced(s) && k < |s| && w < |s| && Supplants(s, k, w) && Longest(s, g, w)
    ensures Nearest(s, g, k) && s[k].neg != s[w].neg
  {
    CoverMatches(s[k], s[w], g);
    forall j | 0 <= j < |s| && Matches(s[j], g) && s[j].len > s[k].len && Winner(s, j) ensures Dropped(s, j) {
      Nested(s[j], s[w], g);
    }
  }

  /** The groups that entry `w` decides keep their verdict exactly when nothing supplants `w`. */
  lemma VerdictKeptExactly(s: seq<Ann>, g: Addr, t: seq<Ann>, w: nat)
    requires Announced(s) && Mapping(s, t) && w < |s| && Longest(s, g, w) && Winner(s, w)
    ensures (Denied(t, g) <==> Denied(s, g)) <==> forall k :: 0 <= k < |s| ==> !Supplants(s, k, w)
  {
    hide Winner, Dropped, Mapping, Announced, Matches, Denied, Supplants;
    VerdictOfAnnounced(s, g, w);
    var c := CoverageKept(s, g, w);
    var u := NearestOf(s, g, c, |s|);
    VerdictOfMapping(s, g, t, u);
    NearestSupplants(s, g, u, w);
    forall k | 0 <= k < |s| && Supplants(s, k, w) ensures s[k].neg == s[u].neg != s[w].neg {
      SupplantsNearest(s, g, k, w);
      VerdictOfMapping(s, g, t, k);
    }
  }

  /** A group nothing announced covers is not denied, nor is it by the mapping. */
  lemma Uncovered(s: seq<Ann>, g: Addr, t: seq<Ann>)
    requires Mapping(s, t) && forall i :: 0 <= i < |s| ==> !Matches(s[i], g)
    ensures !Denied(t, g) && !Denied(s, g)
  {
    forall a | a in t ensures !Matches(a, g) { assert InMapping(s, a); }
  }

  /** The winner of the longest prefix that covers a group. */
  lemma Deciding(s: seq<Ann>, g: Addr, i: nat) returns (w: nat)
    requires Announced(s) && i < |s| && Matches(s[i], g)
    ensures w < |s| && Longest(s, g, w) && Winner(s, w)
  {
    var m := LongestMatch(s, g, i, |s|);
    w := WinnerOf(s, m);
  }

  /** Resolution keeps the verdict on every group exactly when nothing supplants a winner that decides
      some group. */
  lemma DenyKeptExactly(s: seq<Ann>, t: seq<Ann>)
    requires Announced(s) && Mapping(s, t)
    ensures (forall g :: Denied(t, g) <==> Denied(s, g)) <==>
              forall w, k :: 0 <= w < |s| && Winner(s, w) && Decides(s, w) && 0 <= k < |s| ==> !Supplants(s, k, w)
  {
    hide Winner, Dropped, Mapping, Announced, Matches, Denied, Longest, Supplants;
    if forall g :: Denied(t, g) <==> Denied(s, g) {
      forall w, k | 0 <= w < |s| && Winner(s, w) && Decides(s, w) && 0 <= k < |s| ensures !Supplants(s, k, w) {
        var g :| Longest(s, g, w);
        VerdictKeptExactly(s, g, t, w);
      }
    }
    if forall w, k :: 0 <= w < |s| && Winner(s, w) && Decides(s, w) && 0 <= k < |s| ==> !Supplants(s, k, w) {
      forall g ensures Denied(t, g) <==> Denied(s, g) {
        if i :| 0 <= i < |s| && Matches(s[i], g) {
          var w := Deciding(s, g, i);
          VerdictKeptExactly(s, g, t, w);
        } else {
          Uncovered(s, g, t);
        }
      }
    }
  }

  /** `s[k]`, of the other sign, covers `s[i]` at a length that the cover `s[j]` does not shield: it
      would take over the groups of `s[i]` once that is dropped. */
  ghost predicate TakesOver(s: seq<Ann>, k: nat, j: nat, i: nat)
    requires i < |s| && j < |s| && k < |s|
  {
    && s[k].neg != s[i].neg && s[k].len < s[i].len && Matches(s[k], s[i].addr)
    && (s[j].len < s[k].len || (s[j].len == s[k].len && !s[i].neg))
  }

  ghost predicate Shields(s: seq<Ann>, j: nat, i: nat)
    requires i < |s| && j < |s|
  {
    Subsumes(s[j], s[i]) && forall k :: 0 <= k < |s| ==> !TakesOver(s, k, j, i)
  }

  /** Every winner rule 3 drops has a cover of its own RP with no prefix of the other sign between. */
  ghost predicate Shielded(s: seq<Ann>) {
    forall i :: 0 <= i < |s| && Winner(s, i) && Dropped(s, i) ==> exists j :: 0 <= j < |s| && Shields(s, j, i)
  }

  /** From any level down, the nearest resolved match has the sign of the level's winner. */
  lemma {:induction false} SignCarries(s: seq<Ann>, g: Addr, w: nat, u: nat)
    requires Announced(s) && Shielded(s) && w < |s| && u < |s|
    requires Winner(s, w) && Matches(s[w], g) && Nearest(s, g, u) && s[u].len <= s[w].len
    ensures s[u].neg == s[w].neg
    decreases s[w].len
  {
    Nested(s[u], s[w], g);
    if s[u].len == s[w].len {
      WinnersAgree(s, u, w);
      WinnersAgree(s, w, u);
    } else {
      assert Dropped(s, w);
      var j :| 0 <= j < |s| && Shields(s, j, w);
      assert !TakesOver(s, u, j, w);
      CoverMatches(s[j], s[w], g);
      if s[u].len <= s[j].len {
        var v := WinnerOf(s, j);
        Nested(s[v], s[w], g);
        assert !TakesOver(s, v, j, w);
        SignCarries(s, g, v, u);
      }
    }
  }

  /** Resolution keeps the verdict on every group wherever every dropped prefix is shielded. */
  lemma DenyKept(s: seq<Ann>, g: Addr, t: seq<Ann>)
    requires Announced(s) && Shielded(s) && Mapping(s, t)
    ensures Denied(t, g) <==> Denied(s, g)
  {
    hide Winner, Dropped, Mapping, Announced, Matches, Denied, Longest, Supplants, Shielded;
    forall w, k | 0 <= w < |s| && Winner(s, w) && Decides(s, w) && 0 <= k < |s| ensures !Supplants(s, k, w) {
      var h :| Longest(s, h, w);
      ShieldedHolds(s, h, w, k);
    }
    DenyKeptExactly(s, t);
  }

  lemma ShieldedHolds(s: seq<Ann>, g: Addr, w: nat, k: nat)
    requires Announced(s) && Shielded(s) && w < |s| && k < |s| && Winner(s, w) && Longest(s, g, w)
    ensures !Supplants(s, k, w)
  {
    if Supplants(s, k, w) {
      SupplantsNearest(s, g, k, w);
      SignCarries(s, g, w, k);
    }
  }

  /** 239.0.0.0/28 and 239.0.0.0/30 of 10.0.0.1, and a deny of 239.0.0.0/29 by 10.0.0.2. */
  const THREE_LEVELS :=
    [Ann(0x0a000001, 0xef000000, 28, false), Ann(0x0a000002, 0xef000000, 29, true),
     Ann(0x0a000001, 0xef000000, 30, false)]

  lemma ThreeLevelFacts()
    ensures Announced(THREE_LEVELS)
    ensures forall i :: 0 <= i < 3 ==> Matches(THREE_LEVELS[i], 0xef000001) && Winner(THREE_LEVELS, i)
    ensures Dropped(THREE_LEVELS, 2) && !Dropped(THREE_LEVELS, 1)
  {
    assert Subsumes(THREE_LEVELS[0], THREE_LEVELS[2]);
  }

  /** Without the shield the verdict can change: 239.0.0.1 is not denied by the announcements and is
      by the mapping. */
  lemma ThreeLevelsDiffer(t: seq<Ann>)
    requires Mapping(THREE_LEVELS, t)
    ensures Announced(THREE_LEVELS) && forall i :: 0 <= i < |THREE_LEVELS| ==> ValidHost(THREE_LEVELS[i].rp)
    ensures !Denied(THREE_LEVELS, 0xef000001) && Denied(t, 0xef000001)
  {
    hide Winner, Dropped, Mapping, Announced, Matches, Denied;
    ThreeLevelFacts();
    assert Nearest(THREE_LEVELS, 0xef000001, 1);
    VerdictOfAnnounced(THREE_LEVELS, 0xef000001, 2);
    VerdictOfMapping(THREE_LEVELS, 0xef000001, t, 1);
  }
}
