/** The Assert election of section 4.6 of RFC 7761: the decision one router takes on one Assert, and
    what follows for a LAN of any number of routers that all decide so. */
module Assert {

  type U32 = x: nat | x < 0x1_0000_0000

  /** An Assert metric; the RPT bit is the top bit of the preference. */
  datatype Metric = Metric(pref: U32, metric: U32)

  const RPT_BIT: U32 := 0x8000_0000
  const INFINITE := Metric(0xffff_ffff, 0xffff_ffff)

  predicate Rpt(m: Metric) {
    m.pref >= RPT_BIT
  }

  /** Does metric `a` of router `addrA` beat `b` of `addrB`? */
  function CompareMetrics(a: Metric, addrA: U32, b: Metric, addrB: U32): bool {
    if b.pref > a.pref then true
    else if b.pref < a.pref then false
    else if b.metric > a.metric then true
    else if b.metric < a.metric then false
    else addrA > addrB
  }

  // ----- the order

  /** Section 4.6.3 of RFC 7761: the first differing of the RPT bit, the preference and the metric,
      lower winning, then the higher address. */
  predicate Preferred(a: Metric, addrA: U32, b: Metric, addrB: U32) {
    var prefA, prefB := a.pref % RPT_BIT, b.pref % RPT_BIT;
    if Rpt(a) != Rpt(b) then !Rpt(a)
    else if prefA != prefB then prefA < prefB
    else if a.metric != b.metric then a.metric < b.metric
    else addrA > addrB
  }

  lemma CompareIsPreferred(a: Metric, addrA: U32, b: Metric, addrB: U32)
    ensures CompareMetrics(a, addrA, b, addrB) <==> Preferred(a, addrA, b, addrB)
  {
    assert a.pref % RPT_BIT == if Rpt(a) then a.pref - RPT_BIT else a.pref;
    assert b.pref % RPT_BIT == if Rpt(b) then b.pref - RPT_BIT else b.pref;
  }

  /** The comparison is a strict total order on the metrics of distinct routers, and a finite metric
      beats an infinite one from anywhere. */
  lemma CompareOrders(a: Metric, p: U32, b: Metric, q: U32, c: Metric, r: U32)
    ensures !CompareMetrics(a, p, a, p)
    ensures CompareMetrics(a, p, b, q) && CompareMetrics(b, q, c, r) ==> CompareMetrics(a, p, c, r)
    ensures p != q ==> (CompareMetrics(a, p, b, q) <==> !CompareMetrics(b, q, a, p))
    ensures a != INFINITE ==> CompareMetrics(a, p, INFINITE, q) && !CompareMetrics(INFINITE, q, a, p)
  {
  }

  // ----- the decision

  datatype Where = Downstream | Upstream | Elsewhere

  datatype Action = NoAction | Send | Store | Lose | Clear | Follow

  /** What one machine sees of one interface: struct assert_view without the message. */
  datatype Machine = Machine(wc: bool, tracking: bool, place: Where, hasState: bool, spt: bool, hasUpstream: bool,
                             mine: Metric, addr: U32)

  /** The per-interface state: `winner` is 0 in NoInfo. */
  datatype State = State(winner: U32, isWinner: bool, metric: Metric)

  const NO_INFO := State(0, false, Metric(0, 0))

  datatype Msg = Msg(src: U32, metric: Metric)

  predicate Winner(s: State) {
    s.winner != 0 && s.isWinner
  }

  predicate Loser(s: State) {
    s.winner != 0 && !s.isWinner
  }

  predicate Cancel(m: Msg) {
    m.metric == INFINITE
  }

  function DecideDownstream(v: Machine, s: State, m: Msg): Action {
    var rpt := Rpt(m.metric);
    if v.hasState && Loser(s) then
      if m.src == s.winner then
        if CompareMetrics(v.mine, v.addr, m.metric, m.src) then Clear
        else if CompareMetrics(m.metric, m.src, s.metric, s.winner) && (!v.wc || rpt) then Store
        else if v.wc != rpt then NoAction
        else Store
      else if v.wc && !rpt then NoAction
      else if !CompareMetrics(s.metric, s.winner, m.metric, m.src) then Store
      else NoAction
    else if v.wc && !rpt then NoAction
    else if !v.wc && rpt && !v.spt && !Winner(s) then NoAction
    else if CompareMetrics(v.mine, v.addr, m.metric, m.src) then Send
    else if !v.wc && rpt then NoAction
    else Lose
  }

  function DecideUpstream(v: Machine, s: State, m: Msg): Action {
    if Loser(s) && m.src == s.winner && Cancel(m) then Clear
    else if Rpt(m.metric) != v.wc then NoAction
    else if !v.hasUpstream || !v.hasState then NoAction
    else if s.winner != 0 then
      if m.src == s.winner then Store
      else if CompareMetrics(s.metric, s.winner, m.metric, m.src) then NoAction
      else Follow
    else if Cancel(m) then NoAction
    else Follow
  }

  /** assert_decide */
  function Decide(v: Machine, s: State, m: Msg): Action {
    if !v.tracking then NoAction
    else match v.place
      case Downstream => DecideDownstream(v, s, m)
      case Upstream => DecideUpstream(v, s, m)
      case Elsewhere => NoAction
  }

  /** What each action leaves of the state. */
  function Act(v: Machine, s: State, m: Msg, a: Action): State {
    match a
    case NoAction => s
    case Send => State(v.addr, true, v.mine)
    case Store => State(m.src, false, m.metric)
    case Lose => State(m.src, false, m.metric)
    case Clear => NO_INFO
    case Follow => State(m.src, false, m.metric)
  }

  // ----- the two machines of one router

  datatype Outcome = Nothing | Moved | Cancelled

  /** assert_rc */
  function Rc(a: Action, m: Msg): Outcome {
    if a == NoAction then Nothing
    else if a == Clear && Cancel(m) then Cancelled
    else Moved
  }

  /** assert_wc_may_run */
  function WcMayRun(sgHeld: bool, rc: Outcome): bool {
    rc == Cancelled || (rc == Nothing && !sgHeld)
  }

  /** An Assert through the (S,G) machine and then, if it may have it, through the (*,G) one. */
  function Receive(sg: Machine, s: State, wc: Machine, w: State, m: Msg): (State, State) {
    var act := Decide(sg, s, m);
    var s' := Act(sg, s, m, act);
    if WcMayRun(s.winner != 0, Rc(act, m)) then (s', Act(wc, w, m, Decide(wc, w, m))) else (s', w)
  }

  /** Section 4.6.2 of RFC 7761: an Assert is for one of the two machines.  Only the winner's
      AssertCancel reaches both, and then it takes the (S,G) machine out of its Loser state. */
  lemma OneMachineMoves(sg: Machine, s: State, wc: Machine, w: State, m: Msg)
    requires Decide(sg, s, m) != NoAction && WcMayRun(s.winner != 0, Rc(Decide(sg, s, m), m))
    ensures Cancel(m) && Loser(s) && m.src == s.winner && Receive(sg, s, wc, w, m).0 == NO_INFO
  {
  }

  /** A (*,G) machine acts on a message only if the (S,G) machine is in NoInfo once it has had it. */
  lemma WildOnlyFromNoInfo(sg: Machine, s: State, wc: Machine, w: State, m: Msg)
    requires s.winner == 0 ==> s == NO_INFO
    requires Receive(sg, s, wc, w, m).1 != w
    ensures Receive(sg, s, wc, w, m).0 == NO_INFO
  {
  }

  ghost predicate CanLose(v: Machine) {
    && v.tracking
    && ((v.place == Downstream && v.hasState && v.mine != INFINITE) || v.place == Upstream)
  }

  /** Section 4.6.4 of RFC 7761: one AssertCancel from the router both machines lost to ends both. */
  lemma CancelEndsBoth(sg: Machine, s: State, wc: Machine, w: State, m: Msg)
    requires CanLose(sg) && CanLose(wc) && Loser(s) && Loser(w) && s.winner == w.winner == m.src && Cancel(m)
    ensures Receive(sg, s, wc, w, m) == (NO_INFO, NO_INFO)
  {
    CompareOrders(sg.mine, sg.addr, INFINITE, m.src, INFINITE, m.src);
    CompareOrders(wc.mine, wc.addr, INFINITE, m.src, INFINITE, m.src);
  }

  // ----- a LAN

  /** The routers of a LAN by address, each running one machine downstream. */
  type Routers = map<U32, Machine>

  /** Every metric is finite, and has the RPT bit unless the router is on the shortest path tree:
      my_assert_metric. */
  ghost predicate Lan(rs: Routers, wc: bool) {
    forall r :: r in rs ==>
      && r != 0 && rs[r].addr == r && rs[r].wc == wc && rs[r].tracking && rs[r].place == Downstream && rs[r].hasState
      && rs[r].mine != INFINITE && (Rpt(rs[r].mine) <==> wc || !rs[r].spt)
  }

  /** Every message sent so far stays deliverable: it may be lost, repeated and overtaken. */
  datatype Net = Net(state: map<U32, State>, sent: set<Msg>)

  datatype Event =
    | Data(r: U32)              // data on the interface: assert_on_data
    | Deliver(r: U32, m: Msg)   // a message sent by another router arrives
    | Timeout(r: U32)           // the Assert Timer: a winner asserts again, a loser forgets
    | Forget(r: U32)            // any other end of the state: a Join, the winner's restart, a failed send
    | Withdraw(r: U32)          // a winner stops forwarding and sends an AssertCancel

  function Asserting(rs: Routers, n: Net, r: U32): Net
    requires r in rs
  {
    Net(n.state[r := State(r, true, rs[r].mine)], n.sent + {Msg(r, rs[r].mine)})
  }

  /** One event; one that cannot happen leaves everything as it is. */
  function Step(rs: Routers, n: Net, e: Event): Net {
    if e.r !in rs || e.r !in n.state then n
    else
      var s := n.state[e.r];
      match e
      case Data(r) => if Loser(s) || !(rs[r].wc || rs[r].spt) then n else Asserting(rs, n, r)
      case Deliver(r, m) =>
        if m !in n.sent || m.src == r then n
        else
          var act := Decide(rs[r], s, m);
          if act == Send then Asserting(rs, n, r) else n.(state := n.state[r := Act(rs[r], s, m, act)])
      case Timeout(r) => if Winner(s) then Asserting(rs, n, r) else n.(state := n.state[r := NO_INFO])
      case Forget(r) => n.(state := n.state[r := NO_INFO])
      case Withdraw(r) =>
        if Winner(s) then Net(n.state[r := NO_INFO], n.sent + {Msg(r, INFINITE)}) else n
  }

  function Start(rs: Routers): Net {
    Net(map r | r in rs :: NO_INFO, {})
  }

  function Run(rs: Routers, es: seq<Event>): Net {
    if es == [] then Start(rs) else Step(rs, Run(rs, es[..|es| - 1]), es[|es| - 1])
  }

  /** A message carries its sender's metric or is its AssertCancel. */
  ghost predicate Honest(rs: Routers, m: Msg) {
    m.src in rs && (m.metric == rs[m.src].mine || m.metric == INFINITE)
  }

  /** A Loser lost to a router of the LAN that beats it, with the metric that router really has. */
  ghost predicate Fair(rs: Routers, r: U32, s: State)
    requires r in rs
  {
    && (Winner(s) ==> s.winner == r)
    && (Loser(s) ==>
          && s.winner in rs && s.winner != r && s.metric == rs[s.winner].mine
          && CompareMetrics(s.metric, s.winner, rs[r].mine, r))
  }

  ghost predicate Safe(rs: Routers, n: Net) {
    && n.state.Keys == rs.Keys
    && (forall m :: m in n.sent ==> Honest(rs, m))
    && forall r {:trigger Fair(rs, r, n.state[r])} :: r in rs ==> Fair(rs, r, n.state[r])
  }

  /** What any delivery does to one router. */
  lemma DeliverFair(rs: Routers, wc: bool, r: U32, s: State, m: Msg)
    requires Lan(rs, wc) && r in rs && Fair(rs, r, s) && Honest(rs, m) && m.src != r
    ensures Fair(rs, r, Act(rs[r], s, m, Decide(rs[r], s, m)))
  {
    var v := rs[r];
    CompareOrders(v.mine, r, m.metric, m.src, s.metric, s.winner);
    CompareOrders(m.metric, m.src, s.metric, s.winner, v.mine, r);
    CompareOrders(v.mine, r, INFINITE, m.src, s.metric, s.winner);
  }

  lemma StepSafe(rs: Routers, wc: bool, n: Net, e: Event)
    requires Lan(rs, wc) && Safe(rs, n)
    ensures Safe(rs, Step(rs, n, e))
  {
    var n' := Step(rs, n, e);
    forall r | r in rs ensures Fair(rs, r, n'.state[r]) {
      assert Fair(rs, r, n.state[r]);
      if e.Deliver? && e.m in n.sent && e.m.src != r { DeliverFair(rs, wc, r, n.state[r], e.m); }
    }
  }

  /** Whatever happens on the LAN, every Loser's recorded winner is a router that beats it, with its
      own metric. */
  lemma {:induction false} AlwaysSafe(rs: Routers, wc: bool, es: seq<Event>)
    requires Lan(rs, wc)
    ensures Safe(rs, Run(rs, es))
  {
    if es != [] {
      AlwaysSafe(rs, wc, es[..|es| - 1]);
      StepSafe(rs, wc, Run(rs, es[..|es| - 1]), es[|es| - 1]);
    }
  }

  ghost predicate Best(rs: Routers, b: U32) {
    b in rs && forall r :: r in rs && r != b ==> CompareMetrics(rs[b].mine, b, rs[r].mine, r)
  }

  /** Addresses being distinct, every LAN has a best router. */
  lemma {:induction false} BestExists(rs: Routers) returns (b: U32)
    requires rs != map[]
    ensures Best(rs, b)
    decreases |rs|
  {
    var r :| r in rs;
    var rest := rs - {r};
    b := r;
    assert forall q :: q in rs && q != r ==> q in rest;
    if rest != map[] {
      assert rest.Keys == rs.Keys - {r} && |rest.Keys| == |rest| && |rs.Keys| == |rs|;
      var c := BestExists(rest);
      if CompareMetrics(rs[c].mine, c, rs[r].mine, r) { b := c; }
      forall q | q in rs && q != b ensures CompareMetrics(rs[b].mine, b, rs[q].mine, q) {
        assert q != r ==> q in rest;
        CompareOrders(rs[r].mine, r, rs[c].mine, c, rs[q].mine, q);
      }
    }
  }

  /** The best router of the LAN never loses. */
  lemma BestNeverLoses(rs: Routers, wc: bool, es: seq<Event>, b: U32)
    requires Lan(rs, wc) && Best(rs, b)
    ensures b in Run(rs, es).state && !Loser(Run(rs, es).state[b])
  {
    AlwaysSafe(rs, wc, es);
    var s := Run(rs, es).state[b];
    assert Fair(rs, b, s);
    CompareOrders(rs[b].mine, b, s.metric, s.winner, s.metric, s.winner);
  }

  /** The routing tables being fixed, no Loser ever finds its metric better than the winner's: that
      branch of age_asserts is for tables that change. */
  lemma LoserNeverOutgrows(rs: Routers, wc: bool, es: seq<Event>, r: U32)
    requires Lan(rs, wc) && r in rs
    ensures r in Run(rs, es).state
    ensures var s := Run(rs, es).state[r]; Loser(s) ==> !CompareMetrics(rs[r].mine, r, s.metric, s.winner)
  {
    AlwaysSafe(rs, wc, es);
    var s := Run(rs, es).state[r];
    assert Fair(rs, r, s);
    CompareOrders(s.metric, s.winner, rs[r].mine, r, s.metric, s.winner);
  }

  /** At event `i` router `r` gets the best router's Assert, and after it neither that router's
      AssertCancel nor an end of its own state. */
  ghost predicate Heard(rs: Routers, es: seq<Event>, b: U32, r: U32, i: nat)
    requires b in rs
  {
    && i < |es| && es[i] == Deliver(r, Msg(b, rs[b].mine)) && es[i].m in Run(rs, es[..i]).sent
    && forall j :: i < j < |es| ==> es[j] != Timeout(r) && es[j] != Forget(r) && es[j] != Deliver(r, Msg(b, INFINITE))
  }

  ghost predicate LostTo(rs: Routers, n: Net, b: U32, r: U32)
    requires b in rs
  {
    r in n.state && n.state[r] == State(b, false, rs[b].mine)
  }

  lemma HearsBest(rs: Routers, wc: bool, n: Net, b: U32, r: U32)
    requires Lan(rs, wc) && Safe(rs, n) && Best(rs, b) && Rpt(rs[b].mine) == wc && r in rs && r != b
    requires Msg(b, rs[b].mine) in n.sent
    ensures LostTo(rs, Step(rs, n, Deliver(r, Msg(b, rs[b].mine))), b, r)
  {
    var s := n.state[r];
    assert Fair(rs, r, s);
    CompareOrders(rs[b].mine, b, rs[r].mine, r, s.metric, s.winner);
    if Loser(s) && s.winner != b { CompareOrders(rs[b].mine, b, rs[s.winner].mine, s.winner, rs[r].mine, r); }
  }

  lemma StaysLost(rs: Routers, wc: bool, n: Net, b: U32, r: U32, e: Event)
    requires Lan(rs, wc) && Safe(rs, n) && Best(rs, b) && Rpt(rs[b].mine) == wc && r in rs && r != b
    requires LostTo(rs, n, b, r)
    requires e != Timeout(r) && e != Forget(r) && e != Deliver(r, Msg(b, INFINITE))
    ensures LostTo(rs, Step(rs, n, e), b, r)
  {
    if e.Deliver? && e.r == r && e.m in n.sent && e.m.src != r {
      assert Honest(rs, e.m);
      CompareOrders(rs[b].mine, b, rs[r].mine, r, e.m.metric, e.m.src);
      CompareOrders(rs[b].mine, b, e.m.metric, e.m.src, rs[r].mine, r);
    }
  }

  lemma {:induction false} HeardIsLost(rs: Routers, wc: bool, es: seq<Event>, b: U32, r: U32, i: nat)
    requires Lan(rs, wc) && Best(rs, b) && Rpt(rs[b].mine) == wc && r in rs && r != b && Heard(rs, es, b, r, i)
    ensures LostTo(rs, Run(rs, es), b, r)
  {
    var pre := es[..|es| - 1];
    AlwaysSafe(rs, wc, pre);
    if i == |es| - 1 {
      assert es[..i] == pre;
      HearsBest(rs, wc, Run(rs, pre), b, r);
    } else {
      assert pre[..i] == es[..i];
      HeardIsLost(rs, wc, pre, b, r, i);
      StaysLost(rs, wc, Run(rs, pre), b, r, es[|es| - 1]);
    }
  }

  /** Where the best metric for (S,G) has the RPT bit nobody is on the shortest path tree, and no
      router ever asserts for (S,G). */
  lemma {:induction false} SharedTreeIsSilent(rs: Routers, es: seq<Event>, b: U32)
    requires Lan(rs, false) && Best(rs, b) && Rpt(rs[b].mine)
    ensures Run(rs, es).sent == {} && forall r :: r in Run(rs, es).state ==> Run(rs, es).state[r] == NO_INFO
  {
    if es != [] { SharedTreeIsSilent(rs, es[..|es| - 1], b); }
  }

  ghost predicate HeardBest(rs: Routers, es: seq<Event>, b: U32, r: U32)
    requires b in rs
  {
    exists i: nat :: Heard(rs, es, b, r, i)
  }

  lemma HeardBestIsLost(rs: Routers, wc: bool, es: seq<Event>, b: U32, r: U32)
    requires Lan(rs, wc) && Best(rs, b) && r in rs && r != b && HeardBest(rs, es, b, r)
    ensures LostTo(rs, Run(rs, es), b, r)
  {
    var i: nat :| Heard(rs, es, b, r, i);
    if Rpt(rs[b].mine) == wc {
      HeardIsLost(rs, wc, es, b, r, i);
    } else {
      SharedTreeIsSilent(rs, es[..i], b);
    }
  }

  /** Once every other router has had the best router's Assert, and none of them has since had its
      AssertCancel or let its state end, they have all lost to it and only it can be Winner. */
  lemma OneWinner(rs: Routers, wc: bool, es: seq<Event>, b: U32)
    requires Lan(rs, wc) && Best(rs, b)
    requires forall r :: r in rs && r != b ==> HeardBest(rs, es, b, r)
    ensures forall r :: r in rs && r != b ==> LostTo(rs, Run(rs, es), b, r)
    ensures forall r :: r in Run(rs, es).state && Winner(Run(rs, es).state[r]) ==> r == b
  {
    AlwaysSafe(rs, wc, es);
    forall r | r in rs && r != b ensures LostTo(rs, Run(rs, es), b, r) { HeardBestIsLost(rs, wc, es, b, r); }
  }
}
