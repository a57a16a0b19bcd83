/** The downstream Join/Prune machines of sections 4.5.1 to 4.5.3 of RFC 7761: their tables, the two
    encodings of their Expiry Timers, and what holds over every sequence of messages and timers. */
module Jp {

  datatype Et = KeepEt | SetEt | MaxEt | CancelEt

  datatype Ppt = KeepPpt | StartPpt | CancelPpt

  // ----- deadlines

  /** When state runs out: at a time, or not until a Join or Prune ends it. */
  datatype Deadline = At(t: nat) | Held

  function Later(a: Deadline, b: Deadline): Deadline {
    if a.Held? || b.Held? then Held else if a.t >= b.t then a else b
  }

  /** The latest of what has been asked for. */
  function Latest(s: seq<Deadline>): Deadline {
    if |s| == 0 then At(0) else Later(Latest(s[..|s| - 1]), s[|s| - 1])
  }

  lemma LatestAdd(s: seq<Deadline>, d: Deadline)
    ensures Latest(s + [d]) == Later(Latest(s), d)
  {
    assert (s + [d])[..|s|] == s;
  }

  lemma LatestOne(d: Deadline)
    ensures Latest([d]) == d
  {
    LatestAdd([], d);
    assert [] + [d] == [d];
  }

  /** Each asked for is no later, and the latest is one of them. */
  lemma {:induction false} LatestIs(s: seq<Deadline>)
    requires s != []
    ensures forall i :: 0 <= i < |s| ==> Later(Latest(s), s[i]) == Latest(s)
    ensures Latest(s) in s
  {
    if |s| > 1 { LatestIs(s[..|s| - 1]); }
  }

  // ----- the (*,G) and (S,G) machines

  datatype State = NoInfo | Join | PrunePending

  datatype Kind = JoinEv | PruneEv | PptEv | EtEv

  datatype Act = Act(state: State, et: Et, ppt: Ppt, echo: bool)

  /** jp_ds_decide */
  function Decide(s: State, e: Kind, pptZero: bool): Act {
    match e
    case JoinEv =>
      if s == NoInfo then Act(Join, SetEt, KeepPpt, false)
      else if s == PrunePending then Act(Join, MaxEt, CancelPpt, false)
      else Act(Join, MaxEt, KeepPpt, false)
    case PruneEv =>
      if s != Join then Act(s, KeepEt, KeepPpt, false)
      else if pptZero then Act(NoInfo, CancelEt, KeepPpt, false)
      else Act(PrunePending, KeepEt, StartPpt, false)
    case PptEv =>
      if s != PrunePending then Act(s, KeepEt, KeepPpt, false) else Act(NoInfo, CancelEt, KeepPpt, true)
    case EtEv =>
      if s == NoInfo then Act(s, KeepEt, KeepPpt, false)
      else Act(NoInfo, KeepEt, if s == PrunePending then CancelPpt else KeepPpt, false)
  }

  const HOLD := 0xffff

  /** jp_et_after: seconds left, 0xffff being held. */
  function EtAfter(a: Et, cur: nat, hold: nat): nat {
    if a == SetEt then hold
    else if a == MaxEt && cur < hold then hold
    else if a == CancelEt then 0
    else cur
  }

  /** One interface: the state, whether the Prune-Pending Timer runs, the Expiry Timer and the time;
      `asked` is every deadline a Join has asked for since NoInfo. */
  datatype Iface = Iface(state: State, running: bool, et: nat, now: nat, asked: seq<Deadline>)

  datatype Event =
    | RecvJoin(hold: nat)
    | RecvPrune(pptZero: bool)
    | PptExpires
    | EtExpires
    | Elapse(d: nat)

  function Wanted(now: nat, hold: nat): Deadline {
    if hold >= HOLD then Held else At(now + hold)
  }

  /** jp_ds_apply: the timers do what the action says. */
  function Apply(x: Iface, a: Act, hold: nat): Iface {
    x.(state := a.state, et := EtAfter(a.et, x.et, hold),
       running := a.ppt == StartPpt || (a.ppt == KeepPpt && x.running),
       asked := if a.state == NoInfo then []
                else if a.et == SetEt then [Wanted(x.now, hold)]
                else if a.et == MaxEt then x.asked + [Wanted(x.now, hold)]
                else x.asked)
  }

  function Step(x: Iface, e: Event): Iface {
    match e
    case RecvJoin(hold) => Apply(x, Decide(x.state, JoinEv, false), if hold > HOLD then HOLD else hold)
    case RecvPrune(z) => Apply(x, Decide(x.state, PruneEv, z), 0)
    case PptExpires => if x.running then Apply(x.(running := false), Decide(x.state, PptEv, false), 0) else x
    case EtExpires => if x.state != NoInfo && x.et == 0 then Apply(x, Decide(x.state, EtEv, false), 0) else x
    case Elapse(d) =>
      if x.state == NoInfo || x.et == HOLD then x.(now := x.now + d)
      else if d <= x.et then x.(now := x.now + d, et := x.et - d)
      else x
  }

  function Run(es: seq<Event>): Iface {
    if es == [] then Iface(NoInfo, false, 0, 0, []) else Step(Run(es[..|es| - 1]), es[|es| - 1])
  }

  /** The Expiry Timer is the latest deadline asked for, and the Prune-Pending Timer runs exactly in
      Prune-Pending. */
  ghost predicate Ok(x: Iface) {
    && (x.running <==> x.state == PrunePending)
    && (x.state == NoInfo ==> x.asked == [])
    && x.et <= HOLD
    && (x.state != NoInfo ==> x.asked != [] && Latest(x.asked) == if x.et == HOLD then Held else At(x.now + x.et))
  }

  lemma StepOk(x: Iface, e: Event)
    requires Ok(x)
    ensures Ok(Step(x, e))
  {
    hide Latest;
    if e.RecvJoin? {
      var h := if e.hold > HOLD then HOLD else e.hold;
      LatestAdd(x.asked, Wanted(x.now, h));
      LatestOne(Wanted(x.now, h));
    }
  }

  /** Over any sequence of Joins, Prunes and timers. */
  lemma {:induction false} AlwaysOk(es: seq<Event>)
    ensures Ok(Run(es))
  {
    if es != [] {
      AlwaysOk(es[..|es| - 1]);
      StepOk(Run(es[..|es| - 1]), es[|es| - 1]);
    }
  }

  // ----- the (S,G,rpt) machine

  datatype RptState = RNoInfo | RPrune | RPending | RPruneTmp | RPendingTmp

  datatype RptKind = JoinWc | JoinRpt | PruneRpt | EndOfMessage | RptPpt | RptEt

  datatype RptAct = RptAct(state: RptState, et: Et, ppt: Ppt)

  /** rpt_ds_decide */
  function RptDecide(s: RptState, e: RptKind, pptZero: bool): RptAct {
    match e
    case JoinWc =>
      if s == RPrune then RptAct(RPruneTmp, KeepEt, KeepPpt)
      else if s == RPending then RptAct(RPendingTmp, KeepEt, KeepPpt)
      else RptAct(s, KeepEt, KeepPpt)
    case JoinRpt =>
      if s == RPrune || s == RPending then RptAct(RNoInfo, CancelEt, CancelPpt) else RptAct(s, KeepEt, KeepPpt)
    case PruneRpt =>
      if s == RNoInfo then
        if pptZero then RptAct(RPrune, SetEt, KeepPpt) else RptAct(RPending, SetEt, StartPpt)
      else if s == RPrune || s == RPruneTmp then RptAct(RPrune, MaxEt, KeepPpt)
      else if s == RPendingTmp then RptAct(RPending, MaxEt, KeepPpt)
      else RptAct(s, KeepEt, KeepPpt)
    case EndOfMessage =>
      if s == RPruneTmp then RptAct(RNoInfo, CancelEt, KeepPpt)
      else if s == RPendingTmp then RptAct(RNoInfo, CancelEt, CancelPpt)
      else RptAct(s, KeepEt, KeepPpt)
    case RptPpt => if s == RPending then RptAct(RPrune, KeepEt, KeepPpt) else RptAct(s, KeepEt, KeepPpt)
    case RptEt => if s == RPrune then RptAct(RNoInfo, KeepEt, KeepPpt) else RptAct(s, KeepEt, KeepPpt)
  }

  /** rpt_et_after: a deadline, 0 being held. */
  function RptEtAfter(a: Et, cur: nat, want: nat): nat {
    if a == SetEt then want
    else if a == MaxEt && cur != 0 && (want == 0 || want > cur) then want
    else cur
  }

  function Deadline0(w: nat): Deadline {
    if w == 0 then Held else At(w)
  }

  datatype RptIface = RptIface(state: RptState, running: bool, et: nat, asked: seq<Deadline>)

  datatype RptEvent = RptEvent(kind: RptKind, want: nat, pptZero: bool)

  predicate Pending(s: RptState) {
    s == RPending || s == RPendingTmp
  }

  predicate Tmp(s: RptState) {
    s == RPruneTmp || s == RPendingTmp
  }

  /** rpt_ds_apply */
  function RptApply(x: RptIface, a: RptAct, want: nat): RptIface {
    RptIface(a.state,
             a.ppt == StartPpt || (a.ppt == KeepPpt && x.running),
             RptEtAfter(a.et, x.et, want),
             if a.state == RNoInfo then []
             else if a.et == SetEt then [Deadline0(want)]
             else if a.et == MaxEt then x.asked + [Deadline0(want)]
             else x.asked)
  }

  /** Timers fire between messages: never in a transient state, and only when they run. */
  function RptStep(x: RptIface, e: RptEvent): RptIface {
    if (e.kind == RptPpt && !x.running) || ((e.kind == RptPpt || e.kind == RptEt) && Tmp(x.state)) then x
    else RptApply(x.(running := x.running && e.kind != RptPpt), RptDecide(x.state, e.kind, e.pptZero), e.want)
  }

  function RptRun(x: RptIface, es: seq<RptEvent>): RptIface {
    if es == [] then x else RptStep(RptRun(x, es[..|es| - 1]), es[|es| - 1])
  }

  const RPT_START := RptIface(RNoInfo, false, 0, [])

  ghost predicate RptOk(x: RptIface) {
    && (x.running <==> Pending(x.state))
    && (x.state == RNoInfo ==> x.asked == [])
    && (x.state != RNoInfo ==> x.asked != [] && Latest(x.asked) == Deadline0(x.et))
  }

  lemma RptStepOk(x: RptIface, e: RptEvent)
    requires RptOk(x)
    ensures RptOk(RptStep(x, e))
    ensures e.kind == EndOfMessage ==> !Tmp(RptStep(x, e).state)
    ensures Tmp(RptStep(x, e).state) ==> Tmp(x.state) || e.kind == JoinWc
  {
    hide Latest;
    LatestAdd(x.asked, Deadline0(e.want));
    LatestOne(Deadline0(e.want));
  }

  /** Over any sequence of messages and timers: the Prune-Pending Timer runs exactly in Prune-Pending
      and its transient form, the Expiry Timer is the latest deadline since NoInfo, and no transient
      state survives the end of a message. */
  lemma {:induction false} RptAlwaysOk(es: seq<RptEvent>)
    ensures RptOk(RptRun(RPT_START, es))
    ensures es != [] && es[|es| - 1].kind == EndOfMessage ==> !Tmp(RptRun(RPT_START, es).state)
  {
    if es != [] {
      RptAlwaysOk(es[..|es| - 1]);
      RptStepOk(RptRun(RPT_START, es[..|es| - 1]), es[|es| - 1]);
    }
  }

  ghost predicate IsRpt(es: seq<RptEvent>) {
    forall i :: 0 <= i < |es| ==> es[i].kind == JoinRpt || es[i].kind == PruneRpt
  }

  ghost predicate HasPrune(es: seq<RptEvent>) {
    exists i :: 0 <= i < |es| && es[i].kind == PruneRpt
  }

  /** After the first Prune there is no Join. */
  ghost predicate PruneLasts(es: seq<RptEvent>) {
    forall i, j :: 0 <= i < j < |es| && es[i].kind == PruneRpt ==> es[j].kind == PruneRpt
  }

  /** While a message is read: a transient state lasts until the first Prune(S,G,rpt), which takes the
      interface back where it was; from there a Join leads to NoInfo and a Prune out of it. */
  lemma {:induction false} WithinMessage(x: RptIface, es: seq<RptEvent>)
    requires (Tmp(x.state) || x.state == RNoInfo) && IsRpt(es)
    ensures !HasPrune(es) ==> RptRun(x, es).state == x.state
    ensures HasPrune(es) ==>
              !Tmp(RptRun(x, es).state) && (RptRun(x, es).state == RNoInfo <==> es[|es| - 1].kind == JoinRpt)
    ensures HasPrune(es) && PruneLasts(es) && Tmp(x.state) ==>
              RptRun(x, es).state == if x.state == RPruneTmp then RPrune else RPending
  {
    if es != [] {
      var pre, e := es[..|es| - 1], es[|es| - 1];
      WithinMessage(x, pre);
      assert forall i :: 0 <= i < |pre| ==> pre[i] == es[i];
      assert HasPrune(pre) && PruneLasts(es) ==> e.kind == PruneRpt;
      assert HasPrune(es) <==> HasPrune(pre) || e.kind == PruneRpt;
    }
  }

  lemma RunAppend(x: RptIface, es: seq<RptEvent>, e: RptEvent)
    ensures RptRun(x, es + [e]) == RptStep(RptRun(x, es), e)
  {
    assert (es + [e])[..|es|] == es;
  }

  /** Section 4.5.3 of RFC 7761: a message with a Join(*,G) leaves the interface in NoInfo exactly if
      no Prune(S,G,rpt) follows in it or a Join(S,G,rpt) comes last; where Prunes follow and no Join
      after them, a pruned interface is where it was. */
  lemma JoinEndsPrune(x: RptIface, join: RptEvent, es: seq<RptEvent>, eom: RptEvent)
    requires join.kind == JoinWc && eom.kind == EndOfMessage && IsRpt(es)
    ensures RptRun(RptStep(x, join), es + [eom]).state == RNoInfo <==> !HasPrune(es) || es[|es| - 1].kind == JoinRpt
    ensures (x.state == RPrune || x.state == RPending) && HasPrune(es) && PruneLasts(es) ==>
              RptRun(RptStep(x, join), es + [eom]).state == x.state
  {
    WithinMessage(RptStep(x, join), es);
    RunAppend(RptStep(x, join), es, eom);
  }

  // ----- the bits of an entry

  datatype Bits = Bits(joined: bool, sgJoined: bool, pp: bool)

  /** jp_ds_read */
  function Read(b: Bits, wc: bool): State {
    if !(if wc then b.joined else b.sgJoined) then NoInfo else if b.pp then PrunePending else Join
  }

  /** jp_ds_write */
  function Write(b: Bits, wc: bool, s: State): Bits {
    Bits(s != NoInfo, if wc then b.sgJoined else s != NoInfo, s == PrunePending)
  }

  datatype RptBits = RptBits(pruned: bool, pp: bool)

  /** rpt_ds_read */
  function RptRead(b: RptBits, tmp: bool): RptState {
    if b.pruned then if tmp then RPruneTmp else RPrune
    else if b.pp then if tmp then RPendingTmp else RPending
    else RNoInfo
  }

  /** rpt_ds_write */
  function RptWrite(s: RptState): RptBits {
    RptBits(s == RPrune || s == RPruneTmp, s == RPending || s == RPendingTmp)
  }

  /** What is written into the bits is what is read, a transient state where a Join(*,G) came before;
      and a (*,G) write leaves an (S,G)'s own bit alone. */
  lemma BitsRoundTrip(b: Bits, wc: bool, s: State, r: RptState)
    ensures Read(Write(b, wc, s), wc) == s
    ensures wc ==> Write(b, wc, s).sgJoined == b.sgJoined
    ensures RptRead(RptWrite(r), Tmp(r)) == r
  {
  }
}
