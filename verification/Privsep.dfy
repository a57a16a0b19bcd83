/** The protocol between the unprivileged daemon and its privileged helper.

    Child and parent each have a byte stream to the other and exchange messages of one fixed size
    each way.  A transfer may move any part of what is left, in either direction, at any time; both
    sides resume until the message is whole.  Every step of either process is an event here, so a
    run is any interleaving of any fragmentation. */
module Privsep {
  import opened Wire

  const REQ := 528           // sizeof(struct priv_req), unsigned long being 8 bytes
  const REP := 1936          // sizeof(struct priv_rep)
  const REC := 40            // sizeof(struct priv_ifrec)
  const BATCH := 48          // PRIV_IFREC_MAX
  const LIMIT := 4096        // PRIV_IFREC_LIMIT
  const AREA := REC * BATCH  // the records of one reply
  const IFSCAN := 11
  const LOG := 18

  // ----- messages

  type Msgs = seq<Bytes>

  function Op(m: Bytes): nat
    requires |m| >= 4
  {
    Get32(m, 0)
  }

  predicate IsLog(m: Bytes) {
    |m| == REQ && Op(m) == LOG
  }

  predicate IsScan(m: Bytes) {
    |m| == REQ && Op(m) == IFSCAN
  }

  predicate Failed(r: Bytes)
    requires |r| == REP
  {
    Get32(r, 4) >= 0x8000_0000
  }

  function Count(r: Bytes): nat
    requires |r| == REP
  {
    Get32(r, 12)
  }

  function Record(r: Bytes, i: nat): Bytes
    requires |r| == REP && i < BATCH
  {
    r[16 + REC * i..16 + REC * i + REC]
  }

  function Records(r: Bytes): Msgs
    requires |r| == REP && Count(r) <= BATCH
  {
    seq(Count(r), i requires 0 <= i < Count(r) => Record(r, i))
  }

  ghost predicate AllRecords(l: Msgs) {
    forall i :: 0 <= i < |l| ==> |l[i]| == REC
  }

  function Flat(l: Msgs): (b: Bytes) {
    if l == [] then [] else Flat(l[..|l| - 1]) + l[|l| - 1]
  }

  lemma {:induction false} FlatLength(l: Msgs)
    requires AllRecords(l)
    ensures |Flat(l)| == REC * |l|
  {
    if l != [] { FlatLength(l[..|l| - 1]); }
  }

  lemma {:induction false} FlatAt(l: Msgs, i: nat)
    requires AllRecords(l) && i < |l|
    ensures |Flat(l)| == REC * |l| && Flat(l)[REC * i..REC * i + REC] == l[i]
  {
    FlatLength(l);
    var pre := l[..|l| - 1];
    FlatLength(pre);
    if i < |pre| {
      FlatAt(pre, i);
      assert Flat(l)[REC * i..REC * i + REC] == Flat(pre)[REC * i..REC * i + REC];
    } else {
      assert Flat(l)[REC * i..REC * i + REC] == l[i];
    }
  }

  function Min(a: nat, b: nat): nat {
    if a < b then a else b
  }

  /** The records of the reply buffer once the first `|l|` of them are written: the buffer is cleared
      once for a scan, and what earlier batches wrote stays behind the count. */
  ghost function Written(l: Msgs, area: Bytes): (b: Bytes)
    requires AllRecords(l) && |l| <= BATCH && |area| == AREA
    ensures |b| == AREA
  {
    FlatLength(l);
    Flat(l) + area[REC * |l|..]
  }

  /** One message of the scan. */
  ghost function Batch(l: Msgs, area: Bytes): (r: Bytes)
    requires AllRecords(l) && |l| <= BATCH && |area| == AREA
    ensures |r| == REP
  {
    U32(IFSCAN) + U32(0) + U32(0) + U32(|l|) + Written(l, area)
  }

  lemma BatchHead(l: Msgs, area: Bytes)
    requires AllRecords(l) && |l| <= BATCH && |area| == AREA
    ensures var r := Batch(l, area); Op(r) == IFSCAN && !Failed(r) && Count(r) == |l|
  {
    hide Written;
    var r := Batch(l, area);
    assert At(r, 0, U32(IFSCAN)) && At(r, 4, U32(0)) && At(r, 12, U32(|l|));
    Read32(r, 0, IFSCAN);
    Read32(r, 4, 0);
    Read32(r, 12, |l|);
  }

  lemma BatchRecords(l: Msgs, area: Bytes)
    requires AllRecords(l) && |l| <= BATCH && |area| == AREA
    ensures Count(Batch(l, area)) == |l| && Records(Batch(l, area)) == l
  {
    BatchHead(l, area);
    FlatLength(l);
    forall i | 0 <= i < |l| ensures Record(Batch(l, area), i) == l[i] {
      FlatAt(l, i);
      assert Batch(l, area)[16 + REC * i..16 + REC * i + REC] == Flat(l)[REC * i..REC * i + REC];
    }
  }

  /** parent_ifscan: the list in batches of 48, then a zero count. */
  ghost function Batches(l: Msgs, area: Bytes): (ms: Msgs)
    requires AllRecords(l) && |area| == AREA
    ensures ms != [] && forall i :: 0 <= i < |ms| ==> |ms[i]| == REP
    decreases |l|
  {
    if l == [] then [Batch([], area)]
    else
      var n := Min(|l|, BATCH);
      [Batch(l[..n], area)] + Batches(l[n..], Written(l[..n], area))
  }

  // ----- what the child makes of the replies

  datatype Scan = More(got: Msgs) | Whole(got: Msgs) | Error | Overrun

  /** One message of the loop of priv_getifaddrs. */
  function Take(got: Msgs, r: Bytes): Scan
    requires |r| == REP
  {
    if Failed(r) then Error
    else if Count(r) == 0 then Whole(got)
    else if Count(r) > BATCH || |got| + Count(r) > LIMIT then Overrun
    else More(got + Records(r))
  }

  /** How a request ended, as the child sees it and as the parent served it. */
  datatype Done =
    | Answered(req: Bytes, rep: Bytes)
    | Scanned(req: Bytes, list: Msgs)
    | ScanFailed(req: Bytes, rep: Bytes)
    | ScanOverrun(req: Bytes)

  datatype Next = Going(got: Msgs) | Ended(x: Done) | Lost

  /** The child has the whole of a reply: a call compares its operation, a scan does not. */
  function Receive(req: Bytes, got: Msgs, r: Bytes): Next
    requires |r| == REP && |req| == REQ
  {
    if IsScan(req) then
      match Take(got, r)
      case More(got') => Going(got')
      case Whole(list) => Ended(Scanned(req, list))
      case Error => Ended(ScanFailed(req, r))
      case Overrun => Ended(ScanOverrun(req))
    else if Op(r) != Op(req) then Lost
    else Ended(Answered(req, r))
  }

  ghost predicate Sized(ms: Msgs, n: nat) {
    forall i :: 0 <= i < |ms| ==> |ms[i]| == n
  }

  datatype Reading = Waiting(got: Msgs) | Finished(x: Done, left: Msgs) | Astray(left: Msgs)

  /** What a request of the child makes of the replies `ms`, and those it leaves unread. */
  ghost function ReadBy(req: Bytes, got: Msgs, ms: Msgs): Reading
    requires |req| == REQ && Sized(ms, REP)
    decreases |ms|
  {
    if ms == [] then Waiting(got)
    else
      match Receive(req, got, ms[0])
      case Going(got') => ReadBy(req, got', ms[1..])
      case Ended(x) => Finished(x, ms[1..])
      case Lost => Astray(ms[1..])
  }

  /** What comes behind the replies a request reads is what it leaves. */
  lemma {:induction false} ReadMore(req: Bytes, got: Msgs, ms: Msgs, more: Msgs)
    requires |req| == REQ && Sized(ms, REP) && Sized(more, REP)
    ensures var r, r' := ReadBy(req, got, ms), ReadBy(req, got, ms + more);
            match r
            case Waiting(got') => r' == ReadBy(req, got', more)
            case Finished(x, left) => r' == Finished(x, left + more)
            case Astray(left) => r' == Astray(left + more)
    decreases |ms|
  {
    if ms != [] {
      assert (ms + more)[0] == ms[0] && (ms + more)[1..] == ms[1..] + more;
      var n := Receive(req, got, ms[0]);
      if n.Going? { ReadMore(req, n.got, ms[1..], more); }
    } else {
      assert ms + more == more;
    }
  }

  lemma TakeBatch(got: Msgs, l: Msgs, area: Bytes)
    requires AllRecords(l) && |l| <= BATCH && |area| == AREA
    ensures Take(got, Batch(l, area)) ==
            if l == [] then Whole(got) else if |got| + |l| > LIMIT then Overrun else More(got + l)
  {
    BatchHead(l, area);
    BatchRecords(l, area);
  }

  lemma BatchesNext(l: Msgs, area: Bytes)
    requires AllRecords(l) && |area| == AREA
    ensures var n, ms := Min(|l|, BATCH), Batches(l, area);
            && AllRecords(l[..n]) && AllRecords(l[n..]) && ms[0] == Batch(l[..n], area)
            && ms[1..] == if l == [] then [] else Batches(l[n..], Written(l[..n], area))
  {
    hide Batch, Written;
  }

  /** A scan of at most 4096 records is rebuilt, in order, with nothing left unread. */
  lemma {:induction false} ScanRebuilds(req: Bytes, got: Msgs, rest: Msgs, area: Bytes)
    requires IsScan(req) && AllRecords(rest) && |area| == AREA && |got| + |rest| <= LIMIT
    ensures ReadBy(req, got, Batches(rest, area)) == Finished(Scanned(req, got + rest), [])
    decreases |rest|
  {
    hide Batch, Batches, Take, Written, AllRecords;
    var n := Min(|rest|, BATCH);
    BatchesNext(rest, area);
    TakeBatch(got, rest[..n], area);
    if rest != [] {
      ScanRebuilds(req, got + rest[..n], rest[n..], Written(rest[..n], area));
      assert (got + rest[..n]) + rest[n..] == got + rest;
    } else {
      assert got + rest == got;
    }
  }

  /** The message of a scan of more records that makes the child give up. */
  const OVERRUN := LIMIT / BATCH

  /** With `k` whole batches read, the child of a longer scan gives up at the same message. */
  lemma {:induction false} OverrunReads(req: Bytes, got: Msgs, rest: Msgs, area: Bytes, k: nat)
    requires IsScan(req) && AllRecords(rest) && |area| == AREA
    requires k <= OVERRUN && |got| == BATCH * k && |got| + |rest| > LIMIT
    ensures var ms := Batches(rest, area);
            |ms| > OVERRUN + 1 - k && ReadBy(req, got, ms) == Finished(ScanOverrun(req), ms[OVERRUN + 1 - k..])
    decreases OVERRUN - k
  {
    hide Batch, Batches, Take, Written, AllRecords;
    var n, ms := Min(|rest|, BATCH), Batches(rest, area);
    BatchesNext(rest, area);
    TakeBatch(got, rest[..n], area);
    if k < OVERRUN {
      OverrunReads(req, got + rest[..n], rest[n..], Written(rest[..n], area), k + 1);
      assert ms[1..][OVERRUN - k..] == ms[OVERRUN + 1 - k..];
    }
  }

  /** Behind `k` messages of a scan are the records behind `k` batches. */
  lemma {:induction false} BatchesBehind(l: Msgs, area: Bytes, k: nat) returns (area': Bytes)
    requires AllRecords(l) && |area| == AREA && (k == 0 || BATCH * (k - 1) < |l|)
    ensures |area'| == AREA && k < |Batches(l, area)|
    ensures Batches(l, area)[k..] == Batches(l[Min(BATCH * k, |l|)..], area')
    decreases k
  {
    hide Batch, Batches, Written, AllRecords;
    area' := area;
    if k == 0 {
      assert l[0..] == l;
    } else {
      var n, ms := Min(|l|, BATCH), Batches(l, area);
      BatchesNext(l, area);
      area' := BatchesBehind(l[n..], Written(l[..n], area), k - 1);
      assert ms[k..] == ms[1..][k - 1..];
      assert l[n..][Min(BATCH * (k - 1), |l[n..]|)..] == l[Min(BATCH * k, |l|)..];
    }
  }

  /** The child rebuilds the parent's list exactly when it has at most 4096 records; else it gives up
      on the 86th message and leaves the others. */
  lemma ScanExactly(req: Bytes, list: Msgs, area: Bytes)
    requires IsScan(req) && AllRecords(list) && |area| == AREA
    ensures var ms := Batches(list, area);
            && (ReadBy(req, [], ms) == Finished(Scanned(req, list), []) <==> |list| <= LIMIT)
            && (|list| > LIMIT ==>
                  |ms| > OVERRUN + 1 && ReadBy(req, [], ms) == Finished(ScanOverrun(req), ms[OVERRUN + 1..]))
  {
    if |list| <= LIMIT {
      ScanRebuilds(req, [], list, area);
      assert [] + list == list;
    } else {
      OverrunReads(req, [], list, area, 0);
    }
  }

  /** The records behind the message at which the child gives up. */
  ghost function Tail(list: Msgs): Msgs {
    list[Min(BATCH * (OVERRUN + 1), |list|)..]
  }

  lemma StaleTail(list: Msgs, area: Bytes) returns (area': Bytes)
    requires AllRecords(list) && |area| == AREA && |list| > LIMIT
    ensures |area'| == AREA && AllRecords(Tail(list))
    ensures var ms := Batches(list, area);
            && |ms| > OVERRUN + 1 && ms[OVERRUN + 1..] == Batches(Tail(list), area') && Op(ms[OVERRUN + 1]) == IFSCAN
  {
    hide Batch, Batches, Written;
    area' := BatchesBehind(list, area, OVERRUN + 1);
    var tail, ms := Tail(list), Batches(list, area);
    BatchesNext(tail, area');
    BatchHead(tail[..Min(|tail|, BATCH)], area');
    assert ms[OVERRUN + 1..][0] == ms[OVERRUN + 1];
  }

  /** What an overrun scan leaves unread begins with a reply of a scan, and a scan that reads it gets
      the tail of the list, if that is no overrun itself. */
  lemma StaleReads(list: Msgs, area: Bytes, req: Bytes)
    requires AllRecords(list) && |area| == AREA && |list| > LIMIT && |req| == REQ
    ensures var ms := Batches(list, area);
            && |ms| > OVERRUN + 1 && Op(ms[OVERRUN + 1]) == IFSCAN
            && var r := ReadBy(req, [], ms[OVERRUN + 1..]);
            && (!IsScan(req) ==> r.Astray?)
            && (IsScan(req) && |Tail(list)| <= LIMIT ==> r == Finished(Scanned(req, Tail(list)), []))
            && (IsScan(req) && |Tail(list)| > LIMIT ==> r.Finished? && r.x == ScanOverrun(req))
  {
    hide Batches, Take, AllRecords;
    var area' := StaleTail(list, area);
    if IsScan(req) { ScanExactly(req, Tail(list), area'); }
  }

  // ----- the two processes

  datatype Child =
    | Idle
    | Sending(msg: Bytes, off: nat)                     // msg_send, `off` bytes of it gone
    | Awaiting(req: Bytes, buf: Bytes, got: Msgs)       // msg_recv, `buf` read; a scan has got records
    | Desync(req: Bytes)                                // the reply was for another request

  datatype Parent =
    | Reading(buf: Bytes)                               // msg_recv of a request
    | Replying(req: Bytes, queue: Msgs, off: nat)       // msg_send of the replies left, `off` bytes of the first gone

  /** The replies a request of the child read. */
  datatype Exchange = Exchange(req: Bytes, msgs: Msgs)

  /** Both processes and the two streams.  `pend` and `due` are the whole messages sent and not yet
      wholly received; `done` and `served` are how requests ended and were served, `log` and `cur` the
      replies read by those that ended and by the one at work; no step depends on any of them. */
  datatype Sys = Sys(child: Child, parent: Parent, c2p: Bytes, p2c: Bytes, pend: Msgs, due: Msgs,
                     done: seq<Done>, served: seq<Done>, log: seq<Exchange>, cur: Msgs)

  datatype Event =
    | Begin(msg: Bytes)                                 // the child calls, scans or logs
    | ChildSends(n: nat)
    | ChildReads(n: nat)
    | ParentReads(n: nat, rep: Bytes, list: Msgs)       // a whole request is answered with `rep`, or `list` for a scan
    | ParentSends(n: nat)

  /** The child goes on with the whole reply `r`. */
  function Received(s: Sys, req: Bytes, got: Msgs, r: Bytes): Sys
    requires |r| == REP && |req| == REQ
  {
    match Receive(req, got, r)
    case Going(got') => s.(child := Awaiting(req, [], got'), cur := s.cur + [r])
    case Ended(x) => s.(child := Idle, done := s.done + [x], log := s.log + [Exchange(req, s.cur + [r])], cur := [])
    case Lost => s.(child := Desync(req), cur := s.cur + [r])
  }

  ghost function Zeros(): (b: Bytes)
    ensures |b| == AREA
  {
    seq(AREA, i => 0)
  }

  /** parent_loop has the whole of a request. */
  ghost function Serve(s: Sys, req: Bytes, rep: Bytes, list: Msgs): Sys
    requires |req| == REQ && |rep| == REP && AllRecords(list)
  {
    if IsLog(req) then s.(parent := Parent.Reading([]))
    else if IsScan(req) then
      if Failed(rep) then s.(parent := Replying(req, [rep], 0), served := s.served + [ScanFailed(req, rep)])
      else s.(parent := Replying(req, Batches(list, Zeros()), 0), served := s.served + [Scanned(req, list)])
    else s.(parent := Replying(req, [rep], 0), served := s.served + [Answered(req, rep)])
  }

  /** The reply to a request is a reply of its operation, in the size both agreed on. */
  ghost predicate Possible(e: Event) {
    match e
    case Begin(msg) => |msg| == REQ
    case ParentReads(n, rep, list) => |rep| == REP && AllRecords(list)
    case _ => true
  }

  /** memset(&rep) and rep.op = req.op, before the request is looked at. */
  function WithOp(rep: Bytes, op: nat): (r: Bytes)
    requires |rep| == REP && op < 0x1_0000_0000
    ensures |r| == REP
  {
    U32(op) + rep[4..]
  }

  lemma WithOpHas(rep: Bytes, op: nat)
    requires |rep| == REP && op < 0x1_0000_0000
    ensures Op(WithOp(rep, op)) == op && (Failed(WithOp(rep, op)) <==> Failed(rep))
  {
    var r := WithOp(rep, op);
    assert At(r, 0, U32(op));
    Read32(r, 0, op);
    assert r[4] == rep[4] && r[5] == rep[5] && r[6] == rep[6] && r[7] == rep[7];
  }

  /** One step of either process; one that cannot happen leaves everything as it is. */
  ghost function Step(s: Sys, e: Event): Sys
    requires Possible(e)
  {
    match e
    case Begin(msg) => if s.child.Idle? then s.(child := Sending(msg, 0)) else s
    case ChildSends(n) =>
      if !s.child.Sending? || s.child.off + n > |s.child.msg| then s
      else
        var off := s.child.off + n;
        var s' := s.(c2p := s.c2p + s.child.msg[s.child.off..off]);
        if off < |s.child.msg| then s'.(child := s.child.(off := off))
        else
          s'.(child := if IsLog(s.child.msg) then Idle else Awaiting(s.child.msg, [], []),
              pend := s.pend + [s.child.msg])
    case ParentReads(n, rep, list) =>
      if !s.parent.Reading? || n > |s.c2p| || |s.parent.buf| + n > REQ then s
      else
        var buf := s.parent.buf + s.c2p[..n];
        var s' := s.(c2p := s.c2p[n..]);
        if |buf| < REQ then s'.(parent := Parent.Reading(buf))
        else Serve(s'.(pend := if s.pend == [] then [] else s.pend[1..]), buf, WithOp(rep, Op(buf)), list)
    case ParentSends(n) =>
      if !s.parent.Replying? || s.parent.queue == [] || s.parent.off + n > |s.parent.queue[0]| then s
      else
        var off, m := s.parent.off + n, s.parent.queue[0];
        var s' := s.(p2c := s.p2c + m[s.parent.off..off]);
        if off < |m| then s'.(parent := s.parent.(off := off))
        else
          var rest := s.parent.queue[1..];
          s'.(parent := if rest == [] then Parent.Reading([]) else Replying(s.parent.req, rest, 0),
              due := s.due + [m])
    case ChildReads(n) =>
      if !s.child.Awaiting? || |s.child.req| != REQ || n > |s.p2c| || |s.child.buf| + n > REP then s
      else
        var buf := s.child.buf + s.p2c[..n];
        var s' := s.(p2c := s.p2c[n..]);
        if |buf| < REP then s'.(child := s.child.(buf := buf))
        else Received(s'.(due := if s.due == [] then [] else s.due[1..]), s.child.req, s.child.got, buf)
  }

  ghost function Start(): Sys {
    Sys(Idle, Parent.Reading([]), [], [], [], [], [], [], [], [])
  }

  ghost predicate AllPossible(es: seq<Event>) {
    forall i :: 0 <= i < |es| ==> Possible(es[i])
  }

  ghost function Run(es: seq<Event>): Sys
    requires AllPossible(es)
  {
    if es == [] then Start() else Step(Run(es[..|es| - 1]), es[|es| - 1])
  }

  // ----- the invariant

  /** The bytes of whole messages, one after another. */
  ghost function Stream(ms: Msgs): Bytes {
    if ms == [] then [] else ms[0] + Stream(ms[1..])
  }

  lemma {:induction false} StreamAdd(ms: Msgs, m: Bytes)
    ensures Stream(ms + [m]) == Stream(ms) + m
    decreases |ms|
  {
    if ms != [] {
      assert (ms + [m])[1..] == ms[1..] + [m];
      StreamAdd(ms[1..], m);
    } else {
      assert ([] + [m])[1..] == [];
    }
  }

  /** What is read of a message and what is on the stream are the messages sent and the part of one
      being sent. */
  ghost predicate Carries(buf: Bytes, stream: Bytes, ms: Msgs, part: Bytes, n: nat) {
    |buf| < n && Sized(ms, n) && |part| < n && buf + stream == Stream(ms) + part
  }

  /** Reading a whole message off a stream reads the oldest sent. */
  lemma ReadWhole(buf: Bytes, stream: Bytes, ms: Msgs, part: Bytes, n: nat, k: nat)
    requires Carries(buf, stream, ms, part, n) && k <= |stream| && |buf| + k == n
    ensures ms != [] && buf + stream[..k] == ms[0] && Carries([], stream[k..], ms[1..], part, n)
  {
    var all := buf + stream;
    assert buf + stream[..k] == all[..n] && stream[k..] == all[n..];
    assert ms == [] ==> |all| == |part|;
    if ms != [] {
      assert all == ms[0] + (Stream(ms[1..]) + part);
      assert all[..n] == ms[0] && all[n..] == Stream(ms[1..]) + part;
    }
  }

  lemma ReadPart(buf: Bytes, stream: Bytes, ms: Msgs, part: Bytes, n: nat, k: nat)
    requires Carries(buf, stream, ms, part, n) && k <= |stream| && |buf| + k < n
    ensures Carries(buf + stream[..k], stream[k..], ms, part, n)
  {
    assert (buf + stream[..k]) + stream[k..] == buf + stream;
  }

  lemma SendPart(buf: Bytes, stream: Bytes, ms: Msgs, m: Bytes, off: nat, k: nat)
    requires off + k < |m| && Carries(buf, stream, ms, m[..off], |m|)
    ensures Carries(buf, stream + m[off..off + k], ms, m[..off + k], |m|)
  {
    assert m[..off] + m[off..off + k] == m[..off + k];
    assert buf + (stream + m[off..off + k]) == (buf + stream) + m[off..off + k];
    assert (Stream(ms) + m[..off]) + m[off..off + k] == Stream(ms) + (m[..off] + m[off..off + k]);
  }

  lemma SendWhole(buf: Bytes, stream: Bytes, ms: Msgs, m: Bytes, off: nat)
    requires off < |m| && Carries(buf, stream, ms, m[..off], |m|)
    ensures Carries(buf, stream + m[off..|m|], ms + [m], [], |m|)
  {
    StreamAdd(ms, m);
    assert m[..off] + m[off..|m|] == m;
    assert buf + (stream + m[off..|m|]) == (buf + stream) + m[off..|m|];
    assert (Stream(ms) + m[..off]) + m[off..|m|] == Stream(ms) + (m[..off] + m[off..|m|]);
    assert Stream(ms + [m]) + [] == Stream(ms + [m]);
  }

  ghost function ChildBuf(s: Sys): Bytes {
    if s.child.Awaiting? then s.child.buf else []
  }

  ghost function ParentBuf(s: Sys): Bytes {
    if s.parent.Reading? then s.parent.buf else []
  }

  ghost predicate ChildOk(c: Child) {
    && (c.Sending? ==> |c.msg| == REQ && c.off < REQ)
    && (c.Awaiting? || c.Desync? ==> |c.req| == REQ && !IsLog(c.req))
  }

  ghost predicate ParentOk(p: Parent) {
    p.Replying? ==> |p.req| == REQ && p.queue != [] && Sized(p.queue, REP) && p.off < REP
  }

  /** The part of a request the child has sent, and of a reply the parent has. */
  ghost function ChildPart(c: Child): Bytes
    requires ChildOk(c)
  {
    if c.Sending? then c.msg[..c.off] else []
  }

  ghost function ParentPart(p: Parent): Bytes
    requires ParentOk(p)
  {
    if p.Replying? then p.queue[0][..p.off] else []
  }

  ghost predicate Streams(s: Sys) {
    && ChildOk(s.child) && ParentOk(s.parent)
    && Carries(ParentBuf(s), s.c2p, s.pend, ChildPart(s.child), REQ)
    && Carries(ChildBuf(s), s.p2c, s.due, ParentPart(s.parent), REP)
  }

  /** The request the child is at work on. */
  ghost function Current(c: Child): Msgs {
    if c.Awaiting? || c.Desync? then [c.req] else []
  }

  /** Every request that ended is what it made of the replies it read, and so is the one at work. */
  ghost predicate ExchangeOk(e: Exchange, x: Done) {
    |e.req| == REQ && Sized(e.msgs, REP) && ReadBy(e.req, [], e.msgs) == Finished(x, []) && e.msgs != []
  }

  ghost predicate Reads(s: Sys) {
    && |s.log| == |s.done|
    && (forall i :: 0 <= i < |s.log| ==> ExchangeOk(s.log[i], s.done[i]))
    && Sized(s.cur, REP)
    && (s.child.Idle? || s.child.Sending? ==> s.cur == [])
    && (s.child.Awaiting? ==> |s.child.req| == REQ && ReadBy(s.child.req, [], s.cur) == Waiting(s.child.got))
    && (s.child.Desync? ==> |s.child.req| == REQ && ReadBy(s.child.req, [], s.cur) == Astray([]))
  }

  /** The replies that make up an answer of the parent's. */
  ghost function Answer(x: Done): Msgs {
    match x
    case Answered(_, rep) => [rep]
    case ScanFailed(_, rep) => [rep]
    case Scanned(_, list) => if AllRecords(list) then Batches(list, Zeros()) else []
    case ScanOverrun(_) => []
  }

  ghost predicate ServedOk(x: Done) {
    && |x.req| == REQ && !IsLog(x.req)
    && match x
       case Answered(req, rep) => !IsScan(req) && |rep| == REP && Op(rep) == Op(req)
       case ScanFailed(req, rep) => IsScan(req) && |rep| == REP && Failed(rep)
       case Scanned(req, list) => IsScan(req) && AllRecords(list)
       case ScanOverrun(_) => false
  }

  ghost function Answers(xs: seq<Done>): Msgs {
    if xs == [] then [] else Answer(xs[0]) + Answers(xs[1..])
  }

  ghost function AllRead(log: seq<Exchange>): Msgs {
    if log == [] then [] else log[0].msgs + AllRead(log[1..])
  }

  /** The replies the child has yet to read. */
  ghost function Rest(s: Sys): Msgs {
    s.due + if s.parent.Replying? then s.parent.queue else []
  }

  /** What the child has read and has yet to read is what the parent answered, in order. */
  ghost predicate Conserved(s: Sys) {
    && (forall i :: 0 <= i < |s.served| ==> ServedOk(s.served[i]))
    && AllRead(s.log) + s.cur + Rest(s) == Answers(s.served)
  }

  ghost function Calls(ms: Msgs): Msgs {
    if ms == [] then [] else (if IsLog(ms[0]) then [] else [ms[0]]) + Calls(ms[1..])
  }

  ghost function Reqs(xs: seq<Done>): Msgs {
    seq(|xs|, i requires 0 <= i < |xs| => xs[i].req)
  }

  ghost function Asked(log: seq<Exchange>): Msgs {
    seq(|log|, i requires 0 <= i < |log| => log[i].req)
  }

  /** The requests the child made are those the parent served and those on their way. */
  ghost predicate Ordered(s: Sys) {
    Asked(s.log) + Current(s.child) == Reqs(s.served) + Calls(s.pend)
  }

  ghost predicate Explained(s: Sys) {
    Streams(s) && Reads(s) && Conserved(s) && Ordered(s)
  }

  // ----- the lists of messages

  lemma {:induction false} CallsAdd(ms: Msgs, m: Bytes)
    ensures Calls(ms + [m]) == Calls(ms) + if IsLog(m) then [] else [m]
    decreases |ms|
  {
    if ms == [] {
      assert (ms + [m])[1..] == [];
    } else {
      CallsAdd(ms[1..], m);
      assert (ms + [m])[1..] == ms[1..] + [m];
    }
  }

  lemma {:induction false} AnswersAdd(xs: seq<Done>, x: Done)
    ensures Answers(xs + [x]) == Answers(xs) + Answer(x)
    decreases |xs|
  {
    hide Answer;
    if xs == [] {
      assert (xs + [x])[1..] == [];
    } else {
      AnswersAdd(xs[1..], x);
      assert (xs + [x])[1..] == xs[1..] + [x];
    }
  }

  lemma {:induction false} AnswersSplit(xs: seq<Done>, i: nat)
    requires i <= |xs|
    ensures Answers(xs) == Answers(xs[..i]) + Answers(xs[i..])
    ensures i < |xs| ==> Answers(xs[..i + 1]) == Answers(xs[..i]) + Answer(xs[i])
    decreases |xs|
  {
    hide Answer;
    if i > 0 {
      AnswersSplit(xs[1..], i - 1);
      assert xs[..i][1..] == xs[1..][..i - 1] && xs[i..] == xs[1..][i - 1..];
      assert i < |xs| ==> xs[..i + 1][1..] == xs[1..][..i];
    } else {
      assert xs[0..] == xs;
    }
  }

  lemma {:induction false} AllReadAdd(log: seq<Exchange>, e: Exchange)
    ensures AllRead(log + [e]) == AllRead(log) + e.msgs
    decreases |log|
  {
    if log == [] {
      assert (log + [e])[1..] == [];
    } else {
      AllReadAdd(log[1..], e);
      assert (log + [e])[1..] == log[1..] + [e];
    }
  }

  lemma {:induction false} AllReadSplit(log: seq<Exchange>, i: nat)
    requires i <= |log|
    ensures AllRead(log) == AllRead(log[..i]) + AllRead(log[i..])
    ensures i < |log| ==> AllRead(log[..i + 1]) == AllRead(log[..i]) + log[i].msgs
    decreases |log|
  {
    if i > 0 {
      AllReadSplit(log[1..], i - 1);
      assert log[..i][1..] == log[1..][..i - 1] && log[i..] == log[1..][i - 1..];
      assert i < |log| ==> log[..i + 1][1..] == log[1..][..i];
    } else {
      assert log[0..] == log;
    }
  }

  // ----- every step keeps it

  lemma BeginExplained(s: Sys, msg: Bytes)
    requires Explained(s) && |msg| == REQ
    ensures Explained(Step(s, Begin(msg)))
  {
    hide Carries, ExchangeOk, ReadBy;
    assert msg[..0] == [];
  }

  lemma ChildSendsExplained(s: Sys, n: nat)
    requires Explained(s)
    ensures Explained(Step(s, ChildSends(n)))
  {
    hide Carries, ExchangeOk, Conserved, ReadBy, Calls;
    var s' := Step(s, ChildSends(n));
    ConservedFrame(s, s');
    if s.child.Sending? && s.child.off + n <= REQ {
      var m, off := s.child.msg, s.child.off;
      if off + n < REQ {
        SendPart(ParentBuf(s), s.c2p, s.pend, m, off, n);
      } else {
        SendWhole(ParentBuf(s), s.c2p, s.pend, m, off);
        CallsAdd(s.pend, m);
        NothingRead(m);
        assert off + n == |m|;
        assert Asked(s.log) + [] == Reqs(s.served) + Calls(s.pend);
        assert Reqs(s.served) + Calls(s'.pend) == (Reqs(s.served) + Calls(s.pend)) + Current(s'.child);
      }
    }
  }

  lemma NothingRead(req: Bytes)
    requires |req| == REQ
    ensures ReadBy(req, [], []) == Waiting([])
  {
  }

  lemma ConservedFrame(s: Sys, s': Sys)
    requires Conserved(s) && s'.served == s.served && s'.log == s.log && s'.cur == s.cur && Rest(s') == Rest(s)
    ensures Conserved(s')
  {
  }

  lemma ParentReadsExplained(s: Sys, n: nat, rep: Bytes, list: Msgs)
    requires Explained(s) && |rep| == REP && AllRecords(list)
    ensures Explained(Step(s, ParentReads(n, rep, list)))
  {
    hide Carries, ExchangeOk, IsLog, WithOp, Serve, Conserved, ReadBy;
    var s' := Step(s, ParentReads(n, rep, list));
    if s.parent.Reading? && n <= |s.c2p| && |s.parent.buf| + n <= REQ {
      var part := ChildPart(s.child);
      if |s.parent.buf| + n < REQ {
        ReadPart(s.parent.buf, s.c2p, s.pend, part, REQ, n);
        ConservedFrame(s, s');
      } else {
        ReadWhole(s.parent.buf, s.c2p, s.pend, part, REQ, n);
        var req := s.pend[0];
        var s1 := s.(c2p := s.c2p[n..], pend := s.pend[1..]);
        WithOpHas(rep, Op(req));
        assert s' == Serve(s1, req, WithOp(rep, Op(req)), list);
        WholeRead(s, s1, req, WithOp(rep, Op(req)), list);
      }
    }
  }

  /** The answer parent_loop makes is one for the request it read. */
  lemma ServedFor(s: Sys, req: Bytes, rep: Bytes, list: Msgs)
    requires |req| == REQ && !IsLog(req) && |rep| == REP && AllRecords(list) && Op(rep) == Op(req)
    ensures var s' := Serve(s, req, rep, list);
            && s'.parent.Replying? && s'.parent.off == 0 && ParentOk(s'.parent)
            && s' == s.(parent := s'.parent, served := s'.served)
            && s'.served != [] && var x := s'.served[|s'.served| - 1];
            && s'.served == s.served + [x] && x.req == req && ServedOk(x) && s'.parent.queue == Answer(x)
  {
  }

  lemma WholeRead(s: Sys, s1: Sys, req: Bytes, rep: Bytes, list: Msgs)
    requires Reads(s) && Conserved(s) && Ordered(s) && ChildOk(s.child) && s.parent.Reading? && s.pend != []
    requires req == s.pend[0]
    requires s1 == s.(c2p := s1.c2p, pend := s.pend[1..])
    requires Carries([], s1.c2p, s1.pend, ChildPart(s1.child), REQ) && Carries(ChildBuf(s1), s1.p2c, s1.due, [], REP)
    requires |req| == REQ && |rep| == REP && AllRecords(list) && Op(rep) == Op(req)
    ensures Explained(Serve(s1, req, rep, list))
  {
    hide Carries, ExchangeOk, ReadBy, Answer, ServedOk;
    var s' := Serve(s1, req, rep, list);
    if !IsLog(req) {
      ServedFor(s1, req, rep, list);
      var x := s'.served[|s'.served| - 1];
      assert s'.parent.queue[0][..0] == [];
      AnswersAdd(s.served, x);
      assert Rest(s') == Rest(s) + Answer(x);
      assert Reqs(s'.served) == Reqs(s.served) + [req];
    }
  }

  lemma ParentSendsExplained(s: Sys, n: nat)
    requires Explained(s)
    ensures Explained(Step(s, ParentSends(n)))
  {
    hide Carries, ExchangeOk, ReadBy, Conserved;
    if s.parent.Replying? && s.parent.off + n <= REP {
      var m, off, s' := s.parent.queue[0], s.parent.off, Step(s, ParentSends(n));
      if off + n < REP {
        SendPart(ChildBuf(s), s.p2c, s.due, m, off, n);
      } else {
        SendWhole(ChildBuf(s), s.p2c, s.due, m, off);
        assert off + n == |m|;
        if |s.parent.queue| > 1 { assert s.parent.queue[1..][0][..0] == []; }
      }
      assert Rest(s') == Rest(s);
      ConservedFrame(s, s');
    }
  }

  /** One more reply, and the request is what it makes of all it has read. */
  lemma ReadNext(req: Bytes, cur: Msgs, got: Msgs, r: Bytes)
    requires |req| == REQ && Sized(cur, REP) && |r| == REP && ReadBy(req, [], cur) == Waiting(got)
    ensures Sized(cur + [r], REP)
    ensures ReadBy(req, [], cur + [r]) ==
            match Receive(req, got, r)
            case Going(got') => Waiting(got')
            case Ended(x) => Finished(x, [])
            case Lost => Astray([])
  {
    ReadMore(req, [], cur, [r]);
    assert [r][1..] == [];
  }

  /** A whole reply taken off what is left is one read. */
  lemma ReceivedReads(s: Sys, s1: Sys, r: Bytes)
    requires Reads(s) && s.child.Awaiting? && |r| == REP && s1 == s.(due := s1.due)
    ensures Reads(Received(s1, s.child.req, s.child.got, r))
  {
    hide ReadBy, Receive;
    ReadNext(s.child.req, s.cur, s.child.got, r);
  }

  lemma ReceivedConserved(s: Sys, r: Bytes)
    requires Conserved(s) && Ordered(s) && s.child.Awaiting? && |s.child.req| == REQ && |r| == REP
    requires s.due != [] && s.due[0] == r
    ensures var s' := Received(s.(due := s.due[1..]), s.child.req, s.child.got, r); Conserved(s') && Ordered(s')
  {
    hide Receive, Answers, AllRead, ServedOk, Reqs, Calls;
    var req, s1 := s.child.req, s.(due := s.due[1..]);
    var s' := Received(s1, req, s.child.got, r);
    AllReadAdd(s.log, Exchange(req, s.cur + [r]));
    assert Rest(s) == [r] + Rest(s') && Rest(s') == Rest(s1);
    assert AllRead(s.log) + s.cur + ([r] + Rest(s')) == AllRead(s.log) + (s.cur + [r]) + Rest(s');
    assert AllRead(s.log) + (s.cur + [r]) + [] == AllRead(s.log) + (s.cur + [r]);
    assert Asked(s.log + [Exchange(req, s.cur + [r])]) + [] == Asked(s.log) + [req];
  }

  lemma ReceivedExplained(s: Sys, r: Bytes)
    requires Reads(s) && Conserved(s) && Ordered(s) && ChildOk(s.child) && s.child.Awaiting?
    requires |r| == REP && s.due != [] && s.due[0] == r
    ensures var s' := Received(s.(due := s.due[1..]), s.child.req, s.child.got, r);
            && Reads(s') && Conserved(s') && Ordered(s') && ChildOk(s'.child) && ChildBuf(s') == []
            && ChildPart(s'.child) == []
            && s' == s.(child := s'.child, due := s.due[1..], done := s'.done, log := s'.log, cur := s'.cur)
  {
    hide Receive, IsLog, Reads, Conserved, Ordered;
    ReceivedReads(s, s.(due := s.due[1..]), r);
    ReceivedConserved(s, r);
  }

  lemma ChildReadsExplained(s: Sys, n: nat)
    requires Explained(s)
    ensures Explained(Step(s, ChildReads(n)))
  {
    hide Carries, Reads, Received, Conserved, Ordered;
    var s' := Step(s, ChildReads(n));
    if s.child.Awaiting? && n <= |s.p2c| && |s.child.buf| + n <= REP {
      var part, s1 := ParentPart(s.parent), s.(p2c := s.p2c[n..]);
      SameHistory(s, s1);
      if |s.child.buf| + n < REP {
        ReadPart(s.child.buf, s.p2c, s.due, part, REP, n);
        SameHistory(s, s');
      } else {
        ReadWhole(s.child.buf, s.p2c, s.due, part, REP, n);
        ReceivedExplained(s1, s.due[0]);
        assert s' == Received(s1.(due := s.due[1..]), s.child.req, s.child.got, s.due[0]);
      }
    }
  }

  /** What is read of a reply in part is not part of the history. */
  lemma SameHistory(s: Sys, s': Sys)
    requires s' == s.(p2c := s'.p2c, child := s'.child)
    requires s'.child == s.child || (s.child.Awaiting? && s'.child == s.child.(buf := ChildBuf(s')))
    ensures Reads(s') == Reads(s) && Conserved(s') == Conserved(s) && Ordered(s') == Ordered(s)
  {
    assert Rest(s') == Rest(s);
  }

  lemma StepExplained(s: Sys, e: Event)
    requires Explained(s) && Possible(e)
    ensures Explained(Step(s, e))
  {
    hide Explained, Step;
    match e
    case Begin(msg) => BeginExplained(s, msg);
    case ChildSends(n) => ChildSendsExplained(s, n);
    case ParentReads(n, rep, list) => ParentReadsExplained(s, n, rep, list);
    case ParentSends(n) => ParentSendsExplained(s, n);
    case ChildReads(n) => ChildReadsExplained(s, n);
  }

  /** For any fragmentation and any mix of calls, scans and logs: both streams carry whole messages,
      the replies read and to be read are the parent's answers in the order of the requests, and every
      request of the child ended as those replies it read say. */
  lemma {:induction false} AlwaysExplained(es: seq<Event>)
    requires AllPossible(es)
    ensures Explained(Run(es))
  {
    if es != [] {
      AlwaysExplained(es[..|es| - 1]);
      StepExplained(Run(es[..|es| - 1]), es[|es| - 1]);
    } else {
      assert Stream([]) + [] == [];
    }
  }

  // ----- when the child's view is the parent's

  /** A scan of more records than the child will take. */
  ghost predicate TooLong(x: Done) {
    x.Scanned? && |x.list| > LIMIT
  }

  /** What a request sees of its own answer, and leaves of it. */
  ghost function Seen(x: Done): Done {
    if TooLong(x) then ScanOverrun(x.req) else x
  }

  ghost function Unread(x: Done): Msgs {
    if TooLong(x) && |Answer(x)| > OVERRUN + 1 then Answer(x)[OVERRUN + 1..] else []
  }

  lemma AnswerReads(x: Done)
    requires ServedOk(x)
    ensures Sized(Answer(x), REP) && Sized(Unread(x), REP) && Answer(x) != []
    ensures (TooLong(x) ==> |Answer(x)| > OVERRUN + 1)
    ensures ReadBy(x.req, [], Answer(x)) == Finished(Seen(x), Unread(x))
  {
    if x.Scanned? {
      ScanExactly(x.req, x.list, Zeros());
    } else {
      assert Answer(x)[1..] == [];
    }
  }

  lemma {:induction false} AnswersSized(xs: seq<Done>)
    requires forall i :: 0 <= i < |xs| ==> ServedOk(xs[i])
    ensures Sized(Answers(xs), REP)
    decreases |xs|
  {
    hide Answer, ServedOk;
    if xs != [] {
      AnswerReads(xs[0]);
      AnswersSized(xs[1..]);
    }
  }

  /** After the first `i` requests the replies left are the answers to the others. */
  ghost predicate AlignedAt(s: Sys, i: nat) {
    i <= |s.log| && i <= |s.served| && AllRead(s.log[i..]) + s.cur + Rest(s) == Answers(s.served[i..])
  }

  /** The `i`-th request of the child is the `i`-th the parent serves. */
  lemma SameRequest(s: Sys, i: nat)
    requires Explained(s) && i < |s.served|
    ensures i < |s.log| ==> s.log[i].req == s.served[i].req
    ensures i == |s.log| && (s.child.Awaiting? || s.child.Desync?) ==> s.child.req == s.served[i].req
  {
    hide Streams, Reads, Conserved;
    var all := Reqs(s.served) + Calls(s.pend);
    assert all[i] == s.served[i].req;
    if i < |s.log| { assert (Asked(s.log) + Current(s.child))[i] == s.log[i].req; }
    if i == |s.log| { assert Current(s.child) != [] ==> (Asked(s.log) + Current(s.child))[i] == Current(s.child)[0]; }
  }

  /** Two ways to split what is read, each whole for the request, are one. */
  lemma SameSplit(req: Bytes, a: Msgs, b: Msgs, x: Done, c: Msgs, d: Msgs, r: Reading)
    requires |req| == REQ && Sized(a, REP) && Sized(b, REP) && Sized(c, REP) && Sized(d, REP) && a + b == c + d
    requires ReadBy(req, [], c) == r && !r.Waiting?
    ensures ReadBy(req, [], a) == Finished(x, []) ==> r.Finished? && r.x == x && b == r.left + d
    ensures ReadBy(req, [], a) == Astray([]) ==> r.Astray?
  {
    hide ReadBy;
    ReadMore(req, [], a, b);
    ReadMore(req, [], c, d);
    assert [] + b == b;
  }

  lemma ReadsAt(s: Sys, i: nat)
    requires i < |s.log|
    ensures AllRead(s.log[i..]) == s.log[i].msgs + AllRead(s.log[i + 1..])
  {
    assert s.log[i..][1..] == s.log[i + 1..];
  }

  lemma AnswersAt(xs: seq<Done>, i: nat)
    requires i < |xs|
    ensures Answers(xs[i..]) == Answer(xs[i]) + Answers(xs[i + 1..])
  {
    assert xs[i..][1..] == xs[i + 1..];
  }

  lemma SizedParts(a: Msgs, b: Msgs, n: nat)
    requires Sized(a + b, n)
    ensures Sized(a, n) && Sized(b, n)
  {
    forall i | 0 <= i < |a| ensures |a[i]| == n { assert (a + b)[i] == a[i]; }
    forall i | 0 <= i < |b| ensures |b[i]| == n { assert (a + b)[|a| + i] == b[i]; }
  }

  /** A request whose turn it is sees its own answer. */
  lemma NextSeen(s: Sys, i: nat)
    requires Explained(s) && i < |s.log| && AlignedAt(s, i)
    ensures i < |s.served| && |s.done| == |s.log| && s.done[i] == Seen(s.served[i])
    ensures AllRead(s.log[i + 1..]) + s.cur + Rest(s) == Unread(s.served[i]) + Answers(s.served[i + 1..])
  {
    hide Streams, Rest, Answer, Seen, Unread, AllRead, Answers, ReadBy, Ordered, ServedOk;
    ReadsAt(s, i);
    assert ExchangeOk(s.log[i], s.done[i]);
    var msgs, left := s.log[i].msgs, AllRead(s.log[i + 1..]) + s.cur + Rest(s);
    assert msgs + left == AllRead(s.log[i..]) + s.cur + Rest(s);
    EmptyAnswers(s.served, i);
    AnswersSized(s.served[i..]);
    SizedParts(msgs, left, REP);
    AnswersAt(s.served, i);
    SizedParts(Answer(s.served[i]), Answers(s.served[i + 1..]), REP);
    AnswerReads(s.served[i]);
    SameRequest(s, i);
    SameSplit(s.log[i].req, msgs, left, s.done[i], Answer(s.served[i]), Answers(s.served[i + 1..]),
              Finished(Seen(s.served[i]), Unread(s.served[i])));
  }

  lemma EmptyAnswers(xs: seq<Done>, i: nat)
    requires i <= |xs|
    ensures Answers(xs[i..]) != [] ==> i < |xs|
  {
  }

  /** As long as no scan was too long, every request that ended ended as it was served. */
  lemma {:induction false} Aligned(s: Sys, i: nat)
    requires Explained(s) && i <= |s.log| && forall j :: 0 <= j < i && j < |s.served| ==> !TooLong(s.served[j])
    ensures AlignedAt(s, i) && i <= |s.done| && s.done[..i] == s.served[..i]
  {
    hide Streams, ExchangeOk, Ordered, Rest, Answer, AllRead, Answers;
    if i == 0 {
      assert s.log[0..] == s.log && s.served[0..] == s.served;
    } else {
      Aligned(s, i - 1);
      NextSeen(s, i - 1);
      assert [] + Answers(s.served[i..]) == Answers(s.served[i..]);
      assert s.done[..i] == s.done[..i - 1] + [s.done[i - 1]] && s.served[..i] == s.served[..i - 1] + [s.served[i - 1]];
    }
  }

  /** A request whose turn it is cannot lose the way. */
  lemma NotLost(s: Sys)
    requires Explained(s) && AlignedAt(s, |s.log|)
    ensures !s.child.Desync?
  {
    hide Streams, Rest, Answer, Seen, Unread, Answers, Ordered, ServedOk;
    if s.child.Desync? {
      var i := |s.log|;
      assert s.log[i..] == [] && s.cur != [];
      assert s.cur + Rest(s) == Answers(s.served[i..]);
      EmptyAnswers(s.served, i);
      AnswersSized(s.served[i..]);
      SizedParts(s.cur, Rest(s), REP);
      AnswersAt(s.served, i);
      SizedParts(Answer(s.served[i]), Answers(s.served[i + 1..]), REP);
      AnswerReads(s.served[i]);
      SameRequest(s, i);
      SameSplit(s.child.req, s.cur, Rest(s), s.served[i], Answer(s.served[i]), Answers(s.served[i + 1..]),
                Finished(Seen(s.served[i]), Unread(s.served[i])));
    }
  }

  /** An idle child that has seen all its own answers has them all. */
  lemma NothingLeft(s: Sys)
    requires Explained(s) && AlignedAt(s, |s.log|) && s.child.Idle?
    ensures |s.served| == |s.log| && Rest(s) == []
  {
    hide Streams, Rest;
    assert |Asked(s.log) + Current(s.child)| == |s.log|;
    assert s.log[|s.log|..] == [] && s.served[|s.served|..] == [];
    assert [] + [] + Rest(s) == Rest(s);
  }

  lemma FirstTooLong(xs: seq<Done>, n: nat) returns (i: nat)
    requires n <= |xs| && exists j :: 0 <= j < n && TooLong(xs[j])
    ensures i < n && TooLong(xs[i]) && forall j :: 0 <= j < i ==> !TooLong(xs[j])
  {
    i := 0;
    while !TooLong(xs[i])
      invariant i < n && forall j :: 0 <= j < i ==> !TooLong(xs[j])
      decreases n - i
    {
      i := i + 1;
    }
  }

  /** Every request that has ended got its own reply, the one the parent made for it, and the desync
      branch of priv_call is not reached, exactly if none of them was a scan of more than 4096 records. */
  lemma OwnReplies(es: seq<Event>)
    requires AllPossible(es)
    ensures var s := Run(es);
            && ((!s.child.Desync? && s.done <= s.served) <==>
                  forall i :: 0 <= i < |s.done| && i < |s.served| ==> !TooLong(s.served[i]))
            && (!s.child.Desync? && s.done <= s.served && s.child.Idle? ==> s.done == s.served && Rest(s) == [])
  {
    hide Explained, Run, TooLong, Rest;
    AlwaysExplained(es);
    var s := Run(es);
    if forall i :: 0 <= i < |s.done| && i < |s.served| ==> !TooLong(s.served[i]) {
      OwnIfShort(s);
    } else {
      OthersIfLong(s);
    }
  }

  lemma OwnIfShort(s: Sys)
    requires Explained(s) && forall i :: 0 <= i < |s.done| && i < |s.served| ==> !TooLong(s.served[i])
    ensures !s.child.Desync? && s.done <= s.served && (s.child.Idle? ==> s.done == s.served && Rest(s) == [])
  {
    hide Streams, ExchangeOk, Conserved, Ordered, TooLong, Rest, AllRead, Answers;
    Aligned(s, |s.log|);
    assert s.done[..|s.log|] == s.done;
    NotLost(s);
    if s.child.Idle? { NothingLeft(s); }
  }

  lemma OthersIfLong(s: Sys)
    requires Explained(s) && exists i :: 0 <= i < |s.done| && i < |s.served| && TooLong(s.served[i])
    ensures !(s.done <= s.served)
  {
    hide Explained, Rest;
    var i := FirstTooLong(s.served, if |s.done| < |s.served| then |s.done| else |s.served|);
    Overruns(s, i);
  }

  lemma Overruns(s: Sys, i: nat)
    requires Explained(s) && i < |s.done| && i < |s.served| && TooLong(s.served[i])
    requires forall j :: 0 <= j < i ==> !TooLong(s.served[j])
    ensures |s.log| == |s.done| && s.done[..i] == s.served[..i] && s.done[i] == ScanOverrun(s.served[i].req)
    ensures AllRead(s.log[i + 1..]) + s.cur + Rest(s) == Unread(s.served[i]) + Answers(s.served[i + 1..])
  {
    hide Streams, Conserved, Ordered, Rest, Answer, Answers, AllRead, ReadBy;
    Aligned(s, i);
    NextSeen(s, i);
  }

  // ----- what an overrun scan leaves behind

  /** The first scan of more than 4096 records, once it has ended: it overran, the replies behind the
      86th come before all later answers, a call that reads one loses the way, and the next scan gets
      the tail of the list of this one. */
  ghost predicate Overran(s: Sys, i: nat)
    requires i < |s.done| && i < |s.served| && s.served[i].Scanned? && |s.log| == |s.done|
  {
    var x, tail := s.served[i], Tail(s.served[i].list);
    && s.done[..i] == s.served[..i] && s.done[i] == ScanOverrun(x.req)
    && |Answer(x)| > OVERRUN + 1
    && AllRead(s.log[i + 1..]) + s.cur + Rest(s) == Answer(x)[OVERRUN + 1..] + Answers(s.served[i + 1..])
    && (|s.done| == i + 1 && Current(s.child) != [] && s.cur != [] && !IsScan(Current(s.child)[0]) ==> s.child.Desync?)
    && (|s.done| == i + 1 && s.child.Desync? ==> !IsScan(s.child.req))
    && (|s.done| > i + 1 ==>
          var y := s.done[i + 1];
          IsScan(y.req) && y == if |tail| <= LIMIT then Scanned(y.req, tail) else ScanOverrun(y.req))
  }

  lemma AfterOverrun(es: seq<Event>, i: nat)
    requires AllPossible(es) && i < |Run(es).done| && i < |Run(es).served| && TooLong(Run(es).served[i])
    requires forall j :: 0 <= j < i ==> !TooLong(Run(es).served[j])
    ensures |Run(es).log| == |Run(es).done| && Overran(Run(es), i)
    ensures Run(es).child.Idle? && |Run(es).done| == i + 1 == |Run(es).served| ==>
              Rest(Run(es)) == Answer(Run(es).served[i])[OVERRUN + 1..]
  {
    hide Run, Streams, Ordered, Rest, Answer, Answers, AllRead, ReadBy, Tail;
    AlwaysExplained(es);
    var s := Run(es);
    var x := s.served[i];
    AnswerReads(x);
    Overruns(s, i);
    CallReadsOne(s);
    if |s.done| > i + 1 { StaleEnded(s, i); }
    if |s.done| == i + 1 && s.child.Desync? { StaleLost(s, i); }
    if s.child.Idle? && |s.done| == i + 1 == |s.served| { NoneBehind(s, i); }
  }

  /** A call that has read a reply has ended or lost the way. */
  lemma CallReadsOne(s: Sys)
    requires Reads(s)
    ensures s.child.Awaiting? && s.cur != [] ==> IsScan(s.child.req)
  {
  }

  lemma NoneBehind(s: Sys, i: nat)
    requires Reads(s) && s.child.Idle? && |s.done| == i + 1 == |s.served|
    ensures AllRead(s.log[i + 1..]) + s.cur + Rest(s) == Rest(s) && Answers(s.served[i + 1..]) == []
  {
    assert s.log[i + 1..] == [];
  }

  /** What is left of an overrun scan's answer, as any request reads it. */
  lemma StaleAnswer(x: Done, req: Bytes)
    requires ServedOk(x) && TooLong(x) && |req| == REQ
    ensures Sized(Unread(x), REP)
    ensures var r := ReadBy(req, [], Unread(x));
            && (!IsScan(req) ==> r.Astray?)
            && (IsScan(req) ==>
                  r.Finished? && r.x == if |Tail(x.list)| <= LIMIT then Scanned(req, Tail(x.list))
                  else ScanOverrun(req))
  {
    AnswerReads(x);
    StaleReads(x.list, Zeros(), req);
  }

  lemma StaleEnded(s: Sys, i: nat)
    requires Explained(s) && i + 1 < |s.done| && i < |s.served| && TooLong(s.served[i])
    requires AllRead(s.log[i + 1..]) + s.cur + Rest(s) == Unread(s.served[i]) + Answers(s.served[i + 1..])
    ensures var y, tail := s.done[i + 1], Tail(s.served[i].list);
            IsScan(y.req) && y == if |tail| <= LIMIT then Scanned(y.req, tail) else ScanOverrun(y.req)
  {
    hide Streams, Rest, Answer, Answers, AllRead, ReadBy, Ordered, Unread, Tail, TooLong, ServedOk, IsScan;
    var e, left, stale, later := s.log[i + 1], AllRead(s.log[i + 2..]) + s.cur + Rest(s), Unread(s.served[i]),
        Answers(s.served[i + 1..]);
    assert ExchangeOk(e, s.done[i + 1]);
    ReadsAt(s, i + 1);
    assert e.msgs + left == AllRead(s.log[i + 1..]) + s.cur + Rest(s);
    StaleAnswer(s.served[i], e.req);
    AnswersSized(s.served[i + 1..]);
    assert Sized(stale + later, REP);
    SizedParts(e.msgs, left, REP);
    SameSplit(e.req, e.msgs, left, s.done[i + 1], stale, later, ReadBy(e.req, [], stale));
  }

  lemma StaleLost(s: Sys, i: nat)
    requires Explained(s) && i + 1 == |s.done| && i < |s.served| && TooLong(s.served[i]) && s.child.Desync?
    requires AllRead(s.log[i + 1..]) + s.cur + Rest(s) == Unread(s.served[i]) + Answers(s.served[i + 1..])
    ensures !IsScan(s.child.req)
  {
    hide Streams, Rest, Answer, Answers, ReadBy, Ordered, Unread, Tail, TooLong, ServedOk, IsScan;
    var stale, later := Unread(s.served[i]), Answers(s.served[i + 1..]);
    assert s.log[i + 1..] == [];
    assert s.cur + Rest(s) == AllRead(s.log[i + 1..]) + s.cur + Rest(s);
    StaleAnswer(s.served[i], s.child.req);
    AnswersSized(s.served[i + 1..]);
    assert Sized(stale + later, REP);
    SizedParts(s.cur, Rest(s), REP);
    SameSplit(s.child.req, s.cur, Rest(s), s.served[i], stale, later, ReadBy(s.child.req, [], stale));
  }

  // ----- a run in which it happens

  lemma RunAdd(es: seq<Event>, e: Event)
    requires AllPossible(es) && Possible(e)
    ensures AllPossible(es + [e]) && Run(es + [e]) == Step(Run(es), e)
  {
    assert (es + [e])[..|es|] == es;
  }

  /** The child waits for a reply and the parent has replies to send, none of them begun. */
  ghost predicate Flowing(s: Sys, req: Bytes, got: Msgs, queue: Msgs) {
    && s.child == Awaiting(req, [], got) && |req| == REQ && s.p2c == [] && s.due == []
    && s.parent.Replying? && s.parent.queue == queue && s.parent.off == 0 && queue != [] && Sized(queue, REP)
  }

  /** The parent after the first reply of its queue. */
  ghost function Onward(p: Parent): Parent
    requires p.Replying? && p.queue != []
  {
    if |p.queue| == 1 then Parent.Reading([]) else Replying(p.req, p.queue[1..], 0)
  }

  /** One whole reply goes over. */
  lemma Pump(s: Sys, req: Bytes, got: Msgs, queue: Msgs)
    requires Flowing(s, req, got, queue)
    ensures Step(Step(s, ParentSends(REP)), ChildReads(REP)) ==
              Received(s.(parent := Onward(s.parent)), req, got, queue[0])
  {
    var m := queue[0];
    var s1 := Step(s, ParentSends(REP));
    assert [] + m[0..REP] == m && [] + [m] == [m];
    assert s1 == s.(parent := Onward(s.parent), p2c := m, due := [m]);
    var one: Msgs := [m];
    assert [] + m[..REP] == m && m[REP..] == [] && one[1..] == [];
  }

  /** Whole replies go over until the request at work ends. */
  lemma {:induction false} PumpAll(es: seq<Event>, req: Bytes, got: Msgs, queue: Msgs) returns (es': seq<Event>)
    requires AllPossible(es) && Flowing(Run(es), req, got, queue)
    requires ReadBy(req, got, queue).Finished? && ReadBy(req, got, queue).left != []
    ensures AllPossible(es')
    ensures var s, s', r := Run(es), Run(es'), ReadBy(req, got, queue);
            && s'.child == Idle && s'.done == s.done + [r.x] && s'.served == s.served && s'.p2c == [] && s'.due == []
            && s'.parent == Replying(s.parent.req, r.left, 0)
    decreases |queue|
  {
    hide Received, Step;
    var s := Run(es);
    RunAdd(es, ParentSends(REP));
    RunAdd(es + [ParentSends(REP)], ChildReads(REP));
    es' := es + [ParentSends(REP)] + [ChildReads(REP)];
    Pump(s, req, got, queue);
    PumpNext(s, req, got, queue);
    var n := Receive(req, got, queue[0]);
    if n.Going? { es' := PumpAll(es', req, n.got, queue[1..]); }
  }

  lemma PumpNext(s: Sys, req: Bytes, got: Msgs, queue: Msgs)
    requires Flowing(s, req, got, queue) && ReadBy(req, got, queue).Finished? && ReadBy(req, got, queue).left != []
    ensures var n, s' := Receive(req, got, queue[0]), Received(s.(parent := Onward(s.parent)), req, got, queue[0]);
            && s'.served == s.served && !n.Lost?
            && (n.Going? ==>
                  && Flowing(s', req, n.got, queue[1..]) && ReadBy(req, got, queue) == ReadBy(req, n.got, queue[1..])
                  && s'.done == s.done && s'.parent.req == s.parent.req)
            && (n.Ended? ==>
                  && ReadBy(req, got, queue) == Finished(n.x, queue[1..]) && s'.child == Idle
                  && s'.done == s.done + [n.x]
                  && s'.p2c == [] && s'.due == [] && s'.parent == Replying(s.parent.req, queue[1..], 0))
  {
  }

  /** A call goes out whole. */
  lemma Ask(es: seq<Event>, msg: Bytes) returns (es': seq<Event>)
    requires AllPossible(es) && |msg| == REQ && !IsLog(msg) && Run(es).child.Idle?
    ensures AllPossible(es')
    ensures var s := Run(es); Run(es') == s.(child := Awaiting(msg, [], []), c2p := s.c2p + msg, pend := s.pend + [msg])
  {
    RunAdd(es, Begin(msg));
    RunAdd(es + [Begin(msg)], ChildSends(REQ));
    es' := es + [Begin(msg)] + [ChildSends(REQ)];
    assert msg[0..REQ] == msg;
  }

  /** From the start, a scan of any list of more than 4096 records and a call after it: the call reads
      a reply of the scan and the child has lost the way. */
  lemma OverrunDesyncs(scan: Bytes, list: Msgs, call: Bytes) returns (es: seq<Event>)
    requires IsScan(scan) && AllRecords(list) && |list| > LIMIT && |call| == REQ && !IsScan(call) && !IsLog(call)
    ensures AllPossible(es)
    ensures Run(es).child == Desync(call) && Run(es).done == [ScanOverrun(scan)]
    ensures Run(es).served == [Scanned(scan, list)]
  {
    hide Step, Received, Batches, ReadBy;
    es := ServedScan(scan, list);
    var ms := Batches(list, Zeros());
    ScanExactly(scan, list, Zeros());
    es := PumpAll(es, scan, [], ms);
    es := Ask(es, call);
    StaleReads(list, Zeros(), call);
    var s := Run(es);
    Pump(s, call, [], ms[OVERRUN + 1..]);
    RunAdd(es, ParentSends(REP));
    RunAdd(es + [ParentSends(REP)], ChildReads(REP));
    es := es + [ParentSends(REP)] + [ChildReads(REP)];
    LostReply(s.(parent := Onward(s.parent)), call, ms[OVERRUN + 1]);
  }

  lemma LostReply(s: Sys, call: Bytes, r: Bytes)
    requires |call| == REQ && |r| == REP && !IsScan(call) && Op(r) == IFSCAN
    ensures Received(s, call, [], r) == s.(child := Desync(call), cur := s.cur + [r])
  {
  }

  lemma ServedScan(scan: Bytes, list: Msgs) returns (es: seq<Event>)
    requires IsScan(scan) && AllRecords(list)
    ensures AllPossible(es) && Flowing(Run(es), scan, [], Batches(list, Zeros()))
    ensures Run(es).done == [] && Run(es).served == [Scanned(scan, list)]
  {
    var rep: Bytes := seq(REP, i => 0);
    assert Run([]) == Start();
    es := Ask([], scan);
    var s := Run(es);
    RunAdd(es, ParentReads(REQ, rep, list));
    es := es + [ParentReads(REQ, rep, list)];
    assert s.c2p[..REQ] == scan && [] + scan == scan;
    WithOpHas(rep, IFSCAN);
  }
}
