/** The callout queue: each timer holds the time left after the one before it fires. */
module Timer {

  const INT_MAX := 0x7fff_ffff

  datatype Tmr = Tmr(id: nat, action: nat, time: int)

  // ----- the reference: absolute deadlines, first in first out among equals

  datatype Due = Due(id: nat, action: nat, at: int)

  function Insert(s: seq<Due>, d: Due): seq<Due> {
    if s == [] then [d] else if d.at < s[0].at then [d] + s else [s[0]] + Insert(s[1..], d)
  }

  function Without(s: seq<Due>, id: nat): seq<Due> {
    if s == [] then [] else if s[0].id == id then s[1..] else [s[0]] + Without(s[1..], id)
  }

  /** Those due within `e`, in order. */
  function Ripe(s: seq<Due>, e: int): seq<Due> {
    if s == [] then [] else (if s[0].at <= e then [s[0]] else []) + Ripe(s[1..], e)
  }

  /** The others, `e` later. */
  function Later(s: seq<Due>, e: int): seq<Due> {
    if s == [] then [] else (if s[0].at <= e then [] else [s[0].(at := s[0].at - e)]) + Later(s[1..], e)
  }

  ghost predicate Sorted(s: seq<Due>) {
    forall i, j :: 0 <= i < j < |s| ==> s[i].at <= s[j].at
  }

  // ----- the queue of deltas

  function Sum(q: seq<Tmr>): int {
    if q == [] then 0 else q[0].time + Sum(q[1..])
  }

  /** Deltas are never negative and add up to no more than an int holds. */
  ghost predicate Deltas(q: seq<Tmr>) {
    (forall i :: 0 <= i < |q| ==> q[i].time >= 0) && Sum(q) <= INT_MAX
  }

  /** The deadlines a queue stands for, `base` from now. */
  function Deadlines(q: seq<Tmr>, base: int): seq<Due> {
    if q == [] then [] else [Due(q[0].id, q[0].action, base + q[0].time)] + Deadlines(q[1..], base + q[0].time)
  }

  lemma {:induction false} DeadlinesSorted(q: seq<Tmr>, base: int)
    requires forall i :: 0 <= i < |q| ==> q[i].time >= 0
    ensures Sorted(Deadlines(q, base)) && |Deadlines(q, base)| == |q|
    ensures forall i :: 0 <= i < |q| ==> base <= Deadlines(q, base)[i].at <= base + Sum(q)
    decreases |q|
  {
    if q != [] {
      SumNonNegative(q[1..]);
      DeadlinesSorted(q[1..], base + q[0].time);
      var rest := Deadlines(q[1..], base + q[0].time);
      assert forall i :: 1 <= i < |q| ==> Deadlines(q, base)[i] == rest[i - 1];
    }
  }

  lemma {:induction false} SumNonNegative(q: seq<Tmr>)
    requires forall i :: 0 <= i < |q| ==> q[i].time >= 0
    ensures 0 <= Sum(q)
  {
    if q != [] { SumNonNegative(q[1..]); }
  }

  // ----- setting a timer

  function Put(q: seq<Tmr>, t: Tmr, delay: int): seq<Tmr> {
    if q == [] then [t.(time := delay)]
    else if delay < q[0].time then [t.(time := delay), q[0].(time := q[0].time - delay)] + q[1..]
    else [q[0]] + Put(q[1..], t, delay - q[0].time)
  }

  /** A timer goes behind every one due no later, and changes no other deadline. */
  lemma {:induction false} PutInserts(q: seq<Tmr>, t: Tmr, delay: int, base: int)
    ensures Deadlines(Put(q, t, delay), base) == Insert(Deadlines(q, base), Due(t.id, t.action, base + delay))
    decreases |q|
  {
    if q != [] {
      if delay < q[0].time {
        var p := Put(q, t, delay);
        assert p[1..] == [q[0].(time := q[0].time - delay)] + q[1..] && p[1..][1..] == q[1..];
      } else {
        PutInserts(q[1..], t, delay - q[0].time, base + q[0].time);
      }
    }
  }

  lemma {:induction false} PutKeeps(q: seq<Tmr>, t: Tmr, delay: int)
    requires (forall i :: 0 <= i < |q| ==> q[i].time >= 0) && 0 <= delay
    ensures forall i :: 0 <= i < |Put(q, t, delay)| ==> Put(q, t, delay)[i].time >= 0
    ensures Sum(Put(q, t, delay)) == if Sum(q) >= delay then Sum(q) else delay
    decreases |q|
  {
    if q != [] {
      SumNonNegative(q[1..]);
      if delay < q[0].time {
        var p := Put(q, t, delay);
        assert p[1..] == [q[0].(time := q[0].time - delay)] + q[1..] && p[1..][1..] == q[1..];
      } else {
        PutKeeps(q[1..], t, delay - q[0].time);
      }
    }
  }

  // ----- clearing one

  function Drop(q: seq<Tmr>, id: nat): seq<Tmr> {
    if q == [] then []
    else if q[0].id != id then [q[0]] + Drop(q[1..], id)
    else if |q| == 1 then []
    else [q[1].(time := q[1].time + q[0].time)] + q[2..]
  }

  /** Clearing a timer changes no other deadline. */
  lemma {:induction false} DropRemoves(q: seq<Tmr>, id: nat, base: int)
    ensures Deadlines(Drop(q, id), base) == Without(Deadlines(q, base), id)
    decreases |q|
  {
    if q != [] {
      if q[0].id != id {
        DropRemoves(q[1..], id, base + q[0].time);
      } else if |q| > 1 {
        assert Drop(q, id)[1..] == q[2..] && q[1..][1..] == q[2..];
      }
    }
  }

  lemma {:induction false} DropKeeps(q: seq<Tmr>, id: nat)
    requires forall i :: 0 <= i < |q| ==> q[i].time >= 0
    ensures forall i :: 0 <= i < |Drop(q, id)| ==> Drop(q, id)[i].time >= 0
    ensures Sum(Drop(q, id)) <= Sum(q)
    decreases |q|
  {
    if q != [] {
      SumNonNegative(q[1..]);
      if q[0].id != id {
        DropKeeps(q[1..], id);
      } else if |q| > 1 {
        assert Drop(q, id)[1..] == q[2..] && q[1..][1..] == q[2..];
      }
    }
  }

  // ----- ageing

  /** What fires, and what is left of the queue. */
  function Age(q: seq<Tmr>, e: int): (seq<(nat, nat)>, seq<Tmr>) {
    if q == [] then ([], [])
    else if q[0].time > e then ([], [q[0].(time := q[0].time - e)] + q[1..])
    else
      var (fired, rest) := Age(q[1..], e - q[0].time);
      ([(q[0].id, q[0].action)] + fired, rest)
  }

  function Actions(s: seq<Due>): seq<(nat, nat)> {
    if s == [] then [] else [(s[0].id, s[0].action)] + Actions(s[1..])
  }

  lemma {:induction false} NoneRipe(s: seq<Due>, e: int)
    requires forall i :: 0 <= i < |s| ==> s[i].at > e
    ensures Ripe(s, e) == [] && |Later(s, e)| == |s|
    ensures forall i :: 0 <= i < |s| ==> Later(s, e)[i] == s[i].(at := s[i].at - e)
  {
    if s != [] { NoneRipe(s[1..], e); }
  }

  lemma {:induction false} DeadlinesShift(q: seq<Tmr>, base: int, e: int)
    ensures |Deadlines(q, base)| == |q| == |Deadlines(q, base - e)|
    ensures forall i :: 0 <= i < |q| ==>
              Deadlines(q, base - e)[i] == Deadlines(q, base)[i].(at := Deadlines(q, base)[i].at - e)
    decreases |q|
  {
    if q != [] { DeadlinesShift(q[1..], base + q[0].time, e); }
  }

  lemma AllLater(q: seq<Tmr>, e: int, base: int)
    requires (forall i :: 0 <= i < |q| ==> q[i].time >= 0) && q != [] && q[0].time > e
    ensures forall i :: 0 <= i < |Deadlines(q, base)| ==> Deadlines(q, base)[i].at > base + e
  {
    DeadlinesSorted(q, base);
    var s := Deadlines(q, base);
    assert s[0].at == base + q[0].time;
    forall i | 0 < i < |s| ensures s[i].at > base + e { assert s[0].at <= s[i].at; }
  }

  lemma FirstAged(q: seq<Tmr>, e: int, base: int)
    requires q != []
    ensures var s, s' := Deadlines(q, base), Deadlines([q[0].(time := q[0].time - e)] + q[1..], 0);
            |s'| == |s| && forall i :: 0 <= i < |s| ==> s'[i] == s[i].(at := s[i].at - (base + e))
  {
    assert ([q[0].(time := q[0].time - e)] + q[1..])[1..] == q[1..];
    DeadlinesShift(q[1..], base + q[0].time, base + e);
  }

  lemma NoneDue(q: seq<Tmr>, e: int, base: int)
    requires (forall i :: 0 <= i < |q| ==> q[i].time >= 0) && q != [] && q[0].time > e
    ensures Ripe(Deadlines(q, base), base + e) == []
    ensures Deadlines([q[0].(time := q[0].time - e)] + q[1..], 0) == Later(Deadlines(q, base), base + e)
  {
    hide Deadlines, Ripe, Later;
    AllLater(q, e, base);
    NoneRipe(Deadlines(q, base), base + e);
    FirstAged(q, e, base);
  }

  /** Ageing fires exactly the timers due within `e`, in order, and leaves the others that much nearer. */
  lemma {:induction false} AgeFires(q: seq<Tmr>, e: int, base: int)
    requires (forall i :: 0 <= i < |q| ==> q[i].time >= 0) && e >= 0
    ensures Age(q, e).0 == Actions(Ripe(Deadlines(q, base), base + e))
    ensures Deadlines(Age(q, e).1, 0) == Later(Deadlines(q, base), base + e)
    decreases |q|
  {
    if q != [] {
      if q[0].time > e {
        NoneDue(q, e, base);
      } else {
        AgeFires(q[1..], e - q[0].time, base + q[0].time);
        var s, rest := Deadlines(q, base), Deadlines(q[1..], base + q[0].time);
        assert s[1..] == rest;
        assert Ripe(s, base + e)[1..] == Ripe(rest, base + e);
      }
    }
  }

  /** Ageing by `a` and then by `b` is ageing by `a + b`. */
  lemma {:induction false} AgeTwice(q: seq<Tmr>, a: int, b: int)
    requires (forall i :: 0 <= i < |q| ==> q[i].time >= 0) && a >= 0 && b >= 0
    ensures Age(q, a + b).0 == Age(q, a).0 + Age(Age(q, a).1, b).0 && Age(q, a + b).1 == Age(Age(q, a).1, b).1
    decreases |q|
  {
    if q != [] {
      if q[0].time <= a {
        AgeTwice(q[1..], a - q[0].time, b);
      } else {
        var q' := Age(q, a).1;
        assert q'[1..] == q[1..];
      }
    }
  }

  lemma {:induction false} AgeKeeps(q: seq<Tmr>, e: int)
    requires (forall i :: 0 <= i < |q| ==> q[i].time >= 0) && e >= 0
    ensures forall i :: 0 <= i < |Age(q, e).1| ==> Age(q, e).1[i].time >= 0
    ensures Sum(Age(q, e).1) <= Sum(q)
    decreases |q|
  {
    if q != [] {
      if q[0].time <= e {
        AgeKeeps(q[1..], e - q[0].time);
      } else {
        assert Age(q, e).1[1..] == q[1..];
      }
    }
  }

  /** The walk of timer_set_ms: past every timer due no later, taking its delta off what is left. */
  method Place(q: seq<Tmr>, t: Tmr, delay: int) returns (q': seq<Tmr>)
    ensures q' == Put(q, t, delay)
  {
    hide Put;
    var i, left := 0, delay;
    PutEnds(q, t, delay);
    while i < |q|
      invariant 0 <= i <= |q| && q[..i] + Put(q[i..], t, left) == Put(q, t, delay)
    {
      PutStep(q, i, t, left);
      if left < q[i].time { return q[..i] + [t.(time := left), q[i].(time := q[i].time - left)] + q[i + 1..]; }
      left := left - q[i].time;
      i := i + 1;
    }
    PutEnds(q, t, left);
    return q + [t.(time := left)];
  }

  lemma PutEnds(q: seq<Tmr>, t: Tmr, left: int)
    ensures q[..0] + Put(q[0..], t, left) == Put(q, t, left)
    ensures q[..|q|] + Put(q[|q|..], t, left) == q + [t.(time := left)]
  {
    assert q[0..] == q && q[..|q|] == q;
  }

  /** The walk of timer_clear: the timer goes, and what it had left goes to the one behind it. */
  method Unlink(q: seq<Tmr>, id: nat) returns (q': seq<Tmr>)
    ensures q' == Drop(q, id)
  {
    hide Drop;
    var i := 0;
    DropEnds(q, id);
    while i < |q|
      invariant 0 <= i <= |q| && q[..i] + Drop(q[i..], id) == Drop(q, id)
    {
      DropStep(q, i, id);
      if q[i].id == id {
        if i + 1 < |q| { return q[..i] + [q[i + 1].(time := q[i + 1].time + q[i].time)] + q[i + 2..]; }
        return q[..i];
      }
      i := i + 1;
    }
    return q;
  }

  lemma DropEnds(q: seq<Tmr>, id: nat)
    ensures q[..0] + Drop(q[0..], id) == Drop(q, id)
    ensures q[..|q|] + Drop(q[|q|..], id) == q
  {
    assert q[0..] == q && q[..|q|] == q;
  }

  // ----- the queue itself

  class Callouts {
    var q: seq<Tmr>
    var id: nat

    ghost predicate Valid()
      reads this
    {
      Deltas(q) && id <= INT_MAX
    }

    /** What the queue stands for: deadlines from now on, in order. */
    function Pending(): seq<Due>
      reads this
    {
      Deadlines(q, 0)
    }

    /** timer_init */
    constructor ()
      ensures Valid() && Pending() == []
    {
      q, id := [], 0;
    }

    /** next_id, of a counter that wraps past INT_MAX to 1 */
    method NextId() returns (n: nat)
      requires Valid()
      modifies this`id
      ensures Valid() && n == id && 0 < n <= INT_MAX
      ensures n == if old(id) == INT_MAX then 1 else old(id) + 1
    {
      id := if id == INT_MAX then 1 else id + 1;
      n := id;
    }

    /** timer_set_ms */
    method SetMs(delay: int, action: nat) returns (n: nat)
      requires Valid() && 0 <= delay <= INT_MAX
      modifies this
      ensures Valid() && 0 < n <= INT_MAX
      ensures Pending() == Insert(old(Pending()), Due(n, action, delay))
    {
      n := NextId();
      var t := Tmr(n, action, delay);
      PutInserts(q, t, delay, 0);
      PutKeeps(q, t, delay);
      var q' := Place(q, t, delay);
      q := q';
    }

    /** timer_clear */
    method Clear(timerId: nat)
      requires Valid()
      modifies this`q
      ensures Valid() && Pending() == if timerId == 0 then old(Pending()) else Without(old(Pending()), timerId)
    {
      if timerId == 0 { return; }
      DropRemoves(q, timerId, 0);
      DropKeeps(q, timerId);
      var q' := Unlink(q, timerId);
      q := q';
    }

    /** timer_age_queue, with callbacks that leave the queue alone; `fired` are those called. */
    method AgeQueue(elapsed: int) returns (fired: seq<(nat, nat)>)
      requires Valid() && 0 <= elapsed
      modifies this`q
      ensures Valid()
      ensures fired == Actions(Ripe(old(Pending()), elapsed)) && Pending() == Later(old(Pending()), elapsed)
      ensures (fired, q) == Age(old(q), elapsed)
    {
      AgeFires(q, elapsed, 0);
      AgeKeeps(q, elapsed);
      ghost var q0 := q;
      fired := [];
      var e := elapsed;
      while q != []
        invariant 0 <= e && Deltas(q)
        invariant fired + Age(q, e).0 == Age(q0, elapsed).0 && Age(q, e).1 == Age(q0, elapsed).1
        decreases |q|
      {
        var t := q[0];
        if t.time > e {
          q := [t.(time := t.time - e)] + q[1..];
          return;
        }
        SumNonNegative(q[1..]);
        q := q[1..];
        e := e - t.time;
        fired := fired + [(t.id, t.action)];
      }
    }

    /** timer_next_delay */
    method NextDelay() returns (d: int)
      requires Valid()
      ensures q == [] ==> d == -1
      ensures q != [] ==>
                Pending() != [] && d == Pending()[0].at && forall i :: 0 <= i < |Pending()| ==> d <= Pending()[i].at
    {
      if q == [] { return -1; }
      DeadlinesSorted(q, 0);
      return q[0].time;
    }
  }

  lemma PutStep(q: seq<Tmr>, i: nat, t: Tmr, left: int)
    requires i < |q|
    ensures left < q[i].time ==>
              q[..i] + Put(q[i..], t, left) == q[..i] + [t.(time := left), q[i].(time := q[i].time - left)] + q[i + 1..]
    ensures left >= q[i].time ==> q[..i] + Put(q[i..], t, left) == q[..i + 1] + Put(q[i + 1..], t, left - q[i].time)
  {
    assert q[i..][1..] == q[i + 1..];
  }

  lemma DropStep(q: seq<Tmr>, i: nat, id: nat)
    requires i < |q|
    ensures q[i].id != id ==> q[..i] + Drop(q[i..], id) == q[..i + 1] + Drop(q[i + 1..], id)
    ensures q[i].id == id && i + 1 < |q| ==>
              q[..i] + Drop(q[i..], id) == q[..i] + [q[i + 1].(time := q[i + 1].time + q[i].time)] + q[i + 2..]
    ensures q[i].id == id && i + 1 == |q| ==> q[..i] + Drop(q[i..], id) == q[..i]
  {
    assert q[i..][1..] == q[i + 1..] && (i + 1 < |q| ==> q[i..][2..] == q[i + 2..]);
  }

  // ----- what a queue of deadlines promises

  lemma {:induction false} InsertAt(s: seq<Due>, d: Due) returns (k: nat)
    requires Sorted(s)
    ensures k <= |s| && Insert(s, d) == s[..k] + [d] + s[k..]
    ensures (forall i :: 0 <= i < k ==> s[i].at <= d.at) && forall i :: k <= i < |s| ==> d.at < s[i].at
  {
    if s == [] || d.at < s[0].at {
      k := 0;
    } else {
      var rest := s[1..];
      var j := InsertAt(rest, d);
      k := j + 1;
      assert s[..k] == [s[0]] + rest[..j] && s[k..] == rest[j..];
      assert forall i :: 1 <= i < |s| ==> s[i] == rest[i - 1];
    }
  }

  /** Inserting keeps the order, and puts the new one last among those due at its time. */
  lemma InsertSorted(s: seq<Due>, d: Due) returns (k: nat)
    requires Sorted(s)
    ensures Sorted(Insert(s, d)) && k <= |s| && Insert(s, d) == s[..k] + [d] + s[k..]
    ensures (forall i :: 0 <= i < k ==> s[i].at <= d.at) && forall i :: k <= i < |s| ==> d.at < s[i].at
  {
    k := InsertAt(s, d);
  }
}
