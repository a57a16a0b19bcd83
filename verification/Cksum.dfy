/** The Internet checksum over any message, on a machine that reads two bytes as a 16-bit word. */
module Cksum {
  import opened Wire

  /** The word of two bytes; which of them is the high one does not matter to what follows. */
  function Word(a: Byte, b: Byte): (w: nat)
    ensures w <= 0xffff
  {
    (a as nat) * 256 + b as nat
  }

  /** The sum of the words, an odd byte at the end making one with zero. */
  function Sum(b: Bytes): nat {
    if |b| == 0 then 0
    else if |b| == 1 then Word(b[0], 0)
    else Word(b[0], b[1]) + Sum(b[2..])
  }

  /** `(sum >> 16) + (sum & 0xffff)` */
  function Fold(s: nat): nat {
    s / 0x1_0000 + s % 0x1_0000
  }

  lemma {:induction false} SumBound(b: Bytes)
    ensures Sum(b) <= 0xffff * ((|b| + 1) / 2)
  {
    if |b| > 1 { SumBound(b[2..]); }
  }

  /** Folding keeps the sum modulo 2^16 - 1, and zero only for zero. */
  lemma FoldKeeps(s: nat)
    ensures Fold(s) % 0xffff == s % 0xffff && (Fold(s) == 0 <==> s == 0)
  {
    assert s == 0xffff * (s / 0x1_0000) + Fold(s);
    ModAdd(s / 0x1_0000, Fold(s));
  }

  lemma ModAdd(q: nat, r: nat)
    ensures (0xffff * q + r) % 0xffff == r % 0xffff
  {
  }

  /** One's complement sum: what two folds make of a sum that 32 bits hold. */
  function Folded(s: nat): (r: nat)
    requires s < 0x1_0000_0000
    ensures r <= 0xffff
  {
    FoldTwice(s);
    Fold(Fold(s))
  }

  /** Two folds suffice. */
  lemma FoldTwice(s: nat)
    requires s < 0x1_0000_0000
    ensures Fold(s) <= 0x1_fffe && Fold(Fold(s)) <= 0xffff
  {
  }

  /** The loop of inet_cksum over the words, in a 32-bit accumulator. */
  method Accumulate(b: Bytes) returns (sum: nat)
    requires Sum(b) < 0x1_0000_0000
    ensures sum == Sum(b)
  {
    var i := 0;
    sum := 0;
    while |b| - i > 1
      invariant 0 <= i <= |b| && sum + Sum(b[i..]) == Sum(b)
    {
      assert b[i..][2..] == b[i + 2..];
      assert Sum(b[i..]) == Word(b[i], b[i + 1]) + Sum(b[i + 2..]);
      sum := Wrap(sum + Word(b[i], b[i + 1]));
      i := i + 2;
    }
    if |b| - i == 1 { sum := Wrap(sum + Word(b[i], 0)); }
  }

  /** What an addition leaves in 32 bits. */
  function Wrap(x: nat): (r: nat)
    ensures x < 0x1_0000_0000 ==> r == x
  {
    x % 0x1_0000_0000
  }

  lemma SumFits(b: Bytes)
    requires |b| <= 131072
    ensures Sum(b) < 0x1_0000_0000
  {
    SumBound(b);
  }

  /** inet_cksum: a 32-bit accumulator, which no message of at most 131072 bytes makes wrap. */
  method InetCksum(b: Bytes) returns (answer: nat)
    requires |b| <= 131072
    ensures Sum(b) < 0x1_0000_0000 && answer == 0xffff - Folded(Sum(b))
  {
    SumFits(b);
    var sum := Accumulate(b);
    FoldTwice(sum);
    AddCarry(Fold(sum));
    sum := Wrap(sum / 0x1_0000 + sum % 0x1_0000);
    sum := Wrap(sum + sum / 0x1_0000);
    answer := 0xffff - sum % 0x1_0000;
  }

  /** Adding the carry and truncating is folding, where the carry is one bit. */
  lemma AddCarry(s: nat)
    requires s <= 0x1_fffe
    ensures (s + s / 0x1_0000) % 0x1_0000 == Fold(s)
  {
  }

  // ----- a message that carries its checksum

  /** The message with a word stored at an even offset. */
  function WithWord(b: Bytes, k: nat, x: nat): Bytes
    requires k + 1 < |b| && x <= 0xffff
  {
    b[k := x / 256][k + 1 := x % 256]
  }

  lemma {:induction false} SumWithWord(b: Bytes, k: nat, x: nat)
    requires k % 2 == 0 && k + 1 < |b| && x <= 0xffff && b[k] == 0 && b[k + 1] == 0
    ensures Sum(WithWord(b, k, x)) == Sum(b) + x
    decreases |b|
  {
    var c := WithWord(b, k, x);
    if k == 0 {
      assert c[2..] == b[2..];
    } else {
      assert c[2..] == WithWord(b[2..], k - 2, x);
      SumWithWord(b[2..], k - 2, x);
    }
  }

  /** A folded sum is all ones exactly when it is a multiple of 2^16 - 1 and not zero. */
  lemma FoldedOnes(s: nat)
    requires s < 0x1_0000_0000
    ensures Folded(s) == 0xffff <==> s != 0 && s % 0xffff == 0
  {
    FoldKeeps(s);
    FoldKeeps(Fold(s));
    FoldTwice(s);
  }

  lemma ComplementCancels(s: nat)
    requires s < 0xffff_0000
    ensures var x := 0xffff - Folded(s); x <= 0xffff && s + x != 0 && (s + x) % 0xffff == 0
  {
    FoldKeeps(s);
    FoldKeeps(Fold(s));
    var r := Folded(s);
    assert r % 0xffff == s % 0xffff;
    var q := s / 0xffff;
    if r == 0xffff {
      assert s % 0xffff == 0;
    } else {
      assert r == s % 0xffff;
      assert s + (0xffff - r) == 0xffff * (q + 1);
      ModAdd(q + 1, 0);
    }
  }

  /** Writing the checksum of a message into its zeroed checksum field makes the checksum zero. */
  lemma CksumOfCksum(b: Bytes, k: nat)
    requires |b| <= 131072 && k % 2 == 0 && k + 1 < |b| && b[k] == 0 && b[k + 1] == 0
    ensures Sum(b) < 0x1_0000_0000
    ensures var x := 0xffff - Folded(Sum(b));
            var c := WithWord(b, k, x);
            Sum(c) < 0x1_0000_0000 && 0xffff - Folded(Sum(c)) == 0
  {
    hide Fold, Folded, WithWord, Sum;
    SumFits(b);
    SumRoom(b, k);
    ComplementCancels(Sum(b));
    var x := 0xffff - Folded(Sum(b));
    SumWithWord(b, k, x);
    FoldedOnes(Sum(b) + x);
  }

  /** With a zeroed word the sum is short of the bound by one. */
  lemma SumRoom(b: Bytes, k: nat)
    requires |b| <= 131072 && k % 2 == 0 && k + 1 < |b| && b[k] == 0 && b[k + 1] == 0
    ensures Sum(b) < 0xffff_0000
  {
    SumWithWord(b, k, 0xffff);
    SumBound(WithWord(b, k, 0xffff));
  }
}
