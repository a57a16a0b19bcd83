/** IPv4 addresses in host order, prefixes of them, and which are groups and which hosts. */
module Inet {

  type Addr = nat

  // ----- masks

  /** `a >> n` */
  function Shift(a: Addr, n: nat): Addr
    decreases n
  {
    if n == 0 then a else Shift(a / 2, n - 1)
  }

  /** `a << n` */
  function Back(a: Addr, n: nat): Addr {
    if n == 0 then a else 2 * Back(a, n - 1)
  }

  lemma {:induction false} ShiftTwice(a: Addr, m: nat, n: nat)
    ensures Shift(Shift(a, m), n) == Shift(a, m + n)
    decreases m
  {
    if m != 0 { ShiftTwice(a / 2, m - 1, n); }
  }

  lemma {:induction false} ShiftBack(a: Addr, n: nat)
    ensures Shift(Back(a, n), n) == a
  {
    if n != 0 {
      assert Back(a, n) / 2 == Back(a, n - 1);
      ShiftBack(a, n - 1);
    }
  }

  lemma {:induction false} BackShift(a: Addr, n: nat)
    ensures Back(Shift(a, n), n) <= a
    decreases n
  {
    if n != 0 { BackShift(a / 2, n - 1); }
  }

  /** The first `len` bits of a 32-bit address, which are what `& mask` keeps. */
  function Net(a: Addr, len: nat): Addr
    requires len <= 32
  {
    Shift(a, 32 - len)
  }

  /** Fewer bits are the leading ones of more. */
  lemma NetShorter(a: Addr, l: nat, k: nat)
    requires l <= k <= 32
    ensures Net(a, l) == Shift(Net(a, k), k - l)
  {
    ShiftTwice(a, 32 - k, k - l);
  }

  /** `a & mask`, for the mask of length `len`. */
  function MaskedTo(a: Addr, len: nat): Addr
    requires len <= 32
  {
    Back(Net(a, len), 32 - len)
  }

  /** A masked address keeps its leading bits, is no greater, and is masked for good. */
  lemma MaskKeeps(a: Addr, len: nat)
    requires len <= 32
    ensures Net(MaskedTo(a, len), len) == Net(a, len) && MaskedTo(a, len) <= a
    ensures MaskedTo(MaskedTo(a, len), len) == MaskedTo(a, len)
  {
    ShiftBack(Net(a, len), 32 - len);
    BackShift(a, 32 - len);
  }

  // ----- kinds of address

  /** IN_MULTICAST: 224.0.0.0/4 */
  predicate Multicast(a: Addr) {
    a / 0x1000_0000 == 14
  }

  /** inet_valid_host: not multicast, not class E, not 127/8 and not 0/8 */
  predicate ValidHost(a: Addr) {
    a / 0x1000_0000 < 14 && a / 0x100_0000 != 127 && a / 0x100_0000 != 0
  }
}
