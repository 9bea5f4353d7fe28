/** CIDR prefixes over the two address families, as the standard address library compares them. */
module Prefixes {

  datatype Family = V4 | V6

  /** The number of bits of an address. */
  function Width(family: Family): nat {
    if family == V4 then 32 else 128
  }

  /** An address, as the number its bytes spell in network order. */
  datatype Addr = Addr(family: Family, value: nat)

  /** `value` without its last `bits` binary digits. */
  function Drop(value: nat, bits: nat): nat
    decreases bits
  {
    if bits == 0 then value else Drop(value / 2, bits - 1)
  }

  /** A base address, not necessarily with clear host bits, and a prefix length. */
  datatype Prefix = Prefix(addr: Addr, bits: nat) {

    predicate Valid() {
      bits <= Width(addr.family)
    }

    /** An invalid prefix contains nothing. */
    predicate Contains(a: Addr) {
      && Valid()
      && a.family == addr.family
      && Drop(a.value, Width(addr.family) - bits) == Drop(addr.value, Width(addr.family) - bits)
    }
  }

  predicate AnyContains(prefixes: seq<Prefix>, a: Addr) {
    exists p | p in prefixes :: p.Contains(a)
  }

  /** The test the planners use: one base address lies in the other prefix. */
  predicate Overlap(left: Prefix, right: Prefix) {
    left.Valid() && right.Valid() && left.addr.family == right.addr.family && (left.Contains(right.addr) || right.Contains(left.addr))
  }

  predicate OverlapsAny(candidate: Prefix, prefixes: seq<Prefix>) {
    exists p | p in prefixes :: Overlap(candidate, p)
  }

  lemma {:induction false} DropTwice(value: nat, a: nat, b: nat)
    ensures Drop(Drop(value, a), b) == Drop(value, a + b)
    decreases a
  {
    if a > 0 {
      DropTwice(value / 2, a - 1, b);
    }
  }

  /** A shorter prefix cannot tell apart what a longer one already identifies. */
  lemma DropCoarser(x: nat, y: nat, fine: nat, coarse: nat)
    requires fine <= coarse
    requires Drop(x, fine) == Drop(y, fine)
    ensures Drop(x, coarse) == Drop(y, coarse)
  {
    DropTwice(x, fine, coarse - fine);
    DropTwice(y, fine, coarse - fine);
  }

  /** Prefixes that share an address are nested: the one with more bits lies inside the other. */
  lemma SharingMeansNested(inner: Prefix, outer: Prefix, shared: Addr)
    requires outer.bits <= inner.bits
    requires inner.Contains(shared) && outer.Contains(shared)
    ensures forall a: Addr | inner.Contains(a) :: outer.Contains(a)
  {
    var w := Width(inner.addr.family);
    forall a: Addr | inner.Contains(a)
      ensures outer.Contains(a)
    {
      DropCoarser(a.value, shared.value, w - inner.bits, w - outer.bits);
    }
  }

  /** The overlap test holds exactly when some address lies in both prefixes. */
  lemma OverlapIffShared(left: Prefix, right: Prefix)
    ensures Overlap(left, right) <==> exists a: Addr :: left.Contains(a) && right.Contains(a)
  {
    if Overlap(left, right) {
      var a := if left.Contains(right.addr) then right.addr else left.addr;
      assert left.Contains(a) && right.Contains(a);
    }
    if a: Addr :| left.Contains(a) && right.Contains(a) {
      if left.bits <= right.bits {
        SharingMeansNested(right, left, a);
        assert right.Contains(right.addr);
      } else {
        SharingMeansNested(left, right, a);
        assert left.Contains(left.addr);
      }
    }
  }

  /** Overlap is inherited by anything that contains one of the two prefixes. */
  lemma OverlapWidens(inner: Prefix, outer: Prefix, other: Prefix)
    requires Overlap(inner, outer) && outer.bits <= inner.bits && Overlap(inner, other)
    ensures Overlap(outer, other)
  {
    OverlapIffShared(inner, outer);
    OverlapIffShared(inner, other);
    OverlapIffShared(outer, other);
    var a: Addr :| inner.Contains(a) && outer.Contains(a);
    SharingMeansNested(inner, outer, a);
  }

  /** `value` followed by `bits` zero digits. */
  function Shl(value: nat, bits: nat): nat
    decreases bits
  {
    if bits == 0 then value else Shl(2 * value, bits - 1)
  }

  lemma {:induction false} ShlOut(value: nat, bits: nat)
    ensures Shl(2 * value, bits) == 2 * Shl(value, bits)
    decreases bits
  {
    if bits > 0 {
      ShlOut(2 * value, bits - 1);
    }
  }

  lemma {:induction false} ShlInjective(x: nat, y: nat, bits: nat)
    requires Shl(x, bits) == Shl(y, bits)
    ensures x == y
    decreases bits
  {
    if bits > 0 {
      ShlInjective(2 * x, 2 * y, bits - 1);
    }
  }

  /** Dropping what was shifted in, or shifted in and set to one, gives the number back. */
  lemma {:induction false} DropOfShl(value: nat, bits: nat)
    ensures Drop(Shl(value, bits), bits) == value
    ensures bits > 0 ==> Drop(Shl(value, bits) + 1, bits) == value
    decreases bits
  {
    if bits > 0 {
      ShlOut(value, bits - 1);
      DropOfShl(value, bits - 1);
    }
  }

  /** The prefix with its host bits cleared. */
  function Masked(p: Prefix): Prefix {
    if !p.Valid() then p
    else
      var host := Width(p.addr.family) - p.bits;
      p.(addr := p.addr.(value := Shl(Drop(p.addr.value, host), host)))
  }

  /** Without host bits. */
  predicate Canonical(p: Prefix) {
    p.Valid() && Masked(p) == p
  }

  /** A prefix and its masked form overlap. */
  lemma MaskedContains(p: Prefix)
    requires p.Valid()
    ensures Masked(p).Contains(p.addr) && Overlap(p, Masked(p))
  {
    var host := Width(p.addr.family) - p.bits;
    DropOfShl(Drop(p.addr.value, host), host);
  }

  predicate Unspecified(a: Addr) {
    a.value == 0
  }

  predicate Multicast(a: Addr) {
    if a.family == V4 then Drop(a.value, 28) == 14 else Drop(a.value, 120) == 255
  }

  predicate Loopback(a: Addr) {
    if a.family == V4 then Drop(a.value, 24) == 127 else a.value == 1
  }
}
