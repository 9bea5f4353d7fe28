/** The cyclic allocator of routing tables, rule priorities and tunnel networks. */
module Slots {
  import opened Wrappers
  import opened Prefixes

  const SLOTS: nat := 128
  const MINIMUM_BASE: nat := 1000
  const MAXIMUM_BASE: nat := 65000 - SLOTS

  /** Truncation to eight and to thirty-two bits. */
  function Byte(n: nat): nat {
    n % 0x100
  }

  function Word(n: nat): nat {
    n % 0x1_0000_0000
  }

  datatype Bases = Bases(table: nat, priority: nat) {
    predicate Valid() {
      MINIMUM_BASE <= table <= MAXIMUM_BASE && MINIMUM_BASE <= priority <= MAXIMUM_BASE
    }
  }

  /** What is taken on the host. */
  datatype Used = Used(tables: set<nat>, priorities: set<nat>, prefixes: seq<Prefix>)

  // ---------------------------------------------------------------- the networks of a slot

  /** Four bytes in network order, then a /30. */
  function SlotNet4(slot: nat): Prefix {
    Prefix(Addr(V4, ((198 * 0x100 + 18) * 0x100 + Byte(slot / 64)) * 0x100 + Byte(slot % 64 * 4 + 1)), 30)
  }

  /** Four fixed bytes, two bytes of slot, nine zero bytes and a final one, then a /126. */
  function SlotNet6(slot: nat): Prefix {
    Prefix(Addr(V6, Shl((0xfd45474d * 0x100 + Byte(slot / 0x100)) * 0x100 + Byte(slot), 80) + 1), 126)
  }

  /** No byte of a tunnel address and no table or priority number wraps around. */
  lemma SlotArithmeticNeverWraps(bases: Bases, start: nat, offset: nat, slot: nat)
    requires bases.Valid() && start < 0x1_0000 && offset < SLOTS && slot < SLOTS
    ensures Word(start + offset) == start + offset
    ensures Word(bases.table + slot) == bases.table + slot && Word(bases.priority + slot) == bases.priority + slot
    ensures Byte(slot / 64) == slot / 64 && Byte(slot % 64 * 4 + 1) == slot % 64 * 4 + 1
    ensures Byte(slot / 0x100) == 0 && Byte(slot) == slot
  {
  }

  lemma SlotNet4Value(slot: nat)
    requires slot < SLOTS
    ensures SlotNet4(slot).addr.value == 198 * 0x100_0000 + 18 * 0x1_0000 + 4 * slot + 1
  {
    assert slot == slot / 64 * 64 + slot % 64;
  }

  function Head6(slot: nat): nat {
    0xfd45474d * 0x1_0000 + slot
  }

  lemma SlotNet6Value(slot: nat)
    requires slot < SLOTS
    ensures SlotNet6(slot).addr.value == Shl(Head6(slot), 80) + 1
  {
  }

  lemma DropTwoOfShl(value: nat, bits: nat)
    requires bits >= 2
    ensures Drop(Shl(value, bits) + 1, 2) == Shl(value, bits - 2)
  {
    ShlOut(value, bits - 1);
    ShlOut(value, bits - 2);
    DropTwoBits(Shl(value, bits) + 1);
  }

  lemma DropTwoBits(value: nat)
    ensures Drop(value, 2) == value / 4
  {
    assert Drop(value / 2, 1) == Drop(value / 4, 0);
  }

  /** The tunnel networks of two different slots share no address. */
  lemma SlotNetsDisjoint(s: nat, t: nat)
    requires s < SLOTS && t < SLOTS && s != t
    ensures !Overlap(SlotNet4(s), SlotNet4(t)) && !Overlap(SlotNet6(s), SlotNet6(t))
  {
    SlotNet4Value(s);
    SlotNet4Value(t);
    DropTwoBits(SlotNet4(s).addr.value);
    DropTwoBits(SlotNet4(t).addr.value);
    assert !Overlap(SlotNet4(s), SlotNet4(t));
    SlotNets6Disjoint(s, t, 80);
  }

  lemma SlotNets6Disjoint(s: nat, t: nat, zeros: nat)
    requires s < SLOTS && t < SLOTS && s != t && zeros == 80
    ensures !Overlap(SlotNet6(s), SlotNet6(t))
  {
    SlotNet6Value(s);
    SlotNet6Value(t);
    DropTwoOfShl(Head6(s), zeros);
    DropTwoOfShl(Head6(t), zeros);
    if Shl(Head6(s), zeros - 2) == Shl(Head6(t), zeros - 2) {
      ShlInjective(Head6(s), Head6(t), zeros - 2);
    }
  }

  const TUNNEL_SPACE_4 := Prefix(Addr(V4, 198 * 0x100_0000 + 18 * 0x1_0000), 15)
  const TUNNEL_SPACE_6 := Prefix(Addr(V6, Shl(0xfd45474d, 96)), 32)

  /** A tunnel address of an owned route: a /30 or /126 in the space set aside, not unspecified and not multicast. */
  predicate ValidTunnelAddress(p: Prefix, family: Family) {
    && p.Valid() && p.addr.family == family && !Unspecified(p.addr) && !Multicast(p.addr)
    && (if family == V4 then p.bits == 30 && TUNNEL_SPACE_4.Contains(p.addr) else p.bits == 126 && TUNNEL_SPACE_6.Contains(p.addr))
  }

  lemma DropFour(value: nat)
    ensures Drop(value, 4) == value / 16
  {
    DropTwice(value, 2, 2);
    DropTwoBits(value);
    DropTwoBits(value / 4);
  }

  lemma DropEight(value: nat)
    ensures Drop(value, 8) == value / 0x100
  {
    DropTwice(value, 4, 4);
    DropFour(value);
    DropFour(value / 16);
  }

  lemma DropSixteen(value: nat)
    ensures Drop(value, 16) == value / 0x1_0000
  {
    DropTwice(value, 8, 8);
    DropEight(value);
    DropEight(value / 0x100);
  }

  lemma DropSeventeen(value: nat)
    ensures Drop(value, 17) == value / 0x2_0000
  {
    DropTwice(value, 16, 1);
    DropSixteen(value);
  }

  lemma DropTwentyEight(value: nat)
    ensures Drop(value, 28) == value / 0x1000_0000
  {
    DropTwice(value, 16, 12);
    DropTwice(value / 0x1_0000, 8, 4);
    DropSixteen(value);
    DropEight(value / 0x1_0000);
    DropFour(value / 0x100_0000);
  }

  lemma SlotNet4IsTunnel(slot: nat)
    requires slot < SLOTS
    ensures ValidTunnelAddress(SlotNet4(slot), V4)
  {
    SlotNet4Value(slot);
    SlotNet4InSpace(4 * slot + 1);
    SlotNet4Unicast(4 * slot + 1);
  }

  lemma SlotNet4InSpace(low: nat)
    requires low < 0x2_0000
    ensures Drop(198 * 0x100_0000 + 18 * 0x1_0000 + low, 17) == Drop(198 * 0x100_0000 + 18 * 0x1_0000, 17)
  {
    DropSeventeen(198 * 0x100_0000 + 18 * 0x1_0000 + low);
    DropSeventeen(198 * 0x100_0000 + 18 * 0x1_0000);
  }

  lemma SlotNet4Unicast(low: nat)
    requires low < 0x2_0000
    ensures Drop(198 * 0x100_0000 + 18 * 0x1_0000 + low, 28) == 12
  {
    DropTwentyEight(198 * 0x100_0000 + 18 * 0x1_0000 + low);
  }

  lemma SlotNet6IsTunnel(slot: nat)
    requires slot < SLOTS
    ensures ValidTunnelAddress(SlotNet6(slot), V6)
  {
    Space6(0xfd45474d, 96);
    Head6Dropped(slot, 80);
  }

  lemma Space6(head: nat, zeros: nat)
    ensures Drop(Shl(head, zeros), zeros) == head
  {
    DropOfShl(head, zeros);
  }

  lemma Head6Dropped(slot: nat, zeros: nat)
    requires slot < SLOTS && zeros == 80
    ensures Drop(SlotNet6(slot).addr.value, 96) == 0xfd45474d && Drop(SlotNet6(slot).addr.value, 120) == 0xfd
  {
    var v := SlotNet6(slot).addr.value;
    SlotNet6Value(slot);
    DropOfShl(Head6(slot), zeros);
    DropTwice(v, zeros, 16);
    DropSixteen(Head6(slot));
    DropTwice(v, zeros + 16, 24);
    HeadByte();
  }

  lemma HeadByte()
    ensures Drop(0xfd45474d, 24) == 0xfd
  {
    DropTwice(0xfd45474d, 16, 8);
    DropSixteen(0xfd45474d);
    DropEight(0xfd45);
  }

  // ---------------------------------------------------------------- allocation

  predicate Free(bases: Bases, used: Used, slot: nat) {
    && Word(bases.table + slot) !in used.tables
    && Word(bases.priority + slot) !in used.priorities
    && !OverlapsAny(SlotNet4(slot), used.prefixes)
    && !OverlapsAny(SlotNet6(slot), used.prefixes)
  }

  function SlotAt(start: nat, offset: nat): nat {
    Word(start + offset) % SLOTS
  }

  /** The first free slot from an offset on. */
  function Pick(bases: Bases, used: Used, start: nat, offset: nat): Option<nat>
    decreases SLOTS - offset
  {
    if offset >= SLOTS then None
    else if Free(bases, used, SlotAt(start, offset)) then Some(SlotAt(start, offset))
    else Pick(bases, used, start, offset + 1)
  }

  /** The allocator's choice, wherever the search starts. */
  lemma {:induction false} PickFinds(bases: Bases, used: Used, start: nat, offset: nat)
    ensures var r := Pick(bases, used, start, offset);
      && (r.Some? ==> r.value < SLOTS && Free(bases, used, r.value))
      && (r.None? ==> forall k | offset <= k < SLOTS :: !Free(bases, used, SlotAt(start, k)))
    decreases SLOTS - offset
  {
    if offset < SLOTS && !Free(bases, used, SlotAt(start, offset)) {
      PickFinds(bases, used, start, offset + 1);
    }
  }

  /** The search wraps around over every slot, so it fails exactly when all of them are blocked. */
  lemma AllocationFailsIffAllBlocked(bases: Bases, used: Used, start: nat)
    requires start < 0x1_0000
    ensures Pick(bases, used, start, 0).None? <==> forall slot: nat | slot < SLOTS :: !Free(bases, used, slot)
  {
    PickFinds(bases, used, start, 0);
    if Pick(bases, used, start, 0).None? {
      forall slot | 0 <= slot < SLOTS ensures !Free(bases, used, slot) {
        assert SlotAt(start, OffsetOf(start, slot)) == slot;
      }
    }
  }

  /** The offset at which the search meets a slot. */
  function OffsetOf(start: nat, slot: nat): (k: nat)
    requires start < 0x1_0000 && slot < SLOTS
    ensures k < SLOTS && SlotAt(start, k) == slot
  {
    var m := start % SLOTS;
    var k := if slot >= m then slot - m else slot + SLOTS - m;
    SlotOfSum(start / SLOTS + (if slot >= m then 0 else 1), slot);
    assert Word(start + k) == start + k;
    k
  }

  lemma SlotOfSum(rounds: nat, slot: nat)
    requires slot < SLOTS
    ensures (SLOTS * rounds + slot) % SLOTS == slot
  {
  }

  function Take(bases: Bases, used: Used, slot: nat): Used {
    used.(tables := used.tables + {Word(bases.table + slot)}, priorities := used.priorities + {Word(bases.priority + slot)})
  }

  /** The collections that the planner marks as it allocates. */
  class PolicySlots {
    const bases: Bases
    const prefixes: seq<Prefix>
    var tables: set<nat>
    var priorities: set<nat>

    function Contents(): Used
      reads this
    {
      Used(tables, priorities, prefixes)
    }

    constructor (bases: Bases, used: Used)
      ensures Contents() == used && this.bases == bases
    {
      this.bases := bases;
      prefixes := used.prefixes;
      tables := used.tables;
      priorities := used.priorities;
    }

    method Blocked(candidate: Prefix) returns (b: bool)
      ensures b == OverlapsAny(candidate, prefixes)
    {
      for i := 0 to |prefixes|
        invariant forall j | 0 <= j < i :: !Overlap(candidate, prefixes[j])
      {
        if Overlap(candidate, prefixes[i]) {
          return true;
        }
      }
      return false;
    }

    method IsFree(slot: nat) returns (free: bool)
      ensures free == Free(bases, Contents(), slot)
    {
      if Word(bases.table + slot) in tables || Word(bases.priority + slot) in priorities {
        return false;
      }
      var blocked4 := Blocked(SlotNet4(slot));
      var blocked6 := Blocked(SlotNet6(slot));
      return !blocked4 && !blocked6;
    }

    /** Take the first free slot, or change nothing. */
    method Allocate(start: nat) returns (r: Option<nat>)
      modifies this
      ensures r == Pick(bases, old(Contents()), start, 0)
      ensures Contents() == if r.Some? then Take(bases, old(Contents()), r.value) else old(Contents())
    {
      for offset := 0 to SLOTS
        invariant Contents() == old(Contents())
        invariant Pick(bases, Contents(), start, 0) == Pick(bases, Contents(), start, offset)
      {
        var slot := SlotAt(start, offset);
        var free := IsFree(slot);
        if free {
          tables := tables + {Word(bases.table + slot)};
          priorities := priorities + {Word(bases.priority + slot)};
          return Some(slot);
        }
      }
      return None;
    }
  }
}
