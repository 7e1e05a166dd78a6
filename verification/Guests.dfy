/** Tenants as deterministic machines, and their memory under copy-on-write mapping and kernel reclaim. */
module Guests {
  import opened Bytes
  import opened Pages
  import opened Revocation

  /** The two snapshotted globals. */
  newtype I64 = x: int | -0x8000_0000_0000_0000 <= x < 0x8000_0000_0000_0000

  datatype Globals = Globals(seed: I64, steps: I64)

  /** A Wasm guest between two steps: its linear memory, by pages, and its mutable globals. */
  datatype Machine = Machine(memory: seq<seq<Byte>>, globals: Globals)

  /** A guest step keeps the size of the memory. */
  ghost predicate IsGuest(guest: Machine -> Machine) {
    forall x: Machine :: KeepsSize(guest, x)
  }

  ghost predicate KeepsSize(guest: Machine -> Machine, x: Machine) {
    Blocks(x.memory) ==> Blocks(guest(x).memory) && |guest(x).memory| == |x.memory|
  }

  function After(guest: Machine -> Machine, x: Machine, n: nat): Machine {
    if n == 0 then x else guest(After(guest, x, n - 1))
  }

  lemma {:induction false} AfterBlocks(guest: Machine -> Machine, x: Machine, n: nat)
    requires IsGuest(guest) && Blocks(x.memory)
    ensures Blocks(After(guest, x, n).memory) && |After(guest, x, n).memory| == |x.memory|
  {
    if n > 0 {
      AfterBlocks(guest, x, n - 1);
      assert KeepsSize(guest, After(guest, x, n - 1));
    }
  }

  // ---------------------------------------------------------------- a mapped tenant

  /** How a step touched a page. */
  datatype Access = Untouched | Loaded | Stored

  /** The page table entry after an access that leaves `after` in the page. */
  function Touch(e: Entry, before: seq<Byte>, after: seq<Byte>, access: Access): Entry {
    if access.Stored? || after != before then Private(after)
    else if access.Untouched? then e
    else
      match e
      case Absent => Clean
      case Swapped(block) => Private(block)
      case _ => e
  }

  /** The mapping after a step that leaves `memory` in the region. */
  function Step(m: Mapping, memory: seq<seq<Byte>>, access: nat -> Access): (m': Mapping)
    requires |m.image| == |m.table| == |memory|
    ensures m'.image == m.image && |m'.table| == |m.table|
  {
    m.(table := seq(|m.table|, i requires 0 <= i < |m.table| => Touch(m.table[i], Read(m, i), memory[i], access(i))))
  }

  /** The kernel swaps out, or drops, some pages. */
  function Reclaim(m: Mapping, evict: nat -> bool): (m': Mapping)
    ensures m'.image == m.image && |m'.table| == |m.table|
  {
    m.(table := seq(|m.table|, i requires 0 <= i < |m.table| =>
                      if !evict(i) then m.table[i]
                      else
                        match m.table[i]
                        case Private(block) => Swapped(block)
                        case Clean => Absent
                        case e => e))
  }

  lemma {:induction false} StepReads(m: Mapping, memory: seq<seq<Byte>>, access: nat -> Access)
    requires Valid(m) && Blocks(memory) && |memory| == |m.table|
    ensures Valid(Step(m, memory, access)) && Visible(Step(m, memory, access)) == memory
  {
    var m' := Step(m, memory, access);
    forall i | 0 <= i < |m.table|
      ensures Read(m', i) == memory[i]
      ensures Modified(m'.table[i]) ==> IsBlock(m'.table[i].block)
    {
      assert m'.table[i] == Touch(m.table[i], Read(m, i), memory[i], access(i));
    }
  }

  lemma {:induction false} ReclaimReads(m: Mapping, evict: nat -> bool)
    requires Valid(m)
    ensures Valid(Reclaim(m, evict)) && Visible(Reclaim(m, evict)) == Visible(m)
    ensures Dropped(m) ==> Dropped(Reclaim(m, evict))
  {
    var m' := Reclaim(m, evict);
    assert forall i | 0 <= i < |m.table| :: Read(m', i) == Read(m, i);
  }
}
