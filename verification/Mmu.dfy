/**
 How the processor translates the address of a program: four levels of tables of 512
 eight-byte descriptors, as chapter D8 of the Arm Architecture Reference Manual describes
 them for 4 KB pages and 48-bit addresses. Every number is written out; the kernel's own
 constants have no part in it.
 */
module Mmu {
  import opened PageFrames

  datatype Option<T> = None | Some(value: T)

  /** The descriptor in eight bytes, the lowest first. */
  function Descriptor(page: Page, i: nat): nat
    requires i < 512
  {
    var b0: int, b1: int, b2: int, b3: int := page[8 * i], page[8 * i + 1], page[8 * i + 2], page[8 * i + 3];
    var b4: int, b5: int, b6: int, b7: int := page[8 * i + 4], page[8 * i + 5], page[8 * i + 6], page[8 * i + 7];
    b0 + 256 * (b1 + 256 * (b2 + 256 * (b3 + 256 * (b4 + 256 * (b5 + 256 * (b6 + 256 * b7))))))
  }

  /** Bits 47 to 39 of the address lead through the first table, bits 20 to 12 through the last. */
  function Index(va: nat, level: nat): (i: nat)
    requires level < 4
    ensures i < 512
  {
    if level == 0 then va / 549755813888 % 512
    else if level == 1 then va / 1073741824 % 512
    else if level == 2 then va / 2097152 % 512
    else va / 4096 % 512
  }

  /** The type of a descriptor is in its lowest two bits; 3 is a table, or a page at the last level. */
  predicate Typed(e: nat) {
    e % 4 == 3
  }

  /** A program may read the page: the access flag, bit 10, and the permission for EL0, bit 6, are set. */
  predicate Readable(e: nat) {
    Typed(e) && e / 1024 % 2 == 1 && e / 64 % 2 == 1
  }

  /** It may also write to it: bit 7 is not set. */
  predicate Writable(e: nat) {
    Readable(e) && e / 128 % 2 == 0
  }

  /** Bits 2 to 4 choose memory attributes: number 1 is set up as normal memory, number 0 as device memory. */
  function Attribute(e: nat): nat {
    e / 4 % 8
  }

  /** Bits 47 to 12: the page that the descriptor leads to. */
  function Output(e: nat): nat {
    e % 281474976710656 - e % 4096
  }

  /** The page that holds physical address `a`, where that is in the pool or is page 0. */
  predicate Present(a: nat) {
    a == 0 || InPool(a)
  }

  /** A page of physical memory; page 0 holds `low`. */
  function Memory(p: Pool, low: Page, a: nat): Page
    requires Present(a)
  {
    if a == 0 then low else At(p, a)
  }

  /** One level down: the next table. */
  function Down(p: Pool, low: Page, table: Option<nat>, i: nat): Option<nat>
    requires i < 512
  {
    if table.None? || !Present(table.value) then None
    else
      var e := Descriptor(Memory(p, low, table.value), i);
      if Typed(e) then Some(Output(e)) else None
  }

  /** The descriptor at the last level, where the walk gets that far. */
  function Leaf(p: Pool, low: Page, pgd: nat, va: nat): Option<nat> {
    var table := Down(p, low, Down(p, low, Down(p, low, Some(pgd), Index(va, 0)), Index(va, 1)), Index(va, 2));
    if table.None? || !Present(table.value) then None
    else Some(Descriptor(Memory(p, low, table.value), Index(va, 3)))
  }

  /** The page that a program reads at an address; `None` where it faults. */
  function Translate(p: Pool, low: Page, pgd: nat, va: nat): Option<nat> {
    var e := Leaf(p, low, pgd, va);
    if e.Some? && Readable(e.value) then Some(Output(e.value)) else None
  }
}
