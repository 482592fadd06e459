/**
 Physical memory as the page allocator of `libs/mm.c` sees it: one flag and 4096
 bytes for each page between the kernel image and the I/O registers, and the
 512 little-endian entries a page holds when it serves as a translation table.
 */
module PageFrames {

  const PAGE_SIZE := 0x1000
  const LOW_MEMORY := 0x40_0000
  const HIGH_MEMORY := 0x3f00_0000
  const N_PAGES := (HIGH_MEMORY - LOW_MEMORY) / PAGE_SIZE
  const ENTRIES := 512

  // Kernel addresses are physical addresses plus this offset.
  const VA_START := 0xffff_0000_0000_0000

  type Byte = b: int | 0 <= b < 0x100

  type Page = s: seq<Byte> | |s| == PAGE_SIZE witness seq(PAGE_SIZE, i => 0)

  function ZeroPage(): (z: Page)
    ensures forall i :: 0 <= i < PAGE_SIZE ==> z[i] == 0
  {
    seq(PAGE_SIZE, i => 0)
  }

  datatype Frames = Frames(used: seq<bool>, ram: seq<Page>)

  type Pool = f: Frames | |f.used| == N_PAGES && |f.ram| == N_PAGES
    witness Frames(seq(N_PAGES, i => false), seq(N_PAGES, i => ZeroPage()))

  // ------------------------------------------------------------ addresses

  /** Is `a` the physical address of a page that the allocator hands out? */
  predicate InPool(a: nat) {
    LOW_MEMORY <= a < HIGH_MEMORY && a % PAGE_SIZE == 0
  }

  function Address(i: nat): (a: nat)
    requires i < N_PAGES
    ensures InPool(a) && Number(a) == i
  {
    LOW_MEMORY + i * PAGE_SIZE
  }

  function Number(a: nat): (i: nat)
    requires InPool(a)
    ensures i < N_PAGES && LOW_MEMORY + i * PAGE_SIZE == a
  {
    (a - LOW_MEMORY) / PAGE_SIZE
  }

  predicate Used(p: Pool, a: nat)
    requires InPool(a)
  {
    p.used[Number(a)]
  }

  function At(p: Pool, a: nat): Page
    requires InPool(a)
  {
    p.ram[Number(a)]
  }

  function Written(p: Pool, a: nat, page: Page): (q: Pool)
    requires InPool(a)
    ensures At(q, a) == page
    ensures forall b :: InPool(b) ==> Used(q, b) == Used(p, b) && (b != a ==> At(q, b) == At(p, b))
  {
    p.(ram := p.ram[Number(a) := page])
  }

  function Marked(p: Pool, a: nat, flag: bool): (q: Pool)
    requires InPool(a)
    ensures Used(q, a) == flag
    ensures forall b :: InPool(b) ==> At(q, b) == At(p, b) && (b != a ==> Used(q, b) == Used(p, b))
  {
    p.(used := p.used[Number(a) := flag])
  }

  ghost function FreePages(p: Pool): set<nat> {
    set i: nat | i < N_PAGES && !p.used[i]
  }

  // -------------------------------------------------------------- entries

  function Top(n: nat): (r: nat)
    ensures r > 0
  {
    if n == 0 then 1 else 0x100 * Top(n - 1)
  }

  function Little(s: seq<Byte>): nat {
    if s == [] then 0 else s[0] + 0x100 * Little(s[1..])
  }

  function Bytes(v: nat, n: nat): (s: seq<Byte>)
    ensures |s| == n
  {
    if n == 0 then [] else [v % 0x100] + Bytes(v / 0x100, n - 1)
  }

  lemma {:induction false} LittleBytes(v: nat, n: nat)
    requires v < Top(n)
    ensures Little(Bytes(v, n)) == v
  {
    if n > 0 {
      LittleBytes(v / 0x100, n - 1);
      assert Bytes(v, n)[1..] == Bytes(v / 0x100, n - 1);
    }
  }

  lemma {:induction false} LittleZero(s: seq<Byte>)
    requires forall i :: 0 <= i < |s| ==> s[i] == 0
    ensures Little(s) == 0
  {
    if s != [] {
      LittleZero(s[1..]);
    }
  }

  /** The 64-bit entry `i` of a translation table. */
  function EntryAt(page: Page, i: nat): nat
    requires i < ENTRIES
  {
    Little(page[8 * i..8 * i + 8])
  }

  lemma ZeroEntry(i: nat)
    requires i < ENTRIES
    ensures EntryAt(ZeroPage(), i) == 0
  {
    LittleZero(ZeroPage()[8 * i..8 * i + 8]);
  }

  /** The table with entry `i` replaced; every other entry keeps its value. */
  function WithEntry(page: Page, i: nat, v: nat): (r: Page)
    requires i < ENTRIES && v < 0x1_0000_0000
    ensures EntryAt(r, i) == v
    ensures forall j :: 0 <= j < ENTRIES && j != i ==> EntryAt(r, j) == EntryAt(page, j)
  {
    var r := page[..8 * i] + Bytes(v, 8) + page[8 * i + 8..];
    assert r[8 * i..8 * i + 8] == Bytes(v, 8);
    assert v < Top(8) by {
      assert Top(4) == 0x1_0000_0000;
    }
    LittleBytes(v, 8);
    assert forall j :: 0 <= j < ENTRIES && j != i ==> r[8 * j..8 * j + 8] == page[8 * j..8 * j + 8];
    r
  }

  // ------------------------------------------------------------ ownership

  /**
   Memory goes from `p` to `q` while an owner of the pages `before` comes to own
   the pages `after`: gained pages were free, lost pages are free, and pages that
   are in use outside both sets keep their flag and their bytes.
   */
  ghost predicate Moves(p: Pool, q: Pool, before: set<nat>, after: set<nat>) {
    forall a :: InPool(a) ==> PageMoves(p, q, before, after, a)
  }

  ghost predicate PageMoves(p: Pool, q: Pool, before: set<nat>, after: set<nat>, a: nat)
    requires InPool(a)
  {
    && (a !in before && a !in after ==> Used(q, a) == Used(p, a) && (Used(p, a) ==> At(q, a) == At(p, a)))
    && (a in after && a !in before ==> !Used(p, a) && Used(q, a))
    && (a in before && a !in after ==> !Used(q, a) && Used(p, a))
    && (a in before && a in after ==> Used(q, a) == Used(p, a))
  }

  lemma MovesNothing(p: Pool, owned: set<nat>)
    ensures Moves(p, p, owned, owned)
  {
  }

  lemma MovesCompose(p: Pool, q: Pool, r: Pool, a: set<nat>, b: set<nat>, c: set<nat>)
    requires Moves(p, q, a, b) && Moves(q, r, b, c)
    ensures Moves(p, r, a, c)
  {
    hide Used, At, InPool;
    forall x | InPool(x)
      ensures PageMoves(p, r, a, c, x)
    {
      assert PageMoves(p, q, a, b, x) && PageMoves(q, r, b, c, x);
    }
  }

  /** What an owner does is also what a larger owner does. */
  lemma MovesFrame(p: Pool, q: Pool, before: set<nat>, after: set<nat>, extra: set<nat>)
    requires Moves(p, q, before, after)
    requires extra !! before && extra !! after
    ensures Moves(p, q, before + extra, after + extra)
  {
    hide Used, At, InPool;
    forall x | InPool(x)
      ensures PageMoves(p, q, before + extra, after + extra, x)
    {
      assert PageMoves(p, q, before, after, x);
    }
  }

  /** Allocating a page: its flag is set and its bytes are cleared. */
  function Taken(p: Pool, a: nat): (q: Pool)
    requires InPool(a)
  {
    Written(Marked(p, a, true), a, ZeroPage())
  }

  /** Freeing a page clears its bytes as well. */
  function Released(p: Pool, a: nat): (q: Pool)
    requires InPool(a)
  {
    Marked(Written(p, a, ZeroPage()), a, false)
  }

  /** The page is all zeros and is marked as told; every other page is as it was. */
  ghost predicate Cleared(p: Pool, q: Pool, a: nat, used: bool) {
    && InPool(a) && Used(q, a) == used && (forall k :: 0 <= k < 4096 ==> At(q, a)[k] == 0)
    && forall b :: InPool(b) && b != a ==> At(q, b) == At(p, b) && Used(q, b) == Used(p, b)
  }

  lemma TakenMoves(p: Pool, a: nat)
    requires InPool(a) && !Used(p, a)
    ensures Moves(p, Taken(p, a), {}, {a})
    ensures |FreePages(Taken(p, a))| == |FreePages(p)| - 1
  {
    assert FreePages(Taken(p, a)) == FreePages(p) - {Number(a)};
  }

  lemma ReleasedMoves(p: Pool, a: nat)
    requires InPool(a) && Used(p, a)
    ensures Moves(p, Released(p, a), {a}, {})
    ensures |FreePages(Released(p, a))| == |FreePages(p)| + 1
  {
    assert FreePages(Released(p, a)) == FreePages(p) + {Number(a)};
  }

  lemma WrittenMoves(p: Pool, a: nat, page: Page)
    requires InPool(a)
    ensures Moves(p, Written(p, a, page), {a}, {a})
    ensures FreePages(Written(p, a, page)) == FreePages(p)
  {
  }
}
