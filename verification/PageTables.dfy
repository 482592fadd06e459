/**
 The four-level translation tables of a process as a map from virtual pages to
 frames. A table or a frame is named by the path of 9-bit indices that leads to
 it from the root, so the tables of a process form a tree by construction and
 `Refines` says that the bytes in memory are exactly that tree.
 */
module PageTables {
  import opened PageFrames
  import opened Mmu

  const TABLE_FLAGS := 0x3      // MM_TYPE_PAGE_TABLE
  const FRAME_FLAGS := 0x447    // MMU_PTE_FLAGS
  const VA_SIZE := 0x1_0000_0000_0000

  type Path = seq<nat>

  /** `tables` holds the tables at the paths of length 0 to 3, `frames` the frames at paths of length 4. */
  datatype Space = Space(tables: map<Path, nat>, frames: map<Path, nat>)

  function Child(path: Path, i: nat): (q: Path)
    ensures |q| == |path| + 1 && Parent(q) == path && Last(q) == i
  {
    path + [i]
  }

  function Parent(q: Path): Path
    requires q != []
  {
    q[..|q| - 1]
  }

  function Last(q: Path): nat
    requires q != []
  {
    q[|q| - 1]
  }

  // ------------------------------------------------------ virtual addresses

  function PgdIndex(va: nat): (i: nat) ensures i < ENTRIES { va / 0x80_0000_0000 % 0x200 }
  function PudIndex(va: nat): (i: nat) ensures i < ENTRIES { va / 0x4000_0000 % 0x200 }
  function PmdIndex(va: nat): (i: nat) ensures i < ENTRIES { va / 0x20_0000 % 0x200 }
  function PteIndex(va: nat): (i: nat) ensures i < ENTRIES { va / 0x1000 % 0x200 }

  /** The path the hardware follows for a 48-bit virtual address. */
  function PathOf(va: nat): (path: Path)
    ensures |path| == 4 && forall k :: 0 <= k < 4 ==> path[k] < ENTRIES
  {
    [PgdIndex(va), PudIndex(va), PmdIndex(va), PteIndex(va)]
  }

  /** Two addresses follow the same path exactly when they lie in the same page. */
  lemma SamePage(a: nat, b: nat)
    requires a < VA_SIZE && b < VA_SIZE
    ensures PathOf(a) == PathOf(b) <==> a / PAGE_SIZE == b / PAGE_SIZE
  {
    PathDigits(a);
    PathDigits(b);
    if PathOf(a) == PathOf(b) {
      assert PathOf(a)[0] == PathOf(b)[0] && PathOf(a)[1] == PathOf(b)[1] && PathOf(a)[2] == PathOf(b)[2]
             && PathOf(a)[3] == PathOf(b)[3];
    }
  }

  lemma PathDigits(a: nat)
    requires a < VA_SIZE
    ensures var n := a / PAGE_SIZE;
            && PgdIndex(a) == n / 0x800_0000 && PudIndex(a) == n / 0x4_0000 % 0x200
            && PmdIndex(a) == n / 0x200 % 0x200 && PteIndex(a) == n % 0x200
    ensures a / PAGE_SIZE == ((PgdIndex(a) * 0x200 + PudIndex(a)) * 0x200 + PmdIndex(a)) * 0x200 + PteIndex(a)
  {
    var n := a / PAGE_SIZE;
    assert a / 0x20_0000 == n / 0x200;
    assert a / 0x4000_0000 == n / 0x4_0000;
    assert a / 0x80_0000_0000 == n / 0x800_0000;
    assert n / 0x4_0000 == n / 0x200 / 0x200;
    assert n / 0x800_0000 == n / 0x4_0000 / 0x200;
  }

  /**
   Addresses of pages end in twelve zero bits and the flags fit in them, so joining
   them with a bitwise or adds them, and masking gives the address back.
   */
  lemma FlagsFitBelow(address: bv64, flags: bv64)
    requires address & 0xfff == 0 && flags & 0xffff_ffff_ffff_f000 == 0
    ensures address | flags == address + flags
    ensures (address | flags) & 0xffff_ffff_ffff_f000 == address
  {
  }

  // ----------------------------------------------------------------- tables

  /** What the entry at path `q` should hold. */
  function Link(s: Space, q: Path): nat {
    if q in s.tables then s.tables[q] + TABLE_FLAGS
    else if q in s.frames then s.frames[q] + FRAME_FLAGS
    else 0
  }

  ghost predicate TableHolds(p: Pool, s: Space, path: Path)
    requires path in s.tables
  {
    && InPool(s.tables[path]) && Used(p, s.tables[path])
    && forall i :: 0 <= i < ENTRIES ==> EntryAt(At(p, s.tables[path]), i) == Link(s, Child(path, i))
  }

  ghost predicate IsTree(s: Space) {
    && (forall q :: q in s.tables ==> |q| <= 3 && (q != [] ==> Parent(q) in s.tables))
    && (forall q :: q in s.frames ==> |q| == 4 && Parent(q) in s.tables && InPool(s.frames[q]))
    && (forall a, b :: a in s.tables && b in s.tables && s.tables[a] == s.tables[b] ==> a == b)
  }

  /** The memory holds exactly the tables and the frames of `s`, rooted at `pgd`, or nothing yet when `pgd` is 0. */
  ghost predicate Refines(p: Pool, pgd: nat, s: Space) {
    && IsTree(s)
    && (pgd == 0 <==> s.tables == map[])
    && (pgd != 0 ==> [] in s.tables && s.tables[[]] == pgd)
    && forall path :: path in s.tables ==> TableHolds(p, s, path)
  }

  // ------------------------------------------------------------------- walk

  /** An entry without its flag bits (PAGE_MASK). */
  function Masked(e: nat): (a: nat)
    ensures a <= e && (e > 0 && a == 0 ==> e < PAGE_SIZE)
  {
    e - e % PAGE_SIZE
  }

  lemma MaskedLink(a: nat, flags: nat)
    requires InPool(a) && flags < PAGE_SIZE
    ensures Masked(a + flags) == a && a > 0
  {
  }

  lemma DescriptorIs(page: Page, i: nat)
    requires i < ENTRIES
    ensures Descriptor(page, i) == EntryAt(page, i)
  {
    EightBytes(page[8 * i..8 * i + 8]);
  }

  lemma EightBytes(s: seq<Byte>)
    requires |s| == 8
    ensures var b0: int, b1: int, b2: int, b3: int := s[0], s[1], s[2], s[3];
            var b4: int, b5: int, b6: int, b7: int := s[4], s[5], s[6], s[7];
            Little(s) == b0 + 256 * (b1 + 256 * (b2 + 256 * (b3 + 256 * (b4 + 256 * (b5 + 256 * (b6 + 256 * b7))))))
  {
    LittleStep(s);
    LittleStep(s[1..]);
    LittleStep(s[2..]);
    LittleStep(s[3..]);
    LittleStep(s[4..]);
    LittleStep(s[5..]);
    LittleStep(s[6..]);
    LittleStep(s[7..]);
    assert s[8..] == [];
  }

  lemma LittleStep(s: seq<Byte>)
    requires s != []
    ensures Little(s) == s[0] + 0x100 * Little(s[1..])
  {
  }

  lemma IndexIs(va: nat)
    ensures Index(va, 0) == PgdIndex(va) && Index(va, 1) == PudIndex(va)
    ensures Index(va, 2) == PmdIndex(va) && Index(va, 3) == PteIndex(va)
  {
  }

  /** What an entry of a table tells the processor. */
  lemma TableTells(a: nat)
    requires InPool(a)
    ensures Typed(a + TABLE_FLAGS) && Output(a + TABLE_FLAGS) == a
  {
    hide InPool, Output;
    PoolAligned(a);
    TableBits(a / 4096);
    OutputIs(a, TABLE_FLAGS);
  }

  /** What an entry of a frame tells it: a page of normal memory that a program may read and write. */
  lemma FrameTells(a: nat)
    requires InPool(a)
    ensures var e := a + FRAME_FLAGS; Writable(e) && Attribute(e) == 1 && Output(e) == a
  {
    hide InPool, Output;
    PoolAligned(a);
    FrameBits(a / 4096);
    OutputIs(a, FRAME_FLAGS);
  }

  lemma PoolAligned(a: nat)
    requires InPool(a)
    ensures a == 4096 * (a / 4096)
  {
  }

  lemma TableBits(k: nat)
    ensures Typed(4096 * k + TABLE_FLAGS)
  {
    var m := 1024 * k;
    assert 4096 * k + TABLE_FLAGS == 4 * m + 3;
  }

  lemma FrameBits(k: nat)
    ensures var e := 4096 * k + FRAME_FLAGS;
            e % 4 == 3 && e / 4 % 8 == 1 && e / 64 % 2 == 1 && e / 128 % 2 == 0 && e / 1024 % 2 == 1
  {
    var e := 4096 * k + FRAME_FLAGS;
    assert e / 4 == 8 * (128 * k + 34) + 1;
    assert e / 64 == 2 * (32 * k + 8) + 1;
    assert e / 128 == 2 * (16 * k + 4);
    assert e / 1024 == 2 * (2 * k) + 1;
  }

  lemma OutputIs(a: nat, flags: nat)
    requires InPool(a) && flags < 4096
    ensures Output(a + flags) == a
  {
  }

  /**
   The frame that the translation tables in memory give for a virtual address. Without a
   root there is nothing to walk; page 0, which no table of a tree leads to, is taken to
   be clear.
   */
  function Walk(p: Pool, pgd: nat, va: nat): Option<nat> {
    if pgd == 0 then None else Translate(p, ZeroPage(), pgd, va)
  }

  function Lookup(m: map<Path, nat>, q: Path): Option<nat> {
    if q in m then Some(m[q]) else None
  }

  /** An entry is zero where the tree ends, and leads to its child elsewhere. */
  lemma LinkLeads(p: Pool, pgd: nat, s: Space, q: Path)
    requires Refines(p, pgd, s) && 0 < |q| < 4
    ensures Lookup(s.tables, q) == if Typed(Link(s, q)) then Some(Output(Link(s, q))) else None
    ensures Link(s, q) == 0 <==> q !in s.tables
    ensures q in s.tables ==> Link(s, q) == s.tables[q] + TABLE_FLAGS
  {
    hide InPool, At, Used, EntryAt;
    if q in s.tables {
      assert TableHolds(p, s, q);
      TableTells(s.tables[q]);
    }
  }

  lemma LeafLeads(p: Pool, pgd: nat, s: Space, q: Path)
    requires Refines(p, pgd, s) && |q| == 4
    ensures Lookup(s.frames, q) == if Readable(Link(s, q)) then Some(Output(Link(s, q))) else None
    ensures q in s.frames ==> Writable(Link(s, q)) && Attribute(Link(s, q)) == 1
  {
    hide InPool, At, Used, EntryAt;
    if q in s.frames {
      FrameTells(s.frames[q]);
    }
  }

  lemma TableReads(p: Pool, pgd: nat, s: Space, path: Path, low: Page, i: nat)
    requires Refines(p, pgd, s) && path in s.tables && i < ENTRIES
    ensures Present(s.tables[path]) && Descriptor(Memory(p, low, s.tables[path]), i) == Link(s, Child(path, i))
  {
    hide Used, EntryAt, Descriptor, Link, Child, At;
    assert TableHolds(p, s, path);
    DescriptorIs(At(p, s.tables[path]), i);
  }

  lemma DownLooksUp(p: Pool, low: Page, pgd: nat, s: Space, path: Path, i: nat)
    requires Refines(p, pgd, s) && i < ENTRIES && |path| < 3
    ensures Down(p, low, Lookup(s.tables, path), i) == Lookup(s.tables, Child(path, i))
  {
    hide InPool, At, Used, EntryAt, Link, Parent, Last, Typed, Output, Memory, Present, Descriptor, TableHolds;
    var q := Child(path, i);
    assert Parent(q) == path;
    if path in s.tables {
      TableReads(p, pgd, s, path, low, i);
      LinkLeads(p, pgd, s, q);
    } else {
      assert q !in s.tables;
    }
  }

  lemma RootLooksUp(p: Pool, pgd: nat, s: Space)
    requires Refines(p, pgd, s)
    ensures (if pgd == 0 then None else Some(pgd)) == Lookup(s.tables, [])
  {
  }

  /** The walk of the processor, whatever page 0 holds. */
  lemma LeafFinds(p: Pool, low: Page, pgd: nat, s: Space, va: nat)
    requires Refines(p, pgd, s) && pgd != 0
    ensures var path := PathOf(va);
            && (path[..3] in s.tables ==> Leaf(p, low, pgd, va) == Some(Link(s, path)))
            && (path[..3] !in s.tables ==> Leaf(p, low, pgd, va) == None)
  {
    hide Refines, Down, Parent, Last, Index, PgdIndex, PudIndex, PmdIndex, PteIndex, Link, Memory, Descriptor, Present;
    var i0, i1, i2, i3 := PgdIndex(va), PudIndex(va), PmdIndex(va), PteIndex(va);
    IndexIs(va);
    RootLooksUp(p, pgd, s);
    DownLooksUp(p, low, pgd, s, [], i0);
    DownLooksUp(p, low, pgd, s, [i0], i1);
    DownLooksUp(p, low, pgd, s, [i0, i1], i2);
    assert [] + [i0] == [i0] && [i0] + [i1] == [i0, i1] && [i0, i1] + [i2] == [i0, i1, i2]
           && [i0, i1, i2] + [i3] == PathOf(va) && PathOf(va)[..3] == [i0, i1, i2];
    if [i0, i1, i2] in s.tables {
      TableReads(p, pgd, s, [i0, i1, i2], low, i3);
    }
  }

  lemma FrameHasTable(p: Pool, pgd: nat, s: Space, q: Path)
    requires Refines(p, pgd, s) && q in s.frames
    ensures |q| == 4 && q[..3] in s.tables && pgd != 0
  {
    assert Parent(q) == q[..3];
  }

  lemma TranslateFinds(p: Pool, low: Page, pgd: nat, s: Space, va: nat)
    requires Refines(p, pgd, s) && pgd != 0
    ensures Translate(p, low, pgd, va) == Lookup(s.frames, PathOf(va))
    ensures PathOf(va) in s.frames ==>
              var e := Leaf(p, low, pgd, va); e.Some? && Writable(e.value) && Attribute(e.value) == 1
  {
    hide Refines, Leaf, Readable, Writable, Attribute, Output, Link, PathOf;
    LeafFinds(p, low, pgd, s, va);
    LeafLeads(p, pgd, s, PathOf(va));
    if PathOf(va) in s.frames {
      FrameHasTable(p, pgd, s, PathOf(va));
    }
  }

  /** The walk through memory finds exactly the frames of the map; a program may read and write them. */
  lemma WalkFinds(p: Pool, pgd: nat, s: Space, va: nat)
    requires Refines(p, pgd, s)
    ensures Walk(p, pgd, va) == Lookup(s.frames, PathOf(va))
    ensures PathOf(va) in s.frames ==>
              && pgd != 0
              && var e := Leaf(p, ZeroPage(), pgd, va); e.Some? && Writable(e.value) && Attribute(e.value) == 1
  {
    hide Refines, Leaf, Translate, Readable, Writable, Attribute, PathOf;
    if pgd != 0 {
      TranslateFinds(p, ZeroPage(), pgd, s, va);
    }
    if PathOf(va) in s.frames {
      FrameHasTable(p, pgd, s, PathOf(va));
    }
  }

  // ----------------------------------------------------------------- growth

  /** A new root. */
  lemma RootGrows(p: Pool, s: Space, a: nat)
    requires Refines(p, 0, s) && InPool(a) && !Used(p, a)
    ensures Refines(Taken(p, a), a, s.(tables := s.tables[[] := a]))
  {
    var t := s.(tables := s.tables[[] := a]);
    forall i | 0 <= i < ENTRIES
      ensures EntryAt(At(Taken(p, a), a), i) == Link(t, Child([], i))
    {
      ZeroEntry(i);
    }
    assert TableHolds(Taken(p, a), t, []);
  }

  /** The memory after `map_table` has created the table `a` for the path `q`. */
  function Attached(p: Pool, parent: nat, i: nat, a: nat): Pool
    requires InPool(parent) && InPool(a) && i < ENTRIES
  {
    Written(Taken(p, a), parent, WithEntry(At(Taken(p, a), parent), i, a + TABLE_FLAGS))
  }

  /**
   What `map_table` does to memory and to page 0, `low`, for entry `i` of a table. It
   does not ask whether there was a free page: when there is none the new table is
   page 0, which is cleared and linked like any other.
   */
  ghost predicate Mapped(p: Pool, low: Page, table: nat, i: nat, q: Pool, low': Page, next: nat, created: bool)
    requires (table == 0 || InPool(table)) && i < ENTRIES
  {
    var e := EntryAt(if table == 0 then low else At(p, table), i);
    && (created <==> e == 0)
    && (!created ==> q == p && low' == low && next == Masked(e))
    && (created ==> (next == 0 <==> FreePages(p) == {}))
    && (created && next != 0 ==> InPool(next) && !Used(p, next) && next + TABLE_FLAGS < 0x1_0000_0000)
    && (created && next != 0 && table != 0 ==> q == Attached(p, table, i, next) && low' == low)
    && (created && next != 0 && table == 0 ==> q == Taken(p, next) && low' == WithEntry(low, i, next + TABLE_FLAGS))
    && (created && next == 0 && table != 0 ==>
          q == Written(p, table, WithEntry(At(p, table), i, TABLE_FLAGS)) && low' == ZeroPage())
    && (created && next == 0 && table == 0 ==> q == p && low' == WithEntry(ZeroPage(), i, TABLE_FLAGS))
  }

  /** Page 0 as a table leads nowhere but to itself. */
  ghost predicate OnlyItself(low: Page) {
    forall i :: 0 <= i < ENTRIES ==> EntryAt(low, i) == 0 || EntryAt(low, i) == TABLE_FLAGS
  }

  /** Without a free page a walk that has come to page 0 stays there. */
  lemma LostMapped(p: Pool, low: Page, i: nat, q: Pool, low': Page, next: nat, created: bool)
    requires i < ENTRIES && Mapped(p, low, 0, i, q, low', next, created) && FreePages(p) == {} && OnlyItself(low)
    ensures next == 0 && q == p && OnlyItself(low')
  {
    hide EntryAt, FreePages;
    if created {
      ZeroLeadsNowhere();
    }
  }

  lemma ZeroLeadsNowhere()
    ensures OnlyItself(ZeroPage())
  {
    forall i | 0 <= i < ENTRIES
      ensures EntryAt(ZeroPage(), i) == 0
    {
      ZeroEntry(i);
    }
  }

  /** A table of the tree: a new table joins the tree if there is a free page for it, and is page 0 if there is none. */
  lemma TreeMapped(p: Pool, pgd: nat, s: Space, path: Path, low: Page, i: nat, q: Pool, low': Page, next: nat,
      created: bool)
    requires Refines(p, pgd, s) && i < ENTRIES && |path| < 3 && path in s.tables && InPool(s.tables[path])
    requires Mapped(p, low, s.tables[path], i, q, low', next, created)
    ensures created <==> Child(path, i) !in s.tables
    ensures next == 0 <==> created && FreePages(p) == {}
    ensures next == 0 ==> FreePages(q) == {} && OnlyItself(low')
    ensures next != 0 ==>
              && Refines(q, pgd, s.(tables := s.tables[Child(path, i) := next]))
              && Moves(p, q, s.tables.Values, s.tables.Values + {next})
              && |FreePages(q)| == |FreePages(p)| - if created then 1 else 0
    ensures next != 0 && !created ==> s.tables[Child(path, i)] == next
    ensures created && next != 0 ==> next !in s.tables.Values
  {
    hide Refines, Moves, InPool, Used, At, FreePages, Child, Taken, EntryAt, Masked, Attached;
    var table := s.tables[path];
    TableThere(p, pgd, s, path, i);
    PoolBound(table);
    if !created {
      TableInPool(p, pgd, s, Child(path, i));
      PoolBound(next);
      assert s.tables[Child(path, i) := next] == s.tables && s.tables.Values + {next} == s.tables.Values;
      MovesNothing(p, s.tables.Values);
    } else if next != 0 {
      TableGrows(p, pgd, s, path, i, next);
      FreshTable(p, pgd, s, next);
      AttachedMoves(p, s.tables.Values, table, i, next);
    } else {
      ZeroLeadsNowhere();
      WrittenMoves(p, table, WithEntry(At(p, table), i, TABLE_FLAGS));
    }
  }

  /** A table that is already there is the one its entry points to. */
  lemma TableThere(p: Pool, pgd: nat, s: Space, path: Path, i: nat)
    requires Refines(p, pgd, s) && i < ENTRIES && |path| < 3
    requires path in s.tables
    ensures InPool(s.tables[path])
    ensures EntryAt(At(p, s.tables[path]), i) != 0 <==> Child(path, i) in s.tables
    ensures Child(path, i) in s.tables ==> s.tables[Child(path, i)] == Masked(EntryAt(At(p, s.tables[path]), i))
  {
    hide InPool, At, Used, EntryAt, Masked, Child, Parent, Last, Link, IsTree;
    assert TableHolds(p, s, path);
    LinkLeads(p, pgd, s, Child(path, i));
    if Child(path, i) in s.tables {
      assert TableHolds(p, s, Child(path, i));
      MaskedLink(s.tables[Child(path, i)], TABLE_FLAGS);
    }
  }

  lemma TableInPool(p: Pool, pgd: nat, s: Space, path: Path)
    requires Refines(p, pgd, s) && path in s.tables
    ensures InPool(s.tables[path]) && Used(p, s.tables[path])
  {
    assert TableHolds(p, s, path);
  }

  /** The tables in memory grow by exactly the new one. */
  lemma TableGrows(p: Pool, pgd: nat, s: Space, path: Path, i: nat, a: nat)
    requires Refines(p, pgd, s) && i < ENTRIES && |path| < 3
    requires path in s.tables && Child(path, i) !in s.tables
    requires InPool(a) && !Used(p, a)
    ensures InPool(s.tables[path])
    ensures Refines(Attached(p, s.tables[path], i, a), pgd, s.(tables := s.tables[Child(path, i) := a]))
  {
    hide InPool, At, Used, EntryAt, TableHolds, Attached, Link, Child, Parent, Last;
    TableInPool(p, pgd, s, path);
    var q := Child(path, i);
    var t := s.(tables := s.tables[q := a]);
    FreshTable(p, pgd, s, a);
    forall b | b in t.tables
      ensures TableHolds(Attached(p, s.tables[path], i, a), t, b)
    {
      GrownTableHolds(p, pgd, s, path, i, a, b);
    }
  }

  lemma FreshTable(p: Pool, pgd: nat, s: Space, a: nat)
    requires Refines(p, pgd, s) && InPool(a) && !Used(p, a)
    ensures a !in s.tables.Values
  {
    hide InPool, Used, EntryAt, IsTree;
    forall b | b in s.tables
      ensures s.tables[b] != a
    {
      assert TableHolds(p, s, b);
    }
  }

  /** Only the tables of the tree are touched, and one page leaves the pool. */
  lemma AttachedMoves(p: Pool, tables: set<nat>, parent: nat, i: nat, a: nat)
    requires parent in tables && a !in tables
    requires InPool(parent) && InPool(a) && !Used(p, a) && i < ENTRIES
    ensures Moves(p, Attached(p, parent, i, a), tables, tables + {a})
    ensures |FreePages(Attached(p, parent, i, a))| == |FreePages(p)| - 1
  {
    hide Moves, InPool, At, Used, Taken, Written, FreePages;
    var mid := Taken(p, a);
    var end := Attached(p, parent, i, a);
    var both := tables + {a};
    TakenMoves(p, a);
    MovesFrame(p, mid, {}, {a}, tables);
    assert {} + tables == tables && {a} + tables == both;
    PoolBound(a);
    WrittenMoves(mid, parent, WithEntry(At(mid, parent), i, a + TABLE_FLAGS));
    MovesFrame(mid, end, {parent}, {parent}, both - {parent});
    assert {parent} + (both - {parent}) == both;
    MovesCompose(p, mid, end, tables, both, both);
  }

  lemma PoolBound(a: nat)
    requires InPool(a)
    ensures 0 < a < HIGH_MEMORY
  {
  }

  lemma GrownTableHolds(p: Pool, pgd: nat, s: Space, path: Path, i: nat, a: nat, b: Path)
    requires Refines(p, pgd, s) && i < ENTRIES && |path| < 3
    requires path in s.tables && Child(path, i) !in s.tables
    requires InPool(a) && !Used(p, a)
    requires b in s.tables || b == Child(path, i)
    ensures InPool(s.tables[path])
    ensures TableHolds(Attached(p, s.tables[path], i, a), s.(tables := s.tables[Child(path, i) := a]), b)
  {
    hide InPool, At, Used, EntryAt, Written, Marked, Child, Parent, Last;
    assert TableHolds(p, s, path);
    PoolBound(a);
    var t := s.(tables := s.tables[Child(path, i) := a]);
    var end := Attached(p, s.tables[path], i, a);
    if b == Child(path, i) {
      forall j | 0 <= j < ENTRIES
        ensures EntryAt(At(end, a), j) == Link(t, Child(b, j))
      {
        ZeroEntry(j);
      }
    } else {
      assert TableHolds(p, s, b);
      forall j | 0 <= j < ENTRIES
        ensures EntryAt(At(end, s.tables[b]), j) == Link(t, Child(b, j))
      {
        assert EntryAt(At(p, s.tables[b]), j) == Link(s, Child(b, j));
      }
    }
  }

  /** Writing the last-level entry changes the frame of one path only. */
  lemma FrameMapped(p: Pool, pgd: nat, s: Space, path: Path, i: nat, pa: nat)
    requires Refines(p, pgd, s) && i < ENTRIES && |path| == 3
    requires path in s.tables && InPool(pa)
    ensures InPool(s.tables[path]) && pa + FRAME_FLAGS < 0x1_0000_0000
    ensures var page := WithEntry(At(p, s.tables[path]), i, pa + FRAME_FLAGS);
            Refines(Written(p, s.tables[path], page), pgd, s.(frames := s.frames[Child(path, i) := pa]))
  {
    hide InPool, At, Used, EntryAt, Written, Child, Parent, Last;
    assert TableHolds(p, s, path);
    PoolBound(pa);
    var parent, q := s.tables[path], Child(path, i);
    var t := s.(frames := s.frames[q := pa]);
    var end := Written(p, parent, WithEntry(At(p, parent), i, pa + FRAME_FLAGS));
    FrameTree(s, path, i, pa);
    hide IsTree;
    forall b | b in t.tables
      ensures TableHolds(end, t, b)
    {
      FrameTableHolds(p, pgd, s, path, i, pa, b);
    }
  }

  lemma FrameTree(s: Space, path: Path, i: nat, pa: nat)
    requires IsTree(s) && i < ENTRIES && |path| == 3 && path in s.tables && InPool(pa)
    ensures IsTree(s.(frames := s.frames[Child(path, i) := pa]))
  {
    hide InPool;
  }

  lemma FrameTableHolds(p: Pool, pgd: nat, s: Space, path: Path, i: nat, pa: nat, b: Path)
    requires Refines(p, pgd, s) && i < ENTRIES && |path| == 3
    requires path in s.tables && InPool(pa) && b in s.tables
    ensures InPool(s.tables[path]) && pa + FRAME_FLAGS < 0x1_0000_0000
    ensures var page := WithEntry(At(p, s.tables[path]), i, pa + FRAME_FLAGS);
            TableHolds(Written(p, s.tables[path], page), s.(frames := s.frames[Child(path, i) := pa]), b)
  {
    hide InPool, At, Used, EntryAt, Written, Child, Parent, Last;
    assert TableHolds(p, s, path) && TableHolds(p, s, b);
    PoolBound(pa);
    var parent := s.tables[path];
    var t := s.(frames := s.frames[Child(path, i) := pa]);
    var end := Written(p, parent, WithEntry(At(p, parent), i, pa + FRAME_FLAGS));
    forall j | 0 <= j < ENTRIES
      ensures EntryAt(At(end, s.tables[b]), j) == Link(t, Child(b, j))
    {
      assert EntryAt(At(p, s.tables[b]), j) == Link(s, Child(b, j));
    }
  }

  lemma EntryMoves(p: Pool, tables: set<nat>, parent: nat, page: Page)
    requires parent in tables && InPool(parent)
    ensures Moves(p, Written(p, parent, page), tables, tables)
    ensures FreePages(Written(p, parent, page)) == FreePages(p)
  {
    hide Moves, InPool, At, Used, Written;
    WrittenMoves(p, parent, page);
    MovesFrame(p, Written(p, parent, page), {parent}, {parent}, tables - {parent});
    assert {parent} + (tables - {parent}) == tables;
  }
}
