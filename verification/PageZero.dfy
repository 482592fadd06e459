/**
 What happens when the free pages run out while a page is being mapped: a table lands
 on physical page 0, which is not the allocator's, and every process it happens to
 shares that table.
 */
module PageZero {
  import opened PageFrames
  import opened Mmu
  import opened PageTables
  import opened ProcessPages

  // ------------------------------------------------- pages left alone

  /** Pages in use that are not among `own` stay in use and keep their bytes. */
  ghost predicate Kept(p: Pool, q: Pool, own: set<nat>) {
    forall a :: InPool(a) && Used(p, a) && a !in own ==> Used(q, a) && At(q, a) == At(p, a)
  }

  lemma KeptTrans(p: Pool, q: Pool, r: Pool, own: set<nat>)
    requires Kept(p, q, own) && Kept(q, r, own)
    ensures Kept(p, r, own)
  {
    hide InPool, Used, At;
  }

  lemma NothingKept(p: Pool, own: set<nat>)
    ensures Kept(p, p, own)
  {
  }

  lemma TakenKept(p: Pool, a: nat, own: set<nat>)
    requires InPool(a) && !Used(p, a)
    ensures Kept(p, Taken(p, a), own)
  {
  }

  lemma MovesKept(p: Pool, q: Pool, before: set<nat>, after: set<nat>)
    requires Moves(p, q, before, after)
    ensures Kept(p, q, before)
  {
    hide InPool, Used, At;
    forall a | InPool(a) && Used(p, a) && a !in before
      ensures Used(q, a) && At(q, a) == At(p, a)
    {
      assert PageMoves(p, q, before, after, a);
    }
  }

  /** What keeps the pages outside those of a process keeps the pages outside those it had before. */
  lemma KeptOnward(p: Pool, q: Pool, r: Pool, before: set<nat>, after: set<nat>, own: set<nat>)
    requires Moves(p, q, before, after) && Kept(q, r, own) && own <= after
    ensures Kept(p, r, before)
  {
    hide InPool, Used, At;
    forall a | InPool(a) && Used(p, a) && a !in before
      ensures Used(r, a) && At(r, a) == At(p, a)
    {
      assert PageMoves(p, q, before, after, a);
    }
  }

  /** Writing a page that was free does so too. */
  lemma WrittenKept(p: Pool, q: Pool, a: nat, page: Page, own: set<nat>)
    requires Kept(p, q, own) && InPool(a) && !Used(p, a)
    ensures Kept(p, Written(q, a, page), own)
  {
    hide InPool, Used, At, Written;
  }

  /** A process that has none of the pages concerned has its own still. */
  lemma KeptOwning(p: Pool, q: Pool, own: set<nat>, m: Mm)
    requires Owning(p, m) && Kept(p, q, own) && Owned(m) !! own
    ensures Owning(q, m) && SameFrames(p, q, m)
  {
    hide InPool, Used, At, Owning, Owned, SameFrames;
    forall a | a in Owned(m)
      ensures SameBytes(p, q, a) && InPool(a) && Used(q, a)
    {
      OwnedUsed(p, m, a);
    }
    Untouched(p, q, m);
  }

  /** The table that the walk to an address has come to is the process's own or has just been free. */
  lemma TableOwn(p0: Pool, m0: Mm, va: nat, k: nat, p: Pool, m: Mm, table: nat)
    requires 1 <= k <= 4 && OnTheWay(p0, m0, va, k, p, m, table)
    ensures forall a :: a in m.space.tables.Values && InPool(a) ==> a in m0.space.tables.Values || !Used(p0, a)
    ensures table in m.space.tables.Values && InPool(table)
  {
    hide Rooted, PathOf, PrefixesTo, FreePages;
    forall a | a in m.space.tables.Values && InPool(a)
      ensures a in m0.space.tables.Values || !Used(p0, a)
    {
      assert PageMoves(p0, p, m0.space.tables.Values, m.space.tables.Values, a);
    }
  }

  /** One table further on the way to an address. */
  lemma NextKept(p0: Pool, m0: Mm, va: nat, k: nat, p: Pool, low: Page, m: Mm, table: nat,
                 q: Pool, low': Page, next: nat, created: bool)
    requires 1 <= k < 4 && Stage(p0, m0, va, k, p, low, m, table) && (table == 0 || InPool(table))
    requires Mapped(p, low, table, PathOf(va)[k - 1], q, low', next, created)
    requires Kept(p0, p, m0.space.tables.Values)
    ensures Kept(p0, q, m0.space.tables.Values)
  {
    hide PathOf, OnTheWay, OnlyItself, EntryAt, FreePages, MissingTo;
    if table != 0 {
      TableOwn(p0, m0, va, k, p, m, table);
    }
  }

  // --------------------------------------------- a walk that ends in page 0

  /**
   The frame `a` has come to be mapped at `va` by an entry of page 0, and the pages in
   use that are no tables of the process have been left alone.
   */
  ghost predicate OnPageZero(p: Pool, m: Mm, q: Pool, low: Page, va: nat, a: nat) {
    EntryAt(low, PteIndex(va)) == a + FRAME_FLAGS && Kept(p, q, m.space.tables.Values)
  }

  /** The processor takes the entry for a table at `a`. */
  predicate Leads(e: nat, a: nat) {
    Typed(e) && Output(e) == a
  }

  /** The walk to `va` leads through the tables `pgd`, `t1` and `t2`, all in use, to page 0 as the last one. */
  ghost predicate Sunk(p: Pool, pgd: nat, va: nat, t1: nat, t2: nat) {
    && pgd != 0 && InPool(pgd) && InPool(t1) && InPool(t2)
    && Used(p, pgd) && Used(p, t1) && Used(p, t2)
    && Leads(EntryAt(At(p, pgd), PgdIndex(va)), t1)
    && Leads(EntryAt(At(p, t1), PudIndex(va)), t2)
    && Leads(EntryAt(At(p, t2), PmdIndex(va)), 0)
  }

  /** The bytes put into the new page concern nobody else either. */
  lemma LostKept(p: Pool, m: Mm, q: Pool, low: Page, va: nat, a: nat, page: Page)
    requires OnPageZero(p, m, q, low, va, a) && InPool(a) && !Used(p, a)
    ensures Kept(p, Written(q, a, page), m.space.tables.Values)
  {
    hide InPool, Used, Kept, EntryAt;
    WrittenKept(p, q, a, page, m.space.tables.Values);
  }

  lemma FirstLostKept(p: Pool, q: Pool, low: Page, va: nat, a: nat, page: Page)
    requires OnPageZero(p, EmptyMm(), q, low, va, a) && InPool(a) && !Used(p, a)
    ensures Kept(p, Written(q, a, page), {})
  {
    hide InPool, Used, Kept, EntryAt, OnPageZero;
    LostKept(p, EmptyMm(), q, low, va, a, page);
    assert EmptyMm().space.tables.Values == {};
  }

  lemma CopiedKept(p: Pool, m: Mm, q: Pool, n: Mm, i: nat)
    requires CopiedTo(p, m, q, n, i)
    ensures Kept(p, q, {})
  {
    hide Owning, Moves, CopyOf, FreePages, Kept;
    MovesKept(p, q, {}, Owned(n));
  }

  /** A page more has been loaded, or the last one that there was, by way of page 0. */
  lemma LoadedKept(p: Pool, m: Mm, q: Pool, n: Mm, r: Pool, o: Mm, buffer: seq<Byte>, i: nat, lost: bool)
    requires i < MAX_PROCESS_PAGES && LoadingTo(p, m, q, n, buffer, i)
    requires !lost ==> LoadingTo(p, m, r, o, buffer, i + 1)
    requires lost ==> Kept(q, r, n.space.tables.Values)
    ensures Kept(p, r, Owned(m))
  {
    hide Owning, Moves, LoadedTo, FreePages, Kept, Missing, Prefixes, UserFrames;
    if lost {
      KeptOnward(p, q, r, Owned(m), Owned(n), n.space.tables.Values);
    } else {
      MovesKept(p, r, Owned(m), Owned(o));
    }
  }

  /** What such a process reads at the address is what the entry in page 0 says, whoever has written it. */
  lemma SunkWalk(p: Pool, low: Page, pgd: nat, va: nat, t1: nat, t2: nat)
    requires Sunk(p, pgd, va, t1, t2)
    ensures Leaf(p, low, pgd, va) == Some(EntryAt(low, PteIndex(va)))
    ensures var e := EntryAt(low, PteIndex(va));
            Translate(p, low, pgd, va) == if Readable(e) then Some(Output(e)) else None
  {
    hide EntryAt, Descriptor, Typed, Output, Index, PgdIndex, PudIndex, PmdIndex, PteIndex, InPool, At, Used;
    IndexIs(va);
    PoolBound(pgd);
    PoolBound(t1);
    PoolBound(t2);
    DescriptorIs(At(p, pgd), PgdIndex(va));
    DescriptorIs(At(p, t1), PudIndex(va));
    DescriptorIs(At(p, t2), PmdIndex(va));
    DescriptorIs(low, PteIndex(va));
  }

  /** The processor takes the entry of page 0 for the page at `a`, which a program may read and write. */
  ghost predicate EntersFrame(low: Page, va: nat, a: nat) {
    var e := Descriptor(low, Index(va, 3));
    Writable(e) && Attribute(e) == 1 && Output(e) == a
  }

  lemma LowEntered(low: Page, va: nat, a: nat)
    requires InPool(a) && EntryAt(low, PteIndex(va)) == a + FRAME_FLAGS
    ensures EntersFrame(low, va, a)
  {
    hide InPool, EntryAt, Descriptor, Writable, Attribute, Output, Index, PteIndex;
    IndexIs(va);
    DescriptorIs(low, PteIndex(va));
    FrameTells(a);
  }

  /** At the address a program finds the page at `a`, and may read and write it. */
  ghost predicate MappedTo(p: Pool, pgd: nat, va: nat, a: nat) {
    && Walk(p, pgd, va) == Some(a)
    && var e := Leaf(p, ZeroPage(), pgd, va); e.Some? && Writable(e.value) && Attribute(e.value) == 1
  }

  lemma PageTranslated(p: Pool, m: Mm, q: Pool, n: Mm, va: nat, a: nat)
    requires PageMapped(p, m, q, n, va, a)
    ensures MappedTo(q, n.pgd, va, a)
  {
    hide PathOf, Walk, Leaf, Writable, Attribute, Refines, Moves, Missing, Prefixes, FreePages, ZeroPage;
    WalkFinds(q, n.pgd, n.space, va);
  }

  lemma SunkKept(p: Pool, q: Pool, own: set<nat>, pgd: nat, va: nat, t1: nat, t2: nat)
    requires Sunk(p, pgd, va, t1, t2) && Kept(p, q, own) && pgd !in own && t1 !in own && t2 !in own
    ensures Sunk(q, pgd, va, t1, t2)
  {
    hide EntryAt, Leads, PgdIndex, PudIndex, PmdIndex;
  }

  /**
   A process whose last table for `va` lies on page 0 reads, after another one has
   mapped a page whose table lies there too, the frame of that other process.
   */
  lemma Exposed(p: Pool, q: Pool, own: set<nat>, low: Page, pgd: nat, va: nat, t1: nat, t2: nat, frame: nat)
    requires Sunk(p, pgd, va, t1, t2) && Kept(p, q, own) && pgd !in own && t1 !in own && t2 !in own
    requires InPool(frame) && EntryAt(low, PteIndex(va)) == frame + FRAME_FLAGS
    ensures Translate(q, low, pgd, va) == Some(frame)
    ensures Leaf(q, low, pgd, va).Some? && Writable(Leaf(q, low, pgd, va).value)
  {
    hide EntryAt, InPool, Sunk, Kept, Translate, Leaf, Readable, Output, Attribute;
    SunkKept(p, q, own, pgd, va, t1, t2);
    SunkWalk(q, low, pgd, va, t1, t2);
    FrameTells(frame);
  }

  /** A table that leads on is not a cleared page. */
  lemma TablesNotClear(p: Pool, pgd: nat, va: nat, t1: nat, t2: nat, k: nat)
    requires Sunk(p, pgd, va, t1, t2) && InPool(k) && At(p, k) == ZeroPage()
    ensures k != pgd && k != t1 && k != t2
  {
    hide EntryAt, InPool, At, ZeroPage, PgdIndex, PudIndex, PmdIndex;
    ZeroEntry(PgdIndex(va));
    ZeroEntry(PudIndex(va));
    ZeroEntry(PmdIndex(va));
  }

  lemma ReleasedKept(p: Pool, a: nat)
    requires InPool(a)
    ensures Kept(p, Released(p, a), {a})
  {
  }

  /**
   A process whose last table for `va` lies on page 0 reads the frame of the process
   that has got the next free page and mapped it at `va`.
   */
  lemma Shared(p: Pool, m: Mm, page: nat, q: Pool, low: Page, va: nat, frame: nat)
    requires SunkAt(p, m, va) && InPool(page) && At(p, page) == ZeroPage()
    requires OnPageZero(Released(p, page), EmptyMm(), q, low, va, frame) && InPool(frame)
    ensures Translate(q, low, m.pgd, va) == Some(frame)
  {
    hide EntryAt, At, Released, ZeroPage, InPool, Used, Translate, Leaf, Writable, Sunk, PathOf;
    var t1, t2 := m.space.tables[PathOf(va)[..1]], m.space.tables[PathOf(va)[..2]];
    TablesNotClear(p, m.pgd, va, t1, t2, page);
    ReleasedKept(p, page);
    KeptTrans(p, Released(p, page), q, {page});
    Exposed(p, q, {page}, low, m.pgd, va, t1, t2, frame);
  }

  lemma ParentThere(p: Pool, pgd: nat, s: Space, path: Path)
    requires Refines(p, pgd, s) && path in s.tables
    ensures path != [] ==> Parent(path) in s.tables
    ensures path == [] ==> s.tables[[]] == pgd
  {
  }

  lemma TablesDiffer(p: Pool, pgd: nat, s: Space, a: Path, b: Path)
    requires Refines(p, pgd, s) && a in s.tables && b in s.tables && a != b
    ensures s.tables[a] != s.tables[b]
  {
  }

  lemma EntryWritten(p: Pool, table: nat, i: nat, v: nat)
    requires InPool(table) && i < ENTRIES && v < 0x1_0000_0000
    ensures var q := Written(p, table, WithEntry(At(p, table), i, v));
            && EntryAt(At(q, table), i) == v
            && forall a :: InPool(a) ==> Used(q, a) == Used(p, a) && (a != table ==> At(q, a) == At(p, a))
  {
    hide EntryAt;
  }

  /** The entry of a table that would lead to a missing table leads to page 0. */
  lemma SunkEntry(p: Pool, pgd: nat, s: Space, path: Path, i: nat, low: Page, q: Pool, low': Page, created: bool)
    requires Refines(p, pgd, s) && |path| < 3 && path in s.tables && i < ENTRIES && InPool(s.tables[path])
    requires Mapped(p, low, s.tables[path], i, q, low', 0, created)
    ensures EntryAt(At(q, s.tables[path]), i) == TABLE_FLAGS
    ensures forall a :: InPool(a) ==> Used(q, a) == Used(p, a) && (a != s.tables[path] ==> At(q, a) == At(p, a))
  {
    hide Refines, Child, FreePages, EntryAt, Masked, Moves, OnlyItself;
    TreeMapped(p, pgd, s, path, low, i, q, low', 0, created);
    PoolBound(s.tables[path]);
    EntryWritten(p, s.tables[path], i, TABLE_FLAGS);
  }

  /** The walk to `va` leads through the distinct tables `pgd` and `t1` to `t2`. */
  ghost predicate LeadsTo(p: Pool, pgd: nat, va: nat, t1: nat, t2: nat) {
    && pgd != 0 && InPool(pgd) && InPool(t1) && InPool(t2)
    && Used(p, pgd) && Used(p, t1) && Used(p, t2) && t2 != pgd && t2 != t1
    && Leads(EntryAt(At(p, pgd), PgdIndex(va)), t1)
    && Leads(EntryAt(At(p, t1), PudIndex(va)), t2)
  }

  lemma UpperPath(va: nat)
    ensures var path := PathOf(va);
            && path[..1] == Child([], PgdIndex(va)) && path[..2] == Child(path[..1], PudIndex(va))
            && path[2] == PmdIndex(va)
  {
    hide PgdIndex, PudIndex, PmdIndex, PteIndex;
  }

  /** A table in a tree and the table an entry of it leads to. */
  lemma TreeLeads(p: Pool, pgd: nat, s: Space, path: Path, i: nat)
    requires Refines(p, pgd, s) && i < ENTRIES && |path| < 3 && Child(path, i) in s.tables
    ensures path in s.tables && InPool(s.tables[path]) && Used(p, s.tables[path])
    ensures Leads(EntryAt(At(p, s.tables[path]), i), s.tables[Child(path, i)])
  {
    hide Refines, EntryAt, InPool, Used, At, Typed, Output, Link;
    ParentThere(p, pgd, s, Child(path, i));
    TableInPool(p, pgd, s, path);
    EntryLinks(p, pgd, s, path, i);
    LinkLeads(p, pgd, s, Child(path, i));
  }

  lemma EntryLinks(p: Pool, pgd: nat, s: Space, path: Path, i: nat)
    requires Refines(p, pgd, s) && i < ENTRIES && path in s.tables
    ensures InPool(s.tables[path]) && EntryAt(At(p, s.tables[path]), i) == Link(s, Child(path, i))
  {
    hide EntryAt, InPool, Used, At, Link, IsTree;
    assert TableHolds(p, s, path);
  }

  lemma WayThere(p: Pool, pgd: nat, s: Space, va: nat)
    requires Refines(p, pgd, s) && PathOf(va)[..2] in s.tables
    ensures PathOf(va)[..1] in s.tables
    ensures LeadsTo(p, pgd, va, s.tables[PathOf(va)[..1]], s.tables[PathOf(va)[..2]])
    ensures {pgd, s.tables[PathOf(va)[..1]], s.tables[PathOf(va)[..2]]} <= s.tables.Values
  {
    hide Refines, EntryAt, Leads, InPool, Used, At, PgdIndex, PudIndex, PmdIndex, PteIndex, Child, PathOf;
    var path := PathOf(va);
    UpperPath(va);
    TreeLeads(p, pgd, s, path[..1], PudIndex(va));
    TreeLeads(p, pgd, s, [], PgdIndex(va));
    TableInPool(p, pgd, s, path[..2]);
    ParentThere(p, pgd, s, []);
    PoolBound(pgd);
    TablesDiffer(p, pgd, s, [], path[..2]);
    TablesDiffer(p, pgd, s, path[..1], path[..2]);
  }

  /** The tables on the way to `va` are the process's own, all but the last one, which is page 0. */
  ghost predicate SunkAt(p: Pool, m: Mm, va: nat) {
    var path := PathOf(va);
    && path[..1] in m.space.tables && path[..2] in m.space.tables && m.pgd in m.space.tables.Values
    && Sunk(p, m.pgd, va, m.space.tables[path[..1]], m.space.tables[path[..2]])
  }

  /** The last table on the way lands on page 0. */
  lemma SunkNow(p0: Pool, m0: Mm, va: nat, p: Pool, low: Page, m: Mm, table: nat, q: Pool, low': Page, created: bool)
    requires OnTheWay(p0, m0, va, 3, p, m, table)
    requires Mapped(p, low, table, PathOf(va)[2], q, low', 0, created)
    ensures SunkAt(q, m, va)
  {
    hide Moves, FreePages, PrefixesTo, EntryAt, InPool, Used, At, Refines, Mapped, PgdIndex, PudIndex, PmdIndex,
      PteIndex, IsTree, Leads, Child, PathOf;
    RootedParts(p, m);
    UpperPath(va);
    WayThere(p, m.pgd, m.space, va);
    SunkEntry(p, m.pgd, m.space, PathOf(va)[..2], PmdIndex(va), low, q, low', created);
    FlagsLead();
  }

  /** The last table on the way is on page 0, and the tables before it are not, when exactly one page is missing. */
  lemma LastSinks(p0: Pool, m0: Mm, va: nat, p: Pool, low: Page, m: Mm, table: nat,
                  q: Pool, low': Page, next: nat, created: bool)
    requires Rooted(p0, m0) && Stage(p0, m0, va, 3, p, low, m, table) && (table == 0 || InPool(table))
    requires Mapped(p, low, table, PathOf(va)[2], q, low', next, created)
    ensures |FreePages(p0)| + 1 == Missing(m0.space, va) ==> SunkAt(q, WithTable(m, PathOf(va)[..3], next, created), va)
  {
    hide PathOf, OnTheWay, FreePages, Mapped, SunkAt, OnlyItself, Refines;
    if |FreePages(p0)| + 1 == Missing(m0.space, va) {
      NextStage(p0, m0, va, 3, p, low, m, table, q, low', next, created);
      assert Missing(m0.space, va) == MissingTo(m0.space, va, 3) + New(m0.space, PathOf(va)[..3]);
      RootedParts(p0, m0);
      if MissingTo(m0.space, va, 3) > 0 {
        NewBelow(m0.space, va, 3);
      }
      SunkNow(p0, m0, va, p, low, m, table, q, low', created);
      SunkSame(q, m, WithTable(m, PathOf(va)[..3], next, created), va);
    }
  }

  lemma SunkSame(q: Pool, m: Mm, n: Mm, va: nat)
    requires SunkAt(q, m, va) && n.space == m.space && n.pgd == m.pgd
    ensures SunkAt(q, n, va)
  {
    hide Sunk, PathOf;
  }

  lemma FlagsLead()
    ensures Leads(TABLE_FLAGS, 0)
  {
  }
}
