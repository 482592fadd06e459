/**
 The page allocator and the page mapping functions of `libs/mm.c` as they work in
 place, with the parts of `fork`, `exec` and the start of the first process that
 change a process's pages. What they do to memory is stated with `PageFrames.Moves`:
 nothing outside the pages of the process they act on changes.
 */
module MemoryManager {
  import opened PageFrames
  import opened PageTables
  import opened ProcessPages
  import opened PageZero

  class AddressSpace {
    var pgd: nat
    var nUserPages: nat
    const userPages: array<UserPage>
    var nKernelPages: nat
    const kernelPages: array<nat>
    ghost var space: Space

    ghost predicate Valid()
      reads this
    {
      && userPages.Length == kernelPages.Length == MAX_PROCESS_PAGES
      && nUserPages <= MAX_PROCESS_PAGES && nKernelPages <= MAX_PROCESS_PAGES
    }

    ghost function Value(): Mm
      requires Valid()
      reads this, userPages, kernelPages
    {
      Mm(pgd, userPages[..nUserPages], kernelPages[..nKernelPages], space)
    }

    constructor ()
      ensures Valid() && Value() == EmptyMm()
      ensures fresh(userPages) && fresh(kernelPages)
    {
      pgd, nUserPages, nKernelPages := 0, 0, 0;
      userPages := new UserPage[MAX_PROCESS_PAGES](i => UserPage(0, 0));
      kernelPages := new nat[MAX_PROCESS_PAGES](i => 0);
      space := Space(map[], map[]);
    }

    /** Records a new table page. */
    method AddTable(page: nat)
      requires Valid() && nKernelPages < MAX_PROCESS_PAGES
      modifies this`nKernelPages, kernelPages
      ensures Valid()
      ensures Value() == old(Value()).(tables := old(Value()).tables + [page])
    {
      kernelPages[nKernelPages] := page;
      nKernelPages := nKernelPages + 1;
    }

    method AddUserPage(page: UserPage)
      requires Valid() && nUserPages < MAX_PROCESS_PAGES
      modifies this`nUserPages, userPages
      ensures Valid()
      ensures Value() == old(Value()).(users := old(Value()).users + [page])
    {
      userPages[nUserPages] := page;
      nUserPages := nUserPages + 1;
    }
  }

  class PageAllocator {
    // true for a page in use
    const memoryPages: array<bool>
    var ram: seq<Page>
    // physical page 0, which is not one of the allocator's
    var low: Page

    ghost predicate Valid()
      reads this
    {
      memoryPages.Length == N_PAGES && |ram| == N_PAGES
    }

    ghost function Value(): (p: Pool)
      requires Valid()
      reads this, memoryPages
    {
      Frames(memoryPages[..], ram)
    }

    constructor ()
      ensures Valid() && fresh(memoryPages)
      ensures forall a :: InPool(a) ==> !Used(Value(), a)
    {
      memoryPages := new bool[N_PAGES](i => false);
      ram := seq(N_PAGES, i => ZeroPage());
      low := ZeroPage();
    }

    /** The page at an address that serves as a table: a page of the pool, or page 0. */
    function TableAt(table: nat): Page
      requires Valid() && (table == 0 || InPool(table))
      reads this
    {
      if table == 0 then low else ram[Number(table)]
    }

    /** Hands out the lowest free page, cleared, or 0 when there is none. */
    method GetFreePage() returns (page: nat)
      requires Valid()
      modifies this`ram, memoryPages
      ensures Valid()
      ensures page == 0 <==> FreePages(old(Value())) == {}
      ensures page == 0 ==> Value() == old(Value())
      ensures page != 0 ==> InPool(page) && !Used(old(Value()), page) && Value() == Taken(old(Value()), page)
      ensures page != 0 ==> Cleared(old(Value()), Value(), page, true)
      ensures page != 0 ==> forall a: nat :: InPool(a) && a < page ==> Used(old(Value()), a)
      ensures page != 0 ==> 0x40_0000 <= page < 0x3f00_0000 && page % 0x1000 == 0
    {
      var i := 0;
      while i < N_PAGES
        invariant i <= N_PAGES && Valid() && Value() == old(Value())
        invariant forall j :: 0 <= j < i ==> memoryPages[j]
      {
        if !memoryPages[i] {
          memoryPages[i] := true;
          page := Address(i);
          ram := ram[i := ZeroPage()];
          assert i in FreePages(old(Value()));
          return;
        }
        i := i + 1;
      }
      page := 0;
    }

    /** Clears a page given by its kernel address and frees it; an unaligned address is refused. */
    method FreePage(address: nat) returns (r: int)
      requires Valid()
      requires address % PAGE_SIZE == 0 ==> address >= VA_START && InPool(address - VA_START)
      modifies this`ram, memoryPages
      ensures Valid()
      ensures r == if address % 4096 == 0 then 0 else -1
      ensures r == 0 ==> Value() == Released(old(Value()), address - VA_START)
      ensures r == 0 ==> Cleared(old(Value()), Value(), address - 0xffff_0000_0000_0000, false)
      ensures r != 0 ==> Value() == old(Value())
    {
      if address % PAGE_SIZE != 0 {
        return -1;
      }
      var page := Number(address - VA_START);
      ram := ram[page := ZeroPage()];
      memoryPages[page] := false;
      return 0;
    }

    method AllocateKernelPage() returns (address: nat)
      requires Valid()
      modifies this`ram, memoryPages
      ensures Valid()
      ensures address == 0 <==> FreePages(old(Value())) == {}
      ensures address == 0 ==> Value() == old(Value())
      ensures address != 0 ==>
                && address >= VA_START && InPool(address - VA_START) && !Used(old(Value()), address - VA_START)
                && Value() == Taken(old(Value()), address - VA_START)
      ensures address != 0 ==> 0xffff_0000_0040_0000 <= address < 0xffff_0000_3f00_0000
    {
      var page := GetFreePage();
      if page == 0 {
        return 0;
      }
      return page + VA_START;
    }

    /** Stores an entry of a translation table. */
    method WriteEntry(table: nat, index: nat, entry: nat)
      requires Valid() && (table == 0 || InPool(table)) && index < ENTRIES && entry < 0x1_0000_0000
      modifies this`ram, this`low
      ensures Valid()
      ensures table == 0 ==> Value() == old(Value()) && low == WithEntry(old(low), index, entry)
      ensures table != 0 ==> low == old(low)
      ensures table != 0 ==> Value() == Written(old(Value()), table, WithEntry(At(old(Value()), table), index, entry))
    {
      if table == 0 {
        low := WithEntry(low, index, entry);
      } else {
        ram := ram[Number(table) := WithEntry(ram[Number(table)], index, entry)];
      }
    }

    /** The table that entry `index` of `table` points to, created when there is none. */
    method MapTable(table: nat, index: nat) returns (next: nat, created: bool)
      requires Valid() && (table == 0 || InPool(table)) && index < ENTRIES
      modifies this`ram, this`low, memoryPages
      ensures Valid() && Mapped(old(Value()), old(low), table, index, Value(), low, next, created)
    {
      hide EntryAt, Masked, InPool, FreePages, Used, Taken, Written;
      if EntryAt(TableAt(table), index) == 0 {
        next := GetFreePage();
        if next == 0 {
          low := ZeroPage();
        } else {
          PoolBound(next);
        }
        WriteEntry(table, index, next + TABLE_FLAGS);
        return next, true;
      }
      next := Masked(EntryAt(TableAt(table), index));
      created := false;
    }

    /** `map_table` for a process: a table that it creates is listed in `kernel_pages`. */
    method NextTable(process: AddressSpace, table: nat, index: nat, ghost path: Path)
        returns (next: nat, ghost created: bool)
      requires Valid() && process.Valid() && (table == 0 || InPool(table)) && index < ENTRIES
      requires process.nKernelPages < MAX_PROCESS_PAGES || EntryAt(TableAt(table), index) != 0
      modifies this`ram, this`low, memoryPages, process`nKernelPages, process`space, process.kernelPages
      ensures Valid() && process.Valid() && Mapped(old(Value()), old(low), table, index, Value(), low, next, created)
      ensures process.Value() == WithTable(old(process.Value()), path, next, created)
    {
      hide EntryAt, Masked, InPool, FreePages, Used, Taken, Written;
      var added;
      next, added := MapTable(table, index);
      created := added;
      if added {
        process.AddTable(next);
      }
      if next != 0 {
        process.space := process.space.(tables := process.space.tables[path := next]);
      }
    }

    /** The root of the tables, created when the process has none. */
    method RootTable(process: AddressSpace, ghost va: nat) returns (root: nat)
      requires Valid() && process.Valid() && Rooted(Value(), process.Value())
      requires process.nKernelPages + New(process.space, []) <= MAX_PROCESS_PAGES
      modifies this`ram, this`low, memoryPages, process`pgd, process`nKernelPages, process`space, process.kernelPages
      ensures Valid() && process.Valid()
      ensures Stage(old(Value()), old(process.Value()), va, 1, Value(), low, process.Value(), root)
      ensures Kept(old(Value()), Value(), old(process.Value()).space.tables.Values)
    {
      hide InPool, Used, At, Taken, FreePages, Stage, Rooted, New, Kept;
      ghost var p, m := Value(), process.Value();
      RootIsNew(p, m);
      if process.pgd == 0 {
        process.pgd := GetFreePage();
        if process.pgd == 0 {
          low := ZeroPage();
        }
        process.AddTable(process.pgd);
        if process.pgd != 0 {
          process.space := process.space.(tables := process.space.tables[[] := process.pgd]);
          TakenKept(p, process.pgd, m.space.tables.Values);
        } else {
          NothingKept(p, m.space.tables.Values);
        }
      } else {
        RootThere(p, m, process.pgd);
        NothingKept(p, m.space.tables.Values);
      }
      FirstStage(p, m, va, Value(), low, process.pgd);
      root := process.pgd;
    }

    /**
     The last-level table for an address, with every table on the way to it; page 0 once
     the free pages have run out.
     */
    method TablesFor(process: AddressSpace, va: nat) returns (pte: nat)
      requires Valid() && process.Valid() && Rooted(Value(), process.Value())
      requires process.nKernelPages + Missing(process.space, va) <= MAX_PROCESS_PAGES
      modifies this`ram, this`low, memoryPages, process`pgd, process`nKernelPages, process`space, process.kernelPages
      ensures Valid() && process.Valid() && (pte == 0 || InPool(pte))
      ensures Stage(old(Value()), old(process.Value()), va, 4, Value(), low, process.Value(), pte)
      ensures Kept(old(Value()), Value(), old(process.Value()).space.tables.Values)
      ensures |FreePages(old(Value()))| + 1 == Missing(old(process.Value()).space, va) ==>
                SunkAt(Value(), process.Value(), va)
    {
      hide Rooted, Stage, InPool, Used, FreePages, Mapped, WithTable, PgdIndex, PudIndex, PmdIndex, PteIndex, Missing,
        New, EntryAt, Kept, SunkAt;
      ghost var p, m, path := Value(), process.Value(), PathOf(va);
      RootSlot(m.space, va);
      var pgd := RootTable(process, va);
      StageTable(p, m, va, 1, Value(), low, process.Value(), pgd);
      StageRoom(p, m, va, 1, Value(), low, process.Value(), pgd);
      ghost var p1, low1, m1 := Value(), low, process.Value();
      var pud, pmd;
      ghost var created;
      pud, created := NextTable(process, pgd, PgdIndex(va), path[..1]);
      NextStage(p, m, va, 1, p1, low1, m1, pgd, Value(), low, pud, created);
      NextKept(p, m, va, 1, p1, low1, m1, pgd, Value(), low, pud, created);
      StageTable(p, m, va, 2, Value(), low, process.Value(), pud);
      StageRoom(p, m, va, 2, Value(), low, process.Value(), pud);
      p1, low1, m1 := Value(), low, process.Value();
      pmd, created := NextTable(process, pud, PudIndex(va), path[..2]);
      NextStage(p, m, va, 2, p1, low1, m1, pud, Value(), low, pmd, created);
      NextKept(p, m, va, 2, p1, low1, m1, pud, Value(), low, pmd, created);
      StageTable(p, m, va, 3, Value(), low, process.Value(), pmd);
      StageRoom(p, m, va, 3, Value(), low, process.Value(), pmd);
      p1, low1, m1 := Value(), low, process.Value();
      pte, created := NextTable(process, pmd, PmdIndex(va), path[..3]);
      NextStage(p, m, va, 3, p1, low1, m1, pmd, Value(), low, pte, created);
      NextKept(p, m, va, 3, p1, low1, m1, pmd, Value(), low, pte, created);
      LastSinks(p, m, va, p1, low1, m1, pmd, Value(), low, pte, created);
      StageTable(p, m, va, 4, Value(), low, process.Value(), pte);
    }

    /**
     Maps the page of `va` to the frame at `pa` and records it as a user page. The
     tables are the process's own if and only if there are free pages for the
     missing ones; otherwise one of them is page 0, and so is the last one.
     */
    method MapPage(process: AddressSpace, va: nat, pa: nat)
      requires Valid() && process.Valid() && Owning(Value(), process.Value())
      requires HoldsFrame(Value(), process.Value(), pa) && pa !in UserFrames(process.Value())
      requires process.nUserPages < MAX_PROCESS_PAGES
      requires process.nKernelPages + Missing(process.space, va) <= MAX_PROCESS_PAGES
      modifies this`ram, this`low, memoryPages, process, process.userPages, process.kernelPages
      ensures Valid() && process.Valid()
      ensures process.Value().users == old(process.Value()).users + [UserPage(pa, va)]
      ensures 0 in process.Value().tables <==> |FreePages(old(Value()))| < Missing(old(process.space), va)
      ensures |FreePages(old(Value()))| >= Missing(old(process.space), va) ==>
                PageMapped(old(Value()), old(process.Value()), Value(), process.Value(), va, pa)
      ensures |FreePages(old(Value()))| >= Missing(old(process.space), va) ==>
                MappedTo(Value(), process.Value().pgd, va, pa)
      ensures 0 in process.Value().tables ==> EntersFrame(low, va, pa)
      ensures 0 in process.Value().tables ==>
                && FreePages(Value()) == {}
                && OnPageZero(old(Value()), old(process.Value()), Value(), low, va, pa)
      ensures |FreePages(old(Value()))| + 1 == Missing(old(process.Value()).space, va) ==>
                SunkAt(Value(), process.Value(), va)
    {
      hide Stage, OnTheWay, Rooted, InPool, Used, At, FreePages, PgdIndex, PudIndex, PmdIndex, PteIndex, Missing,
        HoldsFrame, UserFrames, Written, EntryAt, PageMapped, Kept, SunkAt, MappedTo, EntersFrame;
      ghost var p0, m0 := Value(), process.Value();
      FrameBound(p0, m0, pa);
      var pte := TablesFor(process, va);
      ghost var p1, m1 := Value(), process.Value();
      StageEnd(p0, m0, va, p1, low, m1, pte);
      WriteEntry(pte, PteIndex(va), pa + FRAME_FLAGS);
      if pte != 0 {
        process.space := process.space.(frames := process.space.frames[PathOf(va) := pa]);
        FrameJoined(p0, m0, va, pa, p1, m1, pte, Value());
      } else {
        LowEntered(low, va, pa);
      }
      process.AddUserPage(UserPage(pa, va));
      if pte != 0 {
        PageTranslated(p0, m0, Value(), process.Value(), va, pa);
      }
      if |FreePages(p0)| + 1 == Missing(m0.space, va) {
        SunkSame(p1, m1, process.Value(), va);
      }
    }

    /** A cleared page mapped at `va`, or 0 when no page is free. */
    method AllocateUserPage(process: AddressSpace, va: nat) returns (address: nat)
      requires Valid() && process.Valid()
      requires FreePages(Value()) != {} ==>
                 && Owning(Value(), process.Value()) && process.nUserPages < MAX_PROCESS_PAGES
                 && process.nKernelPages + Missing(process.space, va) <= MAX_PROCESS_PAGES
      modifies this`ram, this`low, memoryPages, process, process.userPages, process.kernelPages
      ensures Valid() && process.Valid()
      ensures address == 0 <==> FreePages(old(Value())) == {}
      ensures address == 0 ==> Value() == old(Value()) && process.Value() == old(process.Value())
      ensures address != 0 ==>
                address > VA_START && InPool(address - VA_START) && !Used(old(Value()), address - VA_START)
      ensures address != 0 ==>
                (0 in process.Value().tables <==> |FreePages(old(Value()))| <= Missing(old(process.space), va))
      ensures address != 0 && 0 in process.Value().tables ==>
                && FreePages(Value()) == {}
                && OnPageZero(old(Value()), old(process.Value()), Value(), low, va, address - VA_START)
      ensures address != 0 && |FreePages(old(Value()))| == Missing(old(process.space), va) ==>
                SunkAt(Value(), process.Value(), va)
      ensures address != 0 ==> process.Value().users == old(process.Value()).users + [UserPage(address - VA_START, va)]
      ensures |FreePages(old(Value()))| > Missing(old(process.space), va) ==>
                NewPage(old(Value()), old(process.Value()), Value(), process.Value(), va, address - VA_START)
    {
      hide Owning, InPool, Used, At, FreePages, Missing, HoldsFrame, UserFrames, Taken, NewPage, PageMapped, Kept,
        SunkAt, EntryAt, PteIndex;
      ghost var p0, m0 := Value(), process.Value();
      var page := GetFreePage();
      if page == 0 {
        return 0;
      }
      ghost var p1 := Value();
      PageTaken(p0, m0, page);
      MapPage(process, va, page);
      PageGained(p0, m0, va, page, Value(), process.Value());
      if 0 in process.Value().tables {
        TakenKept(p0, page, m0.space.tables.Values);
        KeptTrans(p0, p1, Value(), m0.space.tables.Values);
      }
      return page + VA_START;
    }

    method CopyPage(to: nat, from: nat)
      requires Valid() && InPool(to) && InPool(from)
      modifies this`ram
      ensures Valid() && Value() == Written(old(Value()), to, At(old(Value()), from))
    {
      ram := ram[Number(to) := ram[Number(from)]];
    }

    /**
     Gives an empty process a copy of every user page of another, as far as there are
     free pages. The tables of the copy stay clear of page 0 if and only if the
     source has no pages, no page is free or more than four are.
     */
    method CopyVirtualMemory(source: AddressSpace, destination: AddressSpace) returns (r: int)
      requires Valid() && source.Valid() && destination.Valid()
      requires source != destination && source.userPages != destination.userPages
               && source.kernelPages != destination.kernelPages
      requires Owning(Value(), source.Value()) && Settled(source.Value()) && Low(source.Value())
      requires destination.Value() == EmptyMm()
      modifies this`ram, this`low, memoryPages, destination, destination.userPages, destination.kernelPages
      ensures Valid() && destination.Valid() && source.Value() == old(source.Value())
      ensures Kept(old(Value()), Value(), {})
      ensures 0 in destination.Value().tables <==> |source.Value().users| > 0 && 0 < |FreePages(old(Value()))| <= 4
      ensures 0 !in destination.Value().tables ==>
                && Copied(old(Value()), source.Value(), Value(), destination.Value())
                && (r == 0 <==> |destination.Value().users| == |source.Value().users|)
                && (r == 0 <==> |source.Value().users| == 0 || |FreePages(old(Value()))| >= |source.Value().users| + 4)
                && (r != 0 ==> FreePages(Value()) == {})
      ensures r == 0 || r == -1
    {
      hide Settled, Low, Owning, InPool, Used, At, FreePages, Missing, Written, PathOf, NewPage, Copied, CopyOf, Kept,
        SunkAt, OnPageZero, UserFrames, Moves, CopiedTo;
      ghost var p0, m := Value(), source.Value();
      NothingCopied(p0, m);
      NothingKept(p0, {});
      ghost var lost := false;
      var i := 0;
      while i < source.nUserPages
        invariant i <= source.nUserPages
        invariant Valid() && destination.Valid() && source.Value() == m
        invariant lost <==> 0 in destination.Value().tables
        invariant Kept(p0, Value(), {})
        invariant lost ==> i > 0 && FreePages(Value()) == {} && 0 < |FreePages(p0)| <= 4
        invariant !lost ==> CopiedTo(p0, m, Value(), destination.Value(), i)
        invariant !lost && i > 0 ==> |FreePages(p0)| > 4
        invariant i == 0 ==> Value() == p0 && destination.Value() == EmptyMm()
      {
        ghost var p1, n := Value(), destination.Value();
        if !lost {
          CopyReady(p0, m, p1, n, i);
        }
        UserInPool(p0, m, i);
        EmptyMissing(m.users[i].virtual);
        var address := AllocateUserPage(destination, source.userPages[i].virtual);
        if address == 0 {
          if !lost {
            CopyEnds(p0, m, p1, n, i);
          }
          return -1;
        }
        lost := 0 in destination.Value().tables;
        ghost var p2, o := Value(), destination.Value();
        CopyPage(address - VA_START, source.userPages[i].physical);
        CopyKeepsFree(p2, address - VA_START, m.users[i].physical);
        if !lost {
          CopyTurn(p0, m, p1, n, i, p2, o, address - VA_START);
          CopiedKept(p0, m, Value(), o, i + 1);
        } else {
          FirstLostKept(p1, p2, low, m.users[i].virtual, address - VA_START, At(p2, m.users[i].physical));
        }
        i := i + 1;
      }
      if !lost {
        CopyEnds(p0, m, Value(), destination.Value(), i);
      }
      return 0;
    }

    /** Stores the first bytes of a page. */
    method CopyBytes(to: nat, bytes: seq<Byte>)
      requires Valid() && InPool(to) && |bytes| <= PAGE_SIZE
      modifies this`ram
      ensures Valid() && Value() == Written(old(Value()), to, bytes + At(old(Value()), to)[|bytes|..])
    {
      ram := ram[Number(to) := bytes + ram[Number(to)][|bytes|..]];
    }

    /** What a store of the running process does to one of its frames. */
    method SetByte(frame: nat, offset: nat, value: Byte)
      requires Valid() && InPool(frame) && offset < PAGE_SIZE
      modifies this`ram
      ensures Valid() && Value() == Written(old(Value()), frame, At(old(Value()), frame)[offset := value])
    {
      ram := ram[Number(frame) := ram[Number(frame)][offset := value]];
    }

    /** A new page at `va` that starts with the given bytes, or 0 when no page is free. */
    method LoadPage(process: AddressSpace, va: nat, bytes: seq<Byte>) returns (address: nat)
      requires Valid() && process.Valid() && |bytes| <= PAGE_SIZE
      requires FreePages(Value()) != {} ==>
                 && Owning(Value(), process.Value()) && process.nUserPages < MAX_PROCESS_PAGES
                 && process.nKernelPages + Missing(process.space, va) <= MAX_PROCESS_PAGES
      modifies this`ram, this`low, memoryPages, process, process.userPages, process.kernelPages
      ensures Valid() && process.Valid()
      ensures address == 0 <==> FreePages(old(Value())) == {}
      ensures address == 0 ==> Value() == old(Value()) && process.Value() == old(process.Value())
      ensures address != 0 && |FreePages(old(Value()))| <= Missing(old(process.space), va) ==>
                FreePages(Value()) == {} && Kept(old(Value()), Value(), old(process.Value()).space.tables.Values)
      ensures address != 0 && |FreePages(old(Value()))| > Missing(old(process.space), va) ==>
                && address > VA_START && Owning(Value(), process.Value())
                && Grown(old(Value()), old(process.Value()), Value(), process.Value(), va, address - VA_START,
                         Padded(bytes))
                && Moves(old(Value()), Value(), Owned(old(process.Value())), Owned(process.Value()))
    {
      hide Owning, InPool, Used, At, FreePages, Missing, Written, PathOf, NewPage, Moves, Grown, Kept, SunkAt,
        OnPageZero;
      ghost var p0, m := Value(), process.Value();
      address := AllocateUserPage(process, va);
      ghost var p1, n := Value(), process.Value();
      if address != 0 {
        CopyBytes(address - VA_START, bytes);
        PageFilled(p0, m, p1, n, va, address - VA_START, bytes, Value());
        if 0 in n.tables {
          LostKept(p0, m, p1, low, va, address - VA_START, bytes + At(p1, address - VA_START)[|bytes|..]);
        }
      }
    }

    /**
     Maps the sixteen pages of a process without user pages and loads the code into
     the first of them; returns how many it has mapped. The code does not ask whether
     a page was found: from the first one that is missing on nothing more is mapped,
     and the bytes meant for it would go to address 0.
     */
    method CopyCode(process: AddressSpace, buffer: seq<Byte>) returns (pages: nat)
      requires Valid() && process.Valid() && Owning(Value(), process.Value()) && Bare(process.Value())
      modifies this`ram, this`low, memoryPages, process, process.userPages, process.kernelPages
      ensures Valid() && process.Valid()
      ensures pages == 16 <==>
                |FreePages(old(Value()))| >= 16 + Missing(old(process.Value()).space, 0)
      ensures pages == 16 ==>
                CodeLoaded(old(Value()), old(process.Value()), Value(), process.Value(), buffer)
      ensures Kept(old(Value()), Value(), Owned(old(process.Value())))
      ensures pages != 16 ==> FreePages(Value()) == {}
    {
      hide Owning, Owned, InPool, Used, At, FreePages, Missing, PathOf, Prefixes, PrefixesTo, Moves, LoadedTo, Grown,
        CodeLoaded, Kept;
      ghost var p0, m := Value(), process.Value();
      LoadingStarts(p0, m, buffer);
      NothingKept(p0, Owned(m));
      ghost var lost := false;
      var copied := 0;
      pages := 0;
      while pages < 16
        invariant pages <= 16 && copied == if pages * PAGE_SIZE <= |buffer| then pages * PAGE_SIZE else |buffer|
        invariant Valid() && process.Valid()
        invariant lost ==> FreePages(Value()) == {} && 0 < pages < 16 && |FreePages(p0)| <= Missing(m.space, 0)
        invariant !lost ==> LoadingTo(p0, m, Value(), process.Value(), buffer, pages)
        invariant Kept(p0, Value(), Owned(m))
      {
        ghost var p1, n := Value(), process.Value();
        var size := 0;
        if copied < |buffer| {
          size := if |buffer| - copied > PAGE_SIZE then PAGE_SIZE else |buffer| - copied;
        }
        if !lost {
          LoadReady(p0, m, p1, n, buffer, pages);
        }
        var address := LoadPage(process, pages * PAGE_SIZE, buffer[copied..copied + size]);
        if address == 0 {
          return;
        }
        if !lost {
          lost := |FreePages(p1)| <= Missing(n.space, pages * PAGE_SIZE);
          if !lost {
            LoadTurn(p0, m, p1, n, Value(), process.Value(), buffer, pages, address - VA_START,
                     buffer[copied..copied + size]);
          }
          LoadedKept(p0, m, p1, n, Value(), process.Value(), buffer, pages, lost);
        }
        copied := copied + size;
        pages := pages + 1;
      }
      LoadEnds(p0, m, Value(), process.Value(), buffer);
    }

    /** Frees every user page of a process; its tables keep their entries until they are written again. */
    method FreeUserPages(process: AddressSpace)
      requires Valid() && process.Valid() && Owning(Value(), process.Value())
      modifies this`ram, memoryPages, process`nUserPages, process.userPages
      ensures Valid() && process.Valid() && Owning(Value(), process.Value())
      ensures process.Value() == old(process.Value()).(users := [])
      ensures Moves(old(Value()), Value(), Owned(old(process.Value())), Owned(process.Value()))
      ensures |FreePages(Value())| == |FreePages(old(Value()))| + old(process.nUserPages)
    {
      hide Rooted, Moves, InPool, Used, At, FreePages, HoldsFrame, Released, Owned, UserFrames;
      ghost var p0, m := Value(), process.Value();
      var n := process.nUserPages;
      MovesNothing(p0, Owned(m));
      assert m.(users := m.users[0..]) == m;
      var i := 0;
      while i < n
        invariant i <= n && process.nUserPages == n - i
        invariant Valid() && process.Valid()
        invariant process.Value() == m.(users := process.Value().users)
        invariant forall k :: i <= k < n ==> process.userPages[k] == m.users[k]
        invariant Owning(Value(), m.(users := m.users[i..]))
        invariant Moves(p0, Value(), Owned(m), Owned(m.(users := m.users[i..])))
        invariant |FreePages(Value())| == |FreePages(p0)| + i
      {
        ghost var p1, rest := Value(), m.(users := m.users[i..]);
        ghost var a := process.userPages[i].physical;
        FirstUserSets(p1, rest);
        FirstUserFreed(p1, rest);
        ReleasedMoves(p1, a);
        MovesFrame(p1, Released(p1, a), {a}, {}, Owned(rest) - {a});
        assert {} + (Owned(rest) - {a}) == Owned(rest) - {a};
        assert rest.(users := rest.users[1..]) == m.(users := m.users[i + 1..]);
        MovesCompose(p0, p1, Released(p1, a), Owned(m), Owned(rest), Owned(m.(users := m.users[i + 1..])));
        KernelAddress(a);
        var r := FreePage(process.userPages[i].physical + VA_START);
        process.nUserPages := process.nUserPages - 1;
        process.userPages[i] := UserPage(0, 0);
        i := i + 1;
      }
      assert process.Value().users == [] == m.users[n..];
    }

    /**
     The part of `exec` that replaces the pages of a process. Code of more than fifteen
     pages is refused. A process that has all its sixteen pages never runs out of memory.
     */
    method Exec(process: AddressSpace, buffer: seq<Byte>) returns (r: int, pages: nat)
      requires Valid() && process.Valid() && Owning(Value(), process.Value()) && FirstPages(process.Value())
      modifies this`ram, this`low, memoryPages, process, process.userPages, process.kernelPages
      ensures Valid() && process.Valid()
      ensures r == if |buffer| > 15 * 4096 then -1 else 0
      ensures r != 0 ==> Value() == old(Value()) && process.Value() == old(process.Value())
      ensures r == 0 ==>
                (pages == 16 <==>
                  |FreePages(old(Value()))| + |old(process.Value()).users| >= 16
                    + Missing(old(process.Value()).space, 0))
      ensures r == 0 && Program(old(process.Value())) ==> pages == 16
      ensures Kept(old(Value()), Value(), Owned(old(process.Value())))
      ensures r == 0 && pages != 16 ==> FreePages(Value()) == {}
      ensures r == 0 && pages == 16 ==>
                Executed(old(Value()), old(process.Value()), Value(), process.Value(), buffer)
    {
      hide Owning, InPool, Used, At, FreePages, Owned, Missing, Moves, CodeLoaded, Executed, FirstPages,
        Kept;
      ghost var p0, m := Value(), process.Value();
      NothingKept(p0, Owned(m));
      if |buffer| > 15 * PAGE_SIZE {
        return -1, 0;
      }
      BareAfter(m);
      ProgramNeedsNothing(p0, m);
      FreeUserPages(process);
      ghost var p1, n := Value(), process.Value();
      pages := CopyCode(process, buffer);
      KeptOnward(p0, p1, Value(), Owned(m), Owned(n), Owned(n));
      if pages == MAX_PROCESS_PAGES {
        ExecDone(p0, m, p1, n, Value(), process.Value(), buffer);
      }
      return 0, pages;
    }
  }
}
