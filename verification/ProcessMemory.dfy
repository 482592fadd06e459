/**
 The memory of all processes in place: the page allocator with the address spaces of
 the processes by pid. Each function of the kernel takes the step of `AddressSpaces`
 that its theorems over runs are about, and says exactly when it does.
 */
module ProcessMemory {
  import opened PageFrames
  import opened Mmu
  import opened PageTables
  import opened ProcessPages
  import opened PageZero
  import opened MemoryManager
  import opened AddressSpaces
  import opened SetSizes

  class Machine {
    const allocator: PageAllocator
    var processes: map<nat, AddressSpace>
    // pages handed out for other purposes
    ghost var kernel: set<nat>

    ghost function UserLists(): set<array<UserPage>>
      reads this
    {
      set i | i in processes :: processes[i].userPages
    }

    ghost function KernelLists(): set<array<nat>>
      reads this
    {
      set i | i in processes :: processes[i].kernelPages
    }

    ghost predicate Valid()
      reads this, allocator, processes.Values
    {
      && allocator.Valid()
      && (forall i :: i in processes ==> processes[i].Valid())
      && (forall i, j :: i in processes && j in processes && i != j ==>
            && processes[i] != processes[j] && processes[i].userPages != processes[j].userPages
            && processes[i].kernelPages != processes[j].kernelPages)
    }

    ghost function Value(): World
      requires Valid()
      reads this, allocator, allocator.memoryPages, processes.Values, UserLists(), KernelLists()
    {
      World(allocator.Value(), map i | i in processes :: processes[i].Value(), kernel)
    }

    lemma Parts()
      requires Valid()
      ensures allocator.Valid() && Value().pool == allocator.Value() && Value().kernel == kernel
      ensures Value().procs.Keys == processes.Keys
      ensures forall i :: i in processes ==> processes[i].Valid() && Value().procs[i] == processes[i].Value()
    {
    }

    constructor ()
      ensures Valid() && fresh(allocator) && fresh(allocator.memoryPages)
      ensures Value().procs == map[] && Value().kernel == {}
    {
      var a := new PageAllocator();
      allocator, processes, kernel := a, map[], {};
    }

    lemma Apart(i: nat)
      requires Valid() && i in processes
      ensures forall j :: j in processes && j != i ==>
                && processes[j] != processes[i] && processes[j].userPages != processes[i].userPages
                && processes[j].kernelPages != processes[i].kernelPages
    {
    }

    /** What one process does leaves the records of the others as they were. */
    twostate lemma OneChanged(i: nat)
      requires old(Valid()) && allocator.Valid() && i in processes && processes[i].Valid()
      requires unchanged(this) && i in old(processes)
      requires forall j :: j in processes && j != i ==>
                 unchanged(processes[j]) && unchanged(processes[j].userPages) && unchanged(processes[j].kernelPages)
      ensures Valid() && Value().procs == old(Value()).procs[i := processes[i].Value()]
      ensures Value().pool == allocator.Value() && Value().kernel == kernel
    {
      assert forall j :: j in processes && j != i ==> processes[j].Value() == old(processes[j].Value());
    }

    /** The records of the processes are as they were. */
    twostate lemma NoneChanged()
      requires old(Valid()) && allocator.Valid() && unchanged(this`processes)
      requires forall j :: j in processes ==>
                 unchanged(processes[j]) && unchanged(processes[j].userPages) && unchanged(processes[j].kernelPages)
      ensures Valid() && Value() == World(allocator.Value(), old(Value()).procs, kernel)
    {
      hide PageAllocator.Valid, PageAllocator.Value;
      assert forall j :: j in processes ==> processes[j].Value() == old(processes[j].Value());
    }

    /** A page for the kernel itself: a PCB, an open file, a buffer. */
    method AllocatePage() returns (address: nat)
      requires Valid()
      modifies this`kernel, allocator`ram, allocator.memoryPages
      ensures Valid()
      ensures address == 0 <==> FreePages(old(Value()).pool) == {}
      ensures address == 0 ==> Value() == old(Value())
      ensures address != 0 ==> address > VA_START && Value().kernel == old(kernel) + {address - VA_START}
      ensures address != 0 && old(Isolated(Value())) ==> Step(old(Value()), Kernel, Value())
    {
      hide InPool, Used, FreePages, Taken, Isolated, Step, Valid, Value, PageAllocator.Valid, PageAllocator.Value,
        AddressSpace.Valid, AddressSpace.Value;
      ghost var w := Value();
      Parts();
      address := allocator.AllocateKernelPage();
      if address != 0 {
        kernel := kernel + {address - VA_START};
        if Isolated(w) {
          KernelTakes(w, address - VA_START);
        }
      }
      NoneChanged();
    }

    /** A page of the kernel's own goes back. */
    method ReleasePage(address: nat)
      requires Valid() && Isolated(Value()) && address >= VA_START && address - VA_START in kernel
      modifies this`kernel, allocator`ram, allocator.memoryPages
      ensures Valid() && Step(old(Value()), Kernel, Value()) && Value().kernel == old(kernel) - {address - VA_START}
    {
      hide InPool, Used, FreePages, Released, Step, Isolated, Valid, Value, PageAllocator.Valid, PageAllocator.Value,
        AddressSpace.Valid, AddressSpace.Value;
      ghost var w := Value();
      Parts();
      KernelGives(w, address - VA_START);
      KernelAddress(address - VA_START);
      var r := allocator.FreePage(address);
      kernel := kernel - {address - VA_START};
      NoneChanged();
    }

    /** A process has come to the table. */
    twostate lemma OneAdded(i: nat)
      requires old(Valid()) && allocator.Valid() && i !in old(processes) && i in processes && processes[i].Valid()
      requires processes == old(processes)[i := processes[i]]
      requires forall j :: j in old(processes) ==>
                 && unchanged(processes[j]) && unchanged(processes[j].userPages) && unchanged(processes[j].kernelPages)
                 && processes[j] != processes[i] && processes[j].userPages != processes[i].userPages
                 && processes[j].kernelPages != processes[i].kernelPages
      ensures Valid() && Value() == World(allocator.Value(), old(Value()).procs[i := processes[i].Value()], kernel)
    {
      hide PageAllocator.Valid, PageAllocator.Value, AddressSpace.Valid, AddressSpace.Value;
      assert forall j :: j in old(processes) ==>
               processes[j].Valid() && processes[j].Value() == old(processes[j].Value());
      assert Valid();
      var was, now := old(Value()).procs, Value().procs;
      hide Valid;
      assert forall j :: j in now ==> now[j] == was[i := processes[i].Value()][j];
    }

    /** A kernel thread has no pages of its own. */
    method StartThread(i: nat)
      requires Valid() && i !in processes
      modifies this`processes
      ensures Valid() && Step(old(Value()), Thread(i), Value())
    {
      hide Valid, Value, PageAllocator.Valid, PageAllocator.Value, AddressSpace.Valid, AddressSpace.Value;
      Parts();
      var process := new AddressSpace();
      processes := processes[i := process];
      OneAdded(i);
    }

    /**
     The part of `copy_process` that gives a child the memory of its parent; whether
     all of it was copied is not asked. The processes stay isolated if and only if
     a page was found for every table, or no page at all.
     */
    method CopyMemory(i: nat, j: nat)
      requires Valid() && Isolated(Value()) && i in processes && j !in processes
      modifies this`processes, allocator`ram, allocator`low, allocator.memoryPages
      ensures Valid() && i in old(Value()).procs
      ensures Isolated(Value()) <==> RoomToFork(old(Value()), i)
      ensures OthersRead(old(Value()), Value(), j)
      ensures RoomToFork(old(Value()), i) ==> Step(old(Value()), Fork(i, j), Value())
    {
      hide Valid, Value, Step, Owning, Copied, FreePages, Settled, Low, FirstPages, Isolated, PageAllocator.Valid,
        PageAllocator.Value, AddressSpace.Valid, AddressSpace.Value, Kept, OthersRead, Owned;
      ghost var w := Value();
      Parts();
      ProcessOf(w, i);
      var child := new AddressSpace();
      var r := allocator.CopyVirtualMemory(processes[i], child);
      ghost var q, n := allocator.Value(), child.Value();
      processes := processes[j := child];
      OneAdded(j);
      KeptReads(w, Value(), j, {});
      if 0 in n.tables {
        LostIsNotIsolated(Value(), j);
      } else {
        ForkSteps(w, i, j, q, n);
      }
    }

    /** `move_to_user_mode`: the code of the first program. */
    method LoadProgram(i: nat, code: seq<Byte>) returns (pages: nat)
      requires Valid() && Isolated(Value()) && i in processes && Bare(Value().procs[i])
      modifies allocator`ram, allocator`low, allocator.memoryPages
      modifies processes[i], processes[i].userPages, processes[i].kernelPages
      ensures Valid() && i in old(Value()).procs
      ensures pages == MAX_PROCESS_PAGES <==>
              |FreePages(old(Value()).pool)| >= MAX_PROCESS_PAGES + Missing(old(Value()).procs[i].space, 0)
      ensures pages == MAX_PROCESS_PAGES ==> Step(old(Value()), Load(i, code), Value())
      ensures OthersRead(old(Value()), Value(), i)
      ensures pages != MAX_PROCESS_PAGES ==> FreePages(Value().pool) == {}
    {
      hide Valid, Value, Step, Owning, FreePages, Bare, FirstPages, CodeLoaded, Missing, Isolated,
        PageAllocator.Valid, PageAllocator.Value, AddressSpace.Valid, AddressSpace.Value, Kept, OthersRead, Owned;
      ghost var w := Value();
      Parts();
      ProcessOf(w, i);
      Apart(i);
      var process := processes[i];
      pages := allocator.CopyCode(process, code);
      OneChanged(i);
      Parts();
      OwnPages(w, i);
      KeptReads(w, Value(), i, Owned(w.procs[i]));
      if pages == MAX_PROCESS_PAGES {
        LoadSteps(w, i, code, Value());
      }
    }

    /** `exec`. */
    method ExecProgram(i: nat, code: seq<Byte>) returns (r: int)
      requires Valid() && Isolated(Value()) && i in processes
      modifies allocator`ram, allocator`low, allocator.memoryPages
      modifies processes[i], processes[i].userPages, processes[i].kernelPages
      ensures Valid() && i in old(Value()).procs
      ensures r == if |code| > 15 * PAGE_SIZE then -1 else 0
      ensures r != 0 ==> Value() == old(Value())
      ensures r == 0 && RoomToExec(old(Value()), i) ==> Step(old(Value()), Exec(i, code), Value())
      ensures OthersRead(old(Value()), Value(), i)
      ensures r == 0 && !RoomToExec(old(Value()), i) ==> FreePages(Value().pool) == {}
      ensures Program(old(Value()).procs[i]) ==> RoomToExec(old(Value()), i)
    {
      hide Valid, Value, Step, Owning, FreePages, FirstPages, Executed, Missing, Isolated, PageAllocator.Valid,
        PageAllocator.Value, AddressSpace.Valid, AddressSpace.Value, Kept, OthersRead, Owned;
      ghost var w := Value();
      Parts();
      ProcessOf(w, i);
      ProgramNeedsNothing(w.pool, w.procs[i]);
      var pages;
      Apart(i);
      var process := processes[i];
      r, pages := allocator.Exec(process, code);
      OneChanged(i);
      Parts();
      OwnPages(w, i);
      KeptReads(w, Value(), i, Owned(w.procs[i]));
      if r == 0 && pages == MAX_PROCESS_PAGES {
        ExecSteps(w, i, code, Value());
      }
      if r != 0 {
        assert w.procs[i := w.procs[i]] == w.procs;
      }
    }

    /** A store of the running process; `frame` is what the hardware's walk finds for the address. */
    method StoreByte(i: nat, va: nat, value: Byte, frame: nat)
      requires Valid() && Isolated(Value()) && i in processes && va < VA_SIZE
      requires Walk(Value().pool, Value().procs[i].pgd, va) == Some(frame) && InPool(frame)
      modifies allocator`ram
      ensures Valid() && Step(old(Value()), Store(i, va, value), Value())
    {
      hide Valid, Value, Walk, InPool, Isolated, PageAllocator.Valid, PageAllocator.Value, AddressSpace.Valid,
        AddressSpace.Value;
      Parts();
      allocator.SetByte(frame, va % PAGE_SIZE, value);
      NoneChanged();
    }
  }

  lemma KernelTakes(w: World, a: nat)
    requires Isolated(w) && InPool(a) && !Used(w.pool, a)
    ensures Step(w, Kernel, World(Taken(w.pool, a), w.procs, w.kernel + {a}))
  {
    hide InPool, Used, At, Taken, Moves, Sound, Owned;
    var q := Taken(w.pool, a);
    TakenMoves(w.pool, a);
    MovesFrame(w.pool, q, {}, {a}, w.kernel);
    assert {} + w.kernel == w.kernel && {a} + w.kernel == w.kernel + {a};
    forall b | b in w.kernel + {a}
      ensures InPool(b) && Used(q, b)
    {
      TakenUsed(w.pool, a, b);
    }
  }

  lemma TakenUsed(p: Pool, a: nat, b: nat)
    requires InPool(a) && InPool(b)
    ensures Used(Taken(p, a), b) == (Used(p, b) || a == b)
  {
  }

  lemma KernelGives(w: World, a: nat)
    requires Isolated(w) && a in w.kernel
    ensures InPool(a) && Used(w.pool, a)
    ensures Step(w, Kernel, World(Released(w.pool, a), w.procs, w.kernel - {a}))
  {
    hide InPool, Used, At, Released, Moves, Sound, Owned;
    var q := Released(w.pool, a);
    ReleasedMoves(w.pool, a);
    MovesFrame(w.pool, q, {a}, {}, w.kernel - {a});
    assert {a} + (w.kernel - {a}) == w.kernel && {} + (w.kernel - {a}) == w.kernel - {a};
    forall b | b in w.kernel - {a}
      ensures InPool(b) && Used(q, b)
    {
      ReleasedUsed(w.pool, a, b);
    }
  }

  lemma ReleasedUsed(p: Pool, a: nat, b: nat)
    requires InPool(a) && InPool(b) && a != b
    ensures Used(Released(p, a), b) == Used(p, b)
  {
  }

  lemma OwnPages(w: World, i: nat)
    requires Isolated(w) && i in w.procs
    ensures forall j :: j in w.procs && j != i ==> Owned(w.procs[j]) !! Owned(w.procs[i])
  {
    hide Owned, Sound;
  }

  /** What is known of one process of an isolated world. */
  lemma ProcessOf(w: World, i: nat)
    requires Isolated(w) && i in w.procs
    ensures Owning(w.pool, w.procs[i]) && FirstPages(w.procs[i]) && Settled(w.procs[i]) && Low(w.procs[i])
    ensures Owned(w.procs[i]) !! w.kernel && |w.procs[i].users| <= MAX_PROCESS_PAGES
  {
    hide Owning, Settled, Low, Owned;
    assert Sound(w.pool, w.procs[i]);
  }

  /** A fork that found its tables is a step of the world, and keeps it isolated. */
  lemma ForkSteps(w: World, i: nat, j: nat, q: Pool, n: Mm)
    requires Isolated(w) && i in w.procs && j !in w.procs && RoomToFork(w, i)
    requires Copied(w.pool, w.procs[i], q, n)
    requires |n.users| == |w.procs[i].users| <==> RoomForAll(w, i)
    ensures var v := World(q, w.procs[j := n], w.kernel); Step(w, Fork(i, j), v) && Isolated(v)
  {
    hide Owning, Moves, CopyOf, FreePages, Isolated, RoomForAll, RoomToFork;
    var v := World(q, w.procs[j := n], w.kernel);
    EmptyOwns(w.pool);
    assert Step(w, Fork(i, j), v);
    StepIsolated(w, Fork(i, j), v);
  }

  lemma LoadSteps(w: World, i: nat, code: seq<Byte>, v: World)
    requires i in w.procs && i in v.procs && Bare(w.procs[i]) && v == World(v.pool, w.procs[i := v.procs[i]], w.kernel)
    requires CodeLoaded(w.pool, w.procs[i], v.pool, v.procs[i], code)
    requires |FreePages(w.pool)| >= MAX_PROCESS_PAGES + Missing(w.procs[i].space, 0)
    ensures Step(w, Load(i, code), v)
  {
    hide Owning, Moves, FreePages, Loaded, Bare, Missing;
  }

  lemma ExecSteps(w: World, i: nat, code: seq<Byte>, v: World)
    requires i in w.procs && i in v.procs && v == World(v.pool, w.procs[i := v.procs[i]], w.kernel)
    requires Executed(w.pool, w.procs[i], v.pool, v.procs[i], code) && |code| <= 15 * PAGE_SIZE && RoomToExec(w, i)
    ensures Step(w, Exec(i, code), v)
  {
    hide Owning, Moves, FreePages, Loaded, Missing;
  }

  // --------------------------------------------------- running out of pages

  /** An input on which a table lands on page 0: one page is free, and a process asks for its first page. */
  method LastPage() returns (address: nat, tables: seq<nat>)
    ensures address != 0 && 0 in tables
  {
    hide FreePages, Taken, InPool, Used;
    var allocator := new PageAllocator();
    AllFree(allocator.Value());
    var i := 1;
    while i < N_PAGES
      invariant 1 <= i <= N_PAGES && allocator.Valid() && fresh(allocator) && fresh(allocator.memoryPages)
      invariant |FreePages(allocator.Value())| == N_PAGES + 1 - i
    {
      ghost var p := allocator.Value();
      var page := allocator.GetFreePage();
      TakenMoves(p, page);
      i := i + 1;
    }
    var process := new AddressSpace();
    EmptyOwns(allocator.Value());
    EmptyMissing(0);
    address := allocator.AllocateUserPage(process, 0);
    tables := process.kernelPages[..process.nKernelPages];
  }

  /** An allocator with four free pages, and a cleared page that the kernel holds. */
  method FourLeft() returns (allocator: PageAllocator, page: nat)
    ensures allocator.Valid() && fresh(allocator) && fresh(allocator.memoryPages)
    ensures |FreePages(allocator.Value())| == 4
    ensures InPool(page) && Used(allocator.Value(), page) && At(allocator.Value(), page) == ZeroPage()
  {
    hide FreePages, Taken, InPool, Used, At, ZeroPage;
    allocator := new PageAllocator();
    AllFree(allocator.Value());
    page := 0;
    var i := 4;
    while i < N_PAGES
      invariant 4 <= i <= N_PAGES && allocator.Valid() && fresh(allocator) && fresh(allocator.memoryPages)
      invariant |FreePages(allocator.Value())| == N_PAGES + 4 - i
      invariant i > 4 ==> InPool(page) && Used(allocator.Value(), page) && At(allocator.Value(), page) == ZeroPage()
    {
      ghost var p := allocator.Value();
      page := allocator.GetFreePage();
      TakenMoves(p, page);
      TakenClears(p, page);
      TakenUsed(p, page, page);
      i := i + 1;
    }
  }

  /** A process that maps nothing maps a page while one to four are free. */
  method FirstPage(allocator: PageAllocator, ghost free: nat) returns (process: AddressSpace)
    requires allocator.Valid() && |FreePages(allocator.Value())| == free && 1 <= free <= 4
    modifies allocator`ram, allocator`low, allocator.memoryPages
    ensures allocator.Valid() && process.Valid() && fresh(process) && fresh(process.userPages)
    ensures |process.Value().users| == 1 && process.Value().users[0].virtual == 0
    ensures var frame := process.Value().users[0].physical;
            && InPool(frame) && !Used(old(allocator.Value()), frame)
            && OnPageZero(old(allocator.Value()), EmptyMm(), allocator.Value(), allocator.low, 0, frame)
    ensures free == 4 ==> SunkAt(allocator.Value(), process.Value(), 0)
    ensures FreePages(allocator.Value()) == {}
  {
    hide FreePages, InPool, Used, SunkAt, OnPageZero, Owning, Missing;
    process := new AddressSpace();
    EmptyOwns(allocator.Value());
    EmptyMissing(0);
    var address := allocator.AllocateUserPage(process, 0);
  }

  /**
   An input on which two processes share page 0 and one reads the frame of the other:
   four pages are free when the first process asks for its first page, and the kernel
   gives a page back before the second process does.
   */
  method SharePageZero() returns (allocator: PageAllocator, first: AddressSpace, second: AddressSpace)
    ensures allocator.Valid() && first.Valid() && second.Valid()
    ensures |first.Value().users| == 1 && |second.Value().users| == 1
    ensures first.Value().users[0].virtual == second.Value().users[0].virtual == 0
    ensures first.Value().users[0].physical != second.Value().users[0].physical
    ensures Translate(allocator.Value(), allocator.low, first.pgd, 0) == Some(second.Value().users[0].physical)
  {
    hide FreePages, InPool, Used, At, SunkAt, OnPageZero, Translate, ZeroPage, Released;
    var page;
    allocator, page := FourLeft();
    ghost var p0 := allocator.Value();
    first := FirstPage(allocator, 4);
    ghost var p1 := allocator.Value();
    KernelAddress(page);
    var r := allocator.FreePage(page + VA_START);
    OnlyFree(p0, p1, page, allocator.low, first.Value().users[0].physical);
    second := FirstPage(allocator, 1);
    Shared(p1, first.Value(), page, allocator.Value(), allocator.low, 0, second.Value().users[0].physical);
  }

  /** The page that was given back is the only free one. */
  lemma OnlyFree(p: Pool, q: Pool, page: nat, low: Page, frame: nat)
    requires InPool(page) && Used(p, page) && At(p, page) == ZeroPage()
    requires InPool(frame) && !Used(p, frame) && OnPageZero(p, EmptyMm(), q, low, 0, frame) && FreePages(q) == {}
    ensures Used(q, page) && At(q, page) == ZeroPage()
    ensures |FreePages(Released(q, page))| == 1
    ensures forall a :: InPool(a) && !Used(Released(q, page), a) ==> a == page
    ensures page != frame
  {
    hide ZeroPage, EntryAt, Released, FreePages;
    ReleasedMoves(q, page);
    forall a | InPool(a) && a != page
      ensures Used(Released(q, page), a)
    {
      if !Used(q, a) {
        FreeHas(q, a);
      }
      ReleasedUsed(q, page, a);
    }
  }

  lemma AllFree(p: Pool)
    requires forall a :: InPool(a) ==> !Used(p, a)
    ensures |FreePages(p)| == N_PAGES == 257024
  {
    forall i: nat | i < N_PAGES
      ensures !p.used[i]
    {
      assert !Used(p, Address(i));
    }
    BelowSize(N_PAGES);
    assert FreePages(p) == Below(N_PAGES);
  }
}
