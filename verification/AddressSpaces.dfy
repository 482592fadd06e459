/**
 Every run of processes that start, fork, load programs and write to their memory.
 A step is what the methods of `MemoryManager` promise; the theorems are about what
 each process can read.
 */
module AddressSpaces {
  import opened PageFrames
  import opened Mmu
  import opened PageTables
  import opened ProcessPages
  import opened PageZero

  /** `kernel` holds the pages handed out for other purposes: PCBs, open files, buffers. */
  datatype World = World(pool: Pool, procs: map<nat, Mm>, kernel: set<nat>)

  datatype Event =
    | Kernel
    | Thread(pid: nat)
    | Fork(parent: nat, child: nat)
    | Load(pid: nat, code: seq<Byte>)
    | Exec(pid: nat, code: seq<Byte>)
    | Store(pid: nat, va: nat, value: Byte)

  /** What the process reads at a virtual address, through its tables in memory. */
  function ByteAt(p: Pool, m: Mm, va: nat): Option<Byte> {
    var frame := Walk(p, m.pgd, va);
    if frame.Some? && InPool(frame.value) then Some(At(p, frame.value)[va % 4096]) else None
  }

  ghost predicate Sound(p: Pool, m: Mm) {
    Owning(p, m) && FirstPages(m)
  }

  ghost predicate Isolated(w: World) {
    && (forall i :: i in w.procs ==> Sound(w.pool, w.procs[i]) && Owned(w.procs[i]) !! w.kernel)
    && (forall i, j :: i in w.procs && j in w.procs && i != j ==> Owned(w.procs[i]) !! Owned(w.procs[j]))
    && (forall a :: a in w.kernel ==> InPool(a) && Used(w.pool, a))
  }

  /** One process acts: its own pages change hands, everything else stays. */
  ghost predicate Acts(w: World, v: World, i: nat, m: Mm) {
    && v.kernel == w.kernel
    && i in v.procs && v.procs == w.procs[i := v.procs[i]]
    && Moves(w.pool, v.pool, Owned(m), Owned(v.procs[i]))
    && Owning(v.pool, v.procs[i])
  }

  /** A fork finds a page for each table it needs, or no page at all. */
  ghost predicate RoomToFork(w: World, i: nat)
    requires i in w.procs
  {
    w.procs[i].users == [] || |FreePages(w.pool)| == 0 || |FreePages(w.pool)| > 4
  }

  /** A fork finds a page for each page of the parent. */
  ghost predicate RoomForAll(w: World, i: nat)
    requires i in w.procs
  {
    w.procs[i].users == [] || |FreePages(w.pool)| >= |w.procs[i].users| + 4
  }

  /** An `exec` finds sixteen pages once its own are free, and one for each missing table. */
  ghost predicate RoomToExec(w: World, i: nat)
    requires i in w.procs
  {
    |FreePages(w.pool)| + |w.procs[i].users| >= MAX_PROCESS_PAGES + Missing(w.procs[i].space, 0)
  }

  /**
   One event, when there is room for it. `ProcessMemory.Machine` shows that the kernel's
   functions take such steps exactly then.
   */
  ghost predicate Step(w: World, e: Event, v: World) {
    match e
    case Kernel =>
      && v.procs == w.procs && Moves(w.pool, v.pool, w.kernel, v.kernel)
      && forall a :: a in v.kernel ==> InPool(a) && Used(v.pool, a)
    case Thread(i) =>
      i !in w.procs && v == w.(procs := w.procs[i := EmptyMm()])
    case Fork(i, j) =>
      && i in w.procs && j !in w.procs && RoomToFork(w, i) && Acts(w, v, j, EmptyMm())
      && CopyOf(w.pool, w.procs[i], v.pool, v.procs[j], |v.procs[j].users|)
      && (|v.procs[j].users| == |w.procs[i].users| <==> RoomForAll(w, i))
    case Load(i, code) =>
      && i in w.procs && Bare(w.procs[i]) && |FreePages(w.pool)| >= MAX_PROCESS_PAGES + Missing(w.procs[i].space, 0)
      && Acts(w, v, i, w.procs[i]) && Loaded(v.pool, v.procs[i], code)
    case Exec(i, code) =>
      && i in w.procs && |code| <= 15 * PAGE_SIZE && RoomToExec(w, i)
      && Acts(w, v, i, w.procs[i]) && Loaded(v.pool, v.procs[i], code)
    case Store(i, va, value) =>
      && i in w.procs && va < VA_SIZE && ByteAt(w.pool, w.procs[i], va).Some?
      && var a := Walk(w.pool, w.procs[i].pgd, va).value;
         v == w.(pool := Written(w.pool, a, At(w.pool, a)[va % PAGE_SIZE := value]))
  }

  /** The process that an event runs in or creates. */
  function Actor(e: Event): Option<nat> {
    match e
    case Kernel => None
    case Thread(i) => Some(i)
    case Fork(_, j) => Some(j)
    case Load(i, _) => Some(i)
    case Exec(i, _) => Some(i)
    case Store(i, _, _) => Some(i)
  }

  ghost predicate Run(worlds: seq<World>, events: seq<Event>) {
    && |worlds| == |events| + 1
    && worlds[0].procs == map[] && worlds[0].kernel == {}
    && forall i :: 0 <= i < |events| ==> Step(worlds[i], events[i], worlds[i + 1])
  }

  // ------------------------------------------------------------ reading

  lemma ReadsFrame(p: Pool, m: Mm, va: nat)
    requires Owning(p, m)
    ensures PathOf(va) in m.space.frames ==>
              && InPool(m.space.frames[PathOf(va)])
              && ByteAt(p, m, va) == Some(At(p, m.space.frames[PathOf(va)])[va % PAGE_SIZE])
    ensures PathOf(va) !in m.space.frames ==> ByteAt(p, m, va) == None
  {
    hide PathOf, Walk, InPool, At;
    WalkFinds(p, m.pgd, m.space, va);
  }

  /** After `map_page` the walk finds the new frame at its page, and what it found before at every other page. */
  lemma MapPageWalk(p: Pool, m: Mm, q: Pool, n: Mm, va: nat, pa: nat)
    requires Owning(p, m) && va < VA_SIZE && PageMapped(p, m, q, n, va, pa)
    ensures forall x :: 0 <= x < 0x1_0000_0000_0000 ==>
              Walk(q, n.pgd, x) == if x / 4096 == va / 4096 then Some(pa) else Walk(p, m.pgd, x)
  {
    hide Walk, PageMapped;
    forall x | 0 <= x < VA_SIZE
      ensures Walk(q, n.pgd, x) == if x / PAGE_SIZE == va / PAGE_SIZE then Some(pa) else Walk(p, m.pgd, x)
    {
      MapPageWalkAt(p, m, q, n, va, pa, x);
    }
  }

  lemma MapPageWalkAt(p: Pool, m: Mm, q: Pool, n: Mm, va: nat, pa: nat, x: nat)
    requires Owning(p, m) && va < VA_SIZE && PageMapped(p, m, q, n, va, pa) && x < VA_SIZE
    ensures Walk(q, n.pgd, x) == if x / PAGE_SIZE == va / PAGE_SIZE then Some(pa) else Walk(p, m.pgd, x)
  {
    hide PathOf, Walk, Refines, Moves, Missing, Prefixes, FreePages;
    WalkFinds(p, m.pgd, m.space, x);
    WalkFinds(q, n.pgd, n.space, x);
    SamePage(x, va);
  }

  /** A process whose pages nobody touches reads what it read before. */
  lemma ReadsKept(p: Pool, q: Pool, m: Mm)
    requires Owning(p, m) && Owning(q, m) && Settled(m) && SameFrames(p, q, m)
    ensures forall va :: 0 <= va < VA_SIZE ==> ByteAt(q, m, va) == ByteAt(p, m, va)
  {
    hide PathOf, Walk, ByteAt, InPool, At;
    forall va | 0 <= va < VA_SIZE
      ensures ByteAt(q, m, va) == ByteAt(p, m, va)
    {
      ReadsFrame(p, m, va);
      ReadsFrame(q, m, va);
      if PathOf(va) in m.space.frames {
        assert MappedBy(m, PathOf(va));
        var k :| 0 <= k < |m.users| && PathOf(m.users[k].virtual) == PathOf(va);
        assert Maps(m, k) && SameBytes(p, q, m.users[k].physical);
      }
    }
  }

  lemma MappedIff(m: Mm, path: Path)
    requires Settled(m)
    ensures path in m.space.frames <==> MappedBy(m, path)
  {
    hide PathOf;
    if MappedBy(m, path) {
      var k :| 0 <= k < |m.users| && PathOf(m.users[k].virtual) == path;
      assert Maps(m, k);
    }
  }

  /** Reading after a fork: the child sees what the parent saw in the pages that were copied, and nothing else. */
  lemma ForkReads(p: Pool, m: Mm, q: Pool, n: Mm)
    requires Owning(p, m) && FirstPages(m) && Owning(q, n)
    requires CopyOf(p, m, q, n, |n.users|)
    ensures forall va :: 0 <= va < VA_SIZE ==>
              ByteAt(q, n, va) == if va / PAGE_SIZE < |n.users| then ByteAt(p, m, va) else None
    ensures forall va :: 0 <= va < VA_SIZE && va / PAGE_SIZE >= |m.users| ==> ByteAt(p, m, va) == None
  {
    hide PathOf, Walk, ByteAt, InPool, At, Low, Owning, Maps, Settled;
    forall k | 0 <= k < |n.users|
      ensures n.users[k].virtual == k * PAGE_SIZE
    {
      assert SamePageAt(p, m.users[k], q, n.users[k]);
    }
    forall va | 0 <= va < VA_SIZE
      ensures ByteAt(q, n, va) == if va / PAGE_SIZE < |n.users| then ByteAt(p, m, va) else None
      ensures va / PAGE_SIZE >= |m.users| ==> ByteAt(p, m, va) == None
    {
      ReadsFrame(p, m, va);
      ReadsFrame(q, n, va);
      MappedPages(m, va);
      MappedPages(n, va);
      if va / PAGE_SIZE < |n.users| {
        var k := va / PAGE_SIZE;
        SamePage(va, k * PAGE_SIZE);
        FrameOf(m, k);
        FrameOf(n, k);
        assert SamePageAt(p, m.users[k], q, n.users[k]);
      }
    }
  }

  /** A process that has the first pages of its address space has exactly those mapped. */
  lemma MappedPages(m: Mm, va: nat)
    requires Settled(m) && |m.users| <= MAX_PROCESS_PAGES && va < VA_SIZE
    requires forall k :: 0 <= k < |m.users| ==> m.users[k].virtual == k * PAGE_SIZE
    ensures PathOf(va) in m.space.frames <==> va / PAGE_SIZE < |m.users|
  {
    hide PathOf, Settled;
    MappedIff(m, PathOf(va));
    forall k | 0 <= k < |m.users|
      ensures PathOf(m.users[k].virtual) == PathOf(va) <==> k == va / PAGE_SIZE
    {
      SamePage(va, k * PAGE_SIZE);
    }
    if va / PAGE_SIZE < |m.users| {
      assert PathOf(m.users[va / PAGE_SIZE].virtual) == PathOf(va);
    }
  }

  lemma FrameOf(m: Mm, k: nat)
    requires Settled(m) && k < |m.users|
    ensures PathOf(m.users[k].virtual) in m.space.frames
    ensures m.space.frames[PathOf(m.users[k].virtual)] == m.users[k].physical
  {
    assert Maps(m, k);
  }

  lemma CodeByte(code: seq<Byte>, va: nat)
    ensures CodePage(code, va / PAGE_SIZE)[va % PAGE_SIZE] == if va < |code| then code[va] else 0
  {
  }

  /** A program that has been loaded reads as its code, then zeros up to the end of page 16, then nothing. */
  lemma LoadedReads(p: Pool, m: Mm, code: seq<Byte>)
    requires Owning(p, m) && Loaded(p, m, code)
    ensures forall va :: 0 <= va < VA_SIZE ==>
              ByteAt(p, m, va) ==
              if va < MAX_PROCESS_PAGES * PAGE_SIZE then Some(if va < |code| then code[va] else 0) else None
  {
    hide PathOf, Walk, ByteAt, InPool, At, Low, Owning, Maps, Settled, CodePage;
    forall va | 0 <= va < VA_SIZE
      ensures ByteAt(p, m, va) ==
              if va < MAX_PROCESS_PAGES * PAGE_SIZE then Some(if va < |code| then code[va] else 0) else None
    {
      ReadsFrame(p, m, va);
      MappedIff(m, PathOf(va));
      if va < MAX_PROCESS_PAGES * PAGE_SIZE {
        var k := va / PAGE_SIZE;
        SamePage(va, k * PAGE_SIZE);
        assert CodeAt(p, m.users[k], code, k);
        FrameOf(m, k);
        CodeByte(code, va);
      } else {
        forall k | 0 <= k < |m.users|
          ensures PathOf(m.users[k].virtual) != PathOf(va)
        {
          assert CodeAt(p, m.users[k], code, k);
          SamePage(va, k * PAGE_SIZE);
        }
      }
    }
  }

  // ---------------------------------------------------------------- steps

  /** A step changes nothing of the processes it does not concern. */
  lemma BystanderKept(w: World, e: Event, v: World, i: nat)
    requires Isolated(w) && Step(w, e, v) && i in w.procs && Actor(e) != Some(i)
    ensures i in v.procs && v.procs[i] == w.procs[i] && Sound(v.pool, v.procs[i])
    ensures SameFrames(w.pool, v.pool, w.procs[i])
    ensures Owned(w.procs[i]) !! v.kernel
    ensures Actor(e).Some? ==> Actor(e).value in v.procs && Owned(w.procs[i]) !! Owned(v.procs[Actor(e).value])
  {
    hide Owning, Settled, Low, Moves, InPool, Used, At, Owned, UserFrames, Loaded, CopyOf, Program, Bare, Written,
      ByteAt, Walk;
    var m := w.procs[i];
    match e
    case Kernel =>
      OthersKept(w.pool, v.pool, m, w.kernel, v.kernel);
    case Thread(j) =>
      EmptyOwns(w.pool);
      MovesNothing(w.pool, {});
      OthersKept(w.pool, w.pool, m, {}, {});
    case Fork(_, j) =>
      EmptyOwns(w.pool);
      OthersKept(w.pool, v.pool, m, {}, Owned(v.procs[j]));
    case Load(j, _) =>
      OthersKept(w.pool, v.pool, m, Owned(w.procs[j]), Owned(v.procs[j]));
    case Exec(j, _) =>
      OthersKept(w.pool, v.pool, m, Owned(w.procs[j]), Owned(v.procs[j]));
    case Store(j, va, value) =>
      StoreWrites(w, j, va, value, v);
      OthersKept(w.pool, v.pool, m, Owned(w.procs[j]), Owned(w.procs[j]));
  }

  /** A store writes one byte of one of the process's own frames. */
  lemma StoreWrites(w: World, i: nat, va: nat, value: Byte, v: World)
    requires i in w.procs && Sound(w.pool, w.procs[i]) && Step(w, Store(i, va, value), v)
    ensures Sound(v.pool, w.procs[i]) && v.procs == w.procs && v.kernel == w.kernel
    ensures Moves(w.pool, v.pool, Owned(w.procs[i]), Owned(w.procs[i]))
  {
    hide Owning, Low, Moves, InPool, Used, At, Owned, Written, Walk;
    var m := w.procs[i];
    WalkOwn(w.pool, m, va);
    MappedIff(m, PathOf(va));
    var k :| 0 <= k < |m.users| && PathOf(m.users[k].virtual) == PathOf(va);
    FrameOf(m, k);
    var a := Walk(w.pool, m.pgd, va).value;
    FrameWritten(w.pool, m, a, At(w.pool, a)[va % PAGE_SIZE := value]);
  }

  lemma WalkOwn(p: Pool, m: Mm, va: nat)
    requires Owning(p, m) && ByteAt(p, m, va).Some?
    ensures PathOf(va) in m.space.frames && Walk(p, m.pgd, va) == Some(m.space.frames[PathOf(va)])
  {
    hide Walk;
    WalkFinds(p, m.pgd, m.space, va);
  }

  /** The process that acts stays sound. */
  lemma ActorSound(w: World, e: Event, v: World)
    requires Isolated(w) && Step(w, e, v) && Actor(e).Some?
    ensures Actor(e).value in v.procs && Sound(v.pool, v.procs[Actor(e).value])
    ensures Owned(v.procs[Actor(e).value]) !! v.kernel
  {
    hide Owning, Settled, Low, Moves, InPool, Used, At, Owned, Maps, Written, ByteAt, Walk;
    match e
    case Thread(j) =>
      EmptyOwns(w.pool);
    case Fork(i, j) =>
      EmptyOwns(w.pool);
      KernelKept(w, v, EmptyMm(), j);
      forall k | 0 <= k < |v.procs[j].users|
        ensures v.procs[j].users[k].virtual == k * PAGE_SIZE
      {
        assert SamePageAt(w.pool, w.procs[i].users[k], v.pool, v.procs[j].users[k]);
      }
    case Load(j, code) =>
      KernelKept(w, v, w.procs[j], j);
      LoadedSound(v.pool, v.procs[j], code);
    case Exec(j, code) =>
      KernelKept(w, v, w.procs[j], j);
      LoadedSound(v.pool, v.procs[j], code);
    case Store(j, va, value) =>
      StoreWrites(w, j, va, value, v);
  }

  lemma LoadedSound(p: Pool, m: Mm, code: seq<Byte>)
    requires Owning(p, m) && Loaded(p, m, code)
    ensures Sound(p, m)
  {
    hide Owning, Settled, Maps, At, InPool;
    forall k | 0 <= k < |m.users|
      ensures m.users[k].virtual == k * PAGE_SIZE
    {
      assert CodeAt(p, m.users[k], code, k);
    }
  }

  lemma KernelKept(w: World, v: World, m: Mm, i: nat)
    requires Acts(w, v, i, m) && Owned(m) !! w.kernel
    requires forall a :: a in w.kernel ==> InPool(a) && Used(w.pool, a)
    ensures Owned(v.procs[i]) !! v.kernel
    ensures forall a :: a in v.kernel ==> InPool(a) && Used(v.pool, a)
  {
    hide Owned, InPool, Used, At, Owning;
    forall a | a in w.kernel
      ensures Used(v.pool, a) && a !in Owned(v.procs[i])
    {
      assert PageMoves(w.pool, v.pool, Owned(m), Owned(v.procs[i]), a);
    }
  }

  lemma KernelUsed(w: World, e: Event, v: World)
    requires Isolated(w) && Step(w, e, v)
    ensures forall a :: a in v.kernel ==> InPool(a) && Used(v.pool, a)
  {
    hide Owning, Settled, Low, Moves, InPool, Used, At, Owned, Loaded, CopyOf, ByteAt, Walk;
    match e
    case Kernel =>
    case Thread(j) =>
    case Fork(i, j) =>
      EmptyOwns(w.pool);
      KernelKept(w, v, EmptyMm(), j);
    case Load(j, code) =>
      KernelKept(w, v, w.procs[j], j);
    case Exec(j, code) =>
      KernelKept(w, v, w.procs[j], j);
    case Store(j, va, value) =>
  }

  /** Every step keeps the processes isolated from each other and from the kernel's own pages. */
  lemma StepIsolated(w: World, e: Event, v: World)
    requires Isolated(w) && Step(w, e, v)
    ensures Isolated(v)
  {
    hide Sound, Step, InPool, Used, Owned;
    KernelUsed(w, e, v);
    ProcsAfter(w, e, v);
    if Actor(e).Some? {
      ActorSound(w, e, v);
    }
    forall i | i in v.procs && Actor(e) != Some(i)
      ensures Sound(v.pool, v.procs[i]) && Owned(v.procs[i]) !! v.kernel
      ensures v.procs[i] == w.procs[i]
      ensures Actor(e).Some? ==> Owned(v.procs[i]) !! Owned(v.procs[Actor(e).value])
    {
      BystanderKept(w, e, v, i);
    }
  }

  lemma ProcsAfter(w: World, e: Event, v: World)
    requires Step(w, e, v)
    ensures forall i :: i in v.procs ==> i in w.procs || Actor(e) == Some(i)
  {
  }

  lemma StartIsolated(w: World)
    requires w.procs == map[] && w.kernel == {}
    ensures Isolated(w)
  {
  }

  /** Main result: over every run, tables and frames of different processes are disjoint pages in use. */
  lemma {:induction false} RunIsolated(worlds: seq<World>, events: seq<Event>, n: nat)
    requires Run(worlds, events) && n <= |events|
    ensures Isolated(worlds[n])
  {
    hide Isolated, Step;
    if n == 0 {
      StartIsolated(worlds[0]);
    } else {
      RunIsolated(worlds, events, n - 1);
      StepIsolated(worlds[n - 1], events[n - 1], worlds[n]);
    }
  }

  /** In every run no list of pages outgrows its sixteen slots. */
  lemma RunSlots(worlds: seq<World>, events: seq<Event>, n: nat, i: nat)
    requires Run(worlds, events) && n <= |events| && i in worlds[n].procs
    ensures |worlds[n].procs[i].users| <= 16 && |worlds[n].procs[i].tables| <= 4
  {
    RunIsolated(worlds, events, n);
    FewTables(worlds[n].pool, worlds[n].procs[i]);
  }

  /** Nothing a process does changes what another process reads, at any address. */
  lemma OthersReadTheSame(w: World, e: Event, v: World, i: nat)
    requires Isolated(w) && Step(w, e, v) && i in w.procs && Actor(e) != Some(i)
    ensures i in v.procs
    ensures forall va :: 0 <= va < 0x1_0000_0000_0000 ==>
              ByteAt(v.pool, v.procs[i], va) == ByteAt(w.pool, w.procs[i], va)
  {
    BystanderKept(w, e, v, i);
    ReadsKept(w.pool, v.pool, w.procs[i]);
  }

  /**
   After a fork the child reads what the parent reads, byte for byte, in the pages
   that were copied; those are all of them exactly when there was room for them.
   */
  lemma ForkedReads(w: World, i: nat, j: nat, v: World)
    requires Isolated(w) && Step(w, Fork(i, j), v)
    ensures i in v.procs && j in v.procs
    ensures forall va :: 0 <= va < 0x1_0000_0000_0000 ==>
              && ByteAt(v.pool, v.procs[i], va) == ByteAt(w.pool, w.procs[i], va)
              && ByteAt(v.pool, v.procs[j], va) ==
                 if va / 4096 < |v.procs[j].users| then ByteAt(w.pool, w.procs[i], va) else None
    ensures RoomForAll(w, i) ==>
              forall va :: 0 <= va < 0x1_0000_0000_0000 ==>
                ByteAt(v.pool, v.procs[j], va) == ByteAt(v.pool, v.procs[i], va)
  {
    hide ByteAt, Owning, Settled, Low, Moves;
    ForkReads(w.pool, w.procs[i], v.pool, v.procs[j]);
    OthersReadTheSame(w, Fork(i, j), v, i);
  }

  /** Every process but `i` has kept its pages and reads what it read before. */
  ghost predicate OthersRead(w: World, v: World, i: nat) {
    forall j :: j in w.procs && j != i ==>
      && j in v.procs && v.procs[j] == w.procs[j] && Sound(v.pool, v.procs[j])
      && forall va :: 0 <= va < 0x1_0000_0000_0000 ==>
           ByteAt(v.pool, v.procs[j], va) == ByteAt(w.pool, w.procs[j], va)
  }

  /** Running out of pages concerns nobody but the process that does: what it had to keep is what the others have. */
  lemma KeptReads(w: World, v: World, i: nat, own: set<nat>)
    requires Isolated(w) && Kept(w.pool, v.pool, own)
    requires forall j :: j in w.procs && j != i ==>
               j in v.procs && v.procs[j] == w.procs[j] && Owned(w.procs[j]) !! own
    ensures OthersRead(w, v, i)
  {
    hide Owning, Settled, Low, Kept, ByteAt, Owned, SameFrames;
    forall j | j in w.procs && j != i
      ensures Sound(v.pool, v.procs[j])
      ensures forall va :: 0 <= va < VA_SIZE ==> ByteAt(v.pool, v.procs[j], va) == ByteAt(w.pool, w.procs[j], va)
    {
      assert Sound(w.pool, w.procs[j]);
      KeptOwning(w.pool, v.pool, own, w.procs[j]);
      ReadsKept(w.pool, v.pool, w.procs[j]);
    }
  }

  /** A process with a table on page 0 is not isolated from the others. */
  lemma LostIsNotIsolated(w: World, i: nat)
    requires i in w.procs && 0 in w.procs[i].tables
    ensures !Isolated(w)
  {
    hide Rooted;
    if Rooted(w.pool, w.procs[i]) {
      NoTableAtZero(w.pool, w.procs[i]);
    }
  }

  /** A program that `exec` has loaded reads as its code. */
  lemma ExecutedReads(w: World, i: nat, code: seq<Byte>, v: World)
    requires Isolated(w) && (Step(w, Exec(i, code), v) || Step(w, Load(i, code), v))
    ensures i in v.procs
    ensures forall va :: 0 <= va < 0x1_0000_0000_0000 ==>
              ByteAt(v.pool, v.procs[i], va) ==
              if va < 65536 then Some(if va < |code| then code[va] else 0) else None
  {
    hide Owning, Loaded, Bare, Program, Moves, ByteAt, Isolated, Owned;
    LoadedReads(v.pool, v.procs[i], code);
  }

  /** A store is read back at its address and changes no other address. */
  lemma StoredReads(w: World, i: nat, va: nat, value: Byte, v: World)
    requires Isolated(w) && Step(w, Store(i, va, value), v)
    ensures i in v.procs
    ensures forall x :: 0 <= x < 0x1_0000_0000_0000 ==>
              ByteAt(v.pool, v.procs[i], x) == if x == va then Some(value) else ByteAt(w.pool, w.procs[i], x)
  {
    hide PathOf, Walk, ByteAt, InPool, At, Low, Owning, Maps, Settled, Written;
    var m := w.procs[i];
    StoreWrites(w, i, va, value, v);
    WalkOwn(w.pool, m, va);
    ReadsFrame(w.pool, m, va);
    forall x | 0 <= x < VA_SIZE
      ensures ByteAt(v.pool, m, x) == if x == va then Some(value) else ByteAt(w.pool, m, x)
    {
      ReadsFrame(w.pool, m, x);
      ReadsFrame(v.pool, m, x);
      SamePage(x, va);
      if PathOf(x) in m.space.frames && PathOf(x) != PathOf(va) {
        FramesDiffer(w.pool, m, PathOf(x), PathOf(va));
      }
    }
  }

  lemma FramesDiffer(p: Pool, m: Mm, a: Path, b: Path)
    requires Owning(p, m) && Settled(m)
    requires a in m.space.frames && b in m.space.frames && a != b
    ensures m.space.frames[a] != m.space.frames[b]
  {
    hide PathOf, InPool, Rooted;
    MappedIff(m, a);
    MappedIff(m, b);
    var j :| 0 <= j < |m.users| && PathOf(m.users[j].virtual) == a;
    var k :| 0 <= k < |m.users| && PathOf(m.users[k].virtual) == b;
    FrameOf(m, j);
    FrameOf(m, k);
  }
}
