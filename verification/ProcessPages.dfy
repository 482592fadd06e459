/**
 The pages of one process as a value: its tables, the frames they map and the lists
 `user_pages` and `kernel_pages` that record them. The lemmas say how ownership
 survives what the process itself and everybody else does to memory.
 */
module ProcessPages {
  import opened PageFrames
  import opened PageTables
  import opened SetSizes

  const MAX_PROCESS_PAGES := 16

  datatype UserPage = UserPage(physical: nat, virtual: nat)

  /** The `mm` record of a process, with the tree that its tables hold. */
  datatype Mm = Mm(pgd: nat, users: seq<UserPage>, tables: seq<nat>, space: Space)

  function EmptyMm(): Mm {
    Mm(0, [], [], Space(map[], map[]))
  }

  ghost function UserFrames(m: Mm): set<nat> {
    set k | 0 <= k < |m.users| :: m.users[k].physical
  }

  ghost function Owned(m: Mm): set<nat> {
    m.space.tables.Values + UserFrames(m)
  }

  /**
   The tables of the process are a tree of distinct pages in use, all of them
   listed in `kernel_pages`, and its user pages are distinct pages in use that
   are no tables.
   */
  ghost predicate Owning(p: Pool, m: Mm) {
    && Rooted(p, m)
    && (forall k :: 0 <= k < |m.users| ==> HoldsFrame(p, m, m.users[k].physical))
    && (forall j, k :: 0 <= j < k < |m.users| ==> m.users[j].physical != m.users[k].physical)
  }

  ghost predicate Rooted(p: Pool, m: Mm) {
    && Refines(p, m.pgd, m.space)
    && (set a | a in m.tables) == m.space.tables.Values
    && |m.tables| == |m.space.tables|
  }

  ghost predicate HoldsFrame(p: Pool, m: Mm, a: nat) {
    InPool(a) && Used(p, a) && a !in m.space.tables.Values
  }

  /** The user pages do not matter to the tables. */
  lemma RootedWithoutUsers(p: Pool, m: Mm, n: Mm)
    requires Rooted(p, m) && n == m.(users := n.users)
    ensures Rooted(p, n)
  {
  }

  lemma TablesAlone(p: Pool, m: Mm)
    requires Rooted(p, m)
    ensures var t := m.(users := []); Owning(p, t) && Owned(t) == m.space.tables.Values
  {
  }

  /** 1 for a table that does not exist yet. */
  function New(s: Space, path: Path): (n: nat)
    ensures n <= 1
  {
    if path in s.tables then 0 else 1
  }

  /** How many of the first `k` tables on the way to an address `map_page` would have to create. */
  function MissingTo(s: Space, va: nat, k: nat): (n: nat)
    requires k <= 4
    ensures n <= k
  {
    if k == 0 then 0 else MissingTo(s, va, k - 1) + New(s, PathOf(va)[..k - 1])
  }

  function Missing(s: Space, va: nat): (n: nat)
    ensures n <= 4
  {
    MissingTo(s, va, 4)
  }

  /** The paths of the first `k` tables on the way to an address. */
  ghost function PrefixesTo(va: nat, k: nat): set<Path>
    requires k <= 4
  {
    if k == 0 then {} else PrefixesTo(va, k - 1) + {PathOf(va)[..k - 1]}
  }

  ghost function Prefixes(va: nat): set<Path> {
    PrefixesTo(va, 4)
  }

  lemma {:induction false} PrefixLengths(va: nat, k: nat)
    requires k <= 4
    ensures |PrefixesTo(va, k)| == k && forall q :: q in PrefixesTo(va, k) ==> |q| < k
    ensures forall j :: 0 <= j < k ==> PathOf(va)[..j] in PrefixesTo(va, k)
  {
    hide PathOf;
    if k > 0 {
      PrefixLengths(va, k - 1);
    }
  }

  lemma ValuesGrow(t: map<Path, nat>, path: Path, a: nat)
    requires path !in t
    ensures t[path := a].Values == t.Values + {a}
    ensures |t[path := a]| == |t| + 1
  {
    var u := t[path := a];
    assert u.Keys == t.Keys + {path};
    forall b | b in t.Values
      ensures b in u.Values
    {
      var q :| q in t.Keys && t[q] == b;
      assert q in u.Keys && u[q] == b;
    }
    assert path in u.Keys && u[path] == a;
  }

  /** A new table is one more page in the list. */
  lemma ListGrows(m: Mm, path: Path, a: nat)
    requires (set b | b in m.tables) == m.space.tables.Values && |m.tables| == |m.space.tables|
    requires path !in m.space.tables
    ensures var t := m.space.tables[path := a];
            && (set b | b in m.tables + [a]) == t.Values == m.space.tables.Values + {a}
            && |m.tables + [a]| == |t|
  {
    ValuesGrow(m.space.tables, path, a);
    assert (set b | b in m.tables + [a]) == (set b | b in m.tables) + {a};
  }

  /** The user pages stay what they are while the tables grow. */
  lemma UsersKept(p: Pool, q: Pool, m: Mm, n: Mm)
    requires Owning(p, m) && Rooted(q, n) && n.users == m.users
    requires Moves(p, q, m.space.tables.Values, n.space.tables.Values)
    ensures Owning(q, n) && SameFrames(p, q, m)
  {
    hide Rooted, InPool, Used, At;
    forall k | 0 <= k < |m.users|
      ensures HoldsFrame(q, n, m.users[k].physical) && At(q, m.users[k].physical) == At(p, m.users[k].physical)
    {
      assert HoldsFrame(p, m, m.users[k].physical);
      FrameStillHeld(p, q, m, n, m.users[k].physical);
    }
  }

  lemma FrameStillHeld(p: Pool, q: Pool, m: Mm, n: Mm, a: nat)
    requires Moves(p, q, m.space.tables.Values, n.space.tables.Values)
    requires HoldsFrame(p, m, a)
    ensures HoldsFrame(q, n, a) && InPool(a) && At(q, a) == At(p, a)
  {
    hide InPool, Used, At;
    assert PageMoves(p, q, m.space.tables.Values, n.space.tables.Values, a);
  }

  // -------------------------------------------------------- walking to a page

  /**
   After `k` tables on the way to an address: `table` is the last of them in the
   tree, as long as there were free pages for the missing ones, and page 0 if not.
   */
  ghost predicate Stage(p0: Pool, m0: Mm, va: nat, k: nat, p: Pool, low: Page, m: Mm, table: nat)
    requires 1 <= k <= 4
  {
    && m == m0.(pgd := m.pgd, tables := m.tables, space := m.space) && m0.tables <= m.tables
    && |m.tables| <= |m0.tables| + MissingTo(m0.space, va, k)
    && (table != 0 <==> MissingTo(m0.space, va, k) <= |FreePages(p0)|)
    && (table != 0 ==> OnTheWay(p0, m0, va, k, p, m, table))
    && (table == 0 ==> FreePages(p) == {} && OnlyItself(low) && 0 in m.tables)
  }

  ghost predicate OnTheWay(p0: Pool, m0: Mm, va: nat, k: nat, p: Pool, m: Mm, table: nat)
    requires 1 <= k <= 4
  {
    var path := PathOf(va)[..k - 1];
    && Rooted(p, m) && InPool(table)
    && path in m.space.tables && m.space.tables[path] == table
    && m.space.frames == m0.space.frames
    && m.space.tables.Keys == m0.space.tables.Keys + PrefixesTo(va, k)
    && Moves(p0, p, m0.space.tables.Values, m.space.tables.Values)
    && |FreePages(p)| == |FreePages(p0)| - MissingTo(m0.space, va, k)
    && |m.tables| == |m0.tables| + MissingTo(m0.space, va, k)
  }

  /** The process after `map_table` has returned `next` for the table at `path`. */
  function WithTable(m: Mm, path: Path, next: nat, created: bool): Mm {
    m.(tables := if created then m.tables + [next] else m.tables,
       space := if next == 0 then m.space else m.space.(tables := m.space.tables[path := next]))
  }

  /** The root table. */
  lemma FirstStage(p: Pool, m: Mm, va: nat, q: Pool, low: Page, root: nat)
    requires Rooted(p, m)
    requires m.pgd != 0 ==> q == p && root == m.pgd
    requires m.pgd == 0 ==> (root == 0 <==> FreePages(p) == {})
    requires m.pgd == 0 && root != 0 ==> InPool(root) && !Used(p, root) && q == Taken(p, root)
    requires m.pgd == 0 && root == 0 ==> q == p && low == ZeroPage()
    ensures Stage(p, m, va, 1, q, low, WithTable(m, [], root, m.pgd == 0).(pgd := root), root)
  {
    hide PathOf, Rooted, Moves, InPool, Used, At, Taken, FreePages, OnlyItself, WithTable;
    FirstPath(m.space, va);
    if m.pgd != 0 {
      RootThere(p, m, root);
    } else if root != 0 {
      RootAdded(p, m, root);
    } else {
      ZeroLeadsNowhere();
      RootLost(p, m);
    }
  }

  lemma FirstPath(s: Space, va: nat)
    ensures PathOf(va)[..0] == [] && PrefixesTo(va, 1) == {[]} && MissingTo(s, va, 1) == New(s, [])
  {
    hide PathOf;
    assert PrefixesTo(va, 0) == {} && MissingTo(s, va, 0) == 0;
    assert PathOf(va)[..0] == [];
  }

  lemma RootThere(p: Pool, m: Mm, root: nat)
    requires Rooted(p, m) && m.pgd == root != 0
    ensures WithTable(m, [], root, false).(pgd := root) == m && InPool(root)
    ensures [] in m.space.tables && m.space.tables[[]] == root && New(m.space, []) == 0
    ensures m.space.tables.Keys == m.space.tables.Keys + {[]}
            && Moves(p, p, m.space.tables.Values, m.space.tables.Values)
  {
    hide IsTree, TableHolds, Moves, InPool;
    MovesNothing(p, m.space.tables.Values);
    TableInPool(p, m.pgd, m.space, []);
    assert m.space.tables[[] := root] == m.space.tables;
  }

  lemma RootLost(p: Pool, m: Mm)
    requires Rooted(p, m) && m.pgd == 0
    ensures New(m.space, []) == 1
    ensures var n := WithTable(m, [], 0, true).(pgd := 0);
            n == m.(pgd := 0, tables := n.tables) && 0 in n.tables && m.tables <= n.tables
              && |n.tables| == |m.tables| + 1
  {
  }

  lemma RootAdded(p: Pool, m: Mm, root: nat)
    requires Rooted(p, m) && m.pgd == 0 && root != 0 && InPool(root) && !Used(p, root)
    ensures var n := WithTable(m, [], root, true).(pgd := root);
            && n == m.(pgd := root, tables := n.tables, space := n.space) && m.tables <= n.tables
               && |n.tables| == |m.tables| + 1
            && Rooted(Taken(p, root), n) && [] in n.space.tables && n.space.tables[[]] == root
            && n.space.frames == m.space.frames && n.space.tables.Keys == m.space.tables.Keys + {[]}
            && Moves(p, Taken(p, root), m.space.tables.Values, n.space.tables.Values)
    ensures New(m.space, []) == 1 && |FreePages(Taken(p, root))| == |FreePages(p)| - 1 && FreePages(p) != {}
  {
    hide IsTree, TableHolds, Moves, InPool, Used, At, Taken;
    RootGrows(p, m.space, root);
    TakenMoves(p, root);
    ListGrows(m, [], root);
    assert m.space.tables.Values == {};
    assert m.space.tables[[] := root].Values == {root};
    FreeHas(p, root);
  }

  lemma FreeHas(p: Pool, a: nat)
    requires InPool(a) && !Used(p, a)
    ensures FreePages(p) != {}
  {
    assert Number(a) in FreePages(p);
  }

  lemma PathGrows(va: nat, k: nat)
    requires 1 <= k < 4
    ensures Child(PathOf(va)[..k - 1], PathOf(va)[k - 1]) == PathOf(va)[..k] && |PathOf(va)[..k]| == k
    ensures Parent(PathOf(va)[..k]) == PathOf(va)[..k - 1]
  {
    hide PathOf;
    var path := PathOf(va);
    assert path[..k - 1] + [path[k - 1]] == path[..k];
  }

  /** Below a table that is missing everything is missing. */
  lemma {:induction false} NewBelow(s: Space, va: nat, k: nat)
    requires IsTree(s) && 1 <= k < 4 && MissingTo(s, va, k) > 0
    ensures New(s, PathOf(va)[..k]) == 1
  {
    hide PathOf;
    PathGrows(va, k);
    if New(s, PathOf(va)[..k - 1]) == 0 {
      assert MissingTo(s, va, k - 1) > 0;
      NewBelow(s, va, k - 1);
    }
  }

  lemma NewOnTheWay(p0: Pool, m0: Mm, va: nat, k: nat, p: Pool, m: Mm, table: nat)
    requires 1 <= k < 4 && OnTheWay(p0, m0, va, k, p, m, table)
    ensures New(m.space, PathOf(va)[..k]) == New(m0.space, PathOf(va)[..k])
  {
    hide PathOf, Rooted, Moves, FreePages, PrefixesTo;
    PrefixLengths(va, k);
    var path := PathOf(va)[..k];
    assert |path| == k;
    assert path in m.space.tables.Keys <==> path in m0.space.tables.Keys + PrefixesTo(va, k);
  }

  lemma NextInTree(p0: Pool, m0: Mm, va: nat, k: nat, p: Pool, low: Page, m: Mm, table: nat,
                   q: Pool, low': Page, next: nat, created: bool)
    requires 1 <= k < 4 && OnTheWay(p0, m0, va, k, p, m, table)
    requires Mapped(p, low, table, PathOf(va)[k - 1], q, low', next, created)
    ensures created <==> New(m0.space, PathOf(va)[..k]) == 1
    ensures next == 0 <==> created && FreePages(p) == {}
    ensures next == 0 ==> FreePages(q) == {} && OnlyItself(low')
    ensures next != 0 ==> OnTheWay(p0, m0, va, k + 1, q, WithTable(m, PathOf(va)[..k], next, created), next)
  {
    hide PathOf, Refines, Moves, InPool, Used, FreePages, Mapped, OnlyItself, PrefixesTo, Child, WithTable, Rooted;
    RootedParts(p, m);
    var s, path, below := m.space, PathOf(va)[..k - 1], PathOf(va)[..k];
    PathGrows(va, k);
    NewOnTheWay(p0, m0, va, k, p, m, table);
    TreeMapped(p, m.pgd, s, path, low, PathOf(va)[k - 1], q, low', next, created);
    if next != 0 {
      TreeJoined(q, m, below, next, created);
      PrefixGrows(va, k);
      var n := WithTable(m, below, next, created);
      MovesCompose(p0, p, q, m0.space.tables.Values, s.tables.Values, n.space.tables.Values);
      assert MissingTo(m0.space, va, k + 1) == MissingTo(m0.space, va, k) + New(m0.space, below);
      TableInPool(q, n.pgd, n.space, below);
    }
  }

  lemma RootedParts(p: Pool, m: Mm)
    requires Rooted(p, m)
    ensures Refines(p, m.pgd, m.space) && IsTree(m.space)
    ensures (set a | a in m.tables) == m.space.tables.Values && |m.tables| == |m.space.tables|
  {
  }

  /** A table that has joined the tree is in the list as well. */
  lemma TreeJoined(q: Pool, m: Mm, path: Path, next: nat, created: bool)
    requires (set a | a in m.tables) == m.space.tables.Values && |m.tables| == |m.space.tables| && next != 0
    requires Refines(q, m.pgd, m.space.(tables := m.space.tables[path := next]))
    requires created <==> path !in m.space.tables
    requires !created ==> m.space.tables[path] == next
    ensures var n := WithTable(m, path, next, created);
            && n == m.(tables := n.tables, space := n.space) && n.space.frames == m.space.frames && m.tables <= n.tables
            && Rooted(q, n) && path in n.space.tables && n.space.tables[path] == next
            && n.space.tables.Keys == m.space.tables.Keys + {path}
               && n.space.tables.Values == m.space.tables.Values + {next}
            && |n.tables| == |m.tables| + (if created then 1 else 0) && Refines(q, n.pgd, n.space)
  {
    hide Refines;
    if created {
      ListGrows(m, path, next);
    } else {
      assert m.space.tables[path := next] == m.space.tables;
    }
  }

  lemma PrefixGrows(va: nat, k: nat)
    requires k < 4
    ensures PrefixesTo(va, k + 1) == PrefixesTo(va, k) + {PathOf(va)[..k]}
  {
  }

  /** One table further. */
  lemma NextStage(p0: Pool, m0: Mm, va: nat, k: nat, p: Pool, low: Page, m: Mm, table: nat,
                  q: Pool, low': Page, next: nat, created: bool)
    requires 1 <= k < 4 && Rooted(p0, m0) && Stage(p0, m0, va, k, p, low, m, table) && (table == 0 || InPool(table))
    requires Mapped(p, low, table, PathOf(va)[k - 1], q, low', next, created)
    ensures Stage(p0, m0, va, k + 1, q, low', WithTable(m, PathOf(va)[..k], next, created), next)
  {
    hide PathOf, TableHolds, Moves, InPool, FreePages, Mapped, OnlyItself, OnTheWay;
    assert MissingTo(m0.space, va, k + 1) == MissingTo(m0.space, va, k) + New(m0.space, PathOf(va)[..k]);
    if table == 0 {
      LostMapped(p, low, PathOf(va)[k - 1], q, low', next, created);
      NewBelow(m0.space, va, k);
    } else {
      NextInTree(p0, m0, va, k, p, low, m, table, q, low', next, created);
      TreeSoFar(p0, m0, va, k, p, m, table);
    }
  }

  lemma {:induction false} MissingGrows(s: Space, va: nat, k: nat, n: nat)
    requires k <= n <= 4
    ensures MissingTo(s, va, k) <= MissingTo(s, va, n)
    decreases n - k
  {
    hide PathOf;
    if k < n {
      MissingGrows(s, va, k, n - 1);
    }
  }

  /** A table that has to be created still has a slot in the list. */
  lemma StageRoom(p0: Pool, m0: Mm, va: nat, k: nat, p: Pool, low: Page, m: Mm, table: nat)
    requires 1 <= k < 4 && Rooted(p0, m0) && Stage(p0, m0, va, k, p, low, m, table) && (table == 0 || InPool(table))
    requires |m0.tables| + Missing(m0.space, va) <= MAX_PROCESS_PAGES
    ensures |m.tables| < MAX_PROCESS_PAGES || EntryAt(if table == 0 then low else At(p, table), PathOf(va)[k - 1]) != 0
  {
    hide PathOf, TableHolds, Moves, InPool, FreePages, OnlyItself, OnTheWay, EntryAt, At, New, Child;
    MissingGrows(m0.space, va, k + 1, 4);
    assert MissingTo(m0.space, va, k + 1) == MissingTo(m0.space, va, k) + New(m0.space, PathOf(va)[..k]);
    if table == 0 {
      NewBelow(m0.space, va, k);
    } else {
      NewOnTheWay(p0, m0, va, k, p, m, table);
      EntryOnTheWay(p0, m0, va, k, p, m, table);
    }
  }

  lemma EntryOnTheWay(p0: Pool, m0: Mm, va: nat, k: nat, p: Pool, m: Mm, table: nat)
    requires 1 <= k < 4 && OnTheWay(p0, m0, va, k, p, m, table)
    ensures EntryAt(At(p, table), PathOf(va)[k - 1]) == 0 <==> New(m.space, PathOf(va)[..k]) == 1
  {
    hide PathOf, IsTree, TableHolds, Moves, InPool, Used, At, FreePages, PrefixesTo, Child, EntryAt;
    PathGrows(va, k);
    TableThere(p, m.pgd, m.space, PathOf(va)[..k - 1], PathOf(va)[k - 1]);
  }

  lemma TreeSoFar(p0: Pool, m0: Mm, va: nat, k: nat, p: Pool, m: Mm, table: nat)
    requires 1 <= k <= 4 && OnTheWay(p0, m0, va, k, p, m, table)
    ensures |FreePages(p)| == |FreePages(p0)| - MissingTo(m0.space, va, k)
    ensures |m.tables| == |m0.tables| + MissingTo(m0.space, va, k) && InPool(table)
  {
  }

  lemma RootIsNew(p: Pool, m: Mm)
    requires Rooted(p, m)
    ensures New(m.space, []) == if m.pgd == 0 then 1 else 0
  {
  }

  lemma RootSlot(s: Space, va: nat)
    ensures New(s, []) <= Missing(s, va)
  {
    FirstPath(s, va);
    MissingGrows(s, va, 1, 4);
  }

  lemma StageTable(p0: Pool, m0: Mm, va: nat, k: nat, p: Pool, low: Page, m: Mm, table: nat)
    requires 1 <= k <= 4 && Stage(p0, m0, va, k, p, low, m, table)
    ensures table == 0 || InPool(table)
  {
    hide PathOf, InPool, Moves;
  }

  /** The page of `va` has come to be mapped to the frame `pa`, by tables of the process's own. */
  ghost predicate PageMapped(p: Pool, m: Mm, q: Pool, n: Mm, va: nat, pa: nat) {
    && Owning(q, n) && n.users == m.users + [UserPage(pa, va)]
    && m.tables <= n.tables && |n.tables| == |m.tables| + Missing(m.space, va)
    && n.space.frames == m.space.frames[PathOf(va) := pa]
    && n.space.tables.Keys == m.space.tables.Keys + Prefixes(va)
    && Moves(p, q, m.space.tables.Values, n.space.tables.Values)
    && |FreePages(q)| == |FreePages(p)| - Missing(m.space, va)
    && SameBytes(p, q, pa) && SameFrames(p, q, m)
  }

  lemma FrameBound(p: Pool, m: Mm, pa: nat)
    requires HoldsFrame(p, m, pa)
    ensures InPool(pa) && 0 < pa && pa + FRAME_FLAGS < 0x1_0000_0000
  {
  }

  /** What the walk to a page has come to. */
  lemma StageEnd(p0: Pool, m0: Mm, va: nat, p: Pool, low: Page, m: Mm, pte: nat)
    requires Owning(p0, m0) && Stage(p0, m0, va, 4, p, low, m, pte)
    ensures pte == 0 || InPool(pte)
    ensures m.users == m0.users && (pte == 0 <==> |FreePages(p0)| < Missing(m0.space, va))
    ensures pte == 0 <==> 0 in m.tables
    ensures pte == 0 ==> FreePages(p) == {}
    ensures pte != 0 ==> OnTheWay(p0, m0, va, 4, p, m, pte) && m0.tables <= m.tables
  {
    hide PathOf, InPool, Moves, FreePages, OnlyItself, Rooted;
    if pte != 0 {
      NoTableAtZero(p, m);
    }
  }

  lemma NoTableAtZero(p: Pool, m: Mm)
    requires Rooted(p, m)
    ensures 0 !in m.tables
  {
    hide IsTree, EntryAt, Link, Child;
    forall a | a in m.tables
      ensures a != 0
    {
      assert a in (set b | b in m.tables);
      assert a in m.space.tables.Values;
      var path :| path in m.space.tables.Keys && m.space.tables[path] == a;
      TableInPool(p, m.pgd, m.space, path);
    }
  }

  /** The last entry written, the frame joins the process. */
  lemma FrameJoined(p0: Pool, m0: Mm, va: nat, pa: nat, p: Pool, m: Mm, pte: nat, q: Pool)
    requires Owning(p0, m0) && HoldsFrame(p0, m0, pa) && pa !in UserFrames(m0)
    requires OnTheWay(p0, m0, va, 4, p, m, pte) && m.users == m0.users && m0.tables <= m.tables && pte != 0
    requires pa + FRAME_FLAGS < 0x1_0000_0000
             && q == Written(p, pte, WithEntry(At(p, pte), PteIndex(va), pa + FRAME_FLAGS))
    ensures var n :=
              m.(space := m.space.(frames := m.space.frames[PathOf(va) := pa]), users := m.users + [UserPage(pa, va)]);
            PageMapped(p0, m0, q, n, va, pa)
  {
    hide Rooted, InPool, Used, At, Moves, FreePages, HoldsFrame, UserFrames, Written, PrefixesTo, Owning, PathOf,
      Missing, MissingTo, SameFrames, SameBytes, Refines;
    var tables, n := m.space.tables.Values, m.(space := m.space.(frames := m.space.frames[PathOf(va) := pa]));
    MovesSoFar(p0, m0, va, p, m, pte);
    FrameStillHeld(p0, p, m0, m, pa);
    EntryWritten(p0, m0, va, pa, p, m, pte);
    EntryMoves(p, tables, pte, WithEntry(At(p, pte), PteIndex(va), pa + FRAME_FLAGS));
    MovesCompose(p0, p, q, m0.space.tables.Values, tables, tables);
    UsersKept(p0, q, m0, n);
    OneMoreUser(p0, q, m0, n, UserPage(pa, va));
    FrameStillHeld(p0, q, m0, n, pa);
    assert SameBytes(p0, q, pa) by {
      FrameSame(p0, q, pa);
    }
  }

  lemma FrameSame(p: Pool, q: Pool, a: nat)
    requires InPool(a) && At(q, a) == At(p, a)
    ensures SameBytes(p, q, a)
  {
  }

  lemma MovesSoFar(p0: Pool, m0: Mm, va: nat, p: Pool, m: Mm, pte: nat)
    requires OnTheWay(p0, m0, va, 4, p, m, pte)
    ensures Moves(p0, p, m0.space.tables.Values, m.space.tables.Values) && pte in m.space.tables.Values && InPool(pte)
    ensures m.space.frames == m0.space.frames && m.space.tables.Keys == m0.space.tables.Keys + Prefixes(va)
    ensures |FreePages(p)| == |FreePages(p0)| - Missing(m0.space, va)
            && |m.tables| == |m0.tables| + Missing(m0.space, va)
  {
    hide PathOf, Rooted, Moves, FreePages, PrefixesTo, MissingTo;
  }

  lemma EntryWritten(p0: Pool, m0: Mm, va: nat, pa: nat, p: Pool, m: Mm, pte: nat)
    requires OnTheWay(p0, m0, va, 4, p, m, pte) && InPool(pa) && pa + FRAME_FLAGS < 0x1_0000_0000
    ensures var q := Written(p, pte, WithEntry(At(p, pte), PteIndex(va), pa + FRAME_FLAGS));
            Rooted(q, m.(space := m.space.(frames := m.space.frames[PathOf(va) := pa])))
  {
    hide PgdIndex, PudIndex, PmdIndex, PteIndex, Refines, InPool, At, Moves, FreePages, Written, PrefixesTo,
      MissingTo;
    assert Child(PathOf(va)[..3], PteIndex(va)) == PathOf(va);
    FrameMapped(p, m.pgd, m.space, PathOf(va)[..3], PteIndex(va), pa);
  }

  /** A frame that nobody maps may be added to the user pages. */
  lemma OneMoreUser(p: Pool, q: Pool, m: Mm, n: Mm, u: UserPage)
    requires Owning(q, n) && n.users == m.users
    requires HoldsFrame(p, m, u.physical) && u.physical !in UserFrames(m)
    requires Moves(p, q, m.space.tables.Values, n.space.tables.Values)
    ensures Owning(q, n.(users := n.users + [u]))
  {
    hide Rooted, InPool, Used, At, Moves;
    FrameStillHeld(p, q, m, n, u.physical);
    forall k | 0 <= k < |m.users|
      ensures m.users[k].physical != u.physical
    {
      assert m.users[k].physical in UserFrames(m);
    }
    RootedWithoutUsers(q, n, n.(users := n.users + [u]));
  }

  /** What a process does to its own pages leaves every other owner as it was. */
  lemma OthersKept(p: Pool, q: Pool, m: Mm, before: set<nat>, after: set<nat>)
    requires Owning(p, m) && Moves(p, q, before, after) && Owned(m) !! before
    ensures Owning(q, m) && Owned(m) !! after
    ensures forall a :: a in Owned(m) ==> SameBytes(p, q, a)
    ensures SameFrames(p, q, m)
  {
    hide InPool, Used, At, Owning, Owned, SameFrames;
    forall a | a in Owned(m)
      ensures SameBytes(p, q, a) && a !in after && InPool(a) && Used(q, a)
    {
      OwnedUsed(p, m, a);
      assert PageMoves(p, q, before, after, a);
    }
    Untouched(p, q, m);
  }

  /** A process whose pages stay in use and keep their bytes has them still. */
  lemma Untouched(p: Pool, q: Pool, m: Mm)
    requires Owning(p, m) && forall a :: a in Owned(m) ==> SameBytes(p, q, a) && InPool(a) && Used(q, a)
    ensures Owning(q, m) && SameFrames(p, q, m)
  {
    hide InPool, Used, At, IsTree, EntryAt, Link, Child;
    forall path | path in m.space.tables
      ensures TableHolds(q, m.space, path)
    {
      assert TableHolds(p, m.space, path);
      assert m.space.tables[path] in Owned(m);
      assert SameBytes(p, q, m.space.tables[path]);
    }
    forall k | 0 <= k < |m.users|
      ensures HoldsFrame(q, m, m.users[k].physical) && SameBytes(p, q, m.users[k].physical)
    {
      assert HoldsFrame(p, m, m.users[k].physical);
      assert m.users[k].physical in Owned(m);
      assert SameBytes(p, q, m.users[k].physical);
    }
  }

  /** A page that has just been handed out is nobody's. */
  lemma FreshFrame(p: Pool, m: Mm, a: nat)
    requires Owning(p, m) && InPool(a) && !Used(p, a)
    ensures HoldsFrame(Taken(p, a), m, a) && a !in Owned(m)
  {
    hide Owning, InPool, Used, At, Owned;
    if a in Owned(m) {
      OwnedUsed(p, m, a);
    }
    OwnedHas(m, a);
  }

  lemma OwnedHas(m: Mm, a: nat)
    ensures a in Owned(m) <==> a in m.space.tables.Values || a in UserFrames(m)
  {
  }

  lemma UserFrameOwned(m: Mm, k: nat)
    requires k < |m.users|
    ensures m.users[k].physical in UserFrames(m) && m.users[k].physical in Owned(m)
  {
  }

  lemma LowAt(m: Mm, k: nat)
    requires Low(m) && k < |m.users|
    ensures m.users[k].virtual < REGION
  {
  }

  lemma OwnedUsed(p: Pool, m: Mm, a: nat)
    requires Owning(p, m) && a in Owned(m)
    ensures InPool(a) && Used(p, a)
  {
    hide InPool, Used, At, IsTree, EntryAt, Link, Child;
    if a in m.space.tables.Values {
      var path :| path in m.space.tables && m.space.tables[path] == a;
      assert TableHolds(p, m.space, path);
    } else {
      var k :| 0 <= k < |m.users| && m.users[k].physical == a;
      assert HoldsFrame(p, m, m.users[k].physical);
    }
  }

  lemma UsersAndTables(m: Mm, n: Mm, p: Pool, q: Pool, u: UserPage)
    requires Owning(p, m) && Owning(q, n) && n.users == m.users + [u]
    requires HoldsFrame(p, m, u.physical)
    ensures UserFrames(n) == UserFrames(m) + {u.physical}
    ensures UserFrames(n) !! m.space.tables.Values && UserFrames(n) !! n.space.tables.Values
  {
    hide Rooted, InPool, Used, At;
    assert forall k :: 0 <= k < |m.users| ==> n.users[k] == m.users[k];
    assert n.users[|m.users|] == u;
    assert forall k :: 0 <= k < |m.users| ==> HoldsFrame(p, m, m.users[k].physical);
    assert forall k :: 0 <= k < |n.users| ==> HoldsFrame(q, n, n.users[k].physical);
    forall a | a in UserFrames(m) + {u.physical}
      ensures a in UserFrames(n)
    {
      if a in UserFrames(m) {
        var k :| 0 <= k < |m.users| && m.users[k].physical == a;
        assert n.users[k].physical == a;
      }
    }
  }

  /** A process may write its own frames. */
  lemma FrameWritten(p: Pool, m: Mm, a: nat, page: Page)
    requires Owning(p, m) && a in UserFrames(m)
    ensures InPool(a) && Owning(Written(p, a, page), m)
    ensures Moves(p, Written(p, a, page), Owned(m), Owned(m))
    ensures FreePages(Written(p, a, page)) == FreePages(p)
  {
    hide Rooted, InPool, Used, At, Moves, Written;
    var k :| 0 <= k < |m.users| && m.users[k].physical == a;
    assert HoldsFrame(p, m, m.users[k].physical);
    WrittenMoves(p, a, page);
    MovesFrame(p, Written(p, a, page), {a}, {a}, Owned(m) - {a});
    assert {a} + (Owned(m) - {a}) == Owned(m);
    var tables := m.(users := []);
    TablesAlone(p, m);
    OthersKept(p, Written(p, a, page), tables, {a}, {a});
    RootedWithoutUsers(Written(p, a, page), tables, m);
  }

  /** Exactly the free page `a` has come to be mapped at `va`, holding `page`, with the tables that were missing. */
  ghost predicate Grown(p: Pool, m: Mm, q: Pool, n: Mm, va: nat, a: nat, page: Page) {
    && InPool(a) && !Used(p, a) && At(q, a) == page
    && n.users == m.users + [UserPage(a, va)]
    && n.space.frames == m.space.frames[PathOf(va) := a]
    && n.space.tables.Keys == m.space.tables.Keys + Prefixes(va)
    && m.tables <= n.tables && |n.tables| == |m.tables| + Missing(m.space, va)
    && |FreePages(q)| == |FreePages(p)| - 1 - Missing(m.space, va)
    && SameFrames(p, q, m)
  }

  /** The user pages of `m` hold the same bytes in `q` as in `p`. */
  ghost predicate SameFrames(p: Pool, q: Pool, m: Mm) {
    forall k :: 0 <= k < |m.users| ==> SameBytes(p, q, m.users[k].physical)
  }

  ghost predicate SameBytes(p: Pool, q: Pool, a: nat) {
    InPool(a) && At(q, a) == At(p, a)
  }

  /** The tables map exactly the user pages of the process. */
  ghost predicate Settled(m: Mm) {
    && (forall k :: 0 <= k < |m.users| ==> Maps(m, k))
    && (forall path :: path in m.space.frames ==> MappedBy(m, path))
  }

  ghost predicate Maps(m: Mm, k: nat)
    requires k < |m.users|
  {
    var path := PathOf(m.users[k].virtual);
    path in m.space.frames && m.space.frames[path] == m.users[k].physical
  }

  ghost predicate MappedBy(m: Mm, path: Path) {
    exists k :: 0 <= k < |m.users| && PathOf(m.users[k].virtual) == path
  }

  const REGION := 0x20_0000

  /** Every page of the process lies in the region that one last-level table covers. */
  ghost predicate Low(m: Mm) {
    && m.space.tables.Keys <= Prefixes(0)
    && forall k :: 0 <= k < |m.users| ==> m.users[k].virtual < REGION
  }

  lemma LowPrefixes(va: nat)
    requires va < REGION
    ensures Prefixes(va) == Prefixes(0)
    ensures forall s: Space :: Missing(s, va) == Missing(s, 0)
    ensures forall s: Space :: s.tables.Keys == Prefixes(0) ==> Missing(s, va) == 0
  {
    assert PgdIndex(va) == PgdIndex(0) && PudIndex(va) == PudIndex(0) && PmdIndex(va) == PmdIndex(0);
    assert PathOf(va)[..3] == PathOf(0)[..3] && PathOf(va)[..2] == PathOf(0)[..2];
    assert PathOf(va)[..1] == PathOf(0)[..1] && PathOf(va)[..0] == PathOf(0)[..0];
    SamePrefixes(va, 0);
  }

  lemma SamePrefixes(a: nat, b: nat)
    requires forall k :: 0 <= k < 4 ==> PathOf(a)[..k] == PathOf(b)[..k]
    ensures Prefixes(a) == Prefixes(b)
    ensures forall s: Space :: Missing(s, a) == Missing(s, b)
    ensures forall s: Space :: s.tables.Keys == Prefixes(a) ==> Missing(s, a) == 0
  {
    hide PathOf;
    PrefixLengths(a, 4);
    forall s: Space
      ensures Missing(s, a) == Missing(s, b)
      ensures s.tables.Keys == Prefixes(a) ==> Missing(s, a) == 0
    {
      SameMissing(s, a, b, 4);
      if s.tables.Keys == Prefixes(a) {
        NoneMissing(s, a, 4);
      }
    }
    SamePrefixSets(a, b, 4);
  }

  lemma {:induction false} SameMissing(s: Space, a: nat, b: nat, k: nat)
    requires k <= 4 && forall j :: 0 <= j < k ==> PathOf(a)[..j] == PathOf(b)[..j]
    ensures MissingTo(s, a, k) == MissingTo(s, b, k)
  {
    hide PathOf;
    if k > 0 {
      SameMissing(s, a, b, k - 1);
    }
  }

  lemma {:induction false} SamePrefixSets(a: nat, b: nat, k: nat)
    requires k <= 4 && forall j :: 0 <= j < k ==> PathOf(a)[..j] == PathOf(b)[..j]
    ensures PrefixesTo(a, k) == PrefixesTo(b, k)
  {
    hide PathOf;
    if k > 0 {
      SamePrefixSets(a, b, k - 1);
    }
  }

  lemma {:induction false} NoneMissing(s: Space, va: nat, k: nat)
    requires k <= 4 && forall j :: 0 <= j < k ==> PathOf(va)[..j] in s.tables
    ensures MissingTo(s, va, k) == 0
  {
    hide PathOf;
    if k > 0 {
      NoneMissing(s, va, k - 1);
    }
  }

  /** A low process has at most four tables. */
  lemma FewTables(p: Pool, m: Mm)
    requires Owning(p, m) && Low(m)
    ensures |m.tables| <= 4
  {
    hide Refines, PathOf;
    PrefixLengths(0, 4);
    SubsetSize(m.space.tables.Keys, Prefixes(0));
  }

  lemma SettledGrows(p: Pool, m: Mm, q: Pool, n: Mm, va: nat, a: nat, page: Page)
    requires Settled(m) && Low(m) && Grown(p, m, q, n, va, a, page)
    requires va < REGION && PathOf(va) !in m.space.frames
    ensures Settled(n) && Low(n) && n.space.tables.Keys == Prefixes(0)
  {
    hide PathOf, Prefixes, Missing;
    LowPrefixes(va);
    forall k | 0 <= k < |n.users|
      ensures Maps(n, k)
    {
      if k < |m.users| {
        assert Maps(m, k);
      }
    }
    forall path | path in n.space.frames
      ensures MappedBy(n, path)
    {
      if path in m.space.frames {
        assert MappedBy(m, path);
        var k :| 0 <= k < |m.users| && PathOf(m.users[k].virtual) == path;
        assert n.users[k] == m.users[k];
      } else {
        assert n.users[|m.users|].virtual == va;
      }
    }
  }

  /** The first `i` user pages of `n` are copies, in `q`, of those `m` had in `p`, at the same addresses. */
  ghost predicate CopyOf(p: Pool, m: Mm, q: Pool, n: Mm, i: nat) {
    && i == |n.users| <= |m.users|
    && Settled(n) && Low(n)
    && (i > 0 ==> n.space.tables.Keys == Prefixes(0))
    && forall j :: 0 <= j < i ==> SamePageAt(p, m.users[j], q, n.users[j])
  }

  ghost predicate SamePageAt(p: Pool, u: UserPage, q: Pool, v: UserPage) {
    && InPool(u.physical) && InPool(v.physical)
    && u.virtual == v.virtual && At(p, u.physical) == At(q, v.physical)
  }

  lemma NextPathNew(p: Pool, r: Pool, m: Mm, q: Pool, n: Mm, i: nat)
    requires Owning(r, m) && Settled(m) && CopyOf(p, m, q, n, i) && i < |m.users|
    ensures PathOf(m.users[i].virtual) !in n.space.frames
  {
    hide PathOf, Prefixes, Rooted;
    var path := PathOf(m.users[i].virtual);
    forall k | 0 <= k < |n.users|
      ensures PathOf(n.users[k].virtual) != path
    {
      assert SamePageAt(p, m.users[k], q, n.users[k]);
      assert Maps(m, k) && Maps(m, i);
    }
    assert path in n.space.frames ==> MappedBy(n, path);
  }

  /** One turn of the copy: a new page at the same address, filled with the bytes of the source. */
  lemma CopyStep(p: Pool, m: Mm, q: Pool, n: Mm, i: nat, r: Pool, o: Mm, a: nat, page: Page)
    requires CopyOf(p, m, q, n, i) && i < |m.users| && m.users[i].virtual < REGION
    requires Grown(q, n, r, o, m.users[i].virtual, a, page) && Owning(r, o)
    requires PathOf(m.users[i].virtual) !in n.space.frames
    requires SameBytes(p, r, m.users[i].physical)
    ensures CopyOf(p, m, Written(r, a, At(r, m.users[i].physical)), o, i + 1)
  {
    hide PathOf, Prefixes, Rooted, InPool, Missing, Used, At, Written;
    SettledGrows(q, n, r, o, m.users[i].virtual, a, page);
    var end := Written(r, a, At(r, m.users[i].physical));
    forall j | 0 <= j < i + 1
      ensures SamePageAt(p, m.users[j], end, o.users[j])
    {
      if j < i {
        assert SamePageAt(p, m.users[j], q, n.users[j]);
        assert SameBytes(q, r, n.users[j].physical);
        assert o.users[j].physical != o.users[i].physical;
      }
    }
  }

  lemma EmptyOwns(p: Pool)
    ensures Owning(p, EmptyMm()) && Settled(EmptyMm()) && Low(EmptyMm()) && Owned(EmptyMm()) == {}
    ensures Moves(p, p, {}, {})
  {
    assert (set a | a in EmptyMm().tables) == {};
  }

  // ------------------------------------------------------------------ code

  /** No user pages, and at most the translations of the sixteen pages of the program. */
  ghost predicate Bare(m: Mm) {
    && m.users == [] && m.space.tables.Keys <= Prefixes(0)
    && forall path :: path in m.space.frames ==> ProgramPath(path, MAX_PROCESS_PAGES)
  }

  ghost predicate ProgramPath(path: Path, n: nat) {
    exists k: nat :: k < n && PathOf(k * PAGE_SIZE) == path
  }

  /** What page `i` of a program holds: its share of the code, then zeros. */
  function CodePage(buffer: seq<Byte>, i: nat): Page {
    seq(PAGE_SIZE, k requires 0 <= k < PAGE_SIZE =>
        if i * PAGE_SIZE + k < |buffer| then buffer[i * PAGE_SIZE + k] else 0)
  }

  /** A page that starts with the given bytes. */
  function Padded(bytes: seq<Byte>): Page
    requires |bytes| <= PAGE_SIZE
  {
    bytes + ZeroPage()[|bytes|..]
  }

  /** The part of the code that goes to page `i`. */
  function Share(buffer: seq<Byte>, i: nat): (bytes: seq<Byte>)
    ensures |bytes| <= PAGE_SIZE
  {
    var from := if i * PAGE_SIZE <= |buffer| then i * PAGE_SIZE else |buffer|;
    var upto := if (i + 1) * PAGE_SIZE <= |buffer| then (i + 1) * PAGE_SIZE else |buffer|;
    buffer[from..upto]
  }

  ghost predicate CodeAt(p: Pool, u: UserPage, buffer: seq<Byte>, i: nat) {
    InPool(u.physical) && u.virtual == i * PAGE_SIZE && At(p, u.physical) == CodePage(buffer, i)
  }

  ghost predicate LoadedTo(p: Pool, m: Mm, buffer: seq<Byte>, n: nat) {
    && |m.users| == n && Low(m)
    && (forall k :: 0 <= k < n ==> Maps(m, k) && CodeAt(p, m.users[k], buffer, k))
    && forall path :: path in m.space.frames ==> ProgramPath(path, MAX_PROCESS_PAGES)
  }

  /** The sixteen pages of the program hold the code, and nothing else is mapped. */
  ghost predicate Loaded(p: Pool, m: Mm, buffer: seq<Byte>) {
    LoadedTo(p, m, buffer, MAX_PROCESS_PAGES) && Settled(m)
  }

  lemma BareStarts(p: Pool, m: Mm, buffer: seq<Byte>)
    requires Bare(m)
    ensures LoadedTo(p, m, buffer, 0)
  {
  }

  lemma LoadedLow(p: Pool, m: Mm, buffer: seq<Byte>, n: nat)
    requires LoadedTo(p, m, buffer, n)
    ensures Low(m) && |m.users| == n
  {
  }

  lemma GrownWritten(p: Pool, m: Mm, q: Pool, n: Mm, va: nat, a: nat, page: Page)
    requires InPool(a) && Grown(p, m, q, n, va, a, At(q, a)) && Owning(q, n)
    ensures Grown(p, m, Written(q, a, page), n, va, a, page)
  {
    hide Rooted, InPool, Used, At, Missing, Prefixes, PathOf, Written;
    var r := Written(q, a, page);
    assert n.users[|m.users|].physical == a;
    WrittenMoves(q, a, page);
    forall k | 0 <= k < |m.users|
      ensures SameBytes(p, r, m.users[k].physical)
    {
      assert SameBytes(p, q, m.users[k].physical);
      assert n.users[k] == m.users[k];
    }
  }

  /** One turn of the loading loop. */
  lemma LoadStep(p: Pool, m: Mm, q: Pool, n: Mm, buffer: seq<Byte>, i: nat, a: nat, bytes: seq<Byte>)
    requires LoadedTo(p, m, buffer, i) && i < MAX_PROCESS_PAGES
    requires bytes == Share(buffer, i)
    requires Grown(p, m, q, n, i * PAGE_SIZE, a, Padded(bytes))
    ensures LoadedTo(q, n, buffer, i + 1) && n.space.tables.Keys == Prefixes(0)
    ensures m.tables <= n.tables && |n.tables| == |m.tables| + Missing(m.space, i * PAGE_SIZE)
    ensures |FreePages(q)| == |FreePages(p)| - 1 - Missing(m.space, i * PAGE_SIZE)
  {
    hide PathOf, Prefixes, Missing, InPool, Used, At, FreePages;
    LowPrefixes(i * PAGE_SIZE);
    assert Padded(bytes) == CodePage(buffer, i);
    assert ProgramPath(PathOf(i * PAGE_SIZE), MAX_PROCESS_PAGES);
    forall k | 0 <= k < i + 1
      ensures Maps(n, k) && CodeAt(q, n.users[k], buffer, k)
    {
      if k < i {
        assert Maps(m, k) && CodeAt(p, m.users[k], buffer, k);
        assert SameBytes(p, q, m.users[k].physical);
        SamePage(k * PAGE_SIZE, i * PAGE_SIZE);
      }
    }
  }

  lemma AllLoaded(p: Pool, m: Mm, buffer: seq<Byte>)
    requires LoadedTo(p, m, buffer, MAX_PROCESS_PAGES)
    ensures Loaded(p, m, buffer)
  {
    hide PathOf, Prefixes, InPool, At;
    forall path | path in m.space.frames
      ensures MappedBy(m, path)
    {
      assert ProgramPath(path, MAX_PROCESS_PAGES);
      var k: nat :| k < MAX_PROCESS_PAGES && PathOf(k * PAGE_SIZE) == path;
      assert CodeAt(p, m.users[k], buffer, k);
    }
  }

  /** The user pages are the first pages of the program, and nothing else is mapped. */
  ghost predicate FirstPages(m: Mm) {
    && Settled(m) && Low(m) && |m.users| <= MAX_PROCESS_PAGES
    && forall k :: 0 <= k < |m.users| ==> m.users[k].virtual == k * PAGE_SIZE
  }

  /** A process that has all sixteen pages of a program. */
  ghost predicate Program(m: Mm) {
    FirstPages(m) && |m.users| == MAX_PROCESS_PAGES
  }

  /** Without its user pages the process maps at most what a program maps. */
  lemma BareAfter(m: Mm)
    requires FirstPages(m)
    ensures Bare(m.(users := []))
  {
    hide PathOf, PrefixesTo;
    forall q | q in m.space.frames
      ensures ProgramPath(q, MAX_PROCESS_PAGES)
    {
      assert MappedBy(m, q);
      var k :| 0 <= k < |m.users| && PathOf(m.users[k].virtual) == q;
      assert PathOf(k * PAGE_SIZE) == q;
    }
  }

  /** The tables on the way to a mapped page are all there. */
  lemma MappedHasTables(s: Space, va: nat)
    requires IsTree(s) && PathOf(va) in s.frames
    ensures Missing(s, va) == 0
  {
    hide PathOf;
    assert PathOf(va)[..3] == Parent(PathOf(va));
    PrefixesThere(s, PathOf(va), 3);
    NoneMissing(s, va, 4);
  }

  lemma {:induction false} PrefixesThere(s: Space, path: Path, k: nat)
    requires IsTree(s) && k <= |path| && path[..k] in s.tables
    ensures forall j :: 0 <= j <= k ==> path[..j] in s.tables
  {
    if k > 0 {
      assert Parent(path[..k]) == path[..k - 1];
      PrefixesThere(s, path, k - 1);
    }
  }

  /** A process with user pages has all the tables that a program needs. */
  lemma UsersHaveTables(p: Pool, m: Mm)
    requires Owning(p, m) && FirstPages(m) && m.users != []
    ensures Missing(m.space, 0) == 0
  {
    hide PathOf, PrefixesTo, IsTree, TableHolds;
    assert Maps(m, 0);
    MappedHasTables(m.space, 0);
  }

  lemma FirstUserSets(p: Pool, m: Mm)
    requires Owning(p, m) && m.users != []
    ensures var a := m.users[0].physical;
            && InPool(a) && Used(p, a) && Owned(m) == {a} + (Owned(m) - {a})
            && Owned(m.(users := m.users[1..])) == Owned(m) - {a}
  {
    hide Rooted, InPool, Used, At;
    var a, n := m.users[0].physical, m.(users := m.users[1..]);
    assert HoldsFrame(p, m, a);
    assert a in UserFrames(m);
    assert forall k :: 0 <= k < |n.users| ==> n.users[k] == m.users[k + 1];
    forall b
      ensures b in UserFrames(n) <==> b in UserFrames(m) && b != a
    {
      if b in UserFrames(m) && b != a {
        var k :| 0 <= k < |m.users| && m.users[k].physical == b;
        assert n.users[k - 1].physical == b;
      }
      if b in UserFrames(n) {
        var k :| 0 <= k < |n.users| && n.users[k].physical == b;
        assert m.users[k + 1].physical == b;
      }
    }
  }

  lemma FirstUserFreed(p: Pool, m: Mm)
    requires Owning(p, m) && m.users != []
    ensures InPool(m.users[0].physical)
    ensures Owning(Released(p, m.users[0].physical), m.(users := m.users[1..]))
  {
    hide Rooted, InPool, Used, At, Released, Moves, Owned;
    var a, n := m.users[0].physical, m.(users := m.users[1..]);
    FirstUserSets(p, m);
    assert Owning(p, n) by {
      RootedWithoutUsers(p, m, n);
      forall k | 0 <= k < |n.users|
        ensures HoldsFrame(p, n, n.users[k].physical)
      {
        assert HoldsFrame(p, m, m.users[k + 1].physical);
      }
    }
    ReleasedMoves(p, a);
    OthersKept(p, Released(p, a), n, {a}, {});
  }

  // ------------------------------------------------------------ allocating

  /** A cleared page that was free has come to be mapped at `va`. */
  ghost predicate NewPage(p: Pool, m: Mm, q: Pool, n: Mm, va: nat, a: nat) {
    Owning(q, n) && Grown(p, m, q, n, va, a, ZeroPage()) && Moves(p, q, Owned(m), Owned(n))
  }

  lemma PageTaken(p: Pool, m: Mm, a: nat)
    requires Owning(p, m) && InPool(a) && !Used(p, a)
    ensures var q := Taken(p, a);
            && Owning(q, m) && HoldsFrame(q, m, a) && a !in UserFrames(m)
            && |FreePages(q)| == |FreePages(p)| - 1 && FreePages(p) != {} && a > 0
  {
    hide Rooted, InPool, Used, At, FreePages, Taken, Moves;
    FreshFrame(p, m, a);
    TakenMoves(p, a);
    OthersKept(p, Taken(p, a), m, {}, {a});
    FreeHas(p, a);
    PoolBound(a);
  }

  lemma PageGained(p: Pool, m: Mm, va: nat, a: nat, q: Pool, n: Mm)
    requires Owning(p, m) && InPool(a) && !Used(p, a)
    requires |FreePages(p)| > Missing(m.space, va) ==> PageMapped(Taken(p, a), m, q, n, va, a)
    ensures |FreePages(p)| > Missing(m.space, va) ==> NewPage(p, m, q, n, va, a)
  {
    hide Rooted, InPool, Used, FreePages, Taken, Moves, UserFrames, Missing, Prefixes, PathOf, Owning;
    if |FreePages(p)| > Missing(m.space, va) {
      var p1 := Taken(p, a);
      PageTaken(p, m, a);
      TakenMoves(p, a);
      TakenClears(p, a);
      OthersKept(p, p1, m, {}, {a});
      MovesFrame(p, p1, {}, {a}, Owned(m));
      assert {} + Owned(m) == Owned(m);
      var frames := UserFrames(m) + {a};
      UsersAndTables(m, n, p1, q, UserPage(a, va));
      MovesFrame(p1, q, m.space.tables.Values, n.space.tables.Values, frames);
      assert {a} + Owned(m) == m.space.tables.Values + frames && Owned(n) == n.space.tables.Values + frames;
      MovesCompose(p, p1, q, Owned(m), {a} + Owned(m), Owned(n));
      FramesTwice(p, p1, q, m);
    }
  }

  lemma TakenClears(p: Pool, a: nat)
    requires InPool(a)
    ensures At(Taken(p, a), a) == ZeroPage()
  {
  }

  lemma FramesTwice(p: Pool, q: Pool, r: Pool, m: Mm)
    requires SameFrames(p, q, m) && SameFrames(q, r, m)
    ensures SameFrames(p, r, m)
  {
    hide InPool, At;
    forall k | 0 <= k < |m.users|
      ensures SameBytes(p, r, m.users[k].physical)
    {
      assert SameBytes(p, q, m.users[k].physical) && SameBytes(q, r, m.users[k].physical);
    }
  }

  // --------------------------------------------------------------- copying

  /** The first `i` pages of `m` have been copied, and `n` owns the copies. */
  ghost predicate CopiedTo(p: Pool, m: Mm, q: Pool, n: Mm, i: nat) {
    && Owning(q, m) && Owning(q, n) && Moves(p, q, {}, Owned(n)) && CopyOf(p, m, q, n, i)
    && |FreePages(q)| == |FreePages(p)| - i - if i == 0 then 0 else 4
  }

  ghost predicate Copied(p: Pool, m: Mm, q: Pool, n: Mm) {
    CopiedTo(p, m, q, n, |n.users|)
  }

  lemma NothingCopied(p: Pool, m: Mm)
    requires Owning(p, m)
    ensures CopiedTo(p, m, p, EmptyMm(), 0) && 0 !in EmptyMm().tables
  {
    hide Rooted, Moves;
    EmptyOwns(p);
  }

  lemma EmptyMissing(va: nat)
    ensures Missing(EmptyMm().space, va) == 4
  {
    hide PathOf;
    assert MissingTo(EmptyMm().space, va, 0) == 0;
    assert MissingTo(EmptyMm().space, va, 1) == 1;
    assert MissingTo(EmptyMm().space, va, 2) == 2;
    assert MissingTo(EmptyMm().space, va, 3) == 3;
  }

  lemma CopyReady(p: Pool, m: Mm, q: Pool, n: Mm, i: nat)
    requires CopiedTo(p, m, q, n, i) && i < |m.users| <= MAX_PROCESS_PAGES && Low(m)
    ensures var va := m.users[i].virtual;
            && Owning(q, n) && |n.users| == i && |n.tables| + Missing(n.space, va) <= MAX_PROCESS_PAGES
            && (i > 0 ==> Missing(n.space, va) == 0)
            && |FreePages(q)| == |FreePages(p)| - i - if i == 0 then 0 else 4
  {
    hide Rooted, Moves, PathOf, PrefixesTo, MissingTo, Settled, FreePages;
    LowPrefixes(m.users[i].virtual);
    FewTables(q, n);
  }

  lemma UserInPool(p: Pool, m: Mm, k: nat)
    requires Owning(p, m) && k < |m.users|
    ensures InPool(m.users[k].physical)
  {
    assert HoldsFrame(p, m, m.users[k].physical);
  }

  lemma CopyKeepsFree(p: Pool, to: nat, from: nat)
    requires InPool(to) && InPool(from)
    ensures FreePages(Written(p, to, At(p, from))) == FreePages(p)
  {
    hide InPool, FreePages, Moves, Written;
    WrittenMoves(p, to, At(p, from));
  }

  lemma CopyTurn(p: Pool, m: Mm, q: Pool, n: Mm, i: nat, r: Pool, o: Mm, a: nat)
    requires CopiedTo(p, m, q, n, i) && i < |m.users| && Settled(m) && Low(m) && Owning(p, m)
    requires NewPage(q, n, r, o, m.users[i].virtual, a)
    requires Missing(n.space, m.users[i].virtual) == if i == 0 then 4 else 0
    ensures InPool(m.users[i].physical) && InPool(a)
    ensures CopiedTo(p, m, Written(r, a, At(r, m.users[i].physical)), o, i + 1)
  {
    hide Settled, Rooted, Moves, Used, At, FreePages, Missing, Written, Prefixes, PathOf, Owned, UserFrames,
      SamePageAt, Owning, InPool, SameBytes;
    UserInPool(p, m, i);
    var end := Written(r, a, At(r, m.users[i].physical));
    LowAt(m, i);
    MovesCompose(p, q, r, {}, Owned(n), Owned(o));
    OthersKept(p, r, m, {}, Owned(o));
    NextPathNew(p, q, m, q, n, i);
    assert SameBytes(p, r, m.users[i].physical);
    CopyStep(p, m, q, n, i, r, o, a, ZeroPage());
    UserFrameOwned(o, i);
    FrameWritten(r, o, a, At(r, m.users[i].physical));
    MovesCompose(p, r, end, {}, Owned(o), Owned(o));
    OthersKept(p, end, m, {}, Owned(o));
    CopyKeepsFree(r, a, m.users[i].physical);
  }

  lemma CopyEnds(p: Pool, m: Mm, q: Pool, n: Mm, i: nat)
    requires CopiedTo(p, m, q, n, i)
    ensures Copied(p, m, q, n) && |n.users| == i
    ensures |FreePages(q)| == |FreePages(p)| - i - if i == 0 then 0 else 4
  {
  }

  // --------------------------------------------------------------- loading

  lemma PageFilled(p: Pool, m: Mm, q: Pool, n: Mm, va: nat, a: nat, bytes: seq<Byte>, r: Pool)
    requires InPool(a) && |bytes| <= PAGE_SIZE && r == Written(q, a, bytes + At(q, a)[|bytes|..])
    ensures FreePages(r) == FreePages(q)
    ensures NewPage(p, m, q, n, va, a) ==>
              && Owning(r, n) && Grown(p, m, r, n, va, a, Padded(bytes))
              && Moves(p, r, Owned(m), Owned(n))
  {
    hide Rooted, Moves, InPool, Used, FreePages, Missing, Written, Prefixes, PathOf, Owned, UserFrames, Owning;
    WrittenMoves(q, a, bytes + At(q, a)[|bytes|..]);
    if NewPage(p, m, q, n, va, a) {
      UserFrameOwned(n, |m.users|);
      FrameWritten(q, n, a, Padded(bytes));
      MovesCompose(p, q, r, Owned(m), Owned(n), Owned(n));
      GrownWritten(p, m, q, n, va, a, Padded(bytes));
    }
  }

  /** The code has come to the pages of the process, and nothing else has changed. */
  ghost predicate CodeLoaded(p: Pool, m: Mm, q: Pool, n: Mm, buffer: seq<Byte>) {
    && Owning(q, n) && Loaded(q, n, buffer) && Moves(p, q, Owned(m), Owned(n))
    && m.tables <= n.tables && |n.tables| == |m.tables| + Missing(m.space, 0)
    && |FreePages(q)| == |FreePages(p)| - MAX_PROCESS_PAGES - Missing(m.space, 0)
  }

  /** The first `i` pages are loaded. */
  ghost predicate LoadingTo(p: Pool, m: Mm, q: Pool, n: Mm, buffer: seq<Byte>, i: nat) {
    var created := if i == 0 then 0 else Missing(m.space, 0);
    && Owning(q, n) && Moves(p, q, Owned(m), Owned(n)) && LoadedTo(q, n, buffer, i)
    && m.tables <= n.tables && |n.tables| == |m.tables| + created
    && (if i == 0 then n.space == m.space else n.space.tables.Keys == Prefixes(0))
    && |FreePages(q)| == |FreePages(p)| - i - created
  }

  lemma LoadingStarts(p: Pool, m: Mm, buffer: seq<Byte>)
    requires Owning(p, m) && Bare(m)
    ensures LoadingTo(p, m, p, m, buffer, 0)
  {
    hide Owning, Moves;
    BareStarts(p, m, buffer);
    MovesNothing(p, Owned(m));
  }

  lemma LoadReady(p: Pool, m: Mm, q: Pool, n: Mm, buffer: seq<Byte>, i: nat)
    requires LoadingTo(p, m, q, n, buffer, i) && i < MAX_PROCESS_PAGES
    ensures Owning(q, n) && |n.users| == i
    ensures |n.tables| + Missing(n.space, i * PAGE_SIZE) <= MAX_PROCESS_PAGES
    ensures Missing(n.space, i * PAGE_SIZE) == if i == 0 then Missing(m.space, 0) else 0
    ensures |FreePages(q)| == |FreePages(p)| - i - if i == 0 then 0 else Missing(m.space, 0)
  {
    hide Owning, Moves, MissingTo, PrefixesTo, PathOf, FreePages;
    LowPrefixes(i * PAGE_SIZE);
    LoadedLow(q, n, buffer, i);
    FewTables(q, n);
  }

  lemma LoadTurn(p: Pool, m: Mm, q: Pool, n: Mm, r: Pool, o: Mm, buffer: seq<Byte>, i: nat, a: nat, bytes: seq<Byte>)
    requires i < MAX_PROCESS_PAGES && bytes == Share(buffer, i) && LoadingTo(p, m, q, n, buffer, i)
    requires Owning(r, o) && Grown(q, n, r, o, i * PAGE_SIZE, a, Padded(bytes))
    requires Moves(q, r, Owned(n), Owned(o))
    ensures LoadingTo(p, m, r, o, buffer, i + 1)
  {
    hide Owning, Moves, Missing, Prefixes, PathOf, FreePages, LoadedTo, Grown, Owned, Share, Padded;
    LoadReady(p, m, q, n, buffer, i);
    LoadStep(q, n, r, o, buffer, i, a, bytes);
    MovesCompose(p, q, r, Owned(m), Owned(n), Owned(o));
  }

  lemma LoadEnds(p: Pool, m: Mm, q: Pool, n: Mm, buffer: seq<Byte>)
    requires LoadingTo(p, m, q, n, buffer, MAX_PROCESS_PAGES)
    ensures CodeLoaded(p, m, q, n, buffer) && |FreePages(p)| >= MAX_PROCESS_PAGES + Missing(m.space, 0)
  {
    hide Owning, Moves, Missing, Prefixes, FreePages, LoadedTo, Owned;
    AllLoaded(q, n, buffer);
  }

  // ------------------------------------------------------------- replacing

  /** The pages of the process have been replaced by the code. */
  ghost predicate Executed(p: Pool, m: Mm, q: Pool, n: Mm, buffer: seq<Byte>) {
    && Owning(q, n) && Loaded(q, n, buffer) && Moves(p, q, Owned(m), Owned(n))
    && m.tables <= n.tables && |n.tables| == |m.tables| + Missing(m.space, 0)
    && |FreePages(q)| == |FreePages(p)| + |m.users| - MAX_PROCESS_PAGES - Missing(m.space, 0)
  }

  lemma ProgramNeedsNothing(p: Pool, m: Mm)
    requires Owning(p, m) && FirstPages(m)
    ensures Program(m) ==> Missing(m.space, 0) == 0 && |m.users| == MAX_PROCESS_PAGES
  {
    hide Owning, Missing, Settled, Low;
    if |m.users| == MAX_PROCESS_PAGES {
      UsersHaveTables(p, m);
    }
  }

  lemma ExecDone(p: Pool, m: Mm, q: Pool, n: Mm, r: Pool, o: Mm, buffer: seq<Byte>)
    requires n == m.(users := []) && Moves(p, q, Owned(m), Owned(n)) && CodeLoaded(q, n, r, o, buffer)
    requires |FreePages(q)| == |FreePages(p)| + |m.users|
    ensures Executed(p, m, r, o, buffer)
  {
    hide Owning, Moves, Missing, FreePages, Loaded, Owned;
    MovesCompose(p, q, r, Owned(m), Owned(n), Owned(o));
  }

  lemma KernelAddress(a: nat)
    requires InPool(a)
    ensures (a + VA_START) % PAGE_SIZE == 0
  {
  }
}
