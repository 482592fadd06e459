/**
 A mounted volume: the disk behind it, the one-sector write-back cache, and the
 allocation table and cluster chains reached through that cache.

 `Image()` is the logical disk, the sectors of the device overlaid by the cached
 sector while it is dirty. Every operation is specified by what it does to it.
 */
module FatVolume {
  import opened FatImage
  import opened FatChains
  import opened SetSizes
  import opened DiskLayout

  const FAT_ERR_NONE: int := 0
  const FAT_ERR_BROKEN: int := -2
  const FAT_ERR_IO: int := -3
  const FAT_ERR_PARAM: int := -4
  const FAT_ERR_EOF: int := -6
  const FAT_ERR_DENIED: int := -7
  const FAT_ERR_FULL: int := -8

  const UINT32 := 0x1_0000_0000

  /** A `uint32_t` holding the integer `x`, wrapped around as often as needed. */
  function Wrapped(x: int): (r: nat)
    ensures r < UINT32
  {
    x % UINT32
  }

  lemma WrappedAdd(x: int, y: int)
    ensures Wrapped(Wrapped(x) + y) == Wrapped(x + y)
  {
  }

  /**
   The block device. Any transfer may fail; `failed` is the device's own record
   that one has, so that contracts can speak of runs without a disk error.
   */
  class Disk {
    var sectors: seq<Sector>
    var failed: bool

    constructor (sectors: seq<Sector>)
      ensures this.sectors == sectors && !failed
    {
      this.sectors := sectors;
      failed := false;
    }

    /** A failed read delivers garbage. */
    method Read(sect: nat) returns (ok: bool, data: Sector)
      modifies this`failed
      ensures failed == (old(failed) || !ok)
      ensures ok ==> sect < |sectors| && data == sectors[sect]
    {
      var garbage: Sector :| true;
      ok, data := false, garbage;
      if sect < |sectors| {
        ok := *;
        if ok {
          data := sectors[sect];
        }
      }
      failed := failed || !ok;
    }

    /** A failed write may leave garbage in the sector it was meant for. */
    method Write(data: Sector, sect: nat) returns (ok: bool)
      modifies this
      ensures failed == (old(failed) || !ok)
      ensures |sectors| == |old(sectors)|
      ensures forall s :: 0 <= s < |sectors| && s != sect ==> sectors[s] == old(sectors)[s]
      ensures ok ==> sect < |sectors| && sectors[sect] == data
    {
      ok := false;
      if sect < |sectors| {
        ok := *;
        var junk: Sector :| true;
        sectors := sectors[sect := if ok then data else junk];
      }
      failed := failed || !ok;
    }
  }

  // ------------------------------------------- image-level specifications

  const INFO_FREE_CNT := 488
  const INFO_NEXT_FREE := 492

  /** The volume with its FSInfo sector telling the given allocation hint and count. */
  function WithInfo(g: Geometry, img: Image, lastUsed: nat, freeCnt: nat): (r: Image)
    requires g.infoSect < |img| && lastUsed < UINT32 && freeCnt < UINT32
    ensures |r| == |img|
    ensures forall s :: 0 <= s < |img| && s != g.infoSect ==> r[s] == img[s]
  {
    img[g.infoSect :=
      WithWord(WithWord(img[g.infoSect], INFO_NEXT_FREE, lastUsed), INFO_FREE_CNT, freeCnt)]
  }

  /** The volume with every sector of cluster `c` zero. */
  function Cleared(g: Geometry, img: Image, c: nat): (r: Image)
    requires g.WellFormed(|img|) && g.IsCluster(c)
    ensures |r| == |img|
    ensures forall s :: 0 <= s < |img| && g.InCluster(s, c) ==> r[s] == ZeroSector()
    ensures forall s :: 0 <= s < |img| && !g.InCluster(s, c) ==> r[s] == img[s]
  {
    seq(|img|, s requires 0 <= s < |img| => if g.InCluster(s, c) then ZeroSector() else img[s])
  }

  /** The table does not see sectors outside its own. */
  lemma TableFrame(g: Geometry, a: Image, b: Image)
    requires |a| == |b| && g.WellFormed(|a|)
    requires forall s :: 0 <= s < |a| && g.InTable(s) ==> a[s] == b[s]
    ensures Table(g, a) == Table(g, b)
  {
    hide EntryIn, NibbleIn;
    forall c | 0 <= c < g.clustCnt
      ensures EntryIn(a, g.fat0, c) == EntryIn(b, g.fat0, c)
    {
      EntryFrame(a, b, g.fat0, c);
    }
  }

  /** Is `c` met strictly before `to` when the table is searched cyclically from behind `from`? */
  predicate MetBefore(from: nat, c: nat, to: nat) {
    if from < to then from < c < to else from < c || c < to
  }

  /** Has `c` been looked at when the search that started behind `from` stands at `at`? */
  predicate Passed(from: nat, c: nat, at: nat) {
    at != from && (MetBefore(from, c, at) || c == at)
  }

  function Following(c: nat, clustCnt: nat): (f: nat)
    ensures clustCnt > 2 ==> 2 <= f < clustCnt || c == 0
  {
    if c + 1 >= clustCnt then 2 else c + 1
  }

  /** Does the search for a free cluster stop at entry `c`, because it is free or cannot be read? */
  predicate Stops(t: seq<nat>, c: nat)
    requires c < |t|
  {
    t[c] == 0 || KindOf(t[c], |t|).Broken?
  }

  /**
   Nothing the search from behind `from` meets before `to` stops it; for `to` ==
   `from` that is the whole way round.
   */
  ghost predicate ClearTo(t: seq<nat>, from: nat, to: nat) {
    forall d :: 2 <= d < |t| && MetBefore(from, d, to) ==> !Stops(t, d)
  }

  /** The entry at which the search from behind `lastUsed` stops. */
  ghost predicate FirstStop(t: seq<nat>, lastUsed: nat, c: nat) {
    2 <= c < |t| && c != lastUsed && Stops(t, c) && ClearTo(t, lastUsed, c)
  }

  /** The flags of the entry looked at just before `c`, or `flags0` when `c` is the first one. */
  function FlagsBefore(t: seq<nat>, lastUsed: nat, c: nat, flags0: nat): nat
    requires 2 < |t| && 2 <= c < |t|
  {
    if Following(lastUsed, |t|) == c then flags0
    else KindOf(t[if c == 2 then |t| - 1 else c - 1], |t|).Flags()
  }

  /** When a chain is stretched the cluster behind its end is looked at first. */
  predicate SuccessorFree(t: seq<nat>, prev: nat)
    requires 2 < |t|
  {
    prev != 0 && t[Following(prev, |t|)] == 0
  }

  predicate SuccessorBroken(t: seq<nat>, prev: nat)
    requires 2 < |t|
  {
    prev != 0 && KindOf(t[Following(prev, |t|)], |t|).Broken?
  }

  /**
   The cluster `stretch_chain` takes: the one behind `prev` when that is free,
   else the free entry at which the search from behind `lastUsed` stops.
   */
  ghost predicate Chosen(t: seq<nat>, prev: nat, lastUsed: nat, c: nat)
    requires 2 < |t|
  {
    && 2 <= c < |t|
    && t[c] == 0
    && (SuccessorFree(t, prev) ==> c == Following(prev, |t|))
    && (!SuccessorFree(t, prev) ==> !SuccessorBroken(t, prev) && FirstStop(t, lastUsed, c))
  }

  ghost predicate Takes(t: seq<nat>, prev: nat, lastUsed: nat)
    requires 2 < |t|
  {
    exists c :: Chosen(t, prev, lastUsed, c)
  }

  /** The search comes back empty-handed exactly here. */
  ghost predicate NoneFree(t: seq<nat>, prev: nat, lastUsed: nat)
    requires 2 < |t|
  {
    !SuccessorFree(t, prev) && !SuccessorBroken(t, prev) && ClearTo(t, lastUsed, lastUsed)
  }

  /** The search stops at an entry that cannot be read. */
  ghost predicate Flagged(t: seq<nat>, prev: nat, lastUsed: nat, c: nat)
    requires 2 < |t|
  {
    && !SuccessorFree(t, prev) && !SuccessorBroken(t, prev)
    && FirstStop(t, lastUsed, c) && KindOf(t[c], |t|).Broken?
  }

  /**
   What `stretch_chain` answers when it cannot read entry `c` during the search:
   the flags of the entry it has read before, and `junk`, what the variable holds
   uninitialised, when there is none.
   */
  function FlagAnswer(t: seq<nat>, prev: nat, lastUsed: nat, c: nat, junk: nat): nat
    requires 2 < |t| && 2 <= c < |t|
  {
    FlagsBefore(t, lastUsed, c, if prev == 0 then junk else KindOf(t[Following(prev, |t|)], |t|).Flags())
  }

  /** The flags of an entry that did not stop the search are none of the error codes, and not success. */
  lemma FlagAnswerIs(t: seq<nat>, prev: nat, lastUsed: nat, c: nat, junk: nat)
    requires 2 <= lastUsed < |t| && 2 <= c < |t| && c != lastUsed && ClearTo(t, lastUsed, c)
    requires (prev == 0 || 2 <= prev < |t|) && !SuccessorFree(t, prev) && !SuccessorBroken(t, prev)
    ensures prev != 0 || Following(lastUsed, |t|) != c ==> FlagAnswer(t, prev, lastUsed, c, junk) in {2, 6, 8}
  {
    var b := if c == 2 then |t| - 1 else c - 1;
    if Following(lastUsed, |t|) != c {
      assert MetBefore(lastUsed, b, c) && !Stops(t, b);
    }
  }

  lemma OneStop(t: seq<nat>, lastUsed: nat, c: nat, d: nat)
    requires FirstStop(t, lastUsed, c) && 2 <= lastUsed < |t|
    ensures FirstStop(t, lastUsed, d) ==> c == d
    ensures !ClearTo(t, lastUsed, lastUsed)
  {
    assert MetBefore(lastUsed, c, lastUsed);
    if c != d && d != lastUsed {
      MetEither(lastUsed, c, d);
    }
  }

  lemma MetEither(from: nat, c: nat, d: nat)
    requires c != d && c != from && d != from
    ensures MetBefore(from, c, d) || MetBefore(from, d, c)
  {
  }

  lemma NoneFreeElsewhere(t: seq<nat>, prev: nat, lastUsed: nat)
    requires 2 < |t| && NoneFree(t, prev, lastUsed)
    ensures forall d :: 2 <= d < |t| && d != lastUsed ==> t[d] != 0 && !KindOf(t[d], |t|).Broken?
  {
    forall d | 2 <= d < |t| && d != lastUsed
      ensures t[d] != 0 && !KindOf(t[d], |t|).Broken?
    {
      assert MetBefore(lastUsed, d, lastUsed) && !Stops(t, d);
    }
  }

  /** The search stops somewhere or goes all the way round. */
  lemma {:induction false} SomeStop(t: seq<nat>, lastUsed: nat, at: nat) returns (c: nat)
    requires 2 <= lastUsed < |t| && 2 <= at < |t|
    requires forall d :: 2 <= d < |t| && Passed(lastUsed, d, at) ==> !Stops(t, d)
    ensures c == lastUsed ==> ClearTo(t, lastUsed, lastUsed)
    ensures c != lastUsed ==> FirstStop(t, lastUsed, c)
    decreases if at < lastUsed then lastUsed - at else |t| - at + lastUsed
  {
    c := Following(at, |t|);
    if c != lastUsed && !Stops(t, c) {
      c := SomeStop(t, lastUsed, c);
    }
  }

  /**
   The four outcomes of `stretch_chain` without a disk error: the entry behind the
   chain cannot be read, a cluster is taken, the volume is full, or the search
   meets an entry that cannot be read. Exactly one of them is the case.
   */
  lemma StretchOutcomes(t: seq<nat>, prev: nat, lastUsed: nat) returns (c: nat)
    requires 2 <= lastUsed < |t|
    ensures SuccessorBroken(t, prev) || Takes(t, prev, lastUsed) || NoneFree(t, prev, lastUsed)
            || Flagged(t, prev, lastUsed, c)
    ensures SuccessorBroken(t, prev) ==> !Takes(t, prev, lastUsed) && !NoneFree(t, prev, lastUsed)
    ensures Takes(t, prev, lastUsed) ==> !NoneFree(t, prev, lastUsed)
    ensures SuccessorBroken(t, prev) || Takes(t, prev, lastUsed) || NoneFree(t, prev, lastUsed) ==>
              forall d :: !Flagged(t, prev, lastUsed, d)
  {
    c := SomeStop(t, lastUsed, lastUsed);
    if c != lastUsed {
      OneStop(t, lastUsed, c, c);
      forall d | FirstStop(t, lastUsed, d)
        ensures d == c
      {
        OneStop(t, lastUsed, c, d);
      }
    }
    if SuccessorFree(t, prev) {
      assert Chosen(t, prev, lastUsed, Following(prev, |t|));
    } else if c != lastUsed && t[c] == 0 && !SuccessorBroken(t, prev) {
      assert Chosen(t, prev, lastUsed, c);
    }
  }

  /** On a table without broken entries a cluster is taken or the volume is full. */
  lemma ReadableTakes(t: seq<nat>, prev: nat, lastUsed: nat)
    requires Readable(t) && 2 <= lastUsed < |t| && (prev == 0 || 2 <= prev < |t|)
    ensures Takes(t, prev, lastUsed) <==> !NoneFree(t, prev, lastUsed)
    ensures !SuccessorBroken(t, prev)
  {
    var c := StretchOutcomes(t, prev, lastUsed);
  }

  /**
   From `t` and `u` to `t'` and `u'` the chain `ch` has grown to `ch'` by calls of
   `stretch_chain`, each of which has taken the cluster it chooses.
   */
  ghost predicate Took(t: seq<nat>, ch: seq<nat>, u: nat, t': seq<nat>, ch': seq<nat>, u': nat)
    decreases |ch'| - |ch|
  {
    && 0 < |ch| && 2 < |t| && ch[|ch| - 1] < |t|
    && if |ch'| <= |ch| then ch' == ch && t' == t && u' == u
       else
         var c := ch'[|ch|];
         Chosen(t, ch[|ch| - 1], u, c) && Took(Stretched(t, ch[|ch| - 1], c), ch + [c], c, t', ch', u')
  }

  lemma ChosenInTable(t: seq<nat>, prev: nat, u: nat, c: nat)
    requires 2 < |t| && Chosen(t, prev, u, c)
    ensures 2 <= c < |t| && t[c] == 0 && !NoneFree(t, prev, u)
  {
  }

  /** When the chain has grown the search was not empty-handed at first, and the cluster used last is in use. */
  lemma {:induction false} TookFacts(t: seq<nat>, ch: seq<nat>, u: nat, t': seq<nat>, ch': seq<nat>, u': nat)
    requires Took(t, ch, u, t', ch', u')
    ensures |t'| == |t| && ch <= ch'
    ensures ch' == ch ==> t' == t && u' == u
    ensures ch' != ch ==> !NoneFree(t, ch[|ch| - 1], u) && 2 <= u' < |t'| && t'[u'] != 0
    decreases |ch'| - |ch|
  {
    if |ch'| > |ch| {
      var c := ch'[|ch|];
      ChosenInTable(t, ch[|ch| - 1], u, c);
      TookFacts(Stretched(t, ch[|ch| - 1], c), ch + [c], c, t', ch', u');
    }
  }

  lemma TookNothing(t: seq<nat>, ch: seq<nat>, u: nat)
    requires IsChain(t, ch)
    ensures Took(t, ch, u, t, ch, u)
  {
  }

  lemma TookOne(t: seq<nat>, ch: seq<nat>, u: nat, c: nat)
    requires IsChain(t, ch) && Chosen(t, ch[|ch| - 1], u, c)
    ensures Took(t, ch, u, Stretched(t, ch[|ch| - 1], c), ch + [c], c)
  {
    hide Chosen;
    ChosenInTable(t, ch[|ch| - 1], u, c);
    assert (ch + [c])[|ch|] == c;
  }

  lemma {:induction false} TookTwice(t: seq<nat>, ch: seq<nat>, u: nat, t1: seq<nat>, ch1: seq<nat>, u1: nat,
                                     t2: seq<nat>, ch2: seq<nat>, u2: nat)
    requires Took(t, ch, u, t1, ch1, u1) && Took(t1, ch1, u1, t2, ch2, u2)
    ensures Took(t, ch, u, t2, ch2, u2)
    decreases |ch1| - |ch|
  {
    hide Chosen;
    if |ch1| > |ch| {
      var c := ch1[|ch|];
      TookFacts(t1, ch1, u1, t2, ch2, u2);
      TookTwice(Stretched(t, ch[|ch| - 1], c), ch + [c], c, t1, ch1, u1, t2, ch2, u2);
    }
  }

  /**
   What was free when the search came back empty-handed: nothing but what the chain has
   taken, if it took anything.
   */
  lemma TookAll(t: seq<nat>, ch: seq<nat>, u: nat, t': seq<nat>, ch': seq<nat>, u': nat)
    requires IsChain(t, ch) && Grown(t, ch, t', ch') && Took(t, ch, u, t', ch', u')
    requires NoneFree(t', ch'[|ch'| - 1], u')
    ensures NoneFree(t, ch[|ch| - 1], u) || |FreeClusters(t)| == |ch'| - |ch|
  {
    TookFacts(t, ch, u, t', ch', u');
    if ch' != ch {
      GrownFree(t, ch, t', ch');
      NoneFreeElsewhere(t', ch'[|ch'| - 1], u');
      assert FreeClusters(t') == {};
    }
  }

  /** Then at most one cluster is free, the one used last. */
  lemma NoneFreeButOne(t: seq<nat>, prev: nat, u: nat)
    requires 2 < |t| && NoneFree(t, prev, u)
    ensures |FreeClusters(t)| <= 1
  {
    NoneFreeElsewhere(t, prev, u);
    SubsetSize(FreeClusters(t), {u});
  }

  /** There are free clusters for the chain to grow to `n` clusters. */
  ghost predicate RoomFor(t: seq<nat>, ch: seq<nat>, u: nat, n: nat)
    requires IsChain(t, ch)
  {
    n <= |ch| || (!NoneFree(t, ch[|ch| - 1], u) && n <= |ch| + |FreeClusters(t)|)
  }

  /** A chain that has come to `n` clusters had room, and one that could not had none. */
  lemma RoomTold(t: seq<nat>, ch: seq<nat>, u: nat, t': seq<nat>, ch': seq<nat>, u': nat, n: nat)
    requires IsChain(t, ch) && Grown(t, ch, t', ch') && Took(t, ch, u, t', ch', u')
    ensures n <= |ch'| ==> RoomFor(t, ch, u, n)
    ensures |ch'| < n && NoneFree(t', ch'[|ch'| - 1], u') ==> !RoomFor(t, ch, u, n)
  {
    hide NoneFree, Took;
    TookFacts(t, ch, u, t', ch', u');
    GrownFree(t, ch, t', ch');
    if |ch'| < n && NoneFree(t', ch'[|ch'| - 1], u') {
      TookAll(t, ch, u, t', ch', u');
    }
  }

  /**
   While the chain is stretched to `n` clusters the search meets no free entry without
   sectors behind it: whatever it hands out is a cluster of the volume.
   */
  ghost predicate Backed(g: Geometry, t: seq<nat>, ch: seq<nat>, u: nat, n: nat)
    decreases n - |ch|
  {
    0 < |ch| < n && 2 < |t| && ch[|ch| - 1] < |t| ==>
      forall c :: Chosen(t, ch[|ch| - 1], u, c) ==>
        g.IsCluster(c) && Backed(g, Stretched(t, ch[|ch| - 1], c), ch + [c], c, n)
  }

  lemma {:induction false} BackedLess(g: Geometry, t: seq<nat>, ch: seq<nat>, u: nat, m: nat, n: nat)
    requires m <= n && Backed(g, t, ch, u, n)
    ensures Backed(g, t, ch, u, m)
    decreases m - |ch|
  {
    if 0 < |ch| < m && 2 < |t| && ch[|ch| - 1] < |t| {
      forall c | Chosen(t, ch[|ch| - 1], u, c)
        ensures g.IsCluster(c) && Backed(g, Stretched(t, ch[|ch| - 1], c), ch + [c], c, m)
      {
        BackedLess(g, Stretched(t, ch[|ch| - 1], c), ch + [c], c, m, n);
      }
    }
  }

  lemma BackedNext(g: Geometry, t: seq<nat>, ch: seq<nat>, u: nat, c: nat)
    requires 0 < |ch| && 2 < |t| && ch[|ch| - 1] < |t|
    requires Backed(g, t, ch, u, |ch| + 1) && Chosen(t, ch[|ch| - 1], u, c)
    ensures g.IsCluster(c)
  {
    hide Chosen;
  }

  /** That stays so as the chain is stretched. */
  lemma {:induction false} BackedTook(g: Geometry, t: seq<nat>, ch: seq<nat>, u: nat,
                                      t': seq<nat>, ch': seq<nat>, u': nat, n: nat)
    requires Backed(g, t, ch, u, n) && Took(t, ch, u, t', ch', u')
    ensures Backed(g, t', ch', u', n)
    decreases |ch'| - |ch|
  {
    hide Chosen;
    if |ch'| > |ch| {
      var c := ch'[|ch|];
      if |ch| < n {
        BackedTook(g, Stretched(t, ch[|ch| - 1], c), ch + [c], c, t', ch', u', n);
      }
    }
  }

  lemma BackedOn(g: Geometry, t: seq<nat>, ch: seq<nat>, u: nat, t': seq<nat>, ch': seq<nat>, u': nat, m: nat, n: nat)
    requires Backed(g, t, ch, u, n) && Took(t, ch, u, t', ch', u') && m <= n
    ensures Backed(g, t', ch', u', m)
  {
    hide Backed, Took;
    BackedTook(g, t, ch, u, t', ch', u', n);
    BackedLess(g, t', ch', u', m, n);
  }

  /** Where no entry without sectors is free any chain can be stretched that far. */
  lemma {:induction false} FencedBacked(g: Geometry, t: seq<nat>, ch: seq<nat>, u: nat, n: nat)
    requires forall c :: g.clustEnd <= c < |t| ==> t[c] != 0
    ensures Backed(g, t, ch, u, n)
    decreases n - |ch|
  {
    if 0 < |ch| < n && 2 < |t| && ch[|ch| - 1] < |t| {
      forall c | Chosen(t, ch[|ch| - 1], u, c)
        ensures g.IsCluster(c) && Backed(g, Stretched(t, ch[|ch| - 1], c), ch + [c], c, n)
      {
        FencedBacked(g, Stretched(t, ch[|ch| - 1], c), ch + [c], c, n);
      }
    }
  }

  /**
   From `a` to `b` only allocation data changed: every sector outside the table
   copies and FSInfo is the same, copies that agreed on an entry still do, and no
   word of the table lost its top nibble.
   */
  ghost predicate OnlyTables(g: Geometry, a: Image, b: Image)
    requires g.WellFormed(|a|)
  {
    && |b| == |a|
    && (forall s :: 0 <= s < |a| && !g.InTable(s) && s != g.infoSect ==> b[s] == a[s])
    && InfoKept(a[g.infoSect], b[g.infoSect])
    && (forall d: nat :: d < g.clustCnt ==> EntryKept(g, a, b, d))
  }

  ghost predicate EntryKept(g: Geometry, a: Image, b: Image, d: nat)
    requires g.WellFormed(|a|) && |b| == |a| && d < g.clustCnt
  {
    && (CopiesAgreeAt(g, a, d) ==> CopiesAgreeAt(g, b, d))
    && NibbleIn(b, g.fat0, d) == NibbleIn(a, g.fat0, d)
    && (g.fat1 != 0 ==> NibbleIn(b, g.fat1, d) == NibbleIn(a, g.fat1, d))
  }

  lemma OnlyTablesRefl(g: Geometry, a: Image)
    requires g.WellFormed(|a|)
    ensures OnlyTables(g, a, a)
  {
  }

  lemma OnlyTablesTrans(g: Geometry, a: Image, b: Image, c: Image)
    requires g.WellFormed(|a|) && OnlyTables(g, a, b) && OnlyTables(g, b, c)
    ensures OnlyTables(g, a, c)
  {
    hide CopiesAgreeAt, NibbleIn, EntryIn;
    forall d: nat | d < g.clustCnt
      ensures EntryKept(g, a, c, d)
    {
      assert EntryKept(g, a, b, d) && EntryKept(g, b, c, d);
    }
  }

  lemma OnlyTablesPut(g: Geometry, a: Image, c: nat, v: nat)
    requires g.WellFormed(|a|) && c < g.clustCnt
    ensures OnlyTables(g, a, Put(g, a, c, v))
  {
    hide CopiesAgreeAt, NibbleIn, EntryIn, Put;
    assert Put(g, a, c, v)[g.infoSect] == a[g.infoSect];
    forall d: nat | d < g.clustCnt
      ensures EntryKept(g, a, Put(g, a, c, v), d)
    {
      PutMirrors(g, a, c, v, d);
    }
  }

  /** FSInfo is not part of the table. */
  lemma WithInfoKeepsTable(g: Geometry, a: Image, lastUsed: nat, freeCnt: nat)
    requires g.WellFormed(|a|) && lastUsed < UINT32 && freeCnt < UINT32
    ensures OnlyTables(g, a, WithInfo(g, a, lastUsed, freeCnt))
    ensures Table(g, WithInfo(g, a, lastUsed, freeCnt)) == Table(g, a)
  {
    hide NibbleIn, EntryIn, WithInfo;
    var b := WithInfo(g, a, lastUsed, freeCnt);
    TableFrame(g, a, b);
    WithInfoTells(g, a, lastUsed, freeCnt);
    forall d: nat | d < g.clustCnt
      ensures EntryKept(g, a, b, d)
    {
      EntryFrame(a, b, g.fat0, d);
      if g.fat1 != 0 {
        EntryFrame(a, b, g.fat1, d);
      }
    }
  }

  /** The table is the one that the layout describes. */
  lemma TableTells(g: Geometry, img: Image, c: nat)
    requires g.WellFormed(|img|) && c < g.clustCnt
    ensures g.fat0 + c / 128 < |img| && Table(g, img)[c] == TableEntry(img, g.fat0, c)
  {
    WordIsFour(img[g.fat0 + c / 128], 4 * (c % 128));
  }

  /** And its entries are understood as it says. */
  lemma KindTells(v: nat, entries: nat)
    requires v < 0x1000_0000 && entries <= 0x0fff_fff7
    ensures KindOf(v, entries).Free? <==> MeansFree(v)
    ensures KindOf(v, entries).Bad? <==> MeansBad(v)
    ensures KindOf(v, entries).Last? <==> MeansLast(v)
    ensures KindOf(v, entries).Link? <==> MeansLink(v, entries)
  {
  }

  /** The cluster taken is the last of its chain, and the chain goes on to it. */
  predicate LinkedLast(t: seq<nat>, prev: nat, c: nat)
    requires prev < |t| && c < |t|
  {
    t[c] == 0x0fff_ffff && MeansLast(t[c]) && (prev != 0 ==> t[prev] == c)
  }

  lemma StretchedTells(t: seq<nat>, prev: nat, c: nat)
    requires prev < |t| && c < |t| && c != prev
    ensures LinkedLast(Stretched(t, prev, c), prev, c)
  {
  }

  /** What FSInfo records of the allocator. */
  predicate InfoTells(g: Geometry, img: Image, lastUsed: nat, freeCnt: nat)
    requires g.infoSect < |img|
  {
    NextFree(img[g.infoSect]) == lastUsed && FreeCount(img[g.infoSect]) == freeCnt
  }

  lemma WithInfoTells(g: Geometry, a: Image, lastUsed: nat, freeCnt: nat)
    requires g.infoSect < |a| && lastUsed < UINT32 && freeCnt < UINT32
    ensures InfoTells(g, WithInfo(g, a, lastUsed, freeCnt), lastUsed, freeCnt)
    ensures InfoKept(a[g.infoSect], WithInfo(g, a, lastUsed, freeCnt)[g.infoSect])
  {
    var s := WithWord(a[g.infoSect], INFO_NEXT_FREE, lastUsed);
    WithWordElsewhere(s, INFO_FREE_CNT, freeCnt, INFO_NEXT_FREE);
    var r := WithWord(s, INFO_FREE_CNT, freeCnt);
    WordIsFour(r, INFO_NEXT_FREE);
    WordIsFour(r, INFO_FREE_CNT);
    hide WithWord, Word, Four;
    assert forall i :: 0 <= i < 512 && !(488 <= i < 496) ==> r[i] == a[g.infoSect][i];
  }

  lemma WordIsFour(s: Sector, at: nat)
    requires at + 4 <= 512
    ensures Word(s, at) == Four(s, at)
  {
  }

  class Fat {
    const disk: Disk
    const geo: Geometry
    var lastUsed: nat
    var freeCnt: nat
    var sect: nat
    var buf: Sector
    var bufDirty: bool
    var infoDirty: bool

    /** The logical disk. */
    ghost function Image(): (img: Image)
      reads this, disk
      ensures |img| == |disk.sectors|
    {
      if bufDirty && sect < |disk.sectors| then disk.sectors[sect := buf] else disk.sectors
    }

    /** Sector 0 stands for "nothing buffered yet"; any other cached sector is the logical one. */
    ghost predicate Valid()
      reads this, disk
      ensures Valid() ==> !disk.failed && geo.WellFormed(|disk.sectors|)
    {
      && !disk.failed
      && geo.WellFormed(|disk.sectors|)
      && sect < |disk.sectors|
      && (bufDirty ==> sect != 0)
      && (sect != 0 ==> buf == Image()[sect])
      && 2 <= lastUsed < geo.clustCnt
      && freeCnt < UINT32
    }

    ghost function T(): (t: seq<nat>)
      requires Valid()
      reads this, disk
      ensures |t| == geo.clustCnt
    {
      Table(geo, Image())
    }

    constructor (disk: Disk, geo: Geometry, lastUsed: nat, freeCnt: nat)
      requires !disk.failed && geo.WellFormed(|disk.sectors|)
      requires 2 <= lastUsed < geo.clustCnt && freeCnt < UINT32
      ensures Valid() && Image() == disk.sectors
      ensures this.disk == disk && this.geo == geo && this.lastUsed == lastUsed && this.freeCnt == freeCnt
      ensures !bufDirty && !infoDirty && sect == 0
    {
      this.disk, this.geo := disk, geo;
      this.lastUsed, this.freeCnt := lastUsed, freeCnt;
      sect, buf := 0, ZeroSector();
      bufDirty, infoDirty := false, false;
    }

    // ------------------------------------------------------------- cache

    method SyncBuf() returns (err: int)
      requires Valid()
      modifies this`bufDirty, disk
      ensures err == if disk.failed then FAT_ERR_IO else FAT_ERR_NONE
      ensures |disk.sectors| == old(|disk.sectors|) && Image() == old(Image())
      ensures err == 0 ==> Valid() && !bufDirty && disk.sectors == Image()
    {
      if bufDirty {
        var ok := disk.Write(buf, sect);
        if !ok {
          return FAT_ERR_IO;
        }
        bufDirty := false;
      }
      return FAT_ERR_NONE;
    }

    method UpdateBuf(sect: nat) returns (err: int)
      requires Valid() && 0 < sect < |disk.sectors|
      modifies this`buf, this`sect, this`bufDirty, disk
      ensures err == if disk.failed then FAT_ERR_IO else FAT_ERR_NONE
      ensures |disk.sectors| == old(|disk.sectors|)
      ensures err == 0 ==> Valid() && Image() == old(Image()) && this.sect == sect && buf == Image()[sect]
    {
      if this.sect != sect {
        err := SyncBuf();
        if err != 0 {
          return err;
        }
        var ok;
        ok, buf := disk.Read(sect);
        if !ok {
          return FAT_ERR_IO;
        }
        this.sect := sect;
      }
      return FAT_ERR_NONE;
    }

    /** After a successful sync the device holds the logical disk. */
    method SyncFs() returns (err: int)
      requires Valid()
      modifies this`buf, this`sect, this`bufDirty, this`infoDirty, disk
      ensures err == if disk.failed then FAT_ERR_IO else FAT_ERR_NONE
      ensures |disk.sectors| == old(|disk.sectors|)
      ensures err == 0 ==>
                && Valid() && !bufDirty && !infoDirty
                && disk.sectors == Image()
                && Image() == (if old(infoDirty) then WithInfo(geo, old(Image()), lastUsed, freeCnt) else old(Image()))
                && sect == (if old(infoDirty) then geo.infoSect else old(sect))
      ensures err == 0 && old(infoDirty) ==>
                && FreeCount(disk.sectors[geo.infoSect]) == freeCnt && NextFree(disk.sectors[geo.infoSect]) == lastUsed
                && InfoKept(old(Image())[geo.infoSect], disk.sectors[geo.infoSect])
                && forall s :: 0 <= s < |disk.sectors| && s != geo.infoSect ==> disk.sectors[s] == old(Image())[s]
    {
      hide Word, WithWord, InfoKept, FreeCount, NextFree;
      WithInfoTells(geo, Image(), lastUsed, freeCnt);
      err := SyncBuf();
      if err != 0 {
        return err;
      }
      if infoDirty {
        err := UpdateBuf(geo.infoSect);
        if err != 0 {
          return err;
        }
        bufDirty := true;
        buf := WithWord(buf, INFO_NEXT_FREE, lastUsed);
        buf := WithWord(buf, INFO_FREE_CNT, freeCnt);
        err := SyncBuf();
        if err != 0 {
          return err;
        }
        infoDirty := false;
      }
      return FAT_ERR_NONE;
    }

    /** The cached sector is changed in place. */
    method EditBuf(data: Sector)
      requires Valid() && sect != 0
      modifies this`buf, this`bufDirty
      ensures Valid() && Image() == old(Image())[sect := data]
    {
      buf := data;
      bufDirty := true;
    }

    /** `ops.write` past the cache, to a sector the cache does not hold. */
    method DeviceWrite(data: Sector, s: nat) returns (ok: bool)
      requires Valid() && s != sect
      modifies disk
      ensures |disk.sectors| == old(|disk.sectors|)
      ensures ok == !disk.failed
      ensures ok ==> s < |disk.sectors| && Valid() && Image() == old(Image())[s := data]
    {
      ok := disk.Write(data, s);
    }

    /** `ops.read` past the cache. */
    method DeviceRead(s: nat) returns (ok: bool, data: Sector)
      requires Valid() && s != sect
      modifies disk`failed
      ensures ok == !disk.failed
      ensures ok ==> s < |disk.sectors| && Valid() && Image() == old(Image()) && data == Image()[s]
    {
      ok, data := disk.Read(s);
    }

    // ------------------------------------------------------------- table

    method GetFat(clust: nat) returns (err: int, val: nat, kind: Kind)
      requires Valid() && clust < geo.clustCnt
      modifies this`buf, this`sect, this`bufDirty, disk
      ensures |disk.sectors| == old(|disk.sectors|)
      ensures disk.failed ==> err == FAT_ERR_IO
      ensures !disk.failed ==>
                && Valid() && Image() == old(Image())
                && sect == geo.fat0 + clust / 128 < geo.dataSect
                && val == T()[clust]
                && kind == KindOf(val, geo.clustCnt)
                && err == if kind.Broken? then FAT_ERR_BROKEN else FAT_ERR_NONE
      ensures !disk.failed ==>
                && geo.fat0 + clust / 128 < |disk.sectors| && val == TableEntry(Image(), geo.fat0, clust)
                && (kind.Free? <==> MeansFree(val)) && (kind.Bad? <==> MeansBad(val))
                && (kind.Last? <==> MeansLast(val)) && (kind.Link? <==> MeansLink(val, geo.clustCnt))
    {
      val, kind := 0, Broken;
      err := UpdateBuf(geo.fat0 + clust / 128);
      if err != 0 {
        return;
      }
      val := Word(buf, 4 * (clust % 128)) % LOW28;
      kind := KindOf(val, geo.clustCnt);
      TableTells(geo, Image(), clust);
      KindTells(val, geo.clustCnt);
      if kind.Broken? {
        err := FAT_ERR_BROKEN;
      }
    }

    method PutFat2(fatSect: nat, clust: nat, val: nat) returns (err: int)
      requires Valid() && 0 < fatSect && fatSect + clust / 128 < |disk.sectors|
      modifies this`buf, this`sect, this`bufDirty, disk
      ensures err == if disk.failed then FAT_ERR_IO else FAT_ERR_NONE
      ensures |disk.sectors| == old(|disk.sectors|)
      ensures err == 0 ==> Valid() && Image() == PutIn(old(Image()), fatSect, clust, val)
    {
      err := UpdateBuf(fatSect + clust / 128);
      if err != 0 {
        return;
      }
      var at := 4 * (clust % 128);
      buf := WithWord(buf, at, Word(buf, at) / LOW28 * LOW28 + val % LOW28);
      bufDirty := true;
    }

    /** Sets an entry in both copies of the table when they are mirrored. */
    method PutFat(clust: nat, val: nat) returns (err: int)
      requires Valid() && clust < geo.clustCnt
      modifies this`buf, this`sect, this`bufDirty, disk
      ensures err == if disk.failed then FAT_ERR_IO else FAT_ERR_NONE
      ensures |disk.sectors| == old(|disk.sectors|)
      ensures err == 0 ==> Valid() && Image() == Put(geo, old(Image()), clust, val)
      ensures err == 0 ==> T() == Table(geo, old(Image()))[clust := val % LOW28]
    {
      ghost var before := Image();
      if geo.fat1 != 0 {
        err := PutFat2(geo.fat1, clust, val);
        if err != 0 {
          return;
        }
      }
      err := PutFat2(geo.fat0, clust, val);
      PutTable(geo, before, clust, val);
    }

    // ------------------------------------------------------------ chains

    /** Nothing is left to write, and FSInfo is up to date. */
    ghost predicate Synced()
      reads this, disk
    {
      Valid() && !bufDirty && !infoDirty && disk.sectors == Image()
      && InfoTells(geo, Image(), lastUsed, freeCnt)
    }

    /** The closing `sync_fs` of the chain operations. */
    method SyncInfo() returns (err: int)
      requires Valid() && infoDirty
      modifies this`buf, this`sect, this`bufDirty, this`infoDirty, disk
      ensures err == if disk.failed then FAT_ERR_IO else FAT_ERR_NONE
      ensures |disk.sectors| == old(|disk.sectors|)
      ensures err == 0 ==> Synced() && sect == geo.infoSect < geo.dataSect
      ensures err == 0 ==> T() == old(T()) && OnlyTables(geo, old(Image()), Image())
    {
      hide WithInfo, OnlyTables, Table, InfoTells;
      ghost var before := Image();
      err := SyncFs();
      WithInfoKeepsTable(geo, before, lastUsed, freeCnt);
      WithInfoTells(geo, before, lastUsed, freeCnt);
    }

    /** `free_cnt` moves by `step`, as a 32-bit counter. */
    method CountFree(step: int)
      requires Valid()
      modifies this`freeCnt
      ensures freeCnt == Wrapped(old(freeCnt) + step)
      ensures Valid() && Image() == old(Image()) && T() == old(T())
    {
      freeCnt := Wrapped(freeCnt + step);
    }

    lemma CachedSector()
      requires Valid()
      ensures sect != 0 ==> sect < |Image()| && buf == Image()[sect]
    {
    }

    lemma CounterBounds()
      requires Valid()
      ensures lastUsed < UINT32 && freeCnt < UINT32
    {
    }

    lemma FreeCntWrapped()
      requires Valid()
      ensures freeCnt == Wrapped(freeCnt)
    {
    }

    /** One turn of the loop of `remove_chain`. */
    method FreeEntry(clust: nat) returns (err: int, next: nat, kind: Kind)
      requires Valid() && clust < geo.clustCnt
      modifies this`buf, this`sect, this`bufDirty, this`freeCnt, disk
      ensures |disk.sectors| == old(|disk.sectors|)
      ensures disk.failed ==> err == FAT_ERR_IO
      ensures !disk.failed ==>
                && Valid() && OnlyTables(geo, old(Image()), Image())
                && next == old(T())[clust] && kind == KindOf(next, geo.clustCnt)
                && (err == FAT_ERR_NONE || err == FAT_ERR_BROKEN)
      ensures !disk.failed && err == FAT_ERR_NONE ==>
                kind.InUse() && T() == old(T())[clust := 0] && freeCnt == Wrapped(old(freeCnt) + 1)
      ensures !disk.failed && err == FAT_ERR_BROKEN ==>
                !kind.InUse() && T() == old(T()) && freeCnt == old(freeCnt)
    {
      hide Fat.Valid, Fat.Image, Table, OnlyTables, Put, Geometry.WellFormed, Wrapped;
      ghost var img := Image();
      OnlyTablesRefl(geo, img);
      err, next, kind := GetFat(clust);
      if err != 0 {
        return;
      }
      if kind.Bad? || kind.Free? {
        err := FAT_ERR_BROKEN;
        return;
      }
      err := PutFat(clust, 0);
      if err != 0 {
        return;
      }
      assert 0 % LOW28 == 0;
      OnlyTablesPut(geo, img, clust, 0);
      CountFree(1);
    }

    /** The loop of `remove_chain`: `Remove`, entry by entry. */
    method ClearLinks(clust: nat) returns (err: int)
      requires Valid() && clust < geo.clustCnt
      modifies this`buf, this`sect, this`bufDirty, this`freeCnt, disk
      ensures |disk.sectors| == old(|disk.sectors|)
      ensures disk.failed ==> err == FAT_ERR_IO
      ensures !disk.failed ==> Valid() && OnlyTables(geo, old(Image()), Image())
      ensures !disk.failed ==>
                && T() == Remove(old(T()), clust).table
                && freeCnt == Wrapped(old(freeCnt) + Remove(old(T()), clust).freed)
                && err == (if Remove(old(T()), clust).ok then FAT_ERR_NONE else FAT_ERR_BROKEN)
    {
      hide Fat.Valid, Fat.Image, Table, OnlyTables, Remove, NonZero, Geometry.WellFormed, Wrapped, KindOf;
      FreeCntWrapped();
      ghost var img0, left := Image(), Remove(T(), clust);
      ghost var goal, count: int, goalCount := left, freeCnt, freeCnt + left.freed;
      var c: nat := clust;
      OnlyTablesRefl(geo, img0);
      while true
        invariant |disk.sectors| == old(|disk.sectors|)
        invariant Valid() && c < geo.clustCnt
        invariant OnlyTables(geo, img0, Image())
        invariant freeCnt == Wrapped(count) && count + left.freed == goalCount
        invariant left == Remove(T(), c) && left.table == goal.table && left.ok == goal.ok
        decreases |NonZero(T())|
      {
        ghost var img, t := Image(), T();
        RemoveStep(t, c);
        WrappedAdd(count, 1);
        var next, kind;
        err, next, kind := FreeEntry(c);
        if !disk.failed {
          OnlyTablesTrans(geo, img0, img, Image());
        }
        if err != 0 {
          return;
        }
        count := count + 1;
        if kind.Last? {
          return FAT_ERR_NONE;
        }
        c := next;
        left := Remove(T(), c);
      }
    }

    /**
     Frees the chain that starts at `clust`. It terminates on any table, a cyclic
     one included, and frees exactly what `Remove` says.
     */
    method RemoveChain(clust: nat) returns (err: int)
      requires Valid() && clust < geo.clustCnt
      modifies this`buf, this`sect, this`bufDirty, this`infoDirty, this`freeCnt, disk
      ensures |disk.sectors| == old(|disk.sectors|)
      ensures disk.failed ==> err == FAT_ERR_IO
      ensures !disk.failed ==> Valid() && OnlyTables(geo, old(Image()), Image())
      ensures !disk.failed ==>
                var r := Remove(old(T()), clust);
                && T() == r.table
                && freeCnt == Wrapped(old(freeCnt) + r.freed)
                && err == (if r.ok then FAT_ERR_NONE else FAT_ERR_BROKEN)
                && (r.ok ==> Synced())
    {
      hide Table, OnlyTables, Remove, Geometry.WellFormed, InfoTells, Wrapped;
      infoDirty := true;
      ghost var img0 := Image();
      err := ClearLinks(clust);
      if err != 0 {
        return;
      }
      ghost var img := Image();
      err := SyncInfo();
      if err == 0 {
        OnlyTablesTrans(geo, img0, img, Image());
      }
    }

    /**
     The scan of `stretch_chain`: look at every cluster once, cyclically from
     behind the last one used, up to `clust`. Without a cluster `err` is what the
     operation returns; when an entry cannot be read, because the disk fails or
     because it is broken, that is the flags of the entry read before it, `flags0`
     at first.
     */
    method ScanForFree(flags0: nat) returns (found: bool, err: int, clust: nat)
      requires Valid()
      modifies this`buf, this`sect, this`bufDirty, disk
      ensures |disk.sectors| == old(|disk.sectors|)
      ensures disk.failed ==> !found && clust != lastUsed
      ensures !disk.failed ==> Valid() && Image() == old(Image())
      ensures !disk.failed && old(sect) < geo.dataSect ==> sect < geo.dataSect
      ensures geo.IsSlot(clust) && ClearTo(old(T()), lastUsed, clust)
      ensures found ==> clust != lastUsed && old(T())[clust] == 0
      ensures !found && clust == lastUsed ==> err == FAT_ERR_FULL
      ensures !found && clust != lastUsed ==> err == FlagsBefore(old(T()), lastUsed, clust, flags0)
      ensures !found && clust != lastUsed && !disk.failed ==> KindOf(old(T())[clust], geo.clustCnt).Broken?
    {
      hide Fat.Image, Table, Geometry.WellFormed, KindOf;
      ghost var t, img := T(), Image();
      var flags := flags0;
      clust := lastUsed;
      while true
        invariant |disk.sectors| == old(|disk.sectors|)
        invariant Valid() && Image() == img && 2 <= clust < geo.clustCnt
        invariant flags == if clust == lastUsed then flags0 else KindOf(t[clust], |t|).Flags()
        invariant old(sect) < geo.dataSect ==> sect < geo.dataSect
        invariant forall d :: 2 <= d < geo.clustCnt && Passed(lastUsed, d, clust) ==> !Stops(t, d)
        decreases if clust < lastUsed then lastUsed - clust else geo.clustCnt - clust + lastUsed
      {
        clust := Following(clust, geo.clustCnt);
        if clust == lastUsed {
          return false, FAT_ERR_FULL, clust;
        }
        var next, kind;
        err, next, kind := GetFat(clust);
        if err != 0 {
          return false, flags, clust;
        }
        assert kind == KindOf(t[clust], |t|);
        flags := kind.Flags();
        if kind.Free? {
          FreeEntryIs(t[clust], |t|);
          return true, FAT_ERR_NONE, clust;
        }
        FreeEntryIs(t[clust], |t|);
      }
    }

    lemma FreeEntryIs(v: nat, n: nat)
      ensures KindOf(v, n).Free? <==> v == 0
    {
    }

    /** The second half of `stretch_chain`: mark the cluster, link it, record it, sync. */
    method TakeCluster(prev: nat, clust: nat) returns (err: int)
      requires Valid() && (prev == 0 || geo.IsSlot(prev)) && geo.IsSlot(clust) && infoDirty
      modifies this`buf, this`sect, this`bufDirty, this`infoDirty, this`freeCnt, this`lastUsed, disk
      ensures |disk.sectors| == old(|disk.sectors|)
      ensures err == if disk.failed then FAT_ERR_IO else FAT_ERR_NONE
      ensures err == 0 ==>
                && Synced() && sect == geo.infoSect < geo.dataSect
                && T() == Stretched(old(T()), prev, clust)
                && OnlyTables(geo, old(Image()), Image())
                && lastUsed == clust && freeCnt == Wrapped(old(freeCnt) - 1)
    {
      hide Fat.Valid, Fat.Image, Fat.Synced, Table, OnlyTables, Put, Wrapped;
      ghost var t, img0 := T(), Image();
      assert EOC % LOW28 == EOC && clust % LOW28 == clust;
      err := PutFat(clust, EOC);
      if err != 0 {
        return;
      }
      OnlyTablesPut(geo, img0, clust, EOC);
      ghost var img1 := Image();
      assert T() == t[clust := EOC];
      if prev != 0 {
        err := PutFat(prev, clust);
        if err != 0 {
          return;
        }
        OnlyTablesPut(geo, img1, prev, clust);
        OnlyTablesTrans(geo, img0, img1, Image());
      }
      ghost var img2 := Image();
      assert T() == Stretched(t, prev, clust);
      UseCluster(clust);
      CountFree(-1);
      err := SyncInfo();
      if err == 0 {
        OnlyTablesTrans(geo, img0, img2, Image());
      }
    }

    method MarkInfo()
      requires Valid()
      modifies this`infoDirty
      ensures infoDirty && Valid() && Image() == old(Image())
      ensures 2 <= lastUsed < geo.clustCnt
    {
      infoDirty := true;
    }

    /** Moves the allocation hint. */
    method UseCluster(clust: nat)
      requires Valid() && geo.IsSlot(clust)
      modifies this`lastUsed
      ensures lastUsed == clust
      ensures Valid() && Image() == old(Image()) && T() == old(T())
    {
      lastUsed := clust;
    }

    /**
     Appends one free cluster behind `prev`, or starts a chain when `prev` is 0;
     `junk` is what the local variable `flags` holds before anything is assigned to
     it. On success the volume is synced and the table is `Stretched`. Otherwise
     nothing has changed: the volume is full, the entry behind the chain is broken,
     or the search has met an entry that cannot be read, and then the answer is not
     an error code.
     */
    method StretchChain(prev: nat, junk: nat := 0) returns (err: int, clust: nat)
      requires Valid() && (prev == 0 || geo.IsSlot(prev))
      modifies this`buf, this`sect, this`bufDirty, this`infoDirty, this`freeCnt, this`lastUsed, disk
      ensures |disk.sectors| == old(|disk.sectors|)
      ensures disk.failed && err != FAT_ERR_IO ==>
                && geo.IsSlot(clust) && clust != old(lastUsed) && ClearTo(old(T()), old(lastUsed), clust)
                && !SuccessorFree(old(T()), prev) && !SuccessorBroken(old(T()), prev)
                && err == FlagAnswer(old(T()), prev, old(lastUsed), clust, junk)
      ensures disk.failed && prev != 0 ==> err != 0
      ensures !disk.failed ==> Valid()
      ensures !disk.failed && Takes(old(T()), prev, old(lastUsed)) ==>
                && err == FAT_ERR_NONE
                && Chosen(old(T()), prev, old(lastUsed), clust)
                && T() == Stretched(old(T()), prev, clust)
                && (clust != prev ==> LinkedLast(T(), prev, clust))
                && OnlyTables(geo, old(Image()), Image())
                && lastUsed == clust && freeCnt == Wrapped(old(freeCnt) - 1)
                && Synced() && sect == geo.infoSect < geo.dataSect
      ensures !disk.failed && !Takes(old(T()), prev, old(lastUsed)) ==>
                Image() == old(Image()) && lastUsed == old(lastUsed) && freeCnt == old(freeCnt)
      ensures !disk.failed && SuccessorBroken(old(T()), prev) ==> err == FAT_ERR_BROKEN
      ensures !disk.failed ==> (err == FAT_ERR_FULL <==> NoneFree(old(T()), prev, old(lastUsed)))
      ensures !disk.failed && err == FAT_ERR_FULL && prev != 0 ==> sect < geo.dataSect
      ensures !disk.failed ==>
                forall c :: Flagged(old(T()), prev, old(lastUsed), c) ==>
                  err == FlagAnswer(old(T()), prev, old(lastUsed), c, junk)
    {
      hide Fat.Valid, Fat.Image, Table, OnlyTables, Geometry.WellFormed, InfoTells, Stretched, Wrapped, KindOf, ClearTo,
        LinkedLast;
      ghost var t, u := T(), lastUsed;
      MarkInfo();
      ghost var stop := StretchOutcomes(t, prev, u);
      var flags := junk;
      clust := prev;
      var scan := true;
      if prev != 0 {
        clust := Following(prev, geo.clustCnt);
        var next, kind;
        err, next, kind := GetFat(clust);
        assert !disk.failed ==> T() == t && next == t[clust];
        if err != 0 {
          return;
        }
        flags := kind.Flags();
        FreeEntryIs(t[clust], |t|);
        if kind.Free? {
          scan := false;
        }
      }
      if scan {
        var found;
        found, err, clust := ScanForFree(flags);
        assert !disk.failed ==> T() == t;
        if !found {
          if clust != u {
            FlagAnswerIs(t, prev, u, clust, junk);
          }
          if !disk.failed {
            StoppedAt(t, prev, u, clust);
          }
          return;
        }
      }
      assert T() == t && Chosen(t, prev, u, clust);
      if clust != prev {
        StretchedTells(t, prev, clust);
      }
      err := TakeCluster(prev, clust);
    }

    /** `ReadableTakes`, for the volume. */
    lemma StretchTells(prev: nat)
      requires Valid() && Readable(T()) && (prev == 0 || geo.IsSlot(prev))
      ensures Takes(T(), prev, lastUsed) <==> !NoneFree(T(), prev, lastUsed)
      ensures !SuccessorBroken(T(), prev)
    {
      ReadableTakes(T(), prev, lastUsed);
    }

    /** Where a search without success has ended. */
    lemma StoppedAt(t: seq<nat>, prev: nat, u: nat, c: nat)
      requires 2 <= u < |t| && 2 <= c < |t| && ClearTo(t, u, c)
      requires !SuccessorFree(t, prev) && !SuccessorBroken(t, prev)
      requires c != u ==> KindOf(t[c], |t|).Broken?
      ensures !Takes(t, prev, u)
      ensures c == u ==> NoneFree(t, prev, u) && forall d :: !Flagged(t, prev, u, d)
      ensures c != u ==>
                !NoneFree(t, prev, u) && Flagged(t, prev, u, c) && forall d :: Flagged(t, prev, u, d) ==> d == c
    {
      forall d | FirstStop(t, u, d)
        ensures c != u && d == c
      {
        OneStop(t, u, d, c);
      }
      if c != u {
        OneStop(t, u, c, c);
      }
    }

    /** Writes zeroes over one cluster, sector by sector, through the cache. */
    method ClustClear(clust: nat) returns (err: int)
      requires Valid() && geo.IsCluster(clust)
      modifies this`buf, this`sect, this`bufDirty, disk
      ensures |disk.sectors| == old(|disk.sectors|)
      ensures err == if disk.failed then FAT_ERR_IO else FAT_ERR_NONE
      ensures err == 0 ==>
                && Valid() && !bufDirty
                && Image() == Cleared(geo, old(Image()), clust)
                && geo.InCluster(sect, clust)
    {
      ghost var img := Image();
      err := SyncBuf();
      if err != 0 {
        return;
      }
      ClusterInVolume(geo, |disk.sectors|, clust);
      var first := geo.FirstSector(clust);
      buf := ZeroSector();
      for i := 0 to geo.SectorsPerCluster()
        invariant |disk.sectors| == |img| && !disk.failed && !bufDirty && buf == ZeroSector()
        invariant i > 0 ==> Valid() && sect == first + i - 1
        invariant forall s :: 0 <= s < |img| ==>
                    disk.sectors[s] == if first <= s < first + i then ZeroSector() else img[s]
      {
        bufDirty := true;
        sect := first + i;
        err := SyncBuf();
        if err != 0 {
          return;
        }
      }
      assert Image() == Cleared(geo, img, clust);
    }
  }
}
