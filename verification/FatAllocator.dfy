/**
 The cluster allocator over whole runs. A step is one successful call of
 `Fat.StretchChain` or `Fat.RemoveChain`, or a call that found the volume full,
 with exactly the effect their contracts state.
 */
module FatAllocator {
  import opened FatImage
  import opened FatChains
  import opened FatVolume
  import opened SmallVolumes

  /** `chains` is the bookkeeping of the reader, not of the volume. */
  datatype Allocator = Allocator(t: seq<nat>, chains: set<seq<nat>>, lastUsed: nat, freeCnt: nat)

  datatype Event =
    | Grow(ch: seq<nat>, clust: nat)
    | Start(clust: nat)
    | Drop(ch: seq<nat>)
    | Full(prev: nat)

  ghost predicate Sound(a: Allocator) {
    Decomposes(a.t, a.chains) && 2 <= a.lastUsed < |a.t| && a.freeCnt < UINT32
  }

  ghost predicate Step(a: Allocator, e: Event, a': Allocator)
    requires Sound(a)
  {
    match e
    case Grow(ch, c) =>
      && ch in a.chains && IsChain(a.t, ch)
      && Chosen(a.t, ch[|ch| - 1], a.lastUsed, c)
      && a' == Allocator(Stretched(a.t, ch[|ch| - 1], c), StretchedChains(a.chains, ch, c), c, Wrapped(a.freeCnt - 1))
    case Start(c) =>
      && Chosen(a.t, 0, a.lastUsed, c)
      && a' == Allocator(Stretched(a.t, 0, c), a.chains + {[c]}, c, Wrapped(a.freeCnt - 1))
    case Drop(ch) =>
      && ch in a.chains && IsChain(a.t, ch)
      && var r := Remove(a.t, ch[0]);
         a' == Allocator(r.table, a.chains - {ch}, a.lastUsed, Wrapped(a.freeCnt + r.freed))
    case Full(prev) =>
      prev < |a.t| && NoneFree(a.t, prev, a.lastUsed) && a' == a
  }

  /** The counter in FSInfo may be off, but by how much never changes. */
  ghost function Drift(a: Allocator): nat {
    Wrapped(a.freeCnt - |FreeClusters(a.t)|)
  }

  lemma DriftKept(freeCnt: nat, freeCnt': nat, free: nat, free': nat, d: int)
    requires freeCnt' == Wrapped(freeCnt + d) && free' == free + d
    ensures Wrapped(freeCnt' - free') == Wrapped(freeCnt - free)
  {
    WrappedAdd(freeCnt + d, 0 - free');
  }

  lemma StepSound(a: Allocator, e: Event, a': Allocator)
    requires Sound(a) && Step(a, e, a')
    ensures Sound(a') && |a'.t| == |a.t| && Drift(a') == Drift(a)
  {
    hide Decomposes, Wrapped, Stretched, StretchedChains, Freed;
    match e
    case Grow(ch, c) =>
      StretchGrows(a.t, a.chains, ch, c);
      DriftKept(a.freeCnt, a'.freeCnt, |FreeClusters(a.t)|, |FreeClusters(a'.t)|, -1);
    case Start(c) =>
      StretchStarts(a.t, a.chains, c);
      DriftKept(a.freeCnt, a'.freeCnt, |FreeClusters(a.t)|, |FreeClusters(a'.t)|, -1);
    case Drop(ch) =>
      RemoveKeepsOthers(a.t, a.chains, ch);
      RemoveCounts(a.t, ch[0]);
      DriftKept(a.freeCnt, a'.freeCnt, |FreeClusters(a.t)|, |FreeClusters(a'.t)|, |ch|);
    case Full(_) =>
  }

  ghost predicate Run(states: seq<Allocator>, events: seq<Event>) {
    && |states| == |events| + 1
    && Sound(states[0])
    && forall i :: 0 <= i < |events| ==> Sound(states[i]) ==> Step(states[i], events[i], states[i + 1])
  }

  /**
   Over every run the table stays made of disjoint chains that end, free clusters
   and bad ones, and the drift of the free counter is that of the start.
   */
  lemma {:induction false} RunSound(states: seq<Allocator>, events: seq<Event>, n: nat)
    requires Run(states, events) && n <= |events|
    ensures Sound(states[n]) && Drift(states[n]) == Drift(states[0])
    decreases n
  {
    if n > 0 {
      RunSound(states, events, n - 1);
      StepSound(states[n - 1], events[n - 1], states[n]);
    }
  }

  /**
   On a table without broken entries the volume is reported full although a cluster
   is free exactly when the only free cluster is the one used last, which the scan
   never looks at, and it is not the successor of the chain's end either.
   */
  lemma FullDespiteFree(t: seq<nat>, prev: nat, lastUsed: nat)
    requires 2 < |t| && prev < |t| && prev != 1 && Readable(t)
    ensures NoneFree(t, prev, lastUsed) && FreeClusters(t) != {} <==>
            FreeClusters(t) == {lastUsed} && (prev == 0 || Following(prev, |t|) != lastUsed)
  {
    if NoneFree(t, prev, lastUsed) && FreeClusters(t) != {} {
      NoneFreeElsewhere(t, prev, lastUsed);
      var c :| c in FreeClusters(t);
      assert FreeClusters(t) == {lastUsed};
    }
    if FreeClusters(t) == {lastUsed} {
      assert lastUsed in FreeClusters(t);
      forall d | 2 <= d < |t| && d != lastUsed
        ensures t[d] != 0
      {
        assert d !in FreeClusters(t);
      }
    }
  }

  /** A table of one sector in which every cluster is a chain of its own, apart from the free cluster `c`. */
  function AllButOne(c: nat): (t: seq<nat>)
    ensures |t| == 128
    ensures forall d :: 0 <= d < 128 ==> t[d] == if d == c then 0 else EOC
  {
    seq(128, d => if d == c then 0 else EOC)
  }

  ghost function Singles(c: nat): (chains: set<seq<nat>>)
    ensures forall ch :: ch in chains ==> |ch| == 1 && 2 <= ch[0] < 128 && ch[0] != c
    ensures forall d: nat :: 2 <= d < 128 && d != c ==> [d] in chains
  {
    set d: nat | 2 <= d < 128 && d != c :: [d]
  }

  /** The scan misses a free cluster when it is the one used last. */
  lemma FullWithOneFree(c: nat)
    requires 2 <= c < 128
    ensures Sound(Allocator(AllButOne(c), Singles(c), c, 1))
    ensures NoneFree(AllButOne(c), 0, c) && FreeClusters(AllButOne(c)) == {c}
  {
    forall d | 2 <= d < 128 && AllButOne(c)[d] != 0
      ensures OnSome(d, Singles(c))
    {
      assert [d] in Singles(c);
    }
  }

  // ------------------------------------------- the search for a cluster

  /** The cluster looked at in the `n`-th turn of the search that starts behind `from`. */
  function Visited(from: nat, clustCnt: nat, n: nat): nat {
    if n == 0 then from else Following(Visited(from, clustCnt, n - 1), clustCnt)
  }

  lemma {:induction false} VisitedUp(from: nat, clustCnt: nat, n: nat)
    requires 2 <= from && from + n < clustCnt
    ensures Visited(from, clustCnt, n) == from + n
  {
    if n > 0 {
      VisitedUp(from, clustCnt, n - 1);
    }
  }

  lemma {:induction false} VisitedAround(from: nat, clustCnt: nat, n: nat)
    requires 2 <= from < clustCnt && n < clustCnt - 2
    ensures Visited(from, clustCnt, clustCnt - from + n) == 2 + n
    decreases n
  {
    if n == 0 {
      VisitedUp(from, clustCnt, clustCnt - from - 1);
    } else {
      VisitedAround(from, clustCnt, n - 1);
    }
  }

  lemma {:induction false} VisitedInside(from: nat, clustCnt: nat, n: nat)
    requires 2 < clustCnt && n > 0 && (from < 2 || clustCnt <= from)
    ensures Visited(from, clustCnt, n) != from
    ensures Visited(from, clustCnt, n) >= 2 || (from == 0 && n == 1)
    ensures Visited(from, clustCnt, n) < clustCnt
    decreases n
  {
    if n > 1 {
      VisitedInside(from, clustCnt, n - 1);
    }
  }

  /**
   On a full volume the search ends when it is back at the hint it started from.
   It gets there exactly when the hint is a cluster number; the hint is taken
   from FSInfo unchecked.
   */
  lemma ScanComesBack(lastUsed: nat, clustCnt: nat)
    requires 2 < clustCnt
    ensures (exists n: nat :: n > 0 && Visited(lastUsed, clustCnt, n) == lastUsed) <==> 2 <= lastUsed < clustCnt
  {
    if 2 <= lastUsed < clustCnt {
      VisitedAround(lastUsed, clustCnt, lastUsed - 2);
      assert Visited(lastUsed, clustCnt, clustCnt - 2) == lastUsed;
    } else {
      forall n: nat | n > 0
        ensures Visited(lastUsed, clustCnt, n) != lastUsed
      {
        VisitedInside(lastUsed, clustCnt, n);
      }
    }
  }

  // ------------------------------------------- entries without sectors

  /** Is some entry from `lo` up to `hi` free? */
  ghost predicate FreeIn(t: seq<nat>, lo: nat, hi: nat) {
    exists c :: lo <= c < hi && c < |t| && t[c] == 0
  }

  /** Does some entry from `lo` up to `hi` stop the search? */
  ghost predicate StopIn(t: seq<nat>, lo: nat, hi: nat) {
    exists c :: lo <= c < hi && c < |t| && Stops(t, c)
  }

  /** Is there one, and is the first of them free? */
  ghost predicate FreeStopIn(t: seq<nat>, lo: nat, hi: nat) {
    exists c :: lo <= c < hi && c < |t| && t[c] == 0 && !StopIn(t, lo, c)
  }

  /**
   When `stretch_chain` hands out an entry with no sectors behind it, the clusters
   that have sectors being those below `end`.
   */
  lemma SlackHandedOut(t: seq<nat>, prev: nat, lastUsed: nat, end: nat)
    requires 2 < end <= |t| && 2 <= lastUsed < |t| && prev < |t|
    ensures (exists c :: end <= c && Chosen(t, prev, lastUsed, c)) <==>
            if SuccessorFree(t, prev) then Following(prev, |t|) >= end
            else if SuccessorBroken(t, prev) then false
            else if lastUsed < end then FreeStopIn(t, end, |t|) && !StopIn(t, lastUsed + 1, end)
            else
              || FreeStopIn(t, lastUsed + 1, |t|)
              || (!StopIn(t, lastUsed + 1, |t|) && !StopIn(t, 2, end) && FreeStopIn(t, end, lastUsed))
  {
    hide KindOf, Stops;
    if SuccessorFree(t, prev) {
      assert Chosen(t, prev, lastUsed, Following(prev, |t|));
    } else if !SuccessorBroken(t, prev) {
      forall c | end <= c < |t|
        ensures Chosen(t, prev, lastUsed, c) <==>
                && t[c] == 0 && c != lastUsed
                && if lastUsed < c then !StopIn(t, lastUsed + 1, c)
                   else !StopIn(t, lastUsed + 1, |t|) && !StopIn(t, 2, c)
        ensures lastUsed < end ==> (StopIn(t, lastUsed + 1, c) <==> StopIn(t, lastUsed + 1, end) || StopIn(t, end, c))
        ensures StopIn(t, 2, c) <==> StopIn(t, 2, end) || StopIn(t, end, c)
      {
        ChosenIff(t, prev, lastUsed, c);
        StopSplit(t, 2, end, c);
        if lastUsed < end {
          StopSplit(t, lastUsed + 1, end, c);
        }
      }
      hide Chosen, StopIn;
    }
  }

  lemma StopSplit(t: seq<nat>, lo: nat, mid: nat, hi: nat)
    requires lo <= mid <= hi
    ensures StopIn(t, lo, hi) <==> StopIn(t, lo, mid) || StopIn(t, mid, hi)
  {
    hide Stops;
  }

  /** `Chosen`, in terms of the entries from here to there. */
  lemma ChosenIff(t: seq<nat>, prev: nat, lastUsed: nat, c: nat)
    requires 2 < |t| && 2 <= lastUsed < |t| && prev < |t| && 2 <= c < |t|
    requires !SuccessorFree(t, prev) && !SuccessorBroken(t, prev)
    ensures Chosen(t, prev, lastUsed, c) <==>
            && t[c] == 0 && c != lastUsed
            && if lastUsed < c then !StopIn(t, lastUsed + 1, c)
               else !StopIn(t, lastUsed + 1, |t|) && !StopIn(t, 2, c)
  {
    hide KindOf;
    if lastUsed < c {
      assert StopIn(t, lastUsed + 1, c) ==> !ClearTo(t, lastUsed, c) by {
        if d :| lastUsed + 1 <= d < c && d < |t| && Stops(t, d) {
          assert MetBefore(lastUsed, d, c);
        }
      }
    } else if c < lastUsed {
      assert StopIn(t, lastUsed + 1, |t|) ==> !ClearTo(t, lastUsed, c) by {
        if d :| lastUsed + 1 <= d < |t| && Stops(t, d) {
          assert MetBefore(lastUsed, d, c);
        }
      }
      assert StopIn(t, 2, c) ==> !ClearTo(t, lastUsed, c) by {
        if d :| 2 <= d < c && d < |t| && Stops(t, d) {
          assert MetBefore(lastUsed, d, c);
        }
      }
    }
  }

  /** It can happen to some caller as soon as one such entry is free. */
  lemma SlackNeverHandedOut(t: seq<nat>, end: nat)
    requires 2 < end <= |t|
    ensures !FreeIn(t, end, |t|) <==>
            forall prev: nat, lastUsed: nat, c: nat ::
              prev < |t| && 2 <= lastUsed < |t| && Chosen(t, prev, lastUsed, c) ==> c < end
  {
    if FreeIn(t, end, |t|) {
      var c :| end <= c < |t| && t[c] == 0;
      assert Chosen(t, 0, c - 1, c);
    }
  }

  /** The free clusters between the hint and the end of the data region. */
  ghost function FreeAhead(t: seq<nat>, u: nat, end: nat): set<nat> {
    set c: nat | c < |t| && u < c < end && t[c] == 0
  }

  /** A chain whose end was taken last takes the first of them, and when there is none but a free entry behind, that. */
  lemma NextAhead(t: seq<nat>, u: nat, end: nat, c: nat)
    requires Readable(t) && 2 <= u < end <= |t| && t[u] != 0 && Chosen(t, u, u, c)
    ensures FreeAhead(t, u, end) != {} ==> c in FreeAhead(t, u, end) && forall d :: u < d < c ==> t[d] != 0
    ensures FreeAhead(t, u, end) == {} && FreeIn(t, end, |t|) ==> end <= c
  {
    hide KindOf;
    if FreeAhead(t, u, end) != {} {
      var d :| d in FreeAhead(t, u, end);
      NextFree(t, u, c, d);
    } else if FreeIn(t, end, |t|) {
      var d :| end <= d < |t| && t[d] == 0;
      NextFree(t, u, c, d);
      assert c < end ==> c in FreeAhead(t, u, end);
    }
  }

  /** No free cluster behind the hint is passed over. */
  lemma NextFree(t: seq<nat>, u: nat, c: nat, d: nat)
    requires 2 < |t| && 2 <= u < d < |t| && t[u] != 0 && t[d] == 0 && Chosen(t, u, u, c)
    ensures u < c <= d && forall e :: u < e < c ==> t[e] != 0
  {
    hide KindOf;
    if !SuccessorFree(t, u) {
      assert MetBefore(u, d, c) ==> !Stops(t, d);
      forall e | u < e < c
        ensures t[e] != 0
      {
        assert MetBefore(u, e, c) ==> !Stops(t, e);
      }
    }
  }

  lemma AheadTaken(t: seq<nat>, u: nat, end: nat, c: nat)
    requires u < |t| && c < |t| && c in FreeAhead(t, u, end) && forall d :: u < d < c ==> t[d] != 0
    ensures FreeAhead(Stretched(t, u, c), c, end) == FreeAhead(t, u, end) - {c} && Stretched(t, u, c)[c] != 0
    ensures FreeIn(Stretched(t, u, c), end, |t|) <==> FreeIn(t, end, |t|)
  {
  }

  /**
   When a chain whose end was taken last is stretched to `n` clusters all of them have
   sectors if and only if no entry behind the data region is free, or enough clusters
   ahead of the hint are.
   */
  lemma {:induction false} BackedIff(g: Geometry, t: seq<nat>, ch: seq<nat>, u: nat, n: nat)
    requires Readable(t) && 2 <= u < g.clustEnd <= |t| <= BAD_CLUSTER && t[u] != 0 && 0 < |ch| && ch[|ch| - 1] == u
    ensures Backed(g, t, ch, u, n) <==>
            n <= |ch| || !FreeIn(t, g.clustEnd, |t|) || |FreeAhead(t, u, g.clustEnd)| >= n - |ch|
    decreases n - |ch|
  {
    hide Chosen, Stretched, Readable;
    if !FreeIn(t, g.clustEnd, |t|) {
      FencedBacked(g, t, ch, u, n);
    } else if |ch| < n {
      var ahead := FreeAhead(t, u, g.clustEnd);
      forall c | Chosen(t, u, u, c)
        ensures g.IsCluster(c) && Backed(g, Stretched(t, u, c), ch + [c], c, n) <==> |ahead| >= n - |ch|
      {
        NextAhead(t, u, g.clustEnd, c);
        if ahead != {} {
          AheadTaken(t, u, g.clustEnd, c);
          StretchedReadable(t, u, c);
          BackedIff(g, Stretched(t, u, c), ch + [c], c, n);
        }
      }
      var c := FreeTaken(t, u, g.clustEnd);
    }
  }

  lemma FreeTaken(t: seq<nat>, u: nat, end: nat) returns (c: nat)
    requires Readable(t) && 2 <= u < end <= |t| && t[u] != 0 && FreeIn(t, end, |t|)
    ensures Chosen(t, u, u, c)
  {
    var d :| end <= d < |t| && t[d] == 0;
    ReadableTakes(t, u, u);
    if NoneFree(t, u, u) {
      NoneFreeElsewhere(t, u, u);
    }
    c :| Chosen(t, u, u, c);
  }

  // ---------------------------------------- the volume takes the steps

  /** The allocator of a volume. */
  ghost function Value(fat: Fat, chains: set<seq<nat>>): Allocator
    requires fat.Valid()
    reads fat, fat.disk
  {
    Allocator(fat.T(), chains, fat.lastUsed, fat.freeCnt)
  }

  /** On a sound volume the search takes a cluster or comes back empty-handed. */
  lemma SoundTells(fat: Fat, chains: set<seq<nat>>, prev: nat)
    requires fat.Valid() && Sound(Value(fat, chains)) && (prev == 0 || fat.geo.IsSlot(prev))
    ensures Takes(fat.T(), prev, fat.lastUsed) <==> !NoneFree(fat.T(), prev, fat.lastUsed)
  {
    DecomposesReadable(fat.T(), chains);
    fat.StretchTells(prev);
  }

  /** `stretch_chain` behind the last cluster of `ch`. */
  method GrowChain(fat: Fat, prev: nat, ghost chains: set<seq<nat>>, ghost ch: seq<nat>)
    returns (err: int, clust: nat, ghost e: Event, ghost chains': set<seq<nat>>)
    requires fat.Valid() && Sound(Value(fat, chains)) && ch in chains && IsChain(fat.T(), ch) && ch[|ch| - 1] == prev
    modifies fat, fat.disk
    ensures fat.disk.failed ==> err != 0
    ensures !fat.disk.failed ==> fat.Valid() && Step(old(Value(fat, chains)), e, Value(fat, chains'))
    ensures !fat.disk.failed ==> e == if err == 0 then Grow(ch, clust) else Full(prev)
  {
    hide Fat.Valid, Fat.Image, Table, Decomposes, NoneFree, Chosen, ClearTo, KindOf, Stretched, Wrapped;
    SoundTells(fat, chains, prev);
    err, clust := fat.StretchChain(prev);
    e := if err == 0 then Grow(ch, clust) else Full(prev);
    chains' := if err == 0 then StretchedChains(chains, ch, clust) else chains;
  }

  /**
   `create_chain`. When the disk fails during the search the answer may be
   anything, success included: `junk` is what the flags hold uninitialised.
   */
  method StartChain(fat: Fat, junk: nat, ghost chains: set<seq<nat>>)
    returns (err: int, clust: nat, ghost e: Event, ghost chains': set<seq<nat>>)
    requires fat.Valid() && Sound(Value(fat, chains))
    modifies fat, fat.disk
    ensures !fat.disk.failed ==> fat.Valid() && Step(old(Value(fat, chains)), e, Value(fat, chains'))
    ensures !fat.disk.failed ==> e == if err == 0 then Start(clust) else Full(0)
    ensures fat.disk.failed && err != FAT_ERR_IO ==>
              && fat.geo.IsSlot(clust) && clust != old(fat.lastUsed)
              && err == FlagAnswer(old(fat.T()), 0, old(fat.lastUsed), clust, junk)
  {
    hide Fat.Valid, Fat.Image, Table, Decomposes, NoneFree, Chosen, ClearTo, KindOf, Stretched, Wrapped;
    SoundTells(fat, chains, 0);
    err, clust := fat.StretchChain(0, junk);
    e := if err == 0 then Start(clust) else Full(0);
    chains' := if err == 0 then chains + {[clust]} else chains;
  }

  /** `remove_chain` of a whole chain. */
  method DropChain(fat: Fat, first: nat, ghost chains: set<seq<nat>>, ghost ch: seq<nat>) returns (err: int)
    requires fat.Valid() && Sound(Value(fat, chains)) && ch in chains && IsChain(fat.T(), ch) && ch[0] == first
    modifies fat, fat.disk
    ensures fat.disk.failed ==> err != 0
    ensures !fat.disk.failed ==>
              err == 0 && fat.Valid() && Step(old(Value(fat, chains)), Drop(ch), Value(fat, chains - {ch}))
  {
    hide Fat.Image, Table, Decomposes, Remove;
    RemoveFreesChain(fat.T(), ch);
    err := fat.RemoveChain(first);
  }

  // ------------------------------------------ answers that are not errors

  /** Everything is in use, the cluster behind 5 goes on to 7, and entry 11 cannot be read. */
  function BrokenTable(): (t: seq<nat>)
    ensures |t| == 128
    ensures forall c :: 0 <= c < 128 ==> t[c] == if c == 6 then 7 else if c == 11 then 1 else EOC
  {
    seq(128, c => if c == 6 then 7 else if c == 11 then 1 else EOC)
  }

  lemma BrokenTableFlagged(lastUsed: nat)
    requires lastUsed == 10
    ensures Flagged(BrokenTable(), 5, lastUsed, 11) && FlagAnswer(BrokenTable(), 5, lastUsed, 11, 0) == 2
    ensures Flagged(BrokenTable(), 0, lastUsed, 11)
    ensures forall junk: nat :: FlagAnswer(BrokenTable(), 0, lastUsed, 11, junk) == junk
    ensures !Takes(BrokenTable(), 5, lastUsed) && !Takes(BrokenTable(), 0, lastUsed)
  {
    var t := BrokenTable();
    OneStop(t, lastUsed, 11, 11);
    var c := StretchOutcomes(t, 5, lastUsed);
    var d := StretchOutcomes(t, 0, lastUsed);
  }

  /** A mounted volume with that table, on which cluster 10 has been used last. */
  method BrokenVolume() returns (fat: Fat)
    ensures fresh(fat) && fresh(fat.disk) && fat.Valid() && fat.geo == SMALL && fat.lastUsed == 10
    ensures fat.T() == BrokenTable()
  {
    SmallVolumeTable(BrokenTable());
    var disk := new Disk(SmallVolume(BrokenTable()));
    fat := new Fat(disk, SMALL, 10, 0);
  }

  /** There, stretching the chain of cluster 5 without any disk error answers 2, which is no error code. */
  method StretchAnswersTwo() returns (fat: Fat, err: int)
    ensures !fat.disk.failed ==> err == 2 && fat.Valid() && fat.T() == BrokenTable()
  {
    hide Fat.Valid, Fat.Image, Table, ClearTo, KindOf, Geometry.WellFormed, Flagged, FlagAnswer, BrokenTable;
    fat := BrokenVolume();
    BrokenTableFlagged(10);
    var clust;
    err, clust := fat.StretchChain(5);
  }

  /** And creating a chain answers what happens to be in the flags: with a zero there, success without a cluster. */
  method CreateAnswersNothing() returns (fat: Fat, err: int)
    ensures !fat.disk.failed ==> err == FAT_ERR_NONE && fat.Valid() && fat.T() == BrokenTable() && fat.lastUsed == 10
  {
    hide Fat.Valid, Fat.Image, Table, ClearTo, KindOf, Geometry.WellFormed, Flagged, FlagAnswer, BrokenTable;
    fat := BrokenVolume();
    BrokenTableFlagged(10);
    var clust;
    err, clust := fat.StretchChain(0, 0);
  }
}
