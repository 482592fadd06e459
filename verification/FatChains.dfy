/**
 Cluster chains as properties of the allocation table: what the table must look
 like for every cluster in use to lie on exactly one chain, and what the two
 chain operations do to such a table.
 */
module FatChains {
  import opened FatImage
  import opened SetSizes

  // ---------------------------------------------------------- one entry

  /** How `get_fat` reads an entry; `Broken` is its error return. */
  datatype Kind = Free | Bad | Last | Link | Broken {
    /** The CLUST_* bits that stand for the kind. */
    function Flags(): (f: nat) {
      match this
      case Free => 1
      case Bad => 8
      case Last => 2 + 4
      case Link => 2
      case Broken => 0
    }

    /** Does the chain go on or end properly here? */
    predicate InUse() {
      Last? || Link?
    }
  }

  function KindOf(v: nat, clustCnt: nat): Kind {
    if v == 0 then Free
    else if v == BAD_CLUSTER then Bad
    else if v >= FIRST_EOC then Last
    else if 2 <= v < clustCnt then Link
    else Broken
  }

  // ---------------------------------------------------------- one chain

  /** `ch` lists the clusters of a chain in order, up to and including its end mark. */
  ghost predicate IsChain(t: seq<nat>, ch: seq<nat>) {
    && 0 < |ch|
    && |t| <= BAD_CLUSTER
    && (forall i :: 0 <= i < |ch| ==> 2 <= ch[i] < |t|)
    && (forall i {:trigger t[ch[i]]} :: 0 <= i < |ch| - 1 ==> t[ch[i]] == ch[i + 1])
    && t[ch[|ch| - 1]] >= FIRST_EOC
  }

  ghost predicate Distinct(s: seq<nat>) {
    forall i, j :: 0 <= i < j < |s| ==> s[i] != s[j]
  }

  /** A chain that ends cannot revisit a cluster. */
  lemma ChainAcyclic(t: seq<nat>, ch: seq<nat>)
    requires IsChain(t, ch)
    ensures Distinct(ch)
  {
    forall i, j | 0 <= i < j < |ch|
      ensures ch[i] != ch[j]
    {
      ChainNoRevisit(t, ch, i, j);
    }
  }

  lemma {:induction false} ChainNoRevisit(t: seq<nat>, ch: seq<nat>, i: nat, j: nat)
    requires IsChain(t, ch) && i < j < |ch|
    ensures ch[i] != ch[j]
    decreases |ch| - j
  {
    assert t[ch[i]] == ch[i + 1] < FIRST_EOC;
    if j + 1 < |ch| {
      assert t[ch[j]] == ch[j + 1];
      ChainNoRevisit(t, ch, i + 1, j + 1);
    }
  }

  /** The first cluster determines the chain. */
  lemma {:induction false} ChainUnique(t: seq<nat>, a: seq<nat>, b: seq<nat>)
    requires IsChain(t, a) && IsChain(t, b) && a[0] == b[0]
    ensures a == b
  {
    assert |a| > 1 ==> t[a[0]] == a[1] < FIRST_EOC;
    assert |b| > 1 ==> t[b[0]] == b[1] < FIRST_EOC;
    if |a| > 1 && |b| > 1 {
      ChainTail(t, a);
      ChainTail(t, b);
      ChainUnique(t, a[1..], b[1..]);
      assert a == [a[0]] + a[1..] && b == [b[0]] + b[1..];
    }
  }

  lemma ChainTail(t: seq<nat>, ch: seq<nat>)
    requires IsChain(t, ch) && |ch| > 1
    ensures IsChain(t, ch[1..])
  {
    var tl := ch[1..];
    forall i | 0 <= i < |tl| - 1
      ensures t[tl[i]] == tl[i + 1]
    {
      assert tl[i] == ch[i + 1];
    }
  }

  /** Two tables that agree on the clusters of a chain have it alike. */
  lemma ChainFrame(t: seq<nat>, t': seq<nat>, ch: seq<nat>)
    requires IsChain(t, ch) && |t'| == |t|
    requires forall i :: 0 <= i < |ch| ==> t'[ch[i]] == t[ch[i]]
    ensures IsChain(t', ch)
  {
  }

  // ----------------------------------------------------- the whole table

  ghost predicate Disjoint(a: seq<nat>, b: seq<nat>) {
    forall c {:trigger c in a, c in b} :: c in a ==> c !in b
  }

  /**
   The table is made of the given chains: they are chains, no two share a
   cluster, and a cluster on none of them is free or marked bad.
   */
  ghost predicate Decomposes(t: seq<nat>, chains: set<seq<nat>>) {
    && 2 < |t| <= BAD_CLUSTER
    && (forall ch :: ch in chains ==> IsChain(t, ch))
    && (forall a, b :: a in chains && b in chains && a != b ==> Disjoint(a, b))
    && Covers(t, chains)
  }

  /** Every cluster is free, bad or on some chain. */
  ghost predicate Covers(t: seq<nat>, chains: set<seq<nat>>) {
    forall c :: 2 <= c < |t| && t[c] != 0 && t[c] != BAD_CLUSTER ==> OnSome(c, chains)
  }

  /** A chain added to a family that holds everything else. */
  lemma DecomposesWith(t: seq<nat>, rest: set<seq<nat>>, x: seq<nat>)
    requires 2 < |t| <= BAD_CLUSTER && IsChain(t, x)
    requires forall a :: a in rest ==> IsChain(t, a) && Disjoint(a, x)
    requires forall a, b :: a in rest && b in rest && a != b ==> Disjoint(a, b)
    requires Covers(t, rest + {x})
    ensures Decomposes(t, rest + {x})
  {
    var all := rest + {x};
    forall a, b | a in all && b in all && a != b
      ensures Disjoint(a, b)
    {
    }
  }

  ghost predicate OnSome(c: nat, chains: set<seq<nat>>) {
    exists ch :: ch in chains && c in ch
  }

  /** Every entry a decomposed table holds for a cluster can be read without error. */
  ghost predicate Readable(t: seq<nat>) {
    forall c :: 2 <= c < |t| ==> !KindOf(t[c], |t|).Broken?
  }

  /** A cluster on a chain is neither free nor bad. */
  lemma OnChainInUse(t: seq<nat>, ch: seq<nat>, c: nat)
    requires IsChain(t, ch) && c in ch
    ensures 2 <= c < |t| && t[c] != 0 && t[c] != BAD_CLUSTER && KindOf(t[c], |t|).InUse()
  {
    var i :| 0 <= i < |ch| && ch[i] == c;
    assert i < |ch| - 1 ==> t[ch[i]] == ch[i + 1];
  }

  /** The entry of the `i`-th cluster of a chain. */
  lemma LinkAt(t: seq<nat>, ch: seq<nat>, i: nat)
    requires IsChain(t, ch) && i < |ch|
    ensures 2 <= ch[i] < |t|
    ensures i + 1 < |ch| ==> t[ch[i]] == ch[i + 1] && KindOf(t[ch[i]], |t|) == Link
    ensures i + 1 == |ch| ==> KindOf(t[ch[i]], |t|) == Last
  {
  }

  lemma DecomposesReadable(t: seq<nat>, chains: set<seq<nat>>)
    requires Decomposes(t, chains)
    ensures Readable(t)
  {
    forall c | 2 <= c < |t|
      ensures !KindOf(t[c], |t|).Broken?
    {
      if t[c] != 0 && t[c] != BAD_CLUSTER {
        assert OnSome(c, chains);
        var ch :| ch in chains && c in ch;
        OnChainInUse(t, ch, c);
      }
    }
  }

  // -------------------------------------------------------- accounting

  ghost function FreeClusters(t: seq<nat>): (s: set<nat>)
    ensures forall c: nat :: c in s <==> 2 <= c < |t| && t[c] == 0
  {
    set c: nat | 2 <= c < |t| && t[c] == 0
  }

  ghost function NonZero(t: seq<nat>): (s: set<nat>)
    ensures forall c: nat :: c in s <==> c < |t| && t[c] != 0
  {
    set c: nat | c < |t| && t[c] != 0
  }

  lemma FreeOne(t: seq<nat>, c: nat)
    requires 2 <= c < |t| && t[c] != 0
    ensures |FreeClusters(t[c := 0])| == |FreeClusters(t)| + 1
  {
    assert FreeClusters(t[c := 0]) == FreeClusters(t) + {c};
  }

  lemma TakeOne(t: seq<nat>, c: nat, v: nat)
    requires 2 <= c < |t| && t[c] == 0 && v != 0
    ensures |FreeClusters(t[c := v])| == |FreeClusters(t)| - 1
  {
    assert FreeClusters(t) == FreeClusters(t[c := v]) + {c};
  }

  lemma RelinkOne(t: seq<nat>, c: nat, v: nat)
    requires 2 <= c < |t| && t[c] != 0 && v != 0
    ensures FreeClusters(t[c := v]) == FreeClusters(t)
  {
  }

  // -------------------------------------------------- stretching a chain

  /** `new` taken and, when there is a chain to stretch, linked behind `prev`. */
  function Stretched(t: seq<nat>, prev: nat, new_: nat): (r: seq<nat>)
    requires prev < |t| && new_ < |t|
    ensures |r| == |t|
  {
    var t1 := t[new_ := EOC];
    if prev != 0 then t1[prev := new_] else t1
  }

  /** The chains after `Stretched`: `ch` has grown by one cluster, or a new chain exists. */
  ghost function StretchedChains(chains: set<seq<nat>>, ch: seq<nat>, new_: nat): set<seq<nat>> {
    chains - {ch} + {ch + [new_]}
  }

  lemma ChainGrows(t: seq<nat>, ch: seq<nat>, new_: nat)
    requires IsChain(t, ch) && 2 <= new_ < |t| && t[new_] == 0
    ensures new_ !in ch
    ensures IsChain(Stretched(t, ch[|ch| - 1], new_), ch + [new_])
  {
    if new_ in ch {
      OnChainInUse(t, ch, new_);
    }
    ChainAcyclic(t, ch);
    var t', ch' := Stretched(t, ch[|ch| - 1], new_), ch + [new_];
    forall i | 0 <= i < |ch'| - 1
      ensures t'[ch'[i]] == ch'[i + 1]
    {
      if i < |ch| - 1 {
        assert t[ch[i]] == ch[i + 1] && ch[i] != ch[|ch| - 1];
      }
    }
  }

  /** A chain that holds neither the new cluster nor the stretched end is as before. */
  lemma OtherChainKept(t: seq<nat>, prev: nat, new_: nat, a: seq<nat>)
    requires IsChain(t, a) && prev < |t| && 2 <= new_ < |t| && t[new_] == 0
    requires prev != 0 ==> prev !in a
    ensures new_ !in a && IsChain(Stretched(t, prev, new_), a)
  {
    if new_ in a {
      OnChainInUse(t, a, new_);
    }
    ChainFrame(t, Stretched(t, prev, new_), a);
  }

  /** Stretching the chain `ch` appends exactly `new`; every other chain is as before. */
  lemma StretchGrows(t: seq<nat>, chains: set<seq<nat>>, ch: seq<nat>, new_: nat)
    requires Decomposes(t, chains) && 2 <= new_ < |t| && t[new_] == 0
    requires ch in chains
    ensures Decomposes(Stretched(t, ch[|ch| - 1], new_), StretchedChains(chains, ch, new_))
    ensures |FreeClusters(Stretched(t, ch[|ch| - 1], new_))| == |FreeClusters(t)| - 1
  {
    var prev := ch[|ch| - 1];
    var t', chains' := Stretched(t, prev, new_), StretchedChains(chains, ch, new_);
    TakeOne(t, new_, EOC);
    OnChainInUse(t, ch, prev);
    RelinkOne(t[new_ := EOC], prev, new_);
    ChainGrows(t, ch, new_);
    forall a | a in chains && a != ch
      ensures new_ !in a && IsChain(t', a) && Disjoint(a, ch + [new_])
    {
      assert Disjoint(ch, a);
      OtherChainKept(t, prev, new_, a);
    }
    StretchCovers(t, chains, ch, new_, t', chains');
    DecomposesWith(t', chains - {ch}, ch + [new_]);
  }

  lemma StretchCovers(t: seq<nat>, chains: set<seq<nat>>, ch: seq<nat>, new_: nat, t': seq<nat>, chains': set<seq<nat>>)
    requires Decomposes(t, chains) && 2 <= new_ < |t| && |t'| == |t|
    requires forall c :: 2 <= c < |t| && c != new_ && c !in ch ==> t'[c] == t[c]
    requires chains' == StretchedChains(chains, ch, new_)
    ensures Covers(t', chains')
  {
    assert ch + [new_] in chains';
    forall c | 2 <= c < |t'| && t'[c] != 0 && t'[c] != BAD_CLUSTER
      ensures OnSome(c, chains')
    {
      if c == new_ || c in ch {
        assert c in ch + [new_];
      } else {
        assert OnSome(c, chains);
        var a :| a in chains && c in a;
        assert a in chains';
      }
    }
  }

  /** Starting a chain adds the one-cluster chain `[new]`. */
  lemma StretchStarts(t: seq<nat>, chains: set<seq<nat>>, new_: nat)
    requires Decomposes(t, chains) && 2 <= new_ < |t| && t[new_] == 0
    ensures Decomposes(Stretched(t, 0, new_), chains + {[new_]})
    ensures |FreeClusters(Stretched(t, 0, new_))| == |FreeClusters(t)| - 1
  {
    var t' := Stretched(t, 0, new_);
    TakeOne(t, new_, EOC);
    forall a | a in chains
      ensures new_ !in a && IsChain(t', a)
    {
      OtherChainKept(t, 0, new_, a);
    }
    assert [] !in chains by {
      assert !IsChain(t, []);
    }
    assert StretchedChains(chains, [], new_) == chains + {[new_]} by {
      assert [] + [new_] == [new_];
    }
    StretchCovers(t, chains, [], new_, t', chains + {[new_]});
    DecomposesWith(t', chains, [new_]);
  }

  // -------------------------------------------------- removing a chain

  /** What `remove_chain` leaves: the table, whether it ended at an end mark, and how many entries it freed. */
  datatype Removal = Removal(table: seq<nat>, ok: bool, freed: nat)

  /** Follow the links from `c`, zeroing each entry once it has been read. */
  ghost function Remove(t: seq<nat>, c: nat): (r: Removal)
    requires c < |t|
    ensures |r.table| == |t|
    decreases |NonZero(t)|
  {
    var kind := KindOf(t[c], |t|);
    if !kind.InUse() then Removal(t, false, 0)
    else
      var t' := t[c := 0];
      assert NonZero(t) == NonZero(t') + {c};
      if kind.Last? then Removal(t', true, 1)
      else
        var r := Remove(t', t[c]);
        r.(freed := r.freed + 1)
  }

  /** One turn of the removal loop. */
  lemma RemoveStep(t: seq<nat>, c: nat)
    requires c < |t|
    ensures var kind := KindOf(t[c], |t|);
            && (!kind.InUse() ==> Remove(t, c) == Removal(t, false, 0))
            && (kind.Last? ==> Remove(t, c) == Removal(t[c := 0], true, 1))
            && (kind.Link? ==>
                  && t[c] < |t|
                  && var r := Remove(t[c := 0], t[c]);
                     Remove(t, c) == Removal(r.table, r.ok, r.freed + 1))
            && (kind.InUse() ==> |NonZero(t[c := 0])| < |NonZero(t)|)
  {
    if KindOf(t[c], |t|).InUse() {
      assert NonZero(t) == NonZero(t[c := 0]) + {c};
    }
  }

  /** The table with the clusters of `ch` free. */
  function Freed(t: seq<nat>, ch: seq<nat>): (r: seq<nat>)
    ensures |r| == |t|
    ensures forall c :: 0 <= c < |t| ==> r[c] == if c in ch then 0 else t[c]
  {
    seq(|t|, c requires 0 <= c < |t| => if c in ch then 0 else t[c])
  }

  lemma FreedCons(t: seq<nat>, c: nat, tl: seq<nat>)
    requires c < |t|
    ensures Freed(t[c := 0], tl) == Freed(t, [c] + tl)
  {
  }

  /** On a chain, removal frees exactly that chain. */
  lemma {:induction false} RemoveFreesChain(t: seq<nat>, ch: seq<nat>)
    requires IsChain(t, ch)
    ensures Remove(t, ch[0]) == Removal(Freed(t, ch), true, |ch|)
    decreases |ch|
  {
    hide Remove;
    var c, tl := ch[0], ch[1..];
    var t' := t[c := 0];
    assert ch == [c] + tl;
    FreedCons(t, c, tl);
    RemoveStep(t, c);
    if |ch| == 1 {
      assert Freed(t', []) == t';
    } else {
      ChainAcyclic(t, ch);
      ChainTail(t, ch);
      ChainFrame(t, t', tl);
      RemoveFreesChain(t', tl);
    }
  }

  /**
   Removal succeeds only on chains: when the links from `c` run into a cycle, a
   free or bad cluster or a broken entry, it stops with an error instead.
   */
  lemma {:induction false} RemoveOnlyChains(t: seq<nat>, c: nat) returns (ch: seq<nat>)
    requires 2 <= c < |t| <= BAD_CLUSTER
    ensures Remove(t, c).ok ==> IsChain(t, ch) && ch[0] == c
    decreases |NonZero(t)|
  {
    ch := [c];
    if KindOf(t[c], |t|).Link? {
      var t' := t[c := 0];
      assert NonZero(t) == NonZero(t') + {c};
      var tl := RemoveOnlyChains(t', t[c]);
      if Remove(t', t[c]).ok {
        if c in tl {
          OnChainInUse(t', tl, c);
        }
        ChainFrame(t', t, tl);
        ch := [c] + tl;
      }
    }
  }

  /** The count of freed entries is the growth of the number of free clusters. */
  lemma {:induction false} RemoveCounts(t: seq<nat>, c: nat)
    requires 2 <= c < |t|
    ensures |FreeClusters(Remove(t, c).table)| == |FreeClusters(t)| + Remove(t, c).freed
    decreases |NonZero(t)|
  {
    var kind := KindOf(t[c], |t|);
    if kind.InUse() {
      FreeOne(t, c);
      if kind.Link? {
        assert NonZero(t) == NonZero(t[c := 0]) + {c};
        RemoveCounts(t[c := 0], t[c]);
      }
    }
  }

  lemma FreedKeepsChain(t: seq<nat>, ch: seq<nat>, a: seq<nat>)
    requires IsChain(t, a) && Disjoint(ch, a)
    ensures IsChain(Freed(t, ch), a)
  {
    forall i | 0 <= i < |a|
      ensures Freed(t, ch)[a[i]] == t[a[i]]
    {
      assert a[i] in a;
    }
    ChainFrame(t, Freed(t, ch), a);
  }

  lemma FreedCovers(t: seq<nat>, chains: set<seq<nat>>, ch: seq<nat>)
    requires Covers(t, chains)
    ensures Covers(Freed(t, ch), chains - {ch})
  {
    var t' := Freed(t, ch);
    forall c | 2 <= c < |t'| && t'[c] != 0 && t'[c] != BAD_CLUSTER
      ensures OnSome(c, chains - {ch})
    {
      assert OnSome(c, chains);
      var a :| a in chains && c in a;
      assert a in chains - {ch};
    }
  }

  /** Removing one chain of a decomposed table leaves all the others. */
  lemma RemoveKeepsOthers(t: seq<nat>, chains: set<seq<nat>>, ch: seq<nat>)
    requires Decomposes(t, chains) && ch in chains
    ensures Remove(t, ch[0]) == Removal(Freed(t, ch), true, |ch|)
    ensures Decomposes(Freed(t, ch), chains - {ch})
  {
    RemoveFreesChain(t, ch);
    FreedCovers(t, chains, ch);
    forall a | a in chains - {ch}
      ensures IsChain(Freed(t, ch), a)
    {
      FreedKeepsChain(t, ch, a);
    }
  }

  // ------------------------------------------------- growth of one chain

  /**
   From `t` to `t'` the chain `ch` has grown to `ch'` at its end, out of clusters
   that were free, and nothing else has changed.
   */
  ghost predicate Grown(t: seq<nat>, ch: seq<nat>, t': seq<nat>, ch': seq<nat>) {
    && |t'| == |t|
    && ch <= ch'
    && IsChain(t', ch')
    && (forall c: nat :: c < |t| && c !in ch' ==> t'[c] == t[c])
    && (forall i :: |ch| <= i < |ch'| ==> t[ch'[i]] == 0)
  }

  lemma GrownRefl(t: seq<nat>, ch: seq<nat>)
    requires IsChain(t, ch)
    ensures Grown(t, ch, t, ch)
  {
  }

  lemma GrownPrefix(t: seq<nat>, ch: seq<nat>, t': seq<nat>, ch': seq<nat>)
    requires Grown(t, ch, t', ch')
    ensures ch <= ch'
  {
  }

  lemma GrownTrans(t: seq<nat>, ch: seq<nat>, t1: seq<nat>, ch1: seq<nat>, t2: seq<nat>, ch2: seq<nat>)
    requires IsChain(t, ch) && Grown(t, ch, t1, ch1) && Grown(t1, ch1, t2, ch2)
    ensures Grown(t, ch, t2, ch2)
  {
    assert forall c :: c in ch1 ==> c in ch2;
    forall i | |ch| <= i < |ch2|
      ensures t[ch2[i]] == 0
    {
      if i >= |ch1| {
        assert t1[ch2[i]] == 0;
        if ch2[i] in ch1 {
          OnChainInUse(t1, ch1, ch2[i]);
        }
      } else {
        assert ch2[i] == ch1[i];
      }
    }
  }

  lemma GrownStep(t: seq<nat>, ch: seq<nat>, t': seq<nat>, ch': seq<nat>, new_: nat)
    requires IsChain(t, ch) && Grown(t, ch, t', ch')
    requires 2 <= new_ < |t| && t'[new_] == 0
    ensures Grown(t, ch, Stretched(t', ch'[|ch'| - 1], new_), ch' + [new_])
  {
    ChainGrows(t', ch', new_);
    var last := ch'[|ch'| - 1];
    var t'', ch'' := Stretched(t', last, new_), ch' + [new_];
    forall c: nat | c < |t| && c !in ch''
      ensures t''[c] == t[c]
    {
      assert last in ch'' && new_ in ch'';
      assert c !in ch';
    }
  }

  /** As many free clusters are gone as the chain has grown by. */
  lemma GrownFree(t: seq<nat>, ch: seq<nat>, t': seq<nat>, ch': seq<nat>)
    requires IsChain(t, ch) && Grown(t, ch, t', ch')
    ensures |FreeClusters(t)| == |FreeClusters(t')| + |ch'| - |ch|
  {
    var added := ch'[|ch|..];
    ChainAcyclic(t', ch');
    forall a, b | 0 <= a < b < |added|
      ensures added[a] != added[b]
    {
      assert added[a] == ch'[|ch| + a] && added[b] == ch'[|ch| + b];
    }
    DistinctSize(added);
    forall c: nat
      ensures c in FreeClusters(t) <==> c in FreeClusters(t') || c in Elements(added)
      ensures !(c in FreeClusters(t') && c in Elements(added))
    {
      FreeOrTaken(t, ch, t', ch', c);
    }
    assert FreeClusters(t) == FreeClusters(t') + Elements(added);
  }

  lemma FreeOrTaken(t: seq<nat>, ch: seq<nat>, t': seq<nat>, ch': seq<nat>, c: nat)
    requires IsChain(t, ch) && Grown(t, ch, t', ch')
    ensures c in FreeClusters(t) <==> c in FreeClusters(t') || c in ch'[|ch|..]
    ensures c in FreeClusters(t') ==> c !in ch'[|ch|..]
  {
    if c in ch' {
      OnChainInUse(t', ch', c);
      var i :| 0 <= i < |ch'| && ch'[i] == c;
      if i < |ch| {
        assert ch[i] == c;
        OnChainInUse(t, ch, c);
      } else {
        assert ch'[|ch|..][i - |ch|] == c;
      }
    }
  }

  lemma StretchedReadable(t: seq<nat>, prev: nat, new_: nat)
    requires Readable(t) && prev < |t| <= BAD_CLUSTER && 2 <= new_ < |t|
    ensures Readable(Stretched(t, prev, new_))
  {
  }

  /** Growing one chain of a decomposed table leaves all the others. */
  lemma GrownDecomposes(t: seq<nat>, chains: set<seq<nat>>, ch: seq<nat>, t': seq<nat>, ch': seq<nat>)
    requires Decomposes(t, chains) && ch in chains && Grown(t, ch, t', ch')
    ensures Decomposes(t', chains - {ch} + {ch'})
  {
    forall a | a in chains - {ch}
      ensures IsChain(t', a) && Disjoint(a, ch')
    {
      GrownKeepsOther(t, ch, t', ch', a);
    }
    forall c | 2 <= c < |t'| && t'[c] != 0 && t'[c] != BAD_CLUSTER
      ensures OnSome(c, chains - {ch} + {ch'})
    {
      assert ch' in chains - {ch} + {ch'};
      if c !in ch' {
        assert OnSome(c, chains);
        var a :| a in chains && c in a;
        assert c !in ch by {
          assert forall x :: x in ch ==> x in ch';
        }
        assert a in chains - {ch} + {ch'};
      }
    }
    DecomposesWith(t', chains - {ch}, ch');
  }

  lemma GrownKeepsOther(t: seq<nat>, ch: seq<nat>, t': seq<nat>, ch': seq<nat>, a: seq<nat>)
    requires Grown(t, ch, t', ch') && IsChain(t, a) && Disjoint(a, ch)
    ensures IsChain(t', a) && Disjoint(a, ch')
  {
    forall i | 0 <= i < |ch'|
      ensures ch'[i] !in a
    {
      if i < |ch| {
        assert ch'[i] == ch[i] && ch[i] in ch;
      } else if ch'[i] in a {
        OnChainInUse(t, a, ch'[i]);
      }
    }
    forall i | 0 <= i < |a|
      ensures t'[a[i]] == t[a[i]]
    {
      assert a[i] in a;
    }
    ChainFrame(t, t', a);
  }
}
