/**
 Where a position in a cluster chain lies on the disk. Quotients by the cluster
 size are defined by repeated subtraction, which keeps the arithmetic linear;
 `QuotientRemainder` ties them to `/` and `%`.
 */
module FatOffsets {
  import opened FatImage
  import opened FatChains

  function Quot(k: nat, m: nat): nat
    requires m > 0
  {
    if k < m then 0 else 1 + Quot(k - m, m)
  }

  function Rem(k: nat, m: nat): (r: nat)
    requires m > 0
    ensures r < m
  {
    if k < m then k else Rem(k - m, m)
  }

  lemma {:induction false} QuotRem(k: nat, m: nat)
    requires m > 0
    ensures k == Times(Quot(k, m), m) + Rem(k, m)
  {
    if k >= m {
      QuotRem(k - m, m);
    }
  }

  lemma QuotientRemainder(k: nat, m: nat)
    requires m > 0
    ensures Quot(k, m) == k / m && Rem(k, m) == k % m
  {
    QuotRem(k, m);
    TimesIsProduct(Quot(k, m), m);
    Unique(m, Quot(k, m), Rem(k, m), k / m, k % m);
  }

  lemma {:induction false} TimesIsProduct(n: nat, m: nat)
    ensures Times(n, m) == n * m
  {
    if n > 0 {
      TimesIsProduct(n - 1, m);
      assert (n - 1) * m + m == n * m;
    }
  }

  /** The sectors of the data region are numbered cluster by cluster, from cluster 2 on. */
  lemma FirstSectorTells(g: Geometry, c: nat)
    requires g.IsCluster(c)
    ensures g.FirstSector(c) == g.dataSect + (c - 2) * g.SectorsPerCluster()
    ensures g.clustShift < 8 ==> g.SectorsPerCluster() == [1, 2, 4, 8, 16, 32, 64, 128][g.clustShift]
  {
    TimesIsProduct(c - 2, g.SectorsPerCluster());
    assert Pow2(0) == 1 && Pow2(1) == 2 && Pow2(2) == 4 && Pow2(3) == 8;
    assert Pow2(4) == 16 && Pow2(5) == 32;
    assert Pow2(6) == 64 && Pow2(7) == 128;
  }

  lemma {:induction false} Unique(m: nat, q: nat, r: nat, q': nat, r': nat)
    requires r < m && r' < m && q * m + r == q' * m + r'
    ensures q == q' && r == r'
    decreases q
  {
    ProductStep(q, m);
    ProductStep(q', m);
    if q > 0 && q' > 0 {
      Unique(m, q - 1, r, q' - 1, r');
    }
  }

  lemma ProductStep(q: nat, m: nat)
    ensures q == 0 ==> q * m == 0
    ensures q > 0 ==> q * m == (q - 1) * m + m && (q - 1) * m >= 0
  {
  }

  /** Position `k` is below `n` whole clusters exactly when its cluster index is below `n`. */
  lemma {:induction false} QuotBelow(k: nat, n: nat, m: nat)
    requires m > 0
    ensures k < Times(n, m) <==> Quot(k, m) < n
    decreases n
  {
    if n > 0 && k >= m {
      QuotBelow(k - m, n - 1, m);
    }
  }

  lemma {:induction false} QuotMonotone(a: nat, b: nat, m: nat)
    requires m > 0 && a <= b
    ensures Quot(a, m) <= Quot(b, m)
  {
    if a >= m {
      QuotMonotone(a - m, b - m, m);
    }
  }

  /** A step shorter than a cluster enters at most the next one. */
  lemma {:induction false} QuotStep(a: nat, b: nat, m: nat)
    requires m > 0 && a <= b <= a + m
    ensures Quot(b, m) <= Quot(a, m) + 1
  {
    if a >= m {
      QuotStep(a - m, b - m, m);
    }
  }

  /** The cluster of a byte is the cluster of its sector. */
  lemma {:induction false} QuotOfSector(o: nat, m: nat)
    requires m > 0
    ensures Quot(o, 512 * m) == Quot(o / 512, m)
  {
    if o >= 512 * m {
      QuotOfSector(o - 512 * m, m);
      assert (o - 512 * m) / 512 == o / 512 - m;
    }
  }

  // --------------------------------------------------- sectors of a chain

  /** Are all of `ch` clusters of the volume? */
  ghost predicate InVolume(g: Geometry, ch: seq<nat>) {
    forall i :: 0 <= i < |ch| ==> g.IsCluster(ch[i])
  }

  /** The number of sectors of a chain. */
  function SectorCount(g: Geometry, ch: seq<nat>): nat {
    Times(|ch|, g.SectorsPerCluster())
  }

  /** The disk sector of the `k`-th sector of a chain. */
  function SectorOf(g: Geometry, ch: seq<nat>, k: nat): nat
    requires InVolume(g, ch) && Quot(k, g.SectorsPerCluster()) < |ch|
  {
    g.FirstSector(ch[Quot(k, g.SectorsPerCluster())]) + Rem(k, g.SectorsPerCluster())
  }

  /** The sectors of a chain are those of its clusters in turn. */
  lemma SectorTells(g: Geometry, ch: seq<nat>, m: nat, i: nat, r: nat)
    requires InVolume(g, ch) && m == g.SectorsPerCluster() && i < |ch| && r < m
    ensures Quot(i * m + r, m) < |ch|
    ensures SectorOf(g, ch, i * m + r) == g.dataSect + (ch[i] - 2) * m + r
  {
    hide Times, Quot, Pow2, Geometry.FirstSector;
    var k := i * m + r;
    QuotRem(k, m);
    TimesIsProduct(Quot(k, m), m);
    Unique(m, Quot(k, m), Rem(k, m), i, r);
    FirstSectorTells(g, ch[i]);
  }

  /** Does `sect` belong to a cluster of the chain? */
  ghost predicate OnChain(g: Geometry, ch: seq<nat>, sect: nat)
    requires InVolume(g, ch)
  {
    exists i :: 0 <= i < |ch| && g.InCluster(sect, ch[i])
  }

  /** A chain that grows keeps its sectors. */
  lemma OnChainGrows(g: Geometry, ch: seq<nat>, ch': seq<nat>, sect: nat)
    requires InVolume(g, ch) && InVolume(g, ch') && ch <= ch' && OnChain(g, ch, sect)
    ensures OnChain(g, ch', sect)
  {
    var i :| 0 <= i < |ch| && g.InCluster(sect, ch[i]);
    assert ch'[i] == ch[i];
  }

  lemma SectorOnChain(g: Geometry, total: nat, ch: seq<nat>, k: nat)
    requires g.WellFormed(total) && InVolume(g, ch) && Quot(k, g.SectorsPerCluster()) < |ch|
    ensures OnChain(g, ch, SectorOf(g, ch, k))
    ensures g.dataSect <= SectorOf(g, ch, k) < total
    ensures !g.InTable(SectorOf(g, ch, k)) && SectorOf(g, ch, k) != g.infoSect
  {
    var c := ch[Quot(k, g.SectorsPerCluster())];
    ClusterInVolume(g, total, c);
    assert g.InCluster(SectorOf(g, ch, k), c);
  }

  /** Different positions of a chain are different disk sectors. */
  lemma SectorOfInjective(g: Geometry, ch: seq<nat>, j: nat, k: nat)
    requires InVolume(g, ch) && Distinct(ch)
    requires Quot(j, g.SectorsPerCluster()) < |ch| && Quot(k, g.SectorsPerCluster()) < |ch|
    requires SectorOf(g, ch, j) == SectorOf(g, ch, k)
    ensures j == k
  {
    var m := g.SectorsPerCluster();
    var sect := SectorOf(g, ch, j);
    var a, b := ch[Quot(j, m)], ch[Quot(k, m)];
    assert g.InCluster(sect, a) && g.InCluster(sect, b);
    ClustersDisjoint(g, a, b, sect);
    QuotRem(j, m);
    QuotRem(k, m);
  }

  /** Sectors before the data region are on no chain. */
  lemma BeforeDataOffChain(g: Geometry, total: nat, ch: seq<nat>, sect: nat)
    requires g.WellFormed(total) && InVolume(g, ch) && sect < g.dataSect
    ensures !OnChain(g, ch, sect)
  {
    forall i | 0 <= i < |ch|
      ensures !g.InCluster(sect, ch[i])
    {
      ClusterInVolume(g, total, ch[i]);
    }
  }

  // ------------------------------------------------ the cluster-end test

  lemma {:induction false} RemOfMultiple(a: nat, b: nat, m: nat)
    requires m > 0 && Rem(a, m) == 0
    ensures Rem(a + b, m) == Rem(b, m)
    decreases a
  {
    if a >= m {
      RemOfMultiple(a - m, b, m);
    }
  }

  lemma {:induction false} RemOfTimes(n: nat, m: nat)
    requires m > 0
    ensures Rem(Times(n, m), m) == 0
  {
    if n > 0 {
      RemOfTimes(n - 1, m);
    }
  }

  /** Absolute sector numbers are aligned like sectors within a cluster. */
  predicate Aligned(g: Geometry) {
    Rem(g.dataSect, g.SectorsPerCluster()) == 0
  }

  /** Is `dir_next` still in the same cluster, by its own test, after stepping to sector `sect`? */
  predicate SaysSameCluster(g: Geometry, sect: nat) {
    Rem(sect, g.SectorsPerCluster()) != 0
  }

  lemma RemInCluster(g: Geometry, c: nat, r: nat)
    requires g.IsCluster(c) && Aligned(g)
    ensures Rem(g.FirstSector(c) + r, g.SectorsPerCluster()) == Rem(r, g.SectorsPerCluster())
  {
    var m := g.SectorsPerCluster();
    RemOfTimes(c - 2, m);
    RemOfMultiple(Times(c - 2, m), r, m);
    RemOfMultiple(g.dataSect, Times(c - 2, m) + r, m);
  }

  /** Is the test right `r` sectors into cluster `c`? */
  predicate TestRight(g: Geometry, c: nat, r: nat)
    requires g.IsCluster(c)
  {
    SaysSameCluster(g, g.FirstSector(c) + r) <==> r < g.SectorsPerCluster()
  }

  /**
   The test of the absolute sector number against the cluster mask finds the end
   of every cluster, and finds it nowhere else, exactly when the data region is
   aligned to clusters.
   */
  lemma SectorTestExact(g: Geometry)
    requires g.IsCluster(2)
    ensures Aligned(g) <==> forall c, r: nat :: g.IsCluster(c) && 0 < r <= g.SectorsPerCluster() ==> TestRight(g, c, r)
  {
    var m := g.SectorsPerCluster();
    if Aligned(g) {
      forall c, r: nat | g.IsCluster(c) && 0 < r <= m
        ensures TestRight(g, c, r)
      {
        RemInCluster(g, c, r);
      }
    } else {
      assert Rem(g.dataSect + m, m) == Rem(g.dataSect, m);
      assert g.FirstSector(2) + m == g.dataSect + m;
      assert !TestRight(g, 2, m);
    }
  }

  /** Stepping from sector `q` of a chain to the next one: it is in the same cluster, or the first of the next. */
  lemma {:induction false} NextSector(q: nat, m: nat)
    requires m > 0
    ensures Rem(q, m) + 1 < m ==> Quot(q + 1, m) == Quot(q, m) && Rem(q + 1, m) == Rem(q, m) + 1
    ensures Rem(q, m) + 1 == m ==> Quot(q + 1, m) == Quot(q, m) + 1 && Rem(q + 1, m) == 0
  {
    if q >= m {
      NextSector(q - m, m);
    }
  }
}
