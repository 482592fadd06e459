/**
 A directory cursor on a mounted volume. The slots of the directory are the
 32-byte pieces of the sectors of its chain; every operation is proved against
 what `DirSlots` says of that sequence.
 */
module FatDirectory {
  import opened FatImage
  import opened FatChains
  import opened FatOffsets
  import opened FatVolume
  import opened DiskLayout
  import opened DirNames
  import opened DirSlots

  // -------------------------------------------------- slots of a volume

  function SlotIn(s: Sector, i: nat): Slot
    requires i < 16
  {
    s[32 * i..32 * i + 32]
  }

  function WithSlot(s: Sector, i: nat, v: Slot): Sector
    requires i < 16
  {
    s[..32 * i] + v + s[32 * i + 32..]
  }

  lemma WithSlotSlots(s: Sector, i: nat, v: Slot, j: nat)
    requires i < 16 && j < 16
    ensures SlotIn(WithSlot(s, i, v), j) == if i == j then v else SlotIn(s, j)
  {
    var r := WithSlot(s, i, v);
    forall x | 0 <= x < 32
      ensures SlotIn(r, j)[x] == if i == j then v[x] else SlotIn(s, j)[x]
    {
      assert SlotIn(r, j)[x] == r[32 * j + x];
    }
  }

  /** The number of slots of a chain. */
  function SlotCount(g: Geometry, ch: seq<nat>): nat {
    16 * SectorCount(g, ch)
  }

  /** Is slot `k` inside the chain? */
  ghost predicate InSlots(g: Geometry, ch: seq<nat>, k: nat) {
    Quot(k / 16, g.SectorsPerCluster()) < |ch|
  }

  lemma InSlotsBelow(g: Geometry, ch: seq<nat>, k: nat)
    ensures InSlots(g, ch, k) <==> k < SlotCount(g, ch)
  {
    QuotBelow(k / 16, |ch|, g.SectorsPerCluster());
  }

  function SlotOf(g: Geometry, img: Image, ch: seq<nat>, k: nat): Slot
    requires g.WellFormed(|img|) && InVolume(g, ch) && InSlots(g, ch, k)
  {
    SectorOnChain(g, |img|, ch, k / 16);
    SlotIn(img[SectorOf(g, ch, k / 16)], k % 16)
  }

  ghost function SlotsOf(g: Geometry, img: Image, ch: seq<nat>): (s: seq<Slot>)
    requires g.WellFormed(|img|) && InVolume(g, ch)
    ensures |s| == SlotCount(g, ch)
    ensures forall k: nat :: InSlots(g, ch, k) <==> k < |s|
    ensures forall k: nat :: k < |s| ==> s[k] == SlotOf(g, img, ch, k)
  {
    AllSlotsBelow(g, ch);
    seq(SlotCount(g, ch), k requires 0 <= k < SlotCount(g, ch) => SlotOf(g, img, ch, k))
  }

  lemma AllSlotsBelow(g: Geometry, ch: seq<nat>)
    ensures forall k: nat :: InSlots(g, ch, k) <==> k < SlotCount(g, ch)
  {
    forall k: nat
      ensures InSlots(g, ch, k) <==> k < SlotCount(g, ch)
    {
      InSlotsBelow(g, ch, k);
    }
  }

  /** Writing slot `k` into its sector replaces that slot of the directory and no other. */
  lemma SlotWritten(g: Geometry, img: Image, ch: seq<nat>, k: nat, v: Slot)
    requires g.WellFormed(|img|) && InVolume(g, ch) && Distinct(ch) && InSlots(g, ch, k)
    ensures SectorOf(g, ch, k / 16) < |img| && k < SlotCount(g, ch)
    ensures var s := SectorOf(g, ch, k / 16);
            SlotsOf(g, img[s := WithSlot(img[s], k % 16, v)], ch) == SlotsOf(g, img, ch)[k := v]
  {
    hide Geometry.WellFormed, SlotIn, WithSlot, Distinct, InVolume;
    SectorOnChain(g, |img|, ch, k / 16);
    InSlotsBelow(g, ch, k);
    var s := SectorOf(g, ch, k / 16);
    var img' := img[s := WithSlot(img[s], k % 16, v)];
    var a, b := SlotsOf(g, img, ch), SlotsOf(g, img', ch);
    forall j: nat | j < |a|
      ensures b[j] == if j == k then v else a[j]
    {
      SlotWrittenAt(g, img, ch, k, v, j);
    }
  }

  lemma SlotWrittenAt(g: Geometry, img: Image, ch: seq<nat>, k: nat, v: Slot, j: nat)
    requires g.WellFormed(|img|) && InVolume(g, ch) && Distinct(ch) && InSlots(g, ch, k) && InSlots(g, ch, j)
    requires SectorOf(g, ch, k / 16) < |img|
    ensures var s := SectorOf(g, ch, k / 16);
            SlotOf(g, img[s := WithSlot(img[s], k % 16, v)], ch, j) == if j == k then v else SlotOf(g, img, ch, j)
  {
    hide Geometry.WellFormed, SlotIn, WithSlot, Distinct, InVolume, SectorOf;
    SectorOnChain(g, |img|, ch, j / 16);
    var s := SectorOf(g, ch, k / 16);
    if SectorOf(g, ch, j / 16) == s {
      SectorOfInjective(g, ch, j / 16, k / 16);
      WithSlotSlots(img[s], k % 16, v, j % 16);
    }
  }

  function PutSlot(b: Sector, idx: nat, v: Slot): Sector
    requires idx % 32 == 0 && idx < 512
  {
    WithSlot(b, idx / 32, v)
  }

  /** The slot behind the last one is the first of the cluster added. */
  lemma FirstOfNewCluster(g: Geometry, ch: seq<nat>, c: nat, k: nat)
    requires InVolume(g, ch + [c]) && InVolume(g, ch)
    requires InSlots(g, ch, k) && !InSlots(g, ch, k + 1)
    ensures InSlots(g, ch + [c], k + 1) && (ch + [c])[Quot((k + 1) / 16, g.SectorsPerCluster())] == c
    ensures SectorOf(g, ch + [c], (k + 1) / 16) == g.FirstSector(c) && (k + 1) % 16 == 0
  {
    SlotStep(k);
    NextSector(k / 16, g.SectorsPerCluster());
  }

  lemma SlotStep(k: nat)
    ensures k % 16 < 15 ==> (k + 1) / 16 == k / 16 && (k + 1) % 16 == k % 16 + 1
    ensures k % 16 == 15 ==> (k + 1) / 16 == k / 16 + 1 && (k + 1) % 16 == 0
  {
  }

  /** A cluster of zeroes at the end of the chain adds end markers at the end of the directory. */
  lemma SlotsStretched(g: Geometry, img: Image, ch: seq<nat>, img': Image, c: nat)
    requires g.WellFormed(|img|) && |img'| == |img| && InVolume(g, ch) && InVolume(g, ch + [c]) && g.IsCluster(c)
    requires forall s :: g.dataSect <= s < |img| && OnChain(g, ch, s) ==> img'[s] == img[s]
    requires forall s :: 0 <= s < |img| && g.InCluster(s, c) ==> img'[s] == ZeroSector()
    ensures var a, b := SlotsOf(g, img, ch), SlotsOf(g, img', ch + [c]);
            |a| < |b| && b[..|a|] == a && AllLast(b[|a|..])
  {
    hide OnChain, Geometry.WellFormed, SlotIn, InVolume;
    var a, b := SlotsOf(g, img, ch), SlotsOf(g, img', ch + [c]);
    assert |b| == |a| + 16 * g.SectorsPerCluster();
    forall k: nat | k < |b|
      ensures k < |a| ==> b[k] == a[k]
      ensures k >= |a| ==> IsLast(b[k])
    {
      assert InSlots(g, ch + [c], k);
      if k < |a| {
        assert InSlots(g, ch, k);
        OldSlotKept(g, img, ch, img', c, k);
      } else {
        assert !InSlots(g, ch, k);
        NewSlotLast(g, ch, img', c, k);
      }
    }
  }

  lemma OldSlotKept(g: Geometry, img: Image, ch: seq<nat>, img': Image, c: nat, k: nat)
    requires g.WellFormed(|img|) && |img'| == |img| && InVolume(g, ch) && InVolume(g, ch + [c])
    requires forall s :: g.dataSect <= s < |img| && OnChain(g, ch, s) ==> img'[s] == img[s]
    requires InSlots(g, ch, k) && InSlots(g, ch + [c], k)
    ensures SlotOf(g, img', ch + [c], k) == SlotOf(g, img, ch, k)
  {
    hide OnChain, Geometry.WellFormed, SlotIn, InVolume;
    SectorOnChain(g, |img|, ch, k / 16);
    assert (ch + [c])[Quot(k / 16, g.SectorsPerCluster())] == ch[Quot(k / 16, g.SectorsPerCluster())];
  }

  lemma ZeroSlot(i: nat)
    requires i < 16
    ensures IsLast(SlotIn(ZeroSector(), i))
  {
  }

  lemma NewSlotLast(g: Geometry, ch: seq<nat>, img': Image, c: nat, k: nat)
    requires g.WellFormed(|img'|) && InVolume(g, ch + [c]) && g.IsCluster(c)
    requires forall s :: 0 <= s < |img'| && g.InCluster(s, c) ==> img'[s] == ZeroSector()
    requires InSlots(g, ch + [c], k) && !InSlots(g, ch, k)
    ensures IsLast(SlotOf(g, img', ch + [c], k))
  {
    hide Geometry.WellFormed, Geometry.IsCluster, SlotIn;
    var q := Quot(k / 16, g.SectorsPerCluster());
    assert (ch + [c])[q] == c;
    SectorOnChain(g, |img'|, ch + [c], k / 16);
    assert g.InCluster(SectorOf(g, ch + [c], k / 16), c);
    assert SlotOf(g, img', ch + [c], k) == SlotIn(ZeroSector(), k % 16);
    ZeroSlot(k % 16);
  }

  /** Where the slot behind slot `k` lies, as `dir_next` works it out. */
  lemma CursorStep(g: Geometry, ch: seq<nat>, k: nat)
    requires InVolume(g, ch) && InSlots(g, ch, k) && Aligned(g)
    ensures var m, s := g.SectorsPerCluster(), SectorOf(g, ch, k / 16);
            && (32 * (k % 16) + 32 < 512 ==> (k + 1) / 16 == k / 16 && (k + 1) % 16 == k % 16 + 1)
            && (32 * (k % 16) + 32 >= 512 ==>
                  && (k + 1) % 16 == 0
                  && (SaysSameCluster(g, s + 1) ==>
                        Quot((k + 1) / 16, m) == Quot(k / 16, m) && SectorOf(g, ch, (k + 1) / 16) == s + 1)
                  && (!SaysSameCluster(g, s + 1) ==>
                        && Quot((k + 1) / 16, m) == Quot(k / 16, m) + 1
                        && (InSlots(g, ch, k + 1) ==>
                            SectorOf(g, ch, (k + 1) / 16) == g.FirstSector(ch[Quot(k / 16, m) + 1]))))
  {
    hide Geometry.FirstSector;
    if k % 16 < 15 {
      assert (k + 1) / 16 == k / 16 && (k + 1) % 16 == k % 16 + 1;
    } else {
      var m, q := g.SectorsPerCluster(), k / 16;
      assert (k + 1) / 16 == q + 1;
      NextSector(q, m);
      RemInCluster(g, ch[Quot(q, m)], Rem(q, m) + 1);
      if Rem(q, m) + 1 < m {
        RemSmall(Rem(q, m) + 1, m);
      } else {
        assert Rem(m, m) == 0;
      }
    }
  }

  lemma RemSmall(r: nat, m: nat)
    requires r < m
    ensures Rem(r, m) == r
  {
  }

  /** `sect_to_clust` undoes `clust_to_sect`. */
  lemma ClusterOfSector(g: Geometry, c: nat, r: nat)
    requires g.IsCluster(c) && r < g.SectorsPerCluster()
    ensures g.FirstSector(c) >= g.dataSect
    ensures Quot(g.FirstSector(c) + r - g.dataSect, g.SectorsPerCluster()) + 2 == c
  {
    QuotOfTimes(c - 2, r, g.SectorsPerCluster());
  }

  lemma {:induction false} QuotOfTimes(n: nat, r: nat, m: nat)
    requires r < m
    ensures Quot(Times(n, m) + r, m) == n
  {
    if n > 0 {
      QuotOfTimes(n - 1, r, m);
    }
  }

  /** From `a` to `b` no data sector has changed apart from those of the chain. */
  ghost predicate OffChainSame(g: Geometry, ch: seq<nat>, a: Image, b: Image)
    requires InVolume(g, ch)
  {
    && |a| == |b|
    && forall s :: g.dataSect <= s < |a| && !OnChain(g, ch, s) ==> b[s] == a[s]
  }

  lemma OffChainRefl(g: Geometry, ch: seq<nat>, a: Image)
    requires InVolume(g, ch)
    ensures OffChainSame(g, ch, a, a)
  {
  }

  /** A write to a sector of the chain changes neither the table nor what is off the chain. */
  lemma OneSectorOfChain(g: Geometry, img: Image, ch: seq<nat>, s: nat, data: Sector)
    requires g.WellFormed(|img|) && InVolume(g, ch) && s < |img| && OnChain(g, ch, s) && !g.InTable(s)
    ensures Table(g, img[s := data]) == Table(g, img) && OffChainSame(g, ch, img, img[s := data])
  {
    hide OnChain, Table, Geometry.WellFormed;
    TableFrame(g, img, img[s := data]);
  }

  lemma OffChainTrans(g: Geometry, ch: seq<nat>, a: Image, ch': seq<nat>, b: Image, c: Image)
    requires InVolume(g, ch') && ch <= ch'
    requires InVolume(g, ch) && OffChainSame(g, ch, a, b) && OffChainSame(g, ch', b, c)
    ensures OffChainSame(g, ch', a, c)
  {
    hide OnChain;
    forall s | g.dataSect <= s < |a| && !OnChain(g, ch', s)
      ensures c[s] == a[s]
    {
      if OnChain(g, ch, s) {
        OnChainGrows(g, ch, ch', s);
      }
    }
  }

  function ErrorCode(e: ParseError): int {
    match e
    case Broken => FAT_ERR_BROKEN
    case Eof => FAT_ERR_EOF
  }

  lemma ErrorCodes()
    ensures FAT_ERR_NONE == 0 && FAT_ERR_BROKEN == -2 && FAT_ERR_IO == -3 && FAT_ERR_PARAM == -4
    ensures FAT_ERR_EOF == -6 && FAT_ERR_DENIED == -7 && FAT_ERR_FULL == -8 && NAME_BUF == 512
    ensures ErrorCode(ParseError.Broken) == FAT_ERR_BROKEN && ErrorCode(ParseError.Eof) == FAT_ERR_EOF
  {
  }

  /** Where slot `k` of a chain lies: `Loc`. */
  predicate Located(g: Geometry, ch: seq<nat>, locSect: nat, locIdx: nat, k: nat)
    requires InVolume(g, ch)
  {
    Quot(k / 16, g.SectorsPerCluster()) < |ch| && locSect == SectorOf(g, ch, k / 16) && locIdx == 32 * (k % 16)
  }

  /** A noted place stays where it is when the directory grows. */
  lemma LocatedStretched(g: Geometry, ch: seq<nat>, ch': seq<nat>, locSect: nat, locIdx: nat, k: nat)
    requires InVolume(g, ch) && InVolume(g, ch') && ch <= ch' && Located(g, ch, locSect, locIdx, k)
    ensures Located(g, ch', locSect, locIdx, k)
  {
  }

  /** The clusters a directory must have for slot `end` to exist. */
  ghost function ClustersFor(g: Geometry, end: nat): nat {
    Quot(end / 16, g.SectorsPerCluster()) + 1
  }

  /** With two clusters free there is room for any entry, wherever the scan ends. */
  lemma TwoAreEnough(g: Geometry, t: seq<nat>, ch: seq<nat>, u: nat, slots: seq<Slot>, e: Entry)
    requires IsChain(t, ch) && |slots| == SlotCount(g, ch) && e.Valid()
    requires |FreeClusters(t)| >= 2
    ensures RoomFor(t, ch, u, ClustersFor(g, ScanEnd(slots, 0, 0, false, e.Lfns() + 1)))
  {
    hide NoneFree;
    var end, m := ScanEnd(slots, 0, 0, false, e.Lfns() + 1), g.SectorsPerCluster();
    ScanEndBound(slots, 0, 0, false, e.Lfns() + 1);
    assert end / 16 <= SectorCount(g, ch) + 1;
    QuotMonotone(end / 16, SectorCount(g, ch) + 1, m);
    QuotBelow(SectorCount(g, ch) + 1, |ch| + 2, m);
    if NoneFree(t, ch[|ch| - 1], u) {
      NoneFreeButOne(t, ch[|ch| - 1], u);
    }
  }

  // ------------------------------------------------------------- cursor

  class Dir {
    const fat: Fat
    const sclust: nat
    var clust: nat
    var sect: nat
    var idx: nat
    /** The clusters of the directory, in order. */
    ghost var chain: seq<nat>
    /** `g_buf`, `g_len` and `g_crc`, which the parser of long names leaves its result in. */
    var nameBuf: seq<Byte>
    var nameLen: nat
    var nameCrc: Byte

    ghost predicate Ok()
      reads this`chain, fat, fat.disk
      ensures Ok() ==> fat.Valid() && InVolume(fat.geo, chain) && IsChain(fat.T(), chain) && chain[0] == sclust
      ensures Ok() ==> Readable(fat.T()) && Aligned(fat.geo)
    {
      && fat.Valid()
      && Aligned(fat.geo)
      && Readable(fat.T())
      && IsChain(fat.T(), chain)
      && InVolume(fat.geo, chain)
      && chain[0] == sclust
    }

    ghost function Slots(): (s: seq<Slot>)
      requires Ok()
      reads this`chain, fat, fat.disk
    {
      SlotsOf(fat.geo, fat.Image(), chain)
    }

    /** The cursor is at slot `k`. */
    ghost predicate At(k: nat)
      requires InVolume(fat.geo, chain)
      reads this`chain, this`clust, this`sect, this`idx
    {
      && InSlots(fat.geo, chain, k)
      && clust == chain[Quot(k / 16, fat.geo.SectorsPerCluster())]
      && sect == SectorOf(fat.geo, chain, k / 16)
      && idx == 32 * (k % 16)
    }

    /** `dir_enter`. */
    constructor Enter(fat: Fat, sclust: nat, ghost chain: seq<nat>)
      requires fat.Valid() && Aligned(fat.geo) && Readable(fat.T())
      requires IsChain(fat.T(), chain) && InVolume(fat.geo, chain) && chain[0] == sclust
      ensures this.fat == fat && this.chain == chain && Ok() && At(0) && |nameBuf| == NAME_BUF
    {
      this.fat, this.sclust, this.chain := fat, sclust, chain;
      clust, sect, idx := sclust, fat.geo.FirstSector(sclust), 0;
      nameBuf, nameLen, nameCrc := seq(NAME_BUF, i => 0), 0, 0;
    }

    /** `dir_at_clust` at the first cluster. */
    method Rewind()
      requires Ok()
      modifies this`clust, this`sect, this`idx
      ensures Ok() && At(0) && Slots() == old(Slots())
    {
      hide Fat.Valid, Fat.Image, Table;
      clust := sclust;
      sect := fat.geo.FirstSector(sclust);
      idx := 0;
    }

    /** One slot on; at the end of the chain the cursor stays behind its last sector. */
    method Next(ghost k: nat) returns (err: int)
      requires Ok() && At(k)
      modifies this`clust, this`sect, this`idx
      modifies fat`buf, fat`sect, fat`bufDirty, fat.disk
      ensures |fat.disk.sectors| == old(|fat.disk.sectors|)
      ensures fat.disk.failed ==> err == FAT_ERR_IO
      ensures !fat.disk.failed ==> Ok() && fat.Image() == old(fat.Image()) && fat.T() == old(fat.T())
      ensures !fat.disk.failed ==> Slots() == old(Slots())
      ensures !fat.disk.failed && InSlots(fat.geo, chain, k + 1) ==> err == FAT_ERR_NONE && At(k + 1)
      ensures !fat.disk.failed && !InSlots(fat.geo, chain, k + 1) ==> err == FAT_ERR_EOF && clust == chain[|chain| - 1]
    {
      hide Fat.Valid, Fat.Image, Table, Quot, Rem, SectorOf, Aligned, IsChain, Backed, SlotsOf, SaysSameCluster,
        Dir.Ok, Dir.Slots, Geometry.FirstSector;
      CursorStep(fat.geo, chain, k);
      idx := idx + 32;
      if idx < 512 {
        return FAT_ERR_NONE;
      }
      idx := 0;
      sect := sect + 1;
      if SaysSameCluster(fat.geo, sect) {
        return FAT_ERR_NONE;
      }
      err := NextCluster(Quot(k / 16, fat.geo.SectorsPerCluster()));
    }

    /** From the end of the `i`-th cluster to the beginning of the next one. */
    method NextCluster(ghost i: nat) returns (err: int)
      requires Ok() && i < |chain| && clust == chain[i] && idx == 0
      modifies this`clust, this`sect
      modifies fat`buf, fat`sect, fat`bufDirty, fat.disk
      ensures |fat.disk.sectors| == old(|fat.disk.sectors|)
      ensures fat.disk.failed ==> err == FAT_ERR_IO
      ensures !fat.disk.failed ==> Ok() && fat.Image() == old(fat.Image()) && fat.T() == old(fat.T())
      ensures !fat.disk.failed ==> Slots() == old(Slots())
      ensures !fat.disk.failed && i + 1 < |chain| ==>
                err == FAT_ERR_NONE && clust == chain[i + 1] && sect == fat.geo.FirstSector(clust)
      ensures !fat.disk.failed && i + 1 == |chain| ==> err == FAT_ERR_EOF && clust == old(clust)
    {
      hide Fat.Valid, Fat.Image, Table, Aligned, IsChain, KindOf, Backed, Geometry.FirstSector;
      ghost var t := fat.T();
      LinkAt(t, chain, i);
      var next, kind;
      err, next, kind := fat.GetFat(clust);
      if err != 0 {
        return;
      }
      assert next == t[clust];
      if kind.Bad? || kind.Free? {
        return FAT_ERR_BROKEN;
      }
      if kind.Last? {
        return FAT_ERR_EOF;
      }
      clust := next;
      sect := fat.geo.FirstSector(next);
    }

    /** Data sectors that are not the directory's hold what they held in `img`. */
    ghost predicate OthersKept(img: Image)
      requires Ok()
      reads this`chain, fat, fat.disk
    {
      OffChainSame(fat.geo, chain, img, fat.Image())
    }

    /** The volume is as it was. */
    lemma Untouched(img: Image, t: seq<nat>, ch: seq<nat>)
      requires fat.Valid() && Aligned(fat.geo) && fat.Image() == img && fat.T() == t && Readable(t)
      requires IsChain(t, ch) && InVolume(fat.geo, ch) && ch[0] == sclust && chain == ch
      ensures Ok() && OthersKept(img) && Slots() == SlotsOf(fat.geo, img, ch) && StretchedBy(Slots(), Slots())
    {
    }

    /** After `stretch_chain` and `clust_clear`: the directory has a cluster of end markers more. */
    lemma ClusterAdded(img: Image, t: seq<nat>, ch: seq<nat>, u: nat, img1: Image, c: nat)
      requires fat.Valid() && Aligned(fat.geo) && fat.geo.WellFormed(|img|) && |img1| == |img| == |fat.Image()|
      requires t == Table(fat.geo, img) && Readable(t) && IsChain(t, ch) && InVolume(fat.geo, ch)
               && ch[0] == sclust
      requires Chosen(t, ch[|ch| - 1], u, c) && fat.geo.IsCluster(c)
      requires OnlyTables(fat.geo, img, img1) && Table(fat.geo, img1) == Stretched(t, ch[|ch| - 1], c)
      requires fat.Image() == Cleared(fat.geo, img1, c) && chain == ch + [c]
      ensures Ok() && StretchedBy(SlotsOf(fat.geo, img, ch), Slots()) && OthersKept(img)
      ensures Grown(t, ch, fat.T(), chain) && Took(t, ch, u, fat.T(), chain, c)
    {
      hide Fat.Valid, Fat.Image, Table, Stretched, KindOf, EntryKept, Took;
      TookOne(t, ch, u, c);
      ClusterInVolume(fat.geo, |img|, c);
      TableFrame(fat.geo, img1, fat.Image());
      ChainGrows(t, ch, c);
      StretchedReadable(t, ch[|ch| - 1], c);
      GrownRefl(t, ch);
      GrownStep(t, ch, t, ch, c);
      ClusterAddedSlots(img, ch, img1, c);
    }

    lemma ClusterAddedSlots(img: Image, ch: seq<nat>, img1: Image, c: nat)
      requires fat.geo.WellFormed(|img|) && |img1| == |img| == |fat.Image()|
      requires InVolume(fat.geo, ch) && fat.geo.IsCluster(c) && c !in ch
      requires forall s :: fat.geo.dataSect <= s < |img| ==> img1[s] == img[s]
      requires fat.Image() == Cleared(fat.geo, img1, c) && chain == ch + [c]
      ensures InVolume(fat.geo, chain)
      ensures var a, b := SlotsOf(fat.geo, img, ch), SlotsOf(fat.geo, fat.Image(), chain);
              a <= b && AllLast(b[|a|..])
      ensures forall s :: fat.geo.dataSect <= s < |img| && !OnChain(fat.geo, chain, s) ==> fat.Image()[s] == img[s]
    {
      hide Fat.Valid, Fat.Image, Geometry.WellFormed, Geometry.InCluster;
      forall s | fat.geo.dataSect <= s < |img| && OnChain(fat.geo, ch, s)
        ensures fat.Image()[s] == img[s]
      {
        var i :| 0 <= i < |ch| && fat.geo.InCluster(s, ch[i]);
        if fat.geo.InCluster(s, c) {
          ClustersDisjoint(fat.geo, ch[i], c, s);
        }
      }
      SlotsStretched(fat.geo, img, ch, fat.Image(), c);
      forall s | fat.geo.dataSect <= s < |img| && !OnChain(fat.geo, chain, s)
        ensures fat.Image()[s] == img[s]
      {
        assert chain[|ch|] == c;
      }
    }

    /** The cluster `stretch_chain` hands out for the directory has sectors. */
    lemma NewCluster(t: seq<nat>, ch: seq<nat>, u: nat, c: nat)
      requires IsChain(t, ch) && Chosen(t, ch[|ch| - 1], u, c) && Backed(fat.geo, t, ch, u, |ch| + 1)
      ensures fat.geo.IsCluster(c)
    {
      hide Chosen, Backed;
      BackedNext(fat.geo, t, ch, u, c);
    }

    /** While the directory is stretched up to slot `end` every cluster that is handed out has sectors. */
    ghost predicate Backs(end: nat)
      requires fat.Valid()
      reads this`chain, fat, fat.disk
    {
      Backed(fat.geo, fat.T(), chain, fat.lastUsed, ClustersFor(fat.geo, end))
    }

    lemma BacksSays(end: nat)
      requires fat.Valid() && Backs(end)
      ensures Backed(fat.geo, fat.T(), chain, fat.lastUsed, ClustersFor(fat.geo, end))
    {
    }

    /** A step to a slot behind the last one is a step into the next cluster. */
    lemma BacksOne(k: nat)
      requires fat.Valid() && !InSlots(fat.geo, chain, k) && Backs(k)
      ensures Backed(fat.geo, fat.T(), chain, fat.lastUsed, |chain| + 1)
    {
      hide Fat.Valid, Fat.T, Backed, Quot;
      BackedLess(fat.geo, fat.T(), chain, fat.lastUsed, |chain| + 1, ClustersFor(fat.geo, k));
    }

    /** That stays so as the directory grows. */
    lemma BacksStill(t: seq<nat>, ch: seq<nat>, u: nat, k: nat, end: nat)
      requires fat.Valid() && Took(t, ch, u, fat.T(), chain, fat.lastUsed) && k <= end
      requires Backed(fat.geo, t, ch, u, ClustersFor(fat.geo, end))
      ensures Backs(k)
    {
      hide Fat.Valid, Fat.T, Backed, Took, Quot;
      QuotMonotone(k / 16, end / 16, fat.geo.SectorsPerCluster());
      BackedOn(fat.geo, t, ch, u, fat.T(), chain, fat.lastUsed, ClustersFor(fat.geo, k), ClustersFor(fat.geo, end));
    }

    /** One slot on, into a new cluster of end markers when the chain ends. */
    method NextStretch(ghost k: nat) returns (err: int)
      requires Ok() && At(k) && Backs(k + 1)
      modifies this`clust, this`sect, this`idx, this`chain
      modifies fat`buf, fat`sect, fat`bufDirty, fat`infoDirty, fat`freeCnt, fat`lastUsed, fat.disk
      ensures |fat.disk.sectors| == old(|fat.disk.sectors|)
      ensures fat.disk.failed ==> err != 0
      ensures !fat.disk.failed ==> err == FAT_ERR_NONE || err == FAT_ERR_FULL
      ensures !fat.disk.failed ==> Ok() && OthersKept(old(fat.Image())) && StretchedBy(old(Slots()), Slots())
      ensures !fat.disk.failed && err == FAT_ERR_NONE ==> At(k + 1)
      ensures !fat.disk.failed && err == FAT_ERR_FULL ==>
                NoneFree(fat.T(), chain[|chain| - 1], fat.lastUsed) && !InSlots(fat.geo, chain, k + 1)
      ensures !fat.disk.failed ==> Grown(old(fat.T()), old(chain), fat.T(), chain)
      ensures !fat.disk.failed ==> Took(old(fat.T()), old(chain), old(fat.lastUsed), fat.T(), chain, fat.lastUsed)
    {
      hide Fat.Valid, Fat.Image, Table, Quot, Rem, IsChain, Grown, KindOf, Backed, NoneFree, Took, SlotsOf, InSlots;
      ghost var img, t, ch := fat.Image(), fat.T(), chain;
      GrownRefl(t, ch);
      TookNothing(t, ch, fat.lastUsed);
      err := Next(k);
      if err != FAT_ERR_EOF {
        return;
      }
      BacksOne(k + 1);
      err := AddCluster(k);
    }

    /** The stretching half of `dir_next_stretch`. */
    method AddCluster(ghost k: nat) returns (err: int)
      requires Ok() && clust == chain[|chain| - 1] && !InSlots(fat.geo, chain, k + 1) && InSlots(fat.geo, chain, k)
      requires Backed(fat.geo, fat.T(), chain, fat.lastUsed, |chain| + 1)
      modifies this`clust, this`sect, this`idx, this`chain
      modifies fat`buf, fat`sect, fat`bufDirty, fat`infoDirty, fat`freeCnt, fat`lastUsed, fat.disk
      ensures |fat.disk.sectors| == old(|fat.disk.sectors|)
      ensures fat.disk.failed ==> err != 0
      ensures !fat.disk.failed ==> err == FAT_ERR_NONE || err == FAT_ERR_FULL
      ensures !fat.disk.failed ==> Ok() && OthersKept(old(fat.Image())) && StretchedBy(old(Slots()), Slots())
      ensures !fat.disk.failed && err == FAT_ERR_NONE ==> At(k + 1)
      ensures !fat.disk.failed && err == FAT_ERR_FULL ==>
                NoneFree(fat.T(), chain[|chain| - 1], fat.lastUsed) && !InSlots(fat.geo, chain, k + 1)
      ensures !fat.disk.failed ==> Grown(old(fat.T()), old(chain), fat.T(), chain)
      ensures !fat.disk.failed ==> Took(old(fat.T()), old(chain), old(fat.lastUsed), fat.T(), chain, fat.lastUsed)
    {
      hide Fat.Valid, Fat.Image, Fat.Synced, Table, Grown, IsChain, KindOf, Backed, NoneFree, Took, Chosen,
        OnlyTables, Stretched, Cleared, Quot, Rem, SectorOf, SlotsOf, InSlots, OnChain, Aligned, Dir.Ok,
        Dir.OthersKept, StretchedBy;
      ghost var img, t, ch, u := fat.Image(), fat.T(), chain, fat.lastUsed;
      GrownRefl(t, ch);
      TookNothing(t, ch, u);
      LinkAt(t, ch, |ch| - 1);
      fat.StretchTells(clust);
      var next;
      err, next := fat.StretchChain(clust);
      if err != 0 {
        if !fat.disk.failed {
          Untouched(img, t, ch);
        }
        return;
      }
      NewCluster(t, ch, u, next);
      ghost var img1 := fat.Image();
      chain := chain + [next];
      clust := next;
      sect := fat.geo.FirstSector(next);
      idx := 0;
      err := fat.ClustClear(clust);
      if err == 0 {
        ClusterAdded(img, t, ch, u, img1, next);
        FirstOfNewCluster(fat.geo, ch, next, k);
      }
    }

    // -------------------------------------------------------- slot access

    /** `update_buf` and `dir_ptr`. */
    method Load(ghost k: nat) returns (err: int, s: Slot)
      requires Ok() && At(k)
      modifies fat`buf, fat`sect, fat`bufDirty, fat.disk
      ensures |fat.disk.sectors| == old(|fat.disk.sectors|)
      ensures err == if fat.disk.failed then FAT_ERR_IO else FAT_ERR_NONE
      ensures err == 0 ==> Ok() && fat.Image() == old(fat.Image()) && fat.T() == old(fat.T()) && fat.sect == sect
      ensures err == 0 ==> At(k) && Slots() == old(Slots()) && k < |Slots()| && s == Slots()[k]
    {
      hide Fat.Valid, Fat.Image, Table, Quot, Rem, SectorOf, IsChain, Backed, Aligned;
      s := seq(32, i => 0);
      SectorOnChain(fat.geo, |fat.disk.sectors|, chain, k / 16);
      err := fat.UpdateBuf(sect);
      if err == 0 {
        s := fat.buf[idx..idx + 32];
      }
    }

    /** Writes through `dir_ptr` to the cached sector, which is marked dirty. */
    method Store(ghost k: nat, s: Slot)
      requires Ok() && At(k) && fat.sect == sect
      modifies fat`buf, fat`bufDirty
      ensures Ok() && fat.T() == old(fat.T()) && OthersKept(old(fat.Image()))
      ensures k < |old(Slots())| && Slots() == old(Slots())[k := s]
    {
      hide Fat.Valid, Fat.Image, Table, Quot, Rem, SectorOf, Backed, Aligned, WithSlot, IsChain, SlotsOf, InVolume,
        OnChain, Distinct, OffChainSame;
      ghost var img := fat.Image();
      SectorOnChain(fat.geo, |fat.disk.sectors|, chain, k / 16);
      ChainAcyclic(fat.T(), chain);
      fat.CachedSector();
      fat.EditBuf(PutSlot(fat.buf, idx, s));
      OneSectorOfChain(fat.geo, img, chain, sect, fat.buf);
      SlotWritten(fat.geo, img, chain, k, s);
    }

    // ----------------------------------------------------------- parsing

    /** The inner loop of `parse_lfn_name`: the characters of one slot go to the name buffer from `at` on. */
    method CopyFrag(s: Slot, at: nat) returns (n: nat, ok: bool)
      requires |nameBuf| == NAME_BUF && at + 13 <= NAME_BUF
      modifies this`nameBuf
      ensures n == |Frag(s)| && ok == FragEnds(s)
      ensures nameBuf == StoreName(old(nameBuf), at, Frag(s))
    {
      hide Frag, FragFrom, StoreName, CharAt;
      n, ok := 0, true;
      ghost var frag := Frag(s);
      FragIsFrom(s);
      StoreNothing(nameBuf, at);
      while n < 13
        invariant 0 <= n <= |frag| <= 13 && |nameBuf| == NAME_BUF
        invariant nameBuf == StoreName(old(nameBuf), at, frag[..n])
      {
        var c := CharAt(s, n);
        FragSuffix(s, 0, n);
        FragTurn(s, n);
        if c == 0xff {
          ok := false;
          break;
        }
        if c == 0x00 {
          break;
        }
        assert frag[..n + 1] == frag[..n] + [c];
        StoreNext(old(nameBuf), at, frag[..n], c);
        nameBuf := nameBuf[at + n := c];
        n := n + 1;
      }
      assert n == |frag| && frag[..n] == frag;
    }

    /** Reads the long name whose first slot is under the cursor, and moves the cursor behind it. */
    method ParseLfnName(ghost k: nat) returns (err: int, s: Slot)
      requires Ok() && At(k) && |nameBuf| == NAME_BUF
      modifies this`clust, this`sect, this`idx, this`nameBuf, this`nameLen, this`nameCrc
      modifies fat`buf, fat`sect, fat`bufDirty, fat.disk
      ensures |fat.disk.sectors| == old(|fat.disk.sectors|) && |nameBuf| == NAME_BUF
      ensures fat.disk.failed ==> err == FAT_ERR_IO
      ensures !fat.disk.failed ==> Ok() && fat.Image() == old(fat.Image()) && fat.T() == old(fat.T())
      ensures !fat.disk.failed ==> Slots() == old(Slots())
      ensures k < |old(Slots())|
      ensures !fat.disk.failed ==> nameBuf == ParseRun(old(Slots()), k, old(nameBuf)).buf
      ensures !fat.disk.failed && ParseRun(old(Slots()), k, old(nameBuf)).Parsed? ==>
                var r := ParseRun(old(Slots()), k, old(nameBuf));
                && err == FAT_ERR_NONE && At(r.pos) && nameLen == r.len && nameCrc == old(Slots())[k][CRC_AT]
                && s == Slots()[r.pos] && fat.sect == sect
      ensures !fat.disk.failed && ParseRun(old(Slots()), k, old(nameBuf)).Bad? ==>
                err == ErrorCode(ParseRun(old(Slots()), k, old(nameBuf)).error)
    {
      hide Fat.Valid, Fat.Image, Table, Frag, FragEnds, StoreName, IsChain, Backed, InVolume, SlotsOf, SectorOf, Quot,
        Rem, ParseLoop, IsLfn, Aligned, Dir.At, Dir.Slots, InSlots;
      ghost var slots, buf0 := Slots(), nameBuf;
      PlaceNoted(k);
      SlotsBelow();
      err, s := Load(k);
      if err != 0 {
        return;
      }
      nameCrc := s[CRC_AT];
      nameLen := 0;
      if s[0] / LFN_HEAD % 2 == 0 {
        return FAT_ERR_BROKEN, s;
      }
      var cnt: nat := s[0] % 32;
      if cnt > 20 {
        return FAT_ERR_BROKEN, s;
      }
      ghost var at: nat := k;
      while cnt > 0
        invariant |fat.disk.sectors| == old(|fat.disk.sectors|) && |nameBuf| == NAME_BUF && !fat.disk.failed
        invariant Ok() && fat.Image() == old(fat.Image()) && fat.T() == old(fat.T())
        invariant Slots() == slots && at < |slots| && At(at) && s == slots[at] && fat.sect == sect && cnt <= 20
        invariant nameCrc == slots[k][CRC_AT]
        invariant ParseRun(slots, k, buf0) == ParseLoop(slots, at, cnt, nameCrc, nameBuf, nameLen)
        decreases cnt
      {
        ParseUnfold(slots, at, cnt, nameCrc, nameBuf, nameLen);
        if !IsLfn(s) || s[CRC_AT] != nameCrc {
          return FAT_ERR_BROKEN, s;
        }
        cnt := cnt - 1;
        var n, ok := CopyFrag(s, 13 * cnt);
        nameLen := nameLen + n;
        if !ok {
          return FAT_ERR_BROKEN, s;
        }
        SlotsBelow();
        err := Next(at);
        if err != 0 {
          return;
        }
        at := at + 1;
        err, s := Load(at);
        if err != 0 {
          return;
        }
      }
      ParseEnd(slots, at, nameCrc, nameBuf, nameLen);
      err := if nameLen <= 255 then FAT_ERR_NONE else FAT_ERR_BROKEN;
    }

    lemma SlotsBelow()
      requires Ok()
      ensures forall k: nat :: InSlots(fat.geo, chain, k) <==> k < |Slots()|
    {
    }

    // ------------------------------------------------------------ search

    lemma PlaceNoted(k: nat)
      requires Ok() && At(k)
      ensures Located(fat.geo, chain, sect, idx, k) && k < |Slots()|
    {
    }

    /** `dir_search`: what it finds is what `Search` finds in the slots. */
    method Find(name: seq<Byte>) returns (err: int, locSect: nat, locIdx: nat)
      requires Ok() && |nameBuf| == NAME_BUF
      modifies this`clust, this`sect, this`idx, this`nameBuf, this`nameLen, this`nameCrc
      modifies fat`buf, fat`sect, fat`bufDirty, fat.disk
      ensures |fat.disk.sectors| == old(|fat.disk.sectors|) && |nameBuf| == NAME_BUF
      ensures fat.disk.failed ==> err == FAT_ERR_IO
      ensures !fat.disk.failed ==> Ok() && fat.Image() == old(fat.Image()) && fat.T() == old(fat.T())
      ensures !fat.disk.failed ==> Slots() == old(Slots())
      ensures !fat.disk.failed && Search(old(Slots()), 0, name, old(nameBuf)).outcome.NotFound? ==> err == FAT_ERR_EOF
      ensures !fat.disk.failed && Search(old(Slots()), 0, name, old(nameBuf)).outcome.Failed? ==> err == FAT_ERR_BROKEN
      ensures !fat.disk.failed && Search(old(Slots()), 0, name, old(nameBuf)).outcome.Found? ==>
                var f := Search(old(Slots()), 0, name, old(nameBuf)).outcome;
                err == FAT_ERR_NONE && At(f.pos) && Located(fat.geo, chain, locSect, locIdx, f.start)
                  && fat.sect == sect
    {
      hide *;
      ErrorCodes();
      locSect, locIdx := 0, 0;
      var sfnName := PutSfnName(name);
      ghost var slots, goal := Slots(), Search(Slots(), 0, name, nameBuf);
      Rewind();
      PlaceNoted(0);
      ghost var k: nat := 0;
      while true
        invariant |fat.disk.sectors| == old(|fat.disk.sectors|) && |nameBuf| == NAME_BUF && !fat.disk.failed
        invariant Ok() && fat.Image() == old(fat.Image()) && fat.T() == old(fat.T())
        invariant Slots() == slots && k < |slots| && At(k) && goal == Search(slots, k, name, nameBuf)
        decreases |slots| - k
      {
        SlotsBelow();
        SearchTurn(slots, k, name, nameBuf);
        var s;
        err, s := Load(k);
        if err != 0 {
          return;
        }
        if IsLast(s) {
          return FAT_ERR_EOF, locSect, locIdx;
        }
        if !IsFree(s) {
          locSect, locIdx := sect, idx;
          PlaceNoted(k);
          if IsLfn(s) {
            ghost var buf0 := nameBuf;
            err, s := ParseLfnName(k);
            if err != 0 {
              return;
            }
            k := ParseRun(slots, k, buf0).pos;
            var crc := GetCrc(s[..11]);
            if IsFree(s) || IsLfn(s) || nameCrc != crc {
              return FAT_ERR_BROKEN, locSect, locIdx;
            }
            if nameLen == |name| && nameBuf[..nameLen] == name {
              return FAT_ERR_NONE, locSect, locIdx;
            }
          } else if sfnName == s[..11] {
            return FAT_ERR_NONE, locSect, locIdx;
          }
        }
        SlotsBelow();
        err := Next(k);
        if err != 0 {
          SearchTurn(slots, k + 1, name, nameBuf);
          return;
        }
        k := k + 1;
        PlaceNoted(k);
      }
    }

    // ------------------------------------------------------------ remove

    /** The cursor is set back to a slot whose sector and offset were noted. */
    method GoTo(locSect: nat, locIdx: nat, ghost k: nat)
      requires Ok() && Located(fat.geo, chain, locSect, locIdx, k)
      modifies this`clust, this`sect, this`idx
      ensures Ok() && At(k)
    {
      hide Fat.Valid, Fat.Image, Table, IsChain, Backed, Aligned;
      SectorOnChain(fat.geo, |fat.disk.sectors|, chain, k / 16);
      ClusterOfSector(fat.geo, chain[Quot(k / 16, fat.geo.SectorsPerCluster())],
                      Rem(k / 16, fat.geo.SectorsPerCluster()));
      clust := Quot(locSect - fat.geo.dataSect, fat.geo.SectorsPerCluster()) + 2;
      sect := locSect;
      idx := locIdx;
    }

    /** Two slots at the same place are the same slot. */
    lemma SamePlace(j: nat, k: nat)
      requires Ok() && InSlots(fat.geo, chain, j) && InSlots(fat.geo, chain, k)
      ensures SectorOf(fat.geo, chain, j / 16) == SectorOf(fat.geo, chain, k / 16) && 32 * (j % 16) == 32 * (k % 16) ==>
                j == k
    {
      hide Fat.Valid, Fat.Image, Table;
      ChainAcyclic(fat.T(), chain);
      if SectorOf(fat.geo, chain, j / 16) == SectorOf(fat.geo, chain, k / 16) {
        SectorOfInjective(fat.geo, chain, j / 16, k / 16);
      }
    }

    /** Marks free the slots from the noted one to the one under the cursor. */
    method RemoveEntries(locSect: nat, locIdx: nat, ghost start: nat, ghost pos: nat) returns (err: int)
      requires Ok() && At(pos) && start <= pos && Located(fat.geo, chain, locSect, locIdx, start)
      modifies this`clust, this`sect, this`idx
      modifies fat`buf, fat`sect, fat`bufDirty, fat.disk
      ensures |fat.disk.sectors| == old(|fat.disk.sectors|)
      ensures err == if fat.disk.failed then FAT_ERR_IO else FAT_ERR_NONE
      ensures err == 0 ==> Ok() && fat.T() == old(fat.T()) && OthersKept(old(fat.Image()))
      ensures err == 0 ==> Slots() == Removed(old(Slots()), start, pos) && At(pos)
      ensures err == 0 ==> Unlinked(old(Slots()), Slots(), start, pos)
    {
      hide Fat.Valid, Fat.Image, Table, IsChain, Backed, InVolume, SlotsOf, SectorOf, Quot, Rem, InSlots,
        OffChainSame, Aligned, Unlinked;
      ghost var slots, img := Slots(), fat.Image();
      RemovedTells(slots, start, pos);
      var lastSect, lastIdx := sect, idx;
      PlaceNoted(pos);
      OffChainRefl(fat.geo, chain, img);
      RemovedNone(slots, start);
      SlotsBelow();
      GoTo(locSect, locIdx, start);
      ghost var k: nat := start;
      while true
        invariant |fat.disk.sectors| == old(|fat.disk.sectors|) && !fat.disk.failed
        invariant Ok() && fat.T() == old(fat.T()) && OthersKept(img)
        invariant start <= k <= pos < |slots| && At(k)
        invariant Slots() == RemovedTo(slots, start, k)
        invariant Located(fat.geo, chain, lastSect, lastIdx, pos)
        decreases pos - k
      {
        SlotsBelow();
        SamePlace(k, pos);
        var s;
        err, s := Load(k);
        if err != 0 {
          return;
        }
        ghost var img1 := fat.Image();
        RemovedNext(slots, start, k);
        Store(k, s[0 := SFN_FREE]);
        OffChainTrans(fat.geo, chain, img, chain, img1, fat.Image());
        if sect == lastSect && idx == lastIdx {
          RemovedAll(slots, start, k);
          return FAT_ERR_NONE;
        }
        err := Next(k);
        if err != 0 {
          return;
        }
        k := k + 1;
      }
    }

    // --------------------------------------------------------------- add

    /** `Load`, on the way through the directory. */
    method LoadKeeping(ghost k: nat, ghost img: Image) returns (err: int, s: Slot)
      requires Ok() && At(k) && OthersKept(img)
      modifies fat`buf, fat`sect, fat`bufDirty, fat.disk
      ensures |fat.disk.sectors| == old(|fat.disk.sectors|)
      ensures err == if fat.disk.failed then FAT_ERR_IO else FAT_ERR_NONE
      ensures err == 0 ==> Ok() && At(k) && OthersKept(img) && fat.T() == old(fat.T()) && fat.sect == sect
      ensures err == 0 ==> Slots() == old(Slots()) && k < |Slots()| && s == Slots()[k]
    {
      hide Fat.Valid, Fat.Image, Table, IsChain, Backed, InVolume, SlotsOf, SectorOf, Quot, Rem, InSlots,
        OffChainSame, Aligned;
      err, s := Load(k);
    }

    /** `NextStretch`, in terms of an earlier state of the volume. */
    method StepOn(ghost k: nat, ghost img: Image, ghost t: seq<nat>, ghost ch: seq<nat>, ghost u: nat,
        ghost slots: seq<Slot>)
      returns (err: int)
      requires Ok() && At(k) && OthersKept(img) && StretchedBy(slots, Slots()) && IsChain(t, ch)
               && Grown(t, ch, fat.T(), chain)
      requires Took(t, ch, u, fat.T(), chain, fat.lastUsed) && Backs(k + 1)
      modifies this`clust, this`sect, this`idx, this`chain
      modifies fat`buf, fat`sect, fat`bufDirty, fat`infoDirty, fat`freeCnt, fat`lastUsed, fat.disk
      ensures |fat.disk.sectors| == old(|fat.disk.sectors|)
      ensures fat.disk.failed ==> err != 0
      ensures !fat.disk.failed ==> err == FAT_ERR_NONE || err == FAT_ERR_FULL
      ensures !fat.disk.failed ==>
                Ok() && OthersKept(img) && StretchedBy(slots, Slots()) && Grown(t, ch, fat.T(), chain)
      ensures !fat.disk.failed ==> StretchedBy(old(Slots()), Slots()) && old(chain) <= chain
      ensures !fat.disk.failed ==> Took(t, ch, u, fat.T(), chain, fat.lastUsed)
      ensures !fat.disk.failed && err == FAT_ERR_NONE ==> At(k + 1)
      ensures !fat.disk.failed && err == FAT_ERR_FULL ==>
                NoneFree(fat.T(), chain[|chain| - 1], fat.lastUsed) && !InSlots(fat.geo, chain, k + 1)
    {
      hide Fat.Valid, Fat.Image, Table, IsChain, Backed, InVolume, SlotsOf, SectorOf, Quot, Rem, InSlots,
        OffChainSame, Aligned, Grown, StretchedBy, NoneFree, Took;
      ghost var img1, t1, ch1, u1, a := fat.Image(), fat.T(), chain, fat.lastUsed, Slots();
      err := NextStretch(k);
      if !fat.disk.failed {
        GrownPrefix(t1, ch1, fat.T(), chain);
        OffChainTrans(fat.geo, ch1, img, chain, img1, fat.Image());
        StretchedTrans(slots, a, Slots());
        GrownTrans(t, ch, t1, ch1, fat.T(), chain);
        TookTwice(t, ch, u, t1, ch1, u1, fat.T(), chain, fat.lastUsed);
      }
    }

    /** The scan has come to its end exactly when there was room for it. */
    lemma PlaceTold(t: seq<nat>, ch: seq<nat>, u: nat, k: nat, end: nat)
      requires Ok() && IsChain(t, ch) && Grown(t, ch, fat.T(), chain) && Took(t, ch, u, fat.T(), chain, fat.lastUsed)
      ensures k == end && InSlots(fat.geo, chain, k) ==> RoomFor(t, ch, u, ClustersFor(fat.geo, end))
      ensures k < end && !InSlots(fat.geo, chain, k + 1) && NoneFree(fat.T(), chain[|chain| - 1], fat.lastUsed) ==>
                !RoomFor(t, ch, u, ClustersFor(fat.geo, end))
    {
      hide Fat.Valid, Fat.Image, Table, NoneFree, Took, RoomFor, Grown, IsChain, Quot;
      RoomTold(t, ch, u, fat.T(), chain, fat.lastUsed, ClustersFor(fat.geo, end));
      if k < end {
        QuotMonotone((k + 1) / 16, end / 16, fat.geo.SectorsPerCluster());
      }
    }

    /**
     The first half of `dir_add`: look for `lfns + 1` consecutive slots that are
     free or behind the end marker, stretching the directory as needed, and stop at
     the slot behind them.
     */
    method FindPlace(lfns: nat) returns (err: int, locSect: nat, locIdx: nat, eod: bool, ghost k: nat, ghost x: nat)
      requires Ok() && Backs(ScanEnd(Slots(), 0, 0, false, lfns + 1))
      modifies this`clust, this`sect, this`idx, this`chain
      modifies fat`buf, fat`sect, fat`bufDirty, fat`infoDirty, fat`freeCnt, fat`lastUsed, fat.disk
      ensures |fat.disk.sectors| == old(|fat.disk.sectors|)
      ensures fat.disk.failed ==> err != 0
      ensures !fat.disk.failed ==> err == FAT_ERR_NONE || err == FAT_ERR_FULL
      ensures !fat.disk.failed ==> Ok() && OthersKept(old(fat.Image())) && StretchedBy(old(Slots()), Slots())
      ensures !fat.disk.failed ==> Grown(old(fat.T()), old(chain), fat.T(), chain)
      ensures !fat.disk.failed ==>
                (err == FAT_ERR_NONE <==>
                  RoomFor(old(fat.T()), old(chain), old(fat.lastUsed),
                          ClustersFor(fat.geo, ScanEnd(old(Slots()), 0, 0, false, lfns + 1))))
      ensures !fat.disk.failed && err == FAT_ERR_NONE ==> k == ScanEnd(old(Slots()), 0, 0, false, lfns + 1)
      ensures !fat.disk.failed && err == FAT_ERR_NONE ==>
                && lfns < k && At(k) && k < |Slots()| && Scanned(Slots(), k, lfns + 1, eod, x)
                && Located(fat.geo, chain, locSect, locIdx, k - lfns - 1)
    {
      hide *;
      ErrorCodes();
      ghost var img, t, ch, u, slots := fat.Image(), fat.T(), chain, fat.lastUsed, Slots();
      ghost var end := ScanEnd(slots, 0, 0, false, lfns + 1);
      Untouched(img, t, ch);
      GrownRefl(t, ch);
      TookNothing(t, ch, u);
      BacksSays(end);
      err, locSect, locIdx, eod, k, x := FAT_ERR_NONE, 0, 0, false, 0, 0;
      Rewind();
      var cnt := 0;
      ScanStart(slots);
      while cnt < lfns + 1
        invariant |fat.disk.sectors| == old(|fat.disk.sectors|) && !fat.disk.failed && err == FAT_ERR_NONE
        invariant Ok() && OthersKept(img) && StretchedBy(slots, Slots()) && Grown(t, ch, fat.T(), chain)
        invariant 0 <= cnt <= k && cnt <= lfns + 1 && At(k) && Scanned(Slots(), k, cnt, eod, x)
        invariant cnt > 0 ==> Located(fat.geo, chain, locSect, locIdx, k - cnt)
        invariant Took(t, ch, u, fat.T(), chain, fat.lastUsed) && end == ScanEnd(slots, k, cnt, eod, lfns + 1)
        decreases !eod, if eod then lfns + 1 - cnt else |slots| - k
      {
        ghost var ch1, a := chain, Slots();
        SlotsBelow();
        var s;
        err, s := LoadKeeping(k, img);
        if err != 0 {
          return;
        }
        ScanTurn(a, k, cnt, eod, x);
        ScanEnds(slots, a, k);
        ScanEndTurn(slots, a, k, cnt, eod, lfns + 1);
        if eod || IsFree(s) {
          if cnt == 0 {
            locSect, locIdx := sect, idx;
            PlaceNoted(k);
          }
          cnt := cnt + 1;
        } else {
          cnt := 0;
        }
        if IsLast(s) {
          x := if eod then x else k;
          eod := true;
        }
        BacksStill(t, ch, u, k + 1, end);
        err := StepOn(k, img, t, ch, u, slots);
        if err != 0 {
          if !fat.disk.failed {
            PlaceTold(t, ch, u, k, end);
          }
          return;
        }
        k := k + 1;
        ScanStretched(a, Slots(), k, cnt, eod, x);
        if cnt > 0 {
          LocatedStretched(fat.geo, ch1, chain, locSect, locIdx, k - cnt);
        }
      }
      PlaceNoted(k);
      SlotsBelow();
      ScanEnded(slots, k, eod, lfns + 1);
      PlaceTold(t, ch, u, k, end);
    }

    /** `OthersKept` survives a store. */
    method StoreKeeping(ghost k: nat, s: Slot, ghost img: Image)
      requires Ok() && At(k) && fat.sect == sect && OthersKept(img)
      modifies fat`buf, fat`bufDirty
      ensures Ok() && At(k) && fat.T() == old(fat.T()) && OthersKept(img)
      ensures k < |old(Slots())| && Slots() == old(Slots())[k := s]
    {
      hide Fat.Valid, Fat.Image, Table, IsChain, Backed, InVolume, SlotsOf, SectorOf, Quot, Rem, InSlots,
        OffChainSame, Aligned;
      ghost var img1 := fat.Image();
      Store(k, s);
      OffChainTrans(fat.geo, chain, img, chain, img1, fat.Image());
    }

    /** The long-name slot of the `i`-th fragment, under the cursor. */
    method WriteLfn(e: Entry, i: nat, crc: Byte, ghost k: nat, ghost img: Image) returns (err: int)
      requires Ok() && At(k) && OthersKept(img) && e.Valid() && 1 <= i <= e.Lfns() && crc == e.Checksum()
      modifies fat`buf, fat`sect, fat`bufDirty, fat.disk
      ensures |fat.disk.sectors| == old(|fat.disk.sectors|)
      ensures err == if fat.disk.failed then FAT_ERR_IO else FAT_ERR_NONE
      ensures err == 0 ==> Ok() && At(k) && fat.T() == old(fat.T()) && OthersKept(img)
      ensures k < |old(Slots())|
      ensures err == 0 ==> Slots() == old(Slots())[k := LfnSlot(old(Slots())[k], e.name, i, e.Checksum())]
    {
      hide Fat.Valid, Fat.Image, Table, IsChain, Backed, InVolume, SlotsOf, SectorOf, Quot, Rem, InSlots,
        OffChainSame, Aligned, Crc, SfnName, LfnSlot;
      SlotsBelow();
      var s;
      err, s := Load(k);
      if err != 0 {
        return;
      }
      var lfn := PutLfnNameFrag(s, e.name[13 * (i - 1)..Min(13 * i, |e.name|)]);
      var seqNo: Byte := if i == e.Lfns() then LFN_HEAD + i else i;
      lfn := lfn[ATTR_AT := ATTR_LFN][0 := seqNo][CRC_AT := crc][12 := 0][26 := 0][27 := 0];
      LfnSlotIs(s, e, i, lfn);
      StoreKeeping(k, lfn, img);
    }

    /** The second half of `dir_add`: the long-name slots, last fragment first, then the short one. */
    method WriteEntry(e: Entry, ghost a: seq<Slot>, ghost p: nat, ghost eod: bool, ghost img: Image) returns (err: int)
      requires Ok() && e.Valid() && At(p) && p + e.Lfns() < |a| && OthersKept(img)
      requires Slots() == AddedTo(a, e, p, eod, p)
      modifies this`clust, this`sect, this`idx
      modifies fat`buf, fat`sect, fat`bufDirty, fat.disk
      ensures |fat.disk.sectors| == old(|fat.disk.sectors|)
      ensures fat.disk.failed ==> err == FAT_ERR_IO
      ensures !fat.disk.failed ==> err == FAT_ERR_NONE && Ok() && fat.T() == old(fat.T()) && OthersKept(img)
      ensures !fat.disk.failed ==> Slots() == Added(a, e, p, eod) && At(p + e.Lfns())
    {
      hide Fat.Valid, Fat.Image, Table, IsChain, Backed, InVolume, SlotsOf, SectorOf, Quot, Rem, InSlots,
        OffChainSame, Aligned, Crc, SfnName, LfnSlot, SfnSlot, Added, AddedTo;
      var sfnName := PutSfnName(e.name);
      var crc := GetCrc(sfnName);
      var lfns := e.Lfns();
      err := WriteLfns(e, crc, a, p, eod, img);
      if err != 0 {
        return;
      }
      SlotsBelow();
      AddedNext(a, e, p, eod, p + lfns);
      AddedAll(a, e, p, eod);
      var s;
      err, s := Load(p + lfns);
      if err != 0 {
        return;
      }
      StoreKeeping(p + lfns, SfnSlot(e.name, e.attr, e.clust, e.date, e.time), img);
    }

    /** The loop over the fragments. */
    method WriteLfns(e: Entry, crc: Byte, ghost a: seq<Slot>, ghost p: nat, ghost eod: bool, ghost img: Image)
        returns (err: int)
      requires Ok() && e.Valid() && At(p) && p + e.Lfns() < |a| && OthersKept(img) && crc == e.Checksum()
      requires Slots() == AddedTo(a, e, p, eod, p)
      modifies this`clust, this`sect, this`idx
      modifies fat`buf, fat`sect, fat`bufDirty, fat.disk
      ensures |fat.disk.sectors| == old(|fat.disk.sectors|)
      ensures fat.disk.failed ==> err == FAT_ERR_IO
      ensures !fat.disk.failed ==> err == FAT_ERR_NONE && Ok() && fat.T() == old(fat.T()) && OthersKept(img)
      ensures !fat.disk.failed ==> At(p + e.Lfns()) && Slots() == AddedTo(a, e, p, eod, p + e.Lfns())
    {
      hide Fat.Valid, Fat.Image, Fat.T, Table, IsChain, Backed, InVolume, SlotsOf, SectorOf, Quot, Rem, InSlots,
        OffChainSame, Aligned, Crc, SfnName, LfnSlot, SfnSlot, AddedTo, Dir.At, Dir.OthersKept;
      var lfns := e.Lfns();
      var i := lfns;
      while i > 0
        invariant 0 <= i <= lfns
        invariant |fat.disk.sectors| == old(|fat.disk.sectors|) && !fat.disk.failed
        invariant Ok() && fat.T() == old(fat.T()) && OthersKept(img)
        invariant At(p + lfns - i) && Slots() == AddedTo(a, e, p, eod, p + lfns - i)
      {
        ghost var k: nat := p + lfns - i;
        SlotsBelow();
        AddedNext(a, e, p, eod, k);
        err := WriteLfn(e, i, crc, k, img);
        if err != 0 {
          return;
        }
        err := NextKeeping(k, img);
        if err != 0 {
          return;
        }
        i := i - 1;
      }
      err := FAT_ERR_NONE;
    }

    /** `Next`, inside the directory. */
    method NextKeeping(ghost k: nat, ghost img: Image) returns (err: int)
      requires Ok() && At(k) && OthersKept(img) && k + 1 < |Slots()|
      modifies this`clust, this`sect, this`idx
      modifies fat`buf, fat`sect, fat`bufDirty, fat.disk
      ensures |fat.disk.sectors| == old(|fat.disk.sectors|)
      ensures err == if fat.disk.failed then FAT_ERR_IO else FAT_ERR_NONE
      ensures err == 0 ==> Ok() && At(k + 1) && OthersKept(img) && fat.T() == old(fat.T()) && Slots() == old(Slots())
    {
      SlotsBelow();
      err := Next(k);
    }

    lemma LfnSlotIs(s: Slot, e: Entry, i: nat, lfn: Slot)
      requires e.Valid() && 1 <= i <= e.Lfns()
      requires lfn == WithFrag(s, Part(e.name, i))[ATTR_AT := ATTR_LFN]
                        [0 := if i == e.Lfns() then LFN_HEAD + i else i][CRC_AT := e.Checksum()][12 := 0]
                        [26 := 0][27 := 0]
      ensures lfn == LfnSlot(s, e.name, i, e.Checksum())
    {
    }

    /**
     `dir_add`. On success the slots are those of the directory, stretched as far
     as needed, with the entry added at a place the scan settled on.
     */
    method Add(e: Entry) returns (err: int, ghost a: seq<Slot>, ghost p: nat, ghost eod: bool)
      requires Ok() && e.attr != ATTR_LFN && e.clust < 0x1_0000_0000 && e.date < 0x1_0000 && e.time < 0x1_0000
      requires e.Valid() ==> Backs(ScanEnd(Slots(), 0, 0, false, e.Lfns() + 1))
      modifies this`clust, this`sect, this`idx, this`chain
      modifies fat`buf, fat`sect, fat`bufDirty, fat`infoDirty, fat`freeCnt, fat`lastUsed, fat.disk
      ensures |fat.disk.sectors| == old(|fat.disk.sectors|)
      ensures !e.Valid() ==> err == FAT_ERR_PARAM && unchanged(this) && unchanged(fat) && unchanged(fat.disk)
      ensures e.Valid() && fat.disk.failed ==> err != 0
      ensures e.Valid() && !fat.disk.failed ==> err == FAT_ERR_NONE || err == FAT_ERR_FULL
      ensures e.Valid() && !fat.disk.failed ==>
                Ok() && OthersKept(old(fat.Image())) && Grown(old(fat.T()), old(chain), fat.T(), chain)
      ensures e.Valid() && !fat.disk.failed && err == FAT_ERR_FULL ==> StretchedBy(old(Slots()), Slots())
      ensures e.Valid() && !fat.disk.failed ==>
                (err == FAT_ERR_NONE <==>
                  RoomFor(old(fat.T()), old(chain), old(fat.lastUsed),
                          ClustersFor(fat.geo, ScanEnd(old(Slots()), 0, 0, false, e.Lfns() + 1))))
      ensures e.Valid() && !fat.disk.failed && err == FAT_ERR_NONE ==>
                p + e.Lfns() + 1 == ScanEnd(old(Slots()), 0, 0, false, e.Lfns() + 1)
      ensures e.Valid() && !fat.disk.failed && err == FAT_ERR_NONE ==>
                && StretchedBy(old(Slots()), a) && Place(a, e, p, eod)
                && Slots() == Added(a, e, p, eod) && At(p + e.Lfns())
      ensures e.Valid() && !fat.disk.failed && err == FAT_ERR_NONE ==>
                Entered(Slots(), e, p) && OthersStay(a, Slots(), e, p, eod)
    {
      hide Fat.Valid, Fat.Image, Table, IsChain, Backed, InVolume, SlotsOf, SectorOf, Quot, Rem, InSlots,
        OffChainSame, Aligned, Grown, RoomFor, ScanEnd, StretchedBy, Scanned, Crc, SfnName, LfnSlot, SfnSlot, Added,
        AddedTo, Place, LfnCount, Entered, OthersStay, Dir.At, Dir.OthersKept, Dir.Slots, ClustersFor;
      a, p, eod := [], 0, false;
      if |e.name| == 0 || |e.name| > 255 {
        return FAT_ERR_PARAM, a, p, eod;
      }
      ghost var img := fat.Image();
      var lfns := e.Lfns();
      ghost var k, x;
      var locSect, locIdx, atEnd;
      err, locSect, locIdx, atEnd, k, x := FindPlace(lfns);
      if err != 0 {
        return;
      }
      a, p, eod := Slots(), k - lfns - 1, atEnd;
      ScanPlace(a, e, k, eod, x);
      AddedStart(a, e, p, eod);
      if atEnd {
        var s;
        err, s := LoadKeeping(k, img);
        if err != 0 {
          return;
        }
        StoreKeeping(k, s[0 := SFN_LAST], img);
      }
      GoTo(locSect, locIdx, p);
      AddedTells(a, e, p, eod);
      err := WriteEntry(e, a, p, eod, img);
    }
  }

  /**
   `dir_add` and `dir_search` on the disk: an entry of a new name, once added, is
   found by its name at the place where the scan for free slots had settled.
   */
  method AddThenFind(d: Dir, e: Entry) returns (err: int, locSect: nat, locIdx: nat)
    requires d.Ok() && |d.nameBuf| == NAME_BUF && e.Valid() && PlainName(e.name)
    requires WellFormed(d.Slots(), 0) && Search(d.Slots(), 0, e.name, d.nameBuf).outcome == NotFound
    requires d.Backs(ScanEnd(d.Slots(), 0, 0, false, e.Lfns() + 1))
    modifies d, d.fat, d.fat.disk
    ensures d.fat.disk.failed ==> err != 0
    ensures !d.fat.disk.failed ==>
              (err == FAT_ERR_NONE <==>
                RoomFor(old(d.fat.T()), old(d.chain), old(d.fat.lastUsed),
                        ClustersFor(d.fat.geo, ScanEnd(old(d.Slots()), 0, 0, false, e.Lfns() + 1))))
    ensures !d.fat.disk.failed && err == FAT_ERR_NONE ==>
              && d.Ok() && e.Lfns() < ScanEnd(old(d.Slots()), 0, 0, false, e.Lfns() + 1) <= |d.Slots()|
              && var q := ScanEnd(old(d.Slots()), 0, 0, false, e.Lfns() + 1) - 1;
                 && d.At(q) && Located(d.fat.geo, d.chain, locSect, locIdx, q - e.Lfns())
                 && Entered(d.Slots(), e, q - e.Lfns())
                 && NewEntry(d.Slots()[q], e.attr, e.clust, e.date, e.time) && ShortName(e.name, d.Slots()[q][..11])
  {
    hide Fat.Valid, Fat.Image, Fat.T, Table, IsChain, Backed, InVolume, SlotsOf, SectorOf, Quot, Rem, InSlots, RoomFor,
      Aligned, Grown, StretchedBy, Search, WellFormed, Place, ScanEnd, ClustersFor, SfnSlot, Located, PlainName,
      Entered, OthersStay, NewEntry, ShortName, Dir.At, Dir.Slots, Dir.Ok, Dir.OthersKept;
    locSect, locIdx := 0, 0;
    ghost var old_, buf := d.Slots(), d.nameBuf;
    ghost var a, p, eod;
    err, a, p, eod := d.Add(e);
    if err == 0 {
      AddFinds(old_, a, e, p, eod, e.name, buf, d.nameBuf);
      EnteredShort(d.Slots(), e, p);
      PlaceRoom(a, e, p, eod);
      err, locSect, locIdx := d.Find(e.name);
    }
  }

  lemma EnteredShort(b: seq<Slot>, e: Entry, p: nat)
    requires e.Valid() && Entered(b, e, p)
    ensures p + e.Lfns() < |b|
    ensures NewEntry(b[p + e.Lfns()], e.attr, e.clust, e.date, e.time) && ShortName(e.name, b[p + e.Lfns()][..11])
  {
    hide NewEntry, ShortName, LongSlot;
  }

  /**
   `dir_search`, `remove_entries` and `dir_search` again: the entry found is gone,
   and what is found next is what lay behind it.
   */
  method RemoveThenFind(d: Dir, name: seq<Byte>) returns (err: int, again: int)
    requires d.Ok() && |d.nameBuf| == NAME_BUF && WellFormed(d.Slots(), 0)
    modifies d, d.fat, d.fat.disk
    ensures d.fat.disk.failed ==> err != 0 || again != 0
    ensures !d.fat.disk.failed ==> d.Ok()
    ensures !d.fat.disk.failed ==>
              (err == FAT_ERR_NONE <==> Search(old(d.Slots()), 0, name, old(d.nameBuf)).outcome.Found?)
    ensures !d.fat.disk.failed && err == FAT_ERR_NONE ==>
              var f := Search(old(d.Slots()), 0, name, old(d.nameBuf)).outcome;
              && d.Slots() == Removed(old(d.Slots()), f.start, f.pos) && WellFormed(d.Slots(), 0)
              && Unlinked(old(d.Slots()), d.Slots(), f.start, f.pos)
              && (again == FAT_ERR_NONE <==>
                    Search(old(d.Slots()), f.pos + 1, name, old(d.nameBuf)).outcome.Found?)
  {
    hide Fat.Valid, Fat.Image, Fat.T, Table, IsChain, Backed, InVolume, SlotsOf, SectorOf, Quot, Rem, InSlots,
      Aligned, Search, WellFormed, Located, Removed, Unlinked, Dir.At, Dir.Slots, Dir.Ok, Dir.OthersKept;
    again := FAT_ERR_EOF;
    ghost var old_, buf := d.Slots(), d.nameBuf;
    ghost var found := Search(old_, 0, name, buf).outcome;
    var locSect, locIdx;
    err, locSect, locIdx := d.Find(name);
    if err != 0 {
      return;
    }
    FoundSpan(old_, 0, name, buf);
    err := d.RemoveEntries(locSect, locIdx, found.start, found.pos);
    if err != 0 {
      return;
    }
    RemoveFinds(old_, name, name, buf, d.nameBuf);
    var s, i;
    again, s, i := d.Find(name);
  }
}
