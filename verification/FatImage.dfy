/**
 The FAT32 volume as a value: a sequence of 512-byte sectors, and the file
 allocation table that two runs of those sectors hold as little-endian words.
 Everything here is a pure function of the sectors; the cache of `FatVolume`
 is proved against it.
 */
module FatImage {

  type Byte = b: int | 0 <= b < 0x100

  type Sector = s: seq<Byte> | |s| == 512 witness seq(512, i => 0)

  type Image = seq<Sector>

  function Min(a: int, b: int): int {
    if a < b then a else b
  }

  function Max(a: int, b: int): int {
    if a < b then b else a
  }

  function ZeroSector(): (z: Sector)
    ensures forall i :: 0 <= i < 512 ==> z[i] == 0
  {
    seq(512, i => 0)
  }

  // The 28 significant bits of a table word, and the marks it may carry.
  const LOW28 := 0x1000_0000
  const BAD_CLUSTER := 0x0fff_fff7
  const FIRST_EOC := 0x0fff_fff8
  const EOC := 0x0fff_ffff

  // ---------------------------------------------------------------- words

  /** The little-endian 32-bit word at byte offset `at`. */
  function Word(s: Sector, at: nat): (v: nat)
    requires at + 4 <= 512
    ensures v < 0x1_0000_0000
  {
    var b0: int, b1: int, b2: int, b3: int := s[at], s[at + 1], s[at + 2], s[at + 3];
    b0 + 0x100 * b1 + 0x1_0000 * b2 + 0x100_0000 * b3
  }

  lemma Digits(v: nat)
    requires v < 0x1_0000_0000
    ensures v == v % 0x100 + 0x100 * (v / 0x100 % 0x100) + 0x1_0000 * (v / 0x1_0000 % 0x100)
            + 0x100_0000 * (v / 0x100_0000)
    ensures v / 0x100_0000 < 0x100
  {
    assert v / 0x1_0000 == v / 0x100 / 0x100;
    assert v / 0x100_0000 == v / 0x1_0000 / 0x100;
  }

  /** The sector with the word at byte offset `at` replaced. */
  function WithWord(s: Sector, at: nat, v: nat): (r: Sector)
    requires at + 4 <= 512 && v < 0x1_0000_0000
    ensures Word(r, at) == v
    ensures forall i :: 0 <= i < 512 && !(at <= i < at + 4) ==> r[i] == s[i]
  {
    Digits(v);
    var b0: Byte, b1: Byte, b2: Byte, b3: Byte :=
      v % 0x100, v / 0x100 % 0x100, v / 0x1_0000 % 0x100, v / 0x100_0000;
    s[at := b0][at + 1 := b1][at + 2 := b2][at + 3 := b3]
  }

  /** Words that do not overlap the replaced one keep their value. */
  lemma WithWordElsewhere(s: Sector, at: nat, v: nat, other: nat)
    requires at + 4 <= 512 && other + 4 <= 512 && v < 0x1_0000_0000
    requires other + 4 <= at || at + 4 <= other
    ensures Word(WithWord(s, at, v), other) == Word(s, other)
  {
  }

  // ------------------------------------------------------------- geometry

  function Pow2(n: nat): (r: nat)
    ensures r > 0
  {
    if n == 0 then 1 else 2 * Pow2(n - 1)
  }

  /** `n * m`, by repeated addition: cluster arithmetic stays linear for the solver. */
  function Times(n: nat, m: nat): (r: nat)
    ensures r == 0 <==> n == 0 || m == 0
  {
    if n == 0 then 0 else Times(n - 1, m) + m
  }

  lemma {:induction false} TimesMonotone(a: nat, b: nat, m: nat)
    requires a < b
    ensures Times(a, m) + m <= Times(b, m)
  {
    if a + 1 < b {
      TimesMonotone(a, b - 1, m);
    }
  }

  /**
   The mounted geometry. `fat0` is the active table, `fat1` the other copy, or
   0 when the copies are not kept alike. `clustCnt` counts the entries of the
   table, as `fat_mount` does; the clusters that have sectors in the data region
   are those below `clustEnd`, which the program never works out.
   */
  datatype Geometry = Geometry(
    clustShift: nat, clustCnt: nat, clustEnd: nat, infoSect: nat, fat0: nat, fat1: nat, fatSz: nat, dataSect: nat)
  {
    function SectorsPerCluster(): (r: nat)
      ensures r > 0
    {
      Pow2(clustShift)
    }

    /** A volume of `total` sectors whose regions do not overlap. */
    predicate WellFormed(total: nat) {
      && 0 < infoSect < fat0
      && clustCnt == 128 * fatSz
      && 2 < clustEnd <= clustCnt <= BAD_CLUSTER
      && fat0 + fatSz <= dataSect
      && (fat1 != 0 ==> infoSect < fat1 && fat1 + fatSz <= dataSect && (fat0 + fatSz <= fat1 || fat1 + fatSz <= fat0))
      && dataSect + Times(clustEnd - 2, SectorsPerCluster()) <= total < 0xffff_ffff
    }

    /** Is `sect` a sector of either copy of the table? */
    predicate InTable(sect: nat) {
      fat0 <= sect < fat0 + fatSz || (fat1 != 0 && fat1 <= sect < fat1 + fatSz)
    }

    /** Is `c` a cluster of the data region? */
    predicate IsCluster(c: nat) {
      2 <= c < clustEnd
    }

    /** Is `c` the number of a table entry that can be handed out? */
    predicate IsSlot(c: nat) {
      2 <= c < clustCnt
    }

    function FirstSector(c: nat): (s: nat)
      requires IsCluster(c)
    {
      dataSect + Times(c - 2, SectorsPerCluster())
    }

    /** Does `sect` lie in cluster `c`? */
    predicate InCluster(sect: nat, c: nat)
      requires IsCluster(c)
    {
      FirstSector(c) <= sect < FirstSector(c) + SectorsPerCluster()
    }
  }

  lemma ClusterInVolume(g: Geometry, total: nat, c: nat)
    requires g.WellFormed(total) && g.IsCluster(c)
    ensures g.dataSect <= g.FirstSector(c)
    ensures g.FirstSector(c) + g.SectorsPerCluster() <= total
  {
    TimesMonotone(c - 2, g.clustEnd - 2, g.SectorsPerCluster());
  }

  lemma ClustersDisjoint(g: Geometry, a: nat, b: nat, sect: nat)
    requires g.IsCluster(a) && g.IsCluster(b)
    requires g.InCluster(sect, a) && g.InCluster(sect, b)
    ensures a == b
  {
    if a != b {
      TimesMonotone(if a < b then a - 2 else b - 2, if a < b then b - 2 else a - 2, g.SectorsPerCluster());
    }
  }

  // ------------------------------------------------------------ the table

  /** The value of table entry `c` in the copy that starts at `fat`; the top nibble is not part of it. */
  function EntryIn(img: Image, fat: nat, c: nat): (v: nat)
    requires fat + c / 128 < |img|
    ensures v < LOW28
  {
    Word(img[fat + c / 128], 4 * (c % 128)) % LOW28
  }

  /** The top nibble of the word, which belongs to nobody. */
  function NibbleIn(img: Image, fat: nat, c: nat): nat
    requires fat + c / 128 < |img|
  {
    Word(img[fat + c / 128], 4 * (c % 128)) / LOW28
  }

  /** The active table as a sequence of entry values. */
  function Table(g: Geometry, img: Image): (t: seq<nat>)
    requires g.WellFormed(|img|)
    ensures |t| == g.clustCnt
    ensures forall c :: 0 <= c < g.clustCnt ==> t[c] == EntryIn(img, g.fat0, c) < LOW28
  {
    seq(g.clustCnt, c requires 0 <= c < g.clustCnt => EntryIn(img, g.fat0, c))
  }

  /** One copy of the table with entry `c` set; the top nibble of the word survives. */
  function PutIn(img: Image, fat: nat, c: nat, v: nat): (r: Image)
    requires fat + c / 128 < |img|
    ensures |r| == |img|
    ensures forall s :: 0 <= s < |img| && s != fat + c / 128 ==> r[s] == img[s]
  {
    var s := fat + c / 128;
    var at := 4 * (c % 128);
    img[s := WithWord(img[s], at, Word(img[s], at) / LOW28 * LOW28 + v % LOW28)]
  }

  /** Both copies (when they are mirrored) with entry `c` set. */
  function Put(g: Geometry, img: Image, c: nat, v: nat): (r: Image)
    requires g.WellFormed(|img|) && c < g.clustCnt
    ensures |r| == |img|
    ensures forall s :: 0 <= s < |img| && !g.InTable(s) ==> r[s] == img[s]
  {
    PutIn(if g.fat1 != 0 then PutIn(img, g.fat1, c, v) else img, g.fat0, c, v)
  }

  lemma PutInEntry(img: Image, fat: nat, c: nat, v: nat, d: nat)
    requires fat + c / 128 < |img| && fat + d / 128 < |img|
    ensures EntryIn(PutIn(img, fat, c, v), fat, d) == if c == d then v % LOW28 else EntryIn(img, fat, d)
    ensures NibbleIn(PutIn(img, fat, c, v), fat, d) == NibbleIn(img, fat, d)
  {
    var s := fat + c / 128;
    var at := 4 * (c % 128);
    var w := Word(img[s], at) / LOW28 * LOW28 + v % LOW28;
    if c == d {
      assert Word(PutIn(img, fat, c, v)[s], at) == w;
    } else if c / 128 == d / 128 {
      assert c % 128 != d % 128;
      WithWordElsewhere(img[s], at, w, 4 * (d % 128));
    }
  }

  /** A copy of the table is what its own sectors say. */
  lemma EntryFrame(a: Image, b: Image, fat: nat, d: nat)
    requires fat + d / 128 < |a| == |b| && a[fat + d / 128] == b[fat + d / 128]
    ensures EntryIn(a, fat, d) == EntryIn(b, fat, d) && NibbleIn(a, fat, d) == NibbleIn(b, fat, d)
  {
  }

  /** Setting an entry changes that entry of the table and no other. */
  lemma PutTable(g: Geometry, img: Image, c: nat, v: nat)
    requires g.WellFormed(|img|) && c < g.clustCnt
    ensures Table(g, Put(g, img, c, v)) == Table(g, img)[c := v % LOW28]
  {
    hide EntryIn, NibbleIn, PutIn;
    var img1 := if g.fat1 != 0 then PutIn(img, g.fat1, c, v) else img;
    var t, t' := Table(g, img), Table(g, Put(g, img, c, v));
    forall d | 0 <= d < g.clustCnt
      ensures t'[d] == if c == d then v % LOW28 else t[d]
    {
      PutInEntry(img1, g.fat0, c, v, d);
      EntryFrame(img1, img, g.fat0, d);
    }
  }

  /** Do the two copies agree on the low 28 bits of entry `c`? */
  predicate CopiesAgreeAt(g: Geometry, img: Image, c: nat)
    requires g.WellFormed(|img|) && c < g.clustCnt
  {
    g.fat1 != 0 ==> EntryIn(img, g.fat1, c) == EntryIn(img, g.fat0, c)
  }

  /**
   After an entry is set the copies agree on it whatever they held before, they
   agree elsewhere as far as they did, and every word keeps its own top nibble.
   */
  lemma PutMirrors(g: Geometry, img: Image, c: nat, v: nat, d: nat)
    requires g.WellFormed(|img|) && c < g.clustCnt && d < g.clustCnt
    ensures CopiesAgreeAt(g, Put(g, img, c, v), d) <==> (d == c || CopiesAgreeAt(g, img, d))
    ensures NibbleIn(Put(g, img, c, v), g.fat0, d) == NibbleIn(img, g.fat0, d)
    ensures g.fat1 != 0 ==> NibbleIn(Put(g, img, c, v), g.fat1, d) == NibbleIn(img, g.fat1, d)
  {
    hide EntryIn, NibbleIn, PutIn;
    if g.fat1 == 0 {
      PutInEntry(img, g.fat0, c, v, d);
    } else {
      var img1 := PutIn(img, g.fat1, c, v);
      PutInEntry(img, g.fat1, c, v, d);
      PutInEntry(img1, g.fat0, c, v, d);
      EntryFrame(img, img1, g.fat0, d);
      EntryFrame(img1, Put(g, img, c, v), g.fat1, d);
    }
  }
}
