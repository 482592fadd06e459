/**
 One open file: a cursor into a cluster chain with a sector buffer of its own.
 Seeking past the end of the chain stretches it; reading and writing move through
 the buffer. The contracts speak of the bytes of the chain, `ByteAt`.
 */
module FatFile {
  import opened FatImage
  import opened FatChains
  import opened FatOffsets
  import opened FatVolume
  import opened SmallVolumes
  import opened DiskLayout

  /** `file->sect` before the first seek. */
  const NO_SECT := 0xffff_ffff

  datatype Whence = SeekStart | SeekCurr | SeekEnd

  /** The `k`-th sector of a chain, as seen through a buffer that holds sector `sect`. */
  function SectorData(g: Geometry, sectors: Image, ch: seq<nat>, k: nat, sect: nat, buf: Sector): Sector
    requires g.WellFormed(|sectors|) && InVolume(g, ch) && Quot(k, g.SectorsPerCluster()) < |ch|
  {
    SectorOnChain(g, |sectors|, ch, k);
    if SectorOf(g, ch, k) == sect then buf else sectors[SectorOf(g, ch, k)]
  }

  /**
   Moving the buffer to another sector, writing it back first when it has to be,
   changes no sector of the chain.
   */
  lemma MoveBuffer(g: Geometry, sectors: Image, ch: seq<nat>, sect: nat, buf: Sector,
                   sectors': Image, sect': nat, buf': Sector, k: nat)
    requires g.WellFormed(|sectors|) && |sectors'| == |sectors|
    requires InVolume(g, ch) && Quot(k, g.SectorsPerCluster()) < |ch|
    requires sect' < |sectors|
    requires forall s :: g.dataSect <= s < |sectors| && s != sect ==> sectors'[s] == sectors[s]
    requires sect < |sectors| ==> sectors'[sect] == buf
    requires buf' == sectors'[sect']
    ensures SectorData(g, sectors', ch, k, sect', buf') == SectorData(g, sectors, ch, k, sect, buf)
  {
    SectorOnChain(g, |sectors|, ch, k);
  }

  /** All bytes of a chain, as seen through a buffer that holds sector `sect`. */
  ghost function ChainBytes(g: Geometry, img: Image, ch: seq<nat>, sect: nat, buf: Sector): (b: seq<Byte>)
    requires g.WellFormed(|img|) && InVolume(g, ch)
    ensures |b| == 512 * SectorCount(g, ch)
    ensures forall o: nat :: Quot(o / 512, g.SectorsPerCluster()) < |ch| <==> o < |b|
    ensures forall o: nat :: o < |b| ==> b[o] == SectorData(g, img, ch, o / 512, sect, buf)[o % 512]
  {
    InChainBelow(g, ch);
    seq(512 * SectorCount(g, ch), o requires 0 <= o < 512 * SectorCount(g, ch) =>
        SectorData(g, img, ch, o / 512, sect, buf)[o % 512])
  }

  /** Sectors off the chain do not matter to its bytes. */
  lemma ChainBytesFrame(g: Geometry, img: Image, img': Image, ch: seq<nat>, sect: nat, buf: Sector)
    requires g.WellFormed(|img|) && |img'| == |img| && InVolume(g, ch)
    requires forall s :: 0 <= s < |img| && OnChain(g, ch, s) ==> img'[s] == img[s]
    ensures ChainBytes(g, img', ch, sect, buf) == ChainBytes(g, img, ch, sect, buf)
  {
    hide OnChain;
    forall k: nat | Quot(k, g.SectorsPerCluster()) < |ch|
      ensures SectorData(g, img', ch, k, sect, buf) == SectorData(g, img, ch, k, sect, buf)
    {
      SectorOnChain(g, |img|, ch, k);
    }
    ChainBytesPrefix(g, img, ch, sect, buf, img', ch, sect, buf);
    ChainBytesPrefix(g, img', ch, sect, buf, img, ch, sect, buf);
  }

  /** Work on one chain leaves the bytes of every chain that shares no cluster with it. */
  lemma OtherChainBytes(g: Geometry, img: Image, img': Image, ch: seq<nat>, other: seq<nat>, sect: nat, buf: Sector)
    requires g.WellFormed(|img|) && |img'| == |img| && InVolume(g, ch) && InVolume(g, other) && Disjoint(ch, other)
    requires forall s :: g.dataSect <= s < |img| && !OnChain(g, ch, s) ==> img'[s] == img[s]
    ensures ChainBytes(g, img', other, sect, buf) == ChainBytes(g, img, other, sect, buf)
  {
    hide Geometry.WellFormed, Geometry.InCluster, Geometry.IsCluster, Disjoint;
    forall s | 0 <= s < |img| && OnChain(g, other, s)
      ensures img'[s] == img[s]
    {
      SectorsApart(g, |img|, ch, other, s);
    }
    ChainBytesFrame(g, img, img', other, sect, buf);
  }

  lemma OneCluster(g: Geometry, a: nat, b: nat, s: nat)
    requires g.IsCluster(a) && g.IsCluster(b) && a != b && g.InCluster(s, b)
    ensures !g.InCluster(s, a)
  {
    if g.InCluster(s, a) {
      ClustersDisjoint(g, a, b, s);
    }
  }

  lemma SectorsApart(g: Geometry, total: nat, ch: seq<nat>, other: seq<nat>, s: nat)
    requires g.WellFormed(total) && InVolume(g, ch) && InVolume(g, other) && Disjoint(ch, other) && OnChain(g, other, s)
    ensures g.dataSect <= s < total && !OnChain(g, ch, s)
  {
    var j :| 0 <= j < |other| && g.InCluster(s, other[j]);
    ClusterInVolume(g, total, other[j]);
    forall i | 0 <= i < |ch|
      ensures !g.InCluster(s, ch[i])
    {
      assert ch[i] in ch && other[j] in other;
      OneCluster(g, ch[i], other[j], s);
    }
  }

  /** `MoveBuffer`, for all bytes. */
  lemma BufferMoved(g: Geometry, img: Image, ch: seq<nat>, sect: nat, buf: Sector, img': Image, sect': nat,
      buf': Sector)
    requires g.WellFormed(|img|) && |img'| == |img| && InVolume(g, ch) && sect' < |img|
    requires forall s :: g.dataSect <= s < |img| && s != sect ==> img'[s] == img[s]
    requires sect < |img| ==> img'[sect] == buf
    requires buf' == img'[sect']
    ensures ChainBytes(g, img', ch, sect', buf') == ChainBytes(g, img, ch, sect, buf)
  {
    forall k: nat | Quot(k, g.SectorsPerCluster()) < |ch|
      ensures SectorData(g, img', ch, k, sect', buf') == SectorData(g, img, ch, k, sect, buf)
    {
      MoveBuffer(g, img, ch, sect, buf, img', sect', buf', k);
    }
    ChainBytesPrefix(g, img, ch, sect, buf, img', ch, sect', buf');
  }

  lemma InChainBelow(g: Geometry, ch: seq<nat>)
    ensures forall o: nat :: Quot(o / 512, g.SectorsPerCluster()) < |ch| <==> o < 512 * SectorCount(g, ch)
  {
    forall o: nat
      ensures Quot(o / 512, g.SectorsPerCluster()) < |ch| <==> o < 512 * SectorCount(g, ch)
    {
      QuotBelow(o / 512, |ch|, g.SectorsPerCluster());
    }
  }

  /** When every sector of `ch` is kept the bytes are a prefix of the later ones. */
  lemma ChainBytesPrefix(g: Geometry, img: Image, ch: seq<nat>, sect: nat, buf: Sector,
                         img': Image, ch': seq<nat>, sect': nat, buf': Sector)
    requires g.WellFormed(|img|) && |img'| == |img| && InVolume(g, ch') && InVolume(g, ch) && |ch| <= |ch'|
    requires forall k: nat :: Quot(k, g.SectorsPerCluster()) < |ch| ==>
               SectorData(g, img', ch', k, sect', buf') == SectorData(g, img, ch, k, sect, buf)
    ensures ChainBytes(g, img, ch, sect, buf) <= ChainBytes(g, img', ch', sect', buf')
  {
    hide SectorData, Geometry.WellFormed;
    var b, b' := ChainBytes(g, img, ch, sect, buf), ChainBytes(g, img', ch', sect', buf');
    forall o: nat | o < |b|
      ensures o < |b'| && b'[o] == b[o]
    {
      assert Quot(o / 512, g.SectorsPerCluster()) < |ch|;
    }
    if |ch| < |ch'| {
      TimesMonotone(|ch|, |ch'|, g.SectorsPerCluster());
    }
  }

  /** `b` with the bytes from `at` on replaced by `d`, and prolonged by what of `d` goes beyond its end. */
  function Overlaid(b: seq<Byte>, at: nat, d: seq<Byte>): (r: seq<Byte>)
    requires at <= |b|
    ensures |r| == Max(|b|, at + |d|)
    ensures forall o :: 0 <= o < |r| && at <= o < at + |d| ==> r[o] == d[o - at]
    ensures forall o :: 0 <= o < |b| && !(at <= o < at + |d|) ==> r[o] == b[o]
  {
    b[..at] + d + if at + |d| < |b| then b[at + |d|..] else []
  }

  lemma OverlaidTwice(b: seq<Byte>, at: nat, d: seq<Byte>, b1: seq<Byte>, d1: seq<Byte>)
    requires at <= |b| && Overlaid(b, at, d) <= b1
    ensures Overlaid(b, at, d + d1) <= Overlaid(b1, at + |d|, d1)
  {
  }

  /** One piece of `data` more. */
  lemma OverlaidNext(b: seq<Byte>, at: nat, data: seq<Byte>, done: nat, cnt: nat, b1: seq<Byte>, b2: seq<Byte>)
    requires done + cnt <= |data| && at <= |b| && Overlaid(b, at, data[..done]) <= b1
    requires Overlaid(b1, at + done, data[done..done + cnt]) <= b2
    ensures Overlaid(b, at, data[..done + cnt]) <= b2
  {
    hide Overlaid;
    OverlaidTwice(b, at, data[..done], b1, data[done..done + cnt]);
    assert data[..done] + data[done..done + cnt] == data[..done + cnt];
  }

  lemma OverlaidByte(g: Geometry, img: Image, ch: seq<nat>, off: nat, buf: Sector, buf': Sector, part: seq<Byte>,
      o: nat)
    requires g.WellFormed(|img|) && InVolume(g, ch) && Distinct(ch)
    requires Quot(off / 512, g.SectorsPerCluster()) < |ch| && Quot(o / 512, g.SectorsPerCluster()) < |ch|
    requires off % 512 + |part| <= 512 && buf' == buf[..off % 512] + part + buf[off % 512 + |part|..]
    ensures var sect := SectorOf(g, ch, off / 512);
            SectorData(g, img, ch, o / 512, sect, buf')[o % 512]
            == if off <= o < off + |part| then part[o - off] else SectorData(g, img, ch, o / 512, sect, buf)[o % 512]
  {
    hide Geometry.WellFormed, InVolume, Distinct;
    if o / 512 == off / 512 {
      assert o - off == o % 512 - off % 512;
    } else if SectorOf(g, ch, o / 512) == SectorOf(g, ch, off / 512) {
      SectorOfInjective(g, ch, o / 512, off / 512);
    } else {
      SameSector(off, if |part| == 0 then 0 else |part| - 1);
      assert !(off <= o < off + |part|);
    }
  }

  /** A piece put into the buffer of the sector of byte `off` overlays the bytes of the chain there. */
  lemma BufferOverlaid(g: Geometry, img: Image, ch: seq<nat>, off: nat, buf: Sector, part: seq<Byte>)
    requires g.WellFormed(|img|) && InVolume(g, ch) && Distinct(ch)
    requires Quot(off / 512, g.SectorsPerCluster()) < |ch| && off % 512 + |part| <= 512
    ensures var sect, idx := SectorOf(g, ch, off / 512), off % 512;
            && off < |ChainBytes(g, img, ch, sect, buf)|
            && ChainBytes(g, img, ch, sect, buf[..idx] + part + buf[idx + |part|..])
               == Overlaid(ChainBytes(g, img, ch, sect, buf), off, part)
  {
    hide Geometry.WellFormed, InVolume, Distinct, SectorOf, SectorData;
    var sect, idx := SectorOf(g, ch, off / 512), off % 512;
    var buf': Sector := buf[..idx] + part + buf[idx + |part|..];
    var b, b' := ChainBytes(g, img, ch, sect, buf), ChainBytes(g, img, ch, sect, buf');
    ChainPiece(g, img, ch, off, buf, |part|);
    forall o: nat | o < |b|
      ensures b'[o] == if off <= o < off + |part| then part[o - off] else b[o]
    {
      OverlaidByte(g, img, ch, off, buf, buf', part, o);
    }
  }

  // ----------------------------------------------------- directory entry

  const SFN_ATTR := 11
  const SFN_ACC_DATE := 18
  const SFN_MOD_TIME := 22
  const SFN_MOD_DATE := 24
  const SFN_SIZE := 28
  const FAT_ATTR_ARCHIVE := 0x20

  function WithHalf(s: Sector, at: nat, v: nat): (r: Sector)
    requires at + 2 <= 512 && v < 0x1_0000
    ensures forall i :: 0 <= i < 512 && i != at && i != at + 1 ==> r[i] == s[i]
  {
    var lo: Byte, hi: Byte := v % 0x100, v / 0x100;
    s[at := lo][at + 1 := hi]
  }

  function WithArchive(a: Byte): (r: Byte) {
    if a / FAT_ATTR_ARCHIVE % 2 == 1 then a else a + FAT_ATTR_ARCHIVE
  }

  /** What a sync writes into the directory sector of a file whose entry is at `idx`. */
  function Stamped(s: Sector, idx: nat, acc: bool, mod: bool, size: nat, date: nat, time: nat): (r: Sector)
    requires idx + 32 <= 512 && size < UINT32 && date < 0x1_0000 && time < 0x1_0000
    ensures mod ==> Word(r, idx + SFN_SIZE) == size
    ensures forall i :: 0 <= i < 512 && !(idx + SFN_ATTR <= i < idx + 32) ==> r[i] == s[i]
  {
    var s1 := if acc then WithHalf(s, idx + SFN_ACC_DATE, date) else s;
    if mod then
      var s2: Sector := s1[idx + SFN_ATTR := WithArchive(s1[idx + SFN_ATTR])];
      WithWord(WithHalf(WithHalf(s2, idx + SFN_MOD_DATE, date), idx + SFN_MOD_TIME, time), idx + SFN_SIZE, size)
    else s1
  }

  lemma HalfIsTwo(s: Sector, at: nat, v: nat)
    requires at + 2 <= 512 && v < 0x1_0000
    ensures Two(WithHalf(s, at, v), at) == v
  {
  }

  /** Reading from a part of a sector. */
  lemma TwoWithin(s: Sector, idx: nat, at: nat)
    requires idx + 32 <= 512 && at + 2 <= 32
    ensures Two(s[idx..idx + 32], at) == Two(s, idx + at)
  {
  }

  lemma TwoSame(s: Sector, r: Sector, at: nat)
    requires at + 2 <= 512 && r[at] == s[at] && r[at + 1] == s[at + 1]
    ensures Two(r, at) == Two(s, at)
  {
  }

  /** The write, in bytes: `s1` to `s4` are the sector after each of its parts. */
  lemma StampedBytes(s: Sector, idx: nat, acc: bool, mod: bool, size: nat, date: nat, time: nat)
    requires idx + 32 <= 512 && size < UINT32 && date < 0x1_0000 && time < 0x1_0000
    ensures var r := Stamped(s, idx, acc, mod, size, date, time);
            && (forall i :: 0 <= i < 512 && !(idx + 11 <= i < idx + 32) ==> r[i] == s[i])
            && (forall i :: idx + 12 <= i < idx + 18 || idx + 20 <= i < idx + 22 || idx + 26 <= i < idx + 28 ==>
                  r[i] == s[i])
            && (if acc then Two(r, idx + 18) == date else r[idx + 18] == s[idx + 18] && r[idx + 19] == s[idx + 19])
            && (mod ==> r[idx + 11] == (if s[idx + 11] / 32 % 2 == 1 then s[idx + 11] else s[idx + 11] + 32)
                        && Two(r, idx + 22) == time && Two(r, idx + 24) == date && Four(r, idx + 28) == size)
            && (!mod ==>
                  forall i :: i == idx + 11 || idx + 22 <= i < idx + 26 || idx + 28 <= i < idx + 32 ==> r[i] == s[i])
  {
    hide WithHalf, WithWord, Two, Four;
    var s1 := if acc then WithHalf(s, idx + 18, date) else s;
    if acc {
      HalfIsTwo(s, idx + 18, date);
    }
    if mod {
      var s2: Sector := s1[idx + 11 := WithArchive(s1[idx + 11])];
      var s3 := WithHalf(s2, idx + 24, date);
      var s4 := WithHalf(s3, idx + 22, time);
      var r := WithWord(s4, idx + 28, size);
      HalfIsTwo(s2, idx + 24, date);
      HalfIsTwo(s3, idx + 22, time);
      WordIsFour(r, idx + 28);
      TwoSame(s3, r, idx + 24);
      TwoSame(s4, r, idx + 22);
      TwoSame(s1, r, idx + 18);
      assert r == Stamped(s, idx, acc, mod, size, date, time);
    }
  }

  /** Nothing to tell. */
  lemma Unsynced(s: Sector, idx: nat, size: nat, date: nat, time: nat)
    requires idx + 32 <= 512
    ensures EntrySynced(s, s, idx, false, false, size, date, time)
  {
  }

  /** The entry in the sector after a sync reads as it should, and the rest of the sector is as it was. */
  ghost predicate EntrySynced(s: Sector, r: Sector, idx: nat, acc: bool, mod: bool, size: nat, date: nat, time: nat)
    requires idx + 32 <= 512
  {
    && s[..idx] == r[..idx] && s[idx + 32..] == r[idx + 32..]
    && SyncedEntry(s[idx..idx + 32], r[idx..idx + 32], acc, mod, size, date, time)
  }

  lemma SliceSame(e: seq<Byte>, f: seq<Byte>, i: nat, j: nat)
    requires i <= j <= |e| == |f| && forall k :: i <= k < j ==> f[k] == e[k]
    ensures f[i..j] == e[i..j]
  {
  }

  lemma SlicesSame(s: Sector, r: Sector, idx: nat, i: nat, j: nat)
    requires idx + 32 <= 512 && i <= j <= 32 && forall k :: idx + i <= k < idx + j ==> r[k] == s[k]
    ensures r[idx..idx + 32][i..j] == s[idx..idx + 32][i..j]
  {
    var e, f := s[idx..idx + 32], r[idx..idx + 32];
    forall k | i <= k < j
      ensures f[k] == e[k]
    {
      assert e[k] == s[idx + k] && f[k] == r[idx + k];
    }
    SliceSame(e, f, i, j);
  }

  lemma StampedTells(s: Sector, idx: nat, acc: bool, mod: bool, size: nat, date: nat, time: nat)
    requires idx + 32 <= 512 && size < UINT32 && date < 0x1_0000 && time < 0x1_0000
    ensures EntrySynced(s, Stamped(s, idx, acc, mod, size, date, time), idx, acc, mod, size, date, time)
  {
    hide Stamped, Two, Four, Attributes, AccessDate, WriteTime, WriteDate, FirstCluster, FileSize;
    var r := Stamped(s, idx, acc, mod, size, date, time);
    StampedBytes(s, idx, acc, mod, size, date, time);
    SlicesSame(s, r, idx, 0, 11);
    SlicesSame(s, r, idx, 12, 18);
    SlicesSame(s, r, idx, 20, 22);
    SlicesSame(s, r, idx, 26, 28);
    RestSame(s, r, idx);
    TwoSame(s, r, idx + 20);
    TwoSame(s, r, idx + 26);
    EntryReads(s, idx);
    EntryReads(r, idx);
    if !acc {
      SlicesSame(s, r, idx, 18, 20);
    }
    if !mod {
      SlicesSame(s, r, idx, 22, 26);
      SlicesSame(s, r, idx, 28, 32);
      assert r[idx..idx + 32][11] == r[idx + 11] && s[idx..idx + 32][11] == s[idx + 11];
    }
  }

  lemma RestSame(s: Sector, r: Sector, idx: nat)
    requires idx + 32 <= 512 && forall i :: 0 <= i < 512 && !(idx + 11 <= i < idx + 32) ==> r[i] == s[i]
    ensures s[..idx] == r[..idx] && s[idx + 32..] == r[idx + 32..]
  {
  }

  lemma EntryReads(s: Sector, idx: nat)
    requires idx + 32 <= 512
    ensures var e := s[idx..idx + 32];
            && Attributes(e) == s[idx + 11] && FirstCluster(e) == Two(s, idx + 26) + 65536 * Two(s, idx + 20)
            && AccessDate(e) == Two(s, idx + 18) && WriteTime(e) == Two(s, idx + 22)
            && WriteDate(e) == Two(s, idx + 24) && FileSize(e) == Four(s, idx + 28)
  {
    hide Two;
    TwoWithin(s, idx, 18);
    TwoWithin(s, idx, 20);
    TwoWithin(s, idx, 22);
    TwoWithin(s, idx, 24);
    TwoWithin(s, idx, 26);
    TwoWithin(s, idx, 28);
    TwoWithin(s, idx, 30);
  }

  lemma SameSector(off: nat, i: nat)
    requires off % 512 + i < 512
    ensures (off + i) / 512 == off / 512 && (off + i) % 512 == off % 512 + i
  {
  }

  lemma ChainByte(g: Geometry, img: Image, ch: seq<nat>, off: nat, buf: Sector, i: nat)
    requires g.WellFormed(|img|) && InVolume(g, ch) && Quot(off / 512, g.SectorsPerCluster()) < |ch|
             && off % 512 + i < 512
    ensures var b := ChainBytes(g, img, ch, SectorOf(g, ch, off / 512), buf);
            off + i < |b| && b[off + i] == buf[off % 512 + i]
  {
    hide Geometry.WellFormed, InVolume, SectorOf;
    SameSector(off, i);
  }

  /** The bytes behind `off` in its sector are those of the buffer that holds it. */
  lemma {:induction false} ChainPiece(g: Geometry, img: Image, ch: seq<nat>, off: nat, buf: Sector, n: nat)
    requires g.WellFormed(|img|) && InVolume(g, ch) && Quot(off / 512, g.SectorsPerCluster()) < |ch|
             && off % 512 + n <= 512
    ensures var b := ChainBytes(g, img, ch, SectorOf(g, ch, off / 512), buf);
            off + n <= |b| && buf[off % 512..off % 512 + n] == b[off..off + n]
  {
    hide Geometry.WellFormed, InVolume, SectorOf, SectorData;
    var b, idx := ChainBytes(g, img, ch, SectorOf(g, ch, off / 512), buf), off % 512;
    ChainByte(g, img, ch, off, buf, if n == 0 then 0 else n - 1);
    if n > 0 {
      ChainPiece(g, img, ch, off, buf, n - 1);
      SliceNext(buf, idx, n - 1);
      SliceNext(b, off, n - 1);
    }
  }

  lemma SliceNext(s: seq<Byte>, i: nat, n: nat)
    requires i + n < |s|
    ensures s[i..i + n + 1] == s[i..i + n] + [s[i + n]]
  {
  }

  /** `d` are the bytes of `b` from `at` on. */
  predicate TakenFrom(b: seq<Byte>, at: nat, d: seq<Byte>) {
    at + |d| <= |b| && d == b[at..at + |d|]
  }

  /** Pieces read one behind the other, the second from bytes that prolong those of the first. */
  lemma PiecesJoin(b0: seq<Byte>, b1: seq<Byte>, at: nat, d: seq<Byte>, p: seq<Byte>)
    requires b0 <= b1 && at + |d| + |p| <= |b0|
    requires TakenFrom(b0, at, d) && p == b1[at + |d|..at + |d| + |p|]
    ensures TakenFrom(b0, at, d + p)
  {
  }

  lemma TakenNothing(b: seq<Byte>, at: nat)
    requires at <= |b|
    ensures TakenFrom(b, at, [])
  {
  }

  lemma TakenWithin(b: seq<Byte>, at: nat, d: seq<Byte>, size: nat)
    requires TakenFrom(b, at, d) && at + |d| <= size <= |b|
    ensures d == b[..size][at..at + |d|]
  {
  }

  /** Does a write of `n` bytes from byte `at` on come to `b` at the end of one of its pieces? */
  predicate PieceEnd(at: nat, n: nat, b: nat) {
    at < b <= at + n && (b % 512 == 0 || b == at + n)
  }

  /** The piece that starts at `at + done` ends at the next such place. */
  lemma NextPieceEnd(at: nat, n: nat, done: nat, cnt: nat)
    requires done < n && cnt == Min(n - done, 512 - (at + done) % 512)
    ensures PieceEnd(at, n, at + done + cnt)
    ensures forall b: nat :: PieceEnd(at, n, b) && b > at + done ==> b >= at + done + cnt
  {
    var o := at + done;
    forall b: nat | PieceEnd(at, n, b) && b > o
      ensures b >= o + cnt
    {
      if b < o + cnt {
        SameSector(o, b - o);
      }
    }
    if cnt == 512 - o % 512 {
      assert (o + cnt) % 512 == 0;
    }
  }

  lemma SamePrefix(a: seq<nat>, b: seq<nat>)
    requires a <= b && |a| == |b|
    ensures a == b
  {
  }

  class File {
    const fat: Fat
    const dirSect: nat
    const dirIdx: nat
    const sclust: nat
    const canRead: bool
    const canWrite: bool
    var clust: nat
    var sect: nat
    var size: nat
    var offset: nat
    var buf: Sector
    var dirty: bool
    var accessed: bool
    var modified: bool
    /** The clusters of the file, in order. */
    ghost var chain: seq<nat>

    // ------------------------------------------------ the abstract value

    ghost function Spc(): (m: nat)
      ensures m > 0
    {
      fat.geo.SectorsPerCluster()
    }

    /** Is byte `o` inside the chain? */
    ghost predicate Has(o: nat)
      reads this`chain
    {
      Quot(o / 512, Spc()) < |chain|
    }

    /** The volume and the chain are in order, and the volume's cache keeps off the chain. */
    ghost predicate Chained()
      reads this`chain, fat, fat.disk
      ensures Chained() ==> fat.Valid() && InVolume(fat.geo, chain) && IsChain(fat.T(), chain)
      ensures Chained() ==> chain[0] == sclust && fat.geo.IsCluster(sclust)
    {
      && fat.Valid()
      && Readable(fat.T())
      && IsChain(fat.T(), chain)
      && InVolume(fat.geo, chain)
      && chain[0] == sclust
      && !OnChain(fat.geo, chain, fat.sect)
    }

    /** The buffer holds the sector under the cursor, or nothing yet. */
    ghost predicate Buffered()
      requires Chained()
      reads this`chain, this`sect, this`buf, this`dirty, this`offset, fat, fat.disk
    {
      if sect == NO_SECT then !dirty
      else
        && Has(offset)
        && sect == SectorOf(fat.geo, chain, offset / 512) < |fat.disk.sectors|
        && (dirty || buf == fat.Image()[sect])
    }

    ghost predicate Valid()
      reads this`chain, this`clust, this`sect, this`buf, this`dirty, this`offset, this`size, fat, fat.disk
      ensures Valid() ==> Chained()
    {
      && Chained()
      && Has(offset)
      && clust == chain[Quot(offset / 512, Spc())]
      && Buffered()
      && (size > 0 ==> Has(size - 1))
      && size < UINT32 && offset < UINT32
    }

    ghost predicate Loaded()
      reads this`sect
    {
      sect != NO_SECT
    }

    /** All bytes of the chain. */
    ghost function Bytes(): (b: seq<Byte>)
      requires Chained()
      reads this`chain, this`sect, this`buf, fat, fat.disk
    {
      ChainBytes(fat.geo, fat.Image(), chain, sect, buf)
    }

    /** The file as its reader sees it. */
    ghost function Contents(): (s: seq<Byte>)
      requires Valid()
      reads this`chain, this`clust, this`sect, this`buf, this`dirty, this`offset, this`size, fat, fat.disk
      ensures |s| == size
    {
      BelowHas();
      Bytes()[..size]
    }

    lemma BelowHas()
      requires Valid()
      ensures size <= |Bytes()|
    {
      hide Fat.Valid, Fat.Image, Table, OnChain, File.Chained, File.Buffered, SectorOf, SectorData;
    }

    /** A handle as `fat_file_open` fills it in, before its first seek. */
    constructor Opened(fat: Fat, dirSect: nat, dirIdx: nat, sclust: nat, size: nat, canRead: bool, canWrite: bool,
                       ghost chain: seq<nat>)
      requires fat.Valid() && Readable(fat.T()) && IsChain(fat.T(), chain)
      requires InVolume(fat.geo, chain) && !OnChain(fat.geo, chain, fat.sect) && chain[0] == sclust
      requires size < UINT32 && (size > 0 ==> Quot((size - 1) / 512, fat.geo.SectorsPerCluster()) < |chain|)
      ensures Valid() && !Loaded() && offset == 0 && this.size == size && this.chain == chain && this.fat == fat
      ensures this.dirSect == dirSect && this.dirIdx == dirIdx && this.canRead == canRead && this.canWrite == canWrite
    {
      this.fat, this.dirSect, this.dirIdx := fat, dirSect, dirIdx;
      this.canRead, this.canWrite := canRead, canWrite;
      this.chain, this.sclust, clust := chain, sclust, sclust;
      sect, offset, this.size := NO_SECT, 0, size;
      buf, dirty, accessed, modified := ZeroSector(), false, false, false;
    }

    // ---------------------------------------------------------- seeking

    /** While a chain is stretched to byte `o` every cluster that is handed out has sectors. */
    ghost predicate BackedTo(t: seq<nat>, ch: seq<nat>, u: nat, o: nat) {
      Backed(fat.geo, t, ch, u, Quot(Min(o, UINT32 - 1) / 512, Spc()) + 1)
    }

    /** So it is for the chain of the file. */
    ghost predicate Backs(o: nat)
      requires fat.Valid()
      reads this`chain, fat, fat.disk
    {
      BackedTo(fat.T(), chain, fat.lastUsed, o)
    }

    /** That stays so as the chain grows. */
    lemma BacksStill(t: seq<nat>, ch: seq<nat>, u: nat, a: nat, b: nat)
      requires fat.Valid() && Took(t, ch, u, fat.T(), chain, fat.lastUsed) && BackedTo(t, ch, u, b) && a <= b
      ensures Backs(a)
    {
      hide Fat.Valid, Fat.T, Backed, Took;
      var m, n := Min(a, UINT32 - 1), Min(b, UINT32 - 1);
      QuotMonotone(m / 512, n / 512, Spc());
      BackedOn(fat.geo, t, ch, u, fat.T(), chain, fat.lastUsed, Quot(m / 512, Spc()) + 1, Quot(n / 512, Spc()) + 1);
    }

    /**
     From the given earlier table, chain and volume to now the chain has only
     grown, and no data sector has changed.
     */
    ghost predicate GrownFrom(t: seq<nat>, ch: seq<nat>, img: Image)
      requires Chained()
      reads this`chain, fat, fat.disk
    {
      && |fat.Image()| == |img|
      && Grown(t, ch, fat.T(), chain)
      && forall s :: fat.geo.dataSect <= s < |img| ==> fat.Image()[s] == img[s]
    }

    /** `get_fat` at the cursor's cluster. */
    method ReadLink(ghost at: nat, ghost t: seq<nat>, ghost ch: seq<nat>, ghost img: Image)
        returns (err: int, next: nat, kind: Kind)
      requires Chained() && at < |chain| && clust == chain[at] && GrownFrom(t, ch, img)
      modifies fat`buf, fat`sect, fat`bufDirty, fat.disk
      ensures |fat.disk.sectors| == old(|fat.disk.sectors|)
      ensures err == if fat.disk.failed then FAT_ERR_IO else FAT_ERR_NONE
      ensures err == 0 ==>
                && Chained() && GrownFrom(t, ch, img)
                && fat.Image() == old(fat.Image()) && fat.T() == old(fat.T())
                && next == fat.T()[clust]
                && if at + 1 < |chain| then kind == Link && next == chain[at + 1] else kind == Last
    {
      hide Fat.Valid, Fat.Image, Table, OnChain, Grown;
      ghost var t0, img0 := fat.T(), fat.Image();
      OnChainInUse(t0, chain, clust);
      err, next, kind := fat.GetFat(clust);
      if !fat.disk.failed {
        assert fat.T() == t0;
        BeforeDataOffChain(fat.geo, |fat.disk.sectors|, chain, fat.sect);
      }
    }

    /** The chain and the volume are the same as they were. */
    lemma StillThere(t: seq<nat>, ch: seq<nat>, img: Image, t0: seq<nat>, img0: Image)
      requires Grown(t, ch, t0, chain) && Readable(t0) && IsChain(t0, chain) && InVolume(fat.geo, chain)
               && chain[0] == sclust
      requires fat.Valid() && fat.Image() == img0 && fat.T() == t0 && fat.sect < fat.geo.dataSect
      requires |img| == |img0| && forall s :: fat.geo.dataSect <= s < |img| ==> img0[s] == img[s]
      ensures Chained() && GrownFrom(t, ch, img)
    {
      BeforeDataOffChain(fat.geo, |fat.disk.sectors|, chain, fat.sect);
    }

    /** The chain has one more cluster at its end. */
    lemma StillGrown(t: seq<nat>, ch: seq<nat>, img: Image, t0: seq<nat>, ch0: seq<nat>, img0: Image, new_: nat)
      requires IsChain(t, ch) && Grown(t, ch, t0, ch0) && Readable(t0) && InVolume(fat.geo, ch0)
      requires |img| == |img0| && fat.Valid() && fat.geo.WellFormed(|img0|) && OnlyTables(fat.geo, img0, fat.Image())
      requires forall s :: fat.geo.dataSect <= s < |img| ==> img0[s] == img[s]
      requires fat.sect < fat.geo.dataSect
      requires 2 <= new_ < |t0| && t0[new_] == 0 && fat.geo.IsCluster(new_)
      requires fat.T() == Stretched(t0, ch0[|ch0| - 1], new_)
      requires chain == ch0 + [new_] && ch0[0] == sclust
      ensures Chained() && GrownFrom(t, ch, img)
    {
      GrownStep(t, ch, t0, ch0, new_);
      StretchedReadable(t0, ch0[|ch0| - 1], new_);
      BeforeDataOffChain(fat.geo, |fat.disk.sectors|, chain, fat.sect);
    }

    /** The chain gets one more cluster at its end, where the walk stands, and the walk steps into it. */
    method StretchHere(ghost t: seq<nat>, ghost ch: seq<nat>, ghost img: Image) returns (err: int)
      requires Chained() && clust == chain[|chain| - 1]
      requires IsChain(t, ch) && GrownFrom(t, ch, img)
      requires Backed(fat.geo, fat.T(), chain, fat.lastUsed, |chain| + 1)
      modifies this`clust, this`chain
      modifies fat`buf, fat`sect, fat`bufDirty, fat`infoDirty, fat`freeCnt, fat`lastUsed, fat.disk
      ensures |fat.disk.sectors| == old(|fat.disk.sectors|)
      ensures fat.disk.failed ==> err != 0
      ensures !fat.disk.failed ==> Chained() && GrownFrom(t, ch, img) && (err == FAT_ERR_NONE || err == FAT_ERR_FULL)
      ensures !fat.disk.failed ==> Took(old(fat.T()), old(chain), old(fat.lastUsed), fat.T(), chain, fat.lastUsed)
      ensures !fat.disk.failed && err == FAT_ERR_NONE ==> chain == old(chain) + [clust]
      ensures !fat.disk.failed && err == FAT_ERR_FULL ==>
                chain == old(chain) && clust == old(clust) && NoneFree(fat.T(), clust, fat.lastUsed)
    {
      hide Fat.Valid, Fat.Image, Fat.Synced, Table, OnlyTables, OnChain, Grown, Stretched, NoneFree, Took, KindOf,
        Wrapped, Backed;
      ghost var t0, ch0, img0, u0 := fat.T(), chain, fat.Image(), fat.lastUsed;
      TookNothing(t0, ch0, u0);
      fat.StretchTells(clust);
      var next;
      err, next := fat.StretchChain(clust);
      if err != 0 {
        if !fat.disk.failed {
          StillThere(t, ch, img, t0, img0);
        }
        return;
      }
      BackedNext(fat.geo, t0, ch0, u0, next);
      chain := chain + [next];
      StillGrown(t, ch, img, t0, ch0, img0, next);
      TookOne(t0, ch0, u0, next);
      clust := next;
    }

    /** One step along the chain, which is stretched when it ends here. */
    method FollowChain(ghost at: nat, ghost t: seq<nat>, ghost ch: seq<nat>, ghost img: Image) returns (err: int)
      requires Chained() && at < |chain| && clust == chain[at]
      requires IsChain(t, ch) && GrownFrom(t, ch, img)
      requires Backed(fat.geo, fat.T(), chain, fat.lastUsed, at + 2)
      modifies this`clust, this`chain
      modifies fat`buf, fat`sect, fat`bufDirty, fat`infoDirty, fat`freeCnt, fat`lastUsed, fat.disk
      ensures |fat.disk.sectors| == old(|fat.disk.sectors|)
      ensures fat.disk.failed ==> err != 0
      ensures !fat.disk.failed ==> Chained() && GrownFrom(t, ch, img) && (err == FAT_ERR_NONE || err == FAT_ERR_FULL)
      ensures !fat.disk.failed ==> Took(old(fat.T()), old(chain), old(fat.lastUsed), fat.T(), chain, fat.lastUsed)
      ensures !fat.disk.failed && err == FAT_ERR_NONE ==>
                && at + 1 < |chain| && clust == chain[at + 1]
                && (at + 1 < |old(chain)| ==> chain == old(chain))
                && (at + 1 >= |old(chain)| ==> |chain| == at + 2)
      ensures !fat.disk.failed && err == FAT_ERR_FULL ==>
                && at + 1 == |chain| && chain == old(chain) && clust == old(clust)
                && NoneFree(fat.T(), clust, fat.lastUsed)
    {
      hide Fat.Valid, Fat.Image, Fat.Synced, Table, OnlyTables, OnChain, Grown, NoneFree, Took, KindOf, Backed,
        InVolume, Geometry.WellFormed, File.Chained, File.GrownFrom;
      TookNothing(fat.T(), chain, fat.lastUsed);
      var next, kind;
      err, next, kind := ReadLink(at, t, ch, img);
      if err != 0 {
        return;
      }
      if kind.Bad? || kind.Free? {
        return FAT_ERR_BROKEN;
      }
      if kind.Last? {
        err := StretchHere(t, ch, img);
        return;
      }
      clust := next;
    }

    /** The chain walk of `fat_file_seek`: `steps` clusters on. */
    method WalkChain(ghost at: nat, steps: nat) returns (err: int)
      requires Chained() && at < |chain| && clust == chain[at]
      requires Backed(fat.geo, fat.T(), chain, fat.lastUsed, at + steps + 1)
      modifies this`clust, this`chain
      modifies fat`buf, fat`sect, fat`bufDirty, fat`infoDirty, fat`freeCnt, fat`lastUsed, fat.disk
      ensures |fat.disk.sectors| == old(|fat.disk.sectors|)
      ensures fat.disk.failed ==> err != 0
      ensures !fat.disk.failed ==> Chained() && GrownFrom(old(fat.T()), old(chain), old(fat.Image()))
      ensures !fat.disk.failed ==> (err == FAT_ERR_NONE || err == FAT_ERR_FULL) && |old(chain)| <= |chain|
      ensures !fat.disk.failed ==> Took(old(fat.T()), old(chain), old(fat.lastUsed), fat.T(), chain, fat.lastUsed)
      ensures !fat.disk.failed && err == FAT_ERR_NONE ==> at + steps < |chain| && clust == chain[at + steps]
      ensures !fat.disk.failed && err == FAT_ERR_NONE && at + steps < |old(chain)| ==> chain == old(chain)
      ensures !fat.disk.failed && err == FAT_ERR_NONE && at + steps >= |old(chain)| ==> |chain| == at + steps + 1
      ensures !fat.disk.failed && err == FAT_ERR_FULL ==>
                && |chain| <= at + steps && clust == chain[|chain| - 1]
                && NoneFree(fat.T(), clust, fat.lastUsed)
      ensures steps == 0 ==> err == FAT_ERR_NONE && !fat.disk.failed && fat.sect == old(fat.sect)
    {
      hide Fat.Valid, Fat.Image, Table, OnChain, NoneFree, Took, Backed, File.Chained, File.GrownFrom;
      ghost var t, ch, img, u := fat.T(), chain, fat.Image(), fat.lastUsed;
      TookNothing(t, ch, u);
      StartsGrown();
      for i := 0 to steps
        invariant |fat.disk.sectors| == old(|fat.disk.sectors|)
        invariant Chained() && GrownFrom(t, ch, img)
        invariant at + i < |chain| && clust == chain[at + i]
        invariant |ch| <= |chain| && Took(t, ch, u, fat.T(), chain, fat.lastUsed)
        invariant at + i < |ch| ==> chain == ch
        invariant at + i >= |ch| ==> |chain| == at + i + 1
        invariant i == 0 ==> fat.sect == old(fat.sect)
      {
        ghost var t1, ch1, u1 := fat.T(), chain, fat.lastUsed;
        BackedOn(fat.geo, t, ch, u, t1, ch1, u1, at + i + 2, at + steps + 1);
        err := FollowChain(at + i, t, ch, img);
        if !fat.disk.failed {
          TookTwice(t, ch, u, t1, ch1, u1, fat.T(), chain, fat.lastUsed);
        }
        if err != 0 {
          return;
        }
      }
      return FAT_ERR_NONE;
    }

    lemma StartsGrown()
      requires Chained()
      ensures GrownFrom(fat.T(), chain, fat.Image())
    {
    }

    /** `GrownFrom`, spelled out. */
    lemma GrownSays(t: seq<nat>, ch: seq<nat>, img: Image)
      requires Chained() && GrownFrom(t, ch, img)
      ensures |fat.Image()| == |img| && Grown(t, ch, fat.T(), chain)
      ensures forall s :: fat.geo.dataSect <= s < |img| ==> fat.Image()[s] == img[s]
    {
    }

    /** Data sectors that are not the file's hold what they held in `img`. */
    ghost predicate OthersKept(img: Image)
      requires Chained()
      reads this`chain, fat, fat.disk
    {
      && |fat.Image()| == |img|
      && forall s :: fat.geo.dataSect <= s < |img| && !OnChain(fat.geo, chain, s) ==> fat.Image()[s] == img[s]
    }

    /** `OthersKept`, spelled out. */
    lemma OthersKeptOn(img: Image)
      requires Chained() && OthersKept(img)
      ensures |fat.Image()| == |img|
      ensures forall s :: fat.geo.dataSect <= s < |img| && !OnChain(fat.geo, chain, s) ==> fat.Image()[s] == img[s]
    {
    }

    lemma UnchangedOthersKept()
      requires Chained()
      ensures OthersKept(fat.Image())
    {
    }

    lemma OthersKeptSince(img1: Image, img: Image)
      requires Chained() && OthersKept(img1) && |img| == |img1|
      requires forall s :: fat.geo.dataSect <= s < |img| ==> img1[s] == img[s]
      ensures OthersKept(img)
    {
    }

    lemma OthersKeptTrans(t: seq<nat>, ch: seq<nat>, img1: Image, img: Image)
      requires Chained() && OthersKept(img1) && Grown(t, ch, fat.T(), chain) && |img| == |img1|
      requires InVolume(fat.geo, ch)
      requires forall s :: fat.geo.dataSect <= s < |img| && !OnChain(fat.geo, ch, s) ==> img1[s] == img[s]
      ensures OthersKept(img)
    {
      hide Fat.Valid, Fat.Image, Table, OnChain;
      forall s | fat.geo.dataSect <= s < |img| && !OnChain(fat.geo, chain, s)
        ensures fat.Image()[s] == img[s]
      {
        if OnChain(fat.geo, ch, s) {
          OnChainGrows(fat.geo, ch, chain, s);
        }
      }
    }

    /** Updates the file buffer, which held sector `ssect`, when the cursor is in another one. */
    method SwapBuffer(ssect: nat) returns (err: int)
      requires Chained() && Has(offset) && sect == SectorOf(fat.geo, chain, offset / 512)
      requires ssect == NO_SECT ==> !dirty
      requires ssect != NO_SECT ==>
                 && OnChain(fat.geo, chain, ssect) && fat.geo.dataSect <= ssect < |fat.disk.sectors|
                 && (dirty || buf == fat.Image()[ssect])
      modifies this`buf, this`dirty, fat.disk
      ensures |fat.disk.sectors| == old(|fat.disk.sectors|)
      ensures err == if fat.disk.failed then FAT_ERR_IO else FAT_ERR_NONE
      ensures err == 0 ==> Chained() && Buffered() && sect != NO_SECT && fat.T() == old(fat.T())
      ensures err == 0 ==> OthersKept(old(fat.Image()))
      ensures err == 0 ==> Bytes() == ChainBytes(fat.geo, old(fat.Image()), chain, ssect, old(buf))
    {
      hide Fat.Valid, Fat.Image, Table, OnChain, ChainBytes, IsChain, Readable, SectorOf, Quot;
      ghost var img, buf0 := fat.Image(), buf;
      SectorOnChain(fat.geo, |fat.disk.sectors|, chain, offset / 512);
      if sect != ssect {
        if dirty {
          var ok := fat.DeviceWrite(buf, ssect);
          if !ok {
            return FAT_ERR_IO;
          }
          dirty := false;
        }
        var ok, data := fat.DeviceRead(sect);
        if !ok {
          return FAT_ERR_IO;
        }
        buf := data;
        TableFrame(fat.geo, img, fat.Image());
        assert fat.Image()[sect] == data;
        BufferMoved(fat.geo, img, chain, ssect, buf0, fat.Image(), sect, buf);
      }
      return FAT_ERR_NONE;
    }

    /**
     The end of `fat_file_seek`: the cursor moves to byte `off`, and the buffer
     follows it, written back first when it has to be.
     */
    method MoveTo(off: nat, ssect: nat) returns (err: int)
      requires Chained() && Has(off) && clust == chain[Quot(off / 512, Spc())]
      requires off < UINT32 && size < UINT32 && (size > 0 ==> Has(size - 1))
      requires ssect == NO_SECT ==> !dirty
      requires ssect != NO_SECT ==>
                 && OnChain(fat.geo, chain, ssect) && fat.geo.dataSect <= ssect < |fat.disk.sectors|
                 && (dirty || buf == fat.Image()[ssect])
      modifies this`sect, this`offset, this`buf, this`dirty, fat.disk
      ensures |fat.disk.sectors| == old(|fat.disk.sectors|)
      ensures err == if fat.disk.failed then FAT_ERR_IO else FAT_ERR_NONE
      ensures err == 0 ==> Valid() && Loaded() && offset == off && fat.T() == old(fat.T())
      ensures err == 0 ==> OthersKept(old(fat.Image()))
      ensures err == 0 ==> Bytes() == ChainBytes(fat.geo, old(fat.Image()), chain, ssect, old(buf))
    {
      hide Fat.Valid, Fat.Image, Table, OnChain, IsChain, File.Chained, File.Buffered, File.OthersKept, ChainBytes,
        SectorData;
      sect := fat.geo.FirstSector(clust) + Rem(off / 512, fat.geo.SectorsPerCluster());
      offset := off;
      err := SwapBuffer(ssect);
    }

    /** Growth keeps what the sectors of the earlier chain hold. */
    lemma DataKept(t: seq<nat>, ch: seq<nat>, img: Image, sect: nat, buf: Sector)
      requires Chained() && GrownFrom(t, ch, img) && fat.geo.WellFormed(|img|)
      ensures ch <= chain && InVolume(fat.geo, ch)
      ensures ChainBytes(fat.geo, img, ch, sect, buf) <= ChainBytes(fat.geo, fat.Image(), chain, sect, buf)
    {
      hide Fat.Valid, Fat.Image, Table, OnChain;
      assert forall i :: 0 <= i < |ch| ==> ch[i] == chain[i];
      forall k: nat | Quot(k, Spc()) < |ch|
        ensures SectorData(fat.geo, fat.Image(), chain, k, sect, buf) == SectorData(fat.geo, img, ch, k, sect, buf)
      {
        SectorOnChain(fat.geo, |img|, chain, k);
        assert ch[Quot(k, Spc())] == chain[Quot(k, Spc())];
      }
      ChainBytesPrefix(fat.geo, img, ch, sect, buf, fat.Image(), chain, sect, buf);
    }

    /** The sector in the buffer before a seek is still one of the chain, and still coherent. */
    lemma BufferKept(t: seq<nat>, ch: seq<nat>, img: Image, k: nat, ssect: nat)
      requires Chained() && GrownFrom(t, ch, img) && fat.geo.WellFormed(|img|)
      requires InVolume(fat.geo, ch) && Quot(k, Spc()) < |ch| && ssect == SectorOf(fat.geo, ch, k) < |img|
      ensures OnChain(fat.geo, chain, ssect) && fat.geo.dataSect <= ssect < |fat.disk.sectors|
      ensures Quot(k, Spc()) < |chain| && ssect == SectorOf(fat.geo, chain, k)
      ensures fat.Image()[ssect] == img[ssect]
    {
      hide Fat.Valid, Fat.Image, Table, OnChain;
      assert ch[Quot(k, Spc())] == chain[Quot(k, Spc())];
      SectorOnChain(fat.geo, |img|, chain, k);
    }

    /** The cluster pointer is right exactly when it points to the cursor's cluster. */
    lemma ValidIff()
      requires Chained() && Buffered() && Has(offset) && clust == chain[|chain| - 1]
      requires size > 0 ==> Has(size - 1)
      requires size < UINT32 && offset < UINT32
      ensures Valid() <==> Quot(offset / 512, Spc()) == |chain| - 1
    {
      ChainAcyclic(fat.T(), chain);
    }

    /** The cursor, which was at sector `k` of a chain that has been stretched until the volume was full. */
    lemma FullAtOnce(t: seq<nat>, ch: seq<nat>, u: nat, k: nat)
      requires Chained() && IsChain(t, ch) && Took(t, ch, u, fat.T(), chain, fat.lastUsed)
      requires NoneFree(fat.T(), chain[|chain| - 1], fat.lastUsed) && Quot(k, Spc()) < |ch|
      ensures Quot(k, Spc()) == |chain| - 1 <==> Quot(k, Spc()) == |ch| - 1 && NoneFree(t, ch[|ch| - 1], u)
    {
      hide NoneFree, Took, Fat.Valid, Fat.T;
      TookFacts(t, ch, u, fat.T(), chain, fat.lastUsed);
      if |chain| == |ch| {
        SamePrefix(ch, chain);
      }
    }

    /** The first half of `fat_file_seek`: walk to the cluster of byte `off`, from the beginning when it lies behind. */
    method SeekCluster(off: nat) returns (err: int)
      requires Valid() && Backed(fat.geo, fat.T(), chain, fat.lastUsed, Quot(off / 512, Spc()) + 1)
      modifies this`clust, this`chain, this`sect, this`offset
      modifies fat`buf, fat`sect, fat`bufDirty, fat`infoDirty, fat`freeCnt, fat`lastUsed, fat.disk
      ensures |fat.disk.sectors| == old(|fat.disk.sectors|)
      ensures fat.disk.failed ==> err != 0
      ensures !fat.disk.failed ==> Chained() && GrownFrom(old(fat.T()), old(chain), old(fat.Image()))
      ensures !fat.disk.failed ==> err == FAT_ERR_NONE || err == FAT_ERR_FULL
      ensures !fat.disk.failed ==> Took(old(fat.T()), old(chain), old(fat.lastUsed), fat.T(), chain, fat.lastUsed)
      ensures !fat.disk.failed && err == FAT_ERR_NONE ==> Has(off) && clust == chain[Quot(off / 512, Spc())]
      ensures !fat.disk.failed && err == FAT_ERR_FULL ==>
                && sect == old(sect) && offset == old(offset)
                && |chain| <= Quot(off / 512, Spc())
                && clust == chain[|chain| - 1] && NoneFree(fat.T(), clust, fat.lastUsed)
    {
      hide Fat.Valid, Fat.Image, Table, OnChain, NoneFree, Took, Backed, File.Chained, File.GrownFrom, File.Buffered;
      var clustSize := 512 * fat.geo.SectorsPerCluster();
      var dstClust := Quot(off, clustSize);
      var srcClust := Quot(offset, clustSize);
      QuotOfSector(off, fat.geo.SectorsPerCluster());
      QuotOfSector(offset, fat.geo.SectorsPerCluster());
      if dstClust < srcClust {
        // Backtracking is not possible: start from the beginning.
        clust := sclust;
        sect := fat.geo.FirstSector(sclust);
        offset := 0;
        srcClust := 0;
      }
      err := WalkChain(srcClust, dstClust - srcClust);
    }

    /** A seek to byte `off`. */
    method SeekTo(off: nat) returns (err: int)
      requires Valid() && off < UINT32 && Backs(off)
      modifies this`clust, this`chain, this`sect, this`offset, this`buf, this`dirty
      modifies fat`buf, fat`sect, fat`bufDirty, fat`infoDirty, fat`freeCnt, fat`lastUsed, fat.disk
      ensures |fat.disk.sectors| == old(|fat.disk.sectors|)
      ensures fat.disk.failed ==> err != 0
      ensures !fat.disk.failed ==> err == FAT_ERR_NONE || err == FAT_ERR_FULL
      ensures !fat.disk.failed ==> Chained() && old(Bytes()) <= Bytes()
      ensures !fat.disk.failed ==> Grown(old(fat.T()), old(chain), fat.T(), chain) && |old(chain)| <= |chain|
      ensures !fat.disk.failed ==> OthersKept(old(fat.Image()))
      ensures !fat.disk.failed ==> Took(old(fat.T()), old(chain), old(fat.lastUsed), fat.T(), chain, fat.lastUsed)
      ensures !fat.disk.failed ==>
                (err == FAT_ERR_NONE <==>
                  RoomFor(old(fat.T()), old(chain), old(fat.lastUsed), Quot(off / 512, Spc()) + 1))
      ensures !fat.disk.failed && err == FAT_ERR_NONE ==> Valid() && Loaded() && offset == off
      ensures !fat.disk.failed && err == FAT_ERR_FULL ==>
                && offset == old(offset) && sect == old(sect) && buf == old(buf) && dirty == old(dirty)
                && clust == chain[|chain| - 1] && |chain| <= Quot(off / 512, Spc())
                && NoneFree(fat.T(), clust, fat.lastUsed)
                && (Valid() <==> Quot(offset / 512, Spc()) == |chain| - 1)
      ensures !fat.disk.failed && err == FAT_ERR_FULL ==>
                (Valid() <==>
                  && Quot(old(offset) / 512, Spc()) == |old(chain)| - 1
                  && NoneFree(old(fat.T()), old(chain)[|old(chain)| - 1], old(fat.lastUsed)))
    {
      hide Fat.Valid, Fat.Image, Table, OnChain, NoneFree, File.Chained, ChainBytes, Grown, IsChain, InVolume,
        Geometry.WellFormed, Geometry.IsCluster, SectorOf, SectorData, Backed, Fat.T, File.OthersKept, Took, RoomFor,
        Quot, Rem, File.GrownFrom;
      StartsGrown();
      UnchangedOthersKept();
      ghost var t0, ch0, img0, k0, u0 := fat.T(), chain, fat.Image(), offset / 512, fat.lastUsed;
      TookNothing(t0, ch0, u0);
      var ssect := sect;
      err := SeekCluster(off);
      if !fat.disk.failed {
        GrownSays(t0, ch0, img0);
        RoomTold(t0, ch0, u0, fat.T(), chain, fat.lastUsed, Quot(off / 512, Spc()) + 1);
        DataKept(t0, ch0, img0, ssect, buf);
        if ssect != NO_SECT {
          BufferKept(t0, ch0, img0, k0, ssect);
        }
        if err != 0 {
          ValidIff();
          FullAtOnce(t0, ch0, u0, k0);
          UnchangedOthersKept();
          OthersKeptSince(fat.Image(), img0);
        }
      }
      if err != 0 {
        return;
      }
      ghost var img1 := fat.Image();
      err := MoveTo(off, ssect);
      if err == 0 {
        OthersKeptSince(img1, img0);
      }
    }

    /** Where a seek aims. */
    function Goal(delta: int, whence: Whence): int
      reads this`offset, this`size
    {
      delta + match whence
              case SeekStart => 0
              case SeekCurr => offset
              case SeekEnd => size
    }

    /**
     Moves the cursor, stretching the chain when it ends before the goal. No byte
     of the chain changes. When the volume fills up on the way the cursor stays
     where it was, but the handle has already walked to the end of the chain: it is
     usable afterwards exactly when the cursor was in the last cluster before and
     the volume was full at once.
     */
    method Seek(delta: int, whence: Whence) returns (err: int)
      requires Valid()
      requires 0 <= Goal(delta, whence) < UINT32 ==> Backs(Goal(delta, whence))
      modifies this`clust, this`chain, this`sect, this`offset, this`buf, this`dirty
      modifies fat`buf, fat`sect, fat`bufDirty, fat`infoDirty, fat`freeCnt, fat`lastUsed, fat.disk
      ensures |fat.disk.sectors| == old(|fat.disk.sectors|)
      ensures fat.disk.failed ==> err != 0
      ensures !(0 <= old(Goal(delta, whence)) < UINT32) ==>
                err == FAT_ERR_EOF && unchanged(this) && unchanged(fat) && unchanged(fat.disk)
      ensures 0 <= old(Goal(delta, whence)) < UINT32 && !fat.disk.failed ==> err == FAT_ERR_NONE || err == FAT_ERR_FULL
      ensures !fat.disk.failed ==> Chained() && old(Bytes()) <= Bytes()
      ensures !fat.disk.failed ==> Grown(old(fat.T()), old(chain), fat.T(), chain) && |old(chain)| <= |chain|
      ensures !fat.disk.failed ==> OthersKept(old(fat.Image()))
      ensures !fat.disk.failed ==> Took(old(fat.T()), old(chain), old(fat.lastUsed), fat.T(), chain, fat.lastUsed)
      ensures 0 <= old(Goal(delta, whence)) < UINT32 && !fat.disk.failed ==>
                (err == FAT_ERR_NONE <==>
                  RoomFor(old(fat.T()), old(chain), old(fat.lastUsed), Quot(old(Goal(delta, whence)) / 512, Spc()) + 1))
      ensures !fat.disk.failed && err == FAT_ERR_NONE ==>
                Valid() && Loaded() && offset == old(Goal(delta, whence))
      ensures old(Goal(delta, whence)) ==
              delta + (if whence.SeekStart? then 0 else if whence.SeekCurr? then old(offset) else old(size))
      ensures !fat.disk.failed && err == FAT_ERR_FULL ==>
                && offset == old(offset) && sect == old(sect) && buf == old(buf) && dirty == old(dirty)
                && clust == chain[|chain| - 1] && |chain| <= Quot(old(Goal(delta, whence)) / 512, Spc())
                && NoneFree(fat.T(), clust, fat.lastUsed)
                && (Valid() <==> Quot(offset / 512, Spc()) == |chain| - 1)
      ensures !fat.disk.failed && err == FAT_ERR_FULL ==>
                (Valid() <==>
                  && Quot(old(offset) / 512, Spc()) == |old(chain)| - 1
                  && NoneFree(old(fat.T()), old(chain)[|old(chain)| - 1], old(fat.lastUsed)))
    {
      hide Fat.Valid, Fat.Image, Fat.T, Table, OnChain, NoneFree, Took, RoomFor, Grown, IsChain, File.Valid,
        File.Chained, File.Buffered, File.Bytes, File.OthersKept, File.BackedTo;
      UnchangedOthersKept();
      TookNothing(fat.T(), chain, fat.lastUsed);
      GrownRefl(fat.T(), chain);
      var off64 := Goal(delta, whence);
      if off64 < 0 || off64 > 0xffff_ffff {
        return FAT_ERR_EOF;
      }
      err := SeekTo(off64);
    }

    // ------------------------------------------------ reading and writing

    /** Bytes of the buffer land where the cursor is and nowhere else. */
    method FillBuffer(part: seq<Byte>)
      requires Valid() && Loaded() && offset % 512 + |part| <= 512
      modifies this`buf, this`dirty
      ensures Valid() && dirty && offset <= |old(Bytes())|
      ensures Bytes() == Overlaid(old(Bytes()), offset, part)
    {
      hide Fat.Valid, Fat.Image, Table, OnChain, ChainBytes, Overlaid;
      var idx := offset % 512;
      ghost var buf0 := buf;
      buf := buf[..idx] + part + buf[idx + |part|..];
      dirty := true;
      ChainAcyclic(fat.T(), chain);
      BufferOverlaid(fat.geo, fat.Image(), chain, offset, buf0, part);
    }

    /** A step within the sector size that meets a full volume leaves the handle in order. */
    lemma ShortStepStuck(goal: nat)
      requires Has(offset) && offset <= goal <= offset + 512
      requires |chain| <= Quot(goal / 512, Spc())
      ensures Quot(offset / 512, Spc()) == |chain| - 1
    {
      QuotStep(offset / 512, goal / 512, Spc());
    }

    /** One turn of the write loop: fill the buffer up to `part` and step on. */
    method PutPart(part: seq<Byte>) returns (err: int)
      requires Valid() && Loaded() && 0 < |part| && offset % 512 + |part| <= 512 && Backs(offset + |part|)
      modifies this`clust, this`chain, this`sect, this`offset, this`buf, this`dirty
      modifies fat`buf, fat`sect, fat`bufDirty, fat`infoDirty, fat`freeCnt, fat`lastUsed, fat.disk
      ensures fat.disk.failed ==> err != 0
      ensures !fat.disk.failed ==> Valid() && Loaded() && Grown(old(fat.T()), old(chain), fat.T(), chain)
      ensures old(offset) <= |old(Bytes())|
      ensures !fat.disk.failed ==> Took(old(fat.T()), old(chain), old(fat.lastUsed), fat.T(), chain, fat.lastUsed)
      ensures !fat.disk.failed ==> Overlaid(old(Bytes()), old(offset), part) <= Bytes() && OthersKept(old(fat.Image()))
      ensures !fat.disk.failed && err == 0 ==> offset == old(offset) + |part|
      ensures !fat.disk.failed && err != 0 ==> offset == old(offset) && Stuck(offset + |part|)
    {
      hide Fat.Valid, Fat.Image, Table, OnChain, NoneFree, Took, RoomFor, Grown, IsChain, File.Chained, File.Buffered,
        File.Bytes, File.OthersKept, Overlaid, File.BackedTo;
      FillBuffer(part);
      err := Seek(|part|, SeekCurr);
      if !fat.disk.failed && err == FAT_ERR_FULL {
        ShortStepStuck(offset + |part|);
      }
    }

    /**
     Why a write stops short of `goal`: the volume is full behind the last cluster of the
     file, or the offset would overflow.
     */
    ghost predicate Stuck(goal: nat)
      requires Chained()
      reads this`chain, this`clust, this`offset, fat, fat.disk
    {
      || (Quot(offset / 512, Spc()) == |chain| - 1 && clust == chain[|chain| - 1] && |chain| <= Quot(goal / 512, Spc())
          && NoneFree(fat.T(), clust, fat.lastUsed))
      || goal >= UINT32
    }

    /**
     Writes `data` at the cursor. The bytes from the cursor on are replaced by the
     first `bytes` of `data` and no others change. The cursor comes to the end of a
     piece exactly when there was room for it, and the size is what reaches up to
     the cursor. When a seek got stuck the last piece is in the buffer but counted
     in `bytes` only, and `err` hides that.
     */
    method Write(data: seq<Byte>) returns (err: int, bytes: nat)
      requires Valid() && Loaded() && Backs(offset + |data|)
      modifies this, fat, fat.disk
      ensures !canWrite ==>
                err == FAT_ERR_DENIED && bytes == 0 && unchanged(this) && unchanged(fat) && unchanged(fat.disk)
      ensures canWrite ==> err == FAT_ERR_NONE && bytes <= |data| && old(offset) <= |old(Bytes())|
      ensures canWrite && !fat.disk.failed ==> Valid() && Loaded() && modified && accessed
      ensures canWrite && !fat.disk.failed ==>
                && Grown(old(fat.T()), old(chain), fat.T(), chain)
                && Took(old(fat.T()), old(chain), old(fat.lastUsed), fat.T(), chain, fat.lastUsed)
      ensures canWrite && !fat.disk.failed ==>
                Overlaid(old(Bytes()), old(offset), data[..bytes]) <= Bytes() && OthersKept(old(fat.Image()))
      ensures canWrite && !fat.disk.failed ==>
                forall b: nat :: PieceEnd(old(offset), |data|, b) ==>
                  (b <= offset <==>
                    b < UINT32 && RoomFor(old(fat.T()), old(chain), old(fat.lastUsed), Quot(b / 512, Spc()) + 1))
      ensures canWrite && !fat.disk.failed ==> offset == old(offset) || PieceEnd(old(offset), |data|, offset)
      ensures canWrite && !fat.disk.failed ==>
                forall b: nat :: PieceEnd(old(offset), |data|, b) && b > offset ==> b >= old(offset) + bytes
      ensures canWrite && !fat.disk.failed ==> size == Max(old(size), offset)
      ensures canWrite && !fat.disk.failed ==> old(offset) <= offset <= old(offset) + bytes
      ensures canWrite && !fat.disk.failed && offset == old(offset) + bytes ==> bytes == |data|
      ensures canWrite && !fat.disk.failed && offset != old(offset) + bytes ==> Stuck(old(offset) + bytes)
    {
      hide Fat.Valid, Fat.Image, Fat.T, Table, OnChain, NoneFree, Took, RoomFor, Grown, IsChain, Overlaid, File.Valid,
        File.Stuck, File.Chained, File.Buffered, File.Bytes, File.OthersKept, File.BackedTo;
      bytes := 0;
      if !canWrite {
        return FAT_ERR_DENIED, 0;
      }
      bytes := WriteParts(data);
      EndWrite();
      return FAT_ERR_NONE, bytes;
    }

    /** The marks a write leaves on the handle. */
    method EndWrite()
      modifies this`size, this`modified, this`accessed
      ensures size == Max(old(size), offset) && modified && accessed
      ensures old(Valid()) ==> Valid()
    {
      hide Fat.Valid, Fat.Image, Table, OnChain, File.Chained, File.Buffered, SectorOf;
      if old(Valid()) && offset > size {
        QuotMonotone((offset - 1) / 512, offset / 512, Spc());
      }
      modified, accessed := true, true;
      if offset > size {
        size := offset;
      }
    }

    /**
     Since the table, the chain and the bytes were those given, the first `done`
     bytes of `data` have been written from byte `at` on.
     */
    ghost predicate Wrote(t: seq<nat>, ch: seq<nat>, u: nat, img: Image, b: seq<Byte>, at: nat, data: seq<Byte>,
                          done: nat)
      reads this`chain, this`clust, this`sect, this`buf, this`dirty, this`offset, this`size, fat, fat.disk
      requires at <= |b| && done <= |data|
      ensures Wrote(t, ch, u, img, b, at, data, done) ==> Valid() && Loaded()
    {
      && Valid() && Loaded()
      && Grown(t, ch, fat.T(), chain) && Took(t, ch, u, fat.T(), chain, fat.lastUsed)
      && Overlaid(b, at, data[..done]) <= Bytes() && OthersKept(img)
    }

    lemma WroteNothing(data: seq<Byte>)
      requires Valid() && Loaded()
      ensures offset < |Bytes()|
      ensures Wrote(fat.T(), chain, fat.lastUsed, fat.Image(), Bytes(), offset, data, 0)
    {
      hide Fat.Valid, Fat.Image, Fat.T, Table, OnChain, NoneFree, Took, Grown, IsChain, File.Valid, File.Chained,
        File.Buffered, File.Bytes, File.OthersKept;
      TookNothing(fat.T(), chain, fat.lastUsed);
      GrownRefl(fat.T(), chain);
      UnchangedOthersKept();
      OffsetInside();
    }

    /** `Wrote`, spelled out. */
    lemma WroteSays(t: seq<nat>, ch: seq<nat>, u: nat, img: Image, b: seq<Byte>, at: nat, data: seq<Byte>, done: nat)
      requires at <= |b| && done <= |data| && Wrote(t, ch, u, img, b, at, data, done)
      ensures Grown(t, ch, fat.T(), chain) && Took(t, ch, u, fat.T(), chain, fat.lastUsed)
      ensures Overlaid(b, at, data[..done]) <= Bytes() && OthersKept(img)
    {
    }

    /** One piece more; `t1` and so on are from before it. */
    lemma WroteNext(t: seq<nat>, ch: seq<nat>, u: nat, img: Image, b: seq<Byte>, at: nat, data: seq<Byte>, done: nat,
        cnt: nat, t1: seq<nat>, ch1: seq<nat>, u1: nat, img1: Image, b1: seq<Byte>)
      requires at <= |b| && done + cnt <= |data| && at + done <= |b1| && IsChain(t, ch) && InVolume(fat.geo, ch1)
      requires Grown(t, ch, t1, ch1) && Took(t, ch, u, t1, ch1, u1) && Overlaid(b, at, data[..done]) <= b1
      requires |img| == |img1|
      requires forall s :: fat.geo.dataSect <= s < |img| && !OnChain(fat.geo, ch1, s) ==> img1[s] == img[s]
      requires Valid() && Loaded() && Grown(t1, ch1, fat.T(), chain) && Took(t1, ch1, u1, fat.T(), chain, fat.lastUsed)
      requires Overlaid(b1, at + done, data[done..done + cnt]) <= Bytes() && OthersKept(img1)
      ensures Wrote(t, ch, u, img, b, at, data, done + cnt)
    {
      hide Fat.Valid, Fat.Image, Fat.T, Table, OnChain, NoneFree, Took, Grown, IsChain, Overlaid, InVolume, File.Valid,
        File.Chained, File.Buffered, File.Bytes, File.OthersKept;
      GrownTrans(t, ch, t1, ch1, fat.T(), chain);
      TookTwice(t, ch, u, t1, ch1, u1, fat.T(), chain, fat.lastUsed);
      OthersKeptTrans(t1, ch1, img1, img);
      OverlaidNext(b, at, data, done, cnt, b1, Bytes());
    }

    /** One turn of the write loop, in terms of its beginning. */
    method PutNext(data: seq<Byte>, done: nat, ghost t: seq<nat>, ghost ch: seq<nat>, ghost u: nat, ghost img: Image,
        ghost b: seq<Byte>, ghost at: nat)
      returns (err: int, bytes: nat)
      requires at <= |b| && done < |data| && offset == at + done && IsChain(t, ch)
      requires Wrote(t, ch, u, img, b, at, data, done) && BackedTo(t, ch, u, at + |data|)
      modifies this`clust, this`chain, this`sect, this`offset, this`buf, this`dirty
      modifies fat`buf, fat`sect, fat`bufDirty, fat`infoDirty, fat`freeCnt, fat`lastUsed, fat.disk
      ensures done < bytes <= |data|
      ensures fat.disk.failed ==> err != 0
      ensures !fat.disk.failed ==> Wrote(t, ch, u, img, b, at, data, bytes)
      ensures PieceEnd(at, |data|, at + bytes)
      ensures forall e: nat :: PieceEnd(at, |data|, e) && e > at + done ==> e >= at + bytes
      ensures !fat.disk.failed && err == 0 ==> offset == at + bytes
      ensures !fat.disk.failed && err != 0 ==> offset == at + done && Stuck(at + bytes)
    {
      hide Fat.Valid, Fat.Image, Fat.T, Table, OnChain, NoneFree, Took, RoomFor, Grown, IsChain, Overlaid, File.Valid,
        File.Stuck, File.Chained, File.Buffered, File.Bytes, File.OthersKept, File.Wrote, PieceEnd, File.BackedTo;
      var cnt := Min(|data| - done, 512 - offset % 512);
      ghost var t1, ch1, b1, img1, u1 := fat.T(), chain, Bytes(), fat.Image(), fat.lastUsed;
      WroteSays(t, ch, u, img, b, at, data, done);
      OthersKeptOn(img);
      NextPieceEnd(at, |data|, done, cnt);
      bytes := done + cnt;
      BacksStill(t, ch, u, at + bytes, at + |data|);
      err := PutPart(data[done..bytes]);
      if !fat.disk.failed {
        WroteNext(t, ch, u, img, b, at, data, done, cnt, t1, ch1, u1, img1, b1);
      }
    }

    /** The loop of `fat_file_write`. */
    method WriteParts(data: seq<Byte>) returns (bytes: nat)
      requires Valid() && Loaded() && Backs(offset + |data|)
      modifies this`clust, this`chain, this`sect, this`offset, this`buf, this`dirty
      modifies fat`buf, fat`sect, fat`bufDirty, fat`infoDirty, fat`freeCnt, fat`lastUsed, fat.disk
      ensures bytes <= |data| && old(offset) <= |old(Bytes())|
      ensures !fat.disk.failed ==> Valid() && Loaded() && Grown(old(fat.T()), old(chain), fat.T(), chain)
      ensures !fat.disk.failed ==> Took(old(fat.T()), old(chain), old(fat.lastUsed), fat.T(), chain, fat.lastUsed)
      ensures !fat.disk.failed ==>
                Overlaid(old(Bytes()), old(offset), data[..bytes]) <= Bytes() && OthersKept(old(fat.Image()))
      ensures !fat.disk.failed ==>
                forall b: nat :: PieceEnd(old(offset), |data|, b) ==>
                  (b <= offset <==>
                    b < UINT32 && RoomFor(old(fat.T()), old(chain), old(fat.lastUsed), Quot(b / 512, Spc()) + 1))
      ensures !fat.disk.failed ==> offset == old(offset) || PieceEnd(old(offset), |data|, offset)
      ensures !fat.disk.failed ==>
                forall b: nat :: PieceEnd(old(offset), |data|, b) && b > offset ==> b >= old(offset) + bytes
      ensures !fat.disk.failed ==> old(offset) <= offset <= old(offset) + bytes
      ensures !fat.disk.failed && offset == old(offset) + bytes ==> bytes == |data|
      ensures !fat.disk.failed && offset != old(offset) + bytes ==> Stuck(old(offset) + bytes)
    {
      hide Fat.Valid, Fat.Image, Fat.T, Table, OnChain, NoneFree, Took, RoomFor, Grown, IsChain, Overlaid, File.Valid,
        File.Stuck, File.Chained, File.Buffered, File.Bytes, File.OthersKept, File.Wrote, PieceEnd, File.BackedTo;
      bytes := 0;
      ghost var t0, ch0, b0, at, img0, u0 := fat.T(), chain, Bytes(), offset, fat.Image(), fat.lastUsed;
      WroteNothing(data);
      while bytes < |data|
        invariant bytes <= |data| && !fat.disk.failed && offset == at + bytes
        invariant Wrote(t0, ch0, u0, img0, b0, at, data, bytes)
        invariant offset == at || PieceEnd(at, |data|, offset)
      {
        var e;
        e, bytes := PutNext(data, bytes, t0, ch0, u0, img0, b0, at);
        if e != 0 {
          break;
        }
      }
      if !fat.disk.failed {
        WroteSays(t0, ch0, u0, img0, b0, at, data, bytes);
        AllTold(t0, ch0, u0, at, |data|, at + bytes);
      }
    }

    /** A write has come to the end of a piece exactly when there was room for it. */
    lemma WriteTold(t: seq<nat>, ch: seq<nat>, u: nat, reached: nat, b: nat)
      requires Valid() && IsChain(t, ch) && Grown(t, ch, fat.T(), chain) && Took(t, ch, u, fat.T(), chain, fat.lastUsed)
      requires b <= offset || (reached <= b && Stuck(reached))
      requires offset <= reached
      requires offset < b ==> offset < reached
      ensures b <= offset <==> b < UINT32 && RoomFor(t, ch, u, Quot(b / 512, Spc()) + 1)
    {
      hide Fat.Valid, Fat.Image, Fat.T, Table, OnChain, NoneFree, Took, RoomFor, Grown, IsChain, File.Chained,
        File.Buffered;
      RoomTold(t, ch, u, fat.T(), chain, fat.lastUsed, Quot(b / 512, Spc()) + 1);
      if b <= offset {
        QuotMonotone(b / 512, offset / 512, Spc());
      } else {
        QuotMonotone(reached / 512, b / 512, Spc());
      }
    }

    lemma AllTold(t: seq<nat>, ch: seq<nat>, u: nat, at: nat, n: nat, reached: nat)
      requires Valid() && IsChain(t, ch) && Grown(t, ch, fat.T(), chain) && Took(t, ch, u, fat.T(), chain, fat.lastUsed)
      requires offset != at + n ==>
                 && offset < reached && Stuck(reached)
                 && forall b: nat :: PieceEnd(at, n, b) && b > offset ==> b >= reached
      ensures forall b: nat :: PieceEnd(at, n, b) ==>
                (b <= offset <==> b < UINT32 && RoomFor(t, ch, u, Quot(b / 512, Spc()) + 1))
    {
      hide Fat.Valid, Fat.Image, Fat.T, Table, OnChain, NoneFree, Took, RoomFor, Grown, IsChain, File.Valid,
        File.Chained, File.Buffered, File.Stuck;
      forall b: nat | PieceEnd(at, n, b)
        ensures b <= offset <==> b < UINT32 && RoomFor(t, ch, u, Quot(b / 512, Spc()) + 1)
      {
        WriteTold(t, ch, u, if offset == at + n then offset else reached, b);
      }
    }

    lemma OffsetInside()
      requires Valid()
      ensures offset < |Bytes()|
    {
      hide Fat.Valid, Fat.Image, Table, OnChain, File.Chained, File.Buffered, SectorOf, SectorData;
    }

    /** What is in the buffer from the cursor on. */
    lemma BufferPiece(n: nat)
      requires Valid() && Loaded() && offset % 512 + n <= 512
      ensures offset + n <= |Bytes()| && buf[offset % 512..offset % 512 + n] == Bytes()[offset..offset + n]
    {
      hide Fat.Valid, Fat.Image, Fat.T, Table, OnChain, IsChain, ChainBytes;
      ChainPiece(fat.geo, fat.Image(), chain, offset, buf, n);
    }

    /** A seek to a byte below the size never stretches the chain. */
    lemma BelowSize(goal: nat)
      requires Valid() && goal < size
      ensures Quot(goal / 512, Spc()) < |chain|
    {
      QuotMonotone(goal / 512, (size - 1) / 512, Spc());
    }

    /** Since the table and the chain were those given the chain has only been stretched. */
    ghost predicate StretchedFrom(t: seq<nat>, ch: seq<nat>, u: nat)
      reads this`chain, fat, fat.disk
      requires fat.Valid()
    {
      Grown(t, ch, fat.T(), chain) && Took(t, ch, u, fat.T(), chain, fat.lastUsed)
    }

    lemma NotStretched()
      requires Valid()
      ensures StretchedFrom(fat.T(), chain, fat.lastUsed) && IsChain(fat.T(), chain)
    {
      TookNothing(fat.T(), chain, fat.lastUsed);
      GrownRefl(fat.T(), chain);
    }

    /** A read has come to the size exactly when there was room for the cursor there. */
    lemma ReadTold(t: seq<nat>, ch: seq<nat>, u: nat)
      requires Valid() && IsChain(t, ch) && StretchedFrom(t, ch, u)
      requires offset == size || (offset < size && Stuck(size))
      ensures Grown(t, ch, fat.T(), chain)
      ensures offset == size <==> RoomFor(t, ch, u, Quot(size / 512, Spc()) + 1)
    {
      hide Fat.Valid, Fat.Image, Fat.T, Table, OnChain, NoneFree, Took, RoomFor, Grown, IsChain, File.Chained,
        File.Buffered, File.Stuck;
      WriteTold(t, ch, u, size, size);
    }

    /** One turn of the read loop. */
    method TakePart(cnt: nat, ghost t: seq<nat>, ghost ch: seq<nat>, ghost u: nat) returns (err: int, part: seq<Byte>)
      requires Valid() && Loaded() && 0 < cnt <= 512 - offset % 512 && offset + cnt <= size
      requires IsChain(t, ch) && StretchedFrom(t, ch, u) && BackedTo(t, ch, u, size)
      modifies this`clust, this`chain, this`sect, this`offset, this`buf, this`dirty
      modifies fat`buf, fat`sect, fat`bufDirty, fat`infoDirty, fat`freeCnt, fat`lastUsed, fat.disk
      ensures old(offset) + cnt <= |old(Bytes())| && part == old(Bytes())[old(offset)..old(offset) + cnt]
      ensures fat.disk.failed ==> err != 0
      ensures !fat.disk.failed ==> Valid() && Loaded() && old(Bytes()) <= Bytes() && StretchedFrom(t, ch, u)
      ensures !fat.disk.failed && err == 0 ==> offset == old(offset) + cnt
      ensures !fat.disk.failed && err != 0 ==>
                err == FAT_ERR_FULL && old(offset) + cnt == size && offset == old(offset) && Stuck(size)
    {
      hide Fat.Valid, Fat.Image, Fat.T, Table, OnChain, NoneFree, Took, RoomFor, Grown, IsChain, File.Chained,
        File.Buffered, File.Bytes, File.BackedTo, File.OthersKept, Quot;
      ghost var t1, ch1, u1 := fat.T(), chain, fat.lastUsed;
      BufferPiece(cnt);
      if offset + cnt < size {
        BelowSize(offset + cnt);
      }
      part := buf[offset % 512..offset % 512 + cnt];
      BacksStill(t, ch, u, offset + cnt, size);
      err := Seek(cnt, SeekCurr);
      if !fat.disk.failed {
        GrownTrans(t, ch, t1, ch1, fat.T(), chain);
        TookTwice(t, ch, u, t1, ch1, u1, fat.T(), chain, fat.lastUsed);
      }
      if !fat.disk.failed && err == FAT_ERR_FULL {
        ShortStepStuck(offset + cnt);
      }
    }

    /**
     Reads up to `len` bytes from the cursor. The data are the file's own, all of
     them up to the size, whatever `err` says; no byte changes. The read fails
     exactly when it comes to the size and there is no room for a cluster to put the
     cursor in.
     */
    method Read(len: nat) returns (err: int, data: seq<Byte>)
      requires Valid() && Loaded() && Backs(size)
      modifies this`clust, this`chain, this`sect, this`offset, this`buf, this`dirty, this`accessed
      modifies fat`buf, fat`sect, fat`bufDirty, fat`infoDirty, fat`freeCnt, fat`lastUsed, fat.disk
      ensures !canRead ==>
                err == FAT_ERR_DENIED && data == [] && unchanged(this) && unchanged(fat) && unchanged(fat.disk)
      ensures canRead && fat.disk.failed ==> err != 0
      ensures canRead && !fat.disk.failed ==> Valid() && Loaded() && old(Bytes()) <= Bytes()
      ensures canRead && !fat.disk.failed && old(offset) >= size ==> data == [] && err == 0
      ensures canRead && !fat.disk.failed && old(offset) < size ==>
                data == old(Contents())[old(offset)..Min(old(offset) + len, size)]
      ensures canRead && !fat.disk.failed && err == 0 ==> offset == old(offset) + |data|
      ensures canRead && !fat.disk.failed && err != 0 ==>
                err == FAT_ERR_FULL && old(offset) + |data| == size && Stuck(size)
      ensures canRead && !fat.disk.failed && old(offset) < size <= old(offset) + len ==>
                (err == FAT_ERR_NONE <==>
                  RoomFor(old(fat.T()), old(chain), old(fat.lastUsed), Quot(size / 512, Spc()) + 1))
    {
      hide Fat.Valid, Fat.Image, Fat.T, Table, OnChain, NoneFree, Took, RoomFor, Grown, IsChain, TakenFrom,
        File.Valid, File.Stuck, File.Chained, File.Buffered, File.Bytes, File.OthersKept, File.StretchedFrom,
        File.BackedTo;
      err, data := FAT_ERR_NONE, [];
      if !canRead {
        return FAT_ERR_DENIED, [];
      }
      BelowHas();
      OffsetInside();
      ghost var b0, at, t0, ch0, u0 := Bytes(), offset, fat.T(), chain, fat.lastUsed;
      TakenNothing(b0, at);
      NotStretched();
      accessed := true;
      while |data| < len && offset < size
        invariant |data| <= len && !fat.disk.failed && err == FAT_ERR_NONE
        invariant Valid() && Loaded() && b0 <= Bytes() && StretchedFrom(t0, ch0, u0)
        invariant offset == at + |data| && (data == [] || offset <= size)
        invariant at + |data| <= |b0| && TakenFrom(b0, at, data)
      {
        var cnt := Min(len - |data|, Min(512 - offset % 512, size - offset));
        ghost var b1 := Bytes();
        var e, part := TakePart(cnt, t0, ch0, u0);
        PiecesJoin(b0, b1, at, data, part);
        data := data + part;
        if e != 0 {
          err := e;
          break;
        }
      }
      if at < size {
        TakenWithin(b0, at, data, size);
        if at + |data| == size && !fat.disk.failed {
          ReadTold(t0, ch0, u0);
        }
      }
    }

    // ------------------------------------------- seeking and writing

    lemma StretchedOn(t: seq<nat>, ch: seq<nat>, u: nat, t1: seq<nat>, ch1: seq<nat>, u1: nat)
      requires Chained() && IsChain(t, ch) && Grown(t, ch, t1, ch1) && Took(t, ch, u, t1, ch1, u1)
      requires Grown(t1, ch1, fat.T(), chain) && Took(t1, ch1, u1, fat.T(), chain, fat.lastUsed)
      ensures StretchedFrom(t, ch, u)
    {
      GrownTrans(t, ch, t1, ch1, fat.T(), chain);
      TookTwice(t, ch, u, t1, ch1, u1, fat.T(), chain, fat.lastUsed);
    }

    lemma StretchedSays(t: seq<nat>, ch: seq<nat>, u: nat)
      requires fat.Valid() && StretchedFrom(t, ch, u)
      ensures Grown(t, ch, fat.T(), chain) && Took(t, ch, u, fat.T(), chain, fat.lastUsed)
    {
    }

    /** A seek to `at`, on the way to `goal`, has found the volume full: there was no room for `goal` either. */
    lemma NoRoomBehind(t: seq<nat>, ch: seq<nat>, u: nat, at: nat, goal: nat)
      requires Chained() && IsChain(t, ch) && StretchedFrom(t, ch, u) && at <= goal
      requires |chain| <= Quot(at / 512, Spc()) && NoneFree(fat.T(), chain[|chain| - 1], fat.lastUsed)
      ensures !RoomFor(t, ch, u, Quot(goal / 512, Spc()) + 1)
    {
      hide Fat.Valid, Fat.Image, Fat.T, Table, OnChain, NoneFree, Took, RoomFor, Grown, IsChain;
      QuotMonotone(at / 512, goal / 512, Spc());
      RoomTold(t, ch, u, fat.T(), chain, fat.lastUsed, Quot(goal / 512, Spc()) + 1);
    }

    /** The cursor has come to `goal`. */
    lemma RoomThere(t: seq<nat>, ch: seq<nat>, u: nat)
      requires Valid() && IsChain(t, ch) && StretchedFrom(t, ch, u)
      ensures offset < UINT32 && RoomFor(t, ch, u, Quot(offset / 512, Spc()) + 1)
    {
      hide Fat.Valid, Fat.Image, Fat.T, Table, OnChain, NoneFree, Took, RoomFor, Grown, IsChain, File.Chained,
        File.Buffered;
      RoomTold(t, ch, u, fat.T(), chain, fat.lastUsed, Quot(offset / 512, Spc()) + 1);
    }

    /**
     Seeks to byte `at` and writes `data` there; `ok` is what a caller finds out by
     looking at the cursor. `mid` are the bytes of the chain between the two.
     */
    method PutAt(at: nat, data: seq<Byte>, ghost t: seq<nat>, ghost ch: seq<nat>, ghost u: nat, ghost img: Image)
      returns (ok: bool, ghost mid: seq<Byte>)
      requires Valid() && canWrite && IsChain(t, ch) && StretchedFrom(t, ch, u) && OthersKept(img)
      requires BackedTo(t, ch, u, at + |data|)
      modifies this, fat, fat.disk
      ensures !fat.disk.failed ==>
                (ok <==>
                  && at + |data| < UINT32
                  && RoomFor(t, ch, u, Quot((at + |data|) / 512, Spc()) + 1))
      ensures !fat.disk.failed && ok ==>
                && Valid() && Loaded() && StretchedFrom(t, ch, u) && OthersKept(img)
                && old(Bytes()) <= mid && at <= |mid| && Overlaid(mid, at, data) <= Bytes()
                && size == Max(old(size), at + |data|)
    {
      hide Fat.Valid, Fat.Image, Fat.T, Table, OnChain, NoneFree, Took, RoomFor, Grown, IsChain, Overlaid, PieceEnd,
        File.Valid, File.Stuck, File.Chained, File.Buffered, File.Bytes, File.OthersKept, File.StretchedFrom,
        File.BackedTo;
      mid := [];
      ok := false;
      StretchedSays(t, ch, u);
      OthersKeptOn(img);
      ghost var t0, ch0, u0, img0 := fat.T(), chain, fat.lastUsed, fat.Image();
      BacksStill(t, ch, u, at, at + |data|);
      var err := Seek(at, SeekStart);
      if err != 0 {
        if !fat.disk.failed && at < UINT32 {
          StretchedOn(t, ch, u, t0, ch0, u0);
          NoRoomBehind(t, ch, u, at, at + |data|);
        }
        return;
      }
      mid := Bytes();
      OffsetInside();
      StretchedOn(t, ch, u, t0, ch0, u0);
      StretchedSays(t, ch, u);
      ghost var t1, ch1, u1, img1 := fat.T(), chain, fat.lastUsed, fat.Image();
      OthersKeptTrans(t0, ch0, img0, img);
      OthersKeptOn(img);
      BacksStill(t, ch, u, at + |data|, at + |data|);
      var bytes;
      err, bytes := Write(data);
      ok := offset == at + |data|;
      if !fat.disk.failed {
        StretchedOn(t, ch, u, t1, ch1, u1);
        OthersKeptTrans(t1, ch1, img1, img);
        WroteAll(data, at, bytes, mid);
        PutTold(t, ch, u, at, data, bytes);
      }
    }

    lemma WroteAll(data: seq<Byte>, at: nat, bytes: nat, mid: seq<Byte>)
      requires Valid() && bytes <= |data| && at <= |mid| && Overlaid(mid, at, data[..bytes]) <= Bytes()
      requires offset == at + bytes ==> bytes == |data|
      requires at <= offset <= at + bytes
      ensures offset == at + |data| ==> Overlaid(mid, at, data) <= Bytes()
    {
      hide Fat.Valid, Fat.Image, Fat.T, Table, OnChain, Overlaid, File.Valid, File.Chained, File.Buffered, File.Bytes;
      if offset == at + |data| {
        assert data[..bytes] == data;
      }
    }

    lemma PutTold(t: seq<nat>, ch: seq<nat>, u: nat, at: nat, data: seq<Byte>, bytes: nat)
      requires Valid() && IsChain(t, ch) && StretchedFrom(t, ch, u) && bytes <= |data|
      requires at <= offset <= at + bytes
      requires offset == at + bytes ==> bytes == |data|
      requires offset != at + bytes ==> Stuck(at + bytes)
      ensures offset == at + |data| <==>
              at + |data| < UINT32 && RoomFor(t, ch, u, Quot((at + |data|) / 512, Spc()) + 1)
    {
      hide Fat.Valid, Fat.Image, Fat.T, Table, OnChain, NoneFree, Took, RoomFor, Grown, IsChain, File.Valid,
        File.Chained, File.Buffered, File.Stuck;
      if offset == at + |data| {
        RoomThere(t, ch, u);
      } else {
        WriteTold(t, ch, u, at + bytes, at + |data|);
      }
    }

    // ------------------------------------------------------------- sync

    /** The directory entry lies in a sector that is neither the file's nor allocation data. */
    ghost predicate EntryPlaced()
      reads this`chain, fat, fat.disk
    {
      && fat.geo.dataSect <= dirSect < |fat.disk.sectors| && dirIdx + 32 <= 512
      && InVolume(fat.geo, chain) && !OnChain(fat.geo, chain, dirSect)
    }

    /** The buffer is written to the sector under the cursor, dirty or not. */
    method FlushBuffer() returns (err: int)
      requires Valid() && Loaded()
      modifies fat.disk
      ensures |fat.disk.sectors| == old(|fat.disk.sectors|)
      ensures err == if fat.disk.failed then FAT_ERR_IO else FAT_ERR_NONE
      ensures err == 0 ==> Valid() && fat.T() == old(fat.T()) && Bytes() == old(Bytes())
      ensures err == 0 ==> sect < |fat.disk.sectors| && fat.Image() == old(fat.Image())[sect := buf]
    {
      hide Fat.Valid, Fat.Image, Table, OnChain, ChainBytes;
      ghost var img := fat.Image();
      SectorOnChain(fat.geo, |fat.disk.sectors|, chain, offset / 512);
      var ok := fat.DeviceWrite(buf, sect);
      if !ok {
        return FAT_ERR_IO;
      }
      TableFrame(fat.geo, img, fat.Image());
      BufferMoved(fat.geo, img, chain, sect, buf, fat.Image(), sect, buf);
      return FAT_ERR_NONE;
    }

    /** The entry is neither in the sector under the cursor nor in FSInfo. */
    lemma EntryApart()
      requires Valid() && Loaded() && EntryPlaced()
      ensures dirSect != sect && dirSect != fat.geo.infoSect
    {
      hide Fat.Valid, Fat.Image, Table, OnChain, ChainBytes;
      SectorOnChain(fat.geo, |fat.disk.sectors|, chain, offset / 512);
    }

    /** The directory entry takes the size and the times. */
    method StampEntry(date: nat, time: nat) returns (err: int)
      requires Valid() && Loaded() && EntryPlaced()
      requires date < 0x1_0000 && time < 0x1_0000
      requires sect < |fat.disk.sectors|
      modifies fat`buf, fat`sect, fat`bufDirty, fat.disk
      ensures |fat.disk.sectors| == old(|fat.disk.sectors|)
      ensures err == if fat.disk.failed then FAT_ERR_IO else FAT_ERR_NONE
      ensures err == 0 ==> Valid() && fat.T() == old(fat.T()) && Bytes() == old(Bytes())
      ensures err == 0 ==> sect < |fat.disk.sectors| && fat.Image()[sect] == old(fat.Image()[sect])
      ensures dirSect < |old(fat.Image())|
      ensures err == 0 ==> fat.Image() == old(fat.Image())[dirSect := fat.Image()[dirSect]]
      ensures err == 0 ==>
                EntrySynced(old(fat.Image())[dirSect], fat.Image()[dirSect], dirIdx, accessed, modified, size, date,
                            time)
    {
      hide Fat.Valid, Fat.Image, Table, OnChain, ChainBytes, Stamped, EntrySynced;
      ghost var img := fat.Image();
      StampedTells(img[dirSect], dirIdx, accessed, modified, size, date, time);
      err := fat.UpdateBuf(dirSect);
      if err != 0 {
        return;
      }
      fat.EditBuf(Stamped(fat.buf, dirIdx, accessed, modified, size, date, time));
      TableFrame(fat.geo, img, fat.Image());
      ChainBytesFrame(fat.geo, img, fat.Image(), chain, sect, buf);
      SectorOnChain(fat.geo, |fat.disk.sectors|, chain, offset / 512);
    }

    /** `sync_fs`, when the buffer has been flushed. */
    method SyncVolume() returns (err: int)
      requires Valid() && Loaded() && sect < |fat.disk.sectors| && fat.Image()[sect] == buf
      modifies fat`buf, fat`sect, fat`bufDirty, fat`infoDirty, fat.disk
      ensures |fat.disk.sectors| == old(|fat.disk.sectors|)
      ensures err == if fat.disk.failed then FAT_ERR_IO else FAT_ERR_NONE
      ensures err == 0 ==> Valid() && fat.T() == old(fat.T()) && fat.disk.sectors == fat.Image()
      ensures err == 0 ==> forall s :: 0 <= s < |fat.disk.sectors| && s != fat.geo.infoSect ==>
                fat.Image()[s] == old(fat.Image())[s]
      ensures err == 0 ==> ChainBytes(fat.geo, fat.disk.sectors, chain, NO_SECT, buf) == Bytes() == old(Bytes())
    {
      hide Fat.Valid, Fat.Image, Table, OnChain, ChainBytes, WithInfo;
      ghost var img := fat.Image();
      SectorOnChain(fat.geo, |fat.disk.sectors|, chain, offset / 512);
      fat.CounterBounds();
      WithInfoKeepsTable(fat.geo, img, fat.lastUsed, fat.freeCnt);
      err := fat.SyncFs();
      if err == 0 {
        BeforeDataOffChain(fat.geo, |img|, chain, fat.geo.infoSect);
        ChainBytesFrame(fat.geo, img, fat.Image(), chain, sect, buf);
        BufferMoved(fat.geo, fat.Image(), chain, NO_SECT, buf, fat.Image(), sect, buf);
      }
    }

    /**
     Writes back what the handle holds: afterwards the device itself, with no
     buffer in between, has the bytes of the file, and the directory entry of a
     modified file has its size.
     */
    method Sync(date: nat, time: nat) returns (err: int)
      requires Valid() && Loaded() && EntryPlaced()
      requires date < 0x1_0000 && time < 0x1_0000
      modifies this`accessed, this`modified
      modifies fat`buf, fat`sect, fat`bufDirty, fat`infoDirty, fat.disk
      ensures |fat.disk.sectors| == old(|fat.disk.sectors|)
      ensures err == if fat.disk.failed then FAT_ERR_IO else FAT_ERR_NONE
      ensures err == 0 ==> Valid() && fat.T() == old(fat.T()) && !accessed && !modified
      ensures err == 0 ==> fat.disk.sectors == fat.Image()
      ensures err == 0 ==> ChainBytes(fat.geo, fat.disk.sectors, chain, NO_SECT, buf) == Bytes() == old(Bytes())
      ensures dirSect < |old(fat.Image())| == |fat.disk.sectors|
      ensures err == 0 ==>
                EntrySynced(old(fat.Image())[dirSect], fat.disk.sectors[dirSect], dirIdx, old(accessed), old(modified),
                            size, date, time)
    {
      hide Fat.Valid, Fat.Image, Fat.T, Table, OnChain, ChainBytes, File.Valid, File.Chained, File.Buffered,
        File.Bytes, EntrySynced;
      ghost var before := fat.Image()[dirSect];
      Unsynced(before, dirIdx, size, date, time);
      EntryApart();
      err := FlushBuffer();
      if err != 0 {
        return;
      }
      assert fat.Image()[dirSect] == before;
      if accessed || modified {
        err := StampEntry(date, time);
        if err != 0 {
          return;
        }
      }
      err := SyncVolume();
      if err != 0 {
        return;
      }
      accessed, modified := false, false;
    }
  }

  /**
   What a completed write makes of the contents. Written at or before the end it
   overlays them; written behind the end it leaves a gap of bytes the chain
   happened to hold.
   */
  lemma ContentsAfterWrite(b: seq<Byte>, size: nat, at: nat, d: seq<Byte>, b': seq<Byte>, size': nat)
    requires size <= |b| && at <= |b| && Overlaid(b, at, d) <= b' && size' == Max(size, at + |d|)
    ensures size' <= |b'|
    ensures at <= size ==> b'[..size'] == Overlaid(b[..size], at, d)
    ensures at > size ==> b'[..size'] == b[..at] + d
    ensures b'[..size'][at..at + |d|] == d
    ensures Min(at, size) <= size' && b'[..size'][..Min(at, size)] == b[..size][..Min(at, size)]
  {
    var c := Overlaid(b, at, d);
    assert b'[..size'] == c[..size'];
    if at <= size {
      assert c[..size'] == Overlaid(b[..size], at, d);
    } else {
      assert c[..size'] == b[..at] + d;
    }
  }

  /** Any part of the contents can be sought and read, whatever the handle did before. */
  method ReadAt(f: File, at: nat, len: nat) returns (err: int, back: seq<Byte>)
    requires f.Valid() && f.canRead && at + len <= f.size && f.Backs(f.size)
    modifies f, f.fat, f.fat.disk
    ensures f.fat.disk.failed ==> err != 0
    ensures !f.fat.disk.failed && 0 < len ==> f.Valid() && back == old(f.Contents())[at..at + len]
    ensures !f.fat.disk.failed && 0 < len ==> f.Contents() == old(f.Contents())
  {
    hide Fat.Valid, Fat.Image, Fat.T, Table, OnChain, NoneFree, Grown, IsChain, File.Stuck, File.Chained,
      File.Buffered, File.Bytes, Took, File.StretchedFrom, File.BackedTo;
    back := [];
    f.BelowHas();
    if len > 0 {
      f.BelowSize(at);
    }
    ghost var b0, size, t, ch, u := f.Bytes(), f.size, f.fat.T(), f.chain, f.fat.lastUsed;
    f.NotStretched();
    f.StretchedSays(t, ch, u);
    f.BacksStill(t, ch, u, at, size);
    err := f.Seek(at, SeekStart);
    if err != 0 {
      return;
    }
    f.BacksStill(t, ch, u, size, size);
    ghost var b1 := f.Bytes();
    f.BelowHas();
    assert b1[..size] == b0[..size];
    err, back := f.Read(len);
    if !f.fat.disk.failed {
      f.BelowHas();
      assert f.Bytes()[..size] == b0[..size];
    }
  }

  // ------------------------------------------------- runs of writes

  /** A seek to byte `at` and a write of `data`. */
  datatype Put = Put(at: nat, data: seq<Byte>) {
    function End(): nat {
      at + |data|
    }

    predicate Covers(o: nat) {
      at <= o < End()
    }
  }

  predicate Covered(puts: seq<Put>, o: nat) {
    exists k :: 0 <= k < |puts| && puts[k].Covers(o)
  }

  /** What the last of the writes that cover byte `o` has put there, or `b` when none does. */
  function LastPut(puts: seq<Put>, o: nat, b: Byte): Byte {
    if puts == [] then b
    else
      var p := puts[|puts| - 1];
      if p.Covers(o) then p.data[o - p.at] else LastPut(puts[..|puts| - 1], o, b)
  }

  /** The size of a file of `size` bytes after the writes. */
  function Extent(size: nat, puts: seq<Put>): nat {
    if puts == [] then size else Max(Extent(size, puts[..|puts| - 1]), puts[|puts| - 1].End())
  }

  /**
   From `b0` to `b` the bytes have been written: each holds what the last write that
   covers it has put there, and its old value when there is no such write.
   */
  ghost predicate Rewritten(b0: seq<Byte>, puts: seq<Put>, b: seq<Byte>) {
    && |b0| <= |b|
    && forall o: nat :: o < |b| && (o < |b0| || Covered(puts, o)) ==>
         b[o] == LastPut(puts, o, if o < |b0| then b0[o] else 0)
  }

  lemma RewrittenNothing(b: seq<Byte>)
    ensures Rewritten(b, [], b)
  {
  }

  lemma CoveredLast(puts: seq<Put>, p: Put, o: nat)
    ensures Covered(puts + [p], o) <==> Covered(puts, o) || p.Covers(o)
  {
    if Covered(puts, o) {
      var k :| 0 <= k < |puts| && puts[k].Covers(o);
      assert (puts + [p])[k].Covers(o);
    }
    if p.Covers(o) {
      assert (puts + [p])[|puts|].Covers(o);
    }
  }

  /** One write more. */
  lemma RewrittenNext(b0: seq<Byte>, puts: seq<Put>, b: seq<Byte>, p: Put, mid: seq<Byte>, b': seq<Byte>)
    requires Rewritten(b0, puts, b) && b <= mid && p.at <= |mid| && Overlaid(mid, p.at, p.data) <= b'
    requires forall o: nat :: Covered(puts, o) ==> o < |b|
    ensures Rewritten(b0, puts + [p], b')
    ensures forall o: nat :: Covered(puts + [p], o) ==> o < |b'|
  {
    assert (puts + [p])[..|puts|] == puts;
    var r := Overlaid(mid, p.at, p.data);
    forall o: nat
      ensures Covered(puts + [p], o) <==> Covered(puts, o) || p.Covers(o)
    {
      CoveredLast(puts, p, o);
    }
    forall o: nat | o < |b'| && (o < |b0| || Covered(puts + [p], o))
      ensures b'[o] == LastPut(puts + [p], o, if o < |b0| then b0[o] else 0)
    {
      assert o < |r| && b'[o] == r[o];
      if !p.Covers(o) {
        assert r[o] == mid[o] == b[o];
      }
    }
  }

  /** There is room for all the writes. */
  ghost predicate RoomForAll(g: Geometry, t: seq<nat>, ch: seq<nat>, u: nat, puts: seq<Put>)
    requires IsChain(t, ch)
  {
    forall k :: 0 <= k < |puts| ==> RoomForPut(g, t, ch, u, puts[k])
  }

  ghost predicate RoomForPut(g: Geometry, t: seq<nat>, ch: seq<nat>, u: nat, p: Put)
    requires IsChain(t, ch)
  {
    p.End() < UINT32 && RoomFor(t, ch, u, Quot(p.End() / 512, g.SectorsPerCluster()) + 1)
  }

  /**
   Main result: any sequence of seeks and writes through one handle succeeds if and
   only if there was room for each of them at the beginning. Then every byte of the
   file holds what was written to it last, or what it held before, and no other data
   on the volume has changed.
   */
  method PutAll(f: File, puts: seq<Put>) returns (ok: bool)
    requires f.Valid() && f.canWrite && forall k :: 0 <= k < |puts| ==> f.Backs(puts[k].End())
    modifies f, f.fat, f.fat.disk
    ensures !f.fat.disk.failed ==>
              (ok <==> RoomForAll(f.fat.geo, old(f.fat.T()), old(f.chain), old(f.fat.lastUsed), puts))
    ensures !f.fat.disk.failed && ok ==>
              && f.Valid() && f.OthersKept(old(f.fat.Image()))
              && f.StretchedFrom(old(f.fat.T()), old(f.chain), old(f.fat.lastUsed))
              && f.size == Extent(old(f.size), puts) && Rewritten(old(f.Bytes()), puts, f.Bytes())
  {
    hide Fat.Valid, Fat.Image, Fat.T, Table, OnChain, NoneFree, Took, RoomFor, Grown, IsChain, Overlaid, Rewritten,
      Covered, LastPut, File.Valid, File.Stuck, File.Chained, File.Buffered, File.Bytes, File.OthersKept,
      File.StretchedFrom, File.BackedTo;
    ghost var t, ch, u, img, b0, size := f.fat.T(), f.chain, f.fat.lastUsed, f.fat.Image(), f.Bytes(), f.size;
    f.NotStretched();
    f.UnchangedOthersKept();
    RewrittenNothing(b0);
    CoveredNothing();
    assert puts[..0] == [];
    for k := 0 to |puts|
      invariant !f.fat.disk.failed && f.Valid() && f.StretchedFrom(t, ch, u) && f.OthersKept(img)
      invariant f.size == Extent(size, puts[..k]) && Rewritten(b0, puts[..k], f.Bytes())
      invariant forall o: nat :: Covered(puts[..k], o) ==> o < |f.Bytes()|
      invariant forall j :: 0 <= j < k ==> RoomForPut(f.fat.geo, t, ch, u, puts[j])
      invariant forall j :: 0 <= j < |puts| ==> f.BackedTo(t, ch, u, puts[j].End())
    {
      ghost var b := f.Bytes();
      ghost var done, mid := puts[..k], [];
      ok, mid := f.PutAt(puts[k].at, puts[k].data, t, ch, u, img);
      if f.fat.disk.failed || !ok {
        return false;
      }
      assert puts[..k + 1] == done + [puts[k]] && puts[..k + 1][..k] == done;
      RewrittenNext(b0, done, b, puts[k], mid, f.Bytes());
    }
    assert puts[..|puts|] == puts;
    ok := true;
  }

  lemma {:induction false} ExtentBacked(f: File, t: seq<nat>, ch: seq<nat>, u: nat, size: nat, puts: seq<Put>)
    requires f.BackedTo(t, ch, u, size) && forall k :: 0 <= k < |puts| ==> f.BackedTo(t, ch, u, puts[k].End())
    ensures f.BackedTo(t, ch, u, Extent(size, puts))
  {
    hide File.BackedTo;
    if puts != [] {
      ExtentBacked(f, t, ch, u, size, puts[..|puts| - 1]);
    }
  }

  /** What is read back after any sequence of writes is what was written there last. */
  method PutThenRead(f: File, puts: seq<Put>, at: nat, len: nat) returns (ok: bool, back: seq<Byte>)
    requires f.Valid() && f.canWrite && f.canRead
    requires f.Backs(f.size) && forall k :: 0 <= k < |puts| ==> f.Backs(puts[k].End())
    modifies f, f.fat, f.fat.disk
    ensures !f.fat.disk.failed ==>
              (ok <==> RoomForAll(f.fat.geo, old(f.fat.T()), old(f.chain), old(f.fat.lastUsed), puts))
    ensures !f.fat.disk.failed && ok && 0 < len && at + len <= Extent(old(f.size), puts) ==>
              && |back| == len
              && forall i: nat :: i < len && (at + i < |old(f.Bytes())| || Covered(puts, at + i)) ==>
                   back[i] == LastPut(puts, at + i, if at + i < |old(f.Bytes())| then old(f.Bytes())[at + i] else 0)
  {
    hide Fat.Valid, Fat.Image, Fat.T, Table, OnChain, NoneFree, Took, RoomFor, Grown, IsChain, Covered, LastPut, Extent,
      RoomForAll, File.Valid, File.Stuck, File.Chained, File.Buffered, File.Bytes, File.OthersKept, File.BackedTo;
    back := [];
    ghost var b0, size, t, ch, u := f.Bytes(), f.size, f.fat.T(), f.chain, f.fat.lastUsed;
    ok := PutAll(f, puts);
    if ok && !f.fat.disk.failed && at + len <= f.size {
      f.BelowHas();
      ExtentBacked(f, t, ch, u, size, puts);
      f.StretchedSays(t, ch, u);
      f.BacksStill(t, ch, u, f.size, f.size);
      var err;
      err, back := ReadAt(f, at, len);
    }
  }

  lemma CoveredNothing()
    ensures forall o: nat :: !Covered([], o)
  {
  }

  // ------------------------------------------- a write that stops short

  /** A table without a free cluster. */
  function FullTable(): (t: seq<nat>)
    ensures |t| == 128 && forall c :: 0 <= c < 128 ==> t[c] == EOC
  {
    seq(128, c => EOC)
  }

  lemma FullVolumeChain(t: seq<nat>)
    requires |t| == 128 && forall c :: 0 <= c < 128 ==> t[c] == EOC
    ensures Readable(t) && IsChain(t, [2]) && NoneFree(t, 2, 2) && InVolume(SMALL, [2])
  {
  }

  /** Two clusters are more than a chain of one has on a full volume, and it has not grown before. */
  lemma NoRoom(t: seq<nat>, t': seq<nat>, ch': seq<nat>, u': nat)
    requires IsChain(t, [2]) && NoneFree(t, 2, 2) && Took(t, [2], 2, t', ch', u')
    ensures |ch'| == 1 && !RoomFor(t', ch', u', Quot(1, 1) + 1)
  {
    TookFacts(t, [2], 2, t', ch', u');
  }

  /** An open file of one cluster, empty, on a full volume. */
  method FullFile() returns (f: File, err: int)
    ensures fresh(f) && fresh(f.fat) && fresh(f.fat.disk) && f.canWrite && f.size == 0 && f.fat.geo == SMALL
    ensures f.fat.disk.failed ==> err != 0
    ensures !f.fat.disk.failed ==> err == 0 && f.Valid() && f.Loaded() && f.offset == 0 && |f.chain| == 1
    ensures !f.fat.disk.failed ==> !RoomFor(f.fat.T(), f.chain, f.fat.lastUsed, Quot(1, 1) + 1) && f.Backs(512)
  {
    hide Fat.Image, Table, Took, RoomFor, Grown, IsChain, NoneFree, OnChain, File.Buffered, File.Chained, File.Valid,
      Geometry.WellFormed, SmallVolume, FullTable, SmallSector, Fat.Valid;
    SmallVolumeTable(FullTable());
    BeforeDataOffChain(SMALL, 129, [2], 0);
    var disk := new Disk(SmallVolume(FullTable()));
    var fat := new Fat(disk, SMALL, 2, 0);
    FullVolumeChain(fat.T());
    f := new File.Opened(fat, 3, 0, 2, 0, true, true, [2]);
    ghost var t := fat.T();
    FencedBacked(SMALL, t, [2], 2, Quot(0, 1) + 1);
    FencedBacked(SMALL, t, [2], 2, Quot(1, 1) + 1);
    err := f.Seek(0, SeekStart);
    if !fat.disk.failed {
      NoRoom(t, fat.T(), f.chain, fat.lastUsed);
      f.BacksStill(t, [2], 2, 512, 512);
    }
    assert err != 0 ==> fat.disk.failed;
  }

  /**
   A file of one cluster on a full volume takes a sector of data: the answer is
   success and 512 bytes written, and the file is as empty as before.
   */
  method ShortWrite(data: seq<Byte>) returns (f: File, err: int, bytes: nat)
    requires |data| == 512
    ensures !f.fat.disk.failed ==> err == FAT_ERR_NONE && bytes == 512 && f.Valid() && f.size == 0
  {
    hide Fat.Image, Table, Took, RoomFor, Grown, IsChain, NoneFree, File.Buffered, File.Chained, File.Valid, Overlaid,
      Geometry.WellFormed;
    f, err := FullFile();
    bytes := 0;
    if err == 0 {
      err, bytes := f.Write(data);
    }
  }
}
