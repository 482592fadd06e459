/**
 The bytes of a FAT32 volume as the standard lays them out, with every offset and every
 mark written out. Nothing here is used to write a volume: the operations are proved to
 leave bytes that read like this.
 */
module DiskLayout {
  import opened FatImage

  /** The little-endian number in two bytes. */
  function Two(b: seq<Byte>, at: nat): nat
    requires at + 2 <= |b|
  {
    var b0: int, b1: int := b[at], b[at + 1];
    b0 + 256 * b1
  }

  /** The little-endian number in four bytes. */
  function Four(b: seq<Byte>, at: nat): nat
    requires at + 4 <= |b|
  {
    Two(b, at) + 65536 * Two(b, at + 2)
  }

  // ------------------------------------------------------------------ table

  /** Entry `c` of the table that starts at sector `first`: 28 bits of a word, 128 words to a sector. */
  function TableEntry(img: Image, first: nat, c: nat): nat
    requires first + c / 128 < |img|
  {
    Four(img[first + c / 128], c % 128 * 4) % 268435456
  }

  /** What a table of `entries` entries may hold in one: see section 4 of the FAT specification. */
  predicate MeansFree(v: nat) { v == 0 }
  predicate MeansBad(v: nat) { v == 0x0fff_fff7 }
  predicate MeansLast(v: nat) { 0x0fff_fff8 <= v <= 0x0fff_ffff }
  predicate MeansLink(v: nat, entries: nat) { 2 <= v < entries }

  // ----------------------------------------------------------------- FSInfo

  function FreeCount(info: seq<Byte>): nat
    requires |info| == 512
  {
    Four(info, 488)
  }

  function NextFree(info: seq<Byte>): nat
    requires |info| == 512
  {
    Four(info, 492)
  }

  /** Apart from the free count and the hint FSInfo is as it was. */
  predicate InfoKept(before: seq<Byte>, after: seq<Byte>)
    requires |before| == |after| == 512
  {
    before[..488] == after[..488] && before[496..] == after[496..]
  }

  // -------------------------------------------------- short directory entry

  function Attributes(e: seq<Byte>): nat requires |e| == 32 { e[11] }
  function CreationTime(e: seq<Byte>): nat requires |e| == 32 { Two(e, 14) }
  function CreationDate(e: seq<Byte>): nat requires |e| == 32 { Two(e, 16) }
  function AccessDate(e: seq<Byte>): nat requires |e| == 32 { Two(e, 18) }
  function WriteTime(e: seq<Byte>): nat requires |e| == 32 { Two(e, 22) }
  function WriteDate(e: seq<Byte>): nat requires |e| == 32 { Two(e, 24) }
  function FileSize(e: seq<Byte>): nat requires |e| == 32 { Four(e, 28) }

  function FirstCluster(e: seq<Byte>): nat
    requires |e| == 32
  {
    Two(e, 26) + 65536 * Two(e, 20)
  }

  /** A new entry: nothing reserved is set, and the file is empty and has never been touched since. */
  predicate NewEntry(e: seq<Byte>, attr: nat, clust: nat, date: nat, time: nat)
    requires |e| == 32
  {
    && Attributes(e) == attr && e[12] == 0 && e[13] == 0
    && FirstCluster(e) == clust && FileSize(e) == 0
    && CreationTime(e) == time && WriteTime(e) == time
    && CreationDate(e) == date && AccessDate(e) == date && WriteDate(e) == date
  }

  /**
   An entry before and after a sync. The name, the reserved bytes, the creation and the
   first cluster stay; the rest stays but for what the sync has to tell.
   */
  predicate SyncedEntry(e: seq<Byte>, r: seq<Byte>, accessed: bool, modified: bool, size: nat, date: nat, time: nat)
    requires |e| == |r| == 32
  {
    && r[0..11] == e[0..11] && r[12..18] == e[12..18] && r[20..22] == e[20..22] && r[26..28] == e[26..28]
    && FirstCluster(r) == FirstCluster(e)
    && (if accessed then AccessDate(r) == date else r[18..20] == e[18..20])
    && (modified ==>
          && Attributes(r) == (if Attributes(e) / 32 % 2 == 1 then Attributes(e) else Attributes(e) + 32)
          && WriteTime(r) == time && WriteDate(r) == date && FileSize(r) == size)
    && (!modified ==> r[11] == e[11] && r[22..26] == e[22..26] && r[28..32] == e[28..32])
  }

  // --------------------------------------------------- long directory entry

  /** Where character `i` of the thirteen stands. */
  function LongCharAt(i: nat): (at: nat)
    requires i < 13
    ensures at + 2 <= 32
  {
    if i < 5 then 1 + 2 * i else if i < 11 then 4 + 2 * i else 6 + 2 * i
  }

  /**
   The long entry number `order`, from 1, of a name, with these characters in it; `last`
   marks the one with the end of the name. Behind a name that does not fill it comes a
   zero, and then 0xffff.
   */
  predicate LongEntry(e: seq<Byte>, order: nat, last: bool, part: seq<Byte>, crc: nat)
    requires |e| == 32
  {
    && e[0] == order + (if last then 64 else 0)
    && e[11] == 15 && e[12] == 0 && e[13] == crc && Two(e, 26) == 0
    && forall i :: 0 <= i < 13 ==>
         Two(e, LongCharAt(i)) == if i < |part| then part[i] else if i == |part| then 0 else 65535
  }

  /** A slot that holds no entry, and the one behind which there are none. */
  predicate Unused(e: seq<Byte>) requires |e| == 32 { e[0] == 0xe5 }
  predicate EndMark(e: seq<Byte>) requires |e| == 32 { e[0] == 0 }

  // ------------------------------------------------------------- short name

  /** Every bit of a byte goes one place down, and the lowest to the top. */
  function RotatedRight(b: Byte): nat {
    b % 2 * 128 + b / 128 * 64 + b / 64 % 2 * 32 + b / 32 % 2 * 16 + b / 16 % 2 * 8 + b / 8 % 2 * 4 + b / 4 % 2 * 2
    + b / 2 % 2
  }

  /** The checksum that ties long entries to the short one: rotate right by one bit and add, byte by byte. */
  function NameSum(name: seq<Byte>): Byte {
    if name == [] then 0
    else (RotatedRight(NameSum(name[..|name| - 1])) + name[|name| - 1]) % 256
  }

  /** The character of a short name that stands for one of a long name. */
  predicate ShortChar(c: Byte, r: Byte) {
    if 'a' as int <= c <= 'z' as int then r == c - 'a' as int + 'A' as int
    else if 'A' as int <= c <= 'Z' as int || c as char in "!#$%&'()-@^_`{}~ " then r == c
    else r == '_' as int
  }

  /** The first eight characters up to the first dot and three behind it, each field padded with blanks. */
  predicate ShortName(name: seq<Byte>, r: seq<Byte>) {
    exists dot :: 0 <= dot <= |name| && ShortNameWith(name, dot, r)
  }

  predicate ShortNameWith(name: seq<Byte>, dot: nat, r: seq<Byte>)
    requires dot <= |name|
  {
    && |r| == 11
    && (forall j :: 0 <= j < dot ==> name[j] != '.' as int) && (dot < |name| ==> name[dot] == '.' as int)
    && (forall j :: 0 <= j < 8 ==> if j < dot then ShortChar(name[j], r[j]) else r[j] == ' ' as int)
    && (forall j :: 8 <= j < 11 ==>
          if dot + j - 7 < |name| then ShortChar(name[dot + j - 7], r[j]) else r[j] == ' ' as int)
  }
}
