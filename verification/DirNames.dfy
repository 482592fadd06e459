/**
 File names in directory entries: the 11-byte short name with its checksum, and
 the 13-character fragments of the long name.
 */
module DirNames {
  import opened FatImage
  import opened DiskLayout

  type Slot = s: seq<Byte> | |s| == 32 witness seq(32, i => 0)

  const SFN_FREE: Byte := 0xe5
  const SFN_LAST: Byte := 0x00
  const SFN_PAD: Byte := 0x20
  const ATTR_LFN: Byte := 0x0f
  const ATTR_AT := 11
  const CRC_AT := 13

  // -------------------------------------------------------- short names

  function ToUpper(c: Byte): Byte {
    if 0x61 <= c <= 0x7a then c - 0x20 else c
  }

  /** Is the character, besides capital letters, allowed in a short name? */
  predicate Special(c: Byte) {
    c in {0x21, 0x23, 0x24, 0x25, 0x26, 0x27, 0x28, 0x29, 0x2d, 0x40, 0x5e, 0x5f, 0x60, 0x7b, 0x7d, 0x7e, 0x20}
  }

  function SfnChar(c: Byte): (r: Byte)
    ensures 0x20 <= r < 0x80
  {
    var u := ToUpper(c);
    if 0x41 <= u <= 0x5a || Special(u) then u else 0x5f
  }

  /** The position of the first dot at or after `i`, or the end of the name. */
  function DotFrom(name: seq<Byte>, i: nat): (d: nat)
    requires i <= |name|
    ensures i <= d <= |name|
    ensures forall j :: i <= j < d ==> name[j] != 0x2e
    ensures d < |name| ==> name[d] == 0x2e
    decreases |name| - i
  {
    if i == |name| || name[i] == 0x2e then i else DotFrom(name, i + 1)
  }

  /** Where the extension starts: behind the first dot. */
  function ExtFrom(name: seq<Byte>): (e: nat)
    ensures e <= |name|
  {
    var dot := DotFrom(name, 0);
    if dot < |name| then dot + 1 else dot
  }

  function SfnAt(name: seq<Byte>, j: nat): (r: Byte)
    ensures 0x20 <= r < 0x80
  {
    if j < 8 then (if j < DotFrom(name, 0) then SfnChar(name[j]) else SFN_PAD)
    else if ExtFrom(name) + (j - 8) < |name| then SfnChar(name[ExtFrom(name) + (j - 8)]) else SFN_PAD
  }

  /** Eight characters from the front of the name, three from behind its first dot, padded with blanks. */
  function SfnName(name: seq<Byte>): (r: seq<Byte>)
    ensures |r| == 11
    ensures forall j :: 0 <= j < 11 ==> r[j] == SfnAt(name, j)
  {
    seq(11, j requires 0 <= j < 11 => SfnAt(name, j))
  }

  lemma SfnCharTells(c: Byte)
    ensures ShortChar(c, SfnChar(c))
  {
    assert "!#$%&'()-@^_`{}~ "
        == ['!', '#', '$', '%', '&', '\'', '(', ')', '-', '@', '^', '_', '`', '{', '}', '~', ' '];
  }

  /** The short name is the one that the layout asks for. */
  lemma SfnNameTells(name: seq<Byte>)
    ensures ShortName(name, SfnName(name))
  {
    hide ShortChar, SfnChar;
    var dot, r := DotFrom(name, 0), SfnName(name);
    forall j | 0 <= j < |name|
      ensures ShortChar(name[j], SfnChar(name[j]))
    {
      SfnCharTells(name[j]);
    }
    forall j | 0 <= j < 11
      ensures r[j] == SfnAt(name, j)
    {
    }
    assert ShortNameWith(name, dot, r);
  }

  /** A generated short name is never taken for a free entry or for the end of the directory. */
  lemma SfnNameLive(name: seq<Byte>)
    ensures forall j :: 0 <= j < 11 ==> 0x20 <= SfnName(name)[j] < 0x80
    ensures SfnName(name)[0] != SFN_FREE && SfnName(name)[0] != SFN_LAST
  {
    assert SfnName(name)[0] == SfnAt(name, 0);
  }

  /** `put_sfn_name` as the source runs it. */
  method PutSfnName(name: seq<Byte>) returns (r: seq<Byte>)
    ensures r == SfnName(name) && ShortName(name, r)
  {
    hide SfnChar, ShortName;
    SfnNameTells(name);
    r := seq(11, j => SFN_PAD);
    var i := 0;
    while i < Min(|name|, 8) && name[i] != 0x2e
      invariant 0 <= i <= DotFrom(name, 0) && i <= 8 && |r| == 11
      invariant forall k :: 0 <= k < i ==> r[k] == SfnAt(name, k)
    {
      r := r[i := SfnChar(name[i])];
      i := i + 1;
    }
    var j := i;
    while j < 8
      invariant i <= j <= 8 && |r| == 11
      invariant forall k :: 0 <= k < j ==> r[k] == SfnAt(name, k)
    {
      r := r[j := SFN_PAD];
      j := j + 1;
    }
    i := SkipDot(name, i);
    j := 0;
    while j < 3 && i < |name|
      invariant 0 <= j <= 3 && i == ExtFrom(name) + j <= |name| && |r| == 11
      invariant forall k :: 0 <= k < 8 + j ==> r[k] == SfnAt(name, k)
    {
      r := r[8 + j := SfnChar(name[i])];
      j, i := j + 1, i + 1;
    }
    while j < 3
      invariant 0 <= j <= 3 && |r| == 11 && (j < 3 ==> ExtFrom(name) + j >= |name|)
      invariant forall k :: 0 <= k < 8 + j ==> r[k] == SfnAt(name, k)
    {
      r := r[8 + j := SFN_PAD];
      j := j + 1;
    }
  }

  /** The search for the first dot, which ends behind it. */
  method SkipDot(name: seq<Byte>, from: nat) returns (i: nat)
    requires from <= DotFrom(name, 0)
    ensures i == ExtFrom(name)
  {
    i := from;
    var searching := i < |name|;
    while searching
      invariant i <= |name| && (searching ==> i <= DotFrom(name, 0) && i < |name|)
                && (!searching ==> i == ExtFrom(name))
      decreases |name| - i, searching
    {
      i := i + 1;
      searching := name[i - 1] != 0x2e && i < |name|;
    }
  }

  /** The checksum over the first `n` bytes: rotate right, add, modulo 256. */
  function Crc(name: seq<Byte>, n: nat): Byte
    requires n <= |name|
  {
    if n == 0 then 0
    else
      var sum: int := Crc(name, n - 1);
      (sum % 2 * 0x80 + sum / 2 + name[n - 1]) % 0x100
  }

  lemma Halves(s: int, m: int)
    requires 0 <= s < 0x100 && m in {2, 4, 8, 16, 32, 64}
    ensures s / m == 2 * (s / (2 * m)) + s / m % 2
  {
  }

  lemma RotatedIs(b: Byte)
    ensures var s: int := b; RotatedRight(b) == s % 2 * 0x80 + s / 2
  {
    Halves(b, 2);
    Halves(b, 4);
    Halves(b, 8);
    Halves(b, 16);
    Halves(b, 32);
    Halves(b, 64);
  }

  /** The checksum is the one that the layout asks for. */
  lemma {:induction false} CrcTells(name: seq<Byte>, n: nat)
    requires n <= |name|
    ensures Crc(name, n) == NameSum(name[..n])
  {
    hide RotatedRight;
    if n > 0 {
      CrcTells(name, n - 1);
      assert name[..n][..n - 1] == name[..n - 1];
      RotatedIs(Crc(name, n - 1));
    }
  }

  method GetCrc(name: seq<Byte>) returns (sum: Byte)
    requires |name| == 11
    ensures sum == Crc(name, 11) == NameSum(name)
  {
    hide NameSum;
    CrcTells(name, 11);
    assert name[..11] == name;
    sum := 0;
    for i := 0 to 11
      invariant sum == Crc(name, i)
    {
      var s: int := sum;
      sum := (s % 2 * 0x80 + s / 2 + name[i]) % 0x100;
    }
  }

  // ---------------------------------------------------------- fragments

  const LFN_INDICES: seq<nat> := [1, 3, 5, 7, 9, 14, 16, 18, 20, 22, 24, 28, 30]

  /** Which of the 13 characters byte `j` of an entry belongs to, or 13 for none. */
  function CharOf(j: nat): (i: nat)
    ensures i <= 13
  {
    if 1 <= j < 11 then (j - 1) / 2
    else if 14 <= j < 26 then 5 + (j - 14) / 2
    else if 28 <= j < 32 then 11 + (j - 28) / 2
    else 13
  }

  lemma CharOfIndex(i: nat)
    requires i < 13
    ensures LFN_INDICES[i] + 1 < 32
    ensures CharOf(LFN_INDICES[i]) == i && CharOf(LFN_INDICES[i] + 1) == i
  {
  }

  /** The low and the high byte stored for character `i` of a fragment. */
  function FragLow(part: seq<Byte>, i: nat): Byte {
    if i < |part| then part[i] else if i == |part| then 0x00 else 0xff
  }

  function FragHigh(part: seq<Byte>, i: nat): Byte {
    if i <= |part| then 0x00 else 0xff
  }

  /** The entry with the fragment in its name fields. */
  function WithFrag(s: Slot, part: seq<Byte>): Slot {
    seq(32, j requires 0 <= j < 32 =>
      var i := CharOf(j);
      if i == 13 then s[j] else if LFN_INDICES[i] == j then FragLow(part, i) else FragHigh(part, i))
  }

  /** `put_lfn_name_frag` as the source runs it. */
  method PutLfnNameFrag(s: Slot, part: seq<Byte>) returns (r: Slot)
    requires |part| <= 13
    ensures r == WithFrag(s, part)
  {
    r := s;
    var i := 0;
    while i < |part|
      invariant 0 <= i <= |part|
      invariant PartlyWritten(s, part, i, r)
    {
      r := WriteChar(r, s, part, i, part[i], 0x00);
      i := i + 1;
    }
    if i < 13 {
      r := WriteChar(r, s, part, i, 0x00, 0x00);
      i := i + 1;
      while i < 13
        invariant |part| < i <= 13
        invariant PartlyWritten(s, part, i, r)
      {
        r := WriteChar(r, s, part, i, 0xff, 0xff);
        i := i + 1;
      }
    }
  }

  /** The first `n` characters are in place, the rest of the entry is as it was. */
  ghost predicate PartlyWritten(s: Slot, part: seq<Byte>, n: nat, r: Slot) {
    forall j :: 0 <= j < 32 ==> r[j] == if CharOf(j) < n then WithFrag(s, part)[j] else s[j]
  }

  method WriteChar(r0: Slot, ghost s: Slot, ghost part: seq<Byte>, i: nat, lo: Byte, hi: Byte) returns (r: Slot)
    requires i < 13 && PartlyWritten(s, part, i, r0)
    requires lo == FragLow(part, i) && hi == FragHigh(part, i)
    ensures PartlyWritten(s, part, i + 1, r)
  {
    CharOfIndex(i);
    r := r0[LFN_INDICES[i] := lo][LFN_INDICES[i] + 1 := hi];
  }

  /** The stored low byte of character `i`. */
  function CharAt(s: Slot, i: nat): Byte
    requires i < 13
  {
    s[LFN_INDICES[i]]
  }

  /** The characters `parse_lfn_name` takes from an entry, from character `i` on, up to a zero or a 0xff. */
  function FragFrom(s: Slot, i: nat): (r: seq<Byte>)
    requires i <= 13
    ensures |r| <= 13 - i
    ensures forall j :: 0 <= j < |r| ==> r[j] != 0x00 && r[j] != 0xff
    decreases 13 - i
  {
    if i == 13 then []
    else
      var c := CharAt(s, i);
      if c == 0xff || c == 0x00 then [] else [c] + FragFrom(s, i + 1)
  }

  function Frag(s: Slot): (r: seq<Byte>)
    ensures |r| <= 13
  {
    FragFrom(s, 0)
  }

  /** From character `n` of the fragment on. */
  lemma {:induction false} FragSuffix(s: Slot, i: nat, n: nat)
    requires i <= 13 && n <= |FragFrom(s, i)|
    ensures i + n <= 13 && FragFrom(s, i)[n..] == FragFrom(s, i + n)
    decreases n
  {
    hide CharAt;
    if n > 0 {
      FragTurn(s, i);
      var tl := FragFrom(s, i + 1);
      assert FragFrom(s, i) == [CharAt(s, i)] + tl;
      FragSuffix(s, i + 1, n - 1);
      hide FragFrom;
      assert ([CharAt(s, i)] + tl)[n..] == tl[n - 1..];
    }
  }

  lemma FragIsFrom(s: Slot)
    ensures Frag(s) == FragFrom(s, 0)
  {
  }

  /** Character `n` ends the fragment or is its next one. */
  lemma FragTurn(s: Slot, n: nat)
    requires n < 13
    ensures var c := CharAt(s, n);
            && (c == 0x00 || c == 0xff ==> FragFrom(s, n) == [])
            && (c != 0x00 && c != 0xff ==> |FragFrom(s, n)| > 0 && FragFrom(s, n)[0] == c)
  {
  }

  /** The fragment does not end in a 0xff, which would be an error. */
  predicate FragEnds(s: Slot) {
    |Frag(s)| == 13 || CharAt(s, |Frag(s)|) == 0x00
  }

  predicate PlainName(name: seq<Byte>) {
    forall j :: 0 <= j < |name| ==> name[j] != 0x00 && name[j] != 0xff
  }

  lemma {:induction false} FragFromWritten(s: Slot, part: seq<Byte>, i: nat)
    requires i <= |part| <= 13 && PlainName(part)
    requires forall j :: 0 <= j < 13 ==> CharAt(s, j) == FragLow(part, j)
    ensures FragFrom(s, i) == part[i..]
    decreases 13 - i
  {
    if i < |part| {
      FragFromWritten(s, part, i + 1);
    }
  }

  /** What is written into an entry is what is read from it. */
  lemma FragRoundTrip(s: Slot, part: seq<Byte>)
    requires |part| <= 13 && PlainName(part)
    ensures Frag(WithFrag(s, part)) == part && FragEnds(WithFrag(s, part))
  {
    forall j | 0 <= j < 13
      ensures CharAt(WithFrag(s, part), j) == FragLow(part, j)
    {
      CharOfIndex(j);
    }
    FragFromWritten(WithFrag(s, part), part, 0);
  }

  /** Does the entry `s` give back no more of `part` than it can, and all of it only when `part` is plain? */
  predicate GivesBack(s: Slot, part: seq<Byte>) {
    && |Frag(s)| <= |part|
    && (|Frag(s)| == |part| ==> PlainName(part))
    && (0x00 !in part && FragEnds(s) ==> PlainName(part))
  }

  lemma {:induction false} FragFromShort(s: Slot, part: seq<Byte>, i: nat)
    requires i <= |part| <= 13
    requires forall j :: 0 <= j < 13 ==> CharAt(s, j) == FragLow(part, j)
    ensures var n := |FragFrom(s, i)|;
            && i + n <= |part|
            && (i + n == |part| ==> PlainName(part[i..]))
            && (i + n < |part| ==> CharAt(s, i + n) == part[i + n] && part[i + n] in {0x00, 0xff})
    decreases 13 - i
  {
    hide CharAt;
    if i < |part| && part[i] != 0x00 && part[i] != 0xff {
      FragFromShort(s, part, i + 1);
      assert part[i..] == [part[i]] + part[i + 1..];
    }
  }

  /** What an entry with any fragment written into it gives back. */
  lemma FragGivesBack(s: Slot, part: seq<Byte>)
    requires |part| <= 13
    ensures GivesBack(WithFrag(s, part), part)
  {
    var w := WithFrag(s, part);
    forall j | 0 <= j < 13
      ensures CharAt(w, j) == FragLow(part, j)
    {
      CharOfIndex(j);
    }
    FragFromShort(w, part, 0);
    assert part[0..] == part;
  }
}
