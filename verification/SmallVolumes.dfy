/**
 Volumes small enough to write down: one sector of table, clusters of one sector,
 any contents of the table.
 */
module SmallVolumes {
  import opened FatImage
  import opened FatOffsets

  const SMALL := Geometry(0, 128, 128, 1, 2, 0, 1, 3)

  /** Byte `i` of a table sector. */
  function TableByte(t: seq<nat>, i: nat): Byte
    requires |t| == 128 && i < 512
  {
    var v := t[i / 4];
    if i % 4 == 0 then v % 0x100
    else if i % 4 == 1 then v / 0x100 % 0x100
    else if i % 4 == 2 then v / 0x1_0000 % 0x100
    else v / 0x100_0000 % 0x100
  }

  function TableSector(t: seq<nat>): (s: Sector)
    requires |t| == 128
    ensures forall i :: 0 <= i < 512 ==> s[i] == TableByte(t, i)
  {
    seq(512, i requires 0 <= i < 512 => TableByte(t, i))
  }

  lemma TableWord(t: seq<nat>, c: nat)
    requires |t| == 128 && c < 128 && t[c] < LOW28
    ensures Word(TableSector(t), 4 * c) == t[c]
  {
    assert 4 * c / 4 == c && (4 * c + 1) / 4 == c && (4 * c + 2) / 4 == c && (4 * c + 3) / 4 == c;
    Digits(t[c]);
  }

  function SmallSector(t: seq<nat>, s: nat): Sector
    requires |t| == 128
  {
    if s == 2 then TableSector(t) else ZeroSector()
  }

  /** The volume with the table `t`, otherwise zero. */
  function SmallVolume(t: seq<nat>): (img: Image)
    requires |t| == 128
    ensures |img| == 129
    ensures forall s :: 0 <= s < 129 ==> img[s] == SmallSector(t, s)
  {
    seq(129, s requires 0 <= s < 129 => SmallSector(t, s))
  }

  lemma SmallWellFormed()
    ensures SMALL.WellFormed(129)
  {
    TimesIsProduct(126, 1);
  }

  lemma SmallEntry(t: seq<nat>, c: nat)
    requires |t| == 128 && c < 128 && t[c] < LOW28
    ensures EntryIn(SmallVolume(t), 2, c) == t[c]
  {
    hide SmallVolume, TableSector, Word;
    TableWord(t, c);
  }

  lemma SmallVolumeTable(t: seq<nat>)
    requires |t| == 128 && forall c :: 0 <= c < 128 ==> t[c] < LOW28
    ensures SMALL.WellFormed(129) && Table(SMALL, SmallVolume(t)) == t
  {
    hide SmallVolume, EntryIn, Geometry.WellFormed;
    SmallWellFormed();
    var u := Table(SMALL, SmallVolume(t));
    forall c | 0 <= c < 128
      ensures u[c] == t[c]
    {
      SmallEntry(t, c);
    }
  }
}
