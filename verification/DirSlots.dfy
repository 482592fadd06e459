/**
 A directory as the sequence of its 32-byte slots: what a search finds in it, and
 what adding and removing an entry do to what every other search finds.
 */
module DirSlots {
  import opened FatImage
  import opened DiskLayout
  import opened DirNames

  const LFN_HEAD := 0x40

  predicate IsLast(s: Slot) {
    s[0] == SFN_LAST
  }

  predicate IsFree(s: Slot) {
    s[0] == SFN_LAST || s[0] == SFN_FREE
  }

  predicate IsLfn(s: Slot) {
    s[ATTR_AT] == ATTR_LFN
  }

  /** The slots are told apart as the layout says. */
  lemma SlotKinds(s: Slot)
    ensures IsLast(s) <==> EndMark(s)
    ensures IsFree(s) <==> EndMark(s) || Unused(s)
    ensures IsLfn(s) <==> Attributes(s) == 15
  {
  }

  // ------------------------------------------------------------ parsing

  datatype ParseError = Broken | Eof

  /** The global name buffer after a parse, the slot reached, and the length of the name or the error. */
  datatype Parse =
    | Parsed(pos: nat, buf: seq<Byte>, len: nat)
    | Bad(error: ParseError, buf: seq<Byte>)

  const NAME_BUF := 512

  function StoreName(buf: seq<Byte>, at: nat, part: seq<Byte>): (r: seq<Byte>)
    requires at + |part| <= |buf|
    ensures |r| == |buf|
  {
    buf[..at] + part + buf[at + |part|..]
  }

  lemma StoreNothing(buf: seq<Byte>, at: nat)
    requires at <= |buf|
    ensures StoreName(buf, at, []) == buf
  {
  }

  lemma StoreNext(buf: seq<Byte>, at: nat, part: seq<Byte>, c: Byte)
    requires at + |part| < |buf|
    ensures StoreName(buf, at, part)[at + |part| := c] == StoreName(buf, at, part + [c])
  {
  }

  /** The loop of `parse_lfn_name` with `cnt` slots to go, the next one at `k`. */
  function ParseLoop(slots: seq<Slot>, k: nat, cnt: nat, crc: Byte, buf: seq<Byte>, len: nat): (r: Parse)
    requires k < |slots| && cnt <= 20 && |buf| == NAME_BUF
    ensures |r.buf| == NAME_BUF
    ensures r.Parsed? ==> r.pos == k + cnt < |slots| && r.len <= 255
    decreases cnt
  {
    if cnt == 0 then (if len <= 255 then Parsed(k, buf, len) else Bad(Broken, buf))
    else
      var s := slots[k];
      if !IsLfn(s) || s[CRC_AT] != crc then Bad(Broken, buf)
      else
        var part := Frag(s);
        var buf' := StoreName(buf, 13 * (cnt - 1), part);
        if !FragEnds(s) then Bad(Broken, buf')
        else if k + 1 == |slots| then Bad(Eof, buf')
        else ParseLoop(slots, k + 1, cnt - 1, crc, buf', len + |part|)
  }

  /** `parse_lfn_name` at slot `k`. */
  function ParseRun(slots: seq<Slot>, k: nat, buf: seq<Byte>): (r: Parse)
    requires k < |slots| && |buf| == NAME_BUF
    ensures |r.buf| == NAME_BUF
    ensures r.Parsed? ==> k <= r.pos < |slots| && r.len <= 255
  {
    var s := slots[k];
    if s[0] / LFN_HEAD % 2 == 0 || s[0] % 32 > 20 then Bad(Broken, buf)
    else ParseLoop(slots, k, s[0] % 32, s[CRC_AT], buf, 0)
  }

  // ------------------------------------------------------------- search

  /** An entry occupies the slots from `start`, where its first long-name slot is, to `pos`, its short one. */
  datatype Outcome = Found(start: nat, pos: nat) | NotFound | Failed

  datatype SearchResult = SearchResult(outcome: Outcome, buf: seq<Byte>)

  /** `dir_search` from slot `k` on. */
  function Search(slots: seq<Slot>, k: nat, name: seq<Byte>, buf: seq<Byte>): (r: SearchResult)
    requires |buf| == NAME_BUF
    ensures |r.buf| == NAME_BUF
    decreases |slots| - k
  {
    if k >= |slots| || IsLast(slots[k]) then SearchResult(NotFound, buf)
    else if IsFree(slots[k]) then Search(slots, k + 1, name, buf)
    else if IsLfn(slots[k]) then
      match ParseRun(slots, k, buf)
      case Bad(Broken, buf') => SearchResult(Failed, buf')
      case Bad(Eof, buf') => SearchResult(NotFound, buf')
      case Parsed(pos, buf', len) =>
        var sfn := slots[pos];
        if IsFree(sfn) || IsLfn(sfn) || slots[k][CRC_AT] != Crc(sfn[..11], 11) then SearchResult(Failed, buf')
        else if buf'[..len] == name then SearchResult(Found(k, pos), buf')
        else Search(slots, pos + 1, name, buf')
    else if slots[k][..11] == SfnName(name) then SearchResult(Found(k, k), buf)
    else Search(slots, k + 1, name, buf)
  }

  /** One turn of the search loop. */
  lemma SearchTurn(slots: seq<Slot>, k: nat, name: seq<Byte>, buf: seq<Byte>)
    requires |buf| == NAME_BUF
    ensures k >= |slots| ==> Search(slots, k, name, buf) == SearchResult(NotFound, buf)
    ensures k < |slots| && IsLast(slots[k]) ==> Search(slots, k, name, buf) == SearchResult(NotFound, buf)
    ensures k < |slots| && !IsLast(slots[k]) && IsFree(slots[k]) ==>
              Search(slots, k, name, buf) == Search(slots, k + 1, name, buf)
    ensures k < |slots| && !IsFree(slots[k]) && !IsLfn(slots[k]) && slots[k][..11] == SfnName(name) ==>
              Search(slots, k, name, buf) == SearchResult(Found(k, k), buf)
    ensures k < |slots| && !IsFree(slots[k]) && !IsLfn(slots[k]) && slots[k][..11] != SfnName(name) ==>
              Search(slots, k, name, buf) == Search(slots, k + 1, name, buf)
    ensures k < |slots| && !IsFree(slots[k]) && IsLfn(slots[k]) ==>
              var r := ParseRun(slots, k, buf);
              && (r.Bad? ==>
                    Search(slots, k, name, buf) == SearchResult(if r.error.Broken? then Failed else NotFound, r.buf))
              && (r.Parsed? ==>
                    var sfn := slots[r.pos];
                    && (IsFree(sfn) || IsLfn(sfn) || slots[k][CRC_AT] != Crc(sfn[..11], 11) ==>
                          Search(slots, k, name, buf) == SearchResult(Failed, r.buf))
                    && (!IsFree(sfn) && !IsLfn(sfn) && slots[k][CRC_AT] == Crc(sfn[..11], 11) ==>
                          Search(slots, k, name, buf)
                          == if r.buf[..r.len] == name then SearchResult(Found(k, r.pos), r.buf)
                             else Search(slots, r.pos + 1, name, r.buf)))
  {
    hide ParseRun, Crc, SfnName;
  }

  // -------------------------------------------------- well-formed runs

  predicate LiveLfn(s: Slot, crc: Byte) {
    !IsFree(s) && IsLfn(s) && s[CRC_AT] == crc && FragEnds(s)
  }

  /** `n` long-name slots from `k` on with full fragments, apart from the first one's when `head`. */
  predicate FullRun(slots: seq<Slot>, k: nat, n: nat, crc: Byte) {
    k + n < |slots| && forall j :: k <= j < k + n ==> LiveLfn(slots[j], crc) && |Frag(slots[j])| == 13
  }

  /** The name in `n` slots, the last fragment first. */
  function RunName(slots: seq<Slot>, k: nat, n: nat): (r: seq<Byte>)
    requires k + n <= |slots|
    decreases n
  {
    if n == 0 then [] else RunName(slots, k + 1, n - 1) + Frag(slots[k])
  }

  function RunLen(s: Slot): nat {
    s[0] % 32
  }

  /** A long-name entry as `dir_add` writes them: `RunLen` slots, then the short one with their checksum. */
  predicate GoodRun(slots: seq<Slot>, k: nat) {
    && k < |slots|
    && var n, crc := RunLen(slots[k]), slots[k][CRC_AT];
       && slots[k][0] / LFN_HEAD % 2 == 1
       && 1 <= n <= 20 && k + n < |slots|
       && LiveLfn(slots[k], crc)
       && FullRun(slots, k + 1, n - 1, crc)
       && 13 * (n - 1) + |Frag(slots[k])| <= 255
       && !IsFree(slots[k + n]) && !IsLfn(slots[k + n]) && Crc(slots[k + n][..11], 11) == crc
  }

  /** Nothing is looked at from slot `k` on. */
  predicate Ends(slots: seq<Slot>, k: nat) {
    k >= |slots| || IsLast(slots[k])
  }

  /** Does an entry with a long name start here? */
  predicate StartsRun(s: Slot) {
    !IsFree(s) && IsLfn(s)
  }

  /** The slot behind the entry, or the free slot, at `k`. */
  function Behind(slots: seq<Slot>, k: nat): (b: nat)
    requires k < |slots|
    ensures k < b
  {
    if StartsRun(slots[k]) then k + RunLen(slots[k]) + 1 else k + 1
  }

  predicate Proper(slots: seq<Slot>, k: nat)
    requires k < |slots|
  {
    StartsRun(slots[k]) ==> GoodRun(slots, k)
  }

  /** Is the entry at `k` the one called `name`? */
  predicate Hits(slots: seq<Slot>, k: nat, name: seq<Byte>)
    requires k < |slots| && Proper(slots, k)
  {
    if StartsRun(slots[k]) then RunName(slots, k, RunLen(slots[k])) == name
    else !IsFree(slots[k]) && slots[k][..11] == SfnName(name)
  }

  /** From slot `k` on every slot up to the end marker is free or part of a proper entry. */
  predicate WellFormed(slots: seq<Slot>, k: nat)
    decreases |slots| - k
  {
    Ends(slots, k) || (Proper(slots, k) && WellFormed(slots, Behind(slots, k)))
  }

  /** What a search finds in a well-formed directory. */
  function Resolve(slots: seq<Slot>, k: nat, name: seq<Byte>): (r: Outcome)
    requires WellFormed(slots, k)
    ensures r.Found? ==> k <= r.start <= r.pos
    ensures !r.Failed?
    decreases |slots| - k
  {
    if Ends(slots, k) then NotFound
    else if Hits(slots, k, name) then Found(k, Behind(slots, k) - 1)
    else Resolve(slots, Behind(slots, k), name)
  }

  /** A proper entry lies inside the directory and holds no free slot. */
  lemma InsideEntry(a: seq<Slot>, k: nat)
    requires !Ends(a, k) && Proper(a, k)
    ensures Behind(a, k) <= |a|
    ensures !IsFree(a[k]) ==> forall j :: k <= j < Behind(a, k) ==> !IsFree(a[j])
    ensures IsFree(a[k]) ==> Behind(a, k) == k + 1
  {
    if StartsRun(a[k]) {
      GoodRunInside(a, k);
    }
  }

  lemma GoodRunInside(a: seq<Slot>, k: nat)
    requires GoodRun(a, k)
    ensures 1 <= RunLen(a[k]) <= 20 && k + RunLen(a[k]) < |a|
    ensures forall j :: k <= j <= k + RunLen(a[k]) ==> !IsFree(a[j])
  {
    hide Frag, FragEnds, Crc;
  }

  lemma {:induction false} RunNameLength(slots: seq<Slot>, k: nat, n: nat, crc: Byte)
    requires FullRun(slots, k, n, crc)
    ensures |RunName(slots, k, n)| == 13 * n
    decreases n
  {
    hide Frag, FragEnds, LiveLfn;
    if n > 0 {
      RunNameLength(slots, k + 1, n - 1, crc);
    }
  }

  lemma StoreTail(buf: seq<Byte>, at: nat, part: seq<Byte>)
    requires at + |part| <= |buf|
    ensures StoreName(buf, at, part)[at..] == part + buf[at + |part|..]
  {
  }

  lemma ParseEnd(slots: seq<Slot>, k: nat, crc: Byte, buf: seq<Byte>, len: nat)
    requires k < |slots| && |buf| == NAME_BUF
    ensures ParseLoop(slots, k, 0, crc, buf, len) == if len <= 255 then Parsed(k, buf, len) else Bad(Broken, buf)
  {
  }

  /** One turn of the parse loop over any slot. */
  lemma ParseUnfold(slots: seq<Slot>, k: nat, cnt: nat, crc: Byte, buf: seq<Byte>, len: nat)
    requires 0 < cnt <= 20 && k < |slots| && |buf| == NAME_BUF
    ensures var s, r, buf' :=
              slots[k], ParseLoop(slots, k, cnt, crc, buf, len), StoreName(buf, 13 * (cnt - 1), Frag(slots[k]));
            && (!IsLfn(s) || s[CRC_AT] != crc ==> r == Bad(Broken, buf))
            && (IsLfn(s) && s[CRC_AT] == crc && !FragEnds(s) ==> r == Bad(Broken, buf'))
            && (IsLfn(s) && s[CRC_AT] == crc && FragEnds(s) && k + 1 == |slots| ==> r == Bad(Eof, buf'))
            && (IsLfn(s) && s[CRC_AT] == crc && FragEnds(s) && k + 1 < |slots| ==>
                  r == ParseLoop(slots, k + 1, cnt - 1, crc, buf', len + |Frag(s)|))
  {
    hide Frag, FragEnds, StoreName;
  }

  /** One turn of the parse loop over a good slot that is not the last of the directory. */
  lemma ParseTurn(slots: seq<Slot>, k: nat, cnt: nat, crc: Byte, buf: seq<Byte>, len: nat)
    requires 0 < cnt <= 20 && k + 1 < |slots| && |buf| == NAME_BUF && LiveLfn(slots[k], crc)
    ensures ParseLoop(slots, k, cnt, crc, buf, len)
         == ParseLoop(slots, k + 1, cnt - 1, crc, StoreName(buf, 13 * (cnt - 1), Frag(slots[k])),
                      len + |Frag(slots[k])|)
  {
    hide Frag, FragEnds, StoreName;
  }

  /** Parsing full fragments puts their name at the front of the buffer and leaves the rest of it. */
  lemma {:induction false} ParseFull(slots: seq<Slot>, k: nat, cnt: nat, crc: Byte, buf: seq<Byte>, len: nat)
    requires FullRun(slots, k, cnt, crc) && cnt <= 20 && |buf| == NAME_BUF && len + 13 * cnt <= 255
    ensures ParseLoop(slots, k, cnt, crc, buf, len)
         == Parsed(k + cnt, RunName(slots, k, cnt) + buf[13 * cnt..], len + 13 * cnt)
    decreases cnt
  {
    hide Frag, FragEnds, StoreName, LiveLfn;
    if cnt > 0 {
      var part, at := Frag(slots[k]), 13 * (cnt - 1);
      var buf' := StoreName(buf, at, part);
      var head := RunName(slots, k + 1, cnt - 1);
      ParseTurn(slots, k, cnt, crc, buf, len);
      ParseFull(slots, k + 1, cnt - 1, crc, buf', len + |part|);
      StoreTail(buf, at, part);
      assert head + buf'[at..] == (head + part) + buf[13 * cnt..];
    }
  }

  /** Parsing a proper entry yields its name, whatever the buffer held. */
  lemma ParseGood(slots: seq<Slot>, k: nat, buf: seq<Byte>)
    requires GoodRun(slots, k) && |buf| == NAME_BUF
    ensures var n, r := RunLen(slots[k]), ParseRun(slots, k, buf);
            r.Parsed? && r.pos == k + n && r.buf[..r.len] == RunName(slots, k, n)
  {
    hide Frag, FragEnds, StoreName, LiveLfn, FullRun, ParseLoop, Crc;
    var n, crc := RunLen(slots[k]), slots[k][CRC_AT];
    var part, at := Frag(slots[k]), 13 * (n - 1);
    var buf' := StoreName(buf, at, part);
    var head := RunName(slots, k + 1, n - 1);
    RunNameLength(slots, k + 1, n - 1, crc);
    ParseTurn(slots, k, n, crc, buf, 0);
    ParseFull(slots, k + 1, n - 1, crc, buf', |part|);
    StoreTail(buf, at, part);
    var r := ParseRun(slots, k, buf);
    assert r.buf == head + part + buf[at + |part|..];
    assert r.buf[..r.len] == head + part;
  }

  /** Where a search can find an entry. */
  lemma {:induction false} FoundSpan(slots: seq<Slot>, k: nat, name: seq<Byte>, buf: seq<Byte>)
    requires |buf| == NAME_BUF && Search(slots, k, name, buf).outcome.Found?
    ensures var f := Search(slots, k, name, buf).outcome;
            && k <= f.start <= f.pos < |slots|
            && !EndMark(slots[f.pos]) && !Unused(slots[f.pos]) && Attributes(slots[f.pos]) != 15
    decreases |slots| - k
  {
    hide Search, ParseRun, Crc, SfnName;
    SearchTurn(slots, k, name, buf);
    if k < |slots| && !IsLast(slots[k]) {
      if IsFree(slots[k]) {
        FoundSpan(slots, k + 1, name, buf);
      } else if !IsLfn(slots[k]) {
        if slots[k][..11] != SfnName(name) {
          FoundSpan(slots, k + 1, name, buf);
        }
      } else {
        var r := ParseRun(slots, k, buf);
        if r.Parsed? && !IsFree(slots[r.pos]) && !IsLfn(slots[r.pos])
           && slots[k][CRC_AT] == Crc(slots[r.pos][..11], 11) && r.buf[..r.len] != name {
          FoundSpan(slots, r.pos + 1, name, r.buf);
        }
      }
    }
  }

  /** One turn of the search over a proper entry. */
  lemma SearchProper(slots: seq<Slot>, k: nat, name: seq<Byte>, buf: seq<Byte>) returns (buf': seq<Byte>)
    requires !Ends(slots, k) && Proper(slots, k) && |buf| == NAME_BUF
    ensures |buf'| == NAME_BUF
    ensures Search(slots, k, name, buf)
         == if Hits(slots, k, name) then SearchResult(Found(k, Behind(slots, k) - 1), buf')
            else Search(slots, Behind(slots, k), name, buf')
  {
    hide Search, ParseRun, Crc, SfnName, RunLen, RunName;
    SearchTurn(slots, k, name, buf);
    buf' := buf;
    if StartsRun(slots[k]) {
      ParseGood(slots, k, buf);
      buf' := ParseRun(slots, k, buf).buf;
      GoodRunEnd(slots, k);
    }
  }

  lemma GoodRunEnd(slots: seq<Slot>, k: nat)
    requires GoodRun(slots, k)
    ensures var pos := k + RunLen(slots[k]);
            pos < |slots| && !IsFree(slots[pos]) && !IsLfn(slots[pos]) && slots[k][CRC_AT] == Crc(slots[pos][..11], 11)
  {
    hide Crc, Frag, FragEnds, FullRun;
  }

  /** In a well-formed directory the search never fails, and does not depend on the name buffer. */
  lemma {:induction false} SearchResolves(slots: seq<Slot>, k: nat, name: seq<Byte>, buf: seq<Byte>)
    requires WellFormed(slots, k) && |buf| == NAME_BUF
    ensures Search(slots, k, name, buf).outcome == Resolve(slots, k, name)
    decreases |slots| - k
  {
    hide Search, Proper, Hits, Behind;
    if Ends(slots, k) {
      SearchTurn(slots, k, name, buf);
    } else {
      var buf' := SearchProper(slots, k, name, buf);
      if !Hits(slots, k, name) {
        SearchResolves(slots, Behind(slots, k), name, buf');
      }
    }
  }

  // -------------------------------------------------------------- frames

  predicate SameOn(a: seq<Slot>, b: seq<Slot>, i: nat, j: nat) {
    j <= |a| && j <= |b| && forall x :: i <= x < j ==> a[x] == b[x]
  }

  lemma {:induction false} RunNameFrame(a: seq<Slot>, b: seq<Slot>, k: nat, n: nat)
    requires SameOn(a, b, k, k + n)
    ensures RunName(a, k, n) == RunName(b, k, n)
    decreases n
  {
    if n > 0 {
      RunNameFrame(a, b, k + 1, n - 1);
    }
  }

  lemma RunFrame(a: seq<Slot>, b: seq<Slot>, k: nat)
    requires GoodRun(a, k) && SameOn(a, b, k, k + RunLen(a[k]) + 1)
    ensures GoodRun(b, k) && b[k] == a[k]
    ensures RunName(b, k, RunLen(b[k])) == RunName(a, k, RunLen(a[k]))
  {
    hide LiveLfn, Frag, Crc;
    RunNameFrame(a, b, k, RunLen(a[k]));
  }

  /** An entry is what its own slots say. */
  lemma EntryFrame(a: seq<Slot>, b: seq<Slot>, k: nat, name: seq<Byte>)
    requires !Ends(a, k) && Proper(a, k) && SameOn(a, b, k, Behind(a, k))
    ensures !Ends(b, k) && Proper(b, k) && Behind(b, k) == Behind(a, k)
    ensures Hits(b, k, name) == Hits(a, k, name)
  {
    hide GoodRun, SfnName, RunName;
    assert b[k] == a[k];
    if StartsRun(a[k]) {
      RunFrame(a, b, k);
    }
  }

  /** A search does not look back. */
  lemma {:induction false} TailFrame(a: seq<Slot>, b: seq<Slot>, k: nat, name: seq<Byte>)
    requires WellFormed(a, k) && |b| == |a| && (k < |a| ==> SameOn(a, b, k, |a|))
    ensures WellFormed(b, k) && Resolve(b, k, name) == Resolve(a, k, name)
    decreases |a| - k
  {
    hide Proper, Hits, Behind;
    if !Ends(a, k) {
      InsideEntry(a, k);
      EntryFrame(a, b, k, name);
      TailFrame(a, b, Behind(a, k), name);
    }
  }

  /** Clusters of zeroes behind the directory are invisible. */
  lemma {:induction false} ResolveStretched(a: seq<Slot>, zeros: seq<Slot>, k: nat, name: seq<Byte>)
    requires WellFormed(a, k) && forall j :: 0 <= j < |zeros| ==> IsLast(zeros[j])
    ensures WellFormed(a + zeros, k) && Resolve(a + zeros, k, name) == Resolve(a, k, name)
    decreases |a| - k
  {
    hide Proper, Hits, Behind;
    var b := a + zeros;
    if Ends(a, k) {
      assert |a| <= k < |b| ==> b[k] == zeros[k - |a|];
    } else {
      InsideEntry(a, k);
      EntryFrame(a, b, k, name);
      ResolveStretched(a, zeros, Behind(a, k), name);
    }
  }

  /** Free slots are passed over, in either direction. */
  lemma {:induction false} SkipFree(a: seq<Slot>, p: nat, q: nat, name: seq<Byte>)
    requires p <= q <= |a| && (WellFormed(a, p) || WellFormed(a, q))
    requires forall j :: p <= j < q ==> IsFree(a[j]) && !IsLast(a[j])
    ensures WellFormed(a, p) && WellFormed(a, q) && Resolve(a, q, name) == Resolve(a, p, name)
    decreases q - p
  {
    hide GoodRun, SfnName, RunName;
    if p < q {
      SkipFree(a, p + 1, q, name);
    }
  }

  // ------------------------------------------------------ adding an entry

  /** The number of long-name slots for a name of length `len`. */
  function LfnCount(len: nat): nat {
    (len + 12) / 13
  }

  /** The characters of the `i`-th fragment, counted from 1. */
  function Part(name: seq<Byte>, i: nat): (part: seq<Byte>)
    requires 1 <= i && 13 * (i - 1) <= |name|
    ensures |part| <= 13
  {
    name[13 * (i - 1)..Min(13 * i, |name|)]
  }

  /** The long-name slot `dir_add` leaves over any old slot `s`. */
  function LfnSlot(s: Slot, name: seq<Byte>, i: nat, crc: Byte): (r: Slot)
    requires 1 <= i <= LfnCount(|name|) <= 20
  {
    var seqNo: Byte := if i == LfnCount(|name|) then LFN_HEAD + i else i;
    WithFrag(s, Part(name, i))[ATTR_AT := ATTR_LFN][0 := seqNo][CRC_AT := crc][12 := 0][26 := 0][27 := 0]
  }

  /** Nothing of the old slot shines through. */
  lemma LfnSlotFresh(s: Slot, s': Slot, name: seq<Byte>, i: nat, crc: Byte)
    requires 1 <= i <= LfnCount(|name|) <= 20
    ensures LfnSlot(s, name, i, crc) == LfnSlot(s', name, i, crc)
  {
    var r, r' := LfnSlot(s, name, i, crc), LfnSlot(s', name, i, crc);
    forall j | 0 <= j < 32
      ensures r[j] == r'[j]
    {
    }
  }

  lemma FragCharTells(s: Slot, part: seq<Byte>, i: nat)
    requires |part| <= 13 && i < 13
    ensures Two(WithFrag(s, part), LongCharAt(i)) ==
            if i < |part| then part[i] else if i == |part| then 0 else 65535
    ensures LongCharAt(i) !in {0, 11, 12, 13, 26, 27} && LongCharAt(i) + 1 !in {0, 11, 12, 13, 26, 27}
  {
    CharOfIndex(i);
    assert LongCharAt(i) == LFN_INDICES[i];
  }

  /** A new long-name slot is the long entry that the layout asks for. */
  lemma LfnSlotTells(s: Slot, name: seq<Byte>, i: nat, crc: Byte)
    requires 1 <= i <= LfnCount(|name|) <= 20
    ensures LongEntry(LfnSlot(s, name, i, crc), i, i == LfnCount(|name|), Part(name, i), crc)
  {
    hide WithFrag, LongCharAt;
    var part, r := Part(name, i), LfnSlot(s, name, i, crc);
    forall k | 0 <= k < 13
      ensures Two(r, LongCharAt(k)) == if k < |part| then part[k] else if k == |part| then 0 else 65535
    {
      FragCharTells(s, part, k);
    }
  }

  lemma LfnSlotReads(s: Slot, name: seq<Byte>, i: nat, crc: Byte)
    requires 1 <= i <= LfnCount(|name|) <= 20 && PlainName(name)
    ensures var r := LfnSlot(s, name, i, crc);
            LiveLfn(r, crc) && Frag(r) == Part(name, i)
            && RunLen(r) == i && (i == LfnCount(|name|) ==> r[0] / LFN_HEAD % 2 == 1)
  {
    var r, w := LfnSlot(s, name, i, crc), WithFrag(s, Part(name, i));
    FragRoundTrip(s, Part(name, i));
    NameBytesKept(s, name, i, crc);
    SeqByte(i);
    hide WithFrag, CharAt, FragFrom, LfnSlot, Part;
    FragSame(r, w, 0);
    assert FragEnds(r);
  }

  lemma SeqByte(i: nat)
    requires 1 <= i <= 20
    ensures i % 32 == i && (LFN_HEAD + i) % 32 == i && (LFN_HEAD + i) / LFN_HEAD % 2 == 1
    ensures i != SFN_FREE && LFN_HEAD + i != SFN_FREE
  {
  }

  lemma NameBytesKept(s: Slot, name: seq<Byte>, i: nat, crc: Byte)
    requires 1 <= i <= LfnCount(|name|) <= 20
    ensures var r, w := LfnSlot(s, name, i, crc), WithFrag(s, Part(name, i));
            && (forall j :: 0 <= j < 13 ==> CharAt(r, j) == CharAt(w, j))
            && r[0] == (if i == LfnCount(|name|) then LFN_HEAD + i else i)
            && r[ATTR_AT] == ATTR_LFN && r[CRC_AT] == crc
  {
    hide WithFrag, Part;
    forall j | 0 <= j < 13
      ensures LFN_INDICES[j] !in {0, 11, 12, 13, 26, 27} && 0 <= LFN_INDICES[j] < 32
    {
    }
  }

  lemma {:induction false} FragSame(r: Slot, w: Slot, i: nat)
    requires i <= 13 && forall j :: 0 <= j < 13 ==> CharAt(r, j) == CharAt(w, j)
    ensures FragFrom(r, i) == FragFrom(w, i)
    decreases 13 - i
  {
    if i < 13 {
      FragSame(r, w, i + 1);
    }
  }

  function HalfByte(v: nat, i: nat): Byte
    requires v < 0x1_0000
  {
    if i == 0 then v % 0x100 else v / 0x100
  }

  /** The short-name slot `dir_add` writes. */
  function SfnSlot(name: seq<Byte>, attr: Byte, clust: nat, date: nat, time: nat): (r: Slot)
    requires clust < 0x1_0000_0000 && date < 0x1_0000 && time < 0x1_0000
    ensures r[..11] == SfnName(name) && r[ATTR_AT] == attr
  {
    var hi, lo := clust / 0x1_0000, clust % 0x1_0000;
    SfnName(name) + [attr, 0, 0,
      HalfByte(time, 0), HalfByte(time, 1), HalfByte(date, 0), HalfByte(date, 1), HalfByte(date, 0), HalfByte(date, 1),
      HalfByte(hi, 0), HalfByte(hi, 1), HalfByte(time, 0), HalfByte(time, 1), HalfByte(date, 0), HalfByte(date, 1),
      HalfByte(lo, 0), HalfByte(lo, 1), 0, 0, 0, 0]
  }

  lemma HalvesJoin(v: nat)
    requires v < 0x1_0000
    ensures var lo: int, hi: int := HalfByte(v, 0), HalfByte(v, 1); lo + 256 * hi == v
  {
  }

  /** The short-name slot is the new entry that the layout asks for. */
  lemma SfnSlotTells(name: seq<Byte>, attr: Byte, clust: nat, date: nat, time: nat)
    requires clust < 0x1_0000_0000 && date < 0x1_0000 && time < 0x1_0000
    ensures var r := SfnSlot(name, attr, clust, date, time);
            NewEntry(r, attr, clust, date, time) && ShortName(name, r[..11])
  {
    hide SfnName, HalfByte, ShortName;
    SfnNameTells(name);
    HalvesJoin(date);
    HalvesJoin(time);
    HalvesJoin(clust / 0x1_0000);
    HalvesJoin(clust % 0x1_0000);
  }

  /** What `dir_add` is asked to enter. */
  datatype Entry = Entry(name: seq<Byte>, attr: Byte, clust: nat, date: nat, time: nat) {
    predicate Valid() {
      && 1 <= |name| <= 255 && attr != ATTR_LFN
      && clust < 0x1_0000_0000 && date < 0x1_0000 && time < 0x1_0000
    }

    function Lfns(): (n: nat)
      requires Valid()
      ensures 1 <= n <= 20
    {
      LfnCount(|name|)
    }

    function Checksum(): Byte {
      Crc(SfnName(name), 11)
    }
  }

  /** Slot `j` of the directory after the entry has gone in at slot `p`, with a new end marker behind it when `eod`. */
  function AddedSlot(old_: Slot, e: Entry, p: nat, eod: bool, j: nat): Slot
    requires e.Valid()
  {
    if p <= j < p + e.Lfns() then LfnSlot(old_, e.name, e.Lfns() - (j - p), e.Checksum())
    else if j == p + e.Lfns() then SfnSlot(e.name, e.attr, e.clust, e.date, e.time)
    else if eod && j == p + e.Lfns() + 1 then old_[0 := SFN_LAST]
    else old_
  }

  function Added(a: seq<Slot>, e: Entry, p: nat, eod: bool): (b: seq<Slot>)
    requires e.Valid()
    ensures |b| == |a|
    ensures forall j :: 0 <= j < |a| ==> b[j] == AddedSlot(a[j], e, p, eod, j)
  {
    seq(|a|, j requires 0 <= j < |a| => AddedSlot(a[j], e, p, eod, j))
  }

  /**
   The place `dir_add` settles on: slots `p` to `p + lfns` are free, or lie at or
   behind the first end marker of the directory, which is then overwritten
   (`eod`); the slot after them exists.
   */
  predicate Place(a: seq<Slot>, e: Entry, p: nat, eod: bool)
    requires e.Valid()
  {
    var q := p + e.Lfns() + 1;
    && q < |a|
    && (forall j :: 0 <= j < p ==> !IsLast(a[j]))
    && IsFree(a[p])
    && (!eod ==> forall j :: p <= j < q ==> IsFree(a[j]) && !IsLast(a[j]))
    && (eod ==> EndsWithin(a, p, q))
  }

  predicate EndsWithin(a: seq<Slot>, p: nat, q: nat)
    requires q <= |a|
  {
    exists x :: p <= x < q && IsLast(a[x]) && forall j :: p <= j < x ==> IsFree(a[j]) && !IsLast(a[j])
  }

  /** The slot holds the `i`-th of the `n` long entries of a name. */
  ghost predicate LongSlot(s: Slot, name: seq<Byte>, i: int, n: nat, crc: Byte) {
    && 1 <= i <= n && 13 * (i - 1) <= |name|
    && LongEntry(s, i, i == n, name[13 * (i - 1)..Min(13 * i, |name|)], crc)
  }

  /**
   The entry stands in the slots of the directory, in the bytes of the layout: from slot
   `p` on the long entries, the one with the end of the name first, and behind them the
   short one.
   */
  ghost predicate Entered(b: seq<Slot>, e: Entry, p: nat) {
    var n := (|e.name| + 12) / 13;
    && p + n < |b|
    && NewEntry(b[p + n], e.attr, e.clust, e.date, e.time) && ShortName(e.name, b[p + n][..11])
    && forall j :: p <= j < p + n ==> LongSlot(b[j], e.name, p + n - j, n, NameSum(b[p + n][..11]))
  }

  /** Nothing else has changed, apart from a new end mark behind the entry where the old one has gone. */
  ghost predicate OthersStay(a: seq<Slot>, b: seq<Slot>, e: Entry, p: nat, eod: bool) {
    var n := (|e.name| + 12) / 13;
    && |a| == |b|
    && forall j :: 0 <= j < |a| && !(p <= j <= p + n) ==>
         b[j] == a[j] || (eod && j == p + n + 1 && EndMark(b[j]) && b[j][1..] == a[j][1..])
  }

  lemma AddedTells(a: seq<Slot>, e: Entry, p: nat, eod: bool)
    requires e.Valid() && Place(a, e, p, eod)
    ensures Entered(Added(a, e, p, eod), e, p) && OthersStay(a, Added(a, e, p, eod), e, p, eod)
  {
    hide LfnSlot, SfnSlot, Crc, SfnName, NewEntry, LongSlot, ShortName, Part, Place, AddedSlot, NameSum;
    var b, n := Added(a, e, p, eod), e.Lfns();
    PlaceRoom(a, e, p, eod);
    AddedShort(a, e, p, eod);
    forall j | p <= j < p + n
      ensures LongSlot(b[j], e.name, p + n - j, n, NameSum(b[p + n][..11]))
    {
      AddedLong(a, e, p, eod, j);
    }
    forall j | 0 <= j < |a| && !(p <= j <= p + n)
      ensures b[j] == a[j] || (eod && j == p + n + 1 && EndMark(b[j]) && b[j][1..] == a[j][1..])
    {
      AddedElse(a[j], e, p, eod, j);
    }
  }

  lemma PlaceRoom(a: seq<Slot>, e: Entry, p: nat, eod: bool)
    requires e.Valid() && Place(a, e, p, eod)
    ensures p + e.Lfns() + 1 < |a|
  {
  }

  lemma AddedShort(a: seq<Slot>, e: Entry, p: nat, eod: bool)
    requires e.Valid() && p + e.Lfns() < |a|
    ensures var s := Added(a, e, p, eod)[p + e.Lfns()];
            && NewEntry(s, e.attr, e.clust, e.date, e.time) && ShortName(e.name, s[..11])
            && e.Checksum() == NameSum(s[..11])
  {
    hide LfnSlot, SfnSlot, Crc, SfnName, NewEntry, ShortName, NameSum;
    SfnSlotTells(e.name, e.attr, e.clust, e.date, e.time);
    CrcTells(SfnName(e.name), 11);
    assert SfnName(e.name)[..11] == SfnName(e.name);
  }

  lemma AddedLong(a: seq<Slot>, e: Entry, p: nat, eod: bool, j: nat)
    requires e.Valid() && p + e.Lfns() < |a| && p <= j < p + e.Lfns()
    ensures var b := Added(a, e, p, eod);
            LongSlot(b[j], e.name, p + e.Lfns() - j, e.Lfns(), NameSum(b[p + e.Lfns()][..11]))
  {
    hide LfnSlot, SfnSlot, Crc, SfnName, NewEntry, LongEntry, ShortName, NameSum;
    AddedShort(a, e, p, eod);
    LfnSlotTells(a[j], e.name, p + e.Lfns() - j, e.Checksum());
  }

  lemma AddedElse(s: Slot, e: Entry, p: nat, eod: bool, j: nat)
    requires e.Valid() && !(p <= j <= p + e.Lfns())
    ensures var r := AddedSlot(s, e, p, eod, j);
            r == s || (eod && j == p + e.Lfns() + 1 && EndMark(r) && r[1..] == s[1..])
  {
    hide LfnSlot, SfnSlot, LfnCount;
  }

  lemma PrefixSlice(s: seq<Byte>, x: nat, y: nat)
    requires x <= y <= |s|
    ensures s[..x] + s[x..y] == s[..y]
  {
  }

  lemma {:induction false} PartsJoin(b: seq<Slot>, name: seq<Byte>, k: nat, i: nat)
    requires i <= LfnCount(|name|) <= 20 && k + i <= |b|
    requires forall j :: k <= j < k + i ==> Frag(b[j]) == Part(name, i - (j - k))
    ensures RunName(b, k, i) == name[..Min(13 * i, |name|)]
    decreases i
  {
    hide Frag;
    if i > 0 {
      var x, y := 13 * (i - 1), Min(13 * i, |name|);
      assert x <= y;
      PartsJoin(b, name, k + 1, i - 1);
      assert Frag(b[k]) == Part(name, i) == name[x..y];
      PrefixSlice(name, x, y);
    }
  }

  /** The new slots are a proper entry with the given name. */
  lemma AddedRun(a: seq<Slot>, e: Entry, p: nat, eod: bool)
    requires e.Valid() && PlainName(e.name) && p + e.Lfns() < |a|
    ensures var b := Added(a, e, p, eod);
            && GoodRun(b, p) && RunLen(b[p]) == e.Lfns()
            && RunName(b, p, e.Lfns()) == e.name
  {
    hide LiveLfn, Frag, LfnSlot, SfnSlot, Crc, SfnName, RunLen, Part;
    var b, n, crc := Added(a, e, p, eod), e.Lfns(), e.Checksum();
    forall j | p <= j < p + n
      ensures LiveLfn(b[j], crc) && Frag(b[j]) == Part(e.name, n - (j - p)) && RunLen(b[j]) == n - (j - p)
      ensures j == p ==> b[j][0] / LFN_HEAD % 2 == 1
    {
      LfnSlotReads(a[j], e.name, n - (j - p), crc);
    }
    AddedRunParts(a, e, p, eod);
  }

  lemma AddedRunParts(a: seq<Slot>, e: Entry, p: nat, eod: bool)
    requires e.Valid() && p + e.Lfns() < |a|
    requires var b, n := Added(a, e, p, eod), e.Lfns();
             forall j :: p <= j < p + n ==>
               LiveLfn(b[j], e.Checksum()) && Frag(b[j]) == Part(e.name, n - (j - p)) && RunLen(b[j]) == n - (j - p)
    requires Added(a, e, p, eod)[p][0] / LFN_HEAD % 2 == 1
    ensures var b := Added(a, e, p, eod);
            && GoodRun(b, p) && RunLen(b[p]) == e.Lfns()
            && RunName(b, p, e.Lfns()) == e.name
  {
    hide Frag, FragEnds, LfnSlot, Crc, SfnName, RunLen;
    var b, n, crc := Added(a, e, p, eod), e.Lfns(), e.Checksum();
    PartsJoin(b, e.name, p, n);
    SfnNameLive(e.name);
    assert b[p + n] == SfnSlot(e.name, e.attr, e.clust, e.date, e.time);
    assert b[p + n][0] == SfnName(e.name)[0] by {
      assert b[p + n][..11][0] == b[p + n][0];
    }
    assert LiveLfn(b[p], crc);
    forall j | p + 1 <= j < p + n
      ensures |Frag(b[j])| == 13
    {
      assert Frag(b[j]) == Part(e.name, n - (j - p));
    }
  }

  /** The new slots as an entry of the directory. */
  lemma AddedEntry(a: seq<Slot>, e: Entry, p: nat, eod: bool, m: seq<Byte>)
    requires e.Valid() && PlainName(e.name) && p + e.Lfns() < |a|
    ensures var b := Added(a, e, p, eod);
            && !Ends(b, p) && Proper(b, p) && Behind(b, p) == p + e.Lfns() + 1
            && (Hits(b, p, m) <==> m == e.name)
  {
    hide LfnSlot, SfnSlot, Crc, SfnName, RunLen, GoodRun, LfnCount, RunName, Added;
    AddedRun(a, e, p, eod);
    GoodRunInside(Added(a, e, p, eod), p);
    NewSlotIsLfn(a, e, p, eod);
  }

  lemma NewSlotIsLfn(a: seq<Slot>, e: Entry, p: nat, eod: bool)
    requires e.Valid() && p + e.Lfns() < |a|
    ensures IsLfn(Added(a, e, p, eod)[p])
  {
    hide Crc, SfnName;
    NameBytesKept(a[p], e.name, e.Lfns(), e.Checksum());
  }

  /** What a search finds at the new entry, and behind it. */
  lemma AddedHere(a: seq<Slot>, e: Entry, p: nat, eod: bool, m: seq<Byte>)
    requires e.Valid() && PlainName(e.name) && Place(a, e, p, eod) && WellFormed(a, p)
    ensures var b := Added(a, e, p, eod);
            && WellFormed(b, p)
            && (m != e.name ==> Resolve(b, p, m) == Resolve(a, p, m))
            && (m == e.name ==> Resolve(b, p, m) == Found(p, p + e.Lfns()))
  {
    hide LfnSlot, SfnSlot, Crc, SfnName, LfnCount, Proper, Hits, Behind;
    var b, q := Added(a, e, p, eod), p + e.Lfns() + 1;
    AddedEntry(a, e, p, eod, m);
    if eod {
      var x :| p <= x < q && IsLast(a[x]) && forall j :: p <= j < x ==> IsFree(a[j]) && !IsLast(a[j]);
      SkipFree(a, p, x, m);
      assert Ends(b, q);
    } else {
      SkipFree(a, p, q, m);
      TailFrame(a, b, q, m);
    }
  }

  /**
   Adding an entry to a well-formed directory: the name resolves to the new entry
   if it resolved to none at all before, and every other name to what it resolved
   to before.
   */
  lemma {:induction false} AddResolves(a: seq<Slot>, e: Entry, p: nat, eod: bool, k: nat, m: seq<Byte>)
    requires e.Valid() && PlainName(e.name) && Place(a, e, p, eod)
    requires k <= p && WellFormed(a, k)
    ensures var b := Added(a, e, p, eod);
            && WellFormed(b, k)
            && (m != e.name ==> Resolve(b, k, m) == Resolve(a, k, m))
            && (m == e.name && Resolve(a, k, m) == NotFound ==> Resolve(b, k, m) == Found(p, p + e.Lfns()))
    decreases p - k
  {
    hide LfnCount, AddedSlot, Proper, Hits, Behind;
    var b := Added(a, e, p, eod);
    if k == p {
      AddedHere(a, e, p, eod, m);
    } else {
      InsideEntry(a, k);
      BeforePlace(a, e, p, eod, k);
      EntryFrame(a, b, k, m);
      AddResolves(a, e, p, eod, Behind(a, k), m);
    }
  }

  /** Entries before the new one end before it, and keep their slots. */
  lemma BeforePlace(a: seq<Slot>, e: Entry, p: nat, eod: bool, k: nat)
    requires e.Valid() && Place(a, e, p, eod) && k < p && Proper(a, k) && Behind(a, k) <= |a|
    requires !IsFree(a[k]) ==> forall j :: k <= j < Behind(a, k) ==> !IsFree(a[j])
    requires IsFree(a[k]) ==> Behind(a, k) == k + 1
    ensures !Ends(a, k) && Behind(a, k) <= p
    ensures SameOn(a, Added(a, e, p, eod), k, Behind(a, k))
  {
    hide LfnSlot, SfnSlot, LfnCount, Proper, Behind;
  }

  // ---------------------------------------------------- removing an entry

  /** The slots from `start` to `pos` marked free. */
  function Removed(a: seq<Slot>, start: nat, pos: nat): (b: seq<Slot>)
    ensures |b| == |a|
    ensures forall j :: 0 <= j < |a| ==> b[j] == if start <= j <= pos then a[j][0 := SFN_FREE] else a[j]
  {
    seq(|a|, j requires 0 <= j < |a| => if start <= j <= pos then a[j][0 := SFN_FREE] else a[j])
  }

  /** The entry's slots are unused and hold their other bytes; all the others are as they were. */
  ghost predicate Unlinked(a: seq<Slot>, b: seq<Slot>, start: nat, pos: nat) {
    && |a| == |b|
    && forall j :: 0 <= j < |a| ==>
         if start <= j <= pos then Unused(b[j]) && b[j][1..] == a[j][1..] else b[j] == a[j]
  }

  lemma RemovedTells(a: seq<Slot>, start: nat, pos: nat)
    ensures Unlinked(a, Removed(a, start, pos), start, pos)
  {
  }

  /** The removal loop when it stands at slot `k`. */
  function RemovedTo(a: seq<Slot>, start: nat, k: nat): (b: seq<Slot>)
    ensures |b| == |a|
    ensures forall j :: 0 <= j < |a| ==> b[j] == if start <= j < k then a[j][0 := SFN_FREE] else a[j]
  {
    seq(|a|, j requires 0 <= j < |a| => if start <= j < k then a[j][0 := SFN_FREE] else a[j])
  }

  lemma RemovedNone(a: seq<Slot>, start: nat)
    ensures RemovedTo(a, start, start) == a
  {
  }

  lemma RemovedNext(a: seq<Slot>, start: nat, k: nat)
    requires start <= k < |a|
    ensures RemovedTo(a, start, k)[k] == a[k]
    ensures RemovedTo(a, start, k)[k := a[k][0 := SFN_FREE]] == RemovedTo(a, start, k + 1)
  {
  }

  lemma RemovedAll(a: seq<Slot>, start: nat, pos: nat)
    ensures RemovedTo(a, start, pos + 1) == Removed(a, start, pos)
  {
  }

  lemma RemovedHere(a: seq<Slot>, start: nat, pos: nat, m: seq<Byte>)
    requires start <= pos < |a| && WellFormed(a, pos + 1)
    ensures WellFormed(Removed(a, start, pos), start)
    ensures Resolve(Removed(a, start, pos), start, m) == Resolve(a, pos + 1, m)
  {
    hide WellFormed, Resolve;
    var b := Removed(a, start, pos);
    TailFrame(a, b, pos + 1, m);
    SkipFree(b, start, pos + 1, m);
  }

  /**
   Removing the entry a name resolves to: a name that resolved to another entry,
   or to none, still does; a name that resolved to this one resolves to what a
   search behind it finds.
   */
  lemma {:induction false} RemoveResolves(a: seq<Slot>, k: nat, name: seq<Byte>, m: seq<Byte>)
    requires WellFormed(a, k) && Resolve(a, k, name).Found?
    ensures var f := Resolve(a, k, name);
            && f.pos < |a|
            && WellFormed(a, f.pos + 1)
            && WellFormed(Removed(a, f.start, f.pos), k)
            && (Resolve(a, k, m) == f ==> Resolve(Removed(a, f.start, f.pos), k, m) == Resolve(a, f.pos + 1, m))
            && (Resolve(a, k, m) != f ==> Resolve(Removed(a, f.start, f.pos), k, m) == Resolve(a, k, m))
    decreases |a| - k
  {
    hide Proper, Hits, Behind, Removed;
    var f := Resolve(a, k, name);
    InsideEntry(a, k);
    if Hits(a, k, name) {
      RemovedHere(a, k, f.pos, m);
    } else {
      RemoveResolves(a, Behind(a, k), name, m);
      RemovedSame(a, f.start, f.pos, k, Behind(a, k));
      EntryFrame(a, Removed(a, f.start, f.pos), k, m);
    }
  }

  lemma RemovedSame(a: seq<Slot>, start: nat, pos: nat, k: nat, j: nat)
    requires k < j <= start && j <= |a|
    ensures SameOn(a, Removed(a, start, pos), k, j)
  {
  }

  // ------------------------------------------- the work of adding, in steps

  predicate AllLast(z: seq<Slot>) {
    forall j :: 0 <= j < |z| ==> IsLast(z[j])
  }

  /** `b` is `a` with end markers behind it. */
  predicate StretchedBy(a: seq<Slot>, b: seq<Slot>) {
    a <= b && AllLast(b[|a|..])
  }

  lemma AllLastEach(z: seq<Slot>)
    requires AllLast(z)
    ensures forall j :: 0 <= j < |z| ==> IsLast(z[j])
  {
  }

  lemma StretchedTrans(a: seq<Slot>, b: seq<Slot>, c: seq<Slot>)
    requires StretchedBy(a, b) && StretchedBy(b, c)
    ensures StretchedBy(a, c)
  {
    forall j | 0 <= j < |c[|a|..]|
      ensures IsLast(c[|a|..][j])
    {
      if |a| + j < |b| {
        assert c[|a|..][j] == b[|a|..][j];
      } else {
        assert c[|a|..][j] == c[|b|..][|a| + j - |b|];
      }
    }
  }

  /**
   The state of the scan of `dir_add` before slot `k`: the last `cnt` slots may be
   used; `x` is the first end marker once one has been met (`eod`).
   */
  predicate Scanned(a: seq<Slot>, k: nat, cnt: nat, eod: bool, x: nat) {
    && cnt <= k <= |a|
    && (!eod ==> forall j :: 0 <= j < k ==> !IsLast(a[j]))
    && (!eod ==> forall j :: k - cnt <= j < k ==> IsFree(a[j]))
    && (eod ==>
          && k - cnt <= x < k && IsLast(a[x])
          && (forall j :: 0 <= j < x ==> !IsLast(a[j]))
          && (forall j :: k - cnt <= j < x ==> IsFree(a[j])))
  }

  lemma ScanStart(a: seq<Slot>)
    ensures Scanned(a, 0, 0, false, 0)
  {
  }

  /** Behind the directory it started with, the scan meets end markers only. */
  lemma ScanEnds(slots: seq<Slot>, a: seq<Slot>, k: nat)
    requires StretchedBy(slots, a) && k < |a|
    ensures k >= |slots| ==> IsLast(a[k])
  {
    if k >= |slots| {
      assert a[k] == a[|slots|..][k - |slots|];
    }
  }

  lemma ScanStretched(a: seq<Slot>, b: seq<Slot>, k: nat, cnt: nat, eod: bool, x: nat)
    requires Scanned(a, k, cnt, eod, x) && StretchedBy(a, b)
    ensures Scanned(b, k, cnt, eod, x)
  {
    ScanFrame(a, b, k, cnt, eod, x);
  }

  lemma ScanTurn(a: seq<Slot>, k: nat, cnt: nat, eod: bool, x: nat)
    requires Scanned(a, k, cnt, eod, x) && k < |a|
    ensures var cnt', eod', x' := if eod || IsFree(a[k]) then cnt + 1 else 0, eod || IsLast(a[k]), if eod then x else k;
            Scanned(a, k + 1, cnt', eod', x')
  {
  }

  lemma ScanFrame(a: seq<Slot>, b: seq<Slot>, k: nat, cnt: nat, eod: bool, x: nat)
    requires Scanned(a, k, cnt, eod, x) && a <= b
    ensures Scanned(b, k, cnt, eod, x)
  {
  }

  lemma ScanPlace(a: seq<Slot>, e: Entry, k: nat, eod: bool, x: nat)
    requires e.Valid() && k < |a| && Scanned(a, k, e.Lfns() + 1, eod, x)
    ensures Place(a, e, k - e.Lfns() - 1, eod)
  {
  }

  /**
   The slot at which the scan for `n` free slots in a row stops, when it stands at
   slot `k` with `cnt` of them behind it: from the first end marker on, or from the
   end of the directory, every slot counts.
   */
  function ScanEnd(a: seq<Slot>, k: nat, cnt: nat, eod: bool, n: nat): (end: nat)
    requires cnt <= n
    ensures cnt < n ==> k < end
    decreases |a| - k
  {
    if cnt == n then k
    else if eod || k >= |a| then k + n - cnt
    else ScanEnd(a, k + 1, if IsFree(a[k]) then cnt + 1 else 0, IsLast(a[k]), n)
  }

  lemma ScanEndTurn(slots: seq<Slot>, a: seq<Slot>, k: nat, cnt: nat, eod: bool, n: nat)
    requires StretchedBy(slots, a) && k < |a| && cnt < n
    ensures var cnt', eod' := if eod || IsFree(a[k]) then cnt + 1 else 0, eod || IsLast(a[k]);
            ScanEnd(slots, k, cnt, eod, n) == ScanEnd(slots, k + 1, cnt', eod', n)
  {
    ScanEnds(slots, a, k);
  }

  lemma ScanEnded(a: seq<Slot>, k: nat, eod: bool, n: nat)
    ensures ScanEnd(a, k, n, eod, n) == k
  {
  }

  /** The scan goes at most `n` slots beyond the end of the directory. */
  lemma {:induction false} ScanEndBound(a: seq<Slot>, k: nat, cnt: nat, eod: bool, n: nat)
    requires cnt <= n && k <= |a|
    ensures ScanEnd(a, k, cnt, eod, n) <= |a| + n
    decreases |a| - k
  {
    if cnt < n && !eod && k < |a| {
      ScanEndBound(a, k + 1, if IsFree(a[k]) then cnt + 1 else 0, IsLast(a[k]), n);
    }
  }

  /** The entry half written: the end marker and the slots before `k` are in place. */
  function AddedTo(a: seq<Slot>, e: Entry, p: nat, eod: bool, k: nat): (b: seq<Slot>)
    requires e.Valid()
    ensures |b| == |a|
    ensures forall j :: 0 <= j < |a| ==>
              b[j] == if j < k || j > p + e.Lfns() then AddedSlot(a[j], e, p, eod, j) else a[j]
  {
    seq(|a|, j requires 0 <= j < |a| => if j < k || j > p + e.Lfns() then AddedSlot(a[j], e, p, eod, j) else a[j])
  }

  lemma AddedStart(a: seq<Slot>, e: Entry, p: nat, eod: bool)
    requires e.Valid() && p + e.Lfns() + 1 < |a|
    ensures !eod ==> AddedTo(a, e, p, eod, p) == a
    ensures eod ==> AddedTo(a, e, p, eod, p) == a[p + e.Lfns() + 1 := a[p + e.Lfns() + 1][0 := SFN_LAST]]
  {
    hide LfnSlot, SfnSlot;
  }

  lemma AddedNext(a: seq<Slot>, e: Entry, p: nat, eod: bool, k: nat)
    requires e.Valid() && p <= k <= p + e.Lfns() < |a|
    ensures AddedTo(a, e, p, eod, k)[k] == a[k]
    ensures AddedTo(a, e, p, eod, k)[k := AddedSlot(a[k], e, p, eod, k)] == AddedTo(a, e, p, eod, k + 1)
  {
    hide LfnSlot, SfnSlot;
  }

  lemma AddedAll(a: seq<Slot>, e: Entry, p: nat, eod: bool)
    requires e.Valid()
    ensures AddedTo(a, e, p, eod, p + e.Lfns() + 1) == Added(a, e, p, eod)
  {
    hide LfnSlot, SfnSlot;
  }

  // --------------------------------------------------------- main results

  /**
   The directory as a map, one entry more: if a well-formed directory has no entry
   of the name, then after `dir_add` a search for it finds the new short-name slot,
   and a search for any other name finds what it found before.
   */
  lemma AddFinds(old_: seq<Slot>, a: seq<Slot>, e: Entry, p: nat, eod: bool, m: seq<Byte>, buf: seq<Byte>,
      buf': seq<Byte>)
    requires e.Valid() && PlainName(e.name) && |buf| == NAME_BUF && |buf'| == NAME_BUF
    requires WellFormed(old_, 0) && Search(old_, 0, e.name, buf).outcome == NotFound
    requires StretchedBy(old_, a) && Place(a, e, p, eod)
    ensures var b := Added(a, e, p, eod);
            && WellFormed(b, 0)
            && Search(b, 0, e.name, buf').outcome == Found(p, p + e.Lfns())
            && (m != e.name ==> Search(b, 0, m, buf').outcome == Search(old_, 0, m, buf).outcome)
  {
    hide Search, Resolve, WellFormed, Added, Place, AllLast, Entry.Valid, PlainName;
    AllLastEach(a[|old_|..]);
    var b := Added(a, e, p, eod);
    assert a == old_ + a[|old_|..];
    ResolveStretched(old_, a[|old_|..], 0, e.name);
    ResolveStretched(old_, a[|old_|..], 0, m);
    SearchResolves(old_, 0, e.name, buf);
    SearchResolves(old_, 0, m, buf);
    AddResolves(a, e, p, eod, 0, e.name);
    AddResolves(a, e, p, eod, 0, m);
    SearchResolves(b, 0, e.name, buf');
    SearchResolves(b, 0, m, buf');
  }

  /**
   The directory as a map, one entry less: after `remove_entries` on what a search
   for `name` found, a search for any name finds what it found before unless that
   was the removed entry; then it finds what lies behind.
   */
  lemma RemoveFinds(old_: seq<Slot>, name: seq<Byte>, m: seq<Byte>, buf: seq<Byte>, buf': seq<Byte>)
    requires |buf| == NAME_BUF && |buf'| == NAME_BUF
    requires WellFormed(old_, 0) && Search(old_, 0, name, buf).outcome.Found?
    ensures var f := Search(old_, 0, name, buf).outcome;
            var b := Removed(old_, f.start, f.pos);
            && WellFormed(b, 0)
            && (Search(old_, 0, m, buf).outcome != f ==>
                Search(b, 0, m, buf').outcome == Search(old_, 0, m, buf).outcome)
            && (Search(old_, 0, m, buf).outcome == f ==>
                Search(b, 0, m, buf').outcome == Search(old_, f.pos + 1, m, buf).outcome)
  {
    hide Search, Resolve, WellFormed, Removed;
    SearchResolves(old_, 0, name, buf);
    SearchResolves(old_, 0, m, buf);
    RemoveResolves(old_, 0, name, m);
    var f := Search(old_, 0, name, buf).outcome;
    SearchResolves(old_, f.pos + 1, m, buf);
    SearchResolves(Removed(old_, f.start, f.pos), 0, m, buf');
  }

  /** Inside the directory a parse fails for no other reason than a broken slot. */
  lemma {:induction false} ParseInside(slots: seq<Slot>, k: nat, cnt: nat, crc: Byte, buf: seq<Byte>, len: nat)
    requires k + cnt < |slots| && cnt <= 20 && |buf| == NAME_BUF
    ensures ParseLoop(slots, k, cnt, crc, buf, len).Bad? ==> ParseLoop(slots, k, cnt, crc, buf, len).error.Broken?
    decreases cnt
  {
    hide Frag, FragEnds, StoreName;
    if cnt > 0 {
      ParseUnfold(slots, k, cnt, crc, buf, len);
      ParseInside(slots, k + 1, cnt - 1, crc, StoreName(buf, 13 * (cnt - 1), Frag(slots[k])), len + |Frag(slots[k])|);
    }
  }

  lemma LfnSlotGivesBack(s: Slot, name: seq<Byte>, i: nat, crc: Byte)
    requires 1 <= i <= LfnCount(|name|) <= 20
    ensures GivesBack(LfnSlot(s, name, i, crc), Part(name, i))
  {
    var r, w := LfnSlot(s, name, i, crc), WithFrag(s, Part(name, i));
    FragGivesBack(s, Part(name, i));
    NameBytesKept(s, name, i, crc);
    hide WithFrag, CharAt, FragFrom, LfnSlot, Part;
    FragSame(r, w, 0);
  }

  lemma PlainParts(name: seq<Byte>, i: nat)
    requires 1 <= i <= LfnCount(|name|)
    requires PlainName(name[..Min(13 * (i - 1), |name|)]) && PlainName(Part(name, i))
    ensures PlainName(name[..Min(13 * i, |name|)])
  {
    var x, y := 13 * (i - 1), Min(13 * i, |name|);
    forall j | 0 <= j < y
      ensures name[j] != 0x00 && name[j] != 0xff
    {
      assert name[j] == if j < x then name[..x][j] else Part(name, i)[j - x];
    }
  }

  /** Slots that give back their parts of a name are parsed to the length of the name only when it is plain. */
  lemma {:induction false} ParsedPlain(b: seq<Slot>, k: nat, i: nat, crc: Byte, buf: seq<Byte>, len: nat,
      name: seq<Byte>)
    requires i <= LfnCount(|name|) <= 20 && k + i < |b| && |buf| == NAME_BUF
    requires forall j :: k <= j < k + i ==> GivesBack(b[j], Part(name, i - (j - k)))
    requires ParseLoop(b, k, i, crc, buf, len).Parsed?
    ensures var r, n := ParseLoop(b, k, i, crc, buf, len), Min(13 * i, |name|);
            && r.len <= len + n
            && (r.len == len + n || 0x00 !in name ==> PlainName(name[..n]))
    decreases i
  {
    hide Frag, FragEnds, StoreName;
    if i > 0 {
      ParseUnfold(b, k, i, crc, buf, len);
      ParsedPlain(b, k + 1, i - 1, crc, StoreName(buf, 13 * (i - 1), Frag(b[k])), len + |Frag(b[k])|, name);
      assert GivesBack(b[k], Part(name, i));
      assert forall c :: c in Part(name, i) ==> c in name;
      if PlainName(name[..Min(13 * (i - 1), |name|)]) && PlainName(Part(name, i)) {
        PlainParts(name, i);
      }
    }
  }

  lemma AddedParsedPlain(a: seq<Slot>, e: Entry, p: nat, eod: bool, buf: seq<Byte>)
    requires e.Valid() && p + e.Lfns() < |a| && |buf| == NAME_BUF
    ensures var r := ParseRun(Added(a, e, p, eod), p, buf);
            && (r.Parsed? && (r.len == |e.name| || 0x00 !in e.name) ==> PlainName(e.name))
            && (r.Bad? ==> r.error.Broken?)
  {
    hide ParseLoop, GivesBack, LfnSlot, Part, Crc;
    var b, n, crc := Added(a, e, p, eod), e.Lfns(), e.Checksum();
    forall j | p <= j < p + n
      ensures GivesBack(b[j], Part(e.name, n - (j - p)))
    {
      LfnSlotGivesBack(a[j], e.name, n - (j - p), crc);
    }
    NameBytesKept(a[p], e.name, n, crc);
    SeqByte(n);
    ParseInside(b, p, n, crc, buf, 0);
    if ParseRun(b, p, buf).Parsed? {
      ParsedPlain(b, p, n, crc, buf, 0, e.name);
      assert e.name[..|e.name|] == e.name;
    }
  }

  /**
   A name of 1 to 255 bytes written by `dir_add` is parsed back, to the byte,
   exactly when it holds neither a zero nor a 0xff; the checksum matches then. A
   C string with a 0xff in it is not parsed at all.
   */
  lemma LongNameRoundTrip(a: seq<Slot>, e: Entry, p: nat, eod: bool, buf: seq<Byte>)
    requires e.Valid() && p + e.Lfns() < |a| && |buf| == NAME_BUF
    ensures var b := Added(a, e, p, eod);
            var r := ParseRun(b, p, buf);
            && (PlainName(e.name) <==> r.Parsed? && r.len == |e.name| && r.buf[..r.len] == e.name)
            && (PlainName(e.name) ==>
                  r.pos == p + (|e.name| + 12) / 13 && b[p][CRC_AT] == Crc(b[r.pos][..11], 11) && !IsFree(b[r.pos]))
            && (0x00 !in e.name && 0xff in e.name ==> r.Bad? && r.error.Broken?)
  {
    hide ParseRun, Crc, Added, RunName;
    AddedParsedPlain(a, e, p, eod, buf);
    if PlainName(e.name) {
      AddedRun(a, e, p, eod);
      ParseGood(Added(a, e, p, eod), p, buf);
      GoodRunInside(Added(a, e, p, eod), p);
    }
  }

  /** A search that has come to such an entry fails. */
  lemma SearchFailsAt(a: seq<Slot>, e: Entry, p: nat, eod: bool, m: seq<Byte>, buf: seq<Byte>)
    requires e.Valid() && p + e.Lfns() < |a| && |buf| == NAME_BUF
    requires 0x00 !in e.name && 0xff in e.name
    ensures Search(Added(a, e, p, eod), p, m, buf).outcome.Failed?
  {
    hide ParseRun, Crc, LfnSlot, Part, SfnName, Search;
    LongNameRoundTrip(a, e, p, eod, buf);
    NameBytesKept(a[p], e.name, e.Lfns(), e.Checksum());
    NewSlotIsLfn(a, e, p, eod);
    SeqByte(e.Lfns());
    SearchTurn(Added(a, e, p, eod), p, m, buf);
  }

  lemma {:induction false} SearchStopsFrom(a: seq<Slot>, e: Entry, p: nat, eod: bool, k: nat, m: seq<Byte>,
      buf: seq<Byte>)
    requires e.Valid() && 0x00 !in e.name && 0xff in e.name && Place(a, e, p, eod)
    requires k <= p && WellFormed(a, k) && |buf| == NAME_BUF
    ensures var o := Resolve(a, k, m);
            Search(Added(a, e, p, eod), k, m, buf).outcome == if o.Found? && o.pos < p then o else Failed
    decreases p - k
  {
    hide LfnCount, AddedSlot, Proper, Hits, Behind, Search;
    var b := Added(a, e, p, eod);
    if k == p {
      SearchFailsAt(a, e, p, eod, m, buf);
    } else {
      InsideEntry(a, k);
      BeforePlace(a, e, p, eod, k);
      EntryFrame(a, b, k, m);
      var buf' := SearchProper(b, k, m, buf);
      if !Hits(a, k, m) {
        SearchStopsFrom(a, e, p, eod, Behind(a, k), m, buf');
      }
    }
  }

  /**
   After an entry whose name holds a 0xff has been added, a search for any name
   fails, unless it finds an entry before the new one.
   */
  lemma SearchStops(old_: seq<Slot>, a: seq<Slot>, e: Entry, p: nat, eod: bool, m: seq<Byte>, buf: seq<Byte>,
      buf': seq<Byte>)
    requires e.Valid() && 0x00 !in e.name && 0xff in e.name && |buf| == NAME_BUF && |buf'| == NAME_BUF
    requires WellFormed(old_, 0) && StretchedBy(old_, a) && Place(a, e, p, eod)
    ensures var o := Search(old_, 0, m, buf).outcome;
            Search(Added(a, e, p, eod), 0, m, buf').outcome == if o.Found? && o.pos < p then o else Failed
  {
    hide Search, Resolve, WellFormed, Added, Place, AllLast, Entry.Valid;
    AllLastEach(a[|old_|..]);
    assert a == old_ + a[|old_|..];
    ResolveStretched(old_, a[|old_|..], 0, m);
    SearchResolves(old_, 0, m, buf);
    SearchStopsFrom(a, e, p, eod, 0, m, buf');
  }
}
