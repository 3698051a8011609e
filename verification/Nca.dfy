/**
 NCA files: behind a header of 0xC00 bytes come the sections, each padded to media units of
 0x200 bytes. A PFS0 section is hash table and archive; a RomFS section is its six IVFC levels.
 The header's own bytes - its layout, its encryption - are a parameter.
 */
module Nca {
  import opened Bytes
  import opened Blocks
  import opened HashTree
  import Pfs0
  import Romfs
  import RomfsHash
  import RomfsLayout

  const NCA_HEADER_SIZE: nat := 0xC00
  const NCA_SECTION_TOTAL: nat := 4
  const MEDIA_UNIT: nat := 0x200
  const MEDIA_REACH: nat := MEDIA_UNIT * U32_LIMIT
  const PFS0_PADDING_SIZE: nat := 0x200
  const PFS0_EXEFS_HASH_BLOCK_SIZE: nat := 0x10000
  const PFS0_LOGO_HASH_BLOCK_SIZE: nat := 0x1000
  const PFS0_META_HASH_BLOCK_SIZE: nat := 0x1000

  /** Both fields count media units in 32 bits. */
  datatype SectionTableEntry = SectionTableEntry(mediaStartOffset: nat, mediaEndOffset: nat)

  /** The block size is a power of two, given by its logarithm. */
  datatype Level = Level(logicalOffset: nat, hashDataSize: nat, blockSize: nat)

  /** The part of `FsHeader` that depends on the section. */
  datatype FsHeader =
    | Unused
    | HierarchicalSha256(masterHash: seq<Byte>, blockSize: nat, hashLayerSize: nat, pfs0Offset: nat, pfs0Size: nat)
    | HierarchicalIntegrity(masterHash: seq<Byte>, levels: seq<Level>)

  class NcaHeader {
    var fsTable: seq<SectionTableEntry>
    var fsHeader: seq<FsHeader>
    var size: nat

    constructor ()
      ensures fsTable == seq(NCA_SECTION_TOTAL, _ => SectionTableEntry(0, 0))
      ensures fsHeader == seq(NCA_SECTION_TOTAL, _ => Unused) && size == 0
    {
      fsTable := seq(NCA_SECTION_TOTAL, _ => SectionTableEntry(0, 0));
      fsHeader := seq(NCA_SECTION_TOTAL, _ => Unused);
      size := 0;
    }
  }

  // ---------------------------------------------------------------- the section table

  /** A media offset, cut down to its field. */
  function MediaOffset(at: nat): nat {
    (at / MEDIA_UNIT) % U32_LIMIT
  }

  /** Where a section starts according to the entry of the one before: the multiplication is done
      in 32 bits. */
  function StartAfter(mediaEndOffset: nat): nat {
    (mediaEndOffset * MEDIA_UNIT) % U32_LIMIT
  }

  /** The start of a section comes out right exactly while what lies before it is below 4 GiB. */
  lemma StartIsExact(end: nat)
    requires end % MEDIA_UNIT == 0
    ensures StartAfter(MediaOffset(end)) == end <==> end < U32_LIMIT
  {
    var q := end / MEDIA_UNIT;
    assert end == MEDIA_UNIT * q;
    if end < U32_LIMIT {
      UniqueRemainder(q, U32_LIMIT, 0, q);
      UniqueRemainder(end, U32_LIMIT, 0, end);
    }
  }

  /** Sections lie behind the header one after the other, and the table says where: each starts
      where the one before ends, and nothing is lost in counting media units. */
  ghost predicate Tiles(table: seq<SectionTableEntry>, sections: seq<seq<Byte>>) {
    |sections| <= |table| && forall i :: 0 <= i < |sections| ==> TilesAt(table, sections, i)
  }

  ghost predicate TilesAt(table: seq<SectionTableEntry>, sections: seq<seq<Byte>>, i: nat)
    requires i < |sections| <= |table|
  {
    && table[i].mediaStartOffset * MEDIA_UNIT == NCA_HEADER_SIZE + OffsetOf(sections, i)
    && table[i].mediaEndOffset * MEDIA_UNIT == NCA_HEADER_SIZE + OffsetOf(sections, i + 1)
  }

  /** A file under construction: a header's room, then the sections. */
  ghost predicate Filled(data: seq<Byte>, sections: seq<seq<Byte>>) {
    && NCA_HEADER_SIZE <= |data| && data[NCA_HEADER_SIZE..] == Concat(sections)
    && |data| % MEDIA_UNIT == 0
  }

  /** Every section is found in the range that its table entry gives. */
  lemma RangesHoldSections(table: seq<SectionTableEntry>, data: seq<Byte>, sections: seq<seq<Byte>>, i: nat)
    requires Tiles(table, sections) && Filled(data, sections) && i < |sections|
    ensures Holds(data, table[i].mediaStartOffset * MEDIA_UNIT, sections[i])
    ensures table[i].mediaEndOffset * MEDIA_UNIT == table[i].mediaStartOffset * MEDIA_UNIT + |sections[i]|
    ensures i + 1 < |sections| ==> table[i + 1].mediaStartOffset * MEDIA_UNIT == table[i].mediaEndOffset * MEDIA_UNIT
    ensures i + 1 == |sections| ==> table[i].mediaEndOffset * MEDIA_UNIT == |data|
  {
    assert TilesAt(table, sections, i) && (i + 1 < |sections| ==> TilesAt(table, sections, i + 1));
    ConcatHolds(sections, i);
    ConcatLength(sections);
    HoldsPart(data, NCA_HEADER_SIZE, Concat(sections), OffsetOf(sections, i), sections[i]);
  }

  /** Every section after the first starts below 4 GiB. */
  ghost predicate StartsFit(sections: seq<seq<Byte>>) {
    forall i :: 1 <= i < |sections| ==> NCA_HEADER_SIZE + OffsetOf(sections, i) < U32_LIMIT
  }

  lemma SmallFilesFit(data: seq<Byte>, sections: seq<seq<Byte>>)
    requires Filled(data, sections) && |data| < U32_LIMIT
    ensures StartsFit(sections)
  {
    ConcatLength(sections);
    forall i | 1 <= i < |sections|
      ensures NCA_HEADER_SIZE + OffsetOf(sections, i) < U32_LIMIT
    {
      OffsetsGrow(sections, i, |sections|);
    }
  }

  /** One more section. */
  lemma TilesGrow(table: seq<SectionTableEntry>, sections: seq<seq<Byte>>, section: seq<Byte>, entry: SectionTableEntry)
    requires |sections| < |table|
    ensures Tiles(table[|sections| := entry], sections + [section]) <==>
            && Tiles(table, sections)
            && entry.mediaStartOffset * MEDIA_UNIT == NCA_HEADER_SIZE + |Concat(sections)|
            && entry.mediaEndOffset * MEDIA_UNIT == NCA_HEADER_SIZE + |Concat(sections)| + |section|
  {
    var all, grown, n := sections + [section], table[|sections| := entry], |sections|;
    ConcatLength(sections);
    assert all[..n] == sections;
    OffsetOfPrefix(sections, all, n);
    assert OffsetOf(all, n + 1) == OffsetOf(all, n) + |section|;
    forall i | 0 <= i < n
      ensures TilesAt(grown, all, i) <==> TilesAt(table, sections, i)
    {
      OffsetOfPrefix(sections, all, i);
      OffsetOfPrefix(sections, all, i + 1);
    }
    assert grown[n] == entry;
    assert Tiles(grown, all) ==> TilesAt(grown, all, n) && forall i :: 0 <= i < n ==> TilesAt(grown, all, i);
  }

  lemma StartsGrow(sections: seq<seq<Byte>>, section: seq<Byte>)
    ensures StartsFit(sections + [section]) <==>
            StartsFit(sections) && (|sections| == 0 || NCA_HEADER_SIZE + |Concat(sections)| < U32_LIMIT)
  {
    var all, n := sections + [section], |sections|;
    ConcatLength(sections);
    assert all[..n] == sections;
    forall i | 0 <= i <= n
      ensures OffsetOf(all, i) == OffsetOf(sections, i)
    {
      OffsetOfPrefix(sections, all, i);
    }
    assert StartsFit(all) ==> forall i :: 1 <= i < n ==> NCA_HEADER_SIZE + OffsetOf(all, i) < U32_LIMIT;
  }

  /** `writeNcaSection`. */
  method WriteNcaSection(header: NcaHeader, index: nat, start: nat, end: nat)
    requires index < |header.fsTable|
    modifies header`fsTable
    ensures header.fsTable == old(header.fsTable)[index := SectionTableEntry(MediaOffset(start), MediaOffset(end))]
  {
    header.fsTable := header.fsTable[index := SectionTableEntry(MediaOffset(start), MediaOffset(end))];
  }

  /** The start that a writer computes, and the entry that it makes. */
  function StartOf(table: seq<SectionTableEntry>, index: nat): nat
    requires index <= |table|
  {
    if index == 0 then NCA_HEADER_SIZE else StartAfter(table[index - 1].mediaEndOffset)
  }

  lemma StartIsEnd(table: seq<SectionTableEntry>, data: seq<Byte>, sections: seq<seq<Byte>>)
    requires Tiles(table, sections) && Filled(data, sections)
    ensures StartOf(table, |sections|) == |data| <==> |sections| == 0 || |data| < U32_LIMIT
    ensures |data| == NCA_HEADER_SIZE + |Concat(sections)|
  {
    ConcatLength(sections);
    if |sections| > 0 {
      assert TilesAt(table, sections, |sections| - 1);
      var end := table[|sections| - 1].mediaEndOffset;
      assert end * MEDIA_UNIT == |data|;
      if |data| < U32_LIMIT {
        UniqueRemainder(|data|, U32_LIMIT, 0, |data|);
      }
    }
  }

  /** The entry of a section tiles on if and only if the section is the first or starts below 4 GiB. */
  lemma EntryTiles(table: seq<SectionTableEntry>, data: seq<Byte>, sections: seq<seq<Byte>>, section: seq<Byte>)
    requires Tiles(table, sections) && Filled(data, sections) && |sections| < |table|
    requires |section| % MEDIA_UNIT == 0 && |data| + |section| < MEDIA_REACH
    ensures
      var entry := SectionTableEntry(MediaOffset(StartOf(table, |sections|)), MediaOffset(|data| + |section|));
      Tiles(table[|sections| := entry], sections + [section]) <==> |sections| == 0 || |data| < U32_LIMIT
  {
    var start := StartOf(table, |sections|);
    SumOfMultiples(|data|, |section|);
    StartIsEnd(table, data, sections);
    MediaOffsetIsExact(|data|);
    MediaOffsetIsExact(|data| + |section|);
    MediaOffsetIsBelow(start);
    TilesGrow(table, sections, section, SectionTableEntry(MediaOffset(start), MediaOffset(|data| + |section|)));
  }

  lemma MediaOffsetIsBelow(at: nat)
    ensures MediaOffset(at) * MEDIA_UNIT <= at
  {
    assert MediaOffset(at) <= at / MEDIA_UNIT;
  }

  lemma SumOfMultiples(a: nat, b: nat)
    requires a % MEDIA_UNIT == 0 && b % MEDIA_UNIT == 0
    ensures (a + b) % MEDIA_UNIT == 0
  {
    UniqueRemainder(a + b, MEDIA_UNIT, a / MEDIA_UNIT + b / MEDIA_UNIT, 0);
  }

  lemma MediaOffsetIsExact(at: nat)
    requires at % MEDIA_UNIT == 0 && at < MEDIA_REACH
    ensures MediaOffset(at) * MEDIA_UNIT == at
  {
    UniqueRemainder(at / MEDIA_UNIT, U32_LIMIT, 0, at / MEDIA_UNIT);
  }

  // ---------------------------------------------------------------- PFS0 sections

  /** A section up to the next media unit, by at least a byte. */
  function ToMediaUnit(data: seq<Byte>): (section: seq<Byte>)
    ensures |section| % MEDIA_UNIT == 0
  {
    data + Zeros(PaddingSize(|data|, MEDIA_UNIT))
  }

  /** Padding a file whose sections so far fill media units pads its last section. */
  lemma PaddingIsRelative(start: nat, size: nat)
    requires start % MEDIA_UNIT == 0
    ensures PaddingSize(start + size, MEDIA_UNIT) == PaddingSize(size, MEDIA_UNIT)
  {
    UniqueRemainder(start + size, MEDIA_UNIT, start / MEDIA_UNIT + size / MEDIA_UNIT, size % MEDIA_UNIT);
  }

  function PaddedTable(sha: Hash, pfs0: seq<Byte>, block: nat): seq<Byte>
    requires block > 0
  {
    var table := HashTable(sha, pfs0, block);
    table + Zeros(PaddingSize(|table|, PFS0_PADDING_SIZE))
  }

  function Pfs0Section(sha: Hash, entries: seq<FileEntry>, block: nat): (section: seq<Byte>)
    requires block > 0
    ensures |section| % MEDIA_UNIT == 0
  {
    var pfs0 := Pfs0.Pfs0Image(entries);
    ToMediaUnit(PaddedTable(sha, pfs0, block) + pfs0)
  }

  function Pfs0FsHeader(sha: Hash, entries: seq<FileEntry>, block: nat): FsHeader
    requires block > 0
  {
    var pfs0 := Pfs0.Pfs0Image(entries);
    var table := HashTable(sha, pfs0, block);
    HierarchicalSha256(sha(table), block, |table|, |PaddedTable(sha, pfs0, block)|, |pfs0|)
  }

  /** A reader finds archive and hash table where the header says, and can check them. */
  lemma Pfs0SectionReads(sha: Hash, entries: seq<FileEntry>, block: nat, i: nat)
    requires block > 0
    ensures
      var section, h, pfs0 := Pfs0Section(sha, entries, block), Pfs0FsHeader(sha, entries, block),
        Pfs0.Pfs0Image(entries);
      && Holds(section, h.pfs0Offset, pfs0) && |pfs0| == h.pfs0Size
      && h.hashLayerSize <= |section| && h.masterHash == sha(section[..h.hashLayerSize])
      && h.hashLayerSize <= h.pfs0Offset && h.pfs0Offset % PFS0_PADDING_SIZE == 0 && h.blockSize > 0
      && (i < BlockCount(h.pfs0Size, h.blockSize) ==>
            Holds(section, HASH_SIZE * i, sha(BlockAt(pfs0, h.blockSize, i))))
  {
    var pfs0 := Pfs0.Pfs0Image(entries);
    var table, padded := HashTable(sha, pfs0, block), PaddedTable(sha, pfs0, block);
    var section := Pfs0Section(sha, entries, block);
    assert Holds(section, 0, padded) && Holds(section, |padded|, pfs0);
    PaddingReachesMultiple(|table|, PFS0_PADDING_SIZE);
    assert section[..|table|] == table;
    if i < BlockCount(|pfs0|, block) {
      HashTableHolds(sha, pfs0, block, i);
      HoldsPart(section, 0, table, HASH_SIZE * i, sha(BlockAt(pfs0, block, i)));
    }
  }

  /** `writeNcaPfs0`: the next section of a file is a PFS0. */
  method WriteNcaPfs0(sha: Hash, header: NcaHeader, index: nat, entries: seq<FileEntry>, blockSize: nat, buf: BufHelper,
                      ghost sections: seq<seq<Byte>>)
    requires blockSize > 0 && RoundsUpIn32Bits(|Pfs0.Pfs0Image(entries)|, blockSize)
    requires index == |sections| < |header.fsTable| == |header.fsHeader|
    requires Filled(buf.buf, sections) && buf.offset == |buf.buf|
    modifies header`fsTable, header`fsHeader, buf
    ensures buf.buf == old(buf.buf) + Pfs0Section(sha, entries, blockSize) && buf.offset == |buf.buf|
    ensures header.fsTable == old(header.fsTable)[index :=
              SectionTableEntry(MediaOffset(StartOf(old(header.fsTable), index)), MediaOffset(|buf.buf|))]
    ensures header.fsHeader == old(header.fsHeader)[index := Pfs0FsHeader(sha, entries, blockSize)]
  {
    var pfs0 := Pfs0.BuildPfs0(entries);
    var hashTable := BuildPfs0HashTable(sha, pfs0, blockSize);
    var masterHash := sha(hashTable);
    var pfs0Offset := WriteLayers(sha, pfs0, hashTable, blockSize, buf);
    var sectionStart := StartOf(header.fsTable, index);
    WriteNcaSection(header, index, sectionStart, buf.Tell());
    header.fsHeader := header.fsHeader[index :=
      HierarchicalSha256(masterHash, blockSize, |hashTable|, pfs0Offset, |pfs0|)];
  }

  /** Hash table, padding, archive, padding. */
  method WriteLayers(sha: Hash, pfs0: seq<Byte>, hashTable: seq<Byte>, blockSize: nat, buf: BufHelper)
    returns (pfs0Offset: nat)
    requires blockSize > 0 && hashTable == HashTable(sha, pfs0, blockSize)
    requires buf.offset == |buf.buf| && |buf.buf| % MEDIA_UNIT == 0
    modifies buf
    ensures buf.buf == old(buf.buf) + ToMediaUnit(PaddedTable(sha, pfs0, blockSize) + pfs0) && buf.offset == |buf.buf|
    ensures pfs0Offset == |PaddedTable(sha, pfs0, blockSize)|
  {
    ghost var before, padded := buf.buf, PaddedTable(sha, pfs0, blockSize);
    buf.Write(hashTable);
    var paddingSize := WritePadding(buf, |hashTable|, PFS0_PADDING_SIZE);
    assert buf.buf == before + padded;
    pfs0Offset := |hashTable| + paddingSize;
    buf.Write(pfs0);
    assert buf.buf == before + (padded + pfs0);
    WriteNcaPadding(buf, before, padded + pfs0);
  }

  /** `writeNcaPadding` behind what was written of a section. */
  method WriteNcaPadding(buf: BufHelper, ghost before: seq<Byte>, ghost written: seq<Byte>)
    requires buf.buf == before + written && buf.offset == |buf.buf| && |before| % MEDIA_UNIT == 0
    modifies buf
    ensures buf.buf == before + ToMediaUnit(written) && buf.offset == |buf.buf|
  {
    PaddingIsRelative(|before|, |written|);
    var padding := WritePadding(buf, buf.Tell(), MEDIA_UNIT);
  }

  // ---------------------------------------------------------------- RomFS sections

  /** Level `k` of six: the padded image is level 5, every level above hashes the next one. */
  function IvfcLevelOf(sha: Hash, romfs: seq<Byte>, k: nat): seq<Byte>
    requires k < IVFC_MAX_LEVEL
  {
    LevelAbove(sha, Padded(romfs), 5 - k)
  }

  function IvfcLevels(sha: Hash, romfs: seq<Byte>): (levels: seq<seq<Byte>>)
    ensures |levels| == IVFC_MAX_LEVEL
  {
    seq(IVFC_MAX_LEVEL, k requires 0 <= k < IVFC_MAX_LEVEL => IvfcLevelOf(sha, romfs, k))
  }

  function RomfsSection(sha: Hash, romfs: seq<Byte>): (section: seq<Byte>)
    ensures |section| % MEDIA_UNIT == 0
  {
    ToMediaUnit(Concat(IvfcLevels(sha, romfs)))
  }

  /** Offsets are the sums of the sizes before; the size of the data level is that of the unpadded image. */
  function LevelInfo(levels: seq<seq<Byte>>, romfsSize: nat, k: nat): Level
    requires k < |levels| == IVFC_MAX_LEVEL
  {
    Level(OffsetOf(levels, k), if k == 5 then romfsSize else |levels[k]|, 0x0E)
  }

  function RomfsFsHeader(sha: Hash, romfs: seq<Byte>): FsHeader {
    var levels := IvfcLevels(sha, romfs);
    HierarchicalIntegrity(sha(levels[0]),
                          seq(IVFC_MAX_LEVEL, k requires 0 <= k < IVFC_MAX_LEVEL => LevelInfo(levels, |romfs|, k)))
  }

  /** A level is smaller than 4 GiB if the next one is. */
  lemma LevelStaysSmall(sha: Hash, src: seq<Byte>)
    requires |src| < U32_LIMIT
    ensures |IvfcLevel(sha, src)| < U32_LIMIT
  {
    var n := BlockCount(|src|, IVFC_HASH_BLOCK_SIZE);
    if n > 0 {
      BlockStarts(|src|, IVFC_HASH_BLOCK_SIZE, n - 1);
    }
  }

  /** The loop over the levels, from the image upwards. */
  method BuildLevels(sha: Hash, image: seq<Byte>, ghost romfs: seq<Byte>) returns (ivfc: seq<seq<Byte>>)
    requires image == Padded(romfs) && |image| < U32_LIMIT
    ensures ivfc == IvfcLevels(sha, romfs)
  {
    ivfc := seq(IVFC_MAX_LEVEL, _ => [])[5 := image];
    var level := 4;
    while level >= 0
      invariant -1 <= level <= 4 && |ivfc| == IVFC_MAX_LEVEL
      invariant forall k :: level < k < IVFC_MAX_LEVEL ==> ivfc[k] == IvfcLevelOf(sha, romfs, k)
      invariant |ivfc[level + 1]| < U32_LIMIT
      decreases level
    {
      LevelStaysSmall(sha, ivfc[level + 1]);
      var above := CreateIvfcLevel(sha, ivfc[level + 1]);
      assert above == IvfcLevelOf(sha, romfs, level);
      ivfc := ivfc[level := above];
      level := level - 1;
    }
  }

  /** The table of the levels: sizes first, then the offsets as running sums. */
  method DescribeLevels(ivfc: seq<seq<Byte>>, romfsSize: nat) returns (levels: seq<Level>)
    requires |ivfc| == IVFC_MAX_LEVEL
    ensures levels == seq(IVFC_MAX_LEVEL, k requires 0 <= k < IVFC_MAX_LEVEL => LevelInfo(ivfc, romfsSize, k))
  {
    levels := seq(IVFC_MAX_LEVEL, k requires 0 <= k < IVFC_MAX_LEVEL => Level(0, if k ==
      5 then romfsSize else |ivfc[k]|, 0x0E));
    for k := 1 to IVFC_MAX_LEVEL
      invariant |levels| == IVFC_MAX_LEVEL
      invariant forall j :: 0 <= j < k ==> levels[j] == LevelInfo(ivfc, romfsSize, j)
      invariant forall j :: k <= j < IVFC_MAX_LEVEL ==> levels[j] == LevelInfo(ivfc, romfsSize, j).(logicalOffset := 0)
    {
      var before := levels[k - 1];
      levels := levels[k := levels[k].(logicalOffset := before.logicalOffset + before.hashDataSize)];
    }
  }

  method WriteLevels(buf: BufHelper, ivfc: seq<seq<Byte>>)
    requires buf.offset == |buf.buf|
    modifies buf
    ensures buf.buf == old(buf.buf) + Concat(ivfc) && buf.offset == |buf.buf|
  {
    for k := 0 to |ivfc|
      invariant buf.offset == |buf.buf| && buf.buf == old(buf.buf) + Concat(ivfc[..k])
    {
      assert ivfc[..k + 1][..k] == ivfc[..k];
      buf.Write(ivfc[k]);
    }
    assert ivfc[..|ivfc|] == ivfc;
  }

  /** `writeNcaRomfs`: the next section of a file is a RomFS. */
  method WriteNcaRomfs(sha: Hash, header: NcaHeader, index: nat, entries: seq<FileEntry>, buf: BufHelper,
                       ghost sections: seq<seq<Byte>>)
    requires RomfsLayout.Fits(entries) && |Padded(RomfsLayout.RomfsImage(entries))| < U32_LIMIT
    requires index == |sections| < |header.fsTable| == |header.fsHeader|
    requires Filled(buf.buf, sections) && buf.offset == |buf.buf|
    modifies header`fsTable, header`fsHeader, buf
    ensures buf.buf == old(buf.buf) + RomfsSection(sha, RomfsLayout.RomfsImage(entries)) && buf.offset == |buf.buf|
    ensures header.fsTable == old(header.fsTable)[index :=
              SectionTableEntry(MediaOffset(StartOf(old(header.fsTable), index)), MediaOffset(|buf.buf|))]
    ensures header.fsHeader == old(header.fsHeader)[index := RomfsFsHeader(sha, RomfsLayout.RomfsImage(entries))]
  {
    ghost var romfs := RomfsLayout.RomfsImage(entries);
    var image, romfsSize := Romfs.BuildRomfs(entries, IVFC_HASH_BLOCK_SIZE);
    var ivfc := BuildLevels(sha, image, romfs);
    var levels := DescribeLevels(ivfc, romfsSize);
    WriteLevels(buf, ivfc);
    WriteNcaPadding(buf, old(buf.buf), Concat(ivfc));
    var masterHash := sha(ivfc[0]);
    var sectionStart := StartOf(header.fsTable, index);
    WriteNcaSection(header, index, sectionStart, buf.Tell());
    header.fsHeader := header.fsHeader[index := HierarchicalIntegrity(masterHash, levels)];
  }

  /** The offsets of the header locate every level in the section, the image among them. */
  lemma LevelsAreLocated(sha: Hash, romfs: seq<Byte>, k: nat)
    requires k < 5
    ensures
      var section, h, levels := RomfsSection(sha, romfs), RomfsFsHeader(sha, romfs), IvfcLevels(sha, romfs);
      && h.levels[0].logicalOffset == 0
      && h.levels[k + 1].logicalOffset == h.levels[k].logicalOffset + h.levels[k].hashDataSize
      && Holds(section, h.levels[k].logicalOffset, levels[k]) && |levels[k]| == h.levels[k].hashDataSize
      && Holds(section, h.levels[5].logicalOffset, romfs) && |romfs| == h.levels[5].hashDataSize
  {
    var section, levels := RomfsSection(sha, romfs), IvfcLevels(sha, romfs);
    LevelIsHeld(sha, romfs, k);
    LevelIsHeld(sha, romfs, 5);
    assert levels[5] == Padded(romfs);
    HoldsPart(section, OffsetOf(levels, 5), levels[5], 0, romfs);
  }

  /** Levels are whole numbers of hash blocks, the master hash covers the first, and each level
      hashes the next. */
  lemma LevelsAreChained(sha: Hash, romfs: seq<Byte>, k: nat)
    requires k < 5
    ensures
      var levels := IvfcLevels(sha, romfs);
      && RomfsFsHeader(sha, romfs).masterHash == sha(levels[0])
      && levels[k] == IvfcLevel(sha, levels[k + 1])
      && |levels[k]| % IVFC_HASH_BLOCK_SIZE == 0 && |levels[k + 1]| % IVFC_HASH_BLOCK_SIZE == 0
  {
    LevelStep(sha, Padded(romfs), 4 - k);
    LevelsAreWhole(sha, romfs, k);
    LevelsAreWhole(sha, romfs, k + 1);
  }

  lemma LevelsAreWhole(sha: Hash, romfs: seq<Byte>, k: nat)
    requires k < IVFC_MAX_LEVEL
    ensures |IvfcLevels(sha, romfs)[k]| % IVFC_HASH_BLOCK_SIZE == 0
  {
    if k < 5 {
      LevelStep(sha, Padded(romfs), 4 - k);
    }
  }

  /** Integrity chain: hash `i` of a level, at byte `32 * i` of it, is that of block `i` of the next. */
  lemma BlocksAreHashed(sha: Hash, romfs: seq<Byte>, k: nat, i: nat)
    requires k < 5 && i < BlockCount(|IvfcLevels(sha, romfs)[k + 1]|, IVFC_HASH_BLOCK_SIZE)
    ensures Holds(RomfsSection(sha, romfs), RomfsFsHeader(sha, romfs).levels[k].logicalOffset + HASH_SIZE * i,
                  sha(BlockAt(IvfcLevels(sha, romfs)[k + 1], IVFC_HASH_BLOCK_SIZE, i)))
  {
    var levels := IvfcLevels(sha, romfs);
    var at, next := OffsetOf(levels, k), levels[k + 1];
    assert Holds(RomfsSection(sha, romfs), at, IvfcLevel(sha, next)) by {
      LevelsAreChained(sha, romfs, k);
      LevelIsHeld(sha, romfs, k);
    }
    HashIsHeld(sha, RomfsSection(sha, romfs), at, next, i);
  }

  /** And every level records the size of those blocks, as a power of two. */
  lemma BlockSizesAreRecorded(sha: Hash, romfs: seq<Byte>, k: nat)
    requires k < IVFC_MAX_LEVEL
    ensures RomfsHash.Pow2(RomfsFsHeader(sha, romfs).levels[k].blockSize) == IVFC_HASH_BLOCK_SIZE
  {
    assert RomfsHash.Pow2(7) == 128;
    assert RomfsHash.Pow2(14) == 16384;
  }

  lemma {:induction false} HashIsHeld(sha: Hash, section: seq<Byte>, at: nat, src: seq<Byte>, i: nat)
    requires Holds(section, at, IvfcLevel(sha, src)) && i < BlockCount(|src|, IVFC_HASH_BLOCK_SIZE)
    ensures Holds(section, at + HASH_SIZE * i, sha(BlockAt(src, IVFC_HASH_BLOCK_SIZE, i)))
  {
    LevelHolds(sha, src, i);
    HoldsPart(section, at, IvfcLevel(sha, src), HASH_SIZE * i, sha(BlockAt(src, IVFC_HASH_BLOCK_SIZE, i)));
  }

  /** The whole chain pins the image: a RomFS of the same size under the same master hash is the
      same, or the hash has a collision. */
  lemma MasterHashPinsImage(sha: Hash, a: seq<Byte>, b: seq<Byte>)
    requires |a| == |b| && RomfsFsHeader(sha, a).masterHash == RomfsFsHeader(sha, b).masterHash
    ensures a == b || Collision(sha)
  {
    assert IvfcLevels(sha, a)[0] == LevelAbove(sha, Padded(a), 5)
      && IvfcLevels(sha, b)[0] == LevelAbove(sha, Padded(b), 5);
    MasterHashPins(sha, Padded(a), Padded(b));
    assert Padded(a)[..|a|] == a && Padded(b)[..|b|] == b;
  }

  lemma LevelIsHeld(sha: Hash, romfs: seq<Byte>, k: nat)
    requires k < IVFC_MAX_LEVEL
    ensures Holds(RomfsSection(sha, romfs), OffsetOf(IvfcLevels(sha, romfs), k), IvfcLevels(sha, romfs)[k])
  {
    var section, levels := RomfsSection(sha, romfs), IvfcLevels(sha, romfs);
    assert Holds(Concat(levels), OffsetOf(levels, k), levels[k]) by { ConcatHolds(levels, k); }
    assert Holds(section, 0, Concat(levels));
    HoldsPart(section, 0, Concat(levels), OffsetOf(levels, k), levels[k]);
  }

  // ---------------------------------------------------------------- whole files

  type HeaderBlock = h: seq<Byte> | |h| == NCA_HEADER_SIZE witness Zeros(NCA_HEADER_SIZE)

  /** How a header is laid out in its block and encrypted. */
  type Seal = (seq<SectionTableEntry>, seq<FsHeader>, nat) -> HeaderBlock

  /** A file to which sections are added: its table tiles it exactly if the starts fit. */
  ghost predicate InProgress(header: NcaHeader, buf: BufHelper, sections: seq<seq<Byte>>)
    reads header, buf
  {
    && Filled(buf.buf, sections) && buf.offset == |buf.buf|
    && |sections| <= |header.fsTable| == |header.fsHeader| == NCA_SECTION_TOTAL
    && (|buf.buf| < MEDIA_REACH ==> (Tiles(header.fsTable, sections) <==> StartsFit(sections)))
  }

  /** An empty file: room for the header. */
  method StartNca() returns (header: NcaHeader, buf: BufHelper)
    ensures fresh(header) && fresh(buf) && InProgress(header, buf, [])
    ensures header.fsHeader == seq(NCA_SECTION_TOTAL, _ => Unused)
  {
    buf := new BufHelper();
    header := new NcaHeader();
    buf.Write(Zeros(NCA_HEADER_SIZE));
  }

  lemma SectionIsAdded(table: seq<SectionTableEntry>, data: seq<Byte>, sections: seq<seq<Byte>>, section: seq<Byte>)
    requires Filled(data, sections) && |sections| < |table| && |section| % MEDIA_UNIT == 0
    requires |data| < MEDIA_REACH ==> (Tiles(table, sections) <==> StartsFit(sections))
    ensures Filled(data + section, sections + [section])
    ensures
      var entry := SectionTableEntry(MediaOffset(StartOf(table, |sections|)), MediaOffset(|data + section|));
      |data + section| < MEDIA_REACH ==>
        (Tiles(table[|sections| := entry], sections + [section]) <==> StartsFit(sections + [section]))
  {
    assert (sections + [section])[..|sections|] == sections;
    assert (data + section)[NCA_HEADER_SIZE..] == data[NCA_HEADER_SIZE..] + section;
    SumOfMultiples(|data|, |section|);
    StartsGrow(sections, section);
    assert |data| == NCA_HEADER_SIZE + |Concat(sections)|;
    if |data + section| < MEDIA_REACH {
      if Tiles(table, sections) {
        EntryTiles(table, data, sections, section);
      } else {
        TilesGrow(table, sections, section,
                  SectionTableEntry(MediaOffset(StartOf(table, |sections|)), MediaOffset(|data + section|)));
      }
    }
  }

  method AddPfs0(sha: Hash, header: NcaHeader, index: nat, entries: seq<FileEntry>, blockSize: nat, buf: BufHelper,
                 ghost sections: seq<seq<Byte>>)
    requires blockSize > 0 && RoundsUpIn32Bits(|Pfs0.Pfs0Image(entries)|, blockSize)
    requires InProgress(header, buf, sections) && index == |sections| < NCA_SECTION_TOTAL
    modifies header`fsTable, header`fsHeader, buf
    ensures InProgress(header, buf, sections + [Pfs0Section(sha, entries, blockSize)])
    ensures header.fsHeader == old(header.fsHeader)[index := Pfs0FsHeader(sha, entries, blockSize)]
  {
    SectionIsAdded(header.fsTable, buf.buf, sections, Pfs0Section(sha, entries, blockSize));
    WriteNcaPfs0(sha, header, index, entries, blockSize, buf, sections);
  }

  method AddRomfs(sha: Hash, header: NcaHeader, index: nat, entries: seq<FileEntry>, buf: BufHelper,
                  ghost sections: seq<seq<Byte>>)
    requires RomfsFits(entries)
    requires InProgress(header, buf, sections) && index == |sections| < NCA_SECTION_TOTAL
    modifies header`fsTable, header`fsHeader, buf
    ensures InProgress(header, buf, sections + [RomfsSection(sha, RomfsLayout.RomfsImage(entries))])
    ensures header.fsHeader == old(header.fsHeader)[index := RomfsFsHeader(sha, RomfsLayout.RomfsImage(entries))]
  {
    SectionIsAdded(header.fsTable, buf.buf, sections, RomfsSection(sha, RomfsLayout.RomfsImage(entries)));
    WriteNcaRomfs(sha, header, index, entries, buf, sections);
  }

  ghost predicate RomfsFits(entries: seq<FileEntry>) {
    RomfsLayout.Fits(entries) && |Padded(RomfsLayout.RomfsImage(entries))| < U32_LIMIT
  }

  /** `finalizeNcaHeader`: the sealed header goes over the room left for it, and nothing else. */
  method FinalizeNcaHeader(header: NcaHeader, seal: Seal, buf: BufHelper, ghost sections: seq<seq<Byte>>)
    requires InProgress(header, buf, sections)
    modifies header`size, buf
    ensures header.fsTable == old(header.fsTable) && header.fsHeader == old(header.fsHeader)
    ensures Finished(buf.buf, header, seal, sections)
  {
    header.size := buf.Tell();
    buf.Seek(0);
    ghost var before := buf.buf;
    buf.Write(seal(header.fsTable, header.fsHeader, header.size));
    assert buf.buf[NCA_HEADER_SIZE..] == before[NCA_HEADER_SIZE..];
  }

  /** What is promised of a finished file: the sections are behind the sealed header, whose table
      tiles the file if and only if every section after the first starts below 4 GiB. */
  ghost predicate Finished(data: seq<Byte>, header: NcaHeader, seal: Seal, sections: seq<seq<Byte>>)
    reads header
  {
    && Filled(data, sections) && header.size == |data|
    && data[..NCA_HEADER_SIZE] == seal(header.fsTable, header.fsHeader, |data|)
    && (|data| < MEDIA_REACH ==> (Tiles(header.fsTable, sections) <==> StartsFit(sections)))
  }

  /** The sections of a program: code, contents, and a logo if it has both its files. */
  function ProgramSections(sha: Hash, exefs: seq<FileEntry>, romfsEntries: seq<FileEntry>,
                           logo: seq<FileEntry>): seq<seq<Byte>>
    requires RomfsLayout.Named(romfsEntries)
  {
    [Pfs0Section(sha, exefs, PFS0_EXEFS_HASH_BLOCK_SIZE), RomfsSection(sha, RomfsLayout.RomfsImage(romfsEntries))]
      + LogoSections(sha, logo)
  }

  function LogoSections(sha: Hash, logo: seq<FileEntry>): seq<seq<Byte>> {
    if HasLogo(logo) then [Pfs0Section(sha, logo, PFS0_LOGO_HASH_BLOCK_SIZE)] else []
  }

  predicate HasLogo(logo: seq<FileEntry>) {
    |logo| == 2 && logo[0].data != [] && logo[1].data != []
  }

  /** The sections of `createProgramNca`. */
  method AddProgramSections(sha: Hash, header: NcaHeader, buf: BufHelper, exefs: seq<FileEntry>,
                            romfsEntries: seq<FileEntry>,
                            logo: seq<FileEntry>)
    requires RoundsUpIn32Bits(|Pfs0.Pfs0Image(exefs)|, PFS0_EXEFS_HASH_BLOCK_SIZE)
    requires HasLogo(logo) ==> RoundsUpIn32Bits(|Pfs0.Pfs0Image(logo)|, PFS0_LOGO_HASH_BLOCK_SIZE)
    requires RomfsFits(romfsEntries)
    requires InProgress(header, buf, []) && header.fsHeader == seq(NCA_SECTION_TOTAL, _ => Unused)
    modifies header`fsTable, header`fsHeader, buf
    ensures InProgress(header, buf, ProgramSections(sha, exefs, romfsEntries, logo))
    ensures header.fsHeader[0] == Pfs0FsHeader(sha, exefs, PFS0_EXEFS_HASH_BLOCK_SIZE)
    ensures header.fsHeader[1] == RomfsFsHeader(sha, RomfsLayout.RomfsImage(romfsEntries))
    ensures header.fsHeader[2] == if HasLogo(logo) then Pfs0FsHeader(sha, logo, PFS0_LOGO_HASH_BLOCK_SIZE) else Unused
  {
    AddFirstSections(sha, header, buf, exefs, romfsEntries);
    ghost var code := Pfs0Section(sha, exefs, PFS0_EXEFS_HASH_BLOCK_SIZE);
    AddLogo(sha, header, logo, buf, [code, RomfsSection(sha, RomfsLayout.RomfsImage(romfsEntries))]);
  }

  /** Program and contents. */
  method AddFirstSections(sha: Hash, header: NcaHeader, buf: BufHelper, exefs: seq<FileEntry>,
                          romfsEntries: seq<FileEntry>)
    requires RoundsUpIn32Bits(|Pfs0.Pfs0Image(exefs)|, PFS0_EXEFS_HASH_BLOCK_SIZE) && RomfsFits(romfsEntries)
    requires InProgress(header, buf, [])
    modifies header`fsTable, header`fsHeader, buf
    ensures
      var code := Pfs0Section(sha, exefs, PFS0_EXEFS_HASH_BLOCK_SIZE);
      InProgress(header, buf, [code, RomfsSection(sha, RomfsLayout.RomfsImage(romfsEntries))])
    ensures header.fsHeader == old(header.fsHeader)
              [0 := Pfs0FsHeader(sha, exefs, PFS0_EXEFS_HASH_BLOCK_SIZE)]
              [1 := RomfsFsHeader(sha, RomfsLayout.RomfsImage(romfsEntries))]
  {
    ghost var code := Pfs0Section(sha, exefs, PFS0_EXEFS_HASH_BLOCK_SIZE);
    ghost var contents := RomfsSection(sha, RomfsLayout.RomfsImage(romfsEntries));
    AddPfs0(sha, header, 0, exefs, PFS0_EXEFS_HASH_BLOCK_SIZE, buf, []);
    AddRomfs(sha, header, 1, romfsEntries, buf, [] + [code]);
    assert [] + [code] + [contents] == [code, contents];
  }

  /** `createProgramNca`. */
  method CreateProgramNca(sha: Hash, seal: Seal, exefs: seq<FileEntry>, romfsEntries: seq<FileEntry>,
                          logo: seq<FileEntry>)
    returns (data: seq<Byte>, header: NcaHeader)
    requires RoundsUpIn32Bits(|Pfs0.Pfs0Image(exefs)|, PFS0_EXEFS_HASH_BLOCK_SIZE)
    requires HasLogo(logo) ==> RoundsUpIn32Bits(|Pfs0.Pfs0Image(logo)|, PFS0_LOGO_HASH_BLOCK_SIZE)
    requires RomfsFits(romfsEntries)
    ensures fresh(header) && Finished(data, header, seal, ProgramSections(sha, exefs, romfsEntries, logo))
    ensures |header.fsHeader| == NCA_SECTION_TOTAL
    ensures header.fsHeader[0] == Pfs0FsHeader(sha, exefs, PFS0_EXEFS_HASH_BLOCK_SIZE)
    ensures header.fsHeader[1] == RomfsFsHeader(sha, RomfsLayout.RomfsImage(romfsEntries))
    ensures header.fsHeader[2] == if HasLogo(logo) then Pfs0FsHeader(sha, logo, PFS0_LOGO_HASH_BLOCK_SIZE) else Unused
  {
    var buf;
    header, buf := StartNca();
    AddProgramSections(sha, header, buf, exefs, romfsEntries, logo);
    FinalizeNcaHeader(header, seal, buf, ProgramSections(sha, exefs, romfsEntries, logo));
    data := buf.buf;
  }

  /** The third section, if there is one. */
  method AddLogo(sha: Hash, header: NcaHeader, logo: seq<FileEntry>, buf: BufHelper, ghost sections: seq<seq<Byte>>)
    requires HasLogo(logo) ==> RoundsUpIn32Bits(|Pfs0.Pfs0Image(logo)|, PFS0_LOGO_HASH_BLOCK_SIZE)
    requires InProgress(header, buf, sections) && |sections| == 2 && header.fsHeader[2] == Unused
    modifies header`fsTable, header`fsHeader, buf
    ensures InProgress(header, buf, sections + LogoSections(sha, logo))
    ensures header.fsHeader == old(header.fsHeader)[2 :=
              if HasLogo(logo) then Pfs0FsHeader(sha, logo, PFS0_LOGO_HASH_BLOCK_SIZE) else Unused]
  {
    if HasLogo(logo) {
      AddPfs0(sha, header, 2, logo, PFS0_LOGO_HASH_BLOCK_SIZE, buf, sections);
    } else {
      assert sections + LogoSections(sha, logo) == sections;
    }
  }

  /** The section headers of a file with one section. */
  function OneFsHeader(first: FsHeader): seq<FsHeader> {
    seq(NCA_SECTION_TOTAL, _ => Unused)[0 := first]
  }

  /** `createControlNca`: one RomFS section. */
  method CreateControlNca(sha: Hash, seal: Seal, romfsEntries: seq<FileEntry>)
    returns (data: seq<Byte>, header: NcaHeader)
    requires RomfsFits(romfsEntries)
    ensures fresh(header)
    ensures Finished(data, header, seal, [RomfsSection(sha, RomfsLayout.RomfsImage(romfsEntries))])
    ensures header.fsHeader == OneFsHeader(RomfsFsHeader(sha, RomfsLayout.RomfsImage(romfsEntries)))
  {
    var buf;
    header, buf := StartNca();
    AddRomfs(sha, header, 0, romfsEntries, buf, []);
    ghost var sections := [RomfsSection(sha, RomfsLayout.RomfsImage(romfsEntries))];
    assert [] + sections == sections;
    FinalizeNcaHeader(header, seal, buf, sections);
    data := buf.buf;
  }

  /** The packing part of `createMetaNca`: one PFS0 section. */
  method CreateMetaNca(sha: Hash, seal: Seal, cnmtEntries: seq<FileEntry>) returns (data: seq<Byte>, header: NcaHeader)
    requires RoundsUpIn32Bits(|Pfs0.Pfs0Image(cnmtEntries)|, PFS0_META_HASH_BLOCK_SIZE)
    ensures fresh(header)
    ensures Finished(data, header, seal, [Pfs0Section(sha, cnmtEntries, PFS0_META_HASH_BLOCK_SIZE)])
    ensures header.fsHeader == OneFsHeader(Pfs0FsHeader(sha, cnmtEntries, PFS0_META_HASH_BLOCK_SIZE))
  {
    var buf;
    header, buf := StartNca();
    AddPfs0(sha, header, 0, cnmtEntries, PFS0_META_HASH_BLOCK_SIZE, buf, []);
    ghost var sections := [Pfs0Section(sha, cnmtEntries, PFS0_META_HASH_BLOCK_SIZE)];
    assert [] + sections == sections;
    FinalizeNcaHeader(header, seal, buf, sections);
    data := buf.buf;
  }
}
