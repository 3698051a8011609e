/**
 From a finished NCA back to the files that went in: section table, section header, container.
 */
module NcaReader {
  import opened Bytes
  import opened Wrappers
  import opened Blocks
  import opened HashTree
  import opened Nca
  import Pfs0
  import RomfsLayout
  import RomfsReader

  /** The bytes of a section's container, at an offset inside the section. */
  function Extract(data: seq<Byte>, entry: SectionTableEntry, offset: nat, size: nat): Option<seq<Byte>> {
    var at := entry.mediaStartOffset * MEDIA_UNIT + offset;
    if at + size <= entry.mediaEndOffset * MEDIA_UNIT <= |data| then Some(data[at..at + size]) else None
  }

  lemma ContainerIsExtracted(table: seq<SectionTableEntry>, data: seq<Byte>, sections: seq<seq<Byte>>, i: nat,
                                                offset: nat, container: seq<Byte>)
    requires Tiles(table, sections) && Filled(data, sections) && i < |sections|
    requires Holds(sections[i], offset, container)
    ensures Extract(data, table[i], offset, |container|) == Some(container)
  {
    RangesHoldSections(table, data, sections, i);
    HoldsPart(data, table[i].mediaStartOffset * MEDIA_UNIT, sections[i], offset, container);
  }

  /** The files of a PFS0 section, found through both headers. */
  lemma Pfs0FilesAreFound(sha: Hash, table: seq<SectionTableEntry>, data: seq<Byte>, sections: seq<seq<Byte>>,
                                             i: nat, entries: seq<FileEntry>, block: nat)
    requires Tiles(table, sections) && Filled(data, sections) && i < |sections|
    requires block > 0 && sections[i] == Pfs0Section(sha, entries, block) && Pfs0.Fits(entries)
    ensures
      var h := Pfs0FsHeader(sha, entries, block);
      var pfs0 := Extract(data, table[i], h.pfs0Offset, h.pfs0Size);
      pfs0.Some? && Pfs0.ParsePfs0(pfs0.value) == Some(Pfs0.Readable(entries))
  {
    Pfs0SectionReads(sha, entries, block, 0);
    ContainerIsExtracted(table, data, sections, i, Pfs0FsHeader(sha, entries, block).pfs0Offset,
      Pfs0.Pfs0Image(entries));
    Pfs0.Pfs0RoundTrip(entries);
  }

  /** The files of a RomFS section, found through both headers: all of them exactly if their sizes
      agree with those of the contexts that took their places. */
  lemma RomfsFilesAreFound(sha: Hash, table: seq<SectionTableEntry>, data: seq<Byte>, sections: seq<seq<Byte>>,
                                              i: nat, entries: seq<FileEntry>)
    requires Tiles(table, sections) && Filled(data, sections) && i < |sections|
    requires RomfsLayout.Fits(entries) && RomfsReader.DistinctPaths(entries)
    requires sections[i] == RomfsSection(sha, RomfsLayout.RomfsImage(entries))
    ensures
      var level := RomfsFsHeader(sha, RomfsLayout.RomfsImage(entries)).levels[5];
      var romfs := Extract(data, table[i], level.logicalOffset, level.hashDataSize);
      romfs.Some? && (RomfsReader.ReadsBack(romfs.value, entries) <==> RomfsReader.SizesAgree(entries))
  {
    var romfs := RomfsLayout.RomfsImage(entries);
    LevelsAreLocated(sha, romfs, 4);
    ContainerIsExtracted(table, data, sections, i, RomfsFsHeader(sha, romfs).levels[5].logicalOffset, romfs);
    RomfsReader.RomfsRoundTrip(entries);
  }
}
