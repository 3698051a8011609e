/**
 Listing the root directory of a RomFS: from the first file that its entry names, along the
 siblings. The walk visits every file once, in the order in which they were packed.
 */
module RomfsWalk {
  import opened Bytes
  import opened Wrappers
  import RomfsHash
  import opened RomfsLayout
  import opened RomfsReader

  /** The sibling of the entry at this offset. */
  function NextFile(image: seq<Byte>, tableOff: nat, entry: nat): nat
    requires tableOff + entry + FILE_ENTRY_SIZE <= |image|
  {
    Field(image, tableOff + entry + 4, 4)
  }

  /** The entries along the siblings. These lie ever further on; the reader gives up on one that does
      not, or that leaves the image. */
  function Walk(image: seq<Byte>, tableOff: nat, entry: nat): seq<EntryView>
    decreases if entry < |image| then |image| - entry else 0
  {
    var view := ReadEntry(image, tableOff, entry);
    if entry == ROMFS_ENTRY_EMPTY || view.None? then []
    else
      var next := NextFile(image, tableOff, entry);
      [view.value] + if next > entry then Walk(image, tableOff, next) else []
  }

  /** The files of the root directory, whose entry is the first of its table. */
  function ListFiles(image: seq<Byte>): seq<EntryView> {
    if |image| < HEADER_SIZE then [] else ListDirectory(image, Field(image, 24, 8), Field(image, 56, 8))
  }

  function ListDirectory(image: seq<Byte>, at: nat, tableOff: nat): seq<EntryView> {
    if at + DIR_ENTRY_SIZE > |image| then [] else Walk(image, tableOff, Field(image, at + 12, 4))
  }

  // ---------------------------------------------------------------- along the siblings

  lemma SiblingIsRead(image: seq<Byte>, at: nat, sibling: nat, dataOff: nat, dataSize: nat, nextHash: nat,
                      name: seq<Byte>)
    requires Holds(image, at, EntryBytes(sibling, dataOff, dataSize, nextHash, name)) && sibling < U32_LIMIT
    ensures at + FILE_ENTRY_SIZE <= |image| && Field(image, at + 4, 4) == sibling
  {
    var a, b, c := Words([0, sibling], 4), Words([dataOff, dataSize], 8), Words([nextHash, |name|], 4);
    FieldWidths();
    HoldsBoth(image, at, a + b + c, name);
    HoldsBoth(image, at, a + b, c);
    HoldsBoth(image, at, a, b);
    WordIsRead(image, at, [0, sibling], 4, 1);
  }

  /** What the entries of files `k` and on say. */
  function ViewsFrom(slots: seq<Slot>, k: nat): (views: seq<EntryView>)
    requires k <= |slots|
    ensures |views| == |slots| - k
  {
    seq(|slots| - k, i requires 0 <= i < |slots| - k => ViewOf(slots, k + i))
  }

  /** The entry that comes before file `k`, or the mark behind the last one. */
  function EntryAt(slots: seq<Slot>, k: nat): nat {
    if k < |slots| then slots[k].entry else ROMFS_ENTRY_EMPTY
  }

  /** The entry of file `k` is read, and leads on to the next one. */
  ghost predicate LeadsOn(image: seq<Byte>, tableOff: nat, slots: seq<Slot>, k: nat)
    requires k < |slots|
  {
    && ReadEntry(image, tableOff, slots[k].entry) == Some(ViewOf(slots, k))
    && tableOff + slots[k].entry + FILE_ENTRY_SIZE <= |image| && slots[k].entry < ROMFS_ENTRY_EMPTY
    && NextFile(image, tableOff, slots[k].entry) == EntryAt(slots, k + 1) > slots[k].entry
  }

  lemma {:induction false} WalkFollows(image: seq<Byte>, tableOff: nat, slots: seq<Slot>, k: nat)
    requires k <= |slots| && forall i :: 0 <= i < |slots| ==> LeadsOn(image, tableOff, slots, i)
    ensures Walk(image, tableOff, EntryAt(slots, k)) == ViewsFrom(slots, k)
    decreases |slots| - k
  {
    if k < |slots| {
      assert LeadsOn(image, tableOff, slots, k);
      WalkFollows(image, tableOff, slots, k + 1);
      assert ViewsFrom(slots, k) == [ViewOf(slots, k)] + ViewsFrom(slots, k + 1);
    }
  }

  lemma FileLeadsOn(image: seq<Byte>, tableOff: nat, slots: seq<Slot>, buckets: nat, partitionEnd: nat,
                    tableSize: nat, k: nat)
    requires WellPlaced(slots, buckets, partitionEnd, tableSize) && InFields(slots, partitionEnd, tableSize)
    requires Holds(image, tableOff, Concat(Records(slots))) && k < |slots|
    ensures LeadsOn(image, tableOff, slots, k)
  {
    var s := slots[k];
    EntryIsRead(image, tableOff, slots, buckets, partitionEnd, tableSize, k);
    EntryFits(slots, buckets, partitionEnd, tableSize, k);
    EntryIsHeld(image, tableOff, slots, buckets, partitionEnd, tableSize, k);
    if k + 1 < |slots| {
      EntriesAscend(slots, buckets, partitionEnd, tableSize, k, k + 1);
      EntryFits(slots, buckets, partitionEnd, tableSize, k + 1);
    }
    SiblingIsRead(image, tableOff + s.entry, Sibling(slots, k), s.at, s.room, Head(slots, k, s.bucket), s.name);
  }

  lemma FilesLeadOn(image: seq<Byte>, tableOff: nat, slots: seq<Slot>, buckets: nat, partitionEnd: nat,
                    tableSize: nat)
    requires WellPlaced(slots, buckets, partitionEnd, tableSize) && InFields(slots, partitionEnd, tableSize)
    requires Holds(image, tableOff, Concat(Records(slots)))
    ensures forall i :: 0 <= i < |slots| ==> LeadsOn(image, tableOff, slots, i)
    ensures FirstFile(slots) < U32_LIMIT
  {
    forall i | 0 <= i < |slots|
      ensures LeadsOn(image, tableOff, slots, i)
    {
      FileLeadsOn(image, tableOff, slots, buckets, partitionEnd, tableSize, i);
    }
  }

  // ---------------------------------------------------------------- the root directory

  lemma RootIsHeld(slots: seq<Slot>, buckets: nat, rootBucket: nat, partitionEnd: nat, tableSize: nat)
    requires rootBucket < DIR_BUCKETS
    ensures Holds(SlotsImage(slots, buckets, rootBucket, partitionEnd, tableSize),
                  TablesStart(partitionEnd) + 4 * DIR_BUCKETS, DirTable(FirstFile(slots)))
    ensures Holds(SlotsImage(slots, buckets, rootBucket, partitionEnd, tableSize), TablesStart(partitionEnd),
                  DirHashTable(rootBucket))
  {
    var start := TablesStart(partitionEnd);
    var before := WithContents(Words(HeaderFields(start, buckets, tableSize), 8), slots, |slots|);
    var a, b := DirHashTable(rootBucket), DirTable(FirstFile(slots));
    var c, d := Words(Heads(slots, buckets, |slots|), 4), Concat(Records(slots));
    var image := Overwritten(before, start, a + b + c + d);
    OverwrittenBytes(before, start, a + b + c + d);
    HoldsBoth(image, start, a + b + c, d);
    HoldsBoth(image, start, a + b, c);
    HoldsBoth(image, start, a, b);
  }

  lemma FirstFileIsRead(image: seq<Byte>, at: nat, childFile: nat)
    requires Holds(image, at, DirTable(childFile)) && childFile < U32_LIMIT
    ensures at + DIR_ENTRY_SIZE <= |image| && Field(image, at + 12, 4) == childFile
  {
    FieldWidths();
    WordIsRead(image, at, [0, ROMFS_ENTRY_EMPTY, ROMFS_ENTRY_EMPTY, childFile, ROMFS_ENTRY_EMPTY, 0], 4, 3);
  }

  /** A listing starts at the first file that the root names. */
  lemma ListingStarts(image: seq<Byte>, dirTable: nat, tableOff: nat, first: nat)
    requires HEADER_SIZE <= |image| && dirTable + DIR_ENTRY_SIZE <= |image|
    requires Field(image, 24, 8) == dirTable && Field(image, 56, 8) == tableOff
    requires Field(image, dirTable + 12, 4) == first
    ensures ListFiles(image) == Walk(image, tableOff, first)
  {
    assert ListFiles(image) == ListDirectory(image, dirTable, tableOff);
  }

  lemma DirTableIsFound(image: seq<Byte>, slots: seq<Slot>, buckets: nat, partitionEnd: nat, tableSize: nat)
    requires Lays(image, slots, buckets, partitionEnd, tableSize) && |image| < U64_LIMIT
    requires TablesStart(partitionEnd) + 4 * DIR_BUCKETS <= |image|
    ensures 32 <= |image| && Field(image, 24, 8) == TablesStart(partitionEnd) + 4 * DIR_BUCKETS
  {
    HeaderFieldIsRead(image, slots, buckets, partitionEnd, tableSize, 3);
  }

  lemma ListingFindsSlots(image: seq<Byte>, slots: seq<Slot>, buckets: nat, partitionEnd: nat, tableSize: nat)
    requires WellPlaced(slots, buckets, partitionEnd, tableSize) && InFields(slots, partitionEnd, tableSize)
    requires Lays(image, slots, buckets, partitionEnd, tableSize) && |image| < U64_LIMIT
    requires Holds(image, TablesStart(partitionEnd) + 4 * DIR_BUCKETS, DirTable(FirstFile(slots)))
    ensures ListFiles(image) == ViewsFrom(slots, 0)
  {
    var dirTable := TablesStart(partitionEnd) + 4 * DIR_BUCKETS;
    var tableOff := dirTable + DIR_ENTRY_SIZE + 4 * buckets;
    FilesLeadOn(image, tableOff, slots, buckets, partitionEnd, tableSize);
    assert ListFiles(image) == Walk(image, tableOff, FirstFile(slots)) by {
      FirstFileIsRead(image, dirTable, FirstFile(slots));
      DirTableIsFound(image, slots, buckets, partitionEnd, tableSize);
      HeaderIsRead(image, slots, buckets, partitionEnd, tableSize);
      ListingStarts(image, dirTable, tableOff, FirstFile(slots));
    }
    WalkFollows(image, tableOff, slots, 0);
  }

  // ---------------------------------------------------------------- the files

  /** The entry of file `k`, told by the files. */
  ghost predicate Describes(view: EntryView, entries: seq<FileEntry>, k: nat)
    requires Named(entries) && k < |entries|
  {
    && view.name == Tail(entries, k)
    && ROMFS_FILEPARTITION_OFS + view.dataOff == SlotStart(entries, k) && view.dataSize == Room(entries, k)
  }

  /** The walk lists every file once, in the order of the files, also those that share a path. */
  lemma WalkListsFiles(entries: seq<FileEntry>)
    requires Fits(entries)
    ensures
      var files := ListFiles(RomfsImage(entries));
      |files| == |entries| && forall k :: 0 <= k < |entries| ==> Describes(files[k], entries, k)
  {
    var buckets, image := BucketCount(entries), RomfsImage(entries);
    var slots := Slots(entries, buckets);
    var partitionEnd, tableSize := PartitionEnd(entries, |entries|), EntryOffset(entries, |entries|);
    RomfsImageIsImage(entries);
    SlotsAreWellPlaced(entries, buckets);
    RootIsHeld(slots, buckets, RootBucket(), partitionEnd, tableSize);
    ListingFindsSlots(image, slots, buckets, partitionEnd, tableSize);
    forall k | 0 <= k < |entries|
      ensures Describes(ListFiles(image)[k], entries, k)
    {
      assert slots[k] == SlotOf(entries, buckets, k);
    }
  }

  /** And each of them leads to the exact bytes of its file if and only if the sizes agree. */
  lemma WalkRoundTrip(entries: seq<FileEntry>)
    requires Fits(entries)
    ensures
      var image := RomfsImage(entries);
      var files := ListFiles(image);
      && |files| == |entries|
      && ((forall k :: 0 <= k < |entries| ==>
             Contents(image, ROMFS_FILEPARTITION_OFS, Some(files[k])) == Some(entries[k].data))
          <==> SizesAgree(entries))
  {
    var image := RomfsImage(entries);
    var files := ListFiles(image);
    WalkListsFiles(entries);
    if SizesAgree(entries) {
      FilesAreHeld(entries);
    }
    forall k | 0 <= k < |entries|
      ensures Contents(image, ROMFS_FILEPARTITION_OFS, Some(files[k])) == Some(entries[k].data) ==>
        |entries[k].data| == Room(entries, k)
      ensures SizesAgree(entries) ==>
        Contents(image, ROMFS_FILEPARTITION_OFS, Some(files[k])) == Some(entries[k].data)
    {
      assert Describes(files[k], entries, k);
      SliceReads(image, SlotStart(entries, k), Room(entries, k), entries[k].data);
    }
  }

  // ---------------------------------------------------------------- the tables

  /** The fields at `at` and `at` + 8 of the header say where these bytes are, and how many. */
  ghost predicate Located(image: seq<Byte>, at: nat, table: seq<Byte>) {
    && at + 16 <= |image|
    && Field(image, at + 8, 8) == |table| && Holds(image, Field(image, at, 8), table)
  }

  /** The header has its own size, the place of the contents, and place and size of all four tables. */
  lemma HeaderLocatesTables(entries: seq<FileEntry>)
    requires Fits(entries)
    ensures
      var image, buckets := RomfsImage(entries), BucketCount(entries);
      var slots := Slots(entries, buckets);
      && 80 <= |image| && Field(image, 0, 8) == 0x50 && Field(image, 72, 8) == 0x200
      && Located(image, 8, DirHashTable(RootBucket())) && Located(image, 24, DirTable(FirstFile(slots)))
      && Located(image, 40, Words(Heads(slots, buckets, |slots|), 4)) && Located(image, 56, Concat(Records(slots)))
  {
    var buckets, image := BucketCount(entries), RomfsImage(entries);
    var slots := Slots(entries, buckets);
    var partitionEnd, tableSize := PartitionEnd(entries, |entries|), EntryOffset(entries, |entries|);
    RomfsImageIsImage(entries);
    SlotsAreWellPlaced(entries, buckets);
    SlotsLocateTables(slots, buckets, RootBucket(), partitionEnd, tableSize);
  }

  lemma SlotsLocateTables(slots: seq<Slot>, buckets: nat, rootBucket: nat, partitionEnd: nat, tableSize: nat)
    requires rootBucket < DIR_BUCKETS && WellPlaced(slots, buckets, partitionEnd, tableSize)
    requires |SlotsImage(slots, buckets, rootBucket, partitionEnd, tableSize)| < U64_LIMIT
    ensures
      var image := SlotsImage(slots, buckets, rootBucket, partitionEnd, tableSize);
      && 80 <= |image| && Field(image, 0, 8) == 0x50 && Field(image, 72, 8) == 0x200
      && Located(image, 8, DirHashTable(rootBucket)) && Located(image, 24, DirTable(FirstFile(slots)))
      && Located(image, 40, Words(Heads(slots, buckets, |slots|), 4)) && Located(image, 56, Concat(Records(slots)))
  {
    var image := SlotsImage(slots, buckets, rootBucket, partitionEnd, tableSize);
    ImageLays(slots, buckets, rootBucket, partitionEnd, tableSize);
    RootIsHeld(slots, buckets, rootBucket, partitionEnd, tableSize);
    RecordsFill(slots, buckets, partitionEnd, tableSize);
    EndFieldsAreRead(image, slots, buckets, partitionEnd, tableSize);
    DirHashTableIsLocated(image, slots, buckets, rootBucket, partitionEnd, tableSize);
    DirTableIsLocated(image, slots, buckets, partitionEnd, tableSize);
    FileTablesAreLocated(image, slots, buckets, partitionEnd, tableSize);
  }

  lemma DirHashTableIsLocated(image: seq<Byte>, slots: seq<Slot>, buckets: nat, rootBucket: nat, partitionEnd: nat,
                              tableSize: nat)
    requires Lays(image, slots, buckets, partitionEnd, tableSize) && |image| < U64_LIMIT && rootBucket < DIR_BUCKETS
    requires Holds(image, TablesStart(partitionEnd), DirHashTable(rootBucket))
    ensures Located(image, 8, DirHashTable(rootBucket))
  {
    PairIsRead(image, slots, buckets, partitionEnd, tableSize, 1, DirHashTable(rootBucket));
  }

  lemma DirTableIsLocated(image: seq<Byte>, slots: seq<Slot>, buckets: nat, partitionEnd: nat, tableSize: nat)
    requires Lays(image, slots, buckets, partitionEnd, tableSize) && |image| < U64_LIMIT
    requires Holds(image, TablesStart(partitionEnd) + 4 * DIR_BUCKETS, DirTable(FirstFile(slots)))
    ensures Located(image, 24, DirTable(FirstFile(slots)))
  {
    PairIsRead(image, slots, buckets, partitionEnd, tableSize, 3, DirTable(FirstFile(slots)));
  }

  lemma FileTablesAreLocated(image: seq<Byte>, slots: seq<Slot>, buckets: nat, partitionEnd: nat, tableSize: nat)
    requires Lays(image, slots, buckets, partitionEnd, tableSize) && |image| < U64_LIMIT
    requires |Concat(Records(slots))| == tableSize
    ensures Located(image, 40, Words(Heads(slots, buckets, |slots|), 4)) && Located(image, 56, Concat(Records(slots)))
  {
    PairIsRead(image, slots, buckets, partitionEnd, tableSize, 5, Words(Heads(slots, buckets, |slots|), 4));
    PairIsRead(image, slots, buckets, partitionEnd, tableSize, 7, Concat(Records(slots)));
  }

  lemma RecordsFill(slots: seq<Slot>, buckets: nat, partitionEnd: nat, tableSize: nat)
    requires WellPlaced(slots, buckets, partitionEnd, tableSize)
    ensures |Concat(Records(slots))| == tableSize
  {
    ConcatLength(Records(slots));
    if slots != [] {
      var last := |slots| - 1;
      RecordOffset(slots, buckets, partitionEnd, tableSize, last);
      assert Follows(slots, buckets, partitionEnd, tableSize, last);
    }
  }

  lemma EndFieldsAreRead(image: seq<Byte>, slots: seq<Slot>, buckets: nat, partitionEnd: nat, tableSize: nat)
    requires Lays(image, slots, buckets, partitionEnd, tableSize)
    ensures 80 <= |image| && Field(image, 0, 8) == 0x50 && Field(image, 72, 8) == 0x200
  {
    HeaderFieldIsRead(image, slots, buckets, partitionEnd, tableSize, 0);
    HeaderFieldIsRead(image, slots, buckets, partitionEnd, tableSize, 9);
  }

  /** Place and size of a table in neighbouring fields. */
  lemma PairIsRead(image: seq<Byte>, slots: seq<Slot>, buckets: nat, partitionEnd: nat, tableSize: nat, i: nat,
                   table: seq<Byte>)
    requires Lays(image, slots, buckets, partitionEnd, tableSize) && |image| < U64_LIMIT && i < 9
    requires
      var fields := HeaderFields(TablesStart(partitionEnd), buckets, tableSize);
      Holds(image, fields[i], table) && fields[i + 1] == |table|
    ensures Located(image, 8 * i, table)
  {
    HeaderFieldIsRead(image, slots, buckets, partitionEnd, tableSize, i);
    HeaderFieldIsRead(image, slots, buckets, partitionEnd, tableSize, i + 1);
  }

  /** The root directory is found under the hash of the empty path, and under no other. */
  lemma RootIsInItsBucket(b: nat)
    requires b < DIR_BUCKETS
    ensures Field(DirHashTable(RootBucket()), 4 * b, 4) ==
            if b == RomfsHash.PathHash(0, []) % 3 then 0 else ROMFS_ENTRY_EMPTY
  {
    var heads := [ROMFS_ENTRY_EMPTY, ROMFS_ENTRY_EMPTY, ROMFS_ENTRY_EMPTY][RootBucket() := 0];
    FieldWidths();
    assert Holds(DirHashTable(RootBucket()), 0, Words(heads, 4));
    WordIsRead(DirHashTable(RootBucket()), 0, heads, 4, b);
  }
}
