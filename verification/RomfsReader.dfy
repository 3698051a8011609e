/**
 Reading a RomFS back: header, bucket of the path, chain of entries, contents. What the reader
 finds in an image built from files, and when those are the files.
 */
module RomfsReader {
  import opened Bytes
  import opened Wrappers
  import opened RomfsHash
  import opened RomfsLayout

  // ---------------------------------------------------------------- the reader

  /** What a file entry says. */
  datatype EntryView = EntryView(dataOff: nat, dataSize: nat, nextHash: nat, name: seq<Byte>)

  /** The entry at this offset of the table, when it lies inside the image. */
  function ReadEntry(image: seq<Byte>, tableOff: nat, entry: nat): Option<EntryView> {
    var at := tableOff + entry;
    if at + FILE_ENTRY_SIZE > |image| then None
    else
      var nameLen := Field(image, at + 28, 4);
      if at + FILE_ENTRY_SIZE + nameLen > |image| then None
      else
        Some(EntryView(Field(image, at + 8, 8), Field(image, at + 16, 8), Field(image, at + 24, 4),
                       image[at + FILE_ENTRY_SIZE..at + FILE_ENTRY_SIZE + nameLen]))
  }

  /** The entries of a table, by their offsets. */
  function EntriesAt(image: seq<Byte>, tableOff: nat): nat -> Option<EntryView> {
    (entry: nat) => ReadEntry(image, tableOff, entry)
  }

  /** Follows the chain from an entry. Chains lead to ever smaller offsets; the reader gives up on
      one that does not, or that leaves the image. */
  function Chase(read: nat -> Option<EntryView>, entry: nat, path: seq<Byte>): Option<EntryView>
    decreases entry
  {
    if entry == ROMFS_ENTRY_EMPTY || read(entry).None? then None
    else
      var view := read(entry).value;
      if view.name == path then Some(view)
      else if view.nextHash < entry then Chase(read, view.nextHash, path)
      else None
  }

  /** The contents that an entry points to. */
  function Contents(image: seq<Byte>, dataOff: nat, view: Option<EntryView>): Option<seq<Byte>> {
    match view
    case None => None
    case Some(v) => Slice(image, dataOff + v.dataOff, v.dataSize)
  }

  function Slice(image: seq<Byte>, start: nat, size: nat): Option<seq<Byte>> {
    if start + size <= |image| then Some(image[start..start + size]) else None
  }

  /** The contents of the file of this path, the slash left out. */
  function Lookup(image: seq<Byte>, path: seq<Byte>): Option<seq<Byte>> {
    LookupHashed(image, path, PathHash(0, path))
  }

  function LookupHashed(image: seq<Byte>, path: seq<Byte>, hash: nat): Option<seq<Byte>> {
    if |image| < HEADER_SIZE then None
    else
      var buckets := Field(image, 48, 8) / 4;
      if buckets == 0 then None
      else LookupInBucket(image, Field(image, 40, 8), Field(image, 56, 8), Field(image, 72, 8), buckets, path,
        hash % buckets)
  }

  function LookupInBucket(image: seq<Byte>, hashOff: nat, tableOff: nat, dataOff: nat, buckets: nat,
                          path: seq<Byte>, bucket: nat)
    : Option<seq<Byte>>
    requires bucket < buckets
  {
    if hashOff + 4 * buckets > |image| then None
    else
      var first := Field(image, hashOff + 4 * bucket, 4);
      Contents(image, dataOff, Chase(EntriesAt(image, tableOff), first, path))
  }

  // ---------------------------------------------------------------- entries and chains

  /** Which of the first `k` files the chain of a bucket finds for a path: the latest one. */
  function Find(slots: seq<Slot>, k: nat, b: nat, path: seq<Byte>): Option<nat>
    requires k <= |slots|
  {
    if k == 0 then None
    else if slots[k - 1].bucket == b && slots[k - 1].name == path then Some(k - 1)
    else Find(slots, k - 1, b, path)
  }

  lemma {:induction false} FindIsLatest(slots: seq<Slot>, k: nat, b: nat, path: seq<Byte>)
    requires k <= |slots|
    ensures match Find(slots, k, b, path)
            case Some(j) =>
              && j < k && slots[j].bucket == b && slots[j].name == path
              && forall i :: j < i < k ==> !(slots[i].bucket == b && slots[i].name == path)
            case None => forall i :: 0 <= i < k ==> !(slots[i].bucket == b && slots[i].name == path)
  {
    if k > 0 {
      FindIsLatest(slots, k - 1, b, path);
    }
  }

  /** Table sizes that keep every offset within its field. */
  ghost predicate InFields(slots: seq<Slot>, partitionEnd: nat, tableSize: nat) {
    && tableSize < U32_LIMIT && partitionEnd < U64_LIMIT
  }

  /** Entries start before the end of the table and differ from the empty mark; earlier ones lie
      before later ones. */
  lemma {:induction false} EntriesAscend(slots: seq<Slot>, buckets: nat, partitionEnd: nat, tableSize: nat,
                                         i: nat, j: nat)
    requires WellPlaced(slots, buckets, partitionEnd, tableSize) && i <= j < |slots|
    ensures slots[i].entry + EntrySize(|slots[i].name|) <= (if i < j then slots[j].entry else tableSize)
    decreases |slots| - i
  {
    assert Follows(slots, buckets, partitionEnd, tableSize, i);
    if i < j {
      if i + 1 < j {
        EntriesAscend(slots, buckets, partitionEnd, tableSize, i + 1, j);
      }
    } else if i + 1 < |slots| {
      EntriesAscend(slots, buckets, partitionEnd, tableSize, i + 1, i + 1);
    }
  }

  /** The head of a bucket among the first `k` files lies before file `k`. */
  lemma {:induction false} HeadIsBefore(slots: seq<Slot>, buckets: nat, partitionEnd: nat, tableSize: nat,
                                        k: nat, n: nat, b: nat)
    requires WellPlaced(slots, buckets, partitionEnd, tableSize) && k <= n < |slots|
    ensures Head(slots, k, b) == ROMFS_ENTRY_EMPTY || Head(slots, k, b) < slots[n].entry
  {
    if k > 0 {
      EntriesAscend(slots, buckets, partitionEnd, tableSize, k - 1, n);
      HeadIsBefore(slots, buckets, partitionEnd, tableSize, k - 1, n, b);
    }
  }

  lemma {:induction false} ContentsAscend(slots: seq<Slot>, buckets: nat, partitionEnd: nat, tableSize: nat,
                                          i: nat, j: nat)
    requires WellPlaced(slots, buckets, partitionEnd, tableSize) && i <= j < |slots|
    ensures slots[i].at % 16 == 0
    ensures slots[i].at + slots[i].room <= (if i < j then slots[j].at else partitionEnd)
    decreases |slots| - i
  {
    assert Follows(slots, buckets, partitionEnd, tableSize, i);
    if i < j {
      if i + 1 < j {
        ContentsAscend(slots, buckets, partitionEnd, tableSize, i + 1, j);
      }
    } else if i + 1 < |slots| {
      ContentsAscend(slots, buckets, partitionEnd, tableSize, i + 1, i + 1);
    }
  }

  /** Records lie at the entries of their slots. */
  lemma {:induction false} RecordOffset(slots: seq<Slot>, buckets: nat, partitionEnd: nat, tableSize: nat, k: nat)
    requires WellPlaced(slots, buckets, partitionEnd, tableSize) && k < |slots|
    ensures OffsetOf(Records(slots), k) == slots[k].entry
  {
    if k > 0 {
      assert Follows(slots, buckets, partitionEnd, tableSize, k - 1);
      RecordOffset(slots, buckets, partitionEnd, tableSize, k - 1);
    }
  }

  /** The fields and the name of entry bytes are read back. */
  lemma EntryBytesAreRead(image: seq<Byte>, at: nat, sibling: nat, dataOff: nat, dataSize: nat, nextHash: nat,
                          name: seq<Byte>)
    requires Holds(image, at, EntryBytes(sibling, dataOff, dataSize, nextHash, name))
    requires dataOff < U64_LIMIT && dataSize < U64_LIMIT && nextHash < U32_LIMIT && |name| < U32_LIMIT
    ensures at + FILE_ENTRY_SIZE + |name| <= |image|
    ensures Field(image, at + 8, 8) == dataOff && Field(image, at + 16, 8) == dataSize
    ensures Field(image, at + 24, 4) == nextHash && Field(image, at + 28, 4) == |name|
    ensures image[at + FILE_ENTRY_SIZE..at + FILE_ENTRY_SIZE + |name|] == name
  {
    var a, b, c := Words([0, sibling], 4), Words([dataOff, dataSize], 8), Words([nextHash, |name|], 4);
    FieldWidths();
    HoldsBoth(image, at, a + b + c, name);
    HoldsBoth(image, at, a + b, c);
    HoldsBoth(image, at, a, b);
    WordIsRead(image, at + 8, [dataOff, dataSize], 8, 0);
    WordIsRead(image, at + 8, [dataOff, dataSize], 8, 1);
    WordIsRead(image, at + 24, [nextHash, |name|], 4, 0);
    WordIsRead(image, at + 24, [nextHash, |name|], 4, 1);
  }

  /** File `k`'s entry is where the table says. */
  lemma EntryIsHeld(image: seq<Byte>, tableOff: nat, slots: seq<Slot>, buckets: nat, partitionEnd: nat,
                    tableSize: nat, k: nat)
    requires WellPlaced(slots, buckets, partitionEnd, tableSize)
    requires Holds(image, tableOff, Concat(Records(slots))) && k < |slots|
    ensures Holds(image, tableOff + slots[k].entry, Raw(slots, k))
  {
    var raw, pad := Raw(slots, k), Zeros(EntrySize(|slots[k].name|) - |Raw(slots, k)|);
    RecordOffset(slots, buckets, partitionEnd, tableSize, k);
    ConcatHolds(Records(slots), k);
    HoldsPart(image, tableOff, Concat(Records(slots)), slots[k].entry, Record(slots, k));
    HoldsBoth(image, tableOff + slots[k].entry, raw, pad);
  }

  /** Its numbers fit their fields, and its chain leads backwards. */
  lemma EntryFits(slots: seq<Slot>, buckets: nat, partitionEnd: nat, tableSize: nat, k: nat)
    requires WellPlaced(slots, buckets, partitionEnd, tableSize) && InFields(slots, partitionEnd, tableSize)
    requires k < |slots|
    ensures
      var s, next := slots[k], Head(slots, k, slots[k].bucket);
      && s.entry < ROMFS_ENTRY_EMPTY && (next == ROMFS_ENTRY_EMPTY || next < s.entry) && next < U32_LIMIT
      && |s.name| < U32_LIMIT && s.at < U64_LIMIT && s.room < U64_LIMIT
  {
    EntriesAscend(slots, buckets, partitionEnd, tableSize, k, k);
    ContentsAscend(slots, buckets, partitionEnd, tableSize, k, k);
    HeadIsBefore(slots, buckets, partitionEnd, tableSize, k, k, slots[k].bucket);
  }

  /** What the entry of file `k` says. */
  function ViewOf(slots: seq<Slot>, k: nat): EntryView
    requires k < |slots|
  {
    EntryView(slots[k].at, slots[k].room, Head(slots, k, slots[k].bucket), slots[k].name)
  }

  lemma EntryIsRead(image: seq<Byte>, tableOff: nat, slots: seq<Slot>, buckets: nat, partitionEnd: nat,
                    tableSize: nat, k: nat)
    requires WellPlaced(slots, buckets, partitionEnd, tableSize) && InFields(slots, partitionEnd, tableSize)
    requires Holds(image, tableOff, Concat(Records(slots))) && k < |slots|
    ensures ReadEntry(image, tableOff, slots[k].entry) == Some(ViewOf(slots, k))
  {
    var s := slots[k];
    EntryFits(slots, buckets, partitionEnd, tableSize, k);
    EntryIsHeld(image, tableOff, slots, buckets, partitionEnd, tableSize, k);
    EntryBytesAreRead(image, tableOff + s.entry, Sibling(slots, k), s.at, s.room, Head(slots, k, s.bucket), s.name);
  }

  /** What a chain finds: the entry of the latest file of that path, or nothing. */
  function Found(slots: seq<Slot>, found: Option<nat>): Option<EntryView>
    requires found.Some? ==> found.value < |slots|
  {
    match found
    case None => None
    case Some(j) => Some(ViewOf(slots, j))
  }

  /** Every entry reads as its file's, and its chain leads backwards. */
  ghost predicate Chained(read: nat -> Option<EntryView>, slots: seq<Slot>) {
    forall i :: 0 <= i < |slots| ==> ChainedAt(read, slots, i)
  }

  ghost predicate ChainedAt(read: nat -> Option<EntryView>, slots: seq<Slot>, i: nat)
    requires i < |slots|
  {
    && read(slots[i].entry) == Some(ViewOf(slots, i))
    && slots[i].entry < ROMFS_ENTRY_EMPTY
    && (ViewOf(slots, i).nextHash == ROMFS_ENTRY_EMPTY || ViewOf(slots, i).nextHash < slots[i].entry)
  }

  /** A chase from the head of a bucket finds the latest file of the path. */
  lemma {:induction false} ChaseFinds(read: nat -> Option<EntryView>, slots: seq<Slot>, k: nat, b: nat, path: seq<Byte>)
    requires k <= |slots| && Chained(read, slots)
    ensures Find(slots, k, b, path).Some? ==> Find(slots, k, b, path).value < |slots|
    ensures Chase(read, Head(slots, k, b), path) == Found(slots, Find(slots, k, b, path))
    decreases k
  {
    if k > 0 {
      ChaseFinds(read, slots, k - 1, b, path);
      assert ChainedAt(read, slots, k - 1);
    }
  }

  lemma EntriesAreChained(image: seq<Byte>, tableOff: nat, slots: seq<Slot>, buckets: nat, partitionEnd: nat,
                          tableSize: nat)
    requires WellPlaced(slots, buckets, partitionEnd, tableSize) && InFields(slots, partitionEnd, tableSize)
    requires Holds(image, tableOff, Concat(Records(slots)))
    ensures Chained(EntriesAt(image, tableOff), slots)
  {
    var read := EntriesAt(image, tableOff);
    forall i | 0 <= i < |slots|
      ensures ChainedAt(read, slots, i)
    {
      EntryIsRead(image, tableOff, slots, buckets, partitionEnd, tableSize, i);
      EntryFits(slots, buckets, partitionEnd, tableSize, i);
    }
  }

  // ---------------------------------------------------------------- the image

  /** Where the pieces of an image are. */
  ghost predicate Lays(image: seq<Byte>, slots: seq<Slot>, buckets: nat, partitionEnd: nat, tableSize: nat) {
    var start := TablesStart(partitionEnd);
    var hashOff := start + 4 * DIR_BUCKETS + DIR_ENTRY_SIZE;
    && Holds(image, 0, Words(HeaderFields(start, buckets, tableSize), 8))
    && Holds(image, hashOff, Words(Heads(slots, buckets, |slots|), 4))
    && Holds(image, hashOff + 4 * buckets, Concat(Records(slots)))
    && start <= |image|
  }

  /** Contents never touch the header. */
  lemma {:induction false} HeaderStays(header: seq<Byte>, slots: seq<Slot>, k: nat)
    requires k <= |slots| && |header| <= ROMFS_FILEPARTITION_OFS
    ensures Holds(WithContents(header, slots, k), 0, header)
  {
    if k > 0 {
      HeaderStays(header, slots, k - 1);
      OverwrittenKeeps(WithContents(header, slots, k - 1), slots[k - 1].at + ROMFS_FILEPARTITION_OFS,
        slots[k - 1].data, 0, header);
    }
  }

  lemma ImageLays(slots: seq<Slot>, buckets: nat, rootBucket: nat, partitionEnd: nat, tableSize: nat)
    requires rootBucket < DIR_BUCKETS
    ensures Lays(SlotsImage(slots, buckets, rootBucket, partitionEnd, tableSize), slots, buckets, partitionEnd,
      tableSize)
  {
    var start := TablesStart(partitionEnd);
    var header := Words(HeaderFields(start, buckets, tableSize), 8);
    var before := WithContents(header, slots, |slots|);
    var a, b := DirHashTable(rootBucket), DirTable(FirstFile(slots));
    var c, d := Words(Heads(slots, buckets, |slots|), 4), Concat(Records(slots));
    var tables := a + b + c + d;
    var image := Overwritten(before, start, tables);
    assert Holds(image, 0, header) by {
      HeaderStays(header, slots, |slots|);
      OverwrittenKeeps(before, start, tables, 0, header);
    }
    OverwrittenBytes(before, start, tables);
    TablesAreHeld(image, start, a, b, c, d);
  }

  lemma TablesAreHeld(image: seq<Byte>, start: nat, a: seq<Byte>, b: seq<Byte>, c: seq<Byte>, d: seq<Byte>)
    requires Holds(image, start, a + b + c + d)
    ensures Holds(image, start + |a| + |b|, c) && Holds(image, start + |a| + |b| + |c|, d)
  {
    HoldsBoth(image, start, a + b + c, d);
    HoldsBoth(image, start, a + b, c);
  }

  lemma HeaderFieldIsRead(image: seq<Byte>, slots: seq<Slot>, buckets: nat, partitionEnd: nat, tableSize: nat, i: nat)
    requires Lays(image, slots, buckets, partitionEnd, tableSize) && i < 10
    requires HeaderFields(TablesStart(partitionEnd), buckets, tableSize)[i] < U64_LIMIT
    ensures 8 * i + 8 <= |image|
    ensures Field(image, 8 * i, 8) == HeaderFields(TablesStart(partitionEnd), buckets, tableSize)[i]
  {
    FieldWidths();
    WordIsRead(image, 0, HeaderFields(TablesStart(partitionEnd), buckets, tableSize), 8, i);
  }

  lemma HeaderIsRead(image: seq<Byte>, slots: seq<Slot>, buckets: nat, partitionEnd: nat, tableSize: nat)
    requires Lays(image, slots, buckets, partitionEnd, tableSize) && |image| < U64_LIMIT
    ensures
      var hashOff := TablesStart(partitionEnd) + 4 * DIR_BUCKETS + DIR_ENTRY_SIZE;
      && HEADER_SIZE <= |image|
      && Field(image, 40, 8) == hashOff && Field(image, 48, 8) == 4 * buckets
      && Field(image, 56, 8) == hashOff + 4 * buckets && Field(image, 72, 8) == ROMFS_FILEPARTITION_OFS
  {
    HeaderFieldIsRead(image, slots, buckets, partitionEnd, tableSize, 5);
    HeaderFieldIsRead(image, slots, buckets, partitionEnd, tableSize, 6);
    HeaderFieldIsRead(image, slots, buckets, partitionEnd, tableSize, 7);
    HeaderFieldIsRead(image, slots, buckets, partitionEnd, tableSize, 9);
  }

  lemma {:induction false} HeadsFit(slots: seq<Slot>, buckets: nat, partitionEnd: nat, tableSize: nat, k: nat, b: nat)
    requires WellPlaced(slots, buckets, partitionEnd, tableSize) && tableSize < U32_LIMIT && k <= |slots|
    ensures Head(slots, k, b) < U32_LIMIT
  {
    if k > 0 {
      EntriesAscend(slots, buckets, partitionEnd, tableSize, k - 1, k - 1);
      HeadsFit(slots, buckets, partitionEnd, tableSize, k - 1, b);
    }
  }

  lemma HeadIsRead(image: seq<Byte>, hashOff: nat, slots: seq<Slot>, buckets: nat, partitionEnd: nat,
                   tableSize: nat, b: nat)
    requires WellPlaced(slots, buckets, partitionEnd, tableSize) && tableSize < U32_LIMIT && b < buckets
    requires Holds(image, hashOff, Words(Heads(slots, buckets, |slots|), 4))
    ensures hashOff + 4 * b + 4 <= hashOff + 4 * buckets <= |image|
    ensures Field(image, hashOff + 4 * b, 4) == Head(slots, |slots|, b)
  {
    HeadsFit(slots, buckets, partitionEnd, tableSize, |slots|, b);
    FieldWidths();
    WordIsRead(image, hashOff, Heads(slots, buckets, |slots|), 4, b);
  }

  /** A lookup starts at the head of the path's bucket. */
  lemma LookupStarts(image: seq<Byte>, hashOff: nat, tableOff: nat, buckets: nat,
                                        first: nat, path: seq<Byte>, hash: nat)
    requires buckets > 0 && HEADER_SIZE <= |image|
    requires hashOff + 4 * (hash % buckets) + 4 <= hashOff + 4 * buckets <= |image|
    requires Field(image, 40, 8) == hashOff && Field(image, 48, 8) == 4 * buckets
    requires Field(image, 56, 8) == tableOff && Field(image, 72, 8) == ROMFS_FILEPARTITION_OFS
    requires Field(image, hashOff + 4 * (hash % buckets), 4) == first
    ensures LookupHashed(image, path, hash) ==
            Contents(image, ROMFS_FILEPARTITION_OFS, Chase(EntriesAt(image, tableOff), first, path))
  {
    var bucket := hash % buckets;
    assert LookupHashed(image, path, hash) ==
           LookupInBucket(image, hashOff, tableOff, ROMFS_FILEPARTITION_OFS, buckets, path, bucket);
  }

  /** A lookup comes down to the latest file in the path's bucket that has this path. */
  lemma LookupFinds(image: seq<Byte>, slots: seq<Slot>, buckets: nat, partitionEnd: nat, tableSize: nat,
                    path: seq<Byte>, hash: nat)
    requires WellPlaced(slots, buckets, partitionEnd, tableSize) && InFields(slots, partitionEnd, tableSize)
    requires Lays(image, slots, buckets, partitionEnd, tableSize) && |image| < U64_LIMIT && buckets > 0
    ensures
      var found := Find(slots, |slots|, hash % buckets, path);
      && (found.Some? ==> found.value < |slots|)
      && LookupHashed(image, path, hash) == Contents(image, ROMFS_FILEPARTITION_OFS, Found(slots, found))
  {
    var hashOff := TablesStart(partitionEnd) + 4 * DIR_BUCKETS + DIR_ENTRY_SIZE;
    var tableOff := hashOff + 4 * buckets;
    var bucket := hash % buckets;
    var first := Head(slots, |slots|, bucket);
    assert LookupHashed(image, path, hash) ==
           Contents(image, ROMFS_FILEPARTITION_OFS, Chase(EntriesAt(image, tableOff), first, path)) by {
      HeaderIsRead(image, slots, buckets, partitionEnd, tableSize);
      HeadIsRead(image, hashOff, slots, buckets, partitionEnd, tableSize, bucket);
      LookupStarts(image, hashOff, tableOff, buckets, first, path, hash);
    }
    EntriesAreChained(image, tableOff, slots, buckets, partitionEnd, tableSize);
    ChaseFinds(EntriesAt(image, tableOff), slots, |slots|, bucket, path);
  }

  // ---------------------------------------------------------------- contents

  /** Every file gets room for exactly its contents. */
  ghost predicate RoomFits(slots: seq<Slot>) {
    forall k :: 0 <= k < |slots| ==> |slots[k].data| == slots[k].room
  }

  /** Then its contents stay where they were written. */
  lemma {:induction false} ContentsStay(buf: seq<Byte>, slots: seq<Slot>, buckets: nat, partitionEnd: nat,
                                        tableSize: nat, n: nat, k: nat)
    requires WellPlaced(slots, buckets, partitionEnd, tableSize) && RoomFits(slots) && k < n <= |slots|
    ensures Holds(WithContents(buf, slots, n), ROMFS_FILEPARTITION_OFS + slots[k].at, slots[k].data)
  {
    var before := WithContents(buf, slots, n - 1);
    if k == n - 1 {
      OverwrittenBytes(before, slots[k].at + ROMFS_FILEPARTITION_OFS, slots[k].data);
    } else {
      ContentsStay(buf, slots, buckets, partitionEnd, tableSize, n - 1, k);
      ContentsAscend(slots, buckets, partitionEnd, tableSize, k, n - 1);
      OverwrittenKeeps(before, slots[n - 1].at + ROMFS_FILEPARTITION_OFS, slots[n - 1].data,
                       ROMFS_FILEPARTITION_OFS + slots[k].at, slots[k].data);
    }
  }

  lemma ContentsAreHeld(slots: seq<Slot>, buckets: nat, rootBucket: nat, partitionEnd: nat, tableSize: nat, k: nat)
    requires WellPlaced(slots, buckets, partitionEnd, tableSize) && RoomFits(slots) && k < |slots|
    requires rootBucket < DIR_BUCKETS
    ensures Holds(SlotsImage(slots, buckets, rootBucket, partitionEnd, tableSize),
                  ROMFS_FILEPARTITION_OFS + slots[k].at, slots[k].data)
  {
    var start := TablesStart(partitionEnd);
    var header := Words(HeaderFields(start, buckets, tableSize), 8);
    ContentsStay(header, slots, buckets, partitionEnd, tableSize, |slots|, k);
    ContentsAscend(slots, buckets, partitionEnd, tableSize, k, k);
    OverwrittenKeeps(WithContents(header, slots, |slots|), start, Tables(slots, buckets, rootBucket),
                     ROMFS_FILEPARTITION_OFS + slots[k].at, slots[k].data);
  }

  // ---------------------------------------------------------------- round trip

  /** No two files have the same path. */
  ghost predicate DistinctPaths(entries: seq<FileEntry>)
    requires Named(entries)
  {
    forall i, j :: 0 <= i < j < |entries| ==> Tail(entries, i) != Tail(entries, j)
  }

  /** The files get room for exactly their contents: each is as long as the one whose context took
      its place in the list. */
  ghost predicate SizesAgree(entries: seq<FileEntry>) {
    forall k :: 0 <= k < |entries| ==> |entries[k].data| == Room(entries, k)
  }

  /** One or two files always do. Three do exactly if the last two are equally long. */
  lemma FewFilesAgree(entries: seq<FileEntry>)
    ensures |entries| <= 2 ==> SizesAgree(entries)
    ensures |entries| == 3 ==> (SizesAgree(entries) <==> |entries[1].data| == |entries[2].data|)
  {
    if |entries| == 3 && SizesAgree(entries) {
      assert |entries[1].data| == Room(entries, 1);
    }
  }

  /** What the reader relies on: the pieces of an image of these files are in place. */
  ghost predicate IsImage(image: seq<Byte>, entries: seq<FileEntry>)
    requires Named(entries)
  {
    && |image| < U64_LIMIT && EntryOffset(entries, |entries|) < U32_LIMIT
    && Lays(image, Slots(entries, BucketCount(entries)), BucketCount(entries),
            PartitionEnd(entries, |entries|), EntryOffset(entries, |entries|))
  }

  lemma RomfsImageIsImage(entries: seq<FileEntry>)
    requires Fits(entries)
    ensures IsImage(RomfsImage(entries), entries)
  {
    ImageLays(Slots(entries, BucketCount(entries)), BucketCount(entries), RootBucket(),
              PartitionEnd(entries, |entries|), EntryOffset(entries, |entries|));
  }

  /** Where file `k`'s slot starts in the image. */
  function SlotStart(entries: seq<FileEntry>, k: nat): nat
    requires Named(entries) && k < |entries|
  {
    ROMFS_FILEPARTITION_OFS + Align(PartitionEnd(entries, k), 16)
  }

  /** Slots lie behind the header at multiples of 16 ... */
  lemma SlotsAreAligned(entries: seq<FileEntry>, k: nat)
    requires Named(entries) && k < |entries|
    ensures HEADER_SIZE <= SlotStart(entries, k) && SlotStart(entries, k) % 16 == 0
  {
    var at := Align(PartitionEnd(entries, k), 16);
    AlignIsMultiple(PartitionEnd(entries, k), 16);
    MultiplesAdd(at);
  }

  lemma MultiplesAdd(at: nat)
    requires at % 16 == 0
    ensures (ROMFS_FILEPARTITION_OFS + at) % 16 == 0
  {
    UniqueRemainder(ROMFS_FILEPARTITION_OFS + at, 16, 32 + at / 16, 0);
  }

  /** ... one after the other, and before all tables. */
  lemma RegionsAreDisjoint(entries: seq<FileEntry>, i: nat, j: nat)
    requires Named(entries) && i <= j < |entries|
    ensures SlotStart(entries, i) + Room(entries, i) <=
            if i < j then SlotStart(entries, j) else TablesStart(PartitionEnd(entries, |entries|))
  {
    PartitionEndsGrow(entries, i + 1, if i < j then j else |entries|);
    assert PartitionEnd(entries, i + 1) == Align(PartitionEnd(entries, i), 16) + Room(entries, i);
  }

  lemma {:induction false} PartitionEndsGrow(entries: seq<FileEntry>, i: nat, j: nat)
    requires i <= j <= |entries|
    ensures PartitionEnd(entries, i) <= PartitionEnd(entries, j)
  {
    if i < j {
      PartitionEndsGrow(entries, i, j - 1);
    }
  }

  /** A lookup in an image comes down to the latest file of the path. */
  lemma LookupInImage(image: seq<Byte>, entries: seq<FileEntry>, path: seq<Byte>)
    requires Named(entries) && IsImage(image, entries)
    ensures
      var slots := Slots(entries, BucketCount(entries));
      var found := Find(slots, |slots|, PathHash(0, path) % BucketCount(entries), path);
      && (found.Some? ==> found.value < |slots|)
      && Lookup(image, path) == Contents(image, ROMFS_FILEPARTITION_OFS, Found(slots, found))
  {
    var buckets := BucketCount(entries);
    SlotsAreWellPlaced(entries, buckets);
    LookupFinds(image, Slots(entries, buckets), buckets, PartitionEnd(entries, |entries|),
                EntryOffset(entries, |entries|), path, PathHash(0, path));
  }

  /** The latest file of a path is the one file of that path. */
  lemma FindIsUnique(slots: seq<Slot>, b: nat, k: nat)
    requires k < |slots| && slots[k].bucket == b
    requires forall i :: 0 <= i < |slots| && i != k ==> slots[i].name != slots[k].name
    ensures Find(slots, |slots|, b, slots[k].name) == Some(k)
  {
    FindIsLatest(slots, |slots|, b, slots[k].name);
  }

  lemma NoneIsFound(slots: seq<Slot>, b: nat, path: seq<Byte>)
    requires forall i :: 0 <= i < |slots| ==> slots[i].name != path
    ensures Find(slots, |slots|, b, path) == None
  {
    FindIsLatest(slots, |slots|, b, path);
  }

  lemma SlotNames(entries: seq<FileEntry>, buckets: nat, k: nat)
    requires Named(entries) && DistinctPaths(entries) && k < |entries| && buckets > 0
    ensures
      var slots := Slots(entries, buckets);
      && slots[k].name == Tail(entries, k) && slots[k].bucket == PathHash(0, slots[k].name) % buckets
      && ROMFS_FILEPARTITION_OFS + slots[k].at == SlotStart(entries, k) && slots[k].room == Room(entries, k)
      && forall i :: 0 <= i < |slots| && i != k ==> slots[i].name != slots[k].name
  {
    var slots := Slots(entries, buckets);
    forall i | 0 <= i < |slots| && i != k
      ensures slots[i].name != slots[k].name
    {
      assert slots[i].name == Tail(entries, i);
    }
  }

  lemma PathIsFound(image: seq<Byte>, slots: seq<Slot>, buckets: nat, partitionEnd: nat, tableSize: nat,
                                       k: nat, hash: nat)
    requires WellPlaced(slots, buckets, partitionEnd, tableSize) && InFields(slots, partitionEnd, tableSize)
    requires Lays(image, slots, buckets, partitionEnd, tableSize) && |image| < U64_LIMIT && buckets > 0
    requires k < |slots| && slots[k].bucket == hash % buckets
    requires forall i :: 0 <= i < |slots| && i != k ==> slots[i].name != slots[k].name
    ensures LookupHashed(image, slots[k].name, hash)
         == Slice(image, ROMFS_FILEPARTITION_OFS + slots[k].at, slots[k].room)
  {
    assert Find(slots, |slots|, hash % buckets, slots[k].name) == Some(k) by {
      FindIsUnique(slots, slots[k].bucket, k);
    }
    assert LookupHashed(image, slots[k].name, hash) == Contents(image, ROMFS_FILEPARTITION_OFS,
      Some(ViewOf(slots, k))) by {
      LookupFinds(image, slots, buckets, partitionEnd, tableSize, slots[k].name, hash);
    }
  }

  /** The slot of a path is what a lookup returns, in an image of files with distinct paths. */
  lemma LookupReturnsSlot(image: seq<Byte>, entries: seq<FileEntry>, k: nat)
    requires Named(entries) && IsImage(image, entries) && DistinctPaths(entries) && k < |entries|
    ensures Lookup(image, Tail(entries, k)) == Slice(image, SlotStart(entries, k), Room(entries, k))
  {
    PathReturnsSlot(image, entries, BucketCount(entries), k);
  }

  lemma {:induction false} PathReturnsSlot(image: seq<Byte>, entries: seq<FileEntry>, buckets: nat, k: nat)
    requires Named(entries) && DistinctPaths(entries) && k < |entries| && buckets > 0
    requires |image| < U64_LIMIT && EntryOffset(entries, |entries|) < U32_LIMIT
    requires Lays(image, Slots(entries, buckets), buckets, PartitionEnd(entries, |entries|),
      EntryOffset(entries, |entries|))
    ensures LookupHashed(image, Tail(entries, k), PathHash(0, Tail(entries, k)))
         == Slice(image, SlotStart(entries, k), Room(entries, k))
  {
    var slots, path := Slots(entries, buckets), Tail(entries, k);
    var hash := PathHash(0, path);
    SlotNames(entries, buckets, k);
    assert slots[k].name == path && slots[k].bucket == hash % buckets;
    assert LookupHashed(image, path, hash) == Slice(image, ROMFS_FILEPARTITION_OFS + slots[k].at, slots[k].room) by {
      SlotIsFound(image, entries, slots, buckets, k, hash);
    }
  }

  lemma SlotIsFound(image: seq<Byte>, entries: seq<FileEntry>, slots: seq<Slot>, buckets: nat, k: nat, hash: nat)
    requires Named(entries) && |image| < U64_LIMIT && EntryOffset(entries, |entries|) < U32_LIMIT
    requires buckets > 0 && slots == Slots(entries, buckets)
    requires Lays(image, slots, buckets, PartitionEnd(entries, |entries|), EntryOffset(entries, |entries|))
    requires k < |slots| && slots[k].bucket == hash % buckets
    requires forall i :: 0 <= i < |slots| && i != k ==> slots[i].name != slots[k].name
    ensures LookupHashed(image, slots[k].name, hash)
         == Slice(image, ROMFS_FILEPARTITION_OFS + slots[k].at, slots[k].room)
  {
    SlotsAreWellPlaced(entries, buckets);
    PathIsFound(image, slots, buckets, PartitionEnd(entries, |entries|), EntryOffset(entries, |entries|), k, hash);
  }

  /** A path that no file has is not found. */
  lemma AbsentPathsAreNotFound(entries: seq<FileEntry>, path: seq<Byte>)
    requires Fits(entries) && forall k :: 0 <= k < |entries| ==> Tail(entries, k) != path
    ensures Lookup(RomfsImage(entries), path) == None
  {
    var slots := Slots(entries, BucketCount(entries));
    forall i | 0 <= i < |slots|
      ensures slots[i].name != path
    {
      assert slots[i].name == Tail(entries, i);
    }
    RomfsImageIsImage(entries);
    LookupInImage(RomfsImage(entries), entries, path);
    NoneIsFound(slots, PathHash(0, path) % BucketCount(entries), path);
  }

  ghost predicate HoldsFiles(image: seq<Byte>, entries: seq<FileEntry>)
    requires Named(entries)
  {
    forall k :: 0 <= k < |entries| ==> Holds(image, SlotStart(entries, k), entries[k].data)
  }

  lemma FilesAreHeld(entries: seq<FileEntry>)
    requires Named(entries) && SizesAgree(entries)
    ensures HoldsFiles(RomfsImage(entries), entries)
  {
    var buckets := BucketCount(entries);
    var slots := Slots(entries, buckets);
    SlotsAreWellPlaced(entries, buckets);
    forall i | 0 <= i < |entries|
      ensures |slots[i].data| == slots[i].room
    {
      assert |entries[i].data| == Room(entries, i);
    }
    forall k | 0 <= k < |entries|
      ensures Holds(RomfsImage(entries), SlotStart(entries, k), entries[k].data)
    {
      assert slots[k] == SlotOf(entries, buckets, k);
      ContentsAreHeld(slots, buckets, RootBucket(), PartitionEnd(entries, |entries|),
        EntryOffset(entries, |entries|), k);
    }
  }

  ghost predicate ReadsBack(image: seq<Byte>, entries: seq<FileEntry>)
    requires Named(entries)
  {
    forall k :: 0 <= k < |entries| ==> Lookup(image, Tail(entries, k)) == Some(entries[k].data)
  }

  lemma SliceReads(image: seq<Byte>, start: nat, room: nat, data: seq<Byte>)
    ensures Slice(image, start, room) == Some(data) ==> |data| == room
    ensures |data| == room && Holds(image, start, data) ==> Slice(image, start, room) == Some(data)
  {
  }

  lemma ImageReadsBack(image: seq<Byte>, entries: seq<FileEntry>)
    requires Named(entries) && IsImage(image, entries) && DistinctPaths(entries)
    requires SizesAgree(entries) ==> HoldsFiles(image, entries)
    ensures ReadsBack(image, entries) <==> SizesAgree(entries)
  {
    forall k | 0 <= k < |entries|
      ensures Lookup(image, Tail(entries, k)) == Some(entries[k].data) ==> |entries[k].data| == Room(entries, k)
      ensures SizesAgree(entries) ==> Lookup(image, Tail(entries, k)) == Some(entries[k].data)
    {
      LookupReturnsSlot(image, entries, k);
      SliceReads(image, SlotStart(entries, k), Room(entries, k), entries[k].data);
    }
  }

  /** Round trip: every file is read back with its exact bytes if and only if each is as long as
      the one whose context took its place in the list - so always for one or two files. */
  lemma RomfsRoundTrip(entries: seq<FileEntry>)
    requires Fits(entries) && DistinctPaths(entries)
    ensures ReadsBack(RomfsImage(entries), entries) <==> SizesAgree(entries)
    ensures |entries| <= 2 ==> ReadsBack(RomfsImage(entries), entries)
  {
    FewFilesAgree(entries);
    RomfsImageIsImage(entries);
    if SizesAgree(entries) {
      FilesAreHeld(entries);
    }
    ImageReadsBack(RomfsImage(entries), entries);
  }
}
