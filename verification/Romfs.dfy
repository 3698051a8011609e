/**
 RomFS images as `buildRomfs` writes them. The file contexts form a linked list whose order is
 not that of the files: every new context goes in behind the first one.
 */
module Romfs {
  import opened Bytes
  import opened RomfsHash
  import opened RomfsLayout

  // ---------------------------------------------------------------- file contexts

  class RomfsFileContext {
    var entryOffset: nat
    var offset: nat
    var size: nat
    var sibling: RomfsFileContext?
    var next: RomfsFileContext?

    constructor (size: nat)
      ensures this.size == size && sibling == null && next == null
    {
      this.size := size;
      entryOffset, offset, sibling, next := 0, 0, null, null;
    }
  }

  /** `list` is what one reaches from `head` through `next`, and through `sibling`. */
  ghost predicate Linked(list: seq<RomfsFileContext>, head: RomfsFileContext?)
    reads list`next, list`sibling
  {
    && (forall i, j :: 0 <= i < j < |list| ==> list[i] != list[j])
    && head == At(list, 0)
    && forall i :: 0 <= i < |list| ==> LeadsOn(list, i)
  }

  ghost predicate LeadsOn(list: seq<RomfsFileContext>, i: nat)
    requires i < |list|
    reads {list[i]}`next, {list[i]}`sibling
  {
    list[i].next == At(list, i + 1) && list[i].sibling == At(list, i + 1)
  }

  ghost function At(list: seq<RomfsFileContext>, i: nat): RomfsFileContext? {
    if i < |list| then list[i] else null
  }

  /** Something put behind the first of a list, or into an empty one. */
  function InsertedSecond<T>(s: seq<T>, x: T): (t: seq<T>)
    ensures |t| == |s| + 1
  {
    if s == [] then [x] else [s[0], x] + s[1..]
  }

  ghost function SizesOf(list: seq<RomfsFileContext>): (sizes: seq<nat>)
    reads list
    ensures |sizes| == |list|
  {
    seq(|list|, k requires 0 <= k < |list| reads list => list[k].size)
  }

  /** Puts a context behind the first one of the list, or starts the list with it. */
  method InsertSecond(ghost list: seq<RomfsFileContext>, head: RomfsFileContext?, cur: RomfsFileContext)
    returns (newHead: RomfsFileContext, ghost newList: seq<RomfsFileContext>)
    requires Linked(list, head) && cur !in list && cur.next == null && cur.sibling == null
    modifies cur`next, cur`sibling, list`next, list`sibling
    ensures newList == InsertedSecond(list, cur) && forall c :: c in newList <==> c in list || c == cur
    ensures Linked(newList, newHead)
    ensures SizesOf(newList) == InsertedSecond(old(SizesOf(list)), cur.size)
  {
    if head == null {
      cur.sibling := head;
      cur.next := head;
      newHead, newList := cur, [cur];
    } else {
      newList := InsertBehind(list, head, cur);
      newHead := head;
    }
  }

  /** Puts a context behind the first one. */
  method InsertBehind(ghost list: seq<RomfsFileContext>, head: RomfsFileContext, cur: RomfsFileContext)
    returns (ghost newList: seq<RomfsFileContext>)
    requires Linked(list, head) && cur !in list && list != []
    modifies cur`next, cur`sibling, head`next, head`sibling
    ensures newList == [list[0], cur] + list[1..] && forall c :: c in newList <==> c in list || c == cur
    ensures Linked(newList, head)
  {
    assert LeadsOn(list, 0);
    var child := head.sibling;
    head.sibling := cur;
    cur.sibling := child;
    var nextChild := head.next;
    head.next := cur;
    cur.next := nextChild;
    newList := [list[0], cur] + list[1..];
    forall i | 0 <= i < |newList|
      ensures LeadsOn(newList, i)
    {
      if i >= 2 {
        assert newList[i] == list[i - 1] && old(LeadsOn(list, i - 1));
      }
    }
  }

  /** The sizes along the list after the first `i` files. */
  ghost function SizesAfter(entries: seq<FileEntry>, i: nat): (sizes: seq<nat>)
    requires i <= |entries|
    ensures |sizes| == i
  {
    if i == 0 then [] else InsertedSecond(SizesAfter(entries, i - 1), |entries[i - 1].data|)
  }

  /** Behind the first file the others come in reverse order. */
  lemma {:induction false} SizesAreVisited(entries: seq<FileEntry>, i: nat, k: nat)
    requires k < i <= |entries|
    ensures SizesAfter(entries, i)[k] == |entries[Visited(i, k)].data|
  {
    if k == 0 && i > 1 {
      SizesAreVisited(entries, i - 1, 0);
    } else if k > 1 {
      SizesAreVisited(entries, i - 1, k - 1);
    }
  }

  /** A new context for a file of this size. */
  method AddContext(ghost list: seq<RomfsFileContext>, files: RomfsFileContext?, size: nat)
    returns (newFiles: RomfsFileContext, ghost newList: seq<RomfsFileContext>)
    requires Linked(list, files)
    modifies list`next, list`sibling
    ensures |newList| == |list| + 1 && Linked(newList, newFiles)
    ensures SizesOf(newList) == InsertedSecond(old(SizesOf(list)), size)
    ensures forall i :: 0 <= i < |newList| ==> newList[i] in list || fresh(newList[i])
  {
    var cur := new RomfsFileContext(size);
    newFiles, newList := InsertSecond(list, files, cur);
  }

  /** `romfsVisitDir` on a flat list of files. */
  method RomfsVisitDir(entries: seq<FileEntry>)
    returns (files: RomfsFileContext?, numFiles: nat, fileTableSize: nat, ghost list: seq<RomfsFileContext>)
    requires Named(entries)
    ensures fresh(list) && |list| == |entries| && Linked(list, files)
    ensures SizesOf(list) == SizesAfter(entries, |entries|)
    ensures numFiles == |entries| && fileTableSize == EntryOffset(entries, |entries|)
  {
    files, numFiles, fileTableSize, list := null, 0, 0, [];
    for i := 0 to |entries|
      invariant fresh(list) && |list| == i && Linked(list, files)
      invariant SizesOf(list) == SizesAfter(entries, i)
      invariant numFiles == i && fileTableSize == EntryOffset(entries, i)
    {
      files, list := AddContext(list, files, |entries[i].data|);
      numFiles := numFiles + 1;
      fileTableSize := fileTableSize + EntrySize(|entries[i].name| - 1);
    }
  }

  // ---------------------------------------------------------------- the passes over the list

  /** What the layout pass leaves in the contexts. */
  ghost predicate LaidOut(list: seq<RomfsFileContext>, slots: seq<Slot>)
    reads list
  {
    && |list| == |slots|
    && forall k :: 0 <= k < |list| ==>
         list[k].size == slots[k].room && list[k].offset == slots[k].at && list[k].entryOffset == slots[k].entry
  }

  /** The layout pass: list and files are walked side by side. */
  method AssignOffsets(ghost list: seq<RomfsFileContext>, files: RomfsFileContext?, entries: seq<FileEntry>,
                       ghost slots: seq<Slot>)
    returns (filePartitionSize: nat)
    requires Linked(list, files) && |list| == |entries| == |slots|
    requires Spaced(slots) && SizesOf(list) == Rooms(slots)
    requires forall k :: 0 <= k < |entries| ==> entries[k].name != [] && |slots[k].name| == |entries[k].name| - 1
    modifies list`offset, list`entryOffset
    ensures Linked(list, files) && LaidOut(list, slots)
    ensures filePartitionSize == ContentsEnd(slots, |slots|)
  {
    SizesAreRoomy(list, slots);
    var cur, entryOffset := files, 0;
    filePartitionSize := 0;
    for k := 0 to |entries|
      invariant cur == At(list, k)
      invariant filePartitionSize == ContentsEnd(slots, k) && entryOffset == EntriesEnd(slots, k)
      invariant Linked(list, files) && forall j :: 0 <= j < |list| ==> list[j].size == slots[j].room
      invariant forall j :: 0 <= j < k ==> PlacedAt(list[j], slots[j])
    {
      assert SpacedAt(slots, k) && LeadsOn(list, k);
      filePartitionSize := Align(filePartitionSize, 16);
      Place(cur, filePartitionSize, entryOffset);
      filePartitionSize := filePartitionSize + cur.size;
      entryOffset := entryOffset + EntrySize(|entries[k].name| - 1);
      cur := cur.next;
    }
  }

  ghost function Rooms(slots: seq<Slot>): seq<nat> {
    seq(|slots|, k requires 0 <= k < |slots| => slots[k].room)
  }

  lemma SizesAreRoomy(list: seq<RomfsFileContext>, slots: seq<Slot>)
    requires |list| == |slots| && SizesOf(list) == Rooms(slots)
    ensures forall k :: 0 <= k < |list| ==> list[k].size == slots[k].room
  {
    forall k | 0 <= k < |list|
      ensures list[k].size == slots[k].room
    {
      assert SizesOf(list)[k] == Rooms(slots)[k];
    }
  }

  ghost predicate PlacedAt(cur: RomfsFileContext, slot: Slot)
    reads cur`offset, cur`entryOffset
  {
    cur.offset == slot.at && cur.entryOffset == slot.entry
  }

  method Place(cur: RomfsFileContext, offset: nat, entryOffset: nat)
    modifies cur`offset, cur`entryOffset
    ensures cur.offset == offset && cur.entryOffset == entryOffset
  {
    cur.offset := offset;
    cur.entryOffset := entryOffset;
  }

  function EntryOffsetOf(cur: RomfsFileContext?): nat
    reads cur
  {
    if cur == null then ROMFS_ENTRY_EMPTY else cur.entryOffset
  }

  /** The files that the slots are for. */
  ghost predicate SlotsFor(slots: seq<Slot>, entries: seq<FileEntry>, buckets: nat)
    requires buckets > 0
  {
    && |slots| == |entries|
    && forall k :: 0 <= k < |slots| ==> SlotFor(slots[k], entries[k], buckets)
  }

  ghost predicate SlotFor(slot: Slot, entry: FileEntry, buckets: nat)
    requires buckets > 0
  {
    && entry.name != [] && slot.name == entry.name[1..] && slot.data == entry.data
    && slot.bucket == PathHash(0, slot.name) % buckets
  }

  /** The table pass: every file entry is written, and put in front of its bucket. */
  method FillFileTable(ghost list: seq<RomfsFileContext>, files: RomfsFileContext?, entries: seq<FileEntry>,
                       ghost slots: seq<Slot>, bucketCount: nat, ghost partitionEnd: nat, tableSize: nat)
    returns (fileTable: seq<Byte>, hashTable: seq<nat>)
    requires bucketCount > 0 && SlotsFor(slots, entries, bucketCount)
    requires WellPlaced(slots, bucketCount, partitionEnd, tableSize)
    requires Linked(list, files) && LaidOut(list, slots)
    ensures fileTable == Concat(Records(slots)) && |fileTable| == tableSize
    ensures hashTable == Heads(slots, bucketCount, |slots|)
  {
    fileTable := Zeros(tableSize);
    hashTable := seq(bucketCount, _ => ROMFS_ENTRY_EMPTY);
    var cur := files;
    TableStarts(slots, tableSize);
    for k := 0 to |entries|
      invariant cur == At(list, k)
      invariant hashTable == Heads(slots, bucketCount, k)
      invariant fileTable == TableSoFar(slots, tableSize, k)
    {
      assert SlotFor(slots[k], entries[k], bucketCount) && LeadsOn(list, k);
      var bucket, raw := FileEntryFor(list, cur, entries[k], slots, k, bucketCount, hashTable);
      HeadMoves(slots, bucketCount, k);
      hashTable := hashTable[bucket := cur.entryOffset];
      RecordFills(slots, bucketCount, partitionEnd, tableSize, k);
      fileTable := Overwritten(fileTable, cur.entryOffset, raw);
      cur := cur.next;
    }
    TableEnds(slots, bucketCount, partitionEnd, tableSize);
  }

  /** One file entry, and the bucket it goes to. */
  method FileEntryFor(ghost list: seq<RomfsFileContext>, cur: RomfsFileContext, entry: FileEntry,
                      ghost slots: seq<Slot>,
                      ghost k: nat, bucketCount: nat, hashTable: seq<nat>)
    returns (bucket: nat, raw: seq<Byte>)
    requires k < |list| && cur == list[k] && cur.sibling == At(list, k + 1) && LaidOut(list, slots)
    requires bucketCount > 0 && SlotFor(slots[k], entry, bucketCount)
    requires hashTable == Heads(slots, bucketCount, k)
    ensures bucket == slots[k].bucket && raw == Raw(slots, k)
  {
    var nameSize := |entry.name| - 1;
    var hash := CalcPathHash(0, entry.name, 1, nameSize);
    assert entry.name[1..1 + nameSize] == entry.name[1..];
    bucket := hash % bucketCount;
    raw := EntryBytes(EntryOffsetOf(cur.sibling), cur.offset, cur.size, hashTable[bucket], entry.name[1..]);
  }

  /** The file table after `k` files: their records, and zeros. */
  ghost function TableSoFar(slots: seq<Slot>, tableSize: nat, k: nat): seq<Byte>
    requires k <= |slots|
  {
    var done := Concat(Records(slots)[..k]);
    done + Zeros(if |done| <= tableSize then tableSize - |done| else 0)
  }

  lemma TableStarts(slots: seq<Slot>, tableSize: nat)
    ensures TableSoFar(slots, tableSize, 0) == Zeros(tableSize)
  {
    assert Records(slots)[..0] == [];
  }

  lemma TableEnds(slots: seq<Slot>, buckets: nat, partitionEnd: nat, tableSize: nat)
    requires WellPlaced(slots, buckets, partitionEnd, tableSize)
    ensures TableSoFar(slots, tableSize, |slots|) == Concat(Records(slots)) && |Concat(Records(slots))| == tableSize
  {
    RecordsFrom(slots, buckets, partitionEnd, tableSize, |slots|);
    assert Records(slots)[..|slots|] == Records(slots);
  }

  /** Where the records lie. */
  lemma {:induction false} RecordsFrom(slots: seq<Slot>, buckets: nat, partitionEnd: nat, tableSize: nat, k: nat)
    requires WellPlaced(slots, buckets, partitionEnd, tableSize) && k <= |slots|
    ensures |Concat(Records(slots)[..k])| == (if k < |slots| then slots[k].entry else tableSize)
  {
    if k > 0 {
      assert Follows(slots, buckets, partitionEnd, tableSize, k - 1);
      RecordsFrom(slots, buckets, partitionEnd, tableSize, k - 1);
      RecordsGrow(slots, k - 1);
    }
  }

  lemma RecordsGrow(slots: seq<Slot>, k: nat)
    requires k < |slots|
    ensures Concat(Records(slots)[..k + 1]) == Concat(Records(slots)[..k]) + Record(slots, k)
  {
    assert Records(slots)[..k + 1][..k] == Records(slots)[..k];
  }

  lemma {:induction false} EntriesStayInTable(slots: seq<Slot>, buckets: nat, partitionEnd: nat, tableSize: nat, k: nat)
    requires WellPlaced(slots, buckets, partitionEnd, tableSize) && k < |slots|
    ensures slots[k].entry + EntrySize(|slots[k].name|) <= tableSize
    decreases |slots| - k
  {
    assert Follows(slots, buckets, partitionEnd, tableSize, k);
    if k + 1 < |slots| {
      EntriesStayInTable(slots, buckets, partitionEnd, tableSize, k + 1);
    }
  }

  /** A zeroed table grows by one record. */
  lemma RecordFills(slots: seq<Slot>, buckets: nat, partitionEnd: nat, tableSize: nat, k: nat)
    requires WellPlaced(slots, buckets, partitionEnd, tableSize) && k < |slots|
    ensures Overwritten(TableSoFar(slots, tableSize, k), slots[k].entry, Raw(slots, k))
         == TableSoFar(slots, tableSize, k + 1)
  {
    var done, raw := Concat(Records(slots)[..k]), Raw(slots, k);
    RecordsFrom(slots, buckets, partitionEnd, tableSize, k);
    EntriesStayInTable(slots, buckets, partitionEnd, tableSize, k);
    RecordsGrow(slots, k);
    var zeros, pad := tableSize - |done|, EntrySize(|slots[k].name|) - |raw|;
    OverwrittenTail(done, zeros, raw);
    assert Zeros(zeros - |raw|) == Zeros(pad) + Zeros(zeros - |raw| - pad);
    assert done + raw + (Zeros(pad) + Zeros(zeros - |raw| - pad)) ==
      done + (raw + Zeros(pad)) + Zeros(zeros - |raw| - pad);
  }

  /** The data pass. */
  method WriteContents(ghost list: seq<RomfsFileContext>, files: RomfsFileContext?, entries: seq<FileEntry>,
                       ghost slots: seq<Slot>, buf: BufHelper)
    requires Linked(list, files) && LaidOut(list, slots) && |entries| == |slots|
    requires forall k :: 0 <= k < |slots| ==> slots[k].data == entries[k].data
    modifies buf
    ensures buf.buf == WithContents(old(buf.buf), slots, |slots|)
  {
    ghost var start := buf.buf;
    var cur := files;
    for k := 0 to |entries|
      invariant cur == At(list, k)
      invariant buf.buf == WithContents(start, slots, k)
    {
      buf.Seek(cur.offset + ROMFS_FILEPARTITION_OFS);
      buf.Write(entries[k].data);
      assert LeadsOn(list, k);
      cur := cur.next;
    }
  }

  /** The writes of `buildRomfsIntoFile`: header, contents, tables. */
  method WriteImage(ghost list: seq<RomfsFileContext>, files: RomfsFileContext?, entries: seq<FileEntry>,
                    ghost slots: seq<Slot>,
                    filePartitionSize: nat, rootBucket: nat, fileTable: seq<Byte>, fileHashTable: seq<nat>,
                      buf: BufHelper)
    requires rootBucket < DIR_BUCKETS && buf.buf == [] && buf.offset == 0
    requires Linked(list, files) && LaidOut(list, slots) && |entries| == |slots|
    requires forall k :: 0 <= k < |slots| ==> slots[k].data == entries[k].data
    requires fileTable == Concat(Records(slots)) && fileHashTable == Heads(slots, |fileHashTable|, |slots|)
    modifies buf
    ensures buf.buf == SlotsImage(slots, |fileHashTable|, rootBucket, filePartitionSize, |fileTable|)
  {
    var dirHashTableOff := TablesStart(filePartitionSize);
    var dirTable := DirTable(EntryOffsetOf(files));
    var header := Words(HeaderFields(dirHashTableOff, |fileHashTable|, |fileTable|), 8);
    buf.Write(header);
    assert buf.buf == header;
    WriteContents(list, files, entries, slots, buf);
    buf.Seek(dirHashTableOff);
    WriteTables(buf, DirHashTable(rootBucket), dirTable, Words(fileHashTable, 4), fileTable);
  }

  method WriteTwo(buf: BufHelper, a: seq<Byte>, b: seq<Byte>)
    modifies buf
    ensures buf.buf == Overwritten(old(buf.buf), old(buf.offset), a + b) && buf.offset == old(buf.offset) + |a + b|
  {
    buf.Write(a);
    buf.Write(b);
    OverwrittenTwice(old(buf.buf), old(buf.offset), a, b);
  }

  /** Four writes in a row. */
  method WriteTables(buf: BufHelper, a: seq<Byte>, b: seq<Byte>, c: seq<Byte>, d: seq<Byte>)
    modifies buf
    ensures buf.buf == Overwritten(old(buf.buf), old(buf.offset), a + b + c + d)
  {
    WriteTwo(buf, a, b);
    buf.Write(c);
    OverwrittenTwice(old(buf.buf), old(buf.offset), a + b, c);
    buf.Write(d);
    OverwrittenTwice(old(buf.buf), old(buf.offset), a + b + c, d);
  }

  lemma SlotsAreForFiles(entries: seq<FileEntry>, buckets: nat)
    requires Named(entries) && buckets > 0
    ensures SlotsFor(Slots(entries, buckets), entries, buckets)
  {
    forall k | 0 <= k < |entries|
      ensures SlotFor(Slots(entries, buckets)[k], entries[k], buckets)
    {
    }
  }

  /** Layout, tables and writes, once the contexts are there and the bucket counts are chosen. */
  method BuildFromContexts(ghost list: seq<RomfsFileContext>, files: RomfsFileContext?, entries: seq<FileEntry>,
                           fileBuckets: nat, rootBucket: nat, fileTableSize: nat, buf: BufHelper)
    requires Named(entries) && fileBuckets > 0 && rootBucket < DIR_BUCKETS && buf.buf == [] && buf.offset == 0
    requires |list| == |entries| && Linked(list, files) && fileTableSize == EntryOffset(entries, |entries|)
    requires SizesOf(list) == SizesAfter(entries, |entries|)
    modifies buf, list`offset, list`entryOffset
    ensures
      var partitionEnd, tableSize := PartitionEnd(entries, |entries|), EntryOffset(entries, |entries|);
      buf.buf == SlotsImage(Slots(entries, fileBuckets), fileBuckets, rootBucket, partitionEnd, tableSize)
  {
    ghost var slots := Slots(entries, fileBuckets);
    SizesAreRooms(entries, slots);
    SlotsAreSpaced(entries, fileBuckets);
    EndsOfSlots(entries, fileBuckets, |entries|);
    var filePartitionSize := AssignOffsets(list, files, entries, slots);
    SlotsAreWellPlaced(entries, fileBuckets);
    SlotsAreForFiles(entries, fileBuckets);
    var fileTable, fileHashTable :=
      FillFileTable(list, files, entries, slots, fileBuckets, filePartitionSize, fileTableSize);
    SlotsHoldData(slots, entries, fileBuckets);
    WriteImage(list, files, entries, slots, filePartitionSize, rootBucket, fileTable, fileHashTable, buf);
  }

  lemma SizesAreRooms(entries: seq<FileEntry>, slots: seq<Slot>)
    requires |slots| == |entries| && forall k :: 0 <= k < |slots| ==> slots[k].room == Room(entries, k)
    ensures SizesAfter(entries, |entries|) == Rooms(slots)
  {
    forall k | 0 <= k < |slots|
      ensures SizesAfter(entries, |entries|)[k] == Rooms(slots)[k]
    {
      SizesAreVisited(entries, |entries|, k);
    }
  }

  lemma SlotsHoldData(slots: seq<Slot>, entries: seq<FileEntry>, buckets: nat)
    requires buckets > 0 && SlotsFor(slots, entries, buckets)
    ensures forall k :: 0 <= k < |slots| ==> slots[k].data == entries[k].data
  {
    forall k | 0 <= k < |slots|
      ensures slots[k].data == entries[k].data
    {
      assert SlotFor(slots[k], entries[k], buckets);
    }
  }

  /** `buildRomfsIntoFile` into an empty buffer. */
  method BuildRomfsIntoFile(entries: seq<FileEntry>, buf: BufHelper)
    requires Fits(entries) && buf.buf == [] && buf.offset == 0
    modifies buf
    ensures buf.buf == RomfsImage(entries)
  {
    var files, numFiles, fileTableSize;
    ghost var list;
    files, numFiles, fileTableSize, list := RomfsVisitDir(entries);
    EntriesTakeSpace(entries, |entries|);
    var dirBuckets := RomfsGetHashTableCount(1);
    var fileBuckets := RomfsGetHashTableCount(numFiles);
    var dirHash := CalcPathHash(0, [], 0, 0);
    BuildFromContexts(list, files, entries, fileBuckets, dirHash % dirBuckets, fileTableSize, buf);
  }

  /** `buildRomfs`: the image, padded by at least a byte to whole hash blocks, and its own size. */
  method BuildRomfs(entries: seq<FileEntry>, block: nat) returns (image: seq<Byte>, size: nat)
    requires Fits(entries) && block > 0
    ensures size == |RomfsImage(entries)|
    ensures image == RomfsImage(entries) + Zeros(PaddingSize(size, block))
  {
    var buf := new BufHelper();
    BuildRomfsIntoFile(entries, buf);
    buf.Seek(|buf.buf|);
    size := buf.Tell();
    var padding := WritePadding(buf, buf.Tell(), block);
    image := buf.buf;
  }
}
