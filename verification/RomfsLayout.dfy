/**
 The layout of a RomFS: where each file's contents and its table entry go, and in which bucket of
 the hash table it is found. From there on the image is a function of these slots.
 */
module RomfsLayout {
  import opened Bytes
  import opened RomfsHash

  const ROMFS_ENTRY_EMPTY: nat := 0xFFFF_FFFF
  const ROMFS_FILEPARTITION_OFS: nat := 0x200
  const HEADER_SIZE: nat := 0x50
  const DIR_ENTRY_SIZE: nat := 24
  const FILE_ENTRY_SIZE: nat := 32
  const DIR_BUCKETS: nat := 3

  /** A file in its place: `room` bytes at `at` in the file partition, its table entry at `entry`. */
  datatype Slot = Slot(name: seq<Byte>, data: seq<Byte>, room: nat, at: nat, entry: nat, bucket: nat)

  // ---------------------------------------------------------------- placing the files

  /** No name is empty; its first byte, the slash, is not stored. */
  predicate Named(entries: seq<FileEntry>) {
    forall i :: 0 <= i < |entries| ==> entries[i].name != []
  }

  function Tail(entries: seq<FileEntry>, k: nat): seq<Byte>
    requires Named(entries) && k < |entries|
  {
    entries[k].name[1..]
  }

  /** The file whose context comes `k`-th in the linked list of `n`. */
  function Visited(n: nat, k: nat): (v: nat)
    requires k < n
    ensures v < n
  {
    if k == 0 then 0 else n - k
  }

  /** The room that file `k` gets: the size found in the `k`-th context of the list. */
  function Room(entries: seq<FileEntry>, k: nat): nat
    requires k < |entries|
  {
    |entries[Visited(|entries|, k)].data|
  }

  function PartitionEnd(entries: seq<FileEntry>, k: nat): nat
    requires k <= |entries|
  {
    if k == 0 then 0 else Align(PartitionEnd(entries, k - 1), 16) + Room(entries, k - 1)
  }

  /** The size of a file entry with a name of this length, padded to a multiple of four. */
  function EntrySize(nameLen: nat): (size: nat)
    ensures FILE_ENTRY_SIZE + nameLen <= size < FILE_ENTRY_SIZE + nameLen + 4
  {
    FILE_ENTRY_SIZE + Align(nameLen, 4)
  }

  function EntryOffset(entries: seq<FileEntry>, k: nat): nat
    requires Named(entries) && k <= |entries|
  {
    if k == 0 then 0 else EntryOffset(entries, k - 1) + EntrySize(|Tail(entries, k - 1)|)
  }

  function SlotOf(entries: seq<FileEntry>, buckets: nat, k: nat): Slot
    requires Named(entries) && buckets > 0 && k < |entries|
  {
    Slot(Tail(entries, k), entries[k].data, Room(entries, k), Align(PartitionEnd(entries, k), 16),
         EntryOffset(entries, k), PathHash(0, Tail(entries, k)) % buckets)
  }

  function Slots(entries: seq<FileEntry>, buckets: nat): (slots: seq<Slot>)
    requires Named(entries) && buckets > 0
    ensures |slots| == |entries|
  {
    seq(|entries|, k requires 0 <= k < |entries| => SlotOf(entries, buckets, k))
  }

  /** Slot `k` and what follows it: its table entry ends where the next one starts, its contents, at
      a multiple of 16, end before the next ones start. */
  ghost predicate Follows(slots: seq<Slot>, buckets: nat, partitionEnd: nat, tableSize: nat, k: nat)
    requires k < |slots|
  {
    && slots[k].bucket < buckets
    && slots[k].entry + EntrySize(|slots[k].name|) == (if k + 1 < |slots| then slots[k + 1].entry else tableSize)
    && slots[k].at % 16 == 0
    && slots[k].at + slots[k].room <= (if k + 1 < |slots| then slots[k + 1].at else partitionEnd)
  }

  ghost predicate WellPlaced(slots: seq<Slot>, buckets: nat, partitionEnd: nat, tableSize: nat) {
    && (forall k :: 0 <= k < |slots| ==> Follows(slots, buckets, partitionEnd, tableSize, k))
    && (if slots == [] then tableSize == 0 else slots[0].entry == 0)
  }

  lemma SlotsAreWellPlaced(entries: seq<FileEntry>, buckets: nat)
    requires Named(entries) && buckets > 0
    ensures WellPlaced(Slots(entries, buckets), buckets, PartitionEnd(entries, |entries|),
      EntryOffset(entries, |entries|))
  {
    forall k | 0 <= k < |entries|
      ensures Follows(Slots(entries, buckets), buckets, PartitionEnd(entries, |entries|),
        EntryOffset(entries, |entries|), k)
    {
      SlotFollows(entries, buckets, k);
    }
  }

  lemma {:induction false} SlotFollows(entries: seq<FileEntry>, buckets: nat, k: nat)
    requires Named(entries) && buckets > 0 && k < |entries|
    ensures Follows(Slots(entries, buckets), buckets, PartitionEnd(entries, |entries|),
      EntryOffset(entries, |entries|), k)
  {
    SlotEnds(entries, k);
    AlignIsMultiple(PartitionEnd(entries, k), 16);
    var slots := Slots(entries, buckets);
    assert slots[k] == SlotOf(entries, buckets, k);
    if k + 1 < |slots| {
      assert slots[k + 1] == SlotOf(entries, buckets, k + 1);
    }
  }

  /** Where the next slot may start. */
  lemma SlotEnds(entries: seq<FileEntry>, k: nat)
    requires Named(entries) && k < |entries|
    ensures PartitionEnd(entries, k + 1) == Align(PartitionEnd(entries, k), 16) + Room(entries, k)
    ensures EntryOffset(entries, k + 1) == EntryOffset(entries, k) + EntrySize(|Tail(entries, k)|)
  {
  }

  /** Where the contents, and the table entries, of the first `k` slots end. */
  function ContentsEnd(slots: seq<Slot>, k: nat): nat
    requires k <= |slots|
  {
    if k == 0 then 0 else slots[k - 1].at + slots[k - 1].room
  }

  function EntriesEnd(slots: seq<Slot>, k: nat): nat
    requires k <= |slots|
  {
    if k == 0 then 0 else slots[k - 1].entry + EntrySize(|slots[k - 1].name|)
  }

  /** Every slot starts where the one before allows. */
  ghost predicate Spaced(slots: seq<Slot>) {
    forall k :: 0 <= k < |slots| ==> SpacedAt(slots, k)
  }

  ghost predicate SpacedAt(slots: seq<Slot>, k: nat)
    requires k < |slots|
  {
    slots[k].at == Align(ContentsEnd(slots, k), 16) && slots[k].entry == EntriesEnd(slots, k)
  }

  lemma EndsOfSlots(entries: seq<FileEntry>, buckets: nat, k: nat)
    requires Named(entries) && buckets > 0 && k <= |entries|
    ensures ContentsEnd(Slots(entries, buckets), k) == PartitionEnd(entries, k)
    ensures EntriesEnd(Slots(entries, buckets), k) == EntryOffset(entries, k)
  {
    if k > 0 {
      SlotEnds(entries, k - 1);
      assert Slots(entries, buckets)[k - 1] == SlotOf(entries, buckets, k - 1);
    }
  }

  lemma SlotsAreSpaced(entries: seq<FileEntry>, buckets: nat)
    requires Named(entries) && buckets > 0
    ensures Spaced(Slots(entries, buckets))
  {
    forall k | 0 <= k < |entries|
      ensures SpacedAt(Slots(entries, buckets), k)
    {
      EndsOfSlots(entries, buckets, k);
    }
  }

  lemma {:induction false} EntriesTakeSpace(entries: seq<FileEntry>, k: nat)
    requires Named(entries) && k <= |entries|
    ensures FILE_ENTRY_SIZE * k <= EntryOffset(entries, k)
  {
    if k > 0 {
      EntriesTakeSpace(entries, k - 1);
    }
  }

  // ---------------------------------------------------------------- the image of slots

  /** The first entry of bucket `b` once the first `k` files are in: the latest of them there. */
  function Head(slots: seq<Slot>, k: nat, b: nat): nat
    requires k <= |slots|
  {
    if k == 0 then ROMFS_ENTRY_EMPTY
    else if slots[k - 1].bucket == b then slots[k - 1].entry
    else Head(slots, k - 1, b)
  }

  function Heads(slots: seq<Slot>, buckets: nat, k: nat): (heads: seq<nat>)
    requires k <= |slots|
    ensures |heads| == buckets
  {
    seq(buckets, b requires 0 <= b < buckets => Head(slots, k, b))
  }

  /** Entering file `k` changes the head of its bucket only. */
  lemma HeadMoves(slots: seq<Slot>, buckets: nat, k: nat)
    requires k < |slots| && slots[k].bucket < buckets
    ensures Heads(slots, buckets, k + 1) == Heads(slots, buckets, k)[slots[k].bucket := slots[k].entry]
  {
  }

  /** `RomfsFileEntry` in the root directory. */
  function EntryBytes(sibling: nat, dataOff: nat, dataSize: nat, nextHash: nat, name: seq<Byte>): (raw: seq<Byte>)
    ensures |raw| == FILE_ENTRY_SIZE + |name|
  {
    Words([0, sibling], 4) + Words([dataOff, dataSize], 8) + Words([nextHash, |name|], 4) + name
  }

  /** The child of the root directory. */
  function FirstFile(slots: seq<Slot>): nat {
    if slots == [] then ROMFS_ENTRY_EMPTY else slots[0].entry
  }

  function Sibling(slots: seq<Slot>, k: nat): nat {
    if k + 1 < |slots| then slots[k + 1].entry else ROMFS_ENTRY_EMPTY
  }

  /** The entry of file `k`: the struct and the name ... */
  function Raw(slots: seq<Slot>, k: nat): (raw: seq<Byte>)
    requires k < |slots|
    ensures |raw| == FILE_ENTRY_SIZE + |slots[k].name|
  {
    EntryBytes(Sibling(slots, k), slots[k].at, slots[k].room, Head(slots, k, slots[k].bucket), slots[k].name)
  }

  /** ... padded with zeros. */
  function Record(slots: seq<Slot>, k: nat): (record: seq<Byte>)
    requires k < |slots|
    ensures |record| == EntrySize(|slots[k].name|)
  {
    Raw(slots, k) + Zeros(EntrySize(|slots[k].name|) - |Raw(slots, k)|)
  }

  function Records(slots: seq<Slot>): (parts: seq<seq<Byte>>)
    ensures |parts| == |slots|
  {
    seq(|slots|, k requires 0 <= k < |slots| => Record(slots, k))
  }

  /** A buffer after the contents of the first `k` files are written over it. */
  function WithContents(buf: seq<Byte>, slots: seq<Slot>, k: nat): seq<Byte>
    requires k <= |slots|
  {
    if k == 0 then buf
    else Overwritten(WithContents(buf, slots, k - 1), slots[k - 1].at + ROMFS_FILEPARTITION_OFS, slots[k - 1].data)
  }

  /** The hash table of the directories, which holds the root alone. */
  function DirHashTable(rootBucket: nat): (raw: seq<Byte>)
    requires rootBucket < DIR_BUCKETS
    ensures |raw| == 4 * DIR_BUCKETS
  {
    Words([ROMFS_ENTRY_EMPTY, ROMFS_ENTRY_EMPTY, ROMFS_ENTRY_EMPTY][rootBucket := 0], 4)
  }

  /** `RomfsDirEntry` of the root. */
  function DirTable(childFile: nat): (raw: seq<Byte>)
    ensures |raw| == DIR_ENTRY_SIZE
  {
    Words([0, ROMFS_ENTRY_EMPTY, ROMFS_ENTRY_EMPTY, childFile, ROMFS_ENTRY_EMPTY, 0], 4)
  }

  function TablesStart(partitionEnd: nat): nat {
    Align(partitionEnd + ROMFS_FILEPARTITION_OFS, 4)
  }

  /** `RomfsHeader`: where the four tables are and how long, and where the contents start. */
  function HeaderFields(start: nat, buckets: nat, tableSize: nat): (fields: seq<nat>)
    ensures |fields| == 10
  {
    var dirTable := start + 4 * DIR_BUCKETS;
    var hashTable := dirTable + DIR_ENTRY_SIZE;
    [HEADER_SIZE, start, 4 * DIR_BUCKETS, dirTable, DIR_ENTRY_SIZE,
     hashTable, 4 * buckets, hashTable + 4 * buckets, tableSize, ROMFS_FILEPARTITION_OFS]
  }

  function Tables(slots: seq<Slot>, buckets: nat, rootBucket: nat): seq<Byte>
    requires rootBucket < DIR_BUCKETS
  {
    DirHashTable(rootBucket) + DirTable(FirstFile(slots)) + Words(Heads(slots, buckets, |slots|), 4)
      + Concat(Records(slots))
  }

  function SlotsImage(slots: seq<Slot>, buckets: nat, rootBucket: nat, partitionEnd: nat, tableSize: nat): seq<Byte>
    requires rootBucket < DIR_BUCKETS
  {
    var start := TablesStart(partitionEnd);
    Overwritten(WithContents(Words(HeaderFields(start, buckets, tableSize), 8), slots, |slots|), start,
                Tables(slots, buckets, rootBucket))
  }

  // ---------------------------------------------------------------- the image of files

  function BucketCount(entries: seq<FileEntry>): (count: nat)
    ensures |entries| <= count && 3 <= count
  {
    HashTableCount(|entries|)
  }

  function RootBucket(): (b: nat)
    ensures b < DIR_BUCKETS
  {
    PathHash(0, []) % DIR_BUCKETS
  }

  function RomfsImage(entries: seq<FileEntry>): seq<Byte>
    requires Named(entries)
  {
    SlotsImage(Slots(entries, BucketCount(entries)), BucketCount(entries), RootBucket(),
               PartitionEnd(entries, |entries|), EntryOffset(entries, |entries|))
  }

  /** All offsets fit their fields; the file table has 32-bit offsets. */
  predicate Fits(entries: seq<FileEntry>) {
    Named(entries) && EntryOffset(entries, |entries|) < U32_LIMIT && |RomfsImage(entries)| < U64_LIMIT
  }
}
