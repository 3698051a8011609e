/**
 PFS0 archives: `buildPfs0` writes a header, a file table, a padded string table and the
 contents of the files side by side; the reader here goes by those headers alone.
 */
module Pfs0 {
  import opened Bytes
  import opened Wrappers

  const PFS0_MAGIC: nat := 0x30534650

  /** The struct of the same name; `name_offset` is 32 bits wide and followed by padding. */
  datatype Pfs0FileTable = Pfs0FileTable(dataOffset: nat, dataSize: nat, nameOffset: nat) {
    function Raw(): (raw: seq<Byte>)
      ensures |raw| == 24
    {
      Words([dataOffset, dataSize], 8) + Words([nameOffset, 0], 4)
    }
  }

  function HeaderBytes(totalFiles: nat, stringTableSize: nat): (raw: seq<Byte>)
    ensures |raw| == 16
  {
    Words([PFS0_MAGIC, totalFiles, stringTableSize, 0], 4)
  }

  // ---------------------------------------------------------------- the image

  function Contents(entries: seq<FileEntry>): (parts: seq<seq<Byte>>)
    ensures |parts| == |entries|
  {
    seq(|entries|, i requires 0 <= i < |entries| => entries[i].data)
  }

  function Names(entries: seq<FileEntry>): (parts: seq<seq<Byte>>)
    ensures |parts| == |entries|
  {
    seq(|entries|, i requires 0 <= i < |entries| => entries[i].name + [0])
  }

  function TableEntry(entries: seq<FileEntry>, i: nat): Pfs0FileTable
    requires i < |entries|
  {
    Pfs0FileTable(OffsetOf(Contents(entries), i), |entries[i].data|, OffsetOf(Names(entries), i))
  }

  function Table(entries: seq<FileEntry>): (table: seq<Pfs0FileTable>)
    ensures |table| == |entries|
  {
    seq(|entries|, i requires 0 <= i < |entries| => TableEntry(entries, i))
  }

  function RawTable(table: seq<Pfs0FileTable>): (parts: seq<seq<Byte>>)
    ensures |parts| == |table| && forall k :: 0 <= k < |parts| ==> |parts[k]| == 24
  {
    seq(|table|, i requires 0 <= i < |table| => table[i].Raw())
  }

  function StringTable(entries: seq<FileEntry>): seq<Byte> {
    var names := Concat(Names(entries));
    names + Zeros(Align(|names|, 32) - |names|)
  }

  function Pfs0Image(entries: seq<FileEntry>): seq<Byte> {
    HeaderBytes(|entries|, |StringTable(entries)|) + Concat(RawTable(Table(entries))) + StringTable(entries)
      + Concat(Contents(entries))
  }

  method BuildPfs0(entries: seq<FileEntry>) returns (image: seq<Byte>)
    ensures image == Pfs0Image(entries)
  {
    var fileTable, stringTable := BuildTables(entries);
    var buf := new BufHelper();
    var header, table := HeaderBytes(|entries|, |stringTable|), Concat(RawTable(fileTable));
    buf.Write(header);
    assert buf.buf == header;
    buf.Write(table);
    assert buf.buf == header + table;
    buf.Write(stringTable);
    WriteContents(buf, entries);
    image := buf.buf;
  }

  /** The first loop: both tables grow file by file. */
  method BuildTables(entries: seq<FileEntry>) returns (fileTable: seq<Pfs0FileTable>, stringTable: seq<Byte>)
    ensures fileTable == Table(entries) && stringTable == StringTable(entries)
  {
    fileTable := seq(|entries|, _ => Pfs0FileTable(0, 0, 0));
    stringTable := [];
    var stringOffset, dataOffset := 0, 0;
    for i := 0 to |entries|
      invariant |fileTable| == |entries|
      invariant forall k :: 0 <= k < i ==> fileTable[k] == TableEntry(entries, k)
      invariant dataOffset == OffsetOf(Contents(entries), i) && stringOffset == OffsetOf(Names(entries), i)
      invariant |stringTable| == stringOffset && stringTable == Concat(Names(entries)[..i])
    {
      fileTable := fileTable[i := Pfs0FileTable(dataOffset, |entries[i].data|, stringOffset)];
      assert Names(entries)[..i + 1] == Names(entries)[..i] + [entries[i].name + [0]];
      stringTable := stringTable + (entries[i].name + [0]);
      dataOffset := dataOffset + |entries[i].data|;
      stringOffset := stringOffset + |entries[i].name| + 1;
    }
    assert Names(entries)[..|entries|] == Names(entries);
    stringTable := stringTable + Zeros(Align(|stringTable|, 32) - |stringTable|);
  }

  /** The last loop: the contents are appended. */
  method WriteContents(buf: BufHelper, entries: seq<FileEntry>)
    requires buf.offset == |buf.buf|
    modifies buf
    ensures buf.offset == |buf.buf| && buf.buf == old(buf.buf) + Concat(Contents(entries))
  {
    ghost var front := buf.buf;
    for i := 0 to |entries|
      invariant buf.offset == |buf.buf|
      invariant buf.buf == front + Concat(Contents(entries)[..i])
    {
      assert Contents(entries)[..i + 1] == Contents(entries)[..i] + [entries[i].data];
      buf.Write(entries[i].data);
    }
    assert Contents(entries)[..|entries|] == Contents(entries);
  }

  // ---------------------------------------------------------------- the reader

  /** An archive starts with its magic word, and its contents at a multiple of 32 behind the file table. */
  lemma StartsWithMagic(entries: seq<FileEntry>)
    ensures
      var image := Pfs0Image(entries);
      && image[..4] == [0x50, 0x46, 0x53, 0x30]
      && |image| == 16 + 24 * |entries| + |StringTable(entries)| + |Concat(Contents(entries))|
      && |StringTable(entries)| % 32 == 0
  {
    var image, names := Pfs0Image(entries), Concat(Names(entries));
    AlignIsMultiple(|names|, 32);
    var words := [PFS0_MAGIC, |entries|, |StringTable(entries)|, 0];
    var parts := WordParts(words, 4);
    ConcatHolds(parts, 0);
    assert Words(words, 4)[..4] == parts[0] == LittleEndian(PFS0_MAGIC, 4);
    MagicBytes();
    assert image[..4] == Words(words, 4)[..4];
    ConcatLength(RawTable(Table(entries)));
    EqualParts(RawTable(Table(entries)), 24, |entries|);
  }

  lemma MagicBytes()
    ensures LittleEndian(PFS0_MAGIC, 4) == [0x50, 0x46, 0x53, 0x30]
  {
    assert PFS0_MAGIC == 0x50 + 256 * 0x305346 && 0x305346 == 0x46 + 256 * 0x3053 && 0x3053 == 0x53 + 256 * 0x30;
    assert LittleEndian(0x30, 1) == [0x30] + LittleEndian(0, 0);
    assert LittleEndian(0x3053, 2) == [0x53] + LittleEndian(0x30, 1);
    assert LittleEndian(0x305346, 3) == [0x46] + LittleEndian(0x3053, 2);
    assert LittleEndian(PFS0_MAGIC, 4) == [0x50] + LittleEndian(0x305346, 3);
  }

  /** The bytes from the front of `s` up to the first zero. */
  function CString(s: seq<Byte>): seq<Byte> {
    if s == [] || s[0] == 0 then [] else [s[0]] + CString(s[1..])
  }

  /** The header of an image, when it has one: number of files, start of the string table, start
      of the contents. */
  function ParseHeader(image: seq<Byte>): Option<(nat, nat, nat)> {
    if |image| < 16 || Field(image, 0, 4) != PFS0_MAGIC then None
    else
      var n, stringTableSize := Field(image, 4, 4), Field(image, 8, 4);
      var strings := 16 + 24 * n;
      if strings + stringTableSize <= |image| then Some((n, strings, strings + stringTableSize)) else None
  }

  /** The `i`-th file, when its name and contents lie inside the image. */
  function ParseFile(image: seq<Byte>, strings: nat, contents: nat, i: nat): Option<FileEntry>
    requires 16 + 24 * (i + 1) <= strings <= contents <= |image|
  {
    var at := 16 + 24 * i;
    var data, size, name := contents + Field(image, at, 8), Field(image, at + 8, 8), strings + Field(image, at + 16, 4);
    if name <= contents && data + size <= |image| then
      Some(FileEntry(CString(image[name..contents]), image[data..data + size]))
    else None
  }

  /** The first `n` files. */
  function ParseFiles(image: seq<Byte>, strings: nat, contents: nat, n: nat): Option<seq<FileEntry>>
    requires 16 + 24 * n <= strings <= contents <= |image|
  {
    if n == 0 then Some([])
    else
      var before, last := ParseFiles(image, strings, contents, n - 1), ParseFile(image, strings, contents, n - 1);
      if before.Some? && last.Some? then Some(before.value + [last.value]) else None
  }

  function ParsePfs0(image: seq<Byte>): Option<seq<FileEntry>> {
    match ParseHeader(image)
    case None => None
    case Some((n, strings, contents)) => ParseFiles(image, strings, contents, n)
  }

  // ---------------------------------------------------------------- round trip

  /** The sizes fit their fields. */
  predicate Fits(entries: seq<FileEntry>) {
    && |entries| < U32_LIMIT
    && |StringTable(entries)| < U32_LIMIT
    && |Concat(Contents(entries))| < U64_LIMIT
  }

  predicate NulFree(s: seq<Byte>) {
    0 !in s
  }

  lemma {:induction false} CStringStops(s: seq<Byte>, rest: seq<Byte>)
    ensures CString(s + [0] + rest) == CString(s)
  {
    var all := s + [0] + rest;
    if s != [] && s[0] != 0 {
      assert all[1..] == s[1..] + [0] + rest;
      CStringStops(s[1..], rest);
    }
  }

  lemma {:induction false} CStringIsWhole(s: seq<Byte>)
    ensures CString(s) == s <==> NulFree(s)
    ensures |CString(s)| <= |s|
  {
    if s != [] {
      CStringIsWhole(s[1..]);
      assert s == [s[0]] + s[1..];
      if s[0] != 0 {
        assert CString(s)[1..] == CString(s[1..]);
      }
    }
  }

  /** What a reader gets back: names end at their first zero byte. */
  function Readable(entries: seq<FileEntry>): (r: seq<FileEntry>) {
    seq(|entries|, i requires 0 <= i < |entries| => FileEntry(CString(entries[i].name), entries[i].data))
  }

  /** Where the pieces of an image are. */
  ghost predicate Lays(image: seq<Byte>, entries: seq<FileEntry>, strings: nat, contents: nat) {
    && strings == 16 + 24 * |entries| && contents == strings + |StringTable(entries)|
    && Holds(image, 0, HeaderBytes(|entries|, |StringTable(entries)|))
    && Holds(image, 16, Concat(RawTable(Table(entries))))
    && Holds(image, strings, StringTable(entries))
    && Holds(image, contents, Concat(Contents(entries)))
  }

  lemma ImageLays(entries: seq<FileEntry>)
    ensures Lays(Pfs0Image(entries), entries, 16 + 24 * |entries|, 16 + 24 * |entries| + |StringTable(entries)|)
  {
    var header, table := HeaderBytes(|entries|, |StringTable(entries)|), Concat(RawTable(Table(entries)));
    var strings, contents := StringTable(entries), Concat(Contents(entries));
    var image := Pfs0Image(entries);
    ConcatLength(RawTable(Table(entries)));
    EqualParts(RawTable(Table(entries)), 24, |entries|);
    assert Holds(image, 0, header + table + strings + contents);
    HoldsBoth(image, 0, header + table + strings, contents);
    HoldsBoth(image, 0, header + table, strings);
    HoldsBoth(image, 0, header, table);
  }

  lemma HeaderIsRead(image: seq<Byte>, entries: seq<FileEntry>, strings: nat, contents: nat)
    requires Fits(entries) && Lays(image, entries, strings, contents)
    ensures ParseHeader(image) == Some((|entries|, strings, contents))
  {
    var fields := [PFS0_MAGIC, |entries|, |StringTable(entries)|, 0];
    FieldWidths();
    WordIsRead(image, 0, fields, 4, 0);
    WordIsRead(image, 0, fields, 4, 1);
    WordIsRead(image, 0, fields, 4, 2);
  }

  /** The offsets of a file stay below the totals. */
  lemma OffsetsFit(entries: seq<FileEntry>, i: nat)
    requires Fits(entries) && i < |entries|
    ensures OffsetOf(Contents(entries), i) + |entries[i].data| <= |Concat(Contents(entries))| < U64_LIMIT
    ensures OffsetOf(Names(entries), i) + |entries[i].name| + 1 <= |Concat(Names(entries))| <= |StringTable(entries)|
  {
    ConcatLength(Contents(entries));
    ConcatLength(Names(entries));
    OffsetsGrow(Contents(entries), i + 1, |entries|);
    OffsetsGrow(Names(entries), i + 1, |entries|);
  }

  /** The file table entry of file `i` is read back. */
  lemma TableIsRead(image: seq<Byte>, table: seq<Pfs0FileTable>, i: nat)
    requires Holds(image, 16, Concat(RawTable(table))) && i < |table|
    requires table[i].dataOffset < U64_LIMIT && table[i].dataSize < U64_LIMIT && table[i].nameOffset < U32_LIMIT
    ensures
      var at, t := 16 + 24 * i, table[i];
      && at + 24 <= |image|
      && Field(image, at, 8) == t.dataOffset && Field(image, at + 8, 8) == t.dataSize
      && Field(image, at + 16, 4) == t.nameOffset
  {
    var at, t := 16 + 24 * i, table[i];
    FieldWidths();
    EqualParts(RawTable(table), 24, i);
    ConcatHolds(RawTable(table), i);
    HoldsPart(image, 16, Concat(RawTable(table)), 24 * i, t.Raw());
    HoldsBoth(image, at, Words([t.dataOffset, t.dataSize], 8), Words([t.nameOffset, 0], 4));
    WordIsRead(image, at, [t.dataOffset, t.dataSize], 8, 0);
    WordIsRead(image, at, [t.dataOffset, t.dataSize], 8, 1);
    WordIsRead(image, at + 16, [t.nameOffset, 0], 4, 0);
  }

  /** A name is read from where it starts in the string table up to its end. */
  lemma NameIsRead(image: seq<Byte>, strings: nat, table: seq<Byte>, at: nat, name: seq<Byte>)
    requires Holds(image, strings, table) && Holds(table, at, name + [0])
    ensures CString(image[strings + at..strings + |table|]) == CString(name)
  {
    var rest := table[at + |name| + 1..];
    assert table[at..] == table[at..at + |name| + 1] + rest;
    assert image[strings + at..strings + |table|] == table[at..];
    CStringStops(name, rest);
  }

  /** A file is read when its table entry points at its name and at its contents. */
  lemma FileIsParsed(image: seq<Byte>, strings: nat, contents: nat, i: nat, t: Pfs0FileTable, f: FileEntry)
    requires 16 + 24 * (i + 1) <= strings <= contents <= |image|
    requires Field(image, 16 + 24 * i, 8) == t.dataOffset && Field(image, 16 + 24 * i + 8, 8) == t.dataSize
    requires Field(image, 16 + 24 * i + 16, 4) == t.nameOffset && strings + t.nameOffset <= contents
    requires CString(image[strings + t.nameOffset..contents]) == f.name
    requires Holds(image, contents + t.dataOffset, f.data) && |f.data| == t.dataSize
    ensures ParseFile(image, strings, contents, i) == Some(f)
  {
  }

  lemma StringTableHolds(entries: seq<FileEntry>, i: nat)
    requires i < |entries|
    ensures Holds(StringTable(entries), OffsetOf(Names(entries), i), Names(entries)[i])
  {
    var names, table := Concat(Names(entries)), StringTable(entries);
    ConcatHolds(Names(entries), i);
    assert Holds(table, 0, names + table[|names|..]);
    HoldsBoth(table, 0, names, table[|names|..]);
    HoldsPart(table, 0, names, OffsetOf(Names(entries), i), Names(entries)[i]);
  }

  lemma FileContentsAreHeld(image: seq<Byte>, entries: seq<FileEntry>, contents: nat, i: nat)
    requires Holds(image, contents, Concat(Contents(entries))) && i < |entries|
    ensures Holds(image, contents + OffsetOf(Contents(entries), i), entries[i].data)
  {
    ConcatHolds(Contents(entries), i);
    HoldsPart(image, contents, Concat(Contents(entries)), OffsetOf(Contents(entries), i), entries[i].data);
  }

  lemma FileIsRead(image: seq<Byte>, entries: seq<FileEntry>, strings: nat, contents: nat, i: nat)
    requires Fits(entries) && Lays(image, entries, strings, contents) && i < |entries|
    ensures ParseFile(image, strings, contents, i) == Some(Readable(entries)[i])
  {
    OffsetsFit(entries, i);
    TableIsRead(image, Table(entries), i);
    StringTableHolds(entries, i);
    NameIsRead(image, strings, StringTable(entries), OffsetOf(Names(entries), i), entries[i].name);
    FileContentsAreHeld(image, entries, contents, i);
    FileIsParsed(image, strings, contents, i, TableEntry(entries, i), Readable(entries)[i]);
  }

  lemma FilesAreRead(image: seq<Byte>, entries: seq<FileEntry>, strings: nat, contents: nat, n: nat)
    requires Fits(entries) && Lays(image, entries, strings, contents) && n <= |entries|
    ensures ParseFiles(image, strings, contents, n) == Some(Readable(entries)[..n])
  {
    forall i: nat | i < |entries|
      ensures ParseFile(image, strings, contents, i) == Some(Readable(entries)[i])
    {
      FileIsRead(image, entries, strings, contents, i);
    }
    FilesAreParsed(image, Readable(entries), strings, contents, n);
  }

  lemma {:induction false} FilesAreParsed(image: seq<Byte>, files: seq<FileEntry>, strings: nat, contents: nat, n: nat)
    requires 16 + 24 * |files| <= strings <= contents <= |image| && n <= |files|
    requires forall i: nat :: i < |files| ==> ParseFile(image, strings, contents, i) == Some(files[i])
    ensures ParseFiles(image, strings, contents, n) == Some(files[..n])
  {
    if n > 0 {
      FilesAreParsed(image, files, strings, contents, n - 1);
      assert files[..n] == files[..n - 1] + [files[n - 1]];
    }
  }

  /** Round trip: a reader that follows the headers gets every file back, in order, with its exact
      bytes; names come back exactly if and only if they hold no zero byte. */
  lemma Pfs0RoundTrip(entries: seq<FileEntry>)
    requires Fits(entries)
    ensures ParsePfs0(Pfs0Image(entries)) == Some(Readable(entries))
    ensures ParsePfs0(Pfs0Image(entries)) == Some(entries)
       <==> forall i :: 0 <= i < |entries| ==> NulFree(entries[i].name)
  {
    var strings := 16 + 24 * |entries|;
    var contents := strings + |StringTable(entries)|;
    ImageLays(entries);
    HeaderIsRead(Pfs0Image(entries), entries, strings, contents);
    FilesAreRead(Pfs0Image(entries), entries, strings, contents, |entries|);
    assert Readable(entries)[..|entries|] == Readable(entries);
    forall i | 0 <= i < |entries|
      ensures Readable(entries)[i] == entries[i] <==> NulFree(entries[i].name)
    {
      CStringIsWhole(entries[i].name);
    }
    if forall i :: 0 <= i < |entries| ==> NulFree(entries[i].name) {
      assert Readable(entries) == entries;
    }
  }
}
