/**
 Byte strings, little-endian fields, and `BufHelper`, the growing buffer with a cursor through
 which every container is written.
 */
module Bytes {
  import opened Numbers

  type Byte = b: nat | b < 256

  /** A file to be packed. */
  datatype FileEntry = FileEntry(name: seq<Byte>, data: seq<Byte>)

  const U32_LIMIT: nat := 0x1_0000_0000
  const U64_LIMIT: nat := 0x1_0000_0000_0000_0000

  function Zeros(n: nat): (z: seq<Byte>)
    ensures |z| == n
  {
    seq(n, _ => 0)
  }

  // ---------------------------------------------------------------- little-endian fields

  function Pow256(width: nat): (p: nat)
    ensures p > 0
  {
    if width == 0 then 1 else 256 * Pow256(width - 1)
  }

  lemma FieldWidths()
    ensures Pow256(4) == U32_LIMIT && Pow256(8) == U64_LIMIT
  {
    assert Pow256(1) == 256 && Pow256(2) == 0x1_0000 && Pow256(3) == 0x100_0000;
    assert Pow256(5) == 256 * Pow256(4) && Pow256(6) == 256 * Pow256(5) && Pow256(7) == 256 * Pow256(6);
  }

  /** The low `width` bytes of a number, least significant first: storing truncates. */
  function LittleEndian(n: nat, width: nat): (s: seq<Byte>)
    ensures |s| == width
  {
    if width == 0 then [] else [n % 256] + LittleEndian(n / 256, width - 1)
  }

  function Decode(s: seq<Byte>): nat {
    if s == [] then 0 else s[0] + 256 * Decode(s[1..])
  }

  /** Reading a field back gives what was stored, up to the width of the field. */
  lemma {:induction false} DecodeLittleEndian(n: nat, width: nat)
    ensures Decode(LittleEndian(n, width)) == n % Pow256(width)
  {
    if width > 0 {
      var s := LittleEndian(n, width);
      assert s[1..] == LittleEndian(n / 256, width - 1);
      DecodeLittleEndian(n / 256, width - 1);
      ModTimes256(n, Pow256(width - 1));
    }
  }

  lemma ModTimes256(n: nat, p: nat)
    requires p > 0
    ensures n % 256 + 256 * ((n / 256) % p) == n % (256 * p)
  {
    var q, r := (n / 256) / p, (n / 256) % p;
    assert n / 256 == q * p + r;
    var low := n % 256 + 256 * r;
    assert n == 256 * (n / 256) + n % 256;
    assert n == (256 * p) * q + low by {
      assert 256 * (q * p) == (256 * p) * q;
    }
    assert 0 <= low < 256 * p by {
      assert r + 1 <= p;
      assert 256 * (r + 1) <= 256 * p;
    }
    UniqueRemainder(n, 256 * p, q, low);
  }

  lemma UniqueRemainder(n: nat, m: nat, q: nat, r: nat)
    requires m > 0 && n == m * q + r && r < m
    ensures n % m == r && n / m == q
  {
    var d := n / m - q;
    assert m * d == r - n % m;
    assert d >= 1 ==> m * d >= m;
    assert d <= -1 ==> m * d <= 0 - m;
  }

  /** The field of `width` bytes at `offset`. */
  function Field(image: seq<Byte>, offset: nat, width: nat): nat
    requires offset + width <= |image|
  {
    Decode(image[offset..offset + width])
  }

  /** `image` holds `part` at `offset`. */
  ghost predicate Holds(image: seq<Byte>, offset: nat, part: seq<Byte>) {
    offset + |part| <= |image| && image[offset..offset + |part|] == part
  }

  lemma FieldHolds(image: seq<Byte>, offset: nat, n: nat, width: nat)
    requires Holds(image, offset, LittleEndian(n, width)) && n < Pow256(width)
    ensures Field(image, offset, width) == n
  {
    DecodeLittleEndian(n, width);
    UniqueRemainder(n, Pow256(width), 0, n);
  }

  /** A part of a part. */
  lemma HoldsPart(image: seq<Byte>, offset: nat, whole: seq<Byte>, inner: nat, part: seq<Byte>)
    requires Holds(image, offset, whole) && Holds(whole, inner, part)
    ensures Holds(image, offset + inner, part)
  {
    forall i | 0 <= i < |part|
      ensures image[offset + inner..offset + inner + |part|][i] == part[i]
    {
      assert whole[inner + i] == image[offset..offset + |whole|][inner + i];
    }
  }

  // ---------------------------------------------------------------- parts side by side

  function Concat(parts: seq<seq<Byte>>): seq<Byte> {
    if parts == [] then [] else Concat(parts[..|parts| - 1]) + parts[|parts| - 1]
  }

  /** Where part `i` starts. */
  function OffsetOf(parts: seq<seq<Byte>>, i: nat): nat
    requires i <= |parts|
  {
    if i == 0 then 0 else OffsetOf(parts, i - 1) + |parts[i - 1]|
  }

  lemma {:induction false} OffsetOfPrefix(parts: seq<seq<Byte>>, more: seq<seq<Byte>>, i: nat)
    requires i <= |parts| <= |more| && more[..|parts|] == parts
    ensures OffsetOf(more, i) == OffsetOf(parts, i)
  {
    if i > 0 {
      OffsetOfPrefix(parts, more, i - 1);
      assert more[i - 1] == more[..|parts|][i - 1];
    }
  }

  lemma {:induction false} ConcatLength(parts: seq<seq<Byte>>)
    ensures |Concat(parts)| == OffsetOf(parts, |parts|)
  {
    if parts != [] {
      var front := parts[..|parts| - 1];
      ConcatLength(front);
      OffsetOfPrefix(front, parts, |front|);
    }
  }

  /** Each part sits at its offset. */
  lemma {:induction false} ConcatHolds(parts: seq<seq<Byte>>, i: nat)
    requires i < |parts|
    ensures Holds(Concat(parts), OffsetOf(parts, i), parts[i])
  {
    var front := parts[..|parts| - 1];
    OffsetOfPrefix(front, parts, i);
    ConcatLength(front);
    if i < |front| {
      ConcatHolds(front, i);
    }
  }

  lemma {:induction false} OffsetsGrow(parts: seq<seq<Byte>>, i: nat, j: nat)
    requires i <= j <= |parts|
    ensures OffsetOf(parts, i) <= OffsetOf(parts, j)
  {
    if i < j {
      OffsetsGrow(parts, i, j - 1);
    }
  }

  /** Parts of one size sit at its multiples. */
  lemma {:induction false} EqualParts(parts: seq<seq<Byte>>, size: nat, i: nat)
    requires i <= |parts| && forall k :: 0 <= k < |parts| ==> |parts[k]| == size
    ensures OffsetOf(parts, i) == size * i
  {
    if i > 0 {
      EqualParts(parts, size, i - 1);
      assert size * i == size * (i - 1) + size;
    }
  }

  /** Side by side in an image, two parts are held one after the other. */
  lemma HoldsBoth(image: seq<Byte>, offset: nat, a: seq<Byte>, b: seq<Byte>)
    ensures Holds(image, offset, a + b) <==> Holds(image, offset, a) && Holds(image, offset + |a|, b)
  {
    if Holds(image, offset, a + b) {
      assert Holds(a + b, 0, a) && Holds(a + b, |a|, b);
      HoldsPart(image, offset, a + b, 0, a);
      HoldsPart(image, offset, a + b, |a|, b);
    }
    if Holds(image, offset, a) && Holds(image, offset + |a|, b) {
      assert image[offset..offset + |a + b|] == image[offset..offset + |a|] + image[offset + |a|..offset + |a + b|];
    }
  }

  // ---------------------------------------------------------------- runs of fields

  /** Fields of one width, side by side. */
  function Words(values: seq<nat>, width: nat): (raw: seq<Byte>)
    ensures |raw| == width * |values|
  {
    ConcatLength(WordParts(values, width));
    EqualParts(WordParts(values, width), width, |values|);
    Concat(WordParts(values, width))
  }

  function WordParts(values: seq<nat>, width: nat): (parts: seq<seq<Byte>>)
    ensures |parts| == |values| && forall k :: 0 <= k < |parts| ==> |parts[k]| == width
  {
    seq(|values|, i requires 0 <= i < |values| => LittleEndian(values[i], width))
  }

  lemma WordIsRead(image: seq<Byte>, at: nat, values: seq<nat>, width: nat, i: nat)
    requires Holds(image, at, Words(values, width)) && i < |values| && values[i] < Pow256(width)
    ensures at + width * i + width <= |image|
    ensures Field(image, at + width * i, width) == values[i]
  {
    EqualParts(WordParts(values, width), width, i);
    ConcatHolds(WordParts(values, width), i);
    HoldsPart(image, at, Words(values, width), width * i, LittleEndian(values[i], width));
    FieldHolds(image, at + width * i, values[i], width);
  }

  // ---------------------------------------------------------------- the buffer

  /** The buffer after writing `data` at `offset`: it grows as far as needed, zero-filled, even
      when there is nothing to write. */
  function Overwritten(buf: seq<Byte>, offset: nat, data: seq<Byte>): (b: seq<Byte>)
    ensures |b| == Max(|buf|, offset + |data|)
  {
    var grown := if offset + |data| > |buf| then buf + Zeros(offset + |data| - |buf|) else buf;
    grown[..offset] + data + grown[offset + |data|..]
  }

  lemma OverwrittenBytes(buf: seq<Byte>, offset: nat, data: seq<Byte>)
    ensures Holds(Overwritten(buf, offset, data), offset, data)
    ensures forall i :: 0 <= i < |buf| && !(offset <= i < offset + |data|) ==>
      Overwritten(buf, offset, data)[i] == buf[i]
    ensures forall i :: |buf| <= i < offset ==> Overwritten(buf, offset, data)[i] == 0
  {
  }

  /** A write leaves alone what lies before or behind it. */
  lemma OverwrittenKeeps(buf: seq<Byte>, offset: nat, data: seq<Byte>, at: nat, part: seq<Byte>)
    requires Holds(buf, at, part)
    requires at + |part| <= offset || offset + |data| <= at
    ensures Holds(Overwritten(buf, offset, data), at, part)
  {
    var b := Overwritten(buf, offset, data);
    OverwrittenBytes(buf, offset, data);
    assert b[at..at + |part|] == part by {
      forall i | 0 <= i < |part|
        ensures b[at..at + |part|][i] == part[i]
      {
        assert buf[at..at + |part|][i] == buf[at + i];
      }
    }
  }

  /** Two writes in a row are one. */
  lemma OverwrittenTwice(buf: seq<Byte>, offset: nat, a: seq<Byte>, b: seq<Byte>)
    ensures Overwritten(Overwritten(buf, offset, a), offset + |a|, b) == Overwritten(buf, offset, a + b)
  {
    var x, y := Overwritten(Overwritten(buf, offset, a), offset + |a|, b), Overwritten(buf, offset, a + b);
    OverwrittenBytes(buf, offset, a);
    OverwrittenBytes(buf, offset, a + b);
    OverwrittenBytes(Overwritten(buf, offset, a), offset + |a|, b);
    OverwrittenKeeps(Overwritten(buf, offset, a), offset + |a|, b, offset, a);
    HoldsBoth(x, offset, a, b);
    assert |x| == |y|;
    forall i | 0 <= i < |x|
      ensures x[i] == y[i]
    {
      if offset <= i < offset + |a + b| {
        assert x[offset..offset + |a + b|][i - offset] == y[offset..offset + |a + b|][i - offset];
      }
    }
  }

  /** Writing at the end appends. */
  lemma OverwrittenAtEnd(buf: seq<Byte>, data: seq<Byte>)
    ensures Overwritten(buf, |buf|, data) == buf + data
  {
  }

  /** Filling the front of a zeroed tail. */
  lemma OverwrittenTail(done: seq<Byte>, zeros: nat, data: seq<Byte>)
    requires |data| <= zeros
    ensures Overwritten(done + Zeros(zeros), |done|, data) == done + data + Zeros(zeros - |data|)
  {
  }

  class BufHelper {
    var buf: seq<Byte>
    var offset: nat

    constructor ()
      ensures buf == [] && offset == 0
    {
      buf, offset := [], 0;
    }

    method Write(data: seq<Byte>)
      modifies this
      ensures buf == Overwritten(old(buf), old(offset), data) && offset == old(offset) + |data|
      ensures old(offset) == old(|buf|) ==> buf == old(buf) + data && offset == |buf|
    {
      OverwrittenAtEnd(buf, data);
      if offset + |data| > |buf| {
        buf := buf + Zeros(offset + |data| - |buf|);
      }
      buf := buf[..offset] + data + buf[offset + |data|..];
      offset := offset + |data|;
    }

    method Seek(whereTo: nat)
      modifies this`offset
      ensures offset == whereTo
    {
      offset := whereTo;
    }

    function Tell(): nat
      reads this`offset
    {
      offset
    }
  }

  /** The padding that `write_padding` adds: up to the next multiple of the block, and a whole
      block when `off` already is one. */
  function PaddingSize(off: nat, block: nat): (size: nat)
    requires block > 0
    ensures 1 <= size <= block && (off + size) % block == 0
  {
    PaddingReachesMultiple(off, block);
    block - off % block
  }

  lemma PaddingReachesMultiple(off: nat, block: nat)
    requires block > 0
    ensures (off + (block - off % block)) % block == 0
  {
    var q := off / block;
    assert off + (block - off % block) == block * (q + 1);
    UniqueRemainder(off + (block - off % block), block, q + 1, 0);
  }

  method WritePadding(buf: BufHelper, off: nat, block: nat) returns (size: nat)
    requires block > 0
    modifies buf
    ensures size == PaddingSize(off, block)
    ensures buf.buf == Overwritten(old(buf.buf), old(buf.offset), Zeros(size))
    ensures buf.offset == old(buf.offset) + size
    ensures old(buf.offset) == old(|buf.buf|) ==> buf.buf == old(buf.buf) + Zeros(size) && buf.offset == |buf.buf|
  {
    size := block - (off % block);
    if size != 0 {
      buf.Write(Zeros(size));
    }
  }

  // ---------------------------------------------------------------- alignment

  /** Rounding up to a power of two, as `align32` and `align64` do below the width of the type. */
  function Align(n: nat, alignment: nat): (a: nat)
    requires alignment > 0
    ensures n <= a < n + alignment
  {
    n + (alignment - n % alignment) % alignment
  }

  lemma AlignIsMultiple(n: nat, alignment: nat)
    requires alignment > 0
    ensures Align(n, alignment) % alignment == 0
  {
    if n % alignment != 0 {
      PaddingReachesMultiple(n, alignment);
      UniqueRemainder(alignment - n % alignment, alignment, 0, alignment - n % alignment);
    } else {
      UniqueRemainder(alignment, alignment, 1, 0);
    }
  }
}
