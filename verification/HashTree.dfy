/**
 The hash layers of a section: a PFS0 is covered by one table of block hashes, a RomFS by five
 IVFC levels, each hashing the blocks of the next. The hash function itself is a parameter.
 */
module HashTree {
  import opened Bytes
  import opened Blocks
  import opened Numbers

  const HASH_SIZE: nat := 32
  const IVFC_MAX_LEVEL: nat := 6

  type Digest = d: seq<Byte> | |d| == HASH_SIZE witness Zeros(32)

  type Hash = seq<Byte> -> Digest

  /** Two inputs with one hash. */
  ghost predicate Collision(sha: Hash) {
    exists x: seq<Byte>, y: seq<Byte> :: x != y && sha(x) == sha(y)
  }

  // ---------------------------------------------------------------- blocks

  /** Block `i`, the last one being as short as the data is. */
  function BlockAt(data: seq<Byte>, block: nat, i: nat): seq<Byte>
    requires block > 0 && i < BlockCount(|data|, block)
  {
    BlockStarts(|data|, block, i);
    data[block * i..Min(block * i + block, |data|)]
  }

  /** The hash of a block, as bytes. */
  function Hashed(sha: Hash, data: seq<Byte>): (digest: seq<Byte>)
    ensures |digest| == HASH_SIZE
  {
    sha(data)
  }

  function Digests(sha: Hash, data: seq<Byte>, block: nat): (parts: seq<seq<Byte>>)
    requires block > 0
    ensures |parts| == BlockCount(|data|, block)
    ensures forall k :: 0 <= k < |parts| ==> |parts[k]| == HASH_SIZE
  {
    seq(BlockCount(|data|, block), i requires 0 <= i < BlockCount(|data|, block) => Hashed(sha,
      BlockAt(data, block, i)))
  }

  function HashTable(sha: Hash, data: seq<Byte>, block: nat): (table: seq<Byte>)
    requires block > 0
    ensures |table| == HASH_SIZE * BlockCount(|data|, block)
  {
    ConcatLength(Digests(sha, data, block));
    EqualParts(Digests(sha, data, block), HASH_SIZE, BlockCount(|data|, block));
    Concat(Digests(sha, data, block))
  }

  /** One hash per block, hash `i` at byte `32 * i`. */
  lemma HashTableHolds(sha: Hash, data: seq<Byte>, block: nat, i: nat)
    requires block > 0 && i < BlockCount(|data|, block)
    ensures Holds(HashTable(sha, data, block), HASH_SIZE * i, sha(BlockAt(data, block, i)))
  {
    EqualParts(Digests(sha, data, block), HASH_SIZE, i);
    ConcatHolds(Digests(sha, data, block), i);
  }

  /** Data that agrees on every block agrees. */
  lemma BlocksDetermine(a: seq<Byte>, b: seq<Byte>, block: nat)
    requires block > 0 && |a| == |b|
    requires forall i :: 0 <= i < BlockCount(|a|, block) ==> BlockAt(a, block, i) == BlockAt(b, block, i)
    ensures a == b
  {
    forall k | 0 <= k < |a|
      ensures a[k] == b[k]
    {
      var i, r := k / block, k % block;
      assert k == block * i + r;
      BlockStarts(|a|, block, i);
      assert BlockAt(a, block, i)[r] == a[k] && BlockAt(b, block, i)[r] == b[k];
    }
  }

  /** A hash table pins the data it was made from: other data of that size with the same table
      gives a collision. */
  lemma HashTablePins(sha: Hash, a: seq<Byte>, b: seq<Byte>, block: nat)
    requires block > 0 && |a| == |b|
    requires HashTable(sha, a, block) == HashTable(sha, b, block)
    ensures a == b || Collision(sha)
  {
    if !Collision(sha) {
      forall i | 0 <= i < BlockCount(|a|, block)
        ensures BlockAt(a, block, i) == BlockAt(b, block, i)
      {
        HashTableHolds(sha, a, block, i);
        HashTableHolds(sha, b, block, i);
        assert sha(BlockAt(a, block, i)) == sha(BlockAt(b, block, i));
      }
      BlocksDetermine(a, b, block);
    }
  }

  // ---------------------------------------------------------------- the loops

  /** The state of either loop after `k` blocks: the cursor and what is written. */
  ghost predicate HashedSoFar(sha: Hash, data: seq<Byte>, block: nat, k: nat, i: nat, out: seq<Byte>)
    requires block > 0
  {
    && k <= BlockCount(|data|, block)
    && i == Min(block * k, |data|)
    && (i == |data| <==> k == BlockCount(|data|, block))
    && out == Concat(Digests(sha, data, block)[..k])
  }

  lemma NothingHashed(sha: Hash, data: seq<Byte>, block: nat)
    requires block > 0
    ensures HashedSoFar(sha, data, block, 0, 0, [])
  {
    BlockStarts(|data|, block, 0);
  }

  lemma AllHashed(sha: Hash, data: seq<Byte>, block: nat, k: nat, out: seq<Byte>)
    requires block > 0 && HashedSoFar(sha, data, block, k, |data|, out)
    ensures out == HashTable(sha, data, block)
  {
    assert Digests(sha, data, block)[..k] == Digests(sha, data, block);
  }

  /** One round hashes a block, the last one up to the end, and moves on to the next. */
  lemma OneHashed(sha: Hash, data: seq<Byte>, block: nat, k: nat, i: nat, out: seq<Byte>)
    requires block > 0 && HashedSoFar(sha, data, block, k, i, out) && i < |data|
    ensures i + block <= block * BlockCount(|data|, block)
    ensures var end := Min(i + block, |data|);
            HashedSoFar(sha, data, block, k + 1, end, out + Hashed(sha, data[i..end]))
  {
    var digests := Digests(sha, data, block);
    BlockStarts(|data|, block, k);
    BlockStarts(|data|, block, k + 1);
    Monotone(block, k + 1, BlockCount(|data|, block));
    assert digests[..k + 1][..k] == digests[..k];
  }

  /** Where the PFS0 loop is: at block `k`, and as far as its cursor has come. */
  ghost predicate Pfs0Hashed(sha: Hash, data: seq<Byte>, block: nat, k: nat, c: Cursor, out: seq<Byte>)
    requires block > 0
  {
    && HashedSoFar(sha, data, block, k, c.at, out)
    && (c.at < |data| ==> c.read == block)
    && c == Pfs0Cursor(|data|, block, k)
  }

  lemma Pfs0Advances(sha: Hash, data: seq<Byte>, block: nat, k: nat, c: Cursor, out: seq<Byte>)
    requires block > 0 && RoundsUpIn32Bits(|data|, block) && Pfs0Hashed(sha, data, block, k, c, out) && c.at < |data|
    ensures
      var end := Min(c.at + block, |data|);
      && Pfs0Turn(c, |data|) == Cursor(end, if c.at + block >= |data| then |data| - c.at else block)
      && Pfs0Hashed(sha, data, block, k + 1, Pfs0Turn(c, |data|), out + Hashed(sha, data[c.at..end]))
  {
    OneHashed(sha, data, block, k, c.at, out);
    Pfs0TurnInRoom(c.at, block, |data|);
  }

  /** `buildPfs0HashTable`. */
  method BuildPfs0HashTable(sha: Hash, pfs0: seq<Byte>, blockSize: nat) returns (table: seq<Byte>)
    requires blockSize > 0 && RoundsUpIn32Bits(|pfs0|, blockSize)
    ensures table == HashTable(sha, pfs0, blockSize)
  {
    var buf := new BufHelper();
    var readSize: nat := blockSize;
    var i: nat := 0;
    ghost var k: nat := 0;
    NothingHashed(sha, pfs0, blockSize);
    while i < |pfs0|
      invariant Pfs0Hashed(sha, pfs0, blockSize, k, Cursor(i, readSize), buf.buf) && buf.offset == |buf.buf|
      decreases |pfs0| - i
    {
      Pfs0Advances(sha, pfs0, blockSize, k, Cursor(i, readSize), buf.buf);
      if (i + readSize) % U32_LIMIT >= |pfs0| {
        readSize := (|pfs0| - i) % U32_LIMIT;
      }
      assert Cursor((i + readSize) % U32_LIMIT, readSize) == Pfs0Turn(Cursor(i, blockSize), |pfs0|);
      assert i + readSize == Min(i + blockSize, |pfs0|);
      buf.Write(Hashed(sha, pfs0[i..i + readSize]));
      i := (i + readSize) % U32_LIMIT;
      k := k + 1;
    }
    table := buf.buf;
    AllHashed(sha, pfs0, blockSize, k, table);
  }

  ghost predicate IvfcHashed(sha: Hash, data: seq<Byte>, k: nat, c: Cursor, out: seq<Byte>) {
    && HashedSoFar(sha, data, IVFC_HASH_BLOCK_SIZE, k, c.at, out)
    && (c.at < |data| ==> c.read == IVFC_HASH_BLOCK_SIZE)
    && c == IvfcCursor(|data|, k)
  }

  lemma IvfcAdvances(sha: Hash, data: seq<Byte>, k: nat, c: Cursor, out: seq<Byte>)
    requires |data| < U32_LIMIT && IvfcHashed(sha, data, k, c, out) && c.at < |data|
    ensures
      var end := Min(c.at + IVFC_HASH_BLOCK_SIZE, |data|);
      && IvfcTurn(c, |data|) == Cursor(end, end - c.at)
      && IvfcHashed(sha, data, k + 1, IvfcTurn(c, |data|), out + Hashed(sha, data[c.at..end]))
  {
    OneHashed(sha, data, IVFC_HASH_BLOCK_SIZE, k, c.at, out);
  }

  /** `createIvfcLevel`: the block hashes of the next level, padded by at least a byte. The cursor
      is 32 bits wide, the sum is not. */
  method CreateIvfcLevel(sha: Hash, src: seq<Byte>) returns (level: seq<Byte>)
    requires |src| < U32_LIMIT
    ensures level == IvfcLevel(sha, src)
  {
    var buf := new BufHelper();
    var readSize: nat := IVFC_HASH_BLOCK_SIZE;
    var i: nat := 0;
    ghost var k: nat := 0;
    NothingHashed(sha, src, IVFC_HASH_BLOCK_SIZE);
    while i < |src|
      invariant IvfcHashed(sha, src, k, Cursor(i, readSize), buf.buf) && buf.offset == |buf.buf|
      decreases |src| - i
    {
      IvfcAdvances(sha, src, k, Cursor(i, readSize), buf.buf);
      if i + readSize >= |src| {
        readSize := |src| - i;
      }
      buf.Write(Hashed(sha, src[i..i + readSize]));
      i := (i + readSize) % U32_LIMIT;
      k := k + 1;
    }
    AllHashed(sha, src, IVFC_HASH_BLOCK_SIZE, k, buf.buf);
    var padding := WritePadding(buf, buf.Tell(), IVFC_HASH_BLOCK_SIZE);
    level := buf.buf;
  }

  // ---------------------------------------------------------------- levels

  /** Padded to whole blocks, as `write_padding` does. */
  function Padded(data: seq<Byte>): (p: seq<Byte>)
    ensures |data| < |p| <= |data| + IVFC_HASH_BLOCK_SIZE && |p| % IVFC_HASH_BLOCK_SIZE == 0
  {
    data + Zeros(PaddingSize(|data|, IVFC_HASH_BLOCK_SIZE))
  }

  function IvfcLevel(sha: Hash, src: seq<Byte>): (level: seq<Byte>)
    ensures |level| % IVFC_HASH_BLOCK_SIZE == 0 && 0 < |level|
  {
    Padded(HashTable(sha, src, IVFC_HASH_BLOCK_SIZE))
  }

  /** What `up` applications of `f` make of the data. */
  function Above<T>(f: T -> T, data: T, up: nat): T {
    if up == 0 then data else f(Above(f, data, up - 1))
  }

  /** The level `up` steps above the data. */
  function LevelAbove(sha: Hash, data: seq<Byte>, up: nat): seq<Byte> {
    Above(x => IvfcLevel(sha, x), data, up)
  }

  lemma LevelStep(sha: Hash, data: seq<Byte>, up: nat)
    ensures LevelAbove(sha, data, up + 1) == IvfcLevel(sha, LevelAbove(sha, data, up))
  {
  }

  /** In the level above `src`, byte `32 * i` starts the hash of block `i`. */
  lemma LevelHolds(sha: Hash, src: seq<Byte>, i: nat)
    requires i < BlockCount(|src|, IVFC_HASH_BLOCK_SIZE)
    ensures Holds(IvfcLevel(sha, src), HASH_SIZE * i, sha(BlockAt(src, IVFC_HASH_BLOCK_SIZE, i)))
  {
    var table := HashTable(sha, src, IVFC_HASH_BLOCK_SIZE);
    HashTableHolds(sha, src, IVFC_HASH_BLOCK_SIZE, i);
    assert Holds(IvfcLevel(sha, src), 0, table);
    HoldsPart(IvfcLevel(sha, src), 0, table, HASH_SIZE * i, sha(BlockAt(src, IVFC_HASH_BLOCK_SIZE, i)));
  }

  /** Applications of a function that keeps sizes apart from contents, and different contents of
      one size apart, can be undone. */
  lemma {:induction false} AbovePins<T(!new)>(f: T -> T, size: T -> nat, a: T, b: T, up: nat)
    requires forall x: T, y: T {:trigger f(x), f(y)} :: size(x) == size(y) ==> size(f(x)) == size(f(y))
    requires forall x: T, y: T {:trigger f(x), f(y)} :: size(x) == size(y) && f(x) == f(y) ==> x == y
    requires size(a) == size(b) && Above(f, a, up) == Above(f, b, up)
    ensures a == b
    decreases up
  {
    if up > 0 {
      AboveSizes(f, size, a, b, up - 1);
      AbovePins(f, size, a, b, up - 1);
    }
  }

  lemma {:induction false} AboveSizes<T(!new)>(f: T -> T, size: T -> nat, a: T, b: T, up: nat)
    requires forall x: T, y: T {:trigger f(x), f(y)} :: size(x) == size(y) ==> size(f(x)) == size(f(y))
    requires size(a) == size(b)
    ensures size(Above(f, a, up)) == size(Above(f, b, up))
    decreases up
  {
    if up > 0 {
      AboveSizes(f, size, a, b, up - 1);
    }
  }

  lemma LevelPins(sha: Hash, x: seq<Byte>, y: seq<Byte>)
    requires |x| == |y| && IvfcLevel(sha, x) == IvfcLevel(sha, y)
    ensures x == y || Collision(sha)
  {
    var s, t := HashTable(sha, x, IVFC_HASH_BLOCK_SIZE), HashTable(sha, y, IVFC_HASH_BLOCK_SIZE);
    assert s == Padded(s)[..|s|] && t == Padded(t)[..|t|];
    HashTablePins(sha, x, y, IVFC_HASH_BLOCK_SIZE);
  }

  lemma LevelSize(sha: Hash, x: seq<Byte>, y: seq<Byte>)
    requires |x| == |y|
    ensures |IvfcLevel(sha, x)| == |IvfcLevel(sha, y)|
  {
  }

  /** The chain pins the data: if the levels `up` steps above agree, so does the data, or the hash
      has a collision. */
  lemma ChainPins(sha: Hash, a: seq<Byte>, b: seq<Byte>, up: nat)
    requires |a| == |b| && LevelAbove(sha, a, up) == LevelAbove(sha, b, up)
    ensures a == b || Collision(sha)
  {
    var f: seq<Byte> -> seq<Byte>, size: seq<Byte> -> nat := x => IvfcLevel(sha, x), x => |x|;
    forall x: seq<Byte>, y: seq<Byte> | size(x) == size(y)
      ensures size(f(x)) == size(f(y))
    {
      LevelSize(sha, x, y);
    }
    if !Collision(sha) {
      forall x: seq<Byte>, y: seq<Byte> | size(x) == size(y) && f(x) == f(y)
        ensures x == y
      {
        LevelPins(sha, x, y);
      }
      AbovePins(f, size, a, b, up);
    }
  }

  /** Integrity: the master hash over the top level pins every byte of a RomFS of known size. */
  lemma MasterHashPins(sha: Hash, a: seq<Byte>, b: seq<Byte>)
    requires |a| == |b| && sha(LevelAbove(sha, a, 5)) == sha(LevelAbove(sha, b, 5))
    ensures a == b || Collision(sha)
  {
    if !Collision(sha) {
      ChainPins(sha, a, b, 5);
    }
  }

  /** The same for the single layer of a PFS0. */
  lemma Pfs0MasterHashPins(sha: Hash, a: seq<Byte>, b: seq<Byte>, block: nat)
    requires block > 0 && |a| == |b|
    requires sha(HashTable(sha, a, block)) == sha(HashTable(sha, b, block))
    ensures a == b || Collision(sha)
  {
    if !Collision(sha) {
      HashTablePins(sha, a, b, block);
    }
  }
}
