/**
 The blocks that a file is hashed in, and the two loops that walk over them. Both keep a 32-bit
 cursor and a read size that shrinks for the last block; they differ in the width of the sum that
 tells the last block. From some size on neither loop does what it should.
 */
module Blocks {
  import opened Bytes
  import opened Numbers

  const IVFC_HASH_BLOCK_SIZE: nat := 0x4000

  /** How many blocks the data takes, the last one perhaps short. */
  function BlockCount(size: nat, block: nat): nat
    requires block > 0
    decreases size
  {
    if size == 0 then 0 else if size <= block then 1 else 1 + BlockCount(size - block, block)
  }

  /** Block starts are the multiples before the end. */
  lemma {:induction false} BlockStarts(size: nat, block: nat, i: nat)
    requires block > 0
    ensures i < BlockCount(size, block) <==> block * i < size
    ensures block * (i + 1) == block * i + block
    decreases size
  {
    if i > 0 {
      assert block * i == block * (i - 1) + block;
      Monotone(block, 1, i);
      if size > block {
        BlockStarts(size - block, block, i - 1);
      }
    }
  }

  lemma Monotone(factor: nat, a: nat, b: nat)
    requires a <= b
    ensures factor * a <= factor * b
  {
    assert factor * b - factor * a == factor * (b - a);
  }

  // ---------------------------------------------------------------- the loops

  datatype Cursor = Cursor(at: nat, read: nat)

  /** One turn of the loop in `createIvfcLevel`; past the end there is none. */
  function IvfcTurn(c: Cursor, size: nat): Cursor {
    if c.at >= size then c
    else
      var read := if c.at + c.read >= size then size - c.at else c.read;
      Cursor((c.at + read) % U32_LIMIT, read)
  }

  function IvfcCursor(size: nat, n: nat): Cursor {
    if n == 0 then Cursor(0, IVFC_HASH_BLOCK_SIZE) else IvfcTurn(IvfcCursor(size, n - 1), size)
  }

  /** One turn of the loop in `buildPfs0HashTable`, where the sum and the read size wrap as well. */
  function Pfs0Turn(c: Cursor, size: nat): Cursor {
    if c.at >= size then c
    else
      var read := if (c.at + c.read) % U32_LIMIT >= size then (size - c.at) % U32_LIMIT else c.read;
      Cursor((c.at + read) % U32_LIMIT, read)
  }

  function Pfs0Cursor(size: nat, block: nat, n: nat): Cursor {
    if n == 0 then Cursor(0, block) else Pfs0Turn(Pfs0Cursor(size, block, n - 1), size)
  }

  // ---------------------------------------------------------------- IVFC levels

  /** Below 4 GiB the loop visits block after block ... */
  lemma {:induction false} IvfcVisitsBlocks(size: nat, n: nat)
    requires size < U32_LIMIT && n <= BlockCount(size, IVFC_HASH_BLOCK_SIZE)
    ensures IvfcCursor(size, n).at == Min(IVFC_HASH_BLOCK_SIZE * n, size)
    ensures n == 0 || n < BlockCount(size, IVFC_HASH_BLOCK_SIZE) ==> IvfcCursor(size, n).read == IVFC_HASH_BLOCK_SIZE
  {
    if n > 0 {
      IvfcVisitsBlocks(size, n - 1);
      BlockStarts(size, IVFC_HASH_BLOCK_SIZE, n - 1);
      BlockStarts(size, IVFC_HASH_BLOCK_SIZE, n);
    }
  }

  /** ... and from 4 GiB on it starts again and again. */
  lemma {:induction false} IvfcGoesRound(size: nat, n: nat)
    requires size >= U32_LIMIT
    ensures IvfcCursor(size, n).read == IVFC_HASH_BLOCK_SIZE
    ensures IvfcCursor(size, n).at < U32_LIMIT && IvfcCursor(size, n).at % IVFC_HASH_BLOCK_SIZE == 0
  {
    if n > 0 {
      IvfcGoesRound(size, n - 1);
    }
  }

  /** The loop of `createIvfcLevel` ends if and only if the level is smaller than 4 GiB. */
  lemma IvfcLoopEnds(size: nat)
    ensures size >= U32_LIMIT <==> forall n :: IvfcCursor(size, n).at < size
  {
    if size < U32_LIMIT {
      var n := BlockCount(size, IVFC_HASH_BLOCK_SIZE);
      IvfcVisitsBlocks(size, n);
      BlockStarts(size, IVFC_HASH_BLOCK_SIZE, n);
    } else {
      forall n
        ensures IvfcCursor(size, n).at < size
      {
        IvfcGoesRound(size, n);
      }
    }
  }

  // ---------------------------------------------------------------- PFS0 hash tables

  /** The cursor of the PFS0 loop is 32 bits wide, and so is its sum with the block size: every
      block, rounded up, has to end below 2^32. */
  predicate RoundsUpIn32Bits(size: nat, block: nat)
    requires block > 0
  {
    block * BlockCount(size, block) < U32_LIMIT
  }

  lemma Pfs0TurnInRoom(at: nat, block: nat, size: nat)
    requires at < size && at + block < U32_LIMIT
    ensures Pfs0Turn(Cursor(at, block), size) ==
            if at + block >= size then Cursor(size, size - at) else Cursor(at + block, block)
  {
    UniqueRemainder(at + block, U32_LIMIT, 0, at + block);
    if at + block >= size {
      UniqueRemainder(size - at, U32_LIMIT, 0, size - at);
      UniqueRemainder(size, U32_LIMIT, 0, size);
    }
  }

  lemma Pfs0TurnWraps(at: nat, block: nat, size: nat)
    requires at < size && block < U32_LIMIT && at < U32_LIMIT <= at + block
    ensures Pfs0Turn(Cursor(at, block), size) == Cursor(at + block - U32_LIMIT, block)
  {
    UniqueRemainder(at + block, U32_LIMIT, 1, at + block - U32_LIMIT);
  }

  /** With that room the loop visits block after block. */
  lemma {:induction false} Pfs0VisitsBlocks(size: nat, block: nat, n: nat)
    requires block > 0 && RoundsUpIn32Bits(size, block) && n <= BlockCount(size, block)
    ensures Pfs0Cursor(size, block, n).at == Min(block * n, size)
    ensures n == 0 || n < BlockCount(size, block) ==> Pfs0Cursor(size, block, n).read == block
  {
    if n > 0 {
      var at := block * (n - 1);
      Pfs0VisitsBlocks(size, block, n - 1);
      BlockStarts(size, block, n - 1);
      assert Pfs0Cursor(size, block, n - 1) == Cursor(at, block) && block * n == at + block;
      BlockStarts(size, block, n);
      Monotone(block, n, BlockCount(size, block));
      Pfs0TurnInRoom(at, block, size);
    }
  }

  /** Without it every block that starts in the first 4 GiB is taken for one in the middle. */
  lemma {:induction false} Pfs0MissesTheEnd(size: nat, block: nat, n: nat)
    requires 0 < block < U32_LIMIT && !RoundsUpIn32Bits(size, block) && block * n < U32_LIMIT
    ensures Pfs0Cursor(size, block, n) == Cursor(block * n, block) && block * n < size
    ensures block * n + block < U32_LIMIT ==> block * n + block < size
  {
    var count := BlockCount(size, block);
    BlockStarts(size, block, n);
    if count <= n + 1 && block * n + block < U32_LIMIT {
      Monotone(block, count, n + 1);
    }
    if count <= n {
      Monotone(block, count, n);
    }
    BlockStarts(size, block, n + 1);
    if n > 0 {
      var at := block * (n - 1);
      BlockStarts(size, block, n - 1);
      assert block * n == at + block;
      Pfs0MissesTheEnd(size, block, n - 1);
      Pfs0TurnInRoom(at, block, size);
    } else {
      assert block * n == 0;
    }
  }

  /** The last block that starts in the first 4 GiB. */
  lemma LastStart(block: nat) returns (last: nat)
    requires 0 < block < U32_LIMIT
    ensures block * last < U32_LIMIT <= block * last + block
  {
    last := (U32_LIMIT - 1) / block;
    assert block * (last + 1) == block * last + block;
    assert block * last <= U32_LIMIT - 1 < block * last + block;
  }

  /** After it the cursor is back among the first. */
  lemma Pfs0FallsBack(size: nat, block: nat, last: nat)
    requires 0 < block < U32_LIMIT && !RoundsUpIn32Bits(size, block)
    requires block * last < U32_LIMIT <= block * last + block
    ensures block * last < size
    ensures Pfs0Cursor(size, block, last + 1) == Cursor(block * last + block - U32_LIMIT, block)
  {
    Pfs0MissesTheEnd(size, block, last);
    Pfs0TurnWraps(block * last, block, size);
  }

  lemma Pfs0GoesOn(size: nat, block: nat, n: nat)
    requires 0 < block < U32_LIMIT && !RoundsUpIn32Bits(size, block) && n <= BlockCount(size, block)
    ensures Pfs0Cursor(size, block, n).at < size
  {
    var last := LastStart(block);
    Pfs0FallsBack(size, block, last);
    if n <= last {
      Monotone(block, n, last);
      Pfs0MissesTheEnd(size, block, n);
    } else if n > last + 1 {
      BlockStarts(size, block, last);
      BlockStarts(size, block, last + 1);
      Pfs0StaysIn32Bits(size, block, n);
    }
  }

  lemma {:induction false} Pfs0StaysIn32Bits(size: nat, block: nat, n: nat)
    requires size >= U32_LIMIT
    ensures Pfs0Cursor(size, block, n).at < U32_LIMIT
  {
    if n > 0 {
      Pfs0StaysIn32Bits(size, block, n - 1);
    }
  }

  /** The loop of `buildPfs0HashTable` ends after as many turns as there are blocks, which a table
      with one hash per block takes, if and only if every block, rounded up, ends below 2^32. */
  lemma Pfs0LoopCountsBlocks(size: nat, block: nat)
    requires 0 < block < U32_LIMIT
    ensures RoundsUpIn32Bits(size, block) <==>
            && Pfs0Cursor(size, block, BlockCount(size, block)).at >= size
            && forall n :: 0 <= n < BlockCount(size, block) ==> Pfs0Cursor(size, block, n).at < size
  {
    var count := BlockCount(size, block);
    if RoundsUpIn32Bits(size, block) {
      forall n | 0 <= n <= count
        ensures Pfs0Cursor(size, block, n).at == Min(block * n, size) && (n < count <==> block * n < size)
      {
        Pfs0VisitsBlocks(size, block, n);
        BlockStarts(size, block, n);
      }
    } else {
      Pfs0GoesOn(size, block, count);
    }
  }

  /** For blocks that divide 2^32, as all block sizes in use do, the loop then never ends. */
  lemma {:induction false} Pfs0GoesRound(size: nat, block: nat, n: nat)
    requires 0 < block < U32_LIMIT && U32_LIMIT % block == 0 && !RoundsUpIn32Bits(size, block)
    ensures Pfs0Cursor(size, block, n).read == block
    ensures Pfs0Cursor(size, block, n).at < size
    ensures exists k: nat :: Pfs0Cursor(size, block, n).at == block * k && block * k < U32_LIMIT
  {
    if n == 0 {
      assert block * 0 == 0;
      Pfs0MissesTheEnd(size, block, 0);
    } else {
      Pfs0GoesRound(size, block, n - 1);
      var k: nat :| Pfs0Cursor(size, block, n - 1).at == block * k && block * k < U32_LIMIT;
      Pfs0MissesTheEnd(size, block, k);
      assert block * (k + 1) == block * k + block;
      if block * k + block < U32_LIMIT {
        Pfs0MissesTheEnd(size, block, k + 1);
      } else {
        WholeBlocksFit(block, k);
        Pfs0MissesTheEnd(size, block, 0);
        assert block * 0 == 0;
      }
    }
  }

  lemma WholeBlocksFit(block: nat, k: nat)
    requires 0 < block < U32_LIMIT && U32_LIMIT % block == 0
    requires block * k < U32_LIMIT <= block * k + block
    ensures block * k + block == U32_LIMIT
  {
    var q := U32_LIMIT / block;
    assert U32_LIMIT == block * q;
    assert block * (k + 1) == block * k + block && block * (q - 1) == block * q - block;
    FactorsInOrder(block, k, q);
    FactorsInOrder(block, q - 1, k + 1);
  }

  lemma FactorsInOrder(factor: nat, a: nat, b: nat)
    requires factor * a < factor * b
    ensures a < b
  {
    if b <= a {
      Monotone(factor, b, a);
    }
  }

  /** The loop of `buildPfs0HashTable` ends at all if and only if there is room. */
  lemma Pfs0LoopEnds(size: nat, block: nat)
    requires 0 < block < U32_LIMIT && U32_LIMIT % block == 0
    ensures !RoundsUpIn32Bits(size, block) <==> forall n :: Pfs0Cursor(size, block, n).at < size
  {
    if RoundsUpIn32Bits(size, block) {
      Pfs0LoopCountsBlocks(size, block);
    } else {
      forall n
        ensures Pfs0Cursor(size, block, n).at < size
      {
        Pfs0GoesRound(size, block, n);
      }
    }
  }
}
