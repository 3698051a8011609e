/**
 Hashing in a RomFS: the number of buckets of a hash table, and the hash of a path.
 */
module RomfsHash {
  import opened Bytes

  /** 2 * 3 * 5 * 7 * 11 * 13 * 17. */
  const PRIMORIAL: nat := 510510

  predicate HasSmallFactor(count: nat) {
    count % 2 == 0 || count % 3 == 0 || count % 5 == 0 || count % 7 == 0
    || count % 11 == 0 || count % 13 == 0 || count % 17 == 0
  }

  /** The distance to the next number that leaves 1 modulo all of the primes. */
  function Distance(count: nat): (d: nat)
    ensures d < PRIMORIAL && (count + d) % PRIMORIAL == 1
  {
    var r := count % PRIMORIAL;
    if r <= 1 then 1 - r else PRIMORIAL + 1 - r
  }

  lemma OneModPrimorialIsCoprime(count: nat)
    requires count % PRIMORIAL == 1
    ensures !HasSmallFactor(count)
  {
    var q := count / PRIMORIAL;
    assert count == PRIMORIAL * q + 1;
    UniqueRemainder(count, 2, 255255 * q, 1);
    UniqueRemainder(count, 3, 170170 * q, 1);
    UniqueRemainder(count, 5, 102102 * q, 1);
    UniqueRemainder(count, 7, 72930 * q, 1);
    UniqueRemainder(count, 11, 46410 * q, 1);
    UniqueRemainder(count, 13, 39270 * q, 1);
    UniqueRemainder(count, 17, 30030 * q, 1);
  }

  /** The smallest number from `count` up without one of the small primes as a factor. */
  function NextCoprime(count: nat): (c: nat)
    ensures count <= c <= count + Distance(count) && !HasSmallFactor(c)
    ensures forall m :: count <= m < c ==> HasSmallFactor(m)
    decreases Distance(count)
  {
    if HasSmallFactor(count) then
      if count % PRIMORIAL == 1 then
        OneModPrimorialIsCoprime(count);
        count
      else NextCoprime(count + 1)
    else count
  }

  /** The bucket count that a table of so many entries gets. */
  function HashTableCount(numEntries: nat): (count: nat)
    ensures numEntries <= count < numEntries + PRIMORIAL && 3 <= count
    ensures numEntries >= 19 ==> !HasSmallFactor(count) && forall m :: numEntries <= m < count ==> HasSmallFactor(m)
  {
    if numEntries < 3 then 3
    else if numEntries < 19 then numEntries + 1 - numEntries % 2
    else NextCoprime(numEntries)
  }

  /** The largest count from which the search still ends before the 32-bit counter wraps. */
  const LAST_COPRIME: nat := 4294967293

  lemma LastCoprime()
    ensures !HasSmallFactor(LAST_COPRIME) && HasSmallFactor(LAST_COPRIME + 1) && HasSmallFactor(LAST_COPRIME + 2)
    ensures LAST_COPRIME + 2 == U32_LIMIT - 1
    ensures HasSmallFactor(0) && !HasSmallFactor(1)
  {
  }

  lemma SearchEndsAtLastCoprime(count: nat)
    requires count <= LAST_COPRIME
    ensures NextCoprime(count) <= LAST_COPRIME
  {
    LastCoprime();
  }

  /** `romfsGetHashTableCount`, with its 32-bit counter. The bucket count is large enough if and
      only if the counter does not wrap; from the two largest counts it wraps, and 1 results. */
  method RomfsGetHashTableCount(numEntries: nat) returns (count: nat)
    requires numEntries < U32_LIMIT
    ensures numEntries <= LAST_COPRIME ==> count == HashTableCount(numEntries)
    ensures numEntries > LAST_COPRIME ==> count == 1
    ensures count >= numEntries <==> numEntries <= LAST_COPRIME
  {
    if numEntries < 3 {
      return 3;
    }
    if numEntries < 19 {
      return numEntries + 1 - numEntries % 2;
    }
    LastCoprime();
    if numEntries <= LAST_COPRIME {
      SearchEndsAtLastCoprime(numEntries);
    }
    count := numEntries;
    while HasSmallFactor(count)
      invariant count < U32_LIMIT
      invariant numEntries <= LAST_COPRIME ==> numEntries <= count <= NextCoprime(numEntries)
      invariant numEntries > LAST_COPRIME ==> count <= 1 || numEntries <= count
      invariant count == 1 || count == 0 ==> numEntries > LAST_COPRIME
      decreases if count <= 1 then 1 - count else 2 + U32_LIMIT - count
    {
      count := (count + 1) % U32_LIMIT;
    }
  }

  // ---------------------------------------------------------------- path hashes

  type U32 = n: nat | n < U32_LIMIT

  /** Exclusive or, bit by bit. */
  function XorBits(a: nat, b: nat): nat
    decreases a + b
  {
    if a == 0 && b == 0 then 0 else (a + b) % 2 + 2 * XorBits(a / 2, b / 2)
  }

  function Pow2(width: nat): nat {
    if width == 0 then 1 else 2 * Pow2(width - 1)
  }

  lemma {:induction false} XorFits(a: nat, b: nat, width: nat)
    requires a < Pow2(width) && b < Pow2(width)
    ensures XorBits(a, b) < Pow2(width)
  {
    if width > 0 {
      XorFits(a / 2, b / 2, width - 1);
    }
  }

  lemma Pow2Of32()
    ensures Pow2(32) == U32_LIMIT
  {
    assert Pow2(8) == 256 && Pow2(16) == 0x1_0000 && Pow2(24) == 0x100_0000;
  }

  function Xor(a: U32, b: U32): U32 {
    Pow2Of32();
    XorFits(a, b, 32);
    XorBits(a, b)
  }

  /** `(hash >> 5) | (hash << 27)`: the low five bits move to the top. */
  function RotateRight5(hash: U32): U32 {
    hash / 32 + (hash % 32) * 0x800_0000
  }

  /** The hash after the bytes of a path, started from the offset of the parent directory. */
  function PathHash(parent: U32, path: seq<Byte>): U32 {
    if path == [] then Xor(parent, 123456789)
    else Xor(RotateRight5(PathHash(parent, path[..|path| - 1])), path[|path| - 1])
  }

  // ---------------------------------------------------------------- path hashes bit by bit

  function Bit(n: nat, j: nat): (b: nat)
    ensures b < 2
    decreases j
  {
    if j == 0 then n % 2 else Bit(n / 2, j - 1)
  }

  lemma {:induction false} BitsDetermine(a: nat, b: nat, width: nat)
    requires a < Pow2(width) && b < Pow2(width) && forall j: nat :: j < width ==> Bit(a, j) == Bit(b, j)
    ensures a == b
  {
    if width > 0 {
      assert Bit(a, 0) == Bit(b, 0);
      forall j: nat | j < width - 1
        ensures Bit(a / 2, j) == Bit(b / 2, j)
      {
        assert Bit(a, j + 1) == Bit(b, j + 1);
      }
      BitsDetermine(a / 2, b / 2, width - 1);
    }
  }

  lemma XorHalves(a: nat, b: nat)
    ensures XorBits(a, b) % 2 == (a % 2 + b % 2) % 2 && XorBits(a, b) / 2 == XorBits(a / 2, b / 2)
  {
    Parity(a, b);
    Halves((a + b) % 2, XorBits(a / 2, b / 2));
  }

  lemma Halves(bit: nat, rest: nat)
    requires bit < 2
    ensures (bit + 2 * rest) % 2 == bit && (bit + 2 * rest) / 2 == rest
  {
  }

  lemma Parity(a: nat, b: nat)
    ensures (a + b) % 2 == (a % 2 + b % 2) % 2
  {
  }

  lemma {:induction false} BitOfXor(a: nat, b: nat, j: nat)
    ensures Bit(XorBits(a, b), j) == (Bit(a, j) + Bit(b, j)) % 2
    decreases j
  {
    XorHalves(a, b);
    if j > 0 {
      BitOfXor(a / 2, b / 2, j - 1);
    }
  }

  /** The low `width` bits of `low` with `high` above them. */
  lemma {:induction false} BitsSideBySide(low: nat, high: nat, width: nat, j: nat)
    requires low < Pow2(width)
    ensures Bit(low + high * Pow2(width), j) == if j < width then Bit(low, j) else Bit(high, j - width)
    decreases j
  {
    if width > 0 {
      var half := high * Pow2(width - 1);
      assert high * Pow2(width) == 2 * half;
      assert (low + 2 * half) % 2 == low % 2 && (low + 2 * half) / 2 == low / 2 + half;
      if j > 0 {
        BitsSideBySide(low / 2, high, width - 1, j - 1);
      }
    }
  }

  lemma RotationWidths()
    ensures Pow2(5) == 32 && Pow2(27) == 0x800_0000
  {
    assert Pow2(8) == 256 && Pow2(16) == 0x1_0000 && Pow2(24) == 0x100_0000;
  }

  /** Rotating moves bit `j + 5`, counted around, to bit `j`. */
  lemma BitOfRotation(hash: U32, j: nat)
    requires j < 32
    ensures Bit(RotateRight5(hash), j) == Bit(hash, (j + 5) % 32)
  {
    var high, low := hash / 32, hash % 32;
    RotationWidths();
    BitsSideBySide(high, low, 27, j);
    BitsSideBySide(low, high, 5, (j + 5) % 32);
  }

  /** What a path contributes to bit `j`: of byte `i` that bit which the later rotations take there. */
  function Contributions(path: seq<Byte>, j: nat): (bits: seq<nat>)
    ensures |bits| == |path|
  {
    seq(|path|, i requires 0 <= i < |path| => Bit(path[i], (j + 5 * (|path| - 1 - i)) % 32))
  }

  function Sum(bits: seq<nat>): nat {
    if bits == [] then 0 else Sum(bits[..|bits| - 1]) + bits[|bits| - 1]
  }

  /** Bit `j` of the hash of a path: the exclusive or of bits of the start value and of every byte. */
  function HashBit(parent: U32, path: seq<Byte>, j: nat): nat {
    var k := (j + 5 * |path|) % 32;
    (Bit(parent, k) + Bit(123456789, k) + Sum(Contributions(path, j))) % 2
  }

  /** One more byte: the others are taken five bits further around. */
  lemma OneMoreByte(path: seq<Byte>, j: nat)
    requires j < 32 && path != []
    ensures
      var n := |path| - 1;
      Sum(Contributions(path, j)) == Sum(Contributions(path[..n], (j + 5) % 32)) + Bit(path[n], j)
  {
    FrontContributes(path, j);
    var bits := Contributions(path, j);
    assert bits[|path| - 1] == Bit(path[|path| - 1], j);
  }

  lemma FrontContributes(path: seq<Byte>, j: nat)
    requires j < 32 && path != []
    ensures
      var n := |path| - 1;
      Contributions(path, j)[..n] == Contributions(path[..n], (j + 5) % 32)
  {
    var n := |path| - 1;
    forall i | 0 <= i < n
      ensures Contributions(path, j)[i] == Contributions(path[..n], (j + 5) % 32)[i]
    {
      AroundAgain(j, 5 * (n - 1 - i));
      assert j + 5 + 5 * (n - 1 - i) == j + 5 * (n - i);
    }
  }

  lemma HashBitGoesOn(parent: U32, path: seq<Byte>, j: nat)
    requires j < 32 && path != []
    ensures
      var n := |path| - 1;
      HashBit(parent, path, j) == (HashBit(parent, path[..n], (j + 5) % 32) + Bit(path[n], j)) % 2
  {
    var n := |path| - 1;
    var k, front := (j + 5 * |path|) % 32, path[..n];
    OneMoreByte(path, j);
    AroundAgain(j, 5 * n);
    assert k == ((j + 5) % 32 + 5 * n) % 32;
    Parity(Bit(parent, k) + Bit(123456789, k) + Sum(Contributions(front, (j + 5) % 32)), Bit(path[n], j));
  }

  /** The hash, whatever rounds compute it: all its 32 bits. */
  lemma {:induction false} PathHashBits(parent: U32, path: seq<Byte>, j: nat)
    requires j < 32
    ensures Bit(PathHash(parent, path), j) == HashBit(parent, path, j)
    decreases |path|
  {
    if path == [] {
      BitOfXor(parent, 123456789, j);
    } else {
      var n := |path| - 1;
      BitOfXor(RotateRight5(PathHash(parent, path[..n])), path[n], j);
      BitOfRotation(PathHash(parent, path[..n]), j);
      PathHashBits(parent, path[..n], (j + 5) % 32);
      HashBitGoesOn(parent, path, j);
    }
  }

  lemma AllHashBits(parent: U32, path: seq<Byte>)
    ensures forall j :: 0 <= j < 32 ==> Bit(PathHash(parent, path), j) == HashBit(parent, path, j)
  {
    forall j | 0 <= j < 32
      ensures Bit(PathHash(parent, path), j) == HashBit(parent, path, j)
    {
      PathHashBits(parent, path, j);
    }
  }

  lemma AroundAgain(j: nat, more: nat)
    ensures (j + 5 + more) % 32 == ((j + 5) % 32 + more) % 32
  {
  }

  /** `calcPathHash`. */
  method CalcPathHash(parent: U32, path: seq<Byte>, start: nat, pathLen: nat) returns (hash: U32)
    requires start + pathLen <= |path|
    ensures hash == PathHash(parent, path[start..start + pathLen])
    ensures forall j :: 0 <= j < 32 ==> Bit(hash, j) == HashBit(parent, path[start..start + pathLen], j)
  {
    AllHashBits(parent, path[start..start + pathLen]);
    hash := Xor(parent, 123456789);
    for i := 0 to pathLen
      invariant hash == PathHash(parent, path[start..start + i])
    {
      assert path[start..start + i + 1][..i] == path[start..start + i];
      hash := RotateRight5(hash);
      hash := Xor(hash, path[start + i]);
    }
  }
}
