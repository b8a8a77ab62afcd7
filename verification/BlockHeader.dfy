/** The 80-byte header, built in reverse and turned around in place, and the test that makes a share a block. */
module BlockHeader {
  import opened Results
  import opened Bytes

  type i32 = x: int | -0x8000_0000 <= x < 0x8000_0000

  /** `uint32(version)` of an int32. */
  function Unsigned(version: i32): u32 {
    if version < 0 then version + 0x1_0000_0000 else version
  }

  // ---------------------------------------------------------------- the layout

  /** Bitcoin's header: numbers little-endian, the previous hash in internal byte order. */
  function Canonical(version: i32, prev: Hash, merkleRoot: Hash, ntime: u32, bits: u32, nonce: u32): (h: seq<byte>)
    ensures |h| == 80
  {
    LE(Unsigned(version), 4) + Reverse(prev) + merkleRoot + LE(ntime, 4) + LE(bits, 4) + LE(nonce, 4)
  }

  /** What the builders lay out before turning the whole buffer around. */
  function Scratch(nonce: Bytes4, bits: Bytes4, ntime: Bytes4, merkleRoot: Hash, prev: Hash, version: i32)
    : (h: seq<byte>)
    ensures |h| == 80
  {
    nonce + bits + ntime + Reverse(merkleRoot) + prev + BE4(Unsigned(version))
  }

  /** The number a string of big-endian bytes stands for. */
  function BEVal(b: seq<byte>): nat {
    LEVal(Reverse(b))
  }

  function FromBE(b: Bytes4): (v: u32)
    ensures var w: int, x: int, y: int, z: int := b[0], b[1], b[2], b[3];
            v == w * 0x100_0000 + x * 0x1_0000 + y * 0x100 + z
  {
    LEValOfFour(Reverse(b));
    BEVal(b)
  }

  lemma LEValOfFour(b: Bytes4)
    ensures var w: int, x: int, y: int, z: int := b[0], b[1], b[2], b[3];
            LEVal(b) == w + x * 0x100 + y * 0x1_0000 + z * 0x100_0000
  {
    assert b[1..][1..] == b[2..] && b[2..][1..] == b[3..] && b[3..][1..] == [];
    assert LEVal(b[3..]) == b[3] + 256 * LEVal([]);
    assert LEVal(b[2..]) == b[2] + 256 * LEVal(b[3..]);
    assert LEVal(b[1..]) == b[1] + 256 * LEVal(b[2..]);
  }

  /**
   What a header says, field by field: version, time, bits and nonce as little-endian numbers, the previous hash last
   byte first, the merkle root as it is.
   */
  predicate Says(h: seq<byte>, version: i32, prev: Hash, merkleRoot: Hash, ntime: u32, bits: u32, nonce: u32) {
    && |h| == 80
    && LEVal(h[0..4]) == version % 0x1_0000_0000
    && (forall i :: 4 <= i < 36 ==> h[i] == prev[35 - i])
    && h[36..68] == merkleRoot
    && LEVal(h[68..72]) == ntime && LEVal(h[72..76]) == bits && LEVal(h[76..80]) == nonce
  }

  lemma SixParts(a: seq<byte>, b: seq<byte>, c: seq<byte>, d: seq<byte>, e: seq<byte>, f: seq<byte>)
    requires |a| == 4 && |b| == 32 && |c| == 32 && |d| == 4 && |e| == 4 && |f| == 4
    ensures
      var h := a + b + c + d + e + f;
      && |h| == 80 && h[0..4] == a && h[4..36] == b && h[36..68] == c && h[68..72] == d && h[72..76] == e
      && h[76..80] == f
  {
  }

  lemma CanonicalSays(version: i32, prev: Hash, merkleRoot: Hash, ntime: u32, bits: u32, nonce: u32)
    ensures Says(Canonical(version, prev, merkleRoot, ntime, bits, nonce), version, prev, merkleRoot, ntime, bits,
                 nonce)
  {
    var h := Canonical(version, prev, merkleRoot, ntime, bits, nonce);
    SixParts(LE(Unsigned(version), 4), Reverse(prev), merkleRoot, LE(ntime, 4), LE(bits, 4), LE(nonce, 4));
    FourBytesBack(Unsigned(version));
    FourBytesBack(ntime);
    FourBytesBack(bits);
    FourBytesBack(nonce);
    PrevBytes(h, prev);
  }

  lemma FourBytesBack(v: u32)
    ensures LEVal(LE(v, 4)) == v
  {
    Pow256Facts();
    LERoundTrip(v, 4);
  }

  lemma PrevBytes(h: seq<byte>, prev: Hash)
    requires |h| == 80 && h[4..36] == Reverse(prev)
    ensures forall i :: 4 <= i < 36 ==> h[i] == prev[35 - i]
  {
    forall i | 4 <= i < 36
      ensures h[i] == prev[35 - i]
    {
      assert h[i] == h[4..36][i - 4];
    }
  }

  lemma FromBEOfBE4(v: u32)
    ensures FromBE(BE4(v)) == v
  {
    BE4IsReversedLE(v);
    Pow256Facts();
    LERoundTrip(v, 4);
  }

  lemma {:induction false} LEOfLEVal(b: seq<byte>)
    ensures LE(LEVal(b), |b|) == b
  {
    if b != [] {
      LEOfLEVal(b[1..]);
      var v, high := LEVal(b), LEVal(b[1..]);
      assert v == b[0] + 256 * high;
      assert v % 256 == b[0] && v / 256 == high;
      assert b == [b[0]] + b[1..];
    }
  }

  lemma ReverseIsLE(b: Bytes4)
    ensures Reverse(b) == LE(FromBE(b), 4)
  {
    LEOfLEVal(Reverse(b));
  }

  lemma ReverseConcat<T>(a: seq<T>, b: seq<T>)
    ensures Reverse(a + b) == Reverse(b) + Reverse(a)
  {
  }

  lemma ReverseTwice<T>(a: seq<T>)
    ensures Reverse(Reverse(a)) == a
  {
  }

  /** Turning the scratch layout around gives the canonical header. */
  lemma ScratchReversedIsCanonical(
    nonce: Bytes4, bits: Bytes4, ntime: Bytes4, merkleRoot: Hash, prev: Hash, version: i32)
    ensures Reverse(Scratch(nonce, bits, ntime, merkleRoot, prev, version)) ==
            Canonical(version, prev, merkleRoot, FromBE(ntime), FromBE(bits), FromBE(nonce))
  {
    var v := BE4(Unsigned(version));
    ReverseConcat(nonce + bits + ntime + Reverse(merkleRoot) + prev, v);
    ReverseConcat(nonce + bits + ntime + Reverse(merkleRoot), prev);
    ReverseConcat(nonce + bits + ntime, Reverse(merkleRoot));
    ReverseConcat(nonce + bits, ntime);
    ReverseConcat(nonce, bits);
    ReverseTwice(merkleRoot);
    ReverseIsLE(nonce);
    ReverseIsLE(bits);
    ReverseIsLE(ntime);
    ReverseIsLE(v);
    FromBEOfBE4(Unsigned(version));
    var a, b, c, d, e, f := LE(Unsigned(version), 4), Reverse(prev), merkleRoot, Reverse(ntime), Reverse(bits),
                            Reverse(nonce);
    assert a + (b + (c + (d + (e + f)))) == a + b + c + d + e + f;
  }

  // ---------------------------------------------------------------- the builders

  /** Copies `src` behind the part already written. */
  method CopyInto(dst: array<byte>, at: nat, src: seq<byte>, ghost written: seq<byte>)
    requires at + |src| <= dst.Length && dst[..at] == written
    modifies dst
    ensures dst[..at + |src|] == written + src
  {
    for i := 0 to |src|
      invariant dst[..at + i] == written + src[..i]
    {
      dst[at + i] := src[i];
      assert dst[..at + i + 1] == (written + src[..i]) + [src[i]];
    }
  }

  /** Swaps from both ends inwards. */
  method ReverseInPlace(a: array<byte>)
    requires a.Length % 2 == 0
    modifies a
    ensures a[..] == Reverse(old(a[..]))
  {
    var n := a.Length;
    for i := 0 to n / 2
      invariant forall k :: 0 <= k < i ==> a[k] == old(a[n - 1 - k]) && a[n - 1 - k] == old(a[k])
      invariant forall k :: i <= k < n - i ==> a[k] == old(a[k])
    {
      a[i], a[n - 1 - i] := a[n - 1 - i], a[i];
    }
  }

  /** The merkle root, last byte first. */
  method ReversedRoot(merkleRoot: Hash) returns (r: Hash)
    ensures r == Reverse(merkleRoot)
  {
    var reversed := new byte[32](i => 0);
    for i := 0 to 32
      invariant forall k :: 0 <= k < i ==> reversed[k] == merkleRoot[31 - k]
    {
      reversed[i] := merkleRoot[31 - i];
    }
    r := reversed[..];
  }

  /** The part all three builders share: fill the scratch buffer piece by piece and reverse it. */
  method LayOut(nonce: Bytes4, bits: Bytes4, ntime: Bytes4, merkleRoot: Hash, prev: Hash, version: i32)
    returns (header: seq<byte>)
    ensures header == Canonical(version, prev, merkleRoot, FromBE(ntime), FromBE(bits), FromBE(nonce))
    ensures Says(header, version, prev, merkleRoot, FromBE(ntime), FromBE(bits), FromBE(nonce))
  {
    var hdr := new byte[80](i => 0);
    var root := ReversedRoot(merkleRoot);
    var uver := Unsigned(version);
    CopyInto(hdr, 0, nonce, []);
    CopyInto(hdr, 4, bits, nonce);
    CopyInto(hdr, 8, ntime, nonce + bits);
    CopyInto(hdr, 12, root, nonce + bits + ntime);
    CopyInto(hdr, 44, prev, nonce + bits + ntime + root);
    CopyInto(hdr, 76, BE4(uver), nonce + bits + ntime + root + prev);
    assert hdr[..] == hdr[..80];
    ReverseInPlace(hdr);
    ScratchReversedIsCanonical(nonce, bits, ntime, merkleRoot, prev, version);
    CanonicalSays(version, prev, merkleRoot, FromBE(ntime), FromBE(bits), FromBE(nonce));
    header := hdr[..];
  }

  /** What a job keeps for header building. */
  datatype JobHeader = JobHeader(prevHashBytes: Hash, bitsBytes: Bytes4)

  method BuildBlockHeaderFromHex(
    version: i32, prevhash: string, merkleRoot: seq<byte>, ntimeHex: string, bitsHex: string, nonceHex: string)
    returns (r: Option<seq<byte>>)
    ensures
      var prev, ntime, bits, nonce :=
        DecodeHexFixed(prevhash, 32), DecodeHexFixed(ntimeHex, 4), DecodeHexFixed(bitsHex, 4),
        DecodeHexFixed(nonceHex, 4);
      && (r.Some? <==> |merkleRoot| == 32 && prev.Some? && ntime.Some? && bits.Some? && nonce.Some?)
      && (r.Some? ==>
            && r.value == Canonical(version, prev.value, merkleRoot, FromBE(ntime.value), FromBE(bits.value),
                                    FromBE(nonce.value))
            && Says(r.value, version, prev.value, merkleRoot, FromBE(ntime.value), FromBE(bits.value),
                    FromBE(nonce.value)))
  {
    if |merkleRoot| != 32 {
      return None;
    }
    var prev := DecodeHexFixed(prevhash, 32);
    var ntime := DecodeHexFixed(ntimeHex, 4);
    var bits := DecodeHexFixed(bitsHex, 4);
    var nonce := DecodeHexFixed(nonceHex, 4);
    if prev.None? || ntime.None? || bits.None? || nonce.None? {
      return None;
    }
    var header := LayOut(nonce.value, bits.value, ntime.value, merkleRoot, prev.value, version);
    return Some(header);
  }

  method BuildBlockHeader(job: JobHeader, merkleRoot: seq<byte>, ntimeHex: string, nonceHex: string, version: i32)
    returns (r: Option<seq<byte>>)
    ensures
      var ntime, nonce := DecodeHexFixed(ntimeHex, 4), DecodeHexFixed(nonceHex, 4);
      && (r.Some? <==> |merkleRoot| == 32 && ntime.Some? && nonce.Some?)
      && (r.Some? ==>
            && r.value == Canonical(version, job.prevHashBytes, merkleRoot, FromBE(ntime.value),
                                    FromBE(job.bitsBytes), FromBE(nonce.value))
            && Says(r.value, version, job.prevHashBytes, merkleRoot, FromBE(ntime.value), FromBE(job.bitsBytes),
                    FromBE(nonce.value)))
  {
    var ntime := DecodeHexFixed(ntimeHex, 4);
    var nonce := DecodeHexFixed(nonceHex, 4);
    if |merkleRoot| != 32 || ntime.None? || nonce.None? {
      return None;
    }
    var header := LayOut(nonce.value, job.bitsBytes, ntime.value, merkleRoot, job.prevHashBytes, version);
    return Some(header);
  }

  method BuildBlockHeaderU32(job: JobHeader, merkleRoot: seq<byte>, ntime: u32, nonce: u32, version: i32)
    returns (r: Option<seq<byte>>)
    ensures r.Some? <==> |merkleRoot| == 32
    ensures r.Some? ==>
              && r.value == Canonical(version, job.prevHashBytes, merkleRoot, ntime, FromBE(job.bitsBytes), nonce)
              && Says(r.value, version, job.prevHashBytes, merkleRoot, ntime, FromBE(job.bitsBytes), nonce)
  {
    if |merkleRoot| != 32 {
      return None;
    }
    FromBEOfBE4(ntime);
    FromBEOfBE4(nonce);
    var header := LayOut(BE4(nonce), job.bitsBytes, BE4(ntime), merkleRoot, job.prevHashBytes, version);
    return Some(header);
  }

  // ---------------------------------------------------------------- the target

  /** `big.Int.Bytes`: big-endian, no leading zero. */
  function MinimalBE(n: nat): (b: seq<byte>)
    ensures n > 0 ==> |b| > 0
  {
    if n == 0 then [] else MinimalBE(n / 256) + [n % 256]
  }

  lemma {:induction false} LEOfZero(n: nat)
    ensures LE(0, n) == Zeros(n)
  {
    if n > 0 {
      LEOfZero(n - 1);
    }
  }

  /** The last `width` of some bytes, or the bytes behind zeros. */
  function Fit(b: seq<byte>, width: nat): seq<byte> {
    if |b| > width then b[|b| - width..] else Zeros(width - |b|) + b
  }

  lemma FitSnoc(c: seq<byte>, x: byte, width: nat)
    ensures Fit(c + [x], width + 1) == Fit(c, width) + [x]
  {
    if |c| > width {
      assert (c + [x])[|c| - width..] == c[|c| - width..] + [x];
    } else {
      Assoc(Zeros(width - |c|), c, [x]);
    }
  }

  /** Fixed-width bytes are the minimal ones behind zeros, or the last of them when there are more. */
  lemma {:induction false} MinimalBEIsReversedLE(n: nat, width: nat)
    ensures Reverse(LE(n, width)) == Fit(MinimalBE(n), width)
    decreases width
  {
    if width == 0 {
      assert MinimalBE(n)[|MinimalBE(n)|..] == [];
    } else if n == 0 {
      LEOfZero(width);
    } else {
      MinimalBEIsReversedLE(n / 256, width - 1);
      FitSnoc(MinimalBE(n / 256), n % 256, width - 1);
      ReverseConcat([n % 256], LE(n / 256, width - 1));
    }
  }

  method Uint256BEFromBigInt(n: nat) returns (out: Hash)
    ensures out == Reverse(LE(n, HASH_SIZE))
  {
    var b := MinimalBE(n);
    MinimalBEIsReversedLE(n, HASH_SIZE);
    if |b| > 32 {
      b := b[|b| - 32..];
    }
    var a := new byte[32](i => 0);
    CopyInto(a, 32 - |b|, b, Zeros(32 - |b|));
    assert a[..] == a[..32];
    out := a[..];
  }

  lemma {:induction false} LEIsModulo(v: nat, n: nat)
    ensures LEVal(LE(v, n)) == v % Pow256(n)
  {
    if n > 0 {
      LEIsModulo(v / 256, n - 1);
      assert LE(v, n)[1..] == LE(v / 256, n - 1);
      ModuloStep(v, Pow256(n - 1));
    }
  }

  lemma ModuloStep(v: nat, p: nat)
    requires p > 0
    ensures v % (256 * p) == v % 256 + 256 * (v / 256 % p)
  {
    var q, r := v / 256 / p, v / 256 % p;
    assert v / 256 == q * p + r;
    assert v == q * (256 * p) + (256 * r + v % 256) by { assert v == 256 * (v / 256) + v % 256; }
    assert 256 * r + v % 256 < 256 * p;
    RemainderUnique(v, 256 * p, q, 256 * r + v % 256);
  }

  lemma MultipleAtLeast(k: int, d: nat)
    requires k >= 1
    ensures k * d >= d
  {
    assert (k - 1) * d >= 0;
  }

  lemma RemainderUnique(x: nat, d: nat, q: nat, r: nat)
    requires d > 0 && x == q * d + r && r < d
    ensures x % d == r
  {
    var k := x / d - q;
    assert x == x / d * d + x % d;
    assert k * d == r - x % d;
    if k >= 1 { MultipleAtLeast(k, d); }
    if -k >= 1 { MultipleAtLeast(-k, d); }
  }

  /** Byte by byte from the top. */
  method Uint256BELessOrEqual(a: Hash, b: Hash) returns (le: bool)
    ensures le <==> BEVal(a) <= BEVal(b)
  {
    for i := 0 to 32
      invariant a[..i] == b[..i]
    {
      if a[i] != b[i] {
        FirstDifference(a, b, i);
        return a[i] < b[i];
      }
      assert a[..i + 1] == a[..i] + [a[i]] && b[..i + 1] == b[..i] + [b[i]];
    }
    assert a[..32] == a && b[..32] == b;
    return true;
  }

  /** The value of the bytes up to and including `i`. */
  function TopValue(a: seq<byte>, i: nat): (v: nat)
    requires i < |a|
    ensures v == a[i] + 256 * BEVal(a[..i])
  {
    var high := Reverse(a[..i]);
    assert ([a[i]] + high)[1..] == high;
    LEVal([a[i]] + high)
  }

  lemma ReverseAround(a: seq<byte>, i: nat)
    requires i < |a|
    ensures Reverse(a) == Reverse(a[i + 1..]) + ([a[i]] + Reverse(a[..i]))
  {
  }

  lemma SplitValue(a: seq<byte>, i: nat)
    requires i < |a|
    ensures BEVal(a) == BEVal(a[i + 1..]) + Pow256(|a| - 1 - i) * TopValue(a, i)
    ensures BEVal(a[i + 1..]) < Pow256(|a| - 1 - i)
  {
    ReverseAround(a, i);
    LEValConcat(Reverse(a[i + 1..]), [a[i]] + Reverse(a[..i]));
    LEValBound(Reverse(a[i + 1..]));
  }

  /** More in the higher part outweighs anything in the lower part. */
  lemma HigherPartDecides(p: nat, x: nat, y: nat, r: nat, s: nat)
    requires r < p && s < p && x < y
    ensures r + p * x < s + p * y
  {
    MultipleAtLeast(y - x, p);
    assert p * y == p * x + (y - x) * p;
  }

  /** The first differing byte decides. */
  lemma FirstDifference(a: Hash, b: Hash, i: nat)
    requires i < 32 && a[..i] == b[..i] && a[i] != b[i]
    ensures BEVal(a) <= BEVal(b) <==> a[i] < b[i]
  {
    SplitValue(a, i);
    SplitValue(b, i);
    if a[i] < b[i] {
      HigherPartDecides(
        Pow256(31 - i), TopValue(a, i), TopValue(b, i), BEVal(a[i + 1..]), BEVal(b[i + 1..]));
    } else {
      HigherPartDecides(
        Pow256(31 - i), TopValue(b, i), TopValue(a, i), BEVal(b[i + 1..]), BEVal(a[i + 1..]));
    }
  }

  // ---------------------------------------------------------------- compact bits

  /** The shift of `targetFromBits`, in bytes: the exponent less three, as an unsigned byte. */
  function ShiftOf(exponent: byte): nat {
    if exponent >= 3 then exponent - 3 else exponent + 253
  }

  function TargetOf(bits: Bytes4): nat {
    BEVal(bits[1..]) * Pow256(ShiftOf(bits[0]))
  }

  function TargetFromBits(bits: string): Option<nat> {
    var b := DecodeHexFixed(bits, 4);
    if b.None? then None else Some(TargetOf(b.value))
  }

  /** What compact bits mean: a mantissa moved up, or down when the exponent is below three. */
  function Nominal(bits: Bytes4): nat {
    if bits[0] >= 3 then BEVal(bits[1..]) * Pow256(bits[0] - 3) else BEVal(bits[1..]) / Pow256(3 - bits[0])
  }

  /** The number a hash is compared with: the low 32 bytes of the target. */
  function Threshold(target: nat): nat {
    target % Pow256(HASH_SIZE)
  }

  lemma {:induction false} Pow256Sum(a: nat, b: nat)
    ensures Pow256(a + b) == Pow256(a) * Pow256(b)
  {
    if a > 0 {
      Pow256Sum(a - 1, b);
    }
  }

  lemma MultipleHasNoRemainder(k: nat, d: nat)
    requires d > 0
    ensures (k * d) % d == 0
  {
    RemainderUnique(k * d, d, k, 0);
  }

  lemma MulAssoc(a: nat, b: nat, c: nat)
    ensures a * (b * c) == a * b * c
  {
  }

  /** Below three the shift wraps past all 32 bytes and nothing of the target is left. */
  lemma SmallExponentThreshold(bits: Bytes4)
    requires bits[0] < 3
    ensures Threshold(TargetOf(bits)) == 0
  {
    var mantissa, high := BEVal(bits[1..]), ShiftOf(bits[0]) - 32;
    Pow256Sum(high, HASH_SIZE);
    MulAssoc(mantissa, Pow256(high), Pow256(HASH_SIZE));
    MultipleHasNoRemainder(mantissa * Pow256(high), Pow256(HASH_SIZE));
  }

  /** The test uses the meaning of the bits exactly when that meaning fits: below 2^256, and zero for exponents under
      three. */
  lemma ThresholdIsNominalIff(bits: Bytes4)
    ensures Threshold(TargetOf(bits)) == Nominal(bits) <==>
            if bits[0] >= 3 then Nominal(bits) < Pow256(HASH_SIZE) else Nominal(bits) == 0
  {
    if bits[0] < 3 {
      SmallExponentThreshold(bits);
    } else if TargetOf(bits) < Pow256(HASH_SIZE) {
      RemainderUnique(TargetOf(bits), Pow256(HASH_SIZE), 0, TargetOf(bits));
    }
  }

  lemma ThreeBytes(b: seq<byte>)
    requires |b| == 3
    ensures var x: int, y: int, z: int := b[0], b[1], b[2]; BEVal(b) == (x * 256 + y) * 256 + z
  {
    var one, two := [b[0]], [b[1], b[0]];
    assert one[1..] == [] && two[1..] == one && Reverse(b)[1..] == two;
    assert LEVal(one) == b[0] + 256 * LEVal([]);
    assert LEVal(two) == b[1] + 256 * LEVal(one);
    assert LEVal(Reverse(b)) == b[2] + 256 * LEVal(two);
  }

  /** Bits with exponent two mean 0x1234, but no hash except zero passes the test. */
  lemma SmallExponentLosesTarget()
    ensures
      var bits: Bytes4 := [2, 0x12, 0x34, 0x56];
      Nominal(bits) == 0x1234 && Threshold(TargetOf(bits)) == 0
  {
    var bits: Bytes4 := [2, 0x12, 0x34, 0x56];
    SmallExponentThreshold(bits);
    ThreeBytes(bits[1..]);
    assert Pow256(1) == 256;
  }

  /** `validateBits`: the target must be positive and equal to the one the template names, if it names one. */
  function ValidateBits(bits: string, named: Option<int>): Option<nat> {
    var target := TargetFromBits(bits);
    if target.None? || target.value <= 0 then None
    else if named.Some? && (named.value <= 0 || named.value != target.value) then None
    else target
  }

  /** A template that names a target below 2^256 gets exactly that target as threshold, whatever its bits. */
  lemma NamedTargetIsTested(bits: string, named: nat)
    requires named < Pow256(HASH_SIZE)
    ensures ValidateBits(bits, Some(named)).Some? ==> Threshold(ValidateBits(bits, Some(named)).value) == named
  {
    RemainderUnique(named, Pow256(HASH_SIZE), 0, named);
  }

  // ---------------------------------------------------------------- the block test

  /** The header hash in display order. */
  method DisplayHash(hash: Hash) returns (r: Hash)
    ensures BEVal(r) == LEVal(hash)
  {
    var a := new byte[32](i => 0);
    CopyInto(a, 0, hash, []);
    assert a[..] == a[..32] == [] + hash == hash;
    ReverseInPlace(a);
    r := a[..];
    ReverseTwice(hash);
    assert Reverse(r) == hash;
  }

  lemma TargetBytesValue(target: nat)
    ensures BEVal(Reverse(LE(target, HASH_SIZE))) == Threshold(target)
  {
    ReverseTwice(LE(target, HASH_SIZE));
    LEIsModulo(target, HASH_SIZE);
  }

  /** The job's target bytes, worked out again when they were not filled in. */
  method TargetBytes(jobTargetBE: Hash, target: nat) returns (targetBE: Hash)
    requires jobTargetBE == Zeros(HASH_SIZE) || jobTargetBE == Reverse(LE(target, HASH_SIZE))
    ensures targetBE == Reverse(LE(target, HASH_SIZE))
  {
    targetBE := jobTargetBE;
    LEOfZero(HASH_SIZE);
    if targetBE == Zeros(HASH_SIZE) && target != 0 {
      targetBE := Uint256BEFromBigInt(target);
    }
  }

  /** Whether a header wins: its hash, read little-endian, is at most the job's threshold. */
  method IsBlock(sha: seq<byte> -> Hash, header: seq<byte>, jobTargetBE: Hash, target: nat)
    returns (isBlock: bool)
    requires jobTargetBE == Zeros(HASH_SIZE) || jobTargetBE == Reverse(LE(target, HASH_SIZE))
    ensures isBlock <==> LEVal(sha(header)) <= Threshold(target)
  {
    var hash := DisplayHash(sha(header));
    var targetBE := TargetBytes(jobTargetBE, target);
    TargetBytesValue(target);
    isBlock := Uint256BELessOrEqual(hash, targetBE);
  }

  /** With bits whose meaning fits, winning is the numeric test of the meaning. */
  lemma BlockTestIsNumeric(bits: Bytes4, hash: Hash)
    requires bits[0] >= 3 && Nominal(bits) < Pow256(HASH_SIZE)
    ensures LEVal(hash) <= Threshold(TargetOf(bits)) <==>
            LEVal(hash) <= BEVal(bits[1..]) * Pow256(bits[0] - 3)
  {
    ThresholdIsNominalIff(bits);
  }
}
