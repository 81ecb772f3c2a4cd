/** make_addr: a key hash becomes an address that stores the number of its leading one bits in one byte and the
    112 bits after the first zero in the last fourteen. */
module Address {
  import opened ByteStrings

  // ---- bits of bytes and of strings, most significant first ----

  /** Bit j of a byte, counted from the top. */
  predicate Bit(b: bv8, j: nat)
    requires j < 8
    decreases j
  {
    if j == 0 then b & 0x80 != 0 else Bit(b << 1, j - 1)
  }

  function Mask(j: nat): (mask: bv8)
    requires j <= 8
  {
    if j == 0 then 0x80 else if j == 1 then 0x40 else if j == 2 then 0x20 else if j == 3 then 0x10
    else if j == 4 then 0x08 else if j == 5 then 0x04 else if j == 6 then 0x02 else if j == 7 then 0x01 else 0
  }

  lemma {:induction false} MaskFacts(c: bv8, j: nat)
    requires j < 8
    ensures Mask(j) != 0 && Mask(j) >> 1 == Mask(j + 1)
    ensures c & Mask(j) != 0 <==> Bit(c, j)
    decreases j
  {
    if j > 0 {
      MaskFacts(c << 1, j - 1);
    }
  }

  /** The same bit, case by case. */
  predicate TestBit(b: bv8, j: nat)
    requires j < 8
  {
    if j == 0 then b & 0x80 != 0 else if j == 1 then b & 0x40 != 0
    else if j == 2 then b & 0x20 != 0 else if j == 3 then b & 0x10 != 0
    else if j == 4 then b & 0x08 != 0 else if j == 5 then b & 0x04 != 0
    else if j == 6 then b & 0x02 != 0 else b & 0x01 != 0
  }

  lemma {:induction false} BitIsTestBit(b: bv8, j: nat)
    requires j < 8
    ensures Bit(b, j) == TestBit(b, j)
    decreases j
  {
    if j > 0 {
      BitIsTestBit(b << 1, j - 1);
    }
  }

  lemma AllBitsTest(b: bv8)
    ensures forall j :: 0 <= j < 8 ==> Bit(b, j) == TestBit(b, j)
  {
    forall j | 0 <= j < 8
      ensures Bit(b, j) == TestBit(b, j)
    {
      BitIsTestBit(b, j);
    }
  }

  function Bits(s: Bytes): (bits: seq<bool>)
    ensures |bits| == 8 * |s|
  {
    if s == [] then [] else seq(8, j requires 0 <= j < 8 => Bit(s[0], j)) + Bits(s[1..])
  }

  lemma {:induction false} BitAt(s: Bytes, k: nat, j: nat)
    requires k < |s| && j < 8
    ensures Bits(s)[8 * k + j] == Bit(s[k], j)
    decreases k
  {
    if k > 0 {
      BitAt(s[1..], k - 1, j);
    }
  }

  lemma SameBits(a: bv8, b: bv8)
    requires forall j :: 0 <= j < 8 ==> Bit(a, j) == Bit(b, j)
    ensures a == b
  {
    AllBitsTest(a);
    AllBitsTest(b);
    assert Bit(a, 0) == Bit(b, 0) && Bit(a, 1) == Bit(b, 1) && Bit(a, 2) == Bit(b, 2) && Bit(a, 3) == Bit(b, 3);
    assert Bit(a, 4) == Bit(b, 4) && Bit(a, 5) == Bit(b, 5) && Bit(a, 6) == Bit(b, 6) && Bit(a, 7) == Bit(b, 7);
  }

  // Shifts one place at a time; the same as shifting k places at once.

  function Shl(b: bv8, k: nat): (c: bv8)
    decreases k
  {
    if k == 0 then b else Shl(b << 1, k - 1)
  }

  function Shr(b: bv8, k: nat): (c: bv8) {
    if k == 0 then b else Shr(b, k - 1) >> 1
  }

  lemma {:induction false} ShlIsShift(b: bv8, k: nat)
    requires k <= 8
    ensures Shl(b, k) == b << k
    decreases k
  {
    if k > 0 {
      ShlIsShift(b << 1, k - 1);
      if k == 1 {} else if k == 2 {} else if k == 3 {} else if k == 4 {}
      else if k == 5 {} else if k == 6 {} else if k == 7 {}
    }
  }

  lemma {:induction false} ShrIsShift(b: bv8, k: nat)
    requires k <= 8
    ensures Shr(b, k) == b >> k
  {
    if k > 0 {
      ShrIsShift(b, k - 1);
      if k == 1 {} else if k == 2 {} else if k == 3 {} else if k == 4 {}
      else if k == 5 {} else if k == 6 {} else if k == 7 {}
    }
  }

  lemma {:induction false} ShlBit(b: bv8, k: nat, j: nat)
    requires j < 8
    ensures Bit(Shl(b, k), j) <==> k + j < 8 && Bit(b, k + j)
    decreases k
  {
    if k > 0 {
      ShlBit(b << 1, k - 1, j);
      if k - 1 + j == 7 {
        BitIsTestBit(b << 1, 7);
      }
    }
  }

  lemma {:induction false} ShrBit(b: bv8, k: nat, j: nat)
    requires j < 8
    ensures Bit(Shr(b, k), j) <==> j >= k && Bit(b, j - k)
    decreases k
  {
    if k > 0 {
      ShiftedDownOnce(Shr(b, k - 1), j);
      if j > 0 {
        ShrBit(b, k - 1, j - 1);
      }
    }
  }

  lemma ShiftedDownOnce(b: bv8, j: nat)
    requires j < 8
    ensures Bit(b >> 1, j) <==> j > 0 && Bit(b, j - 1)
  {
    BitIsTestBit(b >> 1, j);
    if j > 0 {
      BitIsTestBit(b, j - 1);
    }
  }

  lemma {:induction false} OrBit(a: bv8, b: bv8, j: nat)
    requires j < 8
    ensures Bit(a | b, j) <==> Bit(a, j) || Bit(b, j)
    decreases j
  {
    if j > 0 {
      assert (a | b) << 1 == (a << 1) | (b << 1);
      OrBit(a << 1, b << 1, j - 1);
    }
  }

  // ---- the order of strings seen on their bits ----

  ghost predicate FirstDiffersAt(x: seq<bool>, y: seq<bool>, n: nat) {
    n < |x| && n < |y| && !x[n] && y[n] && forall m :: 0 <= m < n ==> x[m] == y[m]
  }

  lemma {:induction false} ByteBelow(a: bv8, b: bv8, j: nat)
    requires j < 8 && !Bit(a, j) && Bit(b, j)
    requires forall i :: 0 <= i < j ==> Bit(a, i) == Bit(b, i)
    ensures a < b
    decreases j
  {
    if j > 0 {
      assert Bit(a, 0) == Bit(b, 0);
      var a1, b1 := a << 1, b << 1;
      forall i | 0 <= i < j - 1
        ensures Bit(a1, i) == Bit(b1, i)
      {
        assert Bit(a, i + 1) == Bit(b, i + 1);
      }
      ByteBelow(a1, b1, j - 1);
    }
  }

  lemma FirstDifferentBit(a: bv8, b: bv8) returns (j: nat)
    requires a < b
    ensures j < 8 && !Bit(a, j) && Bit(b, j) && forall i :: 0 <= i < j ==> Bit(a, i) == Bit(b, i)
  {
    j := 0;
    while j < 8 && Bit(a, j) == Bit(b, j)
      invariant j <= 8 && forall i :: 0 <= i < j ==> Bit(a, i) == Bit(b, i)
    {
      j := j + 1;
    }
    if j == 8 {
      SameBits(a, b);
    } else if Bit(a, j) {
      ByteBelow(b, a, j);
    }
  }

  lemma BitsOfLess(a: Bytes, b: Bytes) returns (n: nat)
    requires |a| == |b| && Less(a, b)
    ensures FirstDiffersAt(Bits(a), Bits(b), n)
  {
    var k :| 0 <= k < |a| && k < |b| && a[..k] == b[..k] && a[k] < b[k];
    var j := FirstDifferentBit(a[k], b[k]);
    n := 8 * k + j;
    BitAt(a, k, j);
    BitAt(b, k, j);
    forall m | 0 <= m < n
      ensures Bits(a)[m] == Bits(b)[m]
    {
      BitAt(a, m / 8, m % 8);
      BitAt(b, m / 8, m % 8);
      if m / 8 < k {
        assert a[m / 8] == a[..k][m / 8] == b[..k][m / 8];
      }
    }
  }

  lemma {:induction false} LessOfBits(a: Bytes, b: Bytes, n: nat)
    requires |a| == |b| && FirstDiffersAt(Bits(a), Bits(b), n)
    ensures Less(a, b)
  {
    var k := n / 8;
    forall i | 0 <= i < k
      ensures a[i] == b[i]
    {
      forall j | 0 <= j < 8
        ensures Bit(a[i], j) == Bit(b[i], j)
      {
        BitAt(a, i, j);
        BitAt(b, i, j);
      }
      SameBits(a[i], b[i]);
    }
    forall j | 0 <= j <= n % 8
      ensures Bit(a[k], j) == Bits(a)[8 * k + j]
      ensures Bit(b[k], j) == Bits(b)[8 * k + j]
    {
      BitAt(a, k, j);
      BitAt(b, k, j);
    }
    ByteBelow(a[k], b[k], n % 8);
    assert a[..k] == b[..k];
  }

  // ---- make_addr ----

  function LeadingOnes(bits: seq<bool>): (n: nat)
    ensures n <= |bits|
    ensures forall k :: 0 <= k < n ==> bits[k]
    ensures n < |bits| ==> !bits[n]
  {
    if bits == [] || !bits[0] then 0
    else
      var rest := bits[1..];
      var n := LeadingOnes(rest);
      assert forall k :: 0 <= k < n + 1 ==> bits[k] == if k == 0 then true else rest[k - 1];
      1 + n
  }

  function Ones(hash: Bytes): (n: nat)
    ensures n <= 8 * |hash|
  {
    LeadingOnes(Bits(hash))
  }

  lemma OnesIs(hash: Bytes, n: nat)
    requires n < 8 * |hash| && !Bits(hash)[n] && forall k :: 0 <= k < n ==> Bits(hash)[k]
    ensures Ones(hash) == n
  {
  }

  /** Every byte that make_addr reads lies inside the hash: at most 398 leading ones for 64 bytes. */
  predicate Fits(hash: Bytes) {
    (Ones(hash) + 1) / 8 + 14 < |hash|
  }

  /** It is the first zero bit and the 113 after it that have to be there. */
  lemma FitsExactly(hash: Bytes)
    ensures Fits(hash) <==> Ones(hash) + 114 <= 8 * |hash|
  {
  }

  /** The 112 bits after the first zero. */
  function Tail(hash: Bytes): (bits: seq<bool>)
    requires Fits(hash)
    ensures |bits| == 112
  {
    Bits(hash)[Ones(hash) + 1..Ones(hash) + 113]
  }

  /** The eight bits from offset on, cut out of the two bytes they straddle. */
  function Straddled(hash: Bytes, offset: nat): (c: bv8)
    requires offset / 8 + 1 < |hash|
  {
    Shl(hash[offset / 8], offset % 8) | Shr(hash[offset / 8 + 1], 8 - offset % 8)
  }

  method ShiftLeft(b: bv8, k: nat) returns (c: bv8)
    requires k <= 8
    ensures c == Shl(b, k)
  {
    ShlIsShift(b, k);
    c := b << k;
  }

  method ShiftRight(b: bv8, k: nat) returns (c: bv8)
    requires k <= 8
    ensures c == Shr(b, k)
  {
    ShrIsShift(b, k);
    c := b >> k;
  }

  /** The two statements of the loop that compute one byte. */
  method Straddle(hash: Bytes, offset: nat) returns (c: bv8)
    requires offset / 8 + 1 < |hash|
    ensures c == Straddled(hash, offset)
  {
    c := ShiftLeft(hash[offset / 8], offset % 8);
    var low := ShiftRight(hash[offset / 8 + 1], 8 - offset % 8);
    c := c | low;
  }

  /** An int stored in an unsigned char, which counts modulo 256. */
  function LowByte(n: nat): (b: bv8) {
    if n == 0 then 0 else LowByte(n - 1) + 1
  }

  lemma {:induction false} LowByteIs(n: nat)
    ensures LowByte(n) as int == n % 256
  {
    if n > 0 {
      LowByteIs(n - 1);
      NextByte(LowByte(n - 1));
      NextModulo(n - 1);
    }
  }

  lemma NextModulo(n: nat)
    ensures (n + 1) % 256 == if n % 256 == 255 then 0 else n % 256 + 1
  {
  }

  lemma NextByte(b: bv8)
    ensures (b + 1) as int == if b as int == 255 then 0 else b as int + 1
  {
  }

  lemma {:induction false} ByteBack(d: nat)
    requires d < 256
    ensures (d as bv8) as int == d
  {
    if d > 0 {
      ByteBack(d - 1);
      var c := (d - 1) as bv8;
      NextByte(c);
      assert d as bv8 == c + 1;
    }
  }

  method Truncate(n: nat) returns (b: bv8)
    ensures b == LowByte(n)
  {
    b := (n % 256) as bv8;
    ByteBack(n % 256);
    LowByteIs(n);
    SameByte(b, LowByte(n));
  }

  function TailBytes(hash: Bytes): (tail: Bytes)
    requires Fits(hash)
    ensures |tail| == 14
  {
    seq(14, i requires 0 <= i < 14 => Straddled(hash, Ones(hash) + 1 + 8 * i))
  }

  /** The address of a hash; the count of ones loses all but its low eight bits. */
  function AddressOf(hash: Bytes): (addr: Bytes)
    requires Fits(hash)
    ensures |addr| == 16
  {
    [2, LowByte(Ones(hash))] + TailBytes(hash)
  }

  /** The counting loops of make_addr. */
  method CountOnes(hash: Bytes) returns (ones: nat)
    ensures ones == Ones(hash)
  {
    ghost var bits := Bits(hash);
    ones := 0;
    var br := false;
    var i := 0;
    while i < |hash| && !br
      invariant i <= |hash| && ones <= 8 * |hash|
      invariant forall k :: 0 <= k < ones ==> bits[k]
      invariant if br then ones < 8 * |hash| && !bits[ones] else ones == 8 * i
    {
      var mask: bv8 := 128;
      var c := hash[i];
      ghost var j := 0;
      while mask != 0
        invariant j <= 8 && mask == Mask(j) && ones == 8 * i + j
        invariant forall k :: 0 <= k < ones ==> bits[k]
        decreases 8 - j
      {
        MaskFacts(c, j);
        BitAt(hash, i, j);
        if c & mask != 0 {
          ones := ones + 1;
        } else {
          br := true;
          break;
        }
        mask := mask >> 1;
        j := j + 1;
      }
      i := i + 1;
    }
    if br {
      OnesIs(hash, ones);
    }
  }

  method MakeAddr(addr: array<bv8>, hash: Bytes)
    requires addr.Length >= 16 && Fits(hash)
    modifies addr
    ensures addr[..16] == AddressOf(hash)
    ensures addr[0] == 2 && addr[1] as int == Ones(hash) % 256
    ensures addr[16..] == old(addr[16..])
  {
    var ones := CountOnes(hash);
    addr[0] := 2;
    addr[1] := Truncate(ones);
    ghost var head := addr[..2];
    var offset := ones + 1;
    for i := 0 to 14
      invariant offset == ones + 1 + 8 * i
      invariant addr[..i + 2] == head + TailBytes(hash)[..i]
      invariant addr[16..] == old(addr[16..])
    {
      var c := Straddle(hash, offset);
      addr[i + 2] := c;
      assert addr[..i + 3] == addr[..i + 2] + [c];
      offset := offset + 8;
    }
    assert addr[..16] == AddressOf(hash);
    SecondByte(hash);
    assert addr[0] == addr[..16][0] && addr[1] == addr[..16][1];
  }

  lemma ShiftedPairBit(a: bv8, b: bv8, k: nat, j: nat)
    requires k < 8 && j < 8
    ensures Bit(Shl(a, k) | Shr(b, 8 - k), j) == if k + j < 8 then Bit(a, k + j) else Bit(b, k + j - 8)
  {
    OrBit(Shl(a, k), Shr(b, 8 - k), j);
    ShlBit(a, k, j);
    ShrBit(b, 8 - k, j);
  }

  lemma JoinedBit(hash: Bytes, byte: nat, k: nat, j: nat)
    requires byte + 1 < |hash| && k < 8 && j < 8
    ensures Bit(Shl(hash[byte], k) | Shr(hash[byte + 1], 8 - k), j) == Bits(hash)[8 * byte + k + j]
  {
    ShiftedPairBit(hash[byte], hash[byte + 1], k, j);
    if k + j < 8 {
      BitAt(hash, byte, k + j);
    } else {
      BitAt(hash, byte + 1, k + j - 8);
    }
  }

  lemma {:induction false} StraddledBit(hash: Bytes, offset: nat, j: nat)
    requires offset / 8 + 1 < |hash| && j < 8
    ensures Bit(Straddled(hash, offset), j) == Bits(hash)[offset + j]
  {
    JoinedBit(hash, offset / 8, offset % 8, j);
  }

  /** Bit-exactness: the last fourteen bytes hold the 112 bits after the first zero, for every alignment. */
  lemma TailIsExact(hash: Bytes)
    requires Fits(hash)
    ensures Bits(AddressOf(hash)[2..]) == Tail(hash)
  {
    var tail := TailBytes(hash);
    assert AddressOf(hash)[2..] == tail;
    forall n | 0 <= n < 112
      ensures Bits(tail)[n] == Tail(hash)[n]
    {
      TailBit(hash, n / 8, n % 8);
    }
  }

  lemma TailBit(hash: Bytes, i: nat, j: nat)
    requires Fits(hash) && i < 14 && j < 8
    ensures Bits(TailBytes(hash))[8 * i + j] == Tail(hash)[8 * i + j]
  {
    BitAt(TailBytes(hash), i, j);
    StraddledBit(hash, Ones(hash) + 1 + 8 * i, j);
  }

  // ---- what an address says about its hash ----

  function Trues(n: nat): (bits: seq<bool>)
    ensures |bits| == n
  {
    seq(n, _ => true)
  }

  /** Reading an address back: as many ones as byte 1 says, a zero, and the bits of the last fourteen bytes. */
  function Decoded(addr: Bytes): (bits: seq<bool>)
    requires |addr| == 16
    ensures |bits| == addr[1] as int + 113
  {
    Trues(addr[1] as int) + [false] + Bits(addr[2..])
  }

  function KeptPrefix(hash: Bytes): (bits: seq<bool>)
    requires Fits(hash)
    ensures |bits| == Ones(hash) + 113
  {
    Bits(hash)[..Ones(hash) + 113]
  }

  lemma PrefixParts(hash: Bytes)
    requires Fits(hash)
    ensures KeptPrefix(hash) == Trues(Ones(hash)) + [false] + Tail(hash)
  {
  }

  lemma ReadsBack(hash: Bytes)
    requires Fits(hash) && Ones(hash) <= 255
    ensures Decoded(AddressOf(hash)) == KeptPrefix(hash)
  {
    SecondByte(hash);
    DecodedParts(AddressOf(hash), Ones(hash));
    PrefixParts(hash);
    TailIsExact(hash);
  }

  lemma ReadsBackShort(hash: Bytes)
    requires Fits(hash) && Ones(hash) > 255
    ensures |Decoded(AddressOf(hash))| < |KeptPrefix(hash)|
  {
  }

  /** An address reads back as the leading bits of its hash exactly when the count of ones fits its byte. */
  lemma RoundTrip(hash: Bytes)
    requires Fits(hash)
    ensures Decoded(AddressOf(hash)) == KeptPrefix(hash) <==> Ones(hash) <= 255
  {
    if Ones(hash) <= 255 {
      ReadsBack(hash);
    } else {
      ReadsBackShort(hash);
    }
  }

  lemma SecondByte(hash: Bytes)
    requires Fits(hash)
    ensures AddressOf(hash)[1] as int == Ones(hash) % 256
  {
    LowByteIs(Ones(hash));
  }

  lemma DecodedParts(addr: Bytes, n: nat)
    requires |addr| == 16 && addr[1] as int == n
    ensures Decoded(addr) == Trues(n) + [false] + Bits(addr[2..])
  {
  }

  /** Two hashes share an address exactly when they agree on the prefix that the address keeps. */
  lemma SharedAddress(h1: Bytes, h2: Bytes)
    requires Fits(h1) && Fits(h2) && Ones(h1) <= 255 && Ones(h2) <= 255
    ensures AddressOf(h1) == AddressOf(h2) <==> KeptPrefix(h1) == KeptPrefix(h2)
  {
    var a1, a2 := AddressOf(h1), AddressOf(h2);
    ReadsBack(h1);
    ReadsBack(h2);
    if KeptPrefix(h1) == KeptPrefix(h2) {
      assert Ones(h1) == Ones(h2);
      TailIsExact(h1);
      TailIsExact(h2);
      assert Tail(h1) == KeptPrefix(h1)[Ones(h1) + 1..];
      assert Tail(h2) == KeptPrefix(h2)[Ones(h2) + 1..];
      SameBytes(a1[2..], a2[2..]);
      assert a1 == a1[..2] + a1[2..] && a2 == a2[..2] + a2[2..];
    }
  }

  lemma {:induction false} SameBytes(a: Bytes, b: Bytes)
    requires |a| == |b| && Bits(a) == Bits(b)
    ensures a == b
  {
    forall i | 0 <= i < |a|
      ensures a[i] == b[i]
    {
      forall j | 0 <= j < 8
        ensures Bit(a[i], j) == Bit(b[i], j)
      {
        BitAt(a, i, j);
        BitAt(b, i, j);
      }
      SameBits(a[i], b[i]);
    }
  }

  // ---- order ----

  lemma LessIsOneWay(a: Bytes, b: Bytes)
    requires |a| == |b| && Less(a, b)
    ensures !Less(b, a)
  {
  }

  lemma MoreOnes(h1: Bytes, h2: Bytes, n: nat)
    requires |h1| == |h2| && FirstDiffersAt(Bits(h1), Bits(h2), n)
    ensures n < Ones(h1) ==> false
    ensures n == Ones(h1) ==> Ones(h1) < Ones(h2)
    ensures n > Ones(h1) ==> Ones(h1) == Ones(h2)
  {
  }

  lemma LessByOnes(a1: Bytes, a2: Bytes)
    requires |a1| == |a2| == 16 && a1[0] == a2[0] && a1[1] < a2[1]
    ensures Less(a1, a2)
  {
  }

  lemma LessByTail(a1: Bytes, a2: Bytes)
    requires |a1| == |a2| == 16 && a1[0] == a2[0] && a1[1] == a2[1] && Less(a1[2..], a2[2..])
    ensures Less(a1, a2)
  {
    assert a1[1..][1..] == a1[2..] && a2[1..][1..] == a2[2..];
    LessCons(a1[1..], a2[1..]);
    LessCons(a1, a2);
  }

  /** Hashes whose counts of ones lose the same high bits keep their order. */
  lemma OrderWithinBlock(h1: Bytes, h2: Bytes)
    requires |h1| == |h2| && Fits(h1) && Fits(h2) && !Less(h2, h1)
    requires Ones(h1) / 256 == Ones(h2) / 256
    ensures !Less(AddressOf(h2), AddressOf(h1))
  {
    var a1, a2 := AddressOf(h1), AddressOf(h2);
    LessIffBigEndian(h1, h2);
    LessIffBigEndian(h2, h1);
    if h1 == h2 {
      LessIffBigEndian(a1, a2);
    } else {
      var n := BitsOfLess(h1, h2);
      MoreOnes(h1, h2, n);
      if n == Ones(h1) {
        SmallerByte(Ones(h1), Ones(h2));
        LessByOnes(a1, a2);
        LessIsOneWay(a1, a2);
      } else {
        TailIsExact(h1);
        TailIsExact(h2);
        if n < Ones(h1) + 113 {
          TailsDifferAt(h1, h2, n);
          LessOfBits(a1[2..], a2[2..], n - Ones(h1) - 1);
          LessByTail(a1, a2);
          LessIsOneWay(a1, a2);
        } else {
          TailsAgree(h1, h2, n);
          SameBytes(a1[2..], a2[2..]);
          assert a1 == a1[..2] + a1[2..] && a2 == a2[..2] + a2[2..];
          LessIffBigEndian(a2, a1);
        }
      }
    }
  }

  lemma TailsDifferAt(h1: Bytes, h2: Bytes, n: nat)
    requires |h1| == |h2| && Fits(h1) && Fits(h2) && Ones(h1) == Ones(h2)
    requires FirstDiffersAt(Bits(h1), Bits(h2), n) && Ones(h1) < n < Ones(h1) + 113
    ensures FirstDiffersAt(Tail(h1), Tail(h2), n - Ones(h1) - 1)
  {
  }

  lemma {:induction false} TailsAgree(h1: Bytes, h2: Bytes, n: nat)
    requires |h1| == |h2| && Fits(h1) && Fits(h2) && Ones(h1) == Ones(h2)
    requires FirstDiffersAt(Bits(h1), Bits(h2), n) && n >= Ones(h1) + 113
    ensures Tail(h1) == Tail(h2)
  {
  }

  lemma SmallerByte(d: nat, e: nat)
    requires d % 256 < e % 256
    ensures LowByte(d) < LowByte(e)
  {
    LowByteIs(d);
    LowByteIs(e);
    SameByte(LowByte(d), LowByte(e));
  }

  // ---- hashes with many ones ----

  lemma BitsOfEnds(j: nat)
    requires j < 8
    ensures Bit(0xFF, j) && Bit(0xFE, j) == (j < 7) && !Bit(0, j)
  {
    BitIsTestBit(0xFF, j);
    BitIsTestBit(0xFE, j);
    BitIsTestBit(0, j);
  }

  /** 255 leading ones, a zero, and ones again: the hash with the greatest address. */
  function MostOnes(width: nat): (hash: Bytes)
    requires width >= 47
    ensures |hash| == width
  {
    AllOnes(31) + [0xFE] + AllOnes(width - 32)
  }

  lemma BitsOfMostOnes(width: nat, n: nat)
    requires width >= 47 && n < 8 * width
    ensures Bits(MostOnes(width))[n] == (n != 255)
  {
    BitAt(MostOnes(width), n / 8, n % 8);
    BitsOfEnds(n % 8);
  }

  lemma MostOnesHas255(width: nat)
    requires width >= 47
    ensures Ones(MostOnes(width)) == 255 && Fits(MostOnes(width))
  {
    forall n | 0 <= n <= 255
      ensures Bits(MostOnes(width))[n] == (n < 255)
    {
      BitsOfMostOnes(width, n);
    }
    OnesIs(MostOnes(width), 255);
  }

  /** The greatest address there is. */
  function TopAddress(): (addr: Bytes)
    ensures |addr| == 16
  {
    [2] + AllOnes(15)
  }

  lemma {:induction false} BitsOfAllOnes(width: nat, n: nat)
    requires n < 8 * width
    ensures Bits(AllOnes(width))[n]
  {
    BitAt(AllOnes(width), n / 8, n % 8);
    BitsOfEnds(n % 8);
  }

  lemma MostOnesTail(width: nat)
    requires width >= 47
    ensures Fits(MostOnes(width)) && AddressOf(MostOnes(width))[2..] == AllOnes(14)
  {
    var h := MostOnes(width);
    MostOnesHas255(width);
    TailIsExact(h);
    forall n | 0 <= n < 112
      ensures Tail(h)[n] && Bits(AllOnes(14))[n]
    {
      BitsOfMostOnes(width, 256 + n);
      BitsOfAllOnes(14, n);
    }
    assert Bits(AddressOf(h)[2..]) == Bits(AllOnes(14));
    SameBytes(AddressOf(h)[2..], AllOnes(14));
  }

  lemma MostOnesAddress(width: nat)
    requires width >= 47
    ensures Fits(MostOnes(width)) && AddressOf(MostOnes(width)) == TopAddress()
  {
    var h := MostOnes(width);
    MostOnesHas255(width);
    MostOnesTail(width);
    LastByte(LowByte(Ones(h)), Ones(h));
    assert AddressOf(h) == [2, LowByte(Ones(h))] + AddressOf(h)[2..];
    assert TopAddress() == [2, 0xFF] + AllOnes(14);
  }

  lemma LastByte(b: bv8, n: nat)
    requires b == LowByte(n) && n == 255
    ensures b == 0xFF
  {
    LowByteIs(n);
    SameByte(b, 0xFF);
  }

  lemma TopIsGreatest(addr: Bytes)
    requires |addr| == 16 && addr[0] == 2
    ensures !Less(TopAddress(), addr)
    ensures addr != TopAddress() ==> Less(addr, TopAddress())
  {
    var top := TopAddress();
    LessIsTotal(top, addr);
    assert top[0] == 2 && forall k :: 0 < k < 16 ==> top[k] == 0xFF;
  }

  lemma AllOnesByte(h: Bytes, i: nat)
    requires i < |h| && 8 * i + 8 <= Ones(h)
    ensures h[i] == 0xFF
  {
    forall j | 0 <= j < 8
      ensures Bit(h[i], j) == Bit(0xFF, j)
    {
      BitAt(h, i, j);
      BitIsTestBit(0xFF, j);
    }
    SameBits(h[i], 0xFF);
  }

  lemma NoMoreOnes(g: Bytes, h: Bytes)
    requires |g| == |h| && !Less(h, g)
    ensures Ones(g) <= Ones(h)
  {
    LessIffBigEndian(g, h);
    LessIffBigEndian(h, g);
    if g != h {
      var n := BitsOfLess(g, h);
      MoreOnes(g, h, n);
    }
  }

  lemma ManyOnesAreAbove(h: Bytes)
    requires |h| >= 47 && Ones(h) > 255
    ensures Less(MostOnes(|h|), h)
  {
    var g := MostOnes(|h|);
    forall i | 0 <= i < 32
      ensures h[i] == 0xFF
    {
      AllOnesByte(h, i);
    }
    assert g[..31] == h[..31] && g[31] < h[31];
  }

  /** 256 leading ones and then zeros: a hash that make_addr can read, and whose count of ones does not fit. */
  function TooManyOnes(width: nat): (hash: Bytes)
    requires width >= 47
    ensures |hash| == width
  {
    AllOnes(32) + Zeros(width - 32)
  }

  lemma TooManyOnesHas256(width: nat)
    requires width >= 47
    ensures Ones(TooManyOnes(width)) == 256 && Fits(TooManyOnes(width))
  {
    var h := TooManyOnes(width);
    forall n | 0 <= n <= 256
      ensures Bits(h)[n] == (n < 256)
    {
      BitAt(h, n / 8, n % 8);
      BitsOfEnds(n % 8);
    }
    OnesIs(h, 256);
  }

  /** Both promises do fail: this hash does not read back, and it gets a lower address than a lower hash. */
  lemma TooManyOnesFail(width: nat)
    requires width >= 47
    ensures var g, h := MostOnes(width), TooManyOnes(width);
            && Fits(g) && Fits(h)
            && Decoded(AddressOf(h)) != KeptPrefix(h)
            && Less(g, h) && Less(AddressOf(h), AddressOf(g))
  {
    var h := TooManyOnes(width);
    TooManyOnesHas256(width);
    RoundTrip(h);
    ManyOnesAreAbove(h);
    MostOnesAddress(width);
    SecondByte(h);
    TopIsGreatest(AddressOf(h));
    assert TopAddress()[1] as int == 255;
  }

  /** With 47 bytes or more the count of ones can exceed its byte; then the order breaks unless the address is the
      greatest one by chance. */
  lemma ManyOnesBreakOrder(h: Bytes)
    requires Fits(h) && Ones(h) > 255 && AddressOf(h) != TopAddress()
    ensures |h| >= 47 && Fits(MostOnes(|h|))
    ensures !Less(h, MostOnes(|h|)) && Less(AddressOf(h), AddressOf(MostOnes(|h|)))
  {
    ManyOnesAreAbove(h);
    LessIsOneWay(MostOnes(|h|), h);
    MostOnesAddress(|h|);
    TopIsGreatest(AddressOf(h));
  }

  /** The order of hashes is the order of addresses for all the hashes below h. */
  ghost predicate KeepsOrderBelow(h: Bytes)
    requires Fits(h)
  {
    forall g: Bytes :: |g| == |h| && Fits(g) && !Less(h, g) ==> !Less(AddressOf(h), AddressOf(g))
  }

  /** For hashes of every length, make_addr keeps the order below a hash exactly when its count of ones fits a
      byte, or its address is the greatest one. */
  lemma OrderIsKeptExactly(h: Bytes)
    requires Fits(h)
    ensures KeepsOrderBelow(h) <==> Ones(h) <= 255 || AddressOf(h) == TopAddress()
  {
    if Ones(h) <= 255 {
      forall g: Bytes | |g| == |h| && Fits(g) && !Less(h, g)
        ensures !Less(AddressOf(h), AddressOf(g))
      {
        NoMoreOnes(g, h);
        OrderWithinBlock(g, h);
      }
    } else if AddressOf(h) == TopAddress() {
      forall g: Bytes | |g| == |h| && Fits(g) && !Less(h, g)
        ensures !Less(AddressOf(h), AddressOf(g))
      {
        TopIsGreatest(AddressOf(g));
      }
    } else {
      ManyOnesBreakOrder(h);
    }
  }

  lemma SecondByteStaysBelow(h: Bytes)
    requires |h| <= 78 && Fits(h) && Ones(h) > 255
    ensures AddressOf(h) != TopAddress()
  {
    SecondByte(h);
    assert TopAddress()[1] as int == 255;
    SecondBlock(Ones(h));
  }

  lemma SecondBlock(n: nat)
    requires 255 < n < 511
    ensures n % 256 < 255
  {
  }

  /** For hashes of up to 78 bytes, as the 64 of SHA-512, the second case does not arise. */
  lemma OrderIsKeptExactlyUpTo255Ones(h: Bytes)
    requires |h| <= 78 && Fits(h)
    ensures KeepsOrderBelow(h) <==> Ones(h) <= 255
  {
    OrderIsKeptExactly(h);
    if Ones(h) > 255 {
      SecondByteStaysBelow(h);
    }
  }
}
