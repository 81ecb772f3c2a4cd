/** Byte strings and the order that memcmp and both isBetter functions use: the first byte that differs
    decides, as unsigned numbers.  On strings of one length it is the order of the big-endian numbers. */
module ByteStrings {

  type Bytes = seq<bv8>

  /** a comes before b: memcmp(a, b, n) < 0 */
  predicate Less(a: Bytes, b: Bytes) {
    exists k :: 0 <= k < |a| && k < |b| && a[..k] == b[..k] && a[k] < b[k]
  }

  function Zeros(n: nat): (z: Bytes)
    ensures |z| == n
  {
    seq(n, _ => 0)
  }

  function AllOnes(n: nat): (s: Bytes)
    ensures |s| == n
  {
    seq(n, _ => 0xFF)
  }

  function Power256(n: nat): (p: nat)
    ensures p > 0
  {
    if n == 0 then 1 else 256 * Power256(n - 1)
  }

  /** The number a string denotes with its most significant byte first. */
  function BigEndian(s: Bytes): (v: nat)
    ensures v < Power256(|s|)
  {
    if s == [] then 0
    else
      DigitBound(s[0] as int, Power256(|s| - 1));
      (s[0] as int) * Power256(|s| - 1) + BigEndian(s[1..])
  }

  lemma DigitBound(d: nat, p: nat)
    requires d < 256
    ensures 0 <= d * p <= 255 * p
  {
  }

  /** The number a string denotes with its least significant byte first. */
  function LittleEndian(s: Bytes): (v: nat)
    ensures v < Power256(|s|)
  {
    if s == [] then 0 else s[0] as int + 256 * LittleEndian(s[1..])
  }

  lemma DiffersAbove(a: Bytes, b: Bytes, k: nat)
    requires k < |a| && k < |b| && a[..k] == b[..k] && a[k] > b[k]
    ensures !Less(a, b)
  {
  }

  lemma EqualPrefix(a: Bytes, b: Bytes)
    requires |b| <= |a| && a[..|b|] == b[..|b|]
    ensures !Less(a, b)
  {
  }

  lemma LessTail(a: Bytes, b: Bytes, k: nat)
    requires k < |a| && k < |b| && a[..k] == b[..k] && a[k] < b[k]
    ensures a[0] < b[0] || (a[0] == b[0] && Less(a[1..], b[1..]))
  {
    if k > 0 {
      assert a[0] == a[..k][0] == b[..k][0] == b[0];
      assert a[1..][..k - 1] == a[..k][1..] && b[1..][..k - 1] == b[..k][1..];
      assert a[1..][k - 1] < b[1..][k - 1];
    }
  }

  lemma LessCons(a: Bytes, b: Bytes)
    requires |a| > 0 && |b| > 0
    requires a[0] < b[0] || (a[0] == b[0] && Less(a[1..], b[1..]))
    ensures Less(a, b)
  {
    if a[0] < b[0] {
      assert a[..0] == b[..0];
    } else {
      var x, y := a[1..], b[1..];
      var k :| 0 <= k < |x| && k < |y| && x[..k] == y[..k] && x[k] < y[k];
      assert a[..k + 1] == [a[0]] + x[..k] && b[..k + 1] == [b[0]] + y[..k];
      assert a[k + 1] < b[k + 1];
    }
  }

  lemma LessUnfold(a: Bytes, b: Bytes)
    requires |a| > 0 && |b| > 0
    ensures Less(a, b) <==> a[0] < b[0] || (a[0] == b[0] && Less(a[1..], b[1..]))
  {
    if Less(a, b) {
      var k :| 0 <= k < |a| && k < |b| && a[..k] == b[..k] && a[k] < b[k];
      LessTail(a, b, k);
    }
    if a[0] < b[0] || (a[0] == b[0] && Less(a[1..], b[1..])) {
      LessCons(a, b);
    }
  }

  /** On strings of one length the byte order is the order of the numbers, and a number has one string. */
  lemma {:induction false} LessIffBigEndian(a: Bytes, b: Bytes)
    requires |a| == |b|
    ensures Less(a, b) <==> BigEndian(a) < BigEndian(b)
    ensures a == b <==> BigEndian(a) == BigEndian(b)
  {
    if a != [] {
      LessUnfold(a, b);
      SameByte(a[0], b[0]);
      LessIffBigEndian(a[1..], b[1..]);
      assert a == b <==> a[0] == b[0] && a[1..] == b[1..] by {
        assert a == [a[0]] + a[1..] && b == [b[0]] + b[1..];
      }
      LeadingDigit(a[0] as int, b[0] as int, Power256(|a| - 1), BigEndian(a[1..]), BigEndian(b[1..]));
    }
  }

  lemma LessIsTotal(a: Bytes, b: Bytes)
    requires |a| == |b|
    ensures a == b || Less(a, b) || Less(b, a)
  {
    LessIffBigEndian(a, b);
    LessIffBigEndian(b, a);
  }

  lemma SameByte(a: bv8, b: bv8)
    ensures a < b <==> (a as int) < (b as int)
    ensures a == b <==> a as int == b as int
  {
  }

  lemma {:induction false} DigitGap(d: nat, e: nat, p: nat)
    requires d < e
    ensures d * p + p <= e * p
  {
    if d + 1 < e {
      DigitGap(d, e - 1, p);
      assert e * p == (e - 1) * p + p;
    } else {
      assert e * p == d * p + p;
    }
  }

  lemma LeadingDigit(d: nat, e: nat, p: nat, x: nat, y: nat)
    requires x < p && y < p
    ensures d * p + x < e * p + y <==> d < e || (d == e && x < y)
    ensures d * p + x == e * p + y <==> d == e && x == y
  {
    if d < e {
      DigitGap(d, e, p);
    } else if e < d {
      DigitGap(e, d, p);
    }
  }

  /** No string is below a string of zeros. */
  lemma {:induction false} ZerosAreLeast(n: nat)
    ensures BigEndian(Zeros(n)) == 0
  {
    if n > 0 {
      assert Zeros(n)[1..] == Zeros(n - 1);
      ZerosAreLeast(n - 1);
    }
  }

  /** No string of the same length is above a string of ones. */
  lemma OnesAreGreatest(s: Bytes)
    ensures BigEndian(s) <= BigEndian(AllOnes(|s|))
  {
    LessIffBigEndian(AllOnes(|s|), s);
  }

  lemma {:induction false} LittleEndianAppend(a: Bytes, b: Bytes)
    ensures LittleEndian(a + b) == LittleEndian(a) + Power256(|a|) * LittleEndian(b)
  {
    if a == [] {
      assert a + b == b;
    } else {
      assert (a + b)[1..] == a[1..] + b;
      LittleEndianAppend(a[1..], b);
      Distribute(a[0] as int, LittleEndian(a[1..]), Power256(|a| - 1), LittleEndian(b));
    }
  }

  lemma Distribute(d: int, x: int, p: int, v: int)
    ensures d + 256 * (x + p * v) == (d + 256 * x) + (256 * p) * v
  {
  }

  lemma {:induction false} LittleEndianInjective(a: Bytes, b: Bytes)
    requires |a| == |b| && LittleEndian(a) == LittleEndian(b)
    ensures a == b
  {
    if a != [] {
      SameByte(a[0], b[0]);
      LittleEndianInjective(a[1..], b[1..]);
      assert a == [a[0]] + a[1..] && b == [b[0]] + b[1..];
    }
  }
}
