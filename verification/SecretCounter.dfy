/** The secret that both search tools count up: bytes 1 up to but not including the last are a little-endian
    counter; the first and the last byte, which carry the clamping bits, never take part. */
module SecretCounter {
  import opened ByteStrings

  /** The counter bytes of a secret. */
  function Middle(secret: Bytes): (digits: Bytes)
    requires |secret| >= 2
  {
    secret[1..|secret| - 1]
  }

  /** Add one with a carry that stops at the first byte that does not wrap. */
  function Carry(digits: Bytes): (r: Bytes)
    ensures |r| == |digits|
  {
    if digits == [] then []
    else if digits[0] + 1 != 0 then [digits[0] + 1] + digits[1..]
    else [0] + Carry(digits[1..])
  }

  function NextSecret(secret: Bytes): (r: Bytes)
    requires |secret| >= 2
    ensures |r| == |secret|
  {
    [secret[0]] + Carry(Middle(secret)) + [secret[|secret| - 1]]
  }

  /** What the secret looks like when the carry has wrapped the counter bytes before byte j. */
  function Carried(secret: Bytes, j: nat): (r: Bytes)
    requires 1 <= j < |secret|
    ensures |r| == |secret|
  {
    [secret[0]] + Zeros(j - 1) + secret[j..]
  }

  ghost predicate CarriedTo(secret: Bytes, j: nat) {
    1 <= j < |secret| &&
    Carry(Middle(secret)) == Zeros(j - 1) + Carry(secret[j..|secret| - 1])
  }

  lemma CarryStops(secret: Bytes, j: nat)
    requires CarriedTo(secret, j) && j < |secret| - 1 && secret[j] + 1 != 0
    ensures NextSecret(secret) == Carried(secret, j)[j := secret[j] + 1]
  {
    var digits, last := secret[j..|secret| - 1], secret[|secret| - 1];
    Regroup(secret[0], Zeros(j - 1), digits[0] + 1, digits[1..], last);
    assert digits[1..] + [last] == secret[j..][1..];
    UpdatesAfter([secret[0]] + Zeros(j - 1), secret[j..], secret[j] + 1);
  }

  lemma Regroup(first: bv8, zeros: Bytes, b: bv8, digits: Bytes, last: bv8)
    ensures [first] + (zeros + ([b] + digits)) + [last] == [first] + zeros + ([b] + (digits + [last]))
  {
  }

  lemma UpdatesAfter(front: Bytes, rest: Bytes, b: bv8)
    requires rest != []
    ensures (front + rest)[|front| := b] == front + ([b] + rest[1..])
  {
  }

  lemma CarryRunsOut(secret: Bytes)
    requires |secret| >= 2 && CarriedTo(secret, |secret| - 1)
    ensures NextSecret(secret) == Carried(secret, |secret| - 1)
  {
  }

  lemma CarryContinues(secret: Bytes, j: nat)
    requires CarriedTo(secret, j) && j < |secret| - 1 && secret[j] + 1 == 0
    ensures CarriedTo(secret, j + 1) && Carried(secret, j + 1) == Carried(secret, j)[j := 0]
  {
    assert secret[j..|secret| - 1][1..] == secret[j + 1..|secret| - 1];
    assert Zeros(j - 1) + [0] == Zeros(j);
  }

  /** The loop `for (j = 1; j < 31; ++j) if (++sk[j]) break;`, for a secret of any length. */
  method Increment(sk: array<bv8>)
    requires sk.Length >= 2
    modifies sk
    ensures sk[..] == NextSecret(old(sk[..]))
  {
    ghost var was := sk[..];
    var j := 1;
    while j < sk.Length - 1
      invariant CarriedTo(was, j) && |was| == sk.Length && sk[..] == Carried(was, j)
    {
      assert sk[j] == was[j];
      sk[j] := sk[j] + 1;
      if sk[j] != 0 {
        CarryStops(was, j);
        return;
      }
      CarryContinues(was, j);
      j := j + 1;
    }
    CarryRunsOut(was);
  }

  lemma WrapsAt255(b: bv8)
    ensures b + 1 != 0 ==> (b + 1) as int == b as int + 1
    ensures b + 1 == 0 ==> b as int == 255
  {
  }

  lemma {:induction false} CarryAddsOne(digits: Bytes)
    ensures LittleEndian(Carry(digits)) ==
            if LittleEndian(digits) + 1 == Power256(|digits|) then 0 else LittleEndian(digits) + 1
  {
    if digits != [] {
      WrapsAt255(digits[0]);
      if digits[0] + 1 != 0 {
        assert Carry(digits)[1..] == digits[1..];
      } else {
        CarryAddsOne(digits[1..]);
        assert Carry(digits)[1..] == Carry(digits[1..]);
      }
    }
  }

  lemma NextSecretParts(secret: Bytes)
    requires |secret| >= 2
    ensures NextSecret(secret)[0] == secret[0]
    ensures NextSecret(secret)[|secret| - 1] == secret[|secret| - 1]
    ensures Middle(NextSecret(secret)) == Carry(Middle(secret))
  {
  }

  function Advanced(secret: Bytes, steps: nat): (r: Bytes)
    requires |secret| >= 2
    ensures |r| == |secret|
  {
    if steps == 0 then secret else NextSecret(Advanced(secret, steps - 1))
  }

  lemma ModOf(x: int, q: int, r: int, m: int)
    requires m > 0 && 0 <= r < m && x == q * m + r
    ensures x % m == r
  {
    var d := x / m - q;
    assert d * m == r - x % m by {
      assert x == (x / m) * m + x % m;
      assert (x / m - q) * m == (x / m) * m - q * m;
    }
    assert d >= 1 ==> d * m >= m;
    assert d <= -1 ==> d * m <= -m;
  }

  lemma ModNext(x: int, m: int)
    requires m > 0
    ensures (x + 1) % m == if x % m + 1 == m then 0 else x % m + 1
  {
    var q, r := x / m, x % m;
    assert x == q * m + r;
    if r + 1 == m {
      assert x + 1 == (q + 1) * m + 0;
      ModOf(x + 1, q + 1, 0, m);
    } else {
      ModOf(x + 1, q, r + 1, m);
    }
  }

  function Counted(digits: Bytes, steps: nat): (r: Bytes)
    ensures |r| == |digits|
  {
    if steps == 0 then digits else Carry(Counted(digits, steps - 1))
  }

  lemma {:induction false} CountedAddsSteps(digits: Bytes, steps: nat)
    ensures LittleEndian(Counted(digits, steps)) == (LittleEndian(digits) + steps) % Power256(|digits|)
  {
    if steps == 0 {
      ModOf(LittleEndian(digits), 0, LittleEndian(digits), Power256(|digits|));
    } else {
      CountedAddsSteps(digits, steps - 1);
      CarryAddsOne(Counted(digits, steps - 1));
      ModNext(LittleEndian(digits) + (steps - 1), Power256(|digits|));
    }
  }

  lemma {:induction false} AdvancedParts(secret: Bytes, steps: nat)
    requires |secret| >= 2
    ensures Advanced(secret, steps)[0] == secret[0]
    ensures Advanced(secret, steps)[|secret| - 1] == secret[|secret| - 1]
    ensures Middle(Advanced(secret, steps)) == Counted(Middle(secret), steps)
  {
    if steps > 0 {
      AdvancedParts(secret, steps - 1);
      NextSecretParts(Advanced(secret, steps - 1));
    }
  }

  /** Any number of increments adds that number modulo 256^(length - 2), 256^30 for the 32-byte secrets, and
      leaves the first and the last byte alone. */
  lemma AdvancedAddsSteps(secret: Bytes, steps: nat)
    requires |secret| >= 2
    ensures Advanced(secret, steps)[0] == secret[0]
    ensures Advanced(secret, steps)[|secret| - 1] == secret[|secret| - 1]
    ensures LittleEndian(Middle(Advanced(secret, steps))) ==
            (LittleEndian(Middle(secret)) + steps) % Power256(|secret| - 2)
  {
    AdvancedParts(secret, steps);
    CountedAddsSteps(Middle(secret), steps);
  }

  lemma ModDiffers(x: int, d: int, m: int)
    requires 0 < d < m
    ensures (x + d) % m != x % m
  {
    var q, r := x / m, x % m;
    assert x == q * m + r;
    if r + d < m {
      ModOf(x + d, q, r + d, m);
    } else {
      assert x + d == (q + 1) * m + (r + d - m);
      ModOf(x + d, q + 1, r + d - m, m);
    }
  }

  lemma CountedRecurs(digits: Bytes, i: nat, j: nat)
    requires i < j <= i + Power256(|digits|)
    ensures Counted(digits, i) == Counted(digits, j) <==> j == i + Power256(|digits|)
  {
    var m, v := Power256(|digits|), LittleEndian(digits);
    CountedAddsSteps(digits, i);
    CountedAddsSteps(digits, j);
    if j < i + m {
      ModDiffers(v + i, j - i, m);
    } else {
      ModPeriod(v + i, m);
      LittleEndianInjective(Counted(digits, i), Counted(digits, j));
    }
  }

  lemma ModPeriod(x: int, m: int)
    requires m > 0
    ensures (x + m) % m == x % m
  {
    var q, r := x / m, x % m;
    assert x + m == (q + 1) * m + r;
    ModOf(x + m, q + 1, r, m);
  }

  lemma SameParts(a: Bytes, b: Bytes)
    requires |a| == |b| >= 2 && a[0] == b[0] && a[|a| - 1] == b[|b| - 1]
    ensures a == b <==> Middle(a) == Middle(b)
  {
  }

  /** No secret comes back before the counter has gone all the way round; then it does. */
  lemma SecretsRecurExactlyByPeriod(secret: Bytes, i: nat, j: nat)
    requires |secret| >= 2 && i < j <= i + Power256(|secret| - 2)
    ensures Advanced(secret, i) == Advanced(secret, j) <==> j == i + Power256(|secret| - 2)
  {
    AdvancedParts(secret, i);
    AdvancedParts(secret, j);
    SameParts(Advanced(secret, i), Advanced(secret, j));
    CountedRecurs(Middle(secret), i, j);
  }

  /** The bits section 5 of RFC 7748 asks of an X25519 scalar: the low three clear, the top one clear, the one
      below it set. */
  predicate Clamped(secret: Bytes)
    requires |secret| >= 2
  {
    secret[0] & 7 == 0 && secret[|secret| - 1] & 0xC0 == 0x40
  }

  function Clamp(random: Bytes): (r: Bytes)
    requires |random| >= 2
    ensures |r| == |random|
  {
    random[0 := random[0] & 248][|random| - 1 := (random[|random| - 1] & 127) | 64]
  }

  /** seed(), with the random bytes as an argument. */
  method Seed(sk: array<bv8>, random: Bytes)
    requires sk.Length == |random| >= 2
    modifies sk
    ensures sk[..] == Clamp(random)
  {
    forall i | 0 <= i < sk.Length {
      sk[i] := random[i];
    }
    sk[0] := sk[0] & 248;
    sk[sk.Length - 1] := sk[sk.Length - 1] & 127;
    sk[sk.Length - 1] := sk[sk.Length - 1] | 64;
  }

  /** seed() yields a clamped secret, changes nothing that is clamped already, and leaves all the other bits alone. */
  lemma ClampClamps(random: Bytes)
    requires |random| >= 2
    ensures Clamped(Clamp(random))
    ensures Clamp(random) == random <==> Clamped(random)
    ensures forall i :: 0 < i < |random| - 1 ==> Clamp(random)[i] == random[i]
    ensures Clamp(random)[0] & 248 == random[0] & 248
    ensures Clamp(random)[|random| - 1] & 0x3F == random[|random| - 1] & 0x3F
    ensures Middle(Clamp(random)) == Middle(random)
  {
  }

  lemma {:induction false} AdvancedStaysClamped(secret: Bytes, steps: nat)
    requires |secret| >= 2
    ensures Clamped(Advanced(secret, steps)) <==> Clamped(secret)
  {
    AdvancedParts(secret, steps);
  }

  lemma ClampBits(b: bv8)
    ensures b & 7 == 0 <==> b as int % 8 == 0
    ensures b & 0xC0 == 0x40 <==> 64 <= b as int < 128
  {
  }

  lemma {:induction false} LowByteModEight(secret: Bytes)
    requires |secret| > 0
    ensures LittleEndian(secret) % 8 == secret[0] as int % 8
  {
    var d, x := secret[0] as int, LittleEndian(secret[1..]);
    assert LittleEndian(secret) == d + 256 * x;
    EightDivides(d, x);
  }

  lemma EightDivides(d: int, x: int)
    ensures (d + 256 * x) % 8 == d % 8
  {
    ModOf(d + 256 * x, 32 * x + d / 8, d % 8, 8);
  }

  lemma ScaleBounds(low: nat, d: nat, p: nat)
    requires low < p
    ensures 64 * p <= low + p * d < 128 * p <==> 64 <= d < 128
  {
  }

  /** Clamping as numbers: a multiple of the cofactor 8 between 2^254 and 2^255 for 32 bytes. */
  lemma ClampedScalars(secret: Bytes)
    requires |secret| >= 2
    ensures var p := Power256(|secret| - 1);
            Clamped(secret) <==> LittleEndian(secret) % 8 == 0 && 64 * p <= LittleEndian(secret) < 128 * p
  {
    var n := |secret| - 1;
    var low, top := secret[..n], secret[n];
    assert secret == low + [top];
    LittleEndianAppend(low, [top]);
    assert LittleEndian([top]) == top as int;
    ClampBits(secret[0]);
    ClampBits(top);
    LowByteModEight(secret);
    ScaleBounds(LittleEndian(low), top as int, Power256(n));
  }
}
