/**
 * The session key exchange: Diffie-Hellman over the Second Oakley Group (section 6.2 of RFC 2409),
 * with the shared secret written out at the full width of the modulus.
 */
module KeyAgreement {
  import opened Arithmetic
  import opened Wrappers
  import opened Utf8

  const PRIME: nat :=
    0xFFFFFFFFFFFFFFFFC90FDAA22168C234C4C6628B80DC1CD129024E088A67CC74020BBEA63B139B22514A08798E3404DDEF9519B3CD3A431B302B0A6DF25F14374FE1356D6D51C245E485B576625E7EC6F44C42E9A637ED6B0BFF5CB6F406B7EDEE386BFB5A899FA5AE9F24117C4B1FE649286651ECE65381FFFFFFFFFFFFFFFF

  const GENERATOR: nat := 2

  function Pow(b: nat, e: nat): nat {
    if e == 0 then 1 else b * Pow(b, e - 1)
  }

  function ModPow(b: nat, e: nat, p: nat): (r: nat)
    requires p > 0
    ensures r < p
  {
    Pow(b, e) % p
  }

  // ---- both sides agree --------------------------------------------------------------------

  lemma {:induction false} PowAdd(b: nat, e: nat, f: nat)
    ensures Pow(b, e + f) == Pow(b, e) * Pow(b, f)
  {
    if e == 0 {
    } else {
      PowAdd(b, e - 1, f);
      MulAssoc(b, Pow(b, e - 1), Pow(b, f));
    }
  }

  lemma {:induction false} MulAssoc(a: int, b: int, c: int)
    ensures a * b * c == a * (b * c)
  {
  }

  lemma {:induction false} PowPow(b: nat, e: nat, f: nat)
    ensures Pow(Pow(b, e), f) == Pow(b, e * f)
  {
    if f > 0 {
      PowPow(b, e, f - 1);
      PowAdd(b, e, e * (f - 1));
      assert e * f == e + e * (f - 1);
    } else {
      assert e * f == 0;
    }
  }

  /** Reducing the factors first does not change a product's remainder. */
  lemma {:induction false} ReduceFactor(a: nat, c: nat, p: nat)
    requires p > 0
    ensures (a % p) * c % p == a * c % p
  {
    var q := a / p;
    assert a == p * q + a % p;
    assert a * c == (a % p) * c + p * (q * c) by {
      assert a * c == (p * q + a % p) * c == p * q * c + (a % p) * c;
      MulAssoc(p, q, c);
    }
    RemainderIgnoresMultiple((a % p) * c, q * c, p);
  }

  lemma {:induction false} RemainderIgnoresMultiple(n: nat, k: nat, p: nat)
    requires p > 0
    ensures (n + p * k) % p == n % p
    decreases k
  {
    if k > 0 {
      RemainderIgnoresMultiple(n, k - 1, p);
      assert p * k == p * (k - 1) + p;
      RemainderAddOnce(n + p * (k - 1), p);
    } else {
      assert p * k == 0;
    }
  }

  lemma {:induction false} RemainderAddOnce(n: nat, p: nat)
    requires p > 0
    ensures (n + p) % p == n % p
  {
    var q, q' := n / p, (n + p) / p;
    assert p * (q + 1) == p * q + p;
    SameQuotient(p, q + 1, n % p, q', (n + p) % p);
  }

  lemma {:induction false} SameQuotient(p: nat, q: nat, r: nat, q': nat, r': nat)
    requires p * q + r == p * q' + r' && r < p && r' < p
    ensures q == q' && r == r'
  {
    if q < q' {
      NextMultiple(p, q, q');
    } else if q' < q {
      NextMultiple(p, q', q);
    }
  }

  lemma {:induction false} NextMultiple(p: nat, a: nat, b: nat)
    requires a < b
    ensures p * a + p <= p * b
  {
    assert p * b == p * a + p * (b - a);
    assert p * (b - a) == p * (b - a - 1) + p;
  }

  lemma {:induction false} ModPowReducesBase(b: nat, e: nat, p: nat)
    requires p > 0
    ensures ModPow(b % p, e, p) == ModPow(b, e, p)
  {
    if e == 0 {
    } else {
      var x := b % p;
      ModPowReducesBase(b, e - 1, p);
      // x * x^(e-1) and b * b^(e-1) leave what x * (b^(e-1) mod p) leaves.
      ReduceFactor(Pow(x, e - 1), x, p);
      ReduceFactor(Pow(b, e - 1), x, p);
      ReduceFactor(b, Pow(b, e - 1), p);
      assert x * Pow(x, e - 1) == Pow(x, e - 1) * x;
      assert x * Pow(b, e - 1) == Pow(b, e - 1) * x;
    }
  }

  /** For all private exponents both sides compute the same shared value. */
  lemma {:induction false} SidesAgree(g: nat, a: nat, b: nat, p: nat)
    requires p > 0
    ensures ModPow(ModPow(g, a, p), b, p) == ModPow(ModPow(g, b, p), a, p)
    ensures ModPow(ModPow(g, a, p), b, p) == ModPow(g, a * b, p)
  {
    ModPowReducesBase(Pow(g, a), b, p);
    ModPowReducesBase(Pow(g, b), a, p);
    PowPow(g, a, b);
    PowPow(g, b, a);
    assert a * b == b * a;
  }

  // ---- the fixed-width encoding ------------------------------------------------------------

  /** Big-endian bytes without leading zeroes, except that zero is one zero byte. */
  function ToBytesBe(n: nat): (bs: Bytes)
    ensures bs != []
  {
    if n < 256 then [n as Byte] else ToBytesBe(n / 256) + [(n % 256) as Byte]
  }

  function FromBytesBe(bs: Bytes): nat {
    if bs == [] then 0 else 256 * FromBytesBe(bs[..|bs| - 1]) + bs[|bs| - 1] as int
  }

  function Bits(n: nat): nat {
    if n == 0 then 0 else 1 + Bits(n / 2)
  }

  /** The number of whole bytes the modulus takes. */
  function WidthOf(p: nat): nat {
    (Bits(p) + 7) / 8
  }

  function Zeros(n: nat): (bs: Bytes)
    ensures |bs| == n && forall i :: 0 <= i < n ==> bs[i] == 0
  {
    seq(n, _ => 0)
  }

  /** A number at a fixed width, padded with zeroes on the left. */
  function Padded(n: nat, width: nat): Bytes
    requires |ToBytesBe(n)| <= width
  {
    Zeros(width - |ToBytesBe(n)|) + ToBytesBe(n)
  }

  lemma {:induction false} FromTo(n: nat)
    ensures FromBytesBe(ToBytesBe(n)) == n
  {
    var bs := ToBytesBe(n);
    if n >= 256 {
      FromTo(n / 256);
      assert bs[..|bs| - 1] == ToBytesBe(n / 256);
    } else {
      assert bs[..0] == [];
    }
  }

  lemma {:induction false} LeadingZerosVanish(k: nat, bs: Bytes)
    ensures FromBytesBe(Zeros(k) + bs) == FromBytesBe(bs)
  {
    var all := Zeros(k) + bs;
    if bs != [] {
      assert all[..|all| - 1] == Zeros(k) + bs[..|bs| - 1];
      LeadingZerosVanish(k, bs[..|bs| - 1]);
    } else if k > 0 {
      assert all[..|all| - 1] == Zeros(k - 1) + [];
      LeadingZerosVanish(k - 1, []);
    }
  }

  /** The padded encoding is as wide as asked for and decodes back. */
  lemma {:induction false} PaddedRoundTrip(n: nat, width: nat)
    requires |ToBytesBe(n)| <= width
    ensures |Padded(n, width)| == width && FromBytesBe(Padded(n, width)) == n
  {
    LeadingZerosVanish(width - |ToBytesBe(n)|, ToBytesBe(n));
    FromTo(n);
  }

  lemma {:induction false} BitsMonotone(m: nat, n: nat)
    requires m <= n
    ensures Bits(m) <= Bits(n)
  {
    if m == 0 {
    } else {
      BitsMonotone(m / 2, n / 2);
    }
  }

  lemma {:induction false} BitsOfByteShift(n: nat)
    requires n >= 256
    ensures Bits(n) == 8 + Bits(n / 256)
  {
    assert Bits(n) == 4 + Bits(n / 2 / 2 / 2 / 2) by {
      assert Bits(n) == 1 + Bits(n / 2) == 2 + Bits(n / 2 / 2);
      assert Bits(n / 2 / 2) == 1 + Bits(n / 2 / 2 / 2) == 2 + Bits(n / 2 / 2 / 2 / 2);
    }
    var m := n / 2 / 2 / 2 / 2;
    assert m == n / 16;
    assert Bits(m) == 4 + Bits(m / 2 / 2 / 2 / 2) by {
      assert Bits(m) == 1 + Bits(m / 2) == 2 + Bits(m / 2 / 2);
      assert Bits(m / 2 / 2) == 1 + Bits(m / 2 / 2 / 2) == 2 + Bits(m / 2 / 2 / 2 / 2);
    }
    assert m / 2 / 2 / 2 / 2 == n / 256;
  }

  lemma {:induction false} BitsOfByte(n: nat)
    requires 0 < n < 256
    ensures 1 <= Bits(n) <= 8
  {
    BitsMonotone(n, 255);
    assert Bits(255) == 1 + Bits(127) == 2 + Bits(63) == 3 + Bits(31) == 4 + Bits(15);
    assert Bits(15) == 1 + Bits(7) == 2 + Bits(3) == 3 + Bits(1) == 4;
  }

  /** Bytes and bits count the same width. */
  lemma {:induction false} BytesMatchBits(n: nat)
    requires n > 0
    ensures |ToBytesBe(n)| == WidthOf(n)
  {
    if n < 256 {
      BitsOfByte(n);
    } else {
      BytesMatchBits(n / 256);
      BitsOfByteShift(n);
    }
  }

  /** A value below the modulus always fits its width, so the width check never fails. */
  lemma {:induction false} SharedFits(n: nat, p: nat)
    requires n < p && p > 1
    ensures |ToBytesBe(n)| <= WidthOf(p)
  {
    BytesMatchBits(p);
    if n > 0 {
      BytesMatchBits(n);
      BitsMonotone(n, p);
    } else {
      assert |ToBytesBe(0)| == 1 <= |ToBytesBe(p)|;
    }
  }

  /** Below the modulus, the fixed-width encoding loses nothing. */
  lemma {:induction false} PaddedInjective(m: nat, n: nat, p: nat)
    requires m < p && n < p && p > 1
    requires |ToBytesBe(m)| <= WidthOf(p) && |ToBytesBe(n)| <= WidthOf(p)
    ensures Padded(m, WidthOf(p)) == Padded(n, WidthOf(p)) ==> m == n
  {
    PaddedRoundTrip(m, WidthOf(p));
    PaddedRoundTrip(n, WidthOf(p));
  }

  // ---- the session -------------------------------------------------------------------------

  /** A derived session key is determined by the bytes it is derived from. */
  datatype SessionKey = SessionKey(secret: Bytes)

  class DhSession {
    const privateKey: nat
    const prime: nat
    const publicKey: nat

    ghost predicate Valid() {
      prime > 1 && publicKey == ModPow(GENERATOR, privateKey, prime)
    }

    /** `random` are the bytes drawn for the private exponent. */
    constructor (random: Bytes)
      ensures Valid() && prime == PRIME
    {
      prime := PRIME;
      privateKey := FromBytesBe(random) % PRIME;
      publicKey := ModPow(GENERATOR, FromBytesBe(random) % PRIME, PRIME);
    }

    method DeriveSessionKey(peerPublic: nat) returns (r: Option<SessionKey>)
      requires Valid()
      ensures r.Some? && |r.value.secret| == WidthOf(prime)
      ensures FromBytesBe(r.value.secret) == ModPow(peerPublic, privateKey, prime)
    {
      var shared := ModPow(peerPublic, privateKey, prime);
      var modulusLen := (Bits(prime) + 7) / 8;
      var sharedBytes := new Byte[modulusLen](_ => 0);
      var raw := ToBytesBe(shared);
      if |raw| > modulusLen {
        SharedFits(shared, prime);
        return None;
      }
      var start := modulusLen - |raw|;
      forall i | start <= i < modulusLen {
        sharedBytes[i] := raw[i - start];
      }
      assert sharedBytes[..] == Padded(shared, modulusLen);
      PaddedRoundTrip(shared, modulusLen);
      r := Some(SessionKey(sharedBytes[..]));
    }
  }

  /** Two numbers at one width are the same bytes exactly when they are the same number. */
  lemma {:induction false} FromBytesInjective(a: Bytes, b: Bytes)
    requires |a| == |b| && FromBytesBe(a) == FromBytesBe(b)
    ensures a == b
  {
    if a == [] {
    } else {
      var n := |a| - 1;
      FromBytesInjective(a[..n], b[..n]);
      assert a == a[..n] + [a[n]] && b == b[..n] + [b[n]];
    }
  }

  /** Two sessions that exchange their public values derive the same key. */
  method Exchange(alice: DhSession, bob: DhSession) returns (a: Option<SessionKey>, b: Option<SessionKey>)
    requires alice.Valid() && bob.Valid() && alice.prime == bob.prime
    ensures a == b && a.Some?
  {
    a := alice.DeriveSessionKey(bob.publicKey);
    b := bob.DeriveSessionKey(alice.publicKey);
    SidesAgree(GENERATOR, alice.privateKey, bob.privateKey, alice.prime);
    FromBytesInjective(a.value.secret, b.value.secret);
  }

  // ---- the group's width -------------------------------------------------------------------

  lemma {:induction false} BitsBetween(n: nat, e: nat)
    requires Pow2(e) <= n < 2 * Pow2(e)
    ensures Bits(n) == e + 1
  {
    if e > 0 {
      BitsBetween(n / 2, e - 1);
    } else {
      assert n == 1 && Bits(0) == 0;
    }
  }

  lemma {:induction false} Pow2Add(e: nat, f: nat)
    ensures Pow2(e + f) == Pow2(e) * Pow2(f)
  {
    if e == 0 {
    } else {
      Pow2Add(e - 1, f);
      MulAssoc(2, Pow2(e - 1), Pow2(f));
    }
  }

  lemma {:induction false} Pow2Double(e: nat, value: nat)
    requires Pow2(e) == value
    ensures Pow2(e + e) == value * value
  {
    Pow2Add(e, e);
  }

  /** The group's modulus is 1024 bits wide, so shared secrets are 128 bytes. */
  lemma {:induction false} PrimeWidth()
    ensures Bits(PRIME) == 1024 && WidthOf(PRIME) == 128
  {
    assert Pow2(8) == 256 by {
      assert Pow2(4) == 16;
      Pow2Double(4, 16);
    }
    Pow2Double(8, 256);
    Pow2Double(16, 0x10000);
    Pow2Double(32, 0x100000000);
    Pow2Double(64, 0x10000000000000000);
    Pow2Double(128, 0x100000000000000000000000000000000);
    Pow2Double(256, 0x10000000000000000000000000000000000000000000000000000000000000000);
    Pow2Double(512, 0x100000000000000000000000000000000000000000000000000000000000000000000000000000000000000000000000000000000000000000000000000000000);
    assert Pow2(1024) == 2 * Pow2(1023);
    BitsBetween(PRIME, 1023);
  }
}
