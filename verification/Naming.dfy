/** Content-derived object names: a SHA-224 digest read as a big-endian number, written in
    base 36, and appended to a (possibly truncated) base.  The hash itself is opaque: a
    digest is any 28 bytes. */
module Naming {
  type Byte = b: int | 0 <= b < 256

  const DIGEST_LENGTH := 28
  const MAX_NAME_LENGTH := 63
  const MAX_HASH_LENGTH := 44

  type Digest = d: seq<Byte> | |d| == DIGEST_LENGTH witness seq(DIGEST_LENGTH, _ => 0)

  // ---- numbers ----

  function Pow(b: nat, e: nat): nat {
    if e == 0 then 1 else b * Pow(b, e - 1)
  }

  lemma {:induction false} PowAdd(b: nat, m: nat, n: nat)
    ensures Pow(b, m + n) == Pow(b, m) * Pow(b, n)
  {
    if m > 0 {
      PowAdd(b, m - 1, n);
      assert Pow(b, m + n) == b * (Pow(b, m - 1) * Pow(b, n));
      assert b * (Pow(b, m - 1) * Pow(b, n)) == (b * Pow(b, m - 1)) * Pow(b, n);
    }
  }

  lemma {:induction false} SquareLess(x: nat, y: nat)
    requires x < y
    ensures x * x < y * y
  {
    assert x * x <= x * y < y * y;
  }

  /** 224 bits fit in 44 base-36 digits. */
  lemma {:induction false} DigestRange()
    ensures Pow(256, DIGEST_LENGTH) < Pow(36, MAX_HASH_LENGTH)
  {
    assert Pow(256, 7) == 72057594037927936 by {
      assert Pow(256, 2) == 65536;
      assert Pow(256, 4) == 4294967296;
      assert Pow(256, 6) == 281474976710656;
    }
    assert Pow(36, 11) == 131621703842267136 by {
      assert Pow(36, 2) == 1296;
      assert Pow(36, 4) == 1679616;
      assert Pow(36, 6) == 2176782336;
      assert Pow(36, 8) == 2821109907456;
      assert Pow(36, 10) == 3656158440062976;
    }
    SquareLess(Pow(256, 7), Pow(36, 11));
    PowAdd(256, 7, 7);
    PowAdd(36, 11, 11);
    SquareLess(Pow(256, 14), Pow(36, 22));
    PowAdd(256, 14, 14);
    PowAdd(36, 22, 22);
  }

  // ---- bytes to number ----

  /** The number a byte string denotes, most significant byte first. */
  function BigEndian(b: seq<Byte>): nat {
    if b == [] then 0 else BigEndian(b[..|b| - 1]) * 256 + b[|b| - 1]
  }

  lemma {:induction false} BigEndianBound(b: seq<Byte>)
    ensures BigEndian(b) < Pow(256, |b|)
  {
    if b != [] {
      BigEndianBound(b[..|b| - 1]);
      assert Pow(256, |b|) == 256 * Pow(256, |b| - 1);
    }
  }

  /** Byte strings of one length are read apart. */
  lemma {:induction false} BigEndianInjective(a: seq<Byte>, b: seq<Byte>)
    requires |a| == |b| && BigEndian(a) == BigEndian(b)
    ensures a == b
  {
    if a != [] {
      var n := |a| - 1;
      BigEndianInjective(a[..n], b[..n]);
      assert a == a[..n] + [a[n]] && b == b[..n] + [b[n]];
    }
  }

  // ---- number to base-36 text ----

  function DigitChar(d: nat): char
    requires d < 36
  {
    if d < 10 then (48 + d) as char else (87 + d) as char
  }

  function DigitValue(c: char): int {
    if c as int < 58 then c as int - 48 else c as int - 87
  }

  function Base36(n: nat): (t: string)
    ensures |t| > 0 && '-' !in t
  {
    if n < 36 then [DigitChar(n)] else Base36(n / 36) + [DigitChar(n % 36)]
  }

  /** Positional reading, the inverse of Base36. */
  function ParseBase36(t: string): int {
    if t == "" then 0 else ParseBase36(t[..|t| - 1]) * 36 + DigitValue(t[|t| - 1])
  }

  lemma {:induction false} Base36RoundTrip(n: nat)
    ensures ParseBase36(Base36(n)) == n
  {
    var t := Base36(n);
    if n < 36 {
      assert t[..0] == "";
    } else {
      Base36RoundTrip(n / 36);
      assert t[..|t| - 1] == Base36(n / 36);
    }
  }

  lemma {:induction false} Base36Length(n: nat, k: nat)
    requires k > 0
    ensures |Base36(n)| <= k <==> n < Pow(36, k)
  {
    assert Pow(36, k) == 36 * Pow(36, k - 1);
    if k == 1 {
      assert Pow(36, 0) == 1;
    } else {
      Base36Length(n / 36, k - 1);
      PowPositive(36, k - 1);
    }
  }

  lemma {:induction false} PowPositive(b: nat, e: nat)
    requires b > 0
    ensures Pow(b, e) > 0
  {
    if e > 0 { PowPositive(b, e - 1); }
  }

  // ---- names ----

  /** util.DeepHashObject, once the hasher has produced its digest. */
  function HashText(digest: Digest): string {
    Base36(BigEndian(digest))
  }

  /** Digits and lower-case letters, with no zero in front of a longer text. */
  predicate Canonical(t: string) {
    && (forall i :: 0 <= i < |t| ==> '0' <= t[i] <= '9' || 'a' <= t[i] <= 'z')
    && (|t| > 1 ==> t[0] != '0')
  }

  lemma {:induction false} Base36Canonical(n: nat)
    ensures Canonical(Base36(n)) && (Base36(n)[0] == '0' ==> n == 0)
  {
    if n >= 36 { Base36Canonical(n / 36); }
  }

  /** Every 224-bit digest is written with 1 to 44 digits and lower-case letters, none of them a
      dash, and the text determines the digest. */
  lemma {:induction false} HashTextFacts(d: Digest, e: Digest)
    ensures 0 < |HashText(d)| <= MAX_HASH_LENGTH && '-' !in HashText(d) && Canonical(HashText(d))
    ensures HashText(d) == HashText(e) <==> d == e
  {
    BigEndianBound(d);
    Base36Canonical(BigEndian(d));
    DigestRange();
    Base36Length(BigEndian(d), MAX_HASH_LENGTH);
    Base36RoundTrip(BigEndian(d));
    Base36RoundTrip(BigEndian(e));
    if HashText(d) == HashText(e) { BigEndianInjective(d, e); }
  }

  lemma {:induction false} NoDashAfter(a: string, h: string)
    requires '-' !in h
    ensures forall i :: |a| < i < |a + "-" + h| ==> (a + "-" + h)[i] != '-'
  {
    var s := a + "-" + h;
    forall i | |a| < i < |s| ensures s[i] != '-' {
      assert s[i] == h[i - |a| - 1];
    }
  }

  lemma {:induction false} SuffixAfterDash(a: string, h: string, b: string, k: string)
    requires '-' !in h && '-' !in k
    requires a + "-" + h == b + "-" + k
    ensures a == b && h == k
  {
    var s := a + "-" + h;
    NoDashAfter(a, h);
    NoDashAfter(b, k);
    assert s[|a|] == '-' && s[|b|] == '-';
    assert a == s[..|a|] && b == s[..|b|];
    assert h == s[|a| + 1..] && k == s[|b| + 1..];
  }

  /** What generateName keeps of its base.  That the cut falls inside the base, for every base
      and digest, is the well-formedness of the slice. */
  function KeptBase(base: string, digest: Digest): (kept: string)
    ensures kept <= base
  {
    HashTextFacts(digest, digest);
    var hash := HashText(digest);
    if |base| + |hash| > MAX_NAME_LENGTH then base[..MAX_NAME_LENGTH - |hash| - 1] else base
  }

  /** convert.generateName. */
  function GenerateName(base: string, digest: Digest): string {
    KeptBase(base, digest) + "-" + HashText(digest)
  }

  /** Equal generated names come from equal digests, whatever the bases and the truncation. */
  lemma {:induction false} NamesDetermineDigests(b1: string, d1: Digest, b2: string, d2: Digest)
    requires GenerateName(b1, d1) == GenerateName(b2, d2)
    ensures d1 == d2
  {
    HashTextFacts(d1, d2);
    HashTextFacts(d2, d1);
    SuffixAfterDash(KeptBase(b1, d1), HashText(d1), KeptBase(b2, d2), HashText(d2));
  }

  /** Name lengths.  A truncated name is exactly the 63 characters a label may have (section
      2.3.4 of RFC 1035); an untruncated one is one character too long exactly when base and
      hash together are 63, because the guard does not count the dash. */
  lemma {:induction false} NameLength(base: string, digest: Digest)
    ensures var sum := |base| + |HashText(digest)|;
            var name := GenerateName(base, digest);
            && (sum > MAX_NAME_LENGTH ==> |name| == MAX_NAME_LENGTH && |base| > 18 && name[..18] == base[..18])
            && (sum <= MAX_NAME_LENGTH ==> name == base + "-" + HashText(digest))
            && (sum > MAX_NAME_LENGTH ==> exists kept :: kept <= base && name == kept + "-" + HashText(digest))
            && (|name| > MAX_NAME_LENGTH <==> sum == MAX_NAME_LENGTH)
            && |name| <= MAX_NAME_LENGTH + 1
  {
    HashTextFacts(digest, digest);
  }

  /** A base and digest for which the name exceeds the label limit: 62 characters and digest 0. */
  lemma {:induction false} OverlongNameExists()
    ensures exists base: string, digest: Digest :: |GenerateName(base, digest)| == MAX_NAME_LENGTH + 1
  {
    var base: string := seq(62, _ => 'a');
    var digest: Digest := seq(DIGEST_LENGTH, _ => 0);
    ZerosAreZero(digest);
    assert |HashText(digest)| == 1;
    NameLength(base, digest);
    assert |GenerateName(base, digest)| == MAX_NAME_LENGTH + 1;
  }

  lemma {:induction false} ZerosAreZero(b: seq<Byte>)
    requires forall i :: 0 <= i < |b| ==> b[i] == 0
    ensures BigEndian(b) == 0
  {
    if b != [] { ZerosAreZero(b[..|b| - 1]); }
  }
}
