/** The FNV-1a hash of a flow key, and why keys that differ in a single byte never collide. */
module FlowKeyHash {
  import opened Numbers
  import opened Events

  const FNV_OFFSET: u64 := 14695981039346656037
  const FNV_PRIME: u64 := 1099511628211

  /** The inverse of the prime modulo 2^64. */
  const FNV_INVERSE: u64 := 14886173955864302971

  function Mix(h: u64, b: u8): u64 {
    Wrap64(Xor(h, b) * FNV_PRIME)
  }

  function HashBytes(h: u64, bytes: seq<u8>): u64
    decreases |bytes|
  {
    if bytes == [] then h else HashBytes(Mix(h, bytes[0]), bytes[1..])
  }

  /** The key's fields as 37 bytes, most significant byte first. */
  function Encoding(k: FlowKey): seq<u8> {
    k.srcIp + k.dstIp + [k.srcPort / 256, k.srcPort % 256, k.dstPort / 256, k.dstPort % 256, k.protocol]
  }

  lemma {:induction false} HashConcat(h: u64, a: seq<u8>, b: seq<u8>)
    ensures HashBytes(h, a + b) == HashBytes(HashBytes(h, a), b)
    decreases |a|
  {
    if a == [] {
      assert a + b == b;
    } else {
      assert (a + b)[0] == a[0] && (a + b)[1..] == a[1..] + b;
      HashConcat(Mix(h, a[0]), a[1..], b);
    }
  }

  lemma HashSnoc(h: u64, a: seq<u8>, b: u8)
    ensures HashBytes(h, a + [b]) == Mix(HashBytes(h, a), b)
  {
    HashConcat(h, a, [b]);
  }

  method Hash(k: FlowKey) returns (h: u64)
    ensures h == HashBytes(FNV_OFFSET, Encoding(k))
  {
    h := FNV_OFFSET;
    var i := 0;
    while i < |k.srcIp|
      invariant 0 <= i <= |k.srcIp| && h == HashBytes(FNV_OFFSET, k.srcIp[..i])
    {
      assert k.srcIp[..i + 1] == k.srcIp[..i] + [k.srcIp[i]];
      HashSnoc(FNV_OFFSET, k.srcIp[..i], k.srcIp[i]);
      h := Mix(h, k.srcIp[i]);
      i := i + 1;
    }
    assert k.srcIp[..i] == k.srcIp;
    ghost var half := h;
    i := 0;
    while i < |k.dstIp|
      invariant 0 <= i <= |k.dstIp| && h == HashBytes(half, k.dstIp[..i])
    {
      assert k.dstIp[..i + 1] == k.dstIp[..i] + [k.dstIp[i]];
      HashSnoc(half, k.dstIp[..i], k.dstIp[i]);
      h := Mix(h, k.dstIp[i]);
      i := i + 1;
    }
    assert k.dstIp[..i] == k.dstIp;
    ghost var addresses := h;
    h := Mix(h, k.srcPort / 256);
    h := Mix(h, k.srcPort % 256);
    h := Mix(h, k.dstPort / 256);
    h := Mix(h, k.dstPort % 256);
    h := Mix(h, k.protocol);
    FiveMixed(addresses, k.srcPort / 256, k.srcPort % 256, k.dstPort / 256, k.dstPort % 256, k.protocol);
    HashConcat(FNV_OFFSET, k.srcIp + k.dstIp,
               [k.srcPort / 256, k.srcPort % 256, k.dstPort / 256, k.dstPort % 256, k.protocol]);
    HashConcat(FNV_OFFSET, k.srcIp, k.dstIp);
  }

  lemma FiveMixed(h: u64, a: u8, b: u8, c: u8, d: u8, e: u8)
    ensures HashBytes(h, [a, b, c, d, e]) == Mix(Mix(Mix(Mix(Mix(h, a), b), c), d), e)
  {
    HashSnoc(h, [], a);
    HashSnoc(h, [a], b);
    HashSnoc(h, [a, b], c);
    HashSnoc(h, [a, b, c], d);
    HashSnoc(h, [a, b, c, d], e);
    assert [] + [a] == [a] && [a] + [b] == [a, b] && [a, b] + [c] == [a, b, c];
    assert [a, b, c] + [d] == [a, b, c, d] && [a, b, c, d] + [e] == [a, b, c, d, e];
  }

  // ---------------------------------------------------------------- every mixing step is a bijection

  /** The low bit of an exclusive or, and what is above it. */
  lemma XorBits(a: nat, b: nat)
    ensures Xor(a, b) % 2 == (if a % 2 != b % 2 then 1 else 0)
    ensures Xor(a, b) / 2 == Xor(a / 2, b / 2)
  {
  }

  lemma {:induction false} XorCommutes(a: nat, b: nat)
    ensures Xor(a, b) == Xor(b, a)
    decreases a + b
  {
    if a > 0 || b > 0 {
      XorCommutes(a / 2, b / 2);
    }
  }

  lemma {:induction false} XorUndone(a: nat, b: nat)
    ensures Xor(Xor(a, b), b) == a
    decreases a + b
  {
    if a > 0 || b > 0 {
      hide Xor;
      XorUndone(a / 2, b / 2);
      XorBits(a, b);
      XorBits(Xor(a, b), b);
    }
  }

  lemma {:induction false} XorBounded(a: nat, b: nat, n: nat)
    requires a < Pow2(n) && b < Pow2(n)
    ensures Xor(a, b) < Pow2(n)
    decreases n
  {
    if n > 0 {
      XorBounded(a / 2, b / 2, n - 1);
    }
  }

  lemma Pow2Plus8(n: nat)
    ensures Pow2(n + 8) == 256 * Pow2(n)
  {
    assert Pow2(n + 2) == 4 * Pow2(n);
    assert Pow2(n + 4) == 4 * Pow2(n + 2);
    assert Pow2(n + 6) == 4 * Pow2(n + 4);
    assert Pow2(n + 8) == 4 * Pow2(n + 6);
  }

  lemma Pow64()
    ensures Pow2(64) == TWO64
  {
    Pow2Plus8(0);
    Pow2Plus8(8);
    Pow2Plus8(16);
    Pow2Plus8(24);
    Pow2Plus8(32);
    Pow2Plus8(40);
    Pow2Plus8(48);
    Pow2Plus8(56);
  }

  lemma WholeTurns(x: u64, t: int)
    ensures Wrap64(x + t * TWO64) == x
  {
  }

  lemma MultiplyUndone(x: u64)
    ensures Wrap64(Wrap64(x * FNV_PRIME) * FNV_INVERSE) == x
    ensures Wrap64(Wrap64(x * FNV_INVERSE) * FNV_PRIME) == x
  {
    assert FNV_PRIME * FNV_INVERSE == 1 + 887285111055 * TWO64;
    var q := x * FNV_PRIME / TWO64;
    assert Wrap64(x * FNV_PRIME) * FNV_INVERSE == x + (x * 887285111055 - q * FNV_INVERSE) * TWO64;
    WholeTurns(x, x * 887285111055 - q * FNV_INVERSE);
    var p := x * FNV_INVERSE / TWO64;
    assert Wrap64(x * FNV_INVERSE) * FNV_PRIME == x + (x * 887285111055 - p * FNV_PRIME) * TWO64;
    WholeTurns(x, x * 887285111055 - p * FNV_PRIME);
  }

  /** The state before a byte was mixed in. */
  function Unmix(h: u64, b: u8): nat {
    Xor(Wrap64(h * FNV_INVERSE), b)
  }

  lemma XorFits(h: u64, b: u8)
    ensures Xor(h, b) < TWO64
  {
    Pow64();
    XorBounded(h, b, 64);
  }

  lemma UnmixMix(h: u64, b: u8)
    ensures Unmix(Mix(h, b), b) == h
  {
    XorFits(h, b);
    MultiplyUndone(Xor(h, b));
    XorUndone(h, b);
  }

  lemma MixUnmix(h: u64, b: u8)
    ensures Unmix(h, b) < TWO64 && Mix(Unmix(h, b), b) == h
  {
    XorFits(Wrap64(h * FNV_INVERSE), b);
    XorUndone(Wrap64(h * FNV_INVERSE), b);
    MultiplyUndone(h);
  }

  /** Mixing tells states apart, and tells bytes apart. */
  lemma MixInjective(h1: u64, b1: u8, h2: u64, b2: u8)
    requires Mix(h1, b1) == Mix(h2, b2) && (h1 == h2 || b1 == b2)
    ensures h1 == h2 && b1 == b2
  {
    UnmixMix(h1, b1);
    UnmixMix(h2, b2);
    if h1 == h2 {
      XorFits(h1, b1);
      XorFits(h2, b2);
      MultiplyUndone(Xor(h1, b1));
      MultiplyUndone(Xor(h2, b2));
      XorCommutes(h1, b1);
      XorCommutes(h2, b2);
      XorUndone(b1, h1);
      XorUndone(b2, h2);
    }
  }

  lemma {:induction false} SameSuffixSeparates(h1: u64, h2: u64, bytes: seq<u8>)
    requires h1 != h2
    ensures HashBytes(h1, bytes) != HashBytes(h2, bytes)
    decreases |bytes|
  {
    if bytes != [] {
      if Mix(h1, bytes[0]) == Mix(h2, bytes[0]) {
        MixInjective(h1, bytes[0], h2, bytes[0]);
      }
      SameSuffixSeparates(Mix(h1, bytes[0]), Mix(h2, bytes[0]), bytes[1..]);
    }
  }

  lemma OneByteSeparates(h: u64, a: seq<u8>, b: seq<u8>, i: nat)
    requires |a| == |b| && i < |a| && a[i] != b[i]
    requires forall j | 0 <= j < |a| && j != i :: a[j] == b[j]
    ensures HashBytes(h, a) != HashBytes(h, b)
  {
    var rest := a[i + 1..];
    assert a == (a[..i] + [a[i]]) + rest;
    assert b == (a[..i] + [b[i]]) + rest;
    HashConcat(h, a[..i] + [a[i]], rest);
    HashConcat(h, a[..i] + [b[i]], rest);
    HashSnoc(h, a[..i], a[i]);
    HashSnoc(h, a[..i], b[i]);
    var before := HashBytes(h, a[..i]);
    if Mix(before, a[i]) == Mix(before, b[i]) {
      MixInjective(before, a[i], before, b[i]);
    }
    SameSuffixSeparates(Mix(before, a[i]), Mix(before, b[i]), rest);
  }

  /** The encoding tells keys apart. */
  lemma EncodingInjective(k1: FlowKey, k2: FlowKey)
    requires Encoding(k1) == Encoding(k2)
    ensures k1 == k2
  {
    assert Encoding(k1)[..16] == k1.srcIp && Encoding(k2)[..16] == k2.srcIp;
    assert Encoding(k1)[16..32] == k1.dstIp && Encoding(k2)[16..32] == k2.dstIp;
    forall i | 32 <= i < 37
      ensures Encoding(k1)[i] == Encoding(k2)[i]
    {
    }
    assert k1.srcPort / 256 == Encoding(k1)[32] && k2.srcPort / 256 == Encoding(k2)[32];
    assert k1.srcPort % 256 == Encoding(k1)[33] && k2.srcPort % 256 == Encoding(k2)[33];
    assert k1.dstPort / 256 == Encoding(k1)[34] && k2.dstPort / 256 == Encoding(k2)[34];
    assert k1.dstPort % 256 == Encoding(k1)[35] && k2.dstPort % 256 == Encoding(k2)[35];
    assert k1.protocol == Encoding(k1)[36] && k2.protocol == Encoding(k2)[36];
  }

  /** Keys whose 37 bytes differ in exactly one place hash differently. */
  lemma NearbyKeysSeparated(k1: FlowKey, k2: FlowKey, i: nat)
    requires i < 37 && Encoding(k1)[i] != Encoding(k2)[i]
    requires forall j | 0 <= j < 37 && j != i :: Encoding(k1)[j] == Encoding(k2)[j]
    ensures HashBytes(FNV_OFFSET, Encoding(k1)) != HashBytes(FNV_OFFSET, Encoding(k2))
  {
    OneByteSeparates(FNV_OFFSET, Encoding(k1), Encoding(k2), i);
  }

  // ---------------------------------------------------------------- published values

  lemma {:induction false} XorZero(x: nat)
    ensures Xor(x, 0) == x
  {
    if x > 0 {
      XorZero(x / 2);
    }
  }

  /** An exclusive or, from its low bit and from what is above it. */
  lemma XorUp(x: nat, a: nat, b: nat)
    requires Xor(a / 2, b / 2) == x / 2 && (x % 2 == if a % 2 != b % 2 then 1 else 0)
    ensures Xor(a, b) == x
  {
    hide Xor;
    XorBits(a, b);
  }

  /** The letter a meets the low byte of the first state. */
  lemma FirstXor()
    ensures Xor(FNV_OFFSET, 0x61) == 0xcbf29ce484222344
  {
    hide Xor;
    XorZero(0x197e539c9084446);
    XorUp(0x32fca739210888d, 0x32fca739210888c, 0x1);
    XorUp(0x65f94e72421111a, 0x65f94e724211119, 0x3);
    XorUp(0xcbf29ce48422234, 0xcbf29ce48422232, 0x6);
    XorUp(0x197e539c90844468, 0x197e539c90844464, 0xc);
    XorUp(0x32fca739210888d1, 0x32fca739210888c9, 0x18);
    XorUp(0x65f94e72421111a2, 0x65f94e7242111192, 0x30);
    XorUp(0xcbf29ce484222344, 0xcbf29ce484222325, 0x61);
  }

  lemma FirstMix()
    ensures Mix(FNV_OFFSET, 0x61) == 0xaf63dc4c8601ec8c
  {
    hide Xor;
    FirstXor();
  }

  /** The hash of no bytes, and of the letter a, as published with the algorithm. */
  lemma PublishedValues()
    ensures HashBytes(FNV_OFFSET, []) == 0xcbf29ce484222325
    ensures HashBytes(FNV_OFFSET, [0x61]) == 0xaf63dc4c8601ec8c
  {
    hide Mix;
    FirstMix();
    HashSnoc(FNV_OFFSET, [], 0x61);
    assert [] + [0x61] == [0x61];
  }
}
