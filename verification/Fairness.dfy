/** Provably fair sampling: rejection sampling over HMAC digests, and the messages that are signed. */
module Fairness {
  import opened Wrappers
  import opened Arithmetic
  import opened Decimals

  type Byte = b: int | 0 <= b < 256

  type Bytes = seq<Byte>

  const CHUNK_SIZE: nat := 4
  const CHUNK_SPACE: nat := 0x1_0000_0000

  /** HMAC-SHA256 is any function from a key and a message to 32 bytes. */
  const DIGEST_SIZE: nat := 32
  type Digest = d: Bytes | |d| == DIGEST_SIZE witness seq(32, i => 0)
  type Hmac = (Bytes, string) -> Digest

  datatype SeedMaterial = SeedMaterial(serverSeed: Bytes, clientSeed: string, nonce: nat)

  // ------------------------------------------------------------ blocks

  /** `int.from_bytes(block, "big")` of the four bytes at `offset`. */
  function BlockValue(d: Bytes, offset: nat): (v: nat)
    requires offset + CHUNK_SIZE <= |d|
    ensures v < CHUNK_SPACE
  {
    var a: int, b: int, c: int, e: int := d[offset], d[offset + 1], d[offset + 2], d[offset + 3];
    ((a * 256 + b) * 256 + c) * 256 + e
  }

  function EncodeBlock(v: nat): (d: Bytes)
    requires v < CHUNK_SPACE
    ensures |d| == CHUNK_SIZE
  {
    [v / 0x100_0000, v / 0x1_0000 % 256, v / 256 % 256, v % 256]
  }

  /** Big-endian decoding of four bytes is a bijection onto [0, 2^32). */
  lemma {:induction false} EncodeDecode(v: nat)
    requires v < CHUNK_SPACE
    ensures BlockValue(EncodeBlock(v), 0) == v
  {
    var a, b := v / 0x1_0000, v / 256;
    assert b / 256 == a && a / 256 == v / 0x100_0000;
  }

  lemma {:induction false} DecodeEncode(d: Bytes)
    requires |d| == CHUNK_SIZE
    ensures EncodeBlock(BlockValue(d, 0)) == d
  {
    var v := BlockValue(d, 0);
    var d0: int, d1: int, d2: int := d[0], d[1], d[2];
    var a := d0 * 256 + d1;
    var b := a * 256 + d2;
    assert v / 256 == b && v % 256 == d[3];
    assert b / 256 == a && b % 256 == d[2];
    assert a / 256 == d[0] && a % 256 == d[1];
    assert v / 0x1_0000 == a && v / 0x100_0000 == d[0];
  }

  /** The order of byte strings of one length that compares the first byte first. */
  predicate LexLess(a: Bytes, b: Bytes)
    requires |a| == |b|
  {
    a != [] && (a[0] < b[0] || (a[0] == b[0] && LexLess(a[1..], b[1..])))
  }

  /** Big-endian: blocks compare as their bytes do, the first byte first. */
  lemma {:induction false} BlockOrder(d: Bytes, i: nat, e: Bytes, j: nat)
    requires i + CHUNK_SIZE <= |d| && j + CHUNK_SIZE <= |e|
    ensures BlockValue(d, i) < BlockValue(e, j) <==> LexLess(d[i..i + CHUNK_SIZE], e[j..j + CHUNK_SIZE])
  {
    hide LexLess;
    LexLessFour(d[i..i + CHUNK_SIZE], e[j..j + CHUNK_SIZE]);
  }

  lemma LexLessFour(a: Bytes, b: Bytes)
    requires |a| == |b| == CHUNK_SIZE
    ensures LexLess(a, b) <==>
            || a[0] < b[0]
            || (a[0] == b[0] && a[1] < b[1])
            || (a[0] == b[0] && a[1] == b[1] && a[2] < b[2])
            || (a[0] == b[0] && a[1] == b[1] && a[2] == b[2] && a[3] < b[3])
  {
    var a1, b1 := a[1..], b[1..];
    var a2, b2 := a1[1..], b1[1..];
    var a3, b3 := a2[1..], b2[1..];
    assert LexLess(a3, b3) <==> a[3] < b[3];
    assert LexLess(a2, b2) <==> a[2] < b[2] || (a[2] == b[2] && LexLess(a3, b3));
    assert LexLess(a1, b1) <==> a[1] < b[1] || (a[1] == b[1] && LexLess(a2, b2));
  }

  function Blocks(d: Bytes): nat { |d| / CHUNK_SIZE }

  function Block(d: Bytes, i: nat): nat
    requires i < Blocks(d)
  {
    BlockValue(d, i * CHUNK_SIZE)
  }

  /** The largest multiple of `modulus` that does not exceed 2^32. */
  function Limit(modulus: nat): (limit: nat)
    requires modulus >= 1
    ensures limit <= CHUNK_SPACE && limit % modulus == 0 && CHUNK_SPACE - limit < modulus
  {
    var q := CHUNK_SPACE / modulus;
    assert CHUNK_SPACE == q * modulus + CHUNK_SPACE % modulus;
    MultipleMod(q, modulus);
    q * modulus
  }

  lemma {:induction false} MultipleMod(q: nat, m: nat)
    requires m >= 1
    ensures (q * m) % m == 0
  {
    DivModUnique(q * m, m, q, 0);
  }

  /** Block `i` of the digest is the first one below the limit. */
  ghost predicate FirstAccepted(d: Bytes, modulus: nat, i: nat)
    requires modulus >= 1
  {
    && i < Blocks(d) && Block(d, i) < Limit(modulus)
    && forall j :: 0 <= j < i ==> Block(d, j) >= Limit(modulus)
  }

  /** The recursive reading of `_uniform_below`: look at the first four bytes, then at the rest. */
  function Uniform(d: Bytes, modulus: nat): (r: Option<nat>)
    requires modulus >= 1
    ensures r.Some? ==> r.value < modulus
  {
    if |d| < CHUNK_SIZE then None
    else if BlockValue(d, 0) < Limit(modulus) then Some(BlockValue(d, 0) % modulus)
    else Uniform(d[CHUNK_SIZE..], modulus)
  }

  lemma {:induction false} UniformFrom(d: Bytes, modulus: nat, k: nat)
    requires modulus >= 1 && k * CHUNK_SIZE <= |d|
    requires forall j :: 0 <= j < k && j < Blocks(d) ==> Block(d, j) >= Limit(modulus)
    ensures Uniform(d, modulus) == Uniform(d[k * CHUNK_SIZE..], modulus)
  {
    if k > 0 {
      UniformFrom(d, modulus, k - 1);
      assert Block(d, k - 1) >= Limit(modulus);
      var rest := d[(k - 1) * CHUNK_SIZE..];
      assert rest[CHUNK_SIZE..] == d[k * CHUNK_SIZE..];
      assert BlockValue(rest, 0) == Block(d, k - 1);
    }
  }

  /** `_uniform_below`: the residue of the first accepted block, or None when all are rejected. */
  method UniformBelow(digest: Bytes, modulus: nat) returns (r: Option<nat>)
    requires modulus >= 1
    ensures r == Uniform(digest, modulus)
    ensures match r
            case Some(v) =>
              v < modulus && exists i :: FirstAccepted(digest, modulus, i) && v == Block(digest, i) % modulus
            case None => forall i :: 0 <= i < Blocks(digest) ==> Block(digest, i) >= Limit(modulus)
  {
    var limit := Limit(modulus);
    var offset := 0;
    ghost var k := 0;
    while offset + CHUNK_SIZE <= |digest|
      invariant offset == k * CHUNK_SIZE && k <= Blocks(digest)
      invariant forall j :: 0 <= j < k ==> Block(digest, j) >= limit
      decreases |digest| - offset
    {
      var value := BlockValue(digest, offset);
      UniformFrom(digest, modulus, k);
      assert BlockValue(digest[offset..], 0) == value == Block(digest, k);
      if value < limit {
        assert FirstAccepted(digest, modulus, k);
        return Some(value % modulus);
      }
      offset, k := offset + CHUNK_SIZE, k + 1;
    }
    UniformFrom(digest, modulus, k);
    r := None;
  }

  // ------------------------------------------------------------ exact unbiasedness

  /** All byte strings of a given length. */
  ghost function AllBytes(n: nat): set<Bytes> {
    if n == 0 then {[]}
    else set d: Bytes, b: int | d in AllBytes(n - 1) && 0 <= b < 256 :: [b] + d
  }

  lemma {:induction false} AllBytesIsAll(n: nat, d: Bytes)
    ensures d in AllBytes(n) <==> |d| == n
  {
    if n > 0 {
      if |d| == n {
        AllBytesIsAll(n - 1, d[1..]);
        assert d == [d[0]] + d[1..];
      }
      if d in AllBytes(n) {
        var e: Bytes, b: int :| e in AllBytes(n - 1) && 0 <= b < 256 && d == [b] + e;
        AllBytesIsAll(n - 1, e);
      }
    }
  }

  /** The n-byte digests that `_uniform_below` maps to `r`. */
  ghost function Hits(n: nat, modulus: nat, r: nat): set<Bytes>
    requires modulus >= 1
  {
    set d | d in AllBytes(n) && Uniform(d, modulus) == Some(r)
  }

  /** Exchanges the residues r and s, keeping the quotient. */
  function SwapResidue(v: nat, modulus: nat, r: nat, s: nat): (w: int)
    requires modulus >= 1 && r < modulus && s < modulus
  {
    if v % modulus == r then v - r + s
    else if v % modulus == s then v - s + r
    else v
  }

  lemma {:induction false} SwapResidueFacts(v: nat, modulus: nat, r: nat, s: nat)
    requires modulus >= 1 && r < modulus && s < modulus && v < Limit(modulus)
    ensures var w := SwapResidue(v, modulus, r, s);
            && 0 <= w < Limit(modulus)
            && SwapResidue(w, modulus, r, s) == v
            && (v % modulus == r <==> w % modulus == s)
  {
    SwapBelow(v, modulus, r, s, CHUNK_SPACE / modulus);
  }

  lemma {:induction false} SwapBelow(v: nat, m: nat, r: nat, s: nat, k: nat)
    requires m >= 1 && r < m && s < m && v < k * m
    ensures var w := SwapResidue(v, m, r, s);
            && 0 <= w < k * m
            && SwapResidue(w, m, r, s) == v
            && (v % m == r <==> w % m == s)
  {
    var q, t := v / m, v % m;
    var u := if t == r then s else if t == s then r else t;
    assert v == q * m + t;
    SameQuotient(q, t, u, m, k);
    assert SwapResidue(v, m, r, s) == v - t + u;
  }

  /** Two values with the same quotient are on the same side of a multiple of the modulus. */
  lemma {:induction false} SameQuotient(q: nat, t: nat, u: nat, m: nat, k: nat)
    requires m >= 1 && t < m && u < m && q * m + t < k * m
    ensures q * m >= 0
    ensures 0 <= q * m + u < k * m
    ensures (q * m + u) % m == u
  {
    MulMonotone(0, q, m);
    if q >= k {
      MulMonotone(k, q, m);
      assert false;
    }
    MulMonotone(q + 1, k, m);
    assert (q + 1) * m == q * m + m;
    DivModUnique(q * m + u, m, q, u);
  }

  /** Rewrites the first accepted block of the digest, exchanging residues r and s. */
  ghost function Swap(d: Bytes, modulus: nat, r: nat, s: nat): (e: Bytes)
    requires modulus >= 1 && r < modulus && s < modulus
    ensures |e| == |d|
    decreases |d|
  {
    if |d| < CHUNK_SIZE then d
    else if BlockValue(d, 0) < Limit(modulus) then
      SwapResidueFacts(BlockValue(d, 0), modulus, r, s);
      EncodeBlock(SwapResidue(BlockValue(d, 0), modulus, r, s)) + d[CHUNK_SIZE..]
    else d[..CHUNK_SIZE] + Swap(d[CHUNK_SIZE..], modulus, r, s)
  }

  lemma {:induction false} SwapFacts(d: Bytes, modulus: nat, r: nat, s: nat)
    requires modulus >= 1 && r < modulus && s < modulus
    ensures Swap(Swap(d, modulus, r, s), modulus, r, s) == d
    ensures Uniform(d, modulus) == Some(r) <==> Uniform(Swap(d, modulus, r, s), modulus) == Some(s)
    decreases |d|
  {
    if |d| >= CHUNK_SIZE {
      var v, e := BlockValue(d, 0), Swap(d, modulus, r, s);
      if v < Limit(modulus) {
        SwapAccepted(d, modulus, r, s);
      } else {
        SwapFacts(d[CHUNK_SIZE..], modulus, r, s);
        assert e[CHUNK_SIZE..] == Swap(d[CHUNK_SIZE..], modulus, r, s);
        assert e[..CHUNK_SIZE] == d[..CHUNK_SIZE];
        assert BlockValue(e, 0) == v;
        assert d == d[..CHUNK_SIZE] + d[CHUNK_SIZE..];
      }
    }
  }

  lemma {:induction false} SwapAccepted(d: Bytes, modulus: nat, r: nat, s: nat)
    requires modulus >= 1 && r < modulus && s < modulus
    requires |d| >= CHUNK_SIZE && BlockValue(d, 0) < Limit(modulus)
    ensures Swap(Swap(d, modulus, r, s), modulus, r, s) == d
    ensures Uniform(d, modulus) == Some(r) <==> Uniform(Swap(d, modulus, r, s), modulus) == Some(s)
  {
    var v, e := BlockValue(d, 0), Swap(d, modulus, r, s);
    SwapResidueFacts(v, modulus, r, s);
    var w := SwapResidue(v, modulus, r, s);
    EncodeDecode(w);
    assert BlockValue(e, 0) == BlockValue(EncodeBlock(w), 0) == w;
    assert e[CHUNK_SIZE..] == d[CHUNK_SIZE..];
    DecodeEncode(d[..CHUNK_SIZE]);
    assert BlockValue(d[..CHUNK_SIZE], 0) == v;
    assert d == d[..CHUNK_SIZE] + d[CHUNK_SIZE..];
  }

  ghost function SwapAll(ds: set<Bytes>, modulus: nat, r: nat, s: nat): set<Bytes>
    requires modulus >= 1 && r < modulus && s < modulus
  {
    set d | d in ds :: Swap(d, modulus, r, s)
  }

  /** Swapping is injective, so it keeps the number of digests. */
  lemma {:induction false} SwapAllSize(ds: set<Bytes>, modulus: nat, r: nat, s: nat)
    requires modulus >= 1 && r < modulus && s < modulus
    ensures |SwapAll(ds, modulus, r, s)| == |ds|
  {
    if ds != {} {
      var d :| d in ds;
      var rest := SwapAll(ds - {d}, modulus, r, s);
      SwapAllSize(ds - {d}, modulus, r, s);
      assert SwapAll(ds, modulus, r, s) == rest + {Swap(d, modulus, r, s)};
      if Swap(d, modulus, r, s) in rest {
        var e :| e in ds - {d} && Swap(e, modulus, r, s) == Swap(d, modulus, r, s);
        SwapFacts(d, modulus, r, s);
        SwapFacts(e, modulus, r, s);
        assert false;
      }
    }
  }

  /** No residue is favoured: over all digests of any one length, every outcome below the modulus
      is produced by exactly the same number of digests. */
  lemma {:induction false} Unbiased(n: nat, modulus: nat, r: nat, s: nat)
    requires modulus >= 1 && r < modulus && s < modulus
    ensures |Hits(n, modulus, r)| == |Hits(n, modulus, s)|
  {
    var image := SwapAll(Hits(n, modulus, r), modulus, r, s);
    forall d ensures d in image <==> d in Hits(n, modulus, s) {
      var e := Swap(d, modulus, r, s);
      SwapFacts(e, modulus, r, s);
      SwapFacts(d, modulus, r, s);
      AllBytesIsAll(n, d);
      AllBytesIsAll(n, e);
      if d in image {
        var c :| c in Hits(n, modulus, r) && Swap(c, modulus, r, s) == d;
        AllBytesIsAll(n, c);
        SwapFacts(c, modulus, r, s);
      }
    }
    assert image == Hits(n, modulus, s);
    SwapAllSize(Hits(n, modulus, r), modulus, r, s);
  }

  /** Every outcome can come up, for digests of at least one block and moduli up to 2^32 only. */
  lemma EveryOutcomePossible(n: nat, modulus: nat, r: nat)
    requires modulus >= 1 && r < modulus
    ensures Hits(n, modulus, r) != {} <==> n >= CHUNK_SIZE && modulus <= CHUNK_SPACE
  {
    if modulus > CHUNK_SPACE {
      assert Limit(modulus) == 0;
      forall d ensures Uniform(d, modulus).None? {
        NeverAccepted(d, modulus);
      }
    } else if n < CHUNK_SIZE {
      forall d | d in AllBytes(n) ensures Uniform(d, modulus).None? {
        AllBytesIsAll(n, d);
      }
    } else {
      MulMonotone(1, CHUNK_SPACE / modulus, modulus);
      var d := EncodeBlock(r) + seq(n - CHUNK_SIZE, i => 0);
      EncodeDecode(r);
      assert BlockValue(d, 0) == BlockValue(EncodeBlock(r), 0) == r;
      DivModUnique(r, modulus, 0, r);
      AllBytesIsAll(n, d);
      assert d in Hits(n, modulus, r);
    }
  }

  lemma {:induction false} NeverAccepted(d: Bytes, modulus: nat)
    requires modulus >= 1 && Limit(modulus) == 0
    ensures Uniform(d, modulus).None?
  {
    if |d| >= CHUNK_SIZE {
      NeverAccepted(d[CHUNK_SIZE..], modulus);
    }
  }

  // ------------------------------------------------------------ messages

  /** `_message`, as text; UTF-8 encoding of it is taken to be injective. */
  function Message(clientSeed: string, nonce: nat, roundIndex: nat): string {
    if roundIndex == 0 then clientSeed + ":" + Decimal(nonce)
    else clientSeed + ":" + Decimal(nonce) + ":" + ("r" + Decimal(roundIndex))
  }

  /** What comes before and after the last colon of a message. */
  function MessageHead(clientSeed: string, nonce: nat, roundIndex: nat): string {
    if roundIndex == 0 then clientSeed else clientSeed + ":" + Decimal(nonce)
  }

  function MessageTail(nonce: nat, roundIndex: nat): string {
    if roundIndex == 0 then Decimal(nonce) else "r" + Decimal(roundIndex)
  }

  lemma TailInjective(n: nat, i: nat, n': nat, i': nat)
    requires MessageTail(n, i) == MessageTail(n', i')
    ensures i == i' && (i == 0 ==> n == n')
  {
    assert MessageTail(n, i)[0] == MessageTail(n', i')[0];
    if i == 0 {
      DecimalInjective(n, n');
    } else {
      assert Decimal(i) == MessageTail(n, i)[1..] && Decimal(i') == MessageTail(n', i')[1..];
      DecimalInjective(i, i');
    }
  }

  /** Messages can be decoded, whatever characters the client seed contains. */
  lemma MessageInjective(c: string, n: nat, i: nat, c': string, n': nat, i': nat)
    requires Message(c, n, i) == Message(c', n', i')
    ensures c == c' && n == n' && i == i'
  {
    LastColon(MessageHead(c, n, i), MessageTail(n, i), MessageHead(c', n', i'), MessageTail(n', i'));
    TailInjective(n, i, n', i');
    if i != 0 {
      LastColon(c, Decimal(n), c', Decimal(n'));
      DecimalInjective(n, n');
    }
  }

  // ------------------------------------------------------------ outcomes

  /** DIGEST_SIZE / CHUNK_SIZE. */
  const BLOCKS_PER_DIGEST: nat := 8

  function RoundDigest(hmac: Hmac, seed: SeedMaterial, roundIndex: nat): Digest {
    hmac(seed.serverSeed, Message(seed.clientSeed, seed.nonce, roundIndex))
  }

  /** What is signed, with the server seed as the key: the client seed and the nonce, joined by a colon;
      in further rounds also the round, after a colon and an r. */
  lemma SignedMessage(hmac: Hmac, seed: SeedMaterial, i: nat)
    ensures RoundDigest(hmac, seed, 0) == hmac(seed.serverSeed, seed.clientSeed + ":" + Decimal(seed.nonce))
    ensures i > 0 ==>
              RoundDigest(hmac, seed, i)
              == hmac(seed.serverSeed, seed.clientSeed + ":" + Decimal(seed.nonce) + ":r" + Decimal(i))
  {
    assert ":" + "r" == ":r";
    var head := seed.clientSeed + ":" + Decimal(seed.nonce);
    assert head + ":" + ("r" + Decimal(i)) == head + ":r" + Decimal(i);
  }

  /** No two rounds of spins, of one pair or of two, are bound to the same digest. */
  lemma {:induction false} DigestsIndependent(a: SeedMaterial, i: nat, b: SeedMaterial, j: nat)
    requires a != b || i != j
    ensures exists hmac: Hmac :: RoundDigest(hmac, a, i) != RoundDigest(hmac, b, j)
  {
    var zero: Digest, one: Digest := seq(DIGEST_SIZE, k => 0), seq(DIGEST_SIZE, k => 1);
    assert zero[0] != one[0];
    var message := Message(a.clientSeed, a.nonce, i);
    var hmac: Hmac := (key, m) => if key == a.serverSeed && m == message then zero else one;
    if Message(b.clientSeed, b.nonce, j) == message {
      MessageInjective(a.clientSeed, a.nonce, i, b.clientSeed, b.nonce, j);
    }
    assert RoundDigest(hmac, a, i) == zero && RoundDigest(hmac, b, j) == one;
  }

  /** Block `g` of the endless stream made of the digests of rounds 0, 1, 2, ... */
  function StreamBlock(hmac: Hmac, seed: SeedMaterial, g: nat): nat {
    Block(RoundDigest(hmac, seed, g / BLOCKS_PER_DIGEST), g % BLOCKS_PER_DIGEST)
  }

  ghost predicate FirstInStream(hmac: Hmac, seed: SeedMaterial, modulus: nat, g: nat)
    requires modulus >= 1
  {
    && StreamBlock(hmac, seed, g) < Limit(modulus)
    && forall j: nat :: j < g ==> StreamBlock(hmac, seed, j) >= Limit(modulus)
  }

  /** `r` is the residue of the first accepted block of the stream. */
  ghost predicate IsOutcome(hmac: Hmac, seed: SeedMaterial, modulus: nat, r: nat)
    requires modulus >= 1
  {
    exists g :: FirstInStream(hmac, seed, modulus, g) && r == StreamBlock(hmac, seed, g) % modulus
  }

  /** If some block of the stream is accepted there is a first one, and so an outcome. */
  lemma {:induction false} OutcomeExists(hmac: Hmac, seed: SeedMaterial, modulus: nat, g: nat)
    requires modulus >= 1 && StreamBlock(hmac, seed, g) < Limit(modulus)
    ensures exists r :: IsOutcome(hmac, seed, modulus, r)
  {
    hide StreamBlock, Limit;
    if j: nat :| j < g && StreamBlock(hmac, seed, j) < Limit(modulus) {
      OutcomeExists(hmac, seed, modulus, j);
    } else {
      assert FirstInStream(hmac, seed, modulus, g);
      assert IsOutcome(hmac, seed, modulus, StreamBlock(hmac, seed, g) % modulus);
    }
  }

  /** Anyone who recomputes an outcome from the same seeds and nonce gets the same number. */
  lemma {:induction false} OutcomeUnique(hmac: Hmac, seed: SeedMaterial, modulus: nat, r: nat, s: nat)
    requires modulus >= 1 && IsOutcome(hmac, seed, modulus, r) && IsOutcome(hmac, seed, modulus, s)
    ensures r == s < modulus
  {
    var g :| FirstInStream(hmac, seed, modulus, g) && r == StreamBlock(hmac, seed, g) % modulus;
    var h :| FirstInStream(hmac, seed, modulus, h) && s == StreamBlock(hmac, seed, h) % modulus;
    assert g == h;
  }

  /** A digest that begins with this block. */
  function DigestOf(v: nat): Digest {
    if v < CHUNK_SPACE then EncodeBlock(v) + seq(DIGEST_SIZE - CHUNK_SIZE, k => 0) else seq(DIGEST_SIZE, k => 0)
  }

  predicate Opens(m: string, seed: SeedMaterial) {
    m == Message(seed.clientSeed, seed.nonce, 0)
  }

  ghost function ForgedDigest(wanted: SeedMaterial -> nat, key: Bytes, m: string): Digest {
    if exists seed: SeedMaterial :: seed.serverSeed == key && Opens(m, seed)
    then var seed: SeedMaterial :| seed.serverSeed == key && Opens(m, seed); DigestOf(wanted(seed))
    else DigestOf(0)
  }

  /** An HMAC whose outcomes are `wanted`: the digest of a message of round 0 begins with the outcome. */
  ghost function Forged(wanted: SeedMaterial -> nat): Hmac {
    (key, m) => ForgedDigest(wanted, key, m)
  }

  lemma ForgedBlock(wanted: SeedMaterial -> nat, seed: SeedMaterial)
    requires wanted(seed) < CHUNK_SPACE
    ensures StreamBlock(Forged(wanted), seed, 0) == wanted(seed)
  {
    var m := Message(seed.clientSeed, seed.nonce, 0);
    forall other: SeedMaterial | other.serverSeed == seed.serverSeed && Opens(m, other) ensures other == seed {
      MessageInjective(seed.clientSeed, seed.nonce, 0, other.clientSeed, other.nonce, 0);
    }
    assert Opens(m, seed);
    var d := RoundDigest(Forged(wanted), seed, 0);
    assert d == DigestOf(wanted(seed));
    EncodeDecode(wanted(seed));
    assert BlockValue(d, 0) == BlockValue(EncodeBlock(wanted(seed)), 0);
  }

  lemma ForgedOutcome(wanted: SeedMaterial -> nat, seed: SeedMaterial, modulus: nat)
    requires 1 <= modulus <= CHUNK_SPACE && wanted(seed) < modulus
    ensures IsOutcome(Forged(wanted), seed, modulus, wanted(seed))
  {
    ForgedBlock(wanted, seed);
    hide StreamBlock, Forged;
    MulMonotone(1, CHUNK_SPACE / modulus, modulus);
    DivModUnique(wanted(seed), modulus, 0, wanted(seed));
    assert FirstInStream(Forged(wanted), seed, modulus, 0);
  }

  /** With this HMAC every seed and nonce has the outcome that is wanted of it, and no other. */
  ghost predicate Draws(hmac: Hmac, modulus: nat, wanted: SeedMaterial -> nat)
    requires modulus >= 1
  {
    forall seed, r :: IsOutcome(hmac, seed, modulus, r) <==> r == wanted(seed)
  }

  /** Nothing but the HMAC ties outcomes together: whatever outcome one wants each server seed, client
      seed and nonce to have, some HMAC gives exactly these. */
  lemma {:induction false} AnyOutcomes(wanted: SeedMaterial -> nat, modulus: nat)
    requires 1 <= modulus <= CHUNK_SPACE && forall seed :: wanted(seed) < modulus
    ensures exists hmac: Hmac :: Draws(hmac, modulus, wanted)
  {
    hide IsOutcome, Message, Forged;
    forall seed, r ensures IsOutcome(Forged(wanted), seed, modulus, r) <==> r == wanted(seed) {
      ForgedOutcome(wanted, seed, modulus);
      if IsOutcome(Forged(wanted), seed, modulus, r) {
        OutcomeUnique(Forged(wanted), seed, modulus, r, wanted(seed));
      }
    }
    assert Draws(Forged(wanted), modulus, wanted);
  }

  lemma StreamOfRound(hmac: Hmac, seed: SeedMaterial, roundIndex: nat, i: nat)
    requires i < BLOCKS_PER_DIGEST
    ensures StreamBlock(hmac, seed, roundIndex * BLOCKS_PER_DIGEST + i) == Block(RoundDigest(hmac, seed, roundIndex), i)
  {
    DivModUnique(roundIndex * BLOCKS_PER_DIGEST + i, BLOCKS_PER_DIGEST, roundIndex, i);
  }

  /** The blocks before block `i` of this round are all rejected. */
  lemma RejectedBefore(hmac: Hmac, seed: SeedMaterial, modulus: nat, roundIndex: nat, i: nat)
    requires modulus >= 1 && i <= BLOCKS_PER_DIGEST
    requires forall g: nat :: g < roundIndex * BLOCKS_PER_DIGEST ==> StreamBlock(hmac, seed, g) >= Limit(modulus)
    requires forall j :: 0 <= j < i ==> Block(RoundDigest(hmac, seed, roundIndex), j) >= Limit(modulus)
    ensures forall g: nat :: g < roundIndex * BLOCKS_PER_DIGEST + i ==> StreamBlock(hmac, seed, g) >= Limit(modulus)
  {
    var base := roundIndex * BLOCKS_PER_DIGEST;
    forall g: nat | g < base + i ensures StreamBlock(hmac, seed, g) >= Limit(modulus) {
      if g >= base {
        StreamOfRound(hmac, seed, roundIndex, g - base);
      }
    }
  }

  /** `derive_outcome`.  It ends whenever some block of the stream is accepted, `witnessBlock` say. */
  method DeriveOutcome(hmac: Hmac, seed: SeedMaterial, modulus: nat, ghost witnessBlock: nat) returns (r: nat)
    requires modulus >= 1 && StreamBlock(hmac, seed, witnessBlock) < Limit(modulus)
    ensures r < modulus && IsOutcome(hmac, seed, modulus, r)
  {
    hide Message, Limit, BlockValue, Uniform;
    var roundIndex := 0;
    while true
      invariant roundIndex * BLOCKS_PER_DIGEST <= witnessBlock
      invariant forall g: nat :: g < roundIndex * BLOCKS_PER_DIGEST ==> StreamBlock(hmac, seed, g) >= Limit(modulus)
      decreases witnessBlock - roundIndex * BLOCKS_PER_DIGEST
    {
      var digest := RoundDigest(hmac, seed, roundIndex);
      var result := UniformBelow(digest, modulus);
      if result.Some? {
        ghost var i :| FirstAccepted(digest, modulus, i) && result.value == Block(digest, i) % modulus;
        RejectedBefore(hmac, seed, modulus, roundIndex, i);
        StreamOfRound(hmac, seed, roundIndex, i);
        assert FirstInStream(hmac, seed, modulus, roundIndex * BLOCKS_PER_DIGEST + i);
        return result.value;
      }
      RejectedBefore(hmac, seed, modulus, roundIndex, BLOCKS_PER_DIGEST);
      roundIndex := roundIndex + 1;
    }
  }
}
