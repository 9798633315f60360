/** Lane selection: the key hash and lookups in a published snapshot (src/pool/select.rs). */
module Select {
  import opened Wrappers
  import opened Lanes
  import opened Hex

  const FNV_OFFSET: nat := 0xcbf29ce484222325
  const FNV_PRIME: nat := 0x00000100000001b3
  const U64_MODULUS: nat := 0x1_0000_0000_0000_0000

  /** Exclusive or, bit by bit. */
  function Xor(a: nat, b: nat): nat
    decreases a + b
  {
    if a == 0 && b == 0 then 0
    else 2 * Xor(a / 2, b / 2) + if a % 2 == b % 2 then 0 else 1
  }

  /** `hash ^ byte` on a 64-bit hash: only the low eight bits can change. */
  function XorByte(hash: nat, b: byte): nat {
    hash - hash % 256 + Xor(hash % 256, b as nat)
  }

  /** The 64-bit FNV-1a fold, oldest byte first. */
  function KeyHash(key: seq<byte>): (h: nat)
    ensures h < U64_MODULUS
  {
    if key == [] then FNV_OFFSET
    else XorByte(KeyHash(key[..|key| - 1]), key[|key| - 1]) * FNV_PRIME % U64_MODULUS
  }

  /** The same fold from the other end: what the rest of the key makes of a hash under way. */
  function FoldFrom(hash: nat, key: seq<byte>): nat
    decreases |key|
  {
    if key == [] then hash
    else FoldFrom(XorByte(hash, key[0]) * FNV_PRIME % U64_MODULUS, key[1..])
  }

  lemma {:induction false} FoldContinues(front: seq<byte>, rest: seq<byte>)
    ensures FoldFrom(KeyHash(front), rest) == KeyHash(front + rest)
    decreases |rest|
  {
    hide XorByte;
    if rest == [] {
      assert front + rest == front;
    } else {
      var longer := front + [rest[0]];
      assert longer[..|front|] == front;
      FoldContinues(longer, rest[1..]);
      assert longer + rest[1..] == front + rest;
    }
  }

  function StableLaneIndex(key: seq<byte>, laneCount: nat): (lane: nat)
    requires laneCount > 0
    ensures lane < laneCount
    ensures lane == FoldFrom(FNV_OFFSET, key) % laneCount
  {
    FoldContinues([], key);
    assert [] + key == key;
    KeyHash(key) % laneCount
  }

  // ---- The hash loses nothing from one byte to the next -------------------------------------

  /** The inverse of the prime modulo 2^64. */
  const FNV_INVERSE: nat := 0xce965057aff6957b

  lemma Remainder(a: int, x: nat, k: int)
    requires x < U64_MODULUS && a == x + U64_MODULUS * k
    ensures a % U64_MODULUS == x
  {
    assert a / U64_MODULUS == k;
  }

  lemma PrimeIsInvertible(x: nat)
    requires x < U64_MODULUS
    ensures x * FNV_PRIME % U64_MODULUS * FNV_INVERSE % U64_MODULUS == x
  {
    var t := x * FNV_PRIME / U64_MODULUS;
    var r := x * FNV_PRIME % U64_MODULUS;
    assert x * FNV_PRIME == t * U64_MODULUS + r;
    assert FNV_PRIME * FNV_INVERSE == 1 + 0xce9650590f * U64_MODULUS;
    Remainder(r * FNV_INVERSE, x, x * 0xce9650590f - t * FNV_INVERSE);
  }

  lemma {:induction false} XorTwice(a: nat, b: nat)
    ensures Xor(Xor(a, b), b) == a && Xor(a, b) == Xor(b, a)
    decreases a + b
  {
    if a != 0 || b != 0 {
      XorTwice(a / 2, b / 2);
      assert Xor(a, b) / 2 == Xor(a / 2, b / 2);
    }
  }

  lemma {:induction false} XorIsBounded(a: nat, b: nat, width: nat)
    requires a < Power(width) && b < Power(width)
    ensures Xor(a, b) < Power(width)
  {
    if width > 0 {
      XorIsBounded(a / 2, b / 2, width - 1);
    }
  }

  function Power(n: nat): (p: nat)
    ensures p >= 1
  {
    if n == 0 then 1 else 2 * Power(n - 1)
  }

  lemma LowBitsSeparate(a: nat, b: nat, b': nat)
    requires a < 256 && b < 256 && b' < 256
    ensures Xor(a, b) < 256 && Xor(a, b') < 256 && Xor(b, a) < 256
    ensures Xor(a, b) == Xor(a, b') ==> b == b'
  {
    assert Power(8) == 256;
    XorIsBounded(a, b, 8);
    XorIsBounded(a, b', 8);
    XorTwice(b, a);
    XorTwice(b', a);
    XorTwice(a, b);
    XorTwice(a, b');
    hide Xor;
  }

  lemma XorSeparates(h: nat, h': nat, b: byte, b': byte)
    requires h < U64_MODULUS && h' < U64_MODULUS
    ensures XorByte(h, b) < U64_MODULUS
    ensures XorByte(h, b) == XorByte(h, b') ==> b == b'
    ensures XorByte(h, b) == XorByte(h', b) ==> h == h'
  {
    hide Xor;
    LowBitsSeparate(h % 256, b as nat, b' as nat);
    LowBitsSeparate(b as nat, h % 256, h' % 256);
    XorTwice(h % 256, b as nat);
    XorTwice(h' % 256, b as nat);
  }

  /**
   Two keys that differ in their last byte only have different hashes, and two with the same last
   byte have the same hash if and only if they have it without that byte.
   */
  lemma HashSeparates(key: seq<byte>, key': seq<byte>, b: byte, b': byte)
    ensures KeyHash(key + [b]) == KeyHash(key + [b']) <==> b == b'
    ensures KeyHash(key + [b]) == KeyHash(key' + [b]) <==> KeyHash(key) == KeyHash(key')
  {
    hide XorByte;
    var h, h' := KeyHash(key), KeyHash(key');
    XorSeparates(h, h', b, b');
    XorSeparates(h, h', b', b);
    XorSeparates(h', h, b, b');
    PrimeIsInvertible(XorByte(h, b));
    PrimeIsInvertible(XorByte(h, b'));
    PrimeIsInvertible(XorByte(h', b));
    assert (key + [b])[..|key|] == key && (key + [b'])[..|key|] == key && (key' + [b])[..|key'|] == key';
  }

  lemma XorStep(a: nat, b: nat)
    requires a > 0 || b > 0
    ensures Xor(a, b) == 2 * Xor(a / 2, b / 2) + if a % 2 == b % 2 then 0 else 1
  {
  }

  lemma NothingXor()
    ensures Xor(0, 0) == 0
  {
  }

  lemma XorOfA()
    ensures Xor(0x25, 0x61) == 0x44
  {
    hide Xor;
    NothingXor();
    XorStep(37, 97);
    XorStep(18, 48);
    XorStep(9, 24);
    XorStep(4, 12);
    XorStep(2, 6);
    XorStep(1, 3);
    XorStep(0, 1);
  }

  lemma XorOfF()
    ensures Xor(0x25, 0x66) == 0x43
  {
    hide Xor;
    NothingXor();
    XorStep(37, 102);
    XorStep(18, 51);
    XorStep(9, 25);
    XorStep(4, 12);
    XorStep(2, 6);
    XorStep(1, 3);
    XorStep(0, 1);
  }

  lemma XorOfO()
    ensures Xor(0xd9, 0x6f) == 0xb6
  {
    hide Xor;
    NothingXor();
    XorStep(217, 111);
    XorStep(108, 55);
    XorStep(54, 27);
    XorStep(27, 13);
    XorStep(13, 6);
    XorStep(6, 3);
    XorStep(3, 1);
    XorStep(1, 0);
  }

  lemma NextHash(key: seq<byte>, b: byte, x: nat, h: nat, k: nat)
    requires XorByte(KeyHash(key), b) == x && h < U64_MODULUS && x * FNV_PRIME == h + U64_MODULUS * k
    ensures KeyHash(key + [b]) == h
  {
    hide XorByte;
    assert (key + [b])[..|key|] == key;
    Remainder(x * FNV_PRIME, h, k);
  }

  /** Hashes as the 64-bit FNV-1a hash is defined: of no byte, of `a`, of `f`, and of `fo`. */
  lemma KnownHashes()
    ensures KeyHash([]) == 0xcbf29ce484222325 && KeyHash([0x61]) == 0xaf63dc4c8601ec8c
    ensures KeyHash([0x66]) == 0xaf63db4c8601ead9 && KeyHash([0x66, 0x6f]) == 0x8985907b541d342
  {
    hide Xor;
    XorOfA();
    XorOfF();
    XorOfO();
    assert KeyHash([]) == 0xcbf29ce484222325;
    NextHash([], 0x61, 0xcbf29ce484222344, 0xaf63dc4c8601ec8c, 0xcbf29ce5de);
    NextHash([], 0x66, 0xcbf29ce484222343, 0xaf63db4c8601ead9, 0xcbf29ce5de);
    NextHash([0x66], 0x6f, 0xaf63db4c8601eab6, 0x8985907b541d342, 0xaf63db4db0);
    assert [] + [0x61 as byte] == [0x61] && [] + [0x66 as byte] == [0x66];
    assert [0x66 as byte] + [0x6f] == [0x66, 0x6f];
  }

  // ---- Snapshots ----------------------------------------------------------------------------

  /** The first endpoint of `lane` in a snapshot. */
  function FindEndpoint(snapshot: seq<Endpoint>, lane: nat): (r: Option<Endpoint>)
    ensures r.Some? ==> r.value in snapshot && r.value.lane == lane
    ensures r.None? <==> forall e <- snapshot :: e.lane != lane
  {
    if snapshot == [] then None
    else if snapshot[0].lane == lane then Some(snapshot[0])
    else FindEndpoint(snapshot[1..], lane)
  }

  function Without(snapshot: seq<Endpoint>, lane: nat): (r: seq<Endpoint>)
    ensures forall e <- r :: e in snapshot && e.lane != lane
    ensures forall e <- snapshot | e.lane != lane :: e in r
  {
    if snapshot == [] then []
    else
      var front := Without(snapshot[..|snapshot| - 1], lane);
      var last := snapshot[|snapshot| - 1];
      if last.lane == lane then front else front + [last]
  }

  ghost predicate StrictlyIncreasing(snapshot: seq<Endpoint>) {
    forall i, j | 0 <= i < j < |snapshot| :: snapshot[i].lane < snapshot[j].lane
  }

  lemma {:induction false} WithoutKeepsOrder(snapshot: seq<Endpoint>, lane: nat)
    requires StrictlyIncreasing(snapshot)
    ensures StrictlyIncreasing(Without(snapshot, lane))
  {
    if snapshot != [] {
      WithoutKeepsOrder(snapshot[..|snapshot| - 1], lane);
    }
  }

  /** In a snapshot with strictly increasing lanes the lookup finds the only match. */
  lemma FindIsUnique(snapshot: seq<Endpoint>, e: Endpoint)
    requires StrictlyIncreasing(snapshot) && e in snapshot
    ensures FindEndpoint(snapshot, e.lane) == Some(e)
  {
    var i :| 0 <= i < |snapshot| && snapshot[i] == e;
    var found := FindEndpoint(snapshot, e.lane);
    var j :| 0 <= j < |snapshot| && snapshot[j] == found.value;
  }
}
