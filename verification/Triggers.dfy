/** Triggers and their ids: telephonist/types.go. */
module Triggers {
  type byte = x: int | 0 <= x < 256
  type Bytes = seq<byte>  // a Go string or []byte

  const TWO_64: int := 0x1_0000_0000_0000_0000
  type uint64 = x: int | 0 <= x < TWO_64
  newtype Id = x: int | 0 <= x < TWO_64

  const TRIGGER_CRON: Bytes := [0x63, 0x72, 0x6f, 0x6e]
  const TRIGGER_EVENT: Bytes := [0x65, 0x76, 0x65, 0x6e, 0x74]
  const TRIGGER_FSNOTIFY: Bytes := [0x66, 0x73, 0x6e, 0x6f, 0x74, 0x69, 0x66, 0x79]

  datatype TaskTrigger = TaskTrigger(name: Bytes, body: Bytes, disabled: bool)

  // The 64-bit parameters of draft-eastlake-fnv, section 2.
  const FNV_OFFSET: uint64 := 0xcbf29ce484222325
  const FNV_PRIME: int := 0x100000001b3

  /** Exclusive or of the low `bits` bits, bit by bit. */
  function XorBits(a: nat, b: nat, bits: nat): nat {
    if bits == 0 then 0 else (a + b) % 2 + 2 * XorBits(a / 2, b / 2, bits - 1)
  }

  function Pow2(n: nat): (p: nat)
    ensures p > 0
  {
    if n == 0 then 1 else 2 * Pow2(n - 1)
  }

  lemma {:induction false} XorBitsBounded(a: nat, b: nat, bits: nat)
    ensures XorBits(a, b, bits) < Pow2(bits)
    ensures XorBits(a, b, bits) == XorBits(b, a, bits)
  {
    if bits > 0 {
      XorBitsBounded(a / 2, b / 2, bits - 1);
    }
  }

  lemma LowBit(a: nat, b: nat, high: nat)
    ensures ((a + b) % 2 + 2 * high) / 2 == high
    ensures ((a + b) % 2 + 2 * high + b) % 2 == a % 2
  {
    assert (a + b) % 2 == 0 || (a + b) % 2 == 1;
  }

  lemma {:induction false} XorBitsCancels(a: nat, b: nat, bits: nat)
    requires a < Pow2(bits)
    ensures XorBits(XorBits(a, b, bits), b, bits) == a
  {
    if bits > 0 {
      var high := XorBits(a / 2, b / 2, bits - 1);
      LowBit(a, b, high);
      XorBitsCancels(a / 2, b / 2, bits - 1);
      XorBitsStep((a + b) % 2 + 2 * high, b, bits);
    }
  }

  lemma XorBitsStep(x: nat, b: nat, bits: nat)
    requires bits > 0
    ensures XorBits(x, b, bits) == (x + b) % 2 + 2 * XorBits(x / 2, b / 2, bits - 1)
  {
  }

  lemma ByteXorInjective(a: byte, b: byte, c: byte)
    ensures XorBits(a, c, 8) == XorBits(b, c, 8) ==> a == b
    ensures XorBits(c, a, 8) == XorBits(c, b, 8) ==> a == b
  {
    assert Pow2(8) == 256;
    XorBitsCancels(a, c, 8);
    XorBitsCancels(b, c, 8);
    XorBitsBounded(a, c, 8);
    XorBitsBounded(b, c, 8);
  }

  lemma ByteXorIsByte(a: byte, b: byte)
    ensures XorBits(a, b, 8) < 256
  {
    assert Pow2(8) == 256;
    XorBitsBounded(a, b, 8);
  }

  lemma LowByteFits(h: uint64, low: nat)
    requires low < 256
    ensures 0 <= 256 * (h / 256) + low < TWO_64
  {
  }

  /** Exclusive or with a byte, which reaches the low eight bits only. */
  function Xor(h: uint64, b: byte): uint64 {
    ByteXorIsByte(h % 256, b);
    LowByteFits(h, XorBits(h % 256, b, 8));
    256 * (h / 256) + XorBits(h % 256, b, 8)
  }

  function TimesPrime(x: uint64): uint64 {
    x * FNV_PRIME % TWO_64
  }

  function Digest(h: uint64, data: Bytes): uint64
    decreases |data|
  {
    if |data| == 0 then h else Digest(TimesPrime(Xor(h, data[0])), data[1..])
  }

  /** What GetID hashes: the name, a zero byte and the body. */
  function Source(t: TaskTrigger): Bytes {
    t.name + [0] + t.body
  }

  function TriggerId(t: TaskTrigger): Id {
    Digest(FNV_OFFSET, Source(t)) as Id
  }

  /** hash/fnv's New64a: one running digest. */
  class Fnv64a {
    var state: uint64

    constructor ()
      ensures state == FNV_OFFSET
    {
      state := FNV_OFFSET;
    }

    method Write(data: Bytes)
      modifies this
      ensures state == Digest(old(state), data)
    {
      var i := 0;
      while i < |data|
        invariant 0 <= i <= |data|
        invariant Digest(state, data[i..]) == Digest(old(state), data)
      {
        state := TimesPrime(Xor(state, data[i]));
        i := i + 1;
      }
    }

    method Reset()
      modifies this
      ensures state == FNV_OFFSET
    {
      state := FNV_OFFSET;
    }
  }

  /** The digest object is shared by all calls; each call leaves it as it found it. */
  method GetID(hash: Fnv64a, trigger: TaskTrigger) returns (id: Id)
    requires hash.state == FNV_OFFSET
    modifies hash
    ensures id == TriggerId(trigger)
    ensures hash.state == FNV_OFFSET
  {
    hash.Write(trigger.name);
    hash.Write([0]);
    hash.Write(trigger.body);
    id := hash.state as Id;
    DigestAppend(FNV_OFFSET, trigger.name, [0]);
    DigestAppend(FNV_OFFSET, trigger.name + [0], trigger.body);
    hash.Reset();
  }

  lemma {:induction false} DigestAppend(h: uint64, a: Bytes, b: Bytes)
    ensures Digest(h, a + b) == Digest(Digest(h, a), b)
    decreases |a|
  {
    if a == [] {
      assert a + b == b;
    } else {
      assert (a + b)[1..] == a[1..] + b;
      DigestAppend(TimesPrime(Xor(h, a[0])), a[1..], b);
    }
  }

  /** Vectors of draft-eastlake-fnv, appendix C: the digests of the empty string and of "a". */
  lemma KnownDigests(h: uint64, a: byte)
    requires h == FNV_OFFSET && a == 0x61
    ensures Digest(h, []) == 0xcbf29ce484222325
    ensures Digest(h, [a]) == 0xaf63dc4c8601ec8c
  {
    KnownHighXor(0x2, 0x6);
    KnownXor(h % 256, a);
    assert [a][1..] == [];
  }

  lemma KnownHighXor(x: nat, y: nat)
    requires x == 0x2 && y == 0x6
    ensures XorBits(x, y, 4) == 0x4
  {
    XorBitsStep(x / 2, y / 2, 3);
    XorBitsStep(x / 4, y / 4, 2);
  }

  lemma KnownXor(x: nat, y: nat)
    requires x == 0x25 && y == 0x61 && XorBits(0x2, 0x6, 4) == 0x4
    ensures XorBits(x, y, 8) == 0x44
  {
    XorBitsStep(x / 2, y / 2, 7);
    XorBitsStep(x / 4, y / 4, 6);
    XorBitsStep(x / 8, y / 8, 5);
  }

  // ---- Injectivity ----

  lemma RemainderOfShift(x: uint64, z: int)
    ensures (x + z * TWO_64) % TWO_64 == x
  {
  }

  /** The prime is odd, so it has an inverse modulo 2^64. */
  lemma TimesPrimeInvertible(x: uint64)
    ensures TimesPrime(x) * 0xce965057aff6957b % TWO_64 == x
  {
    var inverse := 0xce965057aff6957b;
    var q := x * FNV_PRIME / TWO_64;
    assert FNV_PRIME * inverse == 1 + 887285111055 * TWO_64;
    assert TimesPrime(x) * inverse == x + (887285111055 * x - q * inverse) * TWO_64;
    RemainderOfShift(x, 887285111055 * x - q * inverse);
  }

  lemma SplitUnique(p: int, r: int, q: int, t: int)
    requires 0 <= r < 256 && 0 <= t < 256
    ensures 256 * p + r == 256 * q + t <==> p == q && r == t
  {
  }

  lemma XorInjective(g: uint64, h: uint64, b: byte, c: byte)
    ensures Xor(g, b) == Xor(h, b) <==> g == h
    ensures Xor(g, b) == Xor(g, c) <==> b == c
  {
    var x, y, z := g % 256, h % 256, g / 256;
    ByteXorIsByte(x, b);
    ByteXorIsByte(y, b);
    ByteXorIsByte(x, c);
    ByteXorInjective(x, y, b);
    ByteXorInjective(b, c, x);
    SplitUnique(z, XorBits(x, b, 8), h / 256, XorBits(y, b, 8));
    SplitUnique(z, XorBits(x, b, 8), z, XorBits(x, c, 8));
    SplitUnique(z, x, h / 256, y);
  }

  /** With the same rest of the input, two digests agree only if they agreed before it. */
  lemma {:induction false} DigestInjective(g: uint64, h: uint64, data: Bytes)
    ensures Digest(g, data) == Digest(h, data) <==> g == h
    decreases |data|
  {
    if data != [] {
      var x, y := Xor(g, data[0]), Xor(h, data[0]);
      XorInjective(g, h, data[0], data[0]);
      TimesPrimeInvertible(x);
      TimesPrimeInvertible(y);
      DigestInjective(TimesPrime(x), TimesPrime(y), data[1..]);
    }
  }

  /** A common prefix and a common suffix decide nothing: a collision lies in the part between. */
  lemma CollisionsAreLocal(prefix: Bytes, a: Bytes, b: Bytes, suffix: Bytes)
    ensures Digest(FNV_OFFSET, prefix + a + suffix) == Digest(FNV_OFFSET, prefix + b + suffix)
            <==> Digest(Digest(FNV_OFFSET, prefix), a) == Digest(Digest(FNV_OFFSET, prefix), b)
  {
    DigestAppend(FNV_OFFSET, prefix + a, suffix);
    DigestAppend(FNV_OFFSET, prefix + b, suffix);
    DigestAppend(FNV_OFFSET, prefix, a);
    DigestAppend(FNV_OFFSET, prefix, b);
    DigestInjective(Digest(FNV_OFFSET, prefix + a), Digest(FNV_OFFSET, prefix + b), suffix);
  }

  ghost predicate DifferInOneByte(a: Bytes, b: Bytes) {
    && |a| == |b|
    && exists i | 0 <= i < |a| :: a[i] != b[i] && a[..i] == b[..i] && a[i + 1..] == b[i + 1..]
  }

  lemma OneByteInjective(h: uint64, b: byte, c: byte)
    ensures Digest(h, [b]) == Digest(h, [c]) <==> b == c
  {
    XorInjective(h, h, b, c);
    TimesPrimeInvertible(Xor(h, b));
    TimesPrimeInvertible(Xor(h, c));
  }

  lemma OneByteChangesDigest(a: Bytes, b: Bytes)
    requires DifferInOneByte(a, b)
    ensures Digest(FNV_OFFSET, a) != Digest(FNV_OFFSET, b)
  {
    var i :| 0 <= i < |a| && a[i] != b[i] && a[..i] == b[..i] && a[i + 1..] == b[i + 1..];
    SplitAt(a, i);
    SplitAt(b, i);
    OneByteBetween(a[..i], a[i], b[i], a[i + 1..]);
  }

  lemma SplitAt(data: Bytes, i: nat)
    requires i < |data|
    ensures data[..i] + [data[i]] + data[i + 1..] == data
  {
  }

  lemma OneByteBetween(prefix: Bytes, b: byte, c: byte, suffix: Bytes)
    requires b != c
    ensures Digest(FNV_OFFSET, prefix + [b] + suffix) != Digest(FNV_OFFSET, prefix + [c] + suffix)
  {
    CollisionsAreLocal(prefix, [b], [c], suffix);
    OneByteInjective(Digest(FNV_OFFSET, prefix), b, c);
  }

  /** Triggers of one name whose bodies differ in exactly one byte never share an id. */
  lemma OneByteChangesId(t: TaskTrigger, u: TaskTrigger)
    requires t.name == u.name && DifferInOneByte(t.body, u.body)
    ensures TriggerId(t) != TriggerId(u)
  {
    OneByteInSource(t.name + [0], t.body, u.body);
    OneByteChangesDigest(Source(t), Source(u));
  }

  lemma OneByteInSource(prefix: Bytes, a: Bytes, b: Bytes)
    requires DifferInOneByte(a, b)
    ensures DifferInOneByte(prefix + a, prefix + b)
  {
    var i :| 0 <= i < |a| && a[i] != b[i] && a[..i] == b[..i] && a[i + 1..] == b[i + 1..];
    var x, y, j := prefix + a, prefix + b, |prefix| + i;
    assert x[..j] == prefix + a[..i] && y[..j] == prefix + b[..i];
    assert x[j + 1..] == a[i + 1..] && y[j + 1..] == b[i + 1..];
    assert x[j] != y[j];
  }

  /** Triggers of one body: the ids agree exactly when the digests of the names do. */
  lemma SameBodyCollision(t: TaskTrigger, u: TaskTrigger)
    requires t.body == u.body
    ensures TriggerId(t) == TriggerId(u) <==> Digest(FNV_OFFSET, t.name) == Digest(FNV_OFFSET, u.name)
  {
    assert Source(t) == [] + t.name + ([0] + t.body) && Source(u) == [] + u.name + ([0] + t.body);
    CollisionsAreLocal([], t.name, u.name, [0] + t.body);
  }

  /** With no zero byte in the names, what is hashed determines the trigger apart from its disabled flag. */
  lemma SourceInjective(t: TaskTrigger, u: TaskTrigger)
    requires 0 !in t.name && 0 !in u.name
    ensures Source(t) == Source(u) <==> t.name == u.name && t.body == u.body
  {
    if Source(t) == Source(u) {
      var n := |t.name|;
      assert forall i | 0 <= i < n :: Source(t)[i] == t.name[i];
      assert forall i | 0 <= i < |u.name| :: Source(u)[i] == u.name[i];
      assert Source(t)[n] == 0 && Source(u)[|u.name|] == 0;
      assert n == |u.name|;
      assert t.name == Source(t)[..n] && u.name == Source(u)[..n];
      assert t.body == Source(t)[n + 1..] && u.body == Source(u)[n + 1..];
    }
  }
}
