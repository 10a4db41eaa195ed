/**
 What the binding layer shares with the peer beneath it: content hashes, entities, and the
 textual paths of the location index.
 */
module Substrate {
  import opened Wrappers

  type Byte = x: int | 0 <= x < 256

  type Bytes = seq<Byte>

  type Path = string

  const SHA256_FORMAT: Byte := 0
  const SHA384_FORMAT: Byte := 1

  const TYPE_PEER := "system/peer"
  const TYPE_QUORUM := "system/quorum"
  const TYPE_ATTESTATION := "system/attestation"
  const TYPE_SIGNATURE := "system/signature"
  const TYPE_CAPABILITY := "system/capability/token"

  function DigestLength(format: int): (n: Option<nat>) {
    if format == SHA256_FORMAT then Some(32)
    else if format == SHA384_FORMAT then Some(48)
    else None
  }

  /** A content hash: the format code and the digest. */
  datatype HashData = Hash(format: Byte, digest: Bytes)

  /** The hashes of an allocated format. */
  type Hash = h: HashData | DigestLength(h.format) == Some(|h.digest|)
    witness Hash(0, seq(32, _ => 0))

  /** An entity with the content hash it carries. */
  datatype Entity = Entity(entityType: string, data: Bytes, hash: Hash)

  /** `Hash::to_bytes`: format codes below 128 take one varint byte. */
  function ToBytes(h: Hash): Bytes {
    [h.format] + h.digest
  }

  datatype Varint = Varint(value: nat, consumed: nat)

  function Pow2(n: nat): (p: nat)
    ensures p >= 1
  {
    if n == 0 then 1 else 2 * Pow2(n - 1)
  }

  /** The little-endian base-128 reader: at most five bytes, no continuation bit on the fifth, and
      the bits of the fifth byte that do not fit 32 are shifted out. */
  function ReadVarint(bytes: Bytes, shift: nat, value: nat, consumed: nat): (r: Option<Varint>)
    ensures r.Some? ==> consumed < r.value.consumed <= consumed + |bytes|
    decreases |bytes|
  {
    if bytes == [] || consumed >= 5 then None
    else if shift >= 28 && bytes[0] >= 128 then None
    else
      var value' := value + (bytes[0] % 128) * Pow2(shift) % 0x1_0000_0000;
      if bytes[0] < 128 then Some(Varint(value', consumed + 1))
      else ReadVarint(bytes[1..], shift + 7, value', consumed + 1)
  }

  /** `Hash::from_bytes`: strict on the digest length, lenient on a padded format varint. */
  function FromBytes(bytes: Bytes): (r: Option<Hash>)
  {
    match ReadVarint(bytes, 0, 0, 0)
    case None => None
    case Some(v) =>
      match DigestLength(v.value)
      case None => None
      case Some(n) => if |bytes| == v.consumed + n then Some(Hash(v.value, bytes[v.consumed..])) else None
  }

  lemma HashBytesRoundTrip(h: Hash)
    ensures FromBytes(ToBytes(h)) == Some(h)
  {
    assert ToBytes(h)[0] == h.format < 128;
    assert ToBytes(h)[1..] == h.digest;
  }

  /** A hash reads back only from its own bytes, but for a padded format. */
  lemma FromBytesExactly(bytes: Bytes, h: Hash)
    requires bytes != [] && bytes[0] < 128
    ensures FromBytes(bytes) == Some(h) <==> bytes == ToBytes(h)
  {
    if bytes == ToBytes(h) { HashBytesRoundTrip(h); }
    assert bytes == [bytes[0]] + bytes[1..];
    assert Pow2(0) == 1;
    assert ReadVarint(bytes, 0, 0, 0) == Some(Varint(bytes[0], 1));
  }

  // ---------- the order of strings ----------

  /** Strict lexicographic order. */
  predicate Precedes(a: string, b: string) {
    b != "" && (a == "" || a[0] < b[0] || (a[0] == b[0] && Precedes(a[1..], b[1..])))
  }

  lemma PrecedesAsymmetric(a: string, b: string)
    requires Precedes(a, b)
    ensures !Precedes(b, a)
  {}

  lemma {:induction false} PrecedesTransitive(a: string, b: string, c: string)
    requires Precedes(a, b) && Precedes(b, c)
    ensures Precedes(a, c)
    decreases |a|
  {
    if a != "" && a[0] == b[0] && b[0] == c[0] { PrecedesTransitive(a[1..], b[1..], c[1..]); }
  }

  lemma {:induction false} PrecedesTotal(a: string, b: string)
    ensures a == b || Precedes(a, b) || Precedes(b, a)
    decreases |a|
  {
    if a != "" && b != "" && a[0] == b[0] {
      PrecedesTotal(a[1..], b[1..]);
      assert a == [a[0]] + a[1..] && b == [b[0]] + b[1..];
    }
  }

  // ---------- hexadecimal path segments ----------

  const HEX_DIGITS := "0123456789abcdef"

  function Hex(bytes: Bytes): (s: string)
    ensures |s| == 2 * |bytes|
    ensures '/' !in s
  {
    if bytes == [] then ""
    else [HEX_DIGITS[bytes[0] / 16], HEX_DIGITS[bytes[0] % 16]] + Hex(bytes[1..])
  }

  lemma HexDigitInjective(i: nat, j: nat)
    requires i < 16 && j < 16 && HEX_DIGITS[i] == HEX_DIGITS[j]
    ensures i == j
  {}

  lemma {:induction false} HexInjective(a: Bytes, b: Bytes)
    requires Hex(a) == Hex(b)
    ensures a == b
  {
    if a != [] {
      assert |b| == |a|;
      assert Hex(a)[0] == Hex(b)[0] && Hex(a)[1] == Hex(b)[1];
      HexDigitInjective(a[0] / 16, b[0] / 16);
      HexDigitInjective(a[0] % 16, b[0] % 16);
      assert Hex(a)[2..] == Hex(a[1..]) && Hex(b)[2..] == Hex(b[1..]);
      HexInjective(a[1..], b[1..]);
      assert a == [a[0]] + a[1..] && b == [b[0]] + b[1..];
    }
  }

  function HexSegment(h: Hash): string {
    Hex(ToBytes(h))
  }

  lemma HexSegmentInjective(g: Hash, h: Hash)
    requires HexSegment(g) == HexSegment(h)
    ensures g == h
  {
    HexInjective(ToBytes(g), ToBytes(h));
    assert g.digest == ToBytes(g)[1..] && h.digest == ToBytes(h)[1..];
    assert g.format == ToBytes(g)[0] && h.format == ToBytes(h)[0];
  }

  // ---------- paths of the location index ----------

  function SignaturePath(pid: string, target: Hash): Path {
    "/" + pid + "/system/signature/" + HexSegment(target)
  }

  function QuorumPath(pid: string, q: Hash): Path {
    "/" + pid + "/system/quorum/" + HexSegment(q)
  }

  function PeerConfigPath(pid: string): Path {
    "/" + pid + "/system/identity/peer-config"
  }

  lemma PrefixedEqual(prefix: string, a: string, b: string)
    requires prefix + a == prefix + b
    ensures a == b
  {
    assert (prefix + a)[|prefix|..] == a && (prefix + b)[|prefix|..] == b;
  }

  lemma SlashInTail(a: string, b: string, s: string, t: string)
    requires a + "/" + s == b + "/" + t && |a| < |b|
    ensures '/' in s
  {
    assert (b + "/" + t)[|b|] == '/' == (a + "/" + s)[|b|];
    assert s[|b| - |a| - 1] == '/';
  }

  /** A string splits in one way only at its last slash. */
  lemma SlashFreeTail(a: string, b: string, s: string, t: string)
    requires a + "/" + s == b + "/" + t && '/' !in s && '/' !in t
    ensures a == b && s == t
  {
    if |a| < |b| {
      SlashInTail(a, b, s, t);
    } else if |b| < |a| {
      SlashInTail(b, a, t, s);
    }
    assert (a + "/" + s)[..|a|] == a && (b + "/" + t)[..|b|] == b;
    assert (a + "/" + s)[|a| + 1..] == s && (b + "/" + t)[|b| + 1..] == t;
  }

  /** A signature path determines the hash it points for. */
  lemma SignaturePathTarget(p: string, g: Hash, q: string, h: Hash)
    requires SignaturePath(p, g) == SignaturePath(q, h)
    ensures g == h && p == q
  {
    var a, b := "/" + p + "/system/signature", "/" + q + "/system/signature";
    assert SignaturePath(p, g) == a + "/" + HexSegment(g) && SignaturePath(q, h) == b + "/" + HexSegment(h);
    SlashFreeTail(a, b, HexSegment(g), HexSegment(h));
    HexSegmentInjective(g, h);
    assert a[1..|a| - 17] == p && b[1..|b| - 17] == q;
  }
}
