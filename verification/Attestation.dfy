/** The 128-byte credit attestation: the bridge's encoder (TypeScript) against the
    escrow program's decoder (Rust), over one layout. */
module Attestation {
  import opened Numbers

  const VERSION: u64 := 1
  const TOTAL_LEN := 128
  const AGENT_OFFSET := 0
  const POOL_OFFSET := 32
  const CREDIT_LIMIT_OFFSET := 64
  const OUTSTANDING_OFFSET := 72
  const EXPIRES_AT_OFFSET := 80
  const ATTESTED_AT_OFFSET := 88
  const NONCE_OFFSET := 96
  const NONCE_LEN := 16
  const CHAIN_ID_OFFSET := 112
  const VERSION_OFFSET := 120
  const MAX_ATTESTATION_AGE_SECONDS: i64 := 15 * 60
  const CHAIN_ID_MAINNET: u64 := 1
  const CHAIN_ID_DEVNET: u64 := 2

  /** The fields a decoded message carries. */
  datatype Credit = Credit(
    agent: Pubkey,
    pool: Pubkey,
    creditLimit: u64,
    outstanding: u64,
    expiresAt: i64,
    attestedAt: i64,
    nonce: Bytes,
    chainId: u64)

  // ---- Little-endian numbers ----

  function Pow256(n: nat): nat {
    if n == 0 then 1 else 256 * Pow256(n - 1)
  }

  function ToLE(v: nat, n: nat): (b: Bytes)
    ensures |b| == n
  {
    if n == 0 then [] else [v % 256] + ToLE(v / 256, n - 1)
  }

  function FromLE(b: Bytes): nat {
    if b == [] then 0 else b[0] + 256 * FromLE(b[1..])
  }

  lemma {:induction false} FromToLE(v: nat, n: nat)
    requires v < Pow256(n)
    ensures FromLE(ToLE(v, n)) == v
  {
    if n != 0 {
      var b := ToLE(v, n);
      assert b[1..] == ToLE(v / 256, n - 1);
      FromToLE(v / 256, n - 1);
    }
  }

  lemma {:induction false} ToFromLE(b: Bytes)
    ensures FromLE(b) < Pow256(|b|)
    ensures ToLE(FromLE(b), |b|) == b
  {
    if b != [] {
      ToFromLE(b[1..]);
      assert FromLE(b) % 256 == b[0] && FromLE(b) / 256 == FromLE(b[1..]);
      assert b == [b[0]] + b[1..];
    }
  }

  lemma Pow256Of8()
    ensures Pow256(8) == U64_MAX + 1
  {
    assert Pow256(4) == 0x1_0000_0000;
    assert Pow256(8) == 256 * (256 * (256 * (256 * Pow256(4))));
  }

  /** `from_le_bytes` on eight bytes. */
  function DecodeU64(b: Bytes): u64
    requires |b| == 8
  {
    ToFromLE(b);
    Pow256Of8();
    FromLE(b)
  }

  /** The two's-complement pattern of a signed 64-bit number, and back. */
  function Pattern(v: i64): u64 {
    if v < 0 then v + U64_MAX + 1 else v
  }

  function Signed(p: u64): i64 {
    if p > I64_MAX then p - U64_MAX - 1 else p
  }

  lemma U64RoundTrip(v: u64)
    ensures DecodeU64(ToLE(v, 8)) == v
  {
    Pow256Of8();
    FromToLE(v, 8);
  }

  // ---- The Rust side ----

  function Slice(m: Bytes, offset: nat, len: nat): (s: Bytes)
    requires offset + len <= |m|
    ensures |s| == len
  {
    m[offset..offset + len]
  }

  function VersionOf(m: Bytes): u64
    requires |m| == TOTAL_LEN
  {
    DecodeU64(Slice(m, VERSION_OFFSET, 8))
  }

  function Decode(m: Bytes): Credit
    requires |m| == TOTAL_LEN
  {
    Credit(
      Slice(m, AGENT_OFFSET, 32),
      Slice(m, POOL_OFFSET, 32),
      DecodeU64(Slice(m, CREDIT_LIMIT_OFFSET, 8)),
      DecodeU64(Slice(m, OUTSTANDING_OFFSET, 8)),
      Signed(DecodeU64(Slice(m, EXPIRES_AT_OFFSET, 8))),
      Signed(DecodeU64(Slice(m, ATTESTED_AT_OFFSET, 8))),
      Slice(m, NONCE_OFFSET, NONCE_LEN),
      DecodeU64(Slice(m, CHAIN_ID_OFFSET, 8)))
  }

  // ---- The TypeScript side ----

  datatype EncodeError = AgentLength | PoolLength | NonceLength | U64Range | I64Range

  datatype Encoding = Encoded(bytes: Bytes) | Thrown(error: EncodeError)

  /** What the bridge hands the encoder: byte arrays of any length, unbounded integers. */
  datatype CreditInput = CreditInput(
    agent: Bytes,
    pool: Bytes,
    creditLimit: int,
    outstanding: int,
    expiresAt: int,
    attestedAt: int,
    nonce: Bytes,
    chainId: int)

  predicate LengthsOk(x: CreditInput) {
    |x.agent| == 32 && |x.pool| == 32 && |x.nonce| == 16
  }

  predicate IsU64(v: int) { 0 <= v <= U64_MAX }

  predicate IsI64(v: int) { I64_MIN <= v <= I64_MAX }

  predicate InRange(x: CreditInput) {
    && LengthsOk(x)
    && IsU64(x.creditLimit) && IsU64(x.outstanding)
    && IsI64(x.expiresAt) && IsI64(x.attestedAt)
    && IsU64(x.chainId)
  }

  function Fields(x: CreditInput): Credit
    requires InRange(x)
  {
    Credit(x.agent, x.pool, x.creditLimit, x.outstanding, x.expiresAt, x.attestedAt, x.nonce, x.chainId)
  }

  /** The layout as one concatenation: the fields in order, nothing between them. */
  function Layout(c: Credit): Bytes {
    c.agent + c.pool + ToLE(c.creditLimit, 8) + ToLE(c.outstanding, 8)
    + ToLE(Pattern(c.expiresAt), 8) + ToLE(Pattern(c.attestedAt), 8)
    + c.nonce + ToLE(c.chainId, 8) + ToLE(VERSION, 8)
  }

  predicate WellFormed(c: Credit) {
    |c.agent| == 32 && |c.pool| == 32 && |c.nonce| == NONCE_LEN
  }

  /** `buf.set(source, offset)`. */
  method SetBytes(buf: array<byte>, offset: nat, source: Bytes)
    requires offset + |source| <= buf.Length
    modifies buf
    ensures buf[offset..offset + |source|] == source
    ensures forall i :: 0 <= i < buf.Length && !(offset <= i < offset + |source|) ==> buf[i] == old(buf[i])
  {
    forall i | 0 <= i < |source| {
      buf[offset + i] := source[i];
    }
  }

  method WriteU64LE(buf: array<byte>, offset: nat, value: int) returns (thrown: bool)
    requires offset + 8 <= buf.Length
    modifies buf
    ensures thrown <==> !IsU64(value)
    ensures !thrown ==> buf[offset..offset + 8] == ToLE(value, 8)
    ensures forall i :: 0 <= i < buf.Length && !(offset <= i < offset + 8) ==> buf[i] == old(buf[i])
  {
    if value < 0 || value > U64_MAX {
      return true;
    }
    SetBytes(buf, offset, ToLE(value, 8));
    return false;
  }

  method WriteI64LE(buf: array<byte>, offset: nat, value: int) returns (thrown: bool)
    requires offset + 8 <= buf.Length
    modifies buf
    ensures thrown <==> !IsI64(value)
    ensures !thrown ==> buf[offset..offset + 8] == ToLE(Pattern(value), 8)
    ensures forall i :: 0 <= i < buf.Length && !(offset <= i < offset + 8) ==> buf[i] == old(buf[i])
  {
    if value < I64_MIN || value > I64_MAX {
      return true;
    }
    SetBytes(buf, offset, ToLE(Pattern(value), 8));
    return false;
  }

  /** `encodeAttestation`: fills a zeroed 128-byte buffer field by field.  It returns the
      canonical layout on every in-range input and throws on every other one. */
  method EncodeAttestation(x: CreditInput) returns (r: Encoding)
    ensures r.Encoded? <==> InRange(x)
    ensures r.Encoded? ==> r.bytes == Layout(Fields(x)) && |r.bytes| == TOTAL_LEN
    ensures r == Thrown(AgentLength) <==> |x.agent| != 32
    ensures r == Thrown(PoolLength) <==> |x.agent| == 32 && |x.pool| != 32
    ensures r == Thrown(NonceLength) <==> |x.agent| == 32 && |x.pool| == 32 && |x.nonce| != 16
    ensures r == Thrown(I64Range) <==>
            && LengthsOk(x) && IsU64(x.creditLimit) && IsU64(x.outstanding)
            && !(IsI64(x.expiresAt) && IsI64(x.attestedAt))
  {
    if |x.agent| != 32 { return Thrown(AgentLength); }
    if |x.pool| != 32 { return Thrown(PoolLength); }
    if |x.nonce| != 16 { return Thrown(NonceLength); }
    var buf := new byte[TOTAL_LEN](_ => 0);
    SetBytes(buf, AGENT_OFFSET, x.agent);
    SetBytes(buf, POOL_OFFSET, x.pool);
    var thrown := WriteU64LE(buf, CREDIT_LIMIT_OFFSET, x.creditLimit);
    if thrown { return Thrown(U64Range); }
    thrown := WriteU64LE(buf, OUTSTANDING_OFFSET, x.outstanding);
    if thrown { return Thrown(U64Range); }
    thrown := WriteI64LE(buf, EXPIRES_AT_OFFSET, x.expiresAt);
    if thrown { return Thrown(I64Range); }
    thrown := WriteI64LE(buf, ATTESTED_AT_OFFSET, x.attestedAt);
    if thrown { return Thrown(I64Range); }
    SetBytes(buf, NONCE_OFFSET, x.nonce);
    thrown := WriteU64LE(buf, CHAIN_ID_OFFSET, x.chainId);
    if thrown { return Thrown(U64Range); }
    thrown := WriteU64LE(buf, VERSION_OFFSET, VERSION);
    SlicesDetermine(buf[..], Fields(x));
    return Encoded(buf[..]);
  }

  /** Every field of `c` at its offset in `m`. */
  ghost predicate HasSlices(m: Bytes, c: Credit) {
    && |m| == TOTAL_LEN
    && Slice(m, AGENT_OFFSET, 32) == c.agent
    && Slice(m, POOL_OFFSET, 32) == c.pool
    && Slice(m, CREDIT_LIMIT_OFFSET, 8) == ToLE(c.creditLimit, 8)
    && Slice(m, OUTSTANDING_OFFSET, 8) == ToLE(c.outstanding, 8)
    && Slice(m, EXPIRES_AT_OFFSET, 8) == ToLE(Pattern(c.expiresAt), 8)
    && Slice(m, ATTESTED_AT_OFFSET, 8) == ToLE(Pattern(c.attestedAt), 8)
    && Slice(m, NONCE_OFFSET, NONCE_LEN) == c.nonce
    && Slice(m, CHAIN_ID_OFFSET, 8) == ToLE(c.chainId, 8)
    && Slice(m, VERSION_OFFSET, 8) == ToLE(VERSION, 8)
  }

  /** The nine fields tile all 128 bytes: a message is the concatenation of its slices. */
  lemma Tiling(m: Bytes)
    requires |m| == TOTAL_LEN
    ensures m == m[0..32] + m[32..64] + m[64..72] + m[72..80] + m[80..88] + m[88..96]
                 + m[96..112] + m[112..120] + m[120..128]
  {
  }

  lemma SlicesDetermine(m: Bytes, c: Credit)
    requires HasSlices(m, c)
    ensures m == Layout(c)
  {
    Tiling(m);
  }

  lemma LayoutHasSlices(c: Credit)
    requires WellFormed(c)
    ensures HasSlices(Layout(c), c)
  {
    hide ToLE, Pattern;
    var m := Layout(c);
    assert Slice(m, AGENT_OFFSET, 32) == c.agent;
    assert Slice(m, POOL_OFFSET, 32) == c.pool;
    assert Slice(m, CREDIT_LIMIT_OFFSET, 8) == ToLE(c.creditLimit, 8);
    assert Slice(m, OUTSTANDING_OFFSET, 8) == ToLE(c.outstanding, 8);
    assert Slice(m, EXPIRES_AT_OFFSET, 8) == ToLE(Pattern(c.expiresAt), 8);
    assert Slice(m, ATTESTED_AT_OFFSET, 8) == ToLE(Pattern(c.attestedAt), 8);
    assert Slice(m, NONCE_OFFSET, NONCE_LEN) == c.nonce;
    assert Slice(m, CHAIN_ID_OFFSET, 8) == ToLE(c.chainId, 8);
    assert Slice(m, VERSION_OFFSET, 8) == ToLE(VERSION, 8);
  }

  /** Decoding what the bridge encodes gives the same fields and version 1. */
  lemma DecodeOfLayout(c: Credit)
    requires WellFormed(c)
    ensures |Layout(c)| == TOTAL_LEN
    ensures Decode(Layout(c)) == c
    ensures VersionOf(Layout(c)) == VERSION
  {
    LayoutHasSlices(c);
    U64RoundTrip(c.creditLimit);
    U64RoundTrip(c.outstanding);
    U64RoundTrip(Pattern(c.expiresAt));
    U64RoundTrip(Pattern(c.attestedAt));
    U64RoundTrip(c.chainId);
    U64RoundTrip(VERSION);
  }

  lemma NumberSlice(m: Bytes, offset: nat)
    requires offset + 8 <= |m|
    ensures ToLE(DecodeU64(Slice(m, offset, 8)), 8) == Slice(m, offset, 8)
    ensures ToLE(Pattern(Signed(DecodeU64(Slice(m, offset, 8)))), 8) == Slice(m, offset, 8)
  {
    ToFromLE(Slice(m, offset, 8));
  }

  /** Re-encoding any decoded version-1 message gives back the very bytes that were signed. */
  lemma LayoutOfDecode(m: Bytes)
    requires |m| == TOTAL_LEN && VersionOf(m) == VERSION
    ensures WellFormed(Decode(m)) && Layout(Decode(m)) == m
  {
    hide ToLE, DecodeU64, Pattern, Signed, Layout;
    NumberSlice(m, CREDIT_LIMIT_OFFSET);
    NumberSlice(m, OUTSTANDING_OFFSET);
    NumberSlice(m, EXPIRES_AT_OFFSET);
    NumberSlice(m, ATTESTED_AT_OFFSET);
    NumberSlice(m, CHAIN_ID_OFFSET);
    NumberSlice(m, VERSION_OFFSET);
    SlicesDetermine(m, Decode(m));
  }

  function U32At(m: Bytes, at: nat): int
    requires at + 4 <= |m|
  {
    var b0: int, b1: int, b2: int, b3: int := m[at], m[at + 1], m[at + 2], m[at + 3];
    b0 + 0x100 * b1 + 0x1_0000 * b2 + 0x100_0000 * b3
  }

  /** Eight bytes from `at`, least significant first. */
  function U64At(m: Bytes, at: nat): int
    requires at + 8 <= |m|
  {
    U32At(m, at) + 0x1_0000_0000 * U32At(m, at + 4)
  }

  /** The same, from 2^63 on standing for a negative number. */
  function I64At(m: Bytes, at: nat): int
    requires at + 8 <= |m|
  {
    if U64At(m, at) < 0x8000_0000_0000_0000 then U64At(m, at) else U64At(m, at) - 0x1_0000_0000_0000_0000
  }

  lemma EightBytes(m: Bytes, at: nat)
    requires at + 8 <= |m|
    ensures DecodeU64(Slice(m, at, 8)) == U64At(m, at)
  {
    var b := Slice(m, at, 8);
    assert b == b[0..] && b[8..] == [];
    assert FromLE(b[4..]) == U32At(m, at + 4) by {
      FourBytes(b, 4);
    }
    FourBytes(b, 0);
  }

  lemma FourBytes(b: Bytes, k: nat)
    requires k + 4 <= |b|
    ensures FromLE(b[k..]) == U32At(b, k) + 0x1_0000_0000 * FromLE(b[k + 4..])
  {
    Peel(b, k);
    Peel(b, k + 1);
    Peel(b, k + 2);
    Peel(b, k + 3);
    hide FromLE;
  }

  lemma Peel(b: Bytes, k: nat)
    requires k < |b|
    ensures FromLE(b[k..]) == b[k] + 0x100 * FromLE(b[k + 1..])
  {
    assert b[k..][1..] == b[k + 1..];
  }

  /** Where each field of a 128-byte message is, byte by byte. */
  lemma FieldPositions(m: Bytes)
    requires |m| == 128
    ensures
      var c := Decode(m);
      && c.agent == m[..32] && c.pool == m[32..64]
      && c.creditLimit == U64At(m, 64) && c.outstanding == U64At(m, 72)
      && c.expiresAt == I64At(m, 80) && c.attestedAt == I64At(m, 88)
      && c.nonce == m[96..112] && c.chainId == U64At(m, 112) && VersionOf(m) == U64At(m, 120)
  {
    EightBytes(m, 64);
    EightBytes(m, 72);
    EightBytes(m, 80);
    EightBytes(m, 88);
    EightBytes(m, 112);
    EightBytes(m, 120);
    hide DecodeU64, U64At;
  }
}
