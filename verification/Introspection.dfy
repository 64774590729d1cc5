/** Reading the sibling instructions of a transaction: the ed25519 verify instruction
    just before the current one, the memo nonce, and the Squads governance call. */
module Introspection {
  import opened Numbers

  datatype ProgramId = Ed25519 | Memo | SquadsV4 | Other(key: Pubkey)

  datatype AccountMeta = AccountMeta(pubkey: Pubkey, isWritable: bool)

  datatype RawIx = RawIx(program: ProgramId, accounts: seq<AccountMeta>, data: Bytes)

  datatype IxError =
    | PrevIxNotFound
    | Ed25519NotFound
    | Ed25519MalformedData
    | Ed25519OffsetMismatch

  datatype Parsed = Signed(pubkey: Pubkey, message: Bytes) | Rejected(error: IxError)

  const OFFSETS_HEADER := 2
  const OFFSETS_LEN := 14
  const MAX_IX_SCAN := 64

  datatype Offsets = Offsets(
    signatureOffset: nat,
    signatureIndex: nat,
    publicKeyOffset: nat,
    publicKeyIndex: nat,
    messageOffset: nat,
    messageSize: nat,
    messageIndex: nat)

  function U16At(data: Bytes, i: nat): nat
    requires i + 2 <= |data|
  {
    (data[i] as int) + 256 * (data[i + 1] as int)
  }

  /** The offset record of signature entry `entry`. */
  function OffsetsAt(data: Bytes, entry: nat): Offsets
    requires OFFSETS_HEADER + OFFSETS_LEN * (entry + 1) <= |data|
  {
    var o := OFFSETS_HEADER + OFFSETS_LEN * entry;
    Offsets(U16At(data, o), U16At(data, o + 2), U16At(data, o + 4), U16At(data, o + 6),
            U16At(data, o + 8), U16At(data, o + 10), U16At(data, o + 12))
  }

  function ParseOffsets(data: Bytes): Option<Offsets> {
    if |data| < OFFSETS_HEADER + OFFSETS_LEN then None else Some(OffsetsAt(data, 0))
  }

  /** `verify_prev_ed25519`: the key and message the previous instruction verified. */
  function VerifyPrevEd25519(ixs: seq<RawIx>, cur: nat): Parsed {
    if cur == 0 || cur > |ixs| then Rejected(PrevIxNotFound)
    else
      var prev := ixs[cur - 1];
      if prev.program != Ed25519 then Rejected(Ed25519NotFound)
      else if prev.data == [] || prev.data[0] != 1 then Rejected(Ed25519MalformedData)
      else
        match ParseOffsets(prev.data)
        case None => Rejected(Ed25519MalformedData)
        case Some(o) =>
          if o.signatureIndex != cur - 1 || o.publicKeyIndex != cur - 1 || o.messageIndex != cur - 1
          then Rejected(Ed25519OffsetMismatch)
          else if |prev.data| < o.publicKeyOffset + 32 then Rejected(Ed25519MalformedData)
          else if |prev.data| < o.messageOffset + o.messageSize then Rejected(Ed25519MalformedData)
          else Signed(prev.data[o.publicKeyOffset..o.publicKeyOffset + 32],
                      prev.data[o.messageOffset..o.messageOffset + o.messageSize])
  }

  function Word(low: byte, high: byte): nat { (low as int) + 256 * (high as int) }

  /** The parser on the bytes themselves: the previous instruction is an ed25519 one with exactly one
      signature, all three of its instruction indices name itself, and the 32-byte key and the
      message lie where its offsets say, inside it. */
  lemma SignedExactly(ixs: seq<RawIx>, cur: nat, key: Pubkey, message: Bytes)
    ensures
      VerifyPrevEd25519(ixs, cur) == Signed(key, message) <==>
      && 1 <= cur <= |ixs| && ixs[cur - 1].program == Ed25519
      && var d := ixs[cur - 1].data;
      && 16 <= |d| && d[0] == 1
      && Word(d[4], d[5]) == Word(d[8], d[9]) == Word(d[14], d[15]) == cur - 1
      && var keyAt, messageAt, size := Word(d[6], d[7]), Word(d[10], d[11]), Word(d[12], d[13]);
      && keyAt + 32 <= |d| && key == d[keyAt..keyAt + 32]
      && messageAt + size <= |d| && message == d[messageAt..messageAt + size]
  {
  }

  /** Anything but one signature is malformed, and an offset into another instruction a mismatch. */
  lemma RejectedFor(ixs: seq<RawIx>, cur: nat)
    requires 1 <= cur <= |ixs|
    ensures
      var ix, seen := ixs[cur - 1], VerifyPrevEd25519(ixs, cur);
      && (seen == Rejected(Ed25519NotFound) <==> ix.program != Ed25519)
      && (ix.program == Ed25519 && (|ix.data| < 16 || ix.data[0] != 1) ==> seen == Rejected(Ed25519MalformedData))
      && (seen == Rejected(Ed25519OffsetMismatch) <==>
            && ix.program == Ed25519 && 16 <= |ix.data| && ix.data[0] == 1
            && exists i :: i in {4, 8, 14} && Word(ix.data[i], ix.data[i + 1]) != cur - 1)
  {
    if ixs[cur - 1].program == Ed25519 && 16 <= |ixs[cur - 1].data| {
      var d := ixs[cur - 1].data;
      assert OffsetsAt(d, 0).signatureIndex == Word(d[4], d[4 + 1]);
      assert OffsetsAt(d, 0).publicKeyIndex == Word(d[8], d[8 + 1]);
      assert OffsetsAt(d, 0).messageIndex == Word(d[14], d[14 + 1]);
    }
  }

  // ---- What the native ed25519 program has checked by the time the escrow runs ----

  type Signature = Bytes

  /** A signature check, left uninterpreted: (public key, message, signature). */
  type SignatureCheck = (Pubkey, Bytes, Signature) -> bool

  /** Bytes `[offset, offset + len)` of the instruction an offset record names; the index
      0xFFFF stands for the verify instruction itself. */
  ghost predicate NativeRead(ixs: seq<RawIx>, self: nat, index: nat, offset: nat, len: nat, out: Bytes) {
    var source := if index == 0xFFFF then self else index;
    && source < |ixs|
    && offset + len <= |ixs[source].data|
    && out == ixs[source].data[offset..offset + len]
  }

  ghost predicate NativeEntryVerified(ixs: seq<RawIx>, self: nat, entry: nat, check: SignatureCheck)
    requires self < |ixs| && OFFSETS_HEADER + OFFSETS_LEN * (entry + 1) <= |ixs[self].data|
  {
    var o := OffsetsAt(ixs[self].data, entry);
    exists key, message, signature ::
      && NativeRead(ixs, self, o.publicKeyIndex, o.publicKeyOffset, 32, key)
      && NativeRead(ixs, self, o.messageIndex, o.messageOffset, o.messageSize, message)
      && NativeRead(ixs, self, o.signatureIndex, o.signatureOffset, 64, signature)
      && check(key, message, signature)
  }

  /** The native program let instruction `self` through: each of its entries verified. */
  ghost predicate NativeAccepted(ixs: seq<RawIx>, self: nat, check: SignatureCheck) {
    && self < |ixs|
    && ixs[self].data != []
    && forall entry: nat {:trigger NativeEntryVerified(ixs, self, entry, check)} ::
         entry < ixs[self].data[0] && OFFSETS_HEADER + OFFSETS_LEN * (entry + 1) <= |ixs[self].data| ==>
           NativeEntryVerified(ixs, self, entry, check)
  }

  /** The parser and the native program look at the same bytes: whatever
      `VerifyPrevEd25519` returns is a message the native program verified under that key. */
  lemma ParsedIsVerified(ixs: seq<RawIx>, cur: nat, check: SignatureCheck)
    requires VerifyPrevEd25519(ixs, cur).Signed?
    requires NativeAccepted(ixs, cur - 1, check)
    ensures exists signature ::
              check(VerifyPrevEd25519(ixs, cur).pubkey, VerifyPrevEd25519(ixs, cur).message, signature)
  {
    assert NativeEntryVerified(ixs, cur - 1, 0, check);
  }

  // ---- A verify instruction as a client builds it ----

  function U16LE(v: nat): Bytes
    requires v < 0x1_0000
  {
    [v % 256, v / 256]
  }

  /** The sixteen bytes before the signature, for a verify instruction at position `index`. */
  function VerifyHeader(index: nat, size: nat): (h: Bytes)
    requires index < 0x1_0000 && size < 0x1_0000
    ensures |h| == 16 && h[0] == 1
  {
    [1, 0] + U16LE(16) + U16LE(index) + U16LE(80) + U16LE(index) + U16LE(112) + U16LE(size) + U16LE(index)
  }

  /** One signature, everything in the instruction's own data: header, signature, key, message. */
  function VerifyIx(index: nat, pubkey: Pubkey, message: Bytes, signature: Signature): RawIx
    requires index < 0x1_0000 && |pubkey| == 32 && |signature| == 64 && |message| < 0x1_0000
  {
    RawIx(Ed25519, [], VerifyHeader(index, |message|) + signature + pubkey + message)
  }

  lemma HeaderOffsets(index: nat, size: nat, rest: Bytes)
    requires index < 0x1_0000 && size < 0x1_0000
    ensures OffsetsAt(VerifyHeader(index, size) + rest, 0) == Offsets(16, index, 80, index, 112, size, index)
  {
    var h := VerifyHeader(index, size);
    var data := h + rest;
    assert forall i :: 0 <= i < 16 ==> data[i] == h[i];
    assert h[2..] == U16LE(16) + U16LE(index) + U16LE(80) + U16LE(index) + U16LE(112) + U16LE(size) + U16LE(index);
    assert h[2] == 16 && h[3] == 0 && h[4] == index % 256 && h[5] == index / 256;
    assert h[6] == 80 && h[7] == 0 && h[8] == index % 256 && h[9] == index / 256;
    assert h[10] == 112 && h[11] == 0 && h[12] == size % 256 && h[13] == size / 256;
    assert h[14] == index % 256 && h[15] == index / 256;
  }

  /** The parser recovers key and message from such an instruction wherever it stands, whatever
      comes before it and after it. */
  lemma PackedIsParsed(before: seq<RawIx>, pubkey: Pubkey, message: Bytes, signature: Signature, after: seq<RawIx>)
    requires |before| < 0x1_0000 && |pubkey| == 32 && |signature| == 64 && |message| < 0x1_0000
    ensures VerifyPrevEd25519(before + [VerifyIx(|before|, pubkey, message, signature)] + after, |before| + 1)
            == Signed(pubkey, message)
  {
    var ix := VerifyIx(|before|, pubkey, message, signature);
    var ixs := before + [ix] + after;
    var data, header := ix.data, VerifyHeader(|before|, |message|);
    assert ixs[|before|] == ix;
    assert data == header + (signature + pubkey + message);
    HeaderOffsets(|before|, |message|, signature + pubkey + message);
    hide OffsetsAt, VerifyHeader;
    assert data[80..112] == pubkey;
    assert data[112..112 + |message|] == message;
  }

  // ---- The two scans ----

  predicate IsMemo(ix: RawIx, nonce: Bytes) {
    ix.program == Memo && ix.data == nonce
  }

  predicate IsSquadsFor(ix: RawIx, vault: Pubkey) {
    && ix.program == SquadsV4
    && exists i :: 0 <= i < |ix.accounts| && ix.accounts[i].pubkey == vault && ix.accounts[i].isWritable
  }

  /** Whether one of the first 64 instructions satisfies the memo test. */
  predicate HasMemo(ixs: seq<RawIx>, nonce: Bytes) {
    exists i :: 0 <= i < |ixs| && i < MAX_IX_SCAN && IsMemo(ixs[i], nonce)
  }

  predicate HasSquads(ixs: seq<RawIx>, vault: Pubkey) {
    exists i :: 0 <= i < |ixs| && i < MAX_IX_SCAN && IsSquadsFor(ixs[i], vault)
  }

  function First64(ixs: seq<RawIx>): seq<RawIx> { if |ixs| <= 64 then ixs else ixs[..64] }

  /** Both scans see the first 64 instructions and no more. */
  lemma ScansSeeFirst64(ixs: seq<RawIx>, nonce: Bytes, vault: Pubkey)
    ensures HasMemo(ixs, nonce) <==> exists ix :: ix in First64(ixs) && ix == RawIx(Memo, ix.accounts, nonce)
    ensures HasSquads(ixs, vault) <==>
            exists ix :: ix in First64(ixs) && ix.program == SquadsV4 && AccountMeta(vault, true) in ix.accounts
  {
    var seen := First64(ixs);
    if HasMemo(ixs, nonce) {
      var i :| 0 <= i < |ixs| && i < MAX_IX_SCAN && IsMemo(ixs[i], nonce);
      assert seen[i] in seen;
    }
    if HasSquads(ixs, vault) {
      var i :| 0 <= i < |ixs| && i < MAX_IX_SCAN && IsSquadsFor(ixs[i], vault);
      var j :| 0 <= j < |ixs[i].accounts| && ixs[i].accounts[j].pubkey == vault && ixs[i].accounts[j].isWritable;
      assert seen[i] in seen && ixs[i].accounts[j] == AccountMeta(vault, true);
    }
    if ix :| ix in seen && ix.program == SquadsV4 && AccountMeta(vault, true) in ix.accounts {
      var i :| 0 <= i < |seen| && seen[i] == ix;
      assert IsSquadsFor(ixs[i], vault);
    }
  }

  /** `require_memo_nonce`: a bounded scan that stops at the first failed load. */
  method RequireMemoNonce(ixs: seq<RawIx>, nonce: Bytes) returns (found: bool)
    ensures found <==> HasMemo(ixs, nonce)
  {
    for idx := 0 to MAX_IX_SCAN
      invariant forall i :: 0 <= i < idx && i < |ixs| ==> !IsMemo(ixs[i], nonce)
    {
      if idx >= |ixs| {
        return false;
      }
      if ixs[idx].program == Memo && ixs[idx].data == nonce {
        return true;
      }
    }
    return false;
  }

  /** `require_squads_governance_cpi`: some scanned Squads instruction lists the vault as writable. */
  method RequireSquadsGovernanceCpi(ixs: seq<RawIx>, vault: Pubkey) returns (found: bool)
    ensures found <==> HasSquads(ixs, vault)
  {
    for idx := 0 to MAX_IX_SCAN
      invariant forall i :: 0 <= i < idx && i < |ixs| ==> !IsSquadsFor(ixs[i], vault)
    {
      if idx >= |ixs| {
        return false;
      }
      if IsSquadsFor(ixs[idx], vault) {
        return true;
      }
    }
    return false;
  }
}
