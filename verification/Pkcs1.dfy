/** PKCS#1 v1.5 block formats as the wolfHSM backend applies and strips them
    (sections 7.2 and 9.2 of RFC 8017). */
module Pkcs1 {
  import opened Bytes

  const MIN_OVERHEAD := 11
  const HEADER_LEN := 2
  const MIN_PS_LEN := 8
  const FRAME_BYTES := 3
  const MIN_SEP_IDX := 10
  const RSA_MAX_BYTES := 512

  // ------------------------------------------------------------- type 01: signing

  function Filler(n: nat): (ps: seq<byte>)
    ensures |ps| == n && forall k | 0 <= k < n :: ps[k] == 0xFF
  {
    seq(n, _ => 0xFF)
  }

  /** The block of `size` bytes for a message, when it fits. */
  function Pad(m: seq<byte>, size: nat): (r: Option<seq<byte>>) {
    if size < MIN_OVERHEAD || |m| > size - MIN_OVERHEAD then None
    else Some([0, 1] + Filler(size - |m| - FRAME_BYTES) + [0] + m)
  }

  /** pkcs1_v15_pad_sign. */
  method PadSign(m: seq<byte>, out: array<byte>, size: nat) returns (ok: bool)
    requires size <= out.Length
    modifies out
    ensures ok <==> Pad(m, size).Some?
    ensures ok ==> out[..] == Pad(m, size).value + old(out[size..])
    ensures !ok ==> out[..] == old(out[..])
  {
    if size < MIN_OVERHEAD { return false; }
    if |m| > size - MIN_OVERHEAD { return false; }
    var psLen := size - |m| - FRAME_BYTES;
    out[0] := 0;
    out[1] := 1;
    forall k | 0 <= k < psLen {
      out[HEADER_LEN + k] := 0xFF;
    }
    out[HEADER_LEN + psLen] := 0;
    forall k | 0 <= k < |m| {
      out[FRAME_BYTES + psLen + k] := m[k];
    }
    return true;
  }

  /** pkcs1_v15_unpad_verify: where the message starts. */
  method UnpadVerify(buf: seq<byte>) returns (start: Option<nat>)
    ensures start.Some? ==> start.value <= |buf| && Pad(buf[start.value..], |buf|) == Some(buf)
    ensures start.None? ==> forall m :: Pad(m, |buf|) != Some(buf)
  {
    if |buf| < MIN_OVERHEAD { return None; }
    if buf[0] != 0 || buf[1] != 1 { return None; }
    var i := HEADER_LEN;
    while i < |buf| && buf[i] == 0xFF
      invariant HEADER_LEN <= i <= |buf|
      invariant forall k | HEADER_LEN <= k < i :: buf[k] == 0xFF
    {
      i := i + 1;
    }
    if i < MIN_SEP_IDX || i >= |buf| || buf[i] != 0 {
      forall m ensures Pad(m, |buf|) != Some(buf) {
        if Pad(m, |buf|) == Some(buf) {
          SeparatorIsFirstNonFiller(m, buf, i);
        }
      }
      return None;
    }
    assert buf == [0, 1] + Filler(i - HEADER_LEN) + [0] + buf[i + 1..];
    return Some(i + 1);
  }

  /** In a padded block the first byte after the header that is not 0xFF is the
      separator, and it is never before index 10. */
  lemma SeparatorIsFirstNonFiller(m: seq<byte>, buf: seq<byte>, i: nat)
    requires Pad(m, |buf|) == Some(buf)
    requires HEADER_LEN <= i <= |buf| && forall k | HEADER_LEN <= k < i :: buf[k] == 0xFF
    requires i < |buf| ==> buf[i] != 0xFF
    ensures i == |buf| - |m| - 1 && i >= MIN_SEP_IDX && buf[i] == 0
  {
    var sep := |buf| - |m| - 1;
    assert buf[sep] == 0;
    assert forall k | HEADER_LEN <= k < sep :: buf[k] == 0xFF;
  }

  /** The block of section 9.2 of RFC 8017: 00 01, at least eight bytes FF, 00, the message. */
  lemma PadLayout(m: seq<byte>, size: nat, block: seq<byte>)
    ensures Pad(m, size) == Some(block) <==>
      |block| == size &&
      exists ps: seq<byte> :: |ps| >= 8 && (forall k | 0 <= k < |ps| :: ps[k] == 0xFF) && block == [0, 1] + ps + [0] + m
    ensures Pad(m, size).None? <==> |m| + 11 > size
  {
    if ps: seq<byte> :|
      |ps| >= 8 && (forall k | 0 <= k < |ps| :: ps[k] == 0xFF) && block == [0, 1] + ps + [0] + m && |block| == size
    {
      assert ps == Filler(size - |m| - FRAME_BYTES);
    }
    if Pad(m, size) == Some(block) {
      var ps := Filler(size - |m| - FRAME_BYTES);
      assert block == [0, 1] + ps + [0] + m;
    }
  }

  /** A block pads at most one message. */
  lemma PadIsInjective(m: seq<byte>, m': seq<byte>, size: nat)
    requires Pad(m, size).Some? && Pad(m, size) == Pad(m', size)
    ensures m == m'
  {
    var b := Pad(m, size).value;
    SeparatorIsFirstNonFiller(m, b, |b| - |m| - 1);
    SeparatorIsFirstNonFiller(m', b, |b| - |m| - 1);
    assert b[|b| - |m|..] == m && b[|b| - |m'|..] == m';
  }

  /** The RSA branch of hsm_verify after the public operation delivered `block`: the
      signature is accepted exactly when the block is the padding of the message. */
  method VerifyBlock(block: seq<byte>, m: seq<byte>) returns (valid: bool)
    ensures valid <==> Pad(m, |block|) == Some(block)
  {
    var start := UnpadVerify(block);
    if start.None? {
      return false;
    }
    var msg := block[start.value..];
    if |msg| != |m| || msg != m {
      if Pad(m, |block|) == Some(block) {
        PadIsInjective(m, msg, |block|);
      }
      return false;
    }
    return true;
  }

  /** The server's raw RSA operations, any of which may fail. Signing is told how much room
      the caller has; verifying and decrypting offer a buffer for the largest key. */
  type SigningOp = (seq<byte>, nat) -> Option<seq<byte>>
  type RawOp = seq<byte> -> Option<seq<byte>>

  const U16_MAX := 0xFFFF

  /** The RSA branch of hsm_sign: `room` is the length of the caller's buffer. */
  method Sign(m: seq<byte>, keySize: nat, room: nat, privateOp: SigningOp) returns (sig: Option<seq<byte>>)
    ensures sig.Some? <==>
      && 0 < keySize <= RSA_MAX_BYTES && room <= U16_MAX
      && Pad(m, keySize).Some? && privateOp(Pad(m, keySize).value, room).Some?
    ensures sig.Some? ==> sig == privateOp(Pad(m, keySize).value, room)
  {
    if keySize == 0 || keySize > RSA_MAX_BYTES { return None; }
    var padded := new byte[RSA_MAX_BYTES](_ => 0);
    var ok := PadSign(m, padded, keySize);
    if !ok { return None; }
    assert padded[..keySize] == Pad(m, keySize).value;
    if room > U16_MAX { return None; }
    return privateOp(padded[..keySize], room);
  }

  /** The RSA branch of hsm_verify: a verdict, or none when the signature is too long to
      send or the server fails. */
  method Verify(m: seq<byte>, sig: seq<byte>, publicOp: RawOp) returns (valid: Option<bool>)
    ensures valid.Some? <==> |sig| <= U16_MAX && publicOp(sig).Some?
    ensures valid.Some? ==>
      var block := publicOp(sig).value;
      valid.value <==> Pad(m, |block|) == Some(block)
  {
    if |sig| > U16_MAX { return None; }
    var block := publicOp(sig);
    if block.None? { return None; }
    var v := VerifyBlock(block.value, m);
    return Some(v);
  }

  /** With inverse key operations, a signature of `m` verifies for `m` and for no other
      message. */
  method SignThenVerify(
      m: seq<byte>, claimed: seq<byte>, keySize: nat, room: nat, privateOp: SigningOp, publicOp: RawOp)
    returns (sig: Option<seq<byte>>, valid: Option<bool>)
    requires forall x, n :: privateOp(x, n).Some? ==> publicOp(privateOp(x, n).value) == Some(x)
    ensures sig.Some? && |sig.value| <= U16_MAX ==> valid == Some(claimed == m)
    ensures sig.None? ==> valid == None
  {
    valid := None;
    sig := Sign(m, keySize, room, privateOp);
    if sig.Some? {
      valid := Verify(claimed, sig.value, publicOp);
      if valid == Some(true) {
        PadIsInjective(m, claimed, keySize);
      }
    }
  }

  // ---------------------------------------------------------- type 02: decryption

  /** A plain search: the first zero at or after `from`, or the length. */
  function FirstZero(buf: seq<byte>, from: nat): (i: nat)
    requires from <= |buf|
    ensures from <= i <= |buf| && (i < |buf| ==> buf[i] == 0)
    ensures forall k | from <= k < i :: buf[k] != 0
    decreases |buf| - from
  {
    if from == |buf| || buf[from] == 0 then from else FirstZero(buf, from + 1)
  }

  /** C's int value of a comparison, and `|` and `&` on such values. */
  function Bit(b: bool): nat { if b then 1 else 0 }
  function Or(x: nat, y: nat): nat requires x <= 1 && y <= 1 { if x == 0 then y else 1 }
  function And(x: nat, y: nat): nat requires x <= 1 && y <= 1 { x * y }

  /** The branchless scan of pkcs1_v15_unpad_decrypt finds what the plain search
      finds. */
  method ScanSeparator(buf: seq<byte>) returns (sepIdx: nat)
    requires |buf| >= MIN_OVERHEAD
    ensures sepIdx == FirstZero(buf, MIN_SEP_IDX)
  {
    sepIdx := |buf|;
    var i := HEADER_LEN;
    while i < |buf|
      invariant HEADER_LEN <= i <= |buf|
      invariant sepIdx == |buf| || MIN_SEP_IDX <= sepIdx < i
      invariant sepIdx < |buf| ==> buf[sepIdx] == 0
      invariant forall k | MIN_SEP_IDX <= k < i && k < sepIdx :: buf[k] != 0
    {
      var isZero := Bit(buf[i] == 0);
      var validPos := Bit(i >= MIN_SEP_IDX);
      var notFound := Bit(sepIdx >= |buf|);
      var hit := And(And(isZero, validPos), notFound);
      sepIdx := hit * i + (1 - hit) * sepIdx;
      i := i + 1;
    }
    var first := FirstZero(buf, MIN_SEP_IDX);
    assert sepIdx < |buf| ==> !(sepIdx < first);
    assert first < |buf| ==> !(first < sepIdx);
  }

  /** What is recovered from a type-02 block, when it is accepted and fits `cap`. */
  function Unpad02(buf: seq<byte>, cap: nat): (r: Option<seq<byte>>) {
    if |buf| < MIN_OVERHEAD || buf[0] != 0 || buf[1] != 2 then None
    else
      var sep := FirstZero(buf, MIN_SEP_IDX);
      if sep >= |buf| || |buf| - sep - 1 > cap then None else Some(buf[sep + 1..])
  }

  /** pkcs1_v15_unpad_decrypt, with the header check folded into `bad`. */
  method UnpadDecrypt(buf: seq<byte>, pt: array<byte>, cap: nat) returns (ptlen: Option<nat>)
    requires cap <= pt.Length
    modifies pt
    ensures ptlen.Some? <==> Unpad02(buf, cap).Some?
    ensures ptlen.Some? ==>
      var m := Unpad02(buf, cap).value;
      ptlen.value == |m| <= cap && pt[..] == m + old(pt[|m|..])
    ensures ptlen.None? ==> pt[..] == old(pt[..])
  {
    if |buf| < MIN_OVERHEAD { return None; }
    var bad := 0;
    bad := Or(bad, Bit(buf[0] != 0));
    bad := Or(bad, Bit(buf[1] != 2));
    var sep := ScanSeparator(buf);
    bad := Or(bad, Bit(sep >= |buf|));
    if bad != 0 { return None; }
    var n := |buf| - sep - 1;
    if n > cap { return None; }
    forall k | 0 <= k < n {
      pt[k] := buf[sep + 1 + k];
    }
    return Some(n);
  }

  /** A type-02 block around `m` with padding string `ps`. */
  function Block02(ps: seq<byte>, m: seq<byte>): seq<byte> {
    [0, 2] + ps + [0] + m
  }

  /** A padding string with at least eight bytes and no zero after the eighth. */
  predicate PadsLoosely(ps: seq<byte>) {
    |ps| >= MIN_PS_LEN && 0 !in ps[MIN_PS_LEN..]
  }

  lemma FormedBlockIsAccepted(ps: seq<byte>, m: seq<byte>, cap: nat)
    requires PadsLoosely(ps) && |m| <= cap
    ensures Unpad02(Block02(ps, m), cap) == Some(m)
  {
    var buf, sep := Block02(ps, m), HEADER_LEN + |ps|;
    assert buf[sep] == 0 && buf[sep + 1..] == m;
    forall k | MIN_SEP_IDX <= k < sep ensures buf[k] != 0 {
      assert buf[k] == ps[MIN_PS_LEN..][k - MIN_SEP_IDX];
    }
  }

  lemma AcceptedBlockIsFormed(buf: seq<byte>, cap: nat) returns (ps: seq<byte>)
    requires Unpad02(buf, cap).Some?
    ensures PadsLoosely(ps) && buf == Block02(ps, Unpad02(buf, cap).value)
  {
    var sep := FirstZero(buf, MIN_SEP_IDX);
    ps := buf[HEADER_LEN..sep];
    assert forall k | 0 <= k < |ps| - MIN_PS_LEN :: ps[MIN_PS_LEN..][k] == buf[MIN_SEP_IDX + k];
  }

  /** Exactly these blocks are accepted: zeros are tolerated in the first eight bytes
      of the padding string, and nowhere else in it. */
  lemma AcceptedBlocks(buf: seq<byte>, cap: nat, m: seq<byte>)
    ensures Unpad02(buf, cap) == Some(m) <==>
      exists ps :: PadsLoosely(ps) && buf == Block02(ps, m) && |m| <= cap
  {
    hide PadsLoosely, Block02, FirstZero;
    if Unpad02(buf, cap) == Some(m) {
      var ps := AcceptedBlockIsFormed(buf, cap);
    }
    if ps :| PadsLoosely(ps) && buf == Block02(ps, m) && |m| <= cap {
      FormedBlockIsAccepted(ps, m, cap);
    }
  }

  /** Every block formed as section 7.2.1 of RFC 8017 asks gives its message back. */
  lemma RecoversEveryMessage(ps: seq<byte>, m: seq<byte>, cap: nat)
    requires |ps| >= MIN_PS_LEN && 0 !in ps && |m| <= cap
    ensures Unpad02(Block02(ps, m), cap) == Some(m)
  {
    hide Unpad02, Block02;
    assert 0 !in ps[MIN_PS_LEN..];
    FormedBlockIsAccepted(ps, m, cap);
  }

  /** The RSA branch of hsm_decrypt: the server's private operation on the ciphertext, then
      the block stripped into the caller's buffer, of which `cap` bytes may be used. */
  method Decrypt(ct: seq<byte>, pt: array<byte>, cap: nat, privateOp: RawOp) returns (ptlen: Option<nat>)
    requires cap <= pt.Length
    modifies pt
    ensures ptlen.Some? <==> |ct| <= U16_MAX && privateOp(ct).Some? && Unpad02(privateOp(ct).value, cap).Some?
    ensures ptlen.Some? ==>
      var m := Unpad02(privateOp(ct).value, cap).value;
      ptlen.value == |m| <= cap && pt[..] == m + old(pt[|m|..])
    ensures ptlen.None? ==> pt[..] == old(pt[..])
  {
    if |ct| > U16_MAX { return None; }
    var block := privateOp(ct);
    if block.None? { return None; }
    ptlen := UnpadDecrypt(block.value, pt, cap);
  }

  /** What a sender encrypts with any padding of non-zero bytes comes back, exactly when the
      ciphertext can be sent, the server answers and the message fits the buffer. */
  method EncryptThenDecrypt(
      m: seq<byte>, ps: seq<byte>, pt: array<byte>, cap: nat, publicOp: RawOp, privateOp: RawOp)
    returns (ptlen: Option<nat>)
    requires cap <= pt.Length && |ps| >= MIN_PS_LEN && 0 !in ps
    requires publicOp(Block02(ps, m)).Some?
    requires forall x, y :: publicOp(x) == Some(y) && privateOp(y).Some? ==> privateOp(y) == Some(x)
    modifies pt
    ensures
      var ct := publicOp(Block02(ps, m)).value;
      ptlen == if |ct| <= U16_MAX && privateOp(ct).Some? && |m| <= cap then Some(|m|) else None
    ensures ptlen.Some? ==> pt[..] == m + old(pt[|m|..])
    ensures ptlen.None? ==> pt[..] == old(pt[..])
  {
    hide Unpad02, Block02;
    var ct := publicOp(Block02(ps, m)).value;
    ptlen := Decrypt(ct, pt, cap, privateOp);
    if privateOp(ct).Some? {
      assert privateOp(ct) == Some(Block02(ps, m));
      if |m| <= cap {
        RecoversEveryMessage(ps, m, cap);
      } else {
        RefusesLongMessage(ps, m, cap);
      }
    }
  }

  lemma RefusesLongMessage(ps: seq<byte>, m: seq<byte>, cap: nat)
    requires |ps| >= MIN_PS_LEN && 0 !in ps && |m| > cap
    ensures Unpad02(Block02(ps, m), cap).None?
  {
    RecoversEveryMessage(ps, m, |m|);
  }

  /** The check of section 7.2.2 of RFC 8017 is this one plus the missing test: it
      would accept the same blocks, except those with a zero at indices 2 to 9. */
  lemma StrictCheckIsOneTestMore(buf: seq<byte>, cap: nat, m: seq<byte>)
    ensures
      (Unpad02(buf, cap) == Some(m) && 0 !in buf[HEADER_LEN..MIN_SEP_IDX]) <==>
      exists ps :: |ps| >= MIN_PS_LEN && 0 !in ps && buf == Block02(ps, m) && |m| <= cap
  {
    hide FirstZero;
    if Unpad02(buf, cap) == Some(m) && 0 !in buf[HEADER_LEN..MIN_SEP_IDX] {
      var ps := AcceptedBlockIsFormed(buf, cap);
      assert ps[..MIN_PS_LEN] == buf[HEADER_LEN..MIN_SEP_IDX];
      assert ps == ps[..MIN_PS_LEN] + ps[MIN_PS_LEN..];
    }
    if ps :| |ps| >= MIN_PS_LEN && 0 !in ps && buf == Block02(ps, m) && |m| <= cap {
      RecoversEveryMessage(ps, m, cap);
      assert ps[..MIN_PS_LEN] == buf[HEADER_LEN..MIN_SEP_IDX];
    }
  }

  /** Such a block is accepted although the RFC refuses it. */
  lemma ZeroInPaddingIsTolerated(m: seq<byte>)
    ensures
      var ps := [0, 1, 1, 1, 1, 1, 1, 1];
      Unpad02(Block02(ps, m), |m|) == Some(m) && 0 in Block02(ps, m)[HEADER_LEN..MIN_SEP_IDX]
  {
    hide Unpad02;
    var ps: seq<byte> := [0, 1, 1, 1, 1, 1, 1, 1];
    assert ps[MIN_PS_LEN..] == [];
    FormedBlockIsAccepted(ps, m, |m|);
    assert Block02(ps, m)[HEADER_LEN..MIN_SEP_IDX][0] == 0;
  }
}
