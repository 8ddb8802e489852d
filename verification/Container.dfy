/** The .p11k file: a 57-byte header, the sealed payload, a 16-byte tag. Loading and
    creating as functions of the bytes involved; key derivation and the cipher are
    parameters. */
module Container {
  import opened Bytes
  import opened CborItem
  import opened Payload
  import PayloadLaws
  import PayloadOrder
  import PayloadRefusals

  const MAGIC: seq<byte> := [0x50, 0x31, 0x31, 0x4B]
  const VERSION: byte := 1
  const SALT_LEN := 32
  const NONCE_LEN := 12
  const TAG_LEN := 16
  const HDR_LEN := 57
  const MIN_KDF_ITER := 100_000
  const KDF_ITERATIONS := 200_000
  const INT_MAX := 0x7FFF_FFFF

  /** PBKDF2 and AES-GCM. `open` fails when the tag does not match. */
  datatype Crypto = Crypto(
    kdf: (seq<byte>, seq<byte>, nat) -> seq<byte>,
    seal: (seq<byte>, seq<byte>, seq<byte>) -> (seq<byte>, seq<byte>),
    open: (seq<byte>, seq<byte>, seq<byte>, seq<byte>) -> Option<seq<byte>>)

  predicate SealsAndOpens(c: Crypto, key: seq<byte>, nonce: seq<byte>, plain: seq<byte>) {
    var (ct, tag) := c.seal(key, nonce, plain);
    |ct| == |plain| && |tag| == TAG_LEN && c.open(key, nonce, ct, tag) == Some(plain)
  }

  predicate OpensToSameLength(c: Crypto, key: seq<byte>, nonce: seq<byte>, ct: seq<byte>, tag: seq<byte>) {
    var p := c.open(key, nonce, ct, tag);
    p.Some? ==> |p.value| == |ct|
  }

  /** What is assumed of the cipher. */
  ghost predicate Sound(c: Crypto) {
    && (forall key, nonce, plain :: SealsAndOpens(c, key, nonce, plain))
    && (forall key, nonce, ct, tag :: OpensToSameLength(c, key, nonce, ct, tag))
  }

  predicate PinAccepted(pin: seq<byte>) {
    0 < |pin| <= INT_MAX
  }

  // ------------------------------------------------------------------------ load

  /** wp11_keystore_load on the bytes of the file, checks in the order they are made. */
  function Load(c: Crypto, file: seq<byte>, pin: seq<byte>): (r: Result<seq<Entry>>)
  {
    if !PinAccepted(pin) then Err(ErrParam)
    else if |file| < HDR_LEN + TAG_LEN then Err(ErrTruncated)
    else if |file| > HDR_LEN + MAX_CT_LEN + TAG_LEN then Err(ErrTruncated)
    else if file[..4] != MAGIC then Err(ErrBadMagic)
    else if file[4] != VERSION then Err(ErrBadVersion)
    else
      var iter := ReadU32Be(file[37..41]);
      var ctlen := ReadU32Be(file[53..57]);
      if iter < MIN_KDF_ITER then Err(ErrKdfWeak)
      else if ctlen > MAX_CT_LEN then Err(ErrCbor)
      else if |file| < HDR_LEN + ctlen + TAG_LEN then Err(ErrTruncated)
      else if iter > INT_MAX then Err(ErrBadIter)
      else if ctlen == 0 then Err(ErrCbor)
      else
        var key := c.kdf(pin, file[5..37], iter);
        var end := HDR_LEN + ctlen;
        match c.open(key, file[41..53], file[HDR_LEN..end], file[end..end + TAG_LEN])
        case None => Err(ErrBadPin)
        case Some(plain) =>
          var (es, _) :- Decode(plain);
          Ok(es)
  }

  // ---------------------------------------------------------------------- create

  function Header(salt: seq<byte>, iter: nat, nonce: seq<byte>, ctlen: nat): (h: seq<byte>)
    requires |salt| == SALT_LEN && |nonce| == NONCE_LEN && iter < U32_LIMIT && ctlen < U32_LIMIT
    ensures |h| == HDR_LEN
  {
    MAGIC + [VERSION] + salt + U32Be(iter) + nonce + U32Be(ctlen)
  }

  /** A keystore sealed under any iteration count. */
  function SealedFile(
      c: Crypto, salt: seq<byte>, iter: nat, nonce: seq<byte>, pin: seq<byte>, plain: seq<byte>): seq<byte>
    requires |salt| == SALT_LEN && |nonce| == NONCE_LEN && iter < U32_LIMIT && |plain| < U32_LIMIT
  {
    var (ct, tag) := c.seal(c.kdf(pin, salt, iter), nonce, plain);
    Header(salt, iter, nonce, |plain|) + ct + tag
  }

  /** wp11_keystore_create up to the write: the bytes it sets out to write. `salt`
      and `nonce` are what the random generator delivered. */
  function Create(c: Crypto, salt: seq<byte>, nonce: seq<byte>, pin: seq<byte>, keys: seq<Entry>)
    : (r: Result<seq<byte>>)
    requires |salt| == SALT_LEN && |nonce| == NONCE_LEN
  {
    if !PinAccepted(pin) || |keys| > MAX_ENTRIES then Err(ErrParam)
    else if AllEncodable(keys) && |Encode(keys)| <= PayloadOrder.BufferSize(|keys|) then
      Ok(SealedFile(c, salt, KDF_ITERATIONS, nonce, pin, Encode(keys)))
    else Err(ErrCbor)
  }

  // ------------------------------------------------------------------------ laws

  /** A header that passes the checks made before its length field is looked at. */
  predicate HeaderAccepted(file: seq<byte>)
    requires |file| >= HDR_LEN
  {
    file[..4] == MAGIC && file[4] == VERSION && ReadU32Be(file[37..41]) >= MIN_KDF_ITER
  }

  /** Which error a file of the wrong size gets. It is TRUNCATED for every file outside the
      sizes that a keystore can have, whatever it says of itself. Inside them it is CBOR
      for a length field over the maximum, which then contradicts the size of the file,
      and TRUNCATED for one that asks for more than is there. */
  lemma SizeErrors(c: Crypto, file: seq<byte>, pin: seq<byte>)
    requires PinAccepted(pin)
    ensures |file| < HDR_LEN + TAG_LEN || |file| > HDR_LEN + MAX_CT_LEN + TAG_LEN ==>
      Load(c, file, pin) == Err(ErrTruncated)
    ensures HDR_LEN + TAG_LEN <= |file| <= HDR_LEN + MAX_CT_LEN + TAG_LEN && HeaderAccepted(file) ==>
      var ctlen := ReadU32Be(file[53..57]);
      && (ctlen > MAX_CT_LEN ==> |file| < HDR_LEN + ctlen + TAG_LEN && Load(c, file, pin) == Err(ErrCbor))
      && (ctlen <= MAX_CT_LEN && |file| < HDR_LEN + ctlen + TAG_LEN ==> Load(c, file, pin) == Err(ErrTruncated))
  {
    hide Decode, ReadU32Be;
  }

  lemma HeaderFields(salt: seq<byte>, iter: nat, nonce: seq<byte>, ctlen: nat, rest: seq<byte>)
    requires |salt| == SALT_LEN && |nonce| == NONCE_LEN && iter < U32_LIMIT && ctlen < U32_LIMIT
    ensures
      var file := Header(salt, iter, nonce, ctlen) + rest;
      && file[..4] == MAGIC && file[4] == VERSION && file[5..37] == salt
      && ReadU32Be(file[37..41]) == iter
      && file[41..53] == nonce && ReadU32Be(file[53..57]) == ctlen && file[57..] == rest
  {
    hide U32Be, ReadU32Be;
    var file := Header(salt, iter, nonce, ctlen) + rest;
    ReadWriteU32Be(iter);
    ReadWriteU32Be(ctlen);
    assert file[37..41] == U32Be(iter);
    assert file[53..57] == U32Be(ctlen);
  }

  /** Loading a file sealed under the count in its header, which need not be the one that
      create uses, gives the decoded payload, unless the payload is empty or too long to
      be accepted. */
  lemma LoadOpensSealedFile(
      c: Crypto, salt: seq<byte>, iter: nat, nonce: seq<byte>, pin: seq<byte>, plain: seq<byte>)
    requires Sound(c) && PinAccepted(pin) && MIN_KDF_ITER <= iter <= INT_MAX
    requires |salt| == SALT_LEN && |nonce| == NONCE_LEN && |plain| < U32_LIMIT
    ensures
      var file := SealedFile(c, salt, iter, nonce, pin, plain);
      && |file| == HDR_LEN + |plain| + TAG_LEN
      && Load(c, file, pin) ==
           if |plain| > MAX_CT_LEN then Err(ErrTruncated)
           else if plain != [] && Decode(plain).Ok? then Ok(Decode(plain).value.0)
           else Err(ErrCbor)
  {
    hide Decode, ReadU32Be, Header;
    var key := c.kdf(pin, salt, iter);
    var (ct, tag) := c.seal(key, nonce, plain);
    assert SealsAndOpens(c, key, nonce, plain);
    var file := SealedFile(c, salt, iter, nonce, pin, plain);
    assert file == Header(salt, iter, nonce, |plain|) + (ct + tag);
    HeaderFields(salt, iter, nonce, |plain|, ct + tag);
    assert file[HDR_LEN..HDR_LEN + |ct|] == ct && file[HDR_LEN + |ct|..HDR_LEN + |ct| + TAG_LEN] == tag;
  }

  /** What stands in a file: four bytes, a version, 32 bytes of salt, the count, 12 bytes of
      nonce, the length, and a body. */
  predicate HasParts(
    file: seq<byte>, magic: seq<byte>, version: byte, salt: seq<byte>, iter: nat, nonce: seq<byte>, ctlen: nat,
    body: seq<byte>)
  {
    && |magic| == 4 && |salt| == 32 && iter < U32_LIMIT && |nonce| == 12 && ctlen < U32_LIMIT
    && file == magic + [version] + salt + U32Be(iter) + nonce + U32Be(ctlen) + body
  }

  lemma FileHasParts(file: seq<byte>)
    requires |file| >= 57
    ensures exists magic, version, salt, iter, nonce, ctlen, body ::
      HasParts(file, magic, version, salt, iter, nonce, ctlen, body)
  {
    hide U32Be, ReadU32Be;
    var iter, ctlen := ReadU32Be(file[37..41]), ReadU32Be(file[53..57]);
    WriteReadU32Be(file[37..41]);
    WriteReadU32Be(file[53..57]);
    assert HasParts(file, file[..4], file[4], file[5..37], iter, file[41..53], ctlen, file[57..]);
  }

  /** The outcome for every file long enough to have a header. */
  lemma LoadOutcome(
      c: Crypto, pin: seq<byte>, file: seq<byte>, magic: seq<byte>, version: byte, salt: seq<byte>, iter: nat,
      nonce: seq<byte>, ctlen: nat, body: seq<byte>)
    requires HasParts(file, magic, version, salt, iter, nonce, ctlen, body)
    ensures
      var r := Load(c, file, pin);
      if pin == [] || |pin| > 0x7FFF_FFFF then r == Err(ErrParam)
      else if |body| < 16 || |body| > 524288 + 16 then r == Err(ErrTruncated)
      else if magic != [0x50, 0x31, 0x31, 0x4B] then r == Err(ErrBadMagic)
      else if version != 1 then r == Err(ErrBadVersion)
      else if iter < 100_000 then r == Err(ErrKdfWeak)
      else if ctlen > 524288 then r == Err(ErrCbor)
      else if ctlen + 16 > |body| then r == Err(ErrTruncated)
      else if iter > 0x7FFF_FFFF then r == Err(ErrBadIter)
      else if ctlen == 0 then r == Err(ErrCbor)
      else
        var plain := c.open(c.kdf(pin, salt, iter), nonce, body[..ctlen], body[ctlen..ctlen + 16]);
        && (plain.None? ==> r == Err(ErrBadPin))
        && (plain.Some? && Decode(plain.value).Err? ==> r == Err(Decode(plain.value).error))
        && (plain.Some? && Decode(plain.value).Ok? ==> r == Ok(Decode(plain.value).value.0))
  {
    hide Decode, U32Be, ReadU32Be, HasParts;
    PartsReadBack(file, magic, version, salt, iter, nonce, ctlen, body);
    if ctlen + 16 <= |body| {
      assert file[57..57 + ctlen] == body[..ctlen] && file[57 + ctlen..57 + ctlen + 16] == body[ctlen..ctlen + 16];
    }
  }

  lemma PartsReadBack(
      file: seq<byte>, magic: seq<byte>, version: byte, salt: seq<byte>, iter: nat, nonce: seq<byte>, ctlen: nat,
      body: seq<byte>)
    requires HasParts(file, magic, version, salt, iter, nonce, ctlen, body)
    ensures |file| == 57 + |body| && file[..4] == magic && file[4] == version && file[5..37] == salt
    ensures ReadU32Be(file[37..41]) == iter && file[41..53] == nonce && ReadU32Be(file[53..57]) == ctlen
    ensures file[57..] == body && iter < U32_LIMIT && ctlen < U32_LIMIT
  {
    hide U32Be, ReadU32Be;
    ReadWriteU32Be(iter);
    ReadWriteU32Be(ctlen);
    assert file[37..41] == U32Be(iter) && file[53..57] == U32Be(ctlen);
  }

  /** When create gets as far as writing, and what it writes then. */
  lemma CreateOutcome(c: Crypto, salt: seq<byte>, nonce: seq<byte>, pin: seq<byte>, keys: seq<Entry>)
    requires |salt| == 32 && |nonce| == 12
    ensures
      var r := Create(c, salt, nonce, pin, keys);
      if pin == [] || |pin| > 0x7FFF_FFFF || |keys| > 64 then r == Err(ErrParam)
      else if !AllEncodable(keys) || |Encode(keys)| > 5 + |keys| * 8412 then r == Err(ErrCbor)
      else
        var plain := Encode(keys);
        var (ct, tag) := c.seal(c.kdf(pin, salt, 200_000), nonce, plain);
        |plain| < U32_LIMIT &&
        r == Ok([0x50, 0x31, 0x31, 0x4B, 1] + salt + U32Be(200_000) + nonce + U32Be(|plain|) + ct + tag)
  {
    hide Encode, U32Be, AllEncodable;
    assert MAGIC + [VERSION] == [0x50, 0x31, 0x31, 0x4B, 1];
  }

  lemma LimitsAreEncodable(es: seq<Entry>)
    requires AllWithinLimits(es)
    ensures AllEncodable(es)
  {
    forall k | 0 <= k < |es| ensures Encodable(es[k]) {
      PayloadLaws.LimitsAreEncodable(es[k]);
    }
  }

  lemma CreateSeals(c: Crypto, salt: seq<byte>, nonce: seq<byte>, pin: seq<byte>, keys: seq<Entry>)
    requires PinAccepted(pin) && |salt| == SALT_LEN && |nonce| == NONCE_LEN && AllWithinLimits(keys)
    ensures AllEncodable(keys) && 0 < |Encode(keys)| < U32_LIMIT
    ensures Create(c, salt, nonce, pin, keys) == Ok(SealedFile(c, salt, KDF_ITERATIONS, nonce, pin, Encode(keys)))
  {
    hide Encodable, EntriesBytes;
    LimitsAreEncodable(keys);
    PayloadOrder.EncodingFitsBuffer(keys);
  }

  /** What load makes of every file that create writes. It returns the entries, labels as
      C strings, exactly when the encoded payload is at most MAX_CT_LEN bytes and every
      entry is within the limits that only load enforces. */
  lemma CreateThenLoad(c: Crypto, salt: seq<byte>, nonce: seq<byte>, pin: seq<byte>, keys: seq<Entry>)
    requires Sound(c) && |salt| == SALT_LEN && |nonce| == NONCE_LEN
    requires Create(c, salt, nonce, pin, keys).Ok?
    ensures AllEncodable(keys)
    ensures
      var file := Create(c, salt, nonce, pin, keys).value;
      && |file| == HDR_LEN + |Encode(keys)| + TAG_LEN
      && Load(c, file, pin) ==
           if |Encode(keys)| > MAX_CT_LEN then Err(ErrTruncated)
           else if AllWithinLimits(keys) then Ok(AllVisible(keys))
           else Err(ErrCbor)
  {
    hide Decode, Encode, Load, SealedFile, Sound, Encodable, WithinLimits;
    assert |Encode(keys)| > 0 by { EncodeIsNotEmpty(keys); }
    LoadOpensSealedFile(c, salt, KDF_ITERATIONS, nonce, pin, Encode(keys));
    PayloadRefusals.DecodesOnlyWithinLimits(keys);
  }

  lemma EncodeIsNotEmpty(keys: seq<Entry>)
    requires AllEncodable(keys)
    ensures |Encode(keys)| > 0
  {
    hide EntriesBytes;
  }

  /** Entries within limits are always created; the size of the payload then decides. */
  lemma WithinLimitsIsCreated(c: Crypto, salt: seq<byte>, nonce: seq<byte>, pin: seq<byte>, keys: seq<Entry>)
    requires Sound(c) && PinAccepted(pin) && |salt| == SALT_LEN && |nonce| == NONCE_LEN
    requires AllWithinLimits(keys)
    ensures AllEncodable(keys)
    ensures
      var file := Create(c, salt, nonce, pin, keys);
      && file.Ok? && |file.value| == HDR_LEN + |Encode(keys)| + TAG_LEN
      && Load(c, file.value, pin) ==
           if |Encode(keys)| <= MAX_CT_LEN then Ok(AllVisible(keys)) else Err(ErrTruncated)
  {
    hide Encode, Load, SealedFile, Sound, Create, Encodable, WithinLimits;
    CreateSeals(c, salt, nonce, pin, keys);
    CreateThenLoad(c, salt, nonce, pin, keys);
  }

  /** One key of 4097 bytes without a certificate: a file is created, and never loads. */
  lemma LongKeyIsCreatedInVain(c: Crypto, salt: seq<byte>, nonce: seq<byte>, pin: seq<byte>, e: Entry)
    requires Sound(c) && PinAccepted(pin) && |salt| == SALT_LEN && |nonce| == NONCE_LEN
    requires e.keyType == RSA && |e.der| == DER_MAX + 1 && e.cert.None?
    ensures
      var file := Create(c, salt, nonce, pin, [e]);
      file.Ok? && |file.value| <= HDR_LEN + MAX_CT_LEN + TAG_LEN && Load(c, file.value, pin) == Err(ErrCbor)
  {
    hide Load, SealedFile, Sound, Encode, PayloadOrder.BufferSize;
    LongKeyFits(e);
    CreateThenLoad(c, salt, nonce, pin, [e]);
    assert !WithinLimits([e][0]);
  }

  lemma LongKeyFits(e: Entry)
    requires e.keyType == RSA && |e.der| == DER_MAX + 1 && e.cert.None?
    ensures AllEncodable([e]) && |Encode([e])| <= PayloadOrder.BufferSize(1) <= MAX_CT_LEN
  {
    hide CString;
    assert [e][1..] == [];
    assert EntriesBytes([e]) == EntryBytes(e);
  }

  /** So 63 entries within limits always survive, and 64 maximal ones never do. */
  lemma SixtyThreeAlwaysLoad(c: Crypto, salt: seq<byte>, nonce: seq<byte>, pin: seq<byte>, keys: seq<Entry>)
    requires Sound(c) && PinAccepted(pin) && |salt| == SALT_LEN && |nonce| == NONCE_LEN
    requires AllWithinLimits(keys)
    ensures
      var file := Create(c, salt, nonce, pin, keys);
      && file.Ok?
      && (|keys| <= 63 ==> Load(c, file.value, pin) == Ok(AllVisible(keys)))
      && (|keys| == 63 && (forall k | 0 <= k < 63 :: PayloadOrder.Maximal(keys[k])) ==>
            |file.value| == HDR_LEN + MAX_CT_LEN + TAG_LEN)
      && (|keys| == 64 && (forall k | 0 <= k < 64 :: PayloadOrder.Maximal(keys[k])) ==>
            Load(c, file.value, pin) == Err(ErrTruncated))
  {
    hide Encode, Load, Sound, Create, Encodable, PayloadOrder.Maximal;
    WithinLimitsIsCreated(c, salt, nonce, pin, keys);
    PayloadOrder.PayloadBound(keys);
  }

  /** What load returned can be created again under any PIN: the new file is no
      longer than the old one, and loads to the same entries with labels read as C
      strings. No sequence of load-then-create ever meets the size limit. */
  lemma LoadThenCreate(c: Crypto, file: seq<byte>, pin: seq<byte>,
                       salt: seq<byte>, nonce: seq<byte>, newPin: seq<byte>)
    requires Sound(c) && |salt| == SALT_LEN && |nonce| == NONCE_LEN && PinAccepted(newPin)
    requires Load(c, file, pin).Ok?
    ensures
      var es := Load(c, file, pin).value;
      var again := Create(c, salt, nonce, newPin, es);
      && AllWithinLimits(es)
      && again.Ok? && |again.value| <= |file|
      && Load(c, again.value, newPin) == Ok(AllVisible(es))
  {
    hide Decode, ReadU32Be, Encode, Create, Encodable, WithinLimits;
    var iter, ctlen := ReadU32Be(file[37..41]), ReadU32Be(file[53..57]);
    var key, end := c.kdf(pin, file[5..37], iter), HDR_LEN + ctlen;
    var ct, tag := file[HDR_LEN..end], file[end..end + TAG_LEN];
    assert OpensToSameLength(c, key, file[41..53], ct, tag);
    PayloadLaws.ReencodingNeverGrows(c.open(key, file[41..53], ct, tag).value);
    WithinLimitsIsCreated(c, salt, nonce, newPin, Load(c, file, pin).value);
  }
}
