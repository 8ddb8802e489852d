/** The decrypted payload of a .p11k file: the entries it holds, what
    decode_cbor_payload returns for a byte string, and what encode_cbor_payload
    writes for a list of entries. */
module Payload {
  import opened Bytes
  import opened CborHead
  import opened CborItem

  const MAX_ENTRIES := 64
  const KEY_NAME_MAX := 31
  const LABEL_MAX := 64
  const DER_MAX := 4096
  const CERT_MAX := 4096
  const ID_LEN := 16

  const RSA := 0
  const EC := 1

  const ID_KEY: seq<byte> := [0x69, 0x64]
  const LABEL_KEY: seq<byte> := [0x6C, 0x61, 0x62, 0x65, 0x6C]
  const KEY_TYPE_KEY: seq<byte> := [0x6B, 0x65, 0x79, 0x5F, 0x74, 0x79, 0x70, 0x65]
  const DER_KEY: seq<byte> := [0x64, 0x65, 0x72, 0x5F, 0x62, 0x79, 0x74, 0x65, 0x73]
  const CERT_KEY: seq<byte> := [0x63, 0x65, 0x72, 0x74, 0x5F, 0x62, 0x79, 0x74, 0x65, 0x73]

  /** uint8_t[16] and the text in a NUL-terminated char[65]. */
  type KeyId = s: seq<byte> | |s| == ID_LEN witness seq(ID_LEN, _ => 0)
  type Label = s: seq<byte> | |s| <= LABEL_MAX

  datatype Entry = Entry(id: KeyId, text: Label, keyType: int, der: seq<byte>, cert: Option<seq<byte>>)

  /** The entry as C code reads it: its label ends at the first NUL. */
  function Visible(e: Entry): Entry {
    e.(text := CString(e.text))
  }

  function AllVisible(es: seq<Entry>): (r: seq<Entry>)
    ensures |r| == |es| && forall k | 0 <= k < |es| :: r[k] == Visible(es[k])
  {
    seq(|es|, k requires 0 <= k < |es| => Visible(es[k]))
  }

  /** An entry within the limits that the decoder enforces. */
  predicate WithinLimits(e: Entry) {
    && (e.keyType == RSA || e.keyType == EC)
    && |e.der| <= DER_MAX
    && (e.cert.Some? ==> |e.cert.value| <= CERT_MAX)
  }

  predicate AllWithinLimits(es: seq<Entry>) {
    |es| <= MAX_ENTRIES && forall k | 0 <= k < |es| :: WithinLimits(es[k])
  }

  // ------------------------------------------------------------------ decoding

  datatype Field = IdField | LabelField | KeyTypeField | DerField | CertField | UnknownField

  /** The chain of strcmp calls on the NUL-terminated key name. */
  function FieldOf(key: seq<byte>): Field {
    var name := CString(key);
    if name == ID_KEY then IdField
    else if name == LABEL_KEY then LabelField
    else if name == KEY_TYPE_KEY then KeyTypeField
    else if name == DER_KEY then DerField
    else if name == CERT_KEY then CertField
    else UnknownField
  }

  /** An entry being filled in, with its has_* flags. */
  datatype Partial = Partial(
    id: Option<KeyId>,
    text: Option<Label>,
    keyType: Option<int>,
    der: Option<seq<byte>>,
    cert: Option<seq<byte>>)

  const BLANK := Partial(None, None, None, None, None)

  predicate HasRequired(s: Partial) {
    s.id.Some? && s.text.Some? && s.keyType.Some? && s.der.Some?
  }

  function Finish(s: Partial): Entry
    requires HasRequired(s)
  {
    Entry(s.id.value, s.text.value, s.keyType.value, s.der.value, s.cert)
  }

  /** The string that stands at `pos`, and where the next item starts. Covers
      cbor_read_text and the two byte-string readers, which differ in the major
      type and the admissible lengths. */
  function ReadString(buf: seq<byte>, pos: nat, major: nat, min: nat, max: nat): (r: Result<(seq<byte>, nat)>)
    ensures r.Ok? ==> min <= |r.value.0| <= max && pos < r.value.1 <= |buf|
    ensures r.Err? ==> r.error == ErrCbor
  {
    var h :- ReadHead(buf, pos);
    if h.major != major then Err(ErrCbor)
    else if h.value < min || h.value > max then Err(ErrCbor)
    else if h.size + h.value > |buf| - pos then Err(ErrCbor)
    else
      var start := pos + h.size;
      Ok((buf[start..start + h.value], start + h.value))
  }

  /** The value of a recognised field, or a skipped one. */
  function DecodeValue(buf: seq<byte>, pos: nat, f: Field, s: Partial): (r: Result<(Partial, nat)>)
    ensures r.Ok? ==> pos < r.value.1 <= |buf|
    ensures r.Err? ==> r.error == ErrCbor
  {
    match f
    case IdField =>
      var (data, next) :- ReadString(buf, pos, BYTES, ID_LEN, ID_LEN);
      Ok((s.(id := Some(data)), next))
    case LabelField =>
      var (data, next) :- ReadString(buf, pos, TEXT, 0, LABEL_MAX);
      Ok((s.(text := Some(data)), next))
    case KeyTypeField =>
      var h :- ReadHead(buf, pos);
      if h.major != UINT then Err(ErrCbor)
      else if h.value != RSA && h.value != EC then Err(ErrCbor)
      else Ok((s.(keyType := Some(h.value)), pos + h.size))
    case DerField =>
      var (data, next) :- ReadString(buf, pos, BYTES, 0, DER_MAX);
      Ok((s.(der := Some(data)), next))
    case CertField =>
      var (data, next) :- ReadString(buf, pos, BYTES, 0, CERT_MAX);
      Ok((s.(cert := Some(data)), next))
    case UnknownField =>
      var n :- Skip(buf, pos, 0);
      Ok((s, pos + n))
  }

  function DecodePair(buf: seq<byte>, pos: nat, s: Partial): (r: Result<(Partial, nat)>)
    ensures r.Ok? ==> pos < r.value.1 <= |buf|
    ensures r.Err? ==> r.error == ErrCbor
  {
    var (key, next) :- ReadString(buf, pos, TEXT, 0, KEY_NAME_MAX);
    DecodeValue(buf, next, FieldOf(key), s)
  }

  function DecodePairs(buf: seq<byte>, pos: nat, n: nat, s: Partial): (r: Result<(Partial, nat)>)
    requires pos <= |buf|
    ensures r.Ok? ==> pos <= r.value.1 <= |buf|
    ensures r.Err? ==> r.error == ErrCbor
    decreases n
  {
    if n == 0 then Ok((s, pos))
    else
      var (s', next) :- DecodePair(buf, pos, s);
      DecodePairs(buf, next, n - 1, s')
  }

  function DecodeEntry(buf: seq<byte>, pos: nat): (r: Result<(Entry, nat)>)
    ensures r.Ok? ==> pos < r.value.1 <= |buf|
    ensures r.Err? ==> r.error == ErrCbor
  {
    var h :- ReadHead(buf, pos);
    if h.major != MAP then Err(ErrCbor)
    else
      var (s, next) :- DecodePairs(buf, pos + h.size, h.value, BLANK);
      if HasRequired(s) then Ok((Finish(s), next)) else Err(ErrCbor)
  }

  function DecodeEntries(buf: seq<byte>, pos: nat, n: nat): (r: Result<(seq<Entry>, nat)>)
    requires pos <= |buf|
    ensures r.Ok? ==> |r.value.0| == n && pos <= r.value.1 <= |buf|
    ensures r.Err? ==> r.error == ErrCbor
    decreases n
  {
    if n == 0 then Ok(([], pos))
    else
      var (e, next) :- DecodeEntry(buf, pos);
      var (es, end) :- DecodeEntries(buf, next, n - 1);
      Ok(([e] + es, end))
  }

  /** decode_cbor_payload, with the position at which it stops. Bytes after that
      position are not looked at. */
  function Decode(buf: seq<byte>): (r: Result<(seq<Entry>, nat)>)
    ensures r.Ok? ==> |r.value.0| <= MAX_ENTRIES && r.value.1 <= |buf|
    ensures r.Err? ==> r.error == ErrCbor
  {
    var h :- ReadHead(buf, 0);
    if h.major != ARRAY then Err(ErrCbor)
    else if h.value > MAX_ENTRIES then Err(ErrCbor)
    else DecodeEntries(buf, h.size, h.value)
  }

  // ------------------------------------------------------------------ encoding

  /** Every length and number of the entry fits the four-byte form; a negative
      key type is a huge number once cast to uint64_t. */
  predicate Encodable(e: Entry) {
    && 0 <= e.keyType < U32_LIMIT
    && |e.der| < U32_LIMIT
    && (e.cert.Some? ==> |e.cert.value| < U32_LIMIT)
  }

  predicate AllEncodable(es: seq<Entry>) {
    |es| < U32_LIMIT && forall k | 0 <= k < |es| :: Encodable(es[k])
  }

  function StringBytes(major: nat, s: seq<byte>): (r: seq<byte>)
    requires major < 8 && |s| < U32_LIMIT
    ensures |r| >= 1 + |s|
  {
    Canonical(major, |s|) + s
  }

  /** "id" and "label". */
  function NamingBytes(e: Entry): (r: seq<byte>) {
    (StringBytes(TEXT, ID_KEY) + StringBytes(BYTES, e.id))
    + (StringBytes(TEXT, LABEL_KEY) + StringBytes(TEXT, CString(e.text)))
  }

  /** "key_type" and "der_bytes". */
  function KeyBytes(e: Entry): (r: seq<byte>)
    requires 0 <= e.keyType < U32_LIMIT && |e.der| < U32_LIMIT
  {
    (StringBytes(TEXT, KEY_TYPE_KEY) + Canonical(UINT, e.keyType))
    + (StringBytes(TEXT, DER_KEY) + StringBytes(BYTES, e.der))
  }

  /** The four required fields, in the order the encoder writes them. */
  function RequiredBytes(e: Entry): (r: seq<byte>)
    requires 0 <= e.keyType < U32_LIMIT && |e.der| < U32_LIMIT
  {
    NamingBytes(e) + KeyBytes(e)
  }

  function EntryBytes(e: Entry): (r: seq<byte>)
    requires Encodable(e)
  {
    match e.cert
    case None => Canonical(MAP, 4) + RequiredBytes(e)
    case Some(c) => Canonical(MAP, 5) + (RequiredBytes(e) + (StringBytes(TEXT, CERT_KEY) + StringBytes(BYTES, c)))
  }

  function EntriesBytes(es: seq<Entry>): (r: seq<byte>)
    requires forall k | 0 <= k < |es| :: Encodable(es[k])
  {
    if es == [] then [] else EntryBytes(es[0]) + EntriesBytes(es[1..])
  }

  /** encode_cbor_payload, as the bytes it writes into a large enough buffer. */
  function Encode(es: seq<Entry>): (r: seq<byte>)
    requires AllEncodable(es)
  {
    Canonical(ARRAY, |es|) + EntriesBytes(es)
  }
}
