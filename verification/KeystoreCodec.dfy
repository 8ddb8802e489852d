/** decode_cbor_payload and encode_cbor_payload as they run: a cursor moved through
    a buffer, an array of entries filled field by field, bytes stored in place. Each
    is proved to compute its function in module Payload. */
module KeystoreCodec {
  import opened Bytes
  import opened CborHead
  import opened CborItem
  import opened Payload

  // ------------------------------------------------------------------- decoding

  /** A zeroed wp11_key_entry_t. */
  const ZERO_ENTRY := Entry(seq(ID_LEN, _ => 0), [], 0, [], None)

  /** The has_* flags of the entry being read. */
  datatype Seen = Seen(id: bool, text: bool, keyType: bool, der: bool)

  function AsPartial(e: Entry, seen: Seen): Partial {
    Partial(
      if seen.id then Some(e.id) else None,
      if seen.text then Some(e.text) else None,
      if seen.keyType then Some(e.keyType) else None,
      if seen.der then Some(e.der) else None,
      e.cert)
  }

  /** One value, stored into `entries[i]`: the branches on the key name. */
  method StoreField(plain: seq<byte>, pos: nat, f: Field, entries: array<Entry>, i: nat, seen: Seen)
    returns (r: Result<nat>, seen': Seen)
    requires i < entries.Length
    modifies entries
    ensures forall k | 0 <= k < entries.Length && k != i :: entries[k] == old(entries[k])
    ensures
      var want := DecodeValue(plain, pos, f, AsPartial(old(entries[i]), seen));
      if want.Ok? then r == Ok(want.value.1) && AsPartial(entries[i], seen') == want.value.0
      else r == want.PropagateFailure()
  {
    hide ReadString, ReadHead, Skip;
    seen' := seen;
    match f {
      case IdField =>
        var s := ReadString(plain, pos, BYTES, ID_LEN, ID_LEN);
        if s.Err? { return s.PropagateFailure(), seen'; }
        entries[i] := entries[i].(id := s.value.0);
        return Ok(s.value.1), seen.(id := true);
      case LabelField =>
        var s := ReadString(plain, pos, TEXT, 0, LABEL_MAX);
        if s.Err? { return s.PropagateFailure(), seen'; }
        entries[i] := entries[i].(text := s.value.0);
        return Ok(s.value.1), seen.(text := true);
      case KeyTypeField =>
        var h := ReadHead(plain, pos);
        if h.Err? { return h.PropagateFailure(), seen'; }
        if h.value.major != UINT { return Err(ErrCbor), seen'; }
        if h.value.value != RSA && h.value.value != EC { return Err(ErrCbor), seen'; }
        entries[i] := entries[i].(keyType := h.value.value);
        return Ok(pos + h.value.size), seen.(keyType := true);
      case DerField =>
        var s := ReadString(plain, pos, BYTES, 0, DER_MAX);
        if s.Err? { return s.PropagateFailure(), seen'; }
        entries[i] := entries[i].(der := s.value.0);
        return Ok(s.value.1), seen.(der := true);
      case CertField =>
        var s := ReadString(plain, pos, BYTES, 0, CERT_MAX);
        if s.Err? { return s.PropagateFailure(), seen'; }
        entries[i] := entries[i].(cert := Some(s.value.0));
        return Ok(s.value.1), seen';
      case UnknownField =>
        var n, _ := CborSkip(plain, pos, 0);
        if n.Err? { return n, seen'; }
        return Ok(pos + n.value), seen';
    }
  }

  /** The pair loop of one map. */
  method FillEntry(plain: seq<byte>, start: nat, npairs: nat, entries: array<Entry>, i: nat)
    returns (r: Result<nat>)
    requires i < entries.Length && start <= |plain|
    modifies entries
    ensures forall k | 0 <= k < entries.Length && k != i :: entries[k] == old(entries[k])
    ensures
      var want := DecodePairs(plain, start, npairs, BLANK);
      if want.Ok? && HasRequired(want.value.0) then
        r == Ok(want.value.1) && entries[i] == Finish(want.value.0)
      else r == Err(ErrCbor)
  {
    hide DecodeValue, ReadString, FieldOf;
    var pos: nat := start;
    entries[i] := ZERO_ENTRY;
    var seen := Seen(false, false, false, false);
    ghost var want := DecodePairs(plain, start, npairs, BLANK);
    for p := 0 to npairs
      invariant pos <= |plain|
      invariant forall k | 0 <= k < entries.Length && k != i :: entries[k] == old(entries[k])
      invariant want == DecodePairs(plain, pos, npairs - p, AsPartial(entries[i], seen))
    {
      var key := ReadString(plain, pos, TEXT, 0, KEY_NAME_MAX);
      if key.Err? {
        return key.PropagateFailure();
      }
      var next, seen' := StoreField(plain, key.value.1, FieldOf(key.value.0), entries, i, seen);
      if next.Err? {
        return next;
      }
      pos, seen := next.value, seen';
    }
    if !seen.id || !seen.text || !seen.keyType || !seen.der {
      return Err(ErrCbor);
    }
    return Ok(pos);
  }

  /** decode_cbor_payload. */
  method DecodePayload(plain: seq<byte>, entries: array<Entry>) returns (r: Result<nat>)
    requires entries.Length == MAX_ENTRIES
    modifies entries
    ensures
      var want := Decode(plain);
      if want.Ok? then r == Ok(|want.value.0|) && entries[..|want.value.0|] == want.value.0
      else r == want.PropagateFailure()
  {
    hide DecodePairs, ReadHead, HasRequired, Finish;
    var head := ReadHead(plain, 0);
    if head.Err? {
      return head.PropagateFailure();
    }
    if head.value.major != ARRAY {
      return Err(ErrCbor);
    }
    var n := head.value.value;
    if n > MAX_ENTRIES {
      return Err(ErrCbor);
    }
    var pos: nat := head.value.size;
    assert forall s: seq<Entry> :: entries[..0] + s == s;
    ghost var want := DecodeEntries(plain, pos, n);
    for i := 0 to n
      invariant pos <= |plain|
      invariant var rest := DecodeEntries(plain, pos, n - i);
                want == if rest.Ok? then Ok((entries[..i] + rest.value.0, rest.value.1)) else rest
    {
      ghost var done := entries[..i];
      var mapHead := ReadHead(plain, pos);
      if mapHead.Err? {
        return mapHead.PropagateFailure();
      }
      if mapHead.value.major != MAP {
        return Err(ErrCbor);
      }
      var next := FillEntry(plain, pos + mapHead.value.size, mapHead.value.value, entries, i);
      if next.Err? {
        return next;
      }
      pos := next.value;
      assert entries[..i] == done;
      assert entries[..i + 1] == done + [entries[i]];
      assert forall s: seq<Entry> :: done + ([entries[i]] + s) == entries[..i + 1] + s;
    }
    return Ok(n);
  }

  // ------------------------------------------------------------------- encoding

  /** cbor_write_text and cbor_write_bytes: head, then the bytes themselves. On
      failure the head may already be in the buffer, past `pos`. */
  method WriteString(buf: array<byte>, pos: nat, major: nat, data: seq<byte>) returns (n: Option<nat>)
    requires major < 8 && pos <= buf.Length
    modifies buf
    ensures n.Some? <==> |data| < U32_LIMIT && pos + |StringBytes(major, data)| <= buf.Length
    ensures n.Some? ==>
      n.value == |StringBytes(major, data)| && buf[..pos + n.value] == old(buf[..pos]) + StringBytes(major, data)
  {
    hide HeadBytes;
    var head := WriteHead(buf, pos, major, |data|);
    if head.None? {
      return None;
    }
    var start := pos + head.value;
    if start + |data| > buf.Length {
      return None;
    }
    ghost var before := buf[..start];
    assert before == old(buf[..pos]) + Canonical(major, |data|);
    forall k | 0 <= k < |data| {
      buf[start + k] := data[k];
    }
    assert buf[..start + |data|] == before + data;
    return Some(head.value + |data|);
  }

  /** A text key followed by its string value. */
  method WriteStringField(buf: array<byte>, pos: nat, key: seq<byte>, major: nat, data: seq<byte>)
    returns (n: Option<nat>)
    requires major < 8 && pos <= buf.Length && |key| < U32_LIMIT
    modifies buf
    ensures n.Some? <==>
      |data| < U32_LIMIT && pos + |StringBytes(TEXT, key)| + |StringBytes(major, data)| <= buf.Length
    ensures n.Some? ==>
      var s := StringBytes(TEXT, key) + StringBytes(major, data);
      n.value == |s| && buf[..pos + n.value] == old(buf[..pos]) + s
  {
    hide StringBytes;
    var k := WriteString(buf, pos, TEXT, key);
    if k.None? {
      return None;
    }
    var v := WriteString(buf, pos + k.value, major, data);
    if v.None? {
      return None;
    }
    return Some(k.value + v.value);
  }

  method WriteNumberField(buf: array<byte>, pos: nat, key: seq<byte>, value: nat) returns (n: Option<nat>)
    requires pos <= buf.Length && |key| < U32_LIMIT
    modifies buf
    ensures n.Some? <==>
      value < U32_LIMIT && pos + |StringBytes(TEXT, key)| + |Canonical(UINT, value)| <= buf.Length
    ensures n.Some? ==>
      var s := StringBytes(TEXT, key) + Canonical(UINT, value);
      n.value == |s| && buf[..pos + n.value] == old(buf[..pos]) + s
  {
    hide StringBytes, Canonical;
    var k := WriteString(buf, pos, TEXT, key);
    if k.None? {
      return None;
    }
    ghost var keyed := buf[..pos + k.value];
    var v := WriteHead(buf, pos + k.value, UINT, value);
    if v.None? {
      return None;
    }
    assert buf[..pos + k.value + v.value] == keyed + Canonical(UINT, value);
    return Some(k.value + v.value);
  }

  /** The uint64_t that `(uint64_t)key_type` yields. */
  function AsUint64(keyType: int): (v: nat)
    ensures 0 <= keyType < U32_LIMIT ==> v == keyType
    ensures -0x8000_0000 <= keyType < 0 ==> v >= U32_LIMIT
  {
    keyType % 0x1_0000_0000_0000_0000
  }

  /** A C int. */
  predicate IsInt(n: int) {
    -0x8000_0000 <= n < 0x8000_0000
  }

  method WriteNaming(buf: array<byte>, pos: nat, e: Entry) returns (n: Option<nat>)
    requires pos <= buf.Length
    modifies buf
    ensures n.Some? <==> pos + |NamingBytes(e)| <= buf.Length
    ensures n.Some? ==> n.value == |NamingBytes(e)| && buf[..pos + n.value] == old(buf[..pos]) + NamingBytes(e)
  {
    hide StringBytes, CString;
    var id := WriteStringField(buf, pos, ID_KEY, BYTES, e.id);
    if id.None? { return None; }
    var text := WriteStringField(buf, pos + id.value, LABEL_KEY, TEXT, CString(e.text));
    if text.None? { return None; }
    return Some(id.value + text.value);
  }

  method WriteKeyMaterial(buf: array<byte>, pos: nat, e: Entry) returns (n: Option<nat>)
    requires pos <= buf.Length && IsInt(e.keyType)
    modifies buf
    ensures n.Some? <==> 0 <= e.keyType < U32_LIMIT && |e.der| < U32_LIMIT && pos + |KeyBytes(e)| <= buf.Length
    ensures n.Some? ==> n.value == |KeyBytes(e)| && buf[..pos + n.value] == old(buf[..pos]) + KeyBytes(e)
  {
    hide StringBytes, Canonical;
    var kt := WriteNumberField(buf, pos, KEY_TYPE_KEY, AsUint64(e.keyType));
    if kt.None? { return None; }
    var der := WriteStringField(buf, pos + kt.value, DER_KEY, BYTES, e.der);
    if der.None? { return None; }
    return Some(kt.value + der.value);
  }

  /** The four required pairs of one entry. */
  method WriteRequired(buf: array<byte>, pos: nat, e: Entry) returns (n: Option<nat>)
    requires pos <= buf.Length && IsInt(e.keyType)
    modifies buf
    ensures n.Some? <==>
      0 <= e.keyType < U32_LIMIT && |e.der| < U32_LIMIT && pos + |RequiredBytes(e)| <= buf.Length
    ensures n.Some? ==>
      n.value == |RequiredBytes(e)| && buf[..pos + n.value] == old(buf[..pos]) + RequiredBytes(e)
  {
    hide NamingBytes, KeyBytes;
    var naming := WriteNaming(buf, pos, e);
    if naming.None? { return None; }
    var material := WriteKeyMaterial(buf, pos + naming.value, e);
    if material.None? { return None; }
    return Some(naming.value + material.value);
  }

  /** One iteration of the entry loop. */
  method WriteEntry(buf: array<byte>, pos: nat, e: Entry) returns (n: Option<nat>)
    requires pos <= buf.Length && IsInt(e.keyType)
    modifies buf
    ensures n.Some? <==> Encodable(e) && pos + |EntryBytes(e)| <= buf.Length
    ensures n.Some? ==> n.value == |EntryBytes(e)| && buf[..pos + n.value] == old(buf[..pos]) + EntryBytes(e)
  {
    hide StringBytes, Canonical, RequiredBytes;
    ghost var start := buf[..pos];
    var h := WriteHead(buf, pos, MAP, if e.cert.Some? then 5 else 4);
    if h.None? { return None; }
    var cur := pos + h.value;
    assert buf[..cur] == start + Canonical(MAP, if e.cert.Some? then 5 else 4);
    var required := WriteRequired(buf, cur, e);
    if required.None? { return None; }
    cur := cur + required.value;
    if e.cert.Some? {
      var cert := WriteStringField(buf, cur, CERT_KEY, BYTES, e.cert.value);
      if cert.None? { return None; }
      cur := cur + cert.value;
    }
    return Some(cur - pos);
  }

  /** encode_cbor_payload. It succeeds exactly when every number has a four-byte
      form and the whole encoding fits; then the buffer starts with it. */
  method EncodePayload(buf: array<byte>, keys: seq<Entry>) returns (r: Result<nat>)
    requires forall k | 0 <= k < |keys| :: IsInt(keys[k].keyType)
    modifies buf
    ensures
      if AllEncodable(keys) && |Encode(keys)| <= buf.Length
      then r == Ok(|Encode(keys)|) && buf[..|Encode(keys)|] == Encode(keys)
      else r == Err(ErrCbor)
  {
    hide Canonical, EntryBytes, Encodable;
    var head := WriteHead(buf, 0, ARRAY, |keys|);
    if head.None? {
      return Err(ErrCbor);
    }
    var pos: nat := head.value;
    ghost var done: seq<byte> := [];
    assert buf[..pos] == Canonical(ARRAY, |keys|) + done;
    for i := 0 to |keys|
      invariant pos <= buf.Length
      invariant forall k | 0 <= k < i :: Encodable(keys[k])
      invariant buf[..pos] == Canonical(ARRAY, |keys|) + done
      invariant pos == |Canonical(ARRAY, |keys|)| + |done|
      invariant AllEncodable(keys) ==> EntriesBytes(keys) == done + EntriesBytes(keys[i..])
    {
      assert keys[i..][0] == keys[i] && keys[i..][1..] == keys[i + 1..];
      var n := WriteEntry(buf, pos, keys[i]);
      if n.None? {
        return Err(ErrCbor);
      }
      pos := pos + n.value;
      done := done + EntryBytes(keys[i]);
    }
    assert keys[|keys|..] == [];
    return Ok(pos);
  }
}
