/** Entries that the encoder writes although the decoder refuses them: a key type other
    than RSA and EC, a key or a certificate over its maximum length. */
module PayloadRefusals {
  import opened Bytes
  import opened CborHead
  import opened CborItem
  import opened Payload
  import opened PayloadGrammar
  import opened PayloadLaws

  lemma RefusesLongString(buf: seq<byte>, pos: nat, major: nat, min: nat, max: nat, data: seq<byte>)
    requires major < 8 && max < |data| < U32_LIMIT && At(buf, pos, StringBytes(major, data))
    ensures ReadString(buf, pos, major, min, max) == Err(ErrCbor)
  {
    hide ReadHead, HeadBytes;
    AtConcat(buf, pos, Canonical(major, |data|), data);
    ReadsEveryForm(buf, pos, major, Shortest(|data|), |data|);
  }

  lemma RefusesKeyType(buf: seq<byte>, pos: nat, keyType: nat, s: Partial)
    requires keyType < U32_LIMIT && keyType != RSA && keyType != EC && At(buf, pos, Canonical(UINT, keyType))
    ensures DecodeValue(buf, pos, KeyTypeField, s) == Err(ErrCbor)
  {
    hide ReadHead, HeadBytes;
    ReadsEveryForm(buf, pos, UINT, Shortest(keyType), keyType);
  }

  /** A pair is refused with its value. */
  lemma RefusesPair(buf: seq<byte>, pos: nat, f: Field, s: Partial)
    requires f != UnknownField && At(buf, pos, StringBytes(TEXT, Name(f)))
    requires DecodeValue(buf, pos + |StringBytes(TEXT, Name(f))|, f, s) == Err(ErrCbor)
    ensures DecodePair(buf, pos, s) == Err(ErrCbor)
  {
    hide ReadString, DecodeValue, HeadBytes, FieldOf;
    NamesAreKnown(f);
    ReadsString(buf, pos, TEXT, 0, KEY_NAME_MAX, Shortest(|Name(f)|), Name(f));
  }

  /** A map is refused with any of its pairs. */
  lemma {:induction false} RefusesPairs(buf: seq<byte>, pos: nat, ps: seq<Pair>, n: nat, s: Partial)
    requires LegalPairs(ps) && n > |ps| && At(buf, pos, PairsBytes(ps))
    requires DecodePair(buf, pos + |PairsBytes(ps)|, StoreAll(ps, s)) == Err(ErrCbor)
    ensures DecodePairs(buf, pos, n, s) == Err(ErrCbor)
    decreases |ps|
  {
    hide DecodePair, PairBytes, StoreValue, FieldOf;
    if ps != [] {
      AtConcat(buf, pos, PairBytes(ps[0]), PairsBytes(ps[1..]));
      DecodesEveryPair(buf, pos, ps[0], s);
      var s' := StoreValue(FieldOf(ps[0].key), ps[0].value, s);
      RefusesPairs(buf, pos + |PairBytes(ps[0])|, ps[1..], n - 1, s');
    }
  }

  /** "id" and "label" as grammar pairs. */
  lemma NamingPairs(e: Entry)
    ensures
      var text := CString(e.text);
      var ps := [FieldPair(IdField, BytesItem(Direct, e.id)), FieldPair(LabelField, TextItem(Shorten(text), text))];
      LegalPairs(ps) && PairsBytes(ps) == NamingBytes(e)
  {
    hide LegalPairs, StoreAll, PairsBytes, HeadBytes, FieldPair, CString;
    var text := CString(e.text);
    var v0, v1 := BytesItem(Direct, e.id), TextItem(Shorten(text), text);
    NoPairs();
    AddField([], IdField, v0);
    var ps1 := [] + [FieldPair(IdField, v0)];
    AddField(ps1, LabelField, v1);
    assert [] + (StringBytes(TEXT, ID_KEY) + ItemBytes(v0)) == StringBytes(TEXT, ID_KEY) + ItemBytes(v0);
    assert ps1 + [FieldPair(LabelField, v1)] == [FieldPair(IdField, v0), FieldPair(LabelField, v1)];
  }

  lemma BadKeyTypeRefused(buf: seq<byte>, pos: nat, e: Entry, n: nat)
    requires 0 <= e.keyType < U32_LIMIT && e.keyType != RSA && e.keyType != EC && |e.der| < U32_LIMIT
    requires n > 2 && At(buf, pos, RequiredBytes(e))
    ensures DecodePairs(buf, pos, n, BLANK) == Err(ErrCbor)
  {
    hide DecodePair, DecodeValue, LegalPairs, PairsBytes, FieldPair, StringBytes, Canonical, CString, NamingBytes;
    var text := CString(e.text);
    var ps := [FieldPair(IdField, BytesItem(Direct, e.id)), FieldPair(LabelField, TextItem(Shorten(text), text))];
    NamingPairs(e);
    AtConcat(buf, pos, NamingBytes(e), KeyBytes(e));
    var at := pos + |NamingBytes(e)|;
    AtConcat(buf, at, StringBytes(TEXT, KEY_TYPE_KEY) + Canonical(UINT, e.keyType),
      StringBytes(TEXT, DER_KEY) + StringBytes(BYTES, e.der));
    AtConcat(buf, at, StringBytes(TEXT, KEY_TYPE_KEY), Canonical(UINT, e.keyType));
    RefusesKeyType(buf, at + |StringBytes(TEXT, KEY_TYPE_KEY)|, e.keyType, StoreAll(ps, BLANK));
    RefusesPair(buf, at, KeyTypeField, StoreAll(ps, BLANK));
    RefusesPairs(buf, pos, ps, n, BLANK);
  }

  lemma LongKeyRefused(buf: seq<byte>, pos: nat, e: Entry, n: nat)
    requires (e.keyType == RSA || e.keyType == EC) && DER_MAX < |e.der| < U32_LIMIT
    requires n > 3 && At(buf, pos, RequiredBytes(e))
    ensures DecodePairs(buf, pos, n, BLANK) == Err(ErrCbor)
  {
    hide DecodePair, LegalPairs, PairsBytes, FieldPair, StringBytes, HeadBytes, CString, NamingBytes, ReadString,
      StoreAll;
    var text := CString(e.text);
    var ps2 := [FieldPair(IdField, BytesItem(Direct, e.id)), FieldPair(LabelField, TextItem(Shorten(text), text))];
    NamingPairs(e);
    AddField(ps2, KeyTypeField, UIntItem(Direct, e.keyType));
    var ps := ps2 + [FieldPair(KeyTypeField, UIntItem(Direct, e.keyType))];
    var kt, der := StringBytes(TEXT, KEY_TYPE_KEY) + Canonical(UINT, e.keyType), StringBytes(TEXT, DER_KEY);
    AtConcat(buf, pos, NamingBytes(e), KeyBytes(e));
    AtConcat(buf, pos + |NamingBytes(e)|, kt, der + StringBytes(BYTES, e.der));
    AtConcat(buf, pos, NamingBytes(e), kt);
    var at := pos + |NamingBytes(e)| + |kt|;
    AtConcat(buf, at, der, StringBytes(BYTES, e.der));
    RefusesLongString(buf, at + |der|, BYTES, 0, DER_MAX, e.der);
    RefusesPair(buf, at, DerField, StoreAll(ps, BLANK));
    RefusesPairs(buf, pos, ps, n, BLANK);
  }

  lemma LongCertRefused(buf: seq<byte>, pos: nat, e: Entry, c: seq<byte>)
    requires WithinLimits(e) && e.cert.None? && CERT_MAX < |c| < U32_LIMIT
    requires At(buf, pos, RequiredBytes(e) + (StringBytes(TEXT, CERT_KEY) + StringBytes(BYTES, c)))
    ensures DecodePairs(buf, pos, 5, BLANK) == Err(ErrCbor)
  {
    hide DecodePair, LegalPairs, PairsBytes, FieldPair, StringBytes, HeadBytes, CString, ReadString, StoreAll;
    RequiredPairs(e.id, CString(e.text), e.keyType, e.der);
    var ps := MapOf(e).pairs;
    var key := StringBytes(TEXT, CERT_KEY);
    AtConcat(buf, pos, RequiredBytes(e), key + StringBytes(BYTES, c));
    var at := pos + |RequiredBytes(e)|;
    AtConcat(buf, at, key, StringBytes(BYTES, c));
    RefusesLongString(buf, at + |key|, BYTES, 0, CERT_MAX, c);
    RefusesPair(buf, at, CertField, StoreAll(ps, BLANK));
    RefusesPairs(buf, pos, ps, 5, BLANK);
  }

  /** Where the pairs of an encoded entry stand. */
  lemma EntryLayout(buf: seq<byte>, pos: nat, e: Entry)
    requires Encodable(e) && At(buf, pos, EntryBytes(e))
    ensures ReadHead(buf, pos) == Ok(Head(MAP, if e.cert.None? then 4 else 5, 1))
    ensures At(buf, pos + 1, RequiredBytes(e))
    ensures e.cert.Some? ==>
      At(buf, pos + 1, RequiredBytes(e) + (StringBytes(TEXT, CERT_KEY) + StringBytes(BYTES, e.cert.value)))
  {
    hide ReadHead, HeadBytes, RequiredBytes, StringBytes, At;
    var n := if e.cert.None? then 4 else 5;
    if e.cert.None? {
      AtConcat(buf, pos, Canonical(MAP, n), RequiredBytes(e));
    } else {
      var rest := StringBytes(TEXT, CERT_KEY) + StringBytes(BYTES, e.cert.value);
      AtConcat(buf, pos, Canonical(MAP, n), RequiredBytes(e) + rest);
      AtConcat(buf, pos + 1, RequiredBytes(e), rest);
    }
    ReadsEveryForm(buf, pos, MAP, Direct, n);
  }

  /** An entry outside the limits is refused where it was written. */
  lemma EntryRefused(buf: seq<byte>, pos: nat, e: Entry)
    requires Encodable(e) && !WithinLimits(e) && At(buf, pos, EntryBytes(e))
    ensures DecodeEntry(buf, pos) == Err(ErrCbor)
  {
    hide ReadHead, DecodePairs, RequiredBytes, StringBytes, EntryBytes, At;
    var n := if e.cert.None? then 4 else 5;
    EntryLayout(buf, pos, e);
    if e.keyType != RSA && e.keyType != EC {
      BadKeyTypeRefused(buf, pos + 1, e, n);
    } else if |e.der| > DER_MAX {
      LongKeyRefused(buf, pos + 1, e, n);
    } else {
      CertIsNotRequired(e);
      LongCertRefused(buf, pos + 1, e.(cert := None), e.cert.value);
    }
  }

  lemma CertIsNotRequired(e: Entry)
    requires 0 <= e.keyType < U32_LIMIT && |e.der| < U32_LIMIT
    ensures RequiredBytes(e) == RequiredBytes(e.(cert := None))
  {}

  lemma {:induction false} EntriesRefused(buf: seq<byte>, pos: nat, es: seq<Entry>)
    requires forall k | 0 <= k < |es| :: Encodable(es[k])
    requires exists k | 0 <= k < |es| :: !WithinLimits(es[k])
    requires At(buf, pos, EntriesBytes(es))
    ensures DecodeEntries(buf, pos, |es|) == Err(ErrCbor)
    decreases |es|
  {
    hide DecodeEntry, EntryBytes, Encodable, WithinLimits, MapOf, MapBytes, MapMeaning, LegalMap;
    AtConcat(buf, pos, EntryBytes(es[0]), EntriesBytes(es[1..]));
    if !WithinLimits(es[0]) {
      EntryRefused(buf, pos, es[0]);
    } else {
      EntryBytesIsMap(es[0]);
      DecodesEveryMap(buf, pos, MapOf(es[0]));
      var k :| 0 <= k < |es| && !WithinLimits(es[k]);
      assert es[1..][k - 1] == es[k];
      EntriesRefused(buf, pos + |EntryBytes(es[0])|, es[1..]);
    }
  }

  /** Of what the encoder writes for at most 64 entries, the decoder accepts exactly the
      payloads whose entries are all within the limits. */
  lemma DecodesOnlyWithinLimits(es: seq<Entry>)
    requires AllEncodable(es) && |es| <= MAX_ENTRIES
    ensures Decode(Encode(es)).Ok? <==> AllWithinLimits(es)
    ensures Decode(Encode(es)).Ok? ==> Decode(Encode(es)).value.0 == AllVisible(es)
  {
    hide ReadHead, HeadBytes, DecodeEntries, EntriesBytes, Encodable, WithinLimits;
    var buf := Encode(es);
    if AllWithinLimits(es) {
      RoundTrip(es, []);
      assert buf + [] == buf;
    } else {
      assert At(buf, 0, buf);
      AtConcat(buf, 0, Canonical(ARRAY, |es|), EntriesBytes(es));
      ReadsEveryForm(buf, 0, ARRAY, Shortest(|es|), |es|);
      EntriesRefused(buf, |Canonical(ARRAY, |es|)|, es);
    }
  }
}
