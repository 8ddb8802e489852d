/** What encoding and decoding a payload promise each other. Every law is proved on
    the grammar and carried to the decoder by DecodesEveryDoc and DecodesOnlyDocs. */
module PayloadLaws {
  import opened Bytes
  import opened CborHead
  import opened CborItem
  import opened Payload
  import opened PayloadGrammar

  // ----------------------------------------------- the encoder's output is a document

  function Name(f: Field): seq<byte> {
    match f
    case IdField => ID_KEY
    case LabelField => LABEL_KEY
    case KeyTypeField => KEY_TYPE_KEY
    case DerField => DER_KEY
    case CertField => CERT_KEY
    case UnknownField => []
  }

  lemma NamesAreKnown(f: Field)
    ensures FieldOf(Name(f)) == f
  {
    CStringOfPlain(Name(f));
  }

  function Shorten(data: seq<byte>): Width
    requires |data| < U32_LIMIT
  {
    Shortest(|data|)
  }

  function FieldPair(f: Field, v: Item): Pair {
    Pair(Direct, Name(f), v)
  }

  /** The map the encoder writes, as a grammar map. */
  function MapOf(e: Entry): Map
    requires WithinLimits(e)
  {
    var text := CString(e.text);
    var pairs := [
      FieldPair(IdField, BytesItem(Direct, e.id)),
      FieldPair(LabelField, TextItem(Shorten(text), text)),
      FieldPair(KeyTypeField, UIntItem(Direct, e.keyType)),
      FieldPair(DerField, BytesItem(Shorten(e.der), e.der))];
    match e.cert
    case None => Map(Direct, pairs)
    case Some(c) => Map(Direct, pairs + [FieldPair(CertField, BytesItem(Shorten(c), c))])
  }

  lemma FieldPairIsLegal(f: Field, v: Item)
    requires f != UnknownField && LegalValue(f, v)
    ensures LegalPair(FieldPair(f, v))
    ensures PairBytes(FieldPair(f, v)) == StringBytes(TEXT, Name(f)) + ItemBytes(v)
  {
    NamesAreKnown(f);
  }

  lemma PairsBytesAppend(ps: seq<Pair>, p: Pair)
    requires LegalPairs(ps) && LegalPair(p)
    ensures LegalPairs(ps + [p]) && PairsBytes(ps + [p]) == PairsBytes(ps) + PairBytes(p)
    decreases |ps|
  {
    hide PairBytes, LegalPair;
    if ps == [] {
      assert ps + [p] == [p];
    } else {
      assert (ps + [p])[1..] == ps[1..] + [p];
      PairsBytesAppend(ps[1..], p);
    }
  }

  lemma StoreOne(p: Pair, s: Partial)
    requires LegalPair(p)
    ensures StoreAll([p], s) == StoreValue(FieldOf(p.key), p.value, s)
    ensures FieldOf(p.key) == UnknownField ==> StoreAll([p], s) == s
  {
    hide FieldOf, LegalPair;
    assert [p][1..] == [];
  }

  lemma {:induction false} StoreAllConcat(ps: seq<Pair>, qs: seq<Pair>, s: Partial)
    requires LegalPairs(ps) && LegalPairs(qs)
    ensures LegalPairs(ps + qs) && StoreAll(ps + qs, s) == StoreAll(qs, StoreAll(ps, s))
    decreases |ps|
  {
    hide FieldOf, LegalValue, StoreValue;
    if ps == [] {
      assert ps + qs == qs;
    } else {
      assert (ps + qs)[1..] == ps[1..] + qs;
      StoreAllConcat(ps[1..], qs, StoreValue(FieldOf(ps[0].key), ps[0].value, s));
    }
  }

  /** One more field of the entry under construction. */
  lemma AddField(ps: seq<Pair>, f: Field, v: Item)
    requires LegalPairs(ps) && f != UnknownField && LegalValue(f, v)
    ensures
      var qs := ps + [FieldPair(f, v)];
      && LegalPairs(qs)
      && PairsBytes(qs) == PairsBytes(ps) + (StringBytes(TEXT, Name(f)) + ItemBytes(v))
      && StoreAll(qs, BLANK) == StoreValue(f, v, StoreAll(ps, BLANK))
  {
    hide PairBytes, LegalPair, StoreAll, PairsBytes, LegalValue, ItemBytes, StringBytes;
    FieldPairIsLegal(f, v);
    NamesAreKnown(f);
    PairsBytesAppend(ps, FieldPair(f, v));
    StoreAllConcat(ps, [FieldPair(f, v)], BLANK);
    StoreOne(FieldPair(f, v), StoreAll(ps, BLANK));
  }

  /** The four required fields, one at a time. */
  lemma RequiredPairs(id: KeyId, text: Label, keyType: nat, der: seq<byte>)
    requires 0 !in text && (keyType == RSA || keyType == EC) && |der| <= DER_MAX
    ensures
      var v0, v1 := BytesItem(Direct, id), TextItem(Shorten(text), text);
      var v2, v3 := UIntItem(Direct, keyType), BytesItem(Shorten(der), der);
      var ps := [
        FieldPair(IdField, v0), FieldPair(LabelField, v1), FieldPair(KeyTypeField, v2), FieldPair(DerField, v3)];
      && LegalPairs(ps)
      && PairsBytes(ps) ==
           (StringBytes(TEXT, ID_KEY) + StringBytes(BYTES, id)
            + (StringBytes(TEXT, LABEL_KEY) + StringBytes(TEXT, text)))
           + (StringBytes(TEXT, KEY_TYPE_KEY) + Canonical(UINT, keyType)
              + (StringBytes(TEXT, DER_KEY) + StringBytes(BYTES, der)))
      && StoreAll(ps, BLANK) == Partial(Some(id), Some(text), Some(keyType), Some(der), None)
  {
    hide PairBytes, LegalPair, LegalPairs, StoreAll, PairsBytes, HeadBytes, FieldPair;
    var v0, v1 := BytesItem(Direct, id), TextItem(Shorten(text), text);
    var v2, v3 := UIntItem(Direct, keyType), BytesItem(Shorten(der), der);
    NoPairs();
    AddField([], IdField, v0);
    var ps1 := [] + [FieldPair(IdField, v0)];
    AddField(ps1, LabelField, v1);
    var ps2 := ps1 + [FieldPair(LabelField, v1)];
    AddField(ps2, KeyTypeField, v2);
    var ps3 := ps2 + [FieldPair(KeyTypeField, v2)];
    AddField(ps3, DerField, v3);
    assert [] + (StringBytes(TEXT, ID_KEY) + ItemBytes(v0)) == StringBytes(TEXT, ID_KEY) + ItemBytes(v0);
    Regroup(
      StringBytes(TEXT, ID_KEY) + StringBytes(BYTES, id),
      StringBytes(TEXT, LABEL_KEY) + StringBytes(TEXT, text),
      StringBytes(TEXT, KEY_TYPE_KEY) + Canonical(UINT, keyType),
      StringBytes(TEXT, DER_KEY) + StringBytes(BYTES, der));
    assert ps3 + [FieldPair(DerField, v3)]
        == [FieldPair(IdField, v0), FieldPair(LabelField, v1), FieldPair(KeyTypeField, v2), FieldPair(DerField, v3)];
  }

  /** EntryBytes is the encoding of MapOf, which means the visible entry. */
  lemma EntryBytesIsMap(e: Entry)
    requires WithinLimits(e)
    ensures LegalMap(MapOf(e)) && MapBytes(MapOf(e)) == EntryBytes(e) && MapMeaning(MapOf(e)) == Visible(e)
  {
    hide PairBytes, LegalPair, LegalPairs, StoreAll, PairsBytes, HeadBytes, FieldPair, StringBytes, CString;
    RequiredPairs(e.id, CString(e.text), e.keyType, e.der);
    if e.cert.Some? {
      var c := e.cert.value;
      AddField(MapOf(e.(cert := None)).pairs, CertField, BytesItem(Shorten(c), c));
      StringIsItem(c);
    }
  }

  lemma StringIsItem(data: seq<byte>)
    requires |data| < U32_LIMIT
    ensures ItemBytes(BytesItem(Shorten(data), data)) == StringBytes(BYTES, data)
  {}

  lemma NoPairs()
    ensures LegalPairs([]) && PairsBytes([]) == [] && forall s :: StoreAll([], s) == s
  {}

  function MapsOf(es: seq<Entry>): seq<Map>
    requires forall k | 0 <= k < |es| :: WithinLimits(es[k])
  {
    seq(|es|, k requires 0 <= k < |es| => MapOf(es[k]))
  }

  lemma {:induction false} EntriesBytesAreMaps(es: seq<Entry>)
    requires forall k | 0 <= k < |es| :: WithinLimits(es[k])
    ensures forall k | 0 <= k < |es| :: LegalMap(MapsOf(es)[k])
    ensures MapsBytes(MapsOf(es)) == EntriesBytes(es)
    ensures Meaning(MapsOf(es)) == AllVisible(es)
  {
    hide LegalMap, MapBytes, EntryBytes, MapMeaning, MapOf;
    forall k | 0 <= k < |es| ensures LegalMap(MapsOf(es)[k]) && MapMeaning(MapOf(es[k])) == Visible(es[k]) {
      EntryBytesIsMap(es[k]);
    }
    if es != [] {
      EntryBytesIsMap(es[0]);
      EntriesBytesAreMaps(es[1..]);
      assert MapsOf(es)[1..] == MapsOf(es[1..]);
    }
  }

  function DocOf(es: seq<Entry>): Doc
    requires AllWithinLimits(es)
  {
    Doc(Shortest(|es|), MapsOf(es))
  }

  lemma EncodeIsDoc(es: seq<Entry>)
    requires AllWithinLimits(es)
    ensures LegalDoc(DocOf(es)) && DocBytes(DocOf(es)) == Encode(es) && Meaning(DocOf(es).maps) == AllVisible(es)
  {
    hide LegalMap, MapsBytes, EntriesBytes, Meaning, MapsOf, HeadBytes;
    EntriesBytesAreMaps(es);
  }

  // ----------------------------------------------------------------- round trips

  /** Decoding what was encoded, whatever bytes follow it, gives the entries back
      with their labels read as C strings, and stops where the encoding ends. */
  lemma RoundTrip(es: seq<Entry>, more: seq<byte>)
    requires AllWithinLimits(es)
    ensures Decode(Encode(es) + more) == Ok((AllVisible(es), |Encode(es)|))
  {
    hide Decode, Encode, DocBytes, LegalDoc, DocOf, Meaning;
    EncodeIsDoc(es);
    AtExtend(Encode(es), more, 0, Encode(es));
    DecodesEveryDoc(Encode(es) + more, DocOf(es));
  }

  /** Entries whose labels hold no NUL come back unchanged. */
  lemma ExactRoundTrip(es: seq<Entry>, more: seq<byte>)
    requires AllWithinLimits(es) && forall k | 0 <= k < |es| :: 0 !in es[k].text
    ensures Decode(Encode(es) + more) == Ok((es, |Encode(es)|))
  {
    hide Decode, Encode;
    RoundTrip(es, more);
    forall k | 0 <= k < |es| ensures Visible(es[k]) == es[k] {
      CStringOfPlain(es[k].text);
    }
    assert AllVisible(es) == es;
  }

  /** A successful decode does not depend on anything that follows. */
  lemma DecodeIgnoresWhatFollows(buf: seq<byte>, more: seq<byte>)
    requires Decode(buf).Ok?
    ensures Decode(buf + more) == Decode(buf)
  {
    hide Decode, DocBytes, LegalDoc, Meaning, At;
    var d := DecodesOnlyDocs(buf);
    AtExtend(buf, more, 0, DocBytes(d));
    DecodesEveryDoc(buf + more, d);
  }

  /** Every accepted payload is refused when it is cut anywhere before the position where
      the decoder stops. */
  lemma CutPayloadIsRefused(buf: seq<byte>, k: nat)
    requires Decode(buf).Ok? && k < Decode(buf).value.1
    ensures Decode(buf[..k]) == Err(ErrCbor)
  {
    var cut, rest := buf[..k], buf[k..];
    assert cut + rest == buf;
    if Decode(cut).Ok? {
      DecodeIgnoresWhatFollows(cut, rest);
      assert false;
    }
  }

  /** In particular every truncation of an encoded payload is. */
  lemma NoStrictPrefixDecodes(es: seq<Entry>, k: nat)
    requires AllWithinLimits(es) && k < |Encode(es)|
    ensures Decode(Encode(es)[..k]) == Err(ErrCbor)
  {
    hide Encode, Decode;
    RoundTrip(es, []);
    assert Encode(es) + [] == Encode(es);
    CutPayloadIsRefused(Encode(es), k);
  }

  // ---------------------------------------------------------- re-encoding never grows

  function StringCost(s: seq<byte>): nat
    requires |s| < U32_LIMIT
  {
    Shortest(|s|).Size() + |s|
  }

  /** What the encoder would spend on the fields set so far. */
  function Cost(s: Partial): nat
    requires s.der.Some? ==> |s.der.value| <= DER_MAX
    requires s.cert.Some? ==> |s.cert.value| <= CERT_MAX
  {
    (if s.id.Some? then 3 + 17 else 0)
    + (if s.text.Some? then 6 + StringCost(CString(s.text.value)) else 0)
    + (if s.keyType.Some? then 9 + 1 else 0)
    + (if s.der.Some? then 10 + StringCost(s.der.value) else 0)
    + (if s.cert.Some? then 11 + StringCost(s.cert.value) else 0)
  }

  predicate Bounded(s: Partial) {
    && (s.keyType.Some? ==> s.keyType.value == RSA || s.keyType.value == EC)
    && (s.der.Some? ==> |s.der.value| <= DER_MAX)
    && (s.cert.Some? ==> |s.cert.value| <= CERT_MAX)
  }

  lemma EntryCost(e: Entry)
    requires WithinLimits(e)
    ensures |EntryBytes(e)| == 1 + Cost(Partial(Some(e.id), Some(e.text), Some(e.keyType), Some(e.der), e.cert))
  {
    hide HeadBytes;
  }

  lemma ShorterStringCostsLess(short: nat, w: Width, long: nat)
    requires short <= long && w.Fits(long)
    ensures Shortest(short).Size() <= w.Size()
  {}

  /** The canonical cost of one field's name and value. */
  function FieldCost(f: Field, v: Item): nat
    requires LegalValue(f, v)
  {
    match f
    case IdField => 3 + 17
    case LabelField => 6 + StringCost(CString(v.data))
    case KeyTypeField => 9 + 1
    case DerField => 10 + StringCost(v.data)
    case CertField => 11 + StringCost(v.data)
    case UnknownField => 0
  }

  lemma ValuePaysForItself(p: Pair)
    requires LegalPair(p)
    ensures FieldCost(FieldOf(p.key), p.value) <= |PairBytes(p)|
  {
    hide HeadBytes, Skippable, ItemsBytes, CString;
    var v := p.value;
    assert |CString(p.key)| <= |p.key|;
    match FieldOf(p.key)
    case LabelField => ShorterStringCostsLess(|CString(v.data)|, v.w, |v.data|);
    case DerField => ShorterStringCostsLess(|v.data|, v.w, |v.data|);
    case CertField => ShorterStringCostsLess(|v.data|, v.w, |v.data|);
    case _ =>
  }

  /** Each pair pays for the field it sets, including one that overwrites. */
  lemma PairPaysForItself(p: Pair, s: Partial)
    requires LegalPair(p) && Bounded(s)
    ensures Bounded(StoreValue(FieldOf(p.key), p.value, s))
    ensures Cost(StoreValue(FieldOf(p.key), p.value, s)) <= Cost(s) + |PairBytes(p)|
  {
    hide PairBytes, FieldOf, Legal, CString;
    ValuePaysForItself(p);
  }

  lemma {:induction false} PairsPayForFields(ps: seq<Pair>, s: Partial)
    requires LegalPairs(ps) && Bounded(s)
    ensures Bounded(StoreAll(ps, s)) && Cost(StoreAll(ps, s)) <= Cost(s) + |PairsBytes(ps)|
    decreases |ps|
  {
    hide PairBytes, LegalValue, StoreValue, FieldOf, Bounded, Cost;
    if ps != [] {
      PairPaysForItself(ps[0], s);
      PairsPayForFields(ps[1..], StoreValue(FieldOf(ps[0].key), ps[0].value, s));
    }
  }

  lemma MapPaysForEntry(m: Map)
    requires LegalMap(m)
    ensures WithinLimits(MapMeaning(m)) && |EntryBytes(MapMeaning(m))| <= |MapBytes(m)|
  {
    hide PairsBytes, StoreAll, EntryBytes, HeadBytes, LegalPairs, Cost;
    PairsPayForFields(m.pairs, BLANK);
    EntryCost(MapMeaning(m));
    assert Cost(BLANK) == 0 by { BlankIsFree(); }
  }

  lemma BlankIsFree()
    ensures Cost(BLANK) == 0
  {}

  lemma {:induction false} MapsPayForEntries(maps: seq<Map>)
    requires forall k | 0 <= k < |maps| :: LegalMap(maps[k])
    ensures forall k | 0 <= k < |maps| :: WithinLimits(Meaning(maps)[k]) && Encodable(Meaning(maps)[k])
    ensures |EntriesBytes(Meaning(maps))| <= |MapsBytes(maps)|
  {
    hide LegalMap, MapBytes, EntryBytes, MapMeaning, WithinLimits, Encodable;
    forall k | 0 <= k < |maps| ensures WithinLimits(Meaning(maps)[k]) && Encodable(Meaning(maps)[k]) {
      MapPaysForEntry(maps[k]);
      LimitsAreEncodable(Meaning(maps)[k]);
    }
    if maps != [] {
      MapPaysForEntry(maps[0]);
      MapsPayForEntries(maps[1..]);
      assert Meaning(maps)[1..] == Meaning(maps[1..]);
    }
  }

  lemma LimitsAreEncodable(e: Entry)
    requires WithinLimits(e)
    ensures Encodable(e)
  {}

  /** Whatever was decoded (any head forms, any field order, repeated or unknown
      fields) can be encoded again, in no more bytes than it was decoded from, and
      decodes to the same entries with labels read as C strings. */
  lemma ReencodingNeverGrows(buf: seq<byte>)
    requires Decode(buf).Ok?
    ensures
      var (es, n) := Decode(buf).value;
      && AllWithinLimits(es)
      && |Encode(es)| <= n <= |buf|
      && Decode(Encode(es)) == Ok((AllVisible(es), |Encode(es)|))
  {
    hide Decode, LegalMap, MapsBytes, EntriesBytes, Meaning, HeadBytes, WithinLimits, At;
    var d := DecodesOnlyDocs(buf);
    var es := Meaning(d.maps);
    MapsPayForEntries(d.maps);
    ShortestIsShortest(|es|, d.w);
    RoundTrip(es, []);
    assert Encode(es) + [] == Encode(es);
  }
}
