/** The payload as a grammar, independent of the decoder: which byte strings are
    payloads, in every head form and field order, and which entries they mean.
    DecodeRecognisesPayloads says that decode_cbor_payload is exactly this. */
module PayloadGrammar {
  import opened Bytes
  import opened CborHead
  import opened CborItem
  import opened Payload

  datatype Pair = Pair(w: Width, key: seq<byte>, value: Item)
  datatype Map = Map(w: Width, pairs: seq<Pair>)
  datatype Doc = Doc(w: Width, maps: seq<Map>)

  predicate LegalValue(f: Field, v: Item) {
    Legal(v) &&
    match f
    case IdField => v.BytesItem? && |v.data| == ID_LEN
    case LabelField => v.TextItem? && |v.data| <= LABEL_MAX
    case KeyTypeField => v.UIntItem? && (v.v == RSA || v.v == EC)
    case DerField => v.BytesItem? && |v.data| <= DER_MAX
    case CertField => v.BytesItem? && |v.data| <= CERT_MAX
    case UnknownField => Skippable(v, 0)
  }

  predicate LegalPair(p: Pair) {
    |p.key| <= KEY_NAME_MAX && p.w.Fits(|p.key|) && LegalValue(FieldOf(p.key), p.value)
  }

  predicate LegalPairs(ps: seq<Pair>) {
    forall k | 0 <= k < |ps| :: LegalPair(ps[k])
  }

  predicate LegalMap(m: Map) {
    m.w.Fits(|m.pairs|) && LegalPairs(m.pairs) && HasRequired(StoreAll(m.pairs, BLANK))
  }

  predicate LegalDoc(d: Doc) {
    |d.maps| <= MAX_ENTRIES && d.w.Fits(|d.maps|) && forall k | 0 <= k < |d.maps| :: LegalMap(d.maps[k])
  }

  // ------------------------------------------------------------------- meaning

  function StoreValue(f: Field, v: Item, s: Partial): Partial
    requires LegalValue(f, v)
  {
    match f
    case IdField => s.(id := Some(v.data))
    case LabelField => s.(text := Some(v.data))
    case KeyTypeField => s.(keyType := Some(v.v))
    case DerField => s.(der := Some(v.data))
    case CertField => s.(cert := Some(v.data))
    case UnknownField => s
  }

  /** Later pairs overwrite earlier ones. */
  function StoreAll(ps: seq<Pair>, s: Partial): Partial
    requires LegalPairs(ps)
  {
    if ps == [] then s else StoreAll(ps[1..], StoreValue(FieldOf(ps[0].key), ps[0].value, s))
  }

  function MapMeaning(m: Map): Entry
    requires LegalMap(m)
  {
    Finish(StoreAll(m.pairs, BLANK))
  }

  function Meaning(maps: seq<Map>): (es: seq<Entry>)
    requires forall k | 0 <= k < |maps| :: LegalMap(maps[k])
    ensures |es| == |maps| && forall k | 0 <= k < |maps| :: es[k] == MapMeaning(maps[k])
  {
    if maps == [] then [] else [MapMeaning(maps[0])] + Meaning(maps[1..])
  }

  // --------------------------------------------------------------------- bytes

  function PairBytes(p: Pair): (r: seq<byte>)
    requires LegalPair(p)
    ensures |r| >= 2
  {
    HeadBytes(TEXT, p.w, |p.key|) + p.key + ItemBytes(p.value)
  }

  function PairsBytes(ps: seq<Pair>): (r: seq<byte>)
    requires LegalPairs(ps)
  {
    if ps == [] then [] else PairBytes(ps[0]) + PairsBytes(ps[1..])
  }

  function MapBytes(m: Map): (r: seq<byte>)
    requires LegalMap(m)
  {
    HeadBytes(MAP, m.w, |m.pairs|) + PairsBytes(m.pairs)
  }

  function MapsBytes(maps: seq<Map>): (r: seq<byte>)
    requires forall k | 0 <= k < |maps| :: LegalMap(maps[k])
  {
    if maps == [] then [] else MapBytes(maps[0]) + MapsBytes(maps[1..])
  }

  function DocBytes(d: Doc): (r: seq<byte>)
    requires LegalDoc(d)
  {
    HeadBytes(ARRAY, d.w, |d.maps|) + MapsBytes(d.maps)
  }

  // ------------------------------------------------- the decoder accepts them all

  lemma ReadsString(buf: seq<byte>, pos: nat, major: nat, min: nat, max: nat, w: Width, data: seq<byte>)
    requires major < 8 && w.Fits(|data|) && At(buf, pos, HeadBytes(major, w, |data|) + data)
    requires min <= |data| <= max
    ensures ReadString(buf, pos, major, min, max) == Ok((data, pos + w.Size() + |data|))
  {
    hide ReadHead, HeadBytes;
    AtConcat(buf, pos, HeadBytes(major, w, |data|), data);
    ReadsEveryForm(buf, pos, major, w, |data|);
  }

  lemma DecodesEveryValue(buf: seq<byte>, pos: nat, f: Field, v: Item, s: Partial)
    requires LegalValue(f, v) && At(buf, pos, ItemBytes(v))
    ensures DecodeValue(buf, pos, f, s) == Ok((StoreValue(f, v, s), pos + |ItemBytes(v)|))
  {
    hide ReadHead, HeadBytes, ReadString, Skip, At;
    match f
    case IdField => ReadsString(buf, pos, BYTES, ID_LEN, ID_LEN, v.w, v.data);
    case LabelField => ReadsString(buf, pos, TEXT, 0, LABEL_MAX, v.w, v.data);
    case KeyTypeField => ReadsEveryForm(buf, pos, UINT, v.w, v.v);
    case DerField => ReadsString(buf, pos, BYTES, 0, DER_MAX, v.w, v.data);
    case CertField => ReadsString(buf, pos, BYTES, 0, CERT_MAX, v.w, v.data);
    case UnknownField => SkipsEveryItem(buf, pos, 0, v);
  }

  lemma DecodesEveryPair(buf: seq<byte>, pos: nat, p: Pair, s: Partial)
    requires LegalPair(p) && At(buf, pos, PairBytes(p))
    ensures DecodePair(buf, pos, s) == Ok((StoreValue(FieldOf(p.key), p.value, s), pos + |PairBytes(p)|))
  {
    hide ReadString, DecodeValue, FieldOf, StoreValue, ItemBytes, HeadBytes;
    var key := HeadBytes(TEXT, p.w, |p.key|) + p.key;
    AtConcat(buf, pos, key, ItemBytes(p.value));
    ReadsString(buf, pos, TEXT, 0, KEY_NAME_MAX, p.w, p.key);
    DecodesEveryValue(buf, pos + |key|, FieldOf(p.key), p.value, s);
  }

  lemma {:induction false} DecodesEveryPairs(buf: seq<byte>, pos: nat, ps: seq<Pair>, s: Partial)
    requires LegalPairs(ps) && At(buf, pos, PairsBytes(ps))
    ensures DecodePairs(buf, pos, |ps|, s) == Ok((StoreAll(ps, s), pos + |PairsBytes(ps)|))
    decreases |ps|
  {
    hide DecodePair, PairBytes, StoreValue, FieldOf;
    if ps != [] {
      AtConcat(buf, pos, PairBytes(ps[0]), PairsBytes(ps[1..]));
      DecodesEveryPair(buf, pos, ps[0], s);
      var s' := StoreValue(FieldOf(ps[0].key), ps[0].value, s);
      DecodesEveryPairs(buf, pos + |PairBytes(ps[0])|, ps[1..], s');
    }
  }

  lemma DecodesEveryMap(buf: seq<byte>, pos: nat, m: Map)
    requires LegalMap(m) && At(buf, pos, MapBytes(m))
    ensures DecodeEntry(buf, pos) == Ok((MapMeaning(m), pos + |MapBytes(m)|))
  {
    hide ReadHead, HeadBytes, DecodePairs, PairsBytes, StoreAll, LegalPairs;
    AtConcat(buf, pos, HeadBytes(MAP, m.w, |m.pairs|), PairsBytes(m.pairs));
    ReadsEveryForm(buf, pos, MAP, m.w, |m.pairs|);
    DecodesEveryPairs(buf, pos + m.w.Size(), m.pairs, BLANK);
  }

  lemma {:induction false} DecodesEveryMaps(buf: seq<byte>, pos: nat, maps: seq<Map>)
    requires forall k | 0 <= k < |maps| :: LegalMap(maps[k])
    requires At(buf, pos, MapsBytes(maps))
    ensures DecodeEntries(buf, pos, |maps|) == Ok((Meaning(maps), pos + |MapsBytes(maps)|))
    decreases |maps|
  {
    hide DecodeEntry, MapBytes, MapMeaning, LegalMap;
    if maps != [] {
      AtConcat(buf, pos, MapBytes(maps[0]), MapsBytes(maps[1..]));
      DecodesEveryMap(buf, pos, maps[0]);
      DecodesEveryMaps(buf, pos + |MapBytes(maps[0])|, maps[1..]);
    }
  }

  lemma DecodesEveryDoc(buf: seq<byte>, d: Doc)
    requires LegalDoc(d) && At(buf, 0, DocBytes(d))
    ensures Decode(buf) == Ok((Meaning(d.maps), |DocBytes(d)|))
  {
    hide ReadHead, HeadBytes, DecodeEntries, MapsBytes, Meaning, LegalMap;
    AtConcat(buf, 0, HeadBytes(ARRAY, d.w, |d.maps|), MapsBytes(d.maps));
    ReadsEveryForm(buf, 0, ARRAY, d.w, |d.maps|);
    DecodesEveryMaps(buf, d.w.Size(), d.maps);
  }

  // ------------------------------------------------------ and nothing but them

  lemma ReadsOnlyStrings(buf: seq<byte>, pos: nat, major: nat, min: nat, max: nat)
    requires major < 8 && ReadString(buf, pos, major, min, max).Ok?
    ensures
      var (data, next) := ReadString(buf, pos, major, min, max).value;
      ReadHead(buf, pos).Ok? &&
      var w := WidthAt(buf, pos);
      w.Fits(|data|) && next == pos + w.Size() + |data| && At(buf, pos, HeadBytes(major, w, |data|) + data)
  {
    hide ReadHead, HeadBytes;
    var h, w := ReadHead(buf, pos).value, WidthAt(buf, pos);
    var data := ReadString(buf, pos, major, min, max).value.0;
    ReadsOnlyHeads(buf, pos);
    AtConcat(buf, pos, HeadBytes(major, w, h.value), data);
  }

  lemma DecodesOnlyValues(buf: seq<byte>, pos: nat, f: Field, s: Partial) returns (v: Item)
    requires DecodeValue(buf, pos, f, s).Ok?
    ensures LegalValue(f, v) && At(buf, pos, ItemBytes(v))
    ensures DecodeValue(buf, pos, f, s).value == (StoreValue(f, v, s), pos + |ItemBytes(v)|)
  {
    hide ReadHead, HeadBytes, ReadString, Skip, At;
    match f
    case IdField =>
      ReadsOnlyStrings(buf, pos, BYTES, ID_LEN, ID_LEN);
      v := BytesItem(WidthAt(buf, pos), ReadString(buf, pos, BYTES, ID_LEN, ID_LEN).value.0);
    case LabelField =>
      ReadsOnlyStrings(buf, pos, TEXT, 0, LABEL_MAX);
      v := TextItem(WidthAt(buf, pos), ReadString(buf, pos, TEXT, 0, LABEL_MAX).value.0);
    case KeyTypeField =>
      ReadsOnlyHeads(buf, pos);
      v := UIntItem(WidthAt(buf, pos), ReadHead(buf, pos).value.value);
    case DerField =>
      ReadsOnlyStrings(buf, pos, BYTES, 0, DER_MAX);
      v := BytesItem(WidthAt(buf, pos), ReadString(buf, pos, BYTES, 0, DER_MAX).value.0);
    case CertField =>
      ReadsOnlyStrings(buf, pos, BYTES, 0, CERT_MAX);
      v := BytesItem(WidthAt(buf, pos), ReadString(buf, pos, BYTES, 0, CERT_MAX).value.0);
    case UnknownField =>
      v := SkipsOnlyItems(buf, pos, 0);
  }

  lemma DecodesOnlyLegalPairs(buf: seq<byte>, pos: nat, s: Partial) returns (p: Pair)
    requires DecodePair(buf, pos, s).Ok?
    ensures LegalPair(p) && At(buf, pos, PairBytes(p))
    ensures DecodePair(buf, pos, s).value == (StoreValue(FieldOf(p.key), p.value, s), pos + |PairBytes(p)|)
  {
    hide ReadHead, HeadBytes, ReadString, DecodeValue, FieldOf, StoreValue, ItemBytes, At;
    var (key, next) := ReadString(buf, pos, TEXT, 0, KEY_NAME_MAX).value;
    ReadsOnlyStrings(buf, pos, TEXT, 0, KEY_NAME_MAX);
    var v := DecodesOnlyValues(buf, next, FieldOf(key), s);
    p := Pair(WidthAt(buf, pos), key, v);
    AtConcat(buf, pos, HeadBytes(TEXT, p.w, |key|) + key, ItemBytes(v));
  }

  lemma {:induction false} DecodesOnlyPairLists(buf: seq<byte>, pos: nat, n: nat, s: Partial) returns (ps: seq<Pair>)
    requires pos <= |buf| && DecodePairs(buf, pos, n, s).Ok?
    ensures LegalPairs(ps) && |ps| == n && At(buf, pos, PairsBytes(ps))
    ensures DecodePairs(buf, pos, n, s).value == (StoreAll(ps, s), pos + |PairsBytes(ps)|)
    decreases n
  {
    hide DecodePair, LegalPair, PairBytes, StoreValue, FieldOf;
    if n == 0 {
      ps := [];
    } else {
      var (s', next) := DecodePair(buf, pos, s).value;
      var p := DecodesOnlyLegalPairs(buf, pos, s);
      var rest := DecodesOnlyPairLists(buf, next, n - 1, s');
      ps := [p] + rest;
      assert ps[0] == p && ps[1..] == rest;
      AtConcat(buf, pos, PairBytes(p), PairsBytes(rest));
    }
  }

  lemma DecodesOnlyMaps(buf: seq<byte>, pos: nat) returns (m: Map)
    requires DecodeEntry(buf, pos).Ok?
    ensures LegalMap(m) && At(buf, pos, MapBytes(m))
    ensures DecodeEntry(buf, pos).value == (MapMeaning(m), pos + |MapBytes(m)|)
  {
    hide ReadHead, HeadBytes, DecodePairs, PairsBytes, StoreAll, LegalPairs, At;
    var h, w := ReadHead(buf, pos).value, WidthAt(buf, pos);
    ReadsOnlyHeads(buf, pos);
    var ps := DecodesOnlyPairLists(buf, pos + h.size, h.value, BLANK);
    m := Map(w, ps);
    AtConcat(buf, pos, HeadBytes(MAP, w, |ps|), PairsBytes(ps));
  }

  lemma {:induction false} DecodesOnlyMapLists(buf: seq<byte>, pos: nat, n: nat) returns (maps: seq<Map>)
    requires pos <= |buf| && DecodeEntries(buf, pos, n).Ok?
    ensures |maps| == n && forall k | 0 <= k < |maps| :: LegalMap(maps[k])
    ensures At(buf, pos, MapsBytes(maps))
    ensures DecodeEntries(buf, pos, n).value == (Meaning(maps), pos + |MapsBytes(maps)|)
    decreases n
  {
    hide DecodeEntry, LegalMap, MapBytes, MapMeaning;
    if n == 0 {
      maps := [];
    } else {
      var (e, next) := DecodeEntry(buf, pos).value;
      var m := DecodesOnlyMaps(buf, pos);
      var rest := DecodesOnlyMapLists(buf, next, n - 1);
      maps := [m] + rest;
      assert maps[0] == m && maps[1..] == rest;
      AtConcat(buf, pos, MapBytes(m), MapsBytes(rest));
    }
  }

  lemma DecodesOnlyDocs(buf: seq<byte>) returns (d: Doc)
    requires Decode(buf).Ok?
    ensures LegalDoc(d) && At(buf, 0, DocBytes(d))
    ensures Decode(buf).value == (Meaning(d.maps), |DocBytes(d)|)
  {
    hide ReadHead, HeadBytes, DecodeEntries, MapsBytes, Meaning, LegalMap, At;
    var h, w := ReadHead(buf, 0).value, WidthAt(buf, 0);
    ReadsOnlyHeads(buf, 0);
    var maps := DecodesOnlyMapLists(buf, h.size, h.value);
    d := Doc(w, maps);
    AtConcat(buf, 0, HeadBytes(ARRAY, w, |maps|), MapsBytes(maps));
  }

  /** Some document of the grammar stands at the start of `buf`, takes `n` bytes
      and means `es`. */
  ghost predicate Denotes(buf: seq<byte>, es: seq<Entry>, n: nat) {
    exists d :: LegalDoc(d) && At(buf, 0, DocBytes(d)) && n == |DocBytes(d)| && es == Meaning(d.maps)
  }

  /** decode_cbor_payload succeeds with `es`, stopping at `n`, exactly when a
      document that means `es` stands at the start of the buffer and ends at `n`. */
  lemma DecodeRecognisesPayloads(buf: seq<byte>, es: seq<Entry>, n: nat)
    ensures Decode(buf) == Ok((es, n)) <==> Denotes(buf, es, n)
  {
    hide At, DocBytes, Meaning, Decode;
    if Decode(buf) == Ok((es, n)) {
      var d := DecodesOnlyDocs(buf);
      assert LegalDoc(d);
    }
    if Denotes(buf, es, n) {
      var d :| LegalDoc(d) && At(buf, 0, DocBytes(d)) && n == |DocBytes(d)| && es == Meaning(d.maps);
      DecodesEveryDoc(buf, d);
    }
  }
}
