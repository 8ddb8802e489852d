/** The names of the fields, which of several values counts, which fields an entry must
    have, and the bytes of a small payload written out. */
module PayloadNames {
  import opened Bytes
  import opened CborHead
  import opened CborItem
  import opened Payload
  import opened PayloadGrammar
  import opened PayloadLaws
  import opened PayloadOrder

  /** The names in ASCII. */
  function Ascii(f: Field): seq<byte> {
    match f
    case IdField => ['i' as int, 'd' as int]
    case LabelField => ['l' as int, 'a' as int, 'b' as int, 'e' as int, 'l' as int]
    case KeyTypeField =>
      ['k' as int, 'e' as int, 'y' as int, '_' as int, 't' as int, 'y' as int, 'p' as int, 'e' as int]
    case DerField =>
      ['d' as int, 'e' as int, 'r' as int, '_' as int, 'b' as int, 'y' as int, 't' as int, 'e' as int, 's' as int]
    case CertField =>
      ['c' as int, 'e' as int, 'r' as int, 't' as int, '_' as int, 'b' as int, 'y' as int, 't' as int, 'e' as int,
       's' as int]
    case UnknownField => []
  }

  lemma AsciiIsName(f: Field)
    ensures Ascii(f) == Name(f) && 0 !in Ascii(f)
  {}

  /** A key names a field exactly when it is the field's name, or the name, a NUL and
      anything. */
  lemma KeyNamesIff(key: seq<byte>, f: Field)
    requires f != UnknownField
    ensures FieldOf(key) == f <==> key == Ascii(f) || exists rest :: key == Ascii(f) + [0] + rest
  {
    hide Ascii, Name, CString;
    AsciiIsName(f);
    FieldByName(key, f);
    CutIff(key, Ascii(f));
  }

  lemma FieldByName(key: seq<byte>, f: Field)
    requires f != UnknownField
    ensures FieldOf(key) == f <==> CString(key) == Name(f)
  {
    hide CString;
    assert |ID_KEY| == 2 && |LABEL_KEY| == 5 && |KEY_TYPE_KEY| == 8 && |DER_KEY| == 9 && |CERT_KEY| == 10;
  }

  lemma CutIff(key: seq<byte>, name: seq<byte>)
    requires 0 !in name
    ensures CString(key) == name <==> key == name || exists rest :: key == name + [0] + rest
  {
    if key == name {
      CStringOfPlain(key);
    }
    if rest :| key == name + [0] + rest {
      CutAtNul(name, rest);
    }
    if CString(key) == name && |name| < |key| {
      assert key == name + [0] + key[|name| + 1..];
    }
  }

  lemma {:induction false} CutAtNul(s: seq<byte>, rest: seq<byte>)
    requires 0 !in s
    ensures CString(s + [0] + rest) == s
  {
    if s != [] {
      assert (s + [0] + rest)[1..] == s[1..] + [0] + rest;
      CutAtNul(s[1..], rest);
    }
  }

  predicate Names(p: Pair, f: Field) {
    FieldOf(p.key) == f
  }

  /** Of several values for one field the last counts. */
  lemma {:induction false} LastOneCounts(ps: seq<Pair>, s: Partial, k: nat, f: Field)
    requires LegalPairs(ps) && k < |ps| && f != UnknownField && Names(ps[k], f)
    requires forall j | k < j < |ps| :: !Names(ps[j], f)
    ensures Get(StoreAll(ps, s), f) == Some(if f == KeyTypeField then Number(ps[k].value.v) else Blob(ps[k].value.data))
    decreases |ps|
  {
    hide FieldOf, Get;
    var p, rest := ps[0], ps[1..];
    var s' := StoreValue(FieldOf(p.key), p.value, s);
    StoreSetsItsField(p, s, f);
    if k > 0 {
      LastOneCounts(rest, s', k - 1, f);
    } else {
      StoredIsSaid(rest, s', f);
      NotSaid(rest, f);
    }
  }

  lemma NotSaid(ps: seq<Pair>, f: Field)
    requires LegalPairs(ps) && forall j | 0 <= j < |ps| :: !Names(ps[j], f)
    ensures forall c :: !Says(ps, f, c)
  {}

  ghost predicate Named(ps: seq<Pair>, f: Field) {
    exists k | 0 <= k < |ps| :: Names(ps[k], f)
  }

  /** A map is an entry exactly when its pairs are legal and name all of id, label, key_type
      and der_bytes. */
  lemma RequiredFieldsIff(m: Map)
    requires m.w.Fits(|m.pairs|) && LegalPairs(m.pairs)
    ensures LegalMap(m) <==>
      Named(m.pairs, IdField) && Named(m.pairs, LabelField) && Named(m.pairs, KeyTypeField) && Named(m.pairs, DerField)
  {
    hide StoreAll, LegalPairs;
    StoredIffNamed(m.pairs, IdField);
    StoredIffNamed(m.pairs, LabelField);
    StoredIffNamed(m.pairs, KeyTypeField);
    StoredIffNamed(m.pairs, DerField);
  }

  lemma StoredIffNamed(ps: seq<Pair>, f: Field)
    requires LegalPairs(ps) && f != UnknownField
    ensures Get(StoreAll(ps, BLANK), f).Some? <==> Named(ps, f)
  {
    hide StoreAll, FieldOf;
    StoredIsSaid(ps, BLANK, f);
    if k :| 0 <= k < |ps| && Names(ps[k], f) {
      assert Tells(ps[k], f, Content(ps[k].value)) && Says(ps, f, Content(ps[k].value));
    }
    if !Named(ps, f) {
      NotSaid(ps, f);
    }
  }

  /** The payload of one entry with a short label and a short key. */
  lemma SmallPayload(e: Entry)
    requires (e.keyType == 0 || e.keyType == 1) && e.cert.None? && |e.der| <= 23 && |e.text| <= 23 && 0 !in e.text
    ensures AllEncodable([e])
    ensures Encode([e]) ==
      [0x81, 0xA4]
      + ([0x62, 0x69, 0x64, 0x50] + e.id)
      + ([0x65, 0x6C, 0x61, 0x62, 0x65, 0x6C, 0x60 + |e.text|] + e.text)
      + [0x68, 0x6B, 0x65, 0x79, 0x5F, 0x74, 0x79, 0x70, 0x65, e.keyType]
      + ([0x69, 0x64, 0x65, 0x72, 0x5F, 0x62, 0x79, 0x74, 0x65, 0x73, 0x40 + |e.der|] + e.der)
  {
    hide Canonical, NamingBytes, KeyBytes, EntryBytes;
    assert [e][1..] == [];
    assert EntriesBytes([e]) == EntryBytes(e);
    OneEntry(e);
    ShortHeads(1);
    SmallNames(e);
    SmallKey(e);
  }

  lemma OneEntry(e: Entry)
    requires Encodable(e) && e.cert.None?
    ensures EntryBytes(e) == [0xA4] + (NamingBytes(e) + KeyBytes(e))
  {
    hide Canonical, NamingBytes, KeyBytes;
    ShortHeads(4);
  }

  /** A value up to 23 is part of its head. */
  lemma ShortHeads(n: nat)
    requires n <= 23
    ensures Canonical(UINT, n) == [n] && Canonical(BYTES, n) == [0x40 + n] && Canonical(TEXT, n) == [0x60 + n]
    ensures Canonical(ARRAY, n) == [0x80 + n] && Canonical(MAP, n) == [0xA0 + n]
  {}

  lemma SmallNames(e: Entry)
    requires |e.text| <= 23 && 0 !in e.text
    ensures NamingBytes(e) ==
      ([0x62, 0x69, 0x64, 0x50] + e.id) + ([0x65, 0x6C, 0x61, 0x62, 0x65, 0x6C, 0x60 + |e.text|] + e.text)
  {
    hide Canonical;
    CStringOfPlain(e.text);
    ShortHeads(2);
    ShortHeads(16);
    ShortHeads(5);
    ShortHeads(|e.text|);
    assert StringBytes(TEXT, ID_KEY) + StringBytes(BYTES, e.id) == [0x62, 0x69, 0x64, 0x50] + e.id;
    assert StringBytes(TEXT, LABEL_KEY) + StringBytes(TEXT, e.text)
      == [0x65, 0x6C, 0x61, 0x62, 0x65, 0x6C, 0x60 + |e.text|] + e.text;
  }

  lemma SmallKey(e: Entry)
    requires (e.keyType == 0 || e.keyType == 1) && |e.der| <= 23
    ensures KeyBytes(e) ==
      [0x68, 0x6B, 0x65, 0x79, 0x5F, 0x74, 0x79, 0x70, 0x65, e.keyType]
      + ([0x69, 0x64, 0x65, 0x72, 0x5F, 0x62, 0x79, 0x74, 0x65, 0x73, 0x40 + |e.der|] + e.der)
  {
    hide Canonical;
    ShortHeads(8);
    ShortHeads(9);
    ShortHeads(e.keyType);
    ShortHeads(|e.der|);
    assert StringBytes(TEXT, KEY_TYPE_KEY) + Canonical(UINT, e.keyType)
      == [0x68, 0x6B, 0x65, 0x79, 0x5F, 0x74, 0x79, 0x70, 0x65, e.keyType];
    assert StringBytes(TEXT, DER_KEY) + StringBytes(BYTES, e.der)
      == [0x69, 0x64, 0x65, 0x72, 0x5F, 0x62, 0x79, 0x74, 0x65, 0x73, 0x40 + |e.der|] + e.der;
  }
}
