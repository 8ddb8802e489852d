/** Field order, extra fields and sizes: what a payload may vary in without changing
    what it means, and how large an encoded payload can get. */
module PayloadOrder {
  import opened Bytes
  import opened CborHead
  import opened CborItem
  import opened Payload
  import opened PayloadGrammar
  import opened PayloadLaws

  // ------------------------------------------------------------ order of the fields

  datatype Datum = Blob(data: seq<byte>) | Number(n: int)

  /** What a recognised field says, regardless of the forms of its heads. */
  function Content(v: Item): Datum
    requires v.BytesItem? || v.TextItem? || v.UIntItem?
  {
    if v.UIntItem? then Number(v.v) else Blob(v.data)
  }

  predicate Tells(p: Pair, f: Field, c: Datum)
    requires LegalPair(p)
  {
    f != UnknownField && FieldOf(p.key) == f && Content(p.value) == c
  }

  ghost predicate Says(ps: seq<Pair>, f: Field, c: Datum)
    requires LegalPairs(ps)
  {
    exists k | 0 <= k < |ps| :: Tells(ps[k], f, c)
  }

  /** No recognised field is given two different values. */
  ghost predicate Unambiguous(ps: seq<Pair>)
    requires LegalPairs(ps)
  {
    forall f, c, c' :: Says(ps, f, c) && Says(ps, f, c') ==> c == c'
  }

  /** The same recognised fields with the same values. */
  ghost predicate SayTheSame(ps: seq<Pair>, qs: seq<Pair>)
    requires LegalPairs(ps) && LegalPairs(qs)
  {
    forall f, c :: Says(ps, f, c) <==> Says(qs, f, c)
  }

  function Get(s: Partial, f: Field): Option<Datum> {
    match f
    case IdField => if s.id.Some? then Some(Blob(s.id.value)) else None
    case LabelField => if s.text.Some? then Some(Blob(s.text.value)) else None
    case KeyTypeField => if s.keyType.Some? then Some(Number(s.keyType.value)) else None
    case DerField => if s.der.Some? then Some(Blob(s.der.value)) else None
    case CertField => if s.cert.Some? then Some(Blob(s.cert.value)) else None
    case UnknownField => None
  }

  lemma SameFieldsSamePartial(s: Partial, t: Partial)
    requires forall f :: Get(s, f) == Get(t, f)
    ensures s == t
  {
    assert Get(s, IdField) == Get(t, IdField) && Get(s, LabelField) == Get(t, LabelField);
    assert Get(s, KeyTypeField) == Get(t, KeyTypeField) && Get(s, DerField) == Get(t, DerField);
    assert Get(s, CertField) == Get(t, CertField);
  }

  lemma StoreSetsItsField(p: Pair, s: Partial, f: Field)
    requires LegalPair(p)
    ensures
      var g := FieldOf(p.key);
      Get(StoreValue(g, p.value, s), f) ==
        if f == g && f != UnknownField then Some(Content(p.value)) else Get(s, f)
  {}

  /** After all pairs are stored a field holds what some pair says of it, or, when
      no pair mentions it, what it held before. */
  lemma {:induction false} StoredIsSaid(ps: seq<Pair>, s: Partial, f: Field)
    requires LegalPairs(ps)
    ensures
      var g := Get(StoreAll(ps, s), f);
      (g.Some? && Says(ps, f, g.value)) || (g == Get(s, f) && forall c :: !Says(ps, f, c))
    decreases |ps|
  {
    hide StoreValue, FieldOf, LegalValue, Get;
    if ps != [] {
      var p, rest := ps[0], ps[1..];
      var s' := StoreValue(FieldOf(p.key), p.value, s);
      StoreSetsItsField(p, s, f);
      StoredIsSaid(rest, s', f);
      assert StoreAll(ps, s) == StoreAll(rest, s');
      forall c ensures Says(ps, f, c) <==> Tells(p, f, c) || Says(rest, f, c) {
        if Says(ps, f, c) {
          var k :| 0 <= k < |ps| && Tells(ps[k], f, c);
          assert k > 0 ==> Tells(rest[k - 1], f, c);
        }
        if Says(rest, f, c) {
          var k :| 0 <= k < |rest| && Tells(rest[k], f, c);
          assert Tells(ps[k + 1], f, c);
        }
      }
    }
  }

  /** Two unambiguous lists that say the same store the same, in any order, with any
      repetitions, head forms and unrecognised pairs. */
  lemma OrderDoesNotMatter(ps: seq<Pair>, qs: seq<Pair>)
    requires LegalPairs(ps) && LegalPairs(qs) && Unambiguous(ps) && SayTheSame(ps, qs)
    ensures StoreAll(ps, BLANK) == StoreAll(qs, BLANK)
  {
    hide StoreAll, Get, LegalPairs, Says;
    var s, t := StoreAll(ps, BLANK), StoreAll(qs, BLANK);
    forall f ensures Get(s, f) == Get(t, f) {
      StoredIsSaid(ps, BLANK, f);
      StoredIsSaid(qs, BLANK, f);
      var g, h := Get(s, f), Get(t, f);
      assert g.Some? && h.Some? && Says(ps, f, g.value) && Says(qs, f, h.value) ==> Says(ps, f, h.value);
    }
    SameFieldsSamePartial(s, t);
  }

  /** The pairs whose keys are recognised. */
  function Known(ps: seq<Pair>): (r: seq<Pair>)
    requires LegalPairs(ps)
    ensures LegalPairs(r)
  {
    if ps == [] then []
    else if FieldOf(ps[0].key) == UnknownField then Known(ps[1..])
    else [ps[0]] + Known(ps[1..])
  }

  /** Pairs with unrecognised keys store nothing. */
  lemma {:induction false} OnlyKnownPairsStore(ps: seq<Pair>, s: Partial)
    requires LegalPairs(ps)
    ensures StoreAll(ps, s) == StoreAll(Known(ps), s)
    decreases |ps|
  {
    hide FieldOf, LegalValue;
    if ps != [] {
      OnlyKnownPairsStore(ps[1..], StoreValue(FieldOf(ps[0].key), ps[0].value, s));
      assert FieldOf(ps[0].key) != UnknownField ==> Known(ps)[1..] == Known(ps[1..]);
    }
  }

  lemma SameKnownSameStore(ps: seq<Pair>, qs: seq<Pair>, s: Partial)
    requires LegalPairs(ps) && LegalPairs(qs) && Known(ps) == Known(qs)
    ensures StoreAll(ps, s) == StoreAll(qs, s)
  {
    hide LegalPairs, Known, StoreAll;
    OnlyKnownPairsStore(ps, s);
    OnlyKnownPairsStore(qs, s);
  }

  lemma {:induction false} KnownConcat(ps: seq<Pair>, qs: seq<Pair>)
    requires LegalPairs(ps) && LegalPairs(qs)
    ensures LegalPairs(ps + qs) && Known(ps + qs) == Known(ps) + Known(qs)
    decreases |ps|
  {
    hide FieldOf, LegalPair;
    if ps == [] {
      assert ps + qs == qs;
    } else {
      assert (ps + qs)[1..] == ps[1..] + qs;
      KnownConcat(ps[1..], qs);
    }
  }

  /** A pair with an unrecognised key may stand anywhere between the others. */
  lemma UnknownPairsAreIgnored(before: seq<Pair>, extra: Pair, after: seq<Pair>)
    requires LegalPairs(before) && LegalPairs(after) && LegalPair(extra) && FieldOf(extra.key) == UnknownField
    ensures LegalPairs(before + after) && LegalPairs(before + [extra] + after)
    ensures Known(before + [extra] + after) == Known(before + after)
    ensures forall s :: StoreAll(before + [extra] + after, s) == StoreAll(before + after, s)
  {
    hide FieldOf, LegalPair, StoreAll;
    KnownConcat(before, after);
    KnownConcat(before, [extra]);
    KnownConcat(before + [extra], after);
    assert [extra][1..] == [];
    forall s ensures StoreAll(before + [extra] + after, s) == StoreAll(before + after, s) {
      SameKnownSameStore(before + [extra] + after, before + after, s);
    }
  }

  /** Documents whose maps hold the same recognised pairs, one by one and in the same
      order, decode to the same entries: any number of unrecognised pairs may be inserted
      anywhere, also between repeated fields. */
  lemma DecodeIgnoresUnknownPairs(d: Doc, d': Doc, more: seq<byte>, more': seq<byte>)
    requires LegalDoc(d) && LegalDoc(d') && |d.maps| == |d'.maps|
    requires forall k | 0 <= k < |d.maps| :: Known(d.maps[k].pairs) == Known(d'.maps[k].pairs)
    ensures
      var r, r' := Decode(DocBytes(d) + more), Decode(DocBytes(d') + more');
      r.Ok? && r'.Ok? && r.value.0 == r'.value.0
  {
    hide Decode, DocBytes, StoreAll, LegalPairs, Known;
    DecodesDocInFront(d, more);
    DecodesDocInFront(d', more');
    forall k | 0 <= k < |d.maps| ensures MapMeaning(d.maps[k]) == MapMeaning(d'.maps[k]) {
      SameKnownSameStore(d.maps[k].pairs, d'.maps[k].pairs, BLANK);
    }
    assert Meaning(d.maps) == Meaning(d'.maps);
  }

  lemma DecodesDocInFront(d: Doc, more: seq<byte>)
    requires LegalDoc(d)
    ensures Decode(DocBytes(d) + more) == Ok((Meaning(d.maps), |DocBytes(d)|))
  {
    hide Decode, DocBytes, Meaning, LegalDoc;
    assert At(DocBytes(d) + more, 0, DocBytes(d));
    DecodesEveryDoc(DocBytes(d) + more, d);
  }

  /** A reordering of pairs says the same. */
  lemma PermutationsSayTheSame(ps: seq<Pair>, qs: seq<Pair>)
    requires LegalPairs(ps) && multiset(ps) == multiset(qs)
    ensures LegalPairs(qs) && SayTheSame(ps, qs)
  {
    hide LegalPair, FieldOf;
    assert forall p :: p in ps <==> p in multiset(ps);
    assert forall p :: p in qs <==> p in multiset(qs);
    forall k | 0 <= k < |qs| ensures LegalPair(qs[k]) {
      assert qs[k] in ps;
    }
    forall f, c ensures Says(ps, f, c) <==> Says(qs, f, c) {
      if Says(ps, f, c) {
        var k :| 0 <= k < |ps| && Tells(ps[k], f, c);
        assert ps[k] in qs;
      }
      if Says(qs, f, c) {
        var k :| 0 <= k < |qs| && Tells(qs[k], f, c);
        assert qs[k] in ps;
      }
    }
  }

  /** Two documents whose maps say the same, one by one, decode to the same entries,
      whatever follows them in the buffer. */
  lemma DecodeIgnoresFieldOrder(d: Doc, d': Doc, more: seq<byte>, more': seq<byte>)
    requires LegalDoc(d) && LegalDoc(d') && |d.maps| == |d'.maps|
    requires forall k | 0 <= k < |d.maps| ::
      Unambiguous(d.maps[k].pairs) && SayTheSame(d.maps[k].pairs, d'.maps[k].pairs)
    ensures
      var r, r' := Decode(DocBytes(d) + more), Decode(DocBytes(d') + more');
      r.Ok? && r'.Ok? && r.value.0 == r'.value.0
  {
    hide Decode, DocBytes, StoreAll, LegalPairs, Unambiguous, SayTheSame;
    DecodesDocInFront(d, more);
    DecodesDocInFront(d', more');
    forall k | 0 <= k < |d.maps| ensures MapMeaning(d.maps[k]) == MapMeaning(d'.maps[k]) {
      OrderDoesNotMatter(d.maps[k].pairs, d'.maps[k].pairs);
    }
    assert Meaning(d.maps) == Meaning(d'.maps);
  }

  // ------------------------------------------------------------------------- sizes

  /** The longest encoding of one entry. */
  const MAX_ENTRY_BYTES := 8322

  /** What wp11_keystore_create allocates for `n` entries. */
  function BufferSize(n: nat): nat {
    5 + n * (4300 + CERT_MAX + 16)
  }

  lemma EntrySize(e: Entry)
    requires WithinLimits(e)
    ensures |EntryBytes(e)| <= MAX_ENTRY_BYTES
    ensures |EntryBytes(e)| == MAX_ENTRY_BYTES <==>
      |CString(e.text)| == LABEL_MAX && |e.der| == DER_MAX && e.cert.Some? && |e.cert.value| == CERT_MAX
  {
    hide EntryBytes, CString;
    EntryCost(e);
  }

  ghost predicate Maximal(e: Entry) {
    WithinLimits(e) && |EntryBytes(e)| == MAX_ENTRY_BYTES
  }

  lemma {:induction false} EntriesSize(es: seq<Entry>)
    requires forall k | 0 <= k < |es| :: WithinLimits(es[k])
    ensures forall k | 0 <= k < |es| :: Encodable(es[k])
    ensures |EntriesBytes(es)| <= MAX_ENTRY_BYTES * |es|
    ensures (forall k | 0 <= k < |es| :: Maximal(es[k])) <==> |EntriesBytes(es)| == MAX_ENTRY_BYTES * |es|
  {
    hide EntryBytes;
    if es != [] {
      EntrySize(es[0]);
      EntriesSize(es[1..]);
      assert (forall k | 0 <= k < |es| :: Maximal(es[k])) <==>
        Maximal(es[0]) && forall k | 0 <= k < |es[1..]| :: Maximal(es[1..][k]) by {
        assert forall k | 0 <= k < |es[1..]| :: es[1..][k] == es[k + 1];
        assert forall k | 1 <= k < |es| :: es[k] == es[1..][k - 1];
      }
    }
  }

  /** The buffer that create allocates always suffices for entries within limits. */
  lemma EncodingFitsBuffer(es: seq<Entry>)
    requires AllWithinLimits(es)
    ensures |Encode(es)| <= BufferSize(|es|)
  {
    hide EntriesBytes, HeadBytes;
    EntriesSize(es);
  }

  /** Up to 63 entries always fit the largest payload that load accepts, and 63 fill it
      exactly when all of them are maximal; 64 maximal entries do not fit. */
  lemma PayloadBound(es: seq<Entry>)
    requires AllWithinLimits(es)
    ensures |es| <= 63 ==> |Encode(es)| <= MAX_CT_LEN
    ensures |es| == 63 ==> ((forall k | 0 <= k < |es| :: Maximal(es[k])) <==> |Encode(es)| == MAX_CT_LEN)
    ensures |es| == 64 && (forall k | 0 <= k < |es| :: Maximal(es[k])) ==> |Encode(es)| > MAX_CT_LEN
  {
    hide EntriesBytes, HeadBytes, Maximal;
    EntriesSize(es);
  }
}
