/** BER-TLV as the PIV protocol code reads and writes it (section 5.2.2 of
    ISO 7816-4), and the GENERAL AUTHENTICATE frame built from it. */
module PivTlv {
  import opened Bytes

  const TAG_DAT: byte := 0x7C
  const TAG_RESPONSE: byte := 0x82
  const TAG_CHALLENGE: byte := 0x81
  const TAG_EXPONENT: byte := 0x85
  const CLA: byte := 0x00
  const INS_GEN_AUTH: byte := 0x87
  const APDU_MAX_CMD := 261
  const MAX_INPUT := 247

  // --------------------------------------------------------------- length fields

  /** ber_len_decode: the length and the bytes that carry it. */
  function BerDecode(s: seq<byte>): (r: Option<(nat, nat)>)
    ensures r.Some? ==> r.value.0 <= 0xFFFF && 1 <= r.value.1 <= |s|
  {
    if |s| == 0 then None
    else if s[0] <= 0x7F then Some((s[0] as nat, 1))
    else if s[0] == 0x81 then
      if |s| < 2 then None else Some((s[1] as nat, 2))
    else if s[0] == 0x82 then
      if |s| < 3 then None else Some((0x100 * s[1] as int + s[2] as int, 3))
    else None
  }

  /** The length field of a value of `v` bytes. */
  function BerLen(v: nat): (s: seq<byte>)
    requires v <= 0xFFFF
    ensures 1 <= |s| <= 3
  {
    if v <= 0x7F then [v] else if v <= 0xFF then [0x81, v] else [0x82, v / 0x100, v % 0x100]
  }

  /** ber_len_encode into a buffer of three bytes; 0 when the length is too large. */
  method BerEncode(buf: array<byte>, v: nat) returns (n: nat)
    requires buf.Length >= 3
    modifies buf
    ensures n == 0 <==> v > 0xFFFF
    ensures n > 0 ==> n == |BerLen(v)| && buf[..n] == BerLen(v)
  {
    if v > 0xFFFF {
      return 0;
    }
    if v <= 0x7F {
      buf[0] := v;
      return 1;
    }
    if v <= 0xFF {
      buf[0], buf[1] := 0x81, v;
      return 2;
    }
    buf[0], buf[1], buf[2] := 0x82, v / 0x100, v % 0x100;
    return 3;
  }

  /** Decoding undoes encoding on 0..65535, whatever follows; no field that decodes
      to the same length is shorter. */
  lemma DecodeUndoesEncode(v: nat, rest: seq<byte>)
    requires v <= 0xFFFF
    ensures BerDecode(BerLen(v) + rest) == Some((v, |BerLen(v)|))
    ensures forall s :: BerDecode(s).Some? && BerDecode(s).value.0 == v ==> |BerLen(v)| <= BerDecode(s).value.1
  {
    var s := BerLen(v) + rest;
    assert s[0] == BerLen(v)[0];
    if v > 0x7F {
      assert s[1] == BerLen(v)[1];
    }
    if v > 0xFF {
      assert s[2] == BerLen(v)[2];
    }
  }

  // -------------------------------------------------------------------- elements

  datatype Tlv = Element(start: nat, len: nat) | WrongTag | Malformed

  /** tlv_expect: the value of the element at `pos`, within [pos, end). */
  function TlvExpect(buf: seq<byte>, pos: nat, end: nat, tag: byte): (r: Tlv)
    requires end <= |buf|
    ensures r.Element? ==> pos + 2 <= r.start && r.start + r.len <= end
  {
    if pos >= end then Malformed
    else if buf[pos] != tag then WrongTag
    else
      match BerDecode(buf[pos + 1..end])
      case None => Malformed
      case Some((len, size)) =>
        if len > end - (pos + 1 + size) then Malformed else Element(pos + 1 + size, len)
  }

  function Tagged(tag: byte, value: seq<byte>): (s: seq<byte>)
    requires |value| <= 0xFFFF
    ensures |s| == 1 + |BerLen(|value|)| + |value|
  {
    [tag] + BerLen(|value|) + value
  }

  /** An element that stands at `pos` and ends by `end` is found, value and all. */
  lemma ExpectFindsElement(buf: seq<byte>, pos: nat, end: nat, tag: byte, value: seq<byte>)
    requires |value| <= 0xFFFF && At(buf, pos, Tagged(tag, value))
    requires pos + |Tagged(tag, value)| <= end <= |buf|
    ensures
      var start := pos + 1 + |BerLen(|value|)|;
      && TlvExpect(buf, pos, end, tag) == Element(start, |value|)
      && start + |value| == pos + |Tagged(tag, value)|
      && buf[start..start + |value|] == value
  {
    var len := BerLen(|value|);
    AtConcat(buf, pos, [tag] + len, value);
    AtConcat(buf, pos, [tag], len);
    assert buf[pos] == buf[pos..pos + 1][0];
    var rest := buf[pos + 1 + |len|..end];
    assert buf[pos + 1..end] == len + rest;
    DecodeUndoesEncode(|value|, rest);
  }

  /** `form` is a length field for `len`: the short form, or a long form of one or two
      bytes, whether or not a shorter one would do. */
  predicate LengthForm(form: seq<byte>, len: nat) {
    || (len <= 0x7F && form == [len])
    || (len <= 0xFF && form == [0x81, len])
    || (len <= 0xFFFF && form == [0x82, len / 0x100, len % 0x100])
  }

  /** Exactly the three forms are read, whatever follows them. */
  lemma DecodesLengthForms(s: seq<byte>, len: nat, n: nat)
    ensures BerDecode(s) == Some((len, n)) <==> n <= |s| && LengthForm(s[..n], len)
  {
    if BerDecode(s) == Some((len, n)) {
      assert s[..n] == if n == 1 then [s[0]] else if n == 2 then [s[0], s[1]] else [s[0], s[1], s[2]];
    }
    if n <= |s| && LengthForm(s[..n], len) {
      assert s[0] == s[..n][0] && (n > 1 ==> s[1] == s[..n][1]) && (n > 2 ==> s[2] == s[..n][2]);
    }
  }

  /** What tlv_expect finds, byte for byte: the tag, a length form, and a value that ends
      within the container. A byte that is there and differs is a wrong tag; anything else
      is malformed. */
  lemma ExpectIff(buf: seq<byte>, pos: nat, end: nat, tag: byte, start: nat, len: nat)
    requires end <= |buf|
    ensures TlvExpect(buf, pos, end, tag) == Element(start, len) <==>
      pos < start && start + len <= end && buf[pos] == tag && LengthForm(buf[pos + 1..start], len)
    ensures TlvExpect(buf, pos, end, tag) == WrongTag <==> pos < end && buf[pos] != tag
  {
    hide BerDecode, LengthForm;
    if pos < end {
      var s := buf[pos + 1..end];
      if TlvExpect(buf, pos, end, tag).Element? {
        var e := TlvExpect(buf, pos, end, tag);
        DecodesLengthForms(s, e.len, e.start - pos - 1);
        assert s[..e.start - pos - 1] == buf[pos + 1..e.start];
      }
      if pos < start && start + len <= end {
        DecodesLengthForms(s, len, start - pos - 1);
        assert s[..start - pos - 1] == buf[pos + 1..start];
      }
    }
  }

  /** `buf` begins with an element of that tag and value, its length in some form. */
  ghost predicate Wraps(buf: seq<byte>, tag: byte, value: seq<byte>) {
    exists form, more :: LengthForm(form, |value|) && buf == [tag] + form + value + more
  }

  /** At the front of a byte string. */
  lemma ExpectUnwraps(buf: seq<byte>, tag: byte, value: seq<byte>)
    ensures Wraps(buf, tag, value) <==>
      var e := TlvExpect(buf, 0, |buf|, tag);
      e.Element? && buf[e.start..e.start + e.len] == value
  {
    hide TlvExpect, LengthForm;
    if Wraps(buf, tag, value) {
      var form, more :| LengthForm(form, |value|) && buf == [tag] + form + value + more;
      var start := 1 + |form|;
      assert buf[1..start] == form && buf[start..start + |value|] == value;
      ExpectIff(buf, 0, |buf|, tag, start, |value|);
    }
    var e := TlvExpect(buf, 0, |buf|, tag);
    if e.Element? && buf[e.start..e.start + e.len] == value {
      ExpectIff(buf, 0, |buf|, tag, e.start, e.len);
      var form, more := buf[1..e.start], buf[e.start + e.len..];
      assert buf == [tag] + form + value + more;
    }
  }

  /** Inside a container tlv_expect sees the container's bytes and nothing else. */
  lemma ExpectInside(buf: seq<byte>, start: nat, len: nat, tag: byte)
    requires start + len <= |buf|
    ensures
      var inner := buf[start..start + len];
      TlvExpect(buf, start, start + len, tag) ==
        match TlvExpect(inner, 0, len, tag)
        case Element(i, n) => Element(start + i, n)
        case other => other
  {
    var inner := buf[start..start + len];
    if len > 0 {
      assert inner[0] == buf[start] && inner[1..len] == buf[start + 1..start + len];
    }
  }

  // --------------------------------------------------------- GENERAL AUTHENTICATE

  /** The template's content: an empty response field and the input field. */
  function Content(tag: byte, input: seq<byte>): (s: seq<byte>)
    requires |input| <= MAX_INPUT
    ensures |s| == 3 + |BerLen(|input|)| + |input|
  {
    Tagged(TAG_RESPONSE, []) + Tagged(tag, input)
  }

  /** The command wp11_piv_sign (tag 81) and wp11_piv_ecdh (tag 85) send: header, Lc,
      template, Le. */
  function Command(alg: byte, slot: byte, tag: byte, input: seq<byte>): (s: seq<byte>)
    requires |input| <= MAX_INPUT
    ensures |s| == 6 + |Tagged(TAG_DAT, Content(tag, input))| <= APDU_MAX_CMD
  {
    var data := Tagged(TAG_DAT, Content(tag, input));
    [CLA, INS_GEN_AUTH, alg, slot, |data|] + data + [0]
  }

  /** The frame cut into the pieces that the builder appends. */
  lemma CommandPieces(alg: byte, slot: byte, tag: byte, input: seq<byte>)
    requires |input| <= MAX_INPUT
    ensures
      var len := |Content(tag, input)|;
      && len <= 252 && |Tagged(TAG_DAT, Content(tag, input))| <= 0xFF
      && Command(alg, slot, tag, input) ==
           [CLA, INS_GEN_AUTH, alg, slot, 1 + |BerLen(len)| + len] + ([TAG_DAT] + BerLen(len))
           + [TAG_RESPONSE, 0] + ([tag] + BerLen(|input|)) + input + [0]
  {
    hide BerLen;
    assert Tagged(TAG_RESPONSE, []) == [TAG_RESPONSE, 0] by { EmptyElement(TAG_RESPONSE); }
    BerLenSizes(|input|);
    BerLenSizes(|Content(tag, input)|);
  }

  /** The command for an input of up to 123 bytes, byte for byte. */
  lemma ShortCommand(alg: byte, slot: byte, tag: byte, input: seq<byte>)
    requires |input| <= 123
    ensures
      var n := |input|;
      Command(alg, slot, tag, input) ==
        [0x00, 0x87, alg, slot, n + 6, 0x7C, n + 4, 0x82, 0x00, tag, n] + input + [0x00]
  {
    hide Command, Content, Tagged;
    CommandPieces(alg, slot, tag, input);
    assert |Content(tag, input)| == |input| + 4;
  }

  lemma EmptyElement(tag: byte)
    ensures Tagged(tag, []) == [tag, 0]
  {}

  lemma BerLenSizes(v: nat)
    requires v <= 0xFF
    ensures |BerLen(v)| == if v <= 0x7F then 1 else 2
  {}

  /** The frame builder of wp11_piv_sign and wp11_piv_ecdh: sizes first, then bytes
      appended to `cmd` one piece at a time. It fails exactly for inputs over 247
      bytes; the size it announces is the size it writes. */
  method BuildCommand(cmd: array<byte>, alg: byte, slot: byte, tag: byte, input: seq<byte>)
    returns (cmdlen: Option<nat>)
    requires cmd.Length == APDU_MAX_CMD
    modifies cmd
    ensures cmdlen.Some? <==> |input| <= MAX_INPUT
    ensures cmdlen.Some? ==>
      var want := Command(alg, slot, tag, input);
      cmdlen.value == |want| && cmd[..cmdlen.value] == want
  {
    hide BerLen, Command, Content, Tagged;
    if |input| > MAX_INPUT {
      return None;
    }
    CommandPieces(alg, slot, tag, input);
    BerLenSizes(|input|);
    BerLenSizes(|Content(tag, input)|);
    var clenBytes := if |input| <= 0x7F then 1 else 2;
    var contentLen := 2 + 1 + clenBytes + |input|;
    var dlenBytes := if contentLen <= 0x7F then 1 else 2;
    var dataSize := 1 + dlenBytes + contentLen;
    if dataSize > 0xFF || 5 + dataSize + 1 > cmd.Length {
      return None;
    }
    var n := Append(cmd, 0, [CLA, INS_GEN_AUTH, alg, slot, dataSize]);
    n := AppendHead(cmd, n, TAG_DAT, contentLen);
    ghost var done := [CLA, INS_GEN_AUTH, alg, slot, dataSize] + ([TAG_DAT] + BerLen(contentLen));
    assert cmd[..n] == done;
    n := Append(cmd, n, [TAG_RESPONSE, 0]);
    n := AppendHead(cmd, n, tag, |input|);
    done := done + [TAG_RESPONSE, 0] + ([tag] + BerLen(|input|));
    assert cmd[..n] == done;
    n := Append(cmd, n, input);
    n := Append(cmd, n, [0]);
    return Some(n);
  }

  /** cmd[cmdlen++] = ... for each byte, or memcpy at cmdlen. */
  method Append(cmd: array<byte>, n: nat, s: seq<byte>) returns (n': nat)
    requires n + |s| <= cmd.Length
    modifies cmd
    ensures n' == n + |s| && cmd[..n'] == old(cmd[..n]) + s
  {
    forall k | 0 <= k < |s| {
      cmd[n + k] := s[k];
    }
    return n + |s|;
  }

  method AppendHead(cmd: array<byte>, n: nat, tag: byte, len: nat) returns (n': nat)
    requires len <= 0xFFFF && n + 4 <= cmd.Length
    modifies cmd
    ensures n' == n + 1 + |BerLen(len)| && cmd[..n'] == old(cmd[..n]) + ([tag] + BerLen(len))
  {
    n' := Append(cmd, n, [tag]);
    var scratch := new byte[3](_ => 0);
    var size := BerEncode(scratch, len);
    n' := Append(cmd, n', scratch[..size]);
  }

  /** Lc counts the template exactly, the template holds an empty response field and
      then `input` under `tag`, and nothing is left over before Le. */
  predicate ReadsAs(cmd: seq<byte>, alg: byte, slot: byte, tag: byte, input: seq<byte>)
    requires |cmd| >= 6
  {
    var end := |cmd| - 1;
    var dat := TlvExpect(cmd, 5, end, TAG_DAT);
    var resp := if dat.Element? then TlvExpect(cmd, dat.start, end, TAG_RESPONSE) else dat;
    var field := if resp.Element? then TlvExpect(cmd, resp.start, end, tag) else resp;
    && cmd[..4] == [CLA, INS_GEN_AUTH, alg, slot] && cmd[4] as nat == end - 5 && cmd[end] == 0
    && dat.Element? && dat.start + dat.len == end
    && resp.Element? && resp.len == 0
    && field.Element? && field.start + field.len == end && cmd[field.start..end] == input
  }

  lemma CommandLayout(alg: byte, slot: byte, tag: byte, input: seq<byte>)
    requires |input| <= MAX_INPUT
    ensures
      var cmd, content := Command(alg, slot, tag, input), Content(tag, input);
      && |cmd| == 6 + |Tagged(TAG_DAT, content)|
      && cmd[..4] == [CLA, INS_GEN_AUTH, alg, slot] && cmd[4] as nat == |cmd| - 6 && cmd[|cmd| - 1] == 0
      && At(cmd, 5, Tagged(TAG_DAT, content))
  {
    hide Tagged, Content;
  }

  /** Reading a command back with tlv_expect recovers what went into it. */
  lemma CommandReadsBack(alg: byte, slot: byte, tag: byte, input: seq<byte>)
    requires |input| <= MAX_INPUT
    ensures ReadsAs(Command(alg, slot, tag, input), alg, slot, tag, input)
  {
    hide Content, TlvExpect, Command, Tagged, At;
    var content, cmd := Content(tag, input), Command(alg, slot, tag, input);
    var end := |cmd| - 1;
    CommandLayout(alg, slot, tag, input);
    ExpectFindsElement(cmd, 5, end, TAG_DAT, content);
    var start := 5 + 1 + |BerLen(|content|)|;
    TaggedEndsInValue(cmd, 5, TAG_DAT, content);
    ContentIsTwoElements(tag, input);
    var first, second := Tagged(TAG_RESPONSE, []), Tagged(tag, input);
    AtConcat(cmd, start, first, second);
    ExpectFindsElement(cmd, start, end, TAG_RESPONSE, []);
    ExpectFindsElement(cmd, start + |first|, end, tag, input);
  }

  lemma TaggedEndsInValue(buf: seq<byte>, pos: nat, tag: byte, value: seq<byte>)
    requires |value| <= 0xFFFF && At(buf, pos, Tagged(tag, value))
    ensures At(buf, pos + 1 + |BerLen(|value|)|, value)
  {
    hide At;
    AtConcat(buf, pos, [tag] + BerLen(|value|), value);
  }

  lemma ContentIsTwoElements(tag: byte, input: seq<byte>)
    requires |input| <= MAX_INPUT
    ensures Content(tag, input) == Tagged(TAG_RESPONSE, []) + Tagged(tag, input)
  {}

  /** Lc for an input of `n` bytes, by the code's size arithmetic carried past its
      guard. */
  function TemplateSize(n: nat): nat
    requires n <= 0xFF00
  {
    var content := 3 + |BerLen(n)| + n;
    1 + |BerLen(content)| + content
  }

  /** 247 is the largest input whose template a one-byte Lc can count. */
  lemma LargestInput(n: nat)
    requires n <= 0xFF00
    ensures TemplateSize(n) <= 0xFF <==> n <= MAX_INPUT
    ensures TemplateSize(MAX_INPUT) == 0xFF && TemplateSize(MAX_INPUT + 1) == 0x100
  {}
}
