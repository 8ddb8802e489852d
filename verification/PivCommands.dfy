/** PIV commands against an arbitrary card: GENERAL AUTHENTICATE with its one retry,
    and data objects fetched by GET RESPONSE chaining (section 7.6.1 of ISO 7816-4). */
module PivCommands {
  import opened Bytes
  import opened PivTlv

  const CERT_MAX_LEN := 4096
  const APDU_MAX_RESP := 512

  datatype PivError =
    | ErrPivParam | ErrTransport | ErrSw | ErrBufSize | ErrPivTruncated | ErrEncoding
    | ErrNotFound | ErrUserPresence | ErrSecurityStatus | ErrNotSupported

  type PivResult<T> = Attempt<T, PivError>

  /** What wp11_ccid_apdu hands back for one command. */
  datatype Reply = Lost | Got(bytes: seq<byte>)

  /** A card: its reply to the k-th command of a call may depend on everything. */
  type Card = (nat, seq<byte>) -> Reply

  /** A reply that fits the response buffer and holds a status word. */
  function Receive(r: Reply): (res: PivResult<seq<byte>>)
    ensures res.Ok? ==> 2 <= |res.value| <= APDU_MAX_RESP && r == Got(res.value)
  {
    if r.Lost? || |r.bytes| > APDU_MAX_RESP then Err(ErrTransport)
    else if |r.bytes| < 2 then Err(ErrPivTruncated)
    else Ok(r.bytes)
  }

  function Sw1(resp: seq<byte>): byte
    requires |resp| >= 2
  {
    resp[|resp| - 2]
  }

  function Sw2(resp: seq<byte>): byte
    requires |resp| >= 2
  {
    resp[|resp| - 1]
  }

  function Body(resp: seq<byte>): (s: seq<byte>)
    requires |resp| >= 2
    ensures |s| == |resp| - 2
  {
    resp[..|resp| - 2]
  }

  // --------------------------------------------------------- GENERAL AUTHENTICATE

  /** piv_sw_to_err. */
  function SwToErr(sw1: byte, sw2: byte): PivError {
    if sw1 == 0x69 && sw2 == 0x85 then ErrUserPresence
    else if sw1 == 0x69 && sw2 == 0x82 then ErrSecurityStatus
    else if sw1 == 0x6A && sw2 == 0x81 then ErrNotSupported
    else if sw1 == 0x6A && sw2 == 0x88 then ErrNotFound
    else ErrSw
  }

  /** The 7C { 82 { value } } structure of the response body. A wrong outer tag is
      reported as `wrongOuter`, which differs between sign and ecdh. */
  function ParseResponse(body: seq<byte>, cap: nat, wrongOuter: PivError): (r: PivResult<seq<byte>>)
    ensures r.Ok? ==> |r.value| <= cap
  {
    if |body| == 0 then Err(ErrEncoding)
    else
      match TlvExpect(body, 0, |body|, TAG_DAT)
      case WrongTag => Err(wrongOuter)
      case Malformed => Err(ErrEncoding)
      case Element(start, len) =>
        match TlvExpect(body, start, start + len, TAG_RESPONSE)
        case WrongTag => Err(ErrSw)
        case Malformed => Err(ErrEncoding)
        case Element(i, n) => if n > cap then Err(ErrBufSize) else Ok(body[i..i + n])
  }

  function Conclude(resp: seq<byte>, cap: nat, wrongOuter: PivError): PivResult<seq<byte>>
    requires |resp| >= 2
  {
    if Sw1(resp) != 0x90 || Sw2(resp) != 0 then Err(SwToErr(Sw1(resp), Sw2(resp)))
    else ParseResponse(Body(resp), cap, wrongOuter)
  }

  /** The exchange of wp11_piv_sign and wp11_piv_ecdh after the command is built: on
      SW 6C xx the command is sent once more with Le = xx. */
  function Authenticate(card: Card, cmd: seq<byte>, cap: nat, wrongOuter: PivError): PivResult<seq<byte>>
    requires |cmd| > 0
  {
    var first :- Receive(card(0, cmd));
    if Sw1(first) != 0x6C then Conclude(first, cap, wrongOuter)
    else
      var second :- Receive(card(1, cmd[|cmd| - 1 := Sw2(first)]));
      Conclude(second, cap, wrongOuter)
  }

  /** What wp11_piv_sign and wp11_piv_ecdh share; they differ in the tag of the input and in
      the error for a wrong outer tag. */
  method GeneralAuthenticate(
      card: Card, alg: byte, slot: byte, tag: byte, input: seq<byte>, cap: nat, wrongOuter: PivError)
    returns (r: PivResult<seq<byte>>, exchanges: nat)
    ensures exchanges <= 2
    ensures |input| > MAX_INPUT ==> r == Err(ErrPivParam) && exchanges == 0
    ensures |input| <= MAX_INPUT ==> r == Authenticate(card, Command(alg, slot, tag, input), cap, wrongOuter)
    ensures r.Ok? ==> |r.value| <= cap
  {
    hide Command, ParseResponse, Receive, SwToErr;
    exchanges := 0;
    var cmd := new byte[APDU_MAX_CMD](_ => 0);
    var built := BuildCommand(cmd, alg, slot, tag, input);
    if built.None? {
      return Err(ErrPivParam), exchanges;
    }
    var n := built.value;
    var got := Receive(card(0, cmd[..n]));
    exchanges := 1;
    if got.Err? {
      return got, exchanges;
    }
    if Sw1(got.value) == 0x6C {
      ghost var sent := cmd[..n];
      cmd[n - 1] := Sw2(got.value);
      assert cmd[..n] == sent[n - 1 := Sw2(got.value)];
      got := Receive(card(1, cmd[..n]));
      exchanges := 2;
      if got.Err? {
        return got, exchanges;
      }
    }
    var resp := got.value;
    if Sw1(resp) != 0x90 || Sw2(resp) != 0 {
      return Err(SwToErr(Sw1(resp), Sw2(resp))), exchanges;
    }
    return ParseResponse(Body(resp), cap, wrongOuter), exchanges;
  }

  /** wp11_piv_sign. */
  method Sign(card: Card, alg: byte, slot: byte, challenge: seq<byte>, cap: nat) returns (sig: PivResult<seq<byte>>)
    ensures |challenge| > MAX_INPUT ==> sig == Err(ErrPivParam)
    ensures |challenge| <= MAX_INPUT ==>
      sig == Authenticate(card, Command(alg, slot, TAG_CHALLENGE, challenge), cap, ErrEncoding)
  {
    var exchanges;
    sig, exchanges := GeneralAuthenticate(card, alg, slot, TAG_CHALLENGE, challenge, cap, ErrEncoding);
  }

  /** wp11_piv_ecdh. */
  method Ecdh(card: Card, alg: byte, slot: byte, peer: seq<byte>, cap: nat) returns (shared: PivResult<seq<byte>>)
    ensures |peer| > MAX_INPUT ==> shared == Err(ErrPivParam)
    ensures |peer| <= MAX_INPUT ==>
      shared == Authenticate(card, Command(alg, slot, TAG_EXPONENT, peer), cap, ErrSw)
  {
    var exchanges;
    shared, exchanges := GeneralAuthenticate(card, alg, slot, TAG_EXPONENT, peer, cap, ErrSw);
  }

  /** A well-formed response body around `sig`. */
  function ResponseBody(sig: seq<byte>, extra: seq<byte>): seq<byte>
    requires |sig| + |extra| <= 0xFF00
  {
    Tagged(TAG_DAT, Tagged(TAG_RESPONSE, sig) + extra)
  }

  lemma ResponseParses(sig: seq<byte>, extra: seq<byte>, more: seq<byte>, cap: nat, wrongOuter: PivError)
    requires |sig| + |extra| <= 0xFF00
    ensures ParseResponse(ResponseBody(sig, extra) + more, cap, wrongOuter) ==
      if |sig| > cap then Err(ErrBufSize) else Ok(sig)
  {
    hide BerLen, TlvExpect;
    var inner := Tagged(TAG_RESPONSE, sig);
    var body := ResponseBody(sig, extra) + more;
    assert At(body, 0, ResponseBody(sig, extra));
    ExpectFindsElement(body, 0, |body|, TAG_DAT, inner + extra);
    var start := 1 + |BerLen(|inner + extra|)|;
    AtConcat(body, start, inner, extra);
    ExpectFindsElement(body, start, start + |inner + extra|, TAG_RESPONSE, sig);
  }

  /** Which responses yield a value, byte for byte: a 7C element that begins with an 82
      element of that value, lengths in any form, whatever follows either; and the value
      fits. A first byte other than 7C, or 82 inside it, is told apart from the rest. */
  lemma ParsesIff(body: seq<byte>, cap: nat, wrongOuter: PivError, v: seq<byte>)
    ensures ParseResponse(body, cap, wrongOuter) == Ok(v) <==>
      |v| <= cap && exists inner :: Wraps(body, 0x7C, inner) && Wraps(inner, 0x82, v)
  {
    hide TlvExpect, Wraps;
    var outer := TlvExpect(body, 0, |body|, TAG_DAT);
    if outer.Element? {
      var inner := body[outer.start..outer.start + outer.len];
      ExpectUnwraps(body, 0x7C, inner);
      InnerValue(body, outer.start, outer.len, 0x82);
      if ParseResponse(body, cap, wrongOuter) == Ok(v) {
        ExpectUnwraps(inner, 0x82, v);
      }
    }
    if |v| <= cap && exists inner :: Wraps(body, 0x7C, inner) && Wraps(inner, 0x82, v) {
      var inner :| Wraps(body, 0x7C, inner) && Wraps(inner, 0x82, v);
      ExpectUnwraps(body, 0x7C, inner);
      ExpectUnwraps(inner, 0x82, v);
      assert body != [];
    }
  }

  lemma InnerValue(buf: seq<byte>, start: nat, len: nat, tag: byte)
    requires start + len <= |buf|
    ensures
      var inner, e := buf[start..start + len], TlvExpect(buf, start, start + len, tag);
      var e' := TlvExpect(inner, 0, len, tag);
      && (e.Element? <==> e'.Element?)
      && (e.Element? ==> buf[e.start..e.start + e.len] == inner[e'.start..e'.start + e'.len])
  {
    hide TlvExpect;
    ExpectInside(buf, start, len, tag);
  }

  /** And which error any other body gets. */
  lemma ParseErrors(body: seq<byte>, cap: nat, wrongOuter: PivError, inner: seq<byte>, v: seq<byte>)
    ensures body == [] ==> ParseResponse(body, cap, wrongOuter) == Err(ErrEncoding)
    ensures body != [] && body[0] != 0x7C ==> ParseResponse(body, cap, wrongOuter) == Err(wrongOuter)
    ensures body != [] && body[0] == 0x7C && !(exists i :: Wraps(body, 0x7C, i)) ==>
      ParseResponse(body, cap, wrongOuter) == Err(ErrEncoding)
    ensures Wraps(body, 0x7C, inner) ==>
      && (inner != [] && inner[0] != 0x82 ==> ParseResponse(body, cap, wrongOuter) == Err(ErrSw))
      && ((inner == [] || inner[0] == 0x82) && !(exists w :: Wraps(inner, 0x82, w)) ==>
            ParseResponse(body, cap, wrongOuter) == Err(ErrEncoding))
      && (Wraps(inner, 0x82, v) && |v| > cap ==> ParseResponse(body, cap, wrongOuter) == Err(ErrBufSize))
  {
    hide TlvExpect, Wraps;
    if body != [] {
      ExpectIff(body, 0, |body|, 0x7C, 0, 0);
      var outer := TlvExpect(body, 0, |body|, 0x7C);
      if outer.Element? {
        var i := body[outer.start..outer.start + outer.len];
        ExpectUnwraps(body, 0x7C, i);
      }
    }
    if Wraps(body, 0x7C, inner) {
      WrapsNonempty(body, 0x7C, inner);
      ExpectUnwraps(body, 0x7C, inner);
      var outer := TlvExpect(body, 0, |body|, 0x7C);
      ExpectInside(body, outer.start, outer.len, 0x82);
      ExpectIff(inner, 0, |inner|, 0x82, 0, 0);
      var e := TlvExpect(inner, 0, |inner|, 0x82);
      if e.Element? {
        var w := inner[e.start..e.start + e.len];
        ExpectUnwraps(inner, 0x82, w);
      }
      ExpectUnwraps(inner, 0x82, v);
    }
  }

  lemma WrapsNonempty(buf: seq<byte>, tag: byte, value: seq<byte>)
    requires Wraps(buf, tag, value)
    ensures buf != [] && buf[0] == tag
  {}

  /** The status words that piv_sw_to_err tells apart. */
  lemma StatusErrors(sw1: byte, sw2: byte)
    ensures SwToErr(sw1, sw2) ==
      if [sw1, sw2] == [0x69, 0x85] then ErrUserPresence
      else if [sw1, sw2] == [0x69, 0x82] then ErrSecurityStatus
      else if [sw1, sw2] == [0x6A, 0x81] then ErrNotSupported
      else if [sw1, sw2] == [0x6A, 0x88] then ErrNotFound
      else ErrSw
  {}

  /** A reply with a body and a status word that fits the response buffer. */
  predicate Answers(r: Reply, body: seq<byte>, sw1: byte, sw2: byte) {
    r == Got(body + [sw1, sw2]) && |body| + 2 <= 512
  }

  lemma ReceivesIff(r: Reply, body: seq<byte>, sw1: byte, sw2: byte)
    ensures Answers(r, body, sw1, sw2) <==>
      Receive(r).Ok? && Body(Receive(r).value) == body && Sw1(Receive(r).value) == sw1 && Sw2(Receive(r).value) == sw2
    ensures Receive(r).Err? ==> Receive(r).error == if r.Got? && |r.bytes| < 2 then ErrPivTruncated else ErrTransport
  {
    if Receive(r).Ok? {
      assert r.bytes == Body(r.bytes) + [Sw1(r.bytes), Sw2(r.bytes)];
    }
  }

  /** The outcome of sign and ecdh by what the card answers: a lost or short reply; a 6C xx,
      after which the answer to the command with Le = xx decides, also if it is 6C again; a
      status word other than 90 00, with its error; or a response body. */
  lemma AuthenticateOutcome(
      card: Card, cmd: seq<byte>, cap: nat, wrongOuter: PivError,
      b0: seq<byte>, sw1: byte, sw2: byte, b1: seq<byte>, sw1': byte, sw2': byte)
    requires |cmd| > 0
    ensures
      var r := Authenticate(card, cmd, cap, wrongOuter);
      var again := card(1, cmd[|cmd| - 1 := sw2]);
      && (Receive(card(0, cmd)).Err? ==> r == Receive(card(0, cmd)))
      && (Answers(card(0, cmd), b0, sw1, sw2) && sw1 != 0x6C ==> r == Answered(b0, sw1, sw2, cap, wrongOuter))
      && (Answers(card(0, cmd), b0, 0x6C, sw2) ==>
            && (Receive(again).Err? ==> r == Receive(again))
            && (Answers(again, b1, sw1', sw2') ==> r == Answered(b1, sw1', sw2', cap, wrongOuter)))
  {
    hide Receive, ParseResponse, SwToErr;
    ReceivesIff(card(0, cmd), b0, sw1, sw2);
    ReceivesIff(card(0, cmd), b0, 0x6C, sw2);
    ReceivesIff(card(1, cmd[|cmd| - 1 := sw2]), b1, sw1', sw2');
  }

  function Answered(body: seq<byte>, sw1: byte, sw2: byte, cap: nat, wrongOuter: PivError): PivResult<seq<byte>> {
    if sw1 == 0x90 && sw2 == 0 then ParseResponse(body, cap, wrongOuter) else Err(SwToErr(sw1, sw2))
  }

  /** A card that answers with `sig`, at once or after one 6C xx, has it returned. */
  lemma SignatureComesThrough(
      card: Card, cmd: seq<byte>, sig: seq<byte>, extra: seq<byte>, more: seq<byte>,
      le: Option<byte>, cap: nat, wrongOuter: PivError)
    requires |cmd| > 0 && |sig| <= cap && |sig| + |extra| <= 0xFF00
    requires |ResponseBody(sig, extra) + more| + 2 <= APDU_MAX_RESP
    requires
      var answer := Got(ResponseBody(sig, extra) + more + [0x90, 0]);
      match le
      case None => card(0, cmd) == answer
      case Some(x) => card(0, cmd) == Got([0x6C, x]) && card(1, cmd[|cmd| - 1 := x]) == answer
    ensures Authenticate(card, cmd, cap, wrongOuter) == Ok(sig)
  {
    hide ParseResponse, ResponseBody;
    var body := ResponseBody(sig, extra) + more;
    assert Body(body + [0x90, 0]) == body;
    ResponseParses(sig, extra, more, cap, wrongOuter);
  }

  // -------------------------------------------------------- GET RESPONSE chaining

  const GET_RESPONSE: seq<byte> := [CLA, 0xC0, 0, 0, 0]

  /** The accumulation loop: the card's (k)-th reply and so on, after `accum` has been
      gathered and `sw1`, `sw2` were the last status word. */
  function Gather(card: Card, k: nat, accum: seq<byte>, sw1: byte, sw2: byte): (r: PivResult<seq<byte>>)
    requires |accum| <= CERT_MAX_LEN
    ensures r.Ok? ==> |r.value| <= CERT_MAX_LEN
    decreases if sw1 == 0x61 then 1 + CERT_MAX_LEN - |accum| else 0
  {
    if sw1 != 0x61 then
      if sw1 != 0x90 || sw2 != 0 then Err(ErrSw) else Ok(accum)
    else
      var chunk :- Receive(card(k, GET_RESPONSE));
      if Sw1(chunk) != 0x90 && Sw1(chunk) != 0x61 then Err(ErrSw)
      else if |Body(chunk)| == 0 && Sw1(chunk) == 0x61 then Err(ErrSw)
      else if |accum| + |Body(chunk)| > CERT_MAX_LEN then Err(ErrBufSize)
      else Gather(card, k + 1, accum + Body(chunk), Sw1(chunk), Sw2(chunk))
  }

  /** A data object: the command, then the loop. */
  function Fetch(card: Card, cmd: seq<byte>): (r: PivResult<seq<byte>>)
    ensures r.Ok? ==> |r.value| <= CERT_MAX_LEN
  {
    var first :- Receive(card(0, cmd));
    if Sw1(first) == 0x6A && Sw2(first) == 0x82 then Err(ErrNotFound)
    else if |Body(first)| > CERT_MAX_LEN then Err(ErrBufSize)
    else Gather(card, 1, Body(first), Sw1(first), Sw2(first))
  }

  /** How many GET RESPONSE commands the loop sends. */
  function Rounds(card: Card, k: nat, len: nat, sw1: byte): (n: nat)
    requires len <= CERT_MAX_LEN
    ensures n <= CERT_MAX_LEN + 1 - len
    decreases if sw1 == 0x61 then 1 + CERT_MAX_LEN - len else 0
  {
    if sw1 != 0x61 then 0
    else
      var chunk := Receive(card(k, GET_RESPONSE));
      if chunk.Err? then 1
      else
        var size := |Body(chunk.value)|;
        if Sw1(chunk.value) != 0x61 || size == 0 || len + size > CERT_MAX_LEN then 1
        else 1 + Rounds(card, k + 1, len + size, 0x61)
  }

  /** One turn of the loop, as Gather and Rounds see it. */
  lemma OneTurn(card: Card, k: nat, accum: seq<byte>, sw2: byte)
    requires |accum| <= CERT_MAX_LEN
    ensures
      var got := Receive(card(k, GET_RESPONSE));
      var want, rounds := Gather(card, k, accum, 0x61, sw2), Rounds(card, k, |accum|, 0x61);
      if got.Err? then want == got && rounds == 1
      else
        var sw1, body := Sw1(got.value), Body(got.value);
        if sw1 != 0x90 && sw1 != 0x61 then want == Err(ErrSw) && rounds == 1
        else if body == [] && sw1 == 0x61 then want == Err(ErrSw) && rounds == 1
        else if |accum| + |body| > CERT_MAX_LEN then want == Err(ErrBufSize) && rounds == 1
        else
          && want == Gather(card, k + 1, accum + body, sw1, Sw2(got.value))
          && rounds == 1 + Rounds(card, k + 1, |accum| + |body|, sw1)
  {
    hide Receive;
  }

  lemma NoMoreTurns(card: Card, k: nat, accum: seq<byte>, sw1: byte, sw2: byte)
    requires |accum| <= CERT_MAX_LEN && sw1 != 0x61
    ensures Gather(card, k, accum, sw1, sw2) == if sw1 != 0x90 || sw2 != 0 then Err(ErrSw) else Ok(accum)
    ensures Rounds(card, k, |accum|, sw1) == 0
  {}

  /** The chaining loop of wp11_piv_get_cert and wp11_piv_attest, gathering into a
      fixed buffer whose first `start` bytes came with the first reply. Against any
      card it ends after at most 4097 - start GET RESPONSE commands. */
  method GatherChunks(card: Card, accum: array<byte>, start: nat, first: seq<byte>)
    returns (r: PivResult<nat>, getResponses: nat)
    requires accum.Length == CERT_MAX_LEN && start <= CERT_MAX_LEN && |first| >= 2
    modifies accum
    ensures
      var want := Gather(card, 1, old(accum[..start]), Sw1(first), Sw2(first));
      if want.Ok? then r == Ok(|want.value|) && accum[..|want.value|] == want.value
      else r == want.PropagateFailure()
    ensures getResponses == Rounds(card, 1, start, Sw1(first)) <= CERT_MAX_LEN + 1 - start
  {
    hide Receive, Gather, Rounds;
    getResponses := 0;
    var len: nat, chunk: seq<byte> := start, first;
    ghost var want := Gather(card, 1, accum[..start], Sw1(first), Sw2(first));
    ghost var rounds := Rounds(card, 1, start, Sw1(first));
    while Sw1(chunk) == 0x61
      invariant |chunk| >= 2 && len <= CERT_MAX_LEN
      invariant rounds == getResponses + Rounds(card, getResponses + 1, len, Sw1(chunk))
      invariant want == Gather(card, getResponses + 1, accum[..len], Sw1(chunk), Sw2(chunk))
      decreases if Sw1(chunk) == 0x61 then 1 + CERT_MAX_LEN - len else 0
    {
      getResponses := getResponses + 1;
      OneTurn(card, getResponses, accum[..len], Sw2(chunk));
      var got := Receive(card(getResponses, GET_RESPONSE));
      if got.Err? {
        return got.PropagateFailure(), getResponses;
      }
      chunk := got.value;
      if Sw1(chunk) != 0x90 && Sw1(chunk) != 0x61 {
        return Err(ErrSw), getResponses;
      }
      if |Body(chunk)| == 0 && Sw1(chunk) == 0x61 {
        return Err(ErrSw), getResponses;
      }
      if len + |Body(chunk)| > CERT_MAX_LEN {
        return Err(ErrBufSize), getResponses;
      }
      len := Store(accum, len, Body(chunk));
    }
    NoMoreTurns(card, getResponses + 1, accum[..len], Sw1(chunk), Sw2(chunk));
    if Sw1(chunk) != 0x90 || Sw2(chunk) != 0 {
      return Err(ErrSw), getResponses;
    }
    return Ok(len), getResponses;
  }

  /** The command, its first reply, and the loop. */
  method FetchObject(card: Card, cmd: seq<byte>, accum: array<byte>)
    returns (r: PivResult<nat>, getResponses: nat)
    requires accum.Length == CERT_MAX_LEN
    modifies accum
    ensures
      var want := Fetch(card, cmd);
      if want.Ok? then r == Ok(|want.value|) && accum[..|want.value|] == want.value
      else r == want.PropagateFailure()
    ensures getResponses <= CERT_MAX_LEN + 1
  {
    hide Receive, Gather, Rounds;
    getResponses := 0;
    var got := Receive(card(0, cmd));
    if got.Err? {
      return got.PropagateFailure(), getResponses;
    }
    var chunk := got.value;
    if Sw1(chunk) == 0x6A && Sw2(chunk) == 0x82 {
      return Err(ErrNotFound), getResponses;
    }
    if |Body(chunk)| > CERT_MAX_LEN {
      return Err(ErrBufSize), getResponses;
    }
    var len: nat := Store(accum, 0, Body(chunk));
    assert accum[..len] == Body(chunk);
    r, getResponses := GatherChunks(card, accum, len, chunk);
  }

  method Store(accum: array<byte>, len: nat, s: seq<byte>) returns (len': nat)
    requires len + |s| <= accum.Length
    modifies accum
    ensures len' == len + |s| && accum[..len'] == old(accum[..len]) + s
  {
    forall k | 0 <= k < |s| {
      accum[len + k] := s[k];
    }
    return len + |s|;
  }

  // ------------------------------------------------------- how a card may split it

  function Join(parts: seq<seq<byte>>): (s: seq<byte>) {
    if parts == [] then [] else parts[0] + Join(parts[1..])
  }

  /** From its k-th reply on, the card delivers `parts`: all but the last with SW 61xx
      and at least one byte, the last with 9000, each fitting one response. */
  predicate Delivers(card: Card, k: nat, parts: seq<seq<byte>>)
    decreases |parts|
  {
    && |parts| > 0
    && var r := card(k, GET_RESPONSE);
    && r.Got? && 2 <= |r.bytes| <= APDU_MAX_RESP && Body(r.bytes) == parts[0]
    && (if |parts| == 1 then Sw1(r.bytes) == 0x90 && Sw2(r.bytes) == 0
        else Sw1(r.bytes) == 0x61 && parts[0] != [] && Delivers(card, k + 1, parts[1..]))
  }

  /** The whole object: the first part in reply to the command itself. Only it may be
      empty although more follows. */
  predicate DeliversObject(card: Card, cmd: seq<byte>, first: seq<byte>, rest: seq<seq<byte>>) {
    var r := card(0, cmd);
    && r.Got? && 2 <= |r.bytes| <= APDU_MAX_RESP && Body(r.bytes) == first
    && (if rest == [] then Sw1(r.bytes) == 0x90 && Sw2(r.bytes) == 0
        else Sw1(r.bytes) == 0x61 && Delivers(card, 1, rest))
  }

  lemma {:induction false} GatherJoins(card: Card, k: nat, accum: seq<byte>, sw2: byte, parts: seq<seq<byte>>)
    requires Delivers(card, k, parts) && |accum + Join(parts)| <= CERT_MAX_LEN
    ensures Gather(card, k, accum, 0x61, sw2) == Ok(accum + Join(parts))
    decreases |parts|
  {
    var r, rest := card(k, GET_RESPONSE).bytes, parts[1..];
    assert accum + Join(parts) == (accum + parts[0]) + Join(rest);
    if rest == [] {
      assert Gather(card, k + 1, accum + parts[0], 0x90, 0) == Ok(accum + parts[0]);
      assert (accum + parts[0]) + Join(rest) == accum + parts[0];
    } else {
      GatherJoins(card, k + 1, accum + parts[0], Sw2(r), rest);
    }
  }

  /** Whatever is gathered was delivered in parts; the lemma finds them. */
  lemma {:induction false} GatherSplits(card: Card, k: nat, accum: seq<byte>, sw2: byte) returns (parts: seq<seq<byte>>)
    requires |accum| <= CERT_MAX_LEN && Gather(card, k, accum, 0x61, sw2).Ok?
    ensures Delivers(card, k, parts) && Gather(card, k, accum, 0x61, sw2).value == accum + Join(parts)
    decreases CERT_MAX_LEN - |accum|
  {
    var r := card(k, GET_RESPONSE).bytes;
    if Sw1(r) == 0x90 {
      parts := [Body(r)];
      assert Gather(card, k + 1, accum + Body(r), 0x90, Sw2(r)) == Ok(accum + Body(r));
      assert parts[1..] == [] && Join(parts) == Body(r);
    } else {
      var rest := GatherSplits(card, k + 1, accum + Body(r), Sw2(r));
      parts := [Body(r)] + rest;
      assert parts[1..] == rest;
      assert accum + Join(parts) == (accum + Body(r)) + Join(rest);
    }
  }

  ghost predicate SplitsInto(card: Card, cmd: seq<byte>, obj: seq<byte>) {
    exists first, rest :: DeliversObject(card, cmd, first, rest) && obj == first + Join(rest)
  }

  /** A fetch succeeds with `object` exactly when the card delivers it in parts, in any
      split, and it is at most 4096 bytes long. */
  lemma FetchJoinsAnySplit(card: Card, cmd: seq<byte>, obj: seq<byte>)
    ensures Fetch(card, cmd) == Ok(obj) <==> SplitsInto(card, cmd, obj) && |obj| <= CERT_MAX_LEN
  {
    if SplitsInto(card, cmd, obj) && |obj| <= CERT_MAX_LEN {
      var first, rest :| DeliversObject(card, cmd, first, rest) && obj == first + Join(rest);
      var r := card(0, cmd).bytes;
      if rest != [] {
        GatherJoins(card, 1, first, Sw2(r), rest);
      } else {
        assert obj == first;
      }
    }
    if Fetch(card, cmd) == Ok(obj) {
      var r := card(0, cmd).bytes;
      if Sw1(r) == 0x61 {
        var parts := GatherSplits(card, 1, Body(r), Sw2(r));
        assert DeliversObject(card, cmd, Body(r), parts);
      } else {
        assert DeliversObject(card, cmd, Body(r), []) && obj == Body(r) + Join([]);
      }
    }
  }

  /** Two cards that deliver the same object in different splits are told apart by
      nothing that follows the fetch. */
  lemma ChunkingIsIrrelevant(card: Card, card': Card, cmd: seq<byte>, obj: seq<byte>)
    requires SplitsInto(card, cmd, obj) && SplitsInto(card', cmd, obj) && |obj| <= CERT_MAX_LEN
    ensures Fetch(card, cmd) == Fetch(card', cmd) == Ok(obj)
  {
    hide SplitsInto, Fetch;
    FetchJoinsAnySplit(card, cmd, obj);
    FetchJoinsAnySplit(card', cmd, obj);
  }

  // -------------------------------------------------------------- the certificate

  /** The tag list entry for a PIV slot. */
  function ObjectTag(slot: byte): Option<seq<byte>> {
    match slot
    case 0x9A => Some([0x5F, 0xC1, 0x05])
    case 0x9C => Some([0x5F, 0xC1, 0x0A])
    case 0x9D => Some([0x5F, 0xC1, 0x0B])
    case 0x9E => Some([0x5F, 0xC1, 0x01])
    case _ => None
  }

  function GetDataCommand(tag: seq<byte>): seq<byte> {
    [CLA, 0xCB, 0x3F, 0xFF, 0x05, 0x5C, 0x03] + tag + [0]
  }

  /** The DER certificate inside 53 { 70 { der } ... }. */
  function ExtractCert(obj: seq<byte>, cap: nat): PivResult<seq<byte>> {
    match TlvExpect(obj, 0, |obj|, 0x53)
    case Element(start, len) =>
      (match TlvExpect(obj, start, start + len, 0x70)
       case Element(i, n) => if n > cap then Err(ErrBufSize) else Ok(obj[i..i + n])
       case _ => Err(ErrEncoding))
    case _ => Err(ErrEncoding)
  }

  function CertOf(card: Card, slot: byte, cap: nat): PivResult<seq<byte>> {
    match ObjectTag(slot)
    case None => Err(ErrPivParam)
    case Some(tag) =>
      var obj :- Fetch(card, GetDataCommand(tag));
      ExtractCert(obj, cap)
  }

  /** wp11_piv_get_cert. */
  method GetCert(card: Card, slot: byte, cap: nat) returns (r: PivResult<seq<byte>>, getResponses: nat)
    ensures r == CertOf(card, slot, cap)
    ensures getResponses <= CERT_MAX_LEN + 1
  {
    hide Fetch, ExtractCert, GetDataCommand;
    getResponses := 0;
    var tag := ObjectTag(slot);
    if tag.None? {
      return Err(ErrPivParam), getResponses;
    }
    var accum := new byte[CERT_MAX_LEN](_ => 0);
    var len;
    len, getResponses := FetchObject(card, GetDataCommand(tag.value), accum);
    if len.Err? {
      return len.PropagateFailure(), getResponses;
    }
    return ExtractCert(accum[..len.value], cap), getResponses;
  }

  /** wp11_piv_attest: the object itself is the certificate. */
  method Attest(card: Card, slot: byte, cap: nat) returns (r: PivResult<seq<byte>>, getResponses: nat)
    ensures
      var obj := Fetch(card, [CLA, 0xF9, 0, slot, 0]);
      r == if obj.Ok? && |obj.value| > cap then Err(ErrBufSize) else obj
    ensures getResponses <= CERT_MAX_LEN + 1
  {
    hide Fetch;
    var accum := new byte[CERT_MAX_LEN](_ => 0);
    var len;
    len, getResponses := FetchObject(card, [CLA, 0xF9, 0, slot, 0], accum);
    if len.Err? {
      return len.PropagateFailure(), getResponses;
    }
    if len.value > cap {
      return Err(ErrBufSize), getResponses;
    }
    return Ok(accum[..len.value]), getResponses;
  }

  /** Which objects yield a certificate, byte for byte: a 53 element that begins with a 70
      element. Everything else is an encoding error, except a certificate that does not
      fit. */
  lemma ExtractsIff(obj: seq<byte>, cap: nat, v: seq<byte>)
    ensures ExtractCert(obj, cap) == Ok(v) <==> |v| <= cap && HoldsCert(obj, v)
    ensures ExtractCert(obj, cap) == Err(ErrBufSize) <==> exists w :: |w| > cap && HoldsCert(obj, w)
    ensures ExtractCert(obj, cap).Err? ==> ExtractCert(obj, cap).error in {ErrEncoding, ErrBufSize}
  {
    hide TlvExpect, HoldsCert;
    var outer := TlvExpect(obj, 0, |obj|, 0x53);
    if outer.Element? {
      var e := TlvExpect(obj, outer.start, outer.start + outer.len, 0x70);
      if e.Element? {
        HoldsIff(obj, obj[e.start..e.start + e.len]);
      }
    }
    HoldsIff(obj, v);
    if w :| |w| > cap && HoldsCert(obj, w) {
      HoldsIff(obj, w);
    }
  }

  /** A 53 element that begins with a 70 element. */
  ghost predicate HoldsCert(obj: seq<byte>, cert: seq<byte>) {
    exists inner :: Wraps(obj, 0x53, inner) && Wraps(inner, 0x70, cert)
  }

  lemma HoldsIff(obj: seq<byte>, cert: seq<byte>)
    ensures HoldsCert(obj, cert) <==>
      var outer := TlvExpect(obj, 0, |obj|, 0x53);
      outer.Element? &&
      var e := TlvExpect(obj, outer.start, outer.start + outer.len, 0x70);
      e.Element? && obj[e.start..e.start + e.len] == cert
  {
    hide TlvExpect, Wraps;
    var outer := TlvExpect(obj, 0, |obj|, 0x53);
    if outer.Element? {
      var inner := obj[outer.start..outer.start + outer.len];
      ExpectUnwraps(obj, 0x53, inner);
      InnerValue(obj, outer.start, outer.len, 0x70);
      ExpectUnwraps(inner, 0x70, cert);
    }
    if inner :| Wraps(obj, 0x53, inner) && Wraps(inner, 0x70, cert) {
      ExpectUnwraps(obj, 0x53, inner);
      ExpectUnwraps(inner, 0x70, cert);
    }
  }

  /** The commands as they go to the card, and the data object of each PIV slot. */
  lemma CommandBytes(slot: byte)
    ensures ObjectTag(slot).Some? <==> slot in {0x9A, 0x9C, 0x9D, 0x9E}
    ensures ObjectTag(slot).Some? ==>
      var last: byte :=
        if slot == 0x9A then 0x05 else if slot == 0x9C then 0x0A else if slot == 0x9D then 0x0B else 0x01;
      GetDataCommand(ObjectTag(slot).value) == [0x00, 0xCB, 0x3F, 0xFF, 0x05, 0x5C, 0x03, 0x5F, 0xC1, last, 0x00]
    ensures GET_RESPONSE == [0x00, 0xC0, 0x00, 0x00, 0x00]
  {}

  /** How a fetch goes on after the first reply, and what ends it with an error. */
  lemma FirstReply(card: Card, cmd: seq<byte>, body: seq<byte>, sw1: byte, sw2: byte)
    requires Answers(card(0, cmd), body, sw1, sw2)
    ensures Fetch(card, cmd) ==
      if [sw1, sw2] == [0x6A, 0x82] then Err(ErrNotFound)
      else if [sw1, sw2] == [0x90, 0x00] then Ok(body)
      else if sw1 != 0x61 then Err(ErrSw)
      else Gather(card, 1, body, 0x61, sw2)
  {
    hide Receive, Gather;
    ReceivesIff(card(0, cmd), body, sw1, sw2);
    if sw1 != 0x61 {
      NoMoreTurns(card, 1, body, sw1, sw2);
    }
  }

  /** Whatever split the card chooses, the certificate in the object comes back. */
  lemma CertificateComesThrough(
      card: Card, slot: byte, cap: nat, cert: seq<byte>, extra: seq<byte>, more: seq<byte>)
    requires ObjectTag(slot).Some? && |cert| <= cap
    requires |cert| + |extra| <= 0xFF00
    requires
      var obj := Tagged(0x53, Tagged(0x70, cert) + extra) + more;
      |obj| <= CERT_MAX_LEN && SplitsInto(card, GetDataCommand(ObjectTag(slot).value), obj)
    ensures CertOf(card, slot, cap) == Ok(cert)
  {
    hide BerLen, TlvExpect, SplitsInto, Fetch;
    var inner := Tagged(0x70, cert);
    var obj := Tagged(0x53, inner + extra) + more;
    FetchJoinsAnySplit(card, GetDataCommand(ObjectTag(slot).value), obj);
    assert At(obj, 0, Tagged(0x53, inner + extra));
    ExpectFindsElement(obj, 0, |obj|, 0x53, inner + extra);
    var start := 1 + |BerLen(|inner + extra|)|;
    AtConcat(obj, start, inner, extra);
    ExpectFindsElement(obj, start, start + |inner + extra|, 0x70, cert);
  }

  // ---------------------------------------------------------- the bound is attained

  /** A card that always has one more byte to give. */
  const TRICKLE: Card := (k, _) => if k == 0 then Got([0x61, 0]) else Got([0, 0x61, 0])

  lemma {:induction false} TrickleTakesAllRounds(k: nat, len: nat)
    requires k > 0 && len <= CERT_MAX_LEN
    ensures Rounds(TRICKLE, k, len, 0x61) == CERT_MAX_LEN + 1 - len
    decreases CERT_MAX_LEN - len
  {
    if len < CERT_MAX_LEN {
      TrickleTakesAllRounds(k + 1, len + 1);
    }
  }
}
