/** The CCID transport over USB bulk transfers: framing, response checks, and the
    latch that keeps a late response from answering the wrong command. */
module Ccid {
  import opened Bytes

  const HEADER_LEN := 10
  const MAX_CMD := 512
  const FRAME_MAX := 522

  datatype CcidError =
    | ErrCcidParam | ErrUsb | ErrSeq | ErrStatus | ErrNoCard | ErrTimeout | ErrCcidBufSize

  datatype CcidResult = Accepted(data: seq<byte>) | Refused(error: CcidError)

  // --------------------------------------------------------------------- framing

  /** put_u32le and get_u32le. */
  function U32Le(v: nat): (s: seq<byte>)
    requires v < U32_LIMIT
    ensures |s| == 4
  {
    [v % 0x100, v / 0x100 % 0x100, v / 0x1_0000 % 0x100, v / 0x100_0000 % 0x100]
  }

  function ReadU32Le(s: seq<byte>): (v: nat)
    requires |s| == 4
    ensures v < U32_LIMIT
  {
    s[0] as int + 0x100 * s[1] as int + 0x1_0000 * s[2] as int + 0x100_0000 * s[3] as int
  }

  lemma LittleEndianRoundTrip(v: nat)
    requires v < U32_LIMIT
    ensures ReadU32Le(U32Le(v)) == v
  {
    var b, c, d := v / 0x100, v / 0x1_0000, v / 0x100_0000;
    assert b / 0x100 == c && c / 0x100 == d;
  }

  /** The PC_to_RDR_XfrBlock message. */
  function Frame(cmd: seq<byte>, seqNo: byte): (f: seq<byte>)
    requires |cmd| <= MAX_CMD
    ensures |f| == HEADER_LEN + |cmd|
  {
    [0x6F] + U32Le(|cmd|) + [0, seqNo, 0, 0, 0] + cmd
  }

  /** An RDR_to_PC_DataBlock message that reports success. */
  function DataBlock(data: seq<byte>, seqNo: byte): (f: seq<byte>)
    requires |data| < U32_LIMIT
    ensures |f| == HEADER_LEN + |data|
  {
    [0x80] + U32Le(|data|) + [0, seqNo, 0, 0, 0] + data
  }

  /** The checks on a received frame, in the order they are made. */
  function Check(frame: seq<byte>, seqNo: byte, cap: nat): (r: CcidResult)
    ensures r.Accepted? ==>
      |r.data| <= cap && |frame| >= HEADER_LEN + |r.data| && frame[6] == seqNo
      && r.data == frame[HEADER_LEN..HEADER_LEN + |r.data|]
  {
    if |frame| < HEADER_LEN then Refused(ErrUsb)
    else if frame[0] != 0x80 then Refused(ErrUsb)
    else if frame[6] != seqNo then Refused(ErrSeq)
    else
      var iccStatus, cmdStatus := frame[7] as int % 4, frame[7] as int / 64 % 4;
      if iccStatus == 1 || iccStatus == 2 then Refused(ErrNoCard)
      else if cmdStatus != 0 then Refused(ErrStatus)
      else
        var len := ReadU32Le(frame[1..5]);
        if len > cap then Refused(ErrCcidBufSize)
        else if |frame| < HEADER_LEN + len then Refused(ErrUsb)
        else Accepted(frame[HEADER_LEN..HEADER_LEN + len])
  }

  /** A well-formed answer is accepted exactly when it carries the number of the
      command and fits, and then yields its data. */
  lemma CheckReadsDataBlock(data: seq<byte>, answered: byte, seqNo: byte, cap: nat, padding: seq<byte>)
    requires |data| < U32_LIMIT
    ensures Check(DataBlock(data, answered) + padding, seqNo, cap) ==
      if answered != seqNo then Refused(ErrSeq)
      else if |data| > cap then Refused(ErrCcidBufSize)
      else Accepted(data)
  {
    hide U32Le, ReadU32Le;
    var f := DataBlock(data, answered) + padding;
    LittleEndianRoundTrip(|data|);
    assert f[1..5] == U32Le(|data|);
    assert f[6] == answered && f[7] == 0;
    assert f[HEADER_LEN..HEADER_LEN + |data|] == data;
  }

  /** The byte order of the length field. */
  lemma LittleEndianOrder(a: byte, b: byte, c: byte, d: byte)
    ensures U32Le(a + 0x100 * b + 0x1_0000 * c + 0x100_0000 * d) == [a, b, c, d]
    ensures ReadU32Le([a, b, c, d]) == a + 0x100 * b + 0x1_0000 * c + 0x100_0000 * d
  {
    var v: nat := a + 0x100 * b + 0x1_0000 * c + 0x100_0000 * d;
    var y: nat := c + 0x100 * d;
    var x: nat := b + 0x100 * y;
    SplitByte(a, x);
    SplitByte(b, y);
    SplitByte(c, d);
    assert v == a + 0x100 * x;
    TwiceDivided(v);
  }

  lemma SplitByte(low: byte, high: nat)
    ensures (low + 0x100 * high) % 0x100 == low && (low + 0x100 * high) / 0x100 == high
  {}

  lemma TwiceDivided(v: nat)
    ensures v / 0x1_0000 == v / 0x100 / 0x100 && v / 0x100_0000 == v / 0x100 / 0x100 / 0x100
  {}

  /** A response message: type 80, length, slot, sequence number, status, error, chain
      parameter, data, and whatever the transfer delivered beyond that. */
  predicate IsResponse(frame: seq<byte>, seqNo: byte, status: byte, data: seq<byte>) {
    && |data| < U32_LIMIT && 10 + |data| <= |frame|
    && frame[0] == 0x80 && frame[1..5] == U32Le(|data|) && frame[6] == seqNo && frame[7] == status
    && frame[10..10 + |data|] == data
  }

  /** bmICCStatus says active (or the reserved value), bmCommandStatus no error. */
  predicate StatusOk(status: byte) {
    status as int % 4 in {0, 3} && status as int / 64 == 0
  }

  /** Exactly these frames are accepted. */
  lemma AcceptsIff(frame: seq<byte>, seqNo: byte, cap: nat, data: seq<byte>)
    ensures Check(frame, seqNo, cap) == Accepted(data) <==>
      |data| <= cap && exists status :: StatusOk(status) && IsResponse(frame, seqNo, status, data)
  {
    hide U32Le, ReadU32Le;
    if Check(frame, seqNo, cap) == Accepted(data) {
      ReadsBack(frame[1..5]);
      assert StatusOk(frame[7]) && IsResponse(frame, seqNo, frame[7], data);
    }
    if |data| <= cap && exists status :: StatusOk(status) && IsResponse(frame, seqNo, status, data) {
      LittleEndianRoundTrip(|data|);
    }
  }

  lemma ReadsBack(s: seq<byte>)
    requires |s| == 4
    ensures U32Le(ReadU32Le(s)) == s
  {
    LittleEndianOrder(s[0], s[1], s[2], s[3]);
    assert s == [s[0], s[1], s[2], s[3]];
  }

  /** Which error any other frame gets: too short or of another type, another command's
      number, a card that is inactive or absent, a failed command or a request for more
      time, a response too long for the caller, or one cut short. */
  lemma CheckErrors(frame: seq<byte>, seqNo: byte, cap: nat)
    ensures Check(frame, seqNo, cap).Refused? ==>
      Check(frame, seqNo, cap).error ==
        if |frame| < 10 || frame[0] != 0x80 then ErrUsb
        else if frame[6] != seqNo then ErrSeq
        else if frame[7] as int % 4 == 1 || frame[7] as int % 4 == 2 then ErrNoCard
        else if frame[7] >= 64 then ErrStatus
        else if ReadU32Le(frame[1..5]) > cap then ErrCcidBufSize
        else ErrUsb
  {}

  /** The command message, byte for byte. */
  lemma FrameLayout(cmd: seq<byte>, seqNo: byte)
    requires |cmd| <= MAX_CMD
    ensures
      var f := Frame(cmd, seqNo);
      f == [0x6F, |cmd| % 0x100, |cmd| / 0x100, 0, 0, 0, seqNo, 0, 0, 0] + cmd
  {}

  // ------------------------------------------------------------------- the device

  /** The outcome of one bulk transfer. */
  datatype Transfer = Done | NoDevice | TimedOut | Broken

  function TransferError(t: Transfer): CcidError
    requires !t.Done?
  {
    match t
    case NoDevice => ErrNoCard
    case TimedOut => ErrTimeout
    case Broken => ErrUsb
  }

  /** An answer of the device, and which delivered command it answers. */
  datatype Answer = Answer(command: nat, frame: seq<byte>)

  /** Host and device together. `wire` are the frames delivered so far; the device
      answers each once, in order, and `pending` are the answers not yet read. */
  datatype Link = Link(seqNo: byte, desync: bool, wire: seq<seq<byte>>, pending: seq<Answer>)

  const OPENED := Link(0, false, [], [])

  /** One wp11_ccid_apdu call with what the bus and the device do during it. A frame
      too long for the receive buffer cannot be transferred successfully. */
  datatype Call = Call(cmd: seq<byte>, cap: nat, out: Transfer, answer: seq<byte>, inn: Transfer)

  /** The result, and the number of the command whose answer was accepted. */
  datatype Outcome = Outcome(result: CcidResult, answers: Option<nat>)

  function Step(s: Link, c: Call): (r: (Link, Outcome)) {
    if |c.cmd| > MAX_CMD then (s, Outcome(Refused(ErrCcidParam), None))
    else if s.desync then (s, Outcome(Refused(ErrUsb), None))
    else
      var s1 := s.(seqNo := (s.seqNo as int + 1) % 0x100);
      if !c.out.Done? then (s1, Outcome(Refused(TransferError(c.out)), None))
      else
        var s2 := s1.(wire := s.wire + [Frame(c.cmd, s.seqNo)], pending := s.pending + [Answer(|s.wire|, c.answer)]);
        var head := s2.pending[0];
        if !c.inn.Done? then (s2.(desync := true), Outcome(Refused(TransferError(c.inn)), None))
        else if |head.frame| > FRAME_MAX then (s2.(desync := true), Outcome(Refused(ErrUsb), None))
        else
          var r := Check(head.frame, s.seqNo, c.cap);
          (s2.(pending := s2.pending[1..]), Outcome(r, if r.Accepted? then Some(head.command) else None))
  }

  function Run(s: Link, calls: seq<Call>): Link
    decreases |calls|
  {
    if calls == [] then s else Run(Step(s, calls[0]).0, calls[1..])
  }

  /** While the latch is open no answer is outstanding; once it closes at most one is. */
  predicate InStep(s: Link) {
    (!s.desync ==> s.pending == []) && |s.pending| <= 1
  }

  lemma StepKeepsInStep(s: Link, c: Call)
    requires InStep(s)
    ensures InStep(Step(s, c).0)
    ensures s.desync ==> Step(s, c).0 == s && Step(s, c).1.result.Refused?
  {}

  lemma {:induction false} RunKeepsInStep(s: Link, calls: seq<Call>)
    requires InStep(s)
    ensures InStep(Run(s, calls))
    ensures s.desync ==> Run(s, calls) == s
    decreases |calls|
  {
    if calls != [] {
      StepKeepsInStep(s, calls[0]);
      RunKeepsInStep(Step(s, calls[0]).0, calls[1..]);
    }
  }

  /** After any run from a fresh connection, however often the sequence number has
      wrapped, an accepted response is the device's answer to the very command that
      this call delivered. */
  lemma AcceptedAnswersThisCommand(calls: seq<Call>, c: Call)
    ensures
      var s := Run(OPENED, calls);
      var (s', o) := Step(s, c);
      o.result.Accepted? ==>
        && s'.wire == s.wire + [Frame(c.cmd, s.seqNo)] && o.answers == Some(|s.wire|)
        && o.result == Check(c.answer, s.seqNo, c.cap)
  {
    RunKeepsInStep(OPENED, calls);
  }

  /** Once a response has been lost, no later call of any run is accepted, or even
      delivered to the device. */
  lemma LatchIsPermanent(before: seq<Call>, lost: Call, after: seq<Call>, c: Call)
    requires !Run(OPENED, before).desync && |lost.cmd| <= MAX_CMD
    requires lost.out.Done? && !lost.inn.Done?
    ensures
      var s := Run(Step(Run(OPENED, before), lost).0, after);
      s.desync && Step(s, c).0 == s && Step(s, c).1.result.Refused?
  {
    RunKeepsInStep(OPENED, before);
    var s1 := Step(Run(OPENED, before), lost).0;
    StepKeepsInStep(Run(OPENED, before), lost);
    RunKeepsInStep(s1, after);
  }

  /** What the caller learns when an exchange does not get as far as a response, and that
      only a lost response closes the latch. */
  lemma ExchangeErrors(s: Link, c: Call)
    requires InStep(s)
    ensures
      var (s', o) := Step(s, c);
      && (|c.cmd| > 512 ==> o.result == Refused(ErrCcidParam) && s' == s)
      && (|c.cmd| <= 512 && s.desync ==> o.result == Refused(ErrUsb) && s' == s)
      && (|c.cmd| <= 512 && !s.desync ==>
            && s'.seqNo as int == (s.seqNo as int + 1) % 256
            && (!c.out.Done? ==> o.result == Refused(Reason(c.out)) && s' == s.(seqNo := s'.seqNo))
            && (c.out.Done? ==> s'.wire == s.wire + [Frame(c.cmd, s.seqNo)])
            && (c.out.Done? && !c.inn.Done? ==> o.result == Refused(Reason(c.inn)))
            && (s'.desync <==> c.out.Done? && (!c.inn.Done? || |c.answer| > 522)))
  {
    hide Check, Frame;
  }

  function Reason(t: Transfer): CcidError
    requires !t.Done?
  {
    if t.NoDevice? then ErrNoCard else if t.TimedOut? then ErrTimeout else ErrUsb
  }

  // -------------------------------------------------------------------- the context

  /** wp11_ccid_ctx for a real USB device, with the device at the other end. */
  class Context {
    var seqNo: byte
    var desync: bool
    var wire: seq<seq<byte>>
    var pending: seq<Answer>

    constructor ()
      ensures View() == OPENED
    {
      seqNo, desync, wire, pending := 0, false, [], [];
    }

    function View(): Link
      reads this
    {
      Link(seqNo, desync, wire, pending)
    }

    /** wp11_ccid_apdu. */
    method Apdu(c: Call) returns (o: Outcome)
      modifies this
      ensures (View(), o) == Step(old(View()), c)
    {
      hide Check, Frame;
      if |c.cmd| > MAX_CMD {
        return Outcome(Refused(ErrCcidParam), None);
      }
      if desync {
        return Outcome(Refused(ErrUsb), None);
      }
      var frameOut := new byte[FRAME_MAX](_ => 0);
      BuildFrame(frameOut, c.cmd, seqNo);
      var seqSent := seqNo;
      seqNo := (seqNo as int + 1) % 0x100;
      if !c.out.Done? {
        return Outcome(Refused(TransferError(c.out)), None);
      }
      pending := pending + [Answer(|wire|, c.answer)];
      wire := wire + [frameOut[..HEADER_LEN + |c.cmd|]];
      if !c.inn.Done? {
        desync := true;
        return Outcome(Refused(TransferError(c.inn)), None);
      }
      var head := pending[0];
      if |head.frame| > FRAME_MAX {
        desync := true;
        return Outcome(Refused(ErrUsb), None);
      }
      pending := pending[1..];
      var r := Check(head.frame, seqSent, c.cap);
      return Outcome(r, if r.Accepted? then Some(head.command) else None);
    }
  }

  /** The command frame, built in place. */
  method BuildFrame(buf: array<byte>, cmd: seq<byte>, seqNo: byte)
    requires buf.Length == FRAME_MAX && |cmd| <= MAX_CMD
    modifies buf
    ensures buf[..HEADER_LEN + |cmd|] == Frame(cmd, seqNo)
  {
    var n := |cmd|;
    buf[0] := 0x6F;
    buf[1], buf[2], buf[3], buf[4] := n % 0x100, n / 0x100 % 0x100, n / 0x1_0000 % 0x100, n / 0x100_0000 % 0x100;
    buf[5] := 0;
    buf[6] := seqNo;
    buf[7], buf[8], buf[9] := 0, 0, 0;
    forall k | 0 <= k < |cmd| {
      buf[HEADER_LEN + k] := cmd[k];
    }
  }
}
