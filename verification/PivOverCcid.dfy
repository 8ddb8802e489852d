/** PIV commands over the CCID transport. A conversation on a fresh connection, whatever
    the bus and the reader do to it, is the conversation with a card in the sense of
    PivCommands, so what is proved there of every card holds over CCID. */
module PivOverCcid {
  import opened Bytes
  import opened PivCommands
  import opened Ccid

  /** The chip behind the reader: what it answers to the k-th command. */
  type Chip = (nat, seq<byte>) -> seq<byte>

  /** What may go wrong with the k-th exchange: the command is not sent, the response is not
      received, or the reader answers with another sequence number or reports a failure. */
  datatype Trouble =
    | NoTrouble | NotSent(t: Transfer) | NotReceived(t: Transfer) | Misnumbered(b: byte) | Refusal(s: byte)

  type Bus = nat -> Trouble

  predicate Genuine(t: Trouble, seqNo: byte) {
    match t
    case NoTrouble => true
    case NotSent(o) => !o.Done?
    case NotReceived(o) => !o.Done?
    case Misnumbered(b) => b != seqNo
    case Refusal(s) => !StatusOk(s)
  }

  /** The chip's answers fit the response buffer, as those to short commands do. */
  ghost predicate Short(chip: Chip) {
    forall k, cmd :: |chip(k, cmd)| <= APDU_MAX_RESP
  }

  /** One exchange as the transport sees it. */
  function CallFor(s: Link, k: nat, cmd: seq<byte>, chip: Chip, t: Trouble): Call
    requires |chip(k, cmd)| <= APDU_MAX_RESP
  {
    var answer := DataBlock(chip(k, cmd), if t.Misnumbered? then t.b else s.seqNo);
    Call(cmd, APDU_MAX_RESP,
      if t.NotSent? then t.t else Done,
      if t.Refusal? then answer[7 := t.s] else answer,
      if t.NotReceived? then t.t else Done)
  }

  /** What the caller of wp11_ccid_apdu gets to see. */
  function Seen(o: Outcome): Reply {
    if o.result.Accepted? then Got(o.result.data) else Lost
  }

  /** The k-th and later commands of a conversation, and the replies to them. */
  ghost function Converse(s: Link, k: nat, cmds: seq<seq<byte>>, chip: Chip, bus: Bus): (r: seq<Reply>)
    requires Short(chip)
    ensures |r| == |cmds|
    decreases |cmds|
  {
    if cmds == [] then []
    else
      var (s', o) := Step(s, CallFor(s, k, cmds[0], chip, bus(k)));
      [Seen(o)] + Converse(s', k + 1, cmds[1..], chip, bus)
  }

  /** A response was lost before the k-th exchange. */
  predicate LostBefore(bus: Bus, k: nat) {
    exists j: nat | j < k :: bus(j).NotReceived?
  }

  /** The card that the caller talks to: the chip, as long as no response has been lost and
      whenever the exchange is in order. */
  function CardOver(chip: Chip, bus: Bus): Card {
    (k: nat, cmd: seq<byte>) => if LostBefore(bus, k) || !bus(k).NoTrouble? then Lost else Got(chip(k, cmd))
  }

  /** Every trouble of the run is one. */
  ghost predicate GenuineRun(s: Link, k: nat, cmds: seq<seq<byte>>, chip: Chip, bus: Bus)
    requires Short(chip)
    decreases |cmds|
  {
    cmds == [] ||
    (Genuine(bus(k), s.seqNo) && |cmds[0]| <= MAX_CMD
     && GenuineRun(Step(s, CallFor(s, k, cmds[0], chip, bus(k))).0, k + 1, cmds[1..], chip, bus))
  }

  /** A transport that is in step, or has latched because a response was lost. */
  predicate Follows(s: Link, bus: Bus, k: nat) {
    InStep(s) && (s.desync <==> LostBefore(bus, k))
  }

  lemma RefusedAnswer(data: seq<byte>, seqNo: byte, status: byte)
    requires |data| <= APDU_MAX_RESP && !StatusOk(status)
    ensures Check(DataBlock(data, seqNo)[7 := status], seqNo, APDU_MAX_RESP).Refused?
  {
    hide U32Le, ReadU32Le;
  }

  lemma ChecksAnswer(data: seq<byte>, answered: byte, seqNo: byte)
    requires |data| <= APDU_MAX_RESP
    ensures Check(DataBlock(data, answered), seqNo, APDU_MAX_RESP) ==
      if answered == seqNo then Accepted(data) else Refused(ErrSeq)
  {
    hide Check;
    CheckReadsDataBlock(data, answered, seqNo, APDU_MAX_RESP, []);
    assert DataBlock(data, answered) + [] == DataBlock(data, answered);
  }

  lemma StepFollows(s: Link, k: nat, cmd: seq<byte>, chip: Chip, bus: Bus)
    requires Follows(s, bus, k) && |cmd| <= MAX_CMD && |chip(k, cmd)| <= APDU_MAX_RESP && Genuine(bus(k), s.seqNo)
    ensures
      var (s', o) := Step(s, CallFor(s, k, cmd, chip, bus(k)));
      Follows(s', bus, k + 1) && Seen(o) == CardOver(chip, bus)(k, cmd)
  {
    hide Check, DataBlock, Frame;
    var data, t := chip(k, cmd), bus(k);
    ChecksAnswer(data, if t.Misnumbered? then t.b else s.seqNo, s.seqNo);
    if t.Refusal? {
      RefusedAnswer(data, s.seqNo, t.s);
    }
    LostBeforeNext(bus, k);
    StepKeepsInStep(s, CallFor(s, k, cmd, chip, t));
  }

  lemma LostBeforeNext(bus: Bus, k: nat)
    ensures LostBefore(bus, k + 1) <==> LostBefore(bus, k) || bus(k).NotReceived?
  {}

  lemma {:induction false} ConversationFollows(s: Link, k: nat, cmds: seq<seq<byte>>, chip: Chip, bus: Bus, i: nat)
    requires Short(chip) && Follows(s, bus, k) && GenuineRun(s, k, cmds, chip, bus) && i < |cmds|
    ensures Converse(s, k, cmds, chip, bus)[i] == CardOver(chip, bus)(k + i, cmds[i])
    decreases |cmds|
  {
    hide Step, Follows, CardOver, CallFor, Seen;
    StepFollows(s, k, cmds[0], chip, bus);
    if i > 0 {
      ConversationFollows(Step(s, CallFor(s, k, cmds[0], chip, bus(k))).0, k + 1, cmds[1..], chip, bus, i - 1);
      assert cmds[1..][i - 1] == cmds[i];
    }
  }

  /** On a fresh connection the i-th reply is that of one fixed card to the i-th command,
      for any commands, any chip and any trouble, through any wrap of the sequence number. */
  lemma ConversationIsWithCard(cmds: seq<seq<byte>>, chip: Chip, bus: Bus, i: nat)
    requires Short(chip) && GenuineRun(OPENED, 0, cmds, chip, bus) && i < |cmds|
    ensures Converse(OPENED, 0, cmds, chip, bus)[i] == CardOver(chip, bus)(i, cmds[i])
  {
    hide GenuineRun, Converse, CardOver;
    ConversationFollows(OPENED, 0, cmds, chip, bus, i);
  }

  const QUIET: Bus := _ => NoTrouble

  lemma {:induction false} QuietIsGenuine(s: Link, k: nat, cmds: seq<seq<byte>>, chip: Chip)
    requires Short(chip) && forall i | 0 <= i < |cmds| :: |cmds[i]| <= MAX_CMD
    ensures GenuineRun(s, k, cmds, chip, QUIET)
    decreases |cmds|
  {
    hide Step, CallFor;
    if cmds != [] {
      QuietIsGenuine(Step(s, CallFor(s, k, cmds[0], chip, QUIET(k))).0, k + 1, cmds[1..], chip);
    }
  }

  /** Without trouble the replies are the chip's own answers, however long the conversation. */
  lemma QuietConversationIsWithChip(cmds: seq<seq<byte>>, chip: Chip, i: nat)
    requires Short(chip) && i < |cmds| && forall j | 0 <= j < |cmds| :: |cmds[j]| <= MAX_CMD
    ensures Converse(OPENED, 0, cmds, chip, QUIET)[i] == Got(chip(i, cmds[i]))
  {
    hide GenuineRun, Converse;
    QuietIsGenuine(OPENED, 0, cmds, chip);
    ConversationIsWithCard(cmds, chip, QUIET, i);
  }
}
