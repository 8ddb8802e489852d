/** CBOR item heads (section 3 of RFC 8949) as the keystore reads and writes them:
    a major type in the top three bits, then a value in the low five bits or in
    one, two or four following bytes. Eight-byte and reserved forms are refused. */
module CborHead {
  import opened Bytes

  const UINT := 0
  const BYTES := 2
  const TEXT := 3
  const ARRAY := 4
  const MAP := 5

  /** How many bytes of the head carry the value. A writer has a choice: 7 may
      stand in any of the four forms. */
  datatype Width = Direct | One | Two | Four {
    predicate Fits(v: nat) {
      match this
      case Direct => v <= 23
      case One => v <= 0xFF
      case Two => v <= 0xFFFF
      case Four => v < U32_LIMIT
    }

    function Size(): (n: nat) {
      match this
      case Direct => 1
      case One => 2
      case Two => 3
      case Four => 5
    }
  }

  /** Every head a reader may meet, in any of its forms. */
  function HeadBytes(major: nat, w: Width, v: nat): (s: seq<byte>)
    requires major < 8 && w.Fits(v)
    ensures |s| == w.Size()
  {
    match w
    case Direct => [32 * major + v]
    case One => [32 * major + 24, v]
    case Two => [32 * major + 25] + [v / 0x100, v % 0x100]
    case Four => [32 * major + 26] + U32Be(v)
  }

  datatype Head = Head(major: nat, value: nat, size: nat)

  /** cbor_read_head: the head at `pos`, or an error when it is cut off or of a
      form the schema never uses. */
  function ReadHead(buf: seq<byte>, pos: nat): (r: Result<Head>)
    ensures r.Ok? ==>
      var h := r.value;
      h.major < 8 && h.value < U32_LIMIT && 1 <= h.size <= 5 && pos + h.size <= |buf|
    ensures r.Err? ==> r.error == ErrCbor
  {
    if pos >= |buf| then Err(ErrCbor)
    else
      var major: nat := buf[pos] as int / 32;
      var info: nat := buf[pos] as int % 32;
      if info <= 23 then Ok(Head(major, info, 1))
      else if info == 24 then
        if pos + 1 >= |buf| then Err(ErrCbor) else Ok(Head(major, buf[pos + 1], 2))
      else if info == 25 then
        if pos + 2 >= |buf| then Err(ErrCbor)
        else Ok(Head(major, 0x100 * buf[pos + 1] as int + buf[pos + 2] as int, 3))
      else if info == 26 then
        if pos + 4 >= |buf| then Err(ErrCbor)
        else Ok(Head(major, ReadU32Be(buf[pos + 1..pos + 5]), 5))
      else Err(ErrCbor)
  }

  /** The form of the head that stands at `pos`. */
  function WidthAt(buf: seq<byte>, pos: nat): (w: Width)
    requires ReadHead(buf, pos).Ok?
  {
    match ReadHead(buf, pos).value.size
    case 1 => Direct
    case 2 => One
    case 3 => Two
    case _ => Four
  }

  /** Reading accepts every form of every head ... */
  lemma ReadsEveryForm(buf: seq<byte>, pos: nat, major: nat, w: Width, v: nat)
    requires major < 8 && w.Fits(v) && At(buf, pos, HeadBytes(major, w, v))
    ensures ReadHead(buf, pos) == Ok(Head(major, v, w.Size()))
  {
    var s := HeadBytes(major, w, v);
    assert buf[pos] == s[0];
    match w
    case Direct =>
    case One => assert buf[pos + 1] == s[1];
    case Two =>
      assert buf[pos + 1] == s[1] && buf[pos + 2] == s[2];
    case Four =>
      assert buf[pos + 1..pos + 5] == s[1..] == U32Be(v);
      ReadWriteU32Be(v);
  }

  /** ... and nothing else: what it consumed is one of those forms. */
  lemma ReadsOnlyHeads(buf: seq<byte>, pos: nat)
    requires ReadHead(buf, pos).Ok?
    ensures
      var h, w := ReadHead(buf, pos).value, WidthAt(buf, pos);
      w.Fits(h.value) && w.Size() == h.size && At(buf, pos, HeadBytes(h.major, w, h.value))
  {
    var h, w := ReadHead(buf, pos).value, WidthAt(buf, pos);
    var there := buf[pos..pos + h.size];
    if w == Four {
      WriteReadU32Be(buf[pos + 1..pos + 5]);
      assert there == [buf[pos]] + buf[pos + 1..pos + 5];
    } else {
      assert there == HeadBytes(h.major, w, h.value);
    }
  }

  /** The form cbor_write_head picks. */
  function Shortest(v: nat): (w: Width)
    requires v < U32_LIMIT
    ensures w.Fits(v)
  {
    if v <= 23 then Direct else if v <= 0xFF then One else if v <= 0xFFFF then Two else Four
  }

  /** No form of a head is shorter than the one the writer picks. */
  lemma ShortestIsShortest(v: nat, w: Width)
    requires v < U32_LIMIT && w.Fits(v)
    ensures Shortest(v).Size() <= w.Size()
  {}

  function Canonical(major: nat, v: nat): (s: seq<byte>)
    requires major < 8 && v < U32_LIMIT
    ensures 1 <= |s| <= 5
  {
    HeadBytes(major, Shortest(v), v)
  }

  /** cbor_write_head. Fails when the value needs the eight-byte form or the head
      does not fit; otherwise stores the shortest head at `pos` and nothing else. */
  method WriteHead(buf: array<byte>, pos: nat, major: nat, value: nat) returns (n: Option<nat>)
    requires major < 8 && pos <= buf.Length
    modifies buf
    ensures n.Some? <==> value < U32_LIMIT && pos + |Canonical(major, value)| <= buf.Length
    ensures n.Some? ==>
      var s := Canonical(major, value);
      n.value == |s| && buf[..] == old(buf[..pos]) + s + old(buf[pos + |s|..])
    ensures n.None? ==> buf[..] == old(buf[..])
  {
    if value <= 23 {
      if pos >= buf.Length { return None; }
      buf[pos] := 32 * major + value;
      return Some(1);
    } else if value <= 0xFF {
      if pos + 1 >= buf.Length { return None; }
      buf[pos] := 32 * major + 24;
      buf[pos + 1] := value;
      return Some(2);
    } else if value <= 0xFFFF {
      if pos + 2 >= buf.Length { return None; }
      buf[pos] := 32 * major + 25;
      buf[pos + 1] := value / 0x100;
      buf[pos + 2] := value % 0x100;
      return Some(3);
    } else if value <= 0xFFFF_FFFF {
      if pos + 4 >= buf.Length { return None; }
      buf[pos] := 32 * major + 26;
      buf[pos + 1] := value / 0x100_0000;
      buf[pos + 2] := value / 0x1_0000 % 0x100;
      buf[pos + 3] := value / 0x100 % 0x100;
      buf[pos + 4] := value % 0x100;
      return Some(5);
    } else {
      return None;
    }
  }
}
