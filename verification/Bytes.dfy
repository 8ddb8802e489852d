/** Bytes, results and the two facts about byte strings that every codec proof
    below rests on: "s stands at position pos of buf", and how that splits. */
module Bytes {

  type byte = b: int | 0 <= b < 256

  /** A C `uint32_t`. */
  const U32_LIMIT := 0x1_0000_0000

  datatype Option<+T> = None | Some(value: T)

  /** The `WP11_KEYSTORE_ERR_*` codes that the modelled paths can return. */
  datatype KsError =
    | ErrParam | ErrIo | ErrBadMagic | ErrBadVersion | ErrBadPin
    | ErrKdfWeak | ErrTruncated | ErrCbor | ErrBadIter

  datatype Attempt<+T, +E> = Ok(value: T) | Err(error: E) {
    predicate IsFailure() { Err? }

    function PropagateFailure<U>(): Attempt<U, E>
      requires Err?
    {
      Err(error)
    }

    function Extract(): T
      requires Ok?
    {
      value
    }
  }

  type Result<T> = Attempt<T, KsError>

  /** The bytes `s` stand in `buf` at offset `pos`. */
  predicate At(buf: seq<byte>, pos: nat, s: seq<byte>) {
    pos + |s| <= |buf| && buf[pos..pos + |s|] == s
  }

  lemma AtConcat(buf: seq<byte>, pos: nat, a: seq<byte>, b: seq<byte>)
    ensures At(buf, pos, a + b) <==> At(buf, pos, a) && At(buf, pos + |a|, b)
  {
    if pos + |a| + |b| <= |buf| {
      var whole := buf[pos..pos + |a| + |b|];
      assert whole[..|a|] == buf[pos..pos + |a|];
      assert whole[|a|..] == buf[pos + |a|..pos + |a| + |b|];
      assert whole == whole[..|a|] + whole[|a|..];
      assert (a + b)[..|a|] == a && (a + b)[|a|..] == b;
    }
  }

  lemma Regroup(a: seq<byte>, b: seq<byte>, c: seq<byte>, d: seq<byte>)
    ensures a + b + c + d == (a + b) + (c + d)
  {}

  lemma NothingStandsAnywhere(buf: seq<byte>, pos: nat)
    requires pos <= |buf|
    ensures At(buf, pos, [])
  {}

  /** Standing at `pos` is not affected by what follows. */
  lemma AtExtend(buf: seq<byte>, more: seq<byte>, pos: nat, s: seq<byte>)
    requires At(buf, pos, s)
    ensures At(buf + more, pos, s)
  {
    assert (buf + more)[pos..pos + |s|] == buf[pos..pos + |s|];
  }

  /** The C string held in a NUL-terminated buffer that was filled with `s`:
      everything before the first NUL. */
  function CString(s: seq<byte>): (r: seq<byte>)
    ensures |r| <= |s| && r == s[..|r|] && 0 !in r
    ensures |r| < |s| ==> s[|r|] == 0
  {
    if s == [] || s[0] == 0 then [] else [s[0]] + CString(s[1..])
  }

  lemma CStringOfPlain(s: seq<byte>)
    requires 0 !in s
    ensures CString(s) == s
  {
  }

  /** read_u32be: four bytes, most significant first. */
  function ReadU32Be(p: seq<byte>): (v: nat)
    requires |p| == 4
    ensures v < U32_LIMIT
  {
    0x100_0000 * p[0] as int + 0x1_0000 * p[1] as int + 0x100 * p[2] as int + p[3] as int
  }

  /** write_u32be, as the bytes it stores. */
  function U32Be(v: nat): (p: seq<byte>)
    requires v < U32_LIMIT
    ensures |p| == 4
  {
    [v / 0x100_0000, v / 0x1_0000 % 0x100, v / 0x100 % 0x100, v % 0x100]
  }

  lemma ReadWriteU32Be(v: nat)
    requires v < U32_LIMIT
    ensures ReadU32Be(U32Be(v)) == v
  {
    var a, b, c := v / 0x100_0000, v / 0x1_0000, v / 0x100;
    assert b / 0x100 == a && c / 0x100 == b;
  }

  lemma WriteReadU32Be(p: seq<byte>)
    requires |p| == 4
    ensures U32Be(ReadU32Be(p)) == p
  {
    var v := ReadU32Be(p);
    assert v / 0x100 == 0x1_0000 * p[0] as int + 0x100 * p[1] as int + p[2] as int;
    assert v / 0x1_0000 == 0x100 * p[0] as int + p[1] as int;
  }

  /** The byte order, written out. */
  lemma BigEndianOrder(a: byte, b: byte, c: byte, d: byte)
    ensures U32Be(0x100_0000 * a + 0x1_0000 * b + 0x100 * c + d) == [a, b, c, d]
  {
    var p: seq<byte> := [a, b, c, d];
    WriteReadU32Be(p);
    assert ReadU32Be(p) == 0x100_0000 * a + 0x1_0000 * b + 0x100 * c + d;
  }
}
