/** Reading and replacing the file. Every system call takes its outcome from a script
    that the environment chose; when the script is used up the machine has stopped,
    so a property proved for all scripts holds at every step of every run. */
module KeystoreFile {
  import opened Bytes
  import opened CborItem
  import opened Payload
  import opened Container
  import opened Transfers
  import KeystoreCodec

  // ----------------------------------------------------------------------- the disk

  /** A file as the running system sees it, and whether it is on stable storage. */
  datatype File = File(bytes: seq<byte>, synced: bool)

  /** What a name may turn out to name after a crash: a file that was not synced can
      hold anything. */
  predicate Survives(f: Option<File>, image: Option<seq<byte>>) {
    match f
    case None => image.None?
    case Some(file) => image.Some? && (file.synced ==> image.value == file.bytes)
  }

  function Contents(f: Option<File>): Option<seq<byte>> {
    if f.None? then None else Some(f.value.bytes)
  }

  class Disk {
    /** What the keystore path names, and what it named before renames that may
        still be undone by a crash. */
    var target: Option<File>
    var earlier: seq<Option<File>>
    /** What `path`.tmp names. */
    var temp: Option<File>
    var script: seq<Outcome>

    constructor (target: Option<File>, temp: Option<File>, script: seq<Outcome>)
      ensures this.target == target && this.earlier == [] && this.temp == temp && this.script == script
    {
      this.target, this.earlier, this.temp, this.script := target, [], temp, script;
    }

    /** After a crash now, the keystore path may hold `image`. */
    ghost predicate MayHold(image: Option<seq<byte>>)
      reads this
    {
      Survives(target, image) || exists k | 0 <= k < |earlier| :: Survives(earlier[k], image)
    }

    method NextOutcome() returns (o: Option<Outcome>)
      modifies this`script
      ensures old(script) == [] ==> o == None && script == []
      ensures old(script) != [] ==> o == Some(old(script)[0]) && script == old(script)[1..]
    {
      if script == [] {
        return None;
      }
      o := Some(script[0]);
      script := script[1..];
    }

    /** write_all on the temporary file. */
    method WriteAll(buf: seq<byte>) returns (s: Status)
      requires temp.Some?
      modifies this`temp, this`script
      ensures temp.Some?
      ensures (s, script) == AfterWrite(old(script), |buf|)
      ensures s.Fine? ==> temp.value.bytes == old(temp.value.bytes) + buf
    {
      var done := 0;
      ghost var start := temp.value.bytes;
      while done < |buf|
        invariant done <= |buf|
        invariant temp.Some? && temp.value.bytes == start + buf[..done]
        invariant AfterWrite(script, |buf| - done) == AfterWrite(old(script), |buf|)
        decreases |script|
      {
        var o := NextOutcome();
        match o {
          case None => return Stopped;
          case Some(Interrupted) =>
          case Some(Fails) => return Failed(ErrIo);
          case Some(Moves(n)) =>
            if n == 0 {
              return Failed(ErrIo);
            }
            var upto := if n <= |buf| - done then done + n else |buf|;
            assert start + buf[..upto] == start + buf[..done] + buf[done..upto];
            temp := Some(File(temp.value.bytes + buf[done..upto], false));
            done := upto;
        }
      }
      assert buf[..done] == buf;
      return Fine;
    }

    /** Every error path: close, then unlink the temporary file as best it can. */
    method Abandon(error: KsError) returns (s: Status)
      modifies this`temp, this`script
      ensures s == Abandoned(Failed(error), old(script))
      ensures s.Stopped? ==> script == []
      ensures s.Failed? ==> |old(script)| == |script| + 1 && script == old(script)[1..]
      ensures s.Failed? ==> temp == if old(script)[0].Moves? then None else old(temp)
    {
      var o := NextOutcome();
      match o {
        case None => return Stopped;
        case Some(Moves(_)) => temp := None;
        case _ =>
      }
      return Failed(error);
    }

    /** The three writes of header, ciphertext and tag, and the fsync. */
    method WriteTemp(hdr: seq<byte>, ct: seq<byte>, tag: seq<byte>) returns (s: Status)
      requires temp == Some(File([], false))
      modifies this`temp, this`script
      ensures s.Fine? ==> temp == Some(File(hdr + ct + tag, true))
      ensures temp.Some?
      ensures (s, script) == AfterTemp(old(script), |hdr|, |ct|, |tag|)
    {
      s := WriteAll(hdr);
      if !s.Fine? { return; }
      s := WriteAll(ct);
      if !s.Fine? { return; }
      s := WriteAll(tag);
      if !s.Fine? { return; }
      var o := NextOutcome();
      match o {
        case None => return Stopped;
        case Some(Moves(_)) =>
          assert temp.value.bytes == hdr + ct + tag;
          temp := Some(temp.value.(synced := true));
          return Fine;
        case _ => return Failed(ErrIo);
      }
    }

    /** The write phase of wp11_keystore_create. Whenever it stops, the path still
        holds what it could hold before or the complete new file; if it reports an
        error, nothing about the path has changed, and the temporary file, once there,
        is gone exactly if the last call, the unlink, succeeded. */
    method Replace(hdr: seq<byte>, ct: seq<byte>, tag: seq<byte>) returns (s: Status)
      modifies this
      ensures s == AfterReplace(old(script), |hdr|, |ct|, |tag|)
      ensures s.Stopped? ==> script == []
      ensures s.Fine? ==> Contents(target) == Some(hdr + ct + tag) && temp.None?
      ensures s.Failed? ==> s.error == ErrIo && target == old(target) && earlier == old(earlier)
      ensures s.Failed? ==>
        && |script| < |old(script)|
        && (old(script)[0].Moves? ==> (temp.None? <==> old(script)[|old(script)| - |script| - 1].Moves?))
      ensures Contents(target) == old(Contents(target)) || Contents(target) == Some(hdr + ct + tag)
      ensures forall image :: MayHold(image) ==> old(MayHold(image)) || image == Some(hdr + ct + tag)
    {
      var o := NextOutcome();
      match o {
        case None => return Stopped;
        case Some(Moves(_)) => temp := Some(File([], false));
        case _ => return Failed(ErrIo);
      }
      TempLeaves(script, |hdr|, |ct|, |tag|);
      ghost var left := script;
      s := WriteTemp(hdr, ct, tag);
      if s.Stopped? { return; }
      assert LeftOf(script, left);
      if s.Failed? {
        s := Abandon(s.error);
        return;
      }
      o := NextOutcome();
      match o {
        case None => return Stopped;
        case Some(Moves(_)) =>
        case _ =>
          s := Abandon(ErrIo);
          return;
      }
      earlier := earlier + [target];
      target, temp := temp, None;
      return Fine;
    }
  }

  /** Starting from a path whose file is on stable storage (or absent), a crash at any
      step of the replacement leaves either the old bytes or the new ones. */
  method ReplaceSurvivesCrashes(
      before: Option<seq<byte>>, stale: Option<File>, script: seq<Outcome>,
      hdr: seq<byte>, ct: seq<byte>, tag: seq<byte>)
    returns (d: Disk, s: Status)
    ensures forall image :: d.MayHold(image) ==> image == before || image == Some(hdr + ct + tag)
    ensures s.Failed? ==> forall image :: d.MayHold(image) <==> image == before
    ensures s.Fine? ==> Contents(d.target) == Some(hdr + ct + tag)
    ensures s == AfterReplace(script, |hdr|, |ct|, |tag|)
  {
    var old_ := if before.None? then None else Some(File(before.value, true));
    d := new Disk(old_, stale, script);
    s := d.Replace(hdr, ct, tag);
  }

  // --------------------------------------------------------------------- reading

  /** read_all: the first |buf| bytes of the file, however they are delivered. */
  method ReadAll(file: seq<byte>, buf: array<byte>, script: seq<Outcome>) returns (s: Status)
    modifies buf
    ensures s == AfterRead(script, buf.Length, |file|)
    ensures s.Fine? ==> buf.Length <= |file| && buf[..] == file[..buf.Length]
  {
    var done: nat := 0;
    for step := 0 to |script|
      invariant done <= buf.Length && done <= |file|
      invariant buf[..done] == file[..done]
      invariant AfterRead(script[step..], buf.Length - done, |file| - done) == AfterRead(script, buf.Length, |file|)
    {
      assert script[step..][1..] == script[step + 1..];
      if done == buf.Length {
        return Fine;
      }
      match script[step] {
        case Interrupted =>
        case Fails => return Failed(ErrIo);
        case Moves(n) =>
          // A read returns 0 only at the end of the file.
          if done == |file| {
            return Failed(ErrTruncated);
          }
          var room := if buf.Length <= |file| then buf.Length - done else |file| - done;
          var m := if n == 0 then 1 else if n <= room then n else room;
          forall k | 0 <= k < m {
            buf[done + k] := file[done + k];
          }
          assert buf[..done + m] == file[..done + m];
          done := done + m;
      }
    }
    return if done == buf.Length then Fine else Stopped;
  }

  // ---------------------------------------------------------- header and load

  method WriteU32Be(p: array<byte>, off: nat, v: nat)
    requires v < U32_LIMIT && off + 4 <= p.Length
    modifies p
    ensures p[..] == old(p[..off]) + U32Be(v) + old(p[off + 4..])
  {
    p[off] := v / 0x100_0000;
    p[off + 1] := v / 0x1_0000 % 0x100;
    p[off + 2] := v / 0x100 % 0x100;
    p[off + 3] := v % 0x100;
  }

  method Copy(p: array<byte>, off: nat, s: seq<byte>)
    requires off + |s| <= p.Length
    modifies p
    ensures p[..] == old(p[..off]) + s + old(p[off + |s|..])
  {
    forall k | 0 <= k < |s| {
      p[off + k] := s[k];
    }
  }

  /** The header as it is assembled at its fixed offsets. */
  method BuildHeader(hdr: array<byte>, salt: seq<byte>, nonce: seq<byte>, ctlen: nat)
    requires hdr.Length == HDR_LEN && |salt| == SALT_LEN && |nonce| == NONCE_LEN && ctlen < U32_LIMIT
    modifies hdr
    ensures hdr[..] == Header(salt, KDF_ITERATIONS, nonce, ctlen)
  {
    hide U32Be;
    Copy(hdr, 0, MAGIC);
    hdr[4] := VERSION;
    Copy(hdr, 5, salt);
    WriteU32Be(hdr, 37, KDF_ITERATIONS);
    Copy(hdr, 41, nonce);
    WriteU32Be(hdr, 53, ctlen);
  }

  /** The longest path, with its terminator, that the temporary name has room for. */
  const PATH_MAX := 4096

  /** wp11_keystore_create: encode, seal, assemble, replace. */
  method SaveKeystore(
      d: Disk, pathLen: nat, c: Crypto, salt: seq<byte>, nonce: seq<byte>, pin: seq<byte>, keys: seq<Entry>)
    returns (s: Status)
    requires |salt| == SALT_LEN && |nonce| == NONCE_LEN
    requires forall k | 0 <= k < |keys| :: KeystoreCodec.IsInt(keys[k].keyType)
    modifies d
    ensures
      var want := Create(c, salt, nonce, pin, keys);
      && (want.Err? ==> s == Failed(want.error) && unchanged(d))
      && (want.Ok? && pathLen >= PATH_MAX ==> s == Failed(ErrParam) && unchanged(d))
      && (want.Ok? && pathLen < PATH_MAX ==>
            && (var (ct, tag) := c.seal(c.kdf(pin, salt, KDF_ITERATIONS), nonce, Encode(keys));
                s == AfterReplace(old(d.script), HDR_LEN, |ct|, |tag|))
            && (s.Fine? ==> Contents(d.target) == Some(want.value))
            && (s.Failed? ==> s.error == ErrIo && d.target == old(d.target) && d.earlier == old(d.earlier))
            && forall image :: d.MayHold(image) ==> old(d.MayHold(image)) || image == Some(want.value))
  {
    hide Encode, AllEncodable, Header, AfterReplace, d.MayHold;
    if |pin| == 0 || |keys| > MAX_ENTRIES {
      return Failed(ErrParam);
    }
    if |pin| > INT_MAX {
      return Failed(ErrParam);
    }
    var size := 5 + |keys| * (4300 + CERT_MAX + 16);
    var plain := new byte[size](_ => 0);
    var len := KeystoreCodec.EncodePayload(plain, keys);
    if len.Err? {
      return Failed(len.error);
    }
    var payload := plain[..len.value];
    var (ct, tag) := c.seal(c.kdf(pin, salt, KDF_ITERATIONS), nonce, payload);
    var hdr := new byte[HDR_LEN](_ => 0);
    BuildHeader(hdr, salt, nonce, len.value);
    if pathLen >= PATH_MAX {
      return Failed(ErrParam);
    }
    s := d.Replace(hdr[..], ct, tag);
  }

  /** wp11_keystore_load of a path that names a file with these bytes, if it can be opened
      at all; they arrive in any portions. No result means that the machine stopped while
      opening or reading. */
  method LoadKeystore(c: Crypto, file: seq<byte>, pin: seq<byte>, script: seq<Outcome>)
    returns (r: Option<Result<seq<Entry>>>)
    ensures
      if !PinAccepted(pin) then r == Some(Err(ErrParam))
      else
        // The first two outcomes are those of open and fstat.
        if exists k | 0 <= k < |script| :: k < 2 && !script[k].Moves? then r == Some(Err(ErrIo))
        else if |script| < 2 then r == None
        else if RefusedUnread(file) then r == Some(Err(ErrTruncated))
        else
          match AfterRead(script[2..], |file|, |file|)
          case Fine => r == Some(Load(c, file, pin))
          case Stopped => r == None
          case Failed(e) => r == Some(Err(e)) && e == ErrIo
  {
    hide Load;
    if |pin| == 0 || |pin| > INT_MAX {
      return Some(Err(ErrParam));
    }
    if script == [] {
      return None;
    }
    if !script[0].Moves? {
      return Some(Err(ErrIo));
    }
    if |script| == 1 {
      return None;
    }
    if !script[1].Moves? {
      return Some(Err(ErrIo));
    }
    if |file| < HDR_LEN + TAG_LEN || |file| > HDR_LEN + MAX_CT_LEN + TAG_LEN {
      return Some(Err(ErrTruncated));
    }
    var filebuf := new byte[|file|](_ => 0);
    var s := ReadAll(file, filebuf, script[2..]);
    match s {
      case Stopped => return None;
      case Failed(error) => return Some(Err(error));
      case Fine =>
    }
    assert filebuf[..] == file;
    var loaded := OpenFile(c, filebuf[..], pin);
    return Some(loaded);
  }

  /** The size alone keeps the file from being read. */
  predicate RefusedUnread(file: seq<byte>) {
    |file| < HDR_LEN + TAG_LEN || |file| > HDR_LEN + MAX_CT_LEN + TAG_LEN
  }

  /** The rest of wp11_keystore_load: header, key, cipher, payload. */
  method OpenFile(c: Crypto, file: seq<byte>, pin: seq<byte>) returns (r: Result<seq<Entry>>)
    requires PinAccepted(pin) && HDR_LEN + TAG_LEN <= |file| <= HDR_LEN + MAX_CT_LEN + TAG_LEN
    ensures r == Load(c, file, pin)
  {
    hide Decode, ReadU32Be;
    if file[..4] != MAGIC {
      return Err(ErrBadMagic);
    }
    if file[4] != VERSION {
      return Err(ErrBadVersion);
    }
    var iter := ReadU32Be(file[37..41]);
    if iter < MIN_KDF_ITER {
      return Err(ErrKdfWeak);
    }
    var ctlen := ReadU32Be(file[53..57]);
    if ctlen > MAX_CT_LEN {
      return Err(ErrCbor);
    }
    if |file| < HDR_LEN + ctlen + TAG_LEN {
      return Err(ErrTruncated);
    }
    if iter > INT_MAX {
      return Err(ErrBadIter);
    }
    var key := c.kdf(pin, file[5..37], iter);
    if ctlen == 0 {
      return Err(ErrCbor);
    }
    var end := HDR_LEN + ctlen;
    var plain := c.open(key, file[41..53], file[HDR_LEN..end], file[end..end + TAG_LEN]);
    if plain.None? {
      return Err(ErrBadPin);
    }
    var entries := new Entry[MAX_ENTRIES](_ => KeystoreCodec.ZERO_ENTRY);
    var count := KeystoreCodec.DecodePayload(plain.value, entries);
    if count.Err? {
      return Err(count.error);
    }
    return Ok(entries[..count.value]);
  }
}
