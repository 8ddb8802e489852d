/** System calls that move bytes, and what loops over them come to. The outcomes of all
    calls of a run are a script that the environment chose. */
module Transfers {
  import opened Bytes

  /** What one system call does: moves `n` bytes (as far as that many remain), is
      interrupted, fails, or, for calls that move no bytes, succeeds with any `n`. */
  datatype Outcome = Moves(n: nat) | Interrupted | Fails

  datatype Status = Fine | Failed(error: KsError) | Stopped

  /** write_all over `n` bytes: how it ends, and which outcomes it leaves. */
  function AfterWrite(script: seq<Outcome>, n: nat): (r: (Status, seq<Outcome>))
    ensures |r.1| <= |script| && (r.0.Stopped? ==> r.1 == [])
    ensures r.0.Failed? ==> r.0.error == ErrIo
    decreases |script|
  {
    if n == 0 then (Fine, script)
    else if script == [] then (Stopped, [])
    else
      match script[0]
      case Interrupted => AfterWrite(script[1..], n)
      case Fails => (Failed(ErrIo), script[1..])
      case Moves(m) =>
        if m == 0 then (Failed(ErrIo), script[1..]) else AfterWrite(script[1..], Left(script[0], n))
  }

  /** read_all of `n` bytes from a file with `avail` left. A read returns 0 only at the
      end of the file. */
  function AfterRead(script: seq<Outcome>, n: nat, avail: nat): (s: Status)
    ensures s.Failed? ==> (s.error == ErrIo && Fails in script) || (s.error == ErrTruncated && avail < n)
    decreases |script|
  {
    if n == 0 then Fine
    else if script == [] then Stopped
    else
      match script[0]
      case Interrupted => AfterRead(script[1..], n, avail)
      case Fails => Failed(ErrIo)
      case Moves(m) =>
        if avail == 0 then Failed(ErrTruncated)
        else
          var room := if n <= avail then n else avail;
          var k := if m == 0 then 1 else if m <= room then m else room;
          AfterRead(script[1..], n - k, avail - k)
  }

  /** The three writes and the fsync of wp11_keystore_create, for a header, a ciphertext
      and a tag of the given sizes. */
  function AfterTemp(script: seq<Outcome>, h: nat, c: nat, t: nat): (r: (Status, seq<Outcome>))
    ensures r.0.Stopped? ==> r.1 == []
  {
    var (s1, r1) := AfterWrite(script, h);
    if !s1.Fine? then (s1, r1)
    else
      var (s2, r2) := AfterWrite(r1, c);
      if !s2.Fine? then (s2, r2)
      else
        var (s3, r3) := AfterWrite(r2, t);
        if !s3.Fine? then (s3, r3)
        else if r3 == [] then (Stopped, [])
        else (if r3[0].Moves? then Fine else Failed(ErrIo), r3[1..])
  }

  /** The write phase of wp11_keystore_create: open, write, rename; on an error unlink. */
  function AfterReplace(script: seq<Outcome>, h: nat, c: nat, t: nat): Status {
    if script == [] then Stopped
    else if !script[0].Moves? then Failed(ErrIo)
    else
      var (s, rest) := AfterTemp(script[1..], h, c, t);
      if s.Failed? then Abandoned(s, rest)
      else if s.Stopped? || rest == [] then Stopped
      else if rest[0].Moves? then Fine
      else Abandoned(Failed(ErrIo), rest[1..])
  }

  function Abandoned(s: Status, script: seq<Outcome>): Status {
    if script == [] then Stopped else s
  }

  /** An outcome that a transfer loop goes on after. */
  predicate Serves(o: Outcome) {
    o.Interrupted? || (o.Moves? && o.n > 0)
  }

  predicate AllServe(os: seq<Outcome>) {
    forall k | 0 <= k < |os| :: Serves(os[k])
  }

  /** The bytes that a series of transfers can move. */
  function Capacity(os: seq<Outcome>): nat {
    if os == [] then 0
    else (if os[0].Moves? then if os[0].n == 0 then 1 else os[0].n else 0) + Capacity(os[1..])
  }

  /** What remains of `n` bytes after one more transfer. */
  function Left(o: Outcome, n: nat): nat {
    if !o.Moves? then n else if o.n <= n then n - o.n else 0
  }

  /** Just what write_all needs for `n` bytes: short writes and interruptions in any
      pattern, the last of which completes the transfer. */
  predicate Completes(os: seq<Outcome>, n: nat)
    decreases |os|
  {
    if n == 0 then os == [] else os != [] && Serves(os[0]) && Completes(os[1..], Left(os[0], n))
  }

  lemma {:induction false} CompletingServes(os: seq<Outcome>, n: nat)
    requires Completes(os, n)
    ensures AllServe(os) && Capacity(os) >= n
    decreases |os|
  {
    if os != [] {
      CompletingServes(os[1..], Left(os[0], n));
      ServeSplit(os);
    }
  }

  lemma {:induction false} WriteCompletes(os: seq<Outcome>, rest: seq<Outcome>, n: nat)
    requires Completes(os, n)
    ensures AfterWrite(os + rest, n) == (Fine, rest)
    decreases |os|
  {
    if os == [] {
      assert os + rest == rest;
    } else {
      assert (os + rest)[1..] == os[1..] + rest;
      WriteCompletes(os[1..], rest, Left(os[0], n));
    }
  }

  /** A write that succeeds used just what it needed. */
  lemma {:induction false} WriteUsed(script: seq<Outcome>, n: nat) returns (os: seq<Outcome>)
    requires AfterWrite(script, n).0.Fine?
    ensures Completes(os, n) && script == os + AfterWrite(script, n).1
    decreases |script|
  {
    if n == 0 {
      os := [];
    } else {
      var rest := WriteUsed(script[1..], Left(script[0], n));
      os := [script[0]] + rest;
      assert os[1..] == rest;
    }
  }

  /** A write that fails does so right after a call that failed or moved nothing. */
  lemma {:induction false} WriteFailure(script: seq<Outcome>, n: nat) returns (os: seq<Outcome>, bad: Outcome)
    requires AfterWrite(script, n).0.Failed?
    ensures script == os + ([bad] + AfterWrite(script, n).1)
    ensures AllServe(os) && !Serves(bad) && Capacity(os) < n
    decreases |script|
  {
    if !Serves(script[0]) {
      os, bad := [], script[0];
    } else {
      var rest;
      rest, bad := WriteFailure(script[1..], Left(script[0], n));
      os := [script[0]] + rest;
      assert os[1..] == rest;
      ServeSplit(os);
    }
  }

  /** Short writes and EINTR in any pattern append the whole buffer once enough bytes have
      been moved, and the loop stops in between only when the machine does. */
  lemma {:induction false} WriteOutcomes(script: seq<Outcome>, n: nat)
    ensures AfterWrite(script, n).0.Stopped? <==> AllServe(script) && Capacity(script) < n
    ensures AllServe(script) && Capacity(script) >= n ==> AfterWrite(script, n).0.Fine?
    decreases |script|
  {
    if n > 0 && script != [] {
      ServeSplit(script);
      if Serves(script[0]) {
        WriteOutcomes(script[1..], Left(script[0], n));
      }
    }
  }

  lemma ServeSplit(os: seq<Outcome>)
    requires os != []
    ensures AllServe(os) <==> Serves(os[0]) && AllServe(os[1..])
  {
    if Serves(os[0]) && AllServe(os[1..]) {
      forall k | 0 <= k < |os| ensures Serves(os[k]) {
        assert k > 0 ==> Serves(os[1..][k - 1]);
      }
    }
  }

  /** The same for reading a whole file: the read is complete, or the machine stopped
      before enough bytes came, or a call failed. */
  lemma {:induction false} ReadOutcomes(script: seq<Outcome>, n: nat)
    ensures
      var s := AfterRead(script, n, n);
      && (s.Stopped? <==> Fails !in script && Capacity(script) < n)
      && (s.Failed? ==> s.error == ErrIo && Fails in script)
      && (Fails !in script && Capacity(script) >= n ==> s.Fine?)
    decreases |script|
  {
    if n > 0 && script != [] {
      assert script == [script[0]] + script[1..];
      if script[0].Interrupted? {
        ReadOutcomes(script[1..], n);
      } else if script[0].Moves? {
        var m := script[0].n;
        ReadOutcomes(script[1..], n - if m == 0 then 1 else if m <= n then m else n);
      }
    }
  }

  /** The system calls of a replacement that succeeds, in order. */
  ghost predicate Succeeds(script: seq<Outcome>, h: nat, c: nat, t: nat) {
    exists a, b, d, rest :: SucceedsAs(script, h, c, t, a, b, d, rest)
  }

  predicate SucceedsAs(
      script: seq<Outcome>, h: nat, c: nat, t: nat,
      a: seq<Outcome>, b: seq<Outcome>, d: seq<Outcome>, rest: seq<Outcome>)
  {
    && Completes(a, h) && Completes(b, c) && Completes(d, t)
    && |script| >= 1 && script[0].Moves? && script[1..] == a + (b + (d + rest))
    && |rest| >= 2 && rest[0].Moves? && rest[1].Moves?
  }

  /** The replacement succeeds if and only if open, fsync and rename succeed and each of
      the three writes completes, in whatever portions. */
  lemma ReplaceSucceedsIff(script: seq<Outcome>, h: nat, c: nat, t: nat)
    ensures AfterReplace(script, h, c, t).Fine? <==> Succeeds(script, h, c, t)
  {
    hide AfterWrite, Completes;
    if AfterReplace(script, h, c, t).Fine? {
      var a := WriteUsed(script[1..], h);
      var r1 := AfterWrite(script[1..], h).1;
      var b := WriteUsed(r1, c);
      var r2 := AfterWrite(r1, c).1;
      var d := WriteUsed(r2, t);
      assert SucceedsAs(script, h, c, t, a, b, d, AfterWrite(r2, t).1);
    }
    if Succeeds(script, h, c, t) {
      var a, b, d, rest :| SucceedsAs(script, h, c, t, a, b, d, rest);
      WriteCompletes(a, b + (d + rest), h);
      WriteCompletes(b, d + rest, c);
      WriteCompletes(d, rest, t);
    }
  }

  /** So a machine that keeps running, on which every call does something, succeeds. */
  lemma SteadyMachineSucceeds(script: seq<Outcome>, h: nat, c: nat, t: nat)
    requires forall k | 0 <= k < |script| :: script[k].Moves? && script[k].n > 0
    requires |script| >= h + c + t + 3
    ensures AfterReplace(script, h, c, t).Fine?
  {
    hide Capacity;
    SteadyWrite(script[1..], h);
    var r1 := AfterWrite(script[1..], h).1;
    SteadyWrite(r1, c);
    SteadyWrite(AfterWrite(r1, c).1, t);
  }

  lemma {:induction false} SteadyWrite(script: seq<Outcome>, n: nat)
    requires forall k | 0 <= k < |script| :: script[k].Moves? && script[k].n > 0
    requires |script| >= n
    ensures
      var (s, rest) := AfterWrite(script, n);
      s.Fine? && |rest| >= |script| - n && forall k | 0 <= k < |rest| :: rest[k].Moves? && rest[k].n > 0
    decreases |script|
  {
    if n > 0 {
      SteadyWrite(script[1..], Left(script[0], n));
    }
  }

  /** `rest` is what is left of `script`. */
  predicate LeftOf(rest: seq<Outcome>, script: seq<Outcome>) {
    |rest| <= |script| && script[|script| - |rest|..] == rest
  }

  lemma {:induction false} WriteLeaves(script: seq<Outcome>, n: nat)
    ensures LeftOf(AfterWrite(script, n).1, script)
    decreases |script|
  {
    if n > 0 && script != [] && Serves(script[0]) {
      WriteLeaves(script[1..], Left(script[0], n));
    }
  }

  lemma TempLeaves(script: seq<Outcome>, h: nat, c: nat, t: nat)
    ensures LeftOf(AfterTemp(script, h, c, t).1, script)
  {
    hide AfterWrite;
    WriteLeaves(script, h);
    var r1 := AfterWrite(script, h).1;
    WriteLeaves(r1, c);
    WriteLeaves(AfterWrite(r1, c).1, t);
  }

  /** What a write loop has come to, later outcomes do not change. */
  lemma {:induction false} WriteIsFinal(script: seq<Outcome>, more: seq<Outcome>, n: nat)
    requires !AfterWrite(script, n).0.Stopped?
    ensures AfterWrite(script + more, n) == (AfterWrite(script, n).0, AfterWrite(script, n).1 + more)
    decreases |script|
  {
    if n > 0 {
      assert (script + more)[0] == script[0] && (script + more)[1..] == script[1..] + more;
      if Serves(script[0]) {
        WriteIsFinal(script[1..], more, Left(script[0], n));
      }
    }
  }

  lemma TempIsFinal(script: seq<Outcome>, more: seq<Outcome>, h: nat, c: nat, t: nat)
    requires !AfterTemp(script, h, c, t).0.Stopped?
    ensures AfterTemp(script + more, h, c, t) == (AfterTemp(script, h, c, t).0, AfterTemp(script, h, c, t).1 + more)
  {
    hide AfterWrite;
    WriteIsFinal(script, more, h);
    var r1 := AfterWrite(script, h).1;
    if AfterWrite(script, h).0.Fine? {
      WriteIsFinal(r1, more, c);
      var r2 := AfterWrite(r1, c).1;
      if AfterWrite(r1, c).0.Fine? {
        WriteIsFinal(r2, more, t);
        var r3 := AfterWrite(r2, t).1;
        assert r3 != [] ==> (r3 + more)[0] == r3[0] && (r3 + more)[1..] == r3[1..] + more;
      }
    }
  }

  /** A replacement that has ended, well or not, has ended so however the machine goes on;
      so it has no verdict only when the machine stopped on the way. */
  lemma VerdictIsFinal(script: seq<Outcome>, more: seq<Outcome>, h: nat, c: nat, t: nat)
    requires !AfterReplace(script, h, c, t).Stopped?
    ensures AfterReplace(script + more, h, c, t) == AfterReplace(script, h, c, t)
  {
    hide AfterTemp;
    assert (script + more)[1..] == script[1..] + more;
    if script[0].Moves? {
      TempIsFinal(script[1..], more, h, c, t);
      var rest := AfterTemp(script[1..], h, c, t).1;
      assert rest != [] && (rest + more)[0] == rest[0] && (rest + more)[1..] == rest[1..] + more;
    }
  }
}
