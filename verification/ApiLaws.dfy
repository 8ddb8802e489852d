/** What the calls promise an application: when they succeed, and what one call undoes
    of another. */
module ApiLaws {
  import opened Bytes
  import opened Tables
  import opened TableOps
  import opened SessionLaws
  import opened SlotLaws
  import opened LivenessLaws
  import O = OwnershipLaws

  // -------------------------------------------------------------- opening a session

  /** C_OpenSession succeeds exactly when the slot has its token, a serial session is
      asked for, some session record is free, and no session of the slot is the SO's,
      unless the new one is read/write. */
  lemma OpenSucceedsIff(s: State, slot: nat, serial: bool, rw: bool)
    requires SessionInv(s) && s.initialized
    ensures DoOpen(s, slot, serial, rw).1 == RvOk <==>
      && ValidSlot(s, slot) && s.slots[slot].present && serial
      && (exists j | 0 <= j < |s.sessions| :: !s.sessions[j].inUse)
      && (rw || forall j | 0 <= j < |s.sessions| && On(s.sessions[j], slot) :: s.sessions[j].login != So)
  {
    var i := FreeSession(s.sessions, 0);
    var login := SlotLogin(s.sessions, slot, 0);
    if j :| 0 <= j < |s.sessions| && !s.sessions[j].inUse {
      assert i != |s.sessions|;
    }
  }

  /** A new session joins the login state of the slot, and closing it gives back the state
      there was. */
  lemma OpenThenClose(s: State, slot: nat, serial: bool, rw: bool, j: nat)
    requires SessionInv(s) && s.initialized && DoOpen(s, slot, serial, rw).1 == RvOk
    requires j < |s.sessions|
    ensures
      var (s1, _, h) := DoOpen(s, slot, serial, rw);
      && ValidHandle(s1, h) && !ValidHandle(s, h)
      && (On(s.sessions[j], slot) ==> s1.sessions[h - 1].login == s.sessions[j].login)
      && s1.sessions[h - 1].state == StateOf(s1.sessions[h - 1].login, rw)
      && DoClose(s1, h) == (s, RvOk)
  {
    var (s1, _, h) := DoOpen(s, slot, serial, rw);
    assert s1.sessions[h - 1 := ZERO_SESSION] == s.sessions;
  }

  // ------------------------------------------------------------------- logging in

  /** C_Login on a slot where someone is logged in says who, and changes nothing; the
      SO cannot log in while a read-only session is open on the slot; and once a login
      succeeds every session of the slot is logged in, and no other session changes. */
  lemma LoginOutcome(s: State, h: nat, who: UserType, pinLen: nat, env: LoginEnv, j: nat)
    requires SessionInv(s) && s.initialized && ValidHandle(s, h) && j < |s.sessions|
    ensures
      var session, (s', rv) := s.sessions[h - 1], DoLogIn(s, h, who, pinLen, env);
      && (rv == AlreadyLoggedIn <==> session.login != Public && (session.login == So <==> who == CkuSo))
      && (rv == AnotherLoggedIn <==> session.login != Public && (session.login == So <==> who != CkuSo))
      && (session.login != Public ==> s' == s)
      && (rv == ReadOnlyExistsRv <==>
            session.login == Public && who == CkuSo && ReadOnlyExists(s.sessions, session.slot))
      && (rv != RvOk ==> s'.sessions == s.sessions)
      && (rv == RvOk ==>
            if On(s.sessions[j], session.slot) then
              s'.sessions[j] == WithLogin(s.sessions[j], if who == CkuSo then So else User)
            else s'.sessions[j] == s.sessions[j])
  {
    hide LoadToken, Consistent, ReadOnlyExists, SlotLogin;
    SlotLoginIsOwn(s, h);
    var slot := s.sessions[h - 1].slot;
    LoadTokenFrame(s, slot, pinLen, env);
    LoadTokenCodes(s, slot, pinLen, env);
  }

  lemma LoadTokenCodes(s: State, slot: nat, pinLen: nat, env: LoginEnv)
    requires slot < |s.slots|
    ensures LoadToken(s, slot, pinLen, env).1 !in {AlreadyLoggedIn, AnotherLoggedIn, ReadOnlyExistsRv}
  {
    hide AddPiv, AddSoft, AddKeystore, ClearKeys;
  }

  // -------------------------------------------------------------- login, then logout

  /** A user login to this token loads something; the others are a soft token without a
      file and USB tokens of other kinds. */
  predicate Loads(t: Slot) {
    t.proto == PivProto || t.path != ""
  }

  /** The key table without the slot's objects of one backend. */
  function Without(objs: seq<KeyObj>, slot: nat, backend: Backend): (r: seq<KeyObj>)
    ensures |r| == |objs|
    ensures forall i | 0 <= i < |objs| :: r[i] == if Belongs(objs[i], slot, backend) then ZERO_KEY else objs[i]
  {
    seq(|objs|, i requires 0 <= i < |objs| => if Belongs(objs[i], slot, backend) then ZERO_KEY else objs[i])
  }

  /** What is left of the key table once the slot has been logged in to and out of. */
  function Remaining(s: State, slot: nat): seq<KeyObj>
    requires slot < |s.slots|
  {
    if Loads(s.slots[slot]) then Without(s.keys.objs, slot, LoginBackend(s, slot)) else s.keys.objs
  }

  /** None of the objects that a logout of this slot clears is there yet. */
  predicate NothingToClear(s: State, slot: nat)
    requires slot < |s.slots|
  {
    Loads(s.slots[slot]) ==>
      forall i | 0 <= i < |s.keys.objs| :: !Belongs(s.keys.objs[i], slot, LoginBackend(s, slot))
  }

  /** The same objects are in use. */
  ghost predicate SameLive(objs: seq<KeyObj>, objs': seq<KeyObj>) {
    |objs'| == |objs| && forall i | 0 <= i < |objs| :: objs'[i] == objs[i] || (!objs[i].inUse && !objs'[i].inUse)
  }

  lemma ClearingUndoesGrowth(objs: seq<KeyObj>, k1: Keys, slot: nat, backend: Backend)
    requires Grown(objs, k1.objs, slot, backend)
    ensures SameLive(Without(objs, slot, backend), ClearKeys(k1, 0, slot, backend).objs)
  {}

  predicate LoadsKeystore(t: Slot) {
    t.proto != PivProto && t.proto != SoftProto && t.path != ""
  }

  function AfterLoad(t: Slot, ks: nat): Slot {
    if t.proto == PivProto then t.(ccid := true) else if LoadsKeystore(t) then t.(keystore := Some(ks)) else t
  }

  /** `s1` differs from `s` by what a successful user login loads. */
  ghost predicate LoadedFrom(s: State, s1: State, slot: nat)
    requires slot < |s.slots|
  {
    var t := s.slots[slot];
    && s1.slots == s.slots[slot := AfterLoad(t, s.nextKs)] && s1.freed == s.freed
    && Grown(s.keys.objs, s1.keys.objs, slot, LoginBackend(s, slot))
    && (t.path == "" && t.proto != PivProto ==> s1.keys == s.keys)
  }

  lemma LoadingLoads(s: State, slot: nat, pinLen: nat, env: LoginEnv)
    requires slot < |s.slots| && LoadToken(s, slot, pinLen, env).1 == RvOk
    requires s.slots[slot].proto == PivProto ==> s.slots[slot].path == ""
    ensures LoadedFrom(s, LoadToken(s, slot, pinLen, env).0, slot)
  {
    hide AddPiv, AddSoft, AddKeystore, ClearKeys, Grown, LoadFallsShort;
    LoadFallsShortIff(s, slot, pinLen, env);
    LoadTokenKeys(s, slot, pinLen, env);
    assert s.slots[slot := s.slots[slot]] == s.slots;
  }

  /** A slot with nothing loaded. */
  function Emptied(t: Slot): Slot {
    t.(keystore := None, ccid := t.proto != PivProto && t.ccid)
  }

  lemma UnloadingUndoesLoading(s: State, s1: State, slot: nat)
    requires slot < |s.slots| && s.slots[slot].inUse && Shaped(s.slots, true) && LoadedFrom(s, s1, slot)
    ensures
      var s2, t := UnloadToken(s1, slot), s.slots[slot];
      && s2.slots == s.slots[slot := Emptied(t)] && SameLive(Remaining(s, slot), s2.keys.objs)
      && s2.freed == if LoadsKeystore(t) then s.freed + {s.nextKs} else s.freed
  {
    hide ClearKeys, Shaped, Grown, SameLive, Without;
    PivHasNoPath(s.(initialized := true), slot);
    KeystoresAreFlash(s.(initialized := true), slot);
    PathsArePresent(s, slot);
    ClearingUndoesGrowth(s.keys.objs, s1.keys, slot, LoginBackend(s, slot));
    SameAsItself(s.keys.objs);
  }

  /** A keystore slot has a path. */
  lemma PathsArePresent(s: State, slot: nat)
    requires slot < |s.slots| && s.slots[slot].inUse && Shaped(s.slots, true)
    ensures s.slots[slot].proto == FlashProto ==> s.slots[slot].path != ""
  {}

  lemma SameAsItself(objs: seq<KeyObj>)
    ensures SameLive(objs, objs)
  {}

  lemma LogoutOfLogin(ss: seq<Session>, slot: nat)
    ensures SetLogout(SetLogin(ss, slot, User), slot) == SetLogout(ss, slot)
  {}

  /** C_Login as the user, then C_Logout, on one session. */
  ghost function LogInAndOut(s: State, h: nat, pinLen: nat, env: LoginEnv): (State, Rv)
    requires SessionInv(s)
  {
    LogInKeeps(s, h, CkuUser, pinLen, env);
    DoLogOut(DoLogIn(s, h, CkuUser, pinLen, env).0, h)
  }

  /** A successful user login and a logout together: nothing is loaded for the slot any
      more, the objects in use are those that were in use before, less those of the slot's
      token, all sessions of the slot are public with no operation active, the sessions of
      other slots are as they were, and a keystore that this login loaded has been freed. */
  lemma LogoutAfterLogin(s: State, h: nat, pinLen: nat, env: LoginEnv)
    requires SessionInv(s) && Shaped(s.slots, s.initialized) && s.initialized && ValidHandle(s, h)
    requires DoLogIn(s, h, CkuUser, pinLen, env).1 == RvOk
    ensures
      var slot := s.sessions[h - 1].slot;
      var (s2, rv) := LogInAndOut(s, h, pinLen, env);
      && rv == RvOk && s2.slots == s.slots[slot := Emptied(s.slots[slot])]
      && SameLive(Remaining(s, slot), s2.keys.objs)
      && s2.sessions == SetLogout(s.sessions, slot)
      && s2.freed == if LoadsKeystore(s.slots[slot]) then s.freed + {s.nextKs} else s.freed
  {
    hide LoadToken, UnloadToken, Consistent, Shaped, SlotLogin, SameLive, LoadedFrom, Remaining;
    var slot := s.sessions[h - 1].slot;
    SessionSlotInUse(s, h);
    PivHasNoPath(s, slot);
    SlotLoginIsOwn(s, h);
    LoadingLoads(s, slot, pinLen, env);
    LoadTokenFrame(s, slot, pinLen, env);
    var s1 := LoadToken(s, slot, pinLen, env).0;
    UnloadTokenFrame(s1, slot);
    UnloadingUndoesLoading(s, s1, slot);
    UnloadIgnoresSessions(s1, SetLogin(s1.sessions, slot, User), slot);
    LogoutOfLogin(s.sessions, slot);
  }

  lemma SessionSlotInUse(s: State, h: nat)
    requires SessionInv(s) && s.initialized && ValidHandle(s, h)
    ensures s.slots[s.sessions[h - 1].slot].inUse
  {}

  /** So the logout gives back the slot table exactly when nothing was loaded for the
      slot, and the objects in use exactly when the token had none that a logout clears.
      A soft token without a file keeps its generated keys; a token left loaded by closing
      its last session does not keep its objects. */
  lemma LogoutUndoesLoginIff(s: State, h: nat, pinLen: nat, env: LoginEnv)
    requires SessionInv(s) && Shaped(s.slots, s.initialized) && s.initialized && ValidHandle(s, h)
    requires DoLogIn(s, h, CkuUser, pinLen, env).1 == RvOk
    ensures
      var slot := s.sessions[h - 1].slot;
      var t, s2 := s.slots[slot], LogInAndOut(s, h, pinLen, env).0;
      && (s2.slots == s.slots <==> t.keystore.None? && (t.proto == PivProto ==> !t.ccid))
      && (SameLive(s.keys.objs, s2.keys.objs) <==> NothingToClear(s, slot))
  {
    hide DoLogIn, LogInAndOut, Consistent, Shaped;
    LogoutAfterLogin(s, h, pinLen, env);
    var slot := s.sessions[h - 1].slot;
    var t := s.slots[slot];
    var s2 := LogInAndOut(s, h, pinLen, env).0;
    assert s.slots[slot := t] == s.slots;
    assert s2.slots[slot] == Emptied(t);
    SameLiveIff(s, s2.keys.objs, slot);
  }

  lemma SameLiveIff(s: State, objs': seq<KeyObj>, slot: nat)
    requires slot < |s.slots| && SameLive(Remaining(s, slot), objs')
    ensures SameLive(s.keys.objs, objs') <==> NothingToClear(s, slot)
  {}

  lemma UnloadIgnoresSessions(s: State, ss: seq<Session>, slot: nat)
    requires slot < |s.slots|
    ensures UnloadToken(s.(sessions := ss), slot) == UnloadToken(s, slot).(sessions := ss)
  {
    hide ClearKeys;
  }

  // -------------------------------------------------------------------------- C_*Init

  /** The object may be used for an operation of this kind by this session, as far as the
      key handle, certificates and the login go. */
  predicate Usable(s: State, h: nat, kind: Kind, key: nat)
    requires ValidHandle(s, h)
  {
    && ValidKey(s, key) && (kind == Encrypt || !IsCertificate(s.keys.objs[key - 1]))
    && (s.sessions[h - 1].login != Public || !s.keys.objs[key - 1].isPrivate)
  }

  /** An operation of the kind is running, and the call leaves it alone: always, except
      that C_DecryptInit does so only if the object is usable. */
  predicate LeftRunning(s: State, h: nat, kind: Kind, key: nat)
    requires ValidHandle(s, h)
  {
    s.sessions[h - 1].Get(kind).active && (kind == Decrypt ==> Usable(s, h, kind, key))
  }

  /** The outcome of C_SignInit, C_VerifyInit, C_EncryptInit and C_DecryptInit from the
      state before the call. A call succeeds exactly when no operation of the kind is
      running, the object is usable and the mechanism admissible; it reports a running
      operation exactly when it leaves it running; and in every other case no operation of
      the kind is running afterwards. */
  lemma BeginOutcome(s: State, h: nat, kind: Kind, key: nat, admissible: bool)
    requires s.initialized && ValidHandle(s, h)
    ensures
      var session, (s', rv) := s.sessions[h - 1], DoBegin(s, h, kind, key, admissible);
      && (rv == RvOk <==> !session.Get(kind).active && Usable(s, h, kind, key) && admissible)
      && (rv == OperationActive <==> LeftRunning(s, h, kind, key))
      && (LeftRunning(s, h, kind, key) ==> s' == s)
      && (s'.sessions[h - 1].Get(kind).active <==> rv == RvOk || LeftRunning(s, h, kind, key))
      && (rv == RvOk ==> s'.sessions[h - 1].Get(kind).key == key)
  {}

  /** No other operation, no other session and no table but that of the sessions is
      touched; and a call that does not succeed changes nothing at all unless it is the
      C_DecryptInit that ends a decryption. */
  lemma BeginFrame(s: State, h: nat, kind: Kind, key: nat, admissible: bool, j: nat, other: Kind)
    requires s.initialized && ValidHandle(s, h) && j < |s.sessions|
    ensures
      var session, s' := s.sessions[h - 1], DoBegin(s, h, kind, key, admissible).0;
      && s' == s.(sessions := s'.sessions) && |s'.sessions| == |s.sessions|
      && (j != h - 1 ==> s'.sessions[j] == s.sessions[j])
      && (other != kind ==> s'.sessions[h - 1].Get(other) == session.Get(other))
      && (!(Usable(s, h, kind, key) && admissible) && !(kind == Decrypt && session.Get(kind).active) ==> s' == s)
  {
    var session := s.sessions[h - 1];
    if !session.Get(kind).active {
      assert session.Set(kind, session.Get(kind)) == session;
      assert s.sessions[h - 1 := session] == s.sessions;
    }
  }

  /** A running decryption survives another C_DecryptInit if and only if the key handle is
      that of a live object, no certificate, and not private without a login: the three
      checks that come before the one for a running operation. */
  lemma DecryptionSurvivesIff(s: State, h: nat, key: nat, admissible: bool)
    requires s.initialized && ValidHandle(s, h) && s.sessions[h - 1].decrypt.active
    ensures DoBegin(s, h, Decrypt, key, admissible).0.sessions[h - 1].decrypt.active <==>
      && ValidKey(s, key) && !IsCertificate(s.keys.objs[key - 1])
      && (s.sessions[h - 1].login != Public || !s.keys.objs[key - 1].isPrivate)
  {
    BeginOutcome(s, h, Decrypt, key, admissible);
    var s' := DoBegin(s, h, Decrypt, key, admissible).0;
    assert s'.sessions[h - 1].Get(Decrypt) == s'.sessions[h - 1].decrypt;
  }

  // ------------------------------------------------------------ which objects are private

  /** The objects that a login loads from a keystore token are private. Those of a PIV
      card or of the soft token's keystore are private exactly when the record that they
      took over was marked so by the object that used it before. */
  lemma LoadedObjectIsPrivateIff(s: State, h: nat, pinLen: nat, env: LoginEnv, i: nat)
    requires SessionInv(s) && Shaped(s.slots, s.initialized) && s.initialized && ValidHandle(s, h)
    requires DoLogIn(s, h, CkuUser, pinLen, env).1 == RvOk
    requires i < |s.keys.objs| && !s.keys.objs[i].inUse
    ensures
      var slot := s.sessions[h - 1].slot;
      var o := DoLogIn(s, h, CkuUser, pinLen, env).0.keys.objs;
      && |o| == |s.keys.objs|
      && (o[i].inUse ==>
            o[i].slot == slot && (o[i].isPrivate <==> LoginBackend(s, slot) == KeystoreOps || s.keys.objs[i].isPrivate))
  {
    hide LoadToken, Consistent, Shaped, SlotLogin, LoadFallsShort;
    var slot := s.sessions[h - 1].slot;
    PivHasNoPath(s, slot);
    LoadFallsShortIff(s, slot, pinLen, env);
    LoadTokenKeys(s, slot, pinLen, env);
  }

  /** So the first key of a PIV card is not private when its record was never used. */
  lemma PivKeyIsNotPrivate(k: Keys, slot: nat)
    requires |k.objs| > 0 && k.objs[0] == ZERO_KEY
    ensures
      var o := AddPiv(k, slot, PivKey, 4).0.objs[0];
      Belongs(o, slot, UsbOps) && o.priv == PivKey && !o.isPrivate
  {
    var k1 := k.(objs := k.objs[0 := Claimed(ZERO_KEY, slot, UsbOps, PivKey)]);
    assert FreeKey(k.objs, 0) == 0;
    AddPivGrows(k1, slot, PivKey, 3);
  }

  // ------------------------------------------------------------------ memory is given back

  lemma {:induction false} SameHolders(a: seq<KeyObj>, b: seq<KeyObj>, id: nat)
    requires SameLive(a, b)
    ensures O.Holders(a, id) == O.Holders(b, id)
    decreases |a|
  {
    if a != [] {
      assert SameLive(a[1..], b[1..]);
      SameHolders(a[1..], b[1..], id);
    }
  }

  /** After a login and a logout exactly the soft keys of the remaining objects are alive;
      if the token had nothing to clear, those that were alive before. */
  lemma LogoutLeavesNoSoftKey(s: State, h: nat, pinLen: nat, env: LoginEnv, id: nat)
    requires SessionInv(s) && Shaped(s.slots, s.initialized) && s.initialized && ValidHandle(s, h)
    requires O.OwnInv(s) && DoLogIn(s, h, CkuUser, pinLen, env).1 == RvOk
    ensures
      var slot := s.sessions[h - 1].slot;
      var refs := LogInAndOut(s, h, pinLen, env).0.keys.refs;
      && (id in refs <==> O.Holders(Remaining(s, slot), id) > 0)
      && (NothingToClear(s, slot) ==> (id in refs <==> id in s.keys.refs))
  {
    hide DoLogIn, DoLogOut, Consistent, Shaped, SameLive, Without;
    var s1 := DoLogIn(s, h, CkuUser, pinLen, env).0;
    var slot := s.sessions[h - 1].slot;
    LogInKeeps(s, h, CkuUser, pinLen, env);
    O.LogInKeepsOwned(s, h, CkuUser, pinLen, env);
    O.LogOutKeepsOwned(s1, h);
    LogoutAfterLogin(s, h, pinLen, env);
    SameHolders(Remaining(s, slot), LogInAndOut(s, h, pinLen, env).0.keys.objs, id);
    if NothingToClear(s, slot) {
      NothingCleared(s, slot);
    }
  }

  lemma NothingCleared(s: State, slot: nat)
    requires slot < |s.slots| && NothingToClear(s, slot)
    ensures Remaining(s, slot) == s.keys.objs
  {}

  function Gone(o: KeyObj): KeyObj {
    o.(inUse := false, priv := NoPriv)
  }

  lemma DroppingBothOfPair(k: Keys, slot: nat, isPrivate: bool, pub: nat, priv: nat, a: nat, b: nat)
    requires O.SoftKeysOwned(k) && pub < priv < |k.objs| && !k.objs[pub].inUse && !k.objs[priv].inUse
    requires (a, b) == (pub, priv) || (a, b) == (priv, pub)
    ensures
      var k1 := AddPair(k, slot, isPrivate, pub, priv);
      var k2 := Drop(k1, a, Gone(k1.objs[a]));
      var k3 := Drop(k2, b, Gone(k2.objs[b]));
      && k1.objs[a].inUse && k1.objs[a].slot == slot && k2.objs[b].inUse && k2.objs[b].slot == slot
      && k2.released == k.released && k3.released == k.released + [k.next]
      && k3.refs == k.refs && SameLive(k.objs, k3.objs)
  {
    hide O.Holders;
    var id := k.next;
    assert id !in k.refs;
    assert k.refs[id := 2][id := 1] - {id} == k.refs;
  }

  lemma DestroyingOne(s: State, h: nat, key: nat)
    requires s.initialized && ValidHandle(s, h) && ValidKey(s, key)
    requires s.keys.objs[key - 1].slot == s.sessions[h - 1].slot
    ensures
      var (s', rv) := DoDestroy(s, h, key);
      && rv == RvOk && s'.keys == Drop(s.keys, key - 1, Gone(s.keys.objs[key - 1]))
      && s'.initialized && ValidHandle(s', h) && s'.sessions[h - 1].slot == s.sessions[h - 1].slot
  {
    hide FreePriv;
  }

  lemma GeneratingOne(s: State, h: nat, isPrivate: bool)
    requires SlotsInTable(s) && DoGenerate(s, h, isPrivate, true, true).1 == RvOk
    ensures
      var pub := FreeKey(s.keys.objs, 0);
      && s.initialized && ValidHandle(s, h) && pub < |s.keys.objs|
      && var priv := FreeKey(s.keys.objs, pub + 1);
      && pub < priv < |s.keys.objs| && !s.keys.objs[pub].inUse && !s.keys.objs[priv].inUse
      && DoGenerate(s, h, isPrivate, true, true).0 ==
           s.(keys := AddPair(s.keys, s.sessions[h - 1].slot, isPrivate, pub, priv))
  {
    hide AddPair;
  }

  /** Destroying both objects of a generated pair, in either order, gives back what the
      generation took: the first keeps the shared key alive, the second releases it. */
  lemma DestroyUndoesGenerate(s: State, h: nat, isPrivate: bool, publicFirst: bool)
    requires SlotsInTable(s) && O.SoftKeysOwned(s.keys)
    requires DoGenerate(s, h, isPrivate, true, true).1 == RvOk
    ensures
      var pub := FreeKey(s.keys.objs, 0);
      var priv := FreeKey(s.keys.objs, pub + 1);
      var s1 := DoGenerate(s, h, isPrivate, true, true).0;
      var (s2, rv2) := DoDestroy(s1, h, if publicFirst then pub + 1 else priv + 1);
      var (s3, rv3) := DoDestroy(s2, h, if publicFirst then priv + 1 else pub + 1);
      && rv2 == RvOk && rv3 == RvOk
      && s2.keys.released == s.keys.released
      && s3.keys.released == s.keys.released + [s.keys.next]
      && s3.keys.refs == s.keys.refs && SameLive(s.keys.objs, s3.keys.objs)
  {
    hide O.SoftKeysOwned, SameLive, AddPair, Drop, Gone, DoDestroy, DoGenerate, FreeKey, SlotsInTable;
    GeneratingOne(s, h, isPrivate);
    var pub := FreeKey(s.keys.objs, 0);
    var priv := FreeKey(s.keys.objs, pub + 1);
    var a, b := if publicFirst then pub else priv, if publicFirst then priv else pub;
    DroppingBothOfPair(s.keys, s.sessions[h - 1].slot, isPrivate, pub, priv, a, b);
    var s1 := DoGenerate(s, h, isPrivate, true, true).0;
    DestroyingOne(s1, h, a + 1);
    DestroyingOne(DoDestroy(s1, h, a + 1).0, h, b + 1);
  }
}
