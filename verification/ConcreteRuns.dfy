/** Three runs, worked out state by state, in which something does not hold that one might
    expect: a running decryption is lost to a bad handle; a PIV card's key is used without
    a login; a keystore is never freed. */
module ConcreteRuns {
  import opened Bytes
  import opened Tables
  import opened TableOps
  import opened SessionLaws
  import opened LivenessLaws
  import opened ApiLaws
  import opened CrossSlotRun

  const NO_LOAD := LoginEnv(None, PivDevice, LoadIoError)

  lemma Opens(s: State, slot: nat, s': State)
    requires s.initialized && |s.sessions| == 1 && s.sessions[0] == ZERO_SESSION
    requires ValidSlot(s, slot) && s.slots[slot].present
    requires s' == s.(sessions := [OPENED.(slot := slot)])
    ensures Step(s, OpenSession(slot, true, true)) == s'
  {
    assert SlotLogin(s.sessions, slot, 0) == Public && FreeSession(s.sessions, 0) == 0;
    assert s.sessions[0 := OPENED.(slot := slot)] == [OPENED.(slot := slot)];
  }

  const OPENED := ZERO_SESSION.(inUse := true, rw := true, state := RwPublic)

  // ------------------------------------------------------------ a decryption is lost

  const DECRYPT_RUN := [
    Initialize(""), OpenSession(0, true, true), GenerateKeyPair(1, false, true, true), Begin(1, Decrypt, 2, true),
    Begin(1, Decrypt, 0, true)]

  const HALF := KeyObj(true, 0, SoftOps, SoftKey(0), false)
  const DECRYPTING := OPENED.(decrypt := Op(true, 2))

  function SoftState(session: Session, keys: Keys): State {
    State(true, [session], keys, [SOFT], {}, 0)
  }

  const NO_PAIR := Keys([ZERO_KEY, ZERO_KEY], map[], [], 0)
  const PAIR := Keys([HALF, HALF], map[0 := 2], [], 1)
  const D1 := SoftState(ZERO_SESSION, NO_PAIR)
  const D2 := SoftState(OPENED, NO_PAIR)
  const D3 := SoftState(OPENED, PAIR)
  const D4 := SoftState(DECRYPTING, PAIR)
  const D5 := SoftState(DECRYPTING.(decrypt := Op(false, 2)), PAIR)

  lemma PairIsGenerated()
    ensures Step(Fresh(1, 2, 1), DECRYPT_RUN[0]) == D1 && Step(D1, DECRYPT_RUN[1]) == D2
    ensures Step(D2, DECRYPT_RUN[2]) == D3
  {
    assert Step(Fresh(1, 2, 1), DECRYPT_RUN[0]) == D1;
    Opens(D1, 0, D2);
    assert FreeKey(NO_PAIR.objs, 0) == 0 && FreeKey(NO_PAIR.objs, 1) == 1;
    assert NO_PAIR.objs[0 := HALF][1 := HALF] == PAIR.objs;
    assert AddPair(NO_PAIR, 0, false, 0, 1) == PAIR;
  }

  lemma DecryptionEnds()
    ensures Step(D3, DECRYPT_RUN[3]) == D4 && Step(D4, DECRYPT_RUN[4]) == D5
    ensures DoBegin(D4, 1, Decrypt, 0, true) == (D5, KeyHandleInvalid)
  {
    assert D3.sessions[0 := DECRYPTING] == D4.sessions;
    assert D4.sessions[0 := DECRYPTING.(decrypt := Op(false, 2))] == D5.sessions;
  }

  /** After four calls a decryption is running; a fifth, C_DecryptInit with handle 0, is
      refused and ends it. */
  lemma BadHandleEndsDecryption()
    ensures
      var s, s' := Reach(1, 2, 1, DECRYPT_RUN[..4]), Reach(1, 2, 1, DECRYPT_RUN);
      && s.initialized && ValidHandle(s, 1) && s.sessions[0].decrypt.active
      && DoBegin(s, 1, Decrypt, 0, true) == (s', KeyHandleInvalid) && !s'.sessions[0].decrypt.active
  {
    hide Step, SessionInv, DoBegin;
    FreshIsConsistent(1, 2, 1);
    PairIsGenerated();
    DecryptionEnds();
    var calls := DECRYPT_RUN[..4];
    RunStep(Fresh(1, 2, 1), calls, D1);
    RunStep(D1, calls[1..], D2);
    RunStep(D2, calls[2..], D3);
    RunStep(D3, calls[3..], D4);
    RunStep(Fresh(1, 2, 1), DECRYPT_RUN, D1);
    RunStep(D1, DECRYPT_RUN[1..], D2);
    RunStep(D2, DECRYPT_RUN[2..], D3);
    RunStep(D3, DECRYPT_RUN[3..], D4);
    RunStep(D4, DECRYPT_RUN[4..], D5);
  }

  // ------------------------------------------------- a PIV key is used without a login

  const CARD_ENV := LoginEnv(None, PivOpen(0), LoadIoError)

  const PIV_RUN := [
    Initialize(""), UsbArrival(1, 1, Some(PivCard)), OpenSession(1, true, true), LogIn(1, CkuUser, 6, CARD_ENV),
    CloseSession(1), OpenSession(1, true, true), Begin(1, Sign, 1, true)]

  const CARD := ZERO_SLOT.(inUse := true, present := true, vid := 1, pid := 1, proto := PivProto)
  const ON_CARD := OPENED.(slot := 1)
  const CARD_KEY := KeyObj(true, 1, UsbOps, PivKey, false)

  function CardState(session: Session, objs: seq<KeyObj>, card: Slot): State {
    State(true, [session], Keys(objs, map[], [], 0), [SOFT, card], {}, 0)
  }

  const NO_KEYS := [ZERO_KEY, ZERO_KEY, ZERO_KEY, ZERO_KEY]
  const CARD_KEYS := [CARD_KEY, CARD_KEY, CARD_KEY, CARD_KEY]
  const OPEN_CARD := CARD.(ccid := true)
  const P1 := CardState(ZERO_SESSION, NO_KEYS, ZERO_SLOT)
  const P2 := CardState(ZERO_SESSION, NO_KEYS, CARD)
  const P3 := CardState(ON_CARD, NO_KEYS, CARD)
  const P4 := CardState(WithLogin(ON_CARD, User), CARD_KEYS, OPEN_CARD)
  const P5 := CardState(ZERO_SESSION, CARD_KEYS, OPEN_CARD)
  const P6 := CardState(ON_CARD, CARD_KEYS, OPEN_CARD)
  const P7 := CardState(ON_CARD.(sign := Op(true, 1)), CARD_KEYS, OPEN_CARD)

  lemma CardArrives()
    ensures Step(Fresh(1, 4, 2), PIV_RUN[0]) == P1 && Step(P1, PIV_RUN[1]) == P2
  {
    assert Step(Fresh(1, 4, 2), PIV_RUN[0]) == P1;
    assert Find(P1.slots, ByUsb(1, 1), 1) == 2 && Find(P1.slots, Unused, 1) == 1;
    assert P1.slots[1 := CARD] == P2.slots;
  }

  /** One of the four keys of the card. */
  lemma OneMoreKey(objs: seq<KeyObj>, objs': seq<KeyObj>, i: nat, n: nat)
    requires n > 0 && i < |objs| && FreeKey(objs, 0) == i && objs[i] == ZERO_KEY && objs' == objs[i := CARD_KEY]
    ensures AddPiv(Keys(objs, map[], [], 0), 1, PivKey, n) == AddPiv(Keys(objs', map[], [], 0), 1, PivKey, n - 1)
  {}

  lemma CardLoads()
    ensures AddPiv(P3.keys, 1, PivKey, 4) == (P4.keys, 0)
  {
    var a, b := [CARD_KEY, ZERO_KEY, ZERO_KEY, ZERO_KEY], [CARD_KEY, CARD_KEY, ZERO_KEY, ZERO_KEY];
    var c := [CARD_KEY, CARD_KEY, CARD_KEY, ZERO_KEY];
    assert FreeKey(a, 1) == 1 && FreeKey(b, 1) == FreeKey(b, 2) == 2;
    assert FreeKey(c, 1) == FreeKey(c, 2) == FreeKey(c, 3) == 3;
    OneMoreKey(NO_KEYS, a, 0, 4);
    OneMoreKey(a, b, 1, 3);
    OneMoreKey(b, c, 2, 2);
    OneMoreKey(c, CARD_KEYS, 3, 1);
  }

  lemma CardLogin()
    ensures Step(P3, PIV_RUN[3]) == P4
  {
    CardLoads();
    assert SlotLogin(P3.sessions, 1, 0) == Public;
    var s1 := P4.(sessions := P3.sessions);
    assert P3.slots[1 := OPEN_CARD] == P4.slots;
    assert LoginPiv(P3, 1, 6, PivOpen(0)) == (s1, RvOk) by {
      hide AddPiv;
      NoneToAdd();
    }
    assert LoadToken(P3, 1, 6, CARD_ENV) == (s1, RvOk);
    assert SetLogin(P3.sessions, 1, User) == P4.sessions;
  }

  lemma NoneToAdd()
    ensures AddPiv(P4.keys, 1, NoPriv, 0) == (P4.keys, 0)
  {}

  lemma CloseOpenSign()
    ensures Step(P2, PIV_RUN[2]) == P3 && Step(P4, PIV_RUN[4]) == P5
    ensures Step(P5, PIV_RUN[5]) == P6 && Step(P6, PIV_RUN[6]) == P7
  {
    Opens(P2, 1, P3);
    assert P4.sessions[0 := ZERO_SESSION] == P5.sessions;
    Opens(P5, 1, P6);
    assert P6.sessions[0 := ON_CARD.(sign := Op(true, 1))] == P7.sessions;
  }

  /** The keys that a PIV login creates are not private; they outlive the session; and a
      new session signs with one without logging in. */
  lemma PivKeyNeedsNoLogin()
    ensures
      var s, s' := Reach(1, 4, 2, PIV_RUN[..4]), Reach(1, 4, 2, PIV_RUN);
      && s.initialized && |s.keys.objs| == 4 && Belongs(s.keys.objs[0], 1, UsbOps)
      && s.keys.objs[0].priv == PivKey && !s.keys.objs[0].isPrivate
      && ValidHandle(s', 1) && s'.sessions[0].login == Public
      && s'.sessions[0].sign == Op(true, 1) && s'.keys == s.keys
  {
    hide Step, SessionInv;
    FreshIsConsistent(1, 4, 2);
    CardArrives();
    CardLogin();
    CloseOpenSign();
    var calls := PIV_RUN[..4];
    RunStep(Fresh(1, 4, 2), calls, P1);
    RunStep(P1, calls[1..], P2);
    RunStep(P2, calls[2..], P3);
    RunStep(P3, calls[3..], P4);
    RunStep(Fresh(1, 4, 2), PIV_RUN, P1);
    RunStep(P1, PIV_RUN[1..], P2);
    RunStep(P2, PIV_RUN[2..], P3);
    RunStep(P3, PIV_RUN[3..], P4);
    RunStep(P4, PIV_RUN[4..], P5);
    RunStep(P5, PIV_RUN[5..], P6);
    RunStep(P6, PIV_RUN[6..], P7);
  }

  // --------------------------------------------------------- a keystore is never freed

  const LOST_RUN := [
    Initialize(""), FileArrival(FILE), OpenSession(1, true, true), LogIn(1, CkuUser, 4, ENV), CloseSession(1),
    OpenSession(1, true, true), LogIn(1, CkuUser, 4, ENV), Finalize]

  const SECOND := KEY.(priv := KeystoreEntry(1))

  function FileState(session: Session, objs: seq<KeyObj>, token: Slot, nextKs: nat): State {
    State(true, [session], Keys(objs, map[], [], 0), [SOFT, token], {}, nextKs)
  }

  const TWO_FREE := [ZERO_KEY, ZERO_KEY]
  const F1 := FileState(ZERO_SESSION, TWO_FREE, ZERO_SLOT, 0)
  const F2 := FileState(ZERO_SESSION, TWO_FREE, TOKEN, 0)
  const F3 := FileState(ON_CARD, TWO_FREE, TOKEN, 0)
  const F4 := FileState(WithLogin(ON_CARD, User), [KEY, ZERO_KEY], LOADED, 1)
  const F5 := FileState(ZERO_SESSION, [KEY, ZERO_KEY], LOADED, 1)
  const F6 := FileState(ON_CARD, [KEY, ZERO_KEY], LOADED, 1)
  const F7 := FileState(WithLogin(ON_CARD, User), [KEY, SECOND], TOKEN.(keystore := Some(1)), 2)

  lemma FileArrives()
    ensures Step(Fresh(1, 2, 2), LOST_RUN[0]) == F1 && Step(F1, LOST_RUN[1]) == F2
  {
    assert Step(Fresh(1, 2, 2), LOST_RUN[0]) == F1;
    assert Find(F1.slots, ByPath(FILE), 1) == 2 && Find(F1.slots, Unused, 1) == 1;
    assert F1.slots[1 := TOKEN] == F2.slots;
  }

  lemma FirstLogin()
    ensures Step(F3, LOST_RUN[3]) == F4
  {
    var k := F3.keys;
    assert SlotLogin(F3.sessions, 1, 0) == Public;
    assert FreeKey(k.objs, 0) == 0 && k.objs[0 := KEY] == F4.keys.objs;
    assert AddKeystore(k, 1, 0, 1) == (F4.keys, 0);
    assert F3.slots[1 := LOADED] == F4.slots;
    assert LoadToken(F3, 1, 4, ENV) == (F4.(sessions := F3.sessions), RvOk);
    assert SetLogin(F3.sessions, 1, User) == F4.sessions;
  }

  lemma SecondLogin()
    ensures Step(F6, LOST_RUN[6]) == F7
  {
    var k := F6.keys;
    assert SlotLogin(F6.sessions, 1, 0) == Public;
    assert FreeKey(k.objs, 0) == FreeKey(k.objs, 1) == 1 && k.objs[1 := SECOND] == F7.keys.objs;
    assert AddKeystore(k, 1, 1, 1) == (F7.keys, 0);
    assert F6.slots[1 := TOKEN.(keystore := Some(1))] == F7.slots;
    assert LoadToken(F6, 1, 4, ENV) == (F7.(sessions := F6.sessions), RvOk);
    assert SetLogin(F6.sessions, 1, User) == F7.sessions;
  }

  lemma CloseOpenAgain()
    ensures Step(F2, LOST_RUN[2]) == F3 && Step(F4, LOST_RUN[4]) == F5 && Step(F5, LOST_RUN[5]) == F6
  {
    Opens(F2, 1, F3);
    assert F4.sessions[0 := ZERO_SESSION] == F5.sessions;
    Opens(F5, 1, F6);
  }

  /** Closing the only session and logging in again leaves the first keystore behind: at
      finalize only the second is freed. */
  lemma FirstKeystoreIsLost()
    ensures
      var s := Reach(1, 2, 2, LOST_RUN);
      !s.initialized && s.nextKs == 2 && s.freed == {1}
  {
    hide Step, SessionInv;
    FreshIsConsistent(1, 2, 2);
    FileArrives();
    FirstLogin();
    CloseOpenAgain();
    SecondLogin();
    RunStep(Fresh(1, 2, 2), LOST_RUN, F1);
    RunStep(F1, LOST_RUN[1..], F2);
    RunStep(F2, LOST_RUN[2..], F3);
    RunStep(F3, LOST_RUN[3..], F4);
    RunStep(F4, LOST_RUN[4..], F5);
    RunStep(F5, LOST_RUN[5..], F6);
    RunStep(F6, LOST_RUN[6..], F7);
    RunStep(F7, LOST_RUN[7..], Step(F7, Finalize));
    LastFinalize();
  }

  lemma LastFinalize()
    ensures
      var s := Step(F7, Finalize);
      !s.initialized && s.nextKs == 2 && s.freed == {1}
  {
    hide FreeAllKeys;
    assert F7.slots[1].keystore.value in LoadedKeystores(F7.slots);
  }
}
