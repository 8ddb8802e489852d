/** What each call answers and which records it changes, field by field, read off the state
    before the call. */
module CallOutcomes {
  import opened Bytes
  import opened Tables
  import opened TableOps
  import opened SessionLaws
  import opened SlotLaws
  import opened LivenessLaws

  // -------------------------------------------------------------------- sessions

  ghost predicate LoggedInAs(ss: seq<Session>, slot: nat, login: Login) {
    exists j | 0 <= j < |ss| :: On(ss[j], slot) && ss[j].login == login
  }

  predicate AllInUse(ss: seq<Session>) {
    forall j | 0 <= j < |ss| :: ss[j].inUse
  }

  /** C_OpenSession: its answers in the order of the checks, and the record it writes into
      the first free place. */
  lemma OpenOutcome(s: State, slot: nat, serial: bool, rw: bool)
    requires SessionInv(s)
    ensures
      var (s', rv, h) := DoOpen(s, slot, serial, rw);
      && rv == (
           if !s.initialized then NotInitialized
           else if slot >= |s.slots| || !s.slots[slot].inUse then SlotIdInvalid
           else if !s.slots[slot].present then TokenNotPresent
           else if !serial then ParallelNotSupported
           else if LoggedInAs(s.sessions, slot, So) && !rw then RwSoExists
           else if AllInUse(s.sessions) then SessionCount
           else RvOk)
      && (rv != RvOk ==> s' == s && h == 0)
      && (rv == RvOk ==>
            && 1 <= h <= |s.sessions| && !s.sessions[h - 1].inUse && AllInUse(s.sessions[..h - 1])
            && s' == s.(sessions := s.sessions[h - 1 := OpenedSession(s.sessions, slot, rw)]))
  {
    hide Consistent;
    SlotLoginIs(s, slot);
  }

  ghost function OpenedSession(ss: seq<Session>, slot: nat, rw: bool): Session {
    var none := Op(false, 0);
    if LoggedInAs(ss, slot, So) then Session(true, slot, rw, So, RwSo, none, none, none, none)
    else if LoggedInAs(ss, slot, User) then
      Session(true, slot, rw, User, if rw then RwUser else RoUser, none, none, none, none)
    else Session(true, slot, rw, Public, if rw then RwPublic else RoPublic, none, none, none, none)
  }

  lemma SlotLoginIs(s: State, slot: nat)
    requires SessionInv(s)
    ensures s.initialized ==> forall login | login != Public ::
      LoggedInAs(s.sessions, slot, login) <==> SlotLogin(s.sessions, slot, 0) == login
  {}

  /** Sessions closed: those of the slot are cleared, all others stay. */
  ghost predicate ClosedOn(ss: seq<Session>, ss': seq<Session>, slot: nat) {
    |ss'| == |ss| &&
    forall j | 0 <= j < |ss| ::
      if ss[j].inUse && ss[j].slot == slot then ss'[j] == ZERO_SESSION && !ss'[j].inUse else ss'[j] == ss[j]
  }

  /** C_CloseSession in a loop over the handles from `i` + 1 on, for the sessions of one
      slot. */
  function CloseEach(s: State, slot: nat, i: nat): (r: State)
    requires i <= |s.sessions|
    ensures |r.sessions| == |s.sessions|
    decreases |s.sessions| - i
  {
    if i == |s.sessions| then s
    else CloseEach(if On(s.sessions[i], slot) then DoClose(s, i + 1).0 else s, slot, i + 1)
  }

  lemma {:induction false} CloseEachCloses(s: State, slot: nat, i: nat)
    requires s.initialized && i <= |s.sessions|
    ensures
      var r := CloseEach(s, slot, i);
      && r == s.(sessions := r.sessions) && |r.sessions| == |s.sessions|
      && forall j | 0 <= j < |s.sessions| ::
           r.sessions[j] == if j >= i && On(s.sessions[j], slot) then ZERO_SESSION else s.sessions[j]
    decreases |s.sessions| - i
  {
    if i < |s.sessions| {
      CloseEachCloses(if On(s.sessions[i], slot) then DoClose(s, i + 1).0 else s, slot, i + 1);
    }
  }

  /** C_CloseAllSessions closes every session of the slot and no other, as closing them one
      by one does. */
  lemma CloseAllOutcome(s: State, slot: nat)
    ensures
      var (s', rv) := DoCloseAll(s, slot);
      && rv == (
           if !s.initialized then NotInitialized
           else if slot >= |s.slots| || !s.slots[slot].inUse then SlotIdInvalid
           else RvOk)
      && (rv != RvOk ==> s' == s)
      && (rv == RvOk ==> s' == CloseEach(s, slot, 0) && ClosedOn(s.sessions, s'.sessions, slot))
  {
    if s.initialized {
      CloseEachCloses(s, slot, 0);
      assert CloseEach(s, slot, 0).sessions == ZeroSessions(s.sessions, slot);
    }
  }

  /** C_CloseSession closes that session; the end of an operation clears its flag. */
  lemma CloseOutcome(s: State, h: nat, kind: Kind)
    ensures
      var valid := 1 <= h <= |s.sessions| && s.sessions[h - 1].inUse;
      var (s', rv) := DoClose(s, h);
      var (t', rvEnd) := DoEnd(s, h, kind);
      && rv == rvEnd == (if !s.initialized then NotInitialized else if !valid then SessionHandleInvalid else RvOk)
      && (rv != RvOk ==> s' == s && t' == s)
      && (rv == RvOk ==>
            && s' == s.(sessions := s.sessions[h - 1 := ZERO_SESSION]) && !s'.sessions[h - 1].inUse
            && t' == s.(sessions := s.sessions[h - 1 := t'.sessions[h - 1]])
            && SameButFor(s.sessions[h - 1], t'.sessions[h - 1], kind)
            && !t'.sessions[h - 1].Get(kind).active)
  {}

  /** Two session records that differ in one operation at most. */
  predicate SameButFor(a: Session, b: Session, kind: Kind) {
    && (a.inUse, a.slot, a.rw, a.login, a.state) == (b.inUse, b.slot, b.rw, b.login, b.state)
    && (kind != Sign ==> a.sign == b.sign) && (kind != Verify ==> a.verify == b.verify)
    && (kind != Encrypt ==> a.encrypt == b.encrypt) && (kind != Decrypt ==> a.decrypt == b.decrypt)
  }

  // ----------------------------------------------------------------------- login

  /** A PIV card lets the user in: there is a PIN, the card accepts it, and four key records
      are free. */
  predicate CardServes(t: Slot, pinLen: nat, piv: CardResult, free: nat) {
    t.proto == PivProto ==> pinLen > 0 && piv.PivOpen? && free >= 4
  }

  /** So does a keystore file: the PIN has a usable length, the file loads, all its entries
      fit, and the soft token can import them all. */
  predicate FileServes(t: Slot, pinLen: nat, load: LoadResult, free: nat) {
    t.path != "" ==>
      && 0 < pinLen <= 64 && load.Loaded? && |load.importable| <= free
      && (t.proto == SoftProto ==> false !in load.importable)
  }

  /** What stands between the SO and the slot: a read-only session, or the soft token's
      keystore file, if there is one, that does not load under the PIN. */
  ghost predicate SoMayEnter(s: State, slot: nat, soFile: Option<LoadResult>)
    requires slot < |s.slots|
  {
    && (forall j | 0 <= j < |s.sessions| && On(s.sessions[j], slot) :: s.sessions[j].rw)
    && (s.slots[slot].proto == SoftProto && s.slots[slot].path != "" && soFile.Some? ==> soFile.value.Loaded?)
  }

  /** What a login to a PIV card answers. */
  function CardAnswer(pinLen: nat, piv: CardResult, free: nat): Rv {
    if pinLen == 0 then ArgumentsBad
    else if piv == PivBadPin then PinIncorrect
    else if piv == PivDevice then DeviceError
    else if piv == PivFailed then FunctionFailed
    else if free < 4 then DeviceMemory
    else RvOk
  }

  /** What a login to a token with a keystore file answers. Only the soft token tells a file
      that cannot be read from one that does not load. */
  function FileAnswer(soft: bool, pinLen: nat, load: LoadResult, free: nat): Rv {
    if pinLen == 0 then ArgumentsBad
    else if pinLen > 64 then PinLenRange
    else if load == LoadBadPin then PinIncorrect
    else if load == LoadIoError && soft then PinNotInitialized
    else if !load.Loaded? then FunctionFailed
    else if |load.importable| > free || (soft && false in load.importable) then DeviceMemory
    else RvOk
  }

  lemma LoadAnswers(s: State, slot: nat, pinLen: nat, env: LoginEnv)
    requires slot < |s.slots| && (s.slots[slot].proto == PivProto ==> s.slots[slot].path == "")
    ensures
      var t, free, (s', rv) := s.slots[slot], FreeCount(s.keys.objs), LoadToken(s, slot, pinLen, env);
      && rv == (
           if t.proto == PivProto then CardAnswer(pinLen, env.piv, free)
           else if t.path != "" then FileAnswer(t.proto == SoftProto, pinLen, env.load, free)
           else RvOk)
      && (rv != RvOk && rv != DeviceMemory ==> s' == s)
  {
    hide AddPiv, AddSoft, AddKeystore, ClearKeys, FreeCount;
    AddPivMissing(s.keys, slot, PivKey, 4);
    if env.load.Loaded? {
      AddSoftMissing(s.keys, slot, env.load.importable);
      AddKeystoreMissing(s.keys, slot, s.nextKs, |env.load.importable|);
    }
  }

  /** What the check of the SO's PIN answers. */
  function SoAnswer(t: Slot, soFile: Option<LoadResult>): Rv {
    if t.proto == SoftProto && t.path != "" && soFile == Some(LoadBadPin) then PinIncorrect
    else if t.proto == SoftProto && t.path != "" && soFile.Some? && !soFile.value.Loaded? then FunctionFailed
    else RvOk
  }

  /** Every answer of C_Login. Unless it is CKR_OK or CKR_DEVICE_MEMORY, nothing has changed. */
  lemma LoginAnswers(s: State, h: nat, who: UserType, pinLen: nat, env: LoginEnv)
    requires SessionInv(s) && Shaped(s.slots, s.initialized)
    ensures
      var (s', rv) := DoLogIn(s, h, who, pinLen, env);
      && (rv == NotInitialized <==> !s.initialized)
      && (rv == SessionHandleInvalid <==> s.initialized && !ValidHandle(s, h))
      && (rv != RvOk && rv != DeviceMemory ==> s' == s)
      && (s.initialized && ValidHandle(s, h) ==>
            var session := s.sessions[h - 1];
            var t, free := s.slots[session.slot], FreeCount(s.keys.objs);
            var readOnly := exists j | 0 <= j < |s.sessions| :: On(s.sessions[j], session.slot) && !s.sessions[j].rw;
            rv ==
              if session.login == So then if who == CkuSo then AlreadyLoggedIn else AnotherLoggedIn
              else if session.login == User then if who == CkuSo then AnotherLoggedIn else AlreadyLoggedIn
              else if who == CkuOther then UserTypeInvalid
              else if who == CkuSo then if readOnly then ReadOnlyExistsRv else SoAnswer(t, env.soFile)
              else if t.proto == PivProto then CardAnswer(pinLen, env.piv, free)
              else if t.path != "" then FileAnswer(t.proto == SoftProto, pinLen, env.load, free)
              else RvOk)
  {
    hide LoadToken, SlotLogin, Shaped, Consistent, FreeCount, CardAnswer, FileAnswer;
    if s.initialized && ValidHandle(s, h) {
      SlotLoginIsOwn(s, h);
      PivHasNoPath(s, s.sessions[h - 1].slot);
      LoadAnswers(s, s.sessions[h - 1].slot, pinLen, env);
      LoadedCodes(s, s.sessions[h - 1].slot, pinLen, env);
    }
  }

  lemma LoadedCodes(s: State, slot: nat, pinLen: nat, env: LoginEnv)
    requires slot < |s.slots|
    ensures LoadToken(s, slot, pinLen, env).1 !in {NotInitialized, SessionHandleInvalid}
  {
    hide AddPiv, AddSoft, AddKeystore, ClearKeys;
  }

  /** C_Login succeeds exactly when nobody is logged in on the slot and the SO may enter or
      card and file serve the user. */
  lemma LoginSucceedsIff(s: State, h: nat, who: UserType, pinLen: nat, env: LoginEnv)
    requires SessionInv(s) && Shaped(s.slots, s.initialized) && s.initialized && ValidHandle(s, h)
    ensures
      var session := s.sessions[h - 1];
      var t, free := s.slots[session.slot], FreeCount(s.keys.objs);
      DoLogIn(s, h, who, pinLen, env).1 == RvOk <==>
        && session.login == Public && who != CkuOther
        && (who == CkuSo ==> SoMayEnter(s, session.slot, env.soFile))
        && (who == CkuUser ==> CardServes(t, pinLen, env.piv, free) && FileServes(t, pinLen, env.load, free))
  {
    hide DoLogIn, Shaped, Consistent, FreeCount;
    LoginAnswers(s, h, who, pinLen, env);
    PivHasNoPath(s, s.sessions[h - 1].slot);
  }

  // ---------------------------------------------------------- what a login loads

  /** `n` free records have become objects; the rest of the table stays. */
  ghost predicate Took(objs: seq<KeyObj>, objs': seq<KeyObj>, n: int, made: set<int>) {
    && |objs'| == |objs| && |made| == n && FreeCount(objs') == FreeCount(objs) - n
    && (forall i | i in made :: 0 <= i < |objs|)
    && forall i | 0 <= i < |objs| ::
         if i in made then !objs[i].inUse && objs'[i].inUse else objs'[i] == objs[i]
  }

  ghost predicate AllMade(objs: seq<KeyObj>, objs': seq<KeyObj>, made: set<int>, want: KeyObj -> KeyObj) {
    forall i | 0 <= i < |objs| && 0 <= i < |objs'| && i in made :: objs'[i] == want(objs[i])
  }

  function AsPiv(slot: nat, priv: Priv): KeyObj -> KeyObj {
    (o: KeyObj) => KeyObj(true, slot, UsbOps, priv, o.isPrivate)
  }

  function AsEntry(slot: nat, ks: nat): KeyObj -> KeyObj {
    (o: KeyObj) => KeyObj(true, slot, KeystoreOps, KeystoreEntry(ks), true)
  }

  lemma TookOneMore(objs: seq<KeyObj>, i: nat, o: KeyObj, objs': seq<KeyObj>, n: int, rest: set<int>)
    requires i < |objs| && !objs[i].inUse && o.inUse && Took(objs[i := o], objs', n, rest)
    ensures Took(objs, objs', n + 1, rest + {i}) && i !in rest && |objs'| == |objs| && objs'[i] == o
  {
    hide FreeCount;
    TakingOneFree(objs, i, o);
  }

  lemma TookNone(objs: seq<KeyObj>)
    ensures Took(objs, objs, 0, {})
  {
    hide FreeCount;
  }

  lemma {:induction false} PivObjects(k: Keys, slot: nat, priv: Priv, n: nat) returns (made: set<int>)
    ensures
      var (k', missing) := AddPiv(k, slot, priv, n);
      Took(k.objs, k'.objs, n - missing, made) && AllMade(k.objs, k'.objs, made, AsPiv(slot, priv))
    decreases n
  {
    hide FreeCount, Took;
    made := {};
    TookNone(k.objs);
    var i := FreeKey(k.objs, 0);
    if n > 0 && i < |k.objs| {
      var o := KeyObj(true, slot, UsbOps, priv, k.objs[i].isPrivate);
      var rest := PivObjects(k.(objs := k.objs[i := o]), slot, priv, n - 1);
      TookOneMore(k.objs, i, o, AddPiv(k, slot, priv, n).0.objs, n - 1 - AddPiv(k, slot, priv, n).1, rest);
      made := rest + {i};
    }
  }

  lemma {:induction false} KeystoreObjects(k: Keys, slot: nat, ks: nat, n: nat) returns (made: set<int>)
    ensures
      var (k', dropped) := AddKeystore(k, slot, ks, n);
      Took(k.objs, k'.objs, n - dropped, made) && AllMade(k.objs, k'.objs, made, AsEntry(slot, ks))
    decreases n
  {
    hide FreeCount, Took;
    made := {};
    TookNone(k.objs);
    var i := FreeKey(k.objs, 0);
    if n > 0 && i < |k.objs| {
      var o := KeyObj(true, slot, KeystoreOps, KeystoreEntry(ks), true);
      var rest := KeystoreObjects(k.(objs := k.objs[i := o]), slot, ks, n - 1);
      TookOneMore(k.objs, i, o, AddKeystore(k, slot, ks, n).0.objs, n - 1 - AddKeystore(k, slot, ks, n).1, rest);
      made := rest + {i};
    }
  }

  /** Each imported key is a new one. */
  predicate Imported(k: Keys, o: KeyObj, o': KeyObj, slot: nat, next: nat) {
    && o'.priv.SoftKey? && k.next <= o'.priv.id < next
    && o' == KeyObj(true, slot, SoftOps, o'.priv, o.isPrivate)
  }

  lemma {:induction false} SoftObjects(k: Keys, slot: nat, importable: seq<bool>) returns (made: set<int>)
    ensures
      var (k', dropped) := AddSoft(k, slot, importable);
      && dropped <= |importable| && k'.next == k.next + |importable| - dropped && k'.released == k.released
      && Took(k.objs, k'.objs, |importable| - dropped, made)
      && forall i | 0 <= i < |k.objs| && i in made :: Imported(k, k.objs[i], k'.objs[i], slot, k'.next)
    decreases |importable|
  {
    hide FreeCount, Took;
    made := {};
    TookNone(k.objs);
    if importable != [] {
      var i := FreeKey(k.objs, 0);
      if i == |k.objs| || !importable[0] {
        made := SoftObjects(k, slot, importable[1..]);
      } else {
        var o := KeyObj(true, slot, SoftOps, SoftKey(k.next), k.objs[i].isPrivate);
        var rest := SoftObjects(
          Keys(k.objs[i := o], k.refs[k.next := 0], k.released, k.next + 1), slot, importable[1..]);
        var (k', dropped) := AddSoft(k, slot, importable);
        TookOneMore(k.objs, i, o, k'.objs, |importable| - 1 - dropped, rest);
        made := rest + {i};
      }
    }
  }

  /** From a PIV card: four keys, and as many certificates as it has, at most four and only
      as records are free. */
  ghost predicate LoadedCard(s: State, s': State, slot: nat, onCard: nat, keys: set<int>, certs: set<int>)
    requires slot < |s.slots|
  {
    var objs, objs' := s.keys.objs, s'.keys.objs;
    && s' == s.(keys := s.keys.(objs := objs'), slots := s.slots[slot := s.slots[slot].(ccid := true)])
    && |objs'| == |objs| && keys !! certs
    && |keys| == 4 && |certs| == Least(onCard, 4, FreeCount(objs) - 4)
    && AllMade(objs, objs', keys, AsPiv(slot, PivKey)) && AllMade(objs, objs', certs, AsPiv(slot, NoPriv))
    && forall i | 0 <= i < |objs| :: if i in keys + certs then !objs[i].inUse else objs'[i] == objs[i]
  }

  /** From the soft token's file: all its keys, as new ones that nothing else refers to. */
  ghost predicate LoadedSoft(s: State, s': State, slot: nat, n: nat, keys: set<int>) {
    && s' == s.(keys := s'.keys) && (s'.keys.released, s'.keys.next) == (s.keys.released, s.keys.next + n)
    && Took(s.keys.objs, s'.keys.objs, n, keys)
    && forall i | 0 <= i < |s.keys.objs| && i in keys ::
         Imported(s.keys, s.keys.objs[i], s'.keys.objs[i], slot, s'.keys.next)
  }

  /** From a keystore token: pointers into the keystore, which the slot now holds. */
  ghost predicate LoadedKeystore(s: State, s': State, slot: nat, n: nat, keys: set<int>)
    requires slot < |s.slots|
  {
    && s' == s.(keys := s.keys.(objs := s'.keys.objs), nextKs := s.nextKs + 1,
                slots := s.slots[slot := s.slots[slot].(keystore := Some(s.nextKs))])
    && Took(s.keys.objs, s'.keys.objs, n, keys)
    && AllMade(s.keys.objs, s'.keys.objs, keys, AsEntry(slot, s.nextKs))
  }

  lemma CardLoads(s: State, slot: nat, pinLen: nat, piv: CardResult) returns (keys: set<int>, certs: set<int>)
    requires slot < |s.slots| && LoginPiv(s, slot, pinLen, piv).1 == RvOk
    ensures piv.PivOpen? && LoadedCard(s, LoginPiv(s, slot, pinLen, piv).0, slot, piv.certs, keys, certs)
  {
    hide AddPiv, ClearKeys, FreeCount;
    keys := PivObjects(s.keys, slot, PivKey, 4);
    AddPivMissing(s.keys, slot, PivKey, 4);
    var k := AddPiv(s.keys, slot, PivKey, 4).0;
    var n := if piv.certs < 4 then piv.certs else 4;
    certs := PivObjects(k, slot, NoPriv, n);
    AddPivMissing(k, slot, NoPriv, n);
    forall i | i in keys ensures i !in certs {
      assert k.objs[i].inUse;
    }
  }

  /** What a successful user login loads, besides marking the sessions. */
  lemma LoginLoads(s: State, h: nat, pinLen: nat, env: LoginEnv) returns (keys: set<int>, certs: set<int>)
    requires SessionInv(s) && Shaped(s.slots, s.initialized) && s.initialized && ValidHandle(s, h)
    requires DoLogIn(s, h, CkuUser, pinLen, env).1 == RvOk
    ensures
      var slot := s.sessions[h - 1].slot;
      var t, s' := s.slots[slot], DoLogIn(s, h, CkuUser, pinLen, env).0.(sessions := s.sessions);
      if t.proto == PivProto then env.piv.PivOpen? && LoadedCard(s, s', slot, env.piv.certs, keys, certs)
      else if t.path == "" then s' == s
      else
        env.load.Loaded? &&
        var n := |env.load.importable|;
        if t.proto == SoftProto then LoadedSoft(s, s', slot, n, keys) else LoadedKeystore(s, s', slot, n, keys)
  {
    hide SlotLogin, Shaped, Consistent, AddPiv, AddSoft, AddKeystore, ClearKeys, LoadedCard, Took, AllMade,
      LoginPiv, Imported, SetLogin;
    var slot := s.sessions[h - 1].slot;
    var t := s.slots[slot];
    PivHasNoPath(s, slot);
    keys, certs := {}, {};
    if t.proto == PivProto {
      keys, certs := CardLoads(s, slot, pinLen, env.piv);
      LoadedCardIsPlain(s, slot, pinLen, env.piv);
    } else if t.path != "" && env.load.Loaded? {
      if t.proto == SoftProto {
        keys := SoftObjects(s.keys, slot, env.load.importable);
      } else {
        keys := KeystoreObjects(s.keys, slot, s.nextKs, |env.load.importable|);
      }
    }
  }

  lemma LoadedCardIsPlain(s: State, slot: nat, pinLen: nat, piv: CardResult)
    requires slot < |s.slots|
    ensures LoginPiv(s, slot, pinLen, piv).0.sessions == s.sessions
  {
    hide AddPiv, ClearKeys;
  }

  function Least(a: int, b: int, c: int): int {
    if a <= b && a <= c then a else if b <= c then b else c
  }

  // ---------------------------------------------------------------------- logout

  /** Which objects go with a logout: those of the card if it is connected, of the soft
      token if it has a file, of the keystore if one is loaded. */
  predicate GoesWithLogout(o: KeyObj, t: Slot, slot: nat) {
    && o.inUse && o.slot == slot
    && ((o.backend == UsbOps && t.proto == PivProto && t.ccid)
        || (o.backend == SoftOps && t.proto == SoftProto && t.path != "")
        || (o.backend == KeystoreOps && t.keystore.Some?))
  }

  function PublicAgain(s: Session): Session {
    var none := Op(false, 0);
    Session(true, s.slot, s.rw, Public, if s.rw then RwPublic else RoPublic, none, none, none, none)
  }

  /** C_Logout: refused exactly without a login; otherwise it ends the login and all
      operations of the slot's sessions, clears what goes with it, and frees the slot's
      keystore. */
  lemma LogoutOutcome(s: State, h: nat, j: nat, i: nat)
    requires SessionInv(s)
    ensures
      var (s', rv) := DoLogOut(s, h);
      && rv == (
           if !s.initialized then NotInitialized
           else if h == 0 || h > |s.sessions| || !s.sessions[h - 1].inUse then SessionHandleInvalid
           else if s.sessions[h - 1].login == Public then NotLoggedIn
           else RvOk)
      && (rv != RvOk ==> s' == s)
      && (rv == RvOk ==>
            var slot := s.sessions[h - 1].slot;
            var t := s.slots[slot];
            && |s'.sessions| == |s.sessions| && |s'.keys.objs| == |s.keys.objs|
            && (j < |s.sessions| ==>
                  var session := s.sessions[j];
                  s'.sessions[j] == if session.inUse && session.slot == slot then PublicAgain(session) else session)
            && (i < |s.keys.objs| ==>
                  var o := s.keys.objs[i];
                  s'.keys.objs[i] == if GoesWithLogout(o, t, slot) then ZERO_KEY else o)
            && s'.slots == s.slots[slot := t.(keystore := None, ccid := t.ccid && t.proto != PivProto)]
            && s'.freed == (if t.keystore.Some? then s.freed + {t.keystore.value} else s.freed)
            && (s'.initialized, s'.nextKs, s'.keys.next) == (s.initialized, s.nextKs, s.keys.next))
  {
    hide UnloadToken, Consistent, GoesWithLogout;
    if s.initialized && ValidHandle(s, h) && s.sessions[h - 1].login != Public {
      var slot := s.sessions[h - 1].slot;
      UnloadTokenFrame(s, slot);
      Unloading(s, slot);
    }
  }

  lemma Unloading(s: State, slot: nat)
    requires slot < |s.slots|
    ensures
      var t, s' := s.slots[slot], UnloadToken(s, slot);
      && |s'.keys.objs| == |s.keys.objs|
      && (forall i | 0 <= i < |s.keys.objs| ::
            s'.keys.objs[i] == if GoesWithLogout(s.keys.objs[i], t, slot) then ZERO_KEY else s.keys.objs[i])
      && s'.slots == s.slots[slot := t.(keystore := None, ccid := t.ccid && t.proto != PivProto)]
      && s'.freed == (if t.keystore.Some? then s.freed + {t.keystore.value} else s.freed)
      && (s'.initialized, s'.nextKs, s'.keys.next) == (s.initialized, s.nextKs, s.keys.next)
  {
    hide ClearKeys;
    assert s.slots == s.slots[slot := s.slots[slot]];
  }

  // ------------------------------------------------------- operations and objects

  /** Every answer of C_SignInit, C_VerifyInit, C_EncryptInit and C_DecryptInit. A certificate
      is an object of a card without a private part; only C_EncryptInit takes it. */
  lemma BeginAnswers(s: State, h: nat, kind: Kind, key: nat, admissible: bool)
    ensures
      var rv := DoBegin(s, h, kind, key, admissible).1;
      && (rv == NotInitialized <==> !s.initialized)
      && (rv == SessionHandleInvalid <==> s.initialized && !ValidHandle(s, h))
      && (s.initialized && ValidHandle(s, h) ==>
            var busy := s.sessions[h - 1].Get(kind).active;
            var there := 1 <= key <= |s.keys.objs| && s.keys.objs[key - 1].inUse;
            var o := if there then s.keys.objs[key - 1] else ZERO_KEY;
            var suits := there && (kind == Encrypt || o.backend != UsbOps || o.priv != NoPriv);
            var shut := s.sessions[h - 1].login == Public && o.isPrivate;
            var looks := kind == Decrypt || !busy;
            && (rv == KeyHandleInvalid <==> looks && !suits)
            && (rv == NotLoggedIn <==> looks && suits && shut)
            && (rv == OperationRefused <==> !busy && suits && !shut && !admissible)
            && (rv == RvOk <==> !busy && suits && !shut && admissible)
            && (rv == OperationActive <==> busy && (kind == Decrypt ==> suits && !shut)))
  {}


  function ForgetIf(o: Op, key: nat): Op {
    if o.key == key then Op(false, 0) else o
  }

  /** C_DestroyObject: any session of the object's slot may do it. The record is free, and no
      session has an operation on it. */
  lemma DestroyOutcome(s: State, h: nat, key: nat, j: nat)
    ensures
      var (s', rv) := DoDestroy(s, h, key);
      && rv == (
           if !s.initialized then NotInitialized
           else if h == 0 || h > |s.sessions| || !s.sessions[h - 1].inUse then SessionHandleInvalid
           else if key == 0 || key > |s.keys.objs| || !s.keys.objs[key - 1].inUse
             || s.keys.objs[key - 1].slot != s.sessions[h - 1].slot then ObjectHandleInvalid
           else RvOk)
      && (rv != RvOk ==> s' == s)
      && (rv == RvOk ==>
            && s' == s.(sessions := s'.sessions, keys := s'.keys) && |s'.sessions| == |s.sessions|
            && s'.keys.objs == s.keys.objs[key - 1 := s.keys.objs[key - 1].(inUse := false, priv := NoPriv)]
            && (j < |s.sessions| ==>
                  var a, b := s.sessions[j], s'.sessions[j];
                  if !a.inUse then b == a
                  else
                    && (b.inUse, b.slot, b.rw, b.login, b.state) == (a.inUse, a.slot, a.rw, a.login, a.state)
                    && forall kind :: b.Get(kind) == ForgetIf(a.Get(kind), key)))
  {
    hide FreePriv;
  }

  /** The two lowest free records. */
  predicate FirstTwoFree(objs: seq<KeyObj>, a: nat, b: nat) {
    && a < b < |objs| && !objs[a].inUse && !objs[b].inUse
    && forall i | 0 <= i < b && i != a :: objs[i].inUse
  }

  ghost predicate TwoFree(objs: seq<KeyObj>) {
    exists a: nat, b: nat :: FirstTwoFree(objs, a, b)
  }

  lemma TwoFreeIff(objs: seq<KeyObj>)
    ensures
      var a := FreeKey(objs, 0);
      if a < |objs| && FreeKey(objs, a + 1) < |objs| then FirstTwoFree(objs, a, FreeKey(objs, a + 1))
      else !TwoFree(objs)
  {}

  /** C_GenerateKeyPair on the soft token. The lower of the two records gets the public half,
      which is never private; the other gets the private half, marked as asked; and both
      refer to one new key. Without a login a private key is refused, but only where there
      is something to log in to. */
  lemma GenerateOutcome(s: State, h: nat, isPrivate: bool, mechanismOk: bool, generated: bool)
    requires SlotsInTable(s)
    ensures
      var (s', rv) := DoGenerate(s, h, isPrivate, mechanismOk, generated);
      && (!s.initialized ==> rv == NotInitialized)
      && (s.initialized && !ValidHandle(s, h) ==> rv == SessionHandleInvalid)
      && (s.initialized && ValidHandle(s, h) ==>
            var t := s.slots[s.sessions[h - 1].slot];
            rv ==
              if isPrivate && s.sessions[h - 1].login == Public && (t.proto == PivProto || t.path != "")
                then NotLoggedIn
              else if t.proto != SoftProto then FunctionNotSupported
              else if !mechanismOk then OperationRefused
              else if !TwoFree(s.keys.objs) || !generated then DeviceMemory
              else RvOk)
      && (rv != RvOk ==> s' == s)
      && (rv == RvOk ==> exists pub: nat, priv: nat ::
            && FirstTwoFree(s.keys.objs, pub, priv)
            && s' == s.(keys := Keys(
                 s.keys.objs
                   [pub := KeyObj(true, s.sessions[h - 1].slot, SoftOps, SoftKey(s.keys.next), false)]
                   [priv := KeyObj(true, s.sessions[h - 1].slot, SoftOps, SoftKey(s.keys.next), isPrivate)],
                 s.keys.refs[s.keys.next := 2], s.keys.released, s.keys.next + 1)))
  {
    hide FreeKey, TwoFree, FirstTwoFree;
    TwoFreeIff(s.keys.objs);
    TwoFreeIsOne(s.keys.objs);
  }

  lemma TwoFreeIsOne(objs: seq<KeyObj>)
    ensures forall a: nat, b: nat :: FirstTwoFree(objs, a, b) ==> TwoFree(objs)
  {}

  // ------------------------------------------------------------- initialize, finalize

  /** C_Initialize: every record of every table is cleared, slot 0 is the soft token's; a
      second call changes nothing. C_Finalize: every slot is cleared, no key object is left,
      and every keystore that a slot other than 0 held is freed. */
  lemma InitializeFinalizeOutcome(s: State, softPath: string, j: nat)
    ensures
      var (s', rv) := DoInitialize(s, softPath);
      && (s.initialized ==> s' == s && rv == AlreadyInitialized)
      && (!s.initialized ==>
            && rv == RvOk && s'.initialized
            && |s'.sessions| == |s.sessions| && |s'.keys.objs| == |s.keys.objs| && |s'.slots| == |s.slots|
            && (j < |s.sessions| ==> s'.sessions[j] == ZERO_SESSION)
            && (j < |s.keys.objs| ==> s'.keys.objs[j] == ZERO_KEY)
            && (j < |s.slots| && j > 0 ==> s'.slots[j] == ZERO_SLOT)
            && (j < |s.slots| && j == 0 ==> s'.slots[j] == Slot(true, true, 0, 0, SoftProto, softPath, None, false))
            && (s'.freed, s'.nextKs, s'.keys.next, s'.keys.released)
                 == (s.freed, s.nextKs, s.keys.next, s.keys.released))
    ensures
      var (s', rv) := DoFinalize(s);
      && (!s.initialized ==> s' == s && rv == NotInitialized)
      && (s.initialized ==>
            && rv == RvOk && !s'.initialized && s'.sessions == s.sessions && s'.nextKs == s.nextKs
            && |s'.keys.objs| == |s.keys.objs| && |s'.slots| == |s.slots|
            && (j < |s.keys.objs| ==> !s'.keys.objs[j].inUse && s'.keys.objs[j].priv == NoPriv)
            && (j < |s.slots| ==> s'.slots[j] == ZERO_SLOT)
            && forall ks :: ks in s'.freed <==> ks in s.freed || HeldByToken(s.slots, ks))
  {
    hide FreeAllKeys;
    forall ks ensures ks in LoadedKeystores(s.slots) <==> HeldByToken(s.slots, ks) {}
  }

  ghost predicate HeldByToken(slots: seq<Slot>, ks: nat) {
    exists i | 1 <= i < |slots| :: slots[i].inUse && slots[i].keystore == Some(ks)
  }
}
