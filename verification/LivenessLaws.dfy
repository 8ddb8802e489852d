/** Active operations and the key objects they name. */
module LivenessLaws {
  import opened Bytes
  import opened Tables
  import opened TableOps
  import opened SessionLaws
  import opened SlotLaws

  predicate NamesLiveKey(o: Op, objs: seq<KeyObj>) {
    o.active ==> 1 <= o.key <= |objs| && objs[o.key - 1].inUse
  }

  /** ... one of the session's own slot, and a private one only if logged in. */
  predicate NamesOwnKey(o: Op, objs: seq<KeyObj>, slot: nat, login: Login) {
    o.active ==>
      && 1 <= o.key <= |objs| && objs[o.key - 1].inUse && objs[o.key - 1].slot == slot
      && (objs[o.key - 1].isPrivate ==> login != Public)
  }

  /** Every active sign, verify, encrypt or decrypt operation names a live key object. */
  ghost predicate Live(ss: seq<Session>, objs: seq<KeyObj>) {
    forall j, k | 0 <= j < |ss| && ss[j].inUse :: NamesLiveKey(ss[j].Get(k), objs)
  }

  ghost predicate OwnLive(ss: seq<Session>, objs: seq<KeyObj>) {
    forall j, k | 0 <= j < |ss| && ss[j].inUse :: NamesOwnKey(ss[j].Get(k), objs, ss[j].slot, ss[j].login)
  }

  lemma OwnLiveIsLive(ss: seq<Session>, objs: seq<KeyObj>)
    requires OwnLive(ss, objs)
    ensures Live(ss, objs)
  {
    forall j, k | 0 <= j < |ss| && ss[j].inUse ensures NamesLiveKey(ss[j].Get(k), objs) {
      assert NamesOwnKey(ss[j].Get(k), objs, ss[j].slot, ss[j].login);
    }
  }

  // --------------------------------------------------------------- table changes

  /** Live objects stay as they are, except possibly those of one slot. */
  ghost predicate OthersKept(objs: seq<KeyObj>, objs': seq<KeyObj>, slot: nat) {
    |objs'| == |objs| &&
    forall i | 0 <= i < |objs| :: objs[i].inUse && objs[i].slot != slot ==> objs'[i] == objs[i]
  }

  ghost predicate AllKept(objs: seq<KeyObj>, objs': seq<KeyObj>) {
    |objs'| == |objs| && forall i | 0 <= i < |objs| :: objs[i].inUse ==> objs'[i] == objs[i]
  }

  /** Only free records change, and they become objects of one slot and backend. Those
      of a keystore are private; others are as private as the record was before. */
  ghost predicate Grown(objs: seq<KeyObj>, objs': seq<KeyObj>, slot: nat, backend: Backend) {
    |objs'| == |objs| &&
    forall i | 0 <= i < |objs| :: objs'[i] == objs[i] || BecomesObject(objs[i], objs'[i], slot, backend)
  }

  predicate BecomesObject(o: KeyObj, o': KeyObj, slot: nat, backend: Backend) {
    !o.inUse && Belongs(o', slot, backend) && o'.isPrivate == (backend == KeystoreOps || o.isPrivate)
  }

  /** A session whose operations are over, or that is on another slot and untouched. */
  ghost predicate OpsOver(s: Session, s': Session, slot: nat) {
    s'.inUse ==>
      s.inUse && s'.slot == s.slot && (s.slot != slot ==> s'.login == s.login) &&
      forall k :: if s.slot == slot then !s'.Get(k).active else s'.Get(k) == s.Get(k)
  }

  lemma UnloadingKeepsOwnLive(
      ss: seq<Session>, objs: seq<KeyObj>, ss': seq<Session>, objs': seq<KeyObj>, slot: nat)
    requires OwnLive(ss, objs) && OthersKept(objs, objs', slot) && |ss'| == |ss|
    requires forall j | 0 <= j < |ss| :: OpsOver(ss[j], ss'[j], slot)
    ensures OwnLive(ss', objs')
  {
    forall j, k | 0 <= j < |ss'| && ss'[j].inUse ensures NamesOwnKey(ss'[j].Get(k), objs', ss'[j].slot, ss'[j].login) {
      assert OpsOver(ss[j], ss'[j], slot);
      assert NamesOwnKey(ss[j].Get(k), objs, ss[j].slot, ss[j].login);
    }
  }

  lemma GrowingKeepsOwnLive(ss: seq<Session>, ss': seq<Session>, objs: seq<KeyObj>, objs': seq<KeyObj>)
    requires OwnLive(ss, objs) && AllKept(objs, objs') && |ss'| == |ss|
    requires forall j | 0 <= j < |ss| && ss'[j].inUse ::
      && ss[j].inUse && ss'[j].slot == ss[j].slot && (ss'[j].login == ss[j].login || ss'[j].login != Public)
      && forall k :: ss'[j].Get(k) == ss[j].Get(k)
    ensures OwnLive(ss', objs')
  {
    forall j, k | 0 <= j < |ss'| && ss'[j].inUse ensures NamesOwnKey(ss'[j].Get(k), objs', ss'[j].slot, ss'[j].login) {
      assert NamesOwnKey(ss[j].Get(k), objs, ss[j].slot, ss[j].login);
    }
  }

  /** A record that replaces session `i`, all of whose operations are fine. */
  lemma ReplacingKeepsOwnLive(ss: seq<Session>, objs: seq<KeyObj>, i: nat, s: Session)
    requires OwnLive(ss, objs) && i < |ss|
    requires s.inUse ==> forall k :: NamesOwnKey(s.Get(k), objs, s.slot, s.login)
    ensures OwnLive(ss[i := s], objs)
  {}

  /** A destroyed key is forgotten by all sessions before anyone can use it. */
  lemma DestroyingKeepsOwnLive(ss: seq<Session>, objs: seq<KeyObj>, key: nat, o: KeyObj)
    requires OwnLive(ss, objs) && 1 <= key <= |objs|
    ensures OwnLive(ForgetKeyEverywhere(ss, key), objs[key - 1 := o])
  {
    var ss' := ForgetKeyEverywhere(ss, key);
    forall j, k | 0 <= j < |ss'| && ss'[j].inUse
      ensures NamesOwnKey(ss'[j].Get(k), objs[key - 1 := o], ss'[j].slot, ss'[j].login)
    {
      assert NamesOwnKey(ss[j].Get(k), objs, ss[j].slot, ss[j].login);
    }
  }

  /** The same without the own-slot condition. */
  lemma DestroyingKeepsLive(ss: seq<Session>, objs: seq<KeyObj>, key: nat, o: KeyObj)
    requires Live(ss, objs) && 1 <= key <= |objs|
    ensures Live(ForgetKeyEverywhere(ss, key), objs[key - 1 := o])
  {
    var ss' := ForgetKeyEverywhere(ss, key);
    forall j, k | 0 <= j < |ss'| && ss'[j].inUse ensures NamesLiveKey(ss'[j].Get(k), objs[key - 1 := o]) {
      assert NamesLiveKey(ss[j].Get(k), objs);
    }
  }

  // ------------------------------------------------------------- the key table grows

  lemma {:induction false} AddPivGrows(k: Keys, slot: nat, priv: Priv, n: nat)
    ensures Grown(k.objs, AddPiv(k, slot, priv, n).0.objs, slot, UsbOps)
    decreases n
  {
    var i := FreeKey(k.objs, 0);
    if n > 0 && i < |k.objs| {
      AddPivGrows(k.(objs := k.objs[i := Claimed(k.objs[i], slot, UsbOps, priv)]), slot, priv, n - 1);
    }
  }

  lemma {:induction false} AddKeystoreGrows(k: Keys, slot: nat, ks: nat, n: nat)
    ensures Grown(k.objs, AddKeystore(k, slot, ks, n).0.objs, slot, KeystoreOps)
    decreases n
  {
    var i := FreeKey(k.objs, 0);
    if n > 0 && i < |k.objs| {
      var o := KeyObj(true, slot, KeystoreOps, KeystoreEntry(ks), true);
      AddKeystoreGrows(k.(objs := k.objs[i := o]), slot, ks, n - 1);
    }
  }

  lemma {:induction false} AddSoftGrows(k: Keys, slot: nat, importable: seq<bool>)
    ensures Grown(k.objs, AddSoft(k, slot, importable).0.objs, slot, SoftOps)
    decreases |importable|
  {
    if importable != [] {
      var i := FreeKey(k.objs, 0);
      if i == |k.objs| || !importable[0] {
        AddSoftGrows(k, slot, importable[1..]);
      } else {
        var o := Claimed(k.objs[i], slot, SoftOps, SoftKey(k.next));
        AddSoftGrows(Keys(k.objs[i := o], k.refs[k.next := 0], k.released, k.next + 1), slot, importable[1..]);
      }
    }
  }

  // ------------------------------------------------- logins that cannot load everything

  function FreeCount(objs: seq<KeyObj>): (n: nat)
    ensures n <= |objs|
  {
    if objs == [] then 0 else (if objs[0].inUse then 0 else 1) + FreeCount(objs[1..])
  }

  lemma {:induction false} TakingOneFree(objs: seq<KeyObj>, i: nat, o: KeyObj)
    requires i < |objs| && !objs[i].inUse && o.inUse
    ensures FreeCount(objs[i := o]) == FreeCount(objs) - 1
    decreases |objs|
  {
    if i == 0 {
      assert objs[0 := o][1..] == objs[1..];
    } else {
      assert objs[i := o][1..] == objs[1..][i - 1 := o];
      TakingOneFree(objs[1..], i - 1, o);
    }
  }

  lemma {:induction false} NoneFree(objs: seq<KeyObj>)
    requires forall i | 0 <= i < |objs| :: objs[i].inUse
    ensures FreeCount(objs) == 0
    decreases |objs|
  {
    if objs != [] {
      NoneFree(objs[1..]);
    }
  }

  lemma {:induction false} SomeFree(objs: seq<KeyObj>, i: nat)
    requires i < |objs| && !objs[i].inUse
    ensures FreeCount(objs) > 0
    decreases |objs|
  {
    if i > 0 {
      SomeFree(objs[1..], i - 1);
    }
  }

  lemma FreeKeyFinds(objs: seq<KeyObj>)
    ensures FreeKey(objs, 0) == |objs| <==> FreeCount(objs) == 0
  {
    var i := FreeKey(objs, 0);
    if i == |objs| {
      NoneFree(objs);
    } else {
      SomeFree(objs, i);
    }
  }

  lemma {:induction false} AddPivMissing(k: Keys, slot: nat, priv: Priv, n: nat)
    ensures AddPiv(k, slot, priv, n).1 == if n <= FreeCount(k.objs) then 0 else n - FreeCount(k.objs)
    decreases n
  {
    hide FreeCount;
    var i := FreeKey(k.objs, 0);
    FreeKeyFinds(k.objs);
    if n > 0 && i < |k.objs| {
      var o := Claimed(k.objs[i], slot, UsbOps, priv);
      TakingOneFree(k.objs, i, o);
      AddPivMissing(k.(objs := k.objs[i := o]), slot, priv, n - 1);
    }
  }

  lemma {:induction false} AddKeystoreMissing(k: Keys, slot: nat, ks: nat, n: nat)
    ensures AddKeystore(k, slot, ks, n).1 == if n <= FreeCount(k.objs) then 0 else n - FreeCount(k.objs)
    decreases n
  {
    hide FreeCount;
    var i := FreeKey(k.objs, 0);
    FreeKeyFinds(k.objs);
    if n > 0 && i < |k.objs| {
      var o := KeyObj(true, slot, KeystoreOps, KeystoreEntry(ks), true);
      TakingOneFree(k.objs, i, o);
      AddKeystoreMissing(k.(objs := k.objs[i := o]), slot, ks, n - 1);
    }
  }

  lemma {:induction false} AddSoftMissing(k: Keys, slot: nat, importable: seq<bool>)
    ensures AddSoft(k, slot, importable).1 > 0 <==> |importable| > FreeCount(k.objs) || false in importable
    decreases |importable|
  {
    hide FreeCount;
    if importable != [] {
      assert importable == [importable[0]] + importable[1..];
      var i := FreeKey(k.objs, 0);
      FreeKeyFinds(k.objs);
      if i < |k.objs| && importable[0] {
        var o := Claimed(k.objs[i], slot, SoftOps, SoftKey(k.next));
        TakingOneFree(k.objs, i, o);
        AddSoftMissing(Keys(k.objs[i := o], k.refs[k.next := 0], k.released, k.next + 1), slot, importable[1..]);
      }
    }
  }

  /** What the token and the file hold cannot all be turned into key objects: a PIV card
      needs four free records; a keystore one for each entry; and an entry of the soft
      token's keystore must be one that can be imported. The checks made before that
      have passed. */
  predicate LoadFallsShort(s: State, slot: nat, pinLen: nat, env: LoginEnv)
    requires slot < |s.slots|
  {
    var t, free := s.slots[slot], FreeCount(s.keys.objs);
    if t.proto == PivProto then pinLen > 0 && env.piv.PivOpen? && free < 4
    else
      && t.path != "" && 0 < pinLen <= PIN_MAX && env.load.Loaded?
      && (free < |env.load.importable| || (t.proto == SoftProto && false in env.load.importable))
  }

  lemma LoadFallsShortIff(s: State, slot: nat, pinLen: nat, env: LoginEnv)
    requires slot < |s.slots| && (s.slots[slot].proto == PivProto ==> s.slots[slot].path == "")
    ensures LoadToken(s, slot, pinLen, env).1 == DeviceMemory <==> LoadFallsShort(s, slot, pinLen, env)
  {
    hide AddPiv, AddSoft, AddKeystore, ClearKeys, FreeCount;
    AddPivMissing(s.keys, slot, PivKey, 4);
    if env.load.Loaded? {
      AddSoftMissing(s.keys, slot, env.load.importable);
      AddKeystoreMissing(s.keys, slot, s.nextKs, |env.load.importable|);
    }
  }

  /** Which user logins fall short, from the state before the call. */
  predicate LoginFallsShort(s: State, h: nat, who: UserType, pinLen: nat, env: LoginEnv)
    requires SlotsInTable(s)
  {
    && s.initialized && ValidHandle(s, h) && who == CkuUser && s.sessions[h - 1].login == Public
    && LoadFallsShort(s, s.sessions[h - 1].slot, pinLen, env)
  }

  /** C_Login answers CKR_DEVICE_MEMORY exactly then. */
  lemma LoginFallsShortIff(s: State, h: nat, who: UserType, pinLen: nat, env: LoginEnv)
    requires SessionInv(s) && Shaped(s.slots, s.initialized)
    ensures DoLogIn(s, h, who, pinLen, env).1 == DeviceMemory <==> LoginFallsShort(s, h, who, pinLen, env)
  {
    hide LoadToken, LoadFallsShort, SlotLogin, Shaped, ReadOnlyExists, Consistent;
    if s.initialized && ValidHandle(s, h) {
      var slot := s.sessions[h - 1].slot;
      SlotLoginIsOwn(s, h);
      PivHasNoPath(s, slot);
      LoadFallsShortIff(s, slot, pinLen, env);
    }
  }

  /** The login state that C_Login compares with is the calling session's own. */
  lemma SlotLoginIsOwn(s: State, h: nat)
    requires SessionInv(s) && s.initialized && ValidHandle(s, h)
    ensures SlotLogin(s.sessions, s.sessions[h - 1].slot, 0) == s.sessions[h - 1].login
  {}

  /** Which backend's objects a login that falls short sweeps away again. */
  function LoginBackend(s: State, slot: nat): Backend
    requires slot < |s.slots|
  {
    if s.slots[slot].proto == PivProto then UsbOps
    else if s.slots[slot].proto == SoftProto then SoftOps
    else KeystoreOps
  }

  /** The objects that were there before and are swept away: those of the slot and of
      that backend, whenever they were made. */
  ghost predicate Swept(objs: seq<KeyObj>, objs': seq<KeyObj>, slot: nat, backend: Backend) {
    |objs'| == |objs| &&
    forall i | 0 <= i < |objs| && objs[i].inUse ::
      objs'[i] == if Belongs(objs[i], slot, backend) then ZERO_KEY else objs[i]
  }

  /** A login that falls short sweeps; any other login only adds. */
  lemma LoadTokenKeys(s: State, slot: nat, pinLen: nat, env: LoginEnv)
    requires slot < |s.slots| && (s.slots[slot].proto == PivProto ==> s.slots[slot].path == "")
    ensures
      var objs, objs' := s.keys.objs, LoadToken(s, slot, pinLen, env).0.keys.objs;
      if LoadFallsShort(s, slot, pinLen, env) then Swept(objs, objs', slot, LoginBackend(s, slot))
      else Grown(objs, objs', slot, LoginBackend(s, slot))
  {
    hide AddPiv, AddSoft, AddKeystore, LoadFallsShort;
    LoadFallsShortIff(s, slot, pinLen, env);
    AddPivGrows(s.keys, slot, PivKey, 4);
    AddPivGrows(AddPiv(s.keys, slot, PivKey, 4).0, slot, NoPriv,
      if env.piv.PivOpen? && env.piv.certs < 4 then env.piv.certs else 4);
    if env.load.Loaded? {
      AddSoftGrows(s.keys, slot, env.load.importable);
      AddKeystoreGrows(s.keys, slot, s.nextKs, |env.load.importable|);
    }
  }

  // -------------------------------------------------------------------- API calls

  /** An active operation of some session names an object of `slot` and `backend`. */
  ghost predicate InUseByOperation(ss: seq<Session>, objs: seq<KeyObj>, slot: nat, backend: Backend) {
    exists j, k | 0 <= j < |ss| && ss[j].inUse :: Holds(ss[j].Get(k), objs, slot, backend)
  }

  predicate Holds(o: Op, objs: seq<KeyObj>, slot: nat, backend: Backend) {
    o.active && 1 <= o.key <= |objs| && Belongs(objs[o.key - 1], slot, backend)
  }

  /** The calls that operation liveness depends on: an operation uses a key of its own
      session's slot, and a login does not fall short while an operation uses an object
      that it would sweep away. */
  ghost predicate Careful(s: State, c: Call)
    requires SlotsInTable(s)
  {
    match c
    case Begin(h, kind, key, admissible) =>
      ValidHandle(s, h) && ValidKey(s, key) ==> s.keys.objs[key - 1].slot == s.sessions[h - 1].slot
    case LogIn(h, who, pinLen, env) =>
      LoginFallsShort(s, h, who, pinLen, env) ==>
        var slot := s.sessions[h - 1].slot;
        !InUseByOperation(s.sessions, s.keys.objs, slot, LoginBackend(s, slot))
    case _ => true
  }

  ghost predicate LiveInv(s: State) {
    s.initialized ==> OwnLive(s.sessions, s.keys.objs)
  }

  /** Sweeping objects that no operation uses. */
  lemma SweepingKeepsOwnLive(ss: seq<Session>, objs: seq<KeyObj>, objs': seq<KeyObj>, slot: nat, backend: Backend)
    requires OwnLive(ss, objs) && Swept(objs, objs', slot, backend)
    requires !InUseByOperation(ss, objs, slot, backend)
    ensures OwnLive(ss, objs')
  {
    forall j, k | 0 <= j < |ss| && ss[j].inUse ensures NamesOwnKey(ss[j].Get(k), objs', ss[j].slot, ss[j].login) {
      assert NamesOwnKey(ss[j].Get(k), objs, ss[j].slot, ss[j].login);
      assert !Holds(ss[j].Get(k), objs, slot, backend);
    }
  }

  lemma LogInKeepsLive(s: State, h: nat, who: UserType, pinLen: nat, env: LoginEnv)
    requires SessionInv(s) && Shaped(s.slots, s.initialized) && LiveInv(s)
    requires Careful(s, LogIn(h, who, pinLen, env))
    ensures LiveInv(DoLogIn(s, h, who, pinLen, env).0)
  {
    hide LoadToken, OwnLive, InUseByOperation, ReadOnlyExists, SlotLogin, Shaped, LoadFallsShort, Consistent;
    if s.initialized && ValidHandle(s, h) {
      var slot := s.sessions[h - 1].slot;
      SlotLoginIsOwn(s, h);
      PivHasNoPath(s, slot);
      LoadFallsShortIff(s, slot, pinLen, env);
      LoadTokenKeys(s, slot, pinLen, env);
      LoadTokenFrame(s, slot, pinLen, env);
      var s', s1 := DoLogIn(s, h, who, pinLen, env).0, LoadToken(s, slot, pinLen, env).0;
      if s'.keys == s.keys {
        SameOps(s.sessions, s'.sessions);
        GrowingKeepsOwnLive(s.sessions, s'.sessions, s.keys.objs, s'.keys.objs);
      } else if LoginFallsShort(s, h, who, pinLen, env) {
        SweepingKeepsOwnLive(s.sessions, s.keys.objs, s1.keys.objs, slot, LoginBackend(s, slot));
      } else {
        GrowingKeepsOwnLive(s.sessions, s'.sessions, s.keys.objs, s'.keys.objs);
      }
    }
  }

  lemma PivHasNoPath(s: State, slot: nat)
    requires Shaped(s.slots, s.initialized) && slot < |s.slots|
    ensures s.slots[slot].proto == PivProto && slot > 0 ==> s.slots[slot].path == ""
    ensures s.initialized && slot == 0 ==> s.slots[slot].proto == SoftProto
  {}

  lemma SameOps(ss: seq<Session>, ss': seq<Session>)
    requires ss' == ss || exists slot, l :: ss' == SetLogin(ss, slot, l)
    ensures |ss'| == |ss|
    ensures forall j | 0 <= j < |ss| :: (ss'[j].inUse, ss'[j].slot) == (ss[j].inUse, ss[j].slot)
    ensures forall j, k | 0 <= j < |ss| :: ss'[j].Get(k) == ss[j].Get(k)
  {}

  lemma LogOutKeepsLive(s: State, h: nat)
    requires SessionInv(s) && LiveInv(s)
    ensures LiveInv(DoLogOut(s, h).0)
  {
    hide OwnLive, Consistent;
    var s' := DoLogOut(s, h).0;
    if s.initialized && ValidHandle(s, h) && s.sessions[h - 1].login != Public {
      var slot := s.sessions[h - 1].slot;
      UnloadTokenKeys(s, slot);
      UnloadTokenFrame(s, slot);
      UnloadingKeepsOwnLive(s.sessions, s.keys.objs, s'.sessions, s'.keys.objs, slot);
    }
  }

  lemma UnloadTokenKeys(s: State, slot: nat)
    requires slot < |s.slots|
    ensures OthersKept(s.keys.objs, UnloadToken(s, slot).keys.objs, slot)
  {}

  lemma DepartKeepsLive(s: State, i: nat)
    requires LiveInv(s) && i < |s.slots|
    ensures LiveInv(Depart(s, i))
  {
    hide OwnLive;
    if s.initialized {
      UnloadingKeepsOwnLive(s.sessions, s.keys.objs, Depart(s, i).sessions, Depart(s, i).keys.objs, i);
    }
  }

  lemma {:induction false} DirDepartureKeepsLive(s: State, dir: string, i: nat)
    requires LiveInv(s) && i <= |s.slots|
    ensures LiveInv(DoDirDeparture(s, dir, i))
    decreases |s.slots| - i
  {
    hide LiveInv, Depart, Under;
    if i < |s.slots| {
      if Under(s.slots[i], dir) {
        DepartKeepsLive(s, i);
        DirDepartureKeepsLive(Depart(s, i), dir, i + 1);
      } else {
        DirDepartureKeepsLive(s, dir, i + 1);
      }
    }
  }

  lemma UsbDepartureKeepsLive(s: State, vid: nat, pid: nat)
    requires LiveInv(s)
    ensures LiveInv(DoUsbDeparture(s, vid, pid).0)
  {
    hide OwnLive, Find, Matches;
    var (s', i) := DoUsbDeparture(s, vid, pid);
    if i.Some? {
      UnloadingKeepsOwnLive(s.sessions, s.keys.objs, s'.sessions, s'.keys.objs, i.value);
    }
  }

  lemma EndingKeepsOwnLive(s: State, h: nat, kind: Kind)
    requires OwnLive(s.sessions, s.keys.objs) && ValidHandle(s, h)
    ensures OwnLive(Ended(s, h, kind).sessions, s.keys.objs)
  {
    var session := s.sessions[h - 1];
    var ended := session.Set(kind, session.Get(kind).(active := false));
    forall k ensures NamesOwnKey(ended.Get(k), s.keys.objs, session.slot, session.login) {
      assert NamesOwnKey(session.Get(k), s.keys.objs, session.slot, session.login);
    }
    ReplacingKeepsOwnLive(s.sessions, s.keys.objs, h - 1, ended);
  }

  lemma SessionCallsKeepLive(s: State, c: Call)
    requires SlotsInTable(s) && LiveInv(s) && (c.OpenSession? || c.CloseSession? || c.CloseAllSessions? || c.End?)
    ensures LiveInv(Step(s, c))
  {
    hide SlotLogin;
    if s.initialized {
      match c
      case End(h, kind) =>
        if ValidHandle(s, h) {
          EndingKeepsOwnLive(s, h, kind);
        }
      case _ =>
    }
  }

  lemma ObjectCallsKeepLive(s: State, c: Call)
    requires SlotsInTable(s) && LiveInv(s) && Careful(s, c)
    requires c.Begin? || c.DestroyObject? || c.GenerateKeyPair?
    ensures LiveInv(Step(s, c))
  {
    hide OwnLive, Drop;
    if s.initialized {
      match c
      case Begin(h, kind, key, admissible) =>
        if ValidHandle(s, h) {
          EndingKeepsOwnLive(s, h, kind);
        }
        if DoBegin(s, h, kind, key, admissible).1 == RvOk {
          var session := s.sessions[h - 1];
          OthersOwn(s.sessions, s.keys.objs, h - 1);
          ReplacingKeepsOwnLive(s.sessions, s.keys.objs, h - 1, session.Set(kind, Op(true, key)));
        }
      case DestroyObject(h, key) =>
        if DoDestroy(s, h, key).1 == RvOk {
          DestroyingKeepsOwnLive(s.sessions, s.keys.objs, key, s.keys.objs[key - 1].(inUse := false, priv := NoPriv));
        }
      case GenerateKeyPair(h, isPrivate, mechanismOk, generated) =>
        GrowingKeepsOwnLive(s.sessions, s.sessions, s.keys.objs, Step(s, c).keys.objs);
    }
  }

  lemma OthersOwn(ss: seq<Session>, objs: seq<KeyObj>, i: nat)
    requires OwnLive(ss, objs) && i < |ss| && ss[i].inUse
    ensures forall k :: NamesOwnKey(ss[i].Get(k), objs, ss[i].slot, ss[i].login)
  {}

  lemma InitFinalizeKeepLive(s: State, c: Call)
    requires SlotsInTable(s) && LiveInv(s) && (c.Initialize? || c.Finalize?)
    ensures LiveInv(Step(s, c))
  {
    hide FreeAllKeys, LoadedKeystores;
  }

  lemma StepKeepsLive(s: State, c: Call)
    requires SessionInv(s) && Shaped(s.slots, s.initialized) && LiveInv(s) && Careful(s, c)
    ensures LiveInv(Step(s, c))
  {
    hide Consistent, DoLogIn, DoLogOut, DoUsbDeparture, DoDirDeparture, OwnLive, Shaped, Careful, Depart, Find, Matches;
    match c
    case LogIn(h, who, pinLen, env) => LogInKeepsLive(s, h, who, pinLen, env);
    case LogOut(h) => LogOutKeepsLive(s, h);
    case Initialize(_) => InitFinalizeKeepLive(s, c);
    case Finalize => InitFinalizeKeepLive(s, c);
    case OpenSession(_, _, _) => SessionCallsKeepLive(s, c);
    case CloseSession(_) => SessionCallsKeepLive(s, c);
    case CloseAllSessions(_) => SessionCallsKeepLive(s, c);
    case End(_, _) => SessionCallsKeepLive(s, c);
    case Begin(_, _, _, _) => ObjectCallsKeepLive(s, c);
    case DestroyObject(_, _) => ObjectCallsKeepLive(s, c);
    case GenerateKeyPair(_, _, _, _) => ObjectCallsKeepLive(s, c);
    case UsbDeparture(vid, pid) => UsbDepartureKeepsLive(s, vid, pid);
    case DirDeparture(dir) =>
      if s.initialized && |s.slots| > 0 {
        DirDepartureKeepsLive(s, dir, 1);
      }
    case FileDeparture(path) =>
      if DoFileDeparture(s, path).1.Some? {
        DepartKeepsLive(s, DoFileDeparture(s, path).1.value);
      }
    case _ =>
  }

  // --------------------------------------------------------------------- whole runs

  /** Every call of the run is careful at its turn. */
  ghost predicate CarefulRun(s: State, calls: seq<Call>)
    requires SessionInv(s)
    decreases |calls|
  {
    calls == [] ||
    (Careful(s, calls[0]) && (StepKeepsSessions(s, calls[0]); CarefulRun(Step(s, calls[0]), calls[1..])))
  }

  lemma {:induction false} RunKeepsLive(s: State, r: Registry, calls: seq<Call>)
    requires SessionInv(s) && SlotInv(s, r) && LiveInv(s) && CarefulRun(s, calls)
    ensures LiveInv(Run(s, calls))
    decreases |calls|
  {
    hide Step, Follow, Consistent, Careful, LiveInv, Shaped, Represents;
    if calls != [] {
      StepKeepsSessions(s, calls[0]);
      StepFollows(s, r, calls[0]);
      StepKeepsLive(s, calls[0]);
      RunKeepsLive(Step(s, calls[0]), Follow(r, calls[0], s.initialized, |s.slots|), calls[1..]);
    }
  }

  ghost predicate CarefulFromStart(sessions: nat, keys: nat, slots: nat, calls: seq<Call>) {
    FreshIsConsistent(sessions, keys, slots);
    CarefulRun(Fresh(sessions, keys, slots), calls)
  }

  /** After every careful run, each active operation names a live key object. */
  lemma OperationsNameLiveKeys(sessions: nat, keys: nat, slots: nat, calls: seq<Call>)
    requires CarefulFromStart(sessions, keys, slots, calls)
    ensures
      var s := Reach(sessions, keys, slots, calls);
      s.initialized ==> Live(s.sessions, s.keys.objs)
  {
    hide Run, CarefulRun, Live, OwnLive;
    ReachIsOwnLive(sessions, keys, slots, calls);
    var s := Reach(sessions, keys, slots, calls);
    if s.initialized {
      OwnLiveIsLive(s.sessions, s.keys.objs);
    }
  }

  /** After every careful run, a session with an operation on a private key object is
      logged in, to the token the object belongs to. */
  lemma PrivateKeysNeedLogin(sessions: nat, keys: nat, slots: nat, calls: seq<Call>, j: nat, kind: Kind)
    requires CarefulFromStart(sessions, keys, slots, calls)
    requires
      var s := Reach(sessions, keys, slots, calls);
      s.initialized && j < sessions && s.sessions[j].inUse && s.sessions[j].Get(kind).active
    ensures
      var s := Reach(sessions, keys, slots, calls);
      var key := s.sessions[j].Get(kind).key;
      && ValidKey(s, key) && s.keys.objs[key - 1].slot == s.sessions[j].slot
      && (s.keys.objs[key - 1].isPrivate ==> s.sessions[j].login != Public)
  {
    hide Run, CarefulRun, Reach;
    ReachIsOwnLive(sessions, keys, slots, calls);
    var s := Reach(sessions, keys, slots, calls);
    assert NamesOwnKey(s.sessions[j].Get(kind), s.keys.objs, s.sessions[j].slot, s.sessions[j].login);
  }

  lemma ReachIsOwnLive(sessions: nat, keys: nat, slots: nat, calls: seq<Call>)
    requires CarefulFromStart(sessions, keys, slots, calls)
    ensures LiveInv(Reach(sessions, keys, slots, calls))
  {
    hide Run, CarefulRun, SlotInv, OwnLive;
    FreshIsConsistent(sessions, keys, slots);
    FreshIsEmpty(sessions, keys, slots);
    RunKeepsLive(Fresh(sessions, keys, slots), NO_TOKENS, calls);
  }

  // ------------------------------------------------------- without the own-slot rule

  /** A session of another slot has an active operation on an object of this slot. */
  ghost predicate CrossUse(ss: seq<Session>, objs: seq<KeyObj>, slot: nat, backend: Backend) {
    exists j, k | 0 <= j < |ss| && ss[j].inUse && ss[j].slot != slot :: Holds(ss[j].Get(k), objs, slot, backend)
  }

  /** When the objects of a slot are cleared and the operations of its own sessions
      ended, liveness survives exactly when no session of another slot was using one
      of those objects. */
  lemma UnloadingIff(ss: seq<Session>, ss': seq<Session>, k: Keys, slot: nat, backend: Backend)
    requires Live(ss, k.objs) && |ss'| == |ss|
    requires forall j | 0 <= j < |ss| :: OpsOver(ss[j], ss'[j], slot) && (ss[j].slot != slot ==> ss'[j] == ss[j])
    ensures Live(ss', ClearKeys(k, 0, slot, backend).objs) <==> !CrossUse(ss, k.objs, slot, backend)
  {
    var objs' := ClearKeys(k, 0, slot, backend).objs;
    if !CrossUse(ss, k.objs, slot, backend) {
      forall j, kind | 0 <= j < |ss'| && ss'[j].inUse ensures NamesLiveKey(ss'[j].Get(kind), objs') {
        assert OpsOver(ss[j], ss'[j], slot) && NamesLiveKey(ss[j].Get(kind), k.objs);
        assert ss[j].slot != slot ==> !Holds(ss[j].Get(kind), k.objs, slot, backend);
      }
    } else {
      var j, kind :| 0 <= j < |ss| && ss[j].inUse && ss[j].slot != slot
        && Holds(ss[j].Get(kind), k.objs, slot, backend);
      assert ss'[j] == ss[j] && !NamesLiveKey(ss'[j].Get(kind), objs');
    }
  }

  /** slot_remove: which USB departures preserve liveness. */
  lemma UsbDepartureIff(s: State, vid: nat, pid: nat)
    requires Live(s.sessions, s.keys.objs)
    ensures
      var (s', i) := DoUsbDeparture(s, vid, pid);
      Live(s'.sessions, s'.keys.objs) <==>
        (i.Some? && s.slots[i.value].ccid ==> !CrossUse(s.sessions, s.keys.objs, i.value, UsbOps))
  {
    hide Live, Find, Matches, CrossUse, ClearKeys;
    var (s', i) := DoUsbDeparture(s, vid, pid);
    if i.Some? {
      UnloadingIff(s.sessions, s'.sessions, s.keys, i.value, UsbOps);
      if !s.slots[i.value].ccid {
        ZeroingKeepsLive(s.sessions, s.keys.objs, i.value);
      }
    }
  }

  lemma ZeroingKeepsLive(ss: seq<Session>, objs: seq<KeyObj>, slot: nat)
    requires Live(ss, objs)
    ensures Live(ZeroSessions(ss, slot), objs)
  {
    forall j, k | 0 <= j < |ss| && ZeroSessions(ss, slot)[j].inUse
      ensures NamesLiveKey(ZeroSessions(ss, slot)[j].Get(k), objs)
    {
      assert NamesLiveKey(ss[j].Get(k), objs);
    }
  }

  /** slot_remove_keystore: which file departures preserve liveness. */
  lemma FileDepartureIff(s: State, path: Path)
    requires Live(s.sessions, s.keys.objs)
    ensures
      var (s', i) := DoFileDeparture(s, path);
      Live(s'.sessions, s'.keys.objs) <==>
        (i.Some? ==> !CrossUse(s.sessions, s.keys.objs, i.value, KeystoreOps))
  {
    hide Live, Find, Matches, CrossUse, ClearKeys;
    var (s', i) := DoFileDeparture(s, path);
    if i.Some? {
      UnloadingIff(s.sessions, s'.sessions, s.keys, i.value, KeystoreOps);
    }
  }

  /** Slot `slot` leaves with the directory, scanning from slot `i`. */
  predicate Leaves(slots: seq<Slot>, i: nat, dir: string, slot: nat) {
    i <= slot < |slots| && Under(slots[slot], dir)
  }

  /** slot_remove_flash_dir at one glance: all sessions and all keystore objects of the
      slots that leave are cleared, and no others. */
  lemma {:induction false} DirDepartureForm(s: State, dir: string, i: nat)
    requires i <= |s.slots|
    ensures
      var s' := DoDirDeparture(s, dir, i);
      && |s'.sessions| == |s.sessions| && |s'.keys.objs| == |s.keys.objs|
      && (forall j | 0 <= j < |s.sessions| :: s'.sessions[j] ==
            if s.sessions[j].inUse && Leaves(s.slots, i, dir, s.sessions[j].slot) then ZERO_SESSION
            else s.sessions[j])
      && (forall j | 0 <= j < |s.keys.objs| :: s'.keys.objs[j] ==
            if LeavingObject(s.keys.objs[j], s.slots, i, dir) then ZERO_KEY else s.keys.objs[j])
    decreases |s.slots| - i
  {
    hide Under, ClearKeys, ZeroSessions;
    if i < |s.slots| {
      var s1 := if Under(s.slots[i], dir) then Depart(s, i) else s;
      assert forall j | i < j < |s.slots| :: s1.slots[j] == s.slots[j];
      DirDepartureForm(s1, dir, i + 1);
    }
  }

  predicate LeavingObject(o: KeyObj, slots: seq<Slot>, i: nat, dir: string) {
    o.inUse && o.backend == KeystoreOps && Leaves(slots, i, dir, o.slot)
  }

  /** A session of a slot that stays has an active operation on an object that leaves. */
  ghost predicate CrossUseOfDir(ss: seq<Session>, objs: seq<KeyObj>, slots: seq<Slot>, dir: string) {
    exists j, k | 0 <= j < |ss| && ss[j].inUse && !Leaves(slots, 1, dir, ss[j].slot) ::
      HoldsLeaving(ss[j].Get(k), objs, slots, dir)
  }

  predicate HoldsLeaving(o: Op, objs: seq<KeyObj>, slots: seq<Slot>, dir: string) {
    o.active && 1 <= o.key <= |objs| && LeavingObject(objs[o.key - 1], slots, 1, dir)
  }

  /** slot_remove_flash_dir: which departures of a directory preserve liveness. */
  lemma DirDepartureIff(s: State, dir: string)
    requires Live(s.sessions, s.keys.objs) && |s.slots| > 0
    ensures
      var s' := DoDirDeparture(s, dir, 1);
      Live(s'.sessions, s'.keys.objs) <==> !CrossUseOfDir(s.sessions, s.keys.objs, s.slots, dir)
  {
    hide Leaves, DoDirDeparture;
    DirDepartureForm(s, dir, 1);
    var s' := DoDirDeparture(s, dir, 1);
    var ss, objs := s.sessions, s.keys.objs;
    if !CrossUseOfDir(ss, objs, s.slots, dir) {
      forall j, k | 0 <= j < |ss| && s'.sessions[j].inUse ensures NamesLiveKey(s'.sessions[j].Get(k), s'.keys.objs) {
        assert NamesLiveKey(ss[j].Get(k), objs) && !HoldsLeaving(ss[j].Get(k), objs, s.slots, dir);
      }
    } else {
      var j, k :| 0 <= j < |ss| && ss[j].inUse && !Leaves(s.slots, 1, dir, ss[j].slot)
        && HoldsLeaving(ss[j].Get(k), objs, s.slots, dir);
      assert s'.sessions[j] == ss[j] && !NamesLiveKey(s'.sessions[j].Get(k), s'.keys.objs);
    }
  }

  /** C_DestroyObject preserves liveness whichever slots are involved. */
  lemma DestroyAlwaysKeepsLive(s: State, h: nat, key: nat)
    requires Live(s.sessions, s.keys.objs)
    ensures
      var s' := DoDestroy(s, h, key).0;
      Live(s'.sessions, s'.keys.objs)
  {
    hide Live, Drop;
    if DoDestroy(s, h, key).1 == RvOk {
      DestroyingKeepsLive(s.sessions, s.keys.objs, key, s.keys.objs[key - 1].(inUse := false, priv := NoPriv));
    }
  }

  /** A login that falls short preserves liveness exactly when no operation was using an
      object that it sweeps away. */
  lemma FailedLoginIff(s: State, h: nat, who: UserType, pinLen: nat, env: LoginEnv)
    requires SessionInv(s) && Shaped(s.slots, s.initialized) && Live(s.sessions, s.keys.objs)
    requires LoginFallsShort(s, h, who, pinLen, env)
    ensures
      var (s', rv), slot := DoLogIn(s, h, who, pinLen, env), s.sessions[h - 1].slot;
      && rv == DeviceMemory
      && (Live(s'.sessions, s'.keys.objs) <==>
            !InUseByOperation(s.sessions, s.keys.objs, slot, LoginBackend(s, slot)))
  {
    hide LoadToken, ReadOnlyExists, SlotLogin, Shaped, LoadFallsShort, Consistent;
    var slot := s.sessions[h - 1].slot;
    var s' := DoLogIn(s, h, who, pinLen, env).0;
    PivHasNoPath(s, slot);
    LoginFallsShortIff(s, h, who, pinLen, env);
    LoadTokenKeys(s, slot, pinLen, env);
    LoadTokenFrame(s, slot, pinLen, env);
    SweepingIff(s.sessions, s.keys.objs, s'.keys.objs, slot, LoginBackend(s, slot));
  }

  /** Any other login preserves it. */
  lemma LoginKeepsLive(s: State, h: nat, who: UserType, pinLen: nat, env: LoginEnv)
    requires SessionInv(s) && Shaped(s.slots, s.initialized) && Live(s.sessions, s.keys.objs)
    requires !LoginFallsShort(s, h, who, pinLen, env)
    ensures
      var s' := DoLogIn(s, h, who, pinLen, env).0;
      Live(s'.sessions, s'.keys.objs)
  {
    hide LoadToken, ReadOnlyExists, SlotLogin, Shaped, LoadFallsShort, Consistent, Live;
    if s.initialized && ValidHandle(s, h) {
      var slot := s.sessions[h - 1].slot;
      var s' := DoLogIn(s, h, who, pinLen, env).0;
      SlotLoginIsOwn(s, h);
      PivHasNoPath(s, slot);
      LoadTokenKeys(s, slot, pinLen, env);
      LoadTokenFrame(s, slot, pinLen, env);
      GrowingKeepsLive(s.sessions, s'.sessions, s.keys.objs, s'.keys.objs);
    }
  }

  lemma GrowingKeepsLive(ss: seq<Session>, ss': seq<Session>, objs: seq<KeyObj>, objs': seq<KeyObj>)
    requires Live(ss, objs) && AllKept(objs, objs') && |ss'| == |ss|
    requires forall j | 0 <= j < |ss| && ss'[j].inUse :: ss[j].inUse && forall k :: ss'[j].Get(k) == ss[j].Get(k)
    ensures Live(ss', objs')
  {
    forall j, k | 0 <= j < |ss'| && ss'[j].inUse ensures NamesLiveKey(ss'[j].Get(k), objs') {
      assert NamesLiveKey(ss[j].Get(k), objs);
    }
  }

  lemma SweepingIff(ss: seq<Session>, objs: seq<KeyObj>, objs': seq<KeyObj>, slot: nat, backend: Backend)
    requires Live(ss, objs) && Swept(objs, objs', slot, backend)
    ensures Live(ss, objs') <==> !InUseByOperation(ss, objs, slot, backend)
  {
    if InUseByOperation(ss, objs, slot, backend) {
      var j, k :| 0 <= j < |ss| && ss[j].inUse && Holds(ss[j].Get(k), objs, slot, backend);
      assert !NamesLiveKey(ss[j].Get(k), objs');
    } else {
      forall j, k | 0 <= j < |ss| && ss[j].inUse ensures NamesLiveKey(ss[j].Get(k), objs') {
        assert NamesLiveKey(ss[j].Get(k), objs) && !Holds(ss[j].Get(k), objs, slot, backend);
      }
    }
  }

  /** Which objects C_Logout clears on a slot, if any. */
  function LogoutBackend(t: Slot): Option<Backend> {
    if t.proto == PivProto && t.ccid then Some(UsbOps)
    else if t.proto == SoftProto && t.path != "" then Some(SoftOps)
    else if t.keystore.Some? then Some(KeystoreOps)
    else None
  }

  /** C_Logout: which logouts preserve liveness. */
  lemma LogOutIff(s: State, h: nat)
    requires SessionInv(s) && Shaped(s.slots, s.initialized) && Live(s.sessions, s.keys.objs)
    requires DoLogOut(s, h).1 == RvOk
    ensures
      var s', slot := DoLogOut(s, h).0, s.sessions[h - 1].slot;
      var backend := LogoutBackend(s.slots[slot]);
      Live(s'.sessions, s'.keys.objs) <==>
        (backend.Some? ==> !CrossUse(s.sessions, s.keys.objs, slot, backend.value))
  {
    hide Live, CrossUse, ClearKeys, Consistent, Shaped;
    var s', slot := DoLogOut(s, h).0, s.sessions[h - 1].slot;
    var backend := LogoutBackend(s.slots[slot]);
    KeystoresAreFlash(s, slot);
    UnloadTokenFrame(s, slot);
    if backend.Some? {
      UnloadingIff(s.sessions, s'.sessions, s.keys, slot, backend.value);
    } else {
      LoggingOutKeepsLive(s.sessions, s.keys.objs, slot);
    }
  }

  lemma LoggingOutKeepsLive(ss: seq<Session>, objs: seq<KeyObj>, slot: nat)
    requires Live(ss, objs)
    ensures Live(SetLogout(ss, slot), objs)
  {
    forall j, k | 0 <= j < |ss| && ss[j].inUse ensures NamesLiveKey(SetLogout(ss, slot)[j].Get(k), objs) {
      assert NamesLiveKey(ss[j].Get(k), objs);
    }
  }
}
