/** Which objects need a login: what the private mark of an object means after any run. */
module PrivacyLaws {
  import opened Bytes
  import opened Tables
  import opened TableOps
  import opened SessionLaws
  import opened ApiLaws

  /** The object of a keystore token is private; any other belongs to the soft token or a
      USB token, whatever its mark. */
  predicate Marked(o: KeyObj) {
    o.inUse ==> o.backend == SoftOps || o.backend == UsbOps || (o.backend == KeystoreOps && o.isPrivate)
  }

  predicate AllMarked(objs: seq<KeyObj>) {
    forall i | 0 <= i < |objs| :: Marked(objs[i])
  }

  lemma {:induction false} AddPivMarks(k: Keys, slot: nat, priv: Priv, n: nat)
    requires AllMarked(k.objs)
    ensures AllMarked(AddPiv(k, slot, priv, n).0.objs)
    decreases n
  {
    var i := FreeKey(k.objs, 0);
    if n > 0 && i < |k.objs| {
      AddPivMarks(k.(objs := k.objs[i := Claimed(k.objs[i], slot, UsbOps, priv)]), slot, priv, n - 1);
    }
  }

  lemma {:induction false} AddKeystoreMarks(k: Keys, slot: nat, ks: nat, n: nat)
    requires AllMarked(k.objs)
    ensures AllMarked(AddKeystore(k, slot, ks, n).0.objs)
    decreases n
  {
    var i := FreeKey(k.objs, 0);
    if n > 0 && i < |k.objs| {
      var o := KeyObj(true, slot, KeystoreOps, KeystoreEntry(ks), true);
      AddKeystoreMarks(k.(objs := k.objs[i := o]), slot, ks, n - 1);
    }
  }

  lemma {:induction false} AddSoftMarks(k: Keys, slot: nat, importable: seq<bool>)
    requires AllMarked(k.objs)
    ensures AllMarked(AddSoft(k, slot, importable).0.objs)
    decreases |importable|
  {
    if importable != [] {
      var i := FreeKey(k.objs, 0);
      if i == |k.objs| || !importable[0] {
        AddSoftMarks(k, slot, importable[1..]);
      } else {
        var o := Claimed(k.objs[i], slot, SoftOps, SoftKey(k.next));
        AddSoftMarks(Keys(k.objs[i := o], k.refs[k.next := 0], k.released, k.next + 1), slot, importable[1..]);
      }
    }
  }

  lemma LoadTokenMarks(s: State, slot: nat, pinLen: nat, env: LoginEnv)
    requires slot < |s.slots| && AllMarked(s.keys.objs)
    ensures AllMarked(LoadToken(s, slot, pinLen, env).0.keys.objs)
  {
    hide AddPiv, AddSoft, AddKeystore;
    AddPivMarks(s.keys, slot, PivKey, 4);
    var n := if env.piv.PivOpen? && env.piv.certs < 4 then env.piv.certs else 4;
    AddPivMarks(AddPiv(s.keys, slot, PivKey, 4).0, slot, NoPriv, n);
    var s1 := if s.slots[slot].proto == PivProto then LoginPiv(s, slot, pinLen, env.piv).0 else s;
    assert AllMarked(s1.keys.objs);
    if env.load.Loaded? {
      AddSoftMarks(s1.keys, slot, env.load.importable);
      AddKeystoreMarks(s1.keys, slot, s1.nextKs, |env.load.importable|);
    }
  }

  lemma {:induction false} DirDepartureMarks(s: State, dir: string, i: nat)
    requires i <= |s.slots| && AllMarked(s.keys.objs)
    ensures AllMarked(DoDirDeparture(s, dir, i).keys.objs)
    decreases |s.slots| - i
  {
    hide Under;
    if i < |s.slots| {
      DirDepartureMarks(if Under(s.slots[i], dir) then Depart(s, i) else s, dir, i + 1);
    }
  }

  lemma LogInMarks(s: State, h: nat, who: UserType, pinLen: nat, env: LoginEnv)
    requires SlotsInTable(s) && AllMarked(s.keys.objs)
    ensures AllMarked(DoLogIn(s, h, who, pinLen, env).0.keys.objs)
  {
    hide LoadToken, AllMarked, SlotLogin, ReadOnlyExists;
    if s.initialized && ValidHandle(s, h) {
      LoadTokenMarks(s, s.sessions[h - 1].slot, pinLen, env);
    }
  }

  lemma LogOutMarks(s: State, h: nat)
    requires SlotsInTable(s) && AllMarked(s.keys.objs)
    ensures AllMarked(DoLogOut(s, h).0.keys.objs)
  {
    hide SetLogout;
  }

  lemma InitFinalizeMark(s: State, c: Call)
    requires SlotsInTable(s) && AllMarked(s.keys.objs) && (c.Initialize? || c.Finalize?)
    ensures AllMarked(Step(s, c).keys.objs)
  {
    hide LoadedKeystores;
  }

  lemma ObjectCallsMark(s: State, c: Call)
    requires SlotsInTable(s) && AllMarked(s.keys.objs) && (c.DestroyObject? || c.GenerateKeyPair?)
    ensures AllMarked(Step(s, c).keys.objs)
  {
    hide ForgetKeyEverywhere, FreePriv;
  }

  lemma EventsMark(s: State, c: Call)
    requires SlotsInTable(s) && AllMarked(s.keys.objs)
    requires c.UsbArrival? || c.UsbDeparture? || c.FileArrival? || c.FileDeparture? || c.DirDeparture?
    ensures AllMarked(Step(s, c).keys.objs)
  {
    hide Find, Matches;
    match c
    case DirDeparture(dir) =>
      if s.initialized && |s.slots| > 0 {
        DirDepartureMarks(s, dir, 1);
      }
    case _ =>
  }

  lemma StepMarks(s: State, c: Call)
    requires SlotsInTable(s) && AllMarked(s.keys.objs)
    ensures AllMarked(Step(s, c).keys.objs)
  {
    hide AllMarked, DoLogIn, DoLogOut, DoFinalize, DoInitialize, DoDestroy, DoGenerate, DoUsbArrival, DoUsbDeparture,
      DoFileArrival, DoFileDeparture, DoDirDeparture;
    match c
    case LogIn(h, who, pinLen, env) => LogInMarks(s, h, who, pinLen, env);
    case Initialize(_) => InitFinalizeMark(s, c);
    case Finalize => InitFinalizeMark(s, c);
    case LogOut(h) => LogOutMarks(s, h);
    case DestroyObject(_, _) => ObjectCallsMark(s, c);
    case GenerateKeyPair(_, _, _, _) => ObjectCallsMark(s, c);
    case OpenSession(_, _, _) =>
    case CloseSession(_) =>
    case CloseAllSessions(_) =>
    case Begin(_, _, _, _) =>
    case End(_, _) =>
    case _ => EventsMark(s, c);
  }

  lemma {:induction false} RunMarks(s: State, calls: seq<Call>)
    requires SessionInv(s) && AllMarked(s.keys.objs)
    ensures AllMarked(Run(s, calls).keys.objs)
    decreases |calls|
  {
    hide Step, Consistent, AllMarked;
    if calls != [] {
      StepKeepsSessions(s, calls[0]);
      StepMarks(s, calls[0]);
      RunMarks(Step(s, calls[0]), calls[1..]);
    }
  }

  /** After every run, a session that is not logged in can begin an operation on exactly the
      live objects that are not marked private, certificates aside. These are never objects
      of a keystore token; they are objects of the soft token or of a USB token, which stay
      loaded until logout or departure even when all sessions have been closed. */
  lemma PublicSessionCanBeginIff(
      sessions: nat, keys: nat, slots: nat, calls: seq<Call>, h: nat, kind: Kind, key: nat, admissible: bool)
    requires
      var s := Reach(sessions, keys, slots, calls);
      && s.initialized && ValidHandle(s, h) && s.sessions[h - 1].login == Public
      && !s.sessions[h - 1].Get(kind).active
    ensures
      var s := Reach(sessions, keys, slots, calls);
      var begun := DoBegin(s, h, kind, key, admissible).1 == RvOk;
      && (begun <==>
            && ValidKey(s, key) && !s.keys.objs[key - 1].isPrivate
            && (kind == Encrypt || !IsCertificate(s.keys.objs[key - 1])) && admissible)
      && (begun ==> s.keys.objs[key - 1].backend == SoftOps || s.keys.objs[key - 1].backend == UsbOps)
  {
    hide Run, DoBegin;
    var s := Reach(sessions, keys, slots, calls);
    FreshIsConsistent(sessions, keys, slots);
    assert AllMarked(Fresh(sessions, keys, slots).keys.objs);
    RunMarks(Fresh(sessions, keys, slots), calls);
    BeginOutcome(s, h, kind, key, admissible);
    if ValidKey(s, key) {
      assert Marked(s.keys.objs[key - 1]);
    }
  }
}
