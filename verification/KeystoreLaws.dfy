/** Whether every keystore that a login loads is freed in the end. */
module KeystoreLaws {
  import opened Bytes
  import opened Tables
  import opened TableOps
  import opened SessionLaws
  import opened SlotLaws
  import opened LivenessLaws
  import opened ApiLaws
  import O = OwnershipLaws

  predicate Held(slots: seq<Slot>, ks: nat) {
    exists j | 0 <= j < |slots| :: slots[j].keystore == Some(ks)
  }

  /** A keystore that has been loaded, has not been freed, and that no slot points to. */
  predicate Lost(s: State, ks: nat) {
    ks < s.nextKs && ks !in s.freed && !Held(s.slots, ks)
  }

  /** A user login that loads a keystore for a slot whose keystore is still there: its
      last session was closed without a logout. */
  predicate Overwrites(s: State, c: Call)
    requires SlotsInTable(s)
  {
    && c.LogIn? && c.who == CkuUser && s.initialized && ValidHandle(s, c.h)
    && s.sessions[c.h - 1].login == Public
    && var t := s.slots[s.sessions[c.h - 1].slot];
    && LoadsKeystore(t) && t.keystore.Some? && 0 < c.pinLen <= PIN_MAX && c.env.load.Loaded?
  }

  ghost predicate SameLost(s: State, s': State) {
    forall ks: nat :: Lost(s', ks) <==> Lost(s, ks)
  }

  /** Keystores are neither loaded nor freed, and slots keep theirs. */
  predicate SameKeystores(s: State, s': State) {
    && (s'.freed, s'.nextKs) == (s.freed, s.nextKs) && |s'.slots| == |s.slots|
    && forall j | 0 <= j < |s.slots| :: s'.slots[j].keystore == s.slots[j].keystore
  }

  lemma SameKeystoresSameLost(s: State, s': State)
    requires SameKeystores(s, s')
    ensures SameLost(s, s')
  {
    forall ks: nat ensures Held(s'.slots, ks) <==> Held(s.slots, ks) {
      if Held(s.slots, ks) {
        var j :| 0 <= j < |s.slots| && s.slots[j].keystore == Some(ks);
        assert s'.slots[j].keystore == Some(ks);
      }
    }
  }

  /** A slot gives up its keystore to be freed. */
  lemma UnloadLosesNothing(s: State, i: nat)
    requires i < |s.slots|
    ensures SameLost(s, UnloadKeystore(s, i))
  {
    hide ClearKeys;
    var s' := UnloadKeystore(s, i);
    forall ks: nat ensures Lost(s', ks) <==> Lost(s, ks) {
      if Held(s.slots, ks) && ks !in s'.freed {
        var j :| 0 <= j < |s.slots| && s.slots[j].keystore == Some(ks);
        assert s'.slots[j].keystore == Some(ks);
      }
    }
  }

  lemma DepartLosesNothing(s: State, i: nat)
    requires i < |s.slots|
    ensures SameLost(s, Depart(s, i))
  {
    hide UnloadKeystore, Held, ZeroSessions;
    UnloadLosesNothing(s, i);
    SameKeystoresSameLost(UnloadKeystore(s, i), Depart(s, i));
  }

  lemma {:induction false} DirDepartureLosesNothing(s: State, dir: string, i: nat)
    requires i <= |s.slots|
    ensures SameLost(s, DoDirDeparture(s, dir, i))
    decreases |s.slots| - i
  {
    hide Depart, Under, Lost;
    if i < |s.slots| {
      if Under(s.slots[i], dir) {
        DepartLosesNothing(s, i);
      }
      DirDepartureLosesNothing(if Under(s.slots[i], dir) then Depart(s, i) else s, dir, i + 1);
    }
  }

  lemma LogOutLosesNothing(s: State, h: nat)
    requires SlotsInTable(s)
    ensures SameLost(s, DoLogOut(s, h).0)
  {
    hide ClearKeys, UnloadKeystore, Lost, Held, SetLogout;
    if DoLogOut(s, h).1 == RvOk {
      var slot := s.sessions[h - 1].slot;
      var t := s.slots[slot];
      var s1 := if t.proto == PivProto && t.ccid then UnloadPiv(s, slot) else s;
      var s2 := if t.proto == SoftProto && t.path != "" then s1.(keys := ClearKeys(s1.keys, 0, slot, SoftOps)) else s1;
      SameKeystoresSameLost(s, s2);
      UnloadLosesNothing(s2, slot);
      var s3 := UnloadToken(s, slot);
      SameKeystoresSameLost(s3, s3.(sessions := SetLogout(s3.sessions, slot)));
    }
  }

  /** At finalize every slot's keystore is freed. */
  lemma FinalizeLosesNothing(s: State)
    requires Shaped(s.slots, s.initialized)
    ensures SameLost(s, DoFinalize(s).0)
  {
    hide FreeAllKeys;
    var s' := DoFinalize(s).0;
    if s.initialized {
      forall ks: nat ensures Lost(s', ks) <==> Lost(s, ks) {
        if Held(s.slots, ks) {
          var j :| 0 <= j < |s.slots| && s.slots[j].keystore == Some(ks);
          assert ks in LoadedKeystores(s.slots);
        }
      }
    }
  }

  /** Loading into a slot loses what the slot held, and nothing else. */
  lemma LoadingLoses(s: State, slot: nat, load: LoadResult)
    requires slot < |s.slots| && O.KeystoresOwned(s.keys.objs, s.slots, s.freed, s.nextKs)
    ensures
      var s' := LoginKeystore(s, slot, load).0;
      forall ks: nat :: Lost(s', ks) <==> Lost(s, ks) || (load.Loaded? && s.slots[slot].keystore == Some(ks))
  {
    hide AddKeystore, ClearKeys;
    var s' := LoginKeystore(s, slot, load).0;
    forall ks: nat ensures Lost(s', ks) <==> Lost(s, ks) || (load.Loaded? && s.slots[slot].keystore == Some(ks)) {
      if load.Loaded? && ks < s'.nextKs {
        if ks == s.nextKs {
          assert s'.slots[slot].keystore == Some(ks) || ks in s'.freed;
        } else if Held(s.slots, ks) {
          var j :| 0 <= j < |s.slots| && s.slots[j].keystore == Some(ks);
          assert j != slot ==> s'.slots[j].keystore == Some(ks);
        }
      }
    }
  }

  lemma LoginLoses(s: State, h: nat, who: UserType, pinLen: nat, env: LoginEnv)
    requires SessionInv(s) && Shaped(s.slots, s.initialized) && O.OwnInv(s)
    ensures
      var c := LogIn(h, who, pinLen, env);
      forall ks: nat :: Lost(Step(s, c), ks) <==>
        Lost(s, ks) || (Overwrites(s, c) && s.slots[s.sessions[h - 1].slot].keystore == Some(ks))
  {
    hide LoginPiv, LoginSoft, LoginKeystore, Lost, SlotLogin, ReadOnlyExists, Shaped, Consistent,
      O.KeystoresOwned, O.SoftKeysOwned;
    var s' := DoLogIn(s, h, who, pinLen, env).0;
    if s.initialized && ValidHandle(s, h) {
      var slot := s.sessions[h - 1].slot;
      SlotLoginIsOwn(s, h);
      PivHasNoPath(s, slot);
      OtherLoginsKeep(s, slot, pinLen, env);
      var s1 := LoadToken(s, slot, pinLen, env).0;
      LoadingLoses(s, slot, env.load);
      SameKeystoresSameLost(s1, s1.(sessions := SetLogin(s1.sessions, slot, User)));
      SameKeystoresSameLost(s, s.(sessions := SetLogin(s.sessions, slot, So)));
    }
  }

  /** A login that does not get as far as loading a keystore into the slot. */
  lemma OtherLoginsKeep(s: State, slot: nat, pinLen: nat, env: LoginEnv)
    requires slot < |s.slots| && (s.slots[slot].proto == PivProto ==> s.slots[slot].path == "")
    ensures
      var s1 := LoadToken(s, slot, pinLen, env).0;
      if LoadsKeystore(s.slots[slot]) && 0 < pinLen <= PIN_MAX then s1 == LoginKeystore(s, slot, env.load).0
      else SameLost(s, s1)
  {
    hide LoginKeystore, AddPiv, AddSoft, ClearKeys, Lost;
    var s1 := LoadToken(s, slot, pinLen, env).0;
    if !(LoadsKeystore(s.slots[slot]) && 0 < pinLen <= PIN_MAX) {
      SameKeystoresSameLost(s, s1);
    }
  }

  lemma EventsLoseNothing(s: State, c: Call)
    requires SlotsInTable(s)
    requires c.UsbArrival? || c.UsbDeparture? || c.FileArrival? || c.FileDeparture? || c.DirDeparture?
    ensures SameLost(s, Step(s, c))
  {
    hide Find, Matches, Depart, DoDirDeparture, ClearKeys, Lost, ZeroSessions;
    match c
    case FileDeparture(path) =>
      if DoFileDeparture(s, path).1.Some? {
        DepartLosesNothing(s, DoFileDeparture(s, path).1.value);
      }
    case DirDeparture(dir) =>
      if s.initialized && |s.slots| > 0 {
        DirDepartureLosesNothing(s, dir, 1);
      }
    case UsbArrival(_, _, _) => SameKeystoresSameLost(s, Step(s, c));
    case UsbDeparture(_, _) => SameKeystoresSameLost(s, Step(s, c));
    case FileArrival(_) => SameKeystoresSameLost(s, Step(s, c));
    case _ =>
  }

  lemma SessionCallsLoseNothing(s: State, c: Call)
    requires SlotsInTable(s)
    requires
      || c.OpenSession? || c.CloseSession? || c.CloseAllSessions? || c.Begin? || c.End? || c.DestroyObject?
      || c.GenerateKeyPair?
    ensures SameLost(s, Step(s, c))
  {
    hide Lost, SlotLogin, FreeSession, FreeKey, AddPair, Drop, ForgetKeyEverywhere, ZeroSessions, Session.Set;
    SameKeystoresSameLost(s, Step(s, c));
  }

  lemma InitializeLosesNothing(s: State, softPath: string)
    requires O.OwnInv(s)
    ensures SameLost(s, DoInitialize(s, softPath).0)
  {
    hide Lost, O.KeystoresOwned, O.SoftKeysOwned;
    SameKeystoresSameLost(s, DoInitialize(s, softPath).0);
  }

  /** One call loses the keystore it overwrites, if it does; what is lost stays lost. */
  lemma StepLoses(s: State, c: Call)
    requires SessionInv(s) && Shaped(s.slots, s.initialized) && O.OwnInv(s)
    ensures forall ks: nat :: Lost(Step(s, c), ks) <==>
      Lost(s, ks) || (Overwrites(s, c) && s.slots[s.sessions[c.h - 1].slot].keystore == Some(ks))
  {
    hide Step, Lost, Shaped, Consistent, O.OwnInv;
    match c
    case LogIn(h, who, pinLen, env) => LoginLoses(s, h, who, pinLen, env);
    case LogOut(h) => StepIs(s, c); LogOutLosesNothing(s, h);
    case Initialize(softPath) => StepIs(s, c); InitializeLosesNothing(s, softPath);
    case Finalize => StepIs(s, c); FinalizeLosesNothing(s);
    case OpenSession(_, _, _) => SessionCallsLoseNothing(s, c);
    case CloseSession(_) => SessionCallsLoseNothing(s, c);
    case CloseAllSessions(_) => SessionCallsLoseNothing(s, c);
    case Begin(_, _, _, _) => SessionCallsLoseNothing(s, c);
    case End(_, _) => SessionCallsLoseNothing(s, c);
    case DestroyObject(_, _) => SessionCallsLoseNothing(s, c);
    case GenerateKeyPair(_, _, _, _) => SessionCallsLoseNothing(s, c);
    case _ => EventsLoseNothing(s, c);
  }

  lemma StepIs(s: State, c: Call)
    requires SlotsInTable(s)
    ensures c.LogOut? ==> Step(s, c) == DoLogOut(s, c.h).0
    ensures c.Initialize? ==> Step(s, c) == DoInitialize(s, c.softPath).0
    ensures c.Finalize? ==> Step(s, c) == DoFinalize(s).0
  {
    hide DoLogOut, DoInitialize, DoFinalize;
  }

  // --------------------------------------------------------------------- whole runs

  /** No login of the run overwrites a keystore. */
  ghost predicate Tidy(s: State, calls: seq<Call>)
    requires SessionInv(s)
    decreases |calls|
  {
    calls == [] ||
    (!Overwrites(s, calls[0]) && (StepKeepsSessions(s, calls[0]); Tidy(Step(s, calls[0]), calls[1..])))
  }

  ghost predicate SomeLost(s: State) {
    exists ks: nat :: Lost(s, ks)
  }

  lemma StepLosesIff(s: State, c: Call)
    requires SessionInv(s) && Shaped(s.slots, s.initialized) && O.OwnInv(s)
    ensures SomeLost(Step(s, c)) <==> SomeLost(s) || Overwrites(s, c)
  {
    hide Step, Lost, Shaped, Consistent, O.OwnInv;
    StepLoses(s, c);
    if SomeLost(s) {
      var ks :| Lost(s, ks);
      assert Lost(Step(s, c), ks);
    }
    if Overwrites(s, c) {
      var ks := s.slots[s.sessions[c.h - 1].slot].keystore.value;
      assert Lost(Step(s, c), ks);
    }
  }

  lemma {:induction false} RunLosesIff(s: State, r: Registry, calls: seq<Call>)
    requires SessionInv(s) && SlotInv(s, r) && O.OwnInv(s)
    ensures SomeLost(Run(s, calls)) <==> SomeLost(s) || !Tidy(s, calls)
    decreases |calls|
  {
    hide Step, Follow, Consistent, SomeLost, Overwrites, Shaped, Represents, O.OwnInv;
    if calls != [] {
      StepKeepsSessions(s, calls[0]);
      StepFollows(s, r, calls[0]);
      O.StepKeepsOwned(s, calls[0]);
      StepLosesIff(s, calls[0]);
      RunLosesIff(Step(s, calls[0]), Follow(r, calls[0], s.initialized, |s.slots|), calls[1..]);
    }
  }

  ghost predicate TidyFromStart(sessions: nat, keys: nat, slots: nat, calls: seq<Call>) {
    FreshIsConsistent(sessions, keys, slots);
    Tidy(Fresh(sessions, keys, slots), calls)
  }

  /** When the library has been finalized, every keystore ever loaded has been freed if and
      only if no login of the run overwrote the keystore of a slot. */
  lemma FinalizeFreesKeystoresIff(sessions: nat, keys: nat, slots: nat, calls: seq<Call>)
    requires !Reach(sessions, keys, slots, calls).initialized
    ensures
      var s := Reach(sessions, keys, slots, calls);
      (forall ks: nat | ks < s.nextKs :: ks in s.freed) <==> TidyFromStart(sessions, keys, slots, calls)
  {
    hide Run, Tidy, Lost, O.KeystoresOwned, O.SoftKeysOwned, Represents;
    var s0, s := Fresh(sessions, keys, slots), Reach(sessions, keys, slots, calls);
    FreshIsConsistent(sessions, keys, slots);
    FreshIsEmpty(sessions, keys, slots);
    O.FreshIsOwned(sessions, keys, slots);
    RunLosesIff(s0, NO_TOKENS, calls);
    O.ReachIsOwned(sessions, keys, slots, calls);
    LostWhenFinalized(s0);
    LostWhenFinalized(s);
  }

  lemma LostWhenFinalized(s: State)
    requires forall j | 0 <= j < |s.slots| :: s.slots[j].keystore.None?
    ensures SomeLost(s) <==> !forall ks: nat | ks < s.nextKs :: ks in s.freed
  {
    if ks: nat :| ks < s.nextKs && ks !in s.freed {
      assert Lost(s, ks);
    }
  }
}
