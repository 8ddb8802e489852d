/** A run that breaks the own-slot rule of LivenessLaws, worked out state by state: a
    user of the soft token signs with a key of a keystore token whose file then
    disappears. C_SignInit does not compare slots, so nothing prevents it. */
module CrossSlotRun {
  import opened Bytes
  import opened Tables
  import opened TableOps
  import opened SessionLaws
  import opened LivenessLaws

  const ENV := LoginEnv(None, PivDevice, Loaded([true]))
  const FILE: Path := "f"

  const RUN := [
    Initialize(""), FileArrival(FILE), OpenSession(1, true, true), LogIn(1, CkuUser, 4, ENV),
    OpenSession(0, true, true), LogIn(2, CkuUser, 0, ENV), Begin(2, Sign, 1, true), FileDeparture(FILE)]

  const SOFT := ZERO_SLOT.(inUse := true, present := true)
  const TOKEN := ZERO_SLOT.(inUse := true, present := true, proto := FlashProto, path := FILE)
  const ON_TOKEN := ZERO_SESSION.(inUse := true, slot := 1, rw := true, state := RwPublic)
  const ON_SOFT := ZERO_SESSION.(inUse := true, slot := 0, rw := true, state := RwPublic)
  const KEY := KeyObj(true, 1, KeystoreOps, KeystoreEntry(0), true)
  const SIGNING := WithLogin(ON_SOFT, User).(sign := Op(true, 1))

  function StateWith(ss: seq<Session>, obj: KeyObj, token: Slot, freed: set<nat>, nextKs: nat): State {
    State(true, ss, Keys([obj], map[], [], 0), [SOFT, token], freed, nextKs)
  }

  const S1 := StateWith([ZERO_SESSION, ZERO_SESSION], ZERO_KEY, ZERO_SLOT, {}, 0)
  const S2 := StateWith([ZERO_SESSION, ZERO_SESSION], ZERO_KEY, TOKEN, {}, 0)
  const S3 := StateWith([ON_TOKEN, ZERO_SESSION], ZERO_KEY, TOKEN, {}, 0)
  const LOADED := TOKEN.(keystore := Some(0))
  const S4 := StateWith([WithLogin(ON_TOKEN, User), ZERO_SESSION], KEY, LOADED, {}, 1)
  const S5 := StateWith([WithLogin(ON_TOKEN, User), ON_SOFT], KEY, LOADED, {}, 1)
  const S6 := StateWith([WithLogin(ON_TOKEN, User), WithLogin(ON_SOFT, User)], KEY, LOADED, {}, 1)
  const S7 := StateWith([WithLogin(ON_TOKEN, User), SIGNING], KEY, LOADED, {}, 1)
  const S8 := StateWith([ZERO_SESSION, SIGNING], ZERO_KEY, TOKEN.(present := false), {0}, 1)

  lemma FirstTwo()
    ensures Step(Fresh(2, 1, 2), RUN[0]) == S1 && Step(S1, RUN[1]) == S2
  {
    assert Step(Fresh(2, 1, 2), RUN[0]) == S1;
    assert Find(S1.slots, ByPath(FILE), 1) == 2 && Find(S1.slots, Unused, 1) == 1;
    assert S1.slots[1 := TOKEN] == S2.slots;
  }

  lemma OpenOnToken()
    ensures Step(S2, RUN[2]) == S3
  {
    assert SlotLogin(S2.sessions, 1, 0) == Public && FreeSession(S2.sessions, 0) == 0;
    assert S2.sessions[0 := ON_TOKEN] == S3.sessions;
  }

  lemma LogInToToken()
    ensures Step(S3, RUN[3]) == S4
  {
    assert SlotLogin(S3.sessions, 1, 0) == Public;
    var k := S3.keys;
    assert FreeKey(k.objs, 0) == 0 && k.objs[0 := KEY] == [KEY];
    assert AddKeystore(k, 1, 0, 1) == (k.(objs := [KEY]), 0);
    var s1 := S3.(keys := k.(objs := [KEY]), nextKs := 1, slots := [SOFT, LOADED]);
    assert S3.slots[1 := LOADED] == [SOFT, LOADED];
    assert LoadToken(S3, 1, 4, ENV) == (s1, RvOk);
    assert SetLogin(S3.sessions, 1, User) == S4.sessions;
  }

  lemma OpenOnSoft()
    ensures Step(S4, RUN[4]) == S5
  {
    assert SlotLogin(S4.sessions, 0, 0) == Public && FreeSession(S4.sessions, 0) == 1;
    assert S4.sessions[1 := ON_SOFT] == S5.sessions;
  }

  lemma LogInToSoft()
    ensures Step(S5, RUN[5]) == S6
  {
    assert SlotLogin(S5.sessions, 0, 0) == Public;
    assert LoadToken(S5, 0, 0, ENV) == (S5, RvOk);
    assert SetLogin(S5.sessions, 0, User) == S6.sessions;
  }

  lemma SignAndLose()
    ensures Step(S6, RUN[6]) == S7 && Step(S7, RUN[7]) == S8
  {
    assert S6.sessions[1 := SIGNING] == S7.sessions;
    assert Find(S7.slots, ByPathPresent(FILE), 1) == 1;
    assert ClearKeys(S7.keys, 0, 1, KeystoreOps) == S8.keys;
    assert ZeroSessions(S7.sessions, 1) == S8.sessions;
    assert S7.slots[1 := TOKEN][1 := TOKEN.(present := false)] == S8.slots;
  }

  lemma RunStep(s: State, calls: seq<Call>, s': State)
    requires SessionInv(s) && calls != [] && Step(s, calls[0]) == s'
    ensures SessionInv(s') && Run(s, calls) == Run(s', calls[1..])
  {
    StepKeepsSessions(s, calls[0]);
  }

  /** The run is possible and ends with an active operation on a key that is gone. */
  lemma LeavesDeadKey()
    ensures
      var s := Reach(2, 1, 2, RUN);
      s.initialized && !Live(s.sessions, s.keys.objs)
  {
    hide Step, SessionInv;
    FreshIsConsistent(2, 1, 2);
    FirstTwo();
    OpenOnToken();
    LogInToToken();
    OpenOnSoft();
    LogInToSoft();
    SignAndLose();
    RunStep(Fresh(2, 1, 2), RUN, S1);
    RunStep(S1, RUN[1..], S2);
    RunStep(S2, RUN[2..], S3);
    RunStep(S3, RUN[3..], S4);
    RunStep(S4, RUN[4..], S5);
    RunStep(S5, RUN[5..], S6);
    RunStep(S6, RUN[6..], S7);
    RunStep(S7, RUN[7..], S8);
    assert !NamesLiveKey(S8.sessions[1].Get(Sign), S8.keys.objs);
  }
}
