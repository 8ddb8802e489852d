/** What holds of the sessions after every run of calls and hotplug events. */
module SessionLaws {
  import opened Bytes
  import opened Tables
  import opened TableOps

  /** Per session: it is on a slot whose token is there, its state is the one its login
      and kind imply, and the SO has read/write sessions only. Per slot: all sessions
      share one login state. */
  ghost predicate Consistent(ss: seq<Session>, slots: seq<Slot>) {
    && (forall j | 0 <= j < |ss| && ss[j].inUse ::
          && ss[j].slot < |slots| && slots[ss[j].slot].inUse && slots[ss[j].slot].present
          && ss[j].state == StateOf(ss[j].login, ss[j].rw)
          && (ss[j].login == So ==> ss[j].rw))
    && (forall j, k | 0 <= j < |ss| && 0 <= k < |ss| && ss[j].inUse && ss[k].inUse ::
          ss[j].slot == ss[k].slot ==> ss[j].login == ss[k].login)
  }

  /** A record that is not in use is all zero. */
  predicate Clean(ss: seq<Session>) {
    forall j | 0 <= j < |ss| && !ss[j].inUse :: ss[j] == ZERO_SESSION
  }

  ghost predicate SessionInv(s: State) {
    SlotsInTable(s) && Clean(s.sessions) && (s.initialized ==> Consistent(s.sessions, s.slots))
  }

  /** Same slots, as far as sessions can tell. */
  predicate SameMarks(a: seq<Slot>, b: seq<Slot>) {
    |a| == |b| && forall i | 0 <= i < |a| :: a[i].inUse == b[i].inUse && a[i].present == b[i].present
  }

  /** No slot lost its token. */
  predicate MoreMarks(a: seq<Slot>, b: seq<Slot>) {
    |a| == |b| && forall i | 0 <= i < |a| :: (a[i].inUse ==> b[i].inUse) && (a[i].present ==> b[i].present)
  }

  // ---------------------------------------------------------------- table steps

  lemma ZeroingKeeps(ss: seq<Session>, slots: seq<Slot>, slots': seq<Slot>, i: nat)
    requires Consistent(ss, slots) && |slots| == |slots'|
    requires forall k | 0 <= k < |slots| && k != i ::
      slots'[k].inUse == slots[k].inUse && slots'[k].present == slots[k].present
    ensures Consistent(ZeroSessions(ss, i), slots')
  {}

  lemma LoginKeeps(ss: seq<Session>, slots: seq<Slot>, slot: nat, login: Login)
    requires Consistent(ss, slots) && (login == So ==> !ReadOnlyExists(ss, slot))
    ensures Consistent(SetLogin(ss, slot, login), slots)
  {}

  lemma LogoutKeeps(ss: seq<Session>, slots: seq<Slot>, slot: nat)
    requires Consistent(ss, slots)
    ensures Consistent(SetLogout(ss, slot), slots)
  {}

  lemma OpeningKeeps(ss: seq<Session>, slots: seq<Slot>, i: nat, slot: nat, rw: bool)
    requires Consistent(ss, slots) && i < |ss| && !ss[i].inUse
    requires slot < |slots| && slots[slot].inUse && slots[slot].present
    requires SlotLogin(ss, slot, 0) == So ==> rw
    ensures
      var login := SlotLogin(ss, slot, 0);
      var entry := ZERO_SESSION.(inUse := true, slot := slot, rw := rw, login := login, state := StateOf(login, rw));
      Consistent(ss[i := entry], slots)
  {}

  lemma MarksKeep(ss: seq<Session>, slots: seq<Slot>, slots': seq<Slot>)
    requires Consistent(ss, slots) && MoreMarks(slots, slots')
    ensures Consistent(ss, slots')
  {}

  lemma ForgettingKeeps(ss: seq<Session>, slots: seq<Slot>, key: nat)
    requires Consistent(ss, slots)
    ensures Consistent(ForgetKeyEverywhere(ss, key), slots)
  {}

  /** Replacing a session by one that differs only in its operations. */
  lemma OperationKeeps(ss: seq<Session>, slots: seq<Slot>, i: nat, kind: Kind, o: Op)
    requires Consistent(ss, slots) && i < |ss|
    ensures Consistent(ss[i := ss[i].Set(kind, o)], slots)
  {}

  // ------------------------------------------------------------------ API frames

  ghost predicate SameSessions(s: State, s': State) {
    s'.initialized == s.initialized && s'.sessions == s.sessions && SameMarks(s.slots, s'.slots)
  }

  lemma LoginPivFrame(s: State, slot: nat, pinLen: nat, piv: CardResult)
    requires slot < |s.slots|
    ensures SameSessions(s, LoginPiv(s, slot, pinLen, piv).0)
  {
    hide AddPiv, ClearKeys;
  }

  lemma LoginKeystoreFrame(s: State, slot: nat, load: LoadResult)
    requires slot < |s.slots|
    ensures SameSessions(s, LoginKeystore(s, slot, load).0)
  {
    hide AddKeystore, ClearKeys;
  }

  lemma LoadTokenFrame(s: State, slot: nat, pinLen: nat, env: LoginEnv)
    requires slot < |s.slots|
    ensures SameSessions(s, LoadToken(s, slot, pinLen, env).0)
  {
    hide LoginPiv, LoginKeystore, AddSoft, ClearKeys;
    LoginPivFrame(s, slot, pinLen, env.piv);
    var s1 := if s.slots[slot].proto == PivProto then LoginPiv(s, slot, pinLen, env.piv).0 else s;
    LoginKeystoreFrame(s1, slot, env.load);
  }

  lemma UnloadTokenFrame(s: State, slot: nat)
    requires slot < |s.slots|
    ensures SameSessions(s, UnloadToken(s, slot))
  {
    hide ClearKeys;
  }

  lemma LogInKeeps(s: State, h: nat, who: UserType, pinLen: nat, env: LoginEnv)
    requires SessionInv(s)
    ensures
      var s' := DoLogIn(s, h, who, pinLen, env).0;
      SessionInv(s') && |s'.slots| == |s.slots| && |s'.sessions| == |s.sessions|
  {
    hide LoadToken, Consistent, ReadOnlyExists, SetLogin;
    if s.initialized && ValidHandle(s, h) {
      var slot := s.sessions[h - 1].slot;
      LoadTokenFrame(s, slot, pinLen, env);
      var s1 := LoadToken(s, slot, pinLen, env).0;
      MarksKeep(s.sessions, s.slots, s1.slots);
      LoginKeeps(s1.sessions, s1.slots, slot, User);
      if !ReadOnlyExists(s.sessions, slot) {
        LoginKeeps(s.sessions, s.slots, slot, So);
      }
    }
  }

  lemma LogOutKeeps(s: State, h: nat)
    requires SessionInv(s)
    ensures
      var s' := DoLogOut(s, h).0;
      SessionInv(s') && |s'.slots| == |s.slots| && |s'.sessions| == |s.sessions|
  {
    hide UnloadToken, Consistent;
    if s.initialized && ValidHandle(s, h) {
      var slot := s.sessions[h - 1].slot;
      UnloadTokenFrame(s, slot);
      MarksKeep(s.sessions, s.slots, UnloadToken(s, slot).slots);
      LogoutKeeps(s.sessions, UnloadToken(s, slot).slots, slot);
    }
  }

  lemma DepartKeeps(s: State, i: nat)
    requires SessionInv(s) && i < |s.slots|
    ensures SessionInv(Depart(s, i)) && |Depart(s, i).sessions| == |s.sessions|
  {
    hide Consistent, ClearKeys;
    if s.initialized {
      ZeroingKeeps(s.sessions, s.slots, Depart(s, i).slots, i);
    }
  }

  lemma {:induction false} DirDepartureKeeps(s: State, dir: string, i: nat)
    requires SessionInv(s) && i <= |s.slots|
    ensures
      var s' := DoDirDeparture(s, dir, i);
      SessionInv(s') && |s'.sessions| == |s.sessions|
    decreases |s.slots| - i
  {
    hide SessionInv, Depart, Under;
    if i < |s.slots| {
      if Under(s.slots[i], dir) {
        DepartKeeps(s, i);
        DirDepartureKeeps(Depart(s, i), dir, i + 1);
      } else {
        DirDepartureKeeps(s, dir, i + 1);
      }
    }
  }

  lemma UsbDepartureKeeps(s: State, vid: nat, pid: nat)
    requires SessionInv(s)
    ensures
      var s' := DoUsbDeparture(s, vid, pid).0;
      SessionInv(s') && |s'.slots| == |s.slots| && |s'.sessions| == |s.sessions|
  {
    hide Consistent, ClearKeys, Find, Matches;
    var (s', i) := DoUsbDeparture(s, vid, pid);
    if i.Some? {
      ZeroingKeeps(s.sessions, s.slots, s'.slots, i.value);
    }
  }

  lemma ArrivalKeeps(s: State, slots': seq<Slot>)
    requires SessionInv(s) && MoreMarks(s.slots, slots')
    ensures SessionInv(s.(slots := slots'))
  {
    hide Consistent;
    if s.initialized {
      MarksKeep(s.sessions, s.slots, slots');
    }
  }

  // --------------------------------------------------------------------- results

  /** The invariant, and tables of the same size. */
  ghost predicate Kept(s: State, s': State) {
    SessionInv(s') && |s'.slots| == |s.slots| && |s'.sessions| == |s.sessions|
  }

  lemma OpenCloseKeep(s: State, c: Call)
    requires SessionInv(s) && (c.OpenSession? || c.CloseSession? || c.CloseAllSessions?)
    ensures Kept(s, Step(s, c))
  {
    hide Consistent, SlotLogin;
    if s.initialized {
      match c
      case OpenSession(slot, serial, rw) =>
        if DoOpen(s, slot, serial, rw).1 == RvOk {
          OpeningKeeps(s.sessions, s.slots, FreeSession(s.sessions, 0), slot, rw);
        }
      case CloseSession(h) =>
        if ValidHandle(s, h) {
          ClosingKeeps(s.sessions, s.slots, h - 1);
        }
      case CloseAllSessions(slot) => ZeroingKeeps(s.sessions, s.slots, s.slots, slot);
    }
  }

  lemma EndingKeeps(s: State, h: nat, kind: Kind, o: Op)
    requires SessionInv(s) && ValidHandle(s, h)
    ensures SessionInv(s.(sessions := s.sessions[h - 1 := s.sessions[h - 1].Set(kind, o)]))
  {
    hide Consistent, Session.Set;
    if s.initialized {
      OperationKeeps(s.sessions, s.slots, h - 1, kind, o);
    }
  }

  lemma ObjectCallsKeep(s: State, c: Call)
    requires SessionInv(s) && (c.Begin? || c.End? || c.DestroyObject? || c.GenerateKeyPair?)
    ensures Kept(s, Step(s, c))
  {
    hide Consistent, AddPair, FreeKey, Drop, Session.Set, Clean;
    match c
    case Begin(h, kind, key, admissible) =>
      if ValidHandle(s, h) {
        EndingKeeps(s, h, kind, Op(true, key));
        EndingKeeps(s, h, kind, s.sessions[h - 1].Get(kind).(active := false));
      }
    case End(h, kind) =>
      if ValidHandle(s, h) {
        EndingKeeps(s, h, kind, s.sessions[h - 1].Get(kind).(active := false));
      }
    case DestroyObject(h, key) => DestroyingKeeps(s, h, key);
    case _ =>
  }

  lemma DestroyingKeeps(s: State, h: nat, key: nat)
    requires SessionInv(s)
    ensures Kept(s, DoDestroy(s, h, key).0)
  {
    hide Consistent, Drop;
    if s.initialized {
      ForgettingKeeps(s.sessions, s.slots, key);
    }
  }

  lemma EventsKeep(s: State, c: Call)
    requires SessionInv(s)
    requires c.UsbArrival? || c.UsbDeparture? || c.FileArrival? || c.FileDeparture? || c.DirDeparture?
    ensures Kept(s, Step(s, c))
  {
    hide Consistent, DoDirDeparture, DoUsbDeparture, Depart, Find, Matches;
    match c
    case UsbArrival(vid, pid, desc) => ArrivalKeeps(s, DoUsbArrival(s, vid, pid, desc).0.slots);
    case UsbDeparture(vid, pid) => UsbDepartureKeeps(s, vid, pid);
    case FileArrival(path) => ArrivalKeeps(s, DoFileArrival(s, path).0.slots);
    case FileDeparture(path) =>
      if DoFileDeparture(s, path).1.Some? {
        DepartKeeps(s, DoFileDeparture(s, path).1.value);
      }
    case DirDeparture(dir) =>
      if s.initialized && |s.slots| > 0 {
        DirDepartureKeeps(s, dir, 1);
      }
  }

  lemma InitFinalizeKeep(s: State, c: Call)
    requires SessionInv(s) && (c.Initialize? || c.Finalize?)
    ensures Kept(s, Step(s, c))
  {
    hide FreeAllKeys, LoadedKeystores;
  }

  lemma StepKeepsSessions(s: State, c: Call)
    requires SessionInv(s)
    ensures Kept(s, Step(s, c))
  {
    hide Consistent, DoLogIn, DoLogOut;
    match c
    case LogIn(h, who, pinLen, env) => LogInKeeps(s, h, who, pinLen, env);
    case LogOut(h) => LogOutKeeps(s, h);
    case Initialize(_) => InitFinalizeKeep(s, c);
    case Finalize => InitFinalizeKeep(s, c);
    case OpenSession(_, _, _) => OpenCloseKeep(s, c);
    case CloseSession(_) => OpenCloseKeep(s, c);
    case CloseAllSessions(_) => OpenCloseKeep(s, c);
    case Begin(_, _, _, _) => ObjectCallsKeep(s, c);
    case End(_, _) => ObjectCallsKeep(s, c);
    case DestroyObject(_, _) => ObjectCallsKeep(s, c);
    case GenerateKeyPair(_, _, _, _) => ObjectCallsKeep(s, c);
    case _ => EventsKeep(s, c);
  }

  lemma ClosingKeeps(ss: seq<Session>, slots: seq<Slot>, i: nat)
    requires Consistent(ss, slots) && i < |ss|
    ensures Consistent(ss[i := ZERO_SESSION], slots)
  {}

  /** Any sequence of calls and events. */
  ghost function Run(s: State, calls: seq<Call>): (r: State)
    requires SessionInv(s)
    ensures SessionInv(r) && |r.slots| == |s.slots| && |r.sessions| == |s.sessions|
    decreases |calls|
  {
    if calls == [] then s
    else
      StepKeepsSessions(s, calls[0]);
      Run(Step(s, calls[0]), calls[1..])
  }

  lemma FreshIsConsistent(sessions: nat, keys: nat, slots: nat)
    ensures SessionInv(Fresh(sessions, keys, slots))
  {}

  /** The state of a freshly loaded library after a run; tables of any size. */
  ghost function Reach(sessions: nat, keys: nat, slots: nat, calls: seq<Call>): (r: State)
    ensures SessionInv(r) && |r.slots| == slots && |r.sessions| == sessions
  {
    FreshIsConsistent(sessions, keys, slots);
    Run(Fresh(sessions, keys, slots), calls)
  }

  /** After every run: any two open sessions on a slot share one login state, each
      session's state is the one its login and kind imply, an SO login means every
      session of the slot is read/write, and every open session's slot has its token
      present. */
  lemma SessionsAreConsistent(sessions: nat, keys: nat, slots: nat, calls: seq<Call>, j: nat, k: nat)
    requires
      var s := Reach(sessions, keys, slots, calls);
      s.initialized && j < sessions && k < sessions && s.sessions[j].inUse && s.sessions[k].inUse
    ensures
      var s := Reach(sessions, keys, slots, calls);
      var a, b := s.sessions[j], s.sessions[k];
      && a.state == StateOf(a.login, a.rw)
      && a.slot < slots && s.slots[a.slot].inUse && s.slots[a.slot].present
      && (a.slot == b.slot ==> a.login == b.login && (a.login == So ==> b.rw))
  {
    hide Reach;
  }
}
