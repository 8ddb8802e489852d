/** What each API call and each hotplug event does to the tables, and runs of them. */
module TableOps {
  import opened Bytes
  import opened Tables

  /** `freed` are the keystores whose memory has been released, `nextKs` the next fresh
      one. */
  datatype State = State(
    initialized: bool, sessions: seq<Session>, keys: Keys, slots: seq<Slot>,
    freed: set<nat>, nextKs: nat)

  datatype Rv =
    | RvOk | NotInitialized | AlreadyInitialized
    | SlotIdInvalid | TokenNotPresent | ParallelNotSupported | RwSoExists | SessionCount
    | SessionHandleInvalid | AlreadyLoggedIn | AnotherLoggedIn | ReadOnlyExistsRv
    | PinIncorrect | PinLenRange | PinNotInitialized | FunctionFailed | ArgumentsBad | DeviceError
    | DeviceMemory | UserTypeInvalid | NotLoggedIn | ObjectHandleInvalid | KeyHandleInvalid
    | OperationActive | OperationRefused | FunctionNotSupported

  datatype UserType = CkuSo | CkuUser | CkuOther

  /** What wp11_keystore_load reports; on success, which entries can be imported. */
  datatype LoadResult = LoadBadPin | LoadIoError | LoadFailed | Loaded(importable: seq<bool>)

  /** What opening, selecting and PIN verification on the PIV token report; on success,
      how many of its certificates could be read. */
  datatype CardResult = PivDevice | PivBadPin | PivFailed | PivOpen(certs: nat)

  /** Everything outside the tables that a login depends on. `soFile` is None when the
      soft token's keystore file does not exist. */
  datatype LoginEnv = LoginEnv(soFile: Option<LoadResult>, piv: CardResult, load: LoadResult)

  datatype Call =
    | Initialize(softPath: string)
    | Finalize
    | OpenSession(slot: nat, serial: bool, rw: bool)
    | CloseSession(h: nat)
    | CloseAllSessions(slot: nat)
    | LogIn(h: nat, who: UserType, pinLen: nat, env: LoginEnv)
    | LogOut(h: nat)
    | Begin(h: nat, kind: Kind, key: nat, admissible: bool)
    | End(h: nat, kind: Kind)
    | DestroyObject(h: nat, key: nat)
    | GenerateKeyPair(h: nat, isPrivate: bool, mechanismOk: bool, generated: bool)
    | UsbArrival(vid: nat, pid: nat, desc: Option<UsbKind>)
    | UsbDeparture(vid: nat, pid: nat)
    | FileArrival(path: Path)
    | FileDeparture(path: Path)
    | DirDeparture(dir: string)

  predicate ValidHandle(s: State, h: nat) {
    1 <= h <= |s.sessions| && s.sessions[h - 1].inUse
  }

  predicate ValidKey(s: State, key: nat) {
    1 <= key <= |s.keys.objs| && s.keys.objs[key - 1].inUse
  }

  predicate ValidSlot(s: State, slot: nat) {
    slot < |s.slots| && s.slots[slot].inUse
  }

  // ------------------------------------------------------------ life of the library

  /** C_Initialize: all tables cleared, slot 0 is the soft token. */
  function DoInitialize(s: State, softPath: string): (State, Rv) {
    if s.initialized then (s, AlreadyInitialized)
    else
      var soft := ZERO_SLOT.(inUse := true, present := true, path := softPath);
      var slots := seq(|s.slots|, i => if i == 0 then soft else ZERO_SLOT);
      (s.(initialized := true,
          sessions := seq(|s.sessions|, _ => ZERO_SESSION),
          keys := s.keys.(objs := seq(|s.keys.objs|, _ => ZERO_KEY)),
          slots := slots), RvOk)
  }

  /** The key loop of C_Finalize. */
  function FreeAllKeys(k: Keys, i: nat): (r: Keys)
    requires i <= |k.objs|
    ensures |r.objs| == |k.objs| && r.next == k.next
    ensures forall j | 0 <= j < |k.objs| ::
      r.objs[j] == if j >= i then k.objs[j].(inUse := false, priv := NoPriv) else k.objs[j]
    decreases |k.objs| - i
  {
    if i == |k.objs| then k
    else
      var o := k.objs[i].(inUse := false, priv := NoPriv);
      FreeAllKeys(if k.objs[i].inUse then Drop(k, i, o) else k.(objs := k.objs[i := o]), i + 1)
  }

  /** The keystores of slots 1 and up. */
  function LoadedKeystores(slots: seq<Slot>): set<nat> {
    set i | 1 <= i < |slots| && slots[i].inUse && slots[i].keystore.Some? :: slots[i].keystore.value
  }

  /** C_Finalize. Sessions stay as they are: without g_initialized they are unreachable. */
  function DoFinalize(s: State): (State, Rv) {
    if !s.initialized then (s, NotInitialized)
    else
      (s.(initialized := false, keys := FreeAllKeys(s.keys, 0),
          freed := s.freed + LoadedKeystores(s.slots),
          slots := seq(|s.slots|, _ => ZERO_SLOT)), RvOk)
  }

  // -------------------------------------------------------------------- sessions

  function DoOpen(s: State, slot: nat, serial: bool, rw: bool): (r: (State, Rv, nat)) {
    if !s.initialized then (s, NotInitialized, 0)
    else if !ValidSlot(s, slot) then (s, SlotIdInvalid, 0)
    else if !s.slots[slot].present then (s, TokenNotPresent, 0)
    else if !serial then (s, ParallelNotSupported, 0)
    else
      var login := SlotLogin(s.sessions, slot, 0);
      if login == So && !rw then (s, RwSoExists, 0)
      else
        var i := FreeSession(s.sessions, 0);
        if i == |s.sessions| then (s, SessionCount, 0)
        else
          var entry := ZERO_SESSION.(
            inUse := true, slot := slot, rw := rw, login := login, state := StateOf(login, rw));
          (s.(sessions := s.sessions[i := entry]), RvOk, i + 1)
  }

  function DoClose(s: State, h: nat): (State, Rv) {
    if !s.initialized then (s, NotInitialized)
    else if !ValidHandle(s, h) then (s, SessionHandleInvalid)
    else (s.(sessions := s.sessions[h - 1 := ZERO_SESSION]), RvOk)
  }

  function DoCloseAll(s: State, slot: nat): (State, Rv) {
    if !s.initialized then (s, NotInitialized)
    else if !ValidSlot(s, slot) then (s, SlotIdInvalid)
    else (s.(sessions := ZeroSessions(s.sessions, slot)), RvOk)
  }

  // ---------------------------------------------------------------- login, logout

  /** The PIV branch: four key objects or none, then certificates as they fit. */
  function LoginPiv(s: State, slot: nat, pinLen: nat, piv: CardResult): (r: (State, Rv))
    requires slot < |s.slots|
    ensures |r.0.slots| == |s.slots|
  {
    if pinLen == 0 then (s, ArgumentsBad)
    else
      match piv
      case PivDevice => (s, DeviceError)
      case PivBadPin => (s, PinIncorrect)
      case PivFailed => (s, FunctionFailed)
      case PivOpen(certs) =>
        var (keys, missing) := AddPiv(s.keys, slot, PivKey, 4);
        if missing > 0 then (s.(keys := ClearKeys(keys, 0, slot, UsbOps)), DeviceMemory)
        else
          var (withCerts, _) := AddPiv(keys, slot, NoPriv, if certs < 4 then certs else 4);
          (s.(keys := withCerts, slots := s.slots[slot := s.slots[slot].(ccid := true)]), RvOk)
  }

  /** The soft token's persistent keystore: its keys are imported one by one. */
  function LoginSoft(s: State, slot: nat, load: LoadResult): (State, Rv) {
    match load
    case LoadIoError => (s, PinNotInitialized)
    case LoadBadPin => (s, PinIncorrect)
    case LoadFailed => (s, FunctionFailed)
    case Loaded(importable) =>
      var (keys, dropped) := AddSoft(s.keys, slot, importable);
      if dropped > 0 then (s.(keys := ClearKeys(keys, 0, slot, SoftOps)), DeviceMemory)
      else (s.(keys := keys), RvOk)
  }

  /** A keystore token: the keystore stays loaded and its objects point into it. */
  function LoginKeystore(s: State, slot: nat, load: LoadResult): (State, Rv)
    requires slot < |s.slots|
  {
    match load
    case LoadBadPin => (s, PinIncorrect)
    case Loaded(importable) =>
      var ks := s.nextKs;
      var (keys, dropped) := AddKeystore(s.keys, slot, ks, |importable|);
      if dropped > 0 then
        (s.(keys := ClearKeys(keys, 0, slot, KeystoreOps), nextKs := ks + 1, freed := s.freed + {ks},
            slots := s.slots[slot := s.slots[slot].(keystore := None)]), DeviceMemory)
      else
        (s.(keys := keys, nextKs := ks + 1,
            slots := s.slots[slot := s.slots[slot].(keystore := Some(ks))]), RvOk)
    case _ => (s, FunctionFailed)
  }

  const PIN_MAX := 64

  /** What a user login loads, before any session is marked. */
  function LoadToken(s: State, slot: nat, pinLen: nat, env: LoginEnv): (State, Rv)
    requires slot < |s.slots|
  {
    var (s1, rv) := if s.slots[slot].proto == PivProto then LoginPiv(s, slot, pinLen, env.piv) else (s, RvOk);
    if rv != RvOk then (s1, rv)
    else if s.slots[slot].path == "" then (s1, RvOk)
    else if pinLen == 0 then (s1, ArgumentsBad)
    else if pinLen > PIN_MAX then (s1, PinLenRange)
    else if s.slots[slot].proto == SoftProto then LoginSoft(s1, slot, env.load)
    else LoginKeystore(s1, slot, env.load)
  }

  /** The check of the SO's PIN against the soft token's keystore file, if there is one. */
  function CheckSoPin(s: State, slot: nat, soFile: Option<LoadResult>): Rv
    requires slot < |s.slots|
  {
    if s.slots[slot].proto != SoftProto || s.slots[slot].path == "" || soFile.None? then RvOk
    else
      match soFile.value
      case LoadBadPin => PinIncorrect
      case Loaded(_) => RvOk
      case _ => FunctionFailed
  }

  /** C_Login. */
  function DoLogIn(s: State, h: nat, who: UserType, pinLen: nat, env: LoginEnv): (State, Rv)
    requires SlotsInTable(s)
  {
    if !s.initialized then (s, NotInitialized)
    else if !ValidHandle(s, h) then (s, SessionHandleInvalid)
    else
      var slot := s.sessions[h - 1].slot;
      var current := SlotLogin(s.sessions, slot, 0);
      if current != Public then
        (s, if (current == So) == (who == CkuSo) then AlreadyLoggedIn else AnotherLoggedIn)
      else
        match who
        case CkuOther => (s, UserTypeInvalid)
        case CkuSo =>
          if ReadOnlyExists(s.sessions, slot) then (s, ReadOnlyExistsRv)
          else
            var rv := CheckSoPin(s, slot, env.soFile);
            if rv != RvOk then (s, rv) else (s.(sessions := SetLogin(s.sessions, slot, So)), RvOk)
        case CkuUser =>
          var (s1, rv) := LoadToken(s, slot, pinLen, env);
          if rv != RvOk then (s1, rv) else (s1.(sessions := SetLogin(s1.sessions, slot, User)), RvOk)
  }

  /** Every open session's slot number indexes the slot table. */
  predicate SlotsInTable(s: State) {
    forall j | 0 <= j < |s.sessions| :: s.sessions[j].inUse ==> s.sessions[j].slot < |s.slots|
  }

  /** Keystore objects of a slot dropped, then its keystore released. */
  function UnloadKeystore(s: State, slot: nat): (r: State)
    requires slot < |s.slots|
    ensures |r.slots| == |s.slots|
  {
    var ks := s.slots[slot].keystore;
    s.(keys := ClearKeys(s.keys, 0, slot, KeystoreOps),
       freed := if ks.Some? then s.freed + {ks.value} else s.freed,
       slots := s.slots[slot := s.slots[slot].(keystore := None)])
  }

  function UnloadPiv(s: State, slot: nat): (r: State)
    requires slot < |s.slots|
    ensures |r.slots| == |s.slots|
  {
    s.(keys := ClearKeys(s.keys, 0, slot, UsbOps), slots := s.slots[slot := s.slots[slot].(ccid := false)])
  }

  /** What C_Logout takes away from the token before it marks the sessions. */
  function UnloadToken(s: State, slot: nat): (r: State)
    requires slot < |s.slots|
  {
    var t := s.slots[slot];
    var s1 := if t.proto == PivProto && t.ccid then UnloadPiv(s, slot) else s;
    var s2 := if t.proto == SoftProto && t.path != "" then s1.(keys := ClearKeys(s1.keys, 0, slot, SoftOps)) else s1;
    if t.keystore.Some? then UnloadKeystore(s2, slot) else s2
  }

  /** C_Logout. */
  function DoLogOut(s: State, h: nat): (State, Rv)
    requires SlotsInTable(s)
  {
    if !s.initialized then (s, NotInitialized)
    else if !ValidHandle(s, h) then (s, SessionHandleInvalid)
    else if s.sessions[h - 1].login == Public then (s, NotLoggedIn)
    else
      var slot := s.sessions[h - 1].slot;
      var s1 := UnloadToken(s, slot);
      (s1.(sessions := SetLogout(s1.sessions, slot)), RvOk)
  }

  // ---------------------------------------------------------- operations and objects

  /** A certificate has no private part. */
  predicate IsCertificate(o: KeyObj) {
    o.backend == UsbOps && o.priv == NoPriv
  }

  /** The flag of one kind of operation cleared; its key handle stays. */
  function Ended(s: State, h: nat, kind: Kind): State
    requires ValidHandle(s, h)
  {
    var session := s.sessions[h - 1];
    s.(sessions := s.sessions[h - 1 := session.Set(kind, session.Get(kind).(active := false))])
  }

  /** C_SignInit, C_VerifyInit, C_EncryptInit, C_DecryptInit. The last looks for a running
      operation only after the key, and so can end one that it then does not replace;
      C_EncryptInit does not ask whether the object is a certificate. `admissible` stands
      for the checks of key type, mechanism and its parameters. */
  function DoBegin(s: State, h: nat, kind: Kind, key: nat, admissible: bool): (State, Rv) {
    if !s.initialized then (s, NotInitialized)
    else if !ValidHandle(s, h) then (s, SessionHandleInvalid)
    else
      var session := s.sessions[h - 1];
      if kind != Decrypt && session.Get(kind).active then (s, OperationActive)
      else if !ValidKey(s, key) || (kind != Encrypt && IsCertificate(s.keys.objs[key - 1])) then
        (Ended(s, h, kind), KeyHandleInvalid)
      else if session.login == Public && s.keys.objs[key - 1].isPrivate then (Ended(s, h, kind), NotLoggedIn)
      else if session.Get(kind).active then (s, OperationActive)
      else if !admissible then (Ended(s, h, kind), OperationRefused)
      else (s.(sessions := s.sessions[h - 1 := session.Set(kind, Op(true, key))]), RvOk)
  }

  /** The operation completes or fails. */
  function DoEnd(s: State, h: nat, kind: Kind): (State, Rv) {
    if !s.initialized then (s, NotInitialized)
    else if !ValidHandle(s, h) then (s, SessionHandleInvalid)
    else (Ended(s, h, kind), RvOk)
  }

  /** C_DestroyObject: the record keeps its other fields. */
  function DoDestroy(s: State, h: nat, key: nat): (State, Rv) {
    if !s.initialized then (s, NotInitialized)
    else if !ValidHandle(s, h) then (s, SessionHandleInvalid)
    else if !ValidKey(s, key) then (s, ObjectHandleInvalid)
    else if s.keys.objs[key - 1].slot != s.sessions[h - 1].slot then (s, ObjectHandleInvalid)
    else
      var o := s.keys.objs[key - 1].(inUse := false, priv := NoPriv);
      (s.(keys := Drop(s.keys, key - 1, o), sessions := ForgetKeyEverywhere(s.sessions, key)), RvOk)
  }

  /** C_GenerateKeyPair on the soft token. */
  function DoGenerate(s: State, h: nat, isPrivate: bool, mechanismOk: bool, generated: bool): (State, Rv)
    requires SlotsInTable(s)
  {
    if !s.initialized then (s, NotInitialized)
    else if !ValidHandle(s, h) then (s, SessionHandleInvalid)
    else
      var session := s.sessions[h - 1];
      var t := s.slots[session.slot];
      if session.login == Public && isPrivate && (t.proto == PivProto || t.path != "") then (s, NotLoggedIn)
      else if t.proto != SoftProto then (s, FunctionNotSupported)
      else if !mechanismOk then (s, OperationRefused)
      else
        var pub := FreeKey(s.keys.objs, 0);
        if pub == |s.keys.objs| then (s, DeviceMemory)
        else
          var priv := FreeKey(s.keys.objs, pub + 1);
          if priv == |s.keys.objs| || !generated then (s, DeviceMemory)
          else (s.(keys := AddPair(s.keys, session.slot, isPrivate, pub, priv)), RvOk)
  }

  // --------------------------------------------------------------- hotplug events

  /** slot_add behind hotplug_cb, which turns away vendor 0. */
  function DoUsbArrival(s: State, vid: nat, pid: nat, desc: Option<UsbKind>): (State, Option<nat>) {
    if !s.initialized || vid == 0 || desc.None? || |s.slots| == 0 then (s, None)
    else
      var i := Find(s.slots, ByUsb(vid, pid), 1);
      if i < |s.slots| then (s.(slots := s.slots[i := s.slots[i].(present := true)]), Some(i))
      else
        var j := Find(s.slots, Unused, 1);
        if j == |s.slots| then (s, None)
        else
          var t := s.slots[j].(
            inUse := true, present := true, vid := vid, pid := pid, proto := ProtoOf(desc.value));
          (s.(slots := s.slots[j := t]), Some(j))
  }

  /** slot_remove. */
  function DoUsbDeparture(s: State, vid: nat, pid: nat): (State, Option<nat>) {
    if !s.initialized || vid == 0 || |s.slots| == 0 then (s, None)
    else
      var i := Find(s.slots, ByUsbPresent(vid, pid), 1);
      if i == |s.slots| then (s, None)
      else
        var s1 := s.(slots := s.slots[i := s.slots[i].(present := false)], sessions := ZeroSessions(s.sessions, i));
        (if s.slots[i].ccid then UnloadPiv(s1, i) else s1, Some(i))
  }

  /** slot_add_keystore. */
  function DoFileArrival(s: State, path: Path): (State, Option<nat>) {
    if !s.initialized || |path| > PATH_MAX || |s.slots| == 0 then (s, None)
    else
      var i := Find(s.slots, ByPath(path), 1);
      if i < |s.slots| then (s.(slots := s.slots[i := s.slots[i].(present := true)]), Some(i))
      else
        var j := Find(s.slots, Unused, 1);
        if j == |s.slots| then (s, None)
        else
          var t := s.slots[j].(
            inUse := true, present := true, vid := 0, pid := 0, proto := FlashProto, path := path);
          (s.(slots := s.slots[j := t]), Some(j))
  }

  /** Keys, keystore, presence and sessions of a departing keystore slot. */
  function Depart(s: State, i: nat): (r: State)
    requires i < |s.slots|
    ensures |r.slots| == |s.slots|
  {
    var s1 := UnloadKeystore(s, i);
    s1.(slots := s1.slots[i := s1.slots[i].(present := false)], sessions := ZeroSessions(s1.sessions, i))
  }

  /** slot_remove_keystore. */
  function DoFileDeparture(s: State, path: Path): (State, Option<nat>) {
    if !s.initialized || |s.slots| == 0 then (s, None)
    else
      var i := Find(s.slots, ByPathPresent(path), 1);
      if i == |s.slots| then (s, None) else (Depart(s, i), Some(i))
  }

  /** slot_remove_flash_dir, from slot `i` on. */
  function DoDirDeparture(s: State, dir: string, i: nat): (r: State)
    requires i <= |s.slots|
    ensures |r.slots| == |s.slots|
    decreases |s.slots| - i
  {
    if i == |s.slots| then s
    else DoDirDeparture(if Under(s.slots[i], dir) then Depart(s, i) else s, dir, i + 1)
  }

  // ------------------------------------------------------------------------ runs

  /** One call or event. */
  function Step(s: State, c: Call): (r: State)
    requires SlotsInTable(s)
  {
    match c
    case Initialize(softPath) => DoInitialize(s, softPath).0
    case Finalize => DoFinalize(s).0
    case OpenSession(slot, serial, rw) => DoOpen(s, slot, serial, rw).0
    case CloseSession(h) => DoClose(s, h).0
    case CloseAllSessions(slot) => DoCloseAll(s, slot).0
    case LogIn(h, who, pinLen, env) => DoLogIn(s, h, who, pinLen, env).0
    case LogOut(h) => DoLogOut(s, h).0
    case Begin(h, kind, key, admissible) => DoBegin(s, h, kind, key, admissible).0
    case End(h, kind) => DoEnd(s, h, kind).0
    case DestroyObject(h, key) => DoDestroy(s, h, key).0
    case GenerateKeyPair(h, isPrivate, mechanismOk, generated) => DoGenerate(s, h, isPrivate, mechanismOk, generated).0
    case UsbArrival(vid, pid, desc) => DoUsbArrival(s, vid, pid, desc).0
    case UsbDeparture(vid, pid) => DoUsbDeparture(s, vid, pid).0
    case FileArrival(path) => DoFileArrival(s, path).0
    case FileDeparture(path) => DoFileDeparture(s, path).0
    case DirDeparture(dir) => if s.initialized && |s.slots| > 0 then DoDirDeparture(s, dir, 1) else s
  }

  /** Freshly loaded library: zeroed tables of any size, nothing allocated yet. */
  function Fresh(sessions: nat, keys: nat, slots: nat): State {
    State(false, seq(sessions, _ => ZERO_SESSION),
      Keys(seq(keys, _ => ZERO_KEY), map[], [], 0), seq(slots, _ => ZERO_SLOT), {}, 0)
  }
}
