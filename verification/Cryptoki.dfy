/** The PKCS#11 layer as it is written: three global arrays that every API call and every
    hotplug event updates in place. Each method is proved to do what the table
    operations specify, so the laws about their runs are laws about these methods. */
module Cryptoki {
  import opened Bytes
  import opened Tables
  import opened TableOps
  import opened SessionLaws

  /** g_sessions, g_keys, g_slots, g_initialized, and the memory behind key_priv and
      keystore pointers. */
  class Library {
    const sessions: array<Session>
    const objs: array<KeyObj>
    const slots: array<Slot>
    var initialized: bool
    var refs: map<nat, int>
    var released: seq<nat>
    var next: nat
    var freed: set<nat>
    var nextKs: nat

    predicate Valid()
      reads this
    {
      sessions as object != objs as object && sessions as object != slots as object && objs as object != slots as object
    }

    function KeyView(): Keys
      reads this, objs
    {
      Keys(objs[..], refs, released, next)
    }

    function View(): State
      reads this, sessions, objs, slots
    {
      State(initialized, sessions[..], KeyView(), slots[..], freed, nextKs)
    }

    constructor (maxSessions: nat, maxKeys: nat, maxSlots: nat)
      ensures Valid() && fresh(sessions) && fresh(objs) && fresh(slots)
      ensures View() == Fresh(maxSessions, maxKeys, maxSlots)
    {
      sessions := new Session[maxSessions](_ => ZERO_SESSION);
      objs := new KeyObj[maxKeys](_ => ZERO_KEY);
      slots := new Slot[maxSlots](_ => ZERO_SLOT);
      initialized, refs, released, next, freed, nextKs := false, map[], [], 0, {}, 0;
    }

    // ------------------------------------------------------ scans over the sessions

    method FindFreeSession() returns (i: nat)
      ensures i == FreeSession(sessions[..], 0)
    {
      i := 0;
      while i < sessions.Length && sessions[i].inUse
        invariant i <= sessions.Length && FreeSession(sessions[..], i) == FreeSession(sessions[..], 0)
      {
        i := i + 1;
      }
    }

    method CurrentLogin(slot: nat) returns (login: Login)
      ensures login == SlotLogin(sessions[..], slot, 0)
    {
      var j := 0;
      while j < sessions.Length
        invariant j <= sessions.Length && SlotLogin(sessions[..], slot, j) == SlotLogin(sessions[..], slot, 0)
      {
        if On(sessions[j], slot) && sessions[j].login != Public {
          return sessions[j].login;
        }
        j := j + 1;
      }
      return Public;
    }

    method HasReadOnly(slot: nat) returns (found: bool)
      ensures found == ReadOnlyExists(sessions[..], slot)
    {
      var j := 0;
      while j < sessions.Length
        invariant j <= sessions.Length
        invariant forall k | 0 <= k < j :: On(sessions[k], slot) ==> sessions[k].rw
      {
        if On(sessions[j], slot) && !sessions[j].rw {
          assert On(sessions[..][j], slot);
          return true;
        }
        j := j + 1;
      }
      return false;
    }

    method InvalidateSessions(slot: nat)
      modifies sessions
      ensures sessions[..] == ZeroSessions(old(sessions[..]), slot)
    {
      for j := 0 to sessions.Length
        invariant forall k | 0 <= k < sessions.Length ::
          sessions[k] == if k < j && On(old(sessions[k]), slot) then ZERO_SESSION else old(sessions[k])
      {
        if On(sessions[j], slot) {
          sessions[j] := ZERO_SESSION;
        }
      }
    }

    method MarkLogin(slot: nat, login: Login)
      modifies sessions
      ensures sessions[..] == SetLogin(old(sessions[..]), slot, login)
    {
      for j := 0 to sessions.Length
        invariant forall k | 0 <= k < sessions.Length ::
          sessions[k] ==
            if k < j && On(old(sessions[k]), slot) then WithLogin(old(sessions[k]), login) else old(sessions[k])
      {
        if On(sessions[j], slot) {
          sessions[j] := sessions[j].(login := login);
          sessions[j] := sessions[j].(state := StateOf(login, sessions[j].rw));
        }
      }
    }

    method MarkLogout(slot: nat)
      modifies sessions
      ensures sessions[..] == SetLogout(old(sessions[..]), slot)
    {
      for j := 0 to sessions.Length
        invariant forall k | 0 <= k < sessions.Length ::
          sessions[k] == if k < j && On(old(sessions[k]), slot) then LoggedOut(old(sessions[k])) else old(sessions[k])
      {
        if On(sessions[j], slot) {
          sessions[j] := sessions[j].(login := Public, state := if sessions[j].rw then RwPublic else RoPublic);
          sessions[j] := sessions[j].(sign := NO_OP, verify := NO_OP, encrypt := NO_OP, decrypt := NO_OP);
        }
      }
    }

    /** The scan of C_DestroyObject. */
    method ForgetOperations(key: nat)
      modifies sessions
      ensures sessions[..] == ForgetKeyEverywhere(old(sessions[..]), key)
    {
      for j := 0 to sessions.Length
        invariant forall k | 0 <= k < sessions.Length ::
          sessions[k] == if k < j && old(sessions[k]).inUse then ForgetKey(old(sessions[k]), key) else old(sessions[k])
      {
        if sessions[j].inUse {
          var s := sessions[j];
          if s.sign.key == key { s := s.(sign := NO_OP); }
          if s.verify.key == key { s := s.(verify := NO_OP); }
          if s.encrypt.key == key { s := s.(encrypt := NO_OP); }
          if s.decrypt.key == key { s := s.(decrypt := NO_OP); }
          sessions[j] := s;
        }
      }
    }

    // --------------------------------------------------------------- soft key memory

    /** wp11_soft_key_new_*: a key with one reference. */
    method NewSoftKey() returns (id: nat)
      modifies `refs, `next
      ensures id == old(next) && next == id + 1 && refs == old(refs)[id := 1]
    {
      id := next;
      refs := refs[id := 1];
      next := next + 1;
    }

    /** wp11_soft_key_new_from_der: the count stays at zero. */
    method ImportSoftKey() returns (id: nat)
      modifies `refs, `next
      ensures id == old(next) && next == id + 1 && refs == old(refs)[id := 0]
    {
      id := next;
      refs := refs[id := 0];
      next := next + 1;
    }

    /** wp11_soft_key_ref. */
    method RefSoftKey(id: nat)
      requires id in refs
      modifies `refs
      ensures refs == old(refs)[id := old(refs)[id] + 1]
    {
      refs := refs[id := refs[id] + 1];
    }

    /** wp11_soft_key_free. */
    method ReleaseSoftKey(id: nat)
      modifies `refs, `released
      ensures KeyView() == FreeSoftKey(old(KeyView()), id)
    {
      if id in refs {
        var before := refs[id];
        refs := refs[id := before - 1];
        if before > 1 {
          return;
        }
      }
      refs := refs - {id};
      released := released + [id];
      assert refs == old(refs) - {id};
    }

    /** The private part of object `i` freed where its backend frees it, and its record
        replaced. */
    method DropObject(i: nat, o: KeyObj)
      requires i < objs.Length
      modifies objs, `refs, `released
      ensures KeyView() == Drop(old(KeyView()), i, o)
    {
      if objs[i].backend == SoftOps && objs[i].priv.SoftKey? {
        ReleaseSoftKey(objs[i].priv.id);
      }
      objs[i] := o;
    }

    // ---------------------------------------------------------- loops over the objects

    method FindFreeKey(start: nat) returns (i: nat)
      requires start <= objs.Length
      ensures i == FreeKey(objs[..], start)
    {
      i := start;
      while i < objs.Length && objs[i].inUse
        invariant start <= i <= objs.Length && FreeKey(objs[..], i) == FreeKey(objs[..], start)
      {
        i := i + 1;
      }
    }

    /** piv_slot_clear_keys, ks_slot_clear_keys, soft_slot_clear_keys. */
    method ClearSlotKeys(slot: nat, backend: Backend)
      modifies objs, `refs, `released
      ensures KeyView() == ClearKeys(old(KeyView()), 0, slot, backend)
    {
      var i := 0;
      while i < objs.Length
        invariant i <= objs.Length && next == old(next)
        invariant ClearKeys(KeyView(), i, slot, backend) == ClearKeys(old(KeyView()), 0, slot, backend)
      {
        if Belongs(objs[i], slot, backend) {
          DropObject(i, ZERO_KEY);
        }
        i := i + 1;
      }
    }

    /** The key loop of C_Finalize. */
    method FreeAllObjects()
      modifies objs, `refs, `released
      ensures KeyView() == FreeAllKeys(old(KeyView()), 0)
    {
      var i := 0;
      while i < objs.Length
        invariant i <= objs.Length && next == old(next)
        invariant FreeAllKeys(KeyView(), i) == FreeAllKeys(old(KeyView()), 0)
      {
        var o := objs[i].(inUse := false, priv := NoPriv);
        if objs[i].inUse {
          DropObject(i, o);
        } else {
          objs[i] := o;
        }
        i := i + 1;
      }
    }

    /** The two loops of the PIV branch of C_Login: keys, then certificates. */
    method PopulatePiv(slot: nat, priv: Priv, n: nat) returns (missing: nat)
      modifies objs
      ensures (KeyView(), missing) == AddPiv(old(KeyView()), slot, priv, n)
    {
      missing := n;
      while missing > 0
        invariant AddPiv(KeyView(), slot, priv, missing) == AddPiv(old(KeyView()), slot, priv, n)
      {
        var i := FindFreeKey(0);
        if i == objs.Length {
          return;
        }
        objs[i] := KeyObj(true, slot, UsbOps, priv, objs[i].isPrivate);
        missing := missing - 1;
      }
    }

    /** ks_slot_populate_keys. */
    method PopulateKeystore(slot: nat, ks: nat, n: nat) returns (dropped: nat)
      modifies objs
      ensures (KeyView(), dropped) == AddKeystore(old(KeyView()), slot, ks, n)
    {
      dropped := 0;
      var ki := 0;
      while ki < n
        invariant ki <= n && dropped <= ki
        invariant dropped > 0 ==> FreeKey(objs[..], 0) == objs.Length
        invariant AddKeystore(old(KeyView()), slot, ks, n) ==
          if dropped == 0 then AddKeystore(KeyView(), slot, ks, n - ki) else (KeyView(), n - ki + dropped)
      {
        var i := FindFreeKey(0);
        if i == objs.Length {
          dropped := dropped + 1;
        } else {
          objs[i] := KeyObj(true, slot, KeystoreOps, KeystoreEntry(ks), true);
        }
        ki := ki + 1;
      }
    }

    /** soft_slot_populate_keys. */
    method PopulateSoft(slot: nat, importable: seq<bool>) returns (dropped: nat)
      modifies objs, `refs, `next
      ensures (KeyView(), dropped) == AddSoft(old(KeyView()), slot, importable)
    {
      dropped := 0;
      var ki := 0;
      while ki < |importable|
        invariant ki <= |importable|
        invariant
          var (k, d) := AddSoft(KeyView(), slot, importable[ki..]);
          (k, d + dropped) == AddSoft(old(KeyView()), slot, importable)
      {
        assert importable[ki..][1..] == importable[ki + 1..];
        var i := FindFreeKey(0);
        if i == objs.Length || !importable[ki] {
          dropped := dropped + 1;
        } else {
          var id := ImportSoftKey();
          objs[i] := KeyObj(true, slot, SoftOps, SoftKey(id), objs[i].isPrivate);
        }
        ki := ki + 1;
      }
    }

    // ------------------------------------------------------------- scans over the slots

    method FindSlot(q: Query) returns (i: nat)
      requires slots.Length > 0
      ensures i == Find(slots[..], q, 1)
    {
      i := 1;
      while i < slots.Length && !Matches(slots[i], q)
        invariant 1 <= i <= slots.Length && Find(slots[..], q, i) == Find(slots[..], q, 1)
      {
        i := i + 1;
      }
    }

    // ------------------------------------------------------------ sessions and logins

    /** C_OpenSession. */
    method OpenSession(slot: nat, serial: bool, rw: bool) returns (rv: Rv, h: nat)
      requires Valid()
      modifies sessions
      ensures (View(), rv, h) == DoOpen(old(View()), slot, serial, rw)
    {
      if !initialized { return NotInitialized, 0; }
      if slot >= slots.Length || !slots[slot].inUse { return SlotIdInvalid, 0; }
      if !slots[slot].present { return TokenNotPresent, 0; }
      if !serial { return ParallelNotSupported, 0; }
      var login := CurrentLogin(slot);
      if login == So && !rw { return RwSoExists, 0; }
      var i := FindFreeSession();
      if i == sessions.Length { return SessionCount, 0; }
      var state := match login
        case User => if rw then RwUser else RoUser
        case So => RwSo
        case Public => if rw then RwPublic else RoPublic;
      sessions[i] := ZERO_SESSION.(inUse := true, slot := slot, rw := rw, login := login, state := state);
      return RvOk, i + 1;
    }

    /** C_CloseSession. */
    method CloseSession(h: nat) returns (rv: Rv)
      requires Valid()
      modifies sessions
      ensures (View(), rv) == DoClose(old(View()), h)
    {
      if !initialized { return NotInitialized; }
      if !(1 <= h <= sessions.Length) || !sessions[h - 1].inUse { return SessionHandleInvalid; }
      sessions[h - 1] := ZERO_SESSION;
      return RvOk;
    }

    /** C_CloseAllSessions. */
    method CloseAllSessions(slot: nat) returns (rv: Rv)
      requires Valid()
      modifies sessions
      ensures (View(), rv) == DoCloseAll(old(View()), slot)
    {
      if !initialized { return NotInitialized; }
      if slot >= slots.Length || !slots[slot].inUse { return SlotIdInvalid; }
      InvalidateSessions(slot);
      return RvOk;
    }

    /** The PIV branch of C_Login. */
    method LoadPiv(slot: nat, pinLen: nat, piv: CardResult) returns (rv: Rv)
      requires Valid() && slot < slots.Length
      modifies objs, slots, `refs, `released
      ensures (View(), rv) == LoginPiv(old(View()), slot, pinLen, piv)
      ensures (slots[slot].proto, slots[slot].path) == old((slots[slot].proto, slots[slot].path))
    {
      hide AddPiv, ClearKeys;
      if pinLen == 0 { return ArgumentsBad; }
      match piv {
        case PivDevice => return DeviceError;
        case PivBadPin => return PinIncorrect;
        case PivFailed => return FunctionFailed;
        case PivOpen(certs) =>
          var missing := PopulatePiv(slot, PivKey, 4);
          if missing > 0 {
            ClearSlotKeys(slot, UsbOps);
            return DeviceMemory;
          }
          var _ := PopulatePiv(slot, NoPriv, if certs < 4 then certs else 4);
          slots[slot] := slots[slot].(ccid := true);
          return RvOk;
      }
    }

    /** The persistent soft token's branch of C_Login. */
    method LoadSoft(slot: nat, load: LoadResult) returns (rv: Rv)
      requires Valid()
      modifies objs, `refs, `released, `next
      ensures (View(), rv) == LoginSoft(old(View()), slot, load)
    {
      hide AddSoft, ClearKeys;
      match load {
        case LoadIoError => return PinNotInitialized;
        case LoadBadPin => return PinIncorrect;
        case LoadFailed => return FunctionFailed;
        case Loaded(importable) =>
          var dropped := PopulateSoft(slot, importable);
          if dropped > 0 {
            ClearSlotKeys(slot, SoftOps);
            return DeviceMemory;
          }
          return RvOk;
      }
    }

    /** The keystore token's branch of C_Login. */
    method LoadKeystore(slot: nat, load: LoadResult) returns (rv: Rv)
      requires Valid() && slot < slots.Length
      modifies objs, slots, `refs, `released, `freed, `nextKs
      ensures (View(), rv) == LoginKeystore(old(View()), slot, load)
    {
      hide AddKeystore, ClearKeys;
      match load {
        case LoadBadPin => return PinIncorrect;
        case LoadIoError => return FunctionFailed;
        case LoadFailed => return FunctionFailed;
        case Loaded(importable) =>
          var ks := nextKs;
          nextKs := nextKs + 1;
          slots[slot] := slots[slot].(keystore := Some(ks));
          var dropped := PopulateKeystore(slot, ks, |importable|);
          if dropped > 0 {
            ClearSlotKeys(slot, KeystoreOps);
            freed := freed + {ks};
            slots[slot] := slots[slot].(keystore := None);
            assert slots[..] == old(slots[..])[slot := old(slots[slot]).(keystore := None)];
            return DeviceMemory;
          }
          return RvOk;
      }
    }

    /** What a user login loads. */
    method Load(slot: nat, pinLen: nat, env: LoginEnv) returns (rv: Rv)
      requires Valid() && slot < slots.Length
      modifies this, objs, slots
      ensures initialized == old(initialized)
      ensures (View(), rv) == LoadToken(old(View()), slot, pinLen, env)
    {
      hide LoginPiv, LoginSoft, LoginKeystore;
      if slots[slot].proto == PivProto {
        rv := LoadPiv(slot, pinLen, env.piv);
        if rv != RvOk { return; }
      }
      if slots[slot].path == "" { return RvOk; }
      if pinLen == 0 { return ArgumentsBad; }
      if pinLen > PIN_MAX { return PinLenRange; }
      if slots[slot].proto == SoftProto {
        rv := LoadSoft(slot, env.load);
      } else {
        rv := LoadKeystore(slot, env.load);
      }
    }

    /** C_Login. */
    method LogIn(h: nat, who: UserType, pinLen: nat, env: LoginEnv) returns (rv: Rv)
      requires Valid() && SlotsInTable(View())
      modifies this, sessions, objs, slots
      ensures (View(), rv) == DoLogIn(old(View()), h, who, pinLen, env)
    {
      hide LoadToken, SetLogin, SlotLogin, ReadOnlyExists;
      if !initialized { return NotInitialized; }
      if !(1 <= h <= sessions.Length) || !sessions[h - 1].inUse { return SessionHandleInvalid; }
      var slot := sessions[h - 1].slot;
      assert old(View()).sessions[h - 1].slot < |old(View()).slots|;
      var current := CurrentLogin(slot);
      if current != Public {
        var requested := if who == CkuSo then So else User;
        return if current == requested then AlreadyLoggedIn else AnotherLoggedIn;
      }
      match who {
        case CkuOther => return UserTypeInvalid;
        case CkuSo =>
          var readOnly := HasReadOnly(slot);
          if readOnly { return ReadOnlyExistsRv; }
          if slots[slot].proto == SoftProto && slots[slot].path != "" && env.soFile.Some? {
            match env.soFile.value {
              case LoadBadPin => return PinIncorrect;
              case Loaded(_) =>
              case LoadIoError => return FunctionFailed;
              case LoadFailed => return FunctionFailed;
            }
          }
          MarkLogin(slot, So);
          return RvOk;
        case CkuUser =>
          rv := Load(slot, pinLen, env);
          if rv != RvOk { return; }
          MarkLogin(slot, User);
      }
    }

    /** Keys first, then the keystore they point into. */
    method DropKeystore(slot: nat)
      requires Valid() && slot < slots.Length
      modifies this, objs, slots
      ensures View() == UnloadKeystore(old(View()), slot)
    {
      hide ClearKeys;
      ClearSlotKeys(slot, KeystoreOps);
      if slots[slot].keystore.Some? {
        freed := freed + {slots[slot].keystore.value};
        slots[slot] := slots[slot].(keystore := None);
      }
      assert slots[..] == old(slots[..])[slot := old(slots[slot]).(keystore := None)];
    }

    method DropPiv(slot: nat)
      requires Valid() && slot < slots.Length
      modifies this, objs, slots
      ensures View() == UnloadPiv(old(View()), slot)
    {
      hide ClearKeys;
      ClearSlotKeys(slot, UsbOps);
      slots[slot] := slots[slot].(ccid := false);
    }

    method Unload(slot: nat)
      requires Valid() && slot < slots.Length
      modifies this, objs, slots
      ensures View() == UnloadToken(old(View()), slot)
    {
      hide ClearKeys;
      if slots[slot].proto == PivProto && slots[slot].ccid {
        DropPiv(slot);
      }
      if slots[slot].proto == SoftProto && slots[slot].path != "" {
        ClearSlotKeys(slot, SoftOps);
      }
      if slots[slot].keystore.Some? {
        DropKeystore(slot);
      }
    }

    /** C_Logout. */
    method LogOut(h: nat) returns (rv: Rv)
      requires Valid() && SlotsInTable(View())
      modifies this, sessions, objs, slots
      ensures (View(), rv) == DoLogOut(old(View()), h)
    {
      hide UnloadToken, SetLogout;
      if !initialized { return NotInitialized; }
      if !(1 <= h <= sessions.Length) || !sessions[h - 1].inUse { return SessionHandleInvalid; }
      if sessions[h - 1].login == Public { return NotLoggedIn; }
      var slot := sessions[h - 1].slot;
      assert old(View()).sessions[h - 1].slot < |old(View()).slots|;
      Unload(slot);
      MarkLogout(slot);
      return RvOk;
    }

    // --------------------------------------------------------- operations and objects

    /** C_SignInit, C_VerifyInit, C_EncryptInit, C_DecryptInit: the checks, and the cleanup
        that ends the operation on any failure but one. */
    method BeginOperation(h: nat, kind: Kind, key: nat, admissible: bool) returns (rv: Rv)
      requires Valid()
      modifies sessions
      ensures (View(), rv) == DoBegin(old(View()), h, kind, key, admissible)
    {
      if !initialized { return NotInitialized; }
      if !(1 <= h <= sessions.Length) || !sessions[h - 1].inUse { return SessionHandleInvalid; }
      rv := CheckKey(h, kind, key, admissible);
      if rv == RvOk {
        sessions[h - 1] := sessions[h - 1].Set(kind, Op(true, key));
      } else if rv != OperationActive {
        var op := sessions[h - 1].Get(kind);
        sessions[h - 1] := sessions[h - 1].Set(kind, op.(active := false));
      }
    }

    /** The checks of a C_*Init call once the session is known. */
    method CheckKey(h: nat, kind: Kind, key: nat, admissible: bool) returns (rv: Rv)
      requires Valid() && initialized && ValidHandle(View(), h)
      ensures rv == DoBegin(View(), h, kind, key, admissible).1
    {
      if kind != Decrypt && sessions[h - 1].Get(kind).active { return OperationActive; }
      if !(1 <= key <= objs.Length) || !objs[key - 1].inUse { return KeyHandleInvalid; }
      if kind != Encrypt && IsCertificate(objs[key - 1]) { return KeyHandleInvalid; }
      if sessions[h - 1].login == Public && objs[key - 1].isPrivate { return NotLoggedIn; }
      if sessions[h - 1].Get(kind).active { return OperationActive; }
      if !admissible { return OperationRefused; }
      return RvOk;
    }

    /** The end of a C_Sign, C_Verify, C_Encrypt or C_Decrypt. */
    method EndOperation(h: nat, kind: Kind) returns (rv: Rv)
      requires Valid()
      modifies sessions
      ensures (View(), rv) == DoEnd(old(View()), h, kind)
    {
      if !initialized { return NotInitialized; }
      if !(1 <= h <= sessions.Length) || !sessions[h - 1].inUse { return SessionHandleInvalid; }
      var op := sessions[h - 1].Get(kind);
      sessions[h - 1] := sessions[h - 1].Set(kind, op.(active := false));
      return RvOk;
    }

    /** C_DestroyObject. */
    method DestroyObject(h: nat, key: nat) returns (rv: Rv)
      requires Valid()
      modifies this, sessions, objs
      ensures (View(), rv) == DoDestroy(old(View()), h, key)
    {
      hide ForgetKeyEverywhere, Drop;
      if !initialized { return NotInitialized; }
      if !(1 <= h <= sessions.Length) || !sessions[h - 1].inUse { return SessionHandleInvalid; }
      if !(1 <= key <= objs.Length) || !objs[key - 1].inUse { return ObjectHandleInvalid; }
      if objs[key - 1].slot != sessions[h - 1].slot { return ObjectHandleInvalid; }
      DropObject(key - 1, objs[key - 1].(inUse := false, priv := NoPriv));
      ForgetOperations(key);
      return RvOk;
    }

    /** One new soft key behind two objects. */
    method StorePair(slot: nat, isPrivate: bool, pub: nat, priv: nat)
      requires pub < priv < objs.Length
      modifies objs, `refs, `next
      ensures KeyView() == AddPair(old(KeyView()), slot, isPrivate, pub, priv)
    {
      var id := NewSoftKey();
      RefSoftKey(id);
      objs[pub] := KeyObj(true, slot, SoftOps, SoftKey(id), false);
      objs[priv] := KeyObj(true, slot, SoftOps, SoftKey(id), isPrivate);
      assert refs == old(refs)[id := 2];
    }

    /** The soft path of C_GenerateKeyPair. */
    method GeneratePair(h: nat, isPrivate: bool, mechanismOk: bool, generated: bool) returns (rv: Rv)
      requires Valid() && SlotsInTable(View())
      modifies objs, `refs, `next
      ensures (View(), rv) == DoGenerate(old(View()), h, isPrivate, mechanismOk, generated)
    {
      hide AddPair, FreeKey;
      if !initialized { return NotInitialized; }
      if !(1 <= h <= sessions.Length) || !sessions[h - 1].inUse { return SessionHandleInvalid; }
      var slot := sessions[h - 1].slot;
      assert old(View()).sessions[h - 1].slot < |old(View()).slots|;
      if sessions[h - 1].login == Public && isPrivate && (slots[slot].proto == PivProto || slots[slot].path != "") {
        return NotLoggedIn;
      }
      if slots[slot].proto != SoftProto { return FunctionNotSupported; }
      if !mechanismOk { return OperationRefused; }
      var pub := FindFreeKey(0);
      if pub == objs.Length { return DeviceMemory; }
      var priv := FindFreeKey(pub + 1);
      if priv == objs.Length || !generated { return DeviceMemory; }
      StorePair(slot, isPrivate, pub, priv);
      return RvOk;
    }

    // ------------------------------------------------------------------- hotplug events

    /** slot_add. */
    method AddUsb(vid: nat, pid: nat, desc: Option<UsbKind>) returns (slot: Option<nat>)
      requires Valid()
      modifies slots
      ensures (View(), slot) == DoUsbArrival(old(View()), vid, pid, desc)
    {
      hide Find;
      if !initialized || vid == 0 || desc.None? || slots.Length == 0 { return None; }
      var i := FindSlot(ByUsb(vid, pid));
      if i < slots.Length {
        slots[i] := slots[i].(present := true);
        return Some(i);
      }
      var j := FindSlot(Unused);
      if j == slots.Length { return None; }
      slots[j] := slots[j].(inUse := true, present := true, vid := vid, pid := pid, proto := ProtoOf(desc.value));
      return Some(j);
    }

    /** slot_remove. */
    method RemoveUsb(vid: nat, pid: nat) returns (slot: Option<nat>)
      requires Valid()
      modifies this, sessions, objs, slots
      ensures (View(), slot) == DoUsbDeparture(old(View()), vid, pid)
    {
      hide Find, ZeroSessions, ClearKeys;
      if !initialized || vid == 0 || slots.Length == 0 { return None; }
      var i := FindSlot(ByUsbPresent(vid, pid));
      if i == slots.Length { return None; }
      slots[i] := slots[i].(present := false);
      InvalidateSessions(i);
      if slots[i].ccid {
        DropPiv(i);
      }
      return Some(i);
    }

    /** slot_add_keystore. */
    method AddFile(path: Path) returns (slot: Option<nat>)
      requires Valid()
      modifies slots
      ensures (View(), slot) == DoFileArrival(old(View()), path)
    {
      hide Find;
      if !initialized || |path| > PATH_MAX || slots.Length == 0 { return None; }
      var i := FindSlot(ByPath(path));
      if i < slots.Length {
        slots[i] := slots[i].(present := true);
        return Some(i);
      }
      var j := FindSlot(Unused);
      if j == slots.Length { return None; }
      slots[j] := slots[j].(inUse := true, present := true, vid := 0, pid := 0, proto := FlashProto, path := path);
      return Some(j);
    }

    /** The departure of one keystore slot. */
    method DepartSlot(i: nat)
      requires Valid() && i < slots.Length
      modifies this, sessions, objs, slots
      ensures View() == Depart(old(View()), i)
    {
      hide UnloadKeystore, ZeroSessions;
      DropKeystore(i);
      slots[i] := slots[i].(present := false);
      InvalidateSessions(i);
    }

    /** slot_remove_keystore. */
    method RemoveFile(path: Path) returns (slot: Option<nat>)
      requires Valid()
      modifies this, sessions, objs, slots
      ensures (View(), slot) == DoFileDeparture(old(View()), path)
    {
      hide Find, Depart;
      if !initialized || slots.Length == 0 { return None; }
      var i := FindSlot(ByPathPresent(path));
      if i == slots.Length { return None; }
      DepartSlot(i);
      return Some(i);
    }

    /** slot_remove_flash_dir. */
    method RemoveDirectory(dir: string)
      requires Valid() && slots.Length > 0
      modifies this, sessions, objs, slots
      ensures View() == DoDirDeparture(old(View()), dir, 1)
    {
      hide Depart, Under;
      var i := 1;
      while i < slots.Length
        invariant 1 <= i <= slots.Length
        invariant DoDirDeparture(View(), dir, i) == DoDirDeparture(old(View()), dir, 1)
      {
        if Under(slots[i], dir) {
          DepartSlot(i);
        }
        i := i + 1;
      }
    }

    // --------------------------------------------------------------- life of the library

    /** C_Initialize. */
    method Initialize(softPath: string) returns (rv: Rv)
      requires Valid()
      modifies this, sessions, objs, slots
      ensures (View(), rv) == DoInitialize(old(View()), softPath)
    {
      if initialized { return AlreadyInitialized; }
      forall j | 0 <= j < sessions.Length { sessions[j] := ZERO_SESSION; }
      forall j | 0 <= j < objs.Length { objs[j] := ZERO_KEY; }
      forall j | 0 <= j < slots.Length { slots[j] := ZERO_SLOT; }
      if slots.Length > 0 {
        slots[0] := slots[0].(inUse := true, present := true, path := softPath);
      }
      initialized := true;
      ghost var view := DoInitialize(old(View()), softPath).0;
      assert sessions[..] == view.sessions && objs[..] == view.keys.objs && slots[..] == view.slots;
      return RvOk;
    }

    /** C_Finalize: keys, then keystores, then the slot table. */
    method Finalize() returns (rv: Rv)
      requires Valid()
      modifies this, objs, slots
      ensures (View(), rv) == DoFinalize(old(View()))
    {
      hide FreeAllKeys;
      if !initialized { return NotInitialized; }
      initialized := false;
      FreeAllObjects();
      var i := 1;
      while i < slots.Length
        invariant 1 <= i && slots[..] == old(slots[..]) && KeyView() == FreeAllKeys(old(KeyView()), 0)
        invariant sessions[..] == old(sessions[..]) && !initialized && nextKs == old(nextKs)
        invariant freed == old(freed) +
          set j | 1 <= j < i && j < slots.Length && slots[j].inUse && slots[j].keystore.Some? :: slots[j].keystore.value
      {
        if slots[i].inUse && slots[i].keystore.Some? {
          freed := freed + {slots[i].keystore.value};
        }
        i := i + 1;
      }
      assert freed == old(freed) + LoadedKeystores(old(slots[..]));
      forall j | 0 <= j < slots.Length { slots[j] := ZERO_SLOT; }
      ghost var view := DoFinalize(old(View())).0;
      assert slots[..] == view.slots && KeyView() == view.keys && freed == view.freed;
      assert View() == view;
      return RvOk;
    }

    // ------------------------------------------------------------------------------ runs

    /** One call or event, whichever it is. */
    method Perform(c: Call)
      requires Valid() && SlotsInTable(View())
      modifies this, sessions, objs, slots
      ensures View() == Step(old(View()), c)
    {
      hide DoInitialize, DoFinalize, DoOpen, DoClose, DoCloseAll, DoLogIn, DoLogOut, DoBegin, DoEnd, DoDestroy,
        DoGenerate, DoUsbArrival, DoUsbDeparture, DoFileArrival, DoFileDeparture, DoDirDeparture;
      match c {
        case Initialize(softPath) => var _ := Initialize(softPath);
        case Finalize => var _ := Finalize();
        case OpenSession(slot, serial, rw) => var _, _ := OpenSession(slot, serial, rw);
        case CloseSession(h) => var _ := CloseSession(h);
        case CloseAllSessions(slot) => var _ := CloseAllSessions(slot);
        case LogIn(h, who, pinLen, env) => var _ := LogIn(h, who, pinLen, env);
        case LogOut(h) => var _ := LogOut(h);
        case Begin(h, kind, key, admissible) => var _ := BeginOperation(h, kind, key, admissible);
        case End(h, kind) => var _ := EndOperation(h, kind);
        case DestroyObject(h, key) => var _ := DestroyObject(h, key);
        case GenerateKeyPair(h, isPrivate, mechanismOk, generated) =>
          var _ := GeneratePair(h, isPrivate, mechanismOk, generated);
        case UsbArrival(vid, pid, desc) => var _ := AddUsb(vid, pid, desc);
        case UsbDeparture(vid, pid) => var _ := RemoveUsb(vid, pid);
        case FileArrival(path) => var _ := AddFile(path);
        case FileDeparture(path) => var _ := RemoveFile(path);
        case DirDeparture(dir) =>
          if initialized && slots.Length > 0 {
            RemoveDirectory(dir);
          }
      }
    }
  }

  /** Any run, on tables of any size, is the run that the laws speak of. */
  method PerformAll(maxSessions: nat, maxKeys: nat, maxSlots: nat, calls: seq<Call>) returns (l: Library)
    ensures fresh(l) && l.View() == Reach(maxSessions, maxKeys, maxSlots, calls)
  {
    hide Step, SessionInv, Fresh;
    l := new Library(maxSessions, maxKeys, maxSlots);
    FreshIsConsistent(maxSessions, maxKeys, maxSlots);
    var i := 0;
    while i < |calls|
      invariant i <= |calls| && fresh(l) && fresh(l.sessions) && fresh(l.objs) && fresh(l.slots)
      invariant l.Valid() && SessionInv(l.View())
      invariant Run(l.View(), calls[i..]) == Reach(maxSessions, maxKeys, maxSlots, calls)
    {
      TablesHoldSlots(l.View());
      StepKeepsSessions(l.View(), calls[i]);
      assert calls[i..][1..] == calls[i + 1..];
      l.Perform(calls[i]);
      i := i + 1;
    }
  }

  lemma TablesHoldSlots(s: State)
    requires SessionInv(s)
    ensures SlotsInTable(s)
  {}
}
