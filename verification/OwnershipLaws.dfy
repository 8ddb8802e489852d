/** Who owns what key objects point to: soft keys are released once, after their last
    object; no object points into a keystore that has been released. */
module OwnershipLaws {
  import opened Bytes
  import opened Tables
  import opened TableOps
  import opened SessionLaws

  // ------------------------------------------------------------------- soft keys

  predicate Holds(o: KeyObj, id: nat) {
    o.inUse && o.priv == SoftKey(id)
  }

  /** How many objects hold the soft key. */
  function Holders(objs: seq<KeyObj>, id: nat): nat {
    if objs == [] then 0 else (if Holds(objs[0], id) then 1 else 0) + Holders(objs[1..], id)
  }

  predicate Distinct(s: seq<nat>) {
    forall i, j | 0 <= i < j < |s| :: s[i] != s[j]
  }

  /** A soft key is live exactly while objects hold it, with their number as its count
      (or 0, for a key imported from DER, which one object holds). Every key made so far
      is live or has been released, not both, and none was released twice. */
  ghost predicate SoftKeysOwned(k: Keys) {
    && (forall i | 0 <= i < |k.objs| && k.objs[i].inUse && k.objs[i].priv.SoftKey? :: k.objs[i].backend == SoftOps)
    && (forall id :: id in k.refs <==> Holders(k.objs, id) > 0)
    && (forall id | id in k.refs ::
          id < k.next && (k.refs[id] == Holders(k.objs, id) || (k.refs[id] == 0 && Holders(k.objs, id) == 1)))
    && (forall id | id in k.released :: id < k.next && id !in k.refs)
    && (forall id: nat | id < k.next :: id in k.refs || id in k.released)
    && Distinct(k.released)
  }

  lemma {:induction false} HoldersAfterUpdate(objs: seq<KeyObj>, i: nat, o: KeyObj, id: nat)
    requires i < |objs|
    ensures Holders(objs[i := o], id) ==
      Holders(objs, id) - (if Holds(objs[i], id) then 1 else 0) + (if Holds(o, id) then 1 else 0)
    decreases |objs|
  {
    if i == 0 {
      assert objs[0 := o][1..] == objs[1..];
    } else {
      assert objs[i := o][1..] == objs[1..][i - 1 := o];
      HoldersAfterUpdate(objs[1..], i - 1, o, id);
    }
  }

  lemma {:induction false} NoHolders(objs: seq<KeyObj>, id: nat)
    requires forall i | 0 <= i < |objs| :: !Holds(objs[i], id)
    ensures Holders(objs, id) == 0
    decreases |objs|
  {
    if objs != [] {
      assert !Holds(objs[0], id);
      NoHolders(objs[1..], id);
    }
  }

  lemma {:induction false} HolderCounts(objs: seq<KeyObj>, i: nat, id: nat)
    requires i < |objs| && Holds(objs[i], id)
    ensures Holders(objs, id) > 0
    decreases |objs|
  {
    if i > 0 {
      HolderCounts(objs[1..], i - 1, id);
    }
  }

  /** An object goes away: its key loses one reference, or is released. */
  lemma DropKeepsOwned(k: Keys, i: nat, o: KeyObj)
    requires SoftKeysOwned(k) && i < |k.objs| && k.objs[i].inUse && !o.inUse
    ensures SoftKeysOwned(Drop(k, i, o))
  {
    hide Holders;
    var k' := Drop(k, i, o);
    forall id ensures Holders(k'.objs, id) == Holders(k.objs, id) - (if Holds(k.objs[i], id) then 1 else 0) {
      HoldersAfterUpdate(k.objs, i, o, id);
    }
    if k.objs[i].priv.SoftKey? {
      var id := k.objs[i].priv.id;
      HolderCounts(k.objs, i, id);
      assert id in k.refs && id !in k.released;
    }
  }

  /** A record changes that holds no soft key before or after. */
  lemma PlainKeepsOwned(k: Keys, i: nat, o: KeyObj)
    requires SoftKeysOwned(k) && i < |k.objs|
    requires !(k.objs[i].inUse && k.objs[i].priv.SoftKey?) && !(o.inUse && o.priv.SoftKey?)
    ensures SoftKeysOwned(k.(objs := k.objs[i := o]))
  {
    hide Holders;
    forall id ensures Holders(k.objs[i := o], id) == Holders(k.objs, id) {
      HoldersAfterUpdate(k.objs, i, o, id);
    }
  }

  /** An imported key. */
  lemma ImportKeepsOwned(k: Keys, i: nat, o: KeyObj)
    requires SoftKeysOwned(k) && i < |k.objs| && !k.objs[i].inUse
    requires o.inUse && o.priv == SoftKey(k.next) && o.backend == SoftOps
    ensures SoftKeysOwned(Keys(k.objs[i := o], k.refs[k.next := 0], k.released, k.next + 1))
  {
    hide Holders;
    assert k.next !in k.refs;
    forall id ensures Holders(k.objs[i := o], id) == Holders(k.objs, id) + (if id == k.next then 1 else 0) {
      HoldersAfterUpdate(k.objs, i, o, id);
    }
  }

  /** A generated pair shares one key with two references. */
  lemma PairKeepsOwned(k: Keys, slot: nat, isPrivate: bool, pub: nat, priv: nat)
    requires SoftKeysOwned(k) && pub < priv < |k.objs| && !k.objs[pub].inUse && !k.objs[priv].inUse
    ensures SoftKeysOwned(AddPair(k, slot, isPrivate, pub, priv))
  {
    hide Holders;
    var a := KeyObj(true, slot, SoftOps, SoftKey(k.next), false);
    var b := KeyObj(true, slot, SoftOps, SoftKey(k.next), isPrivate);
    assert k.next !in k.refs;
    forall id
      ensures Holders(k.objs[pub := a][priv := b], id) == Holders(k.objs, id) + (if id == k.next then 2 else 0)
    {
      HoldersAfterUpdate(k.objs, pub, a, id);
      HoldersAfterUpdate(k.objs[pub := a], priv, b, id);
    }
  }

  // --------------------------------------------------------------- table operations

  lemma {:induction false} ClearingKeepsOwned(k: Keys, i: nat, slot: nat, backend: Backend)
    requires SoftKeysOwned(k) && i <= |k.objs|
    ensures SoftKeysOwned(ClearKeys(k, i, slot, backend))
    decreases |k.objs| - i
  {
    hide SoftKeysOwned, Drop;
    if i < |k.objs| {
      if Belongs(k.objs[i], slot, backend) {
        DropKeepsOwned(k, i, ZERO_KEY);
        ClearingKeepsOwned(Drop(k, i, ZERO_KEY), i + 1, slot, backend);
      } else {
        ClearingKeepsOwned(k, i + 1, slot, backend);
      }
    }
  }

  lemma {:induction false} FreeingAllKeepsOwned(k: Keys, i: nat)
    requires SoftKeysOwned(k) && i <= |k.objs|
    ensures SoftKeysOwned(FreeAllKeys(k, i))
    decreases |k.objs| - i
  {
    hide SoftKeysOwned, Drop;
    if i < |k.objs| {
      var o := k.objs[i].(inUse := false, priv := NoPriv);
      if k.objs[i].inUse {
        DropKeepsOwned(k, i, o);
        FreeingAllKeepsOwned(Drop(k, i, o), i + 1);
      } else {
        PlainKeepsOwned(k, i, o);
        FreeingAllKeepsOwned(k.(objs := k.objs[i := o]), i + 1);
      }
    }
  }

  lemma {:induction false} AddPivKeepsOwned(k: Keys, slot: nat, priv: Priv, n: nat)
    requires SoftKeysOwned(k) && !priv.SoftKey?
    ensures SoftKeysOwned(AddPiv(k, slot, priv, n).0)
    decreases n
  {
    hide SoftKeysOwned;
    var i := FreeKey(k.objs, 0);
    if n > 0 && i < |k.objs| {
      var o := Claimed(k.objs[i], slot, UsbOps, priv);
      PlainKeepsOwned(k, i, o);
      AddPivKeepsOwned(k.(objs := k.objs[i := o]), slot, priv, n - 1);
    }
  }

  lemma {:induction false} AddKeystoreKeepsOwned(k: Keys, slot: nat, ks: nat, n: nat)
    requires SoftKeysOwned(k)
    ensures SoftKeysOwned(AddKeystore(k, slot, ks, n).0)
    decreases n
  {
    hide SoftKeysOwned;
    var i := FreeKey(k.objs, 0);
    if n > 0 && i < |k.objs| {
      var o := KeyObj(true, slot, KeystoreOps, KeystoreEntry(ks), true);
      PlainKeepsOwned(k, i, o);
      AddKeystoreKeepsOwned(k.(objs := k.objs[i := o]), slot, ks, n - 1);
    }
  }

  lemma {:induction false} AddSoftKeepsOwned(k: Keys, slot: nat, importable: seq<bool>)
    requires SoftKeysOwned(k)
    ensures SoftKeysOwned(AddSoft(k, slot, importable).0)
    decreases |importable|
  {
    hide SoftKeysOwned;
    if importable != [] {
      var i := FreeKey(k.objs, 0);
      if i == |k.objs| || !importable[0] {
        AddSoftKeepsOwned(k, slot, importable[1..]);
      } else {
        var o := Claimed(k.objs[i], slot, SoftOps, SoftKey(k.next));
        ImportKeepsOwned(k, i, o);
        AddSoftKeepsOwned(Keys(k.objs[i := o], k.refs[k.next := 0], k.released, k.next + 1), slot, importable[1..]);
      }
    }
  }

  // ------------------------------------------------------------------- keystores

  predicate PointsInto(o: KeyObj, ks: nat) {
    o.inUse && o.priv == KeystoreEntry(ks)
  }

  /** Keystores held by slots are distinct and not released; objects point into
      keystores that are not released, and into a slot's keystore only from that slot. */
  ghost predicate KeystoresOwned(objs: seq<KeyObj>, slots: seq<Slot>, freed: set<nat>, nextKs: nat) {
    && (forall ks | ks in freed :: ks < nextKs)
    && (forall j | 0 <= j < |slots| && slots[j].keystore.Some? ::
          slots[j].keystore.value < nextKs && slots[j].keystore.value !in freed)
    && (forall i, j | 0 <= i < j < |slots| && slots[i].keystore.Some? :: slots[i].keystore != slots[j].keystore)
    && (forall i | 0 <= i < |objs| && objs[i].inUse && objs[i].priv.KeystoreEntry? ::
          var ks := objs[i].priv.ks;
          && objs[i].backend == KeystoreOps && ks < nextKs && ks !in freed
          && forall j | 0 <= j < |slots| && slots[j].keystore == Some(ks) :: j == objs[i].slot)
  }

  /** No object gains a pointer into a keystore. */
  predicate NoNewPointers(objs: seq<KeyObj>, objs': seq<KeyObj>) {
    |objs'| == |objs| &&
    forall i | 0 <= i < |objs| && objs'[i].inUse && objs'[i].priv.KeystoreEntry? :: objs'[i] == objs[i]
  }

  lemma PointersKeepOwned(
      objs: seq<KeyObj>, objs': seq<KeyObj>, slots: seq<Slot>, slots': seq<Slot>, freed: set<nat>, nextKs: nat)
    requires KeystoresOwned(objs, slots, freed, nextKs) && NoNewPointers(objs, objs') && |slots'| == |slots|
    requires forall j | 0 <= j < |slots| :: slots'[j].keystore == slots[j].keystore
    ensures KeystoresOwned(objs', slots', freed, nextKs)
  {}

  /** Clearing a slot's keystore objects before releasing its keystore leaves no
      pointer behind. */
  lemma UnloadKeepsKeystores(s: State, i: nat)
    requires KeystoresOwned(s.keys.objs, s.slots, s.freed, s.nextKs) && i < |s.slots|
    ensures
      var s' := UnloadKeystore(s, i);
      KeystoresOwned(s'.keys.objs, s'.slots, s'.freed, s'.nextKs)
  {}

  lemma {:induction false} AddKeystorePointers(k: Keys, slot: nat, ks: nat, n: nat)
    ensures
      var objs' := AddKeystore(k, slot, ks, n).0.objs;
      |objs'| == |k.objs| && forall i | 0 <= i < |objs'| ::
        objs'[i] == k.objs[i] || objs'[i] == KeyObj(true, slot, KeystoreOps, KeystoreEntry(ks), true)
    decreases n
  {
    var i := FreeKey(k.objs, 0);
    if n > 0 && i < |k.objs| {
      var o := KeyObj(true, slot, KeystoreOps, KeystoreEntry(ks), true);
      AddKeystorePointers(k.(objs := k.objs[i := o]), slot, ks, n - 1);
    }
  }

  lemma {:induction false} AddPivPointers(k: Keys, slot: nat, priv: Priv, n: nat)
    requires !priv.KeystoreEntry?
    ensures NoNewPointers(k.objs, AddPiv(k, slot, priv, n).0.objs)
    decreases n
  {
    var i := FreeKey(k.objs, 0);
    if n > 0 && i < |k.objs| {
      AddPivPointers(k.(objs := k.objs[i := Claimed(k.objs[i], slot, UsbOps, priv)]), slot, priv, n - 1);
    }
  }

  lemma {:induction false} AddSoftPointers(k: Keys, slot: nat, importable: seq<bool>)
    ensures NoNewPointers(k.objs, AddSoft(k, slot, importable).0.objs)
    decreases |importable|
  {
    if importable != [] {
      var i := FreeKey(k.objs, 0);
      if i == |k.objs| || !importable[0] {
        AddSoftPointers(k, slot, importable[1..]);
      } else {
        var o := Claimed(k.objs[i], slot, SoftOps, SoftKey(k.next));
        AddSoftPointers(Keys(k.objs[i := o], k.refs[k.next := 0], k.released, k.next + 1), slot, importable[1..]);
      }
    }
  }

  lemma LoginKeystoreKeepsKeystores(s: State, slot: nat, load: LoadResult)
    requires KeystoresOwned(s.keys.objs, s.slots, s.freed, s.nextKs) && slot < |s.slots|
    ensures
      var s' := LoginKeystore(s, slot, load).0;
      KeystoresOwned(s'.keys.objs, s'.slots, s'.freed, s'.nextKs)
  {
    hide AddKeystore;
    if load.Loaded? {
      AddKeystorePointers(s.keys, slot, s.nextKs, |load.importable|);
    }
  }

  // -------------------------------------------------------------------- API calls

  ghost predicate OwnInv(s: State) {
    && SoftKeysOwned(s.keys)
    && KeystoresOwned(s.keys.objs, s.slots, s.freed, s.nextKs)
    && (!s.initialized ==> forall i | 0 <= i < |s.keys.objs| :: !s.keys.objs[i].inUse)
    && (!s.initialized ==> forall j | 0 <= j < |s.slots| :: s.slots[j].keystore.None?)
  }

  /** The state after a change of keys and slots while the library is initialized. */
  ghost predicate Owned(s: State) {
    s.initialized && SoftKeysOwned(s.keys) && KeystoresOwned(s.keys.objs, s.slots, s.freed, s.nextKs)
  }

  lemma LoginPivKeepsOwned(s: State, slot: nat, pinLen: nat, piv: CardResult)
    requires Owned(s) && slot < |s.slots|
    ensures Owned(LoginPiv(s, slot, pinLen, piv).0)
  {
    hide AddPiv, SoftKeysOwned, KeystoresOwned;
    var s' := LoginPiv(s, slot, pinLen, piv).0;
    var k1 := AddPiv(s.keys, slot, PivKey, 4).0;
    AddPivKeepsOwned(s.keys, slot, PivKey, 4);
    AddPivPointers(s.keys, slot, PivKey, 4);
    ClearingKeepsOwned(k1, 0, slot, UsbOps);
    var n := if piv.PivOpen? && piv.certs < 4 then piv.certs else 4;
    AddPivKeepsOwned(k1, slot, NoPriv, n);
    AddPivPointers(k1, slot, NoPriv, n);
    PointersKeepOwned(s.keys.objs, s'.keys.objs, s.slots, s'.slots, s.freed, s.nextKs);
  }

  lemma LoginSoftKeepsOwned(s: State, slot: nat, load: LoadResult)
    requires Owned(s)
    ensures Owned(LoginSoft(s, slot, load).0)
  {
    hide AddSoft, SoftKeysOwned, KeystoresOwned;
    if load.Loaded? {
      var s' := LoginSoft(s, slot, load).0;
      AddSoftKeepsOwned(s.keys, slot, load.importable);
      AddSoftPointers(s.keys, slot, load.importable);
      ClearingKeepsOwned(AddSoft(s.keys, slot, load.importable).0, 0, slot, SoftOps);
      PointersKeepOwned(s.keys.objs, s'.keys.objs, s.slots, s'.slots, s.freed, s.nextKs);
    }
  }

  lemma LoginKeystoreKeepsOwned(s: State, slot: nat, load: LoadResult)
    requires Owned(s) && slot < |s.slots|
    ensures Owned(LoginKeystore(s, slot, load).0)
  {
    hide AddKeystore, SoftKeysOwned, KeystoresOwned, ClearKeys;
    LoginKeystoreKeepsKeystores(s, slot, load);
    if load.Loaded? {
      AddKeystoreKeepsOwned(s.keys, slot, s.nextKs, |load.importable|);
      ClearingKeepsOwned(AddKeystore(s.keys, slot, s.nextKs, |load.importable|).0, 0, slot, KeystoreOps);
    }
  }

  lemma LogInKeepsOwned(s: State, h: nat, who: UserType, pinLen: nat, env: LoginEnv)
    requires SlotsInTable(s) && OwnInv(s)
    ensures OwnInv(DoLogIn(s, h, who, pinLen, env).0)
  {
    hide LoginPiv, LoginSoft, LoginKeystore, SoftKeysOwned, KeystoresOwned, SlotLogin, ReadOnlyExists;
    if s.initialized && ValidHandle(s, h) {
      var slot := s.sessions[h - 1].slot;
      LoginPivKeepsOwned(s, slot, pinLen, env.piv);
      var s1 := if s.slots[slot].proto == PivProto then LoginPiv(s, slot, pinLen, env.piv).0 else s;
      LoginSoftKeepsOwned(s1, slot, env.load);
      LoginKeystoreKeepsOwned(s1, slot, env.load);
    }
  }

  lemma UnloadKeystoreKeepsOwned(s: State, i: nat)
    requires Owned(s) && i < |s.slots|
    ensures Owned(UnloadKeystore(s, i))
  {
    hide SoftKeysOwned, KeystoresOwned, ClearKeys;
    UnloadKeepsKeystores(s, i);
    ClearingKeepsOwned(s.keys, 0, i, KeystoreOps);
  }

  lemma ClearingSlotKeepsOwned(s: State, s': State, slot: nat, backend: Backend)
    requires Owned(s)
    requires s' == s.(keys := ClearKeys(s.keys, 0, slot, backend), slots := s'.slots, sessions := s'.sessions)
    requires |s'.slots| == |s.slots| && forall j | 0 <= j < |s.slots| :: s'.slots[j].keystore == s.slots[j].keystore
    ensures Owned(s')
  {
    hide SoftKeysOwned, KeystoresOwned;
    ClearingKeepsOwned(s.keys, 0, slot, backend);
    PointersKeepOwned(s.keys.objs, s'.keys.objs, s.slots, s'.slots, s.freed, s.nextKs);
  }

  lemma LogOutKeepsOwned(s: State, h: nat)
    requires SlotsInTable(s) && OwnInv(s)
    ensures OwnInv(DoLogOut(s, h).0)
  {
    hide SoftKeysOwned, KeystoresOwned, UnloadKeystore, ClearKeys;
    if s.initialized && ValidHandle(s, h) {
      var slot := s.sessions[h - 1].slot;
      var t := s.slots[slot];
      ClearingSlotKeepsOwned(s, UnloadPiv(s, slot), slot, UsbOps);
      var s1 := if t.proto == PivProto && t.ccid then UnloadPiv(s, slot) else s;
      ClearingSlotKeepsOwned(s1, s1.(keys := ClearKeys(s1.keys, 0, slot, SoftOps)), slot, SoftOps);
      var s2 := if t.proto == SoftProto && t.path != "" then s1.(keys := ClearKeys(s1.keys, 0, slot, SoftOps)) else s1;
      UnloadKeystoreKeepsOwned(s2, slot);
    }
  }

  lemma DepartKeepsOwned(s: State, i: nat)
    requires Owned(s) && i < |s.slots|
    ensures Owned(Depart(s, i))
  {
    hide SoftKeysOwned, KeystoresOwned, UnloadKeystore;
    UnloadKeystoreKeepsOwned(s, i);
    var s1 := UnloadKeystore(s, i);
    PointersKeepOwned(s1.keys.objs, s1.keys.objs, s1.slots, Depart(s, i).slots, s1.freed, s1.nextKs);
  }

  lemma {:induction false} DirDepartureKeepsOwned(s: State, dir: string, i: nat)
    requires Owned(s) && i <= |s.slots|
    ensures Owned(DoDirDeparture(s, dir, i))
    decreases |s.slots| - i
  {
    hide Owned, Depart, Under;
    if i < |s.slots| {
      if Under(s.slots[i], dir) {
        DepartKeepsOwned(s, i);
        DirDepartureKeepsOwned(Depart(s, i), dir, i + 1);
      } else {
        DirDepartureKeepsOwned(s, dir, i + 1);
      }
    }
  }

  lemma EventsKeepOwned(s: State, c: Call)
    requires SlotsInTable(s) && OwnInv(s)
    requires c.UsbArrival? || c.UsbDeparture? || c.FileArrival? || c.FileDeparture? || c.DirDeparture?
    ensures OwnInv(Step(s, c))
  {
    hide SoftKeysOwned, KeystoresOwned, Find, Matches, Depart, DoDirDeparture, ClearKeys;
    var s' := Step(s, c);
    match c
    case UsbArrival(vid, pid, desc) =>
      PointersKeepOwned(s.keys.objs, s.keys.objs, s.slots, s'.slots, s.freed, s.nextKs);
    case FileArrival(path) =>
      PointersKeepOwned(s.keys.objs, s.keys.objs, s.slots, s'.slots, s.freed, s.nextKs);
    case UsbDeparture(vid, pid) =>
      var (_, i) := DoUsbDeparture(s, vid, pid);
      if i.Some? {
        PointersKeepOwned(s.keys.objs, s.keys.objs, s.slots, s'.slots, s.freed, s.nextKs);
        if s.slots[i.value].ccid {
          ClearingSlotKeepsOwned(s, s', i.value, UsbOps);
        }
      }
    case FileDeparture(path) =>
      var (_, i) := DoFileDeparture(s, path);
      if i.Some? {
        DepartKeepsOwned(s, i.value);
      }
    case DirDeparture(dir) =>
      if s.initialized && |s.slots| > 0 {
        DirDepartureKeepsOwned(s, dir, 1);
      }
  }

  lemma DestroyKeepsOwned(s: State, h: nat, key: nat)
    requires OwnInv(s)
    ensures OwnInv(DoDestroy(s, h, key).0)
  {
    hide SoftKeysOwned, KeystoresOwned, ForgetKeyEverywhere, Drop;
    var s' := DoDestroy(s, h, key).0;
    if DoDestroy(s, h, key).1 == RvOk {
      DropKeepsOwned(s.keys, key - 1, s.keys.objs[key - 1].(inUse := false, priv := NoPriv));
      PointersKeepOwned(s.keys.objs, s'.keys.objs, s.slots, s.slots, s.freed, s.nextKs);
    }
  }

  lemma GenerateKeepsOwned(s: State, h: nat, isPrivate: bool, mechanismOk: bool, generated: bool)
    requires SlotsInTable(s) && OwnInv(s)
    ensures OwnInv(DoGenerate(s, h, isPrivate, mechanismOk, generated).0)
  {
    hide SoftKeysOwned, KeystoresOwned, FreeKey;
    var s' := DoGenerate(s, h, isPrivate, mechanismOk, generated).0;
    if DoGenerate(s, h, isPrivate, mechanismOk, generated).1 == RvOk {
      var pub := FreeKey(s.keys.objs, 0);
      PairKeepsOwned(s.keys, s.sessions[h - 1].slot, isPrivate, pub, FreeKey(s.keys.objs, pub + 1));
      PointersKeepOwned(s.keys.objs, s'.keys.objs, s.slots, s.slots, s.freed, s.nextKs);
    }
  }

  lemma InitializeKeepsOwned(s: State, softPath: string)
    requires OwnInv(s)
    ensures OwnInv(DoInitialize(s, softPath).0)
  {
    hide Holders;
    if !s.initialized {
      var objs' := DoInitialize(s, softPath).0.keys.objs;
      forall id ensures Holders(objs', id) == 0 && Holders(s.keys.objs, id) == 0 {
        NoHolders(objs', id);
        NoHolders(s.keys.objs, id);
      }
    }
  }

  lemma FinalizeKeepsOwned(s: State)
    requires OwnInv(s)
    ensures OwnInv(DoFinalize(s).0)
  {
    hide SoftKeysOwned;
    if s.initialized {
      FreeingAllKeepsOwned(s.keys, 0);
    }
  }

  lemma StepKeepsOwned(s: State, c: Call)
    requires SlotsInTable(s) && OwnInv(s)
    ensures OwnInv(Step(s, c))
  {
    hide SoftKeysOwned, KeystoresOwned, DoLogIn, DoLogOut, DoFinalize, DoInitialize, SlotLogin;
    match c
    case Initialize(softPath) => InitializeKeepsOwned(s, softPath);
    case Finalize => FinalizeKeepsOwned(s);
    case LogIn(h, who, pinLen, env) => LogInKeepsOwned(s, h, who, pinLen, env);
    case LogOut(h) => LogOutKeepsOwned(s, h);
    case DestroyObject(h, key) => DestroyKeepsOwned(s, h, key);
    case GenerateKeyPair(h, isPrivate, mechanismOk, generated) =>
      GenerateKeepsOwned(s, h, isPrivate, mechanismOk, generated);
    case OpenSession(_, _, _) =>
    case CloseSession(_) =>
    case CloseAllSessions(_) =>
    case Begin(_, _, _, _) =>
    case End(_, _) =>
    case _ => EventsKeepOwned(s, c);
  }

  // --------------------------------------------------------------------- whole runs

  lemma {:induction false} RunKeepsOwned(s: State, calls: seq<Call>)
    requires SessionInv(s) && OwnInv(s)
    ensures OwnInv(Run(s, calls))
    decreases |calls|
  {
    hide Step, Consistent, OwnInv;
    if calls != [] {
      StepKeepsSessions(s, calls[0]);
      StepKeepsOwned(s, calls[0]);
      RunKeepsOwned(Step(s, calls[0]), calls[1..]);
    }
  }

  lemma ReachIsOwned(sessions: nat, keys: nat, slots: nat, calls: seq<Call>)
    ensures OwnInv(Reach(sessions, keys, slots, calls))
  {
    hide Run, OwnInv;
    var s := Fresh(sessions, keys, slots);
    FreshIsConsistent(sessions, keys, slots);
    FreshIsOwned(sessions, keys, slots);
    RunKeepsOwned(s, calls);
  }

  lemma FreshIsOwned(sessions: nat, keys: nat, slots: nat)
    ensures OwnInv(Fresh(sessions, keys, slots))
  {
    hide Holders;
    var k := Fresh(sessions, keys, slots).keys;
    forall id ensures Holders(k.objs, id) == 0 {
      NoHolders(k.objs, id);
    }
  }

  /** After every run of calls and events, in any order of destroy, logout and finalize:
      a soft key made so far is released or held by at least one object, never both;
      none is released twice; and a generated pair's key has as many references as
      objects. */
  lemma SoftKeysReleasedOnce(sessions: nat, keys: nat, slots: nat, calls: seq<Call>, id: nat)
    ensures
      var k := Reach(sessions, keys, slots, calls).keys;
      && Distinct(k.released)
      && (id < k.next ==> (id in k.released <==> Holders(k.objs, id) == 0))
      && (Holders(k.objs, id) >= 2 ==> id in k.refs && k.refs[id] == Holders(k.objs, id))
  {
    hide Reach, KeystoresOwned, Holders;
    ReachIsOwned(sessions, keys, slots, calls);
  }

  /** Once the library is finalized every soft key ever made has been released, once. */
  lemma FinalizeReleasesEverything(sessions: nat, keys: nat, slots: nat, calls: seq<Call>, id: nat)
    requires !Reach(sessions, keys, slots, calls).initialized
    ensures
      var k := Reach(sessions, keys, slots, calls).keys;
      k.refs == map[] && Distinct(k.released) && (id < k.next <==> id in k.released)
  {
    hide Reach, KeystoresOwned, Holders;
    ReachIsOwned(sessions, keys, slots, calls);
    var k := Reach(sessions, keys, slots, calls).keys;
    forall x ensures Holders(k.objs, x) == 0 {
      NoHolders(k.objs, x);
    }
    assert forall x :: x !in k.refs;
  }

  /** No key object ever points into a keystore that has been freed. */
  lemma NoPointerIntoFreedKeystore(sessions: nat, keys: nat, slots: nat, calls: seq<Call>, i: nat, ks: nat)
    requires
      var s := Reach(sessions, keys, slots, calls);
      i < |s.keys.objs| && PointsInto(s.keys.objs[i], ks)
    ensures ks !in Reach(sessions, keys, slots, calls).freed
  {
    hide Reach, SoftKeysOwned;
    ReachIsOwned(sessions, keys, slots, calls);
  }
}
