/** The slot table refines a registry of tokens: each token that ever arrived has one
    slot number, and is marked present or absent by its last event. */
module SlotLaws {
  import opened Bytes
  import opened Tables
  import opened TableOps
  import opened SessionLaws

  // ------------------------------------------------------------ shape of the table

  predicate UsbSlot(t: Slot) {
    t.vid != 0 && t.path == "" && (t.proto == PivProto || t.proto == OtherUsb)
  }

  predicate FileSlot(t: Slot) {
    t.vid == 0 && t.proto == FlashProto && t.path != "" && |t.path| <= PATH_MAX
  }

  /** Unused slots are zero; slot 0 is the soft token; any other slot is a USB token's
      or a keystore file's. Only keystore slots hold a keystore. */
  predicate Shaped(slots: seq<Slot>, initialized: bool) {
    && (forall i | 0 <= i < |slots| && !slots[i].inUse :: slots[i] == ZERO_SLOT)
    && (forall i | 1 <= i < |slots| && slots[i].inUse :: UsbSlot(slots[i]) || FileSlot(slots[i]))
    && (forall i | 0 <= i < |slots| && slots[i].keystore.Some? :: slots[i].proto == FlashProto)
    && (|slots| > 0 && initialized ==> slots[0].inUse && slots[0].present && slots[0].proto == SoftProto)
    && (!initialized ==> forall i | 0 <= i < |slots| :: slots[i] == ZERO_SLOT)
  }

  // ------------------------------------------------------------------ the registry

  datatype Identity = UsbToken(vid: nat, pid: nat) | FileToken(path: string)

  function IdOf(t: Slot): Identity {
    if t.vid != 0 then UsbToken(t.vid, t.pid) else FileToken(t.path)
  }

  datatype Entry = Entry(slot: nat, present: bool)

  /** Slots 1..n have been given out, to the tokens in `entries`. */
  datatype Registry = Registry(n: nat, entries: map<Identity, Entry>)

  const NO_TOKENS := Registry(0, map[])

  function Arrive(r: Registry, id: Identity, size: nat): Registry {
    if id in r.entries then r.(entries := r.entries[id := r.entries[id].(present := true)])
    else if r.n + 1 < size then Registry(r.n + 1, r.entries[id := Entry(r.n + 1, true)])
    else r
  }

  function Depart1(r: Registry, id: Identity): Registry {
    if id in r.entries then r.(entries := r.entries[id := r.entries[id].(present := false)]) else r
  }

  predicate InDir(id: Identity, dir: string) {
    id.FileToken? && LiesUnder(id.path, dir)
  }

  function DepartDir(r: Registry, dir: string): Registry {
    r.(entries := map id | id in r.entries ::
         if InDir(id, dir) then r.entries[id].(present := false) else r.entries[id])
  }

  /** What each call does to the registry of a table of `size` slots. */
  function Follow(r: Registry, c: Call, initialized: bool, size: nat): Registry {
    if !initialized then NO_TOKENS
    else
      match c
      case Finalize => NO_TOKENS
      case UsbArrival(vid, pid, desc) => if vid != 0 && desc.Some? then Arrive(r, UsbToken(vid, pid), size) else r
      case UsbDeparture(vid, pid) => if vid != 0 then Depart1(r, UsbToken(vid, pid)) else r
      case FileArrival(path) => if |path| <= PATH_MAX then Arrive(r, FileToken(path), size) else r
      case FileDeparture(path) => Depart1(r, FileToken(Cut(path)))
      case DirDeparture(dir) => DepartDir(r, dir)
      case _ => r
  }

  /** The table holds what the registry says, and nothing else. */
  ghost predicate Represents(slots: seq<Slot>, r: Registry) {
    && (forall i | 1 <= i < |slots| :: slots[i].inUse <==> i <= r.n)
    && (|slots| > 0 ==> r.n < |slots|) && (|slots| == 0 ==> r.n == 0)
    && (forall i | 1 <= i < |slots| && slots[i].inUse ::
          IdOf(slots[i]) in r.entries && r.entries[IdOf(slots[i])] == Entry(i, slots[i].present))
    && (forall id | id in r.entries ::
          var i := r.entries[id].slot;
          1 <= i < |slots| && slots[i].inUse && IdOf(slots[i]) == id)
  }

  ghost predicate SlotInv(s: State, r: Registry) {
    Shaped(s.slots, s.initialized) && Represents(s.slots, r) && (!s.initialized ==> r == NO_TOKENS)
  }

  // ------------------------------------------------------------- looking up a token

  /** The lookup of slot_add and slot_remove finds the slot of the registry. */
  lemma FindUsb(s: State, r: Registry, vid: nat, pid: nat, present: bool)
    requires SlotInv(s, r) && |s.slots| > 0 && vid != 0
    ensures
      var id := UsbToken(vid, pid);
      var i := Find(s.slots, if present then ByUsbPresent(vid, pid) else ByUsb(vid, pid), 1);
      if id in r.entries && (present ==> r.entries[id].present) then i == r.entries[id].slot < |s.slots|
      else i == |s.slots|
  {
    var id := UsbToken(vid, pid);
    var q := if present then ByUsbPresent(vid, pid) else ByUsb(vid, pid);
    var i := Find(s.slots, q, 1);
    if i < |s.slots| {
      assert IdOf(s.slots[i]) == id;
    } else if id in r.entries && (present ==> r.entries[id].present) {
      assert Matches(s.slots[r.entries[id].slot], q);
    }
  }

  lemma FindFile(s: State, r: Registry, path: Path, present: bool)
    requires SlotInv(s, r) && |s.slots| > 0
    ensures
      var id := FileToken(Cut(path));
      var i := Find(s.slots, if present then ByPathPresent(path) else ByPath(path), 1);
      if id in r.entries && (present ==> r.entries[id].present) then i == r.entries[id].slot < |s.slots|
      else i == |s.slots|
  {
    var id := FileToken(Cut(path));
    var q := if present then ByPathPresent(path) else ByPath(path);
    var i := Find(s.slots, q, 1);
    if i < |s.slots| {
      assert FileSlot(s.slots[i]) && IdOf(s.slots[i]) == id;
    } else if id in r.entries && (present ==> r.entries[id].present) {
      assert Matches(s.slots[r.entries[id].slot], q);
    }
  }

  lemma FindUnused(s: State, r: Registry)
    requires SlotInv(s, r) && |s.slots| > 0
    ensures Find(s.slots, Unused, 1) == r.n + 1
  {
    var i := Find(s.slots, Unused, 1);
    if r.n + 1 < |s.slots| {
      assert !s.slots[r.n + 1].inUse;
    }
  }

  // ------------------------------------------------------------------------ events

  /** Slot `i` is the slot of `id` and only its mark, keystore or CCID change. */
  lemma MarkingFollows(slots: seq<Slot>, r: Registry, i: nat, t: Slot, id: Identity)
    requires Shaped(slots, true) && Represents(slots, r) && id in r.entries && i == r.entries[id].slot
    requires t == slots[i].(present := t.present, keystore := t.keystore, ccid := t.ccid)
    requires t.keystore.Some? ==> t.proto == FlashProto
    ensures
      Shaped(slots[i := t], true) &&
      Represents(slots[i := t], r.(entries := r.entries[id := Entry(i, t.present)]))
  {}

  /** A new token takes the next slot. */
  lemma ClaimingFollows(slots: seq<Slot>, r: Registry, t: Slot, id: Identity)
    requires Shaped(slots, true) && Represents(slots, r) && id !in r.entries && r.n + 1 < |slots|
    requires t.inUse && IdOf(t) == id && (UsbSlot(t) || FileSlot(t)) && t.keystore.None?
    ensures
      Shaped(slots[r.n + 1 := t], true) &&
      Represents(slots[r.n + 1 := t], Registry(r.n + 1, r.entries[id := Entry(r.n + 1, t.present)]))
  {}

  lemma UsbArrivalFollows(s: State, r: Registry, vid: nat, pid: nat, desc: Option<UsbKind>)
    requires SlotInv(s, r)
    ensures SlotInv(DoUsbArrival(s, vid, pid, desc).0, Follow(r, UsbArrival(vid, pid, desc), s.initialized, |s.slots|))
  {
    hide Find, Matches, Shaped, Represents;
    if s.initialized && vid != 0 && desc.Some? && |s.slots| > 0 {
      FindUsb(s, r, vid, pid, false);
      FindUnused(s, r);
      var id := UsbToken(vid, pid);
      if id in r.entries {
        var i := r.entries[id].slot;
        KeystoresAreFlash(s, i);
        MarkingFollows(s.slots, r, i, s.slots[i].(present := true), id);
      } else if r.n + 1 < |s.slots| {
        UnusedIsZero(s, r);
        ClaimingFollows(s.slots, r,
          s.slots[r.n + 1].(inUse := true, present := true, vid := vid, pid := pid, proto := ProtoOf(desc.value)), id);
      }
    } else if |s.slots| == 0 {
      NoSlotsNoTokens(s, r);
    }
  }

  lemma KeystoresAreFlash(s: State, i: nat)
    requires Shaped(s.slots, s.initialized) && i < |s.slots|
    ensures s.slots[i].keystore.Some? ==> s.slots[i].proto == FlashProto
  {}

  lemma UnusedIsZero(s: State, r: Registry)
    requires SlotInv(s, r) && r.n + 1 < |s.slots|
    ensures s.slots[r.n + 1] == ZERO_SLOT
  {}

  lemma NoSlotsNoTokens(s: State, r: Registry)
    requires SlotInv(s, r) && |s.slots| == 0
    ensures r.n == 0 && r.entries == map[]
  {}

  lemma FileArrivalFollows(s: State, r: Registry, path: Path)
    requires SlotInv(s, r)
    ensures SlotInv(DoFileArrival(s, path).0, Follow(r, FileArrival(path), s.initialized, |s.slots|))
  {
    hide Find, Matches, Shaped, Represents;
    if s.initialized && |path| <= PATH_MAX && |s.slots| > 0 {
      FindFile(s, r, path, false);
      FindUnused(s, r);
      var id := FileToken(path);
      if id in r.entries {
        var i := r.entries[id].slot;
        KeystoresAreFlash(s, i);
        MarkingFollows(s.slots, r, i, s.slots[i].(present := true), id);
      } else if r.n + 1 < |s.slots| {
        UnusedIsZero(s, r);
        ClaimingFollows(s.slots, r,
          s.slots[r.n + 1].(inUse := true, present := true, vid := 0, pid := 0, proto := FlashProto, path := path), id);
      }
    } else if |s.slots| == 0 {
      NoSlotsNoTokens(s, r);
    }
  }

  lemma UsbDepartureFollows(s: State, r: Registry, vid: nat, pid: nat)
    requires SlotInv(s, r)
    ensures SlotInv(DoUsbDeparture(s, vid, pid).0, Follow(r, UsbDeparture(vid, pid), s.initialized, |s.slots|))
  {
    hide Find, Matches, Shaped, Represents, ClearKeys;
    if s.initialized && vid != 0 && |s.slots| > 0 {
      FindUsb(s, r, vid, pid, true);
      var id := UsbToken(vid, pid);
      if id in r.entries && r.entries[id].present {
        var i := r.entries[id].slot;
        KeystoresAreFlash(s, i);
        var t := s.slots[i].(present := false, ccid := false);
        assert DoUsbDeparture(s, vid, pid).0.slots == s.slots[i := t];
        MarkingFollows(s.slots, r, i, t, id);
      } else if id in r.entries {
        assert r.entries[id].(present := false) == r.entries[id];
        assert r.entries[id := r.entries[id]] == r.entries;
      }
    } else if |s.slots| == 0 {
      NoSlotsNoTokens(s, r);
    }
  }

  /** A present keystore slot departs. */
  lemma DepartFollows(s: State, r: Registry, i: nat, id: Identity)
    requires SlotInv(s, r) && s.initialized && id in r.entries && i == r.entries[id].slot && i < |s.slots|
    ensures SlotInv(Depart(s, i), Depart1(r, id))
  {
    hide Shaped, Represents, ClearKeys;
    var t := s.slots[i].(present := false, keystore := None);
    assert Depart(s, i).slots == s.slots[i := t];
    MarkingFollows(s.slots, r, i, t, id);
  }

  lemma FileDepartureFollows(s: State, r: Registry, path: Path)
    requires SlotInv(s, r)
    ensures SlotInv(DoFileDeparture(s, path).0, Follow(r, FileDeparture(path), s.initialized, |s.slots|))
  {
    hide Find, Matches, Shaped, Represents, Depart;
    if s.initialized && |s.slots| > 0 {
      FindFile(s, r, path, true);
      var id := FileToken(Cut(path));
      if id in r.entries && r.entries[id].present {
        DepartFollows(s, r, r.entries[id].slot, id);
      } else if id in r.entries {
        assert r.entries[id].(present := false) == r.entries[id];
        assert r.entries[id := r.entries[id]] == r.entries;
      }
    } else if |s.slots| == 0 {
      NoSlotsNoTokens(s, r);
    }
  }

  /** The registry after the directory's tokens in slots i and up have departed. */
  function DepartFrom(r: Registry, dir: string, i: nat): Registry {
    r.(entries := map id | id in r.entries ::
         if InDir(id, dir) && r.entries[id].slot >= i then r.entries[id].(present := false) else r.entries[id])
  }

  lemma {:induction false} DirDepartureFollows(s: State, r: Registry, dir: string, i: nat)
    requires SlotInv(s, r) && s.initialized && 1 <= i <= |s.slots|
    ensures SlotInv(DoDirDeparture(s, dir, i), DepartFrom(r, dir, i))
    decreases |s.slots| - i
  {
    hide Depart, LiesUnder;
    if i == |s.slots| {
      assert DepartFrom(r, dir, i) == r;
    } else if Under(s.slots[i], dir) {
      var id := IdOf(s.slots[i]);
      DepartFollows(s, r, i, id);
      DirDepartureFollows(Depart(s, i), Depart1(r, id), dir, i + 1);
      OneMoreDeparted(s.slots, r, dir, i);
    } else {
      DirDepartureFollows(s, r, dir, i + 1);
      NothingDeparted(s.slots, r, dir, i);
    }
  }

  lemma OneMoreDeparted(slots: seq<Slot>, r: Registry, dir: string, i: nat)
    requires Shaped(slots, true) && Represents(slots, r) && 1 <= i < |slots| && Under(slots[i], dir)
    ensures DepartFrom(Depart1(r, IdOf(slots[i])), dir, i + 1) == DepartFrom(r, dir, i)
  {
    hide LiesUnder;
    var id := IdOf(slots[i]);
    assert FileSlot(slots[i]);
    var a, b := DepartFrom(Depart1(r, id), dir, i + 1).entries, DepartFrom(r, dir, i).entries;
    forall x | x in r.entries ensures a[x] == b[x] {
      assert x == id || r.entries[x].slot != i;
    }
    assert a == b;
  }

  lemma NothingDeparted(slots: seq<Slot>, r: Registry, dir: string, i: nat)
    requires Shaped(slots, true) && Represents(slots, r) && 1 <= i < |slots| && !Under(slots[i], dir)
    ensures DepartFrom(r, dir, i + 1) == DepartFrom(r, dir, i)
  {
    hide LiesUnder;
    var a, b := DepartFrom(r, dir, i + 1).entries, DepartFrom(r, dir, i).entries;
    forall x | x in r.entries ensures a[x] == b[x] {
      if r.entries[x].slot == i && InDir(x, dir) {
        assert IdOf(slots[i]) == x && FileSlot(slots[i]);
      }
    }
    assert a == b;
  }

  // ------------------------------------------------------- calls that do no slot work

  /** Only CCID and keystore fields change, and keystores only on keystore slots. */
  predicate SameTokens(a: seq<Slot>, b: seq<Slot>) {
    |a| == |b| && forall i | 0 <= i < |a| ::
      b[i] == a[i].(keystore := b[i].keystore, ccid := b[i].ccid)
      && (b[i].keystore.Some? ==> a[i].proto == FlashProto)
      && (!a[i].inUse ==> b[i] == a[i])
  }

  lemma SameTokensFollow(s: State, s': State, r: Registry)
    requires SlotInv(s, r) && SameTokens(s.slots, s'.slots) && s'.initialized == s.initialized
    ensures SlotInv(s', r)
  {}

  lemma LoadTokenKeepsTokens(s: State, slot: nat, pinLen: nat, env: LoginEnv)
    requires slot < |s.slots| && s.slots[slot].inUse && Shaped(s.slots, s.initialized)
    ensures
      var s' := LoadToken(s, slot, pinLen, env).0;
      SameTokens(s.slots, s'.slots) && s'.initialized == s.initialized
  {
    hide AddPiv, AddSoft, AddKeystore, ClearKeys;
    KeystoreSlotsAreFlash(s, slot);
  }

  lemma LogInFollows(s: State, r: Registry, h: nat, who: UserType, pinLen: nat, env: LoginEnv)
    requires SlotInv(s, r) && SessionInv(s)
    ensures SlotInv(DoLogIn(s, h, who, pinLen, env).0, r)
  {
    hide LoadToken, Shaped, Represents, SlotLogin, ReadOnlyExists, SameTokens;
    var s' := DoLogIn(s, h, who, pinLen, env).0;
    if s.initialized && ValidHandle(s, h) {
      var slot := s.sessions[h - 1].slot;
      LoadTokenKeepsTokens(s, slot, pinLen, env);
      if s'.slots != s.slots {
        SameTokensFollow(s, s', r);
      }
    }
  }

  /** Only a keystore slot has a path and is neither PIV nor soft. */
  lemma KeystoreSlotsAreFlash(s: State, i: nat)
    requires Shaped(s.slots, s.initialized) && i < |s.slots| && s.slots[i].inUse
    ensures s.slots[i].proto == PivProto ==> s.slots[i].path == ""
    ensures s.slots[i].path != "" && s.slots[i].proto != SoftProto ==> s.slots[i].proto == FlashProto
  {}

  lemma LogOutFollows(s: State, r: Registry, h: nat)
    requires SlotInv(s, r) && SessionInv(s)
    ensures SlotInv(DoLogOut(s, h).0, r)
  {
    hide ClearKeys, Represents;
    var s' := DoLogOut(s, h).0;
    assert SameTokens(s.slots, s'.slots);
    SameTokensFollow(s, s', r);
  }

  lemma InitFinalizeFollow(s: State, r: Registry, c: Call)
    requires SlotInv(s, r) && SlotsInTable(s) && (c.Initialize? || c.Finalize?)
    ensures SlotInv(Step(s, c), Follow(r, c, s.initialized, |s.slots|))
  {
    hide FreeAllKeys, LoadedKeystores;
  }

  lemma StepFollows(s: State, r: Registry, c: Call)
    requires SlotInv(s, r) && SessionInv(s)
    ensures SlotInv(Step(s, c), Follow(r, c, s.initialized, |s.slots|))
  {
    hide DoLogIn, DoLogOut, DoUsbArrival, DoUsbDeparture, DoFileArrival, DoFileDeparture, DoDirDeparture, Consistent,
         Shaped, Represents;
    match c
    case Initialize(_) => InitFinalizeFollow(s, r, c);
    case Finalize => InitFinalizeFollow(s, r, c);
    case LogIn(h, who, pinLen, env) => LogInFollows(s, r, h, who, pinLen, env);
    case LogOut(h) => LogOutFollows(s, r, h);
    case UsbArrival(vid, pid, desc) => UsbArrivalFollows(s, r, vid, pid, desc);
    case UsbDeparture(vid, pid) => UsbDepartureFollows(s, r, vid, pid);
    case FileArrival(path) => FileArrivalFollows(s, r, path);
    case FileDeparture(path) => FileDepartureFollows(s, r, path);
    case DirDeparture(dir) =>
      if s.initialized && |s.slots| > 0 {
        DirDepartureFollows(s, r, dir, 1);
        AllSlotsFromOne(s, r, dir);
      } else if |s.slots| == 0 {
        NoSlotsNoTokens(s, r);
      }
    case _ =>
  }

  lemma AllSlotsFromOne(s: State, r: Registry, dir: string)
    requires SlotInv(s, r)
    ensures DepartFrom(r, dir, 1) == DepartDir(r, dir)
  {
    assert DepartFrom(r, dir, 1).entries == DepartDir(r, dir).entries;
  }

  // ----------------------------------------------------------------------- results

  /** The registry along a run. */
  ghost function FollowAll(s: State, r: Registry, calls: seq<Call>): Registry
    requires SessionInv(s)
    decreases |calls|
  {
    if calls == [] then r
    else
      StepKeepsSessions(s, calls[0]);
      FollowAll(Step(s, calls[0]), Follow(r, calls[0], s.initialized, |s.slots|), calls[1..])
  }

  /** Every run of the library is a run of the registry. */
  lemma {:induction false} RunFollows(s: State, r: Registry, calls: seq<Call>)
    requires SessionInv(s) && SlotInv(s, r)
    ensures SlotInv(Run(s, calls), FollowAll(s, r, calls))
    decreases |calls|
  {
    hide SlotInv, Step, Follow, Consistent;
    if calls != [] {
      StepKeepsSessions(s, calls[0]);
      StepFollows(s, r, calls[0]);
      RunFollows(Step(s, calls[0]), Follow(r, calls[0], s.initialized, |s.slots|), calls[1..]);
    }
  }

  lemma ReachIsRegistered(sessions: nat, keys: nat, slots: nat, calls: seq<Call>) returns (r: Registry)
    ensures SlotInv(Reach(sessions, keys, slots, calls), r)
  {
    hide SlotInv, Run;
    var s := Fresh(sessions, keys, slots);
    FreshIsConsistent(sessions, keys, slots);
    FreshIsEmpty(sessions, keys, slots);
    RunFollows(s, NO_TOKENS, calls);
    r := FollowAll(s, NO_TOKENS, calls);
  }

  lemma FreshIsEmpty(sessions: nat, keys: nat, slots: nat)
    ensures SlotInv(Fresh(sessions, keys, slots), NO_TOKENS)
  {}

  /** Whether `c` is an arrival, or a departure, of the token. */
  predicate IsArrival(c: Call, id: Identity) {
    match c
    case UsbArrival(vid, pid, desc) => vid != 0 && desc.Some? && id == UsbToken(vid, pid)
    case FileArrival(path) => |path| <= PATH_MAX && id == FileToken(path)
    case _ => false
  }

  predicate IsDeparture(c: Call, id: Identity) {
    match c
    case UsbDeparture(vid, pid) => vid != 0 && id == UsbToken(vid, pid)
    case FileDeparture(path) => id == FileToken(Cut(path))
    case DirDeparture(dir) => InDir(id, dir)
    case _ => false
  }

  /** Whether the token's last event was an arrival; `before` if it had none. */
  function LastWasArrival(calls: seq<Call>, id: Identity, before: bool): bool
    decreases |calls|
  {
    if calls == [] then before
    else
      LastWasArrival(calls[1..], id,
        if IsArrival(calls[0], id) then true else if IsDeparture(calls[0], id) then false else before)
  }

  lemma FollowKeepsEntry(r: Registry, c: Call, size: nat, id: Identity)
    requires id in r.entries && !c.Finalize?
    ensures
      var e, r' := r.entries[id], Follow(r, c, true, size);
      id in r'.entries && r'.entries[id] ==
        Entry(e.slot, if IsArrival(c, id) then true else if IsDeparture(c, id) then false else e.present)
  {
    hide LiesUnder, Cut;
  }

  lemma StaysInitialized(s: State, c: Call)
    requires SessionInv(s) && s.initialized && !c.Finalize?
    ensures Step(s, c).initialized
  {
    hide AddPiv, AddSoft, AddKeystore, ClearKeys, Consistent, DoDirDeparture, Find, Matches;
    if c.DirDeparture? && |s.slots| > 0 {
      DirDepartureStaysInitialized(s, c.dir, 1);
    }
  }

  lemma {:induction false} DirDepartureStaysInitialized(s: State, dir: string, i: nat)
    requires i <= |s.slots|
    ensures DoDirDeparture(s, dir, i).initialized == s.initialized
    decreases |s.slots| - i
  {
    hide Under, ClearKeys;
    if i < |s.slots| {
      DirDepartureStaysInitialized(if Under(s.slots[i], dir) then Depart(s, i) else s, dir, i + 1);
    }
  }

  lemma {:induction false} FollowAllKeepsEntry(s: State, r: Registry, calls: seq<Call>, id: Identity)
    requires SessionInv(s) && s.initialized && id in r.entries
    requires forall k | 0 <= k < |calls| :: !calls[k].Finalize?
    ensures
      var e, r' := r.entries[id], FollowAll(s, r, calls);
      id in r'.entries && r'.entries[id] == Entry(e.slot, LastWasArrival(calls, id, e.present))
    ensures Run(s, calls).initialized
    decreases |calls|
  {
    hide Step, Follow, Consistent, IsArrival, IsDeparture;
    if calls != [] {
      StepKeepsSessions(s, calls[0]);
      StaysInitialized(s, calls[0]);
      FollowKeepsEntry(r, calls[0], |s.slots|, id);
      FollowAllKeepsEntry(Step(s, calls[0]), Follow(r, calls[0], true, |s.slots|), calls[1..], id);
    }
  }

  /** A token that has slot `i` at some point of a run still has it, and only it, after
      any further calls and events that do not finalize the library; and the slot is
      marked present exactly when the token's last event was an arrival. */
  lemma TokenKeepsItsSlot(
      sessions: nat, keys: nat, slots: nat, before: seq<Call>, after: seq<Call>, i: nat, j: nat)
    requires
      var s := Reach(sessions, keys, slots, before);
      s.initialized && 1 <= i < slots && s.slots[i].inUse
    requires forall k | 0 <= k < |after| :: !after[k].Finalize?
    requires 1 <= j < slots
    ensures
      var s := Reach(sessions, keys, slots, before);
      var id, s' := IdOf(s.slots[i]), Run(s, after);
      && s'.slots[i].inUse && IdOf(s'.slots[i]) == id
      && s'.slots[i].present == LastWasArrival(after, id, s.slots[i].present)
      && (s'.slots[j].inUse && IdOf(s'.slots[j]) == id ==> j == i)
  {
    hide Reach, Run, Shaped, FollowAll, SessionInv, LastWasArrival;
    var s := Reach(sessions, keys, slots, before);
    var id := IdOf(s.slots[i]);
    var r := ReachIsRegistered(sessions, keys, slots, before);
    RunFollows(s, r, after);
    FollowAllKeepsEntry(s, r, after, id);
  }

  /** Slot 0 is never given to a token: while the library is initialized it is the soft
      token's, and present. */
  lemma SlotZeroIsSoft(sessions: nat, keys: nat, slots: nat, calls: seq<Call>)
    requires slots > 0 && Reach(sessions, keys, slots, calls).initialized
    ensures
      var t := Reach(sessions, keys, slots, calls).slots[0];
      t.inUse && t.present && t.proto == SoftProto
  {
    hide Reach, Represents;
    var r := ReachIsRegistered(sessions, keys, slots, calls);
  }
}
