/** Which slot a hotplug event finds, and everything it changes there and elsewhere, read off
    the state before it. */
module EventOutcomes {
  import opened Bytes
  import opened Tables
  import opened TableOps
  import opened SessionLaws
  import opened SlotLaws
  import opened LivenessLaws

  // -------------------------------------------------------------------- arrivals

  /** Slot `i` is the lowest that satisfies `p`, slot 0 left out. */
  ghost predicate Lowest(slots: seq<Slot>, p: Slot -> bool, i: nat) {
    1 <= i < |slots| && p(slots[i]) && forall j | 1 <= j < i :: !p(slots[j])
  }

  ghost predicate NoneIs(slots: seq<Slot>, p: Slot -> bool) {
    forall j | 1 <= j < |slots| :: !p(slots[j])
  }

  function IsUsb(vid: nat, pid: nat): Slot -> bool {
    (t: Slot) => t.inUse && t.vid == vid && t.pid == pid
  }

  const IS_UNUSED: Slot -> bool := (t: Slot) => !t.inUse

  /** A file's slot, by the part of the path that the comparison looks at. */
  function IsFile(path: string): Slot -> bool {
    (t: Slot) => t.inUse && t.vid == 0 && t.path == if |path| > 255 then path[..255] else path
  }

  lemma UsbQuery(slots: seq<Slot>, vid: nat, pid: nat)
    requires |slots| > 0
    ensures
      var i := Find(slots, ByUsb(vid, pid), 1);
      if i < |slots| then Lowest(slots, IsUsb(vid, pid), i) else NoneIs(slots, IsUsb(vid, pid))
  {
    forall j | 1 <= j < |slots| ensures IsUsb(vid, pid)(slots[j]) <==> Matches(slots[j], ByUsb(vid, pid)) {}
  }

  lemma UnusedQuery(slots: seq<Slot>)
    requires |slots| > 0
    ensures
      var i := Find(slots, Unused, 1);
      if i < |slots| then Lowest(slots, IS_UNUSED, i) else NoneIs(slots, IS_UNUSED)
  {
    forall j | 1 <= j < |slots| ensures IS_UNUSED(slots[j]) <==> Matches(slots[j], Unused) {}
  }

  lemma FileQuery(slots: seq<Slot>, path: Path)
    requires |slots| > 0 && Shaped(slots, true)
    ensures
      var i := Find(slots, ByPath(path), 1);
      if i < |slots| then Lowest(slots, IsFile(path), i) else NoneIs(slots, IsFile(path))
  {
    forall j | 1 <= j < |slots| ensures IsFile(path)(slots[j]) <==> Matches(slots[j], ByPath(path)) {}
  }

  /** The outcome of an arrival: a token seen before is marked present in its slot; a new
      one gets the lowest unused slot, as `new_`; without one it is turned away. */
  ghost predicate ArrivesIn(s: State, s': State, at: Option<nat>, same: Slot -> bool, new_: Slot) {
    if at.None? then s' == s && NoneIs(s.slots, same) && NoneIs(s.slots, IS_UNUSED)
    else
      var i := at.value;
      if Lowest(s.slots, same, i) then s' == s.(slots := s.slots[i := s.slots[i].(present := true)])
      else
        NoneIs(s.slots, same) && Lowest(s.slots, IS_UNUSED, i) && s' == s.(slots := s.slots[i := new_])
  }

  /** slot_add behind hotplug_cb, for a device that is in the token database. */
  lemma UsbArrivalOutcome(s: State, vid: nat, pid: nat, kind: UsbKind)
    requires Shaped(s.slots, s.initialized)
    ensures
      var (s', at) := DoUsbArrival(s, vid, pid, Some(kind));
      var proto := if kind == PivCard then PivProto else OtherUsb;
      if !s.initialized || vid == 0 || |s.slots| == 0 then s' == s && at == None
      else ArrivesIn(s, s', at, IsUsb(vid, pid), Slot(true, true, vid, pid, proto, "", None, false))
  {
    hide Find, Shaped, Lowest, NoneIs;
    if s.initialized && |s.slots| > 0 {
      UsbQuery(s.slots, vid, pid);
      UnusedQuery(s.slots);
      NotBoth(s.slots, IsUsb(vid, pid));
      LowestUnusedIsZero(s.slots);
    }
  }

  lemma NotBoth(slots: seq<Slot>, p: Slot -> bool)
    ensures forall i: nat :: Lowest(slots, p, i) ==> !NoneIs(slots, p)
  {}

  lemma LowestUnusedIsZero(slots: seq<Slot>)
    requires Shaped(slots, true)
    ensures forall i: nat :: Lowest(slots, IS_UNUSED, i) ==> i < |slots| && slots[i] == ZERO_SLOT
  {}

  /** Any other device is passed over. slot_add_keystore works as slot_add does, and passes
      over paths that a slot has no room for. */
  lemma FileArrivalOutcome(s: State, path: Path, vid: nat, pid: nat)
    requires Shaped(s.slots, s.initialized)
    ensures DoUsbArrival(s, vid, pid, None) == (s, None)
    ensures
      var (s', at) := DoFileArrival(s, path);
      if !s.initialized || |path| > 255 || |s.slots| == 0 then s' == s && at == None
      else ArrivesIn(s, s', at, IsFile(path), Slot(true, true, 0, 0, FlashProto, path, None, false))
  {
    hide Find, Shaped, Lowest, NoneIs;
    if s.initialized && |s.slots| > 0 {
      FileQuery(s.slots, path);
      UnusedQuery(s.slots);
      NotBoth(s.slots, IsFile(path));
      LowestUnusedIsZero(s.slots);
    }
  }

  // ------------------------------------------------------------------ departures

  /** The slots in `away` have lost their tokens. They are marked absent, the sessions on
      them are cleared, and so are their objects of the backend given for them; `t` is what
      remains of each slot. Nothing else changes. */
  ghost predicate Departs(
    s: State, s': State, away: int -> bool, objectsOf: KeyObj -> bool, remains: Slot -> Slot)
  {
    && |s'.slots| == |s.slots| && |s'.sessions| == |s.sessions| && |s'.keys.objs| == |s.keys.objs|
    && (forall j | 0 <= j < |s.slots| :: s'.slots[j] == if away(j) then remains(s.slots[j]) else s.slots[j])
    && (forall j | 0 <= j < |s.sessions| ::
          s'.sessions[j] ==
            if s.sessions[j].inUse && away(s.sessions[j].slot) then ZERO_SESSION else s.sessions[j])
    && (forall j | 0 <= j < |s.keys.objs| ::
          s'.keys.objs[j] ==
            if s.keys.objs[j].inUse && away(s.keys.objs[j].slot) && objectsOf(s.keys.objs[j]) then ZERO_KEY
            else s.keys.objs[j])
    && (s'.initialized, s'.nextKs, s'.keys.next) == (s.initialized, s.nextKs, s.keys.next)
  }

  ghost predicate Frees(s: State, s': State, away: int -> bool) {
    forall ks: nat :: ks in s'.freed <==> ks in s.freed || HeldAway(s.slots, away, ks)
  }

  ghost predicate HeldAway(slots: seq<Slot>, away: int -> bool, ks: nat) {
    exists j | 0 <= j < |slots| :: away(j) && slots[j].keystore == Some(ks)
  }

  /** `path` is `dir`, or a path below it: what follows is a slash and anything. */
  ghost predicate Below(path: string, dir: string) {
    path == dir || exists rest :: path == dir + "/" + rest
  }

  lemma LiesUnderIff(path: string, dir: string)
    ensures LiesUnder(path, dir) <==> Below(path, dir)
  {
    if rest :| path == dir + "/" + rest {
      assert path[|dir|] == '/';
    }
    if LiesUnder(path, dir) && |path| > |dir| {
      assert path == dir + "/" + path[|dir| + 1..];
    }
  }

  ghost function IsAwayWith(slots: seq<Slot>, dir: string): int -> bool {
    j => 1 <= j < |slots| && slots[j].inUse && slots[j].present && slots[j].vid == 0 && Below(slots[j].path, dir)
  }

  function IsOf(backend: Backend): KeyObj -> bool {
    (o: KeyObj) => o.backend == backend
  }

  const WITHOUT_FILE: Slot -> Slot := (t: Slot) => t.(present := false, keystore := None)

  /** slot_remove_flash_dir: gone are exactly the files that are `dir` or lie below it. A
      directory whose name merely begins with `dir` is another directory. */
  lemma DirDepartureByPaths(s: State, dir: string)
    requires s.initialized && |s.slots| > 0 && Shaped(s.slots, true)
    ensures
      var s', away := DoDirDeparture(s, dir, 1), IsAwayWith(s.slots, dir);
      Departs(s, s', away, IsOf(KeystoreOps), WITHOUT_FILE) && Frees(s, s', away)
  {
    hide LiesUnder, Below, Shaped;
    DirDepartureForm(s, dir, 1);
    DirDepartureSlots(s, dir, 1);
    forall j | 0 <= j < |s.slots| ensures Leaves(s.slots, 1, dir, j) <==> IsAwayWith(s.slots, dir)(j) {
      if j >= 1 && s.slots[j].inUse {
        LiesUnderIff(s.slots[j].path, dir);
        FileIff(s.slots, j);
      }
    }
  }

  lemma FileIff(slots: seq<Slot>, j: nat)
    requires Shaped(slots, true) && 1 <= j < |slots| && slots[j].inUse
    ensures slots[j].proto == FlashProto <==> slots[j].vid == 0
  {}

  function Only(i: nat): int -> bool {
    j => j == i
  }

  /** slot_remove: the present slot of that device. Its key objects go only if the card is
      connected; nothing else does. */
  lemma UsbDepartureOutcome(s: State, vid: nat, pid: nat)
    requires Shaped(s.slots, s.initialized)
    ensures
      var (s', at) := DoUsbDeparture(s, vid, pid);
      if !s.initialized || vid == 0 || |s.slots| == 0 then s' == s && at == None
      else if at.None? then s' == s && NoneIs(s.slots, IsUsbHere(vid, pid))
      else
        && Lowest(s.slots, IsUsbHere(vid, pid), at.value) && s'.freed == s.freed
        && Departs(s, s', Only(at.value), if s.slots[at.value].ccid then IsOf(UsbOps) else NO_OBJECT, WITHOUT_CARD)
  {
    hide ClearKeys, Shaped;
    if s.initialized && |s.slots| > 0 {
      UsbHereQuery(s.slots, vid, pid);
    }
  }

  function IsUsbHere(vid: nat, pid: nat): Slot -> bool {
    (t: Slot) => t.inUse && t.present && t.vid == vid && t.pid == pid
  }

  const NO_OBJECT: KeyObj -> bool := _ => false

  const WITHOUT_CARD: Slot -> Slot := (t: Slot) => t.(present := false, ccid := false)

  lemma UsbHereQuery(slots: seq<Slot>, vid: nat, pid: nat)
    requires |slots| > 0
    ensures
      var i := Find(slots, ByUsbPresent(vid, pid), 1);
      if i < |slots| then Lowest(slots, IsUsbHere(vid, pid), i) else NoneIs(slots, IsUsbHere(vid, pid))
  {
    forall j | 1 <= j < |slots| ensures IsUsbHere(vid, pid)(slots[j]) <==> Matches(slots[j], ByUsbPresent(vid, pid)) {}
  }

  function IsFileHere(path: string): Slot -> bool {
    (t: Slot) => t.inUse && t.present && t.vid == 0 && t.path == if |path| > 255 then path[..255] else path
  }

  lemma FileHereQuery(slots: seq<Slot>, path: Path)
    requires |slots| > 0 && Shaped(slots, true)
    ensures
      var i := Find(slots, ByPathPresent(path), 1);
      if i < |slots| then Lowest(slots, IsFileHere(path), i) else NoneIs(slots, IsFileHere(path))
  {
    forall j | 1 <= j < |slots| ensures IsFileHere(path)(slots[j]) <==> Matches(slots[j], ByPathPresent(path)) {}
  }

  /** slot_remove_keystore: the present slot of that file, with its objects and keystore. */
  lemma FileDepartureOutcome(s: State, path: Path)
    requires Shaped(s.slots, s.initialized)
    ensures
      var (s', at) := DoFileDeparture(s, path);
      if !s.initialized || |s.slots| == 0 then s' == s && at == None
      else if at.None? then s' == s && NoneIs(s.slots, IsFileHere(path))
      else
        && Lowest(s.slots, IsFileHere(path), at.value)
        && Departs(s, s', Only(at.value), IsOf(KeystoreOps), WITHOUT_FILE) && Frees(s, s', Only(at.value))
  {
    hide ClearKeys, Shaped;
    if s.initialized && |s.slots| > 0 {
      FileHereQuery(s.slots, path);
    }
  }

  /** In the registry, exactly the identities of such files lose their mark. */
  lemma DepartDirByPaths(r: Registry, dir: string, id: Identity)
    ensures
      var r' := DepartDir(r, dir);
      && r'.n == r.n && (id in r'.entries <==> id in r.entries)
      && (id in r.entries ==>
            && r'.entries[id].slot == r.entries[id].slot
            && (r'.entries[id].present <==>
                  r.entries[id].present && !(id.FileToken? && Below(id.path, dir))))
  {
    hide LiesUnder, Below;
    if id.FileToken? {
      LiesUnderIff(id.path, dir);
    }
  }

  /** What DirDepartureForm says of sessions and objects, for slots and keystores. */
  lemma {:induction false} DirDepartureSlots(s: State, dir: string, i: nat)
    requires i <= |s.slots|
    ensures
      var s' := DoDirDeparture(s, dir, i);
      && |s'.slots| == |s.slots|
      && (s'.initialized, s'.nextKs, s'.keys.next) == (s.initialized, s.nextKs, s.keys.next)
      && (forall j | 0 <= j < |s.slots| ::
            s'.slots[j] == if Leaves(s.slots, i, dir, j) then WITHOUT_FILE(s.slots[j]) else s.slots[j])
      && (forall ks: nat :: ks in s'.freed <==>
            ks in s.freed || exists j | 0 <= j < |s.slots| ::
              Leaves(s.slots, i, dir, j) && s.slots[j].keystore == Some(ks))
    decreases |s.slots| - i
  {
    hide Under, ClearKeys, ZeroSessions;
    if i < |s.slots| {
      var s1 := if Under(s.slots[i], dir) then Depart(s, i) else s;
      assert forall j | i < j < |s.slots| :: s1.slots[j] == s.slots[j];
      DirDepartureSlots(s1, dir, i + 1);
    }
  }
}
