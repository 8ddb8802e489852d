/** The three global tables of the PKCS#11 layer (sessions, key objects, slots), what
    key objects own, and the table operations that the API calls are made of. */
module Tables {
  import opened Bytes

  // -------------------------------------------------------------------- sessions

  datatype Login = Public | User | So

  datatype SessionState = RoPublic | RwPublic | RoUser | RwUser | RwSo

  /** The state that PKCS#11 assigns to a login state and a session kind. */
  function StateOf(login: Login, rw: bool): SessionState {
    match login
    case Public => if rw then RwPublic else RoPublic
    case User => if rw then RwUser else RoUser
    case So => RwSo
  }

  /** A sign, verify, encrypt or decrypt operation; `key` is a 1-based handle. */
  datatype Op = Op(active: bool, key: nat)

  const NO_OP := Op(false, 0)

  datatype Kind = Sign | Verify | Encrypt | Decrypt

  datatype Session = Session(
    inUse: bool, slot: nat, rw: bool, login: Login, state: SessionState,
    sign: Op, verify: Op, encrypt: Op, decrypt: Op)
  {
    function Get(k: Kind): Op {
      match k
      case Sign => sign
      case Verify => verify
      case Encrypt => encrypt
      case Decrypt => decrypt
    }

    function Set(k: Kind, o: Op): (s: Session)
      ensures s.Get(k) == o && forall k' :: k' != k ==> s.Get(k') == Get(k')
      ensures (s.inUse, s.slot, s.rw, s.login, s.state) == (inUse, slot, rw, login, state)
    {
      match k
      case Sign => this.(sign := o)
      case Verify => this.(verify := o)
      case Encrypt => this.(encrypt := o)
      case Decrypt => this.(decrypt := o)
    }
  }

  /** A record cleared with memset. */
  const ZERO_SESSION := Session(false, 0, false, Public, RoPublic, NO_OP, NO_OP, NO_OP, NO_OP)

  predicate On(s: Session, slot: nat) {
    s.inUse && s.slot == slot
  }

  /** memset on every open session of a slot. */
  function ZeroSessions(ss: seq<Session>, slot: nat): (r: seq<Session>)
    ensures |r| == |ss|
    ensures forall j | 0 <= j < |ss| :: r[j] == if On(ss[j], slot) then ZERO_SESSION else ss[j]
  {
    seq(|ss|, j requires 0 <= j < |ss| => if On(ss[j], slot) then ZERO_SESSION else ss[j])
  }

  function WithLogin(s: Session, login: Login): Session {
    s.(login := login, state := StateOf(login, s.rw))
  }

  /** Login reaches every open session of the slot. */
  function SetLogin(ss: seq<Session>, slot: nat, login: Login): (r: seq<Session>)
    ensures |r| == |ss|
    ensures forall j | 0 <= j < |ss| :: r[j] == if On(ss[j], slot) then WithLogin(ss[j], login) else ss[j]
  {
    seq(|ss|, j requires 0 <= j < |ss| => if On(ss[j], slot) then WithLogin(ss[j], login) else ss[j])
  }

  function LoggedOut(s: Session): Session {
    WithLogin(s, Public).(sign := NO_OP, verify := NO_OP, encrypt := NO_OP, decrypt := NO_OP)
  }

  /** Logout also ends every operation. */
  function SetLogout(ss: seq<Session>, slot: nat): (r: seq<Session>)
    ensures |r| == |ss|
    ensures forall j | 0 <= j < |ss| :: r[j] == if On(ss[j], slot) then LoggedOut(ss[j]) else ss[j]
  {
    seq(|ss|, j requires 0 <= j < |ss| => if On(ss[j], slot) then LoggedOut(ss[j]) else ss[j])
  }

  function Forget(o: Op, key: nat): Op {
    if o.key == key then NO_OP else o
  }

  function ForgetKey(s: Session, key: nat): Session {
    s.(sign := Forget(s.sign, key), verify := Forget(s.verify, key),
       encrypt := Forget(s.encrypt, key), decrypt := Forget(s.decrypt, key))
  }

  /** The scan of C_DestroyObject for operations on the destroyed key. */
  function ForgetKeyEverywhere(ss: seq<Session>, key: nat): (r: seq<Session>)
    ensures |r| == |ss|
    ensures forall j | 0 <= j < |ss| :: r[j] == if ss[j].inUse then ForgetKey(ss[j], key) else ss[j]
  {
    seq(|ss|, j requires 0 <= j < |ss| => if ss[j].inUse then ForgetKey(ss[j], key) else ss[j])
  }

  function FreeSession(ss: seq<Session>, i: nat): (r: nat)
    requires i <= |ss|
    ensures i <= r <= |ss| && (r < |ss| ==> !ss[r].inUse) && forall j | i <= j < r :: ss[j].inUse
    decreases |ss| - i
  {
    if i == |ss| || !ss[i].inUse then i else FreeSession(ss, i + 1)
  }

  /** The login state of the first session of the slot that is logged in. */
  function SlotLogin(ss: seq<Session>, slot: nat, i: nat): (r: Login)
    requires i <= |ss|
    ensures r == Public ==> forall j | i <= j < |ss| :: On(ss[j], slot) ==> ss[j].login == Public
    ensures r != Public ==> exists j | i <= j < |ss| :: On(ss[j], slot) && ss[j].login == r
    decreases |ss| - i
  {
    if i == |ss| then Public
    else if On(ss[i], slot) && ss[i].login != Public then ss[i].login
    else SlotLogin(ss, slot, i + 1)
  }

  predicate ReadOnlyExists(ss: seq<Session>, slot: nat) {
    exists j | 0 <= j < |ss| :: On(ss[j], slot) && !ss[j].rw
  }

  // ---------------------------------------------------------------- key objects

  /** backend_ops: keystore backends have no free_key_priv. */
  datatype Backend = NoBackend | SoftOps | UsbOps | KeystoreOps

  /** key_priv: a shared soft key, a pointer into a keystore, or a PIV key record. */
  datatype Priv = NoPriv | SoftKey(id: nat) | KeystoreEntry(ks: nat) | PivKey

  datatype KeyObj = KeyObj(inUse: bool, slot: nat, backend: Backend, priv: Priv, isPrivate: bool)

  const ZERO_KEY := KeyObj(false, 0, NoBackend, NoPriv, false)

  /** The key table, the reference counts of the live soft keys, and the soft keys
      whose memory has been released, in order. `next` is the next fresh identity. */
  datatype Keys = Keys(objs: seq<KeyObj>, refs: map<nat, int>, released: seq<nat>, next: nat)

  /** wp11_soft_key_free: the count drops; at its last reference the key is released.
      A key imported from DER has count 0 and is released by its first free. */
  function FreeSoftKey(k: Keys, id: nat): (r: Keys)
    ensures r.objs == k.objs && r.next == k.next
  {
    if id in k.refs && k.refs[id] > 1 then k.(refs := k.refs[id := k.refs[id] - 1])
    else k.(refs := k.refs - {id}, released := k.released + [id])
  }

  /** backend_ops->free_key_priv(key_priv), where there is one. */
  function FreePriv(k: Keys, o: KeyObj): (r: Keys)
    ensures r.objs == k.objs && r.next == k.next
  {
    if o.backend == SoftOps && o.priv.SoftKey? then FreeSoftKey(k, o.priv.id) else k
  }

  predicate Belongs(o: KeyObj, slot: nat, backend: Backend) {
    o.inUse && o.slot == slot && o.backend == backend
  }

  /** Object `i` freed and its record replaced by `o`. */
  function Drop(k: Keys, i: nat, o: KeyObj): (r: Keys)
    requires i < |k.objs|
    ensures r.objs == k.objs[i := o] && r.next == k.next
  {
    FreePriv(k, k.objs[i]).(objs := k.objs[i := o])
  }

  /** piv_slot_clear_keys, ks_slot_clear_keys and soft_slot_clear_keys, from entry i. */
  function ClearKeys(k: Keys, i: nat, slot: nat, backend: Backend): (r: Keys)
    requires i <= |k.objs|
    ensures |r.objs| == |k.objs| && r.next == k.next
    ensures forall j | 0 <= j < |k.objs| ::
      r.objs[j] == if j >= i && Belongs(k.objs[j], slot, backend) then ZERO_KEY else k.objs[j]
    decreases |k.objs| - i
  {
    if i == |k.objs| then k
    else if Belongs(k.objs[i], slot, backend) then ClearKeys(Drop(k, i, ZERO_KEY), i + 1, slot, backend)
    else ClearKeys(k, i + 1, slot, backend)
  }

  function FreeKey(objs: seq<KeyObj>, i: nat): (r: nat)
    requires i <= |objs|
    ensures i <= r <= |objs| && (r < |objs| ==> !objs[r].inUse) && forall j | i <= j < r :: objs[j].inUse
    decreases |objs| - i
  {
    if i == |objs| || !objs[i].inUse then i else FreeKey(objs, i + 1)
  }

  /** The fields a populate loop stores; it leaves `isPrivate` as it finds it. */
  function Claimed(old_: KeyObj, slot: nat, backend: Backend, priv: Priv): KeyObj {
    KeyObj(true, slot, backend, priv, old_.isPrivate)
  }

  /** `n` PIV objects (keys, or certificates with no private part); as many as fit. */
  function AddPiv(k: Keys, slot: nat, priv: Priv, n: nat): (r: (Keys, nat))
    ensures |r.0.objs| == |k.objs| && r.1 <= n
    ensures (r.0.refs, r.0.released, r.0.next) == (k.refs, k.released, k.next)
    decreases n
  {
    var i := FreeKey(k.objs, 0);
    if n == 0 || i == |k.objs| then (k, n)
    else AddPiv(k.(objs := k.objs[i := Claimed(k.objs[i], slot, UsbOps, priv)]), slot, priv, n - 1)
  }

  /** ks_slot_populate_keys: all `n` entries of a keystore; the rest counts as dropped. */
  function AddKeystore(k: Keys, slot: nat, ks: nat, n: nat): (r: (Keys, nat))
    ensures |r.0.objs| == |k.objs| && r.1 <= n
    ensures (r.0.refs, r.0.released, r.0.next) == (k.refs, k.released, k.next)
    decreases n
  {
    var i := FreeKey(k.objs, 0);
    if n == 0 || i == |k.objs| then (k, n)
    else AddKeystore(k.(objs := k.objs[i := KeyObj(true, slot, KeystoreOps, KeystoreEntry(ks), true)]), slot, ks, n - 1)
  }

  /** soft_slot_populate_keys: each entry that can be imported becomes a soft key of
      its own, with its reference count left at 0. */
  function AddSoft(k: Keys, slot: nat, importable: seq<bool>): (r: (Keys, nat))
    ensures |r.0.objs| == |k.objs|
    decreases |importable|
  {
    if importable == [] then (k, 0)
    else
      var i := FreeKey(k.objs, 0);
      if i == |k.objs| || !importable[0] then
        var (k', dropped) := AddSoft(k, slot, importable[1..]);
        (k', dropped + 1)
      else
        var o := Claimed(k.objs[i], slot, SoftOps, SoftKey(k.next));
        AddSoft(Keys(k.objs[i := o], k.refs[k.next := 0], k.released, k.next + 1), slot, importable[1..])
  }

  /** The soft path of C_GenerateKeyPair: one key, two objects, two references. */
  function AddPair(k: Keys, slot: nat, isPrivate: bool, pub: nat, priv: nat): (r: Keys)
    requires pub < priv < |k.objs|
    ensures |r.objs| == |k.objs|
  {
    var id := k.next;
    Keys(
      k.objs[pub := KeyObj(true, slot, SoftOps, SoftKey(id), false)]
            [priv := KeyObj(true, slot, SoftOps, SoftKey(id), isPrivate)],
      k.refs[id := 2], k.released, k.next + 1)
  }

  // ----------------------------------------------------------------------- slots

  datatype Proto = SoftProto | PivProto | OtherUsb | FlashProto

  datatype Slot = Slot(
    inUse: bool, present: bool, vid: nat, pid: nat, proto: Proto, path: string,
    keystore: Option<nat>, ccid: bool)

  /** The protocols the token database assigns to USB tokens. */
  datatype UsbKind = PivCard | OtherCard

  function ProtoOf(k: UsbKind): Proto {
    if k.PivCard? then PivProto else OtherUsb
  }

  /** The path of a .p11k file below a watched directory. */
  type Path = s: string | s != "" witness "f"

  const ZERO_SLOT := Slot(false, false, 0, 0, SoftProto, "", None, false)

  const PATH_MAX := 255

  /** strncmp(a, b, 255) == 0 on strings without NUL. */
  predicate SamePath(a: string, b: string) {
    Cut(a) == Cut(b)
  }

  function Cut(a: string): string {
    if |a| <= PATH_MAX then a else a[..PATH_MAX]
  }

  /** What the loops over the slot table look for. */
  datatype Query =
    | ByUsb(vid: nat, pid: nat)
    | ByUsbPresent(vid: nat, pid: nat)
    | ByPath(path: string)
    | ByPathPresent(path: string)
    | Unused

  predicate Matches(s: Slot, q: Query) {
    match q
    case ByUsb(vid, pid) => s.inUse && s.vid == vid && s.pid == pid
    case ByUsbPresent(vid, pid) => s.inUse && s.vid == vid && s.pid == pid && s.present
    case ByPath(path) => s.inUse && s.proto == FlashProto && SamePath(s.path, path)
    case ByPathPresent(path) => s.inUse && s.present && SamePath(s.path, path)
    case Unused => !s.inUse
  }

  /** The first matching slot from `i` on, or the table size. */
  function Find(slots: seq<Slot>, q: Query, i: nat): (r: nat)
    requires i <= |slots|
    ensures i <= r <= |slots| && (r < |slots| ==> Matches(slots[r], q))
    ensures forall j | i <= j < r :: !Matches(slots[j], q)
    decreases |slots| - i
  {
    if i == |slots| || Matches(slots[i], q) then i else Find(slots, q, i + 1)
  }

  /** `path` is `dir` or lies under it. */
  predicate LiesUnder(path: string, dir: string) {
    |dir| <= |path| && path[..|dir|] == dir && (|path| == |dir| || path[|dir|] == '/')
  }

  /** slot_remove_flash_dir's test. */
  predicate Under(s: Slot, dir: string) {
    s.inUse && s.present && s.proto == FlashProto && LiesUnder(s.path, dir)
  }
}
