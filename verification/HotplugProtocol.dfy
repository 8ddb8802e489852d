/** The two-lock protocol around the ring, step by step: any number of threads, each
    in a call that takes g_lock, g_hotplug_mutex or both, under any schedule. */
module HotplugProtocol {
  import opened Bytes
  import opened HotplugRing

  /** What a thread's current call is about. Every such call takes g_lock first. A
      producer pushes either after releasing g_lock (hotplug callbacks) or while
      holding it (slot_remove_flash_dir). */
  datatype Intent = Pushing(e: Event, underG: bool) | Polling | Waiting | OtherCall

  /** Where a thread is. `g` says that it also holds g_lock. */
  datatype PC =
    | Idle
    | WantG(i: Intent)
    | HasG(i: Intent)
    | WantH(i: Intent, g: bool)
    | HasH(i: Intent, g: bool)
    | Updated(g: bool)
    | Leaving(g: bool)
    | Asleep

  predicate HoldsG(p: PC) {
    p.HasG? || ((p.WantH? || p.HasH? || p.Updated? || p.Leaving?) && p.g)
  }

  predicate HoldsH(p: PC) {
    p.HasH? || p.Updated? || p.Leaving?
  }

  /** Locks, ring and threads; and, for the record, every event a producer brought to
      the ring, those that were counted as dropped, and those handed to callers, in
      order. */
  datatype State = State(
    threads: seq<PC>,
    gOwner: Option<nat>,
    hOwner: Option<nat>,
    ring: Ring,
    offered: seq<Event>,
    refused: seq<Event>,
    delivered: seq<Event>)

  datatype Action =
    | Start(i: Intent)      // enter a call
    | TakeG                 // acquire g_lock
    | Proceed               // leave g_lock's section for the queue (or just leave)
    | GiveUp                // nothing to do for the queue: release g_lock and return
    | TakeH                 // acquire g_hotplug_mutex
    | Act                   // the queue operation, or going to sleep on an empty queue
    | Broadcast             // wake every sleeper
    | Leave                 // release g_hotplug_mutex
    | PushMore(e: Event)    // another departure in the same slot_remove_flash_dir
    | WakeSpuriously

  /** pthread_cond_broadcast: every sleeper goes on to reacquire the mutex. */
  function WakeAll(threads: seq<PC>): (r: seq<PC>)
    ensures |r| == |threads|
    ensures forall k | 0 <= k < |r| :: r[k] == if threads[k].Asleep? then WantH(Waiting, false) else threads[k]
  {
    seq(|threads|, k requires 0 <= k < |threads| => if threads[k].Asleep? then WantH(Waiting, false) else threads[k])
  }

  /** Whether thread `t` may perform `a` now. */
  predicate Enabled(s: State, t: nat, a: Action) {
    t < |s.threads| &&
    var p := s.threads[t];
    match a
    case Start(i) => p.Idle?
    case TakeG => p.WantG? && s.gOwner.None?
    case Proceed => p.HasG?
    case GiveUp => p.HasG?
    case TakeH => p.WantH? && s.hOwner.None?
    case Act => p.HasH?
    case Broadcast => p.Updated?
    case Leave => p.Leaving?
    case PushMore(_) => p.Leaving? && p.g
    case WakeSpuriously => p.Asleep?
  }

  function Move(s: State, t: nat, p: PC): State
    requires t < |s.threads|
  {
    s.(threads := s.threads[t := p])
  }

  /** C_WaitForSlotEvent or hotplug_push_event with the mutex held. */
  function ActOn(s: State, t: nat): State
    requires s.ring.Valid() && t < |s.threads| && s.threads[t].HasH?
  {
    var p := s.threads[t];
    match p.i
    case Pushing(e, _) =>
      var ring := s.ring.Push(e);
      Move(s, t, Updated(p.g)).(
        ring := ring,
        offered := s.offered + [e],
        refused := if ring.dropped > s.ring.dropped then s.refused + [e] else s.refused)
    case OtherCall => Move(s, t, Leaving(p.g))
    case _ =>
      if s.ring.head != s.ring.tail then
        var (e, ring) := s.ring.Pop();
        Move(s, t, Leaving(p.g)).(ring := ring, delivered := s.delivered + [e])
      else if p.i.Waiting? then Move(s, t, Asleep).(hOwner := None)
      else Move(s, t, Leaving(p.g))
  }

  function Step(s: State, t: nat, a: Action): State
    requires s.ring.Valid() && Enabled(s, t, a)
  {
    var p := s.threads[t];
    match a
    case Start(i) => Move(s, t, WantG(i))
    case TakeG => Move(s, t, HasG(p.i)).(gOwner := Some(t))
    case Proceed =>
      if p.i.OtherCall? then Move(s, t, Idle).(gOwner := None)
      else if p.i.Pushing? && p.i.underG then Move(s, t, WantH(p.i, true))
      else Move(s, t, WantH(p.i, false)).(gOwner := None)
    case GiveUp => Move(s, t, Idle).(gOwner := None)
    case TakeH => Move(s, t, HasH(p.i, p.g)).(hOwner := Some(t))
    case Act => ActOn(s, t)
    case Broadcast => Move(s, t, Leaving(p.g)).(threads := WakeAll(s.threads)[t := Leaving(p.g)])
    case Leave => Move(s, t, if p.g then HasG(OtherCall) else Idle).(hOwner := None)
    case PushMore(e) => Move(s, t, HasG(Pushing(e, true))).(hOwner := None)
    case WakeSpuriously => Move(s, t, WantH(Waiting, false))
  }

  /** A schedule: which thread attempts what. An attempt that is not enabled blocks,
      that is, changes nothing. */
  function Run(s: State, schedule: seq<(nat, Action)>): State
    requires s.ring.Valid()
    ensures Run(s, schedule).ring.Valid()
    decreases |schedule|
  {
    if schedule == [] then s
    else
      var (t, a) := schedule[0];
      if Enabled(s, t, a) then StepKeepsRing(s, t, a); Run(Step(s, t, a), schedule[1..])
      else Run(s, schedule[1..])
  }

  lemma StepKeepsRing(s: State, t: nat, a: Action)
    requires s.ring.Valid() && Enabled(s, t, a)
    ensures Step(s, t, a).ring.Valid()
  {}

  ghost predicate Initial(s: State) {
    && s.ring.Valid() && s.ring.head == s.ring.tail && s.ring.dropped == 0
    && s.gOwner.None? && s.hOwner.None?
    && s.offered == s.refused == s.delivered == []
    && forall t | 0 <= t < |s.threads| :: s.threads[t].Idle?
  }

  // ------------------------------------------------------------------- invariant

  /** A lock's owner is the one thread that is where a holder can be. */
  ghost predicate LocksHeld(s: State) {
    && (forall t | 0 <= t < |s.threads| :: HoldsG(s.threads[t]) <==> s.gOwner == Some(t))
    && (forall t | 0 <= t < |s.threads| :: HoldsH(s.threads[t]) <==> s.hOwner == Some(t))
    && (s.gOwner.Some? ==> s.gOwner.value < |s.threads|)
    && (s.hOwner.Some? ==> s.hOwner.value < |s.threads|)
  }

  /** `whole` is made up of `a` and `b`, each in its order. */
  predicate Interleaves(whole: seq<Event>, a: seq<Event>, b: seq<Event>)
    decreases |whole|
  {
    if whole == [] then a == [] && b == []
    else
      var n, e := |whole| - 1, whole[|whole| - 1];
      || (a != [] && a[|a| - 1] == e && Interleaves(whole[..n], a[..|a| - 1], b))
      || (b != [] && b[|b| - 1] == e && Interleaves(whole[..n], a, b[..|b| - 1]))
  }

  /** The ring is first in, first out, and the events that were offered but are neither
      delivered nor queued are those that it counted as dropped. */
  predicate Conserves(s: State) {
    && s.ring.Valid()
    && Interleaves(s.offered, s.delivered + s.ring.Contents(), s.refused)
    && |s.refused| == s.ring.dropped
  }

  /** Whoever sleeps while events are queued is about to be woken: the mutex is still
      held by a producer that has yet to broadcast. */
  ghost predicate NobodyOversleeps(s: State) {
    forall t | 0 <= t < |s.threads| ::
      s.threads[t].Asleep? && s.ring.Valid() && s.ring.head != s.ring.tail ==>
        s.hOwner.Some? && s.hOwner.value < |s.threads| && s.threads[s.hOwner.value].Updated?
  }

  /** Nobody goes to the queue on behalf of a call that has no business there, and
      only producers go there with g_lock in hand. */
  ghost predicate QueueCalls(s: State) {
    forall t | 0 <= t < |s.threads| ::
      var p := s.threads[t];
      p.WantH? || p.HasH? ==> !p.i.OtherCall? && (p.g ==> p.i.Pushing?)
  }

  ghost predicate Inv(s: State) {
    LocksHeld(s) && Conserves(s) && NobodyOversleeps(s) && QueueCalls(s)
  }

  /** One thread moves, and owns after it exactly the locks its new place implies. */
  lemma LocksAfterMove(s: State, t: nat, p: PC, g: Option<nat>, h: Option<nat>)
    requires LocksHeld(s) && QueueCalls(s) && t < |s.threads|
    requires g == (if HoldsG(p) then Some(t) else if s.gOwner == Some(t) then None else s.gOwner)
    requires h == (if HoldsH(p) then Some(t) else if s.hOwner == Some(t) then None else s.hOwner)
    requires HoldsG(p) ==> s.gOwner == Some(t) || s.gOwner.None?
    requires HoldsH(p) ==> s.hOwner == Some(t) || s.hOwner.None?
    requires p.WantH? || p.HasH? ==> !p.i.OtherCall? && (p.g ==> p.i.Pushing?)
    ensures
      var s' := Move(s, t, p).(gOwner := g, hOwner := h);
      LocksHeld(s') && QueueCalls(s')
  {}

  lemma StepKeepsLocks(s: State, t: nat, a: Action)
    requires Inv(s) && Enabled(s, t, a)
    ensures LocksHeld(Step(s, t, a)) && QueueCalls(Step(s, t, a))
  {
    hide NobodyOversleeps;
    var s' := Step(s, t, a);
    if a.Broadcast? {
      BroadcastKeepsLocks(s, t);
    } else {
      OwnersFollow(s, t, a);
      LocksAfterMove(s, t, s'.threads[t], s'.gOwner, s'.hOwner);
      var moved := Move(s, t, s'.threads[t]).(gOwner := s'.gOwner, hOwner := s'.hOwner);
      assert moved.threads == s'.threads;
    }
  }

  lemma OwnersFollow(s: State, t: nat, a: Action)
    requires Inv(s) && Enabled(s, t, a) && !a.Broadcast?
    ensures
      var s' := Step(s, t, a);
      var p := s'.threads[t];
      && s'.threads == s.threads[t := p]
      && s'.gOwner == (if HoldsG(p) then Some(t) else if s.gOwner == Some(t) then None else s.gOwner)
      && s'.hOwner == (if HoldsH(p) then Some(t) else if s.hOwner == Some(t) then None else s.hOwner)
      && (HoldsG(p) ==> s.gOwner == Some(t) || s.gOwner.None?)
      && (HoldsH(p) ==> s.hOwner == Some(t) || s.hOwner.None?)
      && (p.WantH? || p.HasH? ==> !p.i.OtherCall? && (p.g ==> p.i.Pushing?))
  {
    hide NobodyOversleeps;
    assert HoldsG(s.threads[t]) <==> s.gOwner == Some(t);
    assert HoldsH(s.threads[t]) <==> s.hOwner == Some(t);
  }

  lemma BroadcastKeepsLocks(s: State, t: nat)
    requires Inv(s) && Enabled(s, t, Broadcast)
    ensures LocksHeld(Step(s, t, Broadcast)) && QueueCalls(Step(s, t, Broadcast))
  {
    hide NobodyOversleeps;
  }

  lemma OneMoreOffered(whole: seq<Event>, a: seq<Event>, b: seq<Event>, e: Event)
    requires Interleaves(whole, a, b)
    ensures Interleaves(whole + [e], a + [e], b) && Interleaves(whole + [e], a, b + [e])
  {
    assert (whole + [e])[..|whole|] == whole;
    assert (a + [e])[..|a|] == a && (b + [e])[..|b|] == b;
  }

  lemma PushConserves(s: State, t: nat)
    requires Conserves(s) && Enabled(s, t, Act) && s.threads[t].i.Pushing?
    ensures Conserves(Step(s, t, Act))
  {
    hide Interleaves, Ring.Push, Ring.Contents;
    var e := s.threads[t].i.e;
    PushAppends(s.ring, e);
    OneMoreOffered(s.offered, s.delivered + s.ring.Contents(), s.refused, e);
    assert s.delivered + (s.ring.Contents() + [e]) == s.delivered + s.ring.Contents() + [e];
  }

  lemma PopConserves(s: State, t: nat)
    requires Conserves(s) && Enabled(s, t, Act) && (s.threads[t].i.Polling? || s.threads[t].i.Waiting?)
    ensures Conserves(Step(s, t, Act))
  {
    hide Interleaves, Ring.Pop, Ring.Contents;
    if s.ring.head != s.ring.tail {
      PopTakesOldest(s.ring);
      var (e, ring) := s.ring.Pop();
      assert s.delivered + ([e] + ring.Contents()) == s.delivered + [e] + ring.Contents();
    }
  }

  lemma StepConserves(s: State, t: nat, a: Action)
    requires Conserves(s) && Enabled(s, t, a)
    ensures Conserves(Step(s, t, a))
  {
    hide Interleaves, Ring.Push, Ring.Pop, Ring.Contents;
    if a.Act? {
      var i := s.threads[t].i;
      if i.Pushing? {
        PushConserves(s, t);
      } else if !i.OtherCall? {
        PopConserves(s, t);
      }
    }
  }

  lemma {:induction false} InterleavingSizes(whole: seq<Event>, a: seq<Event>, b: seq<Event>)
    requires Interleaves(whole, a, b)
    ensures |whole| == |a| + |b|
    decreases |whole|
  {
    if whole != [] {
      var n := |whole| - 1;
      if a != [] && a[|a| - 1] == whole[n] && Interleaves(whole[..n], a[..|a| - 1], b) {
        InterleavingSizes(whole[..n], a[..|a| - 1], b);
      } else {
        InterleavingSizes(whole[..n], a, b[..|b| - 1]);
      }
    }
  }

  lemma StepKeepsSleepersSafe(s: State, t: nat, a: Action)
    requires Inv(s) && Enabled(s, t, a)
    ensures NobodyOversleeps(Step(s, t, a))
  {}

  lemma SameThreads(s: State, t: nat, a: Action)
    requires s.ring.Valid() && Enabled(s, t, a)
    ensures |Step(s, t, a).threads| == |s.threads|
  {}

  lemma {:induction false} RunKeepsInv(s: State, schedule: seq<(nat, Action)>)
    requires Inv(s)
    ensures Inv(Run(s, schedule)) && |Run(s, schedule).threads| == |s.threads|
    decreases |schedule|
  {
    hide LocksHeld, NobodyOversleeps, QueueCalls, Enabled, Step;
    if schedule != [] {
      var (t, a) := schedule[0];
      if Enabled(s, t, a) {
        StepKeepsLocks(s, t, a);
        StepConserves(s, t, a);
        StepKeepsSleepersSafe(s, t, a);
        SameThreads(s, t, a);
        RunKeepsInv(Step(s, t, a), schedule[1..]);
      } else {
        RunKeepsInv(s, schedule[1..]);
      }
    }
  }

  lemma InitialInv(s: State)
    requires Initial(s)
    ensures Inv(s)
  {}

  // ------------------------------------------------------------------- main results

  /** In every interleaving of the threads the queue holds at most 63 events; what was
      delivered followed by what is queued is a subsequence of what producers offered, so
      delivery is first in, first out; and the rest of it, event for event, is what was
      counted as dropped. */
  lemma EveryEventAccountedFor(s: State, schedule: seq<(nat, Action)>)
    requires Initial(s)
    ensures
      var r := Run(s, schedule);
      && Interleaves(r.offered, r.delivered + r.ring.Contents(), r.refused)
      && |r.refused| == r.ring.dropped
      && r.ring.Count() <= 63
      && |r.offered| == |r.delivered| + r.ring.Count() + r.ring.dropped
  {
    hide Run, Initial, Interleaves;
    InitialInv(s);
    RunKeepsInv(s, schedule);
    var r := Run(s, schedule);
    InterleavingSizes(r.offered, r.delivered + r.ring.Contents(), r.refused);
  }

  /** Some thread that is inside a call can make its next move. */
  ghost predicate SomeoneCanMove(s: State) {
    exists t, a :: Enabled(s, t, a) && InCall(s, t) && !a.WakeSpuriously?
  }

  predicate InCall(s: State, t: nat) {
    t < |s.threads| && !s.threads[t].Idle? && !s.threads[t].Asleep?
  }

  /** The move a thread in a call is trying to make. */
  function NextMove(p: PC): Action
    requires !p.Idle? && !p.Asleep?
  {
    match p
    case WantG(_) => TakeG
    case HasG(_) => Proceed
    case WantH(_, _) => TakeH
    case HasH(_, _) => Act
    case Updated(_) => Broadcast
    case Leaving(_) => Leave
  }

  /** A thread that holds g_hotplug_mutex never waits for a lock: it can always move. That
      it does not ask for g_lock is read off the code and built into PC, where WantG has no
      place for a held mutex; that the lock's owner is at such a place is what is proved. */
  lemma QueueHolderNeverWaits(s: State, schedule: seq<(nat, Action)>, t: nat)
    requires Initial(s)
    ensures
      var r := Run(s, schedule);
      r.hOwner == Some(t) ==>
        t < |r.threads| && !r.threads[t].WantG? && InCall(r, t) && Enabled(r, t, NextMove(r.threads[t]))
  {
    hide Run, Initial, Conserves, NobodyOversleeps, QueueCalls;
    InitialInv(s);
    RunKeepsInv(s, schedule);
  }

  /** No deadlock: in every reachable state in which some thread is inside a call and
      awake, some such thread can move. */
  lemma NoDeadlock(s: State, schedule: seq<(nat, Action)>, t: nat)
    requires Initial(s) && InCall(Run(s, schedule), t)
    ensures SomeoneCanMove(Run(s, schedule))
  {
    hide Run, NobodyOversleeps, QueueCalls;
    InitialInv(s);
    RunKeepsInv(s, schedule);
    var r := Run(s, schedule);
    var mover :=
      if r.hOwner.Some? then r.hOwner.value
      else if r.gOwner.Some? then r.gOwner.value
      else t;
    assert mover < |r.threads|;
    assert HoldsG(r.threads[mover]) || HoldsH(r.threads[mover]) || mover == t;
    assert Enabled(r, mover, NextMove(r.threads[mover]));
  }

  /** No lost wake-up: whenever nobody is in the middle of the queue's critical section
      and some waiter sleeps, the queue is empty. In particular when all threads are
      idle or asleep, the sleepers have nothing to wait for. And a sleeper with events
      queued is one broadcast away from the mutex, by a thread that nothing holds up. */
  lemma SleepersHaveNothingToRead(s: State, schedule: seq<(nat, Action)>, t: nat)
    requires Initial(s)
    ensures
      var r := Run(s, schedule);
      t < |r.threads| && r.threads[t].Asleep? && r.hOwner.None? ==> r.ring.Contents() == []
    ensures
      var r := Run(s, schedule);
      t < |r.threads| && r.threads[t].Asleep? && r.ring.Contents() != [] ==>
        && r.hOwner.Some? && Enabled(r, r.hOwner.value, Broadcast)
        && Step(r, r.hOwner.value, Broadcast).threads[t] == WantH(Waiting, false)
  {
    hide Run, Initial, Interleaves;
    InitialInv(s);
    RunKeepsInv(s, schedule);
    var r := Run(s, schedule);
    if t < |r.threads| && r.threads[t].Asleep? && r.ring.Contents() != [] {
      assert r.threads[r.hOwner.value].Updated?;
    }
  }

  // ------------------------------------------------------------- one call by itself

  /** The steps of one call, when nobody else moves meanwhile. */
  function StepsOf(t: nat, i: Intent): seq<(nat, Action)> {
    [(t, Start(i))] + ([(t, TakeG)] + ([(t, Proceed)] +
      match i
      case Pushing(_, underG) =>
        [(t, TakeH)] + ([(t, Act)] + ([(t, Broadcast)] + ([(t, Leave)] + if underG then [(t, Proceed)] else [])))
      case OtherCall => []
      case _ => [(t, TakeH)] + ([(t, Act)] + [(t, Leave)])))
  }

  lemma RunOne(s: State, t: nat, a: Action, more: seq<(nat, Action)>)
    requires s.ring.Valid() && Enabled(s, t, a)
    ensures Step(s, t, a).ring.Valid() && Run(s, [(t, a)] + more) == Run(Step(s, t, a), more)
  {
    hide Step, Enabled;
    StepKeepsRing(s, t, a);
    assert ([(t, a)] + more)[1..] == more;
  }

  lemma NothingMore(s: State)
    requires s.ring.Valid()
    ensures Run(s, []) == s
  {}

  /** Thread `t` somewhere else, and both locks. */
  function Put(s: State, t: nat, p: PC, g: Option<nat>, h: Option<nat>): State
    requires t < |s.threads|
  {
    s.(threads := s.threads[t := p], gOwner := g, hOwner := h)
  }

  /** A call enters: it takes g_lock, and goes on to the queue or is done. */
  lemma Entering(s: State, t: nat, i: Intent, more: seq<(nat, Action)>)
    requires s.ring.Valid() && t < |s.threads| && s.threads[t].Idle? && s.gOwner.None? && s.hOwner.None?
    ensures
      var g := i.Pushing? && i.underG;
      Run(s, [(t, Start(i))] + ([(t, TakeG)] + ([(t, Proceed)] + more))) ==
        if i.OtherCall? then Run(s, more)
        else Run(Put(s, t, WantH(i, g), if g then Some(t) else None, None), more)
  {
    hide Run;
    var s1, s2 := Put(s, t, WantG(i), None, None), Put(s, t, HasG(i), Some(t), None);
    RunOne(s, t, Start(i), [(t, TakeG)] + ([(t, Proceed)] + more));
    assert Step(s, t, Start(i)) == s1;
    RunOne(s1, t, TakeG, [(t, Proceed)] + more);
    assert Step(s1, t, TakeG) == s2;
    RunOne(s2, t, Proceed, more);
    assert s.threads[t := HasG(i)][t := Idle] == s.threads;
    var g := i.Pushing? && i.underG;
    var s3 := if i.OtherCall? then s else Put(s, t, WantH(i, g), if g then Some(t) else None, None);
    assert Step(s2, t, Proceed) == s3;
  }

  /** A reader at the queue, by itself. */
  lemma Reading(s: State, t: nat, i: Intent)
    requires s.ring.Valid() && t < |s.threads| && s.threads[t].Idle? && s.gOwner.None? && s.hOwner.None?
    requires i.Polling? || i.Waiting?
    ensures
      Run(Put(s, t, WantH(i, false), None, None), [(t, TakeH)] + ([(t, Act)] + [(t, Leave)])) ==
        if s.ring.head != s.ring.tail then s.(ring := s.ring.Pop().1, delivered := s.delivered + [s.ring.Pop().0])
        else if i.Waiting? then Put(s, t, Asleep, None, None)
        else s
  {
    hide Run, Ring.Pop;
    var s3, s4 := Put(s, t, WantH(i, false), None, None), Put(s, t, HasH(i, false), None, Some(t));
    RunOne(s3, t, TakeH, [(t, Act)] + [(t, Leave)]);
    assert Step(s3, t, TakeH) == s4;
    RunOne(s4, t, Act, [(t, Leave)]);
    assert s.threads[t := Idle] == s.threads;
    var s5 := Step(s4, t, Act);
    if s5.threads[t].Leaving? {
      RunOne(s5, t, Leave, []);
      assert [(t, Leave)] + [] == [(t, Leave)];
      NothingMore(Step(s5, t, Leave));
    } else {
      Blocked(s5, t, Leave);
    }
  }

  lemma Blocked(s: State, t: nat, a: Action)
    requires s.ring.Valid() && !Enabled(s, t, a)
    ensures Run(s, [(t, a)]) == s
  {
    assert [(t, a)][1..] == [];
  }

  /** A producer at the queue, by itself. */
  lemma Producing(s: State, t: nat, i: Intent, more: seq<(nat, Action)>)
    requires s.ring.Valid() && t < |s.threads| && s.threads[t].Idle? && s.gOwner.None? && s.hOwner.None?
    requires i.Pushing?
    ensures
      var g := if i.underG then Some(t) else None;
      var r := After(s, i.e);
      && |r.threads| == |s.threads| && r.threads[t].Idle? && r.ring.Valid()
      && Run(Put(s, t, WantH(i, i.underG), g, None),
           [(t, TakeH)] + ([(t, Act)] + ([(t, Broadcast)] + ([(t, Leave)] + more)))) ==
         Run(if i.underG then Put(r, t, HasG(OtherCall), g, None) else r, more)
  {
    hide Run, Ring.Push;
    PushAppends(s.ring, i.e);
    var g, h := if i.underG then Some(t) else None, Some(t);
    var s3, s4 := Put(s, t, WantH(i, i.underG), g, None), Put(s, t, HasH(i, i.underG), g, h);
    RunOne(s3, t, TakeH, [(t, Act)] + ([(t, Broadcast)] + ([(t, Leave)] + more)));
    assert Step(s3, t, TakeH) == s4;
    RunOne(s4, t, Act, [(t, Broadcast)] + ([(t, Leave)] + more));
    var s5 := Step(s4, t, Act);
    assert s5 == Put(Pushed(s, i.e), t, Updated(i.underG), g, h);
    RunOne(s5, t, Broadcast, [(t, Leave)] + more);
    var s6 := Step(s5, t, Broadcast);
    assert s6 == Put(After(s, i.e), t, Leaving(i.underG), g, h);
    RunOne(s6, t, Leave, more);
    var r := After(s, i.e);
    assert r.threads[t := Leaving(i.underG)][t := Idle] == r.threads;
    assert Step(s6, t, Leave) == if i.underG then Put(r, t, HasG(OtherCall), g, None) else r;
  }

  function Pushed(s: State, e: Event): State
    requires s.ring.Valid()
  {
    s.(ring := s.ring.Push(e), offered := s.offered + [e],
       refused := if s.ring.Count() == 63 then s.refused + [e] else s.refused)
  }

  function After(s: State, e: Event): State
    requires s.ring.Valid()
  {
    Pushed(s, e).(threads := WakeAll(s.threads))
  }

  /** What a call does that nobody disturbs, both mutexes being free: a producer pushes its
      event and wakes every sleeper, a reader takes the oldest event, and on an empty queue
      a poll changes nothing and a waiter goes to sleep. Both mutexes are free again. */
  lemma UndisturbedCall(s: State, t: nat, i: Intent)
    requires s.ring.Valid() && t < |s.threads| && s.threads[t].Idle? && s.gOwner.None? && s.hOwner.None?
    ensures
      var r := Run(s, StepsOf(t, i));
      match i
      case Pushing(e, _) =>
        r == s.(threads := WakeAll(s.threads), ring := s.ring.Push(e), offered := s.offered + [e],
                refused := if s.ring.Count() == 63 then s.refused + [e] else s.refused)
      case OtherCall => r == s
      case _ =>
        if s.ring.head != s.ring.tail then
          r == s.(ring := s.ring.Pop().1, delivered := s.delivered + [s.ring.Pop().0])
        else r == if i.Waiting? then s.(threads := s.threads[t := Asleep]) else s
  {
    hide Run, Ring.Push, Ring.Pop, Step, Enabled;
    match i
    case Pushing(e, underG) => ProducerLeaves(s, t, e, underG);
    case OtherCall =>
      Entering(s, t, i, []);
      NothingMore(s);
    case _ =>
      Entering(s, t, i, [(t, TakeH)] + ([(t, Act)] + [(t, Leave)]));
      Reading(s, t, i);
  }

  lemma ProducerLeaves(s: State, t: nat, e: Event, underG: bool)
    requires s.ring.Valid() && t < |s.threads| && s.threads[t].Idle? && s.gOwner.None? && s.hOwner.None?
    ensures Run(s, StepsOf(t, Pushing(e, underG))) == After(s, e)
  {
    hide Run, Ring.Push, Pushed;
    var i, r := Pushing(e, underG), After(s, e);
    var last := if underG then [(t, Proceed)] else [];
    Entering(s, t, i, [(t, TakeH)] + ([(t, Act)] + ([(t, Broadcast)] + ([(t, Leave)] + last))));
    Producing(s, t, i, last);
    if underG {
      RunOne(Put(r, t, HasG(OtherCall), Some(t), None), t, Proceed, []);
      assert last + [] == last && r.threads[t := HasG(OtherCall)][t := Idle] == r.threads;
      assert r.gOwner.None? && r.hOwner.None? by { SameOwners(s, e); }
    }
    NothingMore(r);
  }

  lemma SameOwners(s: State, e: Event)
    requires s.ring.Valid()
    ensures After(s, e).gOwner == s.gOwner && After(s, e).hOwner == s.hOwner
  {}
}
