/** The hotplug event ring buffer: 64 cells, of which at most 63 hold events. */
module HotplugRing {
  import opened Bytes

  const QUEUE_SIZE := 64

  datatype Event = Event(slot: nat, arrived: bool)

  /** `head` is the oldest event, `tail` the next empty cell. */
  datatype Ring = Ring(cells: seq<Event>, head: nat, tail: nat, dropped: nat) {
    predicate Valid() {
      |cells| == QUEUE_SIZE && head < QUEUE_SIZE && tail < QUEUE_SIZE
    }

    function Count(): (n: nat)
      requires Valid()
      ensures n < QUEUE_SIZE
    {
      (tail - head) % QUEUE_SIZE
    }

    /** The queued events, oldest first. */
    function Contents(): (s: seq<Event>)
      requires Valid()
      ensures |s| == Count()
      ensures s == [] <==> head == tail
    {
      seq(Count(), k requires 0 <= k => cells[(head + k) % QUEUE_SIZE])
    }

    /** The critical section of hotplug_push_event. */
    function Push(e: Event): (r: Ring)
      requires Valid()
      ensures r.Valid()
    {
      var next := (tail + 1) % QUEUE_SIZE;
      if next != head then this.(cells := cells[tail := e], tail := next) else this.(dropped := dropped + 1)
    }

    /** The critical section of C_WaitForSlotEvent when an event is there. */
    function Pop(): (r: (Event, Ring))
      requires Valid() && head != tail
      ensures r.1.Valid()
    {
      (cells[head], this.(head := (head + 1) % QUEUE_SIZE))
    }
  }

  /** An event is queued behind the others unless 63 are waiting; then it is counted
      as dropped and nothing else changes. */
  lemma PushAppends(r: Ring, e: Event)
    requires r.Valid()
    ensures
      var r' := r.Push(e);
      if r.Count() < QUEUE_SIZE - 1 then r'.Contents() == r.Contents() + [e] && r'.dropped == r.dropped
      else r'.Contents() == r.Contents() && r'.dropped == r.dropped + 1
  {
    var r' := r.Push(e);
    if r.Count() < QUEUE_SIZE - 1 {
      assert r'.Count() == r.Count() + 1;
      forall k | 0 <= k < r.Count() ensures r'.Contents()[k] == r.Contents()[k] {}
      assert r'.Contents()[r.Count()] == e;
    }
  }

  /** The oldest event is delivered. */
  lemma PopTakesOldest(r: Ring)
    requires r.Valid() && r.head != r.tail
    ensures
      var (e, r') := r.Pop();
      r.Contents() == [e] + r'.Contents() && r'.dropped == r.dropped
  {
    var (e, r') := r.Pop();
    assert r'.Count() == r.Count() - 1;
    forall k | 0 <= k < r'.Count() ensures r'.Contents()[k] == r.Contents()[k + 1] {}
  }

  /** The globals g_hotplug_queue, g_hotplug_head, g_hotplug_tail, g_hotplug_dropped. */
  class HotplugQueue {
    const queue: array<Event>
    var head: nat
    var tail: nat
    var dropped: nat

    predicate Valid()
      reads this
    {
      queue.Length == QUEUE_SIZE && head < QUEUE_SIZE && tail < QUEUE_SIZE
    }

    function View(): (r: Ring)
      requires Valid()
      reads this, queue
      ensures r.Valid()
    {
      Ring(queue[..], head, tail, dropped)
    }

    constructor ()
      ensures Valid() && fresh(queue) && View().Contents() == [] && View().dropped == 0
    {
      queue := new Event[QUEUE_SIZE](_ => Event(0, false));
      head, tail, dropped := 0, 0, 0;
    }

    /** hotplug_push_event between lock and unlock. */
    method PushEvent(slot: nat, arrived: bool)
      requires Valid()
      modifies this, queue
      ensures Valid() && View() == old(View()).Push(Event(slot, arrived))
    {
      var nextTail := (tail + 1) % QUEUE_SIZE;
      if nextTail != head {
        queue[tail] := Event(slot, arrived);
        tail := nextTail;
      } else {
        dropped := dropped + 1;
      }
    }

    /** C_WaitForSlotEvent with CKF_DONT_BLOCK, between lock and unlock. */
    method Poll() returns (e: Option<Event>)
      requires Valid()
      modifies this
      ensures Valid()
      ensures old(View()).Contents() == [] ==> e.None? && View() == old(View())
      ensures old(View()).Contents() != [] ==> (e, View()) == (Some(old(View()).Pop().0), old(View()).Pop().1)
    {
      if head != tail {
        e := Some(queue[head]);
        head := (head + 1) % QUEUE_SIZE;
      } else {
        e := None;
      }
    }
  }
}
