/** The timer manager of core/timermanager.cpp: adding, cancelling and firing. */
module TimerManager {
  import opened TimerSpec
  import opened TimerHeap
  import opened TimerQueue

  /** No two timer objects share an address. */
  ghost predicate Distinct(timers: set<TimerInfo>) {
    forall t, u :: t in timers && u in timers && t.id == u.id ==> t == u
  }

  /** `active` holds exactly for the queued timers, but for one that may be in between. */
  ghost predicate Flagged(timers: set<TimerInfo>, c: seq<TimerInfo>, but: set<TimerInfo>)
    reads timers
  {
    (forall t :: t in c ==> t in timers) && (forall t :: t in timers && t !in but ==> (t.active <==> t in c))
  }

  /** A timer whose address is not queued is inactive. */
  lemma NotQueuedYet(c: seq<TimerInfo>, t: TimerInfo, timers: set<TimerInfo>)
    requires Once(c) && Flagged(timers, c, {}) && t in timers && t.id !in QueueOf(c)
    ensures !t.active
  {
  }

  class Manager {
    const queue: PriorityQueue
    var cbActive: bool
    /** notify_timer_changes: the interpreter must reload its cycle counter. */
    var notified: bool
    /** The callbacks invoked so far, each with its timer and the deadline it reports. */
    var fired: seq<Key>
    /** Every timer object of the machine. */
    ghost var timers: set<TimerInfo>

    /** The queue is in order, each timer is queued at most once, and flagged so. */
    ghost predicate Valid()
      reads `timers, queue, queue.c, timers
    {
      queue.Valid() && Flagged(timers, queue.c, {}) && Distinct(timers)
    }

    ghost function State(): Queue
      requires Valid()
      reads `timers, queue, queue.c, timers
    {
      queue.State()
    }

    /** t is off the queue and everything else is in order: its key may change. */
    ghost predicate Loose(t: TimerInfo)
      reads `timers, queue, queue.c, timers
    {
      queue.Valid() && t in timers && t !in queue.c && Flagged(timers, queue.c, {t}) && Distinct(timers)
    }

    constructor (ghost timers: set<TimerInfo>)
      requires forall t :: t in timers ==> !t.active
      requires Distinct(timers)
      ensures Valid() && State() == map[] && fresh(queue) && this.timers == timers && fired == [] && !cbActive
    {
      queue := new PriorityQueue();
      cbActive, notified, fired := false, false, [];
      this.timers := timers;
    }

    /** The timer must be inactive: an active one would change its key while queued. */
    method AddAbsoluteTimer(ti: TimerInfo, timeoutNs: nat, interval: nat)
      requires Valid() && ti in timers && !ti.active
      modifies this, queue, ti
      ensures Valid() && State() == old(State())[ti.id := Timer(timeoutNs, interval)]
      ensures timers == old(timers) && fired == old(fired) && cbActive == old(cbActive)
      ensures ti.active && notified == (old(notified) || !cbActive)
    {
      hide QueueOf, Once, HeapFrom, Keys;
      ti.timeoutNs := timeoutNs;
      ti.intervalNs := interval;
      ti.active := true;
      queue.Push(ti);
      if !cbActive {
        notified := true;
      }
    }

    method TakeOff(t: TimerInfo)
      requires Valid() && t in timers
      modifies queue
      ensures Loose(t) && queue.State() == old(State()) - {t.id}
    {
      hide QueueOf, Once, HeapFrom, Keys;
      var found := queue.RemoveById(t);
    }

    method Retire(t: TimerInfo)
      requires Loose(t)
      modifies t
      ensures Valid() && !t.active && State() == old(queue.State())
    {
      hide QueueOf, Once, HeapFrom, Keys, Distinct;
      t.active := false;
    }

    method CancelTimer(ti: TimerInfo)
      requires Valid() && ti in timers
      modifies this, queue, ti
      ensures Valid() && State() == old(State()) - {ti.id}
      ensures timers == old(timers) && fired == old(fired) && cbActive == old(cbActive)
      ensures !ti.active && notified == (old(notified) || !cbActive)
    {
      hide QueueOf, Once, Heap, Keys, Distinct;
      TakeOff(ti);
      Retire(ti);
      if !cbActive {
        notified := true;
      }
    }

    /** Off the queue, the timer's key may change: re-arm it or retire it. */
    method Rearm(t: TimerInfo, now: nat)
      requires Loose(t) && t.active
      modifies queue, t
      ensures Valid()
      ensures State() == if old(t.intervalNs) == 0 then old(queue.State())
                         else old(queue.State())[t.id := Timer(Rearmed(old(t.timeoutNs), old(t.intervalNs), now), old(t.intervalNs))]
    {
      hide QueueOf, Once, HeapFrom, Keys;
      if t.intervalNs != 0 {
        var next := t.timeoutNs + t.intervalNs;
        if next <= now {
          var skip := (now - next) / t.intervalNs + 1;
          next := next + skip * t.intervalNs;
        }
        t.timeoutNs := next;
        queue.Push(t);
      } else {
        Retire(t);
      }
    }

    /** Take the first timer off and re-arm or retire it. */
    method RequeueTop(now: nat) returns (key: Key)
      requires Valid() && queue.c != []
      modifies queue, timers
      ensures Valid() && old(State()) != map[] && State() == FireOne(old(State()), Top(old(State())), now)
      ensures key == KeyOf(old(State()), Top(old(State())))
    {
      hide QueueOf, Once, HeapFrom, Keys, FireOne, Distinct, Top, Before, Rearmed;
      ghost var q := State();
      var t := queue.c[0];
      key := t.Key();
      RootKey(queue.c);
      FireSteps(q, t.id, now);
      assert t in timers && t.active;
      hide Flagged;
      TakeOff(t);
      Rearm(t, now);
    }

    /** One round of process_timers up to and including the callback's invocation.
        The callback itself, and clearing cb_active after it, is `Interpreter`'s. */
    method FireTop(now: nat)
      requires Valid() && queue.c != []
      modifies this, queue, timers
      ensures Valid() && timers == old(timers) && notified == old(notified) && cbActive
      ensures old(State()) != map[] && State() == FireOne(old(State()), Top(old(State())), now)
      ensures fired == old(fired) + [KeyOf(old(State()), Top(old(State())))]
    {
      hide QueueOf, Once, Heap, Keys, FireOne, Distinct, Flagged, Top, KeyOf, Before;
      var key := RequeueTop(now);
      cbActive := true;
      fired := fired + [key];
    }

    method DropTop()
      requires Valid() && queue.c != []
      modifies queue, timers
      ensures Valid() && |queue.c| < |old(queue.c)|
    {
      hide QueueOf, Once, HeapFrom, Keys;
      var t := queue.Pop();
      t.active := false;
    }

    method CancelAllTimers()
      requires Valid()
      modifies this, queue, timers
      ensures Valid() && State() == map[] && timers == old(timers) && fired == old(fired)
      ensures forall t :: t in timers ==> !t.active
    {
      while queue.c != []
        invariant Valid() && timers == old(timers) && fired == old(fired)
        decreases |queue.c|
      {
        DropTop();
      }
      EmptyQueue(queue.c);
    }
  }

  lemma RootKey(c: seq<TimerInfo>)
    requires Once(c) && c != [] && Heap(Keys(c))
    ensures QueueOf(c) != map[] && c[0].id == Top(QueueOf(c)) && c[0].Key() == KeyOf(QueueOf(c), Top(QueueOf(c)))
    ensures QueueOf(c)[c[0].id] == Timer(c[0].timeoutNs, c[0].intervalNs) && c[0] in c
  {
    RootIsTop(c);
  }

  lemma EmptyQueue(c: seq<TimerInfo>)
    requires c == []
    ensures Once(c) && QueueOf(c) == map[]
  {
  }

  /** Taking a timer off and putting it back re-armed is firing it. */
  lemma FireSteps(q: Queue, id: nat, now: nat)
    requires id in q
    ensures FireOne(q, id, now) ==
            if q[id].interval == 0 then q - {id}
            else (q - {id})[id := Timer(Rearmed(q[id].deadline, q[id].interval, now), q[id].interval)]
  {
  }
}
