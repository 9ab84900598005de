/** What the timer queue of core/timermanager.cpp means: a map from timers to
    deadlines, and one pass over the expired ones. */
module TimerSpec {
  import opened Bits

  /** `interval` is 0 for one-shot timers. */
  datatype Timer = Timer(deadline: nat, interval: nat)

  /** The queued timers by identity. */
  type Queue = map<nat, Timer>

  datatype Key = Key(deadline: nat, id: nat)

  /** Ascending deadline; equal deadlines by address. */
  predicate Before(a: Key, b: Key) {
    a.deadline < b.deadline || (a.deadline == b.deadline && a.id < b.id)
  }

  function KeyOf(q: Queue, id: nat): Key
    requires id in q
  {
    Key(q[id].deadline, id)
  }

  ghost predicate IsTop(q: Queue, id: nat) {
    id in q && forall j :: j in q && j != id ==> Before(KeyOf(q, id), KeyOf(q, j))
  }

  lemma {:induction false} TopExists(q: Queue)
    requires q != map[]
    ensures exists id: nat :: IsTop(q, id)
    decreases |q|
  {
    var k: nat :| k in q;
    var rest := q - {k};
    if rest == map[] {
      assert forall j :: j in q ==> j == k by { assert forall j :: j in q && j != k ==> j in rest; }
      assert IsTop(q, k);
    } else {
      assert |rest| < |q| by { assert rest.Keys == q.Keys - {k}; assert |rest.Keys| == |q.Keys| - 1; }
      TopExists(rest);
      var t: nat :| IsTop(rest, t);
      assert forall j :: j in q && j != k ==> j in rest && KeyOf(rest, j) == KeyOf(q, j);
      assert IsTop(q, if Before(KeyOf(q, k), KeyOf(q, t)) then k else t);
    }
  }

  lemma TopUnique(q: Queue, a: nat, b: nat)
    requires IsTop(q, a) && IsTop(q, b)
    ensures a == b
  {
  }

  /** The timer the heap keeps first. */
  ghost function Top(q: Queue): (id: nat)
    requires q != map[]
    ensures IsTop(q, id)
  {
    TopExists(q);
    var id: nat :| IsTop(q, id);
    id
  }

  // ---------- Re-arming ----------

  /** The next deadline of a cyclic timer: missed periods are skipped. */
  function Rearmed(deadline: nat, interval: nat, now: nat): nat
    requires interval > 0
  {
    var next := deadline + interval;
    if next <= now then next + ((now - next) / interval + 1) * interval else next
  }

  /** Re-arming keeps the phase and finds the least such deadline still to come. */
  lemma RearmedLeast(deadline: nat, interval: nat, now: nat)
    requires interval > 0 && deadline <= now
    ensures var d := Rearmed(deadline, interval, now);
            && d > now
            && (exists k: nat :: k > 0 && d == deadline + k * interval)
            && (forall k: nat :: now < deadline + k * interval ==> d <= deadline + k * interval)
  {
    var d := Rearmed(deadline, interval, now);
    var steps := RearmedAt(deadline, interval, now);
    hide Rearmed;
    forall k: nat | now < deadline + k * interval
      ensures d <= deadline + k * interval
    {
      if k < steps {
        TimesMono(k, steps - 1, interval);
      } else {
        TimesMono(steps, k, interval);
      }
    }
  }

  lemma RearmedAt(deadline: nat, interval: nat, now: nat) returns (steps: nat)
    requires interval > 0 && deadline <= now
    ensures steps > 0 && Rearmed(deadline, interval, now) == deadline + steps * interval
    ensures deadline + (steps - 1) * interval <= now < deadline + steps * interval
  {
    var next := deadline + interval;
    if next <= now {
      var skip := (now - next) / interval + 1;
      steps := skip + 1;
      DivMod(now - next, interval);
      assert skip * interval == (now - next) / interval * interval + interval;
      assert steps * interval == skip * interval + interval;
    } else {
      steps := 1;
    }
  }

  // ---------- One pass over the expired timers ----------

  /** What firing does to the queue: one-shot timers leave, cyclic ones re-arm. */
  function FireOne(q: Queue, id: nat, now: nat): Queue
    requires id in q
  {
    if q[id].interval == 0 then q - {id}
    else q[id := Timer(Rearmed(q[id].deadline, q[id].interval, now), q[id].interval)]
  }

  function Expired(q: Queue, now: nat): set<nat> {
    set id | id in q && q[id].deadline <= now
  }

  lemma FireShrinks(q: Queue, id: nat, now: nat)
    requires id in q && q[id].deadline <= now
    ensures Expired(FireOne(q, id, now), now) == Expired(q, now) - {id}
    ensures |Expired(FireOne(q, id, now), now)| < |Expired(q, now)|
  {
    if q[id].interval > 0 {
      RearmedLeast(q[id].deadline, q[id].interval, now);
    }
    assert id in Expired(q, now);
    assert Expired(FireOne(q, id, now), now) == Expired(q, now) - {id};
  }

  /** process_timers while its callbacks leave the queue alone: the timers that fire,
      in order, and the queue that remains. It terminates: a fired timer is never
      again among the expired ones. */
  ghost function Process(q: Queue, now: nat): (seq<Key>, Queue)
    decreases |Expired(q, now)|
  {
    if q == map[] || q[Top(q)].deadline > now then ([], q)
    else
      FireShrinks(q, Top(q), now);
      var (fired, rest) := Process(FireOne(q, Top(q), now), now);
      ([KeyOf(q, Top(q))] + fired, rest)
  }

  /** The minimum remaining deadline, or 0 for an empty queue. */
  ghost function NextDeadline(q: Queue): nat {
    if q == map[] then 0 else q[Top(q)].deadline
  }

  /** The queue after a pass, timer by timer. */
  function After(q: Queue, now: nat): Queue {
    map id | id in q && (q[id].deadline > now || q[id].interval > 0) ::
      if q[id].deadline > now then q[id] else Timer(Rearmed(q[id].deadline, q[id].interval, now), q[id].interval)
  }

  ghost predicate Ascending(s: seq<Key>) {
    forall i: nat, j: nat :: i < j < |s| ==> Before(s[i], s[j])
  }

  lemma NothingExpired(q: Queue, now: nat)
    requires q == map[] || q[Top(q)].deadline > now
    ensures Expired(q, now) == {} && After(q, now) == q
  {
    if q != map[] {
      assert IsTop(q, Top(q));
      assert forall id :: id in q ==> q[id].deadline > now by {
        forall id | id in q
          ensures q[id].deadline > now
        {
          assert id != Top(q) ==> Before(KeyOf(q, Top(q)), KeyOf(q, id));
        }
      }
    }
    assert After(q, now) == q;
  }

  lemma AfterFire(q: Queue, id: nat, now: nat)
    requires id in q && q[id].deadline <= now
    ensures After(FireOne(q, id, now), now) == After(q, now)
  {
    if q[id].interval > 0 {
      RearmedLeast(q[id].deadline, q[id].interval, now);
    }
  }

  /** A pass fires exactly the expired timers, each once, in ascending order of
      deadline and identity; leaves every other timer alone; drops one-shot timers
      and re-arms cyclic ones past the present. */
  lemma {:induction false} ProcessMeaning(q: Queue, now: nat)
    ensures var (fired, rest) := Process(q, now);
            && Ascending(fired)
            && (forall k: Key :: k in fired <==> k.id in q && k == KeyOf(q, k.id) && k.deadline <= now)
            && rest == After(q, now)
            && (forall id :: id in rest ==> rest[id].deadline > now)
            && (rest == map[] ==> NextDeadline(rest) == 0)
            && (forall id :: id in rest ==> now < NextDeadline(rest) <= rest[id].deadline)
    decreases |Expired(q, now)|
  {
    if q == map[] || q[Top(q)].deadline > now {
      NothingExpired(q, now);
      PassLeaves(q, now);
    } else {
      var top := Top(q);
      FireShrinks(q, top, now);
      AfterFire(q, top, now);
      ProcessMeaning(FireOne(q, top, now), now);
      FirstIsFirst(q, now);
    }
  }

  lemma PassLeaves(q: Queue, now: nat)
    requires q == map[] || q[Top(q)].deadline > now
    ensures forall id :: id in q ==> now < NextDeadline(q) <= q[id].deadline
  {
    if q != map[] {
      forall id | id in q
        ensures NextDeadline(q) <= q[id].deadline
      {
        assert id != Top(q) ==> Before(KeyOf(q, Top(q)), KeyOf(q, id));
      }
    }
  }

  lemma FirstIsFirst(q: Queue, now: nat)
    requires q != map[] && q[Top(q)].deadline <= now
    requires var q1 := FireOne(q, Top(q), now);
             Ascending(Process(q1, now).0) &&
             (forall k: Key :: k in Process(q1, now).0 <==> k.id in q1 && k == KeyOf(q1, k.id) && k.deadline <= now)
    ensures Ascending(Process(q, now).0)
    ensures forall k: Key :: k in Process(q, now).0 <==> k.id in q && k == KeyOf(q, k.id) && k.deadline <= now
  {
    var top := Top(q);
    var q1 := FireOne(q, top, now);
    var rest := Process(q1, now).0;
    FireShrinks(q, top, now);
    assert Process(q, now).0 == [KeyOf(q, top)] + rest;
    assert top !in Expired(q1, now);
    forall k: Key
      ensures k.id in q1 && k == KeyOf(q1, k.id) && k.deadline <= now <==>
              k.id != top && k.id in q && k == KeyOf(q, k.id) && k.deadline <= now
    {
      assert k.id in Expired(q1, now) <==> k.id in Expired(q, now) && k.id != top;
    }
    forall j: nat | j < |rest|
      ensures Before(KeyOf(q, top), rest[j])
    {
      assert rest[j] in rest;
    }
  }
}
