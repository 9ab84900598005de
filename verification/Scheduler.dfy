/** Runs of the interpreter's polling loop with arbitrary callbacks, also ones that leave
    by the exception jump: no timer fires early, time never goes back, and exactly when
    lateness is bounded by two instruction periods. */
module Scheduler {
  import opened Bits
  import opened TimerSpec
  import opened VirtualClock
  import opened Wrappers

  /** `reg` remembers when each queued timer was last registered. */
  datatype Sched = Sched(clock: Clock, execTimer: bool, maxCycles: nat, cbActive: bool, queue: Queue, reg: map<nat, nat>)

  /** What an instruction or a callback does to the timers and the speed. */
  datatype Action =
    | Add(id: nat, deadline: nat, interval: nat)
    | Cancel(id: nat)
    | Increment
    | Decrement

  ghost predicate SchedOk(s: Sched) {
    ClockOk(s.clock) && s.queue.Keys == s.reg.Keys
  }

  /** Adding requires an inactive timer. */
  predicate Permitted(s: Sched, a: Action) {
    a.Add? ==> a.id !in s.queue
  }

  /** Queue changes notify the loop unless cb_active is set. */
  function Act(s: Sched, a: Action): Sched
    requires ClockOk(s.clock)
  {
    match a
    case Add(id, deadline, interval) =>
      s.(queue := s.queue[id := Timer(deadline, interval)], reg := s.reg[id := Now(s.clock)],
         execTimer := s.execTimer || !s.cbActive)
    case Cancel(id) =>
      s.(queue := s.queue - {id}, reg := s.reg - {id}, execTimer := s.execTimer || !s.cbActive)
    case Increment => s.(clock := IncrementFactor(s.clock), execTimer := true)
    case Decrement => if s.clock.factor > 0 then s.(clock := DecrementFactor(s.clock), execTimer := true) else s
  }

  /** The state after some permitted actions; None if one is not permitted. */
  function ActAll(s: Sched, acts: seq<Action>): (r: Option<Sched>)
    requires ClockOk(s.clock)
    ensures r.Some? ==> ClockOk(r.value.clock)
    decreases |acts|
  {
    if acts == [] then Some(s)
    else if !Permitted(s, acts[0]) then None
    else
      SpeedContinuous(s.clock);
      ActAll(Act(s, acts[0]), acts[1..])
  }

  /** What a callback does, and whether it ends in the exception jump to the outer loop
      instead of returning. */
  datatype Callback = Callback(acts: seq<Action>, jumps: bool)

  /** One callback invoked: what it was owed and when it ran. */
  datatype Firing = Firing(id: nat, deadline: nat, registered: nat, time: nat)

  /** The state reached, the callbacks invoked, and whether the last one jumped. */
  datatype Outcome = Outcome(end: Sched, fired: seq<Firing>, jumped: bool)

  /** Take the first timer off, or re-arm it, and enter its callback. */
  function FireTop(s: Sched, id: nat, now: nat): Sched
    requires id in s.queue
  {
    var q := FireOne(s.queue, id, now);
    s.(queue := q, reg := if id in q then s.reg else s.reg - {id}, cbActive := true)
  }

  function FiringOf(s: Sched, id: nat, now: nat): Firing
    requires id in s.queue && id in s.reg
  {
    Firing(id, s.queue[id].deadline, s.reg[id], now)
  }

  /** process_timers: the k-th callback invoked does what cbs[k] says. One that jumps
      ends the pass with cb_active still set. None unless cbs fits the pass. */
  ghost function Pass(s: Sched, now: nat, cbs: seq<Callback>): (r: Option<Outcome>)
    requires SchedOk(s)
    ensures r.Some? ==> ClockOk(r.value.end.clock)
    decreases |cbs|
  {
    if s.queue == map[] || s.queue[Top(s.queue)].deadline > now then
      if cbs == [] then Some(Outcome(s, [], false)) else None
    else if cbs == [] then None
    else
      var top := Top(s.queue);
      var acted := ActAll(FireTop(s, top, now), cbs[0].acts);
      if acted.None? then None
      else if cbs[0].jumps then
        if |cbs| == 1 then Some(Outcome(acted.value, [FiringOf(s, top, now)], true)) else None
      else
        FireTopOk(s, top, now);
        ActAllOk(FireTop(s, top, now), cbs[0].acts);
        match Pass(acted.value.(cbActive := false), now, cbs[1..])
        case None => None
        case Some(r) => Some(r.(fired := [FiringOf(s, top, now)] + r.fired))
  }

  /** One round of the pass. */
  lemma PassStep(s: Sched, now: nat, cbs: seq<Callback>)
    requires SchedOk(s) && s.queue != map[] && s.queue[Top(s.queue)].deadline <= now && Pass(s, now, cbs).Some?
    ensures cbs != []
    ensures var acted := ActAll(FireTop(s, Top(s.queue), now), cbs[0].acts);
            var r := Pass(s, now, cbs).value;
            && acted.Some? && SchedOk(acted.value) && acted.value.cbActive
            && (if cbs[0].jumps then r == Outcome(acted.value, [FiringOf(s, Top(s.queue), now)], true)
                else
                  var rest := Pass(acted.value.(cbActive := false), now, cbs[1..]);
                  rest.Some? && r == rest.value.(fired := [FiringOf(s, Top(s.queue), now)] + rest.value.fired))
  {
    var top := Top(s.queue);
    FireTopOk(s, top, now);
    ActAllOk(FireTop(s, top, now), cbs[0].acts);
  }

  lemma FireTopOk(s: Sched, id: nat, now: nat)
    requires SchedOk(s) && id in s.queue
    ensures SchedOk(FireTop(s, id, now))
  {
  }

  lemma {:induction false} ActAllOk(s: Sched, acts: seq<Action>)
    requires SchedOk(s) && ActAll(s, acts).Some?
    ensures var r := ActAll(s, acts).value;
            && SchedOk(r) && Now(r.clock) == Now(s.clock) && r.maxCycles == s.maxCycles && r.cbActive == s.cbActive
            && (s.execTimer ==> r.execTimer)
            && (!r.execTimer ==> r.clock == s.clock && (!s.cbActive ==> r == s))
    decreases |acts|
  {
    if acts != [] {
      SpeedContinuous(s.clock);
      ActAllOk(Act(s, acts[0]), acts[1..]);
    }
  }

  /** process_events: fire what has expired, then schedule the next poll. After a jump
      the loop starts anew with no cycles granted. */
  ghost function ProcessEvents(s: Sched, cbs: seq<Callback>): Option<Outcome>
    requires SchedOk(s)
  {
    match Pass(s.(execTimer := false), Now(s.clock), cbs)
    case None => None
    case Some(r) =>
      var next := if NextDeadline(r.end.queue) == 0 then Now(r.end.clock) + POLL_INTERVAL else NextDeadline(r.end.queue);
      Some(r.(end := r.end.(maxCycles := if r.jumped then 0 else CyclesTo(r.end.clock, next))))
  }

  /** Callbacks that do nothing. */
  function Silent(n: nat): seq<Callback> {
    seq(n, _ => Callback([], false))
  }

  /** With silent callbacks a pass is the plain processing of the queue. */
  lemma {:induction false} SilentPass(s: Sched, now: nat)
    requires SchedOk(s)
    ensures var (fired, rest) := Process(s.queue, now);
            var r := Pass(s, now, Silent(|fired|));
            && r.Some? && !r.value.jumped && |r.value.fired| == |fired|
            && r.value.end == s.(queue := rest, reg := r.value.end.reg, cbActive := s.cbActive && fired == [])
            && forall i: nat :: i < |fired| ==>
                 && fired[i].id in s.reg
                 && r.value.fired[i] == Firing(fired[i].id, fired[i].deadline, s.reg[fired[i].id], now)
    decreases |Expired(s.queue, now)|
  {
    hide FireOne, Expired, Before, Rearmed, Top, KeyOf;
    if s.queue != map[] && s.queue[Top(s.queue)].deadline <= now {
      var top := Top(s.queue);
      FireShrinks(s.queue, top, now);
      FireTopOk(s, top, now);
      var s1 := FireTop(s, top, now).(cbActive := false);
      SilentPass(s1, now);
      var fired := Process(s1.queue, now).0;
      SilentTail(|fired|);
      assert Process(s.queue, now) == ([KeyOf(s.queue, top)] + fired, Process(s1.queue, now).1);
      assert KeyOf(s.queue, top) == Key(s.queue[top].deadline, top) by { KeyParts(s.queue, top); }
    }
  }

  lemma SilentTail(n: nat)
    ensures Silent(n + 1)[0] == Callback([], false) && Silent(n + 1)[1..] == Silent(n)
  {
  }

  lemma KeyParts(q: Queue, id: nat)
    requires id in q
    ensures KeyOf(q, id) == Key(q[id].deadline, id)
  {
  }

  // ---------- Invariants ----------

  /** A timer is owed its callback at its deadline, or at its registration if that was later. */
  function Due(s: Sched, id: nat): nat
    requires id in s.queue && id in s.reg
  {
    if s.queue[id].deadline > s.reg[id] then s.queue[id].deadline else s.reg[id]
  }

  /** No queued timer is overdue by more than `slack`. */
  ghost predicate OnTime(s: Sched, slack: nat)
    requires SchedOk(s)
  {
    forall id :: id in s.queue ==> Now(s.clock) <= Due(s, id) + slack
  }

  /** The loop polls at the end of this instruction. */
  predicate Polls(s: Sched) {
    s.execTimer || s.clock.icycles >= s.maxCycles
  }

  /** When the loop polls next if nothing else happens. */
  function NextPoll(s: Sched): nat {
    if Polls(s) then Now(s.clock) + s.clock.period
    else s.clock.offset + (s.maxCycles + 1) * s.clock.period
  }

  /** The next poll comes within two periods of every queued timer. */
  ghost predicate Invariant(s: Sched) {
    SchedOk(s) && forall id :: id in s.queue ==> NextPoll(s) <= Due(s, id) + 2 * s.clock.period
  }

  lemma InvariantOnTime(s: Sched)
    requires Invariant(s)
    ensures OnTime(s, s.clock.period)
  {
    PollAhead(s);
    hide Now, NextPoll;
  }

  lemma PollAhead(s: Sched)
    ensures Now(s.clock) + s.clock.period <= NextPoll(s)
  {
    if !Polls(s) {
      TimesMono(s.clock.icycles + 1, s.maxCycles + 1, s.clock.period);
    }
  }

  /** A firing is never early and at most `slack` late. */
  predicate Timely(f: Firing, slack: nat) {
    f.deadline <= f.time && f.time <= (if f.deadline > f.registered then f.deadline else f.registered) + slack
  }

  ghost predicate AllTimely(fired: seq<Firing>, slack: nat) {
    forall i: nat :: i < |fired| ==> Timely(fired[i], slack)
  }

  lemma ActOnTime(s: Sched, a: Action, slack: nat)
    requires SchedOk(s) && OnTime(s, slack) && Permitted(s, a)
    ensures SchedOk(Act(s, a)) && OnTime(Act(s, a), slack)
  {
    SpeedContinuous(s.clock);
    hide Now, IncrementFactor, DecrementFactor;
    var s1 := Act(s, a);
    forall id | id in s1.queue
      ensures Now(s1.clock) <= Due(s1, id) + slack
    {
      if !(a.Add? && a.id == id) {
        assert Due(s1, id) == Due(s, id);
      }
    }
  }

  /** Actions keep every timer within the slack, since time stands still. */
  lemma {:induction false} ActAllOnTime(s: Sched, acts: seq<Action>, slack: nat)
    requires SchedOk(s) && OnTime(s, slack) && ActAll(s, acts).Some?
    ensures SchedOk(ActAll(s, acts).value) && OnTime(ActAll(s, acts).value, slack)
    decreases |acts|
  {
    if acts != [] {
      SpeedContinuous(s.clock);
      var s1 := Act(s, acts[0]);
      assert Now(s1.clock) == Now(s.clock);
      ActOnTime(s, acts[0], slack);
      ActAllOnTime(s1, acts[1..], slack);
    }
  }

  lemma FireTopOnTime(s: Sched, id: nat, now: nat, slack: nat)
    requires SchedOk(s) && OnTime(s, slack) && id in s.queue && s.queue[id].deadline <= now == Now(s.clock)
    ensures SchedOk(FireTop(s, id, now)) && OnTime(FireTop(s, id, now), slack)
  {
    var s1 := FireTop(s, id, now);
    FireTopOk(s, id, now);
    if s.queue[id].interval > 0 {
      RearmedLeast(s.queue[id].deadline, s.queue[id].interval, now);
    }
    assert forall j :: j in s1.queue && j != id ==> Due(s1, j) == Due(s, j);
  }

  /** A pass fires only what is due, within the slack it starts with; one that no callback
      leaves keeps only timers still to come. cb_active stays set exactly after a jump, or
      when it was stuck and no callback ran. */
  lemma {:induction false} PassTimely(s: Sched, now: nat, cbs: seq<Callback>, slack: nat)
    requires SchedOk(s) && OnTime(s, slack) && now == Now(s.clock) && Pass(s, now, cbs).Some?
    ensures var r := Pass(s, now, cbs).value;
            && SchedOk(r.end) && OnTime(r.end, slack) && Now(r.end.clock) == now && AllTimely(r.fired, slack)
            && (!r.jumped ==> forall id :: id in r.end.queue ==> now < NextDeadline(r.end.queue) <= r.end.queue[id].deadline)
            && r.end.cbActive == (r.jumped || (s.cbActive && r.fired == []))
    decreases |cbs|
  {
    if s.queue == map[] || s.queue[Top(s.queue)].deadline > now {
      PassLeaves(s.queue, now);
    } else {
      var top := Top(s.queue);
      var s1 := FireTop(s, top, now);
      FireTopOnTime(s, top, now, slack);
      var s2 := ActAll(s1, cbs[0].acts).value;
      ActAllOk(s1, cbs[0].acts);
      ActAllOnTime(s1, cbs[0].acts, slack);
      assert now <= Due(s, top) + slack;
      assert Timely(FiringOf(s, top, now), slack);
      hide ActAll, FireTop, Top;
      if !cbs[0].jumps {
        var s3 := s2.(cbActive := false);
        assert forall id :: id in s3.queue ==> Due(s3, id) == Due(s2, id);
        PassTimely(s3, now, cbs[1..], slack);
      }
    }
  }

  /** After process_events the next poll is in time for every deadline, unless a callback
      jumped: then the loop polls after one more instruction. */
  lemma ProcessEventsOk(s: Sched, cbs: seq<Callback>, slack: nat)
    requires SchedOk(s) && OnTime(s, slack) && ProcessEvents(s, cbs).Some?
    ensures var r := ProcessEvents(s, cbs).value;
            && SchedOk(r.end) && Now(r.end.clock) == Now(s.clock) && AllTimely(r.fired, slack)
            && r.end.cbActive == (r.jumped || (s.cbActive && r.fired == []))
            && (Invariant(r.end) <==> r.jumped ==> OnTime(r.end, r.end.clock.period))
            && (r.jumped ==> Polls(r.end))
            && (!r.jumped ==>
                 && r.end.maxCycles > r.end.clock.icycles
                 && (r.end.queue != map[] ==>
                       NextDeadline(r.end.queue) < Now(r.end.clock.(icycles := r.end.maxCycles))
                                                <= NextDeadline(r.end.queue) + r.end.clock.period)
                 && (forall id :: id in r.end.queue ==> NextDeadline(r.end.queue) <= Due(r.end, id)))
  {
    var s0 := s.(execTimer := false);
    assert forall id :: id in s0.queue ==> Due(s0, id) == Due(s, id);
    PassTimely(s0, Now(s.clock), cbs, slack);
    var end := Pass(s0, Now(s.clock), cbs).value.end;
    var r := ProcessEvents(s, cbs).value;
    assert forall id :: id in end.queue ==> Due(r.end, id) == Due(end, id);
    hide Pass, ActAll;
    if r.jumped {
      assert NextPoll(r.end) == Now(r.end.clock) + r.end.clock.period;
    } else {
      var next := if NextDeadline(end.queue) == 0 then Now(end.clock) + POLL_INTERVAL else NextDeadline(end.queue);
      if end.queue != map[] {
        assert Top(end.queue) in end.queue;
      }
      CyclesLand(end.clock, next);
      PollAfter(r.end, next);
    }
  }

  /** A cycle count for the next deadline makes the next poll timely. */
  lemma PollAfter(s: Sched, next: nat)
    requires SchedOk(s) && s.maxCycles > s.clock.icycles
    requires s.clock.offset + (s.maxCycles - 1) * s.clock.period <= next
    requires forall id :: id in s.queue ==> next <= Due(s, id)
    ensures Invariant(s)
  {
    var p := s.clock.period;
    assert (s.maxCycles + 1) * p == (s.maxCycles - 1) * p + 2 * p;
    TimesMono(s.clock.icycles, s.maxCycles - 1, p);
  }

  // ---------- Events ----------

  datatype Event =
    | Instruction(acts: seq<Action>, cbs: seq<Callback>)   // one that completes
    | Exception(acts: seq<Action>)                         // one that leaves through the exception jump
    | Sleep(cbs: seq<Callback>, wake: bool)                // one round of the sleep loop

  predicate QueueOnly(acts: seq<Action>) {
    forall a :: a in acts ==> a.Add? || a.Cancel?
  }

  function Tick(s: Sched): Sched {
    s.(clock := s.clock.(icycles := s.clock.icycles + 1))
  }

  /** One event of ppc_exec_inner and the timers it fires; None if the callbacks do not
      fit. The exception jump skips the counter and resets the cycle limit. */
  ghost function Step(s: Sched, ev: Event): Option<Outcome>
    requires SchedOk(s)
  {
    match ev
    case Instruction(acts, cbs) =>
      (match ActAll(s, acts)
       case None => None
       case Some(s1) =>
         ActAllOk(s, acts);
         if Polls(s1) then ProcessEvents(Tick(s1), cbs)
         else if cbs == [] then Some(Outcome(Tick(s1), [], false))
         else None)
    case Exception(acts) =>
      (match ActAll(s, acts)
       case None => None
       case Some(s1) => if QueueOnly(acts) then Some(Outcome(s1.(maxCycles := 0), [], false)) else None)
    case Sleep(cbs, wake) =>
      match ProcessEvents(s, cbs)
      case None => None
      case Some(r) => Some(if wake || r.jumped then r else r.(end := Skip(r.end)))
  }

  /** The sleep loop skips to the next poll. */
  function Skip(s: Sched): Sched {
    s.(clock := s.clock.(icycles := if s.maxCycles > s.clock.icycles then s.maxCycles else s.clock.icycles + 1))
  }

  /** The period in force when the event's own actions are done. */
  function PeriodIn(s: Sched, ev: Event): nat
    requires ClockOk(s.clock)
  {
    match ev
    case Instruction(acts, _) => (match ActAll(s, acts) case Some(s1) => s1.clock.period case None => 0)
    case _ => s.clock.period
  }

  /** The timers that s1 has and s had not, or had registered otherwise. */
  predicate Registered(s: Sched, s1: Sched, id: nat) {
    id in s1.queue && id in s1.reg &&
    !(id in s.queue && id in s.reg && s.queue[id] == s1.queue[id] && s.reg[id] == s1.reg[id])
  }

  /** What the loop does not enforce itself: a callback that jumps leaves no timer overdue
      by more than a period, and an instruction that changes the queue without notice
      (cb_active is stuck) registers only timers that the poll already scheduled serves. */
  ghost predicate Respects(s: Sched, ev: Event)
    requires SchedOk(s) && Step(s, ev).Some?
  {
    var r := Step(s, ev).value;
    if r.jumped then
      forall id :: id in r.end.queue && id in r.end.reg ==> Now(r.end.clock) <= Due(r.end, id) + r.end.clock.period
    else
      ev.Instruction? ==>
        var s1 := ActAll(s, ev.acts).value;
        Polls(s1) || forall id :: Registered(s, s1, id) ==> NextPoll(s) <= Due(s1, id) + 2 * s.clock.period
  }

  lemma TickAdds(s: Sched, slack: nat)
    requires SchedOk(s) && OnTime(s, slack)
    ensures SchedOk(Tick(s)) && OnTime(Tick(s), slack + s.clock.period)
    ensures Now(Tick(s).clock) == Now(s.clock) + s.clock.period
  {
    hide Now;
    TickNow(s);
    assert forall id :: id in s.queue ==> Due(Tick(s), id) == Due(s, id);
  }

  lemma TickNow(s: Sched)
    ensures Now(Tick(s).clock) == Now(s.clock) + s.clock.period
  {
  }

  /** An instruction that ends without a poll leaves the next one where it was. */
  lemma QuietTick(s: Sched)
    requires SchedOk(s) && !Polls(s)
    ensures NextPoll(Tick(s)) == NextPoll(s) && Now(Tick(s).clock) == Now(s.clock) + s.clock.period
    ensures Invariant(Tick(s)) <==> Invariant(s)
  {
    var s1 := Tick(s);
    assert forall id :: id in s.queue ==> Due(s1, id) == Due(s, id);
  }

  /** Unnoticed queue changes keep the invariant exactly when the scheduled poll serves
      what they registered. */
  lemma Unnoticed(s: Sched, s1: Sched)
    requires Invariant(s) && SchedOk(s1) && s1.clock == s.clock && s1.maxCycles == s.maxCycles
    requires !Polls(s1) && !Polls(s)
    ensures Invariant(s1) <==>
            forall id :: Registered(s, s1, id) ==> NextPoll(s) <= Due(s1, id) + 2 * s.clock.period
  {
    assert NextPoll(s1) == NextPoll(s);
    forall id | id in s1.queue && !Registered(s, s1, id)
      ensures NextPoll(s) <= Due(s1, id) + 2 * s.clock.period
    {
      assert Due(s1, id) == Due(s, id);
    }
  }

  lemma InstructionExact(s: Sched, acts: seq<Action>, cbs: seq<Callback>)
    requires Invariant(s) && Step(s, Instruction(acts, cbs)).Some?
    ensures var ev := Instruction(acts, cbs);
            var r := Step(s, ev).value;
            && SchedOk(r.end) && Now(s.clock) < Now(r.end.clock)
            && AllTimely(r.fired, s.clock.period + PeriodIn(s, ev))
            && (Invariant(r.end) <==> Respects(s, ev))
  {
    InvariantOnTime(s);
    ActAllOk(s, acts);
    ActAllOnTime(s, acts, s.clock.period);
    var s1 := ActAll(s, acts).value;
    TickAdds(s1, s.clock.period);
    hide ActAll, Now;
    if Polls(s1) {
      ProcessEventsOk(Tick(s1), cbs, s.clock.period + s1.clock.period);
    } else {
      QuietTick(s1);
      hide OnTime, NextPoll, Due, Registered;
      Unnoticed(s, s1);
    }
  }

  lemma {:induction false} QueueOnlyKeepsClock(s: Sched, acts: seq<Action>)
    requires ClockOk(s.clock) && QueueOnly(acts) && ActAll(s, acts).Some?
    ensures ActAll(s, acts).value.clock == s.clock
    decreases |acts|
  {
    if acts != [] {
      assert acts[0] in acts && forall a :: a in acts[1..] ==> a in acts;
      QueueOnlyKeepsClock(Act(s, acts[0]), acts[1..]);
    }
  }

  lemma ExceptionOk(s: Sched, acts: seq<Action>)
    requires Invariant(s) && Step(s, Exception(acts)).Some?
    ensures var r := Step(s, Exception(acts)).value;
            Invariant(r.end) && Now(s.clock) == Now(r.end.clock) && r.fired == [] && Respects(s, Exception(acts))
  {
    InvariantOnTime(s);
    ActAllOk(s, acts);
    ActAllOnTime(s, acts, s.clock.period);
    QueueOnlyKeepsClock(s, acts);
    var s1 := ActAll(s, acts).value;
    assert forall id :: id in s1.queue ==> Due(s1.(maxCycles := 0), id) == Due(s1, id);
  }

  /** A sleep skip lands past the next deadline by at most one period. */
  lemma SleepOk(s: Sched, cbs: seq<Callback>, wake: bool)
    requires Invariant(s) && Step(s, Sleep(cbs, wake)).Some?
    ensures var r := Step(s, Sleep(cbs, wake)).value;
            && SchedOk(r.end) && Now(s.clock) <= Now(r.end.clock) && AllTimely(r.fired, s.clock.period)
            && (Invariant(r.end) <==> Respects(s, Sleep(cbs, wake)))
            && (!wake && !r.jumped && r.end.queue != map[] ==>
                  NextDeadline(r.end.queue) < Now(r.end.clock) <= NextDeadline(r.end.queue) + r.end.clock.period)
  {
    InvariantOnTime(s);
    ProcessEventsOk(s, cbs, s.clock.period);
    var r := ProcessEvents(s, cbs).value;
    hide ProcessEvents;
    if !wake && !r.jumped {
      TimesMono(r.end.clock.icycles, r.end.maxCycles, r.end.clock.period);
      Skipped(r.end);
    }
  }

  lemma Skipped(s: Sched)
    requires Invariant(s) && s.maxCycles > s.clock.icycles
    requires s.queue != map[] ==> Now(s.clock.(icycles := s.maxCycles)) <= NextDeadline(s.queue) + s.clock.period
    requires forall id :: id in s.queue ==> NextDeadline(s.queue) <= Due(s, id)
    ensures Invariant(Skip(s))
  {
    assert forall id :: id in s.queue ==> Due(Skip(s), id) == Due(s, id);
  }

  /** One event fires nothing early and nothing later than two periods; the invariant
      survives it exactly when the event respects the conditions above. */
  lemma StepExact(s: Sched, ev: Event)
    requires Invariant(s) && Step(s, ev).Some?
    ensures var r := Step(s, ev).value;
            && SchedOk(r.end) && Now(s.clock) <= Now(r.end.clock)
            && AllTimely(r.fired, s.clock.period + PeriodIn(s, ev))
            && (Invariant(r.end) <==> Respects(s, ev))
  {
    hide Invariant, Step, Now, Respects;
    match ev {
      case Instruction(acts, cbs) => InstructionExact(s, acts, cbs);
      case Exception(acts) => ExceptionOk(s, acts);
      case Sleep(cbs, wake) => SleepOk(s, cbs, wake);
    }
  }

  /** With cb_active clear and no callback that jumps, the conditions hold by themselves,
      and cb_active stays clear. */
  lemma Undisturbed(s: Sched, ev: Event)
    requires Invariant(s) && !s.cbActive && Step(s, ev).Some? && !Step(s, ev).value.jumped
    ensures Respects(s, ev) && !Step(s, ev).value.end.cbActive
  {
    InvariantOnTime(s);
    match ev {
      case Instruction(acts, cbs) =>
        ActAllOk(s, acts);
        ActAllOnTime(s, acts, s.clock.period);
        var s1 := ActAll(s, acts).value;
        TickAdds(s1, s.clock.period);
        hide ActAll;
        if Polls(s1) {
          ProcessEventsOk(Tick(s1), cbs, s.clock.period + s1.clock.period);
        }
      case Exception(acts) => ActAllOk(s, acts);
      case Sleep(cbs, wake) => ProcessEventsOk(s, cbs, s.clock.period);
    }
  }

  // ---------- What idling reveals ----------

  /** The state after n instructions that do nothing and end without a poll. */
  function IdleAt(s: Sched, n: nat): Sched {
    s.(clock := s.clock.(icycles := s.clock.icycles + n))
  }

  /** How many such instructions the loop runs before its next poll. */
  function IdleCount(s: Sched): nat {
    if Polls(s) then 0 else s.maxCycles - s.clock.icycles
  }

  lemma IdleQuiet(s: Sched, n: nat)
    requires SchedOk(s) && n < IdleCount(s)
    ensures Step(IdleAt(s, n), Instruction([], [])) == Some(Outcome(IdleAt(s, n + 1), [], false))
  {
  }

  /** The instruction that polls when nothing else happens from s on. */
  ghost function IdlePoll(s: Sched): Option<Outcome>
    requires SchedOk(s)
  {
    Step(IdleAt(s, IdleCount(s)), Instruction([], Silent(|Process(s.queue, NextPoll(s)).0|)))
  }

  /** If nothing else happens, the next poll serves every timer due by then within two periods. */
  ghost predicate Served(s: Sched)
    requires SchedOk(s)
  {
    IdlePoll(s).Some? && AllTimely(IdlePoll(s).value.fired, 2 * s.clock.period)
  }

  /** The poll happens at NextPoll and fires exactly the timers due by then. */
  lemma IdlePollFires(s: Sched)
    requires SchedOk(s)
    ensures var keys := Process(s.queue, NextPoll(s)).0;
            && IdlePoll(s).Some? && |IdlePoll(s).value.fired| == |keys|
            && (forall i: nat :: i < |keys| ==>
                  && keys[i].id in s.queue && keys[i].id in s.reg
                  && IdlePoll(s).value.fired[i] == FiringOf(s, keys[i].id, NextPoll(s)))
            && (forall id :: id in s.queue && s.queue[id].deadline <= NextPoll(s) ==> KeyOf(s.queue, id) in keys)
  {
    var last := Tick(IdleAt(s, IdleCount(s)));
    var t := NextPoll(s);
    var keys := Process(s.queue, t).0;
    IdleLands(s);
    hide Now, NextPoll, IdleCount, Process;
    SilentPass(last.(execTimer := false), t);
    ProcessMeaning(s.queue, t);
    forall i: nat | i < |keys|
      ensures keys[i].id in s.queue && keys[i] == Key(s.queue[keys[i].id].deadline, keys[i].id)
    {
      assert keys[i] in keys;
    }
  }

  lemma IdleLands(s: Sched)
    ensures Polls(IdleAt(s, IdleCount(s))) && Now(Tick(IdleAt(s, IdleCount(s))).clock) == NextPoll(s)
  {
  }

  /** The invariant is exactly what makes the next poll timely. */
  lemma ServedExact(s: Sched)
    requires SchedOk(s)
    ensures Served(s) <==> Invariant(s)
  {
    hide Served, Invariant;
    if Served(s) {
      ServedMeansOnTime(s);
    }
    if Invariant(s) {
      OnTimeMeansServed(s);
    }
  }

  lemma ServedMeansOnTime(s: Sched)
    requires SchedOk(s) && Served(s)
    ensures Invariant(s)
  {
    hide IdlePoll, NextPoll, Process;
    IdlePollFires(s);
    var keys := Process(s.queue, NextPoll(s)).0;
    var fired := IdlePoll(s).value.fired;
    forall id | id in s.queue
      ensures NextPoll(s) <= Due(s, id) + 2 * s.clock.period
    {
      if s.queue[id].deadline <= NextPoll(s) {
        var i: nat :| i < |keys| && keys[i] == KeyOf(s.queue, id);
        assert Timely(fired[i], 2 * s.clock.period);
      }
    }
  }

  lemma OnTimeMeansServed(s: Sched)
    requires Invariant(s)
    ensures Served(s)
  {
    hide IdlePoll, NextPoll, Process;
    IdlePollFires(s);
    ProcessMeaning(s.queue, NextPoll(s));
    var keys := Process(s.queue, NextPoll(s)).0;
    var fired := IdlePoll(s).value.fired;
    forall i: nat | i < |fired|
      ensures Timely(fired[i], 2 * s.clock.period)
    {
      assert keys[i] in keys;
    }
  }

  // ---------- Runs ----------

  /** Power-up: no timers, the counter at zero. */
  predicate Initial(s: Sched) {
    ClockOk(s.clock) && s.queue == map[] && s.reg == map[] && s.maxCycles == 0 && !s.cbActive
  }

  lemma InitialOk(s: Sched)
    requires Initial(s)
    ensures Invariant(s)
  {
  }

  /** A run: each event continues from the state the one before it left. */
  ghost predicate IsRun(states: seq<Sched>, evs: seq<Event>, fired: seq<seq<Firing>>) {
    && |states| == |evs| + 1 && |fired| == |evs| && Initial(states[0])
    && forall k: nat :: k < |evs| ==> Continues(states[k], evs[k], states[k + 1], fired[k])
  }

  ghost predicate Continues(s: Sched, ev: Event, next: Sched, fired: seq<Firing>) {
    SchedOk(s) && Step(s, ev).Some? && Step(s, ev).value.end == next && Step(s, ev).value.fired == fired
  }

  /** The first n events of a run respect the conditions. */
  ghost predicate Respectful(states: seq<Sched>, evs: seq<Event>, fired: seq<seq<Firing>>, n: nat)
    requires IsRun(states, evs, fired) && n <= |evs|
  {
    forall j: nat :: j < n ==> Continues(states[j], evs[j], states[j + 1], fired[j]) && Respects(states[j], evs[j])
  }

  /** Whatever happens, nothing fires early and time does not go back. */
  lemma StepAlways(s: Sched, ev: Event)
    requires SchedOk(s) && Step(s, ev).Some?
    ensures var r := Step(s, ev).value;
            && SchedOk(r.end) && Now(s.clock) <= Now(r.end.clock)
            && forall i: nat :: i < |r.fired| ==> r.fired[i].deadline <= r.fired[i].time
  {
    match ev {
      case Instruction(acts, cbs) =>
        ActAllOk(s, acts);
        var s1 := ActAll(s, acts).value;
        TickAdds(s1, Now(s1.clock));
        hide ActAll, Now;
        if Polls(s1) {
          EventsAlways(Tick(s1), cbs);
        }
      case Exception(acts) =>
        ActAllOk(s, acts);
        QueueOnlyKeepsClock(s, acts);
      case Sleep(cbs, wake) =>
        EventsAlways(s, cbs);
        var r := ProcessEvents(s, cbs).value;
        hide ProcessEvents;
        TimesMono(r.end.clock.icycles, Skip(r.end).clock.icycles, r.end.clock.period);
    }
  }

  lemma EventsAlways(s: Sched, cbs: seq<Callback>)
    requires SchedOk(s) && ProcessEvents(s, cbs).Some?
    ensures var r := ProcessEvents(s, cbs).value;
            && SchedOk(r.end) && Now(r.end.clock) == Now(s.clock)
            && forall i: nat :: i < |r.fired| ==> r.fired[i].deadline <= r.fired[i].time
  {
    ProcessEventsOk(s, cbs, Now(s.clock));
    hide ProcessEvents, Now;
    var fired := ProcessEvents(s, cbs).value.fired;
    assert forall i: nat :: i < |fired| ==> Timely(fired[i], Now(s.clock));
  }

  /** No timer ever fires early, over any run. */
  lemma NeverEarly(states: seq<Sched>, evs: seq<Event>, fired: seq<seq<Firing>>, k: nat, i: nat)
    requires IsRun(states, evs, fired) && k < |evs| && i < |fired[k]|
    ensures fired[k][i].deadline <= fired[k][i].time
  {
    assert Continues(states[k], evs[k], states[k + 1], fired[k]);
    StepAlways(states[k], evs[k]);
  }

  /** Virtual time never decreases over a run. */
  lemma {:induction false} Monotone(states: seq<Sched>, evs: seq<Event>, fired: seq<seq<Firing>>, j: nat, k: nat)
    requires IsRun(states, evs, fired) && j <= k <= |evs|
    ensures Now(states[j].clock) <= Now(states[k].clock)
    decreases k - j
  {
    hide Step, Now;
    if j < k {
      assert Continues(states[j], evs[j], states[j + 1], fired[j]);
      StepAlways(states[j], evs[j]);
      Monotone(states, evs, fired, j + 1, k);
    }
  }

  lemma {:induction false} RunInvariant(states: seq<Sched>, evs: seq<Event>, fired: seq<seq<Firing>>, k: nat)
    requires IsRun(states, evs, fired) && k <= |evs| && Respectful(states, evs, fired, k)
    ensures Invariant(states[k])
    decreases k
  {
    hide Step, Invariant, Respects;
    if k > 0 {
      RunInvariant(states, evs, fired, k - 1);
      assert Continues(states[k - 1], evs[k - 1], states[k], fired[k - 1]);
      StepExact(states[k - 1], evs[k - 1]);
    } else {
      InitialOk(states[0]);
    }
  }

  /** As long as the events respect the conditions, every timer fires within the periods
      of two instructions of the later of its deadline and its registration. */
  lemma BoundedLate(states: seq<Sched>, evs: seq<Event>, fired: seq<seq<Firing>>, k: nat, i: nat)
    requires IsRun(states, evs, fired) && k < |evs| && i < |fired[k]| && Respectful(states, evs, fired, k)
    ensures SchedOk(states[k])
    ensures Timely(fired[k][i], states[k].clock.period + PeriodIn(states[k], evs[k]))
  {
    hide Step, Invariant, Respects;
    RunInvariant(states, evs, fired, k);
    assert Continues(states[k], evs[k], states[k + 1], fired[k]);
    StepExact(states[k], evs[k]);
  }

  /** Under the same conditions no queued timer is ever more than one period overdue, so
      none is forgotten. */
  lemma NoneForgotten(states: seq<Sched>, evs: seq<Event>, fired: seq<seq<Firing>>, k: nat, id: nat)
    requires IsRun(states, evs, fired) && k <= |evs| && id in states[k].queue && Respectful(states, evs, fired, k)
    ensures id in states[k].reg && Now(states[k].clock) <= Due(states[k], id) + states[k].clock.period
  {
    RunInvariant(states, evs, fired, k);
    InvariantOnTime(states[k]);
  }

  /** The conditions are exact: the events of a run respect them if and only if, from each
      of its states, idling would serve every timer within two periods. */
  lemma RunExact(states: seq<Sched>, evs: seq<Event>, fired: seq<seq<Firing>>)
    requires IsRun(states, evs, fired)
    ensures Respectful(states, evs, fired, |evs|) <==> forall j: nat :: j <= |evs| ==> SchedOk(states[j]) && Served(states[j])
  {
    hide Step, Invariant, Respects, Served;
    if Respectful(states, evs, fired, |evs|) {
      forall j: nat | j <= |evs|
        ensures SchedOk(states[j]) && Served(states[j])
      {
        RunInvariant(states, evs, fired, j);
        InvariantOk(states[j]);
        ServedExact(states[j]);
      }
    }
    if forall j: nat :: j <= |evs| ==> SchedOk(states[j]) && Served(states[j]) {
      forall j: nat | j < |evs|
        ensures Continues(states[j], evs[j], states[j + 1], fired[j]) && Respects(states[j], evs[j])
      {
        assert SchedOk(states[j + 1]) && Served(states[j + 1]);
        ServedExact(states[j]);
        ServedExact(states[j + 1]);
        assert Continues(states[j], evs[j], states[j + 1], fired[j]);
        StepExact(states[j], evs[j]);
      }
    }
  }

  lemma InvariantOk(s: Sched)
    requires Invariant(s)
    ensures SchedOk(s)
  {
  }

  /** A run in which no callback jumps respects the conditions throughout. */
  lemma {:induction false} JumpFree(states: seq<Sched>, evs: seq<Event>, fired: seq<seq<Firing>>, n: nat)
    requires IsRun(states, evs, fired) && n <= |evs|
    requires forall j: nat :: j < n ==> Continues(states[j], evs[j], states[j + 1], fired[j]) && !Step(states[j], evs[j]).value.jumped
    ensures Respectful(states, evs, fired, n) && !states[n].cbActive
    decreases n
  {
    hide Step, Invariant, Respects;
    if n > 0 {
      JumpFree(states, evs, fired, n - 1);
      RunInvariant(states, evs, fired, n - 1);
      assert Continues(states[n - 1], evs[n - 1], states[n], fired[n - 1]);
      Undisturbed(states[n - 1], evs[n - 1]);
    }
  }

  // ---------- One-shot and cyclic timers ----------

  /** A timer added without an interval fires once; one with an interval stays queued, with that
      interval, at the least later deadline in phase with the first; cancelling undoes adding. */
  lemma AddedFires(s: Sched, id: nat, deadline: nat, interval: nat, now: nat)
    requires SchedOk(s) && id !in s.queue && deadline <= now
    ensures var s1 := Act(s, Add(id, deadline, interval));
            var q := FireTop(s1, id, now).queue;
            && id in s1.queue && q - {id} == s.queue && Act(s1, Cancel(id)).queue == s.queue
            && (interval == 0 ==> id !in q)
            && (interval > 0 ==>
                  && id in q && q[id].interval == interval && now < q[id].deadline
                  && (exists k: nat :: k > 0 && q[id].deadline == deadline + k * interval)
                  && (forall k: nat :: now < deadline + k * interval ==> q[id].deadline <= deadline + k * interval))
  {
    hide Rearmed;
    if interval > 0 {
      RearmedLeast(deadline, interval, now);
    }
  }

  // ---------- The speed over a run ----------

  /** The machine's own period stays, and the period in force stays the right one for the factor. */
  predicate SpeedKept(c: Clock, d: Clock) {
    d.base == c.base && (SpeedOk(c) ==> SpeedOk(d))
  }

  lemma {:induction false} ActAllSpeed(s: Sched, acts: seq<Action>)
    requires ClockOk(s.clock) && ActAll(s, acts).Some?
    ensures SpeedKept(s.clock, ActAll(s, acts).value.clock)
    decreases |acts|
  {
    hide SpeedOk, IncrementFactor, DecrementFactor;
    if acts != [] {
      SpeedContinuous(s.clock);
      if SpeedOk(s.clock) {
        KeysMove(s.clock);
      }
      KeysBase(s.clock);
      ActAllSpeed(Act(s, acts[0]), acts[1..]);
    }
  }

  lemma KeysBase(c: Clock)
    requires ClockOk(c)
    ensures IncrementFactor(c).base == c.base && DecrementFactor(c).base == c.base
  {
  }

  lemma {:induction false} PassSpeed(s: Sched, now: nat, cbs: seq<Callback>)
    requires SchedOk(s) && Pass(s, now, cbs).Some?
    ensures SpeedKept(s.clock, Pass(s, now, cbs).value.end.clock)
    decreases |cbs|
  {
    hide SpeedOk, ActAll, FireOne;
    if s.queue != map[] && s.queue[Top(s.queue)].deadline <= now {
      PassStep(s, now, cbs);
      var s1 := FireTop(s, Top(s.queue), now);
      ActAllSpeed(s1, cbs[0].acts);
      if !cbs[0].jumps {
        PassSpeed(ActAll(s1, cbs[0].acts).value.(cbActive := false), now, cbs[1..]);
      }
    }
  }

  lemma StepSpeed(s: Sched, ev: Event)
    requires SchedOk(s) && Step(s, ev).Some?
    ensures SpeedKept(s.clock, Step(s, ev).value.end.clock)
  {
    hide ActAll, Pass;
    match ev {
      case Instruction(acts, cbs) =>
        ActAllOk(s, acts);
        ActAllSpeed(s, acts);
        var s1 := ActAll(s, acts).value;
        if Polls(s1) {
          PassSpeed(Tick(s1).(execTimer := false), Now(Tick(s1).clock), cbs);
        }
      case Exception(acts) => ActAllSpeed(s, acts);
      case Sleep(cbs, wake) => PassSpeed(s.(execTimer := false), Now(s.clock), cbs);
    }
  }

  /** In every state of a run the factor is in range and the period is the right one for it,
      whichever keys were pressed. */
  lemma {:induction false} RunSpeed(states: seq<Sched>, evs: seq<Event>, fired: seq<seq<Firing>>, k: nat)
    requires IsRun(states, evs, fired) && k <= |evs|
    ensures SpeedKept(states[0].clock, states[k].clock)
    decreases k
  {
    hide Step, SpeedOk;
    if k > 0 {
      RunSpeed(states, evs, fired, k - 1);
      assert Continues(states[k - 1], evs[k - 1], states[k], fired[k - 1]);
      StepSpeed(states[k - 1], evs[k - 1]);
    }
  }

  /** With no timer queued the loop looks again half a millisecond later, up to two periods. */
  lemma EmptyPoll(s: Sched, cbs: seq<Callback>)
    requires SchedOk(s) && ProcessEvents(s, cbs).Some?
    ensures var r := ProcessEvents(s, cbs).value;
            !r.jumped && r.end.queue == map[] && !r.end.execTimer ==>
              Now(s.clock) + 500_000 < NextPoll(r.end) <= Now(s.clock) + 500_000 + 2 * r.end.clock.period
  {
    ProcessEventsOk(s, cbs, Now(s.clock));
    var r := ProcessEvents(s, cbs).value;
    var end := Pass(s.(execTimer := false), Now(s.clock), cbs).value.end;
    hide Pass, ActAll;
    if !r.jumped && r.end.queue == map[] {
      CyclesLand(end.clock, Now(end.clock) + POLL_INTERVAL);
      Spread(r.end.maxCycles, r.end.clock.period);
    }
  }

  lemma Spread(n: nat, p: nat)
    ensures (n + 1) * p == n * p + p
  {
  }

  // ---------- Two runs that break the bound ----------

  /** The machine's own speed with a period of 1. */
  function UnitClock(icycles: nat): Clock {
    Clock(icycles, 0, 1, 4, 1)
  }

  /** An instruction that polls before the first deadline fires nothing. */
  lemma PollEarly(s: Sched, acts: seq<Action>, s1: Sched, top: nat)
    requires SchedOk(s) && SchedOk(s1) && ActAll(s, acts) == Some(s1) && Polls(s1)
    requires IsTop(s1.queue, top) && s1.queue[top].deadline > Now(Tick(s1).clock)
    ensures Step(s, Instruction(acts, [])) ==
            Some(Outcome(Tick(s1).(execTimer := false, maxCycles := CyclesTo(s1.clock, s1.queue[top].deadline)), [], false))
  {
    TopUnique(s1.queue, Top(s1.queue), top);
    hide ActAll, Now;
    assert s1.queue[top].deadline != 0 by { PollAhead(s1); NowNat(Tick(s1)); }
  }

  lemma NowNat(s: Sched)
    ensures Now(s.clock) >= 0
  {
  }

  /** An instruction that polls when only its first timer's callback, which jumps, is invoked. */
  lemma PollJumps(s: Sched, acts: seq<Action>, s1: Sched, top: nat)
    requires SchedOk(s) && SchedOk(s1) && ActAll(s, acts) == Some(s1) && Polls(s1)
    requires IsTop(s1.queue, top) && s1.queue[top].deadline <= Now(Tick(s1).clock)
    ensures var s2 := Tick(s1).(execTimer := false);
            var now := Now(s2.clock);
            Step(s, Instruction(acts, [Callback([], true)])) ==
            Some(Outcome(FireTop(s2, top, now).(maxCycles := 0), [FiringOf(s2, top, now)], true))
  {
    TopUnique(s1.queue, Top(s1.queue), top);
    var s2 := Tick(s1).(execTimer := false);
    var now := Now(s2.clock);
    assert ActAll(FireTop(s2, top, now), []) == Some(FireTop(s2, top, now));
    assert Pass(s2, now, [Callback([], true)]) == Some(Outcome(FireTop(s2, top, now), [FiringOf(s2, top, now)], true));
    hide ActAll, Now, FireTop, Pass;
  }

  lemma AddTwo(s: Sched, a: Action, b: Action)
    requires ClockOk(s.clock) && a.Add? && b.Add? && a.id != b.id && a.id !in s.queue && b.id !in s.queue
    ensures ActAll(s, [a, b]) == Some(Act(Act(s, a), b)) && ActAll(s, [a]) == Some(Act(s, a)) && ActAll(s, []) == Some(s)
  {
    var s1 := Act(s, a);
    assert [a, b][1..] == [b] && [b][1..] == [] && [a][1..] == [];
    assert ActAll(s1, [b]) == ActAll(Act(s1, b), []);
    assert ActAll(s, [a, b]) == ActAll(s1, [b]);
    assert ActAll(s, [a]) == ActAll(s1, []);
  }

  /** From s on, idling fires timer `id` too late. */
  ghost predicate ServedLate(s: Sched, f: Firing) {
    SchedOk(s) && IdlePoll(s).Some? && f in IdlePoll(s).value.fired && !Timely(f, 2 * s.clock.period)
  }

  lemma LateFiring(s: Sched, id: nat)
    requires SchedOk(s) && id in s.queue && s.queue[id].deadline <= NextPoll(s)
    requires NextPoll(s) > Due(s, id) + 2 * s.clock.period
    ensures ServedLate(s, FiringOf(s, id, NextPoll(s)))
  {
    IdlePollFires(s);
    var keys := Process(s.queue, NextPoll(s)).0;
    var i: nat :| i < |keys| && keys[i] == KeyOf(s.queue, id);
  }

  /** The states of a run in which cb_active gets stuck. */
  function Stuck(d: nat, k: nat): Sched {
    if k == 0 then Sched(UnitClock(0), false, 0, false, map[], map[])
    else if k == 1 then Sched(UnitClock(1), false, 0, true, map[2 := Timer(d, 0)], map[2 := 0])
    else if k == 2 then Sched(UnitClock(2), false, d + 1, true, map[2 := Timer(d, 0)], map[2 := 0])
    else Sched(UnitClock(3), false, d + 1, true, map[2 := Timer(d, 0), 3 := Timer(10, 0)], map[2 := 0, 3 := 2])
  }

  lemma StuckFirst(d: nat)
    requires d > 10
    ensures Continues(Stuck(d, 0), Instruction([Add(1, 1, 0), Add(2, d, 0)], [Callback([], true)]), Stuck(d, 1), [Firing(1, 1, 0, 1)])
  {
    var a, b := Add(1, 1, 0), Add(2, d, 0);
    var s0 := Stuck(d, 0);
    var a0 := Act(Act(s0, a), b);
    AddTwo(s0, a, b);
    assert IsTop(a0.queue, 1);
    PollJumps(s0, [a, b], a0, 1);
    StuckFires(d, Tick(a0).(execTimer := false));
    hide Step, ActAll, Act, FireTop, FiringOf;
  }

  lemma StuckFires(d: nat, s: Sched)
    requires s == Sched(UnitClock(1), false, 0, false, map[1 := Timer(1, 0), 2 := Timer(d, 0)], map[1 := 0, 2 := 0])
    ensures 1 in s.queue && FireTop(s, 1, 1).(maxCycles := 0) == Stuck(d, 1) && FiringOf(s, 1, 1) == Firing(1, 1, 0, 1)
  {
    var end := FireTop(s, 1, 1);
    assert end.queue == Stuck(d, 1).queue && end.reg == Stuck(d, 1).reg;
  }

  lemma StuckSecond(d: nat)
    requires d > 10
    ensures Continues(Stuck(d, 1), Instruction([], []), Stuck(d, 2), [])
  {
    var s1 := Stuck(d, 1);
    assert ActAll(s1, []) == Some(s1);
    PollEarly(s1, [], s1, 2);
    hide Step, ActAll;
  }

  lemma StuckThird(d: nat)
    requires d > 10
    ensures Continues(Stuck(d, 2), Instruction([Add(3, 10, 0)], []), Stuck(d, 3), [])
  {
    var s2 := Stuck(d, 2);
    AddTwo(s2, Add(3, 10, 0), Add(4, 0, 0));
    assert Tick(Act(s2, Add(3, 10, 0))) == Stuck(d, 3);
  }

  /** A callback jumps and leaves cb_active set. The next poll finds nothing due and is
      followed by a long wait for timer 2, in which timer 3 is added unnoticed: due at 10,
      it fires at d + 2, however large d is. */
  lemma StuckRun(d: nat) returns (states: seq<Sched>, evs: seq<Event>, fired: seq<seq<Firing>>)
    requires d > 10
    ensures IsRun(states, evs, fired) && |evs| == 3 && ServedLate(states[3], Firing(3, 10, 2, d + 2))
  {
    hide Continues, ServedLate;
    StuckFirst(d);
    StuckSecond(d);
    StuckThird(d);
    LateFiring(Stuck(d, 3), 3);
    states := [Stuck(d, 0), Stuck(d, 1), Stuck(d, 2), Stuck(d, 3)];
    evs := [Instruction([Add(1, 1, 0), Add(2, d, 0)], [Callback([], true)]), Instruction([], []), Instruction([Add(3, 10, 0)], [])];
    fired := [[Firing(1, 1, 0, 1)], [], []];
  }

  /** The states of a run in which a jump leaves an expired timer behind. */
  function Behind(k: nat): Sched {
    var q, reg := map[1 := Timer(5, 0), 2 := Timer(5, 0)], map[1 := 0, 2 := 0];
    if k == 0 then Sched(UnitClock(0), false, 0, false, map[], map[])
    else if k == 1 then Sched(UnitClock(1), false, 6, false, q, reg)
    else if k == 2 then Sched(UnitClock(6), false, 6, false, q, reg)
    else Sched(UnitClock(7), false, 0, true, map[2 := Timer(5, 0)], map[2 := 0])
  }

  lemma BehindFirst()
    ensures Continues(Behind(0), Instruction([Add(1, 5, 0), Add(2, 5, 0)], []), Behind(1), [])
  {
    var a, b := Add(1, 5, 0), Add(2, 5, 0);
    AddTwo(Behind(0), a, b);
    var a0 := Behind(1).(clock := UnitClock(0), execTimer := true, maxCycles := 0);
    assert Act(Act(Behind(0), a), b) == a0;
    PollEarly(Behind(0), [a, b], a0, 1);
    hide Step, ActAll, Act;
  }

  lemma BehindSecond()
    ensures Continues(Behind(1), Sleep([], false), Behind(2), [])
  {
    var q := Behind(1).queue;
    assert 1 in q;
    TopUnique(q, Top(q), 1);
  }

  lemma BehindThird()
    ensures Continues(Behind(2), Instruction([], [Callback([], true)]), Behind(3), [Firing(1, 5, 0, 7)])
  {
    var s2 := Behind(2);
    assert ActAll(s2, []) == Some(s2);
    var end := FireTop(Tick(s2), 1, 7).(maxCycles := 0);
    assert end.queue == map[2 := Timer(5, 0)] && end.reg == map[2 := 0];
    PollJumps(s2, [], s2, 1);
    hide Step, ActAll, FireTop;
  }

  /** Two timers due at 5: the first one's callback jumps at 7, and the second, left
      behind, fires three periods late. */
  lemma LeftBehindRun() returns (states: seq<Sched>, evs: seq<Event>, fired: seq<seq<Firing>>)
    ensures IsRun(states, evs, fired) && |evs| == 3 && ServedLate(states[3], Firing(2, 5, 0, 8))
  {
    hide Continues, ServedLate;
    BehindFirst();
    BehindSecond();
    BehindThird();
    LateFiring(Behind(3), 2);
    states := [Behind(0), Behind(1), Behind(2), Behind(3)];
    evs := [Instruction([Add(1, 5, 0), Add(2, 5, 0)], []), Sleep([], false), Instruction([], [Callback([], true)])];
    fired := [[], [], [Firing(1, 5, 0, 7)]];
  }
}
