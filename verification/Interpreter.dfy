/** The clock variables of cpu/ppc/ppcexec.cpp and the polling part of its loop. */
module Interpreter {
  import opened Bits
  import opened TimerSpec
  import opened TimerHeap
  import opened TimerQueue
  import opened TimerManager
  import opened VirtualClock
  import opened Scheduler

  /** A call that an instruction or a callback makes. */
  datatype Call =
    | AddCall(timer: TimerInfo, deadline: nat, interval: nat)
    | CancelCall(timer: TimerInfo)
    | IncrementCall
    | DecrementCall

  function ActionOf(c: Call): Action {
    match c
    case AddCall(t, deadline, interval) => Add(t.id, deadline, interval)
    case CancelCall(t) => Cancel(t.id)
    case IncrementCall => Increment
    case DecrementCall => Decrement
  }

  function Actions(calls: seq<Call>): seq<Action> {
    seq(|calls|, i requires 0 <= i < |calls| => ActionOf(calls[i]))
  }

  lemma ActionsStep(calls: seq<Call>)
    requires calls != []
    ensures Actions(calls) != [] && Actions(calls)[0] == ActionOf(calls[0]) && Actions(calls)[1..] == Actions(calls[1..])
  {
  }

  predicate Known(c: Call, timers: set<TimerInfo>) {
    match c
    case AddCall(t, _, _) => t in timers
    case CancelCall(t) => t in timers
    case _ => true
  }

  predicate AllKnown(calls: seq<Call>, timers: set<TimerInfo>) {
    forall c :: c in calls ==> Known(c, timers)
  }

  /** The body of a callback, and whether it ends in the exception jump. */
  datatype Script = Script(calls: seq<Call>, jumps: bool)

  function Callbacks(scripts: seq<Script>): seq<Callback> {
    seq(|scripts|, i requires 0 <= i < |scripts| => Callback(Actions(scripts[i].calls), scripts[i].jumps))
  }

  /** The timers and deadlines that callbacks report. */
  function Owed(fired: seq<Firing>): seq<Key> {
    seq(|fired|, i requires 0 <= i < |fired| => Key(fired[i].deadline, fired[i].id))
  }

  class Executor {
    var gIcycles: nat
    var icntPeriodNs: nat
    var icntTimeOffsetNs: nat
    var icntFactor: nat
    var icntDefaultPeriodNs: nat
    var maxCycles: nat
    /** Its `notified` is exec_timer: the notification callback sets that flag. */
    const timers: Manager
    /** When each queued timer was last registered. */
    ghost var reg: map<nat, nat>

    predicate Ready()
      reads this
    {
      icntPeriodNs > 0
    }

    function Clock(): Clock
      reads this
    {
      VirtualClock.Clock(gIcycles, icntTimeOffsetNs, icntPeriodNs, icntFactor, icntDefaultPeriodNs)
    }

    constructor (timers: Manager, instructionPeriodNs: nat)
      requires timers.Valid() && timers.State() == map[] && !timers.cbActive
      ensures this.timers == timers && Valid() && Initial(State())
      ensures icntFactor == 4 && SpeedOk(Clock())
      ensures icntPeriodNs == icntDefaultPeriodNs == if instructionPeriodNs > 1 then instructionPeriodNs else 1
    {
      hide QueueOf, Once, Heap, Keys, Distinct, Flagged;
      reg := map[];
      this.timers := timers;
      gIcycles, icntTimeOffsetNs, maxCycles := 0, 0, 0;
      icntFactor := 4;
      icntDefaultPeriodNs := if instructionPeriodNs > 1 then instructionPeriodNs else 1;
      icntPeriodNs := if instructionPeriodNs > 1 then instructionPeriodNs else 1;
      assert Pow2(4) == 16;
    }

    method GetVirtTimeNs() returns (t: nat)
      ensures t == Now(Clock())
    {
      t := icntTimeOffsetNs + gIcycles * icntPeriodNs;
    }

    method SetVirtTimeNs(timeNow: nat)
      requires Ready()
      modifies `gIcycles, `icntTimeOffsetNs
      ensures Clock() == SetTime(old(Clock()), timeNow) && Now(Clock()) == timeNow
    {
      gIcycles := timeNow / icntPeriodNs;
      icntTimeOffsetNs := timeNow % icntPeriodNs;
      SetTimeExact(old(Clock()), timeNow);
    }

    method UpdateIcntPeriod()
      modifies `icntPeriodNs
      ensures Ready() && icntPeriodNs == PeriodFor(icntDefaultPeriodNs, icntFactor)
    {
      var shifted := icntDefaultPeriodNs * Pow2(icntFactor) / 16;
      icntPeriodNs := if shifted > 1 then shifted else 1;
    }

    /** The speed keys leave the time alone and ask for a poll. */
    method IncrementIcntFactor() returns (factor: nat)
      requires Ready()
      modifies this, timers`notified
      ensures Ready() && Clock() == IncrementFactor(old(Clock())) && Now(Clock()) == Now(old(Clock()))
      ensures factor == icntFactor && maxCycles == old(maxCycles) && reg == old(reg) && timers.notified
      ensures old(SpeedOk(Clock())) ==>
                SpeedOk(Clock()) && factor == (if old(icntFactor) == 31 then 31 else old(icntFactor) + 1) &&
                old(icntPeriodNs) <= icntPeriodNs
    {
      SpeedContinuous(Clock());
      if SpeedOk(Clock()) {
        KeysMove(Clock());
      }
      var timeNow := GetVirtTimeNs();
      if icntFactor < 31 {
        icntFactor := icntFactor + 1;
      }
      UpdateIcntPeriod();
      SetVirtTimeNs(timeNow);
      timers.notified := true;
      factor := icntFactor;
    }

    method DecrementIcntFactor() returns (factor: nat)
      requires Ready()
      modifies this, timers`notified
      ensures Ready() && Clock() == DecrementFactor(old(Clock())) && Now(Clock()) == Now(old(Clock()))
      ensures factor == icntFactor && maxCycles == old(maxCycles) && reg == old(reg)
      ensures timers.notified == (old(timers.notified) || old(icntFactor) > 0)
      ensures old(SpeedOk(Clock())) ==>
                SpeedOk(Clock()) && factor == (if old(icntFactor) == 0 then 0 else old(icntFactor) - 1) &&
                icntPeriodNs <= old(icntPeriodNs)
    {
      SpeedContinuous(Clock());
      if SpeedOk(Clock()) {
        KeysMove(Clock());
      }
      if icntFactor > 0 {
        var timeNow := GetVirtTimeNs();
        icntFactor := icntFactor - 1;
        UpdateIcntPeriod();
        SetVirtTimeNs(timeNow);
        timers.notified := true;
      }
      factor := icntFactor;
    }

    // ---------- Calls ----------

    ghost predicate Valid()
      reads this, timers, timers.queue, timers.queue.c, timers.timers
    {
      Ready() && timers.Valid() && timers.State().Keys == reg.Keys
    }

    /** The state the scheduling theorems are about. */
    ghost function State(): (s: Sched)
      requires Valid()
      reads this, timers, timers.queue, timers.queue.c, timers.timers
      ensures SchedOk(s)
    {
      Sched(Clock(), timers.notified, maxCycles, timers.cbActive, timers.State(), reg)
    }

    /** Queueing a timer, and taking one off. */
    method DoAdd(t: TimerInfo, deadline: nat, interval: nat)
      requires Valid() && t in timers.timers && t.id !in timers.State()
      modifies this, timers, timers.queue, timers.timers
      ensures Valid() && State() == Act(old(State()), Add(t.id, deadline, interval))
      ensures timers.timers == old(timers.timers) && timers.fired == old(timers.fired)
    {
      hide timers.Valid, timers.State, Now;
      NotQueued(t);
      timers.AddAbsoluteTimer(t, deadline, interval);
      reg := reg[t.id := Now(Clock())];
    }

    method DoCancel(t: TimerInfo)
      requires Valid() && t in timers.timers
      modifies this, timers, timers.queue, timers.timers
      ensures Valid() && State() == Act(old(State()), Cancel(t.id))
      ensures timers.timers == old(timers.timers) && timers.fired == old(timers.fired)
    {
      hide timers.Valid, timers.State, Now;
      timers.CancelTimer(t);
      reg := reg - {t.id};
    }

    method DoSpeed(up: bool)
      requires Valid()
      modifies this, timers`notified
      ensures Valid() && State() == Act(old(State()), if up then Increment else Decrement)
    {
      hide timers.Valid, timers.State, Now, SetTime;
      if up {
        var _ := IncrementIcntFactor();
      } else {
        var _ := DecrementIcntFactor();
      }
    }

    method Do(call: Call)
      requires Valid() && Known(call, timers.timers) && Permitted(State(), ActionOf(call))
      modifies this, timers, timers.queue, timers.timers
      ensures Valid() && State() == Act(old(State()), ActionOf(call))
      ensures timers.timers == old(timers.timers) && timers.fired == old(timers.fired)
    {
      hide timers.Valid, timers.State, Act;
      match call {
        case AddCall(t, deadline, interval) => DoAdd(t, deadline, interval);
        case CancelCall(t) => DoCancel(t);
        case IncrementCall => DoSpeed(true);
        case DecrementCall => DoSpeed(false);
      }
    }

    lemma NotQueued(t: TimerInfo)
      requires Valid() && t in timers.timers && t.id !in timers.State()
      ensures !t.active
    {
      NotQueuedYet(timers.queue.c, t, timers.timers);
    }

    /** Everything an instruction or a callback does to the timers and the speed. */
    method RunCalls(calls: seq<Call>)
      requires Valid() && AllKnown(calls, timers.timers) && ActAll(State(), Actions(calls)).Some?
      modifies this, timers, timers.queue, timers.timers
      ensures Valid() && State() == ActAll(old(State()), Actions(calls)).value
      ensures timers.timers == old(timers.timers) && timers.fired == old(timers.fired)
    {
      hide timers.Valid, timers.State, Now, Act, Permitted;
      var i := 0;
      assert calls[0..] == calls;
      while i < |calls|
        invariant 0 <= i <= |calls| && Valid()
        invariant timers.timers == old(timers.timers) && timers.fired == old(timers.fired)
        invariant ActAll(State(), Actions(calls[i..])) == ActAll(old(State()), Actions(calls))
      {
        ActionsStep(calls[i..]);
        assert calls[i..][0] == calls[i] && calls[i..][1..] == calls[i + 1..];
        Do(calls[i]);
        i := i + 1;
      }
      assert calls[i..] == [];
    }

    // ---------- Polling ----------

    /** Take the first timer off the queue or re-arm it, and enter its callback. */
    method EnterTop(now: nat)
      requires Valid() && timers.queue.c != []
      modifies this, timers, timers.queue, timers.timers
      ensures Valid() && timers.timers == old(timers.timers) && old(State()).queue != map[]
      ensures State() == FireTop(old(State()), Top(old(State()).queue), now)
      ensures timers.fired == old(timers.fired) + [KeyOf(old(State()).queue, Top(old(State()).queue))]
    {
      hide timers.Valid, timers.State, KeyOf;
      timers.FireTop(now);
      ghost var top := Top(old(State()).queue);
      FireTopOk(old(State()), top, now);
      reg := if top in timers.State() then reg else reg - {top};
    }

    /** One round of process_timers: fire the first timer and run its callback, which
        clears cb_active only by returning. */
    method InvokeTop(now: nat, script: Script)
      requires Valid() && timers.queue.c != [] && AllKnown(script.calls, timers.timers)
      requires State().queue != map[]
      requires ActAll(FireTop(State(), Top(State().queue), now), Actions(script.calls)).Some?
      modifies this, timers, timers.queue, timers.timers
      ensures Valid() && timers.timers == old(timers.timers)
      ensures var top := Top(old(State()).queue);
              var acted := ActAll(FireTop(old(State()), top, now), Actions(script.calls)).value;
              && State() == acted.(cbActive := script.jumps)
              && timers.fired == old(timers.fired) + [KeyOf(old(State()).queue, top)]
    {
      hide timers.Valid, timers.State, Top, KeyOf, FireOne, ActAll;
      EnterTop(now);
      ActAllOk(State(), Actions(script.calls));
      RunCalls(script.calls);
      if !script.jumps {
        timers.cbActive := false;
      }
    }

    /** process_timers with the callbacks it invokes: returns the next deadline, unless the
        last callback jumps. */
    method ProcessTimers(scripts: seq<Script>) returns (next: nat, jumped: bool)
      requires Valid() && (forall k :: k in scripts ==> AllKnown(k.calls, timers.timers))
      requires Pass(State(), Now(Clock()), Callbacks(scripts)).Some?
      modifies this, timers, timers.queue, timers.timers
      ensures Valid() && timers.timers == old(timers.timers)
      ensures var r := Pass(old(State()), Now(old(Clock())), Callbacks(scripts)).value;
              && State() == r.end && jumped == r.jumped && timers.fired == old(timers.fired) + Owed(r.fired)
      ensures !jumped ==> next == NextDeadline(State().queue)
    {
      hide QueueOf, Once, HeapFrom, Keys, Distinct, Flagged, Now, Top, NextDeadline, Owed, ActAll, FireTop;
      var now := GetVirtTimeNs();
      next, jumped := 0, false;
      ghost var r := Pass(State(), now, Callbacks(scripts)).value;
      var i := 0;
      assert scripts[0..] == scripts;
      while timers.queue.c != [] && timers.queue.c[0].timeoutNs <= now
        invariant 0 <= i <= |scripts| && Valid() && timers.timers == old(timers.timers)
        invariant Pass(State(), now, Callbacks(scripts[i..])).Some?
        invariant var rest := Pass(State(), now, Callbacks(scripts[i..])).value;
                  && r.end == rest.end && r.jumped == rest.jumped
                  && old(timers.fired) + Owed(r.fired) == timers.fired + Owed(rest.fired)
        decreases |scripts| - i
      {
        RootKey(timers.queue.c);
        PassUnfolds(State(), now, scripts[i..], timers.fired);
        assert scripts[i..][0] == scripts[i] && scripts[i..][1..] == scripts[i + 1..];
        InvokeTop(now, scripts[i]);
        if scripts[i].jumps {
          jumped := true;
          return;
        }
        i := i + 1;
      }
      PassEnds(timers.queue.c, State(), now, scripts[i..]);
      if timers.queue.c != [] {
        next := timers.queue.c[0].timeoutNs;
      }
    }

    /** process_events, and the cycle limit it leaves: none after a jump, which starts the
        loop anew. */
    method ProcessEvents(scripts: seq<Script>) returns (jumped: bool)
      requires Valid() && (forall k :: k in scripts ==> AllKnown(k.calls, timers.timers))
      requires Scheduler.ProcessEvents(State(), Callbacks(scripts)).Some?
      modifies this, timers, timers.queue, timers.timers
      ensures Valid() && timers.timers == old(timers.timers)
      ensures var r := Scheduler.ProcessEvents(old(State()), Callbacks(scripts)).value;
              && State() == r.end && jumped == r.jumped && timers.fired == old(timers.fired) + Owed(r.fired)
    {
      hide timers.Valid, timers.State, Pass, Now, CyclesTo, NextDeadline, Owed;
      timers.notified := false;
      var next;
      next, jumped := ProcessTimers(scripts);
      if jumped {
        maxCycles := 0;
      } else {
        maxCycles := CycleLimit(next);
      }
    }

    /** The cycle count that reaches the next deadline, or half a millisecond. */
    method CycleLimit(deadline: nat) returns (max: nat)
      requires Ready()
      ensures max == CyclesTo(Clock(), if deadline == 0 then Now(Clock()) + POLL_INTERVAL else deadline)
    {
      var next := deadline;
      if next == 0 {
        var now := GetVirtTimeNs();
        next := now + POLL_INTERVAL;
      }
      max := (next - if next < icntTimeOffsetNs then next else icntTimeOffsetNs) / icntPeriodNs + 1;
    }

    // ---------- The events of the loop ----------

    /** An instruction that completes: count it, and poll when the limit is reached or the
        timers changed. */
    method Instruction(calls: seq<Call>, scripts: seq<Script>) returns (jumped: bool)
      requires Valid() && AllKnown(calls, timers.timers) && (forall k :: k in scripts ==> AllKnown(k.calls, timers.timers))
      requires Step(State(), Event.Instruction(Actions(calls), Callbacks(scripts))).Some?
      modifies this, timers, timers.queue, timers.timers
      ensures Valid() && timers.timers == old(timers.timers)
      ensures var r := Step(old(State()), Event.Instruction(Actions(calls), Callbacks(scripts))).value;
              && State() == r.end && jumped == r.jumped && timers.fired == old(timers.fired) + Owed(r.fired)
    {
      hide timers.Valid, timers.State, Scheduler.ProcessEvents, Now, ActAll;
      RunCalls(calls);
      jumped := false;
      var poll := gIcycles >= maxCycles || timers.notified;
      gIcycles := gIcycles + 1;
      if poll {
        jumped := ProcessEvents(scripts);
      }
    }

    /** An instruction that leaves through the exception jump. */
    method Exception(calls: seq<Call>)
      requires Valid() && AllKnown(calls, timers.timers)
      requires Step(State(), Event.Exception(Actions(calls))).Some?
      modifies this, timers, timers.queue, timers.timers
      ensures Valid() && timers.timers == old(timers.timers) && timers.fired == old(timers.fired)
      ensures State() == Step(old(State()), Event.Exception(Actions(calls))).value.end
    {
      hide timers.Valid, timers.State, ActAll;
      RunCalls(calls);
      maxCycles := 0;
    }

    /** One round of the sleep loop, which skips ahead unless it is woken. */
    method SleepRound(scripts: seq<Script>, wake: bool) returns (jumped: bool)
      requires Valid() && (forall k :: k in scripts ==> AllKnown(k.calls, timers.timers))
      requires Step(State(), Sleep(Callbacks(scripts), wake)).Some?
      modifies this, timers, timers.queue, timers.timers
      ensures Valid() && timers.timers == old(timers.timers)
      ensures var r := Step(old(State()), Sleep(Callbacks(scripts), wake)).value;
              && State() == r.end && jumped == r.jumped && timers.fired == old(timers.fired) + Owed(r.fired)
    {
      hide timers.Valid, timers.State, Scheduler.ProcessEvents;
      jumped := ProcessEvents(scripts);
      if !wake && !jumped {
        gIcycles := if maxCycles > gIcycles then maxCycles else gIcycles + 1;
      }
    }
  }

  /** A pass that has something to fire does what its first callback does, then the rest. */
  lemma PassUnfolds(s: Sched, now: nat, scripts: seq<Script>, fired: seq<Key>)
    requires SchedOk(s) && s.queue != map[] && s.queue[Top(s.queue)].deadline <= now
    requires Pass(s, now, Callbacks(scripts)).Some?
    ensures scripts != []
    ensures var acted := ActAll(FireTop(s, Top(s.queue), now), Actions(scripts[0].calls));
            var r := Pass(s, now, Callbacks(scripts)).value;
            var key := KeyOf(s.queue, Top(s.queue));
            && acted.Some? && SchedOk(acted.value) && acted.value.cbActive
            && (if scripts[0].jumps then r.jumped && r.end == acted.value && fired + Owed(r.fired) == fired + [key]
                else
                  var rest := Pass(acted.value.(cbActive := false), now, Callbacks(scripts[1..]));
                  && rest.Some? && r.end == rest.value.end && r.jumped == rest.value.jumped
                  && fired + Owed(r.fired) == fired + [key] + Owed(rest.value.fired))
  {
    hide Pass, FireTop, FireOne, Actions, ActAll, Owed;
    var top := Top(s.queue);
    FireTopOk(s, top, now);
    PassStep(s, now, Callbacks(scripts));
    CallbacksStep(scripts);
    var acted := ActAll(FireTop(s, top, now), Actions(scripts[0].calls)).value;
    if scripts[0].jumps {
      OwedFirst(FiringOf(s, top, now), []);
    } else {
      OwedFirst(FiringOf(s, top, now), Pass(acted.(cbActive := false), now, Callbacks(scripts[1..])).value.fired);
    }
  }

  lemma CallbacksStep(scripts: seq<Script>)
    ensures |Callbacks(scripts)| == |scripts|
    ensures scripts != [] ==> Callbacks(scripts)[0] == Callback(Actions(scripts[0].calls), scripts[0].jumps)
    ensures scripts != [] ==> Callbacks(scripts)[1..] == Callbacks(scripts[1..])
  {
  }

  lemma OwedFirst(f: Firing, fired: seq<Firing>)
    ensures Owed([f] + fired) == [Key(f.deadline, f.id)] + Owed(fired) && [f] + [] == [f] && Owed([]) == []
  {
  }

  /** Nothing more to fire: the queue is empty or its root is later than the present. */
  lemma PassEnds(c: seq<TimerInfo>, s: Sched, now: nat, scripts: seq<Script>)
    requires Once(c) && Heap(Keys(c)) && SchedOk(s) && s.queue == QueueOf(c)
    requires c == [] || c[0].timeoutNs > now
    requires Pass(s, now, Callbacks(scripts)).Some?
    ensures Pass(s, now, Callbacks(scripts)).value == Outcome(s, [], false) && Owed([]) == []
    ensures NextDeadline(s.queue) == if c == [] then 0 else c[0].timeoutNs
  {
    if c == [] {
      EmptyQueue(c);
    } else {
      RootKey(c);
    }
  }
}
