/**
 Properties of whole runs of the thread pool: the share of each queue in what the
 workers take, and whether a dispatcher asleep on a full queue is woken again.
 */
module PoolProgress {
  import opened Options
  import opened WorkPicker
  import opened PoolModel

  // --- The 4:1 ratio ---------------------------------------------------------------

  predicate IsPop(s: Step) {
    s.Enter? || s.Wake?
  }

  function Pops(steps: seq<Step>): nat {
    if steps == [] then 0 else (if IsPop(steps[0]) then 1 else 0) + Pops(steps[1..])
  }

  /** At every pop of the run the queues satisfy `cond`. */
  predicate AtEachPop(p: Pool, steps: seq<Step>, cond: Queues -> bool)
    decreases |steps|
  {
    steps == [] ||
    (Enabled(p, steps[0]) &&
     (IsPop(steps[0]) ==> cond(p.q)) &&
     AtEachPop(Next(p, steps[0]), steps[1..], cond))
  }

  predicate BothHoldWork(q: Queues) {
    q.single != [] && q.bulk != []
  }

  predicate BulkHoldsWork(q: Queues) {
    q.bulk != []
  }

  predicate SingleHoldsWork(q: Queues) {
    q.single != []
  }

  /** How many single jobs of the current round of five were served. */
  function Phase(q: Queues): int {
    if q.singlePopped >= SINGLE_BULK_RATIO then SINGLE_BULK_RATIO else q.singlePopped
  }

  lemma PopStep(p: Pool, s: Step)
    requires Inv(p) && Enabled(p, s)
    ensures Inv(Next(p, s))
    ensures var q, q' := p.q, Next(p, s).q;
            if IsPop(s) then q' == Take(q)
            else q'.takenSingle == q.takenSingle && q'.takenBulk == q.takenBulk &&
                 q'.singlePopped == q.singlePopped && q'.bulkPopped == q.bulkPopped
  {
    hide PickerPhase, Fifo, EverTaken, Take, Signal, Contended, GateCounted, StaffCounted, Admitted;
    hide Inv;
    StepKeeps(p, s);
  }

  /**
   While both queues hold work at every pop, the jobs taken from bulk are exactly
   every fifth one, wherever in the run the counting starts.
   */
  lemma {:induction false} ContestedShare(p: Pool, steps: seq<Step>, r: Pool)
    requires Inv(p) && Exec(p, steps) == Some(r)
    requires AtEachPop(p, steps, BothHoldWork)
    ensures |r.q.takenBulk| - |p.q.takenBulk| == (Phase(p.q) + Pops(steps)) / SINGLE_BULK_SUM
    ensures |r.q.takenSingle| - |p.q.takenSingle| == Pops(steps) - (Phase(p.q) + Pops(steps)) / SINGLE_BULK_SUM
    decreases |steps|
  {
    if steps != [] {
      PopStep(p, steps[0]);
      ContestedShare(Next(p, steps[0]), steps[1..], r);
    }
  }

  /** Any five contested pops serve four single jobs and one bulk job. */
  lemma FourToOne(p: Pool, steps: seq<Step>, r: Pool)
    requires Inv(p) && Exec(p, steps) == Some(r)
    requires AtEachPop(p, steps, BothHoldWork) && Pops(steps) == 5
    ensures |r.q.takenSingle| == |p.q.takenSingle| + 4
    ensures |r.q.takenBulk| == |p.q.takenBulk| + 1
  {
    ContestedShare(p, steps, r);
  }

  lemma {:induction false} HistoryGrows(p: Pool, steps: seq<Step>, r: Pool)
    requires Inv(p) && Exec(p, steps) == Some(r)
    ensures |r.q.takenBulk| >= |p.q.takenBulk| && |r.q.takenSingle| >= |p.q.takenSingle|
    decreases |steps|
  {
    if steps != [] {
      PopStep(p, steps[0]);
      HistoryGrows(Next(p, steps[0]), steps[1..], r);
    }
  }

  lemma {:induction false} BulkWait(p: Pool, steps: seq<Step>, r: Pool)
    requires Inv(p) && Exec(p, steps) == Some(r)
    requires AtEachPop(p, steps, BulkHoldsWork)
    ensures |r.q.takenBulk| == |p.q.takenBulk| ==> Phase(p.q) + Pops(steps) <= SINGLE_BULK_RATIO
    decreases |steps|
  {
    if steps != [] {
      PopStep(p, steps[0]);
      HistoryGrows(Next(p, steps[0]), steps[1..], r);
      BulkWait(Next(p, steps[0]), steps[1..], r);
    }
  }

  lemma {:induction false} SingleWait(p: Pool, steps: seq<Step>, r: Pool)
    requires Inv(p) && Exec(p, steps) == Some(r)
    requires AtEachPop(p, steps, SingleHoldsWork)
    ensures |r.q.takenSingle| == |p.q.takenSingle| ==>
              Pops(steps) <= if p.q.singlePopped >= SINGLE_BULK_RATIO then 1 else 0
    decreases |steps|
  {
    if steps != [] {
      PopStep(p, steps[0]);
      HistoryGrows(Next(p, steps[0]), steps[1..], r);
      SingleWait(Next(p, steps[0]), steps[1..], r);
    }
  }

  /** A bulk queue that holds work is served within five pops, a single queue within two. */
  lemma NoStarvation(p: Pool, steps: seq<Step>, r: Pool)
    requires Inv(p) && Exec(p, steps) == Some(r)
    ensures AtEachPop(p, steps, BulkHoldsWork) && Pops(steps) >= 5 ==> |r.q.takenBulk| > |p.q.takenBulk|
    ensures AtEachPop(p, steps, SingleHoldsWork) && Pops(steps) >= 2 ==> |r.q.takenSingle| > |p.q.takenSingle|
  {
    HistoryGrows(p, steps, r);
    if AtEachPop(p, steps, BulkHoldsWork) { BulkWait(p, steps, r); }
    if AtEachPop(p, steps, SingleHoldsWork) { SingleWait(p, steps, r); }
  }

  /**
   The counters are C ints. They never outgrow the number of pops of the run, so they
   do not wrap before 2^31 pops.
   */
  lemma {:induction false} CountersBounded(p: Pool, steps: seq<Step>, r: Pool)
    requires Inv(p) && Exec(p, steps) == Some(r)
    ensures r.q.singlePopped <= p.q.singlePopped + Pops(steps)
    ensures r.q.bulkPopped <= p.q.bulkPopped + Pops(steps)
    decreases |steps|
  {
    if steps != [] {
      PopStep(p, steps[0]);
      CountersBounded(Next(p, steps[0]), steps[1..], r);
    }
  }

  // --- Sleeping dispatchers --------------------------------------------------------

  function Asleep(g: Gate): nat {
    g.asleepSingle + g.asleepBulk
  }

  function Awake(g: Gate): nat {
    g.awakeSingle + g.awakeBulk
  }

  /**
   Some worker will still call `thrmgr_pop`, which is what signals dispatchers: it is on its way to
   look for work, or there is work that it will find before it retires, or it runs a job that will
   end. A controller asleep at the gate ends only after it was signalled, so it does not count.
   */
  ghost predicate PopAhead(p: Pool) {
    p.w.ready > 0 || (Items(p.q) > 0 && Free(p.w) > 0) || |p.w.running - p.gate.blocked| > 0
  }

  /** A dispatcher sleeps, none was signalled, and no worker there is now is going to signal one. */
  ghost predicate Stranded(p: Pool) {
    Asleep(p.gate) > 0 && Awake(p.gate) == 0 && !PopAhead(p)
  }

  /** While dispatchers sleep and none was signalled, there is work in the queue. */
  ghost predicate Guarded(p: Pool) {
    Asleep(p.gate) > 0 && Awake(p.gate) == 0 ==> Items(p.q) > 0
  }

  lemma ContendedHasWork(p: Pool, bulk: bool)
    requires StaffCounted(p.w, p.thrMax) && p.queueMax > p.thrMax && Contended(p, bulk)
    ensures Items(p.q) > 0
  {
  }

  /** Whoever falls asleep leaves work behind; whoever does not has brought some. */
  lemma DispatchGuards(p: Pool, job: Job, bulk: bool, created: bool, caller: Caller)
    requires StaffCounted(p.w, p.thrMax) && p.queueMax > p.thrMax
    ensures Guarded(Dispatch(p, job, bulk, created, caller))
  {
    hide StaffCounted, Contended;
    if Contended(p, bulk) {
      ContendedHasWork(p, bulk);
    }
  }

  lemma SignalWakes(g: Gate)
    ensures Asleep(Signal(g, true, true)) > 0 ==> Awake(Signal(g, true, true)) > 0
  {
  }

  lemma PopSignals(p: Pool)
    requires StaffCounted(p.w, p.thrMax) && p.queueMax > p.thrMax
    ensures Guarded(Pop(p))
  {
    hide StaffCounted, Contended, Take, Signal;
    var p' := p.(q := Take(p.q));
    if Items(p'.q) == 0 {
      if Contended(p', false) {
        ContendedHasWork(p', false);
      }
      if Contended(p', true) {
        ContendedHasWork(p', true);
      }
      SignalWakes(p.gate);
    }
  }

  /** The pop that empties the queue signals. */
  lemma LookGuards(p: Pool)
    requires StaffCounted(p.w, p.thrMax) && p.queueMax > p.thrMax && p.w.waiting > 0
    ensures Guarded(Look(p))
  {
    hide StaffCounted, Pop, Taken;
    PopSignals(p);
    PopKeepsStaff(p);
  }

  lemma PopKeepsStaff(p: Pool)
    ensures Pop(p).w == p.w
  {
    hide Take, Signal, Contended;
  }

  lemma GuardKeeps(p: Pool, s: Step)
    requires Inv(p) && Enabled(p, s) && Guarded(p) && p.queueMax > p.thrMax
    ensures Guarded(Next(p, s))
  {
    hide Dispatch, Look, PickerPhase, Fifo, EverTaken, Admitted, GateCounted;
    match s
    case Arrive(job, bulk, created, caller) => DispatchGuards(p, job, bulk, created, caller);
    case Retry(job, bulk, created, caller) =>
      DispatchGuards(p.(gate := Return(p.gate, bulk, caller)), job, bulk, created, caller);
    case Enter => LookGuards(p.(w := ClockIn(p.w)));
    case Wake => LookGuards(p);
    case _ =>
  }

  lemma {:induction false} RunGuards(p: Pool, steps: seq<Step>, r: Pool)
    requires Inv(p) && Guarded(p) && p.queueMax > p.thrMax
    requires Exec(p, steps) == Some(r)
    ensures Guarded(r)
    decreases |steps|
  {
    hide Inv, Guarded, Next, Enabled;
    if steps != [] {
      StepKeeps(p, steps[0]);
      StepLimits(p, steps[0]);
      GuardKeeps(p, steps[0]);
      RunGuards(Next(p, steps[0]), steps[1..], r);
    }
  }

  lemma FewerBlocked(running: multiset<Job>, controllers: multiset<Job>, blocked: multiset<Job>)
    requires blocked <= controllers <= running
    ensures |running - controllers| <= |running - blocked|
  {
    assert running - blocked == (running - controllers) + (controllers - blocked);
  }

  /**
   With a queue longer than the pool is wide, a sleeping dispatcher that nobody has signalled yet has
   queued work before it, and a live worker that is no controller to pop it.
   */
  lemma {:induction false} NeverStranded(maxThreads: int, maxQueue: int, steps: seq<Step>, p: Pool)
    requires Reaches(maxThreads, maxQueue, steps, p) && AllCreated(steps)
    requires maxQueue > maxThreads
    ensures Asleep(p.gate) > 0 && Awake(p.gate) == 0 ==>
              Items(p.q) > 0 && Free(p.w) + |p.w.running - p.w.controllers| > 0
    ensures !Stranded(p)
  {
    ReachedInv(maxThreads, maxQueue, steps, p);
    QueuedWorkHasWorker(maxThreads, maxQueue, steps, p);
    FewerBlocked(p.w.running, p.w.controllers, p.gate.blocked);
    var p0 := NewPool(maxThreads, maxQueue).value;
    NewPoolInv(p0);
    RunGuards(p0, steps, p);
  }

  /** A run in which every thread that was asked for was created. */
  ghost predicate Track(maxThreads: int, maxQueue: int, steps: seq<Step>, p: Pool) {
    Reaches(maxThreads, maxQueue, steps, p) && AllCreated(steps)
  }

  // --- Stranded for good -----------------------------------------------------------

  /** Dispatchers at the gate that are not MULTISCAN jobs. There is one such dispatcher, the receive loop. */
  function Outsiders(g: Gate): int {
    Asleep(g) + Awake(g) - |g.blocked|
  }

  /** No sleeper wakes for no reason, and the receive loop does not dispatch while it waits at the gate. */
  predicate CalmStep(p: Pool, s: Step) {
    && !s.Spurious?
    && (s.Wake? ==> Items(p.q) > 0)
    && (s.Arrive? && s.caller == Outside ==> Outsiders(p.gate) == 0)
  }

  predicate Calm(p: Pool, steps: seq<Step>)
    decreases |steps|
  {
    steps != [] ==> Enabled(p, steps[0]) && CalmStep(p, steps[0]) && Calm(Next(p, steps[0]), steps[1..])
  }

  /** Whatever comes next, the same dispatchers sleep on and none is signalled. */
  ghost predicate ForGood(p: Pool) {
    forall steps :: Calm(p, steps) && Exec(p, steps).Some? ==> StillAsleep(p, Exec(p, steps).value)
  }

  ghost predicate StillAsleep(p: Pool, r: Pool) {
    Stranded(r) && r.gate.blocked == p.gate.blocked && Asleep(r.gate) >= Asleep(p.gate)
  }

  /** Nobody is left to pop, and the receive loop sleeps itself or will do so if it dispatches. */
  ghost predicate Stuck(p: Pool) {
    Inv(p) && Stranded(p) && Items(p.q) == 0 && (Outsiders(p.gate) > 0 || |p.gate.blocked| >= p.queueMax)
  }

  /** In a stranded pool every running job is a controller asleep at the gate. */
  lemma AllBlocked(p: Pool)
    requires Inv(p) && !PopAhead(p)
    ensures p.w.running == p.w.controllers == p.gate.blocked && p.w.ready == 0
  {
    var w, blocked := p.w, p.gate.blocked;
    assert w.running == blocked + (w.running - blocked);
    assert w.running == blocked + multiset{};
  }

  lemma StuckArrive(p: Pool, s: Step)
    requires Stuck(p) && s.Arrive? && Enabled(p, s) && CalmStep(p, s)
    ensures Stuck(Next(p, s)) && StillAsleep(p, Next(p, s))
  {
    hide PickerPhase, Fifo, EverTaken;
    AllBlocked(p);
    StepKeeps(p, s);
    assert s.caller == Outside && Contended(p, s.bulk);
    assert p.gate.blocked + multiset{} == p.gate.blocked;
  }

  lemma StuckStaff(p: Pool, s: Step)
    requires Stuck(p) && (s.Timeout? || s.Decide?) && Enabled(p, s)
    ensures Stuck(Next(p, s)) && StillAsleep(p, Next(p, s))
  {
    hide PickerPhase, Fifo, EverTaken, Admitted, GateCounted;
    StepKeeps(p, s);
  }

  /** Nothing else can happen. */
  lemma StuckSteps(p: Pool, s: Step)
    requires Stuck(p) && Enabled(p, s) && CalmStep(p, s)
    ensures s.Arrive? || s.Timeout? || s.Decide?
  {
    hide PickerPhase, Fifo, EverTaken, Admitted;
    AllBlocked(p);
  }

  lemma {:induction false} StuckRun(p: Pool, steps: seq<Step>, r: Pool)
    requires Stuck(p) && Calm(p, steps) && Exec(p, steps) == Some(r)
    ensures StillAsleep(p, r)
    decreases |steps|
  {
    hide Stranded, Inv, Next, Enabled, CalmStep, Outsiders;
    if steps != [] {
      StuckSteps(p, steps[0]);
      if steps[0].Arrive? {
        StuckArrive(p, steps[0]);
      } else {
        StuckStaff(p, steps[0]);
      }
      StuckRun(Next(p, steps[0]), steps[1..], r);
    }
  }

  /** Nobody is left to pop, but the receive loop is awake and finds a place in the queue. */
  ghost predicate Rescuable(p: Pool) {
    Inv(p) && Stranded(p) && Items(p.q) == 0 && Outsiders(p.gate) == 0 && |p.gate.blocked| < p.queueMax
  }

  lemma RescuableStaff(p: Pool, s: Step)
    requires Rescuable(p) && (s.Timeout? || s.Decide?) && Enabled(p, s)
    ensures Rescuable(Next(p, s)) && CalmStep(p, s)
    ensures 2 * Next(p, s).w.waiting + Next(p, s).w.leaving < 2 * p.w.waiting + p.w.leaving
  {
    hide PickerPhase, Fifo, EverTaken, Admitted, GateCounted;
    StepKeeps(p, s);
  }

  lemma ConnectionAccepted(p: Pool, a: Step)
    requires Rescuable(p) && Free(p.w) == 0 && a == Arrive(0, false, true, Outside)
    ensures Enabled(p, a) && CalmStep(p, a)
    ensures var q := Next(p, a);
            && q.q.single == [0] && q.q.bulk == [] && q.w.ready == 1 && q.w.waiting == 0
            && q.w.idle == 0 && q.w.alive == |p.gate.blocked| + 1 && q.gate == p.gate && q.queueMax == p.queueMax
  {
    hide PickerPhase, Fifo, EverTaken;
    AllBlocked(p);
  }

  /** A worker that takes the only job signals a sleeping controller, if the queue has room. */
  lemma TakerSignals(p: Pool)
    requires p.q.single == [0] && p.q.bulk == [] && p.w.ready == 1 && p.w.waiting == 0
    requires p.w.idle == 0 && p.w.alive <= p.queueMax && p.queueMax >= 2 && p.gate.asleepBulk > 0
    ensures Enabled(p, Enter) && CalmStep(p, Enter) && Awake(Next(p, Enter).gate) > 0
  {
  }

  lemma {:induction false} RescueRun(p: Pool) returns (steps: seq<Step>, r: Pool)
    requires Rescuable(p)
    ensures Calm(p, steps) && Exec(p, steps) == Some(r) && Awake(r.gate) > 0
    decreases 2 * p.w.waiting + p.w.leaving
  {
    hide Inv, Next, CalmStep, Stranded, Outsiders;
    if p.w.waiting + p.w.leaving > 0 {
      var s := if p.w.waiting > 0 then Timeout else Decide;
      RescuableStaff(p, s);
      var rest;
      rest, r := RescueRun(Next(p, s));
      steps := [s] + rest;
      assert steps[1..] == rest;
    } else {
      steps, r := NextConnection(p);
    }
  }

  lemma NextConnection(p: Pool) returns (steps: seq<Step>, r: Pool)
    requires Rescuable(p) && p.w.waiting == p.w.leaving == 0
    ensures Calm(p, steps) && Exec(p, steps) == Some(r) && Awake(r.gate) > 0
  {
    assert p.w.ready == 0 && p.gate.asleepBulk > 0 && |p.gate.blocked| >= 1;
    hide Inv, Next, Enabled, CalmStep, Stranded, Outsiders;
    var a := Arrive(0, false, true, Outside);
    ConnectionAccepted(p, a);
    TakerSignals(Next(p, a));
    steps, r := [a, Enter], Next(Next(p, a), Enter);
    assert steps[1..] == [Enter] && [Enter][1..] == [];
    assert Exec(Next(p, a), [Enter]) == Some(r) && Calm(Next(p, a), [Enter]);
  }

  /** With thread creation working, a stranded dispatcher has no queued work before it. */
  lemma StrandedIsEmpty(p: Pool)
    requires Inv(p) && Staffed(p) && Stranded(p)
    ensures Items(p.q) == 0
  {
    AllBlocked(p);
  }

  /**
   A stranded dispatcher sleeps for good if and only if the receive loop sleeps too, or as many
   controllers sleep as the queue has places. Otherwise the next connection gets it going.
   */
  lemma ForGoodIff(maxThreads: int, maxQueue: int, steps: seq<Step>, p: Pool)
    requires Track(maxThreads, maxQueue, steps, p) && Stranded(p)
    ensures ForGood(p) <==> Outsiders(p.gate) > 0 || |p.gate.blocked| >= maxQueue
  {
    hide Calm, Exec, NewPool;
    ReachedInv(maxThreads, maxQueue, steps, p);
    StrandedIsEmpty(p);
    assert Outsiders(p.gate) >= 0;
    if Outsiders(p.gate) > 0 || |p.gate.blocked| >= maxQueue {
      forall more | Calm(p, more) && Exec(p, more).Some? ensures StillAsleep(p, Exec(p, more).value) {
        StuckRun(p, more, Exec(p, more).value);
      }
    } else {
      var more, r := RescueRun(p);
      assert !StillAsleep(p, r);
    }
  }

  // When the queue is no longer than the pool is wide, a run strands a dispatcher:
  // as many workers as the queue has places time out together, a dispatcher counts
  // them as busy and goes to sleep, and they retire without signalling it.

  lemma {:induction false} ExecSnoc(p: Pool, steps: seq<Step>, r: Pool, s: Step)
    requires Exec(p, steps) == Some(r) && Enabled(r, s)
    ensures Exec(p, steps + [s]) == Some(Next(r, s))
    decreases |steps|
  {
    hide Next, Enabled;
    if steps == [] {
      assert (steps + [s])[1..] == [];
    } else {
      assert (steps + [s])[1..] == steps[1..] + [s];
      ExecSnoc(Next(p, steps[0]), steps[1..], r, s);
    }
  }

  lemma TrackSnoc(maxThreads: int, maxQueue: int, steps: seq<Step>, p: Pool, s: Step)
      returns (longer: seq<Step>, q: Pool)
    requires Track(maxThreads, maxQueue, steps, p) && Enabled(p, s) && (IsDispatch(s) ==> s.created)
    ensures Track(maxThreads, maxQueue, longer, q) && q == Next(p, s) && q.thrMax == p.thrMax &&
            q.queueMax == p.queueMax
  {
    hide Next, Enabled;
    ExecSnoc(NewPool(maxThreads, maxQueue).value, steps, p, s);
    StepLimits(p, s);
    longer, q := steps + [s], Next(p, s);
  }

  /** An empty queue, these numbers of workers that run nothing, and controllers for all that run. */
  ghost predicate AtRest(p: Pool, ready: nat, waiting: nat, leaving: nat, busy: multiset<Job>, gate: Gate) {
    && Items(p.q) == 0
    && p.w.ready == ready && p.w.waiting == waiting && p.w.leaving == leaving
    && p.w.running == p.w.controllers == busy && p.w.multiscan == |busy|
    && p.w.alive == ready + waiting + leaving + |busy| && p.w.idle == waiting
    && p.gate == gate
  }

  /** With the gate empty a worker that finds nothing goes to sleep. */
  lemma LookInVain(p: Pool, n: nat, w: nat, left: nat, busy: multiset<Job>)
    requires AtRest(p, n + 1, w, left, busy, NO_GATE)
    ensures Enabled(p, Enter) && AtRest(Next(p, Enter), n, w + 1, left, busy, NO_GATE)
  {
    hide Contended;
  }

  /** A job arrives at an idle pool. */
  lemma JobArrives(p: Pool, n: nat, w: nat, job: Job)
    requires AtRest(p, n, w, 0, multiset{}, NO_GATE) && n < p.queueMax && p.queueMax <= p.thrMax
    requires p.queueMax >= 1 && w <= 1
    ensures var a := Arrive(job, false, true, Outside);
            var q := Next(p, a);
            && Enabled(p, a) && q.q.single == [job] && q.q.bulk == [] && q.gate == NO_GATE
            && q.w == if w == 0 then p.w.(alive := n + 1, ready := n + 1) else p.w
  {
  }

  /** A worker takes the only job there is. */
  lemma JobTaken(p: Pool, s: Step, job: Job)
    requires p.q.single == [job] && p.q.bulk == [] && p.gate == NO_GATE && p.w.running == multiset{}
    requires (s == Enter && p.w.ready > 0) || (s == Wake && p.w.waiting > 0)
    ensures var q := Next(p, s);
            && Enabled(p, s) && Items(q.q) == 0 && q.gate == NO_GATE && q.w.running == multiset{job}
            && q.w == if s == Enter then p.w.(ready := p.w.ready - 1, running := multiset{job})
                      else p.w.(waiting := p.w.waiting - 1, idle := p.w.idle - 1, running := multiset{job})
  {
    hide Contended;
  }

  lemma JobEnds(p: Pool, job: Job)
    requires p.w.running == multiset{job} && p.gate == NO_GATE && p.w.controllers == multiset{}
    ensures var q := Next(p, Finish(job));
            && Enabled(p, Finish(job)) && q.q == p.q && q.gate == NO_GATE
            && q.w == p.w.(running := multiset{}, done := p.w.done + multiset{job}, ready := p.w.ready + 1)
  {
    assert multiset{job} - multiset{job} == multiset{};
  }

  lemma {:induction false} HireReady(maxThreads: int, maxQueue: int, n: nat) returns (steps: seq<Step>, p: Pool)
    requires 1 <= maxThreads && n <= maxQueue <= maxThreads
    ensures Track(maxThreads, maxQueue, steps, p) && AtRest(p, n, 0, 0, multiset{}, NO_GATE)
    ensures p.thrMax == maxThreads && p.queueMax == maxQueue
  {
    hide Next, Enabled;
    if n == 0 {
      steps, p := [], NewPool(maxThreads, maxQueue).value;
      FreshAtRest(maxThreads, maxQueue);
    } else {
      steps, p := HireReady(maxThreads, maxQueue, n - 1);
      JobArrives(p, n - 1, 0, 0);
      steps, p := TrackSnoc(maxThreads, maxQueue, steps, p, Arrive(0, false, true, Outside));
      JobTaken(p, Enter, 0);
      steps, p := TrackSnoc(maxThreads, maxQueue, steps, p, Enter);
      JobEnds(p, 0);
      steps, p := TrackSnoc(maxThreads, maxQueue, steps, p, Finish(0));
    }
  }

  lemma FreshAtRest(maxThreads: int, maxQueue: int)
    requires maxThreads >= 1
    ensures Track(maxThreads, maxQueue, [], NewPool(maxThreads, maxQueue).value)
    ensures AtRest(NewPool(maxThreads, maxQueue).value, 0, 0, 0, multiset{}, NO_GATE)
  {
  }

  lemma TimesOut(p: Pool, n: nat, left: nat, busy: multiset<Job>)
    requires AtRest(p, n, 1, left, busy, NO_GATE)
    ensures Enabled(p, Timeout) && AtRest(Next(p, Timeout), n, 0, left + 1, busy, NO_GATE)
  {
  }

  lemma Retires(p: Pool, n: nat, busy: multiset<Job>, gate: Gate)
    requires AtRest(p, 0, 0, n + 1, busy, gate)
    ensures Enabled(p, Decide) && AtRest(Next(p, Decide), 0, 0, n, busy, gate)
  {
  }

  lemma {:induction false} ReadyToLeaving(maxThreads: int, maxQueue: int, n: nat, before: seq<Step>, b: Pool, left: nat,
                                          busy: multiset<Job>)
    returns (steps: seq<Step>, p: Pool)
    requires Track(maxThreads, maxQueue, before, b) && AtRest(b, n, 0, left, busy, NO_GATE)
    ensures Track(maxThreads, maxQueue, steps, p) && AtRest(p, 0, 0, left + n, busy, NO_GATE)
    ensures p.thrMax == b.thrMax && p.queueMax == b.queueMax
    decreases n
  {
    hide Next, Enabled, AtRest;
    steps, p := before, b;
    if n > 0 {
      LookInVain(p, n - 1, 0, left, busy);
      steps, p := TrackSnoc(maxThreads, maxQueue, steps, p, Enter);
      TimesOut(p, n - 1, left, busy);
      steps, p := TrackSnoc(maxThreads, maxQueue, steps, p, Timeout);
      steps, p := ReadyToLeaving(maxThreads, maxQueue, n - 1, steps, p, left + 1, busy);
    }
  }

  lemma {:induction false} AllRetire(maxThreads: int, maxQueue: int, n: nat, before: seq<Step>, b: Pool,
                                     busy: multiset<Job>, gate: Gate)
    returns (steps: seq<Step>, p: Pool)
    requires Track(maxThreads, maxQueue, before, b) && AtRest(b, 0, 0, n, busy, gate)
    ensures Track(maxThreads, maxQueue, steps, p) && AtRest(p, 0, 0, 0, busy, gate)
    decreases n
  {
    hide Next, Enabled, AtRest;
    steps, p := before, b;
    if n > 0 {
      Retires(p, n - 1, busy, gate);
      steps, p := TrackSnoc(maxThreads, maxQueue, steps, p, Decide);
      steps, p := AllRetire(maxThreads, maxQueue, n - 1, steps, p, busy, gate);
    }
  }

  /** A full queue with nothing in it: every worker has timed out and will retire without a pop. */
  lemma FullOfLeavers(maxThreads: int, maxQueue: int) returns (steps: seq<Step>, p: Pool)
    requires 1 <= maxThreads && maxQueue <= maxThreads
    ensures Track(maxThreads, maxQueue, steps, p) && Contended(p, false) && !PopAhead(p)
    ensures AtRest(p, 0, 0, NonNegative(maxQueue), multiset{}, NO_GATE)
  {
    if maxQueue < 0 {
      steps, p := [], NewPool(maxThreads, maxQueue).value;
      FreshAtRest(maxThreads, maxQueue);
    } else {
      steps, p := HireReady(maxThreads, maxQueue, maxQueue);
      steps, p := ReadyToLeaving(maxThreads, maxQueue, maxQueue, steps, p, 0, multiset{});
    }
    ReachedInv(maxThreads, maxQueue, steps, p);
  }

  lemma SleeperArrives(p: Pool, n: nat, busy: multiset<Job>, gate: Gate, bulk: bool, caller: Caller)
    requires AtRest(p, 0, 0, n, busy, gate) && Contended(p, bulk) && MayCall(p, bulk, caller)
    ensures var a := Arrive(0, bulk, true, caller);
            Enabled(p, a) && AtRest(Next(p, a), 0, 0, n, busy, FallAsleep(gate, bulk, caller))
  {
    hide Contended;
  }

  lemma AloneIsStranded(p: Pool, busy: multiset<Job>, gate: Gate)
    requires AtRest(p, 0, 0, 0, busy, gate) && Asleep(gate) > 0 && Awake(gate) == 0 && gate.blocked == busy
    ensures Stranded(p) && p.gate == gate && p.w.running == p.w.controllers == busy
  {
    assert busy - busy == multiset{};
  }

  lemma StrandingRun(maxThreads: int, maxQueue: int) returns (steps: seq<Step>, p: Pool)
    requires 1 <= maxThreads && maxQueue <= maxThreads
    ensures Track(maxThreads, maxQueue, steps, p) && Stranded(p) && ForGood(p)
  {
    hide Next, Enabled, AtRest, Contended, Stranded, ForGood;
    var n := NonNegative(maxQueue);
    steps, p := FullOfLeavers(maxThreads, maxQueue);
    SleeperArrives(p, n, multiset{}, NO_GATE, false, Outside);
    steps, p := TrackSnoc(maxThreads, maxQueue, steps, p, Arrive(0, false, true, Outside));
    var gate := FallAsleep(NO_GATE, false, Outside);
    steps, p := AllRetire(maxThreads, maxQueue, n, steps, p, multiset{}, gate);
    AloneIsStranded(p, multiset{}, gate);
    ForGoodIff(maxThreads, maxQueue, steps, p);
  }

  /**
   With every thread creation working, some run strands a sleeping dispatcher, and some run does so
   for good, exactly when the queue limit does not exceed the number of threads.
   */
  lemma StrandedIff(maxThreads: int, maxQueue: int)
    requires maxThreads >= 1
    ensures (exists steps, p :: Track(maxThreads, maxQueue, steps, p) && Stranded(p)) <==> maxQueue <= maxThreads
    ensures (exists steps, p :: Track(maxThreads, maxQueue, steps, p) && Stranded(p) && ForGood(p)) <==>
            maxQueue <= maxThreads
  {
    hide Stranded, ForGood;
    if maxQueue <= maxThreads {
      var steps, p := StrandingRun(maxThreads, maxQueue);
    } else {
      forall steps, p | Track(maxThreads, maxQueue, steps, p)
        ensures !Stranded(p)
      {
        NeverStranded(maxThreads, maxQueue, steps, p);
      }
    }
  }

  /** A queue can be full while no worker is going to pop in exactly the same settings. */
  lemma FullQueueIff(maxThreads: int, maxQueue: int)
    requires maxThreads >= 1
    ensures (exists steps, p, bulk :: Track(maxThreads, maxQueue, steps, p) && Contended(p, bulk) && !PopAhead(p)) <==>
            maxQueue <= maxThreads
  {
    hide Contended;
    if maxQueue <= maxThreads {
      var steps, p := FullOfLeavers(maxThreads, maxQueue);
      assert Track(maxThreads, maxQueue, steps, p) && Contended(p, false) && !PopAhead(p);
    } else {
      forall steps, p, bulk | Track(maxThreads, maxQueue, steps, p) && Contended(p, bulk)
        ensures PopAhead(p)
      {
        FullQueueMovesOn(maxThreads, maxQueue, steps, p, bulk);
        ReachedInv(maxThreads, maxQueue, steps, p);
        FewerBlocked(p.w.running, p.w.controllers, p.gate.blocked);
      }
    }
  }

  // A MULTISCAN controller can be the one that is stranded.

  lemma ControllerClaims(p: Pool, n: nat)
    requires Items(p.q) == 0 && p.gate == NO_GATE && p.thrMax >= 2 && p.w.multiscan == 0
    requires p.w.running == multiset{0} && p.w.controllers == multiset{}
    requires p.w.ready == n && p.w.waiting == p.w.leaving == p.w.idle == 0 && p.w.alive == n + 1
    ensures Enabled(p, Claim(0)) && AtRest(Next(p, Claim(0)), n, 0, 0, multiset{0}, NO_GATE)
  {
    assert multiset{} + multiset{0} == multiset{0};
  }

  /** As many workers as the queue has places, one of them a controller. */
  lemma HireController(maxThreads: int, maxQueue: int) returns (steps: seq<Step>, p: Pool)
    requires 2 <= maxThreads && 1 <= maxQueue <= maxThreads
    ensures Track(maxThreads, maxQueue, steps, p) && AtRest(p, maxQueue - 1, 0, 0, multiset{0}, NO_GATE)
    ensures p.thrMax == maxThreads && p.queueMax == maxQueue
  {
    hide Next, Enabled;
    steps, p := HireReady(maxThreads, maxQueue, maxQueue);
    LookInVain(p, maxQueue - 1, 0, 0, multiset{});
    steps, p := TrackSnoc(maxThreads, maxQueue, steps, p, Enter);
    JobArrives(p, maxQueue - 1, 1, 0);
    steps, p := TrackSnoc(maxThreads, maxQueue, steps, p, Arrive(0, false, true, Outside));
    JobTaken(p, Wake, 0);
    steps, p := TrackSnoc(maxThreads, maxQueue, steps, p, Wake);
    ControllerClaims(p, maxQueue - 1);
    steps, p := TrackSnoc(maxThreads, maxQueue, steps, p, Claim(0));
  }

  /** The workers time out, then the controller and after it the receive loop find the queue full. */
  lemma BothFallAsleep(maxThreads: int, maxQueue: int, before: seq<Step>, b: Pool, n: nat)
    returns (steps: seq<Step>, p: Pool, gate: Gate)
    requires Track(maxThreads, maxQueue, before, b) && AtRest(b, 0, 0, n, multiset{0}, NO_GATE)
    requires b.queueMax == n + 1
    ensures Track(maxThreads, maxQueue, steps, p) && AtRest(p, 0, 0, n, multiset{0}, gate)
    ensures gate == FallAsleep(FallAsleep(NO_GATE, true, Controller(0)), false, Outside)
  {
    hide Next, Enabled, Track;
    SleeperArrives(b, n, multiset{0}, NO_GATE, true, Controller(0));
    steps, p := TrackSnoc(maxThreads, maxQueue, before, b, Arrive(0, true, true, Controller(0)));
    gate := FallAsleep(NO_GATE, true, Controller(0));
    SleeperArrives(p, n, multiset{0}, gate, false, Outside);
    steps, p := TrackSnoc(maxThreads, maxQueue, steps, p, Arrive(0, false, true, Outside));
    gate := FallAsleep(gate, false, Outside);
  }

  lemma StrandedControllerRun(maxThreads: int, maxQueue: int) returns (steps: seq<Step>, p: Pool)
    requires 2 <= maxThreads && 1 <= maxQueue <= maxThreads
    ensures Track(maxThreads, maxQueue, steps, p) && Stranded(p) && ForGood(p)
    ensures p.gate.blocked == p.w.running == p.w.controllers == multiset{0}
  {
    hide Track, Stranded, ForGood, AtRest;
    var n := maxQueue - 1;
    steps, p := HireController(maxThreads, maxQueue);
    steps, p := ReadyToLeaving(maxThreads, maxQueue, n, steps, p, 0, multiset{0});
    var gate;
    steps, p, gate := BothFallAsleep(maxThreads, maxQueue, steps, p, n);
    assert gate.blocked == multiset{0} && Outsiders(gate) > 0;
    steps, p := AllRetire(maxThreads, maxQueue, n, steps, p, multiset{0}, gate);
    AloneIsStranded(p, multiset{0}, gate);
    ForGoodIff(maxThreads, maxQueue, steps, p);
  }

  /**
   A MULTISCAN controller can be stranded, and can be so for good, exactly when there can be one and the
   queue is not longer than the pool is wide.
   */
  lemma StrandedControllerIff(maxThreads: int, maxQueue: int)
    requires maxThreads >= 1
    ensures (exists steps, p :: Track(maxThreads, maxQueue, steps, p) && Stranded(p) && |p.gate.blocked| > 0) <==>
            maxThreads >= 2 && 1 <= maxQueue <= maxThreads
    ensures (exists steps, p ::
               Track(maxThreads, maxQueue, steps, p) && Stranded(p) && ForGood(p) && |p.gate.blocked| > 0) <==>
            maxThreads >= 2 && 1 <= maxQueue <= maxThreads
  {
    hide Stranded, ForGood;
    if maxThreads >= 2 && 1 <= maxQueue <= maxThreads {
      var steps, p := StrandedControllerRun(maxThreads, maxQueue);
      assert |p.gate.blocked| > 0;
    } else {
      forall steps, p | Track(maxThreads, maxQueue, steps, p) && Stranded(p)
        ensures |p.gate.blocked| == 0
      {
        if maxQueue > maxThreads {
          NeverStranded(maxThreads, maxQueue, steps, p);
        }
        ReachedInv(maxThreads, maxQueue, steps, p);
        NoRoomNoController(p);
      }
    }
  }

  lemma NoRoomNoController(p: Pool)
    requires Inv(p)
    ensures |p.gate.blocked| > 0 ==> p.thrMax >= 2 && p.queueMax >= 1
  {
    assert p.w.controllers == p.gate.blocked + (p.w.controllers - p.gate.blocked);
    assert p.w.running == p.w.controllers + (p.w.running - p.w.controllers);
  }
}
